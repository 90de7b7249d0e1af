/** Properties of the earlier driver (module DhtLegacy): what `readByte`
    makes of its eight samples, and what `read` returns for the line shapes
    it meets. */
module DhtLegacyProofs {
  import opened Wire
  import opened Bits
  import opened DhtLegacy

  // ------------------------------------------------------------ readByte

  /** The byte keeps every sample: unpacking it (bit 7 - i as element i)
      gives back what was sampled. */
  lemma SampledByteBits(line: seq<Level>, from: nat)
    ensures UnpackByte(PackByte(HighBits(line, from, 8))) == HighBits(line, from, 8)
  {
    UnpackPackByte(HighBits(line, from, 8));
  }

  /** Eight LOW samples give 0 and eight HIGH samples give 0xFF. */
  lemma SampledByteExtremes(line: seq<Level>, from: nat)
    ensures Holds(line, from, 8, Low) ==> PackByte(HighBits(line, from, 8)) == 0
    ensures Holds(line, from, 8, High) ==> PackByte(HighBits(line, from, 8)) == 0xFF
  {
    var bs := HighBits(line, from, 8);
    PackByteExtremes(bs);
    if Holds(line, from, 8, Low) {
      assert forall j :: 0 <= j < 8 ==> !bs[j] by {
        forall j | 0 <= j < 8 ensures !bs[j] {
          assert Sample(line, from + j) == Low;
        }
      }
    }
    if Holds(line, from, 8, High) {
      assert forall j :: 0 <= j < 8 ==> bs[j] by {
        forall j | 0 <= j < 8 ensures bs[j] {
          assert Sample(line, from + j) == High;
        }
      }
    }
  }

  /** The line sends the bits bs from sample `from` on. */
  ghost predicate Sends(line: seq<Level>, from: nat, bs: seq<bool>)
  {
    forall t :: 0 <= t < |bs| ==> Sample(line, from + t) == Levels(bs)[t]
  }

  /** Sampling a line that sends bs reads bs back. */
  lemma SamplesOfSent(line: seq<Level>, from: nat, bs: seq<bool>)
    requires Sends(line, from, bs)
    ensures HighBits(line, from, |bs|) == bs
  {
    forall t | 0 <= t < |bs| ensures HighBits(line, from, |bs|)[t] == bs[t] {
      assert Sample(line, from + t) == Levels(bs)[t];
    }
  }

  /** A byte sent most significant bit first is read back unchanged. */
  lemma SentByteIsRead(line: seq<Level>, from: nat, b: bv8)
    requires Sends(line, from, UnpackByte(b))
    ensures PackByte(HighBits(line, from, 8)) == b
  {
    SamplesOfSent(line, from, UnpackByte(b));
    PackUnpackByte(b);
  }

  /** Five bytes sent in order are read back into `_data` in order. */
  lemma SentFrameIsRead(line: seq<Level>, from: nat, d: seq<bv8>)
    requires |d| == FRAME_BYTES && Sends(line, from, UnpackFrame(d))
    ensures PackFrame(HighBits(line, from, 8 * FRAME_BYTES)) == d
  {
    SamplesOfSent(line, from, UnpackFrame(d));
    PackUnpackFrame(d);
  }

  // ---------------------------------------------------------------- read

  /** `read` returns either 0 or the `_data[2]` it leaves behind. */
  lemma {:induction false} PollValue(line: seq<Level>, at: nat, round: nat, budget: nat, data: seq<bv8>)
    requires |data| == FRAME_BYTES
    ensures Poll(line, at, round, budget, data).value in {0, Poll(line, at, round, budget, data).data[2]}
    decreases budget - round
  {
    if Sample(line, at) == High && round < budget {
      if Sample(line, at + 1) == High {
        PollValue(line, at + 2, round + 1, budget, data);
      } else if Sample(line, at + 2) == Low {
        PollValue(line, at + 3, round + 1, budget, data);
      } else {
        PollValue(line, at + 3 + 8 * FRAME_BYTES, round + 1, budget, PackFrame(HighBits(line, at + 3, 8 * FRAME_BYTES)));
      }
    }
  }

  /** A line reading LOW at the first poll ends `read` at once: `_data` is not
      touched and its old byte 2 is returned. */
  lemma LowAtFirstPoll(line: seq<Level>, at: nat, budget: nat, data: seq<bv8>)
    requires |data| == FRAME_BYTES && Sample(line, at) == Low
    ensures Poll(line, at, 0, budget, data) == Outcome(data[2], data, at + 1)
  {
  }

  /** With no response the line idles HIGH: every round reads it twice, and
      once the timer has expired `read` returns 0 with `_data` untouched. */
  lemma {:induction false} NoResponse(line: seq<Level>, at: nat, round: nat, budget: nat, data: seq<bv8>)
    requires |data| == FRAME_BYTES && round <= budget
    requires Holds(line, at, 2 * (budget - round) + 1, High)
    ensures Poll(line, at, round, budget, data) == Outcome(0, data, at + 2 * (budget - round) + 1)
    decreases budget - round
  {
    assert Sample(line, at) == High;
    if round < budget {
      assert Sample(line, at + 1) == High;
      NoResponse(line, at + 2, round + 1, budget, data);
    }
  }

  /** A response (LOW, then HIGH) followed by a frame d and the LOW that ends
      it: `read` fills `_data` with d, byte by byte in order, and returns
      d[2]. */
  lemma FrameIsRead(line: seq<Level>, at: nat, budget: nat, data: seq<bv8>, d: seq<bv8>)
    requires |data| == FRAME_BYTES && |d| == FRAME_BYTES && 0 < budget
    requires Sample(line, at) == High && Sample(line, at + 1) == Low && Sample(line, at + 2) == High
    requires Sends(line, at + 3, UnpackFrame(d))
    requires Sample(line, at + 3 + 8 * FRAME_BYTES) == Low
    ensures Poll(line, at, 0, budget, data) == Outcome(d[2], d, at + 4 + 8 * FRAME_BYTES)
  {
    SentFrameIsRead(line, at + 3, d);
  }

  /** The same frame followed by a HIGH when the timer has expired: `_data`
      holds d, but `read` returns 0. */
  lemma FrameThenTimeout(line: seq<Level>, at: nat, data: seq<bv8>, d: seq<bv8>)
    requires |data| == FRAME_BYTES && |d| == FRAME_BYTES
    requires Sample(line, at) == High && Sample(line, at + 1) == Low && Sample(line, at + 2) == High
    requires Sends(line, at + 3, UnpackFrame(d))
    requires Sample(line, at + 3 + 8 * FRAME_BYTES) == High
    ensures Poll(line, at, 0, 1, data) == Outcome(0, d, at + 4 + 8 * FRAME_BYTES)
  {
    SentFrameIsRead(line, at + 3, d);
  }
}
