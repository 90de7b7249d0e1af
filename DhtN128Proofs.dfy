/** Properties of the reference definitions of module DhtN128: what a pulse
    count means on the line, which waveform reads as which bit, what a whole
    transmission decodes to, and what the checksum comparison accepts. */
module DhtN128Proofs {
  import opened Wire
  import opened Bits
  import opened DhtN128

  // ---------------------------------------------------------------- pulses

  lemma {:induction false} RunLengthIsRun(line: seq<Level>, from: nat, state: Level, cap: nat)
    ensures IsRun(line, from, state, cap, RunLength(line, from, state, cap))
    decreases cap
  {
    if cap > 0 && Sample(line, from) == state {
      RunLengthIsRun(line, from + 1, state, cap - 1);
    }
  }

  /** Every `_awaitPulse` outcome, described by the samples: either the first
      maxcycles + 1 samples all read `state` and the count is CYCLES_TIMEOUT, or
      the count is the length of the run of `state` (at most maxcycles) and one
      sample past the run has been read. */
  lemma PulseMeaning(line: seq<Level>, from: nat, state: Level, maxcycles: uint32)
    ensures var p := Pulse(line, from, state, maxcycles);
      (p.count == CYCLES_TIMEOUT && p.consumed == maxcycles as nat + 1 &&
       Holds(line, from, maxcycles as nat + 1, state))
      ||
      (p.count as nat <= maxcycles as nat && p.consumed == p.count as nat + 1 &&
       Holds(line, from, p.count as nat, state) && Sample(line, from + p.count as nat) != state)
  {
    RunLengthIsRun(line, from, state, maxcycles as nat + 1);
  }

  /** A run of k <= maxcycles samples is measured exactly. */
  lemma PulseOfRun(line: seq<Level>, from: nat, state: Level, maxcycles: uint32, k: nat)
    requires k <= maxcycles as nat
    requires Holds(line, from, k, state) && Sample(line, from + k) != state
    ensures Pulse(line, from, state, maxcycles) == PulseReading(k as uint32, k + 1)
  {
    RunLengthOf(line, from, state, maxcycles as nat + 1, k);
  }

  /** A run longer than maxcycles samples times out after maxcycles + 1 reads. */
  lemma PulseOfLongRun(line: seq<Level>, from: nat, state: Level, maxcycles: uint32)
    requires Holds(line, from, maxcycles as nat + 1, state)
    ensures Pulse(line, from, state, maxcycles) == PulseReading(CYCLES_TIMEOUT, maxcycles as nat + 1)
  {
    RunLengthOf(line, from, state, maxcycles as nat + 1, maxcycles as nat + 1);
  }

  /** Below UINT32_MAX the sentinel is unambiguous: the count is CYCLES_TIMEOUT
      exactly when the first maxcycles + 1 samples all read `state`. */
  lemma PulseTimeoutIff(line: seq<Level>, from: nat, state: Level, maxcycles: uint32)
    requires maxcycles < CYCLES_TIMEOUT
    ensures Pulse(line, from, state, maxcycles).count == CYCLES_TIMEOUT <==>
            Holds(line, from, maxcycles as nat + 1, state)
  {
    PulseMeaning(line, from, state, maxcycles);
  }

  /** With maxcycles == UINT32_MAX a pulse that ends after exactly maxcycles
      samples is counted as CYCLES_TIMEOUT, indistinguishable from a timeout. */
  lemma SentinelCollision(line: seq<Level>, from: nat, state: Level)
    requires Holds(line, from, CYCLES_TIMEOUT as nat, state)
    requires Sample(line, from + CYCLES_TIMEOUT as nat) != state
    ensures Pulse(line, from, state, CYCLES_TIMEOUT) == PulseReading(CYCLES_TIMEOUT, CYCLES_TIMEOUT as nat + 1)
  {
    PulseOfRun(line, from, state, CYCLES_TIMEOUT, CYCLES_TIMEOUT as nat);
  }

  // ------------------------------------------------------------------ bits

  /** The waveform of one bit: `low` samples Low, then `high` samples High. */
  datatype BitWave = BitWave(low: nat, high: nat)

  /** Each phase of the bit fits the pulse budget: no wait times out. */
  predicate Timely(w: BitWave, maxcycles: uint32)
  {
    1 <= w.low <= maxcycles as nat + 1 && 1 <= w.high <= maxcycles as nat + 1
  }

  /** The line shows the waveform w from sample `at` on, and the sample after
      it reads Low (the start of the next bit, or the sensor's final pull). */
  ghost predicate BitOn(line: seq<Level>, at: nat, w: BitWave)
  {
    Holds(line, at, w.low, Low) && Holds(line, at + w.low, w.high, High) &&
    Sample(line, at + w.low + w.high) == Low
  }

  /** A bit read where the line shows its waveform. The previous wait has
      already read the first low sample, so `_readBit` starts at at + 1, its
      low count is one short of the low phase, and its high wait also reads
      the Low after the bit. The bit is 1 exactly when the high phase is
      longer than the low phase. */
  lemma BitOfWave(line: seq<Level>, at: nat, maxcycles: uint32, w: BitWave)
    requires Timely(w, maxcycles) && BitOn(line, at, w)
    ensures ReadBitAt(line, at + 1, maxcycles) == BitReading(w.high > w.low, w.low + w.high)
  {
    assert Sample(line, at + w.low) == High;
    PulseOfRun(line, at + 1, Low, maxcycles, w.low - 1);
    PulseOfRun(line, at + 1 + w.low, High, maxcycles, w.high - 1);
  }

  /** A low pulse that times out reads as 0: no count exceeds CYCLES_TIMEOUT. */
  lemma LowTimeoutReadsZero(line: seq<Level>, from: nat, maxcycles: uint32)
    requires Pulse(line, from, Low, maxcycles).count == CYCLES_TIMEOUT
    ensures !ReadBitAt(line, from, maxcycles).bit
  {
  }

  /** A high pulse that times out after a low pulse that did not reads as 1. */
  lemma HighTimeoutReadsOne(line: seq<Level>, from: nat, maxcycles: uint32)
    requires Pulse(line, from, Low, maxcycles).count != CYCLES_TIMEOUT
    requires Pulse(line, from + Pulse(line, from, Low, maxcycles).consumed, High, maxcycles).count == CYCLES_TIMEOUT
    ensures ReadBitAt(line, from, maxcycles).bit
  {
  }

  // --------------------------------------------------------------- streams

  /** The line shows the waveforms of ws one after the other: bit k's
      waveform starts at sample pos[k] and ends where bit k + 1's starts; the
      sample at pos[|ws|] reads Low. */
  ghost predicate WavesOn(line: seq<Level>, pos: seq<nat>, ws: seq<BitWave>)
  {
    |pos| == |ws| + 1 &&
    forall k :: 0 <= k < |ws| ==>
      pos[k + 1] == pos[k] + ws[k].low + ws[k].high && BitOn(line, pos[k], ws[k])
  }

  ghost predicate AllTimely(ws: seq<BitWave>, maxcycles: uint32)
  {
    forall k :: 0 <= k < |ws| ==> Timely(ws[k], maxcycles)
  }

  /** The bits the waveforms stand for: 1 where the high phase is the longer. */
  function Decoded(ws: seq<BitWave>): (bs: seq<bool>)
    ensures |bs| == |ws|
  {
    seq(|ws|, k requires 0 <= k < |ws| => ws[k].high > ws[k].low)
  }

  /** The bit loop over a line showing the waveforms ws (whose first sample
      the handshake has already read) returns the bits they stand for and
      reads up to the sample after the last waveform. */
  lemma StreamOfWaves(line: seq<Level>, pos: seq<nat>, maxcycles: uint32, ws: seq<BitWave>)
    requires AllTimely(ws, maxcycles) && WavesOn(line, pos, ws)
    ensures pos[0] <= pos[|ws|]
    ensures ReadBits(line, pos[0] + 1, maxcycles, |ws|) == StreamReading(Decoded(ws), pos[|ws|] - pos[0])
  {
    var starts := seq(|pos|, k requires 0 <= k < |pos| => pos[k] + 1);
    WavesChain(line, pos, maxcycles, ws, starts);
    BitChainIsReadBits(line, maxcycles, starts, Decoded(ws), |ws|);
    TakeAll(Decoded(ws));
  }

  /** The bit reads over a line showing the waveforms ws form a chain: the
      read starting one sample into waveform k gives bit k and ends one sample
      into waveform k + 1. */
  lemma WavesChain(line: seq<Level>, pos: seq<nat>, maxcycles: uint32, ws: seq<BitWave>, starts: seq<nat>)
    requires AllTimely(ws, maxcycles) && WavesOn(line, pos, ws)
    requires |starts| == |pos| && forall k :: 0 <= k < |pos| ==> starts[k] == pos[k] + 1
    ensures BitChain(line, maxcycles, starts, Decoded(ws), |ws|)
  {
    forall k | 0 <= k < |ws|
      ensures starts[k] + ReadBitAt(line, starts[k], maxcycles).consumed == starts[k + 1]
      ensures ReadBitAt(line, starts[k], maxcycles).bit == Decoded(ws)[k]
    {
      ChainLink(line, maxcycles, pos[k], ws[k], starts[k], starts[k + 1], Decoded(ws)[k]);
    }
  }

  /** One link of WavesChain, stated over the waveform alone. */
  lemma ChainLink(line: seq<Level>, maxcycles: uint32, at: nat, w: BitWave, s: nat, next: nat, b: bool)
    requires Timely(w, maxcycles) && BitOn(line, at, w)
    requires s == at + 1 && next == at + w.low + w.high + 1 && b == (w.high > w.low)
    ensures s + ReadBitAt(line, s, maxcycles).consumed == next
    ensures ReadBitAt(line, s, maxcycles).bit == b
  {
    BitOfWave(line, at, maxcycles, w);
  }

  // ---------------------------------------------------------------- cycles

  /** The sensor's response: `a` samples Low, then `b` samples High, then a
      Low (the start of the first bit). Both waits end within the budget and
      read a + b + 1 samples. */
  lemma HandshakeOfResponse(line: seq<Level>, from: nat, maxcycles: uint32, a: nat, b: nat)
    requires maxcycles < CYCLES_TIMEOUT
    requires a <= maxcycles as nat && 1 <= b <= maxcycles as nat + 1
    requires Holds(line, from, a, Low) && Holds(line, from + a, b, High) && Sample(line, from + a + b) == Low
    ensures Handshake(line, from, maxcycles) == Ack(true, a + b + 1)
  {
    assert Sample(line, from + a) == High;
    PulseOfRun(line, from, Low, maxcycles, a);
    PulseOfRun(line, from + a + 1, High, maxcycles, b - 1);
  }

  /** The first waveform starts with a Low. */
  lemma WavesStartLow(line: seq<Level>, pos: seq<nat>, maxcycles: uint32, ws: seq<BitWave>)
    requires ws != [] && AllTimely(ws, maxcycles) && WavesOn(line, pos, ws)
    ensures Sample(line, pos[0]) == Low
  {
  }

  /** A complete transmission: the sensor pulls the line low for `a` samples
      and releases it for `b` (its response), then sends the waveforms of 40
      bits and pulls the line low once more. Every wait ends within the budget,
      so the cycle reads exactly the 40 bits and stops at the final Low. */
  lemma CycleOfWaves(line: seq<Level>, from: nat, maxcycles: uint32, a: nat, b: nat, ws: seq<BitWave>, pos: seq<nat>)
    requires maxcycles < CYCLES_TIMEOUT
    requires a <= maxcycles as nat && 1 <= b <= maxcycles as nat + 1
    requires Holds(line, from, a, Low) && Holds(line, from + a, b, High)
    requires |ws| == FRAME_BITS && AllTimely(ws, maxcycles) && WavesOn(line, pos, ws) && pos[0] == from + a + b
    ensures pos[0] <= pos[|ws|]
    ensures ReadCycle(line, from, maxcycles) == Frame(Decoded(ws), a + b + 1 + (pos[|ws|] - pos[0]))
  {
    WavesStartLow(line, pos, maxcycles, ws);
    HandshakeOfResponse(line, from, maxcycles, a, b);
    StreamOfWaves(line, pos, maxcycles, ws);
    CycleFrame(line, from, maxcycles, Decoded(ws), pos[|ws|] - pos[0]);
  }

  /** A transmission of the five bytes d, each bit sent as the waveform whose
      decoded value is that bit, leaves d in `_data` after packing. */
  lemma TransmissionDecodes(line: seq<Level>, from: nat, maxcycles: uint32, a: nat, b: nat, ws: seq<BitWave>, pos: seq<nat>, d: seq<bv8>)
    requires maxcycles < CYCLES_TIMEOUT
    requires a <= maxcycles as nat && 1 <= b <= maxcycles as nat + 1
    requires Holds(line, from, a, Low) && Holds(line, from + a, b, High)
    requires |ws| == FRAME_BITS && AllTimely(ws, maxcycles) && WavesOn(line, pos, ws) && pos[0] == from + a + b
    requires |d| == 5 && Decoded(ws) == UnpackFrame(d)
    ensures ReadCycle(line, from, maxcycles).Frame?
    ensures PackFrame(ReadCycle(line, from, maxcycles).bits) == d
  {
    CycleOfWaves(line, from, maxcycles, a, b, ws, pos);
    PackUnpackFrame(d);
  }

  /** No sensor on the line: the pull-up holds it High, the first wait ends at
      once and the second times out. */
  lemma AbsentSensor(line: seq<Level>, from: nat, maxcycles: uint32)
    requires |line| <= from
    ensures ReadCycle(line, from, maxcycles) == HandshakeTimeout(maxcycles as nat + 2)
  {
    PulseOfRun(line, from, Low, maxcycles, 0);
    assert Holds(line, from + 1, maxcycles as nat + 1, High);
    PulseOfLongRun(line, from + 1, High, maxcycles);
    CycleTimeout(line, from, maxcycles);
  }

  /** A line held Low for more than maxcycles samples times out in the first
      wait. */
  lemma StuckLow(line: seq<Level>, from: nat, maxcycles: uint32)
    requires Holds(line, from, maxcycles as nat + 1, Low)
    ensures ReadCycle(line, from, maxcycles) == HandshakeTimeout(maxcycles as nat + 1)
  {
    PulseOfLongRun(line, from, Low, maxcycles);
    CycleTimeout(line, from, maxcycles);
  }

  // -------------------------------------------------------------- checksum

  /** Every frame the printed comparison accepts is valid, and while the
      payload sum stays below 256 the two checks agree. */
  lemma ChecksumMatchesAgreesBelow256(d: seq<bv8>)
    requires |d| == 5
    ensures ChecksumMatches(d) ==> ChecksumValid(d)
    ensures PayloadSum(d) < 256 ==> (ChecksumMatches(d) <==> ChecksumValid(d))
  {
    TruncationOfSmallSum(PayloadSum(d), Unsigned(d[4]));
  }

  lemma TruncationOfSmallSum(sum: int, c: int)
    requires 0 <= sum && 0 <= c < 256
    ensures c == sum ==> c == sum % 256
    ensures sum < 256 ==> (c == sum <==> c == sum % 256)
  {
  }

  /** A valid frame with any one byte replaced by a different value fails the
      8-bit check: the check detects every single-byte corruption. */
  lemma ValidDetectsOneByte(d: seq<bv8>, i: nat, x: bv8)
    requires |d| == 5 && i < 5 && x != d[i] && ChecksumValid(d)
    ensures !ChecksumValid(d[i := x])
  {
    var e := d[i := x];
    UnsignedInjective(x, d[i]);
    PayloadSumUpdate(d, i, x);
    if i < 4 {
      assert e[4] == d[4];
      DistinctResidues(PayloadSum(d), PayloadSum(e));
    } else {
      assert e[4] == x;
    }
  }

  /** Replacing one byte changes the payload sum by the difference of the two
      values, or not at all when the byte replaced is the checksum. */
  lemma PayloadSumUpdate(d: seq<bv8>, i: nat, x: bv8)
    requires |d| == 5 && i < 5
    ensures i < 4 ==> PayloadSum(d[i := x]) == PayloadSum(d) - Unsigned(d[i]) + Unsigned(x)
    ensures i == 4 ==> PayloadSum(d[i := x]) == PayloadSum(d)
  {
    var e := d[i := x];
    if i == 0 {
      assert e[0] == x && e[1] == d[1] && e[2] == d[2] && e[3] == d[3];
    } else if i == 1 {
      assert e[0] == d[0] && e[1] == x && e[2] == d[2] && e[3] == d[3];
    } else if i == 2 {
      assert e[0] == d[0] && e[1] == d[1] && e[2] == x && e[3] == d[3];
    } else if i == 3 {
      assert e[0] == d[0] && e[1] == d[1] && e[2] == d[2] && e[3] == x;
    } else {
      assert e[0] == d[0] && e[1] == d[1] && e[2] == d[2] && e[3] == d[3];
    }
  }

  /** Every payload has a checksum byte that makes the frame valid (and, by
      ValidDetectsOneByte at index 4, only one). */
  lemma ChecksumExists(d: seq<bv8>)
    requires |d| == 5
    ensures ChecksumValid(d[4 := ByteOf(PayloadSum(d) % 256)])
  {
    PayloadSumUpdate(d, 4, ByteOf(PayloadSum(d) % 256));
  }

  /** The byte holding n. */
  function ByteOf(n: int): (b: bv8)
    requires 0 <= n < 256
    ensures Unsigned(b) == n
  {
    if n == 0 then 0 else ByteOf(n - 1) + 1
  }

  lemma UnsignedInjective(x: bv8, y: bv8)
    requires x != y
    ensures Unsigned(x) != Unsigned(y)
  {
  }

  /** Two different sums less than 256 apart leave different remainders. */
  lemma DistinctResidues(s: int, t: int)
    requires 0 <= s && 0 <= t && s != t && -256 < t - s < 256
    ensures s % 256 != t % 256
  {
  }

  /** Frames whose payload sum carries past 255: the sensor's checksum is
      valid, yet the comparison `rawRead` prints reports a mismatch. The second
      is a DHT22 reading of 65.0 % RH at 25.0 C. */
  lemma CarryIsReportedAsMismatch()
    ensures ChecksumValid([0x80, 0x80, 0x00, 0x00, 0x00])
    ensures !ChecksumMatches([0x80, 0x80, 0x00, 0x00, 0x00])
    ensures ChecksumValid([0x02, 0x8A, 0x00, 0xFA, 0x86])
    ensures !ChecksumMatches([0x02, 0x8A, 0x00, 0xFA, 0x86])
  {
  }

  /** A frame without carry (payload sum 0x2E) passes both checks. */
  lemma TypicalFrameChecks()
    ensures ChecksumValid([0x02, 0x1A, 0x01, 0x11, 0x2E])
    ensures ChecksumMatches([0x02, 0x1A, 0x01, 0x11, 0x2E])
  {
  }
}
