/** The earlier driver, dht.cpp: `read` polls the line for the sensor's
    response and then fills `_data[5]` with five `readByte` calls, each of
    which samples the line eight times and packs the samples most significant
    bit first. The line here holds only the samples these reads take: the
    busy-waits that skip to the middle of each bit are not part of the model,
    and the wall-clock timeout of the polling loop is a budget of loop rounds. */
module DhtLegacy {
  import opened Wire
  import opened Bits

  /** Bytes in one frame. */
  const FRAME_BYTES: nat := 5

  /** The n samples from sample `from` on, each read as "is HIGH". */
  function HighBits(line: seq<Level>, from: nat, n: nat): (bs: seq<bool>)
    ensures |bs| == n
    ensures forall t :: 0 <= t < n ==> bs[t] == (Sample(line, from + t) == High)
  {
    seq(n, t requires 0 <= t < n => Sample(line, from + t) == High)
  }

  /** The level that sends a bit: HIGH for 1, LOW for 0. */
  function Levels(bs: seq<bool>): (ls: seq<Level>)
    ensures |ls| == |bs|
    ensures forall t :: 0 <= t < |bs| ==> ls[t] == (if bs[t] then High else Low)
  {
    seq(|bs|, t requires 0 <= t < |bs| => if bs[t] then High else Low)
  }

  /** The outcome of one `read`: the byte returned, the contents of `_data`
      afterwards, and the sample after the last one read. */
  datatype Outcome = Outcome(value: bv8, data: seq<bv8>, end: nat)

  /** The polling loop of `read`, from loop round `round` on, at sample `at`.
      Each round reads the line; a LOW ends the loop and `_data[2]` is
      returned; on HIGH, an expired timer returns 0; otherwise a LOW then HIGH
      on the next two reads is taken as the response and the 40 frame samples
      after it are packed into `_data`, and the loop goes round again. */
  function Poll(line: seq<Level>, at: nat, round: nat, budget: nat, data: seq<bv8>): (o: Outcome)
    requires |data| == FRAME_BYTES
    ensures |o.data| == FRAME_BYTES && at < o.end
    decreases budget - round
  {
    if Sample(line, at) == Low then Outcome(data[2], data, at + 1)
    else if round >= budget then Outcome(0, data, at + 1)
    else if Sample(line, at + 1) == High then Poll(line, at + 2, round + 1, budget, data)
    else if Sample(line, at + 2) == Low then Poll(line, at + 3, round + 1, budget, data)
    else Poll(line, at + 3 + 8 * FRAME_BYTES, round + 1, budget, PackFrame(HighBits(line, at + 3, 8 * FRAME_BYTES)))
  }

  /** Byte i of the frame packed from the samples at `from` is the byte packed
      from the eight samples at from + 8i. */
  lemma PackFrameOfSamples(line: seq<Level>, from: nat, i: nat)
    requires i < FRAME_BYTES
    ensures PackFrame(HighBits(line, from, 8 * FRAME_BYTES))[i] == PackByte(HighBits(line, from + 8 * i, 8))
  {
    assert HighBits(line, from, 8 * FRAME_BYTES)[8 * i..8 * i + 8] == HighBits(line, from + 8 * i, 8);
  }

  class Dht {
    /** The recorded levels of the data line. */
    const line: seq<Level>
    /** How many samples of `line` have been read so far. */
    var cursor: nat
    /** `_data[5]` */
    const data: array<bv8>

    ghost predicate Valid()
      reads this
    {
      data.Length == FRAME_BYTES
    }

    /** `_data` starts with whatever the five bytes held. */
    constructor (line: seq<Level>, init: seq<bv8>)
      requires |init| == FRAME_BYTES
      ensures Valid() && fresh(data)
      ensures this.line == line && cursor == 0 && data[..] == init
    {
      this.line := line;
      cursor := 0;
      data := new bv8[FRAME_BYTES](i requires 0 <= i < FRAME_BYTES => init[i]);
    }

    /** digitalRead on the data pin: the next recorded sample. */
    method ReadLevel() returns (level: Level)
      modifies this`cursor
      ensures level == Sample(line, old(cursor)) && cursor == old(cursor) + 1
    {
      level := Sample(line, cursor);
      cursor := cursor + 1;
    }

    /** `readByte`: eight samples, the i-th or-ing `1 << (7 - i)` into the
        byte when it reads HIGH. */
    method ReadByte() returns (value: bv8)
      modifies this`cursor
      ensures cursor == old(cursor) + 8
      ensures value == PackByte(HighBits(line, old(cursor), 8))
    {
      ghost var bs := HighBits(line, cursor, 8);
      value := 0;
      for i := 0 to 8
        invariant cursor == old(cursor) + i
        invariant value == PackByte(bs[..i])
      {
        var level := ReadLevel();
        PackByteSnoc(bs, i);
        if level == High {
          value := value | Mask(7 - i);
        }
      }
      assert bs[..8] == bs;
    }

    /** The fill loop of `read`: `_data[i] = readByte()` for i = 0 to 4. */
    method ReadFrame()
      requires Valid()
      modifies this`cursor, data
      ensures cursor == old(cursor) + 8 * FRAME_BYTES
      ensures data[..] == PackFrame(HighBits(line, old(cursor), 8 * FRAME_BYTES))
    {
      for i := 0 to FRAME_BYTES
        invariant cursor == old(cursor) + 8 * i
        invariant forall k :: 0 <= k < i ==> data[k] == PackByte(HighBits(line, old(cursor) + 8 * k, 8))
      {
        var b := ReadByte();
        data[i] := b;
      }
      forall k | 0 <= k < FRAME_BYTES
        ensures data[k] == PackFrame(HighBits(line, old(cursor), 8 * FRAME_BYTES))[k]
      {
        PackFrameOfSamples(line, old(cursor), k);
      }
    }

    /** `read`: poll the line until it reads LOW, returning `_data[2]`, or
        until the timer expires after `budget` rounds, returning 0; a
        response seen on the way is followed by a frame read into `_data`. */
    method Read(budget: nat) returns (r: bv8)
      requires Valid()
      modifies this`cursor, data
      ensures r == Poll(line, old(cursor), 0, budget, old(data[..])).value
      ensures data[..] == Poll(line, old(cursor), 0, budget, old(data[..])).data
      ensures cursor == Poll(line, old(cursor), 0, budget, old(data[..])).end
    {
      ghost var goal := Poll(line, cursor, 0, budget, data[..]);
      var round := 0;
      var level := ReadLevel();
      while level == High
        invariant round <= budget
        invariant 0 < cursor && level == Sample(line, cursor - 1)
        invariant Poll(line, cursor - 1, round, budget, data[..]) == goal
        decreases budget - round
      {
        if round >= budget {
          return 0;
        }
        level := ReadLevel();
        if level == Low {
          level := ReadLevel();
          if level == High {
            ReadFrame();
          }
        }
        round := round + 1;
        level := ReadLevel();
      }
      r := data[2];
    }
  }
}
