/** The protocol engine of DHT_N128.cpp: pulse counting, bit classification,
    the read cycle that fills `_bits[40]` and packs `_data[5]`, `_clear`, and
    the start-signal duration per sensor type. The data line is a recorded
    sequence of levels (module Wire); `cursor` counts the digitalRead calls
    made so far. The functions below are the reference definitions the
    methods of class Dht are proved against; their properties are the lemmas
    of module DhtN128Proofs. */
module DhtN128 {
  import opened Wire
  import opened Bits

  newtype uint32 = x: int | 0 <= x < 0x1_0000_0000

  /** The timeout sentinel, UINT32_MAX. */
  const CYCLES_TIMEOUT: uint32 := 0xFFFF_FFFF
  /** Start-signal low time for a DHT11 ("at least 18ms"). */
  const DHT11_FIRST_DELAY_MICROS: nat := 18500
  /** Start-signal low time for a DHT22 ("1~10ms"). */
  const DHT22_FIRST_DELAY_MICROS: nat := 1100
  /** Bits in one frame. */
  const FRAME_BITS: nat := 40

  /** The sensor type: the two named enumerators, or any other value the
      enumeration's underlying integer can hold. */
  datatype SensorType = DHT11 | DHT22 | Other(code: int)

  /** How long `_startSignal` holds the line low: a DHT22 needs 1 to 10 ms, a
      DHT11 at least 18 ms, and every type but DHT22 falls to the DHT11 time. */
  function StartLowMicros(typ: SensorType): (us: nat)
    ensures typ == DHT22 ==> 1000 <= us <= 10000
    ensures typ != DHT22 ==> us >= 18000
  {
    match typ
    case DHT22 => DHT22_FIRST_DELAY_MICROS
    case _ => DHT11_FIRST_DELAY_MICROS
  }

  /** k samples read `state` from sample `from` on and, unless k has reached
      `cap`, the sample after them does not. */
  ghost predicate IsRun(line: seq<Level>, from: nat, state: Level, cap: nat, k: nat)
  {
    k <= cap &&
    (forall t :: from <= t < from + k ==> Sample(line, t) == state) &&
    (k < cap ==> Sample(line, from + k) != state)
  }

  /** The number of consecutive samples reading `state` from sample `from` on,
      counting at most `cap` of them. */
  function RunLength(line: seq<Level>, from: nat, state: Level, cap: nat): (k: nat)
    ensures k <= cap
    decreases cap
  {
    if cap == 0 || Sample(line, from) != state then 0
    else 1 + RunLength(line, from + 1, state, cap - 1)
  }

  /** What one `_awaitPulse` call returns and how many samples it reads. */
  datatype PulseReading = PulseReading(count: uint32, consumed: nat)

  /** `_awaitPulse(state)` from sample `from`: a run of k <= maxcycles samples at
      `state` gives k after reading k + 1 samples (the last read is the first
      sample of the other level); a longer run gives CYCLES_TIMEOUT after
      reading maxcycles + 1 samples. */
  function Pulse(line: seq<Level>, from: nat, state: Level, maxcycles: uint32): PulseReading
  {
    var k := RunLength(line, from, state, maxcycles as nat + 1);
    if k > maxcycles as nat then PulseReading(CYCLES_TIMEOUT, maxcycles as nat + 1)
    else PulseReading(k as uint32, k + 1)
  }

  /** What one `_readBit` call returns and how many samples it reads. */
  datatype BitReading = BitReading(bit: bool, consumed: nat)

  /** `_readBit` from sample `from`: time a low pulse, then the high pulse after
      it, and read 1 exactly when the high count is the larger number. */
  function ReadBitAt(line: seq<Level>, from: nat, maxcycles: uint32): BitReading
  {
    var low := Pulse(line, from, Low, maxcycles);
    var high := Pulse(line, from + low.consumed, High, maxcycles);
    BitReading(high.count > low.count, low.consumed + high.consumed)
  }

  datatype StreamReading = StreamReading(bits: seq<bool>, consumed: nat)

  /** `n` consecutive `_readBit` calls from sample `from`. */
  function ReadBits(line: seq<Level>, from: nat, maxcycles: uint32, n: nat): (s: StreamReading)
    ensures |s.bits| == n
    decreases from, n
  {
    if n == 0 then StreamReading([], 0)
    else
      var prev := ReadBits(line, from, maxcycles, n - 1);
      var b := ReadBitAt(line, from + prev.consumed, maxcycles);
      StreamReading(prev.bits + [b.bit], prev.consumed + b.consumed)
  }

  /** The outcome of the sampling part of one `rawRead`. */
  datatype Cycle =
    | HandshakeTimeout(consumed: nat)
    | Frame(bits: seq<bool>, consumed: nat)

  /** What the two acknowledgement waits of `rawRead` amount to: whether
      both ended before CYCLES_TIMEOUT, and how many samples they read. */
  datatype Ack = Ack(ok: bool, consumed: nat)

  /** The sensor's response from sample `from`: a low pulse, then a high
      pulse; the first whose count equals CYCLES_TIMEOUT ends the response. */
  function Handshake(line: seq<Level>, from: nat, maxcycles: uint32): Ack
  {
    var low := Pulse(line, from, Low, maxcycles);
    if low.count == CYCLES_TIMEOUT then Ack(false, low.consumed)
    else
      var high := Pulse(line, from + low.consumed, High, maxcycles);
      Ack(high.count != CYCLES_TIMEOUT, low.consumed + high.consumed)
  }

  /** The sampling part of `rawRead` from sample `from`: the handshake, then
      FRAME_BITS bits if it succeeded. */
  function ReadCycle(line: seq<Level>, from: nat, maxcycles: uint32): (c: Cycle)
    ensures c.Frame? ==> |c.bits| == FRAME_BITS
  {
    var h := Handshake(line, from, maxcycles);
    if !h.ok then HandshakeTimeout(h.consumed)
    else
      var s := ReadBits(line, from + h.consumed, maxcycles, FRAME_BITS);
      Frame(s.bits, h.consumed + s.consumed)
  }

  /** The sum of the four payload bytes of a frame, each promoted to int. */
  function PayloadSum(d: seq<bv8>): (s: int)
    requires |d| == 5
    ensures 0 <= s
  {
    Unsigned(d[0]) + Unsigned(d[1]) + Unsigned(d[2]) + Unsigned(d[3])
  }

  /** The comparison whose value `rawRead` prints: the checksum byte against the
      sum of the other four bytes, both promoted to int (no reduction modulo 256).
      A byte never reaches 256, so no frame whose payload sum does can match. */
  predicate ChecksumMatches(d: seq<bv8>)
    requires |d| == 5
    ensures ChecksumMatches(d) ==> PayloadSum(d) < 256
  {
    Unsigned(d[4]) == PayloadSum(d)
  }

  /** The frame check of the sensor's protocol: the checksum byte is the sum of
      the other four bytes truncated to 8 bits: equivalently, the payload sum and
      the checksum byte differ by a multiple of 256. */
  predicate ChecksumValid(d: seq<bv8>)
    requires |d| == 5
    ensures ChecksumValid(d) <==> (PayloadSum(d) - Unsigned(d[4])) % 256 == 0
  {
    ResidueIffMultiple(PayloadSum(d), Unsigned(d[4]));
    Unsigned(d[4]) == PayloadSum(d) % 256
  }

  /** A byte value is the residue of s exactly when s exceeds it by a multiple
      of 256. */
  lemma ResidueIffMultiple(s: int, c: int)
    requires 0 <= s && 0 <= c < 256
    ensures c == s % 256 <==> (s - c) % 256 == 0
  {
    var q := s / 256;
    assert s - c == 256 * q + (s % 256 - c);
  }

  /** A run is determined by its defining property, and RunLength has it. */
  lemma {:induction false} RunLengthOf(line: seq<Level>, from: nat, state: Level, cap: nat, k: nat)
    requires IsRun(line, from, state, cap, k)
    ensures RunLength(line, from, state, cap) == k
    decreases cap
  {
    if cap > 0 && Sample(line, from) == state {
      assert k > 0;
      assert IsRun(line, from + 1, state, cap - 1, k - 1) by {
        forall t | from + 1 <= t < from + 1 + (k - 1) ensures Sample(line, t) == state {
        }
      }
      RunLengthOf(line, from + 1, state, cap - 1, k - 1);
    }
  }

  /** The first n of a series of `_readBit` calls: the k-th starts at sample
      pos[k], returns bs[k] and ends where the next one starts. */
  ghost predicate BitChain(line: seq<Level>, maxcycles: uint32, pos: seq<nat>, bs: seq<bool>, n: nat)
  {
    n < |pos| && n <= |bs| &&
    forall k {:trigger ReadBitAt(line, pos[k], maxcycles)} :: 0 <= k < n ==>
      pos[k] + ReadBitAt(line, pos[k], maxcycles).consumed == pos[k + 1] &&
      ReadBitAt(line, pos[k], maxcycles).bit == bs[k]
  }

  /** ReadBits one bit longer: the bits so far and the next bit read. */
  lemma ReadBitsSnoc(line: seq<Level>, from: nat, maxcycles: uint32, n: nat, prev: StreamReading, b: BitReading)
    requires n > 0
    requires prev == ReadBits(line, from, maxcycles, n - 1)
    requires b == ReadBitAt(line, from + prev.consumed, maxcycles)
    ensures ReadBits(line, from, maxcycles, n) == StreamReading(prev.bits + [b.bit], prev.consumed + b.consumed)
  {
  }

  lemma TakeSnoc<T>(s: seq<T>, n: nat)
    requires 0 < n <= |s|
    ensures s[..n] == s[..n - 1] + [s[n - 1]]
  {
  }

  lemma TakeAll<T>(s: seq<T>)
    ensures s[..|s|] == s
  {
  }

  /** Dropping the last read of a chain leaves a chain; the last read
      returns bs[n - 1] and ends at pos[n]. */
  lemma BitChainShorter(line: seq<Level>, maxcycles: uint32, pos: seq<nat>, bs: seq<bool>, n: nat)
    requires n > 0 && BitChain(line, maxcycles, pos, bs, n)
    ensures BitChain(line, maxcycles, pos, bs, n - 1)
    ensures pos[n - 1] + ReadBitAt(line, pos[n - 1], maxcycles).consumed == pos[n]
    ensures ReadBitAt(line, pos[n - 1], maxcycles).bit == bs[n - 1]
  {
  }

  lemma {:induction false} BitChainIsReadBits(line: seq<Level>, maxcycles: uint32, pos: seq<nat>, bs: seq<bool>, n: nat)
    requires BitChain(line, maxcycles, pos, bs, n)
    ensures pos[0] <= pos[n]
    ensures ReadBits(line, pos[0], maxcycles, n) == StreamReading(bs[..n], pos[n] - pos[0])
    decreases n
  {
    if n > 0 {
      BitChainShorter(line, maxcycles, pos, bs, n);
      BitChainIsReadBits(line, maxcycles, pos, bs, n - 1);
      ReadBitsSnoc(line, pos[0], maxcycles, n, StreamReading(bs[..n - 1], pos[n - 1] - pos[0]), ReadBitAt(line, pos[n - 1], maxcycles));
      TakeSnoc(bs, n);
    }
  }

  /** ReadCycle when the handshake times out. */
  lemma CycleTimeout(line: seq<Level>, from: nat, maxcycles: uint32)
    requires !Handshake(line, from, maxcycles).ok
    ensures ReadCycle(line, from, maxcycles) == HandshakeTimeout(Handshake(line, from, maxcycles).consumed)
  {
  }

  /** ReadCycle when the handshake succeeds and the bits after it read `bs`. */
  lemma CycleFrame(line: seq<Level>, from: nat, maxcycles: uint32, bs: seq<bool>, k: nat)
    requires Handshake(line, from, maxcycles).ok
    requires ReadBits(line, from + Handshake(line, from, maxcycles).consumed, maxcycles, FRAME_BITS) == StreamReading(bs, k)
    ensures ReadCycle(line, from, maxcycles) == Frame(bs, Handshake(line, from, maxcycles).consumed + k)
  {
  }

  class Dht {
    const typ: SensorType
    /** `_maxcycles`: the sample budget of one `_awaitPulse` call. */
    const maxcycles: uint32
    /** The recorded levels of the data line. */
    const line: seq<Level>
    /** How many samples of `line` have been read so far. */
    var cursor: nat
    /** `_bits[40]` */
    const bits: array<bool>
    /** `_data[5]` */
    const data: array<bv8>
    /** `_raw` */
    var raw: uint32

    ghost predicate Valid()
      reads this
    {
      bits.Length == FRAME_BITS && data.Length == 5
    }

    constructor (typ: SensorType, maxcycles: uint32, line: seq<Level>)
      ensures Valid() && fresh(bits) && fresh(data)
      ensures this.typ == typ && this.maxcycles == maxcycles && this.line == line && cursor == 0
    {
      this.typ := typ;
      this.maxcycles := maxcycles;
      this.line := line;
      cursor := 0;
      bits := new bool[FRAME_BITS];
      data := new bv8[5];
      raw := 0;
    }

    /** digitalRead on the data pin: the next recorded sample. */
    method ReadLevel() returns (level: Level)
      modifies this`cursor
      ensures level == Sample(line, old(cursor)) && cursor == old(cursor) + 1
    {
      level := Sample(line, cursor);
      cursor := cursor + 1;
    }

    /** `_awaitPulse`: count the samples that read `state`, giving up with
        CYCLES_TIMEOUT when the post-incremented count passes `_maxcycles`. */
    method AwaitPulse(state: Level) returns (acc: uint32)
      modifies this`cursor
      ensures var p := Pulse(line, old(cursor), state, maxcycles);
        acc == p.count && cursor == old(cursor) + p.consumed
    {
      ghost var from := cursor;
      acc := 0;
      var level := ReadLevel();
      while level == state
        invariant acc <= maxcycles
        invariant cursor == from + acc as nat + 1
        invariant level == Sample(line, from + acc as nat)
        invariant forall t :: from <= t < from + acc as nat ==> Sample(line, t) == state
        decreases maxcycles - acc
      {
        if acc >= maxcycles {
          RunLengthOf(line, from, state, maxcycles as nat + 1, maxcycles as nat + 1);
          return CYCLES_TIMEOUT;
        }
        acc := acc + 1;
        level := ReadLevel();
      }
      RunLengthOf(line, from, state, maxcycles as nat + 1, acc as nat);
    }

    /** `_readBit` */
    method ReadBit() returns (bit: bool)
      modifies this`cursor
      ensures var b := ReadBitAt(line, old(cursor), maxcycles);
        bit == b.bit && cursor == old(cursor) + b.consumed
    {
      var lowtick := AwaitPulse(Low);
      var hightick := AwaitPulse(High);
      bit := hightick > lowtick;
    }

    /** `_clear`: the chained assignment copies `_data[3]` into `_data[0..2]`,
        the comma operator then zeroes `_data[4]`; `_raw` becomes 0. */
    method Clear()
      requires Valid()
      modifies this`raw, data
      ensures raw == 0
      ensures data[..] == [old(data[3]), old(data[3]), old(data[3]), old(data[3]), 0]
    {
      data[2] := data[3];
      data[1] := data[2];
      data[0] := data[1];
      data[4] := 0;
      raw := 0;
    }

    /** `rawRead`: clear, send the start signal, await the two acknowledgement
        pulses (returning CYCLES_TIMEOUT if either times out), read 40 bits,
        zero `_data` and pack the bits into it, return `_raw`. */
    method RawRead() returns (r: uint32)
      requires Valid()
      modifies this`cursor, this`raw, bits, data
      ensures raw == 0
      ensures cursor == old(cursor) + ReadCycle(line, old(cursor), maxcycles).consumed
      ensures ReadCycle(line, old(cursor), maxcycles).HandshakeTimeout? ==>
        r == CYCLES_TIMEOUT && bits[..] == old(bits[..]) &&
        data[..] == [old(data[3]), old(data[3]), old(data[3]), old(data[3]), 0]
      ensures ReadCycle(line, old(cursor), maxcycles).Frame? ==>
        r == 0 && bits[..] == ReadCycle(line, old(cursor), maxcycles).bits &&
        data[..] == PackFrame(bits[..])
    {
      ghost var from := cursor;
      Clear();
      var ok := Acknowledge();
      if !ok {
        CycleTimeout(line, from, maxcycles);
        return CYCLES_TIMEOUT;
      }
      ghost var streamStart := cursor;
      ReadFrameBits();
      CycleFrame(line, from, maxcycles, bits[..], cursor - streamStart);
      PackData();
      r := raw;
    }

    /** The two acknowledgement waits of `rawRead`. */
    method Acknowledge() returns (ok: bool)
      modifies this`cursor
      ensures var h := Handshake(line, old(cursor), maxcycles);
        ok == h.ok && cursor == old(cursor) + h.consumed
    {
      var ackLow := AwaitPulse(Low);
      if ackLow == CYCLES_TIMEOUT {
        return false;
      }
      var ackHigh := AwaitPulse(High);
      ok := ackHigh != CYCLES_TIMEOUT;
    }

    /** The bit loop of `rawRead`: FRAME_BITS `_readBit` calls, the i-th
        result stored in `_bits[i]`. */
    method ReadFrameBits()
      requires Valid()
      modifies this`cursor, bits
      ensures old(cursor) <= cursor
      ensures ReadBits(line, old(cursor), maxcycles, FRAME_BITS) == StreamReading(bits[..], cursor - old(cursor))
    {
      ghost var pos: seq<nat> := [cursor];
      for i := 0 to FRAME_BITS
        invariant |pos| == i + 1 && pos[0] == old(cursor) && pos[i] == cursor
        invariant BitChain(line, maxcycles, pos, bits[..], i)
      {
        bits[i] := ReadBit();
        pos := pos + [cursor];
      }
      BitChainIsReadBits(line, maxcycles, pos, bits[..], FRAME_BITS);
      assert bits[..][..FRAME_BITS] == bits[..];
    }

    /** The zeroing and packing loops of `rawRead`: every `_data[i]` is zeroed,
        then receives the eight bits `_bits[8 * i ..]`. */
    method PackData()
      requires Valid()
      modifies data
      ensures data[..] == PackFrame(bits[..])
    {
      for i := 0 to 5
        invariant forall i' :: 0 <= i' < i ==> data[i'] == 0
      {
        data[i] := 0;
      }
      for i := 0 to 5
        invariant forall i' :: 0 <= i' < i ==> data[i'] == PackByte(bits[8 * i'..8 * i' + 8])
        invariant forall i' :: i <= i' < 5 ==> data[i'] == 0
      {
        PackByteAt(i);
      }
      assert forall i :: 0 <= i < 5 ==> bits[..][8 * i..8 * i + 8] == bits[8 * i..8 * i + 8];
    }

    /** The inner packing loop for byte i: bit j of the chunk is or-ed into
        `_data[i]` at position 7 - j. */
    method PackByteAt(i: nat)
      requires Valid() && i < 5 && data[i] == 0
      modifies data
      ensures data[i] == PackByte(bits[8 * i..8 * i + 8])
      ensures forall k :: 0 <= k < 5 && k != i ==> data[k] == old(data[k])
    {
      ghost var chunk := bits[8 * i..8 * i + 8];
      for j := 0 to 8
        invariant data[i] == PackByte(chunk[..j])
        invariant forall k :: 0 <= k < 5 && k != i ==> data[k] == old(data[k])
      {
        PackByteSnoc(chunk, j);
        data[i] := data[i] | Shifted(bits[8 * i + j], 7 - j);
      }
      assert chunk[..8] == chunk;
    }
  }
}
