/** Bytes as 8-bit vectors and the most-significant-bit-first packing of bit
    sequences into bytes that the sensor frame uses. */
module Bits {

  /** The byte with only bit p set, `1 << p`, written out position by
      position (MaskIsShift). */
  function Mask(p: nat): bv8
    requires p < 8
  {
    if p == 0 then 0x01 else if p == 1 then 0x02 else if p == 2 then 0x04 else if p == 3 then 0x08
    else if p == 4 then 0x10 else if p == 5 then 0x20 else if p == 6 then 0x40 else 0x80
  }

  lemma MaskIsShift(p: nat)
    requires p < 8
    ensures Mask(p) == 1 << p
  {
  }

  /** The unsigned value of a byte, as C's integer promotion gives it. */
  function Unsigned(b: bv8): (n: int)
    ensures 0 <= n < 256
  {
    b as int
  }

  /** Bit k (0 = least significant) of b. */
  predicate BitOf(b: bv8, k: nat)
    requires k < 8
  {
    b & Mask(k) != 0
  }

  /** A bool as the 0/1 byte that `static_cast<uint8_t>` gives. */
  function BitValue(bit: bool): (v: bv8)
    ensures BitOf(v, 0) == bit
    ensures forall k :: 0 < k < 8 ==> !BitOf(v, k)
  {
    if bit then 1 else 0
  }

  /** Two bytes with the same eight bits are the same byte. */
  lemma BitsDetermineByte(x: bv8, y: bv8)
    requires forall k :: 0 <= k < 8 ==> BitOf(x, k) == BitOf(y, k)
    ensures x == y
  {
    assert BitOf(x, 0) == BitOf(y, 0) && BitOf(x, 1) == BitOf(y, 1);
    assert BitOf(x, 2) == BitOf(y, 2) && BitOf(x, 3) == BitOf(y, 3);
    assert BitOf(x, 4) == BitOf(y, 4) && BitOf(x, 5) == BitOf(y, 5);
    assert BitOf(x, 6) == BitOf(y, 6) && BitOf(x, 7) == BitOf(y, 7);
  }

  /** `bit << p` for a bool stored as a 0/1 byte (ShiftedIsShift). */
  function Shifted(bit: bool, p: nat): bv8
    requires p < 8
  {
    if bit then Mask(p) else 0
  }

  lemma ShiftedIsShift(bit: bool, p: nat)
    requires p < 8
    ensures Shifted(bit, p) == BitValue(bit) << p
  {
  }

  /** Or-ing `bit` in at position p sets bit p when `bit` holds and leaves
      every other bit alone. */
  lemma OrBitAt(x: bv8, bit: bool, p: nat, k: nat)
    requires p < 8 && k < 8
    ensures BitOf(x | Shifted(bit, p), k) == (BitOf(x, k) || (k == p && bit))
  {
  }

  /** The reference packing: bs[j] becomes bit 7 - j, so the first bit is the
      most significant and a short sequence fills the high end of the byte. */
  function PackByte(bs: seq<bool>): bv8
    requires |bs| <= 8
    decreases |bs|
  {
    if bs == [] then 0 else PackByte(bs[..|bs| - 1]) | Shifted(bs[|bs| - 1], 8 - |bs|)
  }

  /** Bit k of the packed byte is bs[7 - k] when bs has such an element, and
      clear otherwise. */
  lemma {:induction false} PackByteBit(bs: seq<bool>, k: nat)
    requires |bs| <= 8 && k < 8
    ensures BitOf(PackByte(bs), k) == (7 - k < |bs| && bs[7 - k])
    decreases |bs|
  {
    if bs != [] {
      var front := bs[..|bs| - 1];
      PackByteBit(front, k);
      OrBitAt(PackByte(front), bs[|bs| - 1], 8 - |bs|, k);
      if 7 - k < |front| {
        assert front[7 - k] == bs[7 - k];
      }
    }
  }

  /** Bit 7 - j of the packed byte is bs[j]; the bits below the packed ones are
      clear. */
  lemma PackByteBits(bs: seq<bool>)
    requires |bs| <= 8
    ensures forall j :: 0 <= j < |bs| ==> BitOf(PackByte(bs), 7 - j) == bs[j]
    ensures forall k :: 0 <= k < 8 - |bs| ==> !BitOf(PackByte(bs), k)
  {
    forall k | 0 <= k < 8 ensures BitOf(PackByte(bs), k) == (7 - k < |bs| && bs[7 - k]) {
      PackByteBit(bs, k);
    }
  }

  /** One step of the packing loops: or-ing bs[j] in at position 7 - j extends
      the packed prefix by one bit. */
  lemma PackByteSnoc(bs: seq<bool>, j: nat)
    requires j < |bs| && j < 8
    ensures PackByte(bs[..j + 1]) == PackByte(bs[..j]) | Shifted(bs[j], 7 - j)
  {
    assert bs[..j + 1][..j] == bs[..j];
  }

  /** The eight bits of a byte, most significant first. */
  function UnpackByte(b: bv8): (bs: seq<bool>)
    ensures |bs| == 8
    ensures forall j :: 0 <= j < 8 ==> bs[j] == BitOf(b, 7 - j)
  {
    seq(8, j requires 0 <= j < 8 => BitOf(b, 7 - j))
  }

  lemma UnpackPackByte(bs: seq<bool>)
    requires |bs| == 8
    ensures UnpackByte(PackByte(bs)) == bs
  {
    PackByteBits(bs);
  }

  lemma {:induction false} PackUnpackByte(b: bv8)
    ensures PackByte(UnpackByte(b)) == b
  {
    var bs := UnpackByte(b);
    PackByteBits(bs);
    forall k | 0 <= k < 8 ensures BitOf(PackByte(bs), k) == BitOf(b, k) {
      assert bs[7 - k] == BitOf(b, k);
    }
    BitsDetermineByte(PackByte(bs), b);
  }

  /** A byte is determined by its unpacked bits. */
  lemma UnpackByteInjective(x: bv8, y: bv8)
    requires UnpackByte(x) == UnpackByte(y)
    ensures x == y
  {
    PackUnpackByte(x);
    PackUnpackByte(y);
  }

  /** Eight clear bits give 0 and eight set bits give 0xFF. */
  lemma PackByteExtremes(bs: seq<bool>)
    requires |bs| == 8
    ensures (forall j :: 0 <= j < 8 ==> !bs[j]) ==> PackByte(bs) == 0
    ensures (forall j :: 0 <= j < 8 ==> bs[j]) ==> PackByte(bs) == 0xFF
  {
    var b := PackByte(bs);
    PackByteBits(bs);
    if forall j :: 0 <= j < 8 ==> !bs[j] {
      forall k | 0 <= k < 8 ensures BitOf(b, k) == BitOf(0, k) {
        assert !bs[7 - k];
      }
      BitsDetermineByte(b, 0);
    }
    if forall j :: 0 <= j < 8 ==> bs[j] {
      forall k | 0 <= k < 8 ensures BitOf(b, k) == BitOf(0xFF, k) {
        assert bs[7 - k];
      }
      BitsDetermineByte(b, 0xFF);
    }
  }

  /** Groups of eight bits packed into bytes, in order. */
  function PackFrame(bits: seq<bool>): (d: seq<bv8>)
    requires |bits| % 8 == 0
    ensures |d| == |bits| / 8
  {
    seq(|bits| / 8, i requires 0 <= i < |bits| / 8 => PackByte(bits[8 * i..8 * i + 8]))
  }

  /** Byte i of the packed frame holds bits 8i to 8i + 7, most significant first. */
  lemma PackFrameBytes(bits: seq<bool>, i: nat)
    requires |bits| % 8 == 0 && i < |bits| / 8
    ensures UnpackByte(PackFrame(bits)[i]) == bits[8 * i..8 * i + 8]
  {
    UnpackPackByte(bits[8 * i..8 * i + 8]);
  }

  /** Bytes expanded into their bits, each byte most significant bit first. */
  function UnpackFrame(d: seq<bv8>): (bits: seq<bool>)
    ensures |bits| == 8 * |d|
  {
    if d == [] then [] else UnpackByte(d[0]) + UnpackFrame(d[1..])
  }

  lemma {:induction false} UnpackFrameAt(d: seq<bv8>, i: nat)
    requires i < |d|
    ensures UnpackFrame(d)[8 * i..8 * i + 8] == UnpackByte(d[i])
  {
    if i > 0 {
      UnpackFrameAt(d[1..], i - 1);
      assert UnpackFrame(d) == UnpackByte(d[0]) + UnpackFrame(d[1..]);
      assert UnpackFrame(d)[8 * i..8 * i + 8] == UnpackFrame(d[1..])[8 * (i - 1)..8 * (i - 1) + 8];
    } else {
      assert UnpackFrame(d) == UnpackByte(d[0]) + UnpackFrame(d[1..]);
    }
  }

  /** Unpacking the packed bytes gives back the bits. */
  lemma {:induction false} UnpackPackFrame(bits: seq<bool>)
    requires |bits| % 8 == 0
    ensures UnpackFrame(PackFrame(bits)) == bits
  {
    var d := PackFrame(bits);
    var u := UnpackFrame(d);
    forall t | 0 <= t < |bits| ensures u[t] == bits[t] {
      var i := t / 8;
      UnpackFrameAt(d, i);
      PackFrameBytes(bits, i);
      assert u[t] == u[8 * i..8 * i + 8][t - 8 * i];
      assert bits[t] == bits[8 * i..8 * i + 8][t - 8 * i];
    }
  }

  /** Packing the unpacked bits gives back the bytes: with UnpackPackFrame,
      packing is a bijection between bit strings of length 8n and n bytes. */
  lemma {:induction false} PackUnpackFrame(d: seq<bv8>)
    ensures PackFrame(UnpackFrame(d)) == d
  {
    var p := PackFrame(UnpackFrame(d));
    forall i | 0 <= i < |d| ensures p[i] == d[i] {
      UnpackFrameAt(d, i);
      PackFrameBytes(UnpackFrame(d), i);
      UnpackByteInjective(p[i], d[i]);
    }
  }
}
