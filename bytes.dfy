/** Byte-level vocabulary: bytes, 16-bit code units, 32-bit words, and the
    little-endian layouts `'<H'` and `'<I'` written out directly. */
module Bytes {

  type Byte = b: int | 0 <= b < 0x100
  /** A UTF-16 code unit; Python's `chr` of such a value is one character. */
  type Unit = u: int | 0 <= u < 0x1_0000
  type Word = w: int | 0 <= w < 0x1_0000_0000

  /** Little-endian unsigned 16-bit value of two bytes. */
  function Le16(lo: Byte, hi: Byte): Unit
  {
    lo + 0x100 * hi
  }

  /** Little-endian unsigned 32-bit value of four bytes. */
  function Le32(b0: Byte, b1: Byte, b2: Byte, b3: Byte): Word
  {
    b0 + 0x100 * b1 + 0x1_0000 * b2 + 0x100_0000 * b3
  }

  /** The two bytes that encode `v` little-endian. */
  function U16Bytes(v: Unit): (bs: seq<Byte>)
    ensures |bs| == 2 && Le16(bs[0], bs[1]) == v
  {
    [v % 0x100, v / 0x100]
  }

  /** The four bytes that encode `v` little-endian. */
  function U32Bytes(v: Word): (bs: seq<Byte>)
    ensures |bs| == 4 && Le32(bs[0], bs[1], bs[2], bs[3]) == v
  {
    var b0 := v % 0x100;
    var r0 := v / 0x100;
    var b1 := r0 % 0x100;
    var r1 := r0 / 0x100;
    var b2 := r1 % 0x100;
    var b3 := r1 / 0x100;
    assert r0 == b1 + 0x100 * r1;
    assert r1 == b2 + 0x100 * b3;
    [b0, b1, b2, b3]
  }

  /** Decoding then encoding two bytes gives them back: `Le16` is a bijection. */
  lemma U16BytesOfLe16(lo: Byte, hi: Byte)
    ensures U16Bytes(Le16(lo, hi)) == [lo, hi]
  {
    var v := Le16(lo, hi);
    assert v % 0x100 == lo && v / 0x100 == hi by {
      assert v == hi * 0x100 + lo;
    }
  }

  /** A sequence of code units written as consecutive little-endian pairs. */
  function UnitsBytes(s: seq<Unit>): seq<Byte>
  {
    if s == [] then [] else U16Bytes(s[0]) + UnitsBytes(s[1..])
  }

  lemma {:induction false} UnitsBytesAt(s: seq<Unit>, k: nat)
    requires k < |s|
    ensures |UnitsBytes(s)| == 2 * |s|
    ensures Le16(UnitsBytes(s)[2 * k], UnitsBytes(s)[2 * k + 1]) == s[k]
  {
    UnitsBytesLength(s);
    if k > 0 {
      UnitsBytesAt(s[1..], k - 1);
      assert UnitsBytes(s) == U16Bytes(s[0]) + UnitsBytes(s[1..]);
    }
  }

  lemma {:induction false} UnitsBytesLength(s: seq<Unit>)
    ensures |UnitsBytes(s)| == 2 * |s|
  {
    if s != [] {
      UnitsBytesLength(s[1..]);
    }
  }
}
