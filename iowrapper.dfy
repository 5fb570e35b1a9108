/** The cursor over the dictionary file (`BufferedIOWrapper`): a byte source with
    a position that reads and seeks move. The position may lie past the end of
    the data; a read there returns no bytes and leaves the position alone. */
module IOWrapper {
  import opened Wrappers
  import opened Bytes

  function Min(a: int, b: int): int { if a <= b then a else b }
  function Max(a: int, b: int): int { if a <= b then b else a }

  /** A decoded value together with the position just after it. */
  datatype Got<T> = Got(value: T, next: nat)

  /** What `read(n)` returns at `pos`: the next `n` bytes, or fewer when the
      data ends first, and nothing at or past the end. */
  function Avail(data: seq<Byte>, pos: nat, n: nat): (bs: seq<Byte>)
    ensures |bs| == if pos < |data| then Min(n, |data| - pos) else 0
    ensures forall i :: 0 <= i < |bs| ==> bs[i] == data[pos + i]
  {
    if pos < |data| then data[pos..Min(pos + n, |data|)] else []
  }

  /** `read_uint16`: a little-endian 16-bit value; an empty read is a soft
      zero that does not move, and a lone remaining byte is a failure. */
  function U16At(data: seq<Byte>, pos: nat): Option<Got<Unit>>
  {
    if pos >= |data| then Some(Got(0, pos))
    else if pos + 1 == |data| then None
    else Some(Got(Le16(data[pos], data[pos + 1]), pos + 2))
  }

  /** `read_uint32`: a little-endian 32-bit value, with no soft zero: fewer
      than four bytes is a failure. */
  function U32At(data: seq<Byte>, pos: nat): Option<Got<Word>>
  {
    if pos + 4 <= |data| then Some(Got(Le32(data[pos], data[pos + 1], data[pos + 2], data[pos + 3]), pos + 4))
    else None
  }

  /** `n` strict 16-bit reads in a row, as the body of `read_str` does them:
      each must find two bytes. */
  function UnitsAt(data: seq<Byte>, pos: nat, n: nat): (r: Option<Got<seq<Unit>>>)
  {
    if n == 0 then Some(Got([], pos))
    else if pos + 2 * n <= |data| then
      Some(Got(seq(n, k requires 0 <= k < n => Le16(data[pos + 2 * k], data[pos + 2 * k + 1])), pos + 2 * n))
    else None
  }

  /** `read_str`: a 16-bit byte length `L`, then `L / 2` code units, each one
      character (no surrogate pairing). */
  function StrAt(data: seq<Byte>, pos: nat): Option<Got<seq<Unit>>>
  {
    match U16At(data, pos)
    case None => None
    case Some(len) => UnitsAt(data, len.next, len.value / 2)
  }

  /** How a method's result and new position follow a specification read:
      the same value and position on success, a failure otherwise. */
  predicate Tracks<T(==)>(r: Option<T>, pos: nat, spec: Option<Got<T>>)
  {
    match spec
    case None => r.None?
    case Some(g) => r == Some(g.value) && pos == g.next
  }

  /** The encoding `read_str` expects: a byte-length prefix, then the units. */
  function StrBytes(s: seq<Unit>): seq<Byte>
    requires |s| < 0x8000
  {
    U16Bytes(2 * |s|) + UnitsBytes(s)
  }

  class BufferedIOWrapper {
    const data: seq<Byte>
    var pos: nat

    constructor (source: seq<Byte>)
      ensures data == source && pos == 0
    {
      data := source;
      pos := 0;
    }

    /** The underlying stream's `read(n)`. */
    method Read(n: nat) returns (bs: seq<Byte>)
      modifies this
      ensures bs == Avail(data, old(pos), n)
      ensures pos == old(pos) + |bs|
    {
      if pos < |data| {
        bs := data[pos..Min(pos + n, |data|)];
      } else {
        bs := [];
      }
      pos := pos + |bs|;
    }

    method ReadUint16() returns (r: Option<Unit>)
      modifies this
      ensures Tracks(r, pos, U16At(data, old(pos)))
      ensures r.None? ==> pos == |data|
    {
      var bs := Read(2);
      if |bs| == 0 {
        r := Some(0);
      } else if |bs| == 1 {
        r := None;
      } else {
        r := Some(Le16(bs[0], bs[1]));
      }
    }

    method ReadUint32() returns (r: Option<Word>)
      modifies this
      ensures Tracks(r, pos, U32At(data, old(pos)))
      ensures r.None? ==> pos == Max(old(pos), |data|)
    {
      var bs := Read(4);
      if |bs| == 4 {
        r := Some(Le32(bs[0], bs[1], bs[2], bs[3]));
      } else {
        r := None;
      }
    }

    method ReadStr() returns (r: Option<seq<Unit>>)
      modifies this
      ensures Tracks(r, pos, StrAt(data, old(pos)))
      ensures r.None? ==> pos == Max(old(pos), |data|)
    {
      var len := ReadUint16();
      if len.None? {
        return None;
      }
      var n := len.value / 2;
      ghost var body := pos;
      assert n > 0 ==> body <= |data|;
      var units: seq<Unit> := [];
      var i := 0;
      while i < n
        invariant 0 <= i <= n
        invariant pos == body + 2 * i
        invariant n > 0 ==> pos <= |data|
        invariant |units| == i
        invariant forall k :: 0 <= k < i ==> units[k] == Le16(data[body + 2 * k], data[body + 2 * k + 1])
      {
        var bs := Read(2);
        if |bs| != 2 {
          return None;
        }
        units := units + [Le16(bs[0], bs[1])];
        i := i + 1;
      }
      assert n > 0 ==> units == UnitsAt(data, body, n).value.value;
      r := Some(units);
    }

    method Seek(offset: int) returns (ok: bool)
      modifies this
      ensures ok <==> offset >= 0
      ensures pos == if ok then offset else old(pos)
    {
      ok := offset >= 0;
      if ok {
        pos := offset;
      }
    }

    method Tell() returns (p: nat)
      ensures p == pos
    {
      p := pos;
    }

    /** A relative seek; one that would land before the start fails and
      leaves the position unchanged. */
    method Skip(offset: int) returns (ok: bool)
      modifies this
      ensures ok <==> old(pos) + offset >= 0
      ensures pos == if ok then old(pos) + offset else old(pos)
    {
      ok := pos + offset >= 0;
      if ok {
        pos := pos + offset;
      }
    }

    method SkipUint16()
      modifies this
      ensures pos == old(pos) + 2
    {
      var ok := Skip(2);
    }
  }

  /** A two-byte field written with `U16Bytes` reads back as its value. */
  lemma U16Read(data: seq<Byte>, pos: nat, v: Unit)
    requires pos + 2 <= |data| && data[pos..pos + 2] == U16Bytes(v)
    ensures U16At(data, pos) == Some(Got(v, pos + 2))
  {
    assert data[pos] == U16Bytes(v)[0] && data[pos + 1] == U16Bytes(v)[1];
  }

  lemma U32Read(data: seq<Byte>, pos: nat, v: Word)
    requires pos + 4 <= |data| && data[pos..pos + 4] == U32Bytes(v)
    ensures U32At(data, pos) == Some(Got(v, pos + 4))
  {
    var bs := U32Bytes(v);
    assert data[pos] == bs[0] && data[pos + 1] == bs[1] && data[pos + 2] == bs[2] && data[pos + 3] == bs[3];
  }

  /** Code units written with `UnitsBytes` read back by strict 16-bit reads. */
  lemma UnitsRead(data: seq<Byte>, pos: nat, s: seq<Unit>)
    requires pos + 2 * |s| <= |data| && data[pos..pos + 2 * |s|] == UnitsBytes(s)
    ensures UnitsAt(data, pos, |s|) == Some(Got(s, pos + 2 * |s|))
  {
    if |s| > 0 {
      UnitsBytesDecode(data, pos, s);
      UnitsAtOf(data, pos, s);
    }
  }

  lemma UnitsBytesDecode(data: seq<Byte>, pos: nat, s: seq<Unit>)
    requires pos + 2 * |s| <= |data| && data[pos..pos + 2 * |s|] == UnitsBytes(s)
    ensures forall k :: 0 <= k < |s| ==> Le16(data[pos + 2 * k], data[pos + 2 * k + 1]) == s[k]
  {
    forall k | 0 <= k < |s|
      ensures Le16(data[pos + 2 * k], data[pos + 2 * k + 1]) == s[k]
    {
      UnitsBytesAt(s, k);
      UnitsPairAt(data, pos, UnitsBytes(s), k);
    }
  }

  lemma UnitsAtOf(data: seq<Byte>, pos: nat, s: seq<Unit>)
    requires 0 < |s| && pos + 2 * |s| <= |data|
    requires forall k :: 0 <= k < |s| ==> Le16(data[pos + 2 * k], data[pos + 2 * k + 1]) == s[k]
    ensures UnitsAt(data, pos, |s|) == Some(Got(s, pos + 2 * |s|))
  {
    var n := |s|;
    var r := seq(n, k requires 0 <= k < n => Le16(data[pos + 2 * k], data[pos + 2 * k + 1]));
    assert UnitsAt(data, pos, n) == Some(Got(r, pos + 2 * n));
    assert r == s;
  }

  lemma UnitsPairAt(data: seq<Byte>, pos: nat, enc: seq<Byte>, k: nat)
    requires pos + |enc| <= |data| && data[pos..pos + |enc|] == enc
    requires 2 * k + 1 < |enc|
    ensures data[pos + 2 * k] == enc[2 * k] && data[pos + 2 * k + 1] == enc[2 * k + 1]
  {
    assert data[pos..pos + |enc|][2 * k] == data[pos + 2 * k];
    assert data[pos..pos + |enc|][2 * k + 1] == data[pos + 2 * k + 1];
  }

  /** Round trip of `read_str`: a string encoded with its byte-length prefix
      reads back whole, and the cursor ends just after it. */
  lemma StrRead(data: seq<Byte>, pos: nat, s: seq<Unit>)
    requires |s| < 0x8000
    requires pos + |StrBytes(s)| <= |data| && data[pos..pos + |StrBytes(s)|] == StrBytes(s)
    ensures |StrBytes(s)| == 2 + 2 * |s|
    ensures StrAt(data, pos) == Some(Got(s, pos + 2 + 2 * |s|))
  {
    UnitsBytesLength(s);
    var enc := StrBytes(s);
    assert data[pos..pos + 2] == enc[..2] == U16Bytes(2 * |s|);
    U16Read(data, pos, 2 * |s|);
    assert data[pos + 2..pos + 2 + 2 * |s|] == enc[2..] == UnitsBytes(s);
    UnitsRead(data, pos + 2, s);
  }
}
