/** The byte layout the SCEL decoder expects, written as encoders, with the
    round trips that tie the decoder to them: whatever is laid out this way
    decodes back to exactly the palette, pronunciations and phrases that were
    laid out, and the table stops where the layout says it stops. */
module ScelLayout {
  import opened Wrappers
  import opened Bytes
  import opened IOWrapper
  import opened Table
  import opened ScelDecoder

  /** A window of `data` at `pos` that holds `enc` holds each slice of it. */
  lemma Window(data: seq<Byte>, pos: nat, enc: seq<Byte>, i: nat, j: nat)
    requires pos + |enc| <= |data| && data[pos..pos + |enc|] == enc
    requires i <= j <= |enc|
    ensures data[pos + i..pos + j] == enc[i..j]
  {
    forall k | 0 <= k < j - i
      ensures data[pos + i..pos + j][k] == enc[i..j][k]
    {
      assert data[pos..pos + |enc|][i + k] == data[pos + i + k];
    }
  }

  /** A window of `data` that holds `enc == a + b` holds `a`, then `b`. */
  lemma Split(data: seq<Byte>, pos: nat, enc: seq<Byte>, a: seq<Byte>, b: seq<Byte>)
    requires pos + |enc| <= |data| && data[pos..pos + |enc|] == enc && enc == a + b
    ensures data[pos..pos + |a|] == a && data[pos + |a|..pos + |a| + |b|] == b
  {
    Window(data, pos, enc, 0, |a|);
    Window(data, pos, enc, |a|, |enc|);
    assert enc[..|a|] == a && enc[|a|..] == b;
  }

  // ---------------------------------------------------------------------------
  // Palette section

  /** Every syllable fits a 16-bit byte length. */
  ghost predicate SyllablesFit(syls: seq<Syllable>)
  {
    syls == [] || (|syls[0]| < 0x8000 && SyllablesFit(syls[1..]))
  }

  /** Palette records: the (unused) running index, then the syllable string. */
  function PaletteBytes(syls: seq<Syllable>, index: nat): seq<Byte>
    requires SyllablesFit(syls) && index + |syls| <= 0x1_0000
  {
    if syls == [] then []
    else U16Bytes(index) + StrBytes(syls[0]) + PaletteBytes(syls[1..], index + 1)
  }

  /** A palette section laid out record by record, ending exactly at
      `CHAR_START`, decodes to its syllables in file order. */
  lemma {:induction false} PaletteRead(data: seq<Byte>, pos: nat, syls: seq<Syllable>, index: nat)
    requires SyllablesFit(syls) && index + |syls| <= 0x1_0000
    requires pos + |PaletteBytes(syls, index)| == CHAR_START <= |data|
    requires data[pos..pos + |PaletteBytes(syls, index)|] == PaletteBytes(syls, index)
    ensures PaletteAt(data, pos) == Some(syls)
    decreases |syls|
  {
    if syls != [] {
      var tail := PaletteBytes(syls[1..], index + 1);
      assert PaletteBytes(syls, index) == U16Bytes(index) + StrBytes(syls[0]) + tail;
      StrBytesLength(syls[0]);
      var next := PaletteRecordRead(data, pos, index, syls[0], tail);
      PaletteRead(data, next, syls[1..], index + 1);
      PaletteStep(data, pos);
      assert PaletteAt(data, pos) == Prepend([syls[0]], Some(syls[1..]));
      HeadTail(syls);
    }
  }

  /** One palette record, followed by `tail`: its syllable reads back, and
      `tail` starts where the record ends. */
  lemma PaletteRecordRead(data: seq<Byte>, pos: nat, index: Unit, s: Syllable, tail: seq<Byte>) returns (next: nat)
    requires |s| < 0x8000
    requires var enc := U16Bytes(index) + StrBytes(s) + tail;
             pos + |enc| <= |data| && data[pos..pos + |enc|] == enc
    ensures next == pos + 4 + 2 * |s|
    ensures StrAt(data, pos + 2) == Some(Got(s, next))
    ensures next + |tail| <= |data| && data[next..next + |tail|] == tail
  {
    var idx := U16Bytes(index);
    var str := StrBytes(s);
    StrBytesLength(s);
    Split(data, pos, idx + str + tail, idx + str, tail);
    Split(data, pos, idx + str, idx, str);
    StrRead(data, pos + 2, s);
    next := pos + 4 + 2 * |s|;
  }

  lemma StrBytesLength(s: seq<Unit>)
    requires |s| < 0x8000
    ensures |StrBytes(s)| == 2 + 2 * |s|
  {
    UnitsBytesLength(s);
  }

  /** Each palette record moves the position on by at least the two bytes of
      its skipped field (only that, once the data has ended), so the 4324
      bytes between the two fixed offsets hold at most 2162 syllables. */
  lemma PaletteBound(data: seq<Byte>)
    requires PaletteAt(data, PINYIN_START).Some?
    ensures 1 <= |PaletteAt(data, PINYIN_START).value| <= 2162
  {
    PaletteLength(data, PINYIN_START);
  }

  // ---------------------------------------------------------------------------
  // Pronunciations

  /** The number of leading indices that lie inside the palette. */
  function InRange(palette: seq<Syllable>, idxs: seq<Unit>): (k: nat)
    ensures k <= |idxs|
    ensures forall j :: 0 <= j < k ==> idxs[j] < |palette|
    ensures k < |idxs| ==> idxs[k] >= |palette|
  {
    if idxs == [] || idxs[0] >= |palette| then 0 else 1 + InRange(palette, idxs[1..])
  }

  /** The syllables that indices inside the palette name. */
  function Lookups(palette: seq<Syllable>, idxs: seq<Unit>): (ss: seq<Syllable>)
    requires InRange(palette, idxs) == |idxs|
    ensures |ss| == |idxs|
    ensures forall k :: 0 <= k < |idxs| ==> ss[k] == palette[idxs[k]]
  {
    if idxs == [] then [] else [palette[idxs[0]]] + Lookups(palette, idxs[1..])
  }

  /** What a pronunciation means: its syllables joined by spaces, or empty
      when any index lies outside the palette. */
  function PinyinOf(palette: seq<Syllable>, idxs: seq<Unit>): seq<Unit>
  {
    if InRange(palette, idxs) < |idxs| then [] else Join(Lookups(palette, idxs))
  }

  /** The three ways a pronunciation comes out empty, and no others: no
      indices, an index outside the palette, or one index naming an empty
      syllable. */
  lemma PinyinOfEmpty(palette: seq<Syllable>, idxs: seq<Unit>)
    ensures PinyinOf(palette, idxs) == [] <==>
              |idxs| == 0
              || (exists k :: 0 <= k < |idxs| && idxs[k] >= |palette|)
              || (|idxs| == 1 && idxs[0] < |palette| && palette[idxs[0]] == [])
  {
    if InRange(palette, idxs) < |idxs| {
      assert idxs[InRange(palette, idxs)] >= |palette|;
    }
  }

  /** Bytes read for the indices: up to and including the first one outside
      the palette, or all of them. */
  function IndicesRead(palette: seq<Syllable>, idxs: seq<Unit>): nat
  {
    if InRange(palette, idxs) < |idxs| then InRange(palette, idxs) + 1 else |idxs|
  }

  /** What reading laid-out indices at `pos` yields, and where it stops. */
  function IndicesOutcome(palette: seq<Syllable>, idxs: seq<Unit>, pos: nat): Got<Lookup>
  {
    Got(if InRange(palette, idxs) < |idxs| then OutOfRange else Resolved(Lookups(palette, idxs)),
        pos + 2 * IndicesRead(palette, idxs))
  }

  lemma IndicesOutcomeStep(palette: seq<Syllable>, idxs: seq<Unit>, pos: nat)
    requires idxs != [] && idxs[0] < |palette|
    ensures Some(IndicesOutcome(palette, idxs, pos)) ==
              ResolvedAfter([palette[idxs[0]]], Some(IndicesOutcome(palette, idxs[1..], pos + 2)))
  {
    var rest := idxs[1..];
    assert InRange(palette, idxs) == 1 + InRange(palette, rest);
    if InRange(palette, idxs) == |idxs| {
      assert Lookups(palette, idxs) == [palette[idxs[0]]] + Lookups(palette, rest);
    }
  }

  /** `data` holds the code units `s` as little-endian pairs from `pos`. */
  ghost predicate UnitsLaidOut(data: seq<Byte>, pos: nat, s: seq<Unit>)
  {
    pos + 2 * |s| <= |data| &&
    forall k :: 0 <= k < |s| ==> Le16(data[pos + 2 * k], data[pos + 2 * k + 1]) == s[k]
  }

  lemma UnitsLaidOutTail(data: seq<Byte>, pos: nat, s: seq<Unit>)
    requires s != [] && UnitsLaidOut(data, pos, s)
    ensures U16At(data, pos) == Some(Got(s[0], pos + 2))
    ensures UnitsLaidOut(data, pos + 2, s[1..])
  {
    assert Le16(data[pos + 2 * 0], data[pos + 2 * 0 + 1]) == s[0];
    forall k | 0 <= k < |s| - 1
      ensures Le16(data[pos + 2 + 2 * k], data[pos + 2 + 2 * k + 1]) == s[1..][k]
    {
      assert Le16(data[pos + 2 * (k + 1)], data[pos + 2 * (k + 1) + 1]) == s[k + 1];
    }
  }

  lemma {:induction false} SyllablesRead(data: seq<Byte>, pos: nat, idxs: seq<Unit>, palette: seq<Syllable>)
    requires UnitsLaidOut(data, pos, idxs)
    ensures SyllablesAt(data, pos, |idxs|, palette) == Some(IndicesOutcome(palette, idxs, pos))
    decreases |idxs|
  {
    if idxs != [] {
      UnitsLaidOutTail(data, pos, idxs);
      if idxs[0] < |palette| {
        SyllablesRead(data, pos + 2, idxs[1..], palette);
        SyllablesStep(data, pos, |idxs|, palette);
        IndicesOutcomeStep(palette, idxs, pos);
      } else {
        SyllablesOutOfRange(data, pos, |idxs|, palette);
      }
    }
  }

  function PinyinBytes(idxs: seq<Unit>): seq<Byte>
    requires |idxs| < 0x8000
  {
    U16Bytes(2 * |idxs|) + UnitsBytes(idxs)
  }

  /** Round trip of `_read_pinyin`: laid-out indices decode to `PinyinOf`,
      and reading stops after the first index outside the palette. */
  lemma PinyinRead(data: seq<Byte>, pos: nat, idxs: seq<Unit>, palette: seq<Syllable>)
    requires |idxs| < 0x8000
    requires pos + |PinyinBytes(idxs)| <= |data| && data[pos..pos + |PinyinBytes(idxs)|] == PinyinBytes(idxs)
    ensures |PinyinBytes(idxs)| == 2 + 2 * |idxs|
    ensures PinyinAt(data, pos, palette) == Some(Got(PinyinOf(palette, idxs), pos + 2 + 2 * IndicesRead(palette, idxs)))
  {
    UnitsBytesLength(idxs);
    Split(data, pos, PinyinBytes(idxs), U16Bytes(2 * |idxs|), UnitsBytes(idxs));
    U16Read(data, pos, 2 * |idxs|);
    UnitsBytesDecode(data, pos + 2, idxs);
    SyllablesRead(data, pos + 2, idxs, palette);
    PinyinUnfold(data, pos, palette);
  }

  // ---------------------------------------------------------------------------
  // Phrase records and groups

  /** A phrase record as laid out: the phrase, its order, and the trailer
      that `skip_length - 4` skips. */
  datatype Record = Record(phrase: seq<Unit>, order: Word, trailer: seq<Byte>)

  ghost predicate RecordFits(r: Record)
  {
    |r.phrase| < 0x8000 && |r.trailer| < 0x1_0000 - 4
  }

  function RecordBytes(r: Record): seq<Byte>
    requires RecordFits(r)
  {
    StrBytes(r.phrase) + U16Bytes(4 + |r.trailer|) + U32Bytes(r.order) + r.trailer
  }

  lemma RecordRead(data: seq<Byte>, pos: nat, r: Record, pinyin: seq<Unit>) returns (next: nat)
    requires RecordFits(r)
    requires pos + |RecordBytes(r)| <= |data| && data[pos..pos + |RecordBytes(r)|] == RecordBytes(r)
    ensures next == pos + |RecordBytes(r)| == pos + 8 + 2 * |r.phrase| + |r.trailer|
    ensures RecordAt(data, pos, pinyin) == Some(Got(Entry(r.phrase, pinyin, r.order), next))
  {
    var a := RecordFieldsRead(data, pos, r);
    RecordOf(data, pos, pinyin, r.phrase, a, 4 + |r.trailer|, r.order);
    next := a + 6 + |r.trailer|;
  }

  /** The three fields of a laid-out record, each read where the previous
      one ended. */
  lemma RecordFieldsRead(data: seq<Byte>, pos: nat, r: Record) returns (a: nat)
    requires RecordFits(r)
    requires pos + |RecordBytes(r)| <= |data| && data[pos..pos + |RecordBytes(r)|] == RecordBytes(r)
    ensures a == pos + 2 + 2 * |r.phrase| && pos + |RecordBytes(r)| == a + 6 + |r.trailer|
    ensures StrAt(data, pos) == Some(Got(r.phrase, a))
    ensures U16At(data, a) == Some(Got((4 + |r.trailer|) as Unit, a + 2))
    ensures U32At(data, a + 2) == Some(Got(r.order, a + 6))
  {
    var str := StrBytes(r.phrase);
    var skip := U16Bytes(4 + |r.trailer|);
    var order := U32Bytes(r.order);
    StrBytesLength(r.phrase);
    a := pos + |str|;
    Split(data, pos, RecordBytes(r), str + skip + order, r.trailer);
    Split(data, pos, str + skip + order, str + skip, order);
    Split(data, pos, str + skip, str, skip);
    StrRead(data, pos, r.phrase);
    U16Read(data, a, 4 + |r.trailer|);
    U32Read(data, a + 2, r.order);
  }

  /** A record is its phrase, its skip length and its order, read in turn;
      the skip length counts the order's four bytes. */
  lemma RecordOf(data: seq<Byte>, pos: nat, pinyin: seq<Unit>, phrase: seq<Unit>, a: nat, skip: Unit, order: Word)
    requires skip >= 4
    requires StrAt(data, pos) == Some(Got(phrase, a))
    requires U16At(data, a) == Some(Got(skip, a + 2))
    requires U32At(data, a + 2) == Some(Got(order, a + 6))
    ensures RecordAt(data, pos, pinyin) == Some(Got(Entry(phrase, pinyin, order), a + 2 + skip))
  {
    RecordUnfold(data, pos, pinyin);
  }

  ghost predicate RecordsFit(rs: seq<Record>)
  {
    rs == [] || (RecordFits(rs[0]) && RecordsFit(rs[1..]))
  }

  function RecordsBytes(rs: seq<Record>): seq<Byte>
    requires RecordsFit(rs)
  {
    if rs == [] then [] else RecordBytes(rs[0]) + RecordsBytes(rs[1..])
  }

  /** The entries a group's records decode to. */
  function EntriesOf(rs: seq<Record>, pinyin: seq<Unit>): seq<Entry>
  {
    seq(|rs|, i requires 0 <= i < |rs| => Entry(rs[i].phrase, pinyin, rs[i].order))
  }

  lemma {:induction false} RecordsRead(data: seq<Byte>, pos: nat, rs: seq<Record>, pinyin: seq<Unit>) returns (next: nat)
    requires RecordsFit(rs)
    requires pos + |RecordsBytes(rs)| <= |data| && data[pos..pos + |RecordsBytes(rs)|] == RecordsBytes(rs)
    ensures next == pos + |RecordsBytes(rs)|
    ensures RecordsAt(data, pos, |rs|, pinyin) == Some(Got(EntriesOf(rs, pinyin), next))
    decreases |rs|
  {
    if rs == [] {
      next := pos;
      assert EntriesOf(rs, pinyin) == [];
    } else {
      var e := Entry(rs[0].phrase, pinyin, rs[0].order);
      var split := RecordsSplit(data, pos, rs);
      var mid := RecordRead(data, pos, rs[0], pinyin);
      next := RecordsRead(data, mid, rs[1..], pinyin);
      RecordsCons(data, pos, |rs|, pinyin, e, mid, EntriesOf(rs[1..], pinyin), next);
      EntriesOfCons(rs, pinyin);
    }
  }

  /** Laid-out records hold the first record, then the others. */
  lemma RecordsSplit(data: seq<Byte>, pos: nat, rs: seq<Record>) returns (mid: nat)
    requires RecordsFit(rs) && rs != []
    requires pos + |RecordsBytes(rs)| <= |data| && data[pos..pos + |RecordsBytes(rs)|] == RecordsBytes(rs)
    ensures RecordFits(rs[0]) && RecordsFit(rs[1..])
    ensures mid == pos + |RecordBytes(rs[0])|
    ensures pos + |RecordBytes(rs[0])| <= |data| && data[pos..pos + |RecordBytes(rs[0])|] == RecordBytes(rs[0])
    ensures mid + |RecordsBytes(rs[1..])| == pos + |RecordsBytes(rs)|
    ensures data[mid..mid + |RecordsBytes(rs[1..])|] == RecordsBytes(rs[1..])
  {
    Split(data, pos, RecordsBytes(rs), RecordBytes(rs[0]), RecordsBytes(rs[1..]));
    mid := pos + |RecordBytes(rs[0])|;
  }

  lemma RecordsCons(data: seq<Byte>, pos: nat, n: nat, pinyin: seq<Unit>, e: Entry, mid: nat, rest: seq<Entry>, next: nat)
    requires n > 0
    requires RecordAt(data, pos, pinyin) == Some(Got(e, mid))
    requires RecordsAt(data, mid, n - 1, pinyin) == Some(Got(rest, next))
    ensures RecordsAt(data, pos, n, pinyin) == Some(Got([e] + rest, next))
  {
  }

  lemma EntriesOfCons(rs: seq<Record>, pinyin: seq<Unit>)
    requires rs != []
    ensures EntriesOf(rs, pinyin) == [Entry(rs[0].phrase, pinyin, rs[0].order)] + EntriesOf(rs[1..], pinyin)
  {
  }

  /** A group as laid out: palette indices, then at least one record. */
  datatype Group = Group(indices: seq<Unit>, records: seq<Record>)

  ghost predicate GroupFits(g: Group)
  {
    |g.indices| < 0x8000 && 0 < |g.records| < 0x1_0000 && RecordsFit(g.records)
  }

  /** A group's `word_count` and pronunciation. */
  function GroupHead(count: Unit, idxs: seq<Unit>): seq<Byte>
    requires |idxs| < 0x8000
  {
    U16Bytes(count) + PinyinBytes(idxs)
  }

  function GroupBytes(g: Group): seq<Byte>
    requires GroupFits(g)
  {
    GroupHead(|g.records|, g.indices) + RecordsBytes(g.records)
  }

  /** A laid-out group head reads back as its count and pronunciation. */
  lemma GroupHeadRead(data: seq<Byte>, pos: nat, count: Unit, idxs: seq<Unit>, palette: seq<Syllable>)
    requires |idxs| < 0x8000
    requires pos + |GroupHead(count, idxs)| <= |data|
    requires data[pos..pos + |GroupHead(count, idxs)|] == GroupHead(count, idxs)
    ensures |GroupHead(count, idxs)| == 4 + 2 * |idxs|
    ensures U16At(data, pos) == Some(Got(count, pos + 2))
    ensures PinyinAt(data, pos + 2, palette) ==
              Some(Got(PinyinOf(palette, idxs), pos + 4 + 2 * IndicesRead(palette, idxs)))
    ensures PinyinOf(palette, idxs) != [] ==>
              PinyinAt(data, pos + 2, palette) == Some(Got(PinyinOf(palette, idxs), pos + 4 + 2 * |idxs|))
  {
    UnitsBytesLength(idxs);
    Split(data, pos, GroupHead(count, idxs), U16Bytes(count), PinyinBytes(idxs));
    U16Read(data, pos, count);
    PinyinRead(data, pos + 2, idxs, palette);
  }

  /** A laid-out head whose pronunciation resolves: the records start just
      after it. */
  lemma ResolvedHeadRead(data: seq<Byte>, pos: nat, count: Unit, idxs: seq<Unit>, palette: seq<Syllable>, start: nat)
    requires |idxs| < 0x8000 && PinyinOf(palette, idxs) != []
    requires pos + |GroupHead(count, idxs)| <= |data|
    requires data[pos..pos + |GroupHead(count, idxs)|] == GroupHead(count, idxs)
    requires start == pos + 4 + 2 * |idxs|
    ensures U16At(data, pos) == Some(Got(count, pos + 2))
    ensures PinyinAt(data, pos + 2, palette) == Some(Got(PinyinOf(palette, idxs), start))
  {
    GroupHeadRead(data, pos, count, idxs, palette);
  }

  /** A group whose pronunciation resolves contributes its records, in file
      order and all with that pronunciation, ahead of whatever follows. */
  lemma GroupRead(data: seq<Byte>, pos: nat, g: Group, palette: seq<Syllable>) returns (next: nat)
    requires GroupFits(g) && PinyinOf(palette, g.indices) != []
    requires pos + |GroupBytes(g)| <= |data| && data[pos..pos + |GroupBytes(g)|] == GroupBytes(g)
    ensures next == pos + |GroupBytes(g)|
    ensures TableAt(data, pos, palette) ==
              Prepend(EntriesOf(g.records, PinyinOf(palette, g.indices)), TableAt(data, next, palette))
  {
    var pinyin := PinyinOf(palette, g.indices);
    var start;
    start, next := GroupParts(data, pos, g, palette);
    TableResolvedGroup(data, pos, palette, |g.records|, pinyin, start, EntriesOf(g.records, pinyin), next);
  }

  /** Where a laid-out group's records start and end, and what its head and
      records read back as. */
  lemma GroupParts(data: seq<Byte>, pos: nat, g: Group, palette: seq<Syllable>) returns (start: nat, next: nat)
    requires GroupFits(g) && PinyinOf(palette, g.indices) != []
    requires pos + |GroupBytes(g)| <= |data| && data[pos..pos + |GroupBytes(g)|] == GroupBytes(g)
    ensures next == pos + |GroupBytes(g)|
    ensures U16At(data, pos) == Some(Got(|g.records| as Unit, pos + 2))
    ensures PinyinAt(data, pos + 2, palette) == Some(Got(PinyinOf(palette, g.indices), start))
    ensures RecordsAt(data, start, |g.records|, PinyinOf(palette, g.indices)) ==
              Some(Got(EntriesOf(g.records, PinyinOf(palette, g.indices)), next))
  {
    start := GroupHeadPart(data, pos, g, palette);
    next := RecordsRead(data, start, g.records, PinyinOf(palette, g.indices));
  }

  /** A laid-out group's head reads back, and its records follow it. */
  lemma GroupHeadPart(data: seq<Byte>, pos: nat, g: Group, palette: seq<Syllable>) returns (start: nat)
    requires GroupFits(g) && PinyinOf(palette, g.indices) != []
    requires pos + |GroupBytes(g)| <= |data| && data[pos..pos + |GroupBytes(g)|] == GroupBytes(g)
    ensures U16At(data, pos) == Some(Got(|g.records| as Unit, pos + 2))
    ensures PinyinAt(data, pos + 2, palette) == Some(Got(PinyinOf(palette, g.indices), start))
    ensures RecordsFit(g.records)
    ensures start + |RecordsBytes(g.records)| == pos + |GroupBytes(g)|
    ensures data[start..start + |RecordsBytes(g.records)|] == RecordsBytes(g.records)
  {
    start := GroupSplit(data, pos, g);
    ResolvedHeadRead(data, pos, |g.records|, g.indices, palette, start);
  }

  /** A laid-out group holds its head, then its records. */
  lemma GroupSplit(data: seq<Byte>, pos: nat, g: Group) returns (start: nat)
    requires GroupFits(g)
    requires pos + |GroupBytes(g)| <= |data| && data[pos..pos + |GroupBytes(g)|] == GroupBytes(g)
    ensures start == pos + |GroupHead(|g.records|, g.indices)| == pos + 4 + 2 * |g.indices|
    ensures data[pos..pos + |GroupHead(|g.records|, g.indices)|] == GroupHead(|g.records|, g.indices)
    ensures start + |RecordsBytes(g.records)| == pos + |GroupBytes(g)|
    ensures data[start..start + |RecordsBytes(g.records)|] == RecordsBytes(g.records)
  {
    var head := GroupHead(|g.records|, g.indices);
    UnitsBytesLength(g.indices);
    Split(data, pos, GroupBytes(g), head, RecordsBytes(g.records));
    start := pos + |head|;
  }

  /** A group whose count is not zero, whose pronunciation resolves and
      whose records decode. */
  lemma TableResolvedGroup(data: seq<Byte>, pos: nat, palette: seq<Syllable>, count: Unit, pinyin: seq<Unit>,
                           start: nat, entries: seq<Entry>, next: nat)
    requires count != 0 && pinyin != []
    requires U16At(data, pos) == Some(Got(count, pos + 2))
    requires PinyinAt(data, pos + 2, palette) == Some(Got(pinyin, start))
    requires RecordsAt(data, start, count, pinyin) == Some(Got(entries, next))
    ensures TableAt(data, pos, palette) == Prepend(entries, TableAt(data, next, palette))
  {
    TableGroup(data, pos, palette);
  }

  ghost predicate GroupsFit(gs: seq<Group>)
  {
    gs == [] || (GroupFits(gs[0]) && GroupsFit(gs[1..]))
  }

  /** Every group's pronunciation resolves to a non-empty one. */
  ghost predicate Resolves(gs: seq<Group>, palette: seq<Syllable>)
  {
    gs == [] || (PinyinOf(palette, gs[0].indices) != [] && Resolves(gs[1..], palette))
  }

  function TableBytes(gs: seq<Group>): seq<Byte>
    requires GroupsFit(gs)
  {
    if gs == [] then [] else GroupBytes(gs[0]) + TableBytes(gs[1..])
  }

  /** The entries of all groups, in file order. */
  function TableEntries(gs: seq<Group>, palette: seq<Syllable>): seq<Entry>
  {
    if gs == [] then []
    else EntriesOf(gs[0].records, PinyinOf(palette, gs[0].indices)) + TableEntries(gs[1..], palette)
  }

  /** Round trip of the table pass: laid-out groups contribute their entries
      in file order ahead of whatever the rest of the table yields. */
  lemma {:induction false} TableRead(data: seq<Byte>, pos: nat, gs: seq<Group>, palette: seq<Syllable>, end: nat)
    requires GroupsFit(gs) && Resolves(gs, palette)
    requires end == pos + |TableBytes(gs)| <= |data|
    requires data[pos..end] == TableBytes(gs)
    ensures TableAt(data, pos, palette) == Prepend(TableEntries(gs, palette), TableAt(data, end, palette))
    decreases |gs|
  {
    if gs == [] {
      PrependNil(TableAt(data, pos, palette));
    } else {
      var mid := FirstGroupRead(data, pos, gs, palette);
      TableRead(data, mid, gs[1..], palette, end);
      TableJoin(data, pos, mid, end, palette, EntriesOf(gs[0].records, PinyinOf(palette, gs[0].indices)),
                TableEntries(gs[1..], palette));
    }
  }

  /** The first of several laid-out groups reads back, and the others
      follow it. */
  lemma FirstGroupRead(data: seq<Byte>, pos: nat, gs: seq<Group>, palette: seq<Syllable>) returns (mid: nat)
    requires GroupsFit(gs) && Resolves(gs, palette) && gs != []
    requires pos + |TableBytes(gs)| <= |data|
    requires data[pos..pos + |TableBytes(gs)|] == TableBytes(gs)
    ensures GroupsFit(gs[1..]) && Resolves(gs[1..], palette)
    ensures pos + |TableBytes(gs)| == mid + |TableBytes(gs[1..])|
    ensures data[mid..pos + |TableBytes(gs)|] == TableBytes(gs[1..])
    ensures TableAt(data, pos, palette) ==
              Prepend(EntriesOf(gs[0].records, PinyinOf(palette, gs[0].indices)), TableAt(data, mid, palette))
  {
    var split := TableSplit(data, pos, gs);
    mid := GroupRead(data, pos, gs[0], palette);
  }

  /** Laid-out groups hold the first group, then the others. */
  lemma TableSplit(data: seq<Byte>, pos: nat, gs: seq<Group>) returns (mid: nat)
    requires GroupsFit(gs) && gs != []
    requires pos + |TableBytes(gs)| <= |data|
    requires data[pos..pos + |TableBytes(gs)|] == TableBytes(gs)
    ensures GroupFits(gs[0]) && GroupsFit(gs[1..])
    ensures mid == pos + |GroupBytes(gs[0])|
    ensures pos + |GroupBytes(gs[0])| <= |data| && data[pos..pos + |GroupBytes(gs[0])|] == GroupBytes(gs[0])
    ensures mid + |TableBytes(gs[1..])| == pos + |TableBytes(gs)|
    ensures data[mid..mid + |TableBytes(gs[1..])|] == TableBytes(gs[1..])
  {
    var head := GroupBytes(gs[0]);
    Split(data, pos, TableBytes(gs), head, TableBytes(gs[1..]));
    mid := pos + |head|;
  }

  lemma TableJoin(data: seq<Byte>, pos: nat, mid: nat, next: nat, palette: seq<Syllable>,
                  first: seq<Entry>, rest: seq<Entry>)
    requires TableAt(data, pos, palette) == Prepend(first, TableAt(data, mid, palette))
    requires TableAt(data, mid, palette) == Prepend(rest, TableAt(data, next, palette))
    ensures TableAt(data, pos, palette) == Prepend(first + rest, TableAt(data, next, palette))
  {
    PrependAppend(first, rest, TableAt(data, next, palette));
  }

  // ---------------------------------------------------------------------------
  // Where the table pass stops

  /** What the table pass reads as a zero `word_count` at `pos`: the end of
      the data, or two zero bytes. */
  predicate ZeroCountAt(data: seq<Byte>, pos: nat)
  {
    pos >= |data| || (pos + 2 <= |data| && data[pos] == 0 && data[pos + 1] == 0)
  }

  /** A zero `word_count`, or the soft zero at or past the end of the data,
      ends the table with nothing more. */
  lemma TableStopsAtZeroCount(data: seq<Byte>, pos: nat, palette: seq<Syllable>)
    requires ZeroCountAt(data, pos)
    ensures TableAt(data, pos, palette) == Some([])
  {
  }

  /** A group whose pronunciation comes out empty ends the table: neither its
      own records nor any later group appear, whatever bytes follow. */
  lemma TableStopsAtEmptyPinyin(data: seq<Byte>, pos: nat, count: Unit, idxs: seq<Unit>, palette: seq<Syllable>)
    requires count != 0 && |idxs| < 0x8000 && PinyinOf(palette, idxs) == []
    requires pos + |GroupHead(count, idxs)| <= |data|
    requires data[pos..pos + |GroupHead(count, idxs)|] == GroupHead(count, idxs)
    ensures TableAt(data, pos, palette) == Some([])
  {
    GroupHeadRead(data, pos, count, idxs, palette);
    TableGroup(data, pos, palette);
  }

  /** A record needs its whole phrase string and six more bytes; data that
      ends sooner fails the record, and with it the whole table. */
  lemma RecordNeedsItsBytes(data: seq<Byte>, pos: nat, pinyin: seq<Unit>)
    requires RecordAt(data, pos, pinyin).Some?
    ensures StrAt(data, pos).Some? && StrAt(data, pos).value.next + 6 <= |data|
  {
    RecordUnfold(data, pos, pinyin);
  }

  /** A group whose first record is cut short fails the whole table. */
  lemma TableFailsOnCutRecord(data: seq<Byte>, pos: nat, count: Unit, idxs: seq<Unit>, palette: seq<Syllable>)
    requires count != 0 && |idxs| < 0x8000 && PinyinOf(palette, idxs) != []
    requires pos + |GroupHead(count, idxs)| <= |data|
    requires data[pos..pos + |GroupHead(count, idxs)|] == GroupHead(count, idxs)
    requires var start := pos + 4 + 2 * |idxs|;
             StrAt(data, start).None? || StrAt(data, start).value.next + 6 > |data|
    ensures TableAt(data, pos, palette).None?
  {
    var pinyin := PinyinOf(palette, idxs);
    var start := pos + 4 + 2 * |idxs|;
    ResolvedHeadRead(data, pos, count, idxs, palette, start);
    RecordsFailOnCut(data, start, count, pinyin);
    TableFailedGroup(data, pos, palette, count, pinyin, start);
  }

  lemma RecordsFailOnCut(data: seq<Byte>, pos: nat, count: nat, pinyin: seq<Unit>)
    requires count != 0
    requires StrAt(data, pos).None? || StrAt(data, pos).value.next + 6 > |data|
    ensures RecordsAt(data, pos, count, pinyin).None?
  {
    if RecordAt(data, pos, pinyin).Some? {
      RecordNeedsItsBytes(data, pos, pinyin);
    }
    RecordsStep(data, pos, count, pinyin);
  }

  /** A group whose count is not zero and whose pronunciation resolves, but
      whose records fail. */
  lemma TableFailedGroup(data: seq<Byte>, pos: nat, palette: seq<Syllable>, count: Unit, pinyin: seq<Unit>, start: nat)
    requires count != 0 && pinyin != []
    requires U16At(data, pos) == Some(Got(count, pos + 2))
    requires PinyinAt(data, pos + 2, palette) == Some(Got(pinyin, start))
    requires RecordsAt(data, start, count, pinyin).None?
    ensures TableAt(data, pos, palette).None?
  {
    TableGroup(data, pos, palette);
  }

  // ---------------------------------------------------------------------------
  // The whole file

  /** Decoding a file whose palette section decodes to `syls` and whose
      phrase table is laid out as above yields the laid-out entries, stably
      sorted by order. `PaletteSection` supplies the first premise for a
      laid-out palette section. */
  lemma DecodeRead(data: seq<Byte>, syls: seq<Syllable>, gs: seq<Group>)
    requires PaletteAt(data, PINYIN_START) == Some(syls)
    requires GroupsFit(gs) && Resolves(gs, syls)
    requires CHAR_START + |TableBytes(gs)| <= |data|
    requires data[CHAR_START..CHAR_START + |TableBytes(gs)|] == TableBytes(gs)
    requires ZeroCountAt(data, CHAR_START + |TableBytes(gs)|)
    ensures Decode(data) == Some(SortByOrder(TableEntries(gs, syls)))
  {
    TableSection(data, CHAR_START, gs, syls);
    DecodeOf(data, syls, TableEntries(gs, syls));
  }

  /** Laid-out groups followed by a zero count, or by the end of the data,
      are the whole table. */
  lemma TableSection(data: seq<Byte>, pos: nat, gs: seq<Group>, palette: seq<Syllable>)
    requires GroupsFit(gs) && Resolves(gs, palette)
    requires pos + |TableBytes(gs)| <= |data|
    requires data[pos..pos + |TableBytes(gs)|] == TableBytes(gs)
    requires ZeroCountAt(data, pos + |TableBytes(gs)|)
    ensures TableAt(data, pos, palette) == Some(TableEntries(gs, palette))
  {
    var end := pos + |TableBytes(gs)|;
    TableStopsAtZeroCount(data, end, palette);
    TableEnds(data, pos, gs, palette, end);
  }

  /** A palette section laid out from `pos` up to `CHAR_START`. */
  lemma PaletteSection(data: seq<Byte>, pos: nat, syls: seq<Syllable>)
    requires SyllablesFit(syls) && |syls| <= 0x1_0000
    requires pos + |PaletteBytes(syls, 0)| == CHAR_START <= |data|
    requires data[pos..CHAR_START] == PaletteBytes(syls, 0)
    ensures PaletteAt(data, pos) == Some(syls)
  {
    PaletteRead(data, pos, syls, 0);
  }

  /** Laid-out groups followed by an empty rest of the table are the whole
      table. */
  lemma TableEnds(data: seq<Byte>, pos: nat, gs: seq<Group>, palette: seq<Syllable>, end: nat)
    requires GroupsFit(gs) && Resolves(gs, palette)
    requires end == pos + |TableBytes(gs)| <= |data|
    requires data[pos..end] == TableBytes(gs)
    requires TableAt(data, end, palette) == Some([])
    ensures TableAt(data, pos, palette) == Some(TableEntries(gs, palette))
  {
    TableRead(data, pos, gs, palette, end);
    PrependEmpty(TableEntries(gs, palette));
  }

  lemma DecodeOf(data: seq<Byte>, palette: seq<Syllable>, t: seq<Entry>)
    requires PaletteAt(data, PINYIN_START) == Some(palette)
    requires TableAt(data, CHAR_START, palette) == Some(t)
    ensures Decode(data) == Some(SortByOrder(t))
  {
  }
}
