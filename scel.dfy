/** The SCEL decoder (`Scel`): a palette pass over the syllable section, then
    a pass over the phrase-table groups, each driven by the cursor position.
    The functions below say what each pass reads; the methods of class `Scel`
    perform the passes on a `BufferedIOWrapper` and are proved to agree. */
module ScelDecoder {
  import opened Wrappers
  import opened Bytes
  import opened IOWrapper
  import opened Table

  /** Where the syllable palette starts. */
  const PINYIN_START: nat := 0x1544
  /** Where the phrase table starts; also where the palette pass stops. */
  const CHAR_START: nat := 0x2628
  const SPACE: Unit := 0x20

  type Syllable = seq<Unit>

  /** `xs` in front of a decoded sequence; failure stays failure. */
  function Prepend<T>(xs: seq<T>, r: Option<seq<T>>): Option<seq<T>>
  {
    match r
    case None => None
    case Some(ys) => Some(xs + ys)
  }

  // ---------------------------------------------------------------------------
  // The palette pass

  /** Records from `pos` on, each a skipped 16-bit field and a string, for as
      long as a record would start below `CHAR_START`. */
  function PaletteAt(data: seq<Byte>, pos: nat): Option<seq<Syllable>>
    decreases CHAR_START - pos
  {
    if pos >= CHAR_START then Some([])
    else
      match StrAt(data, pos + 2)
      case None => None
      case Some(s) =>
        match PaletteAt(data, s.next)
        case None => None
        case Some(rest) => Some([s.value] + rest)
  }

  /** Where a successful palette pass leaves the cursor: the end of the first
      record that ends at or past `CHAR_START`, or `pos` itself when it is
      already there. */
  function PaletteEnd(data: seq<Byte>, pos: nat): nat
    decreases CHAR_START - pos
  {
    if pos >= CHAR_START then pos
    else
      match StrAt(data, pos + 2)
      case None => pos
      case Some(s) => PaletteEnd(data, s.next)
  }

  /** A successful palette pass ends at or past `CHAR_START`, and never before
      where it started. */
  lemma {:induction false} PaletteEndBound(data: seq<Byte>, pos: nat)
    requires PaletteAt(data, pos).Some?
    ensures PaletteEnd(data, pos) >= CHAR_START && PaletteEnd(data, pos) >= pos
    decreases CHAR_START - pos
  {
    if pos < CHAR_START {
      var s := StrAt(data, pos + 2).value;
      PaletteEndBound(data, s.next);
    }
  }

  /** Every palette record advances the position by at least two bytes (the
      skipped field), so a palette read from below `CHAR_START` holds at least
      one and at most half the remaining distance, rounded up, syllables. */
  lemma {:induction false} PaletteLength(data: seq<Byte>, pos: nat)
    requires PaletteAt(data, pos).Some? && pos < CHAR_START
    ensures 1 <= |PaletteAt(data, pos).value| && 2 * |PaletteAt(data, pos).value| <= CHAR_START - pos + 1
    decreases CHAR_START - pos
  {
    var s := StrAt(data, pos + 2).value;
    if s.next < CHAR_START {
      PaletteLength(data, s.next);
    }
  }

  // ---------------------------------------------------------------------------
  // A group's pronunciation

  /** `' '.join(...)`: the syllables separated by single spaces. */
  function Join(ss: seq<Syllable>): (r: seq<Unit>)
    ensures r == [] <==> |ss| == 0 || (|ss| == 1 && ss[0] == [])
  {
    if |ss| == 0 then []
    else if |ss| == 1 then ss[0]
    else ss[0] + [SPACE] + Join(ss[1..])
  }

  /** The outcome of looking up palette indices: every syllable, or the news
      that one index lay outside the palette (Python's `IndexError`). */
  datatype Lookup = Resolved(syllables: seq<Syllable>) | OutOfRange

  function ConsLookup(s: Syllable, l: Lookup): Lookup
  {
    match l
    case OutOfRange => OutOfRange
    case Resolved(ss) => Resolved([s] + ss)
  }

  /** `n` palette indices, each a soft 16-bit read; reading stops at the first
      index outside the palette. */
  function SyllablesAt(data: seq<Byte>, pos: nat, n: nat, palette: seq<Syllable>): Option<Got<Lookup>>
    decreases n
  {
    if n == 0 then Some(Got(Resolved([]), pos))
    else
      match U16At(data, pos)
      case None => None
      case Some(idx) =>
        if idx.value >= |palette| then Some(Got(OutOfRange, idx.next))
        else
          match SyllablesAt(data, idx.next, n - 1, palette)
          case None => None
          case Some(rest) => Some(Got(ConsLookup(palette[idx.value], rest.value), rest.next))
  }

  /** `_read_pinyin`: a byte length, then `length / 2` indices; an index
      outside the palette makes the whole pronunciation empty. */
  function PinyinAt(data: seq<Byte>, pos: nat, palette: seq<Syllable>): Option<Got<seq<Unit>>>
  {
    match U16At(data, pos)
    case None => None
    case Some(len) =>
      match SyllablesAt(data, len.next, len.value / 2, palette)
      case None => None
      case Some(g) => Some(Got(if g.value.OutOfRange? then [] else Join(g.value.syllables), g.next))
  }

  // ---------------------------------------------------------------------------
  // The phrase table

  /** One phrase record: a string, a 16-bit `skip_length`, a 32-bit order, then
      `skip_length - 4` trailer bytes skipped. The skip never lands before the
      start of the stream, since the order read alone ends at offset 4 or later. */
  function RecordAt(data: seq<Byte>, pos: nat, pinyin: seq<Unit>): Option<Got<Entry>>
  {
    match StrAt(data, pos)
    case None => None
    case Some(phrase) =>
      match U16At(data, phrase.next)
      case None => None
      case Some(skip) =>
        match U32At(data, skip.next)
        case None => None
        case Some(order) =>
          Some(Got(Entry(phrase.value, pinyin, order.value), order.next + skip.value - 4))
  }

  /** `n` phrase records in a row, all carrying the group's pronunciation. */
  function RecordsAt(data: seq<Byte>, pos: nat, n: nat, pinyin: seq<Unit>): Option<Got<seq<Entry>>>
    decreases n
  {
    if n == 0 then Some(Got([], pos))
    else
      match RecordAt(data, pos, pinyin)
      case None => None
      case Some(e) =>
        match RecordsAt(data, e.next, n - 1, pinyin)
        case None => None
        case Some(rest) => Some(Got([e.value] + rest.value, rest.next))
  }

  /** Reading indices never moves the position back. */
  lemma {:induction false} SyllablesAdvance(data: seq<Byte>, pos: nat, n: nat, palette: seq<Syllable>)
    ensures SyllablesAt(data, pos, n, palette).Some? ==> SyllablesAt(data, pos, n, palette).value.next >= pos
    decreases n
  {
    if n > 0 {
      var idx := U16At(data, pos);
      if idx.Some? && idx.value.value < |palette| {
        SyllablesAdvance(data, idx.value.next, n - 1, palette);
      }
    }
  }

  lemma PinyinAdvances(data: seq<Byte>, pos: nat, palette: seq<Syllable>)
    ensures PinyinAt(data, pos, palette).Some? ==> PinyinAt(data, pos, palette).value.next >= pos
  {
    var len := U16At(data, pos);
    if len.Some? {
      SyllablesAdvance(data, len.value.next, len.value.value / 2, palette);
    }
  }

  /** Each record takes at least its 16-bit string length, its 16-bit skip
      length and its 32-bit order, however short its skip length claims the
      rest to be. */
  lemma {:induction false} RecordsAdvance(data: seq<Byte>, pos: nat, n: nat, pinyin: seq<Unit>)
    ensures RecordsAt(data, pos, n, pinyin).Some? ==> RecordsAt(data, pos, n, pinyin).value.next >= pos + 4 * n
    decreases n
  {
    if n > 0 {
      var e := RecordAt(data, pos, pinyin);
      if e.Some? {
        RecordsAdvance(data, e.value.next, n - 1, pinyin);
      }
    }
  }

  /** A group's records, when they decode, are exactly `word_count` entries,
      each carrying the group's pronunciation. */
  lemma {:induction false} RecordsPinyin(data: seq<Byte>, pos: nat, n: nat, pinyin: seq<Unit>)
    ensures RecordsAt(data, pos, n, pinyin).Some? ==> |RecordsAt(data, pos, n, pinyin).value.value| == n
    ensures RecordsAt(data, pos, n, pinyin).Some? ==>
              forall e <- RecordsAt(data, pos, n, pinyin).value.value :: e.pinyin == pinyin
    decreases n
  {
    if n > 0 {
      var e := RecordAt(data, pos, pinyin);
      if e.Some? {
        RecordsPinyin(data, e.value.next, n - 1, pinyin);
      }
    }
  }

  /** Groups from `pos` on, in file order: a `word_count` (zero, also the soft
      zero past the end, ends the table), a pronunciation (empty ends the
      table), then `word_count` records. */
  function TableAt(data: seq<Byte>, pos: nat, palette: seq<Syllable>): Option<seq<Entry>>
    decreases if pos < |data| then |data| - pos else 0
  {
    match U16At(data, pos)
    case None => None
    case Some(count) =>
      if count.value == 0 then Some([])
      else
        match PinyinAt(data, count.next, palette)
        case None => None
        case Some(pinyin) =>
          if pinyin.value == [] then Some([])
          else
            match RecordsAt(data, pinyin.next, count.value, pinyin.value)
            case None => None
            case Some(group) =>
              PinyinAdvances(data, count.next, palette);
              RecordsAdvance(data, pinyin.next, count.value, pinyin.value);
              match TableAt(data, group.next, palette)
              case None => None
              case Some(rest) => Some(group.value + rest)
  }

  /** Where a successful table pass leaves the cursor: right after the zero
      `word_count` or after the empty pronunciation that ends it. */
  function TableEnd(data: seq<Byte>, pos: nat, palette: seq<Syllable>): nat
    decreases if pos < |data| then |data| - pos else 0
  {
    match U16At(data, pos)
    case None => pos
    case Some(count) =>
      if count.value == 0 then count.next
      else
        match PinyinAt(data, count.next, palette)
        case None => pos
        case Some(pinyin) =>
          if pinyin.value == [] then pinyin.next
          else
            match RecordsAt(data, pinyin.next, count.value, pinyin.value)
            case None => pos
            case Some(group) =>
              PinyinAdvances(data, count.next, palette);
              RecordsAdvance(data, pinyin.next, count.value, pinyin.value);
              TableEnd(data, group.next, palette)
  }

  /** A successful table pass never ends before where it started. */
  lemma {:induction false} TableEndAdvances(data: seq<Byte>, pos: nat, palette: seq<Syllable>)
    requires TableAt(data, pos, palette).Some?
    ensures TableEnd(data, pos, palette) >= pos
    decreases if pos < |data| then |data| - pos else 0
  {
    var count := U16At(data, pos).value;
    if count.value != 0 {
      PinyinAdvances(data, count.next, palette);
      var pinyin := PinyinAt(data, count.next, palette).value;
      if pinyin.value != [] {
        var group := RecordsAt(data, pinyin.next, count.value, pinyin.value).value;
        RecordsAdvance(data, pinyin.next, count.value, pinyin.value);
        TableEndAdvances(data, group.next, palette);
      }
    }
  }

  /** Every decoded entry has a non-empty pronunciation: a group whose
      pronunciation comes out empty ends the table before its records. */
  lemma {:induction false} TablePinyin(data: seq<Byte>, pos: nat, palette: seq<Syllable>)
    ensures TableAt(data, pos, palette).Some? ==> forall e <- TableAt(data, pos, palette).value :: e.pinyin != []
    decreases if pos < |data| then |data| - pos else 0
  {
    var count := U16At(data, pos);
    if count.Some? && count.value.value != 0 {
      var pinyin := PinyinAt(data, count.value.next, palette);
      if pinyin.Some? && pinyin.value.value != [] {
        var group := RecordsAt(data, pinyin.value.next, count.value.value, pinyin.value.value);
        if group.Some? {
          PinyinAdvances(data, count.value.next, palette);
          RecordsAdvance(data, pinyin.value.next, count.value.value, pinyin.value.value);
          RecordsPinyin(data, pinyin.value.next, count.value.value, pinyin.value.value);
          TablePinyin(data, group.value.next, palette);
        }
      }
    }
  }

  /** The whole decode: palette, table, then the stable sort by order. */
  function Decode(data: seq<Byte>): Option<seq<Entry>>
  {
    match PaletteAt(data, PINYIN_START)
    case None => None
    case Some(palette) =>
      match TableAt(data, CHAR_START, palette)
      case None => None
      case Some(t) => Some(SortByOrder(t))
  }

  /** A decoded table is sorted by order, and every entry carries a
      pronunciation. */
  lemma DecodeSorted(data: seq<Byte>)
    ensures Decode(data).Some? ==> Sorted(Decode(data).value) && forall e <- Decode(data).value :: e.pinyin != []
  {
    var palette := PaletteAt(data, PINYIN_START);
    if palette.Some? {
      var t := TableAt(data, CHAR_START, palette.value);
      TablePinyin(data, CHAR_START, palette.value);
      if t.Some? {
        var r := SortByOrder(t.value);
        SortByOrderSorts(t.value);
        assert forall e <- r :: e in multiset(t.value);
      }
    }
  }

  /** `get_table` on a decoder whose cached table is `cached`: the result and
      the new cache. Only a non-empty cache is reused. */
  function GetTableSpec(data: seq<Byte>, cached: seq<Entry>): (Option<seq<Pair>>, seq<Entry>)
  {
    if cached != [] then (Some(Project(cached)), cached)
    else
      match Decode(data)
      case None => (None, cached)
      case Some(t) => (Some(Project(t)), t)
  }

  /** Calling `get_table` again on the same data gives the same result and
      cache: a non-empty table is handed out as cached, and an empty or
      failed one is decoded afresh, to the same outcome. */
  lemma GetTableAgain(data: seq<Byte>, cached: seq<Entry>)
    ensures GetTableSpec(data, GetTableSpec(data, cached).1) == GetTableSpec(data, cached)
  {
  }

  class Scel {
    const buffer: BufferedIOWrapper
    var table: seq<Entry>

    constructor (source: seq<Byte>)
      ensures fresh(buffer) && buffer.data == source && buffer.pos == 0
      ensures table == []
    {
      buffer := new BufferedIOWrapper(source);
      table := [];
    }

    method ReadPinyinPalette() returns (r: Option<seq<Syllable>>)
      modifies buffer
      ensures r == PaletteAt(buffer.data, PINYIN_START)
      ensures r.Some? ==> buffer.pos == PaletteEnd(buffer.data, PINYIN_START) >= CHAR_START
    {
      var ok := buffer.Seek(PINYIN_START);
      r := ReadPaletteRecords();
    }

    /** The loop of `_read_pinyin_palette`: records from the current position
        for as long as it lies below `CHAR_START`. */
    method ReadPaletteRecords() returns (r: Option<seq<Syllable>>)
      modifies buffer
      ensures r == PaletteAt(buffer.data, old(buffer.pos))
      ensures r.Some? ==> buffer.pos == PaletteEnd(buffer.data, old(buffer.pos)) >= CHAR_START
    {
      ghost var data := buffer.data;
      ghost var start := buffer.pos;
      var palette: seq<Syllable> := [];
      var p := buffer.Tell();
      PrependNil(PaletteAt(data, p));
      while p < CHAR_START
        invariant p == buffer.pos && buffer.data == data
        invariant PaletteAt(data, start) == Prepend(palette, PaletteAt(data, p))
        invariant PaletteEnd(data, start) == PaletteEnd(data, p)
        decreases CHAR_START - p
      {
        buffer.SkipUint16();
        var s := buffer.ReadStr();
        if s.None? {
          PaletteFails(data, start, palette, p);
          return None;
        }
        PaletteGrows(data, start, palette, p, s.value, buffer.pos);
        palette := palette + [s.value];
        p := buffer.Tell();
      }
      PrependEmpty(palette);
      r := Some(palette);
      PaletteEndBound(data, start);
    }

    method ReadPinyin(palette: seq<Syllable>) returns (r: Option<seq<Unit>>)
      modifies buffer
      ensures Tracks(r, buffer.pos, PinyinAt(buffer.data, old(buffer.pos), palette))
    {
      ghost var data := buffer.data;
      ghost var first := buffer.pos;
      var len := buffer.ReadUint16();
      if len.None? {
        return None;
      }
      var n := len.value / 2;
      ghost var start := buffer.pos;
      PinyinUnfold(data, first, palette);
      var syllables: seq<Syllable> := [];
      ResolvedAfterNil(SyllablesAt(data, start, n, palette));
      for i := 0 to n
        invariant SyllablesAt(data, start, n, palette) == ResolvedAfter(syllables, SyllablesAt(data, buffer.pos, n - i, palette))
      {
        ghost var before := buffer.pos;
        var idx := buffer.ReadUint16();
        if idx.None? {
          SyllablesFail(data, before, n - i, palette);
          return None;
        }
        if idx.value >= |palette| {
          SyllablesOutOfRange(data, before, n - i, palette);
          return Some([]);
        }
        SyllablesGrow(data, start, n, palette, syllables, before, n - i, idx.value, buffer.pos);
        syllables := syllables + [palette[idx.value]];
      }
      SyllablesDone(data, start, n, palette, syllables, buffer.pos);
      r := Some(Join(syllables));
    }

    method ReadTable(palette: seq<Syllable>) returns (r: Option<seq<Entry>>)
      modifies buffer
      ensures r == match TableAt(buffer.data, CHAR_START, palette)
                   case None => None
                   case Some(t) => Some(SortByOrder(t))
      ensures r.Some? ==> buffer.pos == TableEnd(buffer.data, CHAR_START, palette)
    {
      var ok := buffer.Seek(CHAR_START);
      var table := ReadGroups(palette);
      if table.None? {
        return None;
      }
      r := Some(SortByOrder(table.value));
    }

    /** The outer loop of `_read_table`: groups from the current position
        until a zero count or an empty pronunciation. */
    method ReadGroups(palette: seq<Syllable>) returns (r: Option<seq<Entry>>)
      modifies buffer
      ensures r == TableAt(buffer.data, old(buffer.pos), palette)
      ensures r.Some? ==> buffer.pos == TableEnd(buffer.data, old(buffer.pos), palette)
    {
      ghost var data := buffer.data;
      ghost var start := buffer.pos;
      var table: seq<Entry> := [];
      PrependNil(TableAt(data, buffer.pos, palette));
      while true
        invariant buffer.data == data
        invariant TableAt(data, start, palette) == Prepend(table, TableAt(data, buffer.pos, palette))
        invariant TableEnd(data, start, palette) == TableEnd(data, buffer.pos, palette)
        decreases if buffer.pos < |data| then |data| - buffer.pos else 0
      {
        ghost var groupStart := buffer.pos;
        var wordCount := buffer.ReadUint16();
        if wordCount.None? {
          return None;
        }
        if wordCount.value == 0 {
          PrependEmpty(table);
          break;
        }
        TableGroup(data, groupStart, palette);
        ghost var pinyinStart := buffer.pos;
        var pinyin := ReadPinyin(palette);
        if pinyin.None? {
          return None;
        }
        if pinyin.value == [] {
          PrependEmpty(table);
          break;
        }
        ghost var recordsStart := buffer.pos;
        var group := ReadRecords(wordCount.value, pinyin.value);
        if group.None? {
          return None;
        }
        PinyinAdvances(data, pinyinStart, palette);
        RecordsAdvance(data, recordsStart, wordCount.value, pinyin.value);
        PrependAppend(table, group.value, TableAt(data, buffer.pos, palette));
        table := table + group.value;
      }
      r := Some(table);
    }

    /** The nested `for` loop of `_read_table`: `count` phrase records. */
    method ReadRecords(count: nat, pinyin: seq<Unit>) returns (r: Option<seq<Entry>>)
      modifies buffer
      ensures Tracks(r, buffer.pos, RecordsAt(buffer.data, old(buffer.pos), count, pinyin))
    {
      ghost var data := buffer.data;
      ghost var start := buffer.pos;
      var group: seq<Entry> := [];
      PrependGotNil(RecordsAt(data, start, count, pinyin));
      for j := 0 to count
        invariant RecordsAt(data, start, count, pinyin) == PrependGot(group, RecordsAt(data, buffer.pos, count - j, pinyin))
        invariant buffer.data == data
      {
        ghost var recordStart := buffer.pos;
        RecordsStep(data, recordStart, count - j, pinyin);
        var entry := ReadRecord(pinyin);
        if entry.None? {
          return None;
        }
        ghost var rest := RecordsAt(data, buffer.pos, count - j - 1, pinyin);
        PrependGotAppend(group, entry.value, rest);
        group := group + [entry.value];
      }
      PrependGotDone(group, RecordsAt(data, buffer.pos, 0, pinyin));
      r := Some(group);
    }

    /** One pass of the inner loop of `_read_table`: a phrase record. */
    method ReadRecord(pinyin: seq<Unit>) returns (r: Option<Entry>)
      modifies buffer
      ensures Tracks(r, buffer.pos, RecordAt(buffer.data, old(buffer.pos), pinyin))
    {
      ghost var data := buffer.data;
      ghost var start := buffer.pos;
      RecordUnfold(data, start, pinyin);
      var phrase := buffer.ReadStr();
      if phrase.None? {
        return None;
      }
      var skipLength := buffer.ReadUint16();
      if skipLength.None? {
        return None;
      }
      var order := buffer.ReadUint32();
      if order.None? {
        return None;
      }
      var ok := buffer.Skip(skipLength.value as int - 4);
      assert ok;
      r := Some(Entry(phrase.value, pinyin, order.value));
    }

    method GetTable() returns (r: Option<seq<Pair>>)
      modifies this, buffer
      ensures (r, table) == GetTableSpec(buffer.data, old(table))
      ensures old(table) != [] ==> buffer.pos == old(buffer.pos)
      ensures old(table) == [] && r.Some? ==>
                PaletteAt(buffer.data, PINYIN_START).Some? &&
                buffer.pos == TableEnd(buffer.data, CHAR_START, PaletteAt(buffer.data, PINYIN_START).value)
    {
      if table == [] {
        var palette := ReadPinyinPalette();
        if palette.None? {
          return None;
        }
        var decoded := ReadTable(palette.value);
        if decoded.None? {
          return None;
        }
        table := decoded.value;
      }
      r := Some(Project(table));
    }
  }

  lemma PrependNil<T>(r: Option<seq<T>>)
    ensures Prepend([], r) == r
  {
    if r.Some? {
      assert [] + r.value == r.value;
    }
  }

  lemma ResolvedAfterNil(r: Option<Got<Lookup>>)
    ensures ResolvedAfter([], r) == r
  {
    if r.Some? && r.value.value.Resolved? {
      assert [] + r.value.value.syllables == r.value.value.syllables;
    }
  }

  lemma PinyinUnfold(data: seq<Byte>, pos: nat, palette: seq<Syllable>)
    requires U16At(data, pos).Some?
    ensures var len := U16At(data, pos).value;
            PinyinAt(data, pos, palette) ==
              match SyllablesAt(data, len.next, len.value / 2, palette)
              case None => None
              case Some(g) => Some(Got(if g.value.OutOfRange? then [] else Join(g.value.syllables), g.next))
  {
  }

  lemma SyllablesFail(data: seq<Byte>, pos: nat, n: nat, palette: seq<Syllable>)
    requires n > 0 && U16At(data, pos).None?
    ensures SyllablesAt(data, pos, n, palette).None?
  {
  }

  lemma SyllablesOutOfRange(data: seq<Byte>, pos: nat, n: nat, palette: seq<Syllable>)
    requires n > 0 && U16At(data, pos).Some? && U16At(data, pos).value.value >= |palette|
    ensures SyllablesAt(data, pos, n, palette) == Some(Got(OutOfRange, U16At(data, pos).value.next))
  {
  }

  lemma SyllablesStep(data: seq<Byte>, pos: nat, n: nat, palette: seq<Syllable>)
    requires n > 0 && U16At(data, pos).Some? && U16At(data, pos).value.value < |palette|
    ensures var idx := U16At(data, pos).value;
            SyllablesAt(data, pos, n, palette) ==
              ResolvedAfter([palette[idx.value]], SyllablesAt(data, idx.next, n - 1, palette))
  {
  }

  lemma PaletteStep(data: seq<Byte>, pos: nat)
    requires pos < CHAR_START
    ensures PaletteAt(data, pos) ==
              match StrAt(data, pos + 2)
              case None => None
              case Some(s) => Prepend([s.value], PaletteAt(data, s.next))
  {
  }

  /** One more palette record read at `p`, after `palette`. */
  lemma PaletteGrows(data: seq<Byte>, start: nat, palette: seq<Syllable>, p: nat, s: Syllable, next: nat)
    requires p < CHAR_START
    requires PaletteAt(data, start) == Prepend(palette, PaletteAt(data, p))
    requires StrAt(data, p + 2) == Some(Got(s, next))
    ensures PaletteAt(data, start) == Prepend(palette + [s], PaletteAt(data, next))
    ensures PaletteEnd(data, p) == PaletteEnd(data, next)
  {
    PaletteStep(data, p);
    PrependAppend(palette, [s], PaletteAt(data, next));
  }

  lemma PaletteFails(data: seq<Byte>, start: nat, palette: seq<Syllable>, p: nat)
    requires p < CHAR_START
    requires PaletteAt(data, start) == Prepend(palette, PaletteAt(data, p))
    requires StrAt(data, p + 2).None?
    ensures PaletteAt(data, start).None?
  {
    PaletteStep(data, p);
  }

  lemma PrependEmpty<T>(xs: seq<T>)
    ensures Prepend(xs, Some([])) == Some(xs)
  {
    assert xs + [] == xs;
  }

  lemma PrependAppend<T>(xs: seq<T>, ys: seq<T>, r: Option<seq<T>>)
    ensures Prepend(xs, Prepend(ys, r)) == Prepend(xs + ys, r)
  {
    if r.Some? {
      assert xs + (ys + r.value) == (xs + ys) + r.value;
    }
  }

  /** A group whose `word_count` is not zero: its pronunciation, then (unless
      that is empty) its records, then the groups after it. */
  lemma TableGroup(data: seq<Byte>, pos: nat, palette: seq<Syllable>)
    requires U16At(data, pos).Some? && U16At(data, pos).value.value != 0
    ensures var count := U16At(data, pos).value;
            TableAt(data, pos, palette) ==
              match PinyinAt(data, count.next, palette)
              case None => None
              case Some(pinyin) =>
                if pinyin.value == [] then Some([])
                else
                  match RecordsAt(data, pinyin.next, count.value, pinyin.value)
                  case None => None
                  case Some(group) => Prepend(group.value, TableAt(data, group.next, palette))
    ensures var count := U16At(data, pos).value;
            TableEnd(data, pos, palette) ==
              match PinyinAt(data, count.next, palette)
              case None => pos
              case Some(pinyin) =>
                if pinyin.value == [] then pinyin.next
                else
                  match RecordsAt(data, pinyin.next, count.value, pinyin.value)
                  case None => pos
                  case Some(group) => TableEnd(data, group.next, palette)
  {
  }

  lemma RecordsStep(data: seq<Byte>, pos: nat, n: nat, pinyin: seq<Unit>)
    requires n > 0
    ensures RecordsAt(data, pos, n, pinyin) ==
              match RecordAt(data, pos, pinyin)
              case None => None
              case Some(e) => PrependGot([e.value], RecordsAt(data, e.next, n - 1, pinyin))
  {
  }

  lemma RecordUnfold(data: seq<Byte>, pos: nat, pinyin: seq<Unit>)
    ensures RecordAt(data, pos, pinyin) ==
              match StrAt(data, pos)
              case None => None
              case Some(phrase) =>
                match U16At(data, phrase.next)
                case None => None
                case Some(skip) =>
                  match U32At(data, skip.next)
                  case None => None
                  case Some(order) =>
                    Some(Got(Entry(phrase.value, pinyin, order.value), order.next + skip.value - 4))
  {
  }

  lemma PrependGotNil(r: Option<Got<seq<Entry>>>)
    ensures PrependGot([], r) == r
  {
    if r.Some? {
      assert [] + r.value.value == r.value.value;
    }
  }

  lemma PrependGotDone(done: seq<Entry>, r: Option<Got<seq<Entry>>>)
    requires r.Some? && r.value.value == []
    ensures PrependGot(done, r) == Some(Got(done, r.value.next))
  {
    assert done + [] == done;
  }

  /** `pre` in front of resolved syllables; failure and `OutOfRange` stay. */
  function ResolvedAfter(pre: seq<Syllable>, r: Option<Got<Lookup>>): Option<Got<Lookup>>
  {
    match r
    case None => None
    case Some(g) =>
      match g.value
      case OutOfRange => r
      case Resolved(ss) => Some(Got(Resolved(pre + ss), g.next))
  }

  /** One more index read at `before`, inside the palette. */
  lemma SyllablesGrow(data: seq<Byte>, start: nat, n: nat, palette: seq<Syllable>, syllables: seq<Syllable>,
                      before: nat, left: nat, idx: Unit, after: nat)
    requires left > 0 && idx < |palette|
    requires SyllablesAt(data, start, n, palette) == ResolvedAfter(syllables, SyllablesAt(data, before, left, palette))
    requires U16At(data, before) == Some(Got(idx, after))
    ensures SyllablesAt(data, start, n, palette) ==
              ResolvedAfter(syllables + [palette[idx]], SyllablesAt(data, after, left - 1, palette))
  {
    SyllablesStep(data, before, left, palette);
    ResolvedAfterAppend(syllables, palette[idx], SyllablesAt(data, after, left - 1, palette));
  }

  lemma SyllablesDone(data: seq<Byte>, start: nat, n: nat, palette: seq<Syllable>, syllables: seq<Syllable>, pos: nat)
    requires SyllablesAt(data, start, n, palette) == ResolvedAfter(syllables, SyllablesAt(data, pos, 0, palette))
    ensures SyllablesAt(data, start, n, palette) == Some(Got(Resolved(syllables), pos))
  {
    assert syllables + [] == syllables;
  }

  lemma ResolvedAfterAppend(pre: seq<Syllable>, s: Syllable, r: Option<Got<Lookup>>)
    ensures ResolvedAfter(pre, ResolvedAfter([s], r)) == ResolvedAfter(pre + [s], r)
  {
    if r.Some? && r.value.value.Resolved? {
      assert pre + ([s] + r.value.value.syllables) == (pre + [s]) + r.value.value.syllables;
    }
  }

  /** `pre` in front of decoded entries; failure stays failure. */
  function PrependGot(pre: seq<Entry>, r: Option<Got<seq<Entry>>>): Option<Got<seq<Entry>>>
  {
    match r
    case None => None
    case Some(g) => Some(Got(pre + g.value, g.next))
  }

  lemma PrependGotAppend(pre: seq<Entry>, e: Entry, r: Option<Got<seq<Entry>>>)
    ensures PrependGot(pre, PrependGot([e], r)) == PrependGot(pre + [e], r)
  {
    if r.Some? {
      assert pre + ([e] + r.value.value) == (pre + [e]) + r.value.value;
    }
  }
}
