# scel2rime: the SCEL dictionary decoder in Dafny

This project models the decoder at the heart of `scel2rime`. The decoder reads
a Sogou `.scel` cell dictionary and turns it into `(phrase, pinyin)` pairs for
a Rime dictionary. The model has four layers:

- **The cursor** (`BufferedIOWrapper`, module `IOWrapper`). It is a class over a
  byte sequence with a position that reads, seeks and skips move. A read of `n`
  bytes returns `min(n, remaining)` bytes, and nothing at or past the end.
  - `read_uint16` returns a soft zero on an empty read, and fails when exactly
    one byte is left.
  - `read_uint32` fails on any short read.
  - `read_str` reads a 16-bit byte length `L`, then `L / 2` strict 16-bit units.
    Each unit becomes one character.
- **The decoder** (`Scel`, module `ScelDecoder`). It makes two position-driven
  passes, written as imperative methods over the cursor:
  - the syllable palette from `0x1544` up to `0x2628`;
  - the phrase-table groups from `0x2628`;
  - then a stable sort by the 32-bit order, and the cache in `get_table`.

  Each method is proved equal to a specification function on the bytes:
  `PaletteAt`, `PinyinAt`, `RecordAt`, `RecordsAt`, `TableAt`, `Decode` and
  `GetTableSpec`. The properties are proved about these functions.
- **The layout** (module `ScelLayout`). It holds encoders for well-formed
  sections and the round trips from them. Whatever is laid out this way
  decodes back to exactly:
  - its palette;
  - its pronunciations, with the three ways a pronunciation comes out empty;
  - its records.

  The table stops exactly where a zero count or an empty pronunciation says it
  does.
- **The sort** (module `Table`). The stable sort is an insertion-sort function.
  It is proved sorted, a permutation, stable (it keeps the order of entries of
  equal weight), and the only such result.
- **The writer's text** (module `Rime`). It gives the header and the
  `phrase<TAB>pinyin<TAB>1<LF>` lines, with a parse-back round trip.

Text is a sequence of 16-bit code units (`Unit`), bytes are `Byte`, and
32-bit weights are `Word`. Every Python exception that the decoder can raise
becomes one failure outcome (`None`).

Three details of the code decide edge cases, and the model keeps them:

- **`read_uint16` with one byte left.** Only an empty read gives 0. With one
  byte left `struct.unpack` raises, and `U16At` returns `None`.
- **`read_str` near the end.** It reads `L // 2` units, so when `L` is odd the
  last byte it counts is never read. A length prefix read at or past the end is the
  soft zero, which gives an empty string rather than a failure.
- **The cache.** `get_table` caches only a non-empty table, so an empty result
  is decoded again on the next call. `GetTableSpec` and `Scel.GetTable` do the
  same.

## Model

| member | source | states |
|---|---|---|
| Bytes.U16Bytes | scel2rime/scel2rime.py:14 | the two bytes written for a 16-bit value decode back to it as `'<H'` |
| Bytes.U32Bytes | scel2rime/scel2rime.py:19 | the four bytes written for a 32-bit value decode back to it as `'<I'` |
| Bytes.U16BytesOfLe16 | scel2rime/scel2rime.py:14 | `'<H'` decoding is one-to-one: re-encoding a decoded pair gives the same two bytes |
| Bytes.UnitsBytesAt | scel2rime/scel2rime.py:22-23 | unit `k` of a string sits at bytes `2k` and `2k+1`, little-endian |
| Bytes.UnitsBytesLength | scel2rime/scel2rime.py:22-24 | a string of `n` units takes `2n` bytes |
| IOWrapper.U16At | scel2rime/scel2rime.py:11-16 | definition of `read_uint16` on the bytes: the little-endian value two bytes on, a soft 0 at or past the end, failure with one byte left |
| IOWrapper.U32At | scel2rime/scel2rime.py:18-19 | definition of `read_uint32` on the bytes: the little-endian value four bytes on, or failure |
| IOWrapper.UnitsAt | scel2rime/scel2rime.py:22-23 | definition of the body of `read_str`: `n` strict 16-bit reads, all or failure |
| IOWrapper.StrAt | scel2rime/scel2rime.py:21-24 | definition of `read_str`: a soft length `L`, then `L / 2` units |
| IOWrapper.Avail | scel2rime/scel2rime.py:12 | definition of `read(n)` on the bytes: the `min(n, remaining)` bytes from the position, and none at or past the end |
| IOWrapper.BufferedIOWrapper.constructor | scel2rime/scel2rime.py:8-9 | a cursor at position 0 over the given bytes |
| IOWrapper.BufferedIOWrapper.Read | scel2rime/scel2rime.py:12 | returns `Avail` at the old position and advances by exactly the number of bytes returned |
| IOWrapper.BufferedIOWrapper.ReadUint16 | scel2rime/scel2rime.py:11-16 | agrees with `U16At`: the little-endian value when two bytes remain; 0 without moving on an empty read; failure, at the end of the data, when one byte remains |
| IOWrapper.BufferedIOWrapper.ReadUint32 | scel2rime/scel2rime.py:18-19 | agrees with `U32At`: the value and 4 bytes further on, or failure whenever fewer than four bytes remain |
| IOWrapper.BufferedIOWrapper.ReadStr | scel2rime/scel2rime.py:21-24 | agrees with `StrAt`: a soft 16-bit length `L`, then `L / 2` units; a short unit read fails |
| IOWrapper.BufferedIOWrapper.Seek | scel2rime/scel2rime.py:26-27 | moves to any non-negative offset, even past the end; a negative offset fails and leaves the position alone |
| IOWrapper.BufferedIOWrapper.Tell | scel2rime/scel2rime.py:29-30 | returns the position and changes nothing |
| IOWrapper.BufferedIOWrapper.Skip | scel2rime/scel2rime.py:32-33 | moves by a relative offset exactly when the target is not negative; otherwise fails with the position unchanged |
| IOWrapper.BufferedIOWrapper.SkipUint16 | scel2rime/scel2rime.py:35-36 | always advances exactly two bytes |
| IOWrapper.U16Read | scel2rime/scel2rime.py:11-16 | round trip: an encoded 16-bit value reads back, and the cursor moves two bytes |
| IOWrapper.U32Read | scel2rime/scel2rime.py:18-19 | round trip: an encoded 32-bit value reads back, and the cursor moves four bytes |
| IOWrapper.UnitsRead | scel2rime/scel2rime.py:22-23 | round trip: encoded code units read back by strict 16-bit reads |
| IOWrapper.UnitsBytesDecode | scel2rime/scel2rime.py:23 | every unit of an encoded string decodes from its own byte pair |
| IOWrapper.StrRead | scel2rime/scel2rime.py:21-24 | round trip of `read_str`: a length-prefixed string reads back whole, ending `2 + 2n` bytes on |
| Table.Project | scel2rime/scel2rime.py:90 | definition of the `x[:2]` projection that `get_table` returns |
| Table.SortByOrder | scel2rime/scel2rime.py:82 | definition of the sort by order, as an insertion sort; its properties are the lemmas below |
| Table.SortByOrderSorts | scel2rime/scel2rime.py:82 | the sorted table is ascending by order, keeps the encounter order within each order, and is a permutation of the appended entries |
| Table.InsertMultiset | scel2rime/scel2rime.py:82 | inserting adds exactly one entry and loses none |
| Table.InsertSorted | scel2rime/scel2rime.py:82 | inserting into an ascending table keeps it ascending |
| Table.InsertWithOrder | scel2rime/scel2rime.py:82 | inserting puts the entry ahead of every entry of its own order and leaves the other orders alone |
| Table.StableSortUnique | scel2rime/scel2rime.py:82 | two sequences that are both sorted and agree order by order are equal, so a stable sort has exactly one result |
| Table.SortByOrderIsTheStableSort | scel2rime/scel2rime.py:82 | any stable ascending sort of the table by order equals `SortByOrder` |
| Table.WithOrderMember | scel2rime/scel2rime.py:82 | an entry is among a table's entries of order `k` exactly when it is in the table with order `k` |
| ScelDecoder.PaletteAt | scel2rime/scel2rime.py:47-55 | definition of the palette pass: a skipped field and a string per record while the position is below `0x2628` |
| ScelDecoder.SyllablesAt | scel2rime/scel2rime.py:59-62 | definition of the index reads of `_read_pinyin`: each a soft 16-bit read, stopping at the first index outside the palette |
| ScelDecoder.PinyinAt | scel2rime/scel2rime.py:57-63 | definition of `_read_pinyin`: the space-joined syllables, or empty after an index outside the palette |
| ScelDecoder.RecordAt | scel2rime/scel2rime.py:74-80 | definition of one phrase record: phrase, skip length, order, then `skip_length - 4` bytes skipped |
| ScelDecoder.RecordsAt | scel2rime/scel2rime.py:73-80 | definition of the `word_count` loop of `_read_table` |
| ScelDecoder.TableAt | scel2rime/scel2rime.py:65-80 | definition of the group loop of `_read_table`: stops at a zero count or an empty pronunciation |
| ScelDecoder.Decode | scel2rime/scel2rime.py:86-88 | definition of the whole decode: palette pass, table pass, sort by order |
| ScelDecoder.GetTableSpec | scel2rime/scel2rime.py:85-90 | definition of `get_table` on a cache: reuse a non-empty cache, otherwise decode, cache and project |
| ScelDecoder.PaletteEnd | scel2rime/scel2rime.py:50-53 | definition of where the palette loop leaves the cursor: the end of the first record that ends at or past `0x2628` |
| ScelDecoder.PaletteEndBound | scel2rime/scel2rime.py:50-53 | a successful palette pass ends at or past `0x2628`, and never before where it started |
| ScelDecoder.TableEnd | scel2rime/scel2rime.py:69-80 | definition of where the group loop leaves the cursor: right after the zero `word_count` or the empty pronunciation that ends it |
| ScelDecoder.TableEndAdvances | scel2rime/scel2rime.py:69-80 | a successful table pass never ends before where it started |
| ScelDecoder.PaletteLength | scel2rime/scel2rime.py:47-55 | a palette pass started below `0x2628` yields at least one syllable, and at most one per two bytes of the distance left, rounded up |
| ScelDecoder.Join | scel2rime/scel2rime.py:59-61 | the space-joined pronunciation is empty exactly when there are no syllables, or a single empty one |
| ScelDecoder.SyllablesAdvance | scel2rime/scel2rime.py:59-61 | reading palette indices never moves the position back |
| ScelDecoder.PinyinAdvances | scel2rime/scel2rime.py:57-63 | reading a pronunciation never moves the position back |
| ScelDecoder.RecordsAdvance | scel2rime/scel2rime.py:73-80 | `n` records take at least `4n` bytes whatever their skip lengths say, so the table loop always progresses |
| ScelDecoder.RecordsPinyin | scel2rime/scel2rime.py:73-80 | a group's records, when they decode, are exactly `word_count` entries, each carrying that group's pronunciation |
| ScelDecoder.TablePinyin | scel2rime/scel2rime.py:69-80 | every entry of a decoded table has a non-empty pronunciation |
| ScelDecoder.DecodeSorted | scel2rime/scel2rime.py:65-83 | a decoded table is sorted ascending by order, and every entry has a non-empty pronunciation |
| ScelDecoder.GetTableAgain | scel2rime/scel2rime.py:85-90 | a second `get_table` on the same data returns the same pairs and leaves the same cache |
| ScelDecoder.Scel.constructor | scel2rime/scel2rime.py:43-45 | a fresh cursor at position 0 over the source, and an empty cached table |
| ScelDecoder.Scel.ReadPinyinPalette | scel2rime/scel2rime.py:47-55 | seeks to `0x1544` and returns `PaletteAt` there; on success the cursor is at `PaletteEnd`, at or past `0x2628` |
| ScelDecoder.Scel.ReadPaletteRecords | scel2rime/scel2rime.py:50-53 | the palette loop: one skipped field and one string per record while the position is below `0x2628`, in file order, equal to `PaletteAt` from the starting position; on success the cursor is at `PaletteEnd`, at or past `0x2628` |
| ScelDecoder.Scel.ReadPinyin | scel2rime/scel2rime.py:57-63 | agrees with `PinyinAt`: the space-joined syllables, or empty as soon as one index is outside the palette, with no further index read |
| ScelDecoder.Scel.ReadTable | scel2rime/scel2rime.py:65-83 | seeks to `0x2628` and returns `TableAt` there, stably sorted by order, or failure when the table read fails; on success the cursor is at `TableEnd` from `0x2628` |
| ScelDecoder.Scel.ReadGroups | scel2rime/scel2rime.py:69-80 | the group loop, equal to `TableAt`: it stops at a zero count or an empty pronunciation, and otherwise appends the group's records and continues; on success the cursor is at `TableEnd` |
| ScelDecoder.Scel.ReadRecords | scel2rime/scel2rime.py:73-80 | the `word_count` loop agrees with `RecordsAt`: exactly that many entries, in file order, or failure |
| ScelDecoder.Scel.ReadRecord | scel2rime/scel2rime.py:74-80 | agrees with `RecordAt`: a phrase, a skip length, an order, then `skip_length - 4` bytes skipped; the skip never fails |
| ScelDecoder.Scel.GetTable | scel2rime/scel2rime.py:85-90 | agrees with `GetTableSpec`: with a non-empty cache it returns the cached projection without moving the cursor; otherwise it decodes, caches and projects, leaving the cursor at `TableEnd` from `0x2628` |
| ScelLayout.PaletteRead | scel2rime/scel2rime.py:47-55 | round trip: palette records laid out up to `0x2628` decode to their syllables in file order |
| ScelLayout.PaletteSection | scel2rime/scel2rime.py:47-55 | a laid-out palette section ending at `0x2628` decodes to its syllables |
| ScelLayout.PaletteRecordRead | scel2rime/scel2rime.py:52-53 | one laid-out palette record reads back, and the next record starts right after it |
| ScelLayout.PaletteBound | scel2rime/scel2rime.py:40-55 | a decoded palette holds between 1 and 2162 syllables |
| ScelLayout.InRange | scel2rime/scel2rime.py:59-62 | counts the leading indices inside the palette; the next index, if any, is outside it |
| ScelLayout.Lookups | scel2rime/scel2rime.py:59 | index `k` names palette entry `idxs[k]` |
| ScelLayout.PinyinOfEmpty | scel2rime/scel2rime.py:59-63 | a pronunciation is empty exactly when it has no indices, has an index outside the palette, or is one empty syllable |
| ScelLayout.SyllablesRead | scel2rime/scel2rime.py:59-61 | laid-out indices resolve to their syllables, or to out-of-range right after the first bad index |
| ScelLayout.PinyinRead | scel2rime/scel2rime.py:57-63 | round trip of `_read_pinyin`: laid-out indices decode to `PinyinOf`, and the read stops after the first index outside the palette |
| ScelLayout.GroupHeadRead | scel2rime/scel2rime.py:69-70 | a laid-out group head reads back as its count and its pronunciation |
| ScelLayout.RecordRead | scel2rime/scel2rime.py:74-80 | round trip: a laid-out record reads back as its entry and takes `8 + 2·|phrase| + |trailer|` bytes |
| ScelLayout.RecordFieldsRead | scel2rime/scel2rime.py:74-77 | the phrase, skip length and order of a laid-out record each read where the previous field ended |
| ScelLayout.RecordsRead | scel2rime/scel2rime.py:73-80 | round trip: laid-out records read back as their entries, in file order, each carrying the group's pronunciation |
| ScelLayout.GroupRead | scel2rime/scel2rime.py:69-80 | a laid-out group whose pronunciation resolves contributes its records ahead of the groups after it |
| ScelLayout.TableRead | scel2rime/scel2rime.py:69-80 | round trip of the group loop: laid-out groups contribute their entries in file order ahead of the rest of the table |
| ScelLayout.TableStopsAtZeroCount | scel2rime/scel2rime.py:69 | a zero `word_count`, or the end of the data, ends the table with nothing more |
| ScelLayout.TableStopsAtEmptyPinyin | scel2rime/scel2rime.py:70-72 | a group whose pronunciation is empty ends the table: none of its records and no later group appear |
| ScelLayout.RecordNeedsItsBytes | scel2rime/scel2rime.py:74-77 | a record decodes only if its whole phrase and six more bytes are present |
| ScelLayout.TableFailsOnCutRecord | scel2rime/scel2rime.py:73-80 | a group whose first record is cut short fails the whole table |
| ScelLayout.TableSection | scel2rime/scel2rime.py:68-80 | laid-out groups followed by a zero count, or by the end of the data, are exactly the table |
| ScelLayout.DecodeRead | scel2rime/scel2rime.py:65-88 | a file with a decoded palette and laid-out groups decodes to those groups' entries, stably sorted by order |
| Rime.Header | scel2rime/scel2rime.py:101-107 | definition of the header: name, quoted version, `sort: by_weight`, `use_preset_vocabulary: false`, `...` |
| Rime.Line | scel2rime/scel2rime.py:109 | definition of one line: phrase, tab, pinyin, tab, `1`, line feed |
| Rime.Lines | scel2rime/scel2rime.py:108-109 | definition of the body: one line per pair, in table order |
| Rime.Document | scel2rime/scel2rime.py:101-109 | definition of the whole file text: the header, then the lines |
| Rime.Text | scel2rime/scel2rime.py:101-107 | definition of the code units of the header's fixed ASCII pieces: one unit per character, its value |
| Rime.LinesRoundTrip | scel2rime/scel2rime.py:108-109 | the `phrase<TAB>pinyin<TAB>1` lines of pairs without tabs or line feeds read back as the same pairs, in order |
| Rime.OneLinePerPair | scel2rime/scel2rime.py:108-109 | the body holds exactly one line feed per pair when no field holds one |
| Rime.DocumentRoundTrip | scel2rime/scel2rime.py:101-109 | the document is the header and then lines that read back as the table written |

## Left out

- File opening and closing, and the `scel2rime` function that wires the decoder
  to the writer (scel2rime/scel2rime.py:112-118), are file I/O. The source is a
  byte sequence given to the constructor, and the writer's output is a
  code-unit sequence.
- `io.BufferedIOBase` and `struct` are written out directly: a byte sequence, a
  position, and little-endian arithmetic.
- Python's exception types are not kept apart. A short read (`struct.error`)
  is a `None` result. A negative seek (`OSError`) makes `Seek` or `Skip`
  return `false`, and the decoder's own seeks and skips are proved never to
  fail. Where the decoder stands after a failed read is not specified, since
  a failure ends the decode.
- `chr` of a code unit is the unit itself. No Unicode decoding and no
  surrogate pairing is modelled, and text is compared unit by unit.
- Timsort is replaced by an insertion-sort function. It is proved to be the
  one stable ascending sort by order (`SortByOrderIsTheStableSort`), and that
  is all the source relies on.
- `Scel.ReadPaletteRecords`, `Scel.ReadGroups`, `Scel.ReadRecords` and
  `Scel.ReadRecord` are the loops and the loop body of `_read_pinyin_palette`
  and `_read_table`, moved into methods of their own. The seeks around them
  stay in `ReadPinyinPalette` and `ReadTable`.
- ScelLayout.DecodeRead: takes "the palette section decodes to `syls`" as a
  premise instead of a palette layout; `PaletteSection` supplies that premise
  for a laid-out palette section.
- Rime.LinesRoundTrip: covers only pairs without tabs or line feeds in their
  fields; any other pair makes the written file ambiguous.
- The header text of the writer is not read back. Only its definition
  (`Rime.Header`) and its place ahead of the lines are modelled.
