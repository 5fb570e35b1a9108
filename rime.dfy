/** The text `RimeWriter.write` produces for a decoded table: a fixed
    dictionary header naming the dictionary and its version, then one line
    per pair, `phrase<TAB>pinyin<TAB>1<LF>`. Text is a sequence of code
    units, as the decoder produces it; the file itself is not modelled. */
module Rime {
  import opened Bytes
  import opened Table

  const TAB: Unit := 0x09
  const LF: Unit := 0x0A
  const ONE: Unit := 0x31

  /** The code units of a fixed piece of ASCII text: each character's value. */
  function Text(s: string): (r: seq<Unit>)
    requires forall i | 0 <= i < |s| :: s[i] as int < 0x80
    ensures |r| == |s| && forall i | 0 <= i < |s| :: r[i] == s[i] as int
  {
    seq(|s|, i requires 0 <= i < |s| => s[i] as int)
  }

  /** The YAML front matter of a Rime dictionary: name, quoted version,
      sorting by weight, no preset vocabulary, and the `...` end marker. */
  function Header(name: seq<Unit>, version: seq<Unit>): seq<Unit>
  {
    Text("---\nname: ") + name + Text("\nversion: \"") + version +
    Text("\"\n") + Text("sort: by_weight\n") + Text("use_preset_vocabulary: ") + Text("false\n") + Text("...\n")
  }

  /** One dictionary line: the pair joined by a tab, then a tab and the
      weight 1. */
  function Line(p: Pair): seq<Unit>
  {
    p.phrase + [TAB] + p.pinyin + [TAB] + [ONE, LF]
  }

  function Lines(t: seq<Pair>): seq<Unit>
  {
    if t == [] then [] else Line(t[0]) + Lines(t[1..])
  }

  /** The whole file's text. */
  function Document(t: seq<Pair>, name: seq<Unit>, version: seq<Unit>): seq<Unit>
  {
    Header(name, version) + Lines(t)
  }

  // ---------------------------------------------------------------------------
  // Reading the lines back

  /** A pair whose fields hold neither a tab nor a line feed, so that its
      line can be told apart from its neighbours. */
  predicate Plain(p: Pair)
  {
    TAB !in p.phrase && LF !in p.phrase && TAB !in p.pinyin && LF !in p.pinyin
  }

  /** The units before the first `c`, or all of `s` when there is none. */
  function Before(s: seq<Unit>, c: Unit): (r: seq<Unit>)
    ensures c !in r
  {
    if s == [] || s[0] == c then [] else [s[0]] + Before(s[1..], c)
  }

  /** The units after the first `c`, or nothing when there is none. */
  function After(s: seq<Unit>, c: Unit): (r: seq<Unit>)
    ensures |r| <= |s| && (s != [] ==> |r| < |s|)
  {
    if s == [] then [] else if s[0] == c then s[1..] else After(s[1..], c)
  }

  /** Splits text into lines of two tab-separated fields, dropping the
      weight column. */
  function ParseLines(s: seq<Unit>): seq<Pair>
    decreases |s|
  {
    if s == [] then []
    else
      var rest := After(s, TAB);
      var weight := After(rest, TAB);
      [Pair(Before(s, TAB), Before(rest, TAB))] + ParseLines(After(weight, LF))
  }

  /** The number of times `c` occurs in `s`. */
  function Count(s: seq<Unit>, c: Unit): nat
  {
    if s == [] then 0 else (if s[0] == c then 1 else 0) + Count(s[1..], c)
  }

  lemma {:induction false} SplitAt(a: seq<Unit>, c: Unit, b: seq<Unit>)
    requires c !in a
    ensures Before(a + [c] + b, c) == a
    ensures After(a + [c] + b, c) == b
  {
    if a != [] {
      assert (a + [c] + b)[1..] == a[1..] + [c] + b;
      SplitAt(a[1..], c, b);
      assert [a[0]] + a[1..] == a;
    }
  }

  /** The line of a plain pair is its phrase, a tab, its pinyin, a tab, and
      the weight line `1`. */
  lemma LineFields(p: Pair, rest: seq<Unit>)
    requires Plain(p)
    ensures var s := Line(p) + rest;
            Before(s, TAB) == p.phrase && Before(After(s, TAB), TAB) == p.pinyin &&
            After(After(After(s, TAB), TAB), LF) == rest
  {
    var tail := [ONE, LF] + rest;
    assert Line(p) + rest == p.phrase + [TAB] + (p.pinyin + [TAB] + tail);
    SplitAt(p.phrase, TAB, p.pinyin + [TAB] + tail);
    SplitAt(p.pinyin, TAB, tail);
    assert tail == [ONE] + [LF] + rest;
    SplitAt([ONE], LF, rest);
  }

  /** Round trip: the lines written for plain pairs read back as the same
      pairs, in the same order. */
  lemma {:induction false} LinesRoundTrip(t: seq<Pair>)
    requires forall i | 0 <= i < |t| :: Plain(t[i])
    ensures ParseLines(Lines(t)) == t
  {
    if t != [] {
      LineFields(t[0], Lines(t[1..]));
      LinesRoundTrip(t[1..]);
      assert [t[0]] + t[1..] == t;
    }
  }

  lemma {:induction false} CountAppend(a: seq<Unit>, b: seq<Unit>, c: Unit)
    ensures Count(a + b, c) == Count(a, c) + Count(b, c)
  {
    if a != [] {
      assert (a + b)[1..] == a[1..] + b;
      CountAppend(a[1..], b, c);
    } else {
      assert a + b == b;
    }
  }

  /** Every pair is written on exactly one line: the body holds one line
      feed per pair when no field holds one. */
  lemma {:induction false} OneLinePerPair(t: seq<Pair>)
    requires forall i | 0 <= i < |t| :: LF !in t[i].phrase && LF !in t[i].pinyin
    ensures Count(Lines(t), LF) == |t|
  {
    if t != [] {
      var p := t[0];
      CountAppend(p.phrase + [TAB] + p.pinyin + [TAB] + [ONE, LF], Lines(t[1..]), LF);
      CountAppend(p.phrase + [TAB] + p.pinyin + [TAB], [ONE, LF], LF);
      CountAppend(p.phrase + [TAB] + p.pinyin, [TAB], LF);
      CountAppend(p.phrase + [TAB], p.pinyin, LF);
      CountAppend(p.phrase, [TAB], LF);
      Absent(p.phrase, LF);
      Absent(p.pinyin, LF);
      assert Count([TAB], LF) == 0 && Count([ONE, LF], LF) == 1 by {
        assert [ONE, LF][1..] == [LF] && [LF][1..] == [] && [TAB][1..] == [];
        assert Count([LF], LF) == 1;
      }
      OneLinePerPair(t[1..]);
    }
  }

  lemma {:induction false} Absent(s: seq<Unit>, c: Unit)
    requires c !in s
    ensures Count(s, c) == 0
  {
    if s != [] {
      Absent(s[1..], c);
    }
  }

  /** The document is the header followed by the lines, which read back as
      the table written. */
  lemma DocumentRoundTrip(t: seq<Pair>, name: seq<Unit>, version: seq<Unit>)
    requires forall i | 0 <= i < |t| :: Plain(t[i])
    ensures var doc := Document(t, name, version);
            |Header(name, version)| <= |doc| && ParseLines(doc[|Header(name, version)|..]) == t
  {
    var doc := Document(t, name, version);
    assert doc[|Header(name, version)|..] == Lines(t);
    LinesRoundTrip(t);
  }
}
