/** Dictionary entries and the ordering of the decoded table: a stable sort
    ascending by the 32-bit `order` weight, and the `(phrase, pinyin)`
    projection that `get_table` hands out. */
module Table {
  import opened Bytes

  /** One decoded phrase record: the phrase, its group's pronunciation, and
      its weight. */
  datatype Entry = Entry(phrase: seq<Unit>, pinyin: seq<Unit>, order: Word)

  /** What `get_table` returns per entry (`x[:2]`). */
  datatype Pair = Pair(phrase: seq<Unit>, pinyin: seq<Unit>)

  function Project(t: seq<Entry>): seq<Pair>
  {
    seq(|t|, i requires 0 <= i < |t| => Pair(t[i].phrase, t[i].pinyin))
  }

  ghost predicate Sorted(t: seq<Entry>)
  {
    forall i, j :: 0 <= i < j < |t| ==> t[i].order <= t[j].order
  }

  /** The entries of weight `k`, in the order they appear in `t`. */
  function WithOrder(t: seq<Entry>, k: int): seq<Entry>
  {
    if t == [] then []
    else (if t[0].order == k then [t[0]] else []) + WithOrder(t[1..], k)
  }

  /** `r` is `t` sorted ascending by weight, entries of equal weight keeping
      their relative order. */
  ghost predicate StablySortedFrom(r: seq<Entry>, t: seq<Entry>)
  {
    Sorted(r) && forall k :: WithOrder(r, k) == WithOrder(t, k)
  }

  lemma WithOrderCons(x: Entry, t: seq<Entry>, k: int)
    ensures WithOrder([x] + t, k) == (if x.order == k then [x] else []) + WithOrder(t, k)
  {
    assert ([x] + t)[1..] == t;
  }

  /** Places `x` before the first entry whose weight is not below its own. */
  function Insert(x: Entry, t: seq<Entry>): seq<Entry>
  {
    if t == [] || x.order <= t[0].order then [x] + t
    else [t[0]] + Insert(x, t[1..])
  }

  lemma {:induction false} InsertMultiset(x: Entry, t: seq<Entry>)
    ensures multiset(Insert(x, t)) == multiset(t) + multiset{x}
  {
    if !(t == [] || x.order <= t[0].order) {
      InsertMultiset(x, t[1..]);
      assert t == [t[0]] + t[1..];
    }
  }

  lemma {:induction false} InsertSorted(x: Entry, t: seq<Entry>)
    requires Sorted(t)
    ensures Sorted(Insert(x, t))
  {
    if !(t == [] || x.order <= t[0].order) {
      InsertSorted(x, t[1..]);
      InsertBound(x, t[1..], t[0].order);
    }
  }

  /** Inserting an entry no lighter than `lo` into entries no lighter than
      `lo` keeps them all no lighter than `lo`. */
  lemma {:induction false} InsertBound(x: Entry, t: seq<Entry>, lo: int)
    requires lo <= x.order && forall i :: 0 <= i < |t| ==> lo <= t[i].order
    ensures forall i :: 0 <= i < |Insert(x, t)| ==> lo <= Insert(x, t)[i].order
  {
    if !(t == [] || x.order <= t[0].order) {
      InsertBound(x, t[1..], lo);
    }
  }

  lemma {:induction false} InsertWithOrder(x: Entry, t: seq<Entry>, k: int)
    ensures WithOrder(Insert(x, t), k) == if x.order == k then [x] + WithOrder(t, k) else WithOrder(t, k)
  {
    if t == [] || x.order <= t[0].order {
      WithOrderCons(x, t, k);
    } else {
      var rest := Insert(x, t[1..]);
      InsertWithOrder(x, t[1..], k);
      WithOrderCons(t[0], rest, k);
      WithOrderCons(t[0], t[1..], k);
      assert t == [t[0]] + t[1..];
    }
  }

  /** The stable sort of `table.sort(key=lambda x: x[2])`, by insertion. */
  function SortByOrder(t: seq<Entry>): seq<Entry>
  {
    if t == [] then [] else Insert(t[0], SortByOrder(t[1..]))
  }

  /** `SortByOrder` sorts stably and keeps every entry. */
  lemma {:induction false} SortByOrderSorts(t: seq<Entry>)
    ensures StablySortedFrom(SortByOrder(t), t)
    ensures multiset(SortByOrder(t)) == multiset(t)
  {
    if t != [] {
      var rest := SortByOrder(t[1..]);
      SortByOrderSorts(t[1..]);
      InsertMultiset(t[0], rest);
      InsertSorted(t[0], rest);
      assert t == [t[0]] + t[1..];
      forall k
        ensures WithOrder(Insert(t[0], rest), k) == WithOrder(t, k)
      {
        InsertWithOrder(t[0], rest, k);
        WithOrderCons(t[0], t[1..], k);
      }
    }
  }

  lemma {:induction false} WithOrderMember(t: seq<Entry>, k: int, x: Entry)
    ensures x in WithOrder(t, k) <==> x in t && x.order == k
  {
    if t != [] {
      WithOrderMember(t[1..], k, x);
      assert t == [t[0]] + t[1..];
    }
  }

  /** Sorted by weight and equal per weight determine a sequence: the stable
      sort has exactly one possible result. */
  lemma {:induction false} StableSortUnique(a: seq<Entry>, b: seq<Entry>)
    requires Sorted(a) && Sorted(b)
    requires forall k :: WithOrder(a, k) == WithOrder(b, k)
    ensures a == b
  {
    if a == [] || b == [] {
      if a != [] {
        WithOrderMember(a, a[0].order, a[0]);
        WithOrderMember(b, a[0].order, a[0]);
      }
      if b != [] {
        WithOrderMember(b, b[0].order, b[0]);
        WithOrderMember(a, b[0].order, b[0]);
      }
    } else {
      SameHead(a, b);
      SameTails(a, b);
      StableSortUnique(a[1..], b[1..]);
      HeadTail(a);
      HeadTail(b);
    }
  }

  lemma HeadTail<T>(xs: seq<T>)
    requires xs != []
    ensures [xs[0]] + xs[1..] == xs
  {
  }

  /** The first entry of a sorted sequence has the least weight. */
  lemma SortedFirst(t: seq<Entry>, x: Entry)
    requires Sorted(t) && x in t
    ensures t[0].order <= x.order
  {
  }

  lemma SameHead(a: seq<Entry>, b: seq<Entry>)
    requires Sorted(a) && Sorted(b) && a != [] && b != []
    requires forall k :: WithOrder(a, k) == WithOrder(b, k)
    ensures a[0] == b[0]
  {
    var m, n := a[0].order, b[0].order;
    WithOrderMember(b, n, b[0]);
    WithOrderMember(a, n, b[0]);
    SortedFirst(a, b[0]);
    WithOrderMember(a, m, a[0]);
    WithOrderMember(b, m, a[0]);
    SortedFirst(b, a[0]);
    HeadTail(a);
    HeadTail(b);
    WithOrderCons(a[0], a[1..], m);
    WithOrderCons(b[0], b[1..], m);
    assert WithOrder(a, m)[0] == a[0];
  }

  lemma SameTails(a: seq<Entry>, b: seq<Entry>)
    requires a != [] && b != [] && a[0] == b[0]
    requires forall k :: WithOrder(a, k) == WithOrder(b, k)
    ensures forall k :: WithOrder(a[1..], k) == WithOrder(b[1..], k)
  {
    HeadTail(a);
    HeadTail(b);
    forall k
      ensures WithOrder(a[1..], k) == WithOrder(b[1..], k)
    {
      WithOrderCons(a[0], a[1..], k);
      WithOrderCons(b[0], b[1..], k);
      var head := if a[0].order == k then [a[0]] else [];
      assert WithOrder(a[1..], k) == WithOrder(a, k)[|head|..];
      assert WithOrder(b[1..], k) == WithOrder(b, k)[|head|..];
    }
  }

  /** Any stable sort of `t` by weight is `SortByOrder(t)`. */
  lemma SortByOrderIsTheStableSort(t: seq<Entry>, r: seq<Entry>)
    requires StablySortedFrom(r, t)
    ensures r == SortByOrder(t)
  {
    SortByOrderSorts(t);
    StableSortUnique(r, SortByOrder(t));
  }
}
