/** The two rank notions of `make_report`: the competition rank printed in the
    score table, and the plain positions of the final tables, which list the
    totals after a stable descending sort. */
module Ranking {

  /** Non-increasing values. */
  predicate SortedDesc(xs: seq<real>) {
    forall i, j :: 0 <= i < j < |xs| ==> xs[i] >= xs[j]
  }

  /** x placed before the first value smaller than it. */
  function InsertDesc(x: real, xs: seq<real>): (r: seq<real>)
    ensures multiset(r) == multiset(xs) + multiset{x}
    decreases |xs|
  {
    if xs == [] || xs[0] < x then [x] + xs
    else
      assert xs == [xs[0]] + xs[1..];
      [xs[0]] + InsertDesc(x, xs[1..])
  }

  lemma {:induction false} InsertDescSorted(x: real, xs: seq<real>)
    requires SortedDesc(xs)
    ensures SortedDesc(InsertDesc(x, xs))
    decreases |xs|
  {
    if xs != [] && xs[0] >= x {
      assert SortedDesc(xs[1..]);
      InsertDescSorted(x, xs[1..]);
      var rest := InsertDesc(x, xs[1..]);
      forall j | 0 <= j < |rest| ensures xs[0] >= rest[j] {
        assert rest[j] in multiset(rest);
        assert rest[j] == x || rest[j] in multiset(xs[1..]);
        if rest[j] != x {
          var m :| 0 <= m < |xs[1..]| && xs[1..][m] == rest[j];
          assert xs[m + 1] == rest[j];
        }
      }
    }
  }

  /** `sorted(values, reverse=True)` */
  function SortDesc(xs: seq<real>): (r: seq<real>)
    ensures SortedDesc(r)
    ensures multiset(r) == multiset(xs)
    decreases |xs|
  {
    if xs == [] then []
    else
      var n := |xs| - 1;
      assert xs == xs[..n] + [xs[n]];
      InsertDescSorted(xs[n], SortDesc(xs[..n]));
      InsertDesc(xs[n], SortDesc(xs[..n]))
  }

  /** `list.index(v)`: the first position holding v. */
  function IndexOf(xs: seq<real>, v: real): (i: nat)
    requires v in xs
    ensures i < |xs| && xs[i] == v
    ensures forall j :: 0 <= j < i ==> xs[j] != v
    decreases |xs|
  {
    if xs[0] == v then 0 else 1 + IndexOf(xs[1..], v)
  }

  /** The score-table rank of total v among all totals vs:
      one more than v's first index in the totals sorted high to low. */
  function CompetitionRank(vs: seq<real>, v: real): (r: nat)
    requires v in vs
    ensures 1 <= r <= |vs|
    ensures SortDesc(vs)[r - 1] == v
    ensures forall j :: 0 <= j < r - 1 ==> SortDesc(vs)[j] > v
  {
    var s := SortDesc(vs);
    assert v in multiset(vs);
    assert v in s by { assert v in multiset(s); }
    var i := IndexOf(s, v);
    assert forall j :: 0 <= j < i ==> s[j] > v by {
      forall j | 0 <= j < i ensures s[j] > v {
        assert s[j] >= s[i] && s[j] != v;
      }
    }
    i + 1
  }

  /** How many of the values are above v. */
  function CountAbove(xs: seq<real>, v: real): nat
    decreases |xs|
  {
    if xs == [] then 0 else (if xs[0] > v then 1 else 0) + CountAbove(xs[1..], v)
  }

  /** How many of the values equal v. */
  function CountEqual(xs: seq<real>, v: real): nat
    decreases |xs|
  {
    if xs == [] then 0 else (if xs[0] == v then 1 else 0) + CountEqual(xs[1..], v)
  }

  lemma {:induction false} CountAboveAppend(a: seq<real>, b: seq<real>, v: real)
    ensures CountAbove(a + b, v) == CountAbove(a, v) + CountAbove(b, v)
    decreases |a|
  {
    if a == [] {
      assert a + b == b;
    } else {
      assert (a + b)[1..] == a[1..] + b;
      CountAboveAppend(a[1..], b, v);
    }
  }

  lemma {:induction false} CountAboveInsert(x: real, xs: seq<real>, v: real)
    ensures CountAbove(InsertDesc(x, xs), v) == CountAbove(xs, v) + (if x > v then 1 else 0)
    decreases |xs|
  {
    if xs != [] && xs[0] >= x {
      CountAboveInsert(x, xs[1..], v);
    }
  }

  /** Sorting keeps the number of values above v. */
  lemma {:induction false} CountAboveSort(xs: seq<real>, v: real)
    ensures CountAbove(SortDesc(xs), v) == CountAbove(xs, v)
    decreases |xs|
  {
    if xs != [] {
      var n := |xs| - 1;
      CountAboveSort(xs[..n], v);
      CountAboveInsert(xs[n], SortDesc(xs[..n]), v);
      CountAboveLast(xs, v);
    }
  }

  /** Counting splits off the last value. */
  lemma CountAboveLast(xs: seq<real>, v: real)
    requires xs != []
    ensures CountAbove(xs, v) == CountAbove(xs[..|xs| - 1], v) + (if xs[|xs| - 1] > v then 1 else 0)
  {
    var n := |xs| - 1;
    assert xs == xs[..n] + [xs[n]];
    CountAboveAppend(xs[..n], [xs[n]], v);
  }

  /** In a descending list, the values at and after v's first position are at most v. */
  lemma {:induction false} SortedFirstIndex(ys: seq<real>, v: real, i: nat)
    requires SortedDesc(ys) && i < |ys| && ys[i] == v
    requires forall j :: 0 <= j < i ==> ys[j] != v
    ensures CountAbove(ys, v) == i
    decreases |ys|
  {
    assert SortedDesc(ys[1..]);
    if i == 0 {
      forall j | 0 <= j < |ys| ensures ys[j] <= v {
        if j > 0 {
          assert ys[0] >= ys[j];
        }
      }
      NoneAbove(ys, v);
    } else {
      assert ys[0] >= ys[i];
      SortedFirstIndex(ys[1..], v, i - 1);
    }
  }

  lemma {:induction false} NoneAbove(ys: seq<real>, v: real)
    requires forall j :: 0 <= j < |ys| ==> ys[j] <= v
    ensures CountAbove(ys, v) == 0
    decreases |ys|
  {
    if ys != [] {
      NoneAbove(ys[1..], v);
    }
  }

  /** The score-table rank is one more than the number of strictly higher
      totals: equal totals share a rank. */
  lemma RankCountsHigher(vs: seq<real>, v: real)
    requires v in vs
    ensures CompetitionRank(vs, v) == CountAbove(vs, v) + 1
  {
    var ys := SortDesc(vs);
    assert v in multiset(vs);
    var i := IndexOf(ys, v);
    SortedFirstIndex(ys, v, i);
    CountAboveSort(vs, v);
  }

  lemma {:induction false} CountAboveGap(vs: seq<real>, v: real, w: real)
    requires w < v
    ensures CountAbove(vs, w) >= CountAbove(vs, v) + CountEqual(vs, v)
    decreases |vs|
  {
    if vs != [] {
      CountAboveGap(vs[1..], v, w);
    }
  }

  lemma {:induction false} CountsBounded(vs: seq<real>, v: real)
    ensures CountAbove(vs, v) + CountEqual(vs, v) <= |vs|
    ensures v in vs ==> CountEqual(vs, v) >= 1
    decreases |vs|
  {
    if vs != [] {
      CountsBounded(vs[1..], v);
      assert v in vs && vs[0] != v ==> v in vs[1..];
    }
  }

  /** After a tie the next rank skips: a lower total w is ranked at least as
      many places below v as there are totals equal to v, and every rank lies
      in 1..|vs|. */
  lemma RankGapAfterTie(vs: seq<real>, v: real, w: real)
    requires v in vs && w in vs && w < v
    ensures CompetitionRank(vs, w) >= CompetitionRank(vs, v) + CountEqual(vs, v)
    ensures CompetitionRank(vs, v) < CompetitionRank(vs, w) <= |vs|
  {
    RankCountsHigher(vs, v);
    RankCountsHigher(vs, w);
    CountAboveGap(vs, v, w);
    CountsBounded(vs, v);
    CountsBounded(vs, w);
  }

  /** (function name, total), as `dict.items()` lists them. */
  type Item = (string, real)

  /** Items in non-increasing order of total. */
  predicate SortedItems(xs: seq<Item>) {
    forall i, j :: 0 <= i < j < |xs| ==> xs[i].1 >= xs[j].1
  }

  /** x placed after every item whose total is at least its own. */
  function InsertItem(x: Item, xs: seq<Item>): (r: seq<Item>)
    ensures multiset(r) == multiset(xs) + multiset{x}
    decreases |xs|
  {
    if xs == [] || xs[0].1 < x.1 then [x] + xs
    else
      assert xs == [xs[0]] + xs[1..];
      [xs[0]] + InsertItem(x, xs[1..])
  }

  lemma {:induction false} InsertItemSorted(x: Item, xs: seq<Item>)
    requires SortedItems(xs)
    ensures SortedItems(InsertItem(x, xs))
    decreases |xs|
  {
    if xs != [] && xs[0].1 >= x.1 {
      assert SortedItems(xs[1..]);
      InsertItemSorted(x, xs[1..]);
      var rest := InsertItem(x, xs[1..]);
      forall j | 0 <= j < |rest| ensures xs[0].1 >= rest[j].1 {
        assert rest[j] in multiset(rest);
        assert rest[j] == x || rest[j] in multiset(xs[1..]);
        if rest[j] != x {
          var m :| 0 <= m < |xs[1..]| && xs[1..][m] == rest[j];
          assert xs[m + 1] == rest[j];
        }
      }
    }
  }

  /** `sorted(d.items(), key=lambda x: x[1], reverse=True)`: high totals
      first, items with equal totals in their original order. */
  function SortItems(items: seq<Item>): (r: seq<Item>)
    ensures |r| == |items|
    ensures SortedItems(r)
    ensures multiset(r) == multiset(items)
    decreases |items|
  {
    if items == [] then []
    else
      var n := |items| - 1;
      assert items == items[..n] + [items[n]];
      assert |InsertItem(items[n], SortItems(items[..n]))| == |multiset(InsertItem(items[n], SortItems(items[..n])))|;
      InsertItemSorted(items[n], SortItems(items[..n]));
      InsertItem(items[n], SortItems(items[..n]))
  }

  /** The items with total v, in order. */
  function WithTotal(xs: seq<Item>, v: real): seq<Item>
    decreases |xs|
  {
    if xs == [] then [] else (if xs[0].1 == v then [xs[0]] else []) + WithTotal(xs[1..], v)
  }

  /** Moves the parentheses of a three-part concatenation; kept apart so the step is proved without the context of its callers. */
  lemma Regroup(a: seq<Item>, b: seq<Item>, c: seq<Item>)
    ensures a + (b + c) == (a + b) + c
  {
  }

  lemma {:induction false} WithTotalAppend(a: seq<Item>, b: seq<Item>, v: real)
    ensures WithTotal(a + b, v) == WithTotal(a, v) + WithTotal(b, v)
    decreases |a|
  {
    if a == [] {
      assert a + b == b;
    } else {
      var ab := a + b;
      var head := if a[0].1 == v then [a[0]] else [];
      assert ab[0] == a[0];
      assert ab[1..] == a[1..] + b;
      WithTotalAppend(a[1..], b, v);
      var ta, tb := WithTotal(a[1..], v), WithTotal(b, v);
      Regroup(head, ta, tb);
      calc {
        WithTotal(ab, v);
        head + WithTotal(a[1..] + b, v);
        head + (WithTotal(a[1..], v) + WithTotal(b, v));
        (head + WithTotal(a[1..], v)) + WithTotal(b, v);
        WithTotal(a, v) + WithTotal(b, v);
      }
    }
  }

  lemma {:induction false} WithTotalNone(xs: seq<Item>, v: real)
    requires forall j :: 0 <= j < |xs| ==> xs[j].1 != v
    ensures WithTotal(xs, v) == []
    decreases |xs|
  {
    if xs != [] {
      WithTotalNone(xs[1..], v);
    }
  }

  /** Inserting x puts it after every earlier item with the same total. */
  lemma {:induction false} WithTotalInsert(x: Item, xs: seq<Item>, v: real)
    requires SortedItems(xs)
    ensures WithTotal(InsertItem(x, xs), v) == WithTotal(xs, v) + (if x.1 == v then [x] else [])
    decreases |xs|
  {
    var keep := if x.1 == v then [x] else [];
    if xs == [] || xs[0].1 < x.1 {
      var r := [x] + xs;
      assert InsertItem(x, xs) == r;
      assert r[0] == x && r[1..] == xs;
      assert WithTotal(r, v) == keep + WithTotal(xs, v);
      if x.1 == v {
        forall j | 0 <= j < |xs| ensures xs[j].1 != v {
          assert xs[0].1 >= xs[j].1;
        }
        WithTotalNone(xs, v);
      } else {
        assert keep + WithTotal(xs, v) == WithTotal(xs, v) + keep;
      }
    } else {
      var h := xs[0];
      var rest := InsertItem(x, xs[1..]);
      var r := [h] + rest;
      var first := if h.1 == v then [h] else [];
      assert InsertItem(x, xs) == r;
      assert r[0] == h && r[1..] == rest;
      assert SortedItems(xs[1..]);
      WithTotalInsert(x, xs[1..], v);
      var tail := WithTotal(xs[1..], v);
      Regroup(first, tail, keep);
      calc {
        WithTotal(r, v);
        first + WithTotal(rest, v);
        first + (tail + keep);
        (first + tail) + keep;
        WithTotal(xs, v) + keep;
      }
    }
  }

  /** The sort is stable: the items sharing any one total keep their order. */
  lemma {:induction false} SortItemsStable(items: seq<Item>, v: real)
    ensures WithTotal(SortItems(items), v) == WithTotal(items, v)
    decreases |items|
  {
    if items != [] {
      var n := |items| - 1;
      var last := items[n];
      var keep := if last.1 == v then [last] else [];
      var prev := SortItems(items[..n]);
      SortItemsLast(items);
      SortItemsStable(items[..n], v);
      WithTotalInsert(last, prev, v);
      WithTotalLast(items, v);
      calc {
        WithTotal(SortItems(items), v);
        WithTotal(InsertItem(last, prev), v);
        WithTotal(prev, v) + keep;
        WithTotal(items[..n], v) + keep;
        WithTotal(items, v);
      }
    }
  }

  lemma SortItemsLast(items: seq<Item>)
    requires items != []
    ensures SortItems(items) == InsertItem(items[|items| - 1], SortItems(items[..|items| - 1]))
  {
  }

  /** The last item is kept or dropped on its own. */
  lemma WithTotalLast(items: seq<Item>, v: real)
    requires items != []
    ensures WithTotal(items, v) ==
      WithTotal(items[..|items| - 1], v) + (if items[|items| - 1].1 == v then [items[|items| - 1]] else [])
  {
    var n := |items| - 1;
    assert items == items[..n] + [items[n]];
    WithTotalAppend(items[..n], [items[n]], v);
    assert [items[n]][1..] == [];
  }
}
