/**
 * The itinerary's order: `items.sort((a, b) => a.time.localeCompare(b.time))`. The comparator
 * is modelled as code-unit order on `time` (JsText.LessEq), and `Array.prototype.sort` as a
 * stable sort, which ECMA-262 requires since its 2019 edition. SortByTime is insertion sort.
 * It is proved sorted, a permutation and stable, and to be the only sequence with those three
 * properties, so it is what any stable sort returns.
 */
module TimeSort {
  import opened TripTypes
  import opened JsText
  import opened Seqs

  /** Every item is due no later than every item after it. */
  ghost predicate SortedByTime(s: seq<ItineraryItem>) {
    forall i, j :: 0 <= i < j < |s| ==> LessEq(s[i].time, s[j].time)
  }

  function WithTime(k: string): ItineraryItem -> bool {
    (item: ItineraryItem) => item.time == k
  }

  /** The items whose time is exactly `k`, in their order in `s`. */
  function KeyFilter(s: seq<ItineraryItem>, k: string): seq<ItineraryItem> {
    Filter(s, WithTime(k))
  }

  /** `r` is `s` sorted by time, with items of equal time in their order in `s`. */
  ghost predicate IsStableSortOf(r: seq<ItineraryItem>, s: seq<ItineraryItem>) {
    SortedByTime(r) && forall k :: KeyFilter(r, k) == KeyFilter(s, k)
  }

  /** Insert `x` after the last item of `p` whose time is not later than `x`'s. */
  function InsertByTime(p: seq<ItineraryItem>, x: ItineraryItem): (r: seq<ItineraryItem>)
    ensures multiset(r) == multiset(p) + multiset{x}
    ensures |r| == |p| + 1
  {
    if p == [] || LessEq(p[|p| - 1].time, x.time) then p + [x]
    else
      assert p == p[..|p| - 1] + [p[|p| - 1]];
      InsertByTime(p[..|p| - 1], x) + [p[|p| - 1]]
  }

  /** Stable sort by time. */
  function SortByTime(s: seq<ItineraryItem>): (r: seq<ItineraryItem>)
    ensures multiset(r) == multiset(s)
    ensures |r| == |s|
  {
    if s == [] then []
    else
      assert s == s[..|s| - 1] + [s[|s| - 1]];
      InsertByTime(SortByTime(s[..|s| - 1]), s[|s| - 1])
  }

  lemma {:induction false} InsertKeepsSorted(p: seq<ItineraryItem>, x: ItineraryItem)
    requires SortedByTime(p)
    ensures SortedByTime(InsertByTime(p, x))
  {
    if p == [] {
    } else if LessEq(p[|p| - 1].time, x.time) {
      forall i | 0 <= i < |p| ensures LessEq(p[i].time, x.time) {
        if i < |p| - 1 { LessEqTransitive(p[i].time, p[|p| - 1].time, x.time); }
      }
    } else {
      var last := p[|p| - 1];
      var q := InsertByTime(p[..|p| - 1], x);
      InsertKeepsSorted(p[..|p| - 1], x);
      LessEqTotal(last.time, x.time);
      forall i | 0 <= i < |q| ensures LessEq(q[i].time, last.time) {
        assert q[i] in multiset(p[..|p| - 1]) + multiset{x};
        if q[i] != x {
          assert q[i] in p[..|p| - 1];
        }
      }
    }
  }

  /** SortByTime's result is sorted. */
  lemma {:induction false} SortByTimeSorted(s: seq<ItineraryItem>)
    ensures SortedByTime(SortByTime(s))
  {
    if s != [] {
      SortByTimeSorted(s[..|s| - 1]);
      InsertKeepsSorted(SortByTime(s[..|s| - 1]), s[|s| - 1]);
    }
  }

  lemma {:induction false} InsertKeepsKeyOrder(p: seq<ItineraryItem>, x: ItineraryItem, k: string)
    ensures KeyFilter(InsertByTime(p, x), k) == KeyFilter(p + [x], k)
  {
    if p != [] && !LessEq(p[|p| - 1].time, x.time) {
      var init, last := p[..|p| - 1], p[|p| - 1];
      InsertKeepsKeyOrder(init, x, k);
      FilterConcat(InsertByTime(init, x), [last], WithTime(k));
      FilterConcat(init, [x], WithTime(k));
      FilterConcat(init + [x], [last], WithTime(k));
      FilterConcat(init, [last], WithTime(k));
      FilterConcat(init + [last], [x], WithTime(k));
      assert p == init + [last];
      // x sorts strictly before `last`, so they never share the key `k`
      LessEqReflexive(x.time);
      assert x.time != last.time;
    }
  }

  /** Items with equal time keep their relative order. */
  lemma {:induction false} SortByTimeStable(s: seq<ItineraryItem>, k: string)
    ensures KeyFilter(SortByTime(s), k) == KeyFilter(s, k)
  {
    if s != [] {
      var init, last := s[..|s| - 1], s[|s| - 1];
      assert SortByTime(s) == InsertByTime(SortByTime(init), last);
      SortByTimeStable(init, k);
      InsertKeepsKeyOrder(SortByTime(init), last, k);
      FilterConcat(SortByTime(init), [last], WithTime(k));
      FilterConcat(init, [last], WithTime(k));
      assert s == init + [last];
    }
  }

  lemma SortByTimeIsStableSort(s: seq<ItineraryItem>)
    ensures IsStableSortOf(SortByTime(s), s)
  {
    SortByTimeSorted(s);
    forall k ensures KeyFilter(SortByTime(s), k) == KeyFilter(s, k) {
      SortByTimeStable(s, k);
    }
  }

  lemma HeadKey(r: seq<ItineraryItem>)
    requires r != []
    ensures KeyFilter(r, r[0].time) != []
  {
  }

  /** Sequences with the same per-time subsequences are empty together. */
  lemma SameKeysEmptyTogether(r1: seq<ItineraryItem>, r2: seq<ItineraryItem>)
    requires forall k :: KeyFilter(r1, k) == KeyFilter(r2, k)
    ensures r1 == [] <==> r2 == []
  {
    if r1 != [] { HeadKey(r1); }
    if r2 != [] { HeadKey(r2); }
  }

  /** Two sorted sequences that agree on every per-time subsequence are equal. */
  lemma {:induction false} SortedWithSameKeysEqual(r1: seq<ItineraryItem>, r2: seq<ItineraryItem>)
    requires SortedByTime(r1) && SortedByTime(r2)
    requires forall k :: KeyFilter(r1, k) == KeyFilter(r2, k)
    ensures r1 == r2
    decreases |r1| + |r2|
  {
    SameKeysEmptyTogether(r1, r2);
    if r1 != [] {
      var a, b := r1[0], r2[0];
      // b occurs in r1, so r1's first time is not later than b's; and symmetrically
      assert KeyFilter(r1, b.time) == KeyFilter(r2, b.time);
      FilterMembership(r2, WithTime(b.time), b);
      FilterMembership(r1, WithTime(b.time), b);
      var ib :| 0 <= ib < |r1| && r1[ib] == b;
      if ib == 0 { LessEqReflexive(a.time); }
      assert LessEq(a.time, b.time);
      assert KeyFilter(r1, a.time) == KeyFilter(r2, a.time);
      FilterMembership(r1, WithTime(a.time), a);
      FilterMembership(r2, WithTime(a.time), a);
      var ia :| 0 <= ia < |r2| && r2[ia] == a;
      if ia == 0 { LessEqReflexive(b.time); }
      assert LessEq(b.time, a.time);
      LessEqAntisymmetric(a.time, b.time);
      assert KeyFilter(r1, a.time) == [a] + KeyFilter(r1[1..], a.time);
      assert KeyFilter(r2, a.time) == [b] + KeyFilter(r2[1..], a.time);
      assert a == b;
      forall k ensures KeyFilter(r1[1..], k) == KeyFilter(r2[1..], k) {
        assert KeyFilter(r1, k) == KeyFilter(r2, k);
      }
      SortedWithSameKeysEqual(r1[1..], r2[1..]);
      assert r1 == [a] + r1[1..] && r2 == [b] + r2[1..];
    }
  }

  /** SortByTime is exactly the stable sort: a result is a stable sort of `s` iff it is SortByTime(s). */
  lemma StableSortUnique(s: seq<ItineraryItem>, r: seq<ItineraryItem>)
    ensures IsStableSortOf(r, s) <==> r == SortByTime(s)
  {
    SortByTimeIsStableSort(s);
    if IsStableSortOf(r, s) {
      SortedWithSameKeysEqual(r, SortByTime(s));
    }
  }

  /** A sequence that is already sorted is left as it is. */
  lemma SortByTimeOfSorted(s: seq<ItineraryItem>)
    requires SortedByTime(s)
    ensures SortByTime(s) == s
  {
    StableSortUnique(s, s);
  }

  /** One step of the insertion scan: `x` moves left past `p[j - 1]`. */
  lemma InsertStep(p: seq<ItineraryItem>, j: nat, x: ItineraryItem)
    requires 0 < j <= |p| && !LessEq(p[j - 1].time, x.time)
    ensures InsertByTime(p[..j], x) + p[j..] == InsertByTime(p[..j - 1], x) + p[j - 1..]
  {
    assert p[..j][..j - 1] == p[..j - 1];
    assert p[j - 1..] == [p[j - 1]] + p[j..];
  }

  /** The scan stops: `x` goes right after `p[..j]`. */
  lemma InsertStop(p: seq<ItineraryItem>, j: nat, x: ItineraryItem)
    requires j <= |p| && (j == 0 || LessEq(p[j - 1].time, x.time))
    ensures InsertByTime(p[..j], x) + p[j..] == p[..j] + [x] + p[j..]
  {
  }

  /** The array during the scan: `p` with a gap at `j`, followed by the untouched tail `t`. */
  lemma ShiftIntoGap(p: seq<ItineraryItem>, t: seq<ItineraryItem>, j: nat, c: ItineraryItem)
    requires 0 < j <= |p|
    ensures (p[..j] + [c] + p[j..] + t)[j - 1] == p[j - 1]
    ensures (p[..j] + [c] + p[j..] + t)[j := p[j - 1]] == p[..j - 1] + [p[j - 1]] + p[j - 1..] + t
  {
    assert p[j - 1..] == [p[j - 1]] + p[j..];
  }

  lemma StartGap(b: seq<ItineraryItem>, i: nat)
    requires i < |b|
    ensures b[..i][..i] == b[..i] && b[..i][i..] == []
    ensures b == b[..i][..i] + [b[i]] + b[..i][i..] + b[i + 1..]
  {
  }

  lemma FillGap(p: seq<ItineraryItem>, t: seq<ItineraryItem>, j: nat, c: ItineraryItem, x: ItineraryItem)
    requires j <= |p|
    ensures (p[..j] + [c] + p[j..] + t)[j := x] == p[..j] + [x] + p[j..] + t
  {
  }

  lemma SortByTimeSnoc(s: seq<ItineraryItem>, i: nat)
    requires i < |s|
    ensures SortByTime(s[..i + 1]) == InsertByTime(SortByTime(s[..i]), s[i])
  {
    assert s[..i + 1][..i] == s[..i];
  }

  lemma WholePrefix(s: seq<ItineraryItem>)
    ensures SortByTime(s[..|s|]) + s[|s|..] == SortByTime(s)
  {
    assert s[..|s|] == s;
  }

  lemma SplitAt(sorted: seq<ItineraryItem>, s: seq<ItineraryItem>, i: nat)
    requires |sorted| == i < |s|
    ensures (sorted + s[i..])[..i] == sorted
    ensures (sorted + s[i..])[i] == s[i]
    ensures (sorted + s[i..])[i + 1..] == s[i + 1..]
  {
  }

  /**
   * `Array.prototype.sort` on an array, in place. Insertion sort: each element in turn is moved
   * left past the elements whose time is strictly later.
   */
  method SortInPlace(a: array<ItineraryItem>)
    modifies a
    ensures a[..] == SortByTime(old(a[..]))
  {
    ghost var s := a[..];
    var i := 0;
    while i < a.Length
      invariant 0 <= i <= a.Length
      invariant a[..] == SortByTime(s[..i]) + s[i..]
    {
      ghost var sorted := SortByTime(s[..i]);
      SplitAt(sorted, s, i);
      InsertAt(a, i);
      SortByTimeSnoc(s, i);
      i := i + 1;
    }
    WholePrefix(s);
  }

  /** Move `a[i]` left into the prefix `a[..i]`, past every element with a strictly later time. */
  method InsertAt(a: array<ItineraryItem>, i: nat)
    requires i < a.Length
    modifies a
    ensures a[..] == InsertByTime(old(a[..i]), old(a[i])) + old(a[i + 1..])
  {
    ghost var p, t := a[..i], a[i + 1..];
    var x := a[i];
    var j := i;
    StartGap(a[..], i);
    while j > 0 && !LessEq(a[j - 1].time, x.time)
      invariant 0 <= j <= i
      invariant a[..] == p[..j] + [a[j]] + p[j..] + t
      invariant InsertByTime(p, x) == InsertByTime(p[..j], x) + p[j..]
    {
      ghost var b := a[..];
      ShiftIntoGap(p, t, j, a[j]);
      InsertStep(p, j, x);
      a[j] := a[j - 1];
      assert a[..] == b[j := b[j - 1]];
      j := j - 1;
    }
    ghost var b := a[..];
    FillGap(p, t, j, a[j], x);
    InsertStop(p, j, x);
    a[j] := x;
    assert a[..] == b[j := x];
  }
}
