/**
 * The analytics and the add form of `ExpenseTracker.tsx` (the copy under `components/` and the
 * one under `tokyo-trip-2026/components/` share this logic): the date filter, the yen total and
 * its conversion, the per-category chart buckets, count and average, and the form submit.
 */
module ExpenseTracker {
  import opened Wrappers
  import opened TripTypes
  import opened Seqs
  import opened JsText
  import opened JsMath

  // ---------------------------------------------------------------- date filter

  /** The filter test: an empty bound does not apply; dates compare as strings. */
  predicate InDateRange(date: string, start: string, end: string): (r: bool)
    ensures start == "" && end == "" ==> r
    ensures start != "" && end != "" && Less(end, start) ==> !r
  {
    var r := !(start != "" && Less(date, start)) && !(end != "" && Less(end, date));
    if r && start != "" && end != "" then
      LessEqTransitive(start, date, end);
      r
    else
      r
  }

  function DateFilter(start: string, end: string): ExpenseRecord -> bool {
    (e: ExpenseRecord) => InDateRange(e.date, start, end)
  }

  /** `filteredExpenses`. */
  function FilterByDate(expenses: seq<ExpenseRecord>, start: string, end: string): (r: seq<ExpenseRecord>)
    ensures IsSubsequence(r, expenses)
    ensures forall e :: e in r <==>
      e in expenses && (start == "" || LessEq(start, e.date)) && (end == "" || LessEq(e.date, end))
    ensures start == "" && end == "" ==> r == expenses
    ensures forall e :: multiset(r)[e] == if InDateRange(e.date, start, end) then multiset(expenses)[e] else 0
  {
    forall e ensures e in Filter(expenses, DateFilter(start, end)) <==> e in expenses && InDateRange(e.date, start, end) {
      FilterMembership(expenses, DateFilter(start, end), e);
    }
    forall e
      ensures multiset(Filter(expenses, DateFilter(start, end)))[e]
        == if InDateRange(e.date, start, end) then multiset(expenses)[e] else 0
    {
      FilterMultiplicity(expenses, DateFilter(start, end), e);
    }
    Filter(expenses, DateFilter(start, end))
  }

  // ---------------------------------------------------------------- totals

  /** `reduce((sum, item) => sum + item.amount, 0)`, adding from the left. */
  function Total(s: seq<ExpenseRecord>): (t: int)
    ensures s == [] ==> t == 0
    ensures (forall i :: 0 <= i < |s| ==> s[i].amount >= 0) ==> t >= 0
    ensures (forall i :: 0 <= i < |s| ==> s[i].amount >= 0) ==> forall i :: 0 <= i < |s| ==> s[i].amount <= t
  {
    if s == [] then 0 else Total(s[..|s| - 1]) + s[|s| - 1].amount
  }

  lemma {:induction false} TotalAppend(a: seq<ExpenseRecord>, b: seq<ExpenseRecord>)
    ensures Total(a + b) == Total(a) + Total(b)
    decreases |b|
  {
    if b != [] {
      assert (a + b)[..|a + b| - 1] == a + b[..|b| - 1];
      assert (a + b)[|a + b| - 1] == b[|b| - 1];
      TotalAppend(a, b[..|b| - 1]);
    } else {
      assert a + b == a;
    }
  }

  /** A total of records whose amounts lie in `[lo, hi]` lies between `n * lo` and `n * hi`. */
  lemma {:induction false} TotalBounds(s: seq<ExpenseRecord>, lo: int, hi: int)
    requires forall i :: 0 <= i < |s| ==> lo <= s[i].amount <= hi
    ensures |s| * lo <= Total(s) <= |s| * hi
  {
    if s != [] {
      TotalBounds(s[..|s| - 1], lo, hi);
      assert |s| * lo == (|s| - 1) * lo + lo;
      assert |s| * hi == (|s| - 1) * hi + hi;
    }
  }

  /** `Math.round(yen * exchangeRate)`: the total, each row and each chart tooltip in NT$. */
  function ToTWD(yen: int, rate: real): (n: int)
    ensures (n as real) - 0.5 <= (yen as real) * rate < (n as real) + 0.5
  {
    Round((yen as real) * rate)
  }

  /** With a non-negative rate, more yen never converts to fewer NT$. */
  lemma ToTWDMonotone(a: int, b: int, rate: real)
    requires a <= b && rate >= 0.0
    ensures ToTWD(a, rate) <= ToTWD(b, rate)
  {
    assert (b as real) * rate - (a as real) * rate == ((b - a) as real) * rate;
  }

  /** At the seed rate 0.215, 1200 yen is NT$ 258. */
  lemma ToTWDAtSeedRate()
    ensures ToTWD(1200, 0.215) == 258
  {
    RoundUnique(258.0, 258);
  }

  /** The average tile: `Math.round(totalJPY / count)` when there are records, and 0 otherwise. */
  function Average(total: int, count: nat): (n: int)
    ensures count == 0 ==> n == 0
    ensures count > 0 ==> (n as real) - 0.5 <= (total as real) / (count as real) < (n as real) + 0.5
  {
    if count > 0 then Round((total as real) / (count as real)) else 0
  }

  /** The average of shown records lies between their smallest and largest amounts. */
  lemma AverageWithinAmounts(s: seq<ExpenseRecord>, lo: int, hi: int)
    requires s != [] && forall i :: 0 <= i < |s| ==> lo <= s[i].amount <= hi
    ensures lo <= Average(Total(s), |s|) <= hi
  {
    TotalBounds(s, lo, hi);
    QuotientBetween(Total(s), |s|, lo, hi);
  }

  lemma QuotientBetween(t: int, n: int, lo: int, hi: int)
    requires n > 0 && n * lo <= t <= n * hi
    ensures (lo as real) <= (t as real) / (n as real) <= (hi as real)
  {
    var q := (t as real) / (n as real);
    assert q * (n as real) == t as real;
    assert ((n * lo) as real) == (n as real) * (lo as real);
    assert ((n * hi) as real) == (n as real) * (hi as real);
  }

  // ---------------------------------------------------------------- chart buckets

  /** One chart entry: a category and the yen spent on it. */
  datatype Bucket = Bucket(category: ExpenseCategory, value: int)

  /** The position of the entry for `c`, or -1. */
  function FindBucket(bs: seq<Bucket>, c: ExpenseCategory): (k: int)
    ensures -1 <= k < |bs|
    ensures k >= 0 ==> bs[k].category == c && forall j :: 0 <= j < k ==> bs[j].category != c
    ensures k == -1 ==> forall j :: 0 <= j < |bs| ==> bs[j].category != c
  {
    if bs == [] then -1
    else if bs[0].category == c then 0
    else
      var k := FindBucket(bs[1..], c);
      if k == -1 then -1 else k + 1
  }

  /** One step of the `forEach`: add the amount to the record's category, opening an entry at the end if new. */
  function AddToBuckets(bs: seq<Bucket>, e: ExpenseRecord): seq<Bucket> {
    var k := FindBucket(bs, e.category);
    if k >= 0 then bs[k := Bucket(e.category, bs[k].value + e.amount)]
    else bs + [Bucket(e.category, e.amount)]
  }

  /** `Object.entries(data)` after the `forEach` over `s`. */
  function Buckets(s: seq<ExpenseRecord>): seq<Bucket> {
    if s == [] then [] else AddToBuckets(Buckets(s[..|s| - 1]), s[|s| - 1])
  }

  /** The first position of a record of category `c`, or `|s|` when there is none. */
  function FirstIndex(s: seq<ExpenseRecord>, c: ExpenseCategory): (i: nat)
    ensures i <= |s|
    ensures i < |s| ==> s[i].category == c
    ensures forall j :: 0 <= j < i ==> s[j].category != c
  {
    if s == [] then 0
    else if s[0].category == c then 0
    else FirstIndex(s[1..], c) + 1
  }

  /** The yen spent on category `c`, adding from the left. */
  function CategoryTotal(s: seq<ExpenseRecord>, c: ExpenseCategory): int {
    if s == [] then 0
    else CategoryTotal(s[..|s| - 1], c) + (if s[|s| - 1].category == c then s[|s| - 1].amount else 0)
  }

  function ValueSum(bs: seq<Bucket>): int {
    if bs == [] then 0 else bs[0].value + ValueSum(bs[1..])
  }

  lemma {:induction false} FirstIndexSnoc(s: seq<ExpenseRecord>, e: ExpenseRecord, c: ExpenseCategory)
    ensures FirstIndex(s + [e], c)
      == if FirstIndex(s, c) < |s| then FirstIndex(s, c) else if e.category == c then |s| else |s| + 1
  {
    if s != [] {
      assert (s + [e])[1..] == s[1..] + [e];
      FirstIndexSnoc(s[1..], e, c);
    }
  }

  lemma {:induction false} FindBucketAppend(bs: seq<Bucket>, b: Bucket, c: ExpenseCategory)
    ensures FindBucket(bs + [b], c)
      == if FindBucket(bs, c) >= 0 then FindBucket(bs, c) else if b.category == c then |bs| else -1
  {
    if bs != [] {
      assert (bs + [b])[1..] == bs[1..] + [b];
      FindBucketAppend(bs[1..], b, c);
    }
  }

  lemma {:induction false} FindBucketUpdate(bs: seq<Bucket>, k: nat, b: Bucket, c: ExpenseCategory)
    requires k < |bs| && b.category == bs[k].category
    ensures FindBucket(bs[k := b], c) == FindBucket(bs, c)
  {
    if k > 0 {
      assert bs[k := b][1..] == bs[1..][k - 1 := b];
      FindBucketUpdate(bs[1..], k - 1, b, c);
    }
  }

  /** Every category of an entry has an entry found for it. */
  lemma HasBucket(bs: seq<Bucket>, i: int)
    requires 0 <= i < |bs|
    ensures FindBucket(bs, bs[i].category) >= 0
  {
  }

  /** The entries name exactly the categories that occur in `s`. */
  ghost predicate Present(bs: seq<Bucket>, s: seq<ExpenseRecord>) {
    forall c :: FindBucket(bs, c) >= 0 <==> FirstIndex(s, c) < |s|
  }

  /** The entries come in the order in which their categories first occur in `s`. */
  ghost predicate Ordered(bs: seq<Bucket>, s: seq<ExpenseRecord>) {
    forall i, j :: 0 <= i < j < |bs| ==> FirstIndex(s, bs[i].category) < FirstIndex(s, bs[j].category)
  }

  /** Each entry holds the yen `s` spends on its category. */
  ghost predicate Valued(bs: seq<Bucket>, s: seq<ExpenseRecord>) {
    forall k :: 0 <= k < |bs| ==> bs[k].value == CategoryTotal(s, bs[k].category)
  }

  lemma SnocBuckets(p: seq<ExpenseRecord>, e: ExpenseRecord)
    ensures Buckets(p + [e]) == AddToBuckets(Buckets(p), e)
  {
    assert (p + [e])[..|p|] == p;
  }

  lemma PresentStep(bs: seq<Bucket>, p: seq<ExpenseRecord>, e: ExpenseRecord)
    requires Present(bs, p)
    ensures Present(AddToBuckets(bs, e), p + [e])
  {
    var k := FindBucket(bs, e.category);
    forall c ensures FindBucket(AddToBuckets(bs, e), c) >= 0 <==> FirstIndex(p + [e], c) < |p| + 1 {
      FirstIndexSnoc(p, e, c);
      if k >= 0 {
        FindBucketUpdate(bs, k, Bucket(e.category, bs[k].value + e.amount), c);
      } else {
        FindBucketAppend(bs, Bucket(e.category, e.amount), c);
      }
    }
  }

  /** The categories already listed keep their first positions when a record is added. */
  lemma ListedKeepFirst(bs: seq<Bucket>, p: seq<ExpenseRecord>, e: ExpenseRecord)
    requires Present(bs, p)
    ensures forall i :: 0 <= i < |bs| ==>
      FirstIndex(p + [e], bs[i].category) == FirstIndex(p, bs[i].category) < |p|
  {
    forall i | 0 <= i < |bs| ensures FirstIndex(p + [e], bs[i].category) == FirstIndex(p, bs[i].category) < |p| {
      HasBucket(bs, i);
      FirstIndexSnoc(p, e, bs[i].category);
    }
  }

  lemma OrderedStep(bs: seq<Bucket>, p: seq<ExpenseRecord>, e: ExpenseRecord)
    requires Present(bs, p) && Ordered(bs, p)
    ensures Ordered(AddToBuckets(bs, e), p + [e])
  {
    ListedKeepFirst(bs, p, e);
    var k := FindBucket(bs, e.category);
    if k < 0 {
      FirstIndexSnoc(p, e, e.category);
      OrderedAppend(bs, p + [e], Bucket(e.category, e.amount), |p|);
    } else {
      OrderedUpdate(bs, p + [e], k, Bucket(e.category, bs[k].value + e.amount));
    }
  }

  lemma OrderedAppend(bs: seq<Bucket>, s: seq<ExpenseRecord>, b: Bucket, n: int)
    requires Ordered(bs, s)
    requires forall i :: 0 <= i < |bs| ==> FirstIndex(s, bs[i].category) < n
    requires FirstIndex(s, b.category) == n
    ensures Ordered(bs + [b], s)
  {
    assert forall i :: 0 <= i < |bs| ==> (bs + [b])[i] == bs[i];
  }

  lemma OrderedUpdate(bs: seq<Bucket>, s: seq<ExpenseRecord>, k: int, b: Bucket)
    requires Ordered(bs, s) && 0 <= k < |bs| && b.category == bs[k].category
    ensures Ordered(bs[k := b], s)
  {
    assert forall i :: 0 <= i < |bs| ==> bs[k := b][i].category == bs[i].category;
  }

  /**
   * The entries' categories are exactly those of the records, and they come in the order in
   * which each category first occurs.
   */
  lemma {:induction false} BucketsKeys(s: seq<ExpenseRecord>)
    ensures Present(Buckets(s), s) && Ordered(Buckets(s), s)
  {
    if s != [] {
      var p, e := s[..|s| - 1], s[|s| - 1];
      assert s == p + [e];
      BucketsKeys(p);
      SnocBuckets(p, e);
      PresentStep(Buckets(p), p, e);
      OrderedStep(Buckets(p), p, e);
    }
  }

  /** No category has two entries. */
  lemma BucketsDistinct(s: seq<ExpenseRecord>)
    ensures forall i, j :: 0 <= i < j < |Buckets(s)| ==> Buckets(s)[i].category != Buckets(s)[j].category
  {
    BucketsKeys(s);
  }

  lemma CategoryTotalSnoc(p: seq<ExpenseRecord>, e: ExpenseRecord, c: ExpenseCategory)
    ensures CategoryTotal(p + [e], c) == CategoryTotal(p, c) + (if e.category == c then e.amount else 0)
  {
    assert (p + [e])[..|p|] == p;
  }

  lemma {:induction false} NoneOfCategory(s: seq<ExpenseRecord>, c: ExpenseCategory)
    requires FirstIndex(s, c) == |s|
    ensures CategoryTotal(s, c) == 0
  {
    if s != [] {
      var p := s[..|s| - 1];
      assert s == p + [s[|s| - 1]];
      FirstIndexSnoc(p, s[|s| - 1], c);
      NoneOfCategory(p, c);
    }
  }

  lemma ValuedStep(bs: seq<Bucket>, p: seq<ExpenseRecord>, e: ExpenseRecord)
    requires Valued(bs, p) && Present(bs, p) && Ordered(bs, p)
    ensures Valued(AddToBuckets(bs, e), p + [e])
  {
    var k := FindBucket(bs, e.category);
    forall c ensures CategoryTotal(p + [e], c) == CategoryTotal(p, c) + (if e.category == c then e.amount else 0) {
      CategoryTotalSnoc(p, e, c);
    }
    if k < 0 {
      NoneOfCategory(p, e.category);
      assert forall i :: 0 <= i < |bs| ==> bs[i].category != e.category;
      ValuedAppend(bs, p, e);
    } else {
      ValuedUpdate(bs, p, e, k);
    }
  }

  lemma ValuedAppend(bs: seq<Bucket>, p: seq<ExpenseRecord>, e: ExpenseRecord)
    requires Valued(bs, p)
    requires forall i :: 0 <= i < |bs| ==> CategoryTotal(p + [e], bs[i].category) == CategoryTotal(p, bs[i].category)
    requires CategoryTotal(p + [e], e.category) == e.amount
    ensures Valued(bs + [Bucket(e.category, e.amount)], p + [e])
  {
    assert forall i :: 0 <= i < |bs| ==> (bs + [Bucket(e.category, e.amount)])[i] == bs[i];
  }

  lemma ValuedUpdate(bs: seq<Bucket>, p: seq<ExpenseRecord>, e: ExpenseRecord, k: int)
    requires Valued(bs, p) && Ordered(bs, p) && 0 <= k < |bs| && bs[k].category == e.category
    requires forall c :: CategoryTotal(p + [e], c) == CategoryTotal(p, c) + (if e.category == c then e.amount else 0)
    ensures Valued(bs[k := Bucket(e.category, bs[k].value + e.amount)], p + [e])
  {
    forall i | 0 <= i < |bs| && i != k ensures bs[i].category != e.category {
      if i < k {
        assert FirstIndex(p, bs[i].category) < FirstIndex(p, bs[k].category);
      } else {
        assert FirstIndex(p, bs[k].category) < FirstIndex(p, bs[i].category);
      }
    }
  }

  /** Each entry holds the yen spent on its category. */
  lemma {:induction false} BucketsValues(s: seq<ExpenseRecord>)
    ensures Valued(Buckets(s), s)
  {
    if s != [] {
      var p, e := s[..|s| - 1], s[|s| - 1];
      assert s == p + [e];
      BucketsValues(p);
      BucketsKeys(p);
      SnocBuckets(p, e);
      ValuedStep(Buckets(p), p, e);
    }
  }

  lemma {:induction false} ValueSumUpdate(bs: seq<Bucket>, k: int, b: Bucket)
    requires 0 <= k < |bs|
    ensures ValueSum(bs[k := b]) == ValueSum(bs) - bs[k].value + b.value
  {
    if k > 0 {
      assert bs[k := b][1..] == bs[1..][k - 1 := b];
      ValueSumUpdate(bs[1..], k - 1, b);
    }
  }

  lemma {:induction false} ValueSumAppend(bs: seq<Bucket>, b: Bucket)
    ensures ValueSum(bs + [b]) == ValueSum(bs) + b.value
  {
    if bs != [] {
      assert (bs + [b])[1..] == bs[1..] + [b];
      ValueSumAppend(bs[1..], b);
    }
  }

  /** The entries add up to the total of the records. */
  lemma {:induction false} BucketsSum(s: seq<ExpenseRecord>)
    ensures ValueSum(Buckets(s)) == Total(s)
  {
    if s != [] {
      var p, e := s[..|s| - 1], s[|s| - 1];
      BucketsSum(p);
      var bs := Buckets(p);
      var k := FindBucket(bs, e.category);
      if k >= 0 {
        ValueSumUpdate(bs, k, Bucket(e.category, bs[k].value + e.amount));
      } else {
        ValueSumAppend(bs, Bucket(e.category, e.amount));
      }
    }
  }

  /** The chart data, summed up: one entry per category present, in first-occurrence order, holding that category's yen, adding up to the total. */
  lemma ChartDataMeaning(s: seq<ExpenseRecord>)
    ensures forall c :: FindBucket(Buckets(s), c) >= 0 <==> FirstIndex(s, c) < |s|
    ensures forall i, j :: 0 <= i < j < |Buckets(s)| ==>
      FirstIndex(s, Buckets(s)[i].category) < FirstIndex(s, Buckets(s)[j].category)
    ensures forall k :: 0 <= k < |Buckets(s)| ==> Buckets(s)[k].value == CategoryTotal(s, Buckets(s)[k].category)
    ensures ValueSum(Buckets(s)) == Total(s)
  {
    BucketsKeys(s);
    BucketsValues(s);
    BucketsSum(s);
  }

  /** The entries of an insertion-ordered dictionary: its keys in order, each with its value. */
  function Entries(keys: seq<ExpenseCategory>, data: map<ExpenseCategory, int>): (r: seq<Bucket>)
    requires forall c :: c in keys ==> c in data
    ensures |r| == |keys|
    ensures forall i :: 0 <= i < |keys| ==> r[i] == Bucket(keys[i], data[keys[i]])
  {
    seq(|keys|, i requires 0 <= i < |keys| => Bucket(keys[i], data[keys[i]]))
  }

  /**
   * `chartData`: a dictionary keyed by category, filled in place by a `forEach` over the records
   * (`data[c] = (data[c] || 0) + amount`), then listed by `Object.entries`, which gives string keys
   * in insertion order.
   */
  method ChartData(s: seq<ExpenseRecord>) returns (r: seq<Bucket>)
    ensures r == Buckets(s)
  {
    var keys: seq<ExpenseCategory> := [];
    var data: map<ExpenseCategory, int> := map[];
    var i := 0;
    while i < |s|
      invariant 0 <= i <= |s|
      invariant Dictionary(keys, data)
      invariant Entries(keys, data) == Buckets(s[..i])
    {
      var c := s[i].category;
      var keys', data';
      if c in data {
        keys', data' := keys, data[c := data[c] + s[i].amount];
      } else {
        keys', data' := keys + [c], data[c := 0 + s[i].amount];
      }
      DictionaryStep(keys, data, s, i, keys', data');
      keys, data := keys', data';
      i := i + 1;
    }
    assert s[..i] == s;
    r := Entries(keys, data);
  }

  /** `keys` lists the keys of `data` once each, in insertion order. */
  ghost predicate Dictionary(keys: seq<ExpenseCategory>, data: map<ExpenseCategory, int>) {
    (forall c :: c in data <==> c in keys)
    && forall a, b :: 0 <= a < b < |keys| ==> keys[a] != keys[b]
  }

  /** One turn of the `forEach` adds the record to the dictionary's entries. */
  lemma DictionaryStep(keys: seq<ExpenseCategory>, data: map<ExpenseCategory, int>, s: seq<ExpenseRecord>, i: int,
                       keys': seq<ExpenseCategory>, data': map<ExpenseCategory, int>)
    requires 0 <= i < |s| && Dictionary(keys, data) && Entries(keys, data) == Buckets(s[..i])
    requires var c := s[i].category;
      if c in data then keys' == keys && data' == data[c := data[c] + s[i].amount]
      else keys' == keys + [c] && data' == data[c := 0 + s[i].amount]
    ensures Dictionary(keys', data') && Entries(keys', data') == Buckets(s[..i + 1])
  {
    var e := s[i];
    assert Buckets(s[..i + 1]) == AddToBuckets(Buckets(s[..i]), e) by {
      assert s[..i + 1] == s[..i] + [e];
      SnocBuckets(s[..i], e);
    }
    if e.category in data {
      BumpEntry(keys, data, e);
    } else {
      NewEntry(keys, data, e);
    }
  }

  lemma BumpEntry(keys: seq<ExpenseCategory>, data: map<ExpenseCategory, int>, e: ExpenseRecord)
    requires Dictionary(keys, data) && e.category in data
    ensures Dictionary(keys, data[e.category := data[e.category] + e.amount])
    ensures Entries(keys, data[e.category := data[e.category] + e.amount]) == AddToBuckets(Entries(keys, data), e)
  {
    var c := e.category;
    var j :| 0 <= j < |keys| && keys[j] == c;
    FindDistinctKey(keys, data, j);
    UpdateOneKey(keys, data, j, data[c] + e.amount);
  }

  /** Changing the value of the key at position `j` of distinct keys changes that entry only. */
  lemma UpdateOneKey(keys: seq<ExpenseCategory>, data: map<ExpenseCategory, int>, j: int, v: int)
    requires (forall c :: c in keys ==> c in data) && 0 <= j < |keys|
    requires forall i :: 0 <= i < |keys| && i != j ==> keys[i] != keys[j]
    ensures Entries(keys, data[keys[j] := v]) == Entries(keys, data)[j := Bucket(keys[j], v)]
  {
    var data' := data[keys[j] := v];
    var r, bs := Entries(keys, data'), Entries(keys, data);
    forall i | 0 <= i < |r| ensures r[i] == bs[j := Bucket(keys[j], v)][i] {
      if i != j {
        assert data'[keys[i]] == data[keys[i]];
      }
    }
  }

  /** Over distinct keys, the entry found for a key is the one at its position. */
  lemma FindDistinctKey(keys: seq<ExpenseCategory>, data: map<ExpenseCategory, int>, j: int)
    requires Dictionary(keys, data) && 0 <= j < |keys|
    ensures FindBucket(Entries(keys, data), keys[j]) == j
  {
    var bs := Entries(keys, data);
    var k := FindBucket(bs, keys[j]);
    assert bs[j].category == keys[j];
    assert k >= 0 && keys[k] == keys[j];
  }

  lemma NewEntry(keys: seq<ExpenseCategory>, data: map<ExpenseCategory, int>, e: ExpenseRecord)
    requires Dictionary(keys, data) && e.category !in data
    ensures Dictionary(keys + [e.category], data[e.category := 0 + e.amount])
    ensures Entries(keys + [e.category], data[e.category := 0 + e.amount]) == AddToBuckets(Entries(keys, data), e)
  {
    var c, amount := e.category, e.amount;
    var bs := Entries(keys, data);
    var r := Entries(keys + [c], data[c := 0 + amount]);
    assert r == bs + [Bucket(c, amount)];
  }

  // ---------------------------------------------------------------- component state

  /** The tracker's own state: the add form and the date filter. */
  class Tracker {
    var showAddForm: bool
    var filterStartDate: string
    var filterEndDate: string
    var newItem: string
    var newAmount: string
    var newCategory: ExpenseCategory
    var newPayer: string
    var newDate: string

    constructor()
      ensures !showAddForm && filterStartDate == "" && filterEndDate == ""
      ensures newItem == "" && newAmount == "" && newCategory == Food && newPayer == "奇恩" && newDate == "2026-02-09"
    {
      showAddForm, filterStartDate, filterEndDate := false, "", "";
      newItem, newAmount, newCategory, newPayer, newDate := "", "", Food, "奇恩", "2026-02-09";
    }

    /** The records shown with the current filter. */
    function Shown(expenses: seq<ExpenseRecord>): (r: seq<ExpenseRecord>)
      reads this
      ensures filterStartDate == "" && filterEndDate == "" ==> r == expenses
    {
      FilterByDate(expenses, filterStartDate, filterEndDate)
    }

    /** The clear button of the filter bar. */
    method ClearFilters()
      modifies this
      ensures filterStartDate == "" && filterEndDate == ""
      ensures showAddForm == old(showAddForm) && newItem == old(newItem) && newAmount == old(newAmount)
      ensures newCategory == old(newCategory) && newPayer == old(newPayer) && newDate == old(newDate)
    {
      filterStartDate, filterEndDate := "", "";
    }

    /**
     * `handleAddExpense`. The record's id (`Date.now().toString()`) and `Number(newAmount)` are
     * given. With an empty item or amount text nothing happens; otherwise one record is made from
     * the form, item and amount are cleared and the form closes.
     */
    method Submit(id: string, parsedAmount: int) returns (rec: Option<ExpenseRecord>)
      modifies this
      ensures old(newItem) == "" || old(newAmount) == "" ==>
        rec.None? && showAddForm == old(showAddForm) && newItem == old(newItem) && newAmount == old(newAmount)
      ensures old(newItem) != "" && old(newAmount) != "" ==>
        rec == Some(ExpenseRecord(id, old(newDate), old(newItem), old(newCategory), parsedAmount, old(newPayer)))
        && !showAddForm && newItem == "" && newAmount == ""
      ensures newCategory == old(newCategory) && newPayer == old(newPayer) && newDate == old(newDate)
      ensures filterStartDate == old(filterStartDate) && filterEndDate == old(filterEndDate)
    {
      if newItem == "" || newAmount == "" {
        return None;
      }
      rec := Some(ExpenseRecord(id, newDate, newItem, newCategory, parsedAmount, newPayer));
      newItem, newAmount := "", "";
      showAddForm := false;
    }
  }
}
