/**
 * The itinerary handlers of the trip store: add, update and delete an item of every day whose
 * `dayLabel` matches (the handlers go through `itinerary.map`, so every matching day is
 * affected, and with no match nothing changes).
 */
module Itinerary {
  import opened TripTypes
  import opened TimeSort
  import opened Seqs

  /** The day after an item is added: `[...day.items, newItem]` sorted, status forced to Planned. */
  function AddToDay(day: DayPlan, item: ItineraryItem): (d: DayPlan)
    ensures IsStableSortOf(d.items, day.items + [item])
    ensures |d.items| == |day.items| + 1
    ensures multiset(d.items) == multiset(day.items) + multiset{item}
    ensures d.status == Planned
    ensures d == day.(status := Planned, items := d.items)
  {
    SortByTimeIsStableSort(day.items + [item]);
    day.(status := Planned, items := SortByTime(day.items + [item]))
  }

  /** `handleAddItineraryItem`. */
  function AddItem(days: seq<DayPlan>, target: string, item: ItineraryItem): (r: seq<DayPlan>)
    ensures |r| == |days|
    ensures forall i :: 0 <= i < |days| ==> r[i].dayLabel == days[i].dayLabel
    ensures forall i :: 0 <= i < |days| && days[i].dayLabel != target ==> r[i] == days[i]
  {
    seq(|days|, i requires 0 <= i < |days| =>
      if days[i].dayLabel == target then AddToDay(days[i], item) else days[i])
  }

  /**
   * `newItems[index] = item` on a copy of `items`. A negative index names a property that is not
   * an element, so the elements stay as they are; an index at or past the end appends.
   */
  function Assigned(items: seq<ItineraryItem>, index: int, item: ItineraryItem): (r: seq<ItineraryItem>)
    ensures 0 <= index < |items| ==>
      |r| == |items| && r[index] == item && forall j :: 0 <= j < |items| && j != index ==> r[j] == items[j]
    ensures index < 0 ==> r == items
    ensures |items| <= index ==> r == items + [item]
  {
    if index < 0 then items
    else if index < |items| then items[index := item]
    else items + [item]
  }

  /** The items after `handleUpdateItineraryItem`: the assignment, then the in-place sort. */
  function UpdateItems(items: seq<ItineraryItem>, index: int, item: ItineraryItem): (r: seq<ItineraryItem>)
    ensures IsStableSortOf(r, Assigned(items, index, item))
  {
    SortByTimeIsStableSort(Assigned(items, index, item));
    SortByTime(Assigned(items, index, item))
  }

  function UpdateDay(day: DayPlan, target: string, index: int, item: ItineraryItem): DayPlan {
    if day.dayLabel == target then day.(items := UpdateItems(day.items, index, item)) else day
  }

  /** `handleUpdateItineraryItem`. */
  function UpdateItem(days: seq<DayPlan>, target: string, index: int, item: ItineraryItem): (r: seq<DayPlan>)
    ensures |r| == |days|
    ensures forall i :: 0 <= i < |days| ==> r[i].dayLabel == days[i].dayLabel
    ensures forall i :: 0 <= i < |days| && days[i].dayLabel != target ==> r[i] == days[i]
  {
    seq(|days|, i requires 0 <= i < |days| => UpdateDay(days[i], target, index, item))
  }

  /**
   * The items after `handleUpdateItineraryItem`, computed as the handler does: copy the items
   * into a fresh array, assign at `index`, and sort that array in place.
   */
  method UpdatedItems(items: seq<ItineraryItem>, index: int, item: ItineraryItem)
    returns (r: seq<ItineraryItem>)
    ensures r == UpdateItems(items, index, item)
  {
    var copy := Assigned(items, index, item);
    var a := new ItineraryItem[|copy|](i requires 0 <= i < |copy| => copy[i]);
    assert a[..] == copy;
    SortInPlace(a);
    r := a[..];
  }

  /**
   * `prev.map(day => ...)` in `handleUpdateItineraryItem`: every day with the label gets its
   * items copied, assigned and sorted in place; the other days are passed through.
   */
  method UpdateDays(days: seq<DayPlan>, target: string, index: int, item: ItineraryItem)
    returns (r: seq<DayPlan>)
    ensures r == UpdateItem(days, target, index, item)
  {
    r := [];
    var k := 0;
    while k < |days|
      invariant 0 <= k <= |days| && |r| == k
      invariant forall j :: 0 <= j < k ==> r[j] == UpdateDay(days[j], target, index, item)
    {
      var day := days[k];
      if day.dayLabel == target {
        var items := UpdatedItems(day.items, index, item);
        day := day.(items := items);
      }
      r := r + [day];
      k := k + 1;
    }
  }

  /** `items.filter((_, i) => i !== index)`. */
  function DeleteAt(items: seq<ItineraryItem>, index: int): (r: seq<ItineraryItem>)
    ensures IsSubsequence(r, items)
    ensures 0 <= index < |items| ==>
      |r| == |items| - 1 && multiset(r) + multiset{items[index]} == multiset(items)
    ensures !(0 <= index < |items|) ==> r == items
  {
    if 0 <= index < |items| then
      assert items == items[..index] + [items[index]] + items[index + 1..];
      SubsequenceDrop(items[..index], items[index], items[index + 1..]);
      items[..index] + items[index + 1..]
    else
      assert IsSubsequence(items, items) by { SubsequenceRefl(items); }
      items
  }

  /** `handleDeleteItineraryItem`; the status is kept even when no item is left. */
  function DeleteItem(days: seq<DayPlan>, target: string, index: int): (r: seq<DayPlan>)
    ensures |r| == |days|
    ensures forall i :: 0 <= i < |days| ==> r[i].dayLabel == days[i].dayLabel
    ensures forall i :: 0 <= i < |days| && days[i].dayLabel != target ==> r[i] == days[i]
  {
    seq(|days|, i requires 0 <= i < |days| =>
      if days[i].dayLabel == target then days[i].(items := DeleteAt(days[i].items, index)) else days[i])
  }

  lemma {:induction false} SubsequenceRefl<T>(s: seq<T>)
    ensures IsSubsequence(s, s)
  {
    if s != [] { SubsequenceRefl(s[1..]); }
  }

  lemma {:induction false} SubsequenceDrop<T>(a: seq<T>, x: T, b: seq<T>)
    ensures IsSubsequence(a + b, a + [x] + b)
  {
    if a == [] {
      SubsequenceRefl(b);
      assert (a + [x] + b)[1..] == b && a + b == b;
    } else {
      SubsequenceDrop(a[1..], x, b);
      assert (a + b)[1..] == a[1..] + b;
      assert (a + [x] + b)[1..] == a[1..] + [x] + b;
    }
  }

  /** Deletion keeps the other items in order: what is left of position `j` is `items[j]` or `items[j + 1]`. */
  lemma DeleteAtPositions(items: seq<ItineraryItem>, index: int, j: int)
    requires 0 <= index < |items| && 0 <= j < |items| - 1
    ensures DeleteAt(items, index)[j] == if j < index then items[j] else items[j + 1]
  {
  }

  /**
   * Adding to the days labelled `target`: each of them holds a stable time-sorted permutation of
   * its old items and the new one and is Planned, and every other day is untouched.
   */
  lemma AddItemEffect(days: seq<DayPlan>, target: string, item: ItineraryItem, i: int)
    requires 0 <= i < |days|
    ensures var d := AddItem(days, target, item)[i];
      if days[i].dayLabel == target then
        IsStableSortOf(d.items, days[i].items + [item]) && SortedByTime(d.items)
        && |d.items| == |days[i].items| + 1
        && multiset(d.items) == multiset(days[i].items) + multiset{item}
        && d.status == Planned
        && d.dayLabel == days[i].dayLabel && d.date == days[i].date
        && d.theme == days[i].theme && d.themeIcon == days[i].themeIcon
      else d == days[i]
  {
  }

  /** With no day labelled `target`, adding changes nothing. */
  lemma AddItemNoMatch(days: seq<DayPlan>, target: string, item: ItineraryItem)
    requires forall i :: 0 <= i < |days| ==> days[i].dayLabel != target
    ensures AddItem(days, target, item) == days
  {
  }

  /**
   * Updating a valid position: the day holds a time-sorted permutation of its items with that
   * position replaced; length, status and the other fields stay; other days are untouched.
   */
  lemma UpdateItemEffect(days: seq<DayPlan>, target: string, index: int, item: ItineraryItem, i: int)
    requires 0 <= i < |days|
    ensures var d := UpdateItem(days, target, index, item)[i];
      if days[i].dayLabel == target then
        (0 <= index < |days[i].items| ==>
          SortedByTime(d.items) && multiset(d.items) == multiset(days[i].items[index := item])
          && |d.items| == |days[i].items|)
        && d == days[i].(items := d.items)
      else d == days[i]
  {
    if days[i].dayLabel == target && 0 <= index < |days[i].items| {
      var a := Assigned(days[i].items, index, item);
      assert a == days[i].items[index := item];
    }
  }

  /** With no day labelled `target`, updating changes nothing. */
  lemma UpdateItemNoMatch(days: seq<DayPlan>, target: string, index: int, item: ItineraryItem)
    requires forall i :: 0 <= i < |days| ==> days[i].dayLabel != target
    ensures UpdateItem(days, target, index, item) == days
  {
  }

  /** Replacing an item by itself and re-sorting is a no-op on a day whose items are sorted. */
  lemma UpdateSameItem(items: seq<ItineraryItem>, index: int)
    requires 0 <= index < |items| && SortedByTime(items)
    ensures UpdateItems(items, index, items[index]) == items
  {
    assert items[index := items[index]] == items;
    SortByTimeOfSorted(items);
  }

  /**
   * Deleting: the matching days lose exactly position `index` (nothing for an index out of
   * range) and keep status and every other field; other days are untouched.
   */
  lemma DeleteItemEffect(days: seq<DayPlan>, target: string, index: int, i: int)
    requires 0 <= i < |days|
    ensures var d := DeleteItem(days, target, index)[i];
      if days[i].dayLabel == target then
        d == days[i].(items := DeleteAt(days[i].items, index))
        && (0 <= index < |days[i].items| ==> |d.items| == |days[i].items| - 1)
        && (!(0 <= index < |days[i].items|) ==> d == days[i])
        && d.status == days[i].status
      else d == days[i]
  {
  }

  /** With no day labelled `target`, deleting changes nothing. */
  lemma DeleteItemNoMatch(days: seq<DayPlan>, target: string, index: int)
    requires forall i :: 0 <= i < |days| ==> days[i].dayLabel != target
    ensures DeleteItem(days, target, index) == days
  {
  }
}
