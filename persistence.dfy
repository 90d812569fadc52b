/**
 * Saving and loading the trip store under the browser key `tokyoTrip2026_v1`. Storage and the
 * JSON encoding are outside the model: a load sees what `JSON.parse` made of the stored text,
 * with every property either present (`Some`) or absent (`None`).
 */
module Persistence {
  import opened Wrappers
  import opened TripTypes

  const StorageKey: string := "tokyoTrip2026_v1"

  /** The properties of the parsed object that the loaders look at. */
  datatype Saved = Saved(
    itinerary: Option<seq<DayPlan>>,
    expenses: Option<seq<ExpenseRecord>>,
    foodList: Option<seq<string>>,
    exchangeRate: Option<real>,
    packedItems: Option<map<string, bool>>)

  /** What a load finds: no stored text (or the empty string), text that does not parse, or an object. */
  datatype Stored = Nothing | Unparsable | Json(saved: Saved)

  /** The state of the store in `App.tsx`. */
  datatype TripState = TripState(
    itinerary: seq<DayPlan>,
    expenses: seq<ExpenseRecord>,
    foodList: seq<string>,
    exchangeRate: real,
    packedItems: map<string, bool>)

  /** The state of the store in `components/App.tsx`, which has no packing list. */
  datatype PlannerState = PlannerState(
    itinerary: seq<DayPlan>,
    expenses: seq<ExpenseRecord>,
    foodList: seq<string>,
    exchangeRate: real)

  /**
   * `if (parsed.x) setX(parsed.x)` for a property whose values are arrays or objects, which are
   * always truthy: a present value replaces the current one.
   */
  function Apply<T>(current: T, parsed: Option<T>): T {
    match parsed
    case None => current
    case Some(v) => v
  }

  /** `if (parsed.exchangeRate) setExchangeRate(...)`: the number 0 is falsy and is skipped. */
  function ApplyRate(current: real, parsed: Option<real>): (r: real)
    ensures r == current || (parsed.Some? && r == parsed.value && r != 0.0)
    ensures parsed.Some? && parsed.value != 0.0 ==> r == parsed.value
  {
    if parsed.Some? && parsed.value != 0.0 then parsed.value else current
  }

  /** `handleSaveData` in `App.tsx`: exactly the five state fields. */
  function Snapshot(s: TripState): (saved: Saved)
    ensures saved.itinerary.Some? && saved.expenses.Some? && saved.foodList.Some?
      && saved.exchangeRate.Some? && saved.packedItems.Some?
  {
    Saved(Some(s.itinerary), Some(s.expenses), Some(s.foodList), Some(s.exchangeRate), Some(s.packedItems))
  }

  /** The load effect in `App.tsx`: each present (truthy) property replaces its field. */
  function Restore(s: TripState, stored: Stored): (r: TripState)
    ensures !stored.Json? ==> r == s
  {
    match stored
    case Json(p) =>
      TripState(
        Apply(s.itinerary, p.itinerary),
        Apply(s.expenses, p.expenses),
        Apply(s.foodList, p.foodList),
        ApplyRate(s.exchangeRate, p.exchangeRate),
        Apply(s.packedItems, p.packedItems))
    case _ => s
  }

  /** `handleSaveData` in `components/App.tsx`: four fields, no `packedItems`. */
  function PlannerSnapshot(s: PlannerState): (saved: Saved)
    ensures saved.itinerary.Some? && saved.expenses.Some? && saved.foodList.Some?
      && saved.exchangeRate.Some? && saved.packedItems.None?
  {
    Saved(Some(s.itinerary), Some(s.expenses), Some(s.foodList), Some(s.exchangeRate), None)
  }

  /** The load effect in `components/App.tsx`: four properties, `packedItems` is never read. */
  function PlannerRestore(s: PlannerState, stored: Stored): (r: PlannerState)
    ensures !stored.Json? ==> r == s
  {
    match stored
    case Json(p) =>
      PlannerState(
        Apply(s.itinerary, p.itinerary),
        Apply(s.expenses, p.expenses),
        Apply(s.foodList, p.foodList),
        ApplyRate(s.exchangeRate, p.exchangeRate))
    case _ => s
  }

  /** Loading what was saved restores the state, except that a saved rate of 0 is not taken. */
  lemma RestoreSnapshot(current: TripState, s: TripState)
    ensures s.exchangeRate != 0.0 ==> Restore(current, Json(Snapshot(s))) == s
    ensures s.exchangeRate == 0.0 ==>
      Restore(current, Json(Snapshot(s))) == s.(exchangeRate := current.exchangeRate)
  {
  }

  lemma PlannerRestoreSnapshot(current: PlannerState, s: PlannerState)
    ensures s.exchangeRate != 0.0 ==> PlannerRestore(current, Json(PlannerSnapshot(s))) == s
    ensures s.exchangeRate == 0.0 ==>
      PlannerRestore(current, Json(PlannerSnapshot(s))) == s.(exchangeRate := current.exchangeRate)
  {
  }

  /** Each field is loaded on its own: an absent property keeps that field and only that one. */
  lemma RestoreFieldwise(s: TripState, p: Saved)
    ensures var r := Restore(s, Json(p));
      (p.itinerary.None? ==> r.itinerary == s.itinerary)
      && (p.expenses.None? ==> r.expenses == s.expenses)
      && (p.foodList.None? ==> r.foodList == s.foodList)
      && (p.packedItems.None? ==> r.packedItems == s.packedItems)
      && (p.exchangeRate.None? || p.exchangeRate == Some(0.0) ==> r.exchangeRate == s.exchangeRate)
      && (p.itinerary.Some? ==> r.itinerary == p.itinerary.value)
      && (p.expenses.Some? ==> r.expenses == p.expenses.value)
      && (p.foodList.Some? ==> r.foodList == p.foodList.value)
      && (p.packedItems.Some? ==> r.packedItems == p.packedItems.value)
  {
  }

  /**
   * Both versions of the app share the storage key. A five-field snapshot loaded by the
   * four-field store ignores the packing list; a four-field snapshot loaded by the five-field
   * store leaves the packing list as it was.
   */
  lemma SharedKeyCompatibility(t: TripState, p: PlannerState)
    ensures PlannerRestore(p, Json(Snapshot(t)))
      == PlannerState(t.itinerary, t.expenses, t.foodList, if t.exchangeRate != 0.0 then t.exchangeRate else p.exchangeRate)
    ensures Restore(t, Json(PlannerSnapshot(p))).packedItems == t.packedItems
  {
  }
}
