/**
 * The state stores of `App.tsx` (five fields, with the packing list) and `components/App.tsx`
 * (four fields). Each handler replaces one field with a value computed by the transforms of
 * `Itinerary`, `StoreOps` and `Persistence`; the storage slot under `StorageKey` is a field of
 * the store, holding what `JSON.parse` would read back from it.
 */
module AppStore {
  import opened Wrappers
  import opened TripTypes
  import opened Seqs
  import opened Itinerary
  import opened StoreOps
  import opened Persistence
  import opened Countdown
  import SeedData

  /** The component state of `App.tsx`. */
  class TripStore {
    var itinerary: seq<DayPlan>
    var expenses: seq<ExpenseRecord>
    var foodList: seq<string>
    var exchangeRate: real
    var packedItems: map<string, bool>
    var showSaveToast: bool
    var daysUntilTrip: nat
    /** The browser's storage slot for `StorageKey`. */
    var storage: Stored

    /** The five persisted fields. */
    function State(): TripState
      reads this
    {
      TripState(itinerary, expenses, foodList, exchangeRate, packedItems)
    }

    /** The `useState` initial values: the seed data, an empty packing map, no toast, 0 days. */
    constructor(seedItinerary: seq<DayPlan>, seedExpenses: seq<ExpenseRecord>, seedFoods: seq<string>,
                seedRate: real, stored: Stored)
      ensures State() == TripState(seedItinerary, seedExpenses, seedFoods, seedRate, map[])
      ensures !showSaveToast && daysUntilTrip == 0 && storage == stored
    {
      itinerary, expenses, foodList, exchangeRate, packedItems := seedItinerary, seedExpenses, seedFoods, seedRate, map[];
      showSaveToast, daysUntilTrip, storage := false, 0, stored;
    }

    /**
     * The mount effect: load what the storage slot holds (a missing or unparsable value changes
     * nothing), then set the day count from `difference = targetDate - now`.
     */
    method Mount(difference: int)
      modifies this
      ensures State() == Restore(old(State()), storage)
      ensures daysUntilTrip == DaysUntil(difference)
      ensures showSaveToast == old(showSaveToast) && storage == old(storage)
    {
      var r := Restore(State(), storage);
      itinerary, expenses, foodList, exchangeRate, packedItems := r.itinerary, r.expenses, r.foodList, r.exchangeRate, r.packedItems;
      daysUntilTrip := DaysUntil(difference);
    }

    /** `handleSaveData`: the snapshot of the five fields goes to storage and the toast shows. */
    method SaveData()
      modifies this
      ensures storage == Json(Snapshot(State()))
      ensures showSaveToast
      ensures State() == old(State()) && daysUntilTrip == old(daysUntilTrip)
    {
      storage := Json(Snapshot(State()));
      showSaveToast := true;
    }

    /** The 2500 ms toast timer firing. */
    method HideToast()
      modifies this
      ensures !showSaveToast
      ensures State() == old(State()) && daysUntilTrip == old(daysUntilTrip) && storage == old(storage)
    {
      showSaveToast := false;
    }

    method AddItineraryItem(target: string, item: ItineraryItem)
      modifies this
      ensures State() == old(State()).(itinerary := AddItem(old(itinerary), target, item))
      ensures showSaveToast == old(showSaveToast) && daysUntilTrip == old(daysUntilTrip) && storage == old(storage)
    {
      itinerary := AddItem(itinerary, target, item);
    }

    method UpdateItineraryItem(target: string, index: int, item: ItineraryItem)
      modifies this
      ensures State() == old(State()).(itinerary := UpdateItem(old(itinerary), target, index, item))
      ensures showSaveToast == old(showSaveToast) && daysUntilTrip == old(daysUntilTrip) && storage == old(storage)
    {
      itinerary := UpdateDays(itinerary, target, index, item);
    }

    method DeleteItineraryItem(target: string, index: int)
      modifies this
      ensures State() == old(State()).(itinerary := DeleteItem(old(itinerary), target, index))
      ensures showSaveToast == old(showSaveToast) && daysUntilTrip == old(daysUntilTrip) && storage == old(storage)
    {
      itinerary := DeleteItem(itinerary, target, index);
    }

    /** `handleAddFood`; a list without duplicates stays so. */
    method AddFood(food: string)
      modifies this
      ensures State() == old(State()).(foodList := StoreOps.AddFood(old(foodList), food))
      ensures NoDuplicates(old(foodList)) ==> NoDuplicates(foodList)
      ensures showSaveToast == old(showSaveToast) && daysUntilTrip == old(daysUntilTrip) && storage == old(storage)
    {
      if NoDuplicates(foodList) {
        FoodListStaysDistinct(foodList, food, food);
      }
      foodList := StoreOps.AddFood(foodList, food);
    }

    method DeleteFood(food: string)
      modifies this
      ensures State() == old(State()).(foodList := StoreOps.DeleteFood(old(foodList), food))
      ensures NoDuplicates(old(foodList)) ==> NoDuplicates(foodList)
      ensures showSaveToast == old(showSaveToast) && daysUntilTrip == old(daysUntilTrip) && storage == old(storage)
    {
      if NoDuplicates(foodList) {
        FoodListStaysDistinct(foodList, food, food);
      }
      foodList := StoreOps.DeleteFood(foodList, food);
    }

    method AddExpense(rec: ExpenseRecord)
      modifies this
      ensures State() == old(State()).(expenses := StoreOps.AddExpense(old(expenses), rec))
      ensures showSaveToast == old(showSaveToast) && daysUntilTrip == old(daysUntilTrip) && storage == old(storage)
    {
      expenses := StoreOps.AddExpense(expenses, rec);
    }

    method DeleteExpense(id: string)
      modifies this
      ensures State() == old(State()).(expenses := StoreOps.DeleteExpense(old(expenses), id))
      ensures showSaveToast == old(showSaveToast) && daysUntilTrip == old(daysUntilTrip) && storage == old(storage)
    {
      expenses := StoreOps.DeleteExpense(expenses, id);
    }

    /** `onExchangeRateChange`: the rate the tracker's input parsed with `Number`. */
    method SetExchangeRate(rate: real)
      modifies this
      ensures State() == old(State()).(exchangeRate := rate)
      ensures showSaveToast == old(showSaveToast) && daysUntilTrip == old(daysUntilTrip) && storage == old(storage)
    {
      exchangeRate := rate;
    }

    method TogglePackingItem(item: string)
      modifies this
      ensures State() == old(State()).(packedItems := Toggle(old(packedItems), item))
      ensures showSaveToast == old(showSaveToast) && daysUntilTrip == old(daysUntilTrip) && storage == old(storage)
    {
      packedItems := Toggle(packedItems, item);
    }
  }

  /** The store `App.tsx` renders with: its `useState` values are the seed of `constants.ts`. */
  method NewTripStore(stored: Stored) returns (store: TripStore)
    ensures fresh(store)
    ensures store.State() == TripState(SeedData.Itinerary, SeedData.InitialExpenses, SeedData.FoodList,
      SeedData.CurrencyRate, map[])
    ensures !store.showSaveToast && store.daysUntilTrip == 0 && store.storage == stored
  {
    store := new TripStore(SeedData.Itinerary, SeedData.InitialExpenses, SeedData.FoodList,
      SeedData.CurrencyRate, stored);
  }

  /** Saving and then mounting again gives back the saved state (a saved rate of 0 aside). */
  method SaveThenReload(store: TripStore, difference: int)
    modifies store
    ensures old(store.exchangeRate) != 0.0 ==> store.State() == old(store.State())
    ensures store.daysUntilTrip == DaysUntil(difference)
  {
    store.SaveData();
    store.Mount(difference);
    RestoreSnapshot(old(store.State()), old(store.State()));
  }

  /** The component state of `components/App.tsx`: no packing list and no day count. */
  class PlannerStore {
    var itinerary: seq<DayPlan>
    var expenses: seq<ExpenseRecord>
    var foodList: seq<string>
    var exchangeRate: real
    var showSaveToast: bool
    var storage: Stored

    function State(): PlannerState
      reads this
    {
      PlannerState(itinerary, expenses, foodList, exchangeRate)
    }

    constructor(seedItinerary: seq<DayPlan>, seedExpenses: seq<ExpenseRecord>, seedFoods: seq<string>,
                seedRate: real, stored: Stored)
      ensures State() == PlannerState(seedItinerary, seedExpenses, seedFoods, seedRate)
      ensures !showSaveToast && storage == stored
    {
      itinerary, expenses, foodList, exchangeRate := seedItinerary, seedExpenses, seedFoods, seedRate;
      showSaveToast, storage := false, stored;
    }

    /** The mount effect: load the four fields from storage. */
    method Mount()
      modifies this
      ensures State() == PlannerRestore(old(State()), storage)
      ensures showSaveToast == old(showSaveToast) && storage == old(storage)
    {
      var r := PlannerRestore(State(), storage);
      itinerary, expenses, foodList, exchangeRate := r.itinerary, r.expenses, r.foodList, r.exchangeRate;
    }

    method SaveData()
      modifies this
      ensures storage == Json(PlannerSnapshot(State()))
      ensures showSaveToast && State() == old(State())
    {
      storage := Json(PlannerSnapshot(State()));
      showSaveToast := true;
    }

    method HideToast()
      modifies this
      ensures !showSaveToast && State() == old(State()) && storage == old(storage)
    {
      showSaveToast := false;
    }

    method AddItineraryItem(target: string, item: ItineraryItem)
      modifies this
      ensures State() == old(State()).(itinerary := AddItem(old(itinerary), target, item))
      ensures showSaveToast == old(showSaveToast) && storage == old(storage)
    {
      itinerary := AddItem(itinerary, target, item);
    }

    method UpdateItineraryItem(target: string, index: int, item: ItineraryItem)
      modifies this
      ensures State() == old(State()).(itinerary := UpdateItem(old(itinerary), target, index, item))
      ensures showSaveToast == old(showSaveToast) && storage == old(storage)
    {
      itinerary := UpdateDays(itinerary, target, index, item);
    }

    method DeleteItineraryItem(target: string, index: int)
      modifies this
      ensures State() == old(State()).(itinerary := DeleteItem(old(itinerary), target, index))
      ensures showSaveToast == old(showSaveToast) && storage == old(storage)
    {
      itinerary := DeleteItem(itinerary, target, index);
    }

    method AddFood(food: string)
      modifies this
      ensures State() == old(State()).(foodList := StoreOps.AddFood(old(foodList), food))
      ensures showSaveToast == old(showSaveToast) && storage == old(storage)
    {
      foodList := StoreOps.AddFood(foodList, food);
    }

    method DeleteFood(food: string)
      modifies this
      ensures State() == old(State()).(foodList := StoreOps.DeleteFood(old(foodList), food))
      ensures showSaveToast == old(showSaveToast) && storage == old(storage)
    {
      foodList := StoreOps.DeleteFood(foodList, food);
    }

    method AddExpense(rec: ExpenseRecord)
      modifies this
      ensures State() == old(State()).(expenses := StoreOps.AddExpense(old(expenses), rec))
      ensures showSaveToast == old(showSaveToast) && storage == old(storage)
    {
      expenses := StoreOps.AddExpense(expenses, rec);
    }

    method DeleteExpense(id: string)
      modifies this
      ensures State() == old(State()).(expenses := StoreOps.DeleteExpense(old(expenses), id))
      ensures showSaveToast == old(showSaveToast) && storage == old(storage)
    {
      expenses := StoreOps.DeleteExpense(expenses, id);
    }

    method SetExchangeRate(rate: real)
      modifies this
      ensures State() == old(State()).(exchangeRate := rate)
      ensures showSaveToast == old(showSaveToast) && storage == old(storage)
    {
      exchangeRate := rate;
    }
  }
}
