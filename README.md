# Trip planner: a verified model of its state logic

The repository is a single-user planner for an eight-day trip to Tokyo, written as React
components in TypeScript. This project models the logic under its screens in Dafny:

- the trip store of `App.tsx` and its four-field variant in `components/App.tsx`, with handlers
  for the itinerary (add and sort, replace and sort, delete), the food list, the expense ledger,
  the exchange rate and the packing map, and the load and save rule for browser storage;
- the itinerary editor form of `components/DayCard.tsx`;
- the expense ledger analytics and its add form in both `ExpenseTracker.tsx` files;
- the geometry and the state machine of the food roulette in `components/FoodRoulette.tsx`;
- the departure countdown in both `Header.tsx` files, and the day count and progress bar of `App.tsx`;
- the derived counters: packing progress, planning progress, and the trim-and-reject-blank rule
  of the food tags.

The model is organised as follows:

- Values are datatypes (`TripTypes`).
- The pure transforms are functions (`Itinerary`, `StoreOps`, `Persistence`, `ExpenseTracker`,
  `PackingList`, `StatsCard`, `FoodTags.Submitted`).
- Each component whose handlers overwrite state fields is a class:
  - `AppStore.TripStore` and `AppStore.PlannerStore`;
  - `DayCard.ItemForm`;
  - `ExpenseTracker.Tracker`;
  - `FoodRoulette.Wheel`;
  - `Countdown.Header`;
  - `FoodTags.TagForm`.
- Their methods state the whole new state.
- The in-place `sort()` of the update handler is an insertion sort on an array (`TimeSort.SortInPlace`).
- The dictionary loop that builds the expense chart is a `while` loop (`ExpenseTracker.ChartData`).

Each of these is proved equal to a specification function. The properties are proved about that function:

- sorted;
- stable;
- a permutation;
- first-occurrence order;
- sums;
- round trips.

Assumptions the model makes about the platform:

- `localeCompare` and the `<` on date strings are taken to be lexicographic order of UTF-16 code units (`JsText.LessEq`).
- `Math.round(x)` is `floor(x + 0.5)`.
- JavaScript's `%` on numbers truncates toward zero (`JsMath.Remainder`).
- Amounts are integers and rates and angles are reals.
- Clock readings, random draws, `window.confirm` answers and `Number(...)` results are parameters.
- Timer firings are explicit methods, such as `Wheel.Settle` and `TripStore.HideToast`.

## Model

| member | source | states |
|---|---|---|
| TripTypes.AllCategoriesComplete | types.ts:43 | the expense categories are exactly seven distinct values |
| TimeSort.SortByTime | App.tsx:84 | the sorted items are a permutation of the input, of the same length |
| TimeSort.SortByTimeSorted | App.tsx:84 | the result of the sort is in non-decreasing time order |
| TimeSort.SortByTimeStable | App.tsx:84 | items with equal times keep their relative order (a stable sort) |
| TimeSort.SortByTimeIsStableSort | components/App.tsx:68 | the sort of the add handler is a stable sort by time |
| TimeSort.StableSortUnique | App.tsx:96 | a sequence is a stable sort of `s` exactly when it equals `SortByTime(s)`, so any stable engine gives this result |
| TimeSort.SortByTimeOfSorted | App.tsx:96 | sorting an already sorted day changes nothing |
| TimeSort.InsertKeepsSorted | App.tsx:84 | inserting after the last item not later than the new one keeps a sorted day sorted |
| TimeSort.SortInPlace | App.tsx:94-96 | the in-place sort of the copied array leaves exactly `SortByTime` of its old contents |
| TimeSort.InsertAt | App.tsx:96 | one insertion step shifts the sorted prefix and places element `i` by time |
| JsText.LessEq | App.tsx:84 | the comparison puts a prefix at or before the longer string, and a string that is both a prefix and not later is the same string |
| JsText.LessEqTotal | App.tsx:84 | the code-unit order compares any two strings |
| JsText.LessEqAntisymmetric | App.tsx:84 | strings that compare both ways are equal |
| JsText.LessEqTransitive | components/App.tsx:80 | the code-unit order is transitive |
| JsText.Trim | components/FoodTags.tsx:16 | the trimmed text does not start or end with ECMAScript whitespace |
| JsText.TrimEmpty | components/FoodTags.tsx:16 | the trimmed text is empty exactly when the input is all whitespace |
| JsText.TrimIdempotent | tokyo-trip-2026/components/FoodTags.tsx:17-18 | trimming twice is trimming once |
| JsText.TrimDecomposes | components/FoodTags.tsx:17 | the input is its trimmed form with a whitespace prefix and a whitespace suffix |
| JsMath.Round | components/ExpenseTracker.tsx:66 | the rounded value is within one half of `x`, halves going up |
| JsMath.RoundUnique | components/ExpenseTracker.tsx:388 | the integer within one half of `x` is the rounded value, so the bounds determine it |
| JsMath.Remainder | components/FoodRoulette.tsx:61 | the truncating remainder has the sign of `x` and its magnitude is below `m` |
| JsMath.Modulo | components/FoodRoulette.tsx:61 | the Euclidean representative lies in `[0, m)` |
| JsMath.Percent | components/PackingList.tsx:94 | the rounded percentage `p` satisfies `(p - 0.5) * whole <= 100 * part < (p + 0.5) * whole` |
| JsMath.PercentEnds | components/PackingList.tsx:94 | for a part of a whole below 200 the percentage is in `[0, 100]`, 0 exactly for an empty part and 100 exactly for the whole |
| JsMath.PercentMonotone | tokyo-trip-2026/components/PackingList.tsx:27 | a larger part never gives a smaller percentage |
| Itinerary.AddToDay | App.tsx:83-85 | the day's items become a stable time sort of the old items plus the new one, one longer, with the same multiset plus the new item; the status becomes Planned and no other field changes |
| Itinerary.AddItem | App.tsx:81-89 | the day list keeps its length and every label, and a day with another label is unchanged |
| Itinerary.AddItemEffect | App.tsx:81-89 | every day with the target label gets the sorted, extended items and status Planned, keeping label, date, theme and icon; every other day is unchanged |
| Itinerary.AddItemNoMatch | components/App.tsx:65-73 | with no day of that label the itinerary is unchanged |
| Itinerary.Assigned | App.tsx:94-95 | `newItems[index] = item` replaces position `index` of a valid index, leaves the array as it was for a negative index, and appends for `index == length` or more |
| Itinerary.UpdateItems | App.tsx:94-96 | the updated items are a stable time sort of the assigned copy |
| Itinerary.UpdatedItems | App.tsx:94-96 | the copy, the assignment and the in-place sort give `UpdateItems` |
| Itinerary.UpdateDays | App.tsx:91-101 | the handler's `map` over the days gives `UpdateItem` |
| Itinerary.UpdateItem | App.tsx:91-101 | the day list keeps its length and every label, and a day with another label is unchanged |
| Itinerary.UpdateItemEffect | App.tsx:91-101 | with a valid index the target days end sorted, as a permutation of the items with position `index` replaced, with the same length; status and every other field are kept; other days are unchanged |
| Itinerary.UpdateItemNoMatch | components/App.tsx:75-85 | with no day of that label the itinerary is unchanged |
| Itinerary.UpdateSameItem | App.tsx:95-96 | writing an item back to its own position of a sorted day changes nothing |
| Itinerary.DeleteAt | App.tsx:106 | the kept items are a subsequence; a valid index removes exactly that item, and any other index removes nothing |
| Itinerary.DeleteAtPositions | App.tsx:106 | after removing position `index`, the items before it keep their positions and the later ones move down by one |
| Itinerary.DeleteItem | App.tsx:103-111 | the day list keeps its length and every label, and a day with another label is unchanged |
| Itinerary.DeleteItemEffect | App.tsx:103-111 | the target days lose the item at a valid index, keep their items for an invalid one, and keep their status even if now empty; other days are unchanged |
| Itinerary.DeleteItemNoMatch | components/App.tsx:87-95 | with no day of that label the itinerary is unchanged |
| StoreOps.AddFood | App.tsx:124-128 | the name is in the result; a present name leaves the list as it was and an absent name is appended |
| StoreOps.AddFoodIdempotent | components/App.tsx:108-112 | adding a name twice is adding it once |
| StoreOps.AddFoodOnce | App.tsx:125-126 | a newly added name occurs exactly once |
| StoreOps.DeleteFood | App.tsx:130-132 | the name is gone, the survivors are a subsequence in their order, every other name stays with all its copies, and an absent name is a no-op |
| StoreOps.FoodListStaysDistinct | components/App.tsx:108-116 | adding and deleting keep a list without duplicates without duplicates |
| StoreOps.AddThenDeleteFood | App.tsx:124-132 | deleting a name just added to a list without it gives the list back |
| StoreOps.AddExpense | App.tsx:135-137 | the record is prepended in front of the old ledger |
| StoreOps.DeleteExpense | App.tsx:139-141 | no record with the id remains, the rest keep their order, every record with another id stays with all its copies, and an absent id is a no-op |
| StoreOps.AddThenDeleteExpense | components/App.tsx:119-125 | deleting by the id of a record just prepended, with a fresh id, gives the old ledger |
| StoreOps.Toggle | App.tsx:144-149 | the toggled key flips, absent meaning false, and every other key keeps its presence and value |
| StoreOps.ToggleTwice | App.tsx:144-149 | toggling a key twice restores every key's checked state |
| StoreOps.PackedKeys | components/PackingList.tsx:93 | the packed keys are keys of the map, and they are all of its keys exactly when every value is true |
| StoreOps.PackedCount | components/PackingList.tsx:93 | the packed count is at most the number of keys |
| StoreOps.ToggleCount | components/PackingList.tsx:93 | toggling a checked key lowers the count by one and an unchecked key raises it by one |
| Persistence.ApplyRate | App.tsx:48 | a present non-zero rate replaces the field, and a missing or zero rate keeps it |
| Persistence.Snapshot | App.tsx:65-73 | the saved object carries all five fields |
| Persistence.Restore | App.tsx:40-53 | missing or unparsable storage leaves the state unchanged |
| Persistence.RestoreFieldwise | App.tsx:44-49 | each field of a parsed object is applied independently of the others |
| Persistence.RestoreSnapshot | App.tsx:40-73 | loading what was saved gives the saved state back, except that a saved rate of 0 is not taken |
| Persistence.PlannerSnapshot | components/App.tsx:50-57 | the saved object carries exactly four fields and no packing map |
| Persistence.PlannerRestore | components/App.tsx:34-47 | missing or unparsable storage leaves the state unchanged |
| Persistence.PlannerRestoreSnapshot | components/App.tsx:34-57 | the four-field save and load round trip, a saved rate of 0 aside |
| Persistence.SharedKeyCompatibility | components/App.tsx:38-42 | both variants use the same key: the planner loads the trip store's save, ignoring its packing map, and the trip store keeps its packing map when loading the planner's save |
| AppStore.TripStore.constructor | App.tsx:27-34 | the initial state is the given seed, an empty packing map, no toast and zero days |
| AppStore.NewTripStore | App.tsx:27-34 | the store starts from the seed of `constants.ts`: its itinerary, empty ledger, food list and rate 0.215, with an empty packing map, no toast and zero days |
| AppStore.TripStore.Mount | App.tsx:40-61 | the state becomes `Restore` of the stored value and the day count becomes `DaysUntil(difference)` |
| AppStore.TripStore.SaveData | App.tsx:65-77 | storage holds the five-field snapshot, the toast shows, and the state is unchanged |
| AppStore.TripStore.HideToast | App.tsx:77 | the toast hides and nothing else changes |
| AppStore.TripStore.AddItineraryItem | App.tsx:81-89 | only the itinerary changes, to `AddItem` of the old one |
| AppStore.TripStore.UpdateItineraryItem | App.tsx:91-101 | only the itinerary changes, to `UpdateItem` of the old one |
| AppStore.TripStore.DeleteItineraryItem | App.tsx:103-111 | only the itinerary changes, to `DeleteItem` of the old one |
| AppStore.TripStore.AddFood | App.tsx:124-128 | only the food list changes, and a list without duplicates keeps none |
| AppStore.TripStore.DeleteFood | App.tsx:130-132 | only the food list changes, and a list without duplicates keeps none |
| AppStore.TripStore.AddExpense | App.tsx:135-137 | only the ledger changes, with the record prepended |
| AppStore.TripStore.DeleteExpense | App.tsx:139-141 | only the ledger changes, filtered by id |
| AppStore.TripStore.SetExchangeRate | App.tsx:282 | only the rate changes, to the parsed input |
| AppStore.TripStore.TogglePackingItem | App.tsx:144-149 | only the packing map changes, by `Toggle` |
| AppStore.SaveThenReload | App.tsx:40-73 | saving and then mounting again restores the state whenever the rate is non-zero |
| AppStore.PlannerStore.constructor | components/App.tsx:23-28 | the initial state is the seed data and no toast |
| AppStore.PlannerStore.Mount | components/App.tsx:34-47 | the state becomes `PlannerRestore` of the stored value |
| AppStore.PlannerStore.SaveData | components/App.tsx:50-61 | storage holds the four-field snapshot, the toast shows, and the state is unchanged |
| AppStore.PlannerStore.HideToast | components/App.tsx:61 | the toast hides and nothing else changes |
| AppStore.PlannerStore.AddItineraryItem | components/App.tsx:65-73 | only the itinerary changes, to `AddItem` of the old one |
| AppStore.PlannerStore.UpdateItineraryItem | components/App.tsx:75-85 | only the itinerary changes, to `UpdateItem` of the old one |
| AppStore.PlannerStore.DeleteItineraryItem | components/App.tsx:87-95 | only the itinerary changes, to `DeleteItem` of the old one |
| AppStore.PlannerStore.AddFood | components/App.tsx:108-112 | only the food list changes, by `AddFood` |
| AppStore.PlannerStore.DeleteFood | components/App.tsx:114-116 | only the food list changes, by `DeleteFood` |
| AppStore.PlannerStore.AddExpense | components/App.tsx:119-121 | only the ledger changes, with the record prepended |
| AppStore.PlannerStore.DeleteExpense | components/App.tsx:123-125 | only the ledger changes, filtered by id |
| AppStore.PlannerStore.SetExchangeRate | components/App.tsx:253 | only the rate changes, to the parsed input |
| DayCard.MainItems | components/DayCard.tsx:28 | the main items are the order-preserving subsequence of items not marked as backup |
| DayCard.BackupItems | components/DayCard.tsx:29 | the backup items are the order-preserving subsequence of items marked as backup |
| DayCard.SplitPartition | components/DayCard.tsx:28-29 | the two lists partition the day: their multisets add up to the day's, and an item is in exactly one of them, a missing flag counting as main |
| DayCard.IndexOf | components/DayCard.tsx:42 | `indexOf` gives the first position of the item, or -1 exactly when it is absent |
| DayCard.IndexOfDistinct | components/DayCard.tsx:53 | in a day without duplicates the found index is the item's own position |
| DayCard.BuildItem | components/DayCard.tsx:62-67 | the saved item copies the activity, uses 待定 for an empty time and 自訂行程 for an empty detail, and carries the backup toggle |
| DayCard.SaveOutcome | components/DayCard.tsx:59-73 | nothing happens exactly for an empty activity; otherwise an update happens at the remembered index when editing, and an add happens otherwise, always with the built item |
| DayCard.ItemForm.constructor | components/DayCard.tsx:17-22 | the form starts closed and empty |
| DayCard.ItemForm.StartAdd | components/DayCard.tsx:31-38 | the form opens empty, with no edit index |
| DayCard.ItemForm.StartEdit | components/DayCard.tsx:40-50 | the form opens with the item's fields, `indexOf` as the edit index, and a missing backup flag loaded as false |
| DayCard.ItemForm.Delete | components/DayCard.tsx:52-57 | a confirmed delete requests the `indexOf` position, and a refused one requests nothing |
| DayCard.ItemForm.SaveEnabled | components/DayCard.tsx:295 | the save button is enabled exactly when the save handler would make a request |
| DayCard.ItemForm.Save | components/DayCard.tsx:59-82 | the request is `SaveOutcome` of the form, and a request is made exactly when the button was enabled; with an activity the form closes and resets, and without one nothing changes |
| DayCard.ItemForm.Cancel | components/DayCard.tsx:84-87 | the form closes and drops the edit index, keeping the typed fields |
| DayCard.ApplyToItems | components/DayCard.tsx:55 | no request leaves the day's items unchanged |
| DayCard.StaleEditIndex | components/DayCard.tsx:42-45 | with items `[a, b]`, editing `b`, deleting `a` and then saving `b` leaves `[b, b]` |
| DayCard.StaleEditIndexDuplicates | components/DayCard.tsx:69-70 | a concrete instance of the stale index duplicating an item |
| DayCard.ResolvedSaveOutcome | components/DayCard.tsx:59-73 | a save that looks the edited item up at save time updates only a position that holds that item |
| DayCard.ResolvedSaveReplaces | components/DayCard.tsx:69-70 | with the index resolved at save time, editing an item keeps the day's length and replaces exactly that item, sorted |
| ExpenseTracker.InDateRange | components/ExpenseTracker.tsx:56-62 | with both bounds empty every date passes, and with an end before the start no date passes |
| ExpenseTracker.FilterByDate | components/ExpenseTracker.tsx:56-62 | the shown records are an order-preserving subsequence; a record is kept exactly when it is after an empty or not-later start and before an empty or not-earlier end, with every copy of a kept record kept; with both bounds empty everything is kept |
| ExpenseTracker.Total | components/ExpenseTracker.tsx:65 | the total of no records is 0, and with non-negative amounts it is non-negative and at least each amount |
| ExpenseTracker.TotalAppend | components/ExpenseTracker.tsx:65 | the total of a concatenation is the sum of the totals |
| ExpenseTracker.TotalBounds | tokyo-trip-2026/components/ExpenseTracker.tsx:65 | amounts within `[lo, hi]` give a total between `n * lo` and `n * hi` |
| ExpenseTracker.ToTWD | components/ExpenseTracker.tsx:66 | the TWD value is within one half of yen times rate |
| ExpenseTracker.ToTWDMonotone | components/ExpenseTracker.tsx:321 | at a non-negative rate more yen never converts to fewer TWD |
| ExpenseTracker.ToTWDAtSeedRate | components/ExpenseTracker.tsx:367 | 1200 yen at the seed rate 0.215 shows as NT$ 258 |
| ExpenseTracker.Average | components/ExpenseTracker.tsx:388 | the average is 0 for no records and otherwise within one half of total divided by count |
| ExpenseTracker.AverageWithinAmounts | tokyo-trip-2026/components/ExpenseTracker.tsx:387 | the average lies between the smallest and the largest amount |
| ExpenseTracker.ChartDataMeaning | components/ExpenseTracker.tsx:68-78 | the chart has an entry exactly for each category present, in first-occurrence order, each holding its category's sum, and the values add up to the total |
| ExpenseTracker.BucketsDistinct | tokyo-trip-2026/components/ExpenseTracker.tsx:68-78 | no category has two chart entries |
| ExpenseTracker.BucketsSum | components/ExpenseTracker.tsx:65-78 | the chart values add up to `totalJPY` |
| ExpenseTracker.ChartData | components/ExpenseTracker.tsx:69-73 | the dictionary loop and `Object.entries` give exactly `Buckets` of the records |
| ExpenseTracker.DictionaryStep | components/ExpenseTracker.tsx:71 | one turn of the loop adds one record to the entries, in first-insertion order of the keys |
| ExpenseTracker.Tracker.constructor | components/ExpenseTracker.tsx:42-53 | the form starts closed, with empty filters and the default category, payer and date |
| ExpenseTracker.Tracker.Shown | components/ExpenseTracker.tsx:56-62 | with empty filters the shown list is the whole ledger |
| ExpenseTracker.Tracker.ClearFilters | components/ExpenseTracker.tsx:172 | both bounds become empty and nothing else changes |
| ExpenseTracker.Tracker.Submit | components/ExpenseTracker.tsx:80-97 | an empty item or amount text gives no record and no change; otherwise exactly one record is built from the form, item and amount are cleared, the form closes, and date, category and payer stay |
| FoodRoulette.SliceAngle | components/FoodRoulette.tsx:31 | the slice angle is positive and `n` slices make 360 degrees |
| FoodRoulette.WinningIndex | components/FoodRoulette.tsx:40 | the winner index lies in `[0, n)` for a draw in `[0, 1)` |
| FoodRoulette.SliceIndex | components/FoodRoulette.tsx:145 | an angle in `[0, 360)` lies in the slice `[i * s, (i + 1) * s)` that the gradient paints for index `i` |
| FoodRoulette.SliceIndexUnique | components/FoodRoulette.tsx:145 | an angle is in only one slice |
| FoodRoulette.SlicesTile | components/FoodRoulette.tsx:145 | the last slice ends at 360 degrees |
| FoodRoulette.JitterBounds | components/FoodRoulette.tsx:54-55 | the jitter is at least -0.4 slice and below 0.4 slice |
| FoodRoulette.TargetRotation | components/FoodRoulette.tsx:45-56 | the target lies in `(0, 360)` and turns a point between 10% and 90% of the winner's slice to the top |
| FoodRoulette.PointerAngle | components/FoodRoulette.tsx:143 | the angle under the pointer lies in `[0, 360)` |
| FoodRoulette.PointerInWinnerSlice | components/FoodRoulette.tsx:45-67 | a rotation congruent to the target puts the pointer strictly inside the winner's slice, at least a tenth of a slice from its edges |
| FoodRoulette.FinalCongruent | components/FoodRoulette.tsx:60-67 | the forward difference is in `[0, 360)` and the final rotation is congruent to the target |
| FoodRoulette.Wheel.constructor | components/FoodRoulette.tsx:24-26 | the wheel starts at rotation 0, not spinning, with no winner |
| FoodRoulette.Wheel.Spin | components/FoodRoulette.tsx:33-76 | while spinning or with no food nothing changes; otherwise the wheel spins with no winner shown and the winner `foodList[WinningIndex]` held, the rotation is congruent to the target and between 1800 and 2160 degrees further on, and it never goes negative |
| FoodRoulette.Wheel.Settle | components/FoodRoulette.tsx:72-75 | the timeout stops the spin and shows the winner captured at spin time |
| FoodRoulette.FourFoodsExample | components/FoodRoulette.tsx:40-67 | four foods and a draw of 0.6 pick the third, whose centre ends under the pointer |
| Countdown.Decompose | components/Header.tsx:15-21 | hours, minutes and seconds are in their clock ranges, and the recomposed milliseconds are at most `d` and less than one second below it |
| Countdown.DecomposeBounds | tokyo-trip-2026/components/Header.tsx:17-20 | the recomposition bounds hold for the integer floor-and-modulo fields |
| Countdown.DecomposeUnique | components/Header.tsx:17-20 | only one in-range decomposition is within a second below `d` |
| Countdown.DecomposeMatchesNumberArithmetic | components/Header.tsx:17-20 | the fields equal the floating expressions of the source, with truncating `%` on the quotients |
| Countdown.Header.constructor | components/Header.tsx:6 | the countdown starts at all zeros |
| Countdown.Header.Tick | components/Header.tsx:11-23 | a positive difference sets the decomposition and a non-positive one leaves the state unchanged |
| Countdown.DaysUntil | App.tsx:56-60 | the day count is 0 for a non-positive difference and otherwise the ceiling of the difference in days |
| Countdown.ProgressWidth | App.tsx:206 | the bar width is clamped to `[5, 100]` |
| Countdown.ProgressWidthEnds | App.tsx:206 | the bar is full exactly at 0 days and at its floor exactly from 347 days |
| PackingList.TotalItems | components/PackingList.tsx:92 | the reduce over category lengths counts every row of the checklist |
| PackingList.CatalogTotals | tokyo-trip-2026/components/PackingList.tsx:11-16 | the catalogues have 41 and 24 rows |
| PackingList.DefaultCategoriesDistinct | components/PackingList.tsx:11-83 | no category of the 41-row catalogue names a row twice |
| PackingList.TokyoCategoriesDistinct | tokyo-trip-2026/components/PackingList.tsx:11-16 | no category of the 24-row catalogue names a row twice |
| PackingList.DefaultListDistinct | components/PackingList.tsx:11-83 | no name appears twice anywhere in the 41-row catalogue |
| PackingList.TokyoListDistinct | tokyo-trip-2026/components/PackingList.tsx:11-16 | no name appears twice anywhere in the 24-row catalogue |
| PackingList.Progress | components/PackingList.tsx:94 | the progress is non-negative; when every packed key is a catalogue row it is at most 100, 0 exactly when nothing is packed and 100 exactly when all is packed |
| PackingList.ProgressAfterToggle | tokyo-trip-2026/components/PackingList.tsx:26-27 | packing one more row never lowers the progress |
| PackingList.PackedWithinCatalog | components/PackingList.tsx:93 | if only catalogue rows are packed, the count is at most the number of rows |
| PackingList.Rows | components/PackingList.tsx:124 | each row shows a tick exactly when its name maps to true |
| PackingList.ClickRow | components/PackingList.tsx:128 | clicking a row flips its tick and leaves rows with other names as they were |
| PackingList.ClickRowDistinct | tokyo-trip-2026/components/PackingList.tsx:61 | in a category without duplicate names a click changes only its own row |
| PackingList.ClickRowOtherCategory | components/PackingList.tsx:128 | a click leaves every row of a category that shares no name with the clicked one as it was |
| PackingList.ClickDefaultRow | components/PackingList.tsx:124-128 | in the 41-row catalogue a click changes no row but the clicked one, in any category |
| PackingList.ClickTokyoRow | tokyo-trip-2026/components/PackingList.tsx:61 | in the 24-row catalogue a click changes no row but the clicked one, in any category |
| StatsCard.PlannedDays | components/StatsCard.tsx:8 | the planned count is the total minus the unplanned days, and equals the total exactly when every day is Planned |
| StatsCard.Progress | components/StatsCard.tsx:9 | the progress is in `[0, 100]`; for fewer than 200 days it is 0 exactly with no planned day and 100 exactly with all planned |
| StatsCard.ChartData | tokyo-trip-2026/components/StatsCard.tsx:11-14 | the chart has a Planned and a Remaining slice, both non-negative and summing to the number of days |
| StatsCard.AllEightPlanned | constants.ts:29-134 | eight planned days give 100 percent and an empty Remaining slice |
| StatsCard.FiveOfEightPlanned | tokyo-trip-2026/constants.ts:84-86 | days 5 to 7 unplanned give 5 planned days of 8 and a rounded 63 percent |
| StatsCard.RootSeedStats | components/StatsCard.tsx:7-9 | over the repository's seed itinerary the card shows 8 days planned and 100 percent |
| StatsCard.TokyoSeedStats | tokyo-trip-2026/components/StatsCard.tsx:7-9 | over the copy's seed itinerary the card shows 5 days planned and 63 percent |
| DepartureDay.SeedDayUnsorted | constants.ts:128-131 | the seed's departure day is not in time order as written |
| DepartureDay.MorningAfterClock | constants.ts:128 | the time 上午 sorts after any time starting with a digit |
| DepartureDay.MorningSortsLast | App.tsx:84 | sorting a day that opens with 上午 and has clock times otherwise moves that row to the end |
| DepartureDay.AddingMovesCheckOutLast | constants.ts:128-131 | adding any clock-timed item to the departure day puts the check-out row last, after the flight |
| DepartureDay.ClockRank | constants.ts:128 | the corrected rank puts 上午 at or before every time and leaves every other time as it is |
| DepartureDay.ClockOrderKeepsCheckOutFirst | constants.ts:128-131 | in a day ordered by the corrected rank the check-out row comes before the flight |
| FoodTags.Submitted | components/FoodTags.tsx:16-17 | a submit hands on a name exactly when the input is not all whitespace, and the name is the trimmed input |
| FoodTags.SubmittedIsTrimmed | components/FoodTags.tsx:17-18 | the name handed on is non-empty, does not start or end with whitespace, and trimming it again changes nothing |
| FoodTags.SubmitThenAdd | tokyo-trip-2026/components/FoodTags.tsx:18 | the store then keeps the list for a known name and appends a new one, so it gains no blank or padded name |
| FoodTags.TagForm.constructor | components/FoodTags.tsx:11-12 | the form starts closed with empty text |
| FoodTags.TagForm.Open | components/FoodTags.tsx:76 | the form opens and keeps the text |
| FoodTags.TagForm.Edit | components/FoodTags.tsx:55 | the text becomes the input's value |
| FoodTags.TagForm.Close | components/FoodTags.tsx:68 | the form closes and keeps the text |
| FoodTags.TagForm.HandleAdd | tokyo-trip-2026/components/FoodTags.tsx:15-22 | it hands on `Submitted` of the text; after a hand-off the text is cleared and the form closes, and blank text changes nothing |
| FoodTags.DeleteTag | components/FoodTags.tsx:40 | deleting a tag removes every copy of its text, keeps all other names in order, and shortens the list |

## Left out

- The markup, styling, charts and icons, and the components that only show constant content: weather, logistics, info, links, footer, phrase card and falling sakura.
- `localStorage` and JSON: a load sees the parsed object as a record of present or absent properties (`Persistence.Saved`), or `Nothing` or `Unparsable`.
  - Saving is modelled as storing the snapshot itself, so the model assumes `JSON.parse(JSON.stringify(x))` gives `x` back.
  - A parsed property with the wrong type, or a non-object parse result, is not represented.
- `localeCompare` is modelled as code-unit order, not locale collation.
- `Date.now()` and `new Date()`: the difference to the departure time and the record id are parameters.
- `Math.random()`: the draws are parameters in `[0, 1)`.
- `window.confirm`: its answer is a parameter.
- `setTimeout` and `setInterval`: the timer firings are the methods `Wheel.Settle`, `TripStore.HideToast`, `PlannerStore.HideToast` and `Header.Tick`. Cancelling a timer on unmount is not modelled.
- IEEE-754 doubles. Angles, rates and the percentage quotients are exact reals, so rounding error is not modelled.
  - `Countdown.DecomposeMatchesNumberArithmetic` relates the integer decomposition to the exact real expressions, not to floating ones.
- `Number(...)` on the amount and rate inputs: the parsed value is a parameter (an integer amount, a real rate). NaN and non-numeric text are not represented.
- Itinerary.Assigned: for an index more than one past the end, JavaScript leaves holes in the array. The model appends at the end instead.
- DayCard.IndexOf: `indexOf` compares object references; the model compares item values. The two differ only for two equal-valued items, where the model finds the first.
- StatsCard.Progress requires a non-empty itinerary, since the card divides by the day count; the division by zero for an empty seed is not modelled. Its end equivalences are proved only for fewer than 200 days, as for `JsMath.PercentEnds`.
- PackingList.Progress requires a catalogue with rows. The upper and end bounds are proved only below 200 rows and only when every packed key is a catalogue row; a stale key from elsewhere can push the source's value above 100.
- `components/constants.ts`, imported by `components/App.tsx`, is not part of this model. The seed data are those of `constants.ts` and `tokyo-trip-2026/constants.ts`, transcribed in `SeedData`.
- `scrollToDay`, `window.open` and the fullscreen toggle of the roulette are DOM effects.

## Findings

| source | as written | input that shows it | evidently intended | confidence | as-written member | corrected member |
|---|---|---|---|---|---|---|
| components/DayCard.tsx:42-45 | the edit index is looked up with `indexOf` when editing starts and is used unchanged when saving | items `[a, b]`; start editing `b` (index 1); delete `a`; save `b` unchanged: the day becomes `[b, b]` | the save replaces the item being edited, wherever it now is | low: not executed, and it depends on a delete being reachable while the form is open | DayCard.StaleEditIndex | DayCard.ResolvedSaveReplaces |
| constants.ts:128 | the departure day's first row is timed 上午, and the handlers sort times by code units, where 上 (U+4E0A) comes after every digit | add any clock-timed item to D8: the sorted day ends with the morning check-out, after the 19:55 flight | the morning check-out stays before the afternoon and evening rows | medium: not executed; the order follows from the code-unit comparison | DepartureDay.AddingMovesCheckOutLast | DepartureDay.ClockOrderKeepsCheckOutFirst |
