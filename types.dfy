/** The app's record shapes. Optional properties are `Option`s; `None` is an absent property. */
module TripTypes {
  import opened Wrappers

  datatype ItineraryStatus = Planned | Unplanned

  /** One timed entry of a day. `isBackup` marks an alternate plan. */
  datatype ItineraryItem = ItineraryItem(
    time: string,
    activity: string,
    detail: string,
    isHighlight: Option<bool>,
    isBackup: Option<bool>)

  datatype DayPlan = DayPlan(
    dayLabel: string,
    date: string,
    theme: string,
    themeIcon: string,
    status: ItineraryStatus,
    items: seq<ItineraryItem>)

  datatype ExpenseCategory = Food | Transport | Shopping | Ticket | Accommodation | Other | Activity

  /** An expense; `amount` is in yen. */
  datatype ExpenseRecord = ExpenseRecord(
    id: string,
    date: string,
    item: string,
    category: ExpenseCategory,
    amount: int,
    payer: string)

  /** Consumers read `isBackup` as a JavaScript truthiness test, so an absent flag means "main plan". */
  predicate IsBackup(item: ItineraryItem) {
    item.isBackup == Some(true)
  }

  /** The seven categories, in declaration order. */
  const AllCategories: seq<ExpenseCategory> :=
    [Food, Transport, Shopping, Ticket, Accommodation, Other, Activity]

  lemma AllCategoriesComplete(c: ExpenseCategory)
    ensures c in AllCategories
    ensures |AllCategories| == 7
    ensures forall i, j :: 0 <= i < j < 7 ==> AllCategories[i] != AllCategories[j]
  {
  }
}
