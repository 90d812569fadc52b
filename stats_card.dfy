/**
 * The planning-progress card of `components/StatsCard.tsx` and
 * `tokyo-trip-2026/components/StatsCard.tsx`. Both read the static `ITINERARY_DATA` of their
 * own `constants.ts`, not the edited store state, and differ only in the Remaining slice's colour.
 */
module StatsCard {
  import opened TripTypes
  import opened Seqs
  import opened JsMath
  import SeedData

  function IsPlanned(d: DayPlan): bool {
    d.status == Planned
  }

  function IsUnplanned(d: DayPlan): bool {
    d.status == Unplanned
  }

  /** `plannedDays`: the days whose status is Planned. */
  function PlannedDays(days: seq<DayPlan>): (n: nat)
    ensures n <= |days|
    ensures n == |days| - |Filter(days, IsUnplanned)|
    ensures n == |days| <==> forall i :: 0 <= i < |days| ==> days[i].status == Planned
  {
    FilterPartition(days, IsPlanned, IsUnplanned);
    AllPlanned(days);
    |Filter(days, IsPlanned)|
  }

  lemma AllPlanned(days: seq<DayPlan>)
    ensures |Filter(days, IsPlanned)| == |days| <==> forall i :: 0 <= i < |days| ==> days[i].status == Planned
  {
    if |Filter(days, IsPlanned)| == |days| {
      FilterLength(days, IsPlanned);
      forall i | 0 <= i < |days| ensures days[i].status == Planned {
        FilterMembership(days, IsPlanned, days[i]);
      }
    }
  }

  /** A filter that keeps every element keeps its length only by keeping the sequence. */
  lemma {:induction false} FilterLength<T>(s: seq<T>, keep: T -> bool)
    requires |Filter(s, keep)| == |s|
    ensures Filter(s, keep) == s
  {
    if s != [] {
      if keep(s[0]) {
        FilterLength(s[1..], keep);
        assert s == [s[0]] + s[1..];
      }
    }
  }

  /** `progress = Math.round((plannedDays / totalDays) * 100)`. */
  function Progress(days: seq<DayPlan>): (p: int)
    requires |days| > 0
    ensures 0 <= p <= 100
    ensures |days| < 200 ==> (p == 0 <==> PlannedDays(days) == 0) && (p == 100 <==> PlannedDays(days) == |days|)
  {
    var p := Percent(PlannedDays(days), |days|);
    PercentBelowWhole(PlannedDays(days), |days|);
    if |days| < 200 then
      PercentEnds(PlannedDays(days), |days|);
      p
    else
      p
  }

  lemma PercentBelowWhole(part: nat, whole: nat)
    requires 0 < whole && part <= whole
    ensures Percent(part, whole) <= 100
  {
    PercentMonotone(part, whole, whole);
    RoundUnique((whole as real) / (whole as real) * 100.0, 100);
  }

  /** One slice of the pie chart. */
  datatype Slice = Slice(name: string, value: int, color: string)

  /** The pie chart's data: the Planned slice, then the Remaining one in the given colour. */
  function ChartData(days: seq<DayPlan>, remainingColor: string): (data: seq<Slice>)
    ensures |data| == 2 && data[0].name == "Planned" && data[1].name == "Remaining"
    ensures data[0].value == PlannedDays(days) && data[1].value == |Filter(days, IsUnplanned)|
    ensures data[0].value >= 0 && data[1].value >= 0 && data[0].value + data[1].value == |days|
  {
    [Slice("Planned", PlannedDays(days), "#8b5cf6"), Slice("Remaining", |days| - PlannedDays(days), remainingColor)]
  }

  /** The Remaining colour of `components/StatsCard.tsx`. */
  const RootRemainingColor: string := "#f1f5f9"

  /** The Remaining colour of `tokyo-trip-2026/components/StatsCard.tsx`. */
  const TokyoRemainingColor: string := "#e2e8f0"

  /** A filter that keeps nothing returns nothing. */
  lemma NoneKept<T>(s: seq<T>, keep: T -> bool)
    requires forall i :: 0 <= i < |s| ==> !keep(s[i])
    ensures Filter(s, keep) == []
  {
    var r := Filter(s, keep);
    if r != [] {
      FilterMembership(s, keep, r[0]);
    }
  }

  /** Eight days, all Planned: the card shows 8 / 8 and 100%, and the Remaining slice is empty. */
  lemma AllEightPlanned(days: seq<DayPlan>)
    requires |days| == 8 && forall i :: 0 <= i < 8 ==> days[i].status == Planned
    ensures PlannedDays(days) == 8
    ensures Progress(days) == 100
    ensures ChartData(days, RootRemainingColor)[1].value == 0
  {
  }

  /** Eight days with D5-D7 Unplanned: 5 / 8 days, and 62.5% rounds up to 63%. */
  lemma FiveOfEightPlanned(days: seq<DayPlan>)
    requires |days| == 8 && forall i :: 0 <= i < 8 ==> days[i].status == (if 4 <= i < 7 then Unplanned else Planned)
    ensures PlannedDays(days) == 5
    ensures Progress(days) == 63
    ensures ChartData(days, TokyoRemainingColor)[1].value == 3
  {
    ThreeUnplanned(days);
    RoundUnique((5 as real) / (8 as real) * 100.0, 63);
  }

  lemma ThreeUnplanned(days: seq<DayPlan>)
    requires |days| == 8 && forall i :: 0 <= i < 8 ==> days[i].status == (if 4 <= i < 7 then Unplanned else Planned)
    ensures |Filter(days, IsUnplanned)| == 3
  {
    var a, b, c := days[..4], days[4..7], days[7..];
    assert days == a + b + c;
    FilterConcat(a + b, c, IsUnplanned);
    FilterConcat(a, b, IsUnplanned);
    NoneKept(a, IsUnplanned);
    NoneKept(c, IsUnplanned);
    assert Filter(b, IsUnplanned) == b;
  }

  /** The card over the root seed. */
  lemma RootSeedStats()
    ensures PlannedDays(SeedData.Itinerary) == 8 && Progress(SeedData.Itinerary) == 100
  {
    AllEightPlanned(SeedData.Itinerary);
  }

  /** The card over the tokyo seed. */
  lemma TokyoSeedStats()
    ensures PlannedDays(SeedData.TokyoItinerary) == 5 && Progress(SeedData.TokyoItinerary) == 63
  {
    FiveOfEightPlanned(SeedData.TokyoItinerary);
  }
}
