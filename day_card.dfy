/**
 * The item editor of `components/DayCard.tsx`: the split of a day into main and backup items,
 * the `indexOf` lookup of a clicked item, the item built on save, and the form state that the
 * add, edit, save, cancel and delete handlers set. The card's calls to `onAddItem`,
 * `onUpdateItem` and `onDeleteItem` are returned as a `Request`.
 */
module DayCard {
  import opened Wrappers
  import opened TripTypes
  import opened Seqs
  import opened JsText
  import opened TimeSort
  import opened Itinerary

  function IsMainItem(): ItineraryItem -> bool {
    (i: ItineraryItem) => !IsBackup(i)
  }

  function IsBackupItem(): ItineraryItem -> bool {
    (i: ItineraryItem) => IsBackup(i)
  }

  /** `day.items.filter(i => !i.isBackup)`. */
  function MainItems(items: seq<ItineraryItem>): (r: seq<ItineraryItem>)
    ensures forall i :: 0 <= i < |r| ==> !IsBackup(r[i])
    ensures IsSubsequence(r, items)
  {
    Filter(items, IsMainItem())
  }

  /** `day.items.filter(i => i.isBackup)`. */
  function BackupItems(items: seq<ItineraryItem>): (r: seq<ItineraryItem>)
    ensures forall i :: 0 <= i < |r| ==> IsBackup(r[i])
    ensures IsSubsequence(r, items)
  {
    Filter(items, IsBackupItem())
  }

  /**
   * The two lists split the day: together they hold every item exactly as often as the day does,
   * and an item is in the main list exactly when it is not flagged as backup (an absent flag
   * included).
   */
  lemma SplitPartition(items: seq<ItineraryItem>)
    ensures multiset(MainItems(items)) + multiset(BackupItems(items)) == multiset(items)
    ensures |MainItems(items)| + |BackupItems(items)| == |items|
    ensures forall x :: x in MainItems(items) <==> x in items && !IsBackup(x)
    ensures forall x :: x in BackupItems(items) <==> x in items && IsBackup(x)
  {
    FilterPartition(items, IsMainItem(), IsBackupItem());
    forall x ensures x in MainItems(items) <==> x in items && !IsBackup(x) {
      FilterMembership(items, IsMainItem(), x);
    }
    forall x ensures x in BackupItems(items) <==> x in items && IsBackup(x) {
      FilterMembership(items, IsBackupItem(), x);
    }
  }

  /** `items.indexOf(item)`: the first position holding `item`, or -1. */
  function IndexOf(items: seq<ItineraryItem>, item: ItineraryItem): (k: int)
    ensures -1 <= k < |items|
    ensures k == -1 <==> item !in items
    ensures k >= 0 ==> items[k] == item && forall j :: 0 <= j < k ==> items[j] != item
  {
    if items == [] then -1
    else if items[0] == item then 0
    else
      var k := IndexOf(items[1..], item);
      if k == -1 then -1 else k + 1
  }

  /** In a day whose items are distinct, `indexOf` finds the position that was clicked. */
  lemma IndexOfDistinct(items: seq<ItineraryItem>, p: int)
    requires NoDuplicates(items) && 0 <= p < |items|
    ensures IndexOf(items, items[p]) == p
  {
    var k := IndexOf(items, items[p]);
    assert k <= p;
  }

  /** The item `handleSave` builds from the form fields. */
  function BuildItem(time: string, activity: string, detail: string, isBackup: bool): (item: ItineraryItem)
    ensures item.activity == activity
    ensures time != "" ==> item.time == time
    ensures time == "" ==> item.time == "待定"
    ensures detail != "" ==> item.detail == detail
    ensures detail == "" ==> item.detail == "自訂行程"
    ensures item.time != "" && item.detail != ""
    ensures IsBackup(item) <==> isBackup
    ensures item.isBackup.Some? && item.isHighlight.None?
  {
    ItineraryItem(if time == "" then "待定" else time, activity, if detail == "" then "自訂行程" else detail, None, Some(isBackup))
  }

  /** What a handler asks of the store. */
  datatype Request = NoRequest | AddRequest(item: ItineraryItem) | UpdateRequest(index: int, item: ItineraryItem) | DeleteRequest(index: int)

  /**
   * The call `handleSave` makes: nothing for an empty activity, an update at the remembered index
   * while editing, an add otherwise.
   */
  function SaveOutcome(editIndex: Option<int>, time: string, activity: string, detail: string, isBackup: bool): (req: Request)
    ensures req.NoRequest? <==> activity == ""
    ensures req.UpdateRequest? <==> activity != "" && editIndex.Some?
    ensures req.UpdateRequest? ==> req.index == editIndex.value
    ensures req.AddRequest? || req.UpdateRequest? ==> req.item == BuildItem(time, activity, detail, isBackup)
    ensures !req.DeleteRequest?
  {
    if activity == "" then NoRequest
    else if editIndex.Some? then UpdateRequest(editIndex.value, BuildItem(time, activity, detail, isBackup))
    else AddRequest(BuildItem(time, activity, detail, isBackup))
  }

  /** The form state of one day card. */
  class ItemForm {
    var isEditing: bool
    var editIndex: Option<int>
    var time: string
    var activity: string
    var detail: string
    var isBackup: bool

    constructor()
      ensures !isEditing && editIndex.None? && time == "" && activity == "" && detail == "" && !isBackup
    {
      isEditing, editIndex := false, None;
      time, activity, detail, isBackup := "", "", "", false;
    }

    /** `disabled={!activity}`: the save button is enabled exactly when the handler would act. */
    predicate SaveEnabled(): (enabled: bool)
      reads this
      ensures enabled <==> !SaveOutcome(editIndex, time, activity, detail, isBackup).NoRequest?
    {
      activity != ""
    }

    /** `handleStartAdd`: open an empty form for a new item. */
    method StartAdd()
      modifies this
      ensures isEditing && editIndex.None? && time == "" && activity == "" && detail == "" && !isBackup
    {
      isEditing, editIndex := true, None;
      time, activity, detail, isBackup := "", "", "", false;
    }

    /** `handleStartEdit`: remember the item's position in the day and load its fields. */
    method StartEdit(items: seq<ItineraryItem>, item: ItineraryItem)
      modifies this
      ensures isEditing && editIndex == Some(IndexOf(items, item))
      ensures time == item.time && activity == item.activity && detail == item.detail
      ensures isBackup == IsBackup(item)
    {
      isEditing := true;
      editIndex := Some(IndexOf(items, item));
      time, activity, detail := item.time, item.activity, item.detail;
      isBackup := item.isBackup == Some(true);
    }

    /** `handleDelete`: the position of the item is passed on only when the user confirms. */
    method Delete(items: seq<ItineraryItem>, item: ItineraryItem, confirmed: bool) returns (req: Request)
      ensures confirmed ==> req == DeleteRequest(IndexOf(items, item))
      ensures !confirmed ==> req == NoRequest
    {
      var realIndex := IndexOf(items, item);
      if confirmed {
        req := DeleteRequest(realIndex);
      } else {
        req := NoRequest;
      }
    }

    /**
     * `handleSave`: with an empty activity nothing happens; otherwise the add or update request
     * is made and the form is closed and cleared.
     */
    method Save() returns (req: Request)
      modifies this
      ensures req == SaveOutcome(old(editIndex), old(time), old(activity), old(detail), old(isBackup))
      ensures old(SaveEnabled()) <==> !req.NoRequest?
      ensures old(activity) == "" ==>
        isEditing == old(isEditing) && editIndex == old(editIndex) && time == old(time)
        && activity == old(activity) && detail == old(detail) && isBackup == old(isBackup)
      ensures old(activity) != "" ==>
        !isEditing && editIndex.None? && time == "" && activity == "" && detail == "" && !isBackup
    {
      if activity == "" {
        return NoRequest;
      }
      var newItem := BuildItem(time, activity, detail, isBackup);
      if editIndex.Some? {
        req := UpdateRequest(editIndex.value, newItem);
      } else {
        req := AddRequest(newItem);
      }
      isEditing, editIndex := false, None;
      time, activity, detail, isBackup := "", "", "", false;
    }

    /** `handleCancel`: close the form and forget the index; the typed fields stay. */
    method Cancel()
      modifies this
      ensures !isEditing && editIndex.None?
      ensures time == old(time) && activity == old(activity) && detail == old(detail) && isBackup == old(isBackup)
    {
      isEditing, editIndex := false, None;
    }
  }

  /** What the store does with a request for the card's day (its items only). */
  function ApplyToItems(items: seq<ItineraryItem>, req: Request): (r: seq<ItineraryItem>)
    ensures req.NoRequest? ==> r == items
  {
    match req
    case NoRequest => items
    case AddRequest(item) => SortByTime(items + [item])
    case UpdateRequest(index, item) => UpdateItems(items, index, item)
    case DeleteRequest(index) => DeleteAt(items, index)
  }

  /**
   * As written, the index is looked up when editing starts. If another item of the day is deleted
   * before the save, the remembered index is stale: with items `[a, b]`, editing `b` remembers 1,
   * deleting `a` leaves `[b]`, and saving `b` unchanged assigns position 1 of a one-item list,
   * which appends, so the day ends with `b` twice.
   */
  lemma StaleEditIndexDuplicates()
    ensures ApplyToItems([EarlyItem, LateItem], DeleteRequest(IndexOf([EarlyItem, LateItem], EarlyItem))) == [LateItem]
    ensures ApplyToItems([LateItem], SaveOutcome(Some(IndexOf([EarlyItem, LateItem], LateItem)),
      LateItem.time, LateItem.activity, LateItem.detail, false)) == [LateItem, LateItem]
  {
    assert EarlyItem.activity != LateItem.activity;
    assert LateItem == BuildItem(LateItem.time, LateItem.activity, LateItem.detail, false);
    StaleEditIndex(EarlyItem, LateItem);
  }

  const EarlyItem := ItineraryItem("09:00", "A", "x", None, Some(false))
  const LateItem := ItineraryItem("10:00", "B", "y", None, Some(false))

  /** The same for any two distinct items, `b` being one that the form rebuilds as it was. */
  lemma StaleEditIndex(a: ItineraryItem, b: ItineraryItem)
    requires a != b && b.activity != "" && b == BuildItem(b.time, b.activity, b.detail, false)
    ensures var afterDelete := ApplyToItems([a, b], DeleteRequest(IndexOf([a, b], a)));
      afterDelete == [b]
      && ApplyToItems(afterDelete, SaveOutcome(Some(IndexOf([a, b], b)), b.time, b.activity, b.detail, false)) == [b, b]
  {
    assert [a, b][1..] == [b];
    assert IndexOf([a, b], b) == 1;
    assert IndexOf([a, b], a) == 0;
    assert DeleteAt([a, b], 0) == [b];
    assert SaveOutcome(Some(1), b.time, b.activity, b.detail, false) == UpdateRequest(1, b);
    assert Assigned([b], 1, b) == [b, b];
    DuplicateSorts(b);
    assert UpdateItems([b], 1, b) == [b, b];
  }

  lemma DuplicateSorts(b: ItineraryItem)
    ensures SortByTime([b, b]) == [b, b]
  {
    assert [b, b][..1] == [b];
    assert SortByTime([b]) == [b] by {
      assert [b][..0] == [];
    }
    LessEqReflexive(b.time);
    assert InsertByTime([b], b) == [b, b];
  }

  /**
   * The save as evidently intended: the item being edited is looked up in the day's current items
   * when the save happens. If it is still there its position is updated; if it was deleted in the
   * meantime the edited entry is added back.
   */
  function ResolvedSaveOutcome(items: seq<ItineraryItem>, editing: Option<ItineraryItem>,
                               time: string, activity: string, detail: string, isBackup: bool): (req: Request)
    ensures req.NoRequest? <==> activity == ""
    ensures req.UpdateRequest? ==> editing.Some? && 0 <= req.index < |items| && items[req.index] == editing.value
    ensures req.AddRequest? || req.UpdateRequest? ==> req.item == BuildItem(time, activity, detail, isBackup)
    ensures !req.DeleteRequest?
  {
    if activity == "" then NoRequest
    else if editing.Some? && IndexOf(items, editing.value) >= 0 then
      UpdateRequest(IndexOf(items, editing.value), BuildItem(time, activity, detail, isBackup))
    else AddRequest(BuildItem(time, activity, detail, isBackup))
  }

  /**
   * With the index resolved at save time an edit never grows the day: the saved entry takes the
   * place of the edited one, and the day keeps its length and its other items.
   */
  lemma ResolvedSaveReplaces(items: seq<ItineraryItem>, e: ItineraryItem,
                             time: string, activity: string, detail: string, isBackup: bool)
    requires e in items && activity != ""
    ensures var req := ResolvedSaveOutcome(items, Some(e), time, activity, detail, isBackup);
      var r := ApplyToItems(items, req);
      req.UpdateRequest? && |r| == |items| && SortedByTime(r)
      && multiset(r) == multiset(items[req.index := BuildItem(time, activity, detail, isBackup)])
  {
    var req := ResolvedSaveOutcome(items, Some(e), time, activity, detail, isBackup);
    var item := BuildItem(time, activity, detail, isBackup);
    assert Assigned(items, req.index, item) == items[req.index := item];
  }
}
