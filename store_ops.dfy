/** The food-list, expense-ledger and packed-items handlers of the trip store, as values. */
module StoreOps {
  import opened TripTypes
  import opened Seqs

  // ---------------------------------------------------------------- food list

  /** `handleAddFood`: append the name unless the list already `includes` it. */
  function AddFood(foods: seq<string>, food: string): (r: seq<string>)
    ensures food in r
    ensures food in foods ==> r == foods
    ensures food !in foods ==> r == foods + [food]
  {
    if food in foods then foods else foods + [food]
  }

  function NotNamed(food: string): string -> bool {
    (f: string) => f != food
  }

  /** `handleDeleteFood`: `foodList.filter(f => f !== food)`. */
  function DeleteFood(foods: seq<string>, food: string): (r: seq<string>)
    ensures food !in r
    ensures IsSubsequence(r, foods)
    ensures food !in foods ==> r == foods
    ensures forall f :: f != food ==> (f in r <==> f in foods)
    ensures forall f :: multiset(r)[f] == if f == food then 0 else multiset(foods)[f]
  {
    forall f: string ensures f in Filter(foods, NotNamed(food)) <==> f in foods && f != food {
      FilterMembership(foods, NotNamed(food), f);
    }
    forall f: string
      ensures multiset(Filter(foods, NotNamed(food)))[f] == if f == food then 0 else multiset(foods)[f]
    {
      FilterMultiplicity(foods, NotNamed(food), f);
    }
    Filter(foods, NotNamed(food))
  }

  /** Adding the same name twice is adding it once. */
  lemma AddFoodIdempotent(foods: seq<string>, food: string)
    ensures AddFood(AddFood(foods, food), food) == AddFood(foods, food)
  {
  }

  /** After an add the name occurs exactly once, if it did not occur before. */
  lemma AddFoodOnce(foods: seq<string>, food: string)
    requires food !in foods
    ensures Count(AddFood(foods, food), food) == 1
  {
    CountAppend(foods, [food], food);
  }

  /** A list without duplicates keeps that property under add and delete. */
  lemma FoodListStaysDistinct(foods: seq<string>, food: string, other: string)
    requires NoDuplicates(foods)
    ensures NoDuplicates(AddFood(foods, food))
    ensures NoDuplicates(DeleteFood(foods, other))
  {
    SubsequenceKeepsDistinct(DeleteFood(foods, other), foods);
  }

  /** Deleting a name just added gives back the list it was added to. */
  lemma AddThenDeleteFood(foods: seq<string>, food: string)
    requires food !in foods
    ensures DeleteFood(AddFood(foods, food), food) == foods
  {
    FilterConcat(foods, [food], NotNamed(food));
    assert Filter([food], NotNamed(food)) == [];
  }

  lemma {:induction false} CountAppend<T>(a: seq<T>, b: seq<T>, x: T)
    ensures Count(a + b, x) == Count(a, x) + Count(b, x)
  {
    if a == [] {
      assert a + b == b;
    } else {
      assert (a + b)[1..] == a[1..] + b;
      CountAppend(a[1..], b, x);
    }
  }

  lemma {:induction false} SubsequenceKeepsDistinct<T>(a: seq<T>, b: seq<T>)
    requires IsSubsequence(a, b) && NoDuplicates(b)
    ensures NoDuplicates(a)
    decreases |b|
  {
    if a != [] && b != [] {
      if a[0] == b[0] && IsSubsequence(a[1..], b[1..]) {
        SubsequenceKeepsDistinct(a[1..], b[1..]);
        SubsequenceMembers(a[1..], b[1..]);
        assert b[0] !in b[1..];
        forall j | 0 < j < |a| ensures a[0] != a[j] {
          assert a[j] == a[1..][j - 1];
        }
      } else {
        SubsequenceKeepsDistinct(a, b[1..]);
      }
    }
  }

  lemma {:induction false} SubsequenceMembers<T>(a: seq<T>, b: seq<T>)
    requires IsSubsequence(a, b)
    ensures forall x :: x in a ==> x in b
    decreases |b|
  {
    if a != [] && b != [] {
      if a[0] == b[0] && IsSubsequence(a[1..], b[1..]) {
        SubsequenceMembers(a[1..], b[1..]);
        forall x | x in a ensures x in b {
          if x != a[0] { assert x in a[1..]; }
        }
      } else {
        SubsequenceMembers(a, b[1..]);
      }
    }
  }

  // ---------------------------------------------------------------- expense ledger

  /** `handleAddExpense`: the new record goes first. */
  function AddExpense(expenses: seq<ExpenseRecord>, rec: ExpenseRecord): (r: seq<ExpenseRecord>)
    ensures |r| == |expenses| + 1 && r[0] == rec && r[1..] == expenses
  {
    [rec] + expenses
  }

  function OtherId(id: string): ExpenseRecord -> bool {
    (e: ExpenseRecord) => e.id != id
  }

  /** `handleDeleteExpense`: `expenses.filter(e => e.id !== id)`, so every record with that id goes. */
  function DeleteExpense(expenses: seq<ExpenseRecord>, id: string): (r: seq<ExpenseRecord>)
    ensures forall i :: 0 <= i < |r| ==> r[i].id != id
    ensures IsSubsequence(r, expenses)
    ensures (forall i :: 0 <= i < |expenses| ==> expenses[i].id != id) ==> r == expenses
    ensures forall e: ExpenseRecord :: e.id != id ==> (e in r <==> e in expenses)
    ensures forall e: ExpenseRecord :: multiset(r)[e] == if e.id == id then 0 else multiset(expenses)[e]
  {
    forall e: ExpenseRecord ensures e in Filter(expenses, OtherId(id)) <==> e in expenses && e.id != id {
      FilterMembership(expenses, OtherId(id), e);
    }
    forall e: ExpenseRecord
      ensures multiset(Filter(expenses, OtherId(id)))[e] == if e.id == id then 0 else multiset(expenses)[e]
    {
      FilterMultiplicity(expenses, OtherId(id), e);
    }
    Filter(expenses, OtherId(id))
  }

  /** Deleting the id of a record just added, when that id was new, gives back the old ledger. */
  lemma AddThenDeleteExpense(expenses: seq<ExpenseRecord>, rec: ExpenseRecord)
    requires forall i :: 0 <= i < |expenses| ==> expenses[i].id != rec.id
    ensures DeleteExpense(AddExpense(expenses, rec), rec.id) == expenses
  {
    assert AddExpense(expenses, rec)[1..] == expenses;
  }

  // ---------------------------------------------------------------- packed items

  /** `!!packedItems[item]`: an absent key reads as unchecked. */
  predicate IsChecked(packed: map<string, bool>, item: string) {
    item in packed && packed[item]
  }

  /** `handleTogglePackingItem`: `{...prev, [item]: !prev[item]}`. */
  function Toggle(packed: map<string, bool>, item: string): (r: map<string, bool>)
    ensures r.Keys == packed.Keys + {item}
    ensures IsChecked(r, item) == !IsChecked(packed, item)
    ensures forall k :: k != item ==> (k in r <==> k in packed) && (k in packed ==> r[k] == packed[k])
  {
    packed[item := !IsChecked(packed, item)]
  }

  /** The keys whose value is true; `Object.values(packedItems).filter(Boolean)` counts them. */
  function PackedKeys(packed: map<string, bool>): (ks: set<string>)
    ensures forall k :: k in ks <==> IsChecked(packed, k)
    ensures ks <= packed.Keys
    ensures ks == packed.Keys <==> forall k :: k in packed ==> packed[k]
  {
    set k | k in packed && packed[k]
  }

  function PackedCount(packed: map<string, bool>): (n: nat)
    ensures n <= |packed|
  {
    SubsetCard(PackedKeys(packed), packed.Keys);
    |PackedKeys(packed)|
  }

  lemma SubsetCard<T>(a: set<T>, b: set<T>)
    requires a <= b
    ensures |a| <= |b|
  {
    assert b == a + (b - a);
  }

  /** Toggling twice reads back every key as it was. */
  lemma ToggleTwice(packed: map<string, bool>, item: string, k: string)
    ensures IsChecked(Toggle(Toggle(packed, item), item), k) == IsChecked(packed, k)
  {
  }

  /** Toggling moves the packed count by exactly one, up when the item was unchecked. */
  lemma ToggleCount(packed: map<string, bool>, item: string)
    ensures IsChecked(packed, item) ==> PackedCount(Toggle(packed, item)) == PackedCount(packed) - 1
    ensures !IsChecked(packed, item) ==> PackedCount(Toggle(packed, item)) == PackedCount(packed) + 1
  {
    var before, after := PackedKeys(packed), PackedKeys(Toggle(packed, item));
    if IsChecked(packed, item) {
      assert after == before - {item};
    } else {
      assert after == before + {item};
    }
  }
}
