/**
 * The must-eat tag list of `components/FoodTags.tsx` and its identical copy in
 * `tokyo-trip-2026/components/FoodTags.tsx`: a row of tags, each with a delete button, and an
 * inline form whose submit hands the trimmed input to the store unless it is blank.
 */
module FoodTags {
  import opened Wrappers
  import opened Seqs
  import opened JsText
  import opened StoreOps

  /** What a submit hands to `onAddFood`: the trimmed input, or nothing when it is blank. */
  function Submitted(newFood: string): (r: Option<string>)
    ensures r.Some? <==> !AllWhitespace(newFood)
    ensures r.Some? ==> r.value == Trim(newFood)
  {
    TrimEmpty(newFood);
    if Trim(newFood) != [] then Some(Trim(newFood)) else None
  }

  /** A submitted name is non-empty, starts and ends with a non-space, and trimming it again changes nothing. */
  lemma SubmittedIsTrimmed(newFood: string)
    requires Submitted(newFood).Some?
    ensures var name := Submitted(newFood).value;
      name != [] && !IsJsWhitespace(name[0]) && !IsJsWhitespace(name[|name| - 1]) && Trim(name) == name
  {
    TrimIdempotent(newFood);
  }

  /** The form state: the input text and whether the form is open. */
  class TagForm {
    var newFood: string
    var isAdding: bool

    constructor()
      ensures newFood == "" && !isAdding
    {
      newFood, isAdding := "", false;
    }

    /** The dashed "add" button. */
    method Open()
      modifies this
      ensures isAdding && newFood == old(newFood)
    {
      isAdding := true;
    }

    /** The input's `onChange`. */
    method Edit(text: string)
      modifies this
      ensures newFood == text && isAdding == old(isAdding)
    {
      newFood := text;
    }

    /** The form's X button: the form closes and the typed text stays. */
    method Close()
      modifies this
      ensures !isAdding && newFood == old(newFood)
    {
      isAdding := false;
    }

    /**
     * `handleAdd`: a non-blank input is handed on trimmed, then cleared, and the form closes;
     * a blank input changes nothing and hands nothing on.
     */
    method HandleAdd() returns (added: Option<string>)
      modifies this
      ensures added == Submitted(old(newFood))
      ensures added.Some? ==> newFood == "" && !isAdding
      ensures added.None? ==> newFood == old(newFood) && isAdding == old(isAdding)
    {
      added := None;
      var trimmed := Trim(newFood);
      if trimmed != [] {
        added := Some(trimmed);
        newFood := "";
        isAdding := false;
      }
    }
  }

  /**
   * Submitting a padded copy of a name already listed leaves the list as it was, and a new
   * name is appended trimmed, so the list never holds a blank or padded name it did not start with.
   */
  lemma SubmitThenAdd(foods: seq<string>, newFood: string)
    requires Submitted(newFood).Some?
    ensures var name := Submitted(newFood).value;
      (name in foods ==> AddFood(foods, name) == foods)
      && (name !in foods ==> AddFood(foods, name) == foods + [name])
      && (forall f :: f in AddFood(foods, name) ==> f in foods || (f == name && Trim(f) == f && f != []))
  {
    SubmittedIsTrimmed(newFood);
  }

  /**
   * The delete button of the tag at `index` hands on that tag's text: every copy of it leaves
   * the list, every other name stays, and the survivors keep their order.
   */
  lemma DeleteTag(foods: seq<string>, index: int)
    requires 0 <= index < |foods|
    ensures var r := DeleteFood(foods, foods[index]);
      foods[index] !in r && IsSubsequence(r, foods) && |r| < |foods|
      && forall f :: f != foods[index] ==> (f in r <==> f in foods)
  {
    var r := DeleteFood(foods, foods[index]);
    if |r| == |foods| {
      SubsequenceSameLength(r, foods);
    }
  }

  lemma {:induction false} SubsequenceSameLength<T>(a: seq<T>, b: seq<T>)
    requires IsSubsequence(a, b) && |a| == |b|
    ensures a == b
    decreases |b|
  {
    if a != [] {
      if a[0] == b[0] && IsSubsequence(a[1..], b[1..]) {
        SubsequenceSameLength(a[1..], b[1..]);
        assert a == [a[0]] + a[1..] && b == [b[0]] + b[1..];
      } else {
        SubsequenceShorter(a, b[1..]);
      }
    }
  }

  lemma {:induction false} SubsequenceShorter<T>(a: seq<T>, b: seq<T>)
    requires IsSubsequence(a, b)
    ensures |a| <= |b|
    decreases |b|
  {
    if a != [] {
      if a[0] == b[0] && IsSubsequence(a[1..], b[1..]) {
        SubsequenceShorter(a[1..], b[1..]);
      } else {
        SubsequenceShorter(a, b[1..]);
      }
    }
  }
}
