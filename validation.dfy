/**
 * Validation of a recipe payload before RecipeSerializer.create or
 * RecipeSerializer.update runs: the per-item field checks of
 * IngredientForRecipeCreate, the validate_ingredients hook, the tag
 * references and the cooking-time validators of the Recipe model.
 */
module Validation {
  import opened Outcomes
  import opened Models

  /** One submitted ingredient: its id and its (already parsed) amount. */
  datatype Item = Item(id: int, amount: int)

  /** The three ValidationError messages raised by validate_ingredients. */
  datatype IngredientError = NegativeAmount | BelowMinimum | DuplicateIngredient

  /** The payload fields of RecipeSerializer; a field missing from the request is None. */
  datatype Payload = Payload(
    ingredients: Option<seq<Item>>,
    tags: Option<set<TagId>>,
    image: Option<string>,
    name: Option<string>,
    text: Option<string>,
    cookingTime: Option<int>)

  /** The keys of the error dictionary a failed validation reports. */
  datatype Field = IngredientsField | TagsField | ImageField | NameField | TextField | CookingTimeField

  predicate AmountsValid(items: seq<Item>) {
    forall i :: 0 <= i < |items| ==> items[i].amount >= MinAmount
  }

  predicate Distinct(s: seq<int>) {
    forall i, j :: 0 <= i < j < |s| ==> s[i] != s[j]
  }

  /** The submitted ingredient ids, in order. */
  function Ids(items: seq<Item>): (ids: seq<int>)
    ensures |ids| == |items| && forall i :: 0 <= i < |items| ==> ids[i] == items[i].id
  {
    if items == [] then [] else [items[0].id] + Ids(items[1..])
  }

  predicate DistinctIds(items: seq<Item>) {
    Distinct(Ids(items))
  }

  function ToSet(s: seq<int>): set<int> {
    set x | x in s
  }

  function Abs(x: int): (r: int)
    ensures r >= 0 && (r == x || r == -x)
  {
    if x < 0 then -x else x
  }

  /** The position of the first item whose amount is below the minimum, if any. */
  function FirstBadAmount(items: seq<Item>): (k: Option<nat>)
    ensures k.None? <==> AmountsValid(items)
    ensures k.Some? ==> k.value < |items| && items[k.value].amount < MinAmount && AmountsValid(items[..k.value])
  {
    if items == [] then None
    else if items[0].amount < MinAmount then Some(0)
    else
      match FirstBadAmount(items[1..])
      case None => None
      case Some(k) => assert items[1..][..k] == items[1..k + 1]; Some(k + 1)
  }

  /** The first bad amount is the only bad amount with no bad amount before it. */
  lemma FirstBadAmountIsFirst(items: seq<Item>, k: nat)
    requires k < |items| && items[k].amount < MinAmount && AmountsValid(items[..k])
    ensures FirstBadAmount(items) == Some(k)
  {
  }

  /**
   * The verdict of validate_ingredients: the first item with a bad amount
   * decides between the two amount messages (a negative amount fails the
   * abs() test first); only when every amount is valid are repeated ids
   * looked for. On success the input is returned unchanged.
   */
  function IngredientsVerdict(items: seq<Item>): (r: Result<seq<Item>, IngredientError>)
    ensures r.Ok? <==> AmountsValid(items) && DistinctIds(items)
    ensures r.Ok? ==> r.value == items
    ensures r == Err(DuplicateIngredient) <==> AmountsValid(items) && !DistinctIds(items)
    ensures r == Err(NegativeAmount) <==>
      exists k :: 0 <= k < |items| && items[k].amount < 0 && AmountsValid(items[..k])
    ensures r == Err(BelowMinimum) <==>
      exists k :: 0 <= k < |items| && 0 <= items[k].amount < MinAmount && AmountsValid(items[..k])
  {
    match FirstBadAmount(items)
    case Some(k) =>
      assert forall j :: 0 <= j < |items| && items[j].amount < MinAmount && AmountsValid(items[..j]) ==> j == k by {
        forall j | 0 <= j < |items| && items[j].amount < MinAmount && AmountsValid(items[..j])
          ensures j == k
        {
          FirstBadAmountIsFirst(items, j);
        }
      }
      if items[k].amount < 0 then Err(NegativeAmount) else Err(BelowMinimum)
    case None =>
      if DistinctIds(items) then Ok(items) else Err(DuplicateIngredient)
  }

  /** A list with a negative amount is rejected. */
  lemma NegativeAmountRejected(items: seq<Item>, k: nat)
    requires k < |items| && items[k].amount < 0
    ensures IngredientsVerdict(items).Err?
    ensures IngredientsVerdict(items) != Err(DuplicateIngredient)
  {
  }

  /** The empty list passes validate_ingredients. */
  lemma EmptyListAccepted()
    ensures IngredientsVerdict([]) == Ok([])
  {
  }

  /** A sequence has as many distinct values as elements exactly when no value repeats. */
  lemma {:induction false} DistinctIffNoShrink(s: seq<int>)
    ensures |ToSet(s)| <= |s|
    ensures |ToSet(s)| == |s| <==> Distinct(s)
  {
    if s != [] {
      var rest := s[1..];
      DistinctIffNoShrink(rest);
      assert ToSet(s) == {s[0]} + ToSet(rest) by {
        assert s == [s[0]] + rest;
      }
      if s[0] in ToSet(rest) {
        assert ToSet(s) == ToSet(rest);
        var k :| 0 <= k < |rest| && rest[k] == s[0];
        assert s[0] == s[k + 1];
        assert !Distinct(s);
      } else {
        assert |ToSet(s)| == |ToSet(rest)| + 1;
        if Distinct(rest) {
          forall i, j | 0 <= i < j < |s| ensures s[i] != s[j] {
            if i == 0 {
              assert s[j] == rest[j - 1];
            } else {
              assert s[i] == rest[i - 1] && s[j] == rest[j - 1];
            }
          }
        } else {
          var i, j :| 0 <= i < j < |rest| && rest[i] == rest[j];
          assert s[i + 1] == s[j + 1];
        }
      }
    }
  }

  /**
   * validate_ingredients: walks the submitted list, raising on the first bad
   * amount and collecting the ids; then compares the number of collected ids
   * with the size of their set to detect a repeated ingredient.
   */
  method ValidateIngredients(items: seq<Item>) returns (r: Result<seq<Item>, IngredientError>)
    ensures r == IngredientsVerdict(items)
  {
    var notUnique: seq<int> := [];
    var i := 0;
    while i < |items|
      invariant 0 <= i <= |items|
      invariant AmountsValid(items[..i])
      invariant |notUnique| == i
      invariant forall k :: 0 <= k < i ==> notUnique[k] == items[k].id
    {
      var amount := items[i].amount;
      if Abs(amount) != amount {
        FirstBadAmountIsFirst(items, i);
        return Err(NegativeAmount);
      }
      if amount < MinAmount {
        FirstBadAmountIsFirst(items, i);
        return Err(BelowMinimum);
      }
      notUnique := notUnique + [items[i].id];
      i := i + 1;
    }
    assert items[..i] == items;
    var unique := ToSet(notUnique);
    DistinctIffNoShrink(notUnique);
    assert notUnique == Ids(items);
    if |notUnique| > |unique| {
      return Err(DuplicateIngredient);
    }
    return Ok(items);
  }

  /** The ingredients field: every item id passes min_value=1, then validate_ingredients. */
  predicate IngredientsFieldValid(items: seq<Item>) {
    (forall i :: 0 <= i < |items| ==> items[i].id >= 1) && IngredientsVerdict(items).Ok?
  }

  /** The cooking_time field: MinValueValidator(1) and the small-integer column range. */
  predicate CookingTimeValid(t: int) {
    MinCookingTime <= t <= MaxPositiveSmallInt
  }

  /** A field fails when it is required and missing, or present and invalid. */
  function FieldError<T>(f: Field, value: Option<T>, partial: bool, valid: T -> bool): set<Field> {
    match value
    case None => if partial then {} else {f}
    case Some(v) => if valid(v) then {} else {f}
  }

  /**
   * What a payload that passes validation satisfies. With partial (a
   * PATCH) a missing field is skipped; otherwise every field is required.
   * Submitted ingredient ids are at least 1, their amounts pass
   * validate_ingredients, tags name existing tags and the cooking time is
   * in range; image, name and text are only required to be present.
   */
  predicate Validated(p: Payload, knownTags: set<TagId>, partial: bool) {
    && (!partial ==>
          p.ingredients.Some? && p.tags.Some? && p.image.Some? && p.name.Some? && p.text.Some? && p.cookingTime.Some?)
    && (p.ingredients.Some? ==>
          var items := p.ingredients.value;
          (forall i :: 0 <= i < |items| ==> items[i].id >= 1) && AmountsValid(items) && DistinctIds(items))
    && (p.tags.Some? ==> p.tags.value <= knownTags)
    && (p.cookingTime.Some? ==> CookingTimeValid(p.cookingTime.value))
  }

  /**
   * The error dictionary of is_valid(): the fields that fail, each checked
   * on its own. The payload is accepted exactly when no field fails.
   */
  function FieldErrors(p: Payload, knownTags: set<TagId>, partial: bool): (errs: set<Field>)
    ensures errs == {} <==> Validated(p, knownTags, partial)
    ensures Validated(p, knownTags, partial) ==> Validated(p, knownTags, true)
  {
    FieldError(IngredientsField, p.ingredients, partial, IngredientsFieldValid)
    + FieldError(TagsField, p.tags, partial, (t: set<TagId>) => t <= knownTags)
    + FieldError(ImageField, p.image, partial, (_: string) => true)
    + FieldError(NameField, p.name, partial, (_: string) => true)
    + FieldError(TextField, p.text, partial, (_: string) => true)
    + FieldError(CookingTimeField, p.cookingTime, partial, CookingTimeValid)
  }
}
