/**
 * The tables behind RecipeSerializer as one in-memory store, and the
 * serializer's writing operations on it: add_recipe_ingredient, create and
 * update. No operation runs inside a transaction, so a failure part-way
 * leaves every write made before it in place.
 */
module RecipeStore {
  import opened Outcomes
  import opened Models
  import opened Validation
  import opened IngredientRows

  /** How a write can fail. */
  datatype StoreError =
    | IntegrityError          // the database refused an ingredient row
    | TagsNotIterable         // update called tags.set with no submitted tags
    | IngredientsNotIterable  // update iterated over no submitted ingredients
    | NoSuchMethod            // create called add_recipe_ingredients, which is not defined

  /**
   * The field assignments at the top of update: a submitted image, name,
   * text or cooking time replaces the old one, an absent one keeps it; the
   * author, publication date and tags are not touched.
   */
  function ApplyPatch(r: Recipe, p: Payload): (r': Recipe)
    ensures r'.author == r.author && r'.pubDate == r.pubDate && r'.tags == r.tags
    ensures p.image.None? ==> r'.image == r.image
    ensures p.image.Some? ==> r'.image == p.image.value
    ensures p.name.None? ==> r'.name == r.name
    ensures p.name.Some? ==> r'.name == p.name.value
    ensures p.text.None? ==> r'.text == r.text
    ensures p.text.Some? ==> r'.text == p.text.value
    ensures p.cookingTime.None? ==> r'.cookingTime == r.cookingTime
    ensures p.cookingTime.Some? ==> r'.cookingTime == p.cookingTime.value
  {
    r.(image := p.image.GetOr(r.image),
       name := p.name.GetOr(r.name),
       text := p.text.GetOr(r.text),
       cookingTime := p.cookingTime.GetOr(r.cookingTime))
  }

  /** Applying the same field changes twice is applying them once; an empty change keeps the record. */
  lemma ApplyPatchIdempotent(r: Recipe, p: Payload)
    ensures ApplyPatch(ApplyPatch(r, p), p) == ApplyPatch(r, p)
    ensures p.image.None? && p.name.None? && p.text.None? && p.cookingTime.None? ==> ApplyPatch(r, p) == r
  {
  }

  /** The record Recipe.objects.create makes from a fully validated payload. */
  function NewRecipe(p: Payload, author: UserId, now: int, tags: set<TagId>): (r: Recipe)
    requires p.image.Some? && p.name.Some? && p.text.Some? && p.cookingTime.Some?
    ensures r.author == author && r.pubDate == now && r.tags == tags
    ensures r.image == p.image.value && r.name == p.name.value && r.text == p.text.value
    ensures r.cookingTime == p.cookingTime.value
  {
    Recipe(author, p.image.value, p.name.value, p.text.value, p.cookingTime.value, now, tags)
  }

  /** The constraints of models.py on a snapshot of the tables. */
  ghost predicate Consistent(
    recipes: map<RecipeId, Recipe>, rows: set<Row>, favorites: set<Mark>, purchases: set<Mark>,
    tags: map<TagId, Tag>, ingredients: map<IngredientId, Ingredient>, nextId: RecipeId)
  {
    && TagsUnique(tags)
    && (forall id :: id in recipes ==>
          id < nextId && recipes[id].cookingTime >= MinCookingTime && recipes[id].tags <= tags.Keys)
    && RowsUnique(rows)
    && AmountsAtLeastMin(rows)
    && (forall row :: row in rows ==> row.recipe in recipes && row.ingredient in ingredients)
    && (forall m :: m in favorites ==> m.recipe in recipes)
    && (forall m :: m in purchases ==> m.recipe in recipes)
  }

  /**
   * Storing a record under a key below the next primary key keeps the
   * constraints, when its cooking time passes the validator and its tags
   * exist; this covers inserting a new recipe, setting its tags and saving it.
   */
  lemma PutRecipeKeepsConsistent(
    recipes: map<RecipeId, Recipe>, rows: set<Row>, favorites: set<Mark>, purchases: set<Mark>,
    tags: map<TagId, Tag>, ingredients: map<IngredientId, Ingredient>, nextId: RecipeId,
    id: RecipeId, r: Recipe, nextId': RecipeId)
    requires Consistent(recipes, rows, favorites, purchases, tags, ingredients, nextId)
    requires nextId <= nextId' && id < nextId'
    requires r.cookingTime >= MinCookingTime && r.tags <= tags.Keys
    ensures Consistent(recipes[id := r], rows, favorites, purchases, tags, ingredients, nextId')
  {
  }

  /** Deleting a recipe's ingredient rows keeps the constraints. */
  lemma DeleteRowsKeepsConsistent(
    recipes: map<RecipeId, Recipe>, rows: set<Row>, favorites: set<Mark>, purchases: set<Mark>,
    tags: map<TagId, Tag>, ingredients: map<IngredientId, Ingredient>, nextId: RecipeId, id: RecipeId)
    requires Consistent(recipes, rows, favorites, purchases, tags, ingredients, nextId)
    ensures Consistent(recipes, rows - RowsOf(rows, id), favorites, purchases, tags, ingredients, nextId)
  {
  }

  class Store {
    var recipes: map<RecipeId, Recipe>
    var rows: set<Row>
    var favorites: set<Mark>
    var purchases: set<Mark>
    var tags: map<TagId, Tag>
    var ingredients: map<IngredientId, Ingredient>
    /** The primary key the next recipe receives. */
    var nextId: RecipeId

    /** The constraints of models.py that the stored tables satisfy. */
    ghost predicate Valid()
      reads this
    {
      Consistent(recipes, rows, favorites, purchases, tags, ingredients, nextId)
    }

    /** A store holding the reference tags and ingredients and nothing else. */
    constructor (tags: map<TagId, Tag>, ingredients: map<IngredientId, Ingredient>)
      requires TagsUnique(tags)
      ensures Valid()
      ensures this.tags == tags && this.ingredients == ingredients
      ensures recipes == map[] && rows == {} && favorites == {} && purchases == {}
    {
      this.tags := tags;
      this.ingredients := ingredients;
      recipes := map[];
      rows := {};
      favorites := {};
      purchases := {};
      nextId := 1;
    }

    /**
     * add_recipe_ingredient: one IngredientForRecipe.objects.create per
     * submitted item, in order, until the database refuses one. Only the
     * ingredient table changes, and only by rows of this recipe.
     */
    method AddRecipeIngredient(items: seq<Item>, recipe: RecipeId) returns (ok: bool)
      requires Valid() && recipe in recipes
      modifies this`rows
      ensures ok == InsertAll(old(rows), ingredients.Keys, recipe, items).ok
      ensures rows == InsertAll(old(rows), ingredients.Keys, recipe, items).rows
      ensures AmountsValid(items) ==> Valid()
    {
      ghost var start := rows;
      if AmountsValid(items) {
        InsertAllKeepsInvariants(start, ingredients.Keys, recipe, items, MinAmount);
      }
      var i := 0;
      while i < |items|
        invariant 0 <= i <= |items|
        invariant InsertAll(rows, ingredients.Keys, recipe, items[i..]) == InsertAll(start, ingredients.Keys, recipe, items)
      {
        var item := items[i];
        assert items[i..][0] == item && items[i..][1..] == items[i + 1..];
        if Refused(rows, ingredients.Keys, recipe, item) {
          return false;
        }
        rows := rows + {Row(recipe, item.id, item.amount)};
        i := i + 1;
      }
      ok := true;
    }

    /**
     * create, with the ingredient step calling add_recipe_ingredient: the
     * recipe is inserted with the requesting user as author, then its rows,
     * then its tags. An unknown ingredient id stops it with an
     * IntegrityError, leaving the recipe without tags and with the rows
     * inserted before that item.
     */
    method Create(p: Payload, author: UserId, now: int) returns (r: Result<RecipeId, StoreError>)
      requires Valid()
      requires Validated(p, tags.Keys, false)
      modifies this`recipes, this`rows, this`nextId
      ensures Valid()
      ensures old(nextId) !in old(recipes) && nextId == old(nextId) + 1
      ensures r.Ok? <==> forall i :: 0 <= i < |p.ingredients.value| ==> p.ingredients.value[i].id in ingredients
      ensures r.Ok? ==> r.value == old(nextId)
      ensures r.Err? ==> r.error == IntegrityError
      ensures recipes == old(recipes)[old(nextId) := NewRecipe(p, author, now, if r.Ok? then p.tags.value else {})]
      ensures rows == InsertAll(old(rows), ingredients.Keys, old(nextId), p.ingredients.value).rows
      ensures r.Ok? ==> rows == old(rows) + RowsFrom(old(nextId), p.ingredients.value)
      ensures r.Ok? ==> RowsOf(rows, old(nextId)) == RowsFrom(old(nextId), p.ingredients.value)
    {
      var items := p.ingredients.value;
      var id := nextId;
      assert RowsOf(rows, id) == {};
      InsertAfterDelete(rows, ingredients.Keys, id, items);
      assert rows - RowsOf(rows, id) == rows;
      PutRecipeKeepsConsistent(recipes, rows, favorites, purchases, tags, ingredients, nextId,
        id, NewRecipe(p, author, now, {}), nextId + 1);
      recipes := recipes[id := NewRecipe(p, author, now, {})];
      nextId := nextId + 1;
      var ok := AddRecipeIngredient(items, id);
      if !ok {
        return Err(IntegrityError);
      }
      PutRecipeKeepsConsistent(recipes, rows, favorites, purchases, tags, ingredients, nextId,
        id, recipes[id].(tags := p.tags.value), nextId);
      recipes := recipes[id := recipes[id].(tags := p.tags.value)];
      return Ok(id);
    }

    /**
     * create as written: after inserting the recipe it calls
     * add_recipe_ingredients, which the serializer does not define, so it
     * fails with an AttributeError and leaves a recipe with no ingredient
     * rows and no tags, whatever was submitted.
     */
    method CreateAsWritten(p: Payload, author: UserId, now: int) returns (r: Result<RecipeId, StoreError>)
      requires Valid()
      requires Validated(p, tags.Keys, false)
      modifies this`recipes, this`nextId
      ensures Valid()
      ensures r == Err(NoSuchMethod)
      ensures old(nextId) !in old(recipes) && nextId == old(nextId) + 1
      ensures recipes == old(recipes)[old(nextId) := NewRecipe(p, author, now, {})]
      ensures RowsOf(rows, old(nextId)) == {}
    {
      var id := nextId;
      recipes := recipes[id := NewRecipe(p, author, now, {})];
      nextId := nextId + 1;
      return Err(NoSuchMethod);
    }

    /**
     * update: the submitted scalar fields are assigned to the instance in
     * memory; the tags are cleared and set to the submitted ones; the
     * recipe's rows are deleted and the submitted list inserted; only then
     * is the instance saved. Missing tags or ingredients (a partial update)
     * fail part-way, and so does an unknown ingredient id.
     */
    method Update(id: RecipeId, p: Payload) returns (r: Result<RecipeId, StoreError>)
      requires Valid() && id in recipes
      requires Validated(p, tags.Keys, true)
      modifies this`recipes, this`rows
      ensures Valid()
      ensures p.tags.None? ==>
        && r == Err(TagsNotIterable)
        && recipes == old(recipes)[id := old(recipes)[id].(tags := {})]
        && rows == old(rows)
      ensures p.tags.Some? && p.ingredients.None? ==>
        && r == Err(IngredientsNotIterable)
        && recipes == old(recipes)[id := old(recipes)[id].(tags := p.tags.value)]
        && rows == old(rows) - RowsOf(old(rows), id)
      ensures p.tags.Some? && p.ingredients.Some? ==>
        && (r.Ok? <==> forall i :: 0 <= i < |p.ingredients.value| ==> p.ingredients.value[i].id in ingredients)
        && (r.Err? ==> r.error == IntegrityError)
        && rows == InsertAll(old(rows) - RowsOf(old(rows), id), ingredients.Keys, id, p.ingredients.value).rows
        && recipes == old(recipes)[id := (if r.Ok? then ApplyPatch(old(recipes)[id], p) else old(recipes)[id]).(tags := p.tags.value)]
      ensures r.Ok? ==> r.value == id && p.ingredients.Some? && rows == ReplaceRows(old(rows), id, p.ingredients.value)
    {
      var instance := ApplyPatch(recipes[id], p);
      PutRecipeKeepsConsistent(recipes, rows, favorites, purchases, tags, ingredients, nextId,
        id, recipes[id].(tags := {}), nextId);
      recipes := recipes[id := recipes[id].(tags := {})];
      if p.tags.None? {
        return Err(TagsNotIterable);
      }
      PutRecipeKeepsConsistent(recipes, rows, favorites, purchases, tags, ingredients, nextId,
        id, recipes[id].(tags := p.tags.value), nextId);
      recipes := recipes[id := recipes[id].(tags := p.tags.value)];
      DeleteRowsKeepsConsistent(recipes, rows, favorites, purchases, tags, ingredients, nextId, id);
      rows := rows - RowsOf(rows, id);
      if p.ingredients.None? {
        return Err(IngredientsNotIterable);
      }
      var items := p.ingredients.value;
      InsertAfterDelete(old(rows), ingredients.Keys, id, items);
      var ok := AddRecipeIngredient(items, id);
      if !ok {
        return Err(IntegrityError);
      }
      PutRecipeKeepsConsistent(recipes, rows, favorites, purchases, tags, ingredients, nextId,
        id, instance.(tags := recipes[id].tags), nextId);
      recipes := recipes[id := instance.(tags := recipes[id].tags)];
      return Ok(id);
    }
  }
}
