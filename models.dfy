/**
 * The entities of backend/recipes/models.py and the invariants their field
 * declarations, validators and unique constraints impose on the tables.
 * Primary keys are plain integers; a table is a map from key to record, and
 * the join tables are sets of rows.
 */
module Models {

  type UserId = int
  type RecipeId = int
  type TagId = int
  type IngredientId = int

  /** MinValueValidator(1) on Recipe.cooking_time. */
  const MinCookingTime := 1
  /** MinValueValidator(1) on IngredientForRecipe.amount. */
  const MinAmount := 1
  /** Largest value a PositiveSmallIntegerField column holds. */
  const MaxPositiveSmallInt := 32767

  datatype Tag = Tag(name: string, color: string, slug: string)

  datatype Ingredient = Ingredient(name: string, measurementUnit: string)

  /** A recipe record; its many-to-many tag set is kept inside the record. */
  datatype Recipe = Recipe(
    author: UserId,
    image: string,
    name: string,
    text: string,
    cookingTime: int,
    pubDate: int,
    tags: set<TagId>)

  /** One IngredientForRecipe row. */
  datatype Row = Row(recipe: RecipeId, ingredient: IngredientId, amount: int)

  /** One Favorite or Purchase row: a user's marker on a recipe. */
  datatype Mark = Mark(user: UserId, recipe: RecipeId)

  /** The user attached to a request: a registered account or the anonymous user. */
  datatype User = Anonymous | Member(id: UserId)

  /** Tag.name and Tag.slug are both declared unique. */
  predicate TagsUnique(tags: map<TagId, Tag>) {
    forall a, b :: a in tags && b in tags && a != b ==>
      tags[a].name != tags[b].name && tags[a].slug != tags[b].slug
  }

  /** The unique_ingredient constraint: one row per (recipe, ingredient). */
  predicate RowsUnique(rows: set<Row>) {
    forall a, b :: a in rows && b in rows && a.recipe == b.recipe && a.ingredient == b.ingredient ==> a == b
  }

  /** Every stored amount passed the amount validator. */
  predicate AmountsAtLeastMin(rows: set<Row>) {
    forall row :: row in rows ==> row.amount >= MinAmount
  }

  /** Under the unique constraints a slug, or a name, identifies at most one tag. */
  lemma SlugIdentifiesTag(tags: map<TagId, Tag>, a: TagId, b: TagId)
    requires TagsUnique(tags)
    requires a in tags && b in tags
    ensures tags[a].slug == tags[b].slug ==> a == b
    ensures tags[a].name == tags[b].name ==> a == b
  {
  }

  /** Under unique_ingredient a recipe holds at most one amount per ingredient. */
  lemma OneAmountPerIngredient(rows: set<Row>, recipe: RecipeId, ingredient: IngredientId, x: int, y: int)
    requires RowsUnique(rows)
    requires Row(recipe, ingredient, x) in rows && Row(recipe, ingredient, y) in rows
    ensures x == y
  {
  }
}
