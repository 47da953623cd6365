/**
 * The read-only parts of RecipeReadSerializer: the ingredient list of a
 * recipe projected through IngredientForRecipeSerializer, and the two
 * per-viewer flags is_favorited and is_in_shopping_cart.
 */
module ReadModel {
  import opened Outcomes
  import opened Models
  import opened Validation
  import opened IngredientRows

  /** The request in the serializer context; it carries the viewing user. */
  datatype Request = Request(user: User)

  /** One entry of the "ingredients" list: id, name, measurement_unit, amount. */
  datatype IngredientView = IngredientView(id: IngredientId, name: string, measurementUnit: string, amount: int)

  function View(row: Row, ingredients: map<IngredientId, Ingredient>): IngredientView
    requires row.ingredient in ingredients
  {
    IngredientView(row.ingredient, ingredients[row.ingredient].name, ingredients[row.ingredient].measurementUnit, row.amount)
  }

  /**
   * get_ingredients: the recipe's rows, each shown with its ingredient's
   * name and unit. Every row of the recipe appears, nothing else does, and
   * under unique_ingredient no ingredient is listed twice.
   */
  function IngredientsOf(rows: set<Row>, ingredients: map<IngredientId, Ingredient>, recipe: RecipeId): (v: set<IngredientView>)
    requires forall row :: row in rows && row.recipe == recipe ==> row.ingredient in ingredients
    ensures forall row :: row in rows && row.recipe == recipe ==> View(row, ingredients) in v
    ensures forall x :: x in v ==> exists row :: row in rows && row.recipe == recipe && x == View(row, ingredients)
    ensures RowsUnique(rows) ==> forall x, y :: x in v && y in v && x.id == y.id ==> x == y
  {
    set row | row in rows && row.recipe == recipe :: View(row, ingredients)
  }

  /**
   * After a successful update the read model lists exactly the submitted
   * ingredients, each with the submitted amount.
   */
  lemma IngredientsAfterReplace(rows: set<Row>, ingredients: map<IngredientId, Ingredient>, recipe: RecipeId, items: seq<Item>)
    requires forall row :: row in rows && row.recipe == recipe ==> row.ingredient in ingredients
    requires forall i :: 0 <= i < |items| ==> items[i].id in ingredients
    ensures forall row :: row in ReplaceRows(rows, recipe, items) && row.recipe == recipe ==> row.ingredient in ingredients
    ensures IngredientsOf(ReplaceRows(rows, recipe, items), ingredients, recipe) ==
      set item | item in items :: IngredientView(item.id, ingredients[item.id].name, ingredients[item.id].measurementUnit, item.amount)
  {
  }

  /** How rendering a recipe fails. */
  datatype RenderError = RecursionError

  /** The parts of a rendered recipe this model describes. */
  datatype RecipeView = RecipeView(ingredients: set<IngredientView>, isFavorited: bool, isInShoppingCart: bool)

  /**
   * to_representation as written: RecipeSerializer renders a recipe through
   * a new RecipeReadSerializer, which inherits that same to_representation,
   * so every rendering starts another one. Each nesting uses one frame of
   * the interpreter's recursion limit; when none is left the rendering fails,
   * and the ingredient list and the flags are never computed.
   */
  function RenderAsWritten(limit: nat): (r: Result<RecipeView, RenderError>)
    ensures r == Err(RecursionError)
  {
    if limit == 0 then Err(RecursionError) else RenderAsWritten(limit - 1)
  }

  /**
   * The evident intent of RecipeReadSerializer: the recipe's ingredient list
   * and the two flags for the requesting user.
   */
  function Render(rows: set<Row>, ingredients: map<IngredientId, Ingredient>, favorites: set<Mark>, purchases: set<Mark>,
                  request: Option<Request>, recipe: RecipeId): (v: RecipeView)
    requires forall row :: row in rows && row.recipe == recipe ==> row.ingredient in ingredients
    ensures forall x :: x in v.ingredients <==> exists row :: row in rows && row.recipe == recipe && x == View(row, ingredients)
    ensures request.Some? && request.value.user.Member? ==>
      && (v.isFavorited <==> Mark(request.value.user.id, recipe) in favorites)
      && (v.isInShoppingCart <==> Mark(request.value.user.id, recipe) in purchases)
    ensures request.None? || request.value.user.Anonymous? ==> !v.isFavorited && !v.isInShoppingCart
  {
    RecipeView(IngredientsOf(rows, ingredients, recipe),
               IsFavorited(favorites, request, recipe),
               IsInShoppingCart(purchases, request, recipe))
  }

  /**
   * Whatever the recursion limit, the as-written rendering fails where the
   * intended one yields a view; and the nested serializer of a write
   * response, built without the request, reports both flags false even for
   * a user who has the markers.
   */
  lemma RenderAsWrittenDiffers(rows: set<Row>, ingredients: map<IngredientId, Ingredient>, favorites: set<Mark>, purchases: set<Mark>,
                               recipe: RecipeId, limit: nat, u: UserId)
    requires forall row :: row in rows && row.recipe == recipe ==> row.ingredient in ingredients
    requires Mark(u, recipe) in favorites && Mark(u, recipe) in purchases
    ensures RenderAsWritten(limit).Err?
    ensures Render(rows, ingredients, favorites, purchases, Some(Request(Member(u))), recipe).isFavorited
    ensures Render(rows, ingredients, favorites, purchases, Some(Request(Member(u))), recipe).isInShoppingCart
    ensures !Render(rows, ingredients, favorites, purchases, None, recipe).isFavorited
    ensures !Render(rows, ingredients, favorites, purchases, None, recipe).isInShoppingCart
  {
  }

  /** Whether the request's user, if registered, has this marker on the recipe. */
  function HasMark(marks: set<Mark>, request: Option<Request>, recipe: RecipeId): bool {
    match request
    case None => false
    case Some(Request(Anonymous)) => false
    case Some(Request(Member(u))) => Mark(u, recipe) in marks
  }

  /**
   * get_is_favorited: false without a request or for the anonymous user,
   * otherwise whether the user has the recipe among their favourites.
   */
  function IsFavorited(favorites: set<Mark>, request: Option<Request>, recipe: RecipeId): (b: bool)
    ensures request.None? || request.value.user.Anonymous? ==> !b
    ensures request.Some? && request.value.user.Member? ==> (b <==> Mark(request.value.user.id, recipe) in favorites)
  {
    HasMark(favorites, request, recipe)
  }

  /**
   * get_is_in_shopping_cart: false without a request or for the anonymous
   * user, otherwise whether the recipe is in the user's shopping list.
   */
  function IsInShoppingCart(purchases: set<Mark>, request: Option<Request>, recipe: RecipeId): (b: bool)
    ensures request.None? || request.value.user.Anonymous? ==> !b
    ensures request.Some? && request.value.user.Member? ==> (b <==> Mark(request.value.user.id, recipe) in purchases)
  {
    HasMark(purchases, request, recipe)
  }
}
