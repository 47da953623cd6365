/**
 * RecipeFilter.get_favorite and RecipeFilter.get_shopping: selections of
 * recipe ids driven by a boolean query parameter. Both start again from the
 * whole recipe table, so the queryset built by earlier filters is dropped.
 */
module Filters {
  import opened Outcomes
  import opened Models
  import opened ReadModel

  /** How a filter fails when the query is evaluated. */
  datatype FilterError =
    | AnonymousUserLookup  // the anonymous user has no primary key to compare
    | UnknownRelation      // the lookup names a reverse relation Recipe does not have (FieldError)

  /**
   * With false, all recipes; with true, the recipes the user has a marker
   * on. The incoming queryset is not consulted.
   */
  function SelectMarked(recipes: set<RecipeId>, queryset: set<RecipeId>, marks: set<Mark>, user: User, value: bool)
    : (r: Result<set<RecipeId>, FilterError>)
    ensures !value ==> r == Ok(recipes)
    ensures value && user.Anonymous? ==> r == Err(AnonymousUserLookup)
    ensures value && user.Member? ==> r.Ok? && forall id :: id in r.value <==> id in recipes && Mark(user.id, id) in marks
  {
    if !value then Ok(recipes)
    else if user.Anonymous? then Err(AnonymousUserLookup)
    else Ok(set id | id in recipes && Mark(user.id, id) in marks)
  }

  /** get_favorite: the recipes the requesting user has favourited, or all recipes. */
  function GetFavorite(recipes: set<RecipeId>, queryset: set<RecipeId>, favorites: set<Mark>, user: User, value: bool)
    : (r: Result<set<RecipeId>, FilterError>)
    ensures !value ==> r == Ok(recipes)
    ensures value && user.Anonymous? ==> r == Err(AnonymousUserLookup)
    ensures value && user.Member? ==> r.Ok? && forall id :: id in r.value <==> id in recipes && Mark(user.id, id) in favorites
  {
    SelectMarked(recipes, queryset, favorites, user, value)
  }

  /** get_shopping: the recipes in the requesting user's shopping list, or all recipes. */
  function GetShopping(recipes: set<RecipeId>, queryset: set<RecipeId>, purchases: set<Mark>, user: User, value: bool)
    : (r: Result<set<RecipeId>, FilterError>)
    ensures !value ==> r == Ok(recipes)
    ensures value && user.Anonymous? ==> r == Err(AnonymousUserLookup)
    ensures value && user.Member? ==> r.Ok? && forall id :: id in r.value <==> id in recipes && Mark(user.id, id) in purchases
  {
    SelectMarked(recipes, queryset, purchases, user, value)
  }

  /**
   * get_favorite and get_shopping as written: the lookups in_favorite__user
   * and shoppinglist__user name reverse relations that do not exist, since
   * Favorite.recipe and Purchase.recipe declare no related_name (their
   * reverse names are favorite and purchase). Any true value therefore fails
   * with a FieldError; false still gives all recipes.
   */
  function MarkedLookupAsWritten(recipes: set<RecipeId>, queryset: set<RecipeId>, user: User, value: bool)
    : (r: Result<set<RecipeId>, FilterError>)
    ensures !value ==> r == Ok(recipes)
    ensures value ==> r == Err(UnknownRelation)
  {
    if value then Err(UnknownRelation) else Ok(recipes)
  }

  /**
   * The lookups as written reject every true filter, where the intended
   * filters answer a registered user with the marked recipes; with false
   * they agree.
   */
  lemma LookupAsWrittenDiffers(recipes: set<RecipeId>, q: set<RecipeId>, favorites: set<Mark>, purchases: set<Mark>, user: User, value: bool)
    ensures value ==> MarkedLookupAsWritten(recipes, q, user, value).Err?
    ensures value && user.Member? ==> GetFavorite(recipes, q, favorites, user, value).Ok?
    ensures value && user.Member? ==> GetShopping(recipes, q, purchases, user, value).Ok?
    ensures !value ==> MarkedLookupAsWritten(recipes, q, user, value) == GetFavorite(recipes, q, favorites, user, value)
    ensures !value ==> MarkedLookupAsWritten(recipes, q, user, value) == GetShopping(recipes, q, purchases, user, value)
  {
  }

  /** Neither filter depends on the queryset handed to it. */
  lemma FiltersIgnoreQueryset(recipes: set<RecipeId>, q1: set<RecipeId>, q2: set<RecipeId>, marks: set<Mark>, user: User, value: bool)
    ensures GetFavorite(recipes, q1, marks, user, value) == GetFavorite(recipes, q2, marks, user, value)
    ensures GetShopping(recipes, q1, marks, user, value) == GetShopping(recipes, q2, marks, user, value)
  {
  }

  /**
   * Filtering on is_favorited=true keeps exactly the recipes whose
   * is_favorited flag the same user sees set; likewise for the shopping
   * list and is_in_shopping_cart.
   */
  lemma FiltersAgreeWithFlags(recipes: set<RecipeId>, q: set<RecipeId>, favorites: set<Mark>, purchases: set<Mark>, u: UserId)
    ensures GetFavorite(recipes, q, favorites, Member(u), true).Ok?
    ensures forall id :: id in GetFavorite(recipes, q, favorites, Member(u), true).value <==>
      id in recipes && IsFavorited(favorites, Some(Request(Member(u))), id)
    ensures GetShopping(recipes, q, purchases, Member(u), true).Ok?
    ensures forall id :: id in GetShopping(recipes, q, purchases, Member(u), true).value <==>
      id in recipes && IsInShoppingCart(purchases, Some(Request(Member(u))), id)
  {
  }
}
