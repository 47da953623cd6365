# Recipe composition core of foodgram, in Dafny

This project models the recipe write path and read flags of the foodgram
backend. Recipes are stored together with their tag set and their
ingredient-with-amount rows. The model covers:

- the ingredient-list validation of `RecipeSerializer`;
- the row-insertion loop, `create` and the replace-style `update`;
- the read model (`get_ingredients`, `is_favorited`, `is_in_shopping_cart`), in its intended form: as written, rendering a recipe never reaches these methods (see "## Findings");
- the favourite and shopping-list filters of `RecipeFilter`;
- the invariants and default orderings declared in `backend/recipes/models.py`.

The database is an in-memory `Store` class (module `RecipeStore`) with these fields:

- a map of recipes, each record holding its tag set;
- a set of `IngredientForRecipe` rows `(recipe, ingredient, amount)`;
- a set of `(user, recipe)` favourite markers;
- a set of `(user, recipe)` purchase markers;
- the reference tables of tags and ingredients;
- the next primary key.

`Store.Valid()` holds the constraints of `models.py`:

- cooking time at least 1;
- amount at least 1;
- one row per `(recipe, ingredient)`;
- unique tag names and slugs;
- the foreign keys of rows and markers.

The amount floor of 1 is a validator on `IngredientForRecipe.amount`, not a
database constraint. The database accepts an amount of 0; its column check only
refuses negative amounts. The floor holds in the store because
`validate_ingredients` runs before every insert:

- `Create` and `Update` take a payload that passed validation, and keep `Valid()`.
- `AddRecipeIngredient` keeps `Valid()` only when every submitted amount is at least 1.

Favourites and purchases are sets of pairs, so the uniqueness of
`(user, recipe)` holds by construction.

No write runs inside a transaction in the source, so the model keeps partial
effects. `update` clears the tags, sets them, deletes the recipe's rows,
inserts the new rows, and saves the scalar fields last. The database can
refuse a row: a negative amount fails the column check, an unknown ingredient
fails the foreign key, and a repeated `(recipe, ingredient)` fails the unique
constraint. A refused row raises an `IntegrityError`. The rows inserted
before it stay, and `save()` is never reached.

Some behaviours of the code that the model keeps:

- `validate_ingredients` accepts an empty list.
- An unknown ingredient id passes validation and fails at insertion with an `IntegrityError`.
- `update` only replaces rows. It never adds amounts together.
- A partial update that leaves out `tags` or `ingredients` fails part-way, after clearing the tags.
- The serializer opens no transaction.

Inputs from outside the core become parameters:

- the requesting user (`author`, `User`, `Request`);
- the clock (`now`, which becomes `pub_date`).

## Model

| member | source | states |
|---|---|---|
| `Validation.FirstBadAmount` | backend/recipes/serializers.py:102-110 | none exactly when every amount is at least 1; otherwise the index of an item whose amount is below 1, with every earlier amount valid |
| `Validation.IngredientsVerdict` | backend/recipes/serializers.py:99-117 | accepts exactly the lists whose amounts are all at least 1 and whose ids are pairwise distinct, and then returns the list unchanged; the first bad amount decides between the negative and below-minimum errors; the duplicate error exactly when amounts are valid and an id repeats |
| `Validation.ValidateIngredients` | backend/recipes/serializers.py:99-117 | the loop that raises on the first bad amount and then compares the collected ids with their set gives exactly `IngredientsVerdict` |
| `Validation.NegativeAmountRejected` | backend/recipes/serializers.py:103-106 | a list containing a negative amount is rejected, and not as a duplicate |
| `Validation.EmptyListAccepted` | backend/recipes/serializers.py:99-117 | the empty list is accepted |
| `Validation.DistinctIffNoShrink` | backend/recipes/serializers.py:111-116 | the set of collected ids is never larger than the list, and has the same size exactly when no id repeats |
| `Validation.FieldErrors` | backend/recipes/serializers.py:83-97 | no field fails exactly when the payload is `Validated`; for a full (non-partial) request every field is present, item ids are at least 1, amounts pass validate_ingredients, tags exist and the cooking time is in range; full validation implies partial validation |
| `Models.SlugIdentifiesTag` | backend/recipes/models.py:9-22 | under the unique constraints two tags with the same slug, or the same name, are the same tag |
| `Models.OneAmountPerIngredient` | backend/recipes/models.py:121-127 | under unique_ingredient a recipe stores one amount per ingredient |
| `IngredientRows.Refused` | backend/recipes/models.py:105-127 | the database refuses a row whose amount is negative (the column check), whose ingredient does not exist (the foreign key) or whose recipe already has a row for that ingredient (unique_ingredient); a row it accepts keeps one row per (recipe, ingredient) |
| `IngredientRows.InsertAll` | backend/recipes/serializers.py:119-125 | inserting keeps every existing row and adds only rows of the given recipe built from the submitted items; on success exactly those rows are added |
| `IngredientRows.InsertAllStopsAtFirstRefusal` | backend/recipes/serializers.py:119-125 | when an insert is refused, there is a k such that every item before k was accepted by the table as it stood when it was inserted, item k is refused by the table holding the rows of the first k items, and the result is exactly that table; nothing after item k is inserted |
| `IngredientRows.InsertAllOk` | backend/recipes/serializers.py:119-125 | every insert goes through exactly when each amount is non-negative, each ingredient exists, the recipe has no row for it yet and no earlier item has the same id |
| `IngredientRows.InsertAllKeepsInvariants` | backend/recipes/models.py:116-127 | inserting keeps one row per (recipe, ingredient), known ingredients and the amount floor, when the submitted amounts meet the floor |
| `IngredientRows.ReplaceRows` | backend/recipes/serializers.py:146-148 | after the replace the recipe's rows are exactly the submitted list and every other recipe's rows are unchanged |
| `IngredientRows.InsertAfterDelete` | backend/recipes/serializers.py:146-148 | after deleting the recipe's rows, a validated list is inserted in full exactly when every id names an existing ingredient, and the result is the replaced table |
| `IngredientRows.ReplaceRowsIdempotent` | backend/recipes/serializers.py:146-148 | replacing twice with the same list equals replacing once |
| `IngredientRows.ReplaceDoesNotMerge` | backend/recipes/serializers.py:146-148 | after the replace the amount stored for a submitted ingredient is the submitted amount, not a sum with the old one |
| `RecipeStore.ApplyPatch` | backend/recipes/serializers.py:137-142 | an absent image, name, text or cooking time keeps its old value, a present one overwrites it; author, publication date and tags are untouched |
| `RecipeStore.ApplyPatchIdempotent` | backend/recipes/serializers.py:137-142 | applying the same field changes twice equals applying them once; a change with no fields keeps the record |
| `RecipeStore.NewRecipe` | backend/recipes/serializers.py:131 | the new record has the requesting user as author, the current time as publication date and the submitted fields |
| `RecipeStore.PutRecipeKeepsConsistent` | backend/recipes/serializers.py:131-149 | inserting, retagging or saving a recipe record keeps the model constraints, when its cooking time passes the validator and its tags exist |
| `RecipeStore.DeleteRowsKeepsConsistent` | backend/recipes/serializers.py:146 | deleting a recipe's ingredient rows keeps the model constraints |
| `RecipeStore.Store.Valid` | backend/recipes/models.py:9-154 | the stored tables satisfy the constraints of the models (as `RecipeStore.Consistent`): tag names and slugs unique; every recipe's cooking time at least 1 and its tags existing; every ingredient row naming an existing recipe and ingredient, with an amount of at least 1, and the only row for its (recipe, ingredient); every favourite and purchase marker naming an existing recipe |
| `RecipeStore.Store.AddRecipeIngredient` | backend/recipes/serializers.py:119-125 | the loop leaves the row table and the success flag exactly as `InsertAll` describes; only rows change; with valid amounts the store stays valid |
| `RecipeStore.Store.Create` | backend/recipes/serializers.py:127-134 | the recipe gets the next key, the requesting user as author and the submitted fields; it succeeds exactly when every ingredient id exists, and then the recipe's rows are exactly the submitted list and its tags exactly the submitted tags; otherwise it has no tags and the rows inserted before the failure |
| `RecipeStore.Store.CreateAsWritten` | backend/recipes/serializers.py:127-134 | as written, create always fails with the missing-method error and leaves a new recipe with no tags and no ingredient rows |
| `RecipeStore.Store.Update` | backend/recipes/serializers.py:136-150 | without tags it fails after clearing them; without ingredients it fails after setting the tags and deleting the rows; otherwise it succeeds exactly when every ingredient id exists, and then the fields are patched, the tags are the submitted ones and the rows are `ReplaceRows`; on an unknown id the tags are replaced, the rows partly inserted and the fields not saved; the store stays valid throughout |
| `ReadModel.IngredientsOf` | backend/recipes/serializers.py:163-165 | every row of the recipe appears projected to (id, name, measurement_unit, amount), nothing else appears, and under unique_ingredient no ingredient id appears twice |
| `ReadModel.IngredientsAfterReplace` | backend/recipes/serializers.py:71-80 | after a successful update the projected ingredient list is exactly the submitted items with their ingredients' names and units |
| `ReadModel.RenderAsWritten` | backend/recipes/serializers.py:152-156 | as written, rendering a recipe fails with a recursion error whatever the recursion limit, because RecipeReadSerializer inherits the to_representation that creates another RecipeReadSerializer |
| `ReadModel.Render` | backend/recipes/serializers.py:159-178 | the intended rendering: the ingredient list is exactly the recipe's rows projected; for a registered user each flag is true exactly when the user's marker exists; without a request or for the anonymous user both flags are false |
| `ReadModel.RenderAsWrittenDiffers` | backend/recipes/serializers.py:152-178 | the as-written rendering fails where the intended one yields a view; for a user who has both markers the intended flags are true with the request and false without it, as in a write response built without context |
| `ReadModel.IsFavorited` | backend/recipes/serializers.py:167-171 | false without a request or for the anonymous user; otherwise true exactly when the user's favourite marker on the recipe exists |
| `ReadModel.IsInShoppingCart` | backend/recipes/serializers.py:173-178 | false without a request or for the anonymous user; otherwise true exactly when the user's purchase marker on the recipe exists |
| `Filters.SelectMarked` | backend/recipes/filters.py:23-31 | with false all recipes; with true and a registered user exactly the recipes the user has a marker on; with true and the anonymous user an error |
| `Filters.GetFavorite` | backend/recipes/filters.py:23-26 | with false all recipes; with true exactly the recipes the user has favourited |
| `Filters.GetShopping` | backend/recipes/filters.py:28-31 | with false all recipes; with true exactly the recipes in the user's shopping list |
| `Filters.MarkedLookupAsWritten` | backend/recipes/filters.py:23-31 | as written, a true value always fails with the unknown-relation error and a false value gives all recipes |
| `Filters.LookupAsWrittenDiffers` | backend/recipes/filters.py:23-31 | the as-written lookups reject every true value where the intended filters answer a registered user; with false they agree |
| `Filters.FiltersIgnoreQueryset` | backend/recipes/filters.py:23-31 | the result does not depend on the incoming queryset, so earlier filters are not intersected in |
| `Filters.FiltersAgreeWithFlags` | backend/recipes/filters.py:23-31 | the true-filter keeps exactly the recipes whose is_favorited (resp. is_in_shopping_cart) flag the same user sees set |
| `Ordering.NewestFirst` | backend/recipes/models.py:96-97 | the recipe listing is a permutation of the recipes with non-increasing publication dates |
| `Ordering.ByName` | backend/recipes/models.py:44-45 | the ingredient listing is a permutation of the ingredients in lexicographic name order |

## Findings

| source | as written | input that shows it | evidently intended | confidence | as-written member | corrected member |
|---|---|---|---|---|---|---|
| backend/recipes/serializers.py:132 | `create` calls `self.add_recipe_ingredients`, but the method defined at line 119 is `add_recipe_ingredient`; the call raises AttributeError after the recipe row is inserted | any valid create payload, e.g. one ingredient `(1, 2)` and one tag | call `add_recipe_ingredient`, inserting one row per item, then set the tags | high; not executed | `RecipeStore.Store.CreateAsWritten` | `RecipeStore.Store.Create` |
| backend/recipes/serializers.py:153 | `to_representation` renders through `RecipeReadSerializer(instance)`, but `RecipeReadSerializer` subclasses `RecipeSerializer` without overriding it, so each rendering starts another until RecursionError; `get_ingredients` and both flags are never called, and a successful create or update has already written the store when its response fails. The nested serializer also gets no `context`, so even without the recursion both flags of a write response would be false | any retrieve or list of recipes, or any successful update | render the recipe's ingredients and the requesting user's flags, passing the request along | high; not executed | `ReadModel.RenderAsWritten` | `ReadModel.Render` |
| backend/recipes/filters.py:25 | `get_favorite` filters on `in_favorite__user`, but `Favorite.recipe` declares no `related_name`, so the reverse name is `favorite`; the lookup raises FieldError | `?is_favorited=1` from any user | filter on the user's favourite markers | high; not executed | `Filters.MarkedLookupAsWritten` | `Filters.GetFavorite` |
| backend/recipes/filters.py:30 | `get_shopping` filters on `shoppinglist__user`, but `Purchase.recipe` declares no `related_name`, so the reverse name is `purchase`; the lookup raises FieldError | `?is_in_shopping_cart=1` from any user | filter on the user's purchase markers | high; not executed | `Filters.MarkedLookupAsWritten` | `Filters.GetShopping` |

## Left out

- Image handling: base64 decoding and file storage belong to a foreign library. The image is an opaque string, and the model only checks that it is present.
- Name and text checks: the blank and maximum-length checks of these fields are framework field shaping. The model only checks that the fields are present.
- Payload parsing: amounts and ids arrive already parsed as integers. The source compares the raw submitted ids when it looks for repeats, so `"1"` and `1` would count as different. The model compares parsed ids.
- `validate_ingredients` reads the raw request data but returns the validated list. The model treats both as the same list.
- Transactions and concurrency: the model has no enclosing transaction and runs one request at a time. Uniqueness races are decided by the database.
- Amount width: the ceiling of 32767 on the `amount` column depends on the database backend and is not modelled. Only the column's check for non-negative values is modelled.
- Default amount: the default amount of 1 is never used, because every inserted row carries a submitted amount.
- Deletes: cascade deletes are not modelled, because no operation of this core deletes a recipe, ingredient or user.
- Favourite and shopping-cart toggles: adding or removing markers happens in views that are not part of this model. Markers are only read.
- Row order: `get_ingredients` declares no ordering, so the model returns a set.
- Name ordering: ingredient names are compared by character code. Database collation is not modelled.
- The `tags` filter: its lookup path `recipetag__tag__slug` does not match the models, and its matching semantics live in the filter library. The ingredient name search is left out for the same reason.
- Related names in the filters: `get_favorite` and `get_shopping` use `in_favorite` and `shoppinglist`. `models.py` declares no such names: `Favorite.recipe` and `Purchase.recipe` have no `related_name`, so the reverse names are `favorite` and `purchase`. As written, every filter with value true raises FieldError. `Filters.MarkedLookupAsWritten` models that (see "## Findings"). `GetFavorite` and `GetShopping` give the lookups their evident meaning over the favourite and purchase sets.
- The `through` model: `Recipe.ingredients` names `through='RecipeIngredient'` (models.py:56), but no such model exists; the join model is `IngredientForRecipe`. As written, Django's system check reports a many-to-many through model that is not installed (fields.E331), so `check` and `migrate` refuse to run. Project configuration is outside this model, which uses `IngredientForRecipe` rows as the evident intent.
- RecipeStore.Store.Create: assumes the requesting user is registered (`author` is a user id). The source does otherwise. With no request in the context, `request.user` raises AttributeError. With the anonymous user, `Recipe.objects.create(author=...)` raises ValueError. Both happen before any row is written.
- RecipeStore.Store.CreateAsWritten: assumes a registered requesting user, like `Create`.
- Users and follows: `backend/users/models.py` is schema only. Users appear as ids, and `Follow` is not modelled.
- Display code: `CustomUserSerializer` is not part of this model, nor are the nested tag and author output or `__str__` formatting.
- Tag colours: the colour format check of the colour field is not modelled.
