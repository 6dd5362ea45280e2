# Foodgram backend: a verified model of its store and rules

Foodgram is a recipe-sharing service built on Django and Django REST Framework. This project models the part of its backend that reads and writes the relational store: the tables with their declared constraints, the serializer logic that composes a recipe's ingredient rows, the favorite, shopping-list and follow handlers, and the shopping-list export. The model is written in Dafny, and the properties the code promises are proved about it.

- `wrappers.dfy` (module `Wrappers`): `Option` and `Result`.
- `schema.dfy` (module `Schema`): one datatype per row of `recipes/models.py` and `users/models.py`, one predicate per declared constraint, the listing orders, and how new primary keys are assigned. Tables are maps from primary key to row. `IngredientsRecipe` has no unique constraint, so it is kept as a sequence of rows in primary-key order; two rows for the same (recipe, ingredient) pair can then be represented.
- `composition.dfy` (module `Composition`): `RecipeCreateSerializer.create_ingredients` as a function `Compose` over that sequence, and its lemmas: accumulation, locality, the failure prefix, and the replace semantics of `update`.
- `rules.dfy` (module `Rules`): the serializers' `validate` methods, `get_is_subscribed`, `get_recipes_count`, and the facts about inserting and deleting rows.
- `export.dfy` (module `ShoppingExport`): the group-by-sum query of `download_shopping_cart`, and the text that it and `create_shopping_cart` build.
- `store.dfy` (module `Foodgram`): class `Store`, which holds every table as a field. Its methods are the handlers, each proved against the functions above. The acting user is passed in as an id.

Errors are values.
- get_object_or_404 becomes `NotFound` or `IngredientNotFound`.
- A serializer's `ValidationError` becomes `ValidationError(reason)`.
- delete_obj's 400 response becomes `BadRequest`.
- The 405 response becomes `MethodNotAllowed`.
- `update_or_create` finding two rows becomes `MultipleRowsReturned`.
- The `KeyError` raised when an item of the payload has no `"amount"` becomes `MissingAmount`. The model field has a default, so DRF treats the key as optional.
- A cooking time that the column cannot hold becomes `CookingTimeRejected`.

## Model

| member | source | states |
|---|---|---|
| Foodgram.Store.CreateIngredients | backend/foodgram/api/serializers.py:177-189 | The loop leaves exactly the table and the error that `Compose` describes. For each item it fails on a missing amount or an unknown ingredient, otherwise it adds to the existing row or appends one. It keeps the constraints, and it keeps one row per pair when that held before. |
| Composition.Compose | backend/foodgram/api/serializers.py:178-189 | The loop over the payload, stopping at the first failing item. The table never shrinks and grows by at most one row per item, and an empty payload leaves it unchanged with no error. |
| Composition.Step | backend/foodgram/api/serializers.py:179-189 | One iteration. A missing amount fails before the ingredient lookup, an unknown id then fails as not found, and otherwise the write succeeds exactly when the pair has at most one row. A successful step adds at most one row, keeps the pair of every existing row, and gives any new row the recipe. |
| Composition.Write | backend/foodgram/api/serializers.py:180-189 | `update_or_create`: it fails, with MultipleRowsReturned, exactly when the pair already has two or more rows. Otherwise it adds a row exactly when the pair had none, and keeps the pair of every existing row. |
| Composition.ComposeKeepsKeys | backend/foodgram/api/serializers.py:180-189 | The loop never deletes a row or changes a row's recipe or ingredient, and every row it adds belongs to the recipe. |
| Composition.ComposeAccumulates | backend/foodgram/api/serializers.py:177-189 | After a successful run, the amount of (r, j) is the amount before the run plus the sum of every payload amount for j. Duplicate ids accumulate. An ingredient the payload mentions has a row; one it does not mention keeps its row count. |
| Composition.ComposeKeepsOneRowPerPair | backend/foodgram/api/serializers.py:180-189 | Starting from at most one row per (recipe, ingredient), the loop keeps at most one, so `update_or_create` never meets two rows. |
| Composition.ComposeSucceedsIff | backend/foodgram/api/serializers.py:178-189 | The loop completes exactly when every item has an amount and names an existing ingredient. |
| Composition.ComposeStopsAtFailure | backend/foodgram/api/serializers.py:178-189 | A failed run stops at some item k. The table is what the first k items produce, because nothing is rolled back, and item k gives the error. |
| Composition.ComposeOnlyTouchesRecipe | backend/foodgram/api/serializers.py:180-189 | Rows of other recipes are the same, in the same order, whether the run succeeds or fails. |
| Composition.ComposeKeepsRow | backend/foodgram/api/serializers.py:180-189 | A successful run never removes a row of the recipe. |
| Composition.ComposeKeepsReferences | backend/foodgram/api/serializers.py:180-189 | Every written row references an existing recipe and an existing ingredient. |
| Composition.ReplaceGivesPayload | backend/foodgram/api/serializers.py:200-204 | After deleting the recipe's rows and rerunning the loop successfully, each ingredient's amount is the payload's sum for it. A mentioned ingredient has exactly one row, an unmentioned one has none, and other recipes are untouched. |
| Composition.FreshRecipeGetsPayload | backend/foodgram/api/serializers.py:191-197 | For a recipe with no rows yet, the loop gives exactly the payload's sums, one row per mentioned ingredient, and keeps the old rows. |
| Composition.OthersIdempotent | backend/foodgram/api/serializers.py:203 | Deleting a recipe's rows twice is the same as deleting them once. |
| Composition.Others | backend/foodgram/api/serializers.py:203 | `filter(recipe=recipe).delete()`: what remains is no longer, holds no row of the recipe, holds only rows that were there, and keeps every row of another recipe. |
| Composition.OthersKeepsOtherRecipes | backend/foodgram/api/serializers.py:203 | For every other recipe and ingredient, the delete leaves the row count and the total amount unchanged. This holds for interleaved tables too. |
| Composition.OthersKeepsInvariants | backend/foodgram/api/serializers.py:203 | Deleting a recipe's rows keeps one row per pair and the references. |
| Composition.UpdateReplacesExample | backend/foodgram/api/serializers.py:200-204 | An update from {1: 2, 2: 3} with payload {2: 5, 3: 1} gives exactly {2: 5, 3: 1}. |
| Composition.DuplicateIdsAccumulate | backend/foodgram/api/serializers.py:178-189 | A payload that names ingredient 1 twice, with amounts 2 and 3, gives one row with amount 5. |
| Foodgram.Store.Create | backend/foodgram/api/serializers.py:191-198 | Takes tag ids that exist, as the tag field's validation guarantees. An unstorable cooking time fails before anything is written. Otherwise the recipe gets a fresh key, its rows are `Compose` from the old table, and other rows are kept. Its tags are the submitted set on success and empty after an ingredient failure. On success the amounts equal the payload sums. |
| Foodgram.Store.InsertRecipe | backend/foodgram/api/serializers.py:195 | `Recipe.objects.create`: the recipe is stored under a key that was not in use, and no ingredient row refers to it yet. The constraints still hold. |
| Foodgram.Store.Update | backend/foodgram/api/serializers.py:200-206 | For a full or a partial request. A missing "ingredients" or "tags" fails with nothing changed. Otherwise the rows are `Compose` run after deleting the recipe's rows, and other recipes' rows are kept. An ingredient failure leaves the recipe record unchanged. Otherwise the tags become the submitted set, and then the given fields are saved and the omitted ones kept, or the cooking time is rejected with the new rows and tags in place. On success the amounts equal the payload sums. |
| Foodgram.Store.SetTags | backend/foodgram/api/serializers.py:205 | `recipe.tags.set(...)`: only the recipe's tag set changes, to the given set, and the constraints still hold. |
| Foodgram.Store.SaveFields | backend/foodgram/api/serializers.py:206 | The save of `super().update`: the given fields replace the stored ones and omitted ones keep their value. An unstorable cooking time fails with nothing changed. |
| Foodgram.Patched | backend/foodgram/api/serializers.py:206 | The author stays, the tag set is the given one, and each of name, text and cooking time is the given value or, when omitted, the stored one. |
| Foodgram.TagSet | backend/foodgram/api/serializers.py:197 | The stored tag set holds exactly the submitted tag ids. |
| Rules.ValidateMembership | backend/foodgram/api/serializers.py:228-255 | Accepts exactly when the recipe exists and the (user, recipe) pair is absent, and returns the data unchanged. A present pair is rejected as already present. FavoriteSerializer and ShoppingListSerializer run the same check on their own tables. |
| Rules.ValidateFollow | backend/foodgram/api/serializers.py:278-297 | An unknown author is not found. An existing follow is rejected first, then a self-follow. Otherwise the pair is returned, and acceptance holds exactly when none of these apply. |
| Rules.SelfFollowAlwaysRejected | backend/foodgram/api/serializers.py:285-295 | Following oneself never validates, and for an existing user the reason is the self-follow. |
| Rules.AsWrittenIgnoresObj | backend/foodgram/api/serializers.py:65-69 | As written, the flag is false for an anonymous user and does not depend on the user being shown. |
| Rules.IsSubscribedAsWritten | backend/foodgram/api/serializers.py:65-69 | The flag as coded: false for an anonymous user, otherwise true exactly when the user follows some author, whoever `obj` is. |
| Rules.AsWrittenDisagrees | backend/foodgram/api/serializers.py:69 | Counterexample: a user who follows only user 6 is shown as subscribed to user 7. |
| Rules.IsSubscribed | backend/foodgram/api/serializers.py:65-69 | Corrected flag: false for an anonymous user, and otherwise true exactly when a Follow(user, obj) row exists. |
| Rules.CorrectedImpliesAsWritten | backend/foodgram/api/serializers.py:65-69 | Whenever the corrected flag is true, the flag as written is true too. |
| Rules.IsSubscribedTracksFollow | backend/foodgram/api/views.py:100-105 | The corrected flag is true right after the follow row is inserted and false after it is removed. |
| Rules.RecipesCount | backend/foodgram/api/serializers.py:299-300 | The count of recipes by the author is at most the table size, and is zero exactly when the author has none. |
| Rules.RecipesCountAfterInsert | backend/foodgram/api/serializers.py:299-300 | A new recipe adds one to its author's count and leaves every other author's count unchanged. |
| Rules.InsertKeepsUnique | backend/foodgram/recipes/models.py:121-126 | Inserting a row under a fresh key keeps a whole-row unique constraint exactly when the row is absent. This is the Favorite constraint, and equally ShoppingList's (recipes/models.py lines 146-151) and Follow's (users/models.py lines 36-39). |
| Rules.InsertKeepsNoSelfFollow | backend/foodgram/users/models.py:40-43 | Inserting a follow keeps the no-self-follow check exactly when user and author differ. |
| Rules.RemoveRow | backend/foodgram/api/views.py:143-148 | `filter(...).delete()` deletes every row equal to the pair and keeps all others unchanged. |
| Rules.RemoveDropsOneRow | backend/foodgram/api/views.py:104-105 | Under the unique constraint, a present pair has exactly one key, and deleting it removes exactly that row. |
| Foodgram.Store.AddObj | backend/foodgram/api/views.py:135-140 | The result is the table's validation. On success the pair is inserted under a fresh key. On an error the table is unchanged. The other table is never touched, and the constraints hold afterwards. |
| Foodgram.Store.DeleteObj | backend/foodgram/api/views.py:142-151 | A present pair is removed and the result is 204 (one row fewer). An absent pair gives 400 with nothing changed. The pair is absent afterwards, and the other table is untouched. |
| Foodgram.Store.Subscribe | backend/foodgram/api/views.py:89-107 | An unknown author is not found. POST returns the validation result and inserts the follow only on success. DELETE removes exactly that pair or is not found. Other methods are not allowed. Every error leaves the follows unchanged. |
| Foodgram.Store.DownloadShoppingCart | backend/foodgram/api/views.py:191-204 | On a valid store, the document is the rendering of the grouped cart lines, whose totals CartGroupTotal states on the rows. A user with no shopping-list rows gets only the header. |
| ShoppingExport.Cart | backend/foodgram/api/views.py:194 | The cart holds exactly the recipes that the user's shopping-list rows name. |
| ShoppingExport.CartLines | backend/foodgram/api/views.py:194-195 | The join. Every row whose recipe is in the cart and whose ingredient exists gives its line (the ingredient's name and unit, and the row's amount). Every line comes from such a row. There are no more lines than rows, and none for an empty cart. |
| ShoppingExport.CartLinesTotal | backend/foodgram/api/views.py:193-196 | Summing the joined lines for a (name, unit) is summing, directly over the IngredientsRecipe rows, the amounts of the rows whose recipe is in the cart and whose ingredient has that name and unit. |
| ShoppingExport.CartGroupTotal | backend/foodgram/api/views.py:193-200 | The export's groups, stated on the table: the keys are distinct. A (name, unit) has a group exactly when some row of a cart recipe has an ingredient with that name and unit, and the group's total is the sum of those rows' amounts. |
| ShoppingExport.Aggregate | backend/foodgram/api/views.py:195-197 | The group-by-sum: there are no more groups than lines, and no groups exactly when there are no lines. Its correctness is AggregateCorrect. |
| ShoppingExport.AggregateCorrect | backend/foodgram/api/views.py:193-200 | Groups have distinct (name, unit) keys. A key has a group exactly when some line has that key, and the group's total is the sum over those lines. |
| ShoppingExport.AggregateTotals | backend/foodgram/api/views.py:196-200 | Each emitted group's total is the sum of the amounts of its lines. |
| ShoppingExport.GroupsByNameAndUnit | backend/foodgram/api/views.py:195-196 | Two ingredient ids with the same name and unit make one group whose total is the sum of their amounts. |
| ShoppingExport.RenderShoppingCart | backend/foodgram/api/views.py:201-203 | The loop builds exactly the header followed by one `Capitalize(name) amount unit,` line per group, in order. |
| ShoppingExport.ExportText | backend/foodgram/api/views.py:201-203 | The exported document always starts with the header line `Список покупок:`. |
| ShoppingExport.ExportLineCount | backend/foodgram/api/views.py:201-203 | The document starts with the header and has one line break per group plus one. |
| ShoppingExport.ExportInOrder | backend/foodgram/api/views.py:202-203 | The document for the first k groups is a prefix of the whole document. |
| ShoppingExport.EmptyCartExportsHeader | backend/foodgram/api/views.py:201-203 | An empty cart exports only the header. |
| ShoppingExport.Capitalize | backend/foodgram/api/views.py:203 | `str.capitalize`: the first character is upper-cased, the rest are lower-cased, and the length and line breaks are unchanged. |
| ShoppingExport.AmountText | backend/foodgram/api/views.py:203 | The `str` of a whole-number float amount ends in ".0" and has no line break. |
| ShoppingExport.DecimalRoundTrip | backend/foodgram/api/views.py:203 | Reading back the printed digits of an amount gives the amount. |
| ShoppingExport.Decimal | backend/foodgram/api/views.py:203 | The digits Python prints for a whole number: at least one digit, "0" for zero, and no leading zero otherwise. |
| ShoppingExport.CreateShoppingCart | backend/foodgram/api/views.py:174-180 | The loop builds exactly the lower-case title followed by one `\nname (unit) - value` per item. |
| ShoppingExport.CartText | backend/foodgram/api/views.py:175-180 | create_shopping_cart's document always starts with its lower-case title. |
| ShoppingExport.CartTextInOrder | backend/foodgram/api/views.py:176-180 | The document for the first k items is a prefix of the whole, so items appear in input order. |
| ShoppingExport.CartTextLines | backend/foodgram/api/views.py:175-180 | The document starts with the title and has one line break per item. |
| Schema.AddTagKeepsUnique | backend/foodgram/recipes/models.py:26-28 | Adding a tag keeps name, color and slug unique exactly when no stored tag shares one of them. |
| Schema.AddUserKeepsUnique | backend/foodgram/users/models.py:6-9 | Adding a user keeps username and email unique exactly when neither is taken. |
| Schema.RecipeOrder | backend/foodgram/recipes/models.py:73 | Recipes are listed by strictly descending id, and each appears once. |
| Schema.UserOrder | backend/foodgram/users/models.py:13 | Users are listed by strictly ascending id, and each appears once. |
| Schema.FollowOrder | backend/foodgram/users/models.py:34 | Follows are listed by strictly descending id, and each appears once. |
| Schema.NextRowId | backend/foodgram/api/views.py:100 | The new row's primary key is positive, unused and larger than every key in use. |

## Left out

- HTTP transport: responses, status codes as wire values, `Content-Disposition`, routing, pagination and the viewset machinery. Outcomes are result values.
- Authentication: the acting user is a parameter. `PasswordSerializer`, `set_password` and `UserCreateSerializer.create` are hashing and library calls. An anonymous user appears only in the `is_subscribed` flag.
- `Hex2NameColor` and `Base64ImageField`: library code that is not shown. The recipe image is not modelled.
- `FloatField` amounts are modelled as integers of at least 1. The sum is exact, so rounding is not modelled. AmountText renders a sum the way `str` prints a whole-number float, but not the exponent form Python uses from 1e16 on.
- Concurrency: the atomicity of the `F("amount")` expression, and races between two adds or two follows.
- Admin configuration and the permissions module (`IsOwnerOrReadOnly`, which is not shown): owner checks on update are not modelled.
- Presentation fields of `RecipeSerializer` (`get_is_favorited`, `get_is_in_shopping_list`, `get_ingredients`) and `get_recipes`.
- Foodgram.Store.Create, Foodgram.Store.Update: the serializer redeclares `cooking_time` as a plain `IntegerField`, so the model's `MinValueValidator(1)` never runs and 0 is stored. The model rejects only what the PositiveSmallIntegerField column refuses (below 0 or above 32767), and assumes the smallint range of a PostgreSQL column.
- Foodgram.Store.Create, Foodgram.Store.Update: a tag id that names no tag is rejected by the tag field's validation before either runs. The model makes existing tag ids a precondition and does not model that validation error.
- Foodgram.Store.Update: when the request leaves out "ingredients" or "tags", the `KeyError` of the pop is the `MissingField` outcome. An omitted name, text or cooking time keeps its stored value.
- Schema.NextRowId: it picks one more than the largest key in use. A database sequence that never reuses a deleted key may pick a larger one; the contract holds for both.
- Foreign keys other than IngredientsRecipe's: the model does not state that Favorite and ShoppingList rows name an existing user and recipe, that Follow rows name existing users, or that a recipe's author exists. No handler's contract depends on them, and the acting user is authenticated.
- Foodgram.Store.Subscribe: the `MultipleObjectsReturned` branch of the DELETE lookup is not reachable, because the unique follow constraint is part of `Valid()`.
- ShoppingExport.Cart: the join through `shopping_list__user` is modelled as a set of recipes. The ShoppingList unique constraint makes the row multiplicity of the join one.
- ShoppingExport.Aggregate: groups come in the order of their first line. The query has no `order_by`, so the database's order is not promised, and the model fixes one.
- ShoppingExport.Capitalize: the case mapping covers the ASCII letters and the Cyrillic letters U+0400 to U+045F only.
- ShoppingExport.CreateShoppingCart: `ingredient_value` is taken as already-formatted text. The function has no caller.
- Three behaviours that may surprise, all following the code:
  - Duplicate ingredient ids within one payload are accumulated, not rejected.
  - Groups are keyed by (name, unit), not by ingredient identity.
  - There is no transaction around `create`/`update`, so a failure keeps the rows already written.

## Findings

| source | as written | input that shows it | evidently intended | confidence | as-written member | corrected member |
|---|---|---|---|---|---|---|
| backend/foodgram/api/serializers.py:69 | `Follow.objects.filter(user=user).exists()` ignores `obj`, the user being shown | follows = {1: Follow(5, 6)}, request user 5, shown user 7: reported as subscribed | `filter(user=user, author=obj)` | high; not executed | Rules.AsWrittenDisagrees | Rules.IsSubscribedTracksFollow |
