# Foodgram relation store — a Dafny model

Foodgram is a recipe-sharing backend. Users publish recipes made of ingredients with amounts. Other users can mark recipes as favorites, put recipes in a shopping cart, subscribe to authors, and download a shopping list. That list sums the ingredient amounts over every recipe in the cart.

This project models the part of the backend that keeps and changes that data:

- **`users.dfy` (module `Users`)** covers the user table:
  - the length bounds of the fields;
  - unique username and unique email, checked when a row is inserted;
  - `is_subcribed` defaulting to false;
  - the default listing in ascending username order.
- **`recipes.dfy` (module `Recipes`)** holds the whole schema as one value, `Db`:
  - users, recipes, ingredients and tags;
  - the IngredientAmount rows, in the order they are stored;
  - the Subscription, FavoriteRecipe and ShoppingCart tables, as sets of pairs.

  `Valid` gathers the non-blank (`blank=False`), length, range and slug validators, every unique and check constraint, and every foreign key the models declare. The email-format validator is not among them (see "## Left out"). The module also has:
  - the CASCADE deletes of a user, a recipe, an ingredient and a tag;
  - inserts of recipes, tags and ingredient amounts that check the constraints;
  - the default recipe listing, newest first.
- **`shopping_list.dfy` (module `ShoppingList`)** models the shopping-list download:
  - it takes the recipes in the user's cart and joins their IngredientAmount rows with the ingredients;
  - it groups the rows by (ingredient name, measurement unit) and sums the amounts. `SumFor` is the reference definition of a group's total;
  - it renders the text line by line in a loop, the way the view does.
- **`views.dfy` (module `Views`)** models the views that change state, as methods of a `Store` class whose fields are the tables:
  - `post_del_recipe` with its `favorite` and `shopping_cart` actions;
  - `subscribe`;
  - `download_shopping_cart`.

  The outcome of each view is given by a pure function: `Toggle` for favorites and cart, and `SubscribeOutcome` for subscriptions. Each method's contract ties its new state and its answer to that function. The lemmas beside the functions state what the views promise.
- **`ordering.dfy` (module `Ordering`)** is an insertion sort used by both default orderings. It also proves that two sorted permutations of the same rows are equal when the sort key tells rows apart. So a listing does not depend on the order the rows were stored in.
- **`results.dfy` (module `Results`)** holds the `Result` type. Refused inserts return a typed error instead of raising.

In three places the model follows what the code evidently intends, not what it literally does. The first two are listed under "## Findings" below:

- `post_del_recipe` calls `get_or_create(...).exists()`.
- The download reads a different cart table from the one the cart view writes. The model uses the single ShoppingCart table for both.
- The download's query names `F('ingredients__name')`, a field IngredientAmount does not have; the field is `ingredient`. The model groups by the joined ingredient's name and unit, which is the evident intent. The same `values(...)` call also names its alias `ingredient`, which is already a field of IngredientAmount (recipes/models.py:93); Django refuses an annotation whose alias clashes with a model field, so as written the query would fail before the name lookup is even reached. That check lives in Django itself, which is not part of this model.

## Model

| member | source | states |
|---|---|---|
| `Users.CreateUser` | backend/foodgram/users/models.py:5-15 | A user row is inserted exactly when four things hold: the id is new; every character field is non-blank (`blank=False`), with username ≤ 100, password ≤ 255, first and last name ≤ 50 and email ≤ 50 characters; the username is not taken; the email is not taken. Other rows are unchanged. The new row holds exactly the given username, password, names and email, with `is_subcribed` false. Inserting into a valid table keeps usernames and emails unique. |
| `Users.CreateUserRejectsBlank` | backend/foodgram/users/models.py:6-7 | A blank username is refused, whatever is stored and whatever the other fields hold. |
| `Users.ListUsers` | backend/foodgram/users/models.py:17-18 | The default user listing is in ascending username order and holds exactly the stored rows (a permutation). |
| `Users.UserListingIndependentOfStorageOrder` | backend/foodgram/users/models.py:6-7 | Because usernames are unique, any two storage orders of the same user rows give the same listing. |
| `Users.LexLeqTransitive` | backend/foodgram/users/models.py:17-18 | The username order is transitive. |
| `Users.LexLeqAntisymmetric` | backend/foodgram/users/models.py:17-18 | Two usernames that are each ordered before the other are equal. |
| `Recipes.AddRecipe` | backend/foodgram/recipes/models.py:9-49 | A recipe is inserted exactly when four things hold: its id is new; its author exists; its tags exist; name and text are non-blank, name ≤ 100, text ≤ 500 and 1 ≤ cooking_time ≤ 180. With valid references, a cooking time outside 1..180 is refused with the field error. The new row holds exactly the given author, name, text, cooking time and tags, with `pub_date` the insertion time. Nothing else changes. |
| `Recipes.AddRecipeKeepsValid` | backend/foodgram/recipes/models.py:9-49 | An accepted recipe keeps a valid store valid: its fields pass the validators and its author and tags exist. |
| `Recipes.AddIngredientAmount` | backend/foodgram/recipes/models.py:92-124 | A row is inserted exactly when three things hold: recipe and ingredient exist; 1 ≤ amount ≤ 1000; no row for the same (recipe, ingredient) exists yet. The row is appended. |
| `Recipes.AddIngredientAmountKeepsValid` | backend/foodgram/recipes/models.py:103-124 | An accepted IngredientAmount row keeps a valid store valid, including `unique_ingredient_in_recipe`. |
| `Recipes.AddTag` | backend/foodgram/recipes/models.py:208-223 | A tag is inserted exactly when its id is new, the name is non-blank, name and slug are ≤ 20 characters, the slug passes `SlugField`'s validator (one or more ASCII letters, digits, `-` or `_`), and no other tag has the same name or the same slug. |
| `Recipes.AddTagRejectsBadSlug` | backend/foodgram/recipes/models.py:219-223 | A tag whose slug contains a space is refused, whatever is stored. |
| `Recipes.AddTagKeepsValid` | backend/foodgram/recipes/models.py:208-223 | An accepted tag keeps a valid store valid, including unique tag names and slugs. |
| `Recipes.DeleteRecipe` | backend/foodgram/recipes/models.py:99-104 | Deleting a recipe removes it, every IngredientAmount row of it, and every FavoriteRecipe and ShoppingCart pair naming it. The CASCADE on `recipe` at lines 165-170 and 190-195 is covered too. Every other row is kept. |
| `Recipes.DeleteRecipeKeepsValid` | backend/foodgram/recipes/models.py:99-104 | After a recipe is deleted from a valid store, the store is still valid: no amount, favorite or cart row refers to the deleted recipe. |
| `Recipes.DeleteIngredient` | backend/foodgram/recipes/models.py:93-98 | Deleting an ingredient removes it and exactly its IngredientAmount rows. Everything else is unchanged. |
| `Recipes.DeleteIngredientKeepsValid` | backend/foodgram/recipes/models.py:93-98 | After an ingredient is deleted from a valid store, the store is still valid: no amount row refers to it. |
| `Recipes.DeleteTag` | backend/foodgram/recipes/models.py:35-38 | Deleting a tag removes it from every recipe's tag set. Every other field of every recipe, and every other table, is unchanged. |
| `Recipes.DeleteTagKeepsValid` | backend/foodgram/recipes/models.py:35-38 | After a tag is deleted from a valid store, the store is still valid: no recipe refers to it. |
| `Recipes.DeleteUser` | backend/foodgram/recipes/models.py:10-14 | Deleting a user removes: the user; exactly the recipes they wrote; the amounts, favorites and cart pairs of those recipes; every subscription with them as user or as author; their own favorites and cart pairs. Everything else is kept. |
| `Recipes.DeleteUserKeepsValid` | backend/foodgram/recipes/models.py:130-142 | After a user is deleted from a valid store, the store is still valid (no orphan rows). No recipe, subscription, favorite or cart pair refers to that user any more. |
| `Recipes.PairTablesKeepValid` | backend/foodgram/recipes/models.py:144-152 | Replacing the subscription, favorite and cart tables keeps the store valid when the new pairs satisfy three conditions: they refer to existing users and recipes; no subscription pairs a user with themselves; `unique_relationships` holds, which it does structurally because the tables are sets. |
| `Recipes.ListRecipes` | backend/foodgram/recipes/models.py:65-66 | The default recipe listing orders by `pub_date`, newest first, and holds exactly the stored rows (a permutation). |
| `Recipes.RecipeListingIndependentOfInsertionOrder` | backend/foodgram/recipes/models.py:60-66 | When publication dates are distinct, every insertion order of the same recipes gives the same listing. |
| `Ordering.SortBy` | backend/foodgram/recipes/models.py:65-66 | For any total preorder, the listing is sorted and is a permutation of the stored rows. |
| `Ordering.SortedPermutationUnique` | backend/foodgram/users/models.py:17-18 | Two sorted permutations of the same rows are equal when the key tells distinct rows apart. |
| `ShoppingList.CartOf` | backend/foodgram/api/views.py:147-150 | A recipe is in the user's cart exactly when the (user, recipe) pair is in the cart table. |
| `ShoppingList.CartEntries` | backend/foodgram/api/views.py:149-153 | Every IngredientAmount row of a cart recipe gives an entry with its ingredient's name, unit and amount, and every entry comes from such a row. Each entry occurs exactly as many times as there are cart rows that join to it (`CartEntriesCount`). Each key's total over the entries equals `RowTotal` (`CartEntriesSum`). Reordering the rows reorders the entries (`CartEntriesPermutation`). |
| `ShoppingList.CartEntriesCount` | backend/foodgram/api/views.py:149-153 | For every entry, the number of times it occurs among the joined entries equals `RowCount`: the number of stored rows of cart recipes whose ingredient and amount give that entry. |
| `ShoppingList.CartEntriesSum` | backend/foodgram/api/views.py:149-154 | For every (name, unit), the sum over the joined entries equals `RowTotal`: the sum of `amount` over the stored rows of cart recipes with that ingredient name and unit. |
| `ShoppingList.CartEntriesPermutation` | backend/foodgram/api/views.py:149-153 | Any reordering of the stored IngredientAmount rows gives a reordering of the joined entries, with the same multiplicities. |
| `ShoppingList.Aggregate` | backend/foodgram/api/views.py:149-154 | One group per distinct (name, unit), with no key repeated. A group exists exactly for the keys present in the rows. Each group's total equals `SumFor`, the sum of the amounts with that key. |
| `ShoppingList.AggregateGroups` | backend/foodgram/api/views.py:151-154 | A (key, total) line is listed exactly when the key occurs among the rows and the total is the sum of that key's amounts. |
| `ShoppingList.SumForPermutation` | backend/foodgram/api/views.py:154 | The sum for a key is the same in every order of the rows. |
| `ShoppingList.AggregateIndependentOfOrder` | backend/foodgram/api/views.py:149-154 | Any reordering of the joined entries gives the same lines, each exactly once. For example, the same ingredient in several recipes is merged into one total, whatever the order of the recipes. |
| `ShoppingList.ShoppingListRowTotals` | backend/foodgram/api/views.py:149-154 | Over the stored rows: a (name, unit, total) line is listed exactly when some row of a cart recipe has that ingredient name and unit, and the total is the sum of `amount` over all such rows. |
| `ShoppingList.ShoppingListIndependentOfRowOrder` | backend/foodgram/api/views.py:149-154 | Storing the same IngredientAmount rows in another order gives the same lines, each once. |
| `ShoppingList.SameIngredientMerged` | backend/foodgram/api/views.py:149-154 | Two rows for "Соль, г" with amounts 5 and 3 give the single line total 8. |
| `ShoppingList.NatToString` | backend/foodgram/api/views.py:162 | The printed amount is a non-empty string of decimal digits with no leading zero. |
| `ShoppingList.IntToStringRoundTrip` | backend/foodgram/api/views.py:162 | The printed total is an optional minus sign followed by digits, and reading it back gives the total. |
| `ShoppingList.JoinSplit` | backend/foodgram/api/views.py:160-163 | The list body is the lines of the groups before i, then group i's `name: total unit` line, then the lines after it. |
| `ShoppingList.ShoppingListLayout` | backend/foodgram/api/views.py:156-165 | The document starts with the header naming the user's first name. Group i's line sits right after the lines of groups 0..i-1. The document ends with the "Посчитано в Foodgram" footer. |
| `ShoppingList.RenderShoppingList` | backend/foodgram/api/views.py:157-165 | The text built line by line in the loop is exactly header, the lines in group order, then footer. |
| `Views.Toggle` | backend/foodgram/api/views.py:94-122 | Once the recipe is found, the outcomes are: 201 exactly for POST of an absent pair, which is inserted; 204 exactly for DELETE of a present pair, which is removed; 400 otherwise, with the table unchanged. The 400 carries "already in list" for a POST of a present pair and "not in list" for a DELETE of an absent pair. No other pair ever changes. |
| `Views.AddTwice` | backend/foodgram/api/views.py:97-107 | Adding the same recipe twice stores one pair, answers 201 then 400 "already in list", and leaves the table as after the first add. |
| `Views.RemoveAbsentRetry` | backend/foodgram/api/views.py:109-118 | Removing an absent pair answers 400 and changes nothing, so a retry answers 400 again. |
| `Views.AddThenRemove` | backend/foodgram/api/views.py:96-116 | Removing a pair that was just added answers 204 and restores the table. |
| `Views.PostAsWritten` | backend/foodgram/api/views.py:97-99 | As written, a POST leaves exactly the old table plus the pair (unchanged when the pair was already there) and always ends in a server error (500). |
| `Views.GetOrCreateFinding` | backend/foodgram/api/views.py:97-107 | For an absent pair, the code as written stores the same table as the intended behaviour but answers differently. A repeated POST answers 500 where the intended answer is 400 "already in list". |
| `Views.SubscribeOutcome` | backend/foodgram/api/views.py:48-59 | POST creates (user, author) with 201 exactly when user ≠ author and the pair is absent. Otherwise POST fails with the violated constraint (`prevent_self_follow` or `unique_relationships`) and changes nothing. Any other method removes the pair and answers 204. A newly stored pair never links a user to themselves. |
| `Views.SelfSubscriptionAlwaysFails` | backend/foodgram/recipes/models.py:150-152 | Subscribing to oneself fails whatever is stored, and stores nothing. |
| `Views.UnsubscribeIdempotent` | backend/foodgram/api/views.py:58-59 | Unsubscribing answers 204 whether or not the pair exists, leaves the pair absent, and a second call changes nothing. |
| `Views.CartSeenAsWritten` | backend/foodgram/api/views.py:146-150 | As written, the download sees exactly the recipes paired with the user in the `Recipe.cart` many-to-many table. |
| `Views.CartTableFinding` | backend/foodgram/api/views.py:137-150 | After a recipe is added through the cart view, the download as written still finds an empty cart. The corrected cart contains the recipe. |
| `Views.Status.Code` | backend/foodgram/api/views.py:55-59 | Every answer is 201, 204, 400, 404 or 500, and it is a success code exactly for Created and NoContent. |
| `Views.Store.PostDelRecipe` | backend/foodgram/api/views.py:94-122 | 404 for an unknown recipe, with no change. Otherwise the answer and the new favorites or cart table are `Toggle` of the old table, and the other table is unchanged. The store stays valid. |
| `Views.Store.Favorite` | backend/foodgram/api/views.py:124-130 | The favorites table follows `Toggle` (404 for an unknown recipe). The cart table is unchanged. The store stays valid. |
| `Views.Store.ShoppingCart` | backend/foodgram/api/views.py:132-138 | The cart table follows `Toggle` (404 for an unknown recipe). The favorites table is unchanged. The store stays valid. |
| `Views.Store.Subscribe` | backend/foodgram/api/views.py:44-59 | 404 for an unknown author, with no change. Otherwise the answer and the subscription table are `SubscribeOutcome` of the old table. The store stays valid. |
| `Views.Store.DownloadShoppingCart` | backend/foodgram/api/views.py:140-171 | 400 exactly when the cart is empty, with no document. Otherwise the document is named `<username>_shopping_list.txt` and holds the rendered list of `Aggregate` over the cart's joined rows. |

## Left out

- HTTP and framework plumbing is left out: responses, content type and `Content-Disposition`, serializers, permission classes, pagination and filter backends. The recipe filters by author, tags, favorites and cart live in `api/filters.py`, which is not part of this model.
- The `subscriptions` listing (api/views.py:35-42) is pagination and serialization only.
- The Tag and Ingredient read-only viewsets (api/views.py:62-75), `perform_create` and `get_serializer_class` are left out. Creating and editing recipes goes through serializers, which are not part of this model. `Recipes.AddRecipe` models only the checks the model fields declare.
- Images are left out. The tag colour is an uninterpreted string: the `ColorField` hex validation belongs to a foreign library. Its `default='#FF0000'` (recipes/models.py:214-218) is not modelled either; `Recipes.AddTag` always takes an explicit colour.
- Users.CreateUser: does not check `EmailField`'s email-format validator (users/models.py:12). Django's email validation is a large regular expression with domain and IDNA rules, so only the length bound and uniqueness of `email` are modelled.
- Recipes.AddRecipe: `cooking_time`'s `default=1` (recipes/models.py:46) is not modelled. The model always takes an explicit cooking time, so a request that omits the field is not covered.
- Recipes.AddIngredientAmount: `amount`'s `default=1` (recipes/models.py:114) is not modelled. The model always takes an explicit amount.
- Passwords are length-checked only; hashing is left out. Authentication is not modelled. The authenticated user is an explicit parameter, required to be a registered user.
- `pub_date`'s clock is the parameter `now` of `Recipes.AddRecipe`. The listing lemma assumes distinct dates.
- Transactions and concurrent requests are left out. Every operation is sequential and checks the constraints itself.
- Subscribe with a duplicate or self-subscription: the source lets `IntegrityError` escape, which reaches the client as a 500. The model returns the typed `ServerError(IntegrityError(<constraint name>))` with code 500.
- Unsubscribe of an absent pair answers 204, as the code does. A stricter reading would have it fail when the pair is missing; the model follows the code.
- The `OtherMethod` branches follow the function text. In `Views.SubscribeOutcome`, a method other than POST falls through to the delete branch (api/views.py:58-59). In `Views.Toggle`, a method other than POST and DELETE gets the `else` branch's 400 "Метод обращения недопустим." (api/views.py:120-122). Through the router only POST and DELETE reach these views (api/views.py:44-46, 124-128 and 132-136); the framework answers other methods itself, so the endpoint cannot reach either branch.
- The `Recipe.favorite` many-to-many table (recipes/models.py:55-59) is not modelled. No view reads or writes it; favorites are the FavoriteRecipe table.
- The order of the shopping-list lines is left to the database in the source. The model lists groups in order of first appearance among the stored rows. `ShoppingList.AggregateIndependentOfOrder` shows that the set of lines does not depend on that order.
- `Users.ListUsers` compares usernames character by character. The database's collation is not modelled.
- The validators are checked at insert time, as the serializers would check them. The ORM's `create` does not run them, and that difference is not modelled.
- Primary keys are map keys, so their uniqueness is structural. The unique (user, recipe) and (user, author) constraints on the pair tables are structural too, because the tables are sets.
- `PositiveSmallIntegerField`'s storage range (0..32767) is not modelled. It contains the validator ranges.
- The admin site, the migrations and `__str__` are left out.

## Findings

| source | as written | input that shows it | evidently intended | confidence | as-written member | corrected member |
|---|---|---|---|---|---|---|
| backend/foodgram/api/views.py:97-99 | `get_or_create(...)` inserts the pair and returns an (object, created) tuple; `.exists()` on the tuple raises, so every POST to favorite or shopping_cart ends in a 500 after the row is stored | POST favorite for a recipe not yet in favorites: the row is stored and the answer is 500; a second POST answers 500, not 400 | create the pair if absent and answer 201, otherwise answer 400 "already in list" (messages at lines 106 and 117) | high, not executed | `Views.PostAsWritten` (shown by `Views.GetOrCreateFinding`) | `Views.Toggle` (with `Views.AddTwice`) |
| backend/foodgram/api/views.py:147-150 | the download reads `user.carts`, the `Recipe.cart` many-to-many table (recipes/models.py:50-54), while `shopping_cart` writes the ShoppingCart table (line 138) | POST shopping_cart for recipe r, then download: the many-to-many table is still empty, so the answer is 400 | the download reads the recipes the cart view stored | high, not executed | `Views.CartSeenAsWritten` (shown by `Views.CartTableFinding`) | `Views.Store.DownloadShoppingCart` |
