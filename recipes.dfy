/**
 * The recipe schema (`recipes/models.py`) as a value: a snapshot of every table,
 * the validators and constraints the models declare, the CASCADE deletes, the
 * insert-time checks of the IngredientAmount constraints, and the default recipe
 * listing order.
 */
module Recipes {
  import opened Results
  import opened Ordering
  import opened Users

  type RecipeId = nat
  type IngredientId = nat
  type TagId = nat

  const RecipeNameMaxLength := 100
  const RecipeTextMaxLength := 500
  const MinCookingTime := 1
  const MaxCookingTime := 180
  const IngredientNameMaxLength := 100
  const MeasurementUnitMaxLength := 10
  const MinAmount := 1
  const MaxAmount := 1000
  const TagFieldMaxLength := 20

  /** A recipe row; `pubDate` is the creation timestamp as an abstract integer. */
  datatype Recipe = Recipe(
    author: UserId,
    name: string,
    text: string,
    cookingTime: int,
    pubDate: int,
    tags: set<TagId>)

  datatype Ingredient = Ingredient(name: string, measurementUnit: string)

  /** A row of the Recipe-Ingredient through table. */
  datatype IngredientAmount = IngredientAmount(recipe: RecipeId, ingredient: IngredientId, amount: int)

  datatype Tag = Tag(name: string, color: string, slug: string)

  /** (user, author) for Subscription; (user, recipe) for FavoriteRecipe and ShoppingCart. */
  type Follow = (UserId, UserId)
  type Mark = (UserId, RecipeId)

  datatype Db = Db(
    users: map<UserId, User>,
    recipes: map<RecipeId, Recipe>,
    ingredients: map<IngredientId, Ingredient>,
    tags: map<TagId, Tag>,
    amounts: seq<IngredientAmount>,
    subscriptions: set<Follow>,
    favorites: set<Mark>,
    carts: set<Mark>)

  /** The validators of `cooking_time`. */
  predicate CookingTimeValid(t: int)
  {
    MinCookingTime <= t <= MaxCookingTime
  }

  /** The validators of `IngredientAmount.amount`. */
  predicate AmountValid(a: int)
  {
    MinAmount <= a <= MaxAmount
  }

  /** Non-blank (`blank=False`) character fields within `max_length`, and the cooking-time validators. */
  predicate RecipeFieldsValid(r: Recipe)
  {
    && 0 < |r.name| <= RecipeNameMaxLength
    && 0 < |r.text| <= RecipeTextMaxLength
    && CookingTimeValid(r.cookingTime)
  }

  /** Non-blank name and unit within their `max_length`. */
  predicate IngredientFieldsValid(i: Ingredient)
  {
    0 < |i.name| <= IngredientNameMaxLength && 0 < |i.measurementUnit| <= MeasurementUnitMaxLength
  }

  /** A character Django's `validate_slug` accepts: an ASCII letter, a digit, `-` or `_`. */
  predicate IsSlugChar(c: char)
  {
    ('a' <= c <= 'z') || ('A' <= c <= 'Z') || ('0' <= c <= '9') || c == '-' || c == '_'
  }

  /** `SlugField`'s validator: one or more slug characters. */
  predicate IsSlug(s: string)
  {
    |s| > 0 && forall i :: 0 <= i < |s| ==> IsSlugChar(s[i])
  }

  /** A non-blank name and a well-formed slug, both within `max_length`. */
  predicate TagFieldsValid(t: Tag)
  {
    0 < |t.name| <= TagFieldMaxLength && |t.slug| <= TagFieldMaxLength && IsSlug(t.slug)
  }

  /** `unique=True` on Tag.name and on Tag.slug. */
  ghost predicate TagsUnique(tags: map<TagId, Tag>)
  {
    && (forall a, b :: a in tags && b in tags && tags[a].name == tags[b].name ==> a == b)
    && (forall a, b :: a in tags && b in tags && tags[a].slug == tags[b].slug ==> a == b)
  }

  /** The `unique_ingredient_in_recipe` constraint. */
  predicate AmountsUnique(rows: seq<IngredientAmount>)
  {
    forall i, j :: 0 <= i < j < |rows| ==> (rows[i].recipe, rows[i].ingredient) != (rows[j].recipe, rows[j].ingredient)
  }

  predicate AmountRowValid(db: Db, row: IngredientAmount)
  {
    row.recipe in db.recipes && row.ingredient in db.ingredients && AmountValid(row.amount)
  }

  /** Validators and foreign keys of the Recipe rows. */
  ghost predicate RecipesValid(db: Db)
  {
    && (forall r :: r in db.recipes ==> RecipeFieldsValid(db.recipes[r]))
    && (forall r :: r in db.recipes ==> db.recipes[r].author in db.users)
    && (forall r :: r in db.recipes ==> db.recipes[r].tags <= db.tags.Keys)
  }

  /** Validators and unique constraints of the Ingredient and Tag rows. */
  ghost predicate CatalogValid(db: Db)
  {
    && (forall i :: i in db.ingredients ==> IngredientFieldsValid(db.ingredients[i]))
    && (forall t :: t in db.tags ==> TagFieldsValid(db.tags[t]))
    && TagsUnique(db.tags)
  }

  /** Validators, foreign keys and the unique constraint of the IngredientAmount rows. */
  ghost predicate AmountsValid(db: Db)
  {
    && (forall k :: 0 <= k < |db.amounts| ==> AmountRowValid(db, db.amounts[k]))
    && AmountsUnique(db.amounts)
  }

  /** Foreign keys of Subscription, FavoriteRecipe and ShoppingCart, and `prevent_self_follow`. */
  ghost predicate PairsValid(db: Db)
  {
    && (forall f :: f in db.subscriptions ==> f.0 in db.users && f.1 in db.users)
    && (forall f :: f in db.subscriptions ==> f.0 != f.1)
    && (forall m :: m in db.favorites ==> m.0 in db.users && m.1 in db.recipes)
    && (forall m :: m in db.carts ==> m.0 in db.users && m.1 in db.recipes)
  }

  /**
   * The length, range and slug validators, every unique and check constraint the
   * models declare, and every foreign key pointing at an existing row (no orphans).
   */
  ghost predicate Valid(db: Db)
  {
    UsersValid(db.users) && RecipesValid(db) && CatalogValid(db) && AmountsValid(db) && PairsValid(db)
  }

  /** The rows of `rows` that `keep` accepts, in their stored order. */
  function FilterAmounts(rows: seq<IngredientAmount>, keep: IngredientAmount -> bool): (r: seq<IngredientAmount>)
    ensures forall x :: x in r <==> x in rows && keep(x)
    ensures |r| <= |rows|
    ensures AmountsUnique(rows) ==> AmountsUnique(r)
  {
    if rows == [] then []
    else
      var rest := FilterAmounts(rows[1..], keep);
      assert forall x :: x in rows <==> x == rows[0] || x in rows[1..];
      assert AmountsUnique(rows) ==> AmountsUnique(rows[1..]);
      assert AmountsUnique(rows) ==> forall k :: 0 <= k < |rest| ==>
        (rest[k].recipe, rest[k].ingredient) != (rows[0].recipe, rows[0].ingredient) by {
        if AmountsUnique(rows) {
          forall k | 0 <= k < |rest|
            ensures (rest[k].recipe, rest[k].ingredient) != (rows[0].recipe, rows[0].ingredient)
          {
            assert rest[k] in rows[1..];
            var m :| 0 <= m < |rows[1..]| && rows[1..][m] == rest[k];
            assert rows[m + 1] == rest[k];
          }
        }
      }
      if keep(rows[0]) then [rows[0]] + rest else rest
  }

  /**
   * Deleting a recipe: its IngredientAmount, FavoriteRecipe and ShoppingCart rows
   * go with it (CASCADE on each `recipe` foreign key).
   */
  function DeleteRecipe(db: Db, id: RecipeId): (r: Db)
    ensures r.recipes.Keys == db.recipes.Keys - {id}
    ensures forall k :: k in r.recipes ==> r.recipes[k] == db.recipes[k]
    ensures r.users == db.users && r.ingredients == db.ingredients && r.tags == db.tags
    ensures r.subscriptions == db.subscriptions
    ensures forall x :: x in r.amounts <==> x in db.amounts && x.recipe != id
    ensures forall m :: m in r.favorites <==> m in db.favorites && m.1 != id
    ensures forall m :: m in r.carts <==> m in db.carts && m.1 != id
  {
    db.(recipes := db.recipes - {id},
        amounts := FilterAmounts(db.amounts, (row: IngredientAmount) => row.recipe != id),
        favorites := (set m | m in db.favorites && m.1 != id),
        carts := (set m | m in db.carts && m.1 != id))
  }

  /** Deleting an ingredient: its IngredientAmount rows go with it. */
  function DeleteIngredient(db: Db, id: IngredientId): (r: Db)
    ensures r.ingredients.Keys == db.ingredients.Keys - {id}
    ensures forall k :: k in r.ingredients ==> r.ingredients[k] == db.ingredients[k]
    ensures r.users == db.users && r.recipes == db.recipes && r.tags == db.tags
    ensures r.subscriptions == db.subscriptions && r.favorites == db.favorites && r.carts == db.carts
    ensures forall x :: x in r.amounts <==> x in db.amounts && x.ingredient != id
  {
    db.(ingredients := db.ingredients - {id},
        amounts := FilterAmounts(db.amounts, (row: IngredientAmount) => row.ingredient != id))
  }

  /** Deleting a tag removes it from every recipe's tag set (the many-to-many rows). */
  function DeleteTag(db: Db, id: TagId): (r: Db)
    ensures r.tags.Keys == db.tags.Keys - {id}
    ensures r.recipes.Keys == db.recipes.Keys
    ensures forall k :: k in r.recipes ==> r.recipes[k].tags == db.recipes[k].tags - {id}
    ensures forall k :: k in r.recipes ==> r.recipes[k].(tags := {}) == db.recipes[k].(tags := {})
    ensures r.users == db.users && r.ingredients == db.ingredients && r.amounts == db.amounts
    ensures r.subscriptions == db.subscriptions && r.favorites == db.favorites && r.carts == db.carts
  {
    db.(tags := db.tags - {id},
        recipes := map k | k in db.recipes :: db.recipes[k].(tags := db.recipes[k].tags - {id}))
  }

  /** The recipes written by `user`. */
  function RecipesBy(db: Db, user: UserId): (ids: set<RecipeId>)
    ensures forall k :: k in ids <==> k in db.recipes && db.recipes[k].author == user
  {
    set k | k in db.recipes && db.recipes[k].author == user
  }

  /**
   * Deleting a user: their recipes (CASCADE on `author`) with everything that
   * refers to those recipes, every subscription where they are user or author,
   * and their own FavoriteRecipe and ShoppingCart rows.
   */
  function DeleteUser(db: Db, id: UserId): (r: Db)
    ensures r.users.Keys == db.users.Keys - {id}
    ensures forall k :: k in r.users ==> r.users[k] == db.users[k]
    ensures forall k :: k in r.recipes <==> k in db.recipes && db.recipes[k].author != id
    ensures forall k :: k in r.recipes ==> r.recipes[k] == db.recipes[k]
    ensures r.ingredients == db.ingredients && r.tags == db.tags
    ensures forall x :: x in r.amounts <==> x in db.amounts && x.recipe !in RecipesBy(db, id)
    ensures forall f :: f in r.subscriptions <==> f in db.subscriptions && f.0 != id && f.1 != id
    ensures forall m :: m in r.favorites <==> m in db.favorites && m.0 != id && m.1 !in RecipesBy(db, id)
    ensures forall m :: m in r.carts <==> m in db.carts && m.0 != id && m.1 !in RecipesBy(db, id)
  {
    var gone := RecipesBy(db, id);
    var recipes := map k | k in db.recipes && k !in gone :: db.recipes[k];
    db.(users := db.users - {id},
        recipes := recipes,
        amounts := FilterAmounts(db.amounts, (row: IngredientAmount) => row.recipe !in gone),
        subscriptions := (set f | f in db.subscriptions && f.0 != id && f.1 != id),
        favorites := (set m | m in db.favorites && m.0 != id && m.1 !in gone),
        carts := (set m | m in db.carts && m.0 != id && m.1 !in gone))
  }

  /** Rows kept from a valid table still satisfy the amount constraints. */
  lemma FilteredAmountsValid(db: Db, r: Db)
    requires AmountsValid(db)
    requires forall x :: x in r.amounts ==> x in db.amounts
    requires forall x :: x in r.amounts && x.recipe in db.recipes ==> x.recipe in r.recipes
    requires forall x :: x in r.amounts && x.ingredient in db.ingredients ==> x.ingredient in r.ingredients
    requires AmountsUnique(r.amounts)
    ensures AmountsValid(r)
  {
    forall k | 0 <= k < |r.amounts| ensures AmountRowValid(r, r.amounts[k]) {
      var row := r.amounts[k];
      assert row in db.amounts;
      var j :| 0 <= j < |db.amounts| && db.amounts[j] == row;
      assert AmountRowValid(db, db.amounts[j]);
    }
  }

  /** Deleting a recipe leaves no orphan and breaks no constraint. */
  lemma DeleteRecipeKeepsValid(db: Db, id: RecipeId)
    requires Valid(db)
    ensures Valid(DeleteRecipe(db, id))
  {
    var r := DeleteRecipe(db, id);
    FilteredAmountsValid(db, r);
  }

  /** Deleting an ingredient leaves no orphan and breaks no constraint. */
  lemma DeleteIngredientKeepsValid(db: Db, id: IngredientId)
    requires Valid(db)
    ensures Valid(DeleteIngredient(db, id))
  {
    var r := DeleteIngredient(db, id);
    FilteredAmountsValid(db, r);
  }

  /** Deleting a tag leaves no orphan and breaks no constraint. */
  lemma DeleteTagKeepsValid(db: Db, id: TagId)
    requires Valid(db)
    ensures Valid(DeleteTag(db, id))
  {
    var r := DeleteTag(db, id);
    assert RecipesValid(r) by {
      forall k | k in r.recipes ensures RecipeFieldsValid(r.recipes[k]) {
        assert r.recipes[k].(tags := {}) == db.recipes[k].(tags := {});
      }
    }
    assert AmountsValid(r) by {
      forall k | 0 <= k < |r.amounts| ensures AmountRowValid(r, r.amounts[k]) {
        assert AmountRowValid(db, db.amounts[k]);
      }
    }
  }

  /**
   * No orphans after deleting a user: every remaining row still refers to
   * existing rows, and every constraint still holds.
   */
  lemma DeleteUserKeepsValid(db: Db, id: UserId)
    requires Valid(db)
    ensures Valid(DeleteUser(db, id))
    ensures var r := DeleteUser(db, id);
      && (forall k :: k in r.recipes ==> r.recipes[k].author != id)
      && (forall f :: f in r.subscriptions ==> f.0 != id && f.1 != id)
      && (forall m :: m in r.favorites ==> m.0 != id)
      && (forall m :: m in r.carts ==> m.0 != id)
  {
    var r := DeleteUser(db, id);
    assert UsersValid(r.users);
    assert RecipesValid(r);
    FilteredAmountsValid(db, r);
    DeleteUserKeepsPairsValid(db, id, r);
  }

  /** The pair tables left after deleting a user refer only to remaining rows. */
  lemma DeleteUserKeepsPairsValid(db: Db, id: UserId, r: Db)
    requires PairsValid(db)
    requires r == DeleteUser(db, id)
    ensures PairsValid(r)
  {
    forall m | m in r.favorites ensures m.1 in r.recipes {
      assert m.1 in db.recipes && m.1 !in RecipesBy(db, id);
    }
    forall m | m in r.carts ensures m.1 in r.recipes {
      assert m.1 in db.recipes && m.1 !in RecipesBy(db, id);
    }
  }

  /** Replacing the pair tables by pairs of existing rows keeps every constraint. */
  lemma PairTablesKeepValid(db: Db, subscriptions: set<Follow>, favorites: set<Mark>, carts: set<Mark>)
    requires Valid(db)
    requires forall f :: f in subscriptions ==> f.0 in db.users && f.1 in db.users && f.0 != f.1
    requires forall m :: m in favorites ==> m.0 in db.users && m.1 in db.recipes
    requires forall m :: m in carts ==> m.0 in db.users && m.1 in db.recipes
    ensures Valid(db.(subscriptions := subscriptions, favorites := favorites, carts := carts))
  {
    var r := db.(subscriptions := subscriptions, favorites := favorites, carts := carts);
    assert forall k :: 0 <= k < |r.amounts| ==> AmountRowValid(r, r.amounts[k]) by {
      forall k | 0 <= k < |r.amounts| ensures AmountRowValid(r, r.amounts[k]) {
        assert AmountRowValid(db, db.amounts[k]);
      }
    }
  }

  /** Why inserting an IngredientAmount row is refused. */
  datatype AmountError = UnknownRecipe | UnknownIngredient | AmountOutOfRange | DuplicateIngredientInRecipe

  predicate HasAmountRow(rows: seq<IngredientAmount>, recipe: RecipeId, ingredient: IngredientId)
  {
    exists k :: 0 <= k < |rows| && rows[k].recipe == recipe && rows[k].ingredient == ingredient
  }

  /**
   * Inserting an IngredientAmount row with the amount validators, both foreign
   * keys and `unique_ingredient_in_recipe` checked.
   */
  function AddIngredientAmount(db: Db, row: IngredientAmount): (r: Result<Db, AmountError>)
    ensures r.Ok? <==>
      row.recipe in db.recipes && row.ingredient in db.ingredients && AmountValid(row.amount)
      && !HasAmountRow(db.amounts, row.recipe, row.ingredient)
    ensures r.Err? && row.recipe in db.recipes && row.ingredient in db.ingredients
              && !HasAmountRow(db.amounts, row.recipe, row.ingredient)
            ==> r.error == AmountOutOfRange
    ensures r.Ok? ==> r.value == db.(amounts := db.amounts + [row])
  {
    if row.recipe !in db.recipes then Err(UnknownRecipe)
    else if row.ingredient !in db.ingredients then Err(UnknownIngredient)
    else if !AmountValid(row.amount) then Err(AmountOutOfRange)
    else if HasAmountRow(db.amounts, row.recipe, row.ingredient) then Err(DuplicateIngredientInRecipe)
    else
      Ok(db.(amounts := db.amounts + [row]))
  }

  /** An accepted IngredientAmount row breaks no constraint. */
  lemma AddIngredientAmountKeepsValid(db: Db, row: IngredientAmount)
    requires Valid(db)
    requires AddIngredientAmount(db, row).Ok?
    ensures Valid(AddIngredientAmount(db, row).value)
  {
    var r := db.(amounts := db.amounts + [row]);
    forall i, j | 0 <= i < j < |r.amounts|
      ensures (r.amounts[i].recipe, r.amounts[i].ingredient) != (r.amounts[j].recipe, r.amounts[j].ingredient)
    {
      if j == |db.amounts| {
        assert r.amounts[i] == db.amounts[i];
      }
    }
    forall k | 0 <= k < |r.amounts| ensures AmountRowValid(r, r.amounts[k]) {
      if k < |db.amounts| {
        assert AmountRowValid(db, db.amounts[k]);
      }
    }
  }

  /** Why inserting a recipe row is refused. */
  datatype RecipeError = RecipeIdTaken | UnknownAuthor | UnknownTag | RecipeFieldInvalid

  /**
   * Inserting a recipe with its validators and foreign keys checked; `pub_date`
   * is the clock reading `now` at insertion.
   */
  function AddRecipe(db: Db, id: RecipeId, author: UserId, name: string, text: string,
                     cookingTime: int, tags: set<TagId>, now: int): (r: Result<Db, RecipeError>)
    ensures r.Ok? <==>
      && id !in db.recipes && author in db.users && tags <= db.tags.Keys
      && 0 < |name| <= RecipeNameMaxLength && 0 < |text| <= RecipeTextMaxLength
      && CookingTimeValid(cookingTime)
    ensures r.Err? && id !in db.recipes && author in db.users && tags <= db.tags.Keys
              && !CookingTimeValid(cookingTime)
            ==> r.error == RecipeFieldInvalid
    ensures r.Ok? ==> r.value.recipes.Keys == db.recipes.Keys + {id}
    ensures r.Ok? ==> r.value.recipes[id] == Recipe(author, name, text, cookingTime, now, tags)
    ensures r.Ok? ==> forall k :: k in db.recipes ==> r.value.recipes[k] == db.recipes[k]
    ensures r.Ok? ==> r.value.(recipes := db.recipes) == db
  {
    var recipe := Recipe(author, name, text, cookingTime, now, tags);
    if id in db.recipes then Err(RecipeIdTaken)
    else if author !in db.users then Err(UnknownAuthor)
    else if !(tags <= db.tags.Keys) then Err(UnknownTag)
    else if !RecipeFieldsValid(recipe) then Err(RecipeFieldInvalid)
    else
      Ok(db.(recipes := db.recipes[id := recipe]))
  }

  /** An accepted recipe breaks no constraint. */
  lemma AddRecipeKeepsValid(db: Db, id: RecipeId, author: UserId, name: string, text: string,
                            cookingTime: int, tags: set<TagId>, now: int)
    requires Valid(db)
    requires AddRecipe(db, id, author, name, text, cookingTime, tags, now).Ok?
    ensures Valid(AddRecipe(db, id, author, name, text, cookingTime, tags, now).value)
  {
    var r := AddRecipe(db, id, author, name, text, cookingTime, tags, now).value;
    forall k | 0 <= k < |r.amounts| ensures AmountRowValid(r, r.amounts[k]) {
      assert AmountRowValid(db, db.amounts[k]);
    }
  }

  /** Why inserting a tag row is refused. */
  datatype TagError = TagIdTaken | TagFieldInvalid | DuplicateTagName | DuplicateTagSlug

  /** Inserting a tag with the length bounds and both unique constraints checked. */
  function AddTag(db: Db, id: TagId, tag: Tag): (r: Result<Db, TagError>)
    ensures r.Ok? <==>
      && id !in db.tags && TagFieldsValid(tag)
      && (forall t :: t in db.tags ==> db.tags[t].name != tag.name)
      && (forall t :: t in db.tags ==> db.tags[t].slug != tag.slug)
    ensures r.Ok? ==> r.value == db.(tags := db.tags[id := tag])
  {
    if id in db.tags then Err(TagIdTaken)
    else if !TagFieldsValid(tag) then Err(TagFieldInvalid)
    else if exists t :: t in db.tags && db.tags[t].name == tag.name then Err(DuplicateTagName)
    else if exists t :: t in db.tags && db.tags[t].slug == tag.slug then Err(DuplicateTagSlug)
    else
      Ok(db.(tags := db.tags[id := tag]))
  }

  /** An accepted tag breaks no constraint. */
  lemma AddTagKeepsValid(db: Db, id: TagId, tag: Tag)
    requires Valid(db)
    requires AddTag(db, id, tag).Ok?
    ensures Valid(AddTag(db, id, tag).value)
  {
    var r := db.(tags := db.tags[id := tag]);
    forall k | 0 <= k < |r.amounts| ensures AmountRowValid(r, r.amounts[k]) {
      assert AmountRowValid(db, db.amounts[k]);
    }
    forall k | k in r.recipes ensures r.recipes[k].tags <= r.tags.Keys {
      assert db.recipes[k].tags <= db.tags.Keys;
    }
  }

  /** A slug with a space is refused, whatever else is stored. */
  lemma AddTagRejectsBadSlug(db: Db, id: TagId)
    ensures AddTag(db, id, Tag("Завтрак", "#E26C2D", "on toast")).Err?
  {
    assert !IsSlugChar(' ');
    assert "on toast"[2] == ' ';
  }

  /** `Meta.ordering = ('-pub_date',)`: newest first. */
  predicate NewestFirst(a: Recipe, b: Recipe)
  {
    a.pubDate >= b.pubDate
  }

  /** The default listing of the stored recipe rows. */
  function ListRecipes(rows: seq<Recipe>): (r: seq<Recipe>)
    ensures forall i, j :: 0 <= i < j < |r| ==> r[i].pubDate >= r[j].pubDate
    ensures multiset(r) == multiset(rows)
  {
    SortBy(rows, NewestFirst)
  }

  /**
   * With publication dates assigned distinctly, the recipe listing is the same
   * for every order in which the recipes were inserted.
   */
  lemma RecipeListingIndependentOfInsertionOrder(a: seq<Recipe>, b: seq<Recipe>)
    requires multiset(a) == multiset(b)
    requires forall i, j :: 0 <= i < |a| && 0 <= j < |a| && a[i].pubDate == a[j].pubDate ==> a[i] == a[j]
    ensures ListRecipes(a) == ListRecipes(b)
  {
    ListingIndependentOfStorageOrder(a, b, NewestFirst);
  }
}
