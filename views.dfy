/**
 * The state-changing and summarising views of `api/views.py`: adding and
 * removing favorites and cart entries (`post_del_recipe`), subscribing and
 * unsubscribing, and downloading the shopping list. The authenticated user is
 * an explicit parameter; the tables are the fields of a store object.
 */
module Views {
  import opened Results
  import opened Users
  import opened Recipes
  import opened ShoppingList

  datatype Method = Post | Delete | OtherMethod

  /** The faults that escape a view uncaught and reach the client as a server error. */
  datatype Fault =
    | IntegrityError(constraint: string)  // a database constraint refused the insert
    | MissingAttribute                     // `.exists()` called on a tuple

  datatype Status =
    | Created
    | NoContent
    | BadRequest(message: string)
    | NotFound
    | ServerError(fault: Fault)
  {
    function Code(): (c: int)
      ensures c in {201, 204, 400, 404, 500}
      ensures 200 <= c < 300 <==> Created? || NoContent?
    {
      match this
      case Created => 201
      case NoContent => 204
      case BadRequest(_) => 400
      case NotFound => 404
      case ServerError(_) => 500
    }
  }

  const AlreadyInList := "errors: Объект уже в списке."
  const NotInList := "errors: Объект не в списке."
  const MethodNotAllowed := "errors: Метод обращения недопустим."

  const UniqueRelationships := "unique_relationships"
  const PreventSelfFollow := "prevent_self_follow"

  // ------------------------------------------------------ favorites and cart

  /**
   * `post_del_recipe` on one (user, recipe) table once the recipe is found:
   * POST inserts an absent pair, DELETE removes a present one, anything else is
   * refused with 400 and leaves the table as it was.
   */
  function Toggle(table: set<Mark>, mark: Mark, verb: Method): (r: (Status, set<Mark>))
    ensures r.0 == Created <==> verb == Post && mark !in table
    ensures r.0 == NoContent <==> verb == Delete && mark in table
    ensures r.0.Code() == 400 <==> !(r.0 == Created || r.0 == NoContent)
    ensures r.0 == Created ==> r.1 == table + {mark}
    ensures r.0 == NoContent ==> r.1 == table - {mark}
    ensures r.0.Code() == 400 ==> r.1 == table
    ensures verb == Post && mark in table ==> r.0 == BadRequest(AlreadyInList)
    ensures verb == Delete && mark !in table ==> r.0 == BadRequest(NotInList)
    ensures forall other :: other != mark ==> (other in r.1 <==> other in table)
  {
    match verb
    case Post =>
      if mark !in table then (Created, table + {mark}) else (BadRequest(AlreadyInList), table)
    case Delete =>
      if mark in table then (NoContent, table - {mark}) else (BadRequest(NotInList), table)
    case OtherMethod =>
      (BadRequest(MethodNotAllowed), table)
  }

  /** Adding the same recipe twice stores one pair and answers 400 the second time. */
  lemma AddTwice(table: set<Mark>, mark: Mark)
    requires mark !in table
    ensures var (first, once) := Toggle(table, mark, Post);
      var (second, twice) := Toggle(once, mark, Post);
      && first == Created && second == BadRequest(AlreadyInList)
      && twice == once == table + {mark}
  {
  }

  /** Removing an absent pair answers 400, and so does every retry. */
  lemma RemoveAbsentRetry(table: set<Mark>, mark: Mark)
    requires mark !in table
    ensures var (first, after) := Toggle(table, mark, Delete);
      && first.Code() == 400 && after == table
      && Toggle(after, mark, Delete) == (first, table)
  {
  }

  /** Removing what was just added restores the table. */
  lemma AddThenRemove(table: set<Mark>, mark: Mark)
    requires mark !in table
    ensures Toggle(Toggle(table, mark, Post).1, mark, Delete) == (NoContent, table)
  {
  }

  /**
   * The POST branch as written: `get_or_create` inserts the pair when it is
   * absent and returns an (object, created) tuple, and calling `.exists()` on
   * that tuple fails, so every POST ends in a server error.
   */
  function PostAsWritten(table: set<Mark>, mark: Mark): (r: (Status, set<Mark>))
    ensures r.1 == table + {mark}
    ensures mark in table ==> r.1 == table
    ensures r.0.Code() == 500
  {
    (ServerError(MissingAttribute), table + {mark})
  }

  /**
   * As written, a first POST stores the pair yet reports a failure, and a
   * repeated POST reports a server error instead of "already in list".
   */
  lemma GetOrCreateFinding(table: set<Mark>, mark: Mark)
    requires mark !in table
    ensures PostAsWritten(table, mark).1 == Toggle(table, mark, Post).1
    ensures PostAsWritten(table, mark).0 != Toggle(table, mark, Post).0
    ensures var again := PostAsWritten(table, mark).1;
      PostAsWritten(again, mark).0.Code() == 500 && Toggle(again, mark, Post).0 == BadRequest(AlreadyInList)
  {
  }

  // ------------------------------------------------------------- subscriptions

  /**
   * `subscribe` once the author is found: POST creates the (user, author) row,
   * which the database refuses for a self-subscription or a duplicate; every
   * other method deletes the row if present and answers 204.
   */
  function SubscribeOutcome(subscriptions: set<Follow>, user: UserId, author: UserId, verb: Method): (r: (Status, set<Follow>))
    ensures r.0 == Created <==> verb == Post && user != author && (user, author) !in subscriptions
    ensures verb != Post ==> r.0 == NoContent
    ensures r.0 == Created ==> r.1 == subscriptions + {(user, author)}
    ensures r.0 == NoContent ==> r.1 == subscriptions - {(user, author)}
    ensures r.0.ServerError? ==> r.1 == subscriptions
    ensures verb == Post && user == author ==> r.0 == ServerError(IntegrityError(PreventSelfFollow))
    ensures verb == Post && user != author && (user, author) in subscriptions
      ==> r.0 == ServerError(IntegrityError(UniqueRelationships))
    ensures forall f :: f in r.1 && f !in subscriptions ==> f.0 != f.1
  {
    var pair := (user, author);
    if verb == Post then
      if user == author then (ServerError(IntegrityError(PreventSelfFollow)), subscriptions)
      else if pair in subscriptions then (ServerError(IntegrityError(UniqueRelationships)), subscriptions)
      else (Created, subscriptions + {pair})
    else
      (NoContent, subscriptions - {pair})
  }

  /** Subscribing to oneself fails whatever is already stored, and stores nothing. */
  lemma SelfSubscriptionAlwaysFails(subscriptions: set<Follow>, user: UserId)
    ensures SubscribeOutcome(subscriptions, user, user, Post).0.Code() == 500
    ensures SubscribeOutcome(subscriptions, user, user, Post).1 == subscriptions
  {
  }

  /** Unsubscribing answers 204 whether or not the row exists, and doing it twice is doing it once. */
  lemma UnsubscribeIdempotent(subscriptions: set<Follow>, user: UserId, author: UserId)
    ensures var (first, once) := SubscribeOutcome(subscriptions, user, author, Delete);
      && first == NoContent && (user, author) !in once
      && SubscribeOutcome(once, user, author, Delete) == (NoContent, once)
  {
    var once := SubscribeOutcome(subscriptions, user, author, Delete).1;
    assert once - {(user, author)} == once;
  }

  // ------------------------------------------------------------- shopping cart

  /**
   * As written, the download looks for the cart in the recipe's own `cart`
   * many-to-many table, which no view writes, not in the ShoppingCart table the
   * cart view fills.
   */
  function CartSeenAsWritten(recipeCartM2M: set<Mark>, shoppingCart: set<Mark>, user: UserId): (ids: set<RecipeId>)
    ensures forall k :: k in ids <==> (user, k) in recipeCartM2M
  {
    set m | m in recipeCartM2M && m.0 == user :: m.1
  }

  /** As written, a recipe just put in the cart is not seen by the download, which answers 400. */
  lemma CartTableFinding(db: Db, user: UserId, pk: RecipeId, recipeCartM2M: set<Mark>)
    requires recipeCartM2M == {}
    ensures var carts := Toggle(db.carts, (user, pk), Post).1;
      && CartSeenAsWritten(recipeCartM2M, carts, user) == {}
      && pk in CartOf(db.(carts := carts), user)
  {
  }

  // ------------------------------------------------------------------ the store

  datatype ListKind = Favorites | Cart

  /** The tables of the database, updated row by row by the views. */
  class Store {
    var users: map<UserId, User>
    var recipes: map<RecipeId, Recipe>
    var ingredients: map<IngredientId, Ingredient>
    var tags: map<TagId, Tag>
    var amounts: seq<IngredientAmount>
    var subscriptions: set<Follow>
    var favorites: set<Mark>
    var carts: set<Mark>

    function Snapshot(): Db
      reads this
    {
      Db(users, recipes, ingredients, tags, amounts, subscriptions, favorites, carts)
    }

    ghost predicate Valid()
      reads this
    {
      Recipes.Valid(Snapshot())
    }

    constructor (db: Db)
      requires Recipes.Valid(db)
      ensures Snapshot() == db && Valid()
    {
      users, recipes, ingredients, tags := db.users, db.recipes, db.ingredients, db.tags;
      amounts, subscriptions, favorites, carts := db.amounts, db.subscriptions, db.favorites, db.carts;
    }

    /**
     * `post_del_recipe`: 404 for an unknown recipe, otherwise `Toggle` on the
     * favorites or the cart table; the other table is untouched.
     */
    method PostDelRecipe(user: UserId, pk: RecipeId, verb: Method, kind: ListKind) returns (status: Status)
      requires Valid() && user in users
      modifies this`favorites, this`carts
      ensures Valid()
      ensures pk !in recipes ==> status == NotFound && favorites == old(favorites) && carts == old(carts)
      ensures pk in recipes && kind == Favorites ==>
        (status, favorites) == Toggle(old(favorites), (user, pk), verb) && carts == old(carts)
      ensures pk in recipes && kind == Cart ==>
        (status, carts) == Toggle(old(carts), (user, pk), verb) && favorites == old(favorites)
    {
      if pk !in recipes {
        return NotFound;
      }
      var table := if kind == Favorites then favorites else carts;
      var outcome := Toggle(table, (user, pk), verb);
      ghost var before := Snapshot();
      status := outcome.0;
      if kind == Favorites {
        favorites := outcome.1;
      } else {
        carts := outcome.1;
      }
      PairTablesKeepValid(before, subscriptions, favorites, carts);
    }

    /** The `favorite` action. */
    method Favorite(user: UserId, pk: RecipeId, verb: Method) returns (status: Status)
      requires Valid() && user in users
      modifies this`favorites, this`carts
      ensures Valid() && carts == old(carts)
      ensures pk !in recipes ==> status == NotFound && favorites == old(favorites)
      ensures pk in recipes ==> (status, favorites) == Toggle(old(favorites), (user, pk), verb)
    {
      status := PostDelRecipe(user, pk, verb, Favorites);
    }

    /** The `shopping_cart` action. */
    method ShoppingCart(user: UserId, pk: RecipeId, verb: Method) returns (status: Status)
      requires Valid() && user in users
      modifies this`favorites, this`carts
      ensures Valid() && favorites == old(favorites)
      ensures pk !in recipes ==> status == NotFound && carts == old(carts)
      ensures pk in recipes ==> (status, carts) == Toggle(old(carts), (user, pk), verb)
    {
      status := PostDelRecipe(user, pk, verb, Cart);
    }

    /** The `subscribe` action: 404 for an unknown author, otherwise `SubscribeOutcome`. */
    method Subscribe(user: UserId, id: UserId, verb: Method) returns (status: Status)
      requires Valid() && user in users
      modifies this`subscriptions
      ensures Valid()
      ensures id !in users ==> status == NotFound && subscriptions == old(subscriptions)
      ensures id in users ==> (status, subscriptions) == SubscribeOutcome(old(subscriptions), user, id, verb)
    {
      if id !in users {
        return NotFound;
      }
      var outcome := SubscribeOutcome(subscriptions, user, id, verb);
      ghost var before := Snapshot();
      status, subscriptions := outcome.0, outcome.1;
      PairTablesKeepValid(before, subscriptions, favorites, carts);
    }

    /**
     * The `download_shopping_cart` action: 400 for an empty cart, otherwise the
     * document named after the user holding the aggregated list of the cart.
     */
    method DownloadShoppingCart(user: UserId) returns (r: Result<Document, Status>)
      requires Valid() && user in users
      ensures r.Err? <==> CartOf(Snapshot(), user) == {}
      ensures r.Err? ==> r.error == BadRequest("")
      ensures r.Ok? ==> r.value.filename == FileName(users[user].username)
      ensures r.Ok? ==>
        r.value.text == ShoppingListText(users[user].firstName, Aggregate(CartEntries(ingredients, amounts, CartOf(Snapshot(), user))))
    {
      var cart := CartOf(Snapshot(), user);
      if cart == {} {
        return Err(BadRequest(""));
      }
      var entries := CartEntries(ingredients, amounts, cart);
      var groups := Aggregate(entries);
      var text := RenderShoppingList(users[user].firstName, groups);
      return Ok(Document(FileName(users[user].username), text));
    }
  }
}
