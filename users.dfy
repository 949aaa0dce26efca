/**
 * The user table (`users/models.py`): a user row, the field length bounds, the
 * unique username and email constraints, the `is_subcribed` default, and the
 * default listing order by username.
 */
module Users {
  import opened Results
  import opened Ordering

  type UserId = nat

  const UsernameMaxLength := 100
  const PasswordMaxLength := 255
  const NameMaxLength := 50
  const EmailMaxLength := 50

  datatype User = User(
    username: string,
    password: string,
    firstName: string,
    lastName: string,
    email: string,
    isSubscribed: bool)

  /**
   * Every character field of the row is non-blank (`blank=False`, the default)
   * and within its `max_length`; the email format is not checked.
   */
  predicate FieldsValid(u: User)
  {
    && 0 < |u.username| <= UsernameMaxLength
    && 0 < |u.password| <= PasswordMaxLength
    && 0 < |u.firstName| <= NameMaxLength
    && 0 < |u.lastName| <= NameMaxLength
    && 0 < |u.email| <= EmailMaxLength
  }

  ghost predicate UsernamesUnique(users: map<UserId, User>)
  {
    forall a, b :: a in users && b in users && users[a].username == users[b].username ==> a == b
  }

  ghost predicate EmailsUnique(users: map<UserId, User>)
  {
    forall a, b :: a in users && b in users && users[a].email == users[b].email ==> a == b
  }

  /** Every constraint the user table declares. */
  ghost predicate UsersValid(users: map<UserId, User>)
  {
    && (forall id :: id in users ==> FieldsValid(users[id]))
    && UsernamesUnique(users)
    && EmailsUnique(users)
  }

  predicate UsernameTaken(users: map<UserId, User>, username: string)
  {
    exists id :: id in users && users[id].username == username
  }

  predicate EmailTaken(users: map<UserId, User>, email: string)
  {
    exists id :: id in users && users[id].email == email
  }

  datatype UserError = IdTaken | FieldInvalid | DuplicateUsername | DuplicateEmail

  /**
   * Inserting a user row under `id`, with the table's constraints checked at
   * insert time. A new row is never subscribed (`is_subcribed` defaults to false).
   */
  function CreateUser(users: map<UserId, User>, id: UserId, username: string, password: string,
                      firstName: string, lastName: string, email: string): (r: Result<map<UserId, User>, UserError>)
    ensures r.Ok? <==>
      && id !in users
      && FieldsValid(User(username, password, firstName, lastName, email, false))
      && !UsernameTaken(users, username)
      && !EmailTaken(users, email)
    ensures r.Ok? ==> r.value.Keys == users.Keys + {id}
    ensures r.Ok? ==> forall other :: other in users ==> r.value[other] == users[other]
    ensures r.Ok? ==> r.value[id] == User(username, password, firstName, lastName, email, false)
    ensures r.Ok? ==> !r.value[id].isSubscribed
    ensures r.Ok? && UsersValid(users) ==> UsersValid(r.value)
  {
    var u := User(username, password, firstName, lastName, email, false);
    if id in users then Err(IdTaken)
    else if !FieldsValid(u) then Err(FieldInvalid)
    else if UsernameTaken(users, username) then Err(DuplicateUsername)
    else if EmailTaken(users, email) then Err(DuplicateEmail)
    else Ok(users[id := u])
  }

  /** A blank username is refused, whatever is stored and whatever the other fields hold. */
  lemma CreateUserRejectsBlank(users: map<UserId, User>, id: UserId, password: string,
                               firstName: string, lastName: string, email: string)
    ensures CreateUser(users, id, "", password, firstName, lastName, email).Err?
  {
  }

  /** Lexicographic order on strings, character by character. */
  predicate LexLeq(a: string, b: string)
  {
    a == [] || (b != [] && (a[0] < b[0] || (a[0] == b[0] && LexLeq(a[1..], b[1..]))))
  }

  lemma {:induction false} LexLeqTotal(a: string, b: string)
    ensures LexLeq(a, b) || LexLeq(b, a)
  {
    if a != [] && b != [] && a[0] == b[0] {
      LexLeqTotal(a[1..], b[1..]);
    }
  }

  lemma {:induction false} LexLeqTransitive(a: string, b: string, c: string)
    requires LexLeq(a, b) && LexLeq(b, c)
    ensures LexLeq(a, c)
  {
    if a != [] && b != [] && c != [] && a[0] == b[0] == c[0] {
      LexLeqTransitive(a[1..], b[1..], c[1..]);
    }
  }

  lemma {:induction false} LexLeqAntisymmetric(a: string, b: string)
    requires LexLeq(a, b) && LexLeq(b, a)
    ensures a == b
  {
    if a != [] && b != [] {
      LexLeqAntisymmetric(a[1..], b[1..]);
      assert a == [a[0]] + a[1..] && b == [b[0]] + b[1..];
    }
  }

  /** `Meta.ordering = ['username']`: ascending by username. */
  predicate ByUsername(a: User, b: User)
  {
    LexLeq(a.username, b.username)
  }

  lemma UsernameOrderIsTotal()
    ensures TotalPreorder(ByUsername)
  {
    forall x: User, y: User ensures ByUsername(x, y) || ByUsername(y, x) {
      LexLeqTotal(x.username, y.username);
    }
    forall x: User, y: User, z: User | ByUsername(x, y) && ByUsername(y, z) ensures ByUsername(x, z) {
      LexLeqTransitive(x.username, y.username, z.username);
    }
  }

  /** The default listing of the stored user rows. */
  function ListUsers(rows: seq<User>): (r: seq<User>)
    ensures forall i, j :: 0 <= i < j < |r| ==> LexLeq(r[i].username, r[j].username)
    ensures multiset(r) == multiset(rows)
  {
    UsernameOrderIsTotal();
    SortBy(rows, ByUsername)
  }

  /**
   * Because usernames are unique, the default listing is the same whatever
   * order the rows are stored in.
   */
  lemma UserListingIndependentOfStorageOrder(a: seq<User>, b: seq<User>)
    requires multiset(a) == multiset(b)
    requires forall i, j :: 0 <= i < |a| && 0 <= j < |a| && a[i].username == a[j].username ==> a[i] == a[j]
    ensures ListUsers(a) == ListUsers(b)
  {
    UsernameOrderIsTotal();
    forall i, j | 0 <= i < |a| && 0 <= j < |a| && ByUsername(a[i], a[j]) && ByUsername(a[j], a[i])
      ensures a[i] == a[j]
    {
      LexLeqAntisymmetric(a[i].username, a[j].username);
    }
    ListingIndependentOfStorageOrder(a, b, ByUsername);
  }
}
