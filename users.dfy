/**
 * The `user` table: the `User` record, registration (`create_new_user`) and
 * the two lookups by e-mail address (`get_user`, `get_user_by_email`).
 */
module Users {
  import opened Wrappers

  /** The registration payload (`UserCreate`): the password arrives in plain text. */
  datatype UserCreate = UserCreate(username: string, email: string, password: string)

  /** A row of the `user` table. */
  datatype User = User(
    id: int,
    username: string,
    email: string,
    hashedPassword: string,
    isActive: bool,
    isSuperuser: bool)

  /** The error the database raises on commit when a unique column would hold a duplicate. */
  datatype IntegrityError = UniqueViolation

  /** Every row is stored under its own primary key. */
  ghost predicate KeyedById(users: map<int, User>) {
    forall id :: id in users ==> users[id].id == id
  }

  /** The `unique=True` constraint on `username`. */
  ghost predicate UniqueUsernames(users: map<int, User>) {
    forall a, b :: a in users && b in users && users[a].username == users[b].username ==> a == b
  }

  /** The `unique=True` constraint on `email`. */
  ghost predicate UniqueEmails(users: map<int, User>) {
    forall a, b :: a in users && b in users && users[a].email == users[b].email ==> a == b
  }

  /** Some stored user already has this username or this e-mail address. */
  predicate Taken(users: map<int, User>, username: string, email: string) {
    exists id :: id in users && (users[id].username == username || users[id].email == email)
  }

  /** `get_user_by_email`: the user whose `email` column equals `email`, if any. */
  function GetUserByEmail(users: map<int, User>, email: string): (r: Option<User>)
    requires KeyedById(users) && UniqueEmails(users)
    ensures r.Some? <==> exists id :: id in users && users[id].email == email
    ensures r.Some? ==> r.value.id in users && users[r.value.id] == r.value && r.value.email == email
  {
    if exists id :: id in users && users[id].email == email then
      var id :| id in users && users[id].email == email;
      Some(users[id])
    else
      None
  }

  /**
   * `get_user`: despite its parameter's name, the filter compares `username`
   * with the `email` column, so it finds a user only by e-mail address.
   */
  function GetUser(users: map<int, User>, username: string): (r: Option<User>)
    requires KeyedById(users) && UniqueEmails(users)
    ensures r.Some? <==> exists id :: id in users && users[id].email == username
    ensures r.Some? ==> r.value.id in users && users[r.value.id] == r.value && r.value.email == username
    ensures r == GetUserByEmail(users, username)
  {
    GetUserByEmail(users, username)
  }

  /**
   * A user whose username is not also some user's e-mail address is not found
   * by `get_user` under that username.
   */
  lemma GetUserMissesByUsername(users: map<int, User>, id: int)
    requires KeyedById(users) && UniqueEmails(users)
    requires id in users
    requires forall other :: other in users ==> users[other].email != users[id].username
    ensures GetUser(users, users[id].username) == None
  {
  }

  /** An e-mail address that `get_user_by_email` finds cannot be registered again, whatever the username. */
  lemma FoundEmailIsTaken(users: map<int, User>, username: string, email: string)
    requires KeyedById(users) && UniqueEmails(users)
    requires GetUserByEmail(users, email).Some?
    ensures Taken(users, username, email)
  {
    var u := GetUserByEmail(users, email).value;
    assert u.id in users && users[u.id].email == email;
  }

  /** The user table together with the source of fresh primary keys. */
  class UserTable {
    var users: map<int, User>
    /**
     * The key allocator: no contract relies on how it moves, since databases
     * differ in whether a failed insert or a deleted row uses up a key.
     */
    var nextId: int

    ghost predicate Valid()
      reads this
    {
      && KeyedById(users)
      && 1 <= nextId
      && (forall id :: id in users ==> 1 <= id < nextId)
      && UniqueUsernames(users)
      && UniqueEmails(users)
    }

    constructor ()
      ensures Valid() && users == map[]
    {
      users := map[];
      nextId := 1;
    }

    /**
     * `create_new_user`: stores the username and e-mail address unchanged and
     * the hasher's output instead of the password, with `is_active` set and
     * `is_superuser` cleared. A duplicate username or e-mail address makes the
     * commit fail and leaves the table as it was.
     */
    method CreateNewUser(user: UserCreate, hash: string -> string) returns (r: Result<User, IntegrityError>)
      requires Valid()
      modifies this
      ensures Valid()
      ensures r.Ok? <==> !Taken(old(users), user.username, user.email)
      ensures r.Ok? ==>
        && r.value.id !in old(users)
        && r.value == User(r.value.id, user.username, user.email, hash(user.password), true, false)
        && users == old(users)[r.value.id := r.value]
      ensures r.Err? ==> users == old(users)
    {
      if Taken(users, user.username, user.email) {
        return Err(UniqueViolation);
      }
      var created := User(nextId, user.username, user.email, hash(user.password), true, false);
      users := users[nextId := created];
      nextId := nextId + 1;
      r := Ok(created);
    }
  }
}
