/** The account handlers of backend/routes/auth.js: the login guard, user creation with its
    duplicate check and the update rule (which fields, whose account). Passwords are compared
    by a foreign library, so the comparison's outcome is a parameter; tokens and activity
    entries are not modelled. backend/models/User.js is not part of this model: the account
    fields below are the ones the handlers read and write. */
module Auth {

  import opened Common

  datatype Role = Admin | Cashier

  datatype User = User(
    username: string,
    password: string,
    name: string,
    email: string,
    role: Role,
    active: bool,
    lastLogin: Option<nat>)

  const InvalidCredentials: string := "Invalid credentials"
  const AccountTaken: string := "Username or email already exists"
  const InvalidUpdates: string := "Invalid updates"
  const OwnProfileOnly: string := "You can only update your own profile"
  const UserNotFound: string := "User not found"

  /** The fields an update may name: the four everyone may change, and `role` for an admin. */
  function AllowedUpdates(role: Role): (r: set<string>)
    ensures {"name", "email", "password", "active"} <= r
    ensures "role" in r <==> role == Admin
    ensures "username" !in r
  {
    {"name", "email", "password", "active"} + (if role == Admin then {"role"} else {})
  }

  /** The body of an update: the known fields that were sent, and the names of any other keys. */
  datatype UserPatch = UserPatch(
    name: Option<string>,
    email: Option<string>,
    password: Option<string>,
    active: Option<bool>,
    role: Option<Role>,
    otherKeys: set<string>)

  /** The keys the update handler knows by name. */
  const KnownKeys: set<string> := {"name", "email", "password", "active", "role"}

  /** A body is written one way only: a known key is sent through its own field, never among
      the other keys. */
  predicate WellFormedPatch(patch: UserPatch) {
    patch.otherKeys !! KnownKeys
  }

  /** The names of the fields an update body sends. */
  function Keys(patch: UserPatch): set<string> {
    (if patch.name.Some? then {"name"} else {})
    + (if patch.email.Some? then {"email"} else {})
    + (if patch.password.Some? then {"password"} else {})
    + (if patch.active.Some? then {"active"} else {})
    + (if patch.role.Some? then {"role"} else {})
    + patch.otherKeys
  }

  /** The key check of a user update: every field the body sends is one the role may change. */
  predicate ValidOperation(patch: UserPatch, role: Role) {
    Keys(patch) <= AllowedUpdates(role)
  }

  /** A cashier's body that names `role` is always refused, and so is any body with a key
      outside the known fields. */
  lemma CashierCannotChangeRole(patch: UserPatch)
    requires patch.role.Some?
    ensures !ValidOperation(patch, Cashier)
  {
    assert "role" in Keys(patch);
  }

  lemma UnknownKeysRefused(patch: UserPatch, role: Role, key: string)
    requires key in patch.otherKeys && key !in {"name", "email", "password", "active", "role"}
    ensures !ValidOperation(patch, role)
  {
    assert key in Keys(patch);
  }

  /** The decision before the document is touched, in the handler's order: the key check
      (400), then the ownership check (403), then the lookup (404). */
  function UpdateCheck(requester: UserId, role: Role, target: UserId, patch: UserPatch, exists_: bool): (r: Option<ApiError>)
    requires WellFormedPatch(patch)
    ensures !ValidOperation(patch, role) ==> r == Some(ApiError(400, InvalidUpdates))
    ensures ValidOperation(patch, role) && target != requester && role != Admin ==> r == Some(ApiError(403, OwnProfileOnly))
    ensures ValidOperation(patch, role) && (target == requester || role == Admin) && !exists_ ==>
              r == Some(ApiError(404, UserNotFound))
    ensures r.None? <==> ValidOperation(patch, role) && (target == requester || role == Admin) && exists_
  {
    if !ValidOperation(patch, role) then Some(ApiError(400, InvalidUpdates))
    else if target != requester && role != Admin then Some(ApiError(403, OwnProfileOnly))
    else if !exists_ then Some(ApiError(404, UserNotFound))
    else None
  }

  /** Copying the body onto the user, for a body that passed the key check: exactly the fields
      sent are overwritten. */
  function ApplyUserPatch(u: User, patch: UserPatch): (r: User)
    ensures r.name == patch.name.GetOr(u.name) && r.email == patch.email.GetOr(u.email)
    ensures r.password == patch.password.GetOr(u.password) && r.active == patch.active.GetOr(u.active)
    ensures r.role == patch.role.GetOr(u.role)
    ensures r.username == u.username && r.lastLogin == u.lastLogin
  {
    u.(name := patch.name.GetOr(u.name), email := patch.email.GetOr(u.email),
       password := patch.password.GetOr(u.password), active := patch.active.GetOr(u.active),
       role := patch.role.GetOr(u.role))
  }

  predicate HasUsername(users: map<UserId, User>, username: string) {
    exists id :: id in users && users[id].username == username
  }

  class UserDirectory {
    var users: map<UserId, User>
    var nextId: nat

    /** Ids come from the counter and usernames are unique: creation refuses a taken one and
        no update may name `username`. */
    ghost predicate Valid()
      reads this
    {
      && (forall id :: id in users ==> id < nextId)
      && (forall a, b :: a in users && b in users && a != b ==> users[a].username != users[b].username)
    }

    constructor ()
      ensures Valid() && users == map[] && nextId == 0
    {
      users := map[];
      nextId := 0;
    }

    /** POST /auth/login: an unknown username, an inactive account and a wrong password all get
        the same 401 reply; a successful login records the time. `passwordMatches` is the
        outcome of comparing the submitted password with the account's hash. */
    method Login(username: string, passwordMatches: bool, now: nat) returns (r: Result<UserId>)
      requires Valid()
      modifies this
      ensures Valid() && nextId == old(nextId)
      ensures r.Err? ==> r.error == ApiError(401, InvalidCredentials) && unchanged(this)
      ensures r.Ok? <==>
                (exists id :: id in old(users) && old(users)[id].username == username && old(users)[id].active)
                && passwordMatches
      ensures r.Ok? ==>
                && r.value in old(users) && old(users)[r.value].username == username
                && users == old(users)[r.value := old(users)[r.value].(lastLogin := Some(now))]
    {
      if !HasUsername(users, username) {
        return Err(ApiError(401, InvalidCredentials));
      }
      var id :| id in users && users[id].username == username;
      if !users[id].active {
        return Err(ApiError(401, InvalidCredentials));
      }
      if !passwordMatches {
        return Err(ApiError(401, InvalidCredentials));
      }
      users := users[id := users[id].(lastLogin := Some(now))];
      return Ok(id);
    }

    /** POST /auth/users: refused with 400 when any account has the username or the email. */
    method CreateUser(username: string, password: string, name: string, email: string, role: Role)
      returns (r: Result<UserId>)
      requires Valid()
      modifies this
      ensures Valid()
      ensures (exists id :: id in old(users) && (old(users)[id].username == username || old(users)[id].email == email)) ==>
                r == Err(ApiError(400, AccountTaken)) && unchanged(this)
      ensures !(exists id :: id in old(users) && (old(users)[id].username == username || old(users)[id].email == email)) ==>
                && r == Ok(old(nextId))
                && users == old(users)[old(nextId) := User(username, password, name, email, role, true, None)]
                && nextId == old(nextId) + 1
    {
      if exists id :: id in users && (users[id].username == username || users[id].email == email) {
        return Err(ApiError(400, AccountTaken));
      }
      var id := nextId;
      users := users[id := User(username, password, name, email, role, true, None)];
      nextId := nextId + 1;
      return Ok(id);
    }

    /** PUT /auth/users/:id by `requester`, whose role is `role`. */
    method UpdateUser(requester: UserId, role: Role, target: UserId, patch: UserPatch) returns (r: Result<User>)
      requires Valid() && WellFormedPatch(patch)
      modifies this
      ensures Valid() && nextId == old(nextId)
      ensures UpdateCheck(requester, role, target, patch, target in old(users)).Some? ==>
                r == Err(UpdateCheck(requester, role, target, patch, target in old(users)).value) && unchanged(this)
      ensures UpdateCheck(requester, role, target, patch, target in old(users)).None? ==>
                && r == Ok(ApplyUserPatch(old(users)[target], patch))
                && users == old(users)[target := ApplyUserPatch(old(users)[target], patch)]
    {
      var failure := UpdateCheck(requester, role, target, patch, target in users);
      if failure.Some? {
        return Err(failure.value);
      }
      var u := ApplyUserPatch(users[target], patch);
      users := users[target := u];
      return Ok(u);
    }
  }
}
