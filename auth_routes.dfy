/**
 * The server's account handlers: register, login, read and update the profile,
 * over the user table. Password hashing is a parameter (`hash`); a password
 * checks when its hash equals the stored one. Token creation is not modelled:
 * a successful register or login replies with the user row.
 */
module AuthRoutes {

  import opened Wrappers
  import opened Tables

  /** The fields a request body carries; a missing key is None. */
  datatype RegisterData = RegisterData(username: Option<string>, email: Option<string>, password: Option<string>)
  datatype LoginData = LoginData(username: Option<string>, password: Option<string>)
  datatype ProfileData = ProfileData(username: Option<string>, email: Option<string>, password: Option<string>)

  const RegisterRequired := "Username, email, and password are required"
  const UsernameExists := "Username already exists"
  const EmailExists := "Email already exists"
  const LoginRequired := "Username and password are required"
  const InvalidCredentials := "Invalid username or password"

  predicate UsernameInUse(users: seq<User>, name: string) {
    exists i :: 0 <= i < |users| && users[i].username == name
  }

  predicate EmailInUse(users: seq<User>, email: string) {
    exists i :: 0 <= i < |users| && users[i].email == email
  }

  /** `filter_by(username=…).first()`. */
  function ByUsername(users: seq<User>, name: string): (r: Option<nat>)
    ensures r.None? <==> !UsernameInUse(users, name)
    ensures r.Some? ==> r.value < |users| && users[r.value].username == name
  {
    Find(users, (u: User) => u.username == name)
  }

  /** `query.get(id)`. */
  function ById(users: seq<User>, id: nat): (r: Option<nat>)
    ensures r.None? ==> forall i :: 0 <= i < |users| ==> users[i].id != id
    ensures r.Some? ==> r.value < |users| && users[r.value].id == id
  {
    Find(users, (u: User) => u.id == id)
  }

  /** Adding a user whose username and email are both unused keeps accounts unique. */
  lemma AddKeepsUnique(users: seq<User>, u: User)
    requires AccountsUnique(users)
    requires !UsernameInUse(users, u.username) && !EmailInUse(users, u.email)
    ensures AccountsUnique(users + [u])
  {
    var r := users + [u];
    forall i, j | 0 <= i < j < |r| ensures r[i].username != r[j].username && r[i].email != r[j].email {
      if j == |users| {
        assert r[i] == users[i];
      }
    }
  }

  /**
   * Replacing user i by u keeps accounts unique when u's username is i's own or unused,
   * and likewise its email.
   */
  lemma ReplaceKeepsUnique(users: seq<User>, i: nat, u: User)
    requires AccountsUnique(users) && i < |users|
    requires u.username == users[i].username || !UsernameInUse(users, u.username)
    requires u.email == users[i].email || !EmailInUse(users, u.email)
    ensures AccountsUnique(users[i := u])
  {
    var r := users[i := u];
    forall a, b | 0 <= a < b < |r| ensures r[a].username != r[b].username && r[a].email != r[b].email {
      if a == i {
        assert r[b] == users[b];
      } else if b == i {
        assert r[a] == users[a];
      }
    }
  }

  /** register. */
  method Register(db: Database, data: RegisterData, hash: string -> string) returns (r: Reply<User>)
    requires db.Valid()
    modifies db
    ensures db.Valid()
    ensures data.username.None? || data.email.None? || data.password.None? ==>
      r == Error(400, RegisterRequired) && unchanged(db)
    ensures data.username.Some? && data.email.Some? && data.password.Some? ==>
      && (UsernameInUse(old(db.users), data.username.value) ==> r == Error(400, UsernameExists) && unchanged(db))
      && (!UsernameInUse(old(db.users), data.username.value) && EmailInUse(old(db.users), data.email.value) ==>
            r == Error(400, EmailExists) && unchanged(db))
      && (!UsernameInUse(old(db.users), data.username.value) && !EmailInUse(old(db.users), data.email.value) ==>
            && r == Ok(201, User(old(db.nextUserId), data.username.value, data.email.value, hash(data.password.value)))
            && db.users == old(db.users) + [r.value] && db.nextUserId == old(db.nextUserId) + 1
            && db.workouts == old(db.workouts) && db.entries == old(db.entries) && db.exercises == old(db.exercises)
            && db.nextWorkoutId == old(db.nextWorkoutId) && db.nextEntryId == old(db.nextEntryId)
            && db.nextExerciseId == old(db.nextExerciseId))
  {
    if data.username.None? || data.email.None? || data.password.None? {
      return Error(400, RegisterRequired);
    }
    if ByUsername(db.users, data.username.value).Some? {
      return Error(400, UsernameExists);
    }
    if Find(db.users, (u: User) => u.email == data.email.value).Some? {
      return Error(400, EmailExists);
    }
    var user := User(db.nextUserId, data.username.value, data.email.value, hash(data.password.value));
    AddKeepsUnique(db.users, user);
    AppendFresh(db.users, UserKey, db.nextUserId, user);
    db.users := db.users + [user];
    db.nextUserId := db.nextUserId + 1;
    r := Ok(201, user);
  }

  /** login: reads the table only. */
  function Login(users: seq<User>, data: LoginData, hash: string -> string): (r: Reply<User>)
    ensures data.username.None? || data.password.None? ==> r == Error(400, LoginRequired)
    ensures r.Ok? ==> && r.status == 200 && data.username == Some(r.value.username)
                      && data.password.Some? && hash(data.password.value) == r.value.passwordHash
                      && r.value in users
    ensures r.Error? && r.status != 400 ==> r == Error(401, InvalidCredentials)
    ensures data.username.Some? && data.password.Some? ==> r.Ok? || r == Error(401, InvalidCredentials)
    ensures !r.NotFound?
  {
    if data.username.None? || data.password.None? then Error(400, LoginRequired)
    else match ByUsername(users, data.username.value)
      case None => Error(401, InvalidCredentials)
      case Some(i) =>
        if hash(data.password.value) == users[i].passwordHash then Ok(200, users[i])
        else Error(401, InvalidCredentials)
  }

  /** An unknown username and a wrong password get the same reply. */
  lemma LoginHidesWhichCheckFailed(users: seq<User>, data: LoginData, hash: string -> string)
    requires data.username.Some? && data.password.Some?
    requires !UsernameInUse(users, data.username.value)
      || (exists i :: 0 <= i < |users| && users[i].username == data.username.value && hash(data.password.value) != users[i].passwordHash)
    requires AccountsUnique(users)
    ensures Login(users, data, hash) == Error(401, InvalidCredentials)
  {
    if UsernameInUse(users, data.username.value) {
      var i :| 0 <= i < |users| && users[i].username == data.username.value && hash(data.password.value) != users[i].passwordHash;
      var k := ByUsername(users, data.username.value).value;
      assert k == i;
    }
  }

  /** Any stored user logs in with a password whose hash it stores, and gets its own row back. */
  lemma StoredUserLogsIn(users: seq<User>, i: nat, password: string, hash: string -> string)
    requires AccountsUnique(users)
    requires i < |users| && hash(password) == users[i].passwordHash
    ensures Login(users, LoginData(Some(users[i].username), Some(password)), hash) == Ok(200, users[i])
  {
    var k := ByUsername(users, users[i].username).value;
    assert k == i;
  }

  /** A registered user logs in with the password it registered with. */
  lemma RegisteredUserLogsIn(users: seq<User>, u: User, password: string, hash: string -> string)
    requires AccountsUnique(users + [u]) && u.passwordHash == hash(password)
    ensures Login(users + [u], LoginData(Some(u.username), Some(password)), hash) == Ok(200, u)
  {
    var r := users + [u];
    assert r[|users|] == u;
    StoredUserLogsIn(r, |users|, password, hash);
  }

  /** get_profile. */
  function GetProfile(users: seq<User>, userId: nat): (r: Reply<User>)
    ensures r.Ok? ==> r.status == 200 && r.value in users && r.value.id == userId
    ensures r.NotFound? <==> forall i :: 0 <= i < |users| ==> users[i].id != userId
    ensures !r.Error?
  {
    match ById(users, userId)
    case None => NotFound
    case Some(i) => Ok(200, users[i])
  }

  /** The user row after a profile update that passed the checks: the present fields are applied. */
  function Revised(u: User, data: ProfileData, hash: string -> string): (v: User)
    ensures v.id == u.id
    ensures v.username == data.username.GetOr(u.username)
    ensures v.email == data.email.GetOr(u.email)
    ensures v.passwordHash == if data.password.Some? then hash(data.password.value) else u.passwordHash
  {
    User(u.id, data.username.GetOr(u.username), data.email.GetOr(u.email),
         if data.password.Some? then hash(data.password.value) else u.passwordHash)
  }

  /**
   * update_profile. A new username (one that differs from the user's own) is refused when
   * anybody has it, then the same for email; an error reply persists nothing. Resubmitting
   * the current username or email is accepted without a check.
   */
  method UpdateProfile(db: Database, userId: nat, data: ProfileData, hash: string -> string) returns (r: Reply<User>)
    requires db.Valid()
    modifies db`users
    ensures db.Valid()
    ensures ById(old(db.users), userId).None? ==> r == NotFound && db.users == old(db.users)
    ensures ById(old(db.users), userId).Some? ==>
      var i := ById(old(db.users), userId).value;
      var u := old(db.users)[i];
      var newName := data.username.Some? && data.username.value != u.username;
      var newEmail := data.email.Some? && data.email.value != u.email;
      && (newName && UsernameInUse(old(db.users), data.username.value) ==>
            r == Error(400, UsernameExists) && db.users == old(db.users))
      && (!(newName && UsernameInUse(old(db.users), data.username.value))
          && newEmail && EmailInUse(old(db.users), data.email.value) ==>
            r == Error(400, EmailExists) && db.users == old(db.users))
      && (!(newName && UsernameInUse(old(db.users), data.username.value))
          && !(newEmail && EmailInUse(old(db.users), data.email.value)) ==>
            r == Ok(200, Revised(u, data, hash)) && db.users == old(db.users)[i := Revised(u, data, hash)])
  {
    var found := ById(db.users, userId);
    if found.None? {
      return NotFound;
    }
    var i := found.value;
    var user := db.users[i];
    if data.username.Some? && data.username.value != user.username {
      if ByUsername(db.users, data.username.value).Some? {
        return Error(400, UsernameExists);
      }
      user := user.(username := data.username.value);
    }
    if data.email.Some? && data.email.value != user.email {
      if Find(db.users, (u: User) => u.email == data.email.value).Some? {
        return Error(400, EmailExists);
      }
      user := user.(email := data.email.value);
    }
    if data.password.Some? {
      user := user.(passwordHash := hash(data.password.value));
    }
    assert user == Revised(db.users[i], data, hash);
    ReplaceKeepsUnique(db.users, i, user);
    ReplaceSameKey(db.users, UserKey, db.nextUserId, i, user);
    db.users := db.users[i := user];
    r := Ok(200, user);
  }
}
