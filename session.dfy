/**
 * The session store of the web client (the auth context): the signed-in user,
 * the loading flag of the initial check, and the last auth error, kept beside
 * the browser-wide state of the HTTP client (persisted token, default
 * Authorization header, window location).
 *
 * Each operation is a method of `SessionStore` that updates those fields step by
 * step, and is specified by a function from the whole state before to the whole
 * state after. The lemmas state the promised effects of those functions.
 */
module Session {

  import opened Wrappers
  import opened HttpClient

  /** Everything the session operations read or write. */
  datatype State = State(
    storedToken: Option<string>,
    authHeader: Option<string>,
    location: Option<string>,
    user: Option<UserObject>,
    loading: bool,
    error: Option<string>)
  {
    /** The default header agrees with the persisted token. */
    predicate Synced() {
      authHeader == HeaderFor(storedToken)
    }

    /** The route guard's test: somebody is signed in. */
    predicate SignedIn() {
      user.Some?
    }
  }

  /** The reply of a profile update: its `user` field. */
  datatype ProfileReply = ProfileReply(user: Option<UserObject>)

  /** The members of the value the provider hands to its consumers. */
  const ContextMembers: set<string> := {"user", "loading", "error", "login", "register", "updateProfile", "logout"}

  const LoginFallback := "An error occurred during login"
  const RegisterFallback := "Registration failed. Please check your network connection and try again."
  const UpdateFallback := "An error occurred while updating profile"
  const InvalidResponse := "Invalid response from server"

  /** A page just opened with `persisted` in local storage: nobody signed in, still loading. */
  function Opened(persisted: Option<string>): (s: State)
    ensures s.storedToken == persisted && s.authHeader == None && s.location == None
    ensures !s.SignedIn() && s.loading && s.error == None
  {
    State(persisted, None, None, None, true, None)
  }

  /** The effect of the global response interceptor on the state. */
  function Intercepted<T>(s: State, o: Outcome<T>): (t: State)
    ensures IsUnauthorized(o) ==> t.storedToken == None && t.authHeader == None && t.location == Some(LoginLocation)
    ensures !IsUnauthorized(o) ==> t == s
    ensures t.user == s.user && t.loading == s.loading && t.error == s.error
    ensures s.Synced() ==> t.Synced()
  {
    if IsUnauthorized(o) then s.(storedToken := None, authHeader := None, location := Some(LoginLocation)) else s
  }

  /** logout: the token and the header are gone and nobody is signed in; loading, error and location are kept. */
  function LoggedOut(s: State): (t: State)
    ensures t.storedToken == None && t.authHeader == None && !t.SignedIn()
    ensures t.location == s.location && t.loading == s.loading && t.error == s.error
    ensures t.Synced()
  {
    s.(storedToken := None, authHeader := None, user := None)
  }

  /** The error text recorded for a failed call: the server's `error` field when it is truthy, else the fallback. */
  function ErrorText(err: JsError, fallback: string): (m: string)
    ensures ServerError(err).Some? ==> m == ServerError(err).value
    ensures ServerError(err).None? ==> m == fallback
  {
    ServerError(err).GetOr(fallback)
  }

  /**
   * The initial-load effect: a truthy persisted token installs its header and the
   * profile is fetched; a fetched profile signs the user in, a failure logs out.
   * Loading ends in every case.
   */
  function AfterInit(s: State, profile: Outcome<UserObject>): State {
    if Truthy(s.storedToken) then
      var t := Intercepted(s.(authHeader := Some(BearerHeader(s.storedToken.value))), profile);
      if profile.Resolved? then t.(user := Some(profile.value), loading := false)
      else LoggedOut(t).(loading := false)
    else s.(loading := false)
  }

  /**
   * login and register in the context: the reply passes the interceptor; a rejection,
   * or a reply without a truthy access token (thrown as an Error without a response),
   * records the error text and rejects; otherwise the token is persisted, its header
   * installed, the user set, the error cleared, and the user returned.
   */
  function AfterSignIn(s: State, reply: Outcome<AuthReply>, fallback: string): (State, Outcome<Option<UserObject>>) {
    var t := Intercepted(s, reply);
    if reply.Resolved? && Truthy(reply.value.accessToken) then
      var token := reply.value.accessToken.value;
      (t.(storedToken := Some(token), authHeader := Some(BearerHeader(token)), user := reply.value.user, error := None),
       Resolved(reply.value.user))
    else
      var err := if reply.Rejected? then reply.err else JsError(InvalidResponse, None);
      (t.(error := Some(ErrorText(err, fallback))), Rejected(err))
  }

  function AfterLogin(s: State, reply: Outcome<AuthReply>): (State, Outcome<Option<UserObject>>) {
    AfterSignIn(s, reply, LoginFallback)
  }

  function AfterRegister(s: State, reply: Outcome<AuthReply>): (State, Outcome<Option<UserObject>>) {
    AfterSignIn(s, reply, RegisterFallback)
  }

  /** updateProfile: success replaces the user with the reply's and clears the error; failure records the error text. */
  function AfterUpdateProfile(s: State, reply: Outcome<ProfileReply>): (State, Outcome<Option<UserObject>>) {
    var t := Intercepted(s, reply);
    if reply.Resolved? then (t.(user := reply.value.user, error := None), Resolved(reply.value.user))
    else (t.(error := Some(ErrorText(reply.err, UpdateFallback))), Rejected(reply.err))
  }

  // ----- what the operations promise -----

  /** With no truthy token persisted, the initial load only ends loading: nobody is signed in and no header is installed. */
  lemma InitWithoutToken(persisted: Option<string>, profile: Outcome<UserObject>)
    requires !Truthy(persisted)
    ensures var t := AfterInit(Opened(persisted), profile);
      !t.loading && !t.SignedIn() && t.authHeader == None && t.storedToken == persisted && t.error == None
  {
  }

  /**
   * With a truthy token persisted, the initial load sends the token's Bearer header;
   * a fetched profile becomes the user, a failed fetch leaves nobody signed in and no
   * token or header; loading ends either way.
   */
  lemma InitWithToken(persisted: Option<string>, profile: Outcome<UserObject>)
    requires Truthy(persisted)
    ensures var t := AfterInit(Opened(persisted), profile);
      && !t.loading
      && (profile.Resolved? ==>
            t.user == Some(profile.value) && t.storedToken == persisted
            && t.authHeader.Some? && TokenOf(t.authHeader.value) == persisted)
      && (profile.Rejected? ==> !t.SignedIn() && t.storedToken == None && t.authHeader == None)
      && (IsUnauthorized(profile) ==> t.location == Some(LoginLocation))
  {
    BearerRoundTrip(persisted.value, "");
  }

  /** A login that succeeds persists the token, installs its header, signs in the replied user, clears the error and returns the user. */
  lemma LoginSuccess(s: State, user: Option<UserObject>, token: string)
    requires token != ""
    ensures var (t, r) := AfterLogin(s, Resolved(AuthReply(user, Some(token))));
      && t.storedToken == Some(token) && t.authHeader == Some(BearerHeader(token)) && TokenOf(t.authHeader.value) == Some(token)
      && t.user == user && t.error == None && r == Resolved(user)
      && t.location == s.location && t.loading == s.loading && t.Synced()
  {
    BearerRoundTrip(token, "");
  }

  /**
   * A login reply without a truthy access token rejects with "Invalid response from server",
   * leaves token, header and user untouched, and records the generic login error because
   * that Error carries no response.
   */
  lemma LoginWithoutToken(s: State, user: Option<UserObject>, token: Option<string>)
    requires !Truthy(token)
    ensures var (t, r) := AfterLogin(s, Resolved(AuthReply(user, token)));
      && r == Rejected(JsError(InvalidResponse, None))
      && t == s.(error := Some(LoginFallback))
  {
  }

  /** A rejected login records the server's error text, or the generic one, and rejects with the same error. */
  lemma LoginRejected(s: State, err: JsError)
    ensures var (t, r) := AfterLogin(s, Rejected(err));
      && r == Rejected(err)
      && t.user == s.user && t.loading == s.loading
      && t.error == Some(if ServerError(err).Some? then ServerError(err).value else LoginFallback)
      && (IsUnauthorized(Outcome<AuthReply>.Rejected(err)) ==> t.storedToken == None && t.authHeader == None && t.location == Some(LoginLocation))
      && (!IsUnauthorized(Outcome<AuthReply>.Rejected(err)) ==> t.storedToken == s.storedToken && t.authHeader == s.authHeader && t.location == s.location)
  {
  }

  /** register has the same effects as login when it succeeds, and differs only in the fallback error text otherwise. */
  lemma RegisterLikeLogin(s: State, reply: Outcome<AuthReply>)
    ensures AfterRegister(s, reply).1 == AfterLogin(s, reply).1
    ensures reply.Resolved? && Truthy(reply.value.accessToken) ==> AfterRegister(s, reply) == AfterLogin(s, reply)
    ensures AfterRegister(s, reply).0.(error := None) == AfterLogin(s, reply).0.(error := None)
  {
  }

  /** A failed register records the server's error text, or the network fallback text. */
  lemma RegisterFailure(s: State, reply: Outcome<AuthReply>)
    requires !(reply.Resolved? && Truthy(reply.value.accessToken))
    ensures var (t, r) := AfterRegister(s, reply);
      && r.Rejected?
      && t.error == Some(if ServerError(r.err).Some? then ServerError(r.err).value else RegisterFallback)
      && (reply.Rejected? ==> r.err == reply.err)
  {
  }

  /** updateProfile never touches token or header except through the 401 interceptor. */
  lemma UpdateProfileEffects(s: State, reply: Outcome<ProfileReply>)
    ensures var (t, r) := AfterUpdateProfile(s, reply);
      && (reply.Resolved? ==> t == s.(user := reply.value.user, error := None) && r == Resolved(reply.value.user))
      && (reply.Rejected? ==>
            r == Rejected(reply.err) && t.user == s.user
            && t.error == Some(if ServerError(reply.err).Some? then ServerError(reply.err).value else UpdateFallback))
      && (!IsUnauthorized(reply) ==> t.storedToken == s.storedToken && t.authHeader == s.authHeader)
  {
  }

  /** logout twice leaves the state logout leaves once. */
  lemma LogoutIdempotent(s: State)
    ensures LoggedOut(LoggedOut(s)) == LoggedOut(s)
  {
  }

  /** Every session operation keeps the header in agreement with the persisted token. */
  lemma OperationsKeepSynced(s: State, profile: Outcome<UserObject>, auth: Outcome<AuthReply>, update: Outcome<ProfileReply>)
    requires s.Synced()
    ensures AfterInit(s, profile).Synced()
    ensures AfterLogin(s, auth).0.Synced() && AfterRegister(s, auth).0.Synced()
    ensures AfterUpdateProfile(s, update).0.Synced()
    ensures LoggedOut(s).Synced()
  {
  }

  /** A wrong password is answered with 401, so a failed login also sends the window to the login page and drops the token. */
  lemma WrongPasswordRedirects(s: State, message: string, errorText: Option<string>)
    ensures var (t, _) := AfterLogin(s, Rejected(JsError(message, Some(ErrorResponse(401, errorText)))));
      t.location == Some(LoginLocation) && t.storedToken == None && t.authHeader == None
  {
  }

  /** The store: the context's own state beside the shared client it writes through. */
  class SessionStore {
    const client: Client
    var user: Option<UserObject>
    var loading: bool
    var error: Option<string>

    /** The whole state the operations act on. */
    function Snapshot(): State
      reads this, client
    {
      State(client.storedToken, client.authHeader, client.location, user, loading, error)
    }

    /** The provider mounts with nobody signed in, loading, and no error. */
    constructor (client: Client)
      ensures this.client == client && user == None && loading && error == None
    {
      this.client := client;
      user := None;
      loading := true;
      error := None;
    }

    /** The initial-load effect, given how the profile request settles. */
    method Init(profile: Outcome<UserObject>)
      modifies this, client
      ensures Snapshot() == AfterInit(old(Snapshot()), profile)
    {
      var token := client.storedToken;
      if Truthy(token) {
        client.authHeader := Some(BearerHeader(token.value));
        var response := client.Intercept(profile);
        if response.Resolved? {
          user := Some(response.value);
          loading := false;
        } else {
          Logout();
          loading := false;
        }
      } else {
        loading := false;
      }
    }

    /** The body shared by login and register; only the fallback error text differs. */
    method SignIn(reply: Outcome<AuthReply>, fallback: string) returns (r: Outcome<Option<UserObject>>)
      modifies this, client
      ensures (Snapshot(), r) == AfterSignIn(old(Snapshot()), reply, fallback)
    {
      var response := client.Intercept(reply);
      var err: JsError;
      if response.Rejected? {
        err := response.err;
      } else if !Truthy(response.value.accessToken) {
        err := JsError(InvalidResponse, None);
      } else {
        var token := response.value.accessToken.value;
        client.storedToken := Some(token);
        client.authHeader := Some(BearerHeader(token));
        user := response.value.user;
        error := None;
        return Resolved(user);
      }
      error := Some(ErrorText(err, fallback));
      r := Rejected(err);
    }

    /** login, given how the login request settles. */
    method Login(reply: Outcome<AuthReply>) returns (r: Outcome<Option<UserObject>>)
      modifies this, client
      ensures (Snapshot(), r) == AfterLogin(old(Snapshot()), reply)
    {
      r := SignIn(reply, LoginFallback);
    }

    /** register, given how the registration request settles. */
    method Register(reply: Outcome<AuthReply>) returns (r: Outcome<Option<UserObject>>)
      modifies this, client
      ensures (Snapshot(), r) == AfterRegister(old(Snapshot()), reply)
    {
      r := SignIn(reply, RegisterFallback);
    }

    /** updateProfile, given how the update request settles. */
    method UpdateProfile(reply: Outcome<ProfileReply>) returns (r: Outcome<Option<UserObject>>)
      modifies this, client
      ensures (Snapshot(), r) == AfterUpdateProfile(old(Snapshot()), reply)
    {
      var response := client.Intercept(reply);
      if response.Resolved? {
        user := response.value.user;
        error := None;
        r := Resolved(user);
      } else {
        error := Some(ErrorText(response.err, UpdateFallback));
        r := Rejected(response.err);
      }
    }

    /** logout. */
    method Logout()
      modifies this`user, client`storedToken, client`authHeader
      ensures Snapshot() == LoggedOut(old(Snapshot()))
    {
      client.storedToken := None;
      client.authHeader := None;
      user := None;
    }
  }
}
