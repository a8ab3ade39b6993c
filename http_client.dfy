/**
 * The shared HTTP client of the web client: the persisted token, the default
 * Authorization header every request carries, the global response interceptor
 * that handles 401, the auth wrappers, and the request URLs the wrappers build.
 * A request is not performed: its settled outcome is a parameter.
 */
module HttpClient {

  import opened Wrappers
  import Text

  /** A user object as the client receives it: JSON fields, values abstracted to strings. */
  type UserObject = map<string, string>

  /** The part of an HTTP error response the client inspects: the status and the payload's `error` field. */
  datatype ErrorResponse = ErrorResponse(status: int, errorText: Option<string>)

  /** A rejected call: the Error's message and, when the server answered, its response. */
  datatype JsError = JsError(message: string, response: Option<ErrorResponse>)

  /** How a request settles. */
  datatype Outcome<+T> = Resolved(value: T) | Rejected(err: JsError)

  /** The body of a login or registration reply. */
  datatype AuthReply = AuthReply(user: Option<UserObject>, accessToken: Option<string>)

  /** The Bearer scheme of section 2.1 of RFC 6750: the header value carrying a token. */
  function BearerHeader(token: string): string {
    "Bearer " + token
  }

  /** The token a Bearer header value carries, if it is one. */
  function TokenOf(header: string): Option<string> {
    if Text.StartsWith(header, "Bearer ") then Some(header[7..]) else None
  }

  /** A Bearer header carries exactly the token it was built from, and nothing else produces that value. */
  lemma BearerRoundTrip(token: string, header: string)
    ensures TokenOf(BearerHeader(token)) == Some(token)
    ensures TokenOf(header) == Some(token) ==> header == BearerHeader(token)
  {
    assert BearerHeader(token)[..7] == "Bearer ";
    if TokenOf(header) == Some(token) {
      assert header == header[..7] + header[7..];
    }
  }

  /** The Authorization header that goes with a persisted token: Bearer for a truthy token, none otherwise. */
  function HeaderFor(token: Option<string>): (h: Option<string>)
    ensures h.Some? <==> Truthy(token)
    ensures h.Some? ==> TokenOf(h.value) == token
  {
    if Truthy(token) then
      BearerRoundTrip(token.value, "");
      Some(BearerHeader(token.value))
    else None
  }

  /** A rejection carrying an HTTP 401 response. */
  predicate IsUnauthorized<T>(o: Outcome<T>) {
    o.Rejected? && o.err.response.Some? && o.err.response.value.status == 401
  }

  /** The error text of a rejection, when the server sent a truthy `error` field. */
  function ServerError(err: JsError): (r: Option<string>)
    ensures r.Some? ==> r.value != ""
    ensures r.Some? <==> err.response.Some? && Truthy(err.response.value.errorText)
  {
    if err.response.Some? && Truthy(err.response.value.errorText) then err.response.value.errorText else None
  }

  /** The page the interceptor sends the browser to on a 401. */
  const LoginLocation := "/login"

  /** The browser-wide state as one value: stored token, default header, location. */
  type BrowserState = (Option<string>, Option<string>, Option<string>)

  /** The browser state once the response interceptor has seen o. */
  function AfterResponse<T>(st: BrowserState, o: Outcome<T>): BrowserState {
    if IsUnauthorized(o) then (None, None, Some(LoginLocation)) else st
  }

  /**
   * The browser-wide state the client shares: the `token` entry of local storage,
   * the default Authorization header, and the location the window was sent to.
   */
  class Client {
    var storedToken: Option<string>
    var authHeader: Option<string>
    var location: Option<string>

    /** The three fields as one value. */
    function Browser(): BrowserState
      reads this
    {
      (storedToken, authHeader, location)
    }

    /** The header agrees with the persisted token. */
    predicate Synced()
      reads this
    {
      authHeader == HeaderFor(storedToken)
    }

    /** A fresh page: whatever token was persisted, no header installed yet, no redirect. */
    constructor (persisted: Option<string>)
      ensures storedToken == persisted && authHeader == None && location == None
    {
      storedToken := persisted;
      authHeader := None;
      location := None;
    }

    /** setAuthToken: a truthy token installs its Bearer header, anything else deletes the header. */
    method SetAuthToken(token: Option<string>)
      modifies this`authHeader
      ensures authHeader == HeaderFor(token)
    {
      if Truthy(token) {
        authHeader := Some(BearerHeader(token.value));
      } else {
        authHeader := None;
      }
    }

    /**
     * The response interceptor every request passes through. Success and non-401
     * failures pass unchanged and change nothing; a 401 removes the stored token
     * and the header and sends the window to the login page, and is still rejected.
     */
    method Intercept<T>(o: Outcome<T>) returns (r: Outcome<T>)
      modifies this
      ensures r == o
      ensures IsUnauthorized(o) ==> storedToken == None && authHeader == None && location == Some(LoginLocation)
      ensures !IsUnauthorized(o) ==>
        storedToken == old(storedToken) && authHeader == old(authHeader) && location == old(location)
      ensures old(Synced()) ==> Synced()
      ensures Browser() == AfterResponse(old(Browser()), o)
    {
      if IsUnauthorized(o) {
        storedToken := None;
        authHeader := None;
        location := Some(LoginLocation);
      }
      r := o;
    }

    /** What the auth wrappers do after the reply: install the header when a truthy token came back. */
    method AcceptAuthReply(sent: Outcome<AuthReply>) returns (r: Outcome<AuthReply>)
      modifies this
      ensures r == sent
      ensures storedToken == (if IsUnauthorized(sent) then None else old(storedToken))
      ensures location == (if IsUnauthorized(sent) then Some(LoginLocation) else old(location))
      ensures authHeader ==
        if IsUnauthorized(sent) then None
        else if sent.Resolved? && Truthy(sent.value.accessToken) then Some(BearerHeader(sent.value.accessToken.value))
        else old(authHeader)
    {
      r := Intercept(sent);
      if r.Resolved? && Truthy(r.value.accessToken) {
        SetAuthToken(r.value.accessToken);
      }
    }

    /** The wrapper `login`: header only, never the stored token; the reply or the rejection is passed on. */
    method Login(reply: Outcome<AuthReply>) returns (r: Outcome<AuthReply>)
      modifies this
      ensures r == reply
      ensures storedToken == (if IsUnauthorized(reply) then None else old(storedToken))
      ensures location == (if IsUnauthorized(reply) then Some(LoginLocation) else old(location))
      ensures authHeader ==
        if IsUnauthorized(reply) then None
        else if reply.Resolved? && Truthy(reply.value.accessToken) then Some(BearerHeader(reply.value.accessToken.value))
        else old(authHeader)
    {
      r := AcceptAuthReply(reply);
    }

    /** The wrapper `register`: the same header effect as `login`. */
    method Register(reply: Outcome<AuthReply>) returns (r: Outcome<AuthReply>)
      modifies this
      ensures r == reply
      ensures storedToken == (if IsUnauthorized(reply) then None else old(storedToken))
      ensures location == (if IsUnauthorized(reply) then Some(LoginLocation) else old(location))
      ensures authHeader ==
        if IsUnauthorized(reply) then None
        else if reply.Resolved? && Truthy(reply.value.accessToken) then Some(BearerHeader(reply.value.accessToken.value))
        else old(authHeader)
    {
      r := AcceptAuthReply(reply);
    }

    /** The wrapper `logout`: deletes the header only, and always resolves to true. */
    method Logout() returns (ok: bool)
      modifies this`authHeader
      ensures ok && authHeader == None
    {
      SetAuthToken(None);
      ok := true;
    }
  }

  /** The wrapper `logout` twice leaves the same state as once. */
  method LogoutTwice(c: Client)
    modifies c
    ensures c.authHeader == None
    ensures c.storedToken == old(c.storedToken) && c.location == old(c.location)
  {
    var _ := c.Logout();
    var _ := c.Logout();
  }

  // ----- request URLs -----

  /** One `key=value` argument of a query string. */
  function Param(key: string, value: string): string {
    key + "=" + value
  }

  /** The query arguments every paged list request starts with. */
  function PageQuery(page: int, perPage: int): string {
    Param("page", Text.IntToString(page)) + "&" + Param("per_page", Text.IntToString(perPage))
  }

  /** The query string of fetchExercises: the muscle group is added unless it is missing, empty or "All". */
  function ExercisesQueryString(page: int, perPage: int, muscleGroup: Option<string>): string {
    if Truthy(muscleGroup) && muscleGroup.value != "All" then
      PageQuery(page, perPage) + "&" + Param("muscle_group", muscleGroup.value)
    else PageQuery(page, perPage)
  }

  /** fetchExercises. */
  function ExercisesUrl(page: int, perPage: int, muscleGroup: Option<string>): string {
    ExercisesPath + "?" + ExercisesQueryString(page, perPage, muscleGroup)
  }

  /** fetchExercises() with its default arguments. */
  function DefaultExercisesUrl(): string {
    ExercisesUrl(1, 50, None)
  }

  /** fetchUserWorkouts. */
  function WorkoutsUrl(page: int, perPage: int): string {
    WorkoutsPath + "?" + PageQuery(page, perPage)
  }

  /** fetchUserWorkouts() with its default arguments. */
  function DefaultWorkoutsUrl(): string {
    WorkoutsUrl(1, 10)
  }

  const WorkoutsPath := "/api/workouts"
  const ExercisesPath := "/api/exercises"

  /** The per-id path of fetchWorkoutById, updateWorkout and deleteWorkout. */
  function WorkoutPath(id: string): string {
    WorkoutsPath + "/" + id
  }

  /** The per-id path of fetchExerciseById, updateExercise and deleteExercise. */
  function ExercisePath(id: string): string {
    ExercisesPath + "/" + id
  }

  // ----- reading a URL back, as the server's router does -----

  /** The index of the first occurrence of c in s. */
  function IndexOf(s: string, c: char): (r: Option<nat>)
    ensures r.None? ==> c !in s
    ensures r.Some? ==> r.value < |s| && s[r.value] == c && c !in s[..r.value]
  {
    if s == [] then None
    else if s[0] == c then Some(0)
    else
      var r := IndexOf(s[1..], c);
      if r.None? then None else Some(r.value + 1)
  }

  /** Splits s at every separator. */
  function SplitOn(s: string, sep: char): (parts: seq<string>)
    ensures parts != []
    decreases |s|
  {
    match IndexOf(s, sep)
    case None => [s]
    case Some(i) => [s[..i]] + SplitOn(s[i + 1..], sep)
  }

  /** A query argument `key=value`, split at its first '='. */
  function KeyValue(arg: string): (string, string) {
    match IndexOf(arg, '=')
    case None => (arg, "")
    case Some(i) => (arg[..i], arg[i + 1..])
  }

  /** The path of a URL: everything before the first '?'. */
  function PathOf(url: string): string {
    match IndexOf(url, '?')
    case None => url
    case Some(i) => url[..i]
  }

  /** The arguments of a query string, in order. */
  function ArgsOfQuery(query: string): seq<(string, string)> {
    var parts := SplitOn(query, '&');
    seq(|parts|, k requires 0 <= k < |parts| => KeyValue(parts[k]))
  }

  /** The query arguments of a URL, in order. */
  function QueryArgs(url: string): seq<(string, string)> {
    match IndexOf(url, '?')
    case None => []
    case Some(i) => ArgsOfQuery(url[i + 1..])
  }

  /** The first value of a query argument, as the server's `request.args.get` returns it. */
  function Arg(args: seq<(string, string)>, key: string): Option<string> {
    if args == [] then None
    else if args[0].0 == key then Some(args[0].1)
    else Arg(args[1..], key)
  }

  /** A key no argument carries is missing. */
  lemma {:induction false} ArgMissing(args: seq<(string, string)>, key: string)
    requires forall i :: 0 <= i < |args| ==> args[i].0 != key
    ensures Arg(args, key) == None
  {
    if args != [] {
      ArgMissing(args[1..], key);
    }
  }

  /** Concrete path routed by `/workouts/<int:id>`: the prefix followed by a non-empty run of digits. */
  function RouteId(prefix: string, path: string): Option<nat> {
    if |path| > |prefix| && path[..|prefix|] == prefix && (forall i :: |prefix| <= i < |path| ==> Text.IsDigit(path[i])) then
      Some(Text.ParseNat(path[|prefix|..]))
    else None
  }

  lemma {:induction false} IndexOfAfter(a: string, c: char, b: string)
    requires c !in a
    ensures IndexOf(a + [c] + b, c) == Some(|a|)
  {
    if a != [] {
      assert (a + [c] + b)[1..] == a[1..] + [c] + b;
      IndexOfAfter(a[1..], c, b);
    }
  }

  lemma SplitAfter(a: string, sep: char, b: string)
    requires sep !in a
    ensures SplitOn(a + [sep] + b, sep) == [a] + SplitOn(b, sep)
  {
    IndexOfAfter(a, sep, b);
    var s := a + [sep] + b;
    assert s[..|a|] == a;
    assert s[|a| + 1..] == b;
  }

  lemma KeyValueOf(key: string, value: string)
    requires '=' !in key
    ensures KeyValue(Param(key, value)) == (key, value)
  {
    IndexOfAfter(key, '=', value);
    var s := Param(key, value);
    assert s[..|key|] == key;
    assert s[|key| + 1..] == value;
  }

  /** A URL is its path, a '?', and its query. */
  lemma UrlParts(path: string, query: string)
    requires '?' !in path
    ensures PathOf(path + "?" + query) == path
    ensures QueryArgs(path + "?" + query) == ArgsOfQuery(query)
  {
    IndexOfAfter(path, '?', query);
    var url := path + "?" + query;
    assert url[..|path|] == path;
    assert url[|path| + 1..] == query;
  }

  /** The first argument of a query string, followed by the rest. */
  lemma ArgsFirst(key: string, value: string, rest: string)
    requires '=' !in key && '&' !in key && '&' !in value
    ensures ArgsOfQuery(Param(key, value) + "&" + rest) == [(key, value)] + ArgsOfQuery(rest)
  {
    var arg := Param(key, value);
    assert '&' !in arg;
    SplitAfter(arg, '&', rest);
    KeyValueOf(key, value);
  }

  /** A query string with a single argument. */
  lemma ArgsOnly(key: string, value: string)
    requires '=' !in key && '&' !in key && '&' !in value
    ensures ArgsOfQuery(Param(key, value)) == [(key, value)]
  {
    var arg := Param(key, value);
    assert '&' !in arg;
    assert SplitOn(arg, '&') == [arg];
    KeyValueOf(key, value);
  }

  lemma DigitsHaveNoSeparators(n: int)
    ensures '&' !in Text.IntToString(n)
  {
    var s := Text.IntToString(n);
    forall i | 0 <= i < |s| ensures s[i] != '&' {
    }
  }

  /**
   * A value that survives unchanged in a query string the browser sends without
   * encoding: no argument separator, no fragment mark, and neither of the two
   * characters a server decodes ('+' as space, '%' as the start of an escape).
   */
  predicate QuerySafe(v: string) {
    '&' !in v && '#' !in v && '+' !in v && '%' !in v
  }

  /** The page arguments read back in order. */
  lemma PageQueryArgs(page: int, perPage: int)
    ensures ArgsOfQuery(PageQuery(page, perPage))
         == [("page", Text.IntToString(page)), ("per_page", Text.IntToString(perPage))]
  {
    var p, n := Text.IntToString(page), Text.IntToString(perPage);
    DigitsHaveNoSeparators(page);
    DigitsHaveNoSeparators(perPage);
    ArgsFirst("page", p, Param("per_page", n));
    ArgsOnly("per_page", n);
  }

  /** The page arguments followed by one more argument, read back in order. */
  lemma PageQueryThenArgs(page: int, perPage: int, key: string, value: string)
    requires '=' !in key && '&' !in key && '&' !in value
    ensures ArgsOfQuery(PageQuery(page, perPage) + "&" + Param(key, value))
         == [("page", Text.IntToString(page)), ("per_page", Text.IntToString(perPage)), (key, value)]
  {
    var p, n := Text.IntToString(page), Text.IntToString(perPage);
    DigitsHaveNoSeparators(page);
    DigitsHaveNoSeparators(perPage);
    var last := Param(key, value);
    assert PageQuery(page, perPage) + "&" + last == Param("page", p) + "&" + (Param("per_page", n) + "&" + last);
    ArgsFirst("page", p, Param("per_page", n) + "&" + last);
    ArgsFirst("per_page", n, last);
    ArgsOnly(key, value);
  }

  /**
   * The server reads back what fetchExercises sent: the path, the page and the page size,
   * and the muscle group exactly when the client added it.
   */
  lemma ExercisesUrlReadBack(page: int, perPage: int, muscleGroup: Option<string>)
    requires muscleGroup.Some? ==> QuerySafe(muscleGroup.value)
    ensures PathOf(ExercisesUrl(page, perPage, muscleGroup)) == ExercisesPath
    ensures QueryArgs(ExercisesUrl(page, perPage, muscleGroup)) ==
      [("page", Text.IntToString(page)), ("per_page", Text.IntToString(perPage))]
      + (if Truthy(muscleGroup) && muscleGroup.value != "All" then [("muscle_group", muscleGroup.value)] else [])
  {
    var query := ExercisesQueryString(page, perPage, muscleGroup);
    assert ExercisesUrl(page, perPage, muscleGroup) == ExercisesPath + "?" + query;
    UrlParts(ExercisesPath, query);
    if Truthy(muscleGroup) && muscleGroup.value != "All" {
      GroupQueryArgs(page, perPage, muscleGroup.value, query);
    } else {
      assert query == PageQuery(page, perPage);
      PageQueryArgs(page, perPage);
    }
  }

  /** The query string with the muscle group appended, read back in order. */
  lemma GroupQueryArgs(page: int, perPage: int, group: string, query: string)
    requires QuerySafe(group)
    requires query == PageQuery(page, perPage) + "&" + Param("muscle_group", group)
    ensures ArgsOfQuery(query) ==
      [("page", Text.IntToString(page)), ("per_page", Text.IntToString(perPage))] + [("muscle_group", group)]
  {
    PageQueryThenArgs(page, perPage, "muscle_group", group);
  }

  /** The server reads back the page and page size fetchUserWorkouts sent. */
  lemma WorkoutsUrlReadBack(page: int, perPage: int)
    ensures PathOf(WorkoutsUrl(page, perPage)) == WorkoutsPath
    ensures QueryArgs(WorkoutsUrl(page, perPage)) ==
      [("page", Text.IntToString(page)), ("per_page", Text.IntToString(perPage))]
  {
    UrlParts(WorkoutsPath, PageQuery(page, perPage));
    PageQueryArgs(page, perPage);
  }

  /** What the server's lookups see in the query fetchExercises sent. */
  lemma ExercisesUrlArgs(page: int, perPage: int, muscleGroup: Option<string>)
    requires muscleGroup.Some? ==> QuerySafe(muscleGroup.value)
    ensures var args := QueryArgs(ExercisesUrl(page, perPage, muscleGroup));
      && Arg(args, "page") == Some(Text.IntToString(page))
      && Arg(args, "per_page") == Some(Text.IntToString(perPage))
      && Arg(args, "muscle_group") == (if Truthy(muscleGroup) && muscleGroup.value != "All" then muscleGroup else None)
  {
    ExercisesUrlReadBack(page, perPage, muscleGroup);
    var args := QueryArgs(ExercisesUrl(page, perPage, muscleGroup));
    assert "muscle_group" != "page" && "muscle_group" != "per_page" && "per_page" != "page" by {
      assert "muscle_group"[0] != "page"[0];
      assert "muscle_group"[0] != "per_page"[0];
      assert |"per_page"| != |"page"|;
    }
    assert Arg(args, "muscle_group") == Arg(args[2..], "muscle_group") by {
      assert args[1..][1..] == args[2..];
    }
    if Truthy(muscleGroup) && muscleGroup.value != "All" {
      assert args[2..] == [("muscle_group", muscleGroup.value)];
    } else {
      assert args[2..] == [];
    }
  }

  /** A workout id rendered into a per-id path is the id the server's `<int:id>` route extracts. */
  lemma WorkoutPathRoutes(id: nat)
    ensures RouteId(WorkoutsPath + "/", WorkoutPath(Text.IntToString(id))) == Some(id)
  {
    var prefix, digits := WorkoutsPath + "/", Text.IntToString(id);
    var path := WorkoutPath(digits);
    assert path == prefix + digits;
    assert path[..|prefix|] == prefix;
    assert path[|prefix|..] == digits;
    assert forall i :: |prefix| <= i < |path| ==> path[i] == digits[i - |prefix|];
    Text.ParseIntToString(id);
  }

  /** The same for the per-id exercise paths. */
  lemma ExercisePathRoutes(id: nat)
    ensures RouteId(ExercisesPath + "/", ExercisePath(Text.IntToString(id))) == Some(id)
  {
    var prefix, digits := ExercisesPath + "/", Text.IntToString(id);
    var path := ExercisePath(digits);
    assert path == prefix + digits;
    assert path[..|prefix|] == prefix;
    assert path[|prefix|..] == digits;
    assert forall i :: |prefix| <= i < |path| ==> path[i] == digits[i - |prefix|];
    Text.ParseIntToString(id);
  }
}
