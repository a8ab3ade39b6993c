/**
 * The sign-in page: the required-field check, the call into the session store,
 * and the choice of the message shown when it fails.
 */
module LoginPage {

  import opened Wrappers
  import opened HttpClient
  import Session
  import PageErrors

  const RequiredMessage := "Username and password are required"
  const LoginFailed := "Login failed. Please check your credentials and try again."
  const HomePath := "/"

  /** The required-field check: both fields must be non-empty. */
  function MissingField(username: string, password: string): (m: Option<string>)
    ensures m.None? <==> username != "" && password != ""
    ensures m.Some? ==> m.value == RequiredMessage
  {
    if username == "" || password == "" then Some(RequiredMessage) else None
  }

  /** The page's own state. */
  datatype Form = Form(loading: bool, error: Option<string>, navigatedTo: Option<string>)

  /**
   * The page after a submit that passed the required-field check, given how the
   * context's login settled: home on success, the chosen message on failure, and
   * never loading afterwards.
   */
  function Submitted(f: Form, result: Outcome<Option<UserObject>>): (g: Form)
    ensures !g.loading
    ensures result.Resolved? ==> g.error == None && g.navigatedTo == Some(HomePath)
    ensures result.Rejected? ==> g.error == Some(PageErrors.SubmitError(result.err, LoginFailed)) && g.navigatedTo == f.navigatedTo
  {
    if result.Resolved? then f.(loading := false, error := None, navigatedTo := Some(HomePath))
    else f.(loading := false, error := Some(PageErrors.SubmitError(result.err, LoginFailed)))
  }

  /** A wrong password: the server's own message is shown and the browser is also sent to the login page. */
  lemma WrongPasswordMessage(f: Form, s: Session.State, message: string, errorText: string)
    requires errorText != ""
    ensures var (t, result) := Session.AfterLogin(s, Rejected(JsError(message, Some(ErrorResponse(401, Some(errorText))))));
      && Submitted(f, result).error == Some(errorText)
      && t.location == Some(LoginLocation)
  {
  }

  /** A reply without a token is shown as the generic credentials message. */
  lemma ReplyWithoutTokenMessage(f: Form, s: Session.State, user: Option<UserObject>)
    ensures var (_, result) := Session.AfterLogin(s, Resolved(AuthReply(user, None)));
      Submitted(f, result).error == Some(LoginFailed)
  {
    PageErrors.InvalidResponseShowsFallback(LoginFailed);
  }

  class Page {
    const session: Session.SessionStore
    var username: string
    var password: string
    var loading: bool
    var error: Option<string>
    var navigatedTo: Option<string>

    function FormState(): Form
      reads this
    {
      Form(loading, error, navigatedTo)
    }

    constructor (session: Session.SessionStore)
      ensures this.session == session && username == "" && password == ""
      ensures FormState() == Form(false, None, None)
    {
      this.session := session;
      username := "";
      password := "";
      loading := false;
      error := None;
      navigatedTo := None;
    }

    /**
     * handleSubmit, given how the login request settles. A missing field only sets
     * the required message; the session is not touched and loading is never set.
     */
    method Submit(reply: Outcome<AuthReply>)
      modifies this`loading, this`error, this`navigatedTo, session, session.client
      ensures MissingField(username, password).Some? ==>
        && error == MissingField(username, password)
        && loading == old(loading) && navigatedTo == old(navigatedTo)
        && session.Snapshot() == old(session.Snapshot())
      ensures MissingField(username, password).None? ==>
        var (t, result) := Session.AfterLogin(old(session.Snapshot()), reply);
        session.Snapshot() == t && FormState() == Submitted(old(FormState()), result)
    {
      var missing := MissingField(username, password);
      if missing.Some? {
        error := missing;
        return;
      }
      loading := true;
      error := None;
      var result := session.Login(reply);
      if result.Resolved? {
        navigatedTo := Some(HomePath);
      } else {
        error := Some(PageErrors.SubmitError(result.err, LoginFailed));
      }
      loading := false;
    }
  }
}
