/**
 * The sign-up page: the form validation with its message precedence, the call
 * into the session store, and the choice of the message shown when it fails.
 */
module RegisterPage {

  import opened Wrappers
  import opened HttpClient
  import Session
  import PageErrors

  const MismatchMessage := "Passwords do not match"
  const TooShortMessage := "Password must be at least 6 characters"
  const RegisterFailed := "Registration failed. Please check the console for more details."
  const MinPasswordLength := 6
  const HomePath := "/"

  /** validateForm: the message it reports, or None when the form is valid. */
  function Validation(password: string, confirmPassword: string): (m: Option<string>)
    ensures m.None? <==> password == confirmPassword && |password| >= MinPasswordLength
    ensures password != confirmPassword ==> m == Some(MismatchMessage)
    ensures password == confirmPassword && |password| < MinPasswordLength ==> m == Some(TooShortMessage)
  {
    if password != confirmPassword then Some(MismatchMessage)
    else if |password| < MinPasswordLength then Some(TooShortMessage)
    else None
  }

  /** The mismatch check comes first: a short password that does not match its confirmation reports the mismatch. */
  lemma MismatchTakesPrecedence(password: string, confirmPassword: string)
    requires password != confirmPassword && |password| < MinPasswordLength
    ensures Validation(password, confirmPassword) == Some(MismatchMessage)
  {
  }

  /** The page's own state. */
  datatype Form = Form(loading: bool, error: Option<string>, navigatedTo: Option<string>)

  /** The page after a submit that passed validation, given how the context's register settled. */
  function Submitted(f: Form, result: Outcome<Option<UserObject>>): (g: Form)
    ensures !g.loading
    ensures result.Resolved? ==> g.error == None && g.navigatedTo == Some(HomePath)
    ensures result.Rejected? ==> g.error == Some(PageErrors.SubmitError(result.err, RegisterFailed)) && g.navigatedTo == f.navigatedTo
  {
    if result.Resolved? then f.(loading := false, error := None, navigatedTo := Some(HomePath))
    else f.(loading := false, error := Some(PageErrors.SubmitError(result.err, RegisterFailed)))
  }

  /** A taken username: the server's message is shown on the page, and the context records the same text. */
  lemma TakenUsernameMessage(f: Form, s: Session.State, message: string, errorText: string)
    requires errorText != ""
    ensures var (t, result) := Session.AfterRegister(s, Rejected(JsError(message, Some(ErrorResponse(400, Some(errorText))))));
      Submitted(f, result).error == Some(errorText) && t.error == Some(errorText)
  {
  }

  class Page {
    const session: Session.SessionStore
    var username: string
    var email: string
    var password: string
    var confirmPassword: string
    var loading: bool
    var error: Option<string>
    var navigatedTo: Option<string>

    function FormState(): Form
      reads this
    {
      Form(loading, error, navigatedTo)
    }

    constructor (session: Session.SessionStore)
      ensures this.session == session && username == "" && email == "" && password == "" && confirmPassword == ""
      ensures FormState() == Form(false, None, None)
    {
      this.session := session;
      username := "";
      email := "";
      password := "";
      confirmPassword := "";
      loading := false;
      error := None;
      navigatedTo := None;
    }

    /**
     * handleSubmit, given how the registration request settles. A form that fails
     * validation only sets the validation message; register is not called and
     * loading is never set.
     */
    method Submit(reply: Outcome<AuthReply>)
      modifies this`loading, this`error, this`navigatedTo, session, session.client
      ensures Validation(password, confirmPassword).Some? ==>
        && error == Validation(password, confirmPassword)
        && loading == old(loading) && navigatedTo == old(navigatedTo)
        && session.Snapshot() == old(session.Snapshot())
      ensures Validation(password, confirmPassword).None? ==>
        var (t, result) := Session.AfterRegister(old(session.Snapshot()), reply);
        session.Snapshot() == t && FormState() == Submitted(old(FormState()), result)
    {
      var invalid := Validation(password, confirmPassword);
      if invalid.Some? {
        error := invalid;
        return;
      }
      loading := true;
      error := None;
      var result := session.Register(reply);
      if result.Resolved? {
        navigatedTo := Some(HomePath);
      } else {
        error := Some(PageErrors.SubmitError(result.err, RegisterFailed));
      }
      loading := false;
    }
  }
}
