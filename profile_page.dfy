/**
 * The profile page: the profile and password records its inputs edit, the
 * notification it shows, and its two submits.
 */
module ProfilePage {

  import opened Wrappers
  import opened HttpClient
  import Session

  /** The profile record the inputs edit; every field holds the input's string. */
  datatype Profile = Profile(
    firstName: string,
    lastName: string,
    email: string,
    age: string,
    weight: string,
    height: string,
    fitnessGoals: string)

  const EmptyProfile := Profile("", "", "", "", "", "", "")

  datatype ProfileField = FirstName | LastName | Email | Age | Weight | Height | FitnessGoals

  datatype PasswordData = PasswordData(currentPassword: string, newPassword: string, confirmPassword: string)

  const EmptyPasswords := PasswordData("", "", "")

  datatype PasswordField = CurrentPassword | NewPassword | ConfirmPassword

  /** The snackbar: whether it is open, its text and its severity. */
  datatype Notification = Notification(open: bool, message: string, severity: string)

  const Success := "success"
  const Failure := "error"
  const PasswordMismatch := "New passwords do not match"
  const PasswordChanged := "Password changed successfully"
  const PasswordError := "Failed to change password. Please make sure your current password is correct."
  const PasswordErrorNote := "Failed to change password"
  const ProfileSaved := "Profile updated successfully"
  const ProfileError := "Failed to update profile. Please try again later."
  const ProfileErrorNote := "Failed to update profile"
  const LoadError := "Failed to load profile. Please try again later."

  /** handleProfileChange: only the named field changes. */
  function WithProfileField(p: Profile, field: ProfileField, value: string): (q: Profile)
    ensures q.firstName == (if field == FirstName then value else p.firstName)
    ensures q.lastName == (if field == LastName then value else p.lastName)
    ensures q.email == (if field == Email then value else p.email)
    ensures q.age == (if field == Age then value else p.age)
    ensures q.weight == (if field == Weight then value else p.weight)
    ensures q.height == (if field == Height then value else p.height)
    ensures q.fitnessGoals == (if field == FitnessGoals then value else p.fitnessGoals)
  {
    match field
    case FirstName => p.(firstName := value)
    case LastName => p.(lastName := value)
    case Email => p.(email := value)
    case Age => p.(age := value)
    case Weight => p.(weight := value)
    case Height => p.(height := value)
    case FitnessGoals => p.(fitnessGoals := value)
  }

  /** handlePasswordChange: only the named field changes. */
  function WithPasswordField(d: PasswordData, field: PasswordField, value: string): (e: PasswordData)
    ensures e.currentPassword == (if field == CurrentPassword then value else d.currentPassword)
    ensures e.newPassword == (if field == NewPassword then value else d.newPassword)
    ensures e.confirmPassword == (if field == ConfirmPassword then value else d.confirmPassword)
  {
    match field
    case CurrentPassword => d.(currentPassword := value)
    case NewPassword => d.(newPassword := value)
    case ConfirmPassword => d.(confirmPassword := value)
  }

  /** showNotification: open, with the message, and the severity "success" unless one is given. */
  function Shown(message: string, severity: Option<string>): (n: Notification)
    ensures n.open && n.message == message
    ensures severity.None? ==> n.severity == Success
    ensures severity.Some? ==> n.severity == severity.value
  {
    Notification(true, message, severity.GetOr(Success))
  }

  /** closeNotification: closed, message and severity kept. */
  function Closed(n: Notification): (m: Notification)
    ensures !m.open && m.message == n.message && m.severity == n.severity
  {
    n.(open := false)
  }

  /** Closing a shown notification keeps what it said. */
  lemma CloseKeepsText(message: string, severity: Option<string>)
    ensures Closed(Shown(message, severity)) == Notification(false, message, severity.GetOr(Success))
  {
  }

  /** Editing the same field twice keeps only the second value. */
  lemma ProfileFieldLastWins(p: Profile, field: ProfileField, a: string, b: string)
    ensures WithProfileField(WithProfileField(p, field, a), field, b) == WithProfileField(p, field, b)
  {
  }

  /**
   * The context user after a successful profile save, as the page is written: it reads
   * `updateUser` from the auth context and calls it only when the context value has
   * such a member.
   */
  function SavedUserAsWritten(members: set<string>, user: Option<UserObject>, p: Profile): Option<UserObject> {
    if "updateUser" in members then Some(MergeNames(user, p)) else user
  }

  /**
   * The context value has no `updateUser`, so for every user and every profile a save
   * leaves the context user as it was, and a first name typed differently never reaches it.
   */
  lemma SavedNamesAreLost(user: Option<UserObject>, p: Profile)
    ensures SavedUserAsWritten(Session.ContextMembers, user, p) == user
    ensures user.Some? && "firstName" in user.value && user.value["firstName"] != p.firstName ==>
      SavedUserAsWritten(Session.ContextMembers, user, p) != Some(MergeNames(user, p))
  {
    assert "updateUser" !in Session.ContextMembers;
  }

  /**
   * The intended update of the context user: `{...user, firstName, lastName}`, where
   * spreading a missing user contributes no fields.
   */
  function MergeNames(user: Option<UserObject>, p: Profile): (u: UserObject)
    ensures "firstName" in u && u["firstName"] == p.firstName
    ensures "lastName" in u && u["lastName"] == p.lastName
    ensures forall k :: k != "firstName" && k != "lastName" ==> (k in u <==> user.Some? && k in user.value)
    ensures user.Some? ==> forall k :: k in user.value && k != "firstName" && k != "lastName" ==> u[k] == user.value[k]
  {
    user.GetOr(map[])["firstName" := p.firstName]["lastName" := p.lastName]
  }

  /** Saving the same names again changes nothing. */
  lemma MergeNamesIdempotent(user: Option<UserObject>, p: Profile)
    ensures MergeNames(Some(MergeNames(user, p)), p) == MergeNames(user, p)
  {
  }

  /** A mismatched new password and confirmation: the error text, or None when they agree. */
  function PasswordCheck(d: PasswordData): (m: Option<string>)
    ensures m.None? <==> d.newPassword == d.confirmPassword
    ensures m.Some? ==> m.value == PasswordMismatch
  {
    if d.newPassword != d.confirmPassword then Some(PasswordMismatch) else None
  }

  class Page {
    const session: Session.SessionStore
    var profile: Profile
    var passwordData: PasswordData
    var loading: bool
    var saving: bool
    var changingPassword: bool
    var error: Option<string>
    var notification: Notification

    constructor (session: Session.SessionStore)
      ensures this.session == session && profile == EmptyProfile && passwordData == EmptyPasswords
      ensures loading && !saving && !changingPassword && error == None
      ensures notification == Notification(false, "", Success)
    {
      this.session := session;
      profile := EmptyProfile;
      passwordData := EmptyPasswords;
      loading := true;
      saving := false;
      changingPassword := false;
      error := None;
      notification := Notification(false, "", Success);
    }

    /** The profile fetch on mount: a success replaces the profile, a failure records the load error; loading ends. */
    method LoadProfile(fetched: Outcome<Profile>)
      modifies this`profile, this`loading, this`error, session.client
      ensures !loading
      ensures fetched.Resolved? ==> profile == fetched.value && error == old(error)
      ensures fetched.Rejected? ==> profile == old(profile) && error == Some(LoadError)
      ensures session.client.Browser() == AfterResponse(old(session.client.Browser()), fetched)
    {
      loading := true;
      var response := session.client.Intercept(fetched);
      if response.Resolved? {
        profile := response.value;
      } else {
        error := Some(LoadError);
      }
      loading := false;
    }

    method HandleProfileChange(field: ProfileField, value: string)
      modifies this`profile
      ensures profile == WithProfileField(old(profile), field, value)
    {
      profile := WithProfileField(profile, field, value);
    }

    method HandlePasswordChange(field: PasswordField, value: string)
      modifies this`passwordData
      ensures passwordData == WithPasswordField(old(passwordData), field, value)
    {
      passwordData := WithPasswordField(passwordData, field, value);
    }

    method ShowNotification(message: string, severity: Option<string>)
      modifies this`notification
      ensures notification == Shown(message, severity)
    {
      notification := Notification(true, message, severity.GetOr(Success));
    }

    method CloseNotification()
      modifies this`notification
      ensures notification == Closed(old(notification))
    {
      notification := notification.(open := false);
    }

    /**
     * handleProfileSubmit, given how the update request settles. Success notifies;
     * failure records the error and notifies; saving ends either way and the profile
     * itself is kept. The context user is never touched: the `updateUser` the page
     * guards on is not part of the context value.
     */
    method SubmitProfile(settled: Outcome<UserObject>)
      modifies this`saving, this`error, this`notification, session.client
      ensures !saving && profile == old(profile)
      ensures session.user == old(session.user)
      ensures settled.Resolved? ==>
        && session.user == SavedUserAsWritten(Session.ContextMembers, old(session.user), profile)
        && error == None && notification == Shown(ProfileSaved, Some(Success))
      ensures settled.Rejected? ==>
        error == Some(ProfileError) && notification == Shown(ProfileErrorNote, Some(Failure))
      ensures session.client.Browser() == AfterResponse(old(session.client.Browser()), settled)
    {
      saving := true;
      error := None;
      var response := session.client.Intercept(settled);
      if response.Resolved? {
        SavedNamesAreLost(session.user, profile);
        ShowNotification(ProfileSaved, Some(Success));
      } else {
        error := Some(ProfileError);
        ShowNotification(ProfileErrorNote, Some(Failure));
      }
      saving := false;
    }

    /**
     * handlePasswordSubmit, given how the change request settles. A mismatch only records
     * the error and notifies: no request is sent and changingPassword is never set.
     * Success notifies and clears the three fields; failure keeps them and records the error.
     */
    method SubmitPassword(settled: Outcome<UserObject>) returns (sent: bool)
      modifies this`passwordData, this`changingPassword, this`error, this`notification, session.client
      ensures sent <==> PasswordCheck(old(passwordData)).None?
      ensures !sent ==>
        && error == Some(PasswordMismatch) && notification == Shown(PasswordMismatch, Some(Failure))
        && passwordData == old(passwordData) && changingPassword == old(changingPassword)
      ensures sent ==> !changingPassword
      ensures sent && settled.Resolved? ==>
        passwordData == EmptyPasswords && error == None && notification == Shown(PasswordChanged, Some(Success))
      ensures sent && settled.Rejected? ==>
        passwordData == old(passwordData) && error == Some(PasswordError) && notification == Shown(PasswordErrorNote, Some(Failure))
      ensures session.client.Browser() ==
        if sent then AfterResponse(old(session.client.Browser()), settled) else old(session.client.Browser())
    {
      var mismatch := PasswordCheck(passwordData);
      if mismatch.Some? {
        error := mismatch;
        ShowNotification(PasswordMismatch, Some(Failure));
        return false;
      }
      sent := true;
      changingPassword := true;
      error := None;
      var response := session.client.Intercept(settled);
      if response.Resolved? {
        ShowNotification(PasswordChanged, Some(Success));
        passwordData := EmptyPasswords;
      } else {
        error := Some(PasswordError);
        ShowNotification(PasswordErrorNote, Some(Failure));
      }
      changingPassword := false;
    }
  }
}
