/** The sign-in page: on success it stamps the user's last login and goes to
    the dashboard; on failure it shows the message its error-code table
    gives. The awaited login(email, password) is a parameter. */
module LoginPage {
  import opened Wrappers
  import opened Text
  import opened Browser
  import opened Auth
  import UserTrackingService

  const LoginFailedPrefix := "Login failed: "
  const TryAgain := "Please try again"
  const DashboardPath := "/dashboard"

  const InvalidEmailCode := "auth/invalid-email"
  const UserDisabledCode := "auth/user-disabled"
  const UserNotFoundCode := "auth/user-not-found"
  const WrongPasswordCode := "auth/wrong-password"
  const InvalidCredentialCode := "auth/invalid-credential"
  const NetworkFailedCode := "auth/network-request-failed"

  const InvalidEmailMessage := "Please enter a valid email address"
  const NetworkFailedMessage := "Network error. Please check your connection."

  /** err.message || 'Please try again'. */
  function FailureDetail(message: Option<string>): (r: string)
    ensures r != ""
    ensures message.Some? && message.value != "" ==> r == message.value
  {
    if message.Some? && message.value != "" then message.value else TryAgain
  }

  /** The six cases of the switch on err.code. */
  function LoginCodeMessage(code: string): Option<string> {
    if code == InvalidEmailCode then Some(InvalidEmailMessage)
    else if code == UserDisabledCode then Some("This account has been disabled")
    else if code == UserNotFoundCode then Some("No account found with this email")
    else if code == WrongPasswordCode then Some("Incorrect password")
    else if code == InvalidCredentialCode then Some("Invalid email or password")
    else if code == NetworkFailedCode then Some(NetworkFailedMessage)
    else None
  }

  /** The listed codes have these lengths, and those of equal length differ
      in their sixth character. */
  lemma LoginCodesDiffer()
    ensures |InvalidEmailCode| == 18 && |UserDisabledCode| == 18 && |UserNotFoundCode| == 19
    ensures |WrongPasswordCode| == 19 && |InvalidCredentialCode| == 23 && |NetworkFailedCode| == 27
    ensures InvalidEmailCode[5] == 'i' && UserDisabledCode[5] == 'u'
    ensures UserNotFoundCode[5] == 'u' && WrongPasswordCode[5] == 'w'
  {
  }

  predicate IsLoginCode(code: Option<string>) {
    code.Some? && LoginCodeMessage(code.value).Some?
  }

  /** The message handleSubmit's catch shows: total, never empty, and in
      the fallback form exactly for the codes the switch does not list. */
  function LoginErrorMessage(code: Option<string>, message: Option<string>): (r: string)
    ensures r != ""
    ensures IsLoginCode(code) <==> !StartsWith(r, LoginFailedPrefix)
    ensures IsLoginCode(code) ==> r == LoginCodeMessage(code.value).value
    ensures !IsLoginCode(code) ==> r == LoginFailedPrefix + FailureDetail(message)
  {
    if IsLoginCode(code) then
      var m := LoginCodeMessage(code.value).value;
      assert m[0] != 'L';
      m
    else
      assert (LoginFailedPrefix + FailureDetail(message))[..|LoginFailedPrefix|] == LoginFailedPrefix;
      LoginFailedPrefix + FailureDetail(message)
  }

  /** The six fixed messages are pairwise different, so the message shown
      tells the listed codes apart. */
  lemma LoginMessagesDistinct(c1: Option<string>, c2: Option<string>, m1: Option<string>, m2: Option<string>)
    requires IsLoginCode(c1) && IsLoginCode(c2) && c1 != c2
    ensures LoginErrorMessage(c1, m1) != LoginErrorMessage(c2, m2)
  {
    LoginCodesDiffer();
  }

  /** The fallback quotes err.message, or asks to try again when it is
      empty or missing. */
  lemma LoginFallbackMessage(code: Option<string>, message: Option<string>)
    requires !IsLoginCode(code)
    ensures message.Some? && message.value != "" ==> LoginErrorMessage(code, message) == LoginFailedPrefix + message.value
    ensures (message.None? || message.value == "") ==> LoginErrorMessage(code, message) == "Login failed: Please try again"
  {
  }

  class LoginForm {
    var email: string
    var password: string
    var error: string
    /** The paths passed to navigate, in order. */
    var navigations: seq<string>

    constructor ()
      ensures email == "" && password == "" && error == "" && navigations == []
    {
      email, password, error, navigations := "", "", "", [];
    }

    /** handleSubmit once login(email, password) has settled with outcome;
        now is the clock reading updateUserLogin takes. */
    method HandleSubmit(st: LocalStorage, outcome: AuthOutcome, now: nat)
      modifies this, st
      ensures old(st.Valid()) ==> st.Valid()
      ensures email == old(email) && password == old(password)
      ensures outcome.Authenticated? ==>
        && st.items == UserTrackingService.LoginUpdated(old(st.items), outcome.user.uid, now)
        && navigations == old(navigations) + [DashboardPath] && error == old(error)
      ensures outcome.Rejected? ==>
        && st.items == old(st.items) && navigations == old(navigations)
        && error == LoginErrorMessage(outcome.code, outcome.message)
    {
      match outcome
      case Authenticated(user) =>
        UserTrackingService.UpdateUserLogin(st, user.uid, now);
        navigations := navigations + [DashboardPath];
      case Rejected(code, message) =>
        error := LoginErrorMessage(code, message);
    }
  }

  /** A successful login of a registered user leaves that user's lastLogin
      at the clock reading, before the dashboard is shown. */
  lemma LoginStampsRegistry(items: map<string, Stored>, uid: string, now: nat)
    requires uid in UserTrackingService.GetUserRegistry(items)
    ensures UserTrackingService.GetUserRegistry(UserTrackingService.LoginUpdated(items, uid, now))[uid].lastLogin == now
  {
    UserTrackingService.UpdateLoginEffect(items, uid, now);
  }
}
