/** The sign-up page: on success it records the user in the registry with
    the email as typed and goes to the dashboard; on failure it shows the
    message its error-code table gives. The awaited signup(email, password)
    is a parameter. */
module SignupPage {
  import opened Wrappers
  import opened Text
  import opened Browser
  import opened Auth
  import UserTrackingService
  import LoginPage

  const SignupFailedPrefix := "Signup failed: "

  const EmailInUseCode := "auth/email-already-in-use"
  const WeakPasswordCode := "auth/weak-password"
  const OperationNotAllowedCode := "auth/operation-not-allowed"

  /** The five cases of the switch on err.code. */
  function SignupCodeMessage(code: string): Option<string> {
    if code == LoginPage.InvalidEmailCode then Some(LoginPage.InvalidEmailMessage)
    else if code == EmailInUseCode then
      Some("An account with this email already exists. Try logging in instead or use a different email.")
    else if code == WeakPasswordCode then Some("Password should be at least 6 characters")
    else if code == OperationNotAllowedCode then Some("Email/password sign-up is disabled. Please contact support.")
    else if code == LoginPage.NetworkFailedCode then Some(LoginPage.NetworkFailedMessage)
    else None
  }

  /** The sign-up page's own codes against the login page's: lengths and,
      for the one length they share, the sixth character. */
  lemma SignupCodesDiffer()
    ensures |EmailInUseCode| == 25 && |WeakPasswordCode| == 18 && |OperationNotAllowedCode| == 26
    ensures WeakPasswordCode[5] == 'w'
  {
  }

  /** Each fixed message is non-empty and has a length of its own. */
  lemma SignupCodeMessageShape(code: string)
    ensures var m := SignupCodeMessage(code);
      m.Some? ==> |m.value| > 0 && |m.value| == SignupMessageLength(code)
  {
    LoginPage.LoginCodesDiffer();
    SignupCodesDiffer();
    if code == LoginPage.InvalidEmailCode {
    } else if code == EmailInUseCode {
    } else if code == WeakPasswordCode {
    } else if code == OperationNotAllowedCode {
    } else if code == LoginPage.NetworkFailedCode {
    }
  }

  function SignupMessageLength(code: string): nat {
    if code == LoginPage.InvalidEmailCode then 34
    else if code == EmailInUseCode then 91
    else if code == WeakPasswordCode then 40
    else if code == OperationNotAllowedCode then 59
    else if code == LoginPage.NetworkFailedCode then 44
    else 0
  }

  predicate IsSignupCode(code: Option<string>) {
    code.Some? && SignupCodeMessage(code.value).Some?
  }

  /** The message handleSubmit's catch shows: total and never empty; the
      listed message for a listed code, the fallback for any other. */
  function SignupErrorMessage(code: Option<string>, message: Option<string>): (r: string)
    ensures r != ""
    ensures IsSignupCode(code) ==> SignupCodeMessage(code.value) == Some(r)
    ensures !IsSignupCode(code) ==> r == SignupFailedPrefix + LoginPage.FailureDetail(message)
  {
    if IsSignupCode(code) then
      SignupCodeMessageShape(code.value);
      SignupCodeMessage(code.value).value
    else
      SignupFailedPrefix + LoginPage.FailureDetail(message)
  }

  lemma SignupMessagesDistinct(c1: Option<string>, c2: Option<string>, m1: Option<string>, m2: Option<string>)
    requires IsSignupCode(c1) && IsSignupCode(c2) && c1 != c2
    ensures SignupErrorMessage(c1, m1) != SignupErrorMessage(c2, m2)
  {
    LoginPage.LoginCodesDiffer();
    SignupCodesDiffer();
    SignupCodeMessageShape(c1.value);
    SignupCodeMessageShape(c2.value);
  }

  lemma SignupFallbackMessage(code: Option<string>, message: Option<string>)
    requires !IsSignupCode(code)
    ensures message.Some? && message.value != "" ==> SignupErrorMessage(code, message) == SignupFailedPrefix + message.value
    ensures (message.None? || message.value == "") ==> SignupErrorMessage(code, message) == "Signup failed: Please try again"
  {
  }

  /** The codes both pages list are exactly invalid-email and
      network-request-failed. */
  lemma SharedCodes(code: Option<string>)
    ensures IsSignupCode(code) && LoginPage.IsLoginCode(code) <==>
      code == Some(LoginPage.InvalidEmailCode) || code == Some(LoginPage.NetworkFailedCode)
  {
    LoginPage.LoginCodesDiffer();
    SignupCodesDiffer();
  }

  /** The codes both pages list give the same text on both pages. */
  lemma PagesAgreeOnSharedCodes(code: Option<string>, m1: Option<string>, m2: Option<string>)
    requires IsSignupCode(code) && LoginPage.IsLoginCode(code)
    ensures SignupErrorMessage(code, m1) == LoginPage.LoginErrorMessage(code, m2)
  {
    SharedCodes(code);
  }

  /** The codes only the login page lists fall to the sign-up fallback. */
  lemma LoginOnlyCodesFallBack(code: Option<string>, message: Option<string>)
    requires LoginPage.IsLoginCode(code) && !IsSignupCode(code)
    ensures SignupErrorMessage(code, message) == SignupFailedPrefix + LoginPage.FailureDetail(message)
    ensures code.value in {LoginPage.UserDisabledCode, LoginPage.UserNotFoundCode, LoginPage.WrongPasswordCode, LoginPage.InvalidCredentialCode}
  {
    SharedCodes(code);
  }

  class SignupForm {
    var email: string
    var password: string
    var error: string
    /** The paths passed to navigate, in order. */
    var navigations: seq<string>

    constructor ()
      ensures email == "" && password == "" && error == "" && navigations == []
    {
      email, password, error, navigations := "", "", "", [];
    }

    /** handleSubmit once signup(email, password) has settled with outcome;
        regTime and loginTime are registerUser's two clock readings. */
    method HandleSubmit(st: LocalStorage, outcome: AuthOutcome, regTime: nat, loginTime: nat)
      requires regTime <= loginTime
      modifies this, st
      ensures old(st.Valid()) ==> st.Valid()
      ensures email == old(email) && password == old(password)
      ensures outcome.Authenticated? ==>
        && st.items == UserTrackingService.Registered(old(st.items), outcome.user.uid, email, regTime, loginTime)
        && navigations == old(navigations) + [LoginPage.DashboardPath] && error == old(error)
      ensures outcome.Rejected? ==>
        && st.items == old(st.items) && navigations == old(navigations)
        && error == SignupErrorMessage(outcome.code, outcome.message)
    {
      match outcome
      case Authenticated(user) =>
        UserTrackingService.RegisterUser(st, user.uid, email, regTime, loginTime);
        navigations := navigations + [LoginPage.DashboardPath];
      case Rejected(code, message) =>
        error := SignupErrorMessage(code, message);
    }
  }

  /** After a sign-up the registry holds the new uid with the email exactly
      as typed (not as the identity provider normalised it). */
  lemma SignupRecordsTypedEmail(items: map<string, Stored>, uid: string, typed: string, regTime: nat, loginTime: nat)
    ensures var reg := UserTrackingService.GetUserRegistry(UserTrackingService.Registered(items, uid, typed, regTime, loginTime));
      uid in reg && reg[uid].email == typed && reg[uid].registrationDate == regTime && reg[uid].lastLogin == loginTime
  {
    UserTrackingService.RegisterSetsEntry(items, uid, typed, regTime, loginTime);
  }
}
