/** The sign-in page of src/app/login/page.tsx: the password and Google handlers,
    each of which sets its own loading flag, navigates to the `redirect` parameter
    (else "/") on success, turns a failure's error code into one destructive toast,
    and clears its flag whatever the outcome. The sign-in calls themselves are
    foreign; their outcome is an input. */
module LoginPage {
  import opened Types
  import opened Text

  /** The code and message of a failed sign-in. */
  datatype AuthError = AuthError(code: string, message: string)

  /** What a handler does after the sign-in call settles. */
  datatype Effect = Navigate(target: string) | ShowToast(toast: Toast)

  const InvalidCredential := "The email or password you entered is incorrect. Please double-check and try again."
  const NetworkFailed := "A network error occurred. Please check your internet connection."
  const UserNotFound := "No account was found with that email address. Please sign up first."
  const WrongPassword := "The password you entered is incorrect. Please try again."
  const PopupClosed := "The Google sign-in window was closed before completing. Please try again."
  const PopupCancelled := "The sign-in process was cancelled. Please try again."

  /** The `default` branch of both switches. */
  function DefaultMessage(e: AuthError): string
  {
    "An error occurred: " + e.message + " (Code: " + e.code + ")"
  }

  /** The password handler's switch. */
  function PasswordMessage(e: AuthError): string
  {
    match e.code
    case "auth/invalid-credential" => InvalidCredential
    case "auth/network-request-failed" => NetworkFailed
    case "auth/user-not-found" => UserNotFound
    case "auth/wrong-password" => WrongPassword
    case _ => DefaultMessage(e)
  }

  /** The Google handler's switch. */
  function GoogleMessage(e: AuthError): string
  {
    match e.code
    case "auth/popup-closed-by-user" => PopupClosed
    case "auth/cancelled-popup-request" => PopupCancelled
    case _ => DefaultMessage(e)
  }

  /** The default message names both the error's message and its code. */
  lemma DefaultNamesCodeAndMessage(e: AuthError)
    ensures Includes(DefaultMessage(e), e.code) && Includes(DefaultMessage(e), e.message)
  {
    var s := DefaultMessage(e);
    IncludesInfix("An error occurred: ", e.message, " (Code: " + e.code + ")");
    assert s == "An error occurred: " + e.message + (" (Code: " + e.code + ")");
    IncludesInfix("An error occurred: " + e.message + " (Code: ", e.code, ")");
  }

  /** Each of the four password codes has its own message, different from the
      other three, and every other code takes the default; the Google handler knows
      only its two popup codes, so a password code there takes the default too. */
  lemma MessagesByCode(e: AuthError)
    ensures e.code == "auth/invalid-credential" ==> PasswordMessage(e) == InvalidCredential
    ensures e.code == "auth/network-request-failed" ==> PasswordMessage(e) == NetworkFailed
    ensures e.code == "auth/user-not-found" ==> PasswordMessage(e) == UserNotFound
    ensures e.code == "auth/wrong-password" ==> PasswordMessage(e) == WrongPassword
    ensures |{InvalidCredential, NetworkFailed, UserNotFound, WrongPassword}| == 4
    ensures e.code !in {"auth/invalid-credential", "auth/network-request-failed", "auth/user-not-found", "auth/wrong-password"}
      ==> PasswordMessage(e) == DefaultMessage(e)
    ensures e.code == "auth/popup-closed-by-user" ==> GoogleMessage(e) == PopupClosed
    ensures e.code == "auth/cancelled-popup-request" ==> GoogleMessage(e) == PopupCancelled
    ensures PopupClosed != PopupCancelled
    ensures e.code !in {"auth/popup-closed-by-user", "auth/cancelled-popup-request"}
      ==> GoogleMessage(e) == DefaultMessage(e)
  {
    assert |InvalidCredential| == 82 && |NetworkFailed| == 64 && |UserNotFound| == 67 && |WrongPassword| == 56;
    assert |PopupClosed| == 73 && |PopupCancelled| == 52;
  }

  /** `redirect || "/"`. */
  function RedirectTarget(redirect: Option<string>): (t: string)
    ensures Truthy(redirect) ==> t == redirect.value
    ensures !Truthy(redirect) ==> t == "/"
  {
    OrDefault(redirect, "/")
  }

  class Login {
    /** The `redirect` query parameter. */
    const redirect: Option<string>
    var isLoading: bool
    var isGoogleLoading: bool

    constructor (redirect: Option<string>)
      ensures this.redirect == redirect && !isLoading && !isGoogleLoading
    {
      this.redirect := redirect;
      isLoading, isGoogleLoading := false, false;
    }

    /** `handleLogin` up to the sign-in call. */
    method StartPassword()
      modifies this`isLoading
      ensures isLoading
    {
      isLoading := true;
    }

    /** The rest of `handleLogin`: navigate on success, otherwise one "Login Failed"
        toast whose text the switch chose; the flag is cleared either way. */
    method FinishPassword(outcome: Option<AuthError>) returns (effect: Effect)
      requires isLoading
      modifies this`isLoading
      ensures !isLoading
      ensures outcome.None? ==> effect == Navigate(RedirectTarget(redirect))
      ensures outcome.Some? ==>
        effect == ShowToast(Toast("Login Failed", Some(PasswordMessage(outcome.value)), true))
    {
      if outcome.None? {
        effect := Navigate(RedirectTarget(redirect));
      } else {
        effect := ShowToast(Toast("Login Failed", Some(PasswordMessage(outcome.value)), true));
      }
      isLoading := false;
    }

    /** `handleGoogleLogin` up to the popup. */
    method StartGoogle()
      modifies this`isGoogleLoading
      ensures isGoogleLoading
    {
      isGoogleLoading := true;
    }

    /** The rest of `handleGoogleLogin`: as for the password handler, with the
        Google switch and title. */
    method FinishGoogle(outcome: Option<AuthError>) returns (effect: Effect)
      requires isGoogleLoading
      modifies this`isGoogleLoading
      ensures !isGoogleLoading
      ensures outcome.None? ==> effect == Navigate(RedirectTarget(redirect))
      ensures outcome.Some? ==>
        effect == ShowToast(Toast("Google Login Failed", Some(GoogleMessage(outcome.value)), true))
    {
      if outcome.None? {
        effect := Navigate(RedirectTarget(redirect));
      } else {
        effect := ShowToast(Toast("Google Login Failed", Some(GoogleMessage(outcome.value)), true));
      }
      isGoogleLoading := false;
    }
  }

  /** A visitor sent from the admin page fails once with a wrong password, then signs
      in: one destructive toast, then navigation back to the admin page. */
  method WrongPasswordThenSuccess()
  {
    var page := new Login(Some("/admin"));
    page.StartPassword();
    var effect := page.FinishPassword(Some(AuthError("auth/wrong-password", "bad")));
    assert effect == ShowToast(Toast("Login Failed", Some(WrongPassword), true));
    assert !page.isLoading;
    page.StartPassword();
    effect := page.FinishPassword(None);
    assert effect == Navigate("/admin");
  }
}
