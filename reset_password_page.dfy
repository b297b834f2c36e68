/** The password-reset form reached from a recovery link: the session gate that
    decides whether the form is shown, its validation chain, and the submit
    handler that sends the new password with `updateUser`. */
module ResetPasswordPage {
  import opened Wrappers
  import opened Text
  import opened Credentials

  const FillIn: Toast := Toast("Validation Error", "Please fill in all fields", true)
  const ShortPassword: Toast := Toast("Invalid Password", "Password must be at least 6 characters long", true)
  const Mismatch: Toast := Toast("Password Mismatch", "Passwords do not match", true)
  const Updated: Toast := Toast("Password Updated!", "Your password has been successfully reset", false)
  const InvalidLink: Toast := Toast("Invalid Link", "This password reset link is invalid or has expired", true)
  const FailureFallback: string := "Failed to reset password"

  /** The toast of the first failed check, or `None` when the new password is
      sent: blank fields first, then the length, then the confirmation. */
  function FirstProblem(password: string, confirm: string): (r: Option<Toast>)
    ensures r.None? <==> JsLength(password) >= MinPasswordLength && password == confirm
    ensures r == Some(FillIn) <==> password == [] || confirm == []
    ensures r == Some(ShortPassword) <==> password != [] && confirm != [] && JsLength(password) < MinPasswordLength
    ensures r == Some(Mismatch) <==> confirm != [] && JsLength(password) >= MinPasswordLength && password != confirm
  {
    if password == [] || confirm == [] then Some(FillIn)
    else if JsLength(password) < MinPasswordLength then Some(ShortPassword)
    else if password != confirm then Some(Mismatch)
    else None
  }

  /** The length is checked before the confirmation: a short password is
      reported as short even when the confirmation differs. */
  lemma ShortBeforeMismatch(password: string, confirm: string)
    requires password != [] && confirm != [] && password != confirm
    requires JsLength(password) < MinPasswordLength
    ensures FirstProblem(password, confirm) == Some(ShortPassword)
  {
  }

  /** The reset page's state. */
  class ResetPasswordForm {
    var password: string
    var confirmPassword: string
    var loading: bool
    /** Whether a recovery session was found; the form is shown only when set. */
    var validSession: bool

    constructor ()
      ensures password == [] && confirmPassword == [] && !loading && !validSession
    {
      password := [];
      confirmPassword := [];
      loading := false;
      validSession := false;
    }

    /** The mount effect: with a session the form is unlocked; without one the
        page warns and schedules the move to the forgot-password page. */
    method CheckSession(hasSession: bool) returns (toast: Option<Toast>, redirect: Option<string>)
      modifies this
      ensures hasSession ==> validSession && toast == None && redirect == None
      ensures !hasSession ==> validSession == old(validSession)
      ensures !hasSession ==> toast == Some(InvalidLink) && redirect == Some("/forgot-password")
      ensures password == old(password) && confirmPassword == old(confirmPassword) && loading == old(loading)
    {
      if hasSession {
        validSession := true;
        toast, redirect := None, None;
      } else {
        toast, redirect := Some(InvalidLink), Some("/forgot-password");
      }
    }

    /** `handleSubmit`: `updateUser` is how the awaited update ends (its error
        result is rethrown). Returns the password sent (if any), the toast and
        the route scheduled. */
    method HandleSubmit(updateUser: Call) returns (sent: Option<string>, toast: Toast, navigateTo: Option<string>)
      modifies this
      ensures var problem := FirstProblem(password, confirmPassword);
              && (sent.Some? <==> problem.None?)
              && (problem.Some? ==> toast == problem.value && navigateTo == None && loading == old(loading))
      ensures sent.Some? ==> sent.value == password && !loading
      ensures sent.Some? && updateUser.Succeeds? ==> toast == Updated && navigateTo == Some("/login")
      ensures sent.Some? && !updateUser.Succeeds? ==>
                toast == Toast("Error", Described(updateUser, FailureFallback), true) && navigateTo == None
      ensures password == old(password) && confirmPassword == old(confirmPassword)
      ensures validSession == old(validSession)
    {
      var problem := FirstProblem(password, confirmPassword);
      if problem.Some? {
        return None, problem.value, None;
      }
      loading := true;
      sent := Some(password);
      if updateUser.Succeeds? {
        toast, navigateTo := Updated, Some("/login");
      } else {
        toast, navigateTo := Toast("Error", Described(updateUser, FailureFallback), true), None;
      }
      loading := false;
    }
  }

  /** What can happen to the page after it mounts: the session check answers,
      the user types into the two fields, or the form is submitted. */
  datatype PageEvent =
    | SessionChecked(hasSession: bool)
    | Typed(password: string, confirm: string)
    | Submitted(updateUser: Call)

  /** A fresh page taken through any run of events shows the form (rather than
      the "Verifying reset link" screen) exactly when some session check found
      a session: typing and submitting never unlock it, and nothing locks it again. */
  method FormShown(events: seq<PageEvent>) returns (shown: bool)
    ensures shown <==> exists i :: 0 <= i < |events| && events[i] == SessionChecked(true)
  {
    var page := new ResetPasswordForm();
    var i := 0;
    while i < |events|
      invariant 0 <= i <= |events|
      invariant page.validSession <==> exists j :: 0 <= j < i && events[j] == SessionChecked(true)
    {
      match events[i] {
        case SessionChecked(hasSession) =>
          var _, _ := page.CheckSession(hasSession);
        case Typed(password, confirm) =>
          page.password, page.confirmPassword := password, confirm;
        case Submitted(updateUser) =>
          var _, _, _ := page.HandleSubmit(updateUser);
      }
      i := i + 1;
    }
    shown := page.validSession;
  }
}
