/** The forgot-password form: the blank check, the e-mail pattern
    `^[^\s@]+@[^\s@]+\.[^\s@]+$`, the reset request, and the `emailSent` flag
    that switches the page to its confirmation view. */
module ForgotPasswordPage {
  import opened Wrappers
  import opened Text
  import opened Credentials

  const EmptyEmail: Toast := Toast("Validation Error", "Please enter your email address", true)
  const InvalidEmail: Toast := Toast("Invalid Email", "Please enter a valid email address", true)
  const EmailSent: Toast := Toast("Email Sent!", "Check your inbox for password reset instructions", false)
  const FailureFallback: string := "Failed to send reset email"

  /** Every character is in the class `[^\s@]`. */
  predicate NoSpaceOrAt(s: string) {
    forall i :: 0 <= i < |s| ==> !IsJsSpace(s[i]) && s[i] != '@'
  }

  /** The pattern matches `s` with its `@` at index `at` and the `\.` it needs at
      index `dot`, each of the three runs around them non-empty. */
  predicate EmailSplit(s: string, at: int, dot: int) {
    && 0 < at && at + 1 < dot < |s| - 1
    && s[at] == '@' && s[dot] == '.'
    && NoSpaceOrAt(s[..at]) && NoSpaceOrAt(s[at + 1..dot]) && NoSpaceOrAt(s[dot + 1..])
  }

  /** `/^[^\s@]+@[^\s@]+\.[^\s@]+$/.test(s)`. */
  predicate MatchesEmailPattern(s: string) {
    exists at, dot :: 0 < at < |s| && 0 < dot < |s| && EmailSplit(s, at, dot)
  }

  /** `s[at]` is the only `@` of `s`. */
  predicate OnlyAt(s: string, at: int) {
    0 <= at < |s| && s[at] == '@' && forall i :: 0 <= i < |s| && i != at ==> s[i] != '@'
  }

  /** The address read as a person would: no white space anywhere, exactly one
      `@` with something before it, and a `.` in the domain that is neither its
      first nor its last character. */
  ghost predicate LooksLikeEmail(s: string) {
    && (forall i :: 0 <= i < |s| ==> !IsJsSpace(s[i]))
    && exists at :: 0 < at < |s| && OnlyAt(s, at) &&
         exists dot :: at + 1 < dot < |s| - 1 && s[dot] == '.'
  }

  lemma SplitLooksLikeEmail(s: string, at: int, dot: int)
    requires EmailSplit(s, at, dot)
    ensures LooksLikeEmail(s)
  {
    forall i | 0 <= i < |s|
      ensures !IsJsSpace(s[i]) && (i != at ==> s[i] != '@')
    {
      if i < at {
        assert s[i] == s[..at][i];
      } else if at < i < dot {
        assert s[i] == s[at + 1..dot][i - at - 1];
      } else if dot < i {
        assert s[i] == s[dot + 1..][i - dot - 1];
      }
    }
    assert OnlyAt(s, at);
  }

  lemma LooksLikeEmailSplits(s: string, at: int, dot: int)
    requires forall i :: 0 <= i < |s| ==> !IsJsSpace(s[i])
    requires 0 < at < |s| && OnlyAt(s, at)
    requires at + 1 < dot < |s| - 1 && s[dot] == '.'
    ensures EmailSplit(s, at, dot)
  {
    var local, host, top := s[..at], s[at + 1..dot], s[dot + 1..];
    assert forall j :: 0 <= j < |local| ==> local[j] == s[j];
    assert forall j :: 0 <= j < |host| ==> host[j] == s[at + 1 + j];
    assert forall j :: 0 <= j < |top| ==> top[j] == s[dot + 1 + j];
  }

  /** The pattern accepts exactly the addresses that look like e-mail addresses. */
  lemma PatternMeansEmail(s: string)
    ensures MatchesEmailPattern(s) <==> LooksLikeEmail(s)
  {
    if MatchesEmailPattern(s) {
      var at, dot :| 0 < at < |s| && 0 < dot < |s| && EmailSplit(s, at, dot);
      SplitLooksLikeEmail(s, at, dot);
    }
    if LooksLikeEmail(s) {
      var at :| 0 < at < |s| && OnlyAt(s, at) && exists dot :: at + 1 < dot < |s| - 1 && s[dot] == '.';
      var dot :| at + 1 < dot < |s| - 1 && s[dot] == '.';
      LooksLikeEmailSplits(s, at, dot);
    }
  }

  /** The toast of the first failed check, or `None` when the reset e-mail is
      requested. The pattern sees the untrimmed text. */
  function FirstProblem(email: string): (r: Option<Toast>)
    ensures r.None? || r == Some(EmptyEmail) || r == Some(InvalidEmail)
  {
    if Trim(email) == [] then Some(EmptyEmail)
    else if !MatchesEmailPattern(email) then Some(InvalidEmail)
    else None
  }

  /** The reset e-mail is requested exactly for an address that looks like one;
      a blank field is reported as empty and anything else as invalid. */
  lemma FirstProblemMeans(email: string)
    ensures FirstProblem(email).None? <==> LooksLikeEmail(email)
    ensures FirstProblem(email) == Some(EmptyEmail) <==> Trim(email) == []
    ensures FirstProblem(email) == Some(InvalidEmail) <==> Trim(email) != [] && !LooksLikeEmail(email)
  {
    PatternMeansEmail(email);
    if MatchesEmailPattern(email) {
      assert !IsJsSpace(email[0]);
      NonSpaceNotBlank(email);
    }
  }

  /** A text whose first character is not white space is not blank. */
  lemma NonSpaceNotBlank(s: string)
    requires s != [] && !IsJsSpace(s[0])
    ensures Trim(s) != []
  {
    TrimEmptyIffBlank(s);
  }

  /** An address typed with white space before or after it is refused as invalid,
      not trimmed. */
  lemma SurroundingSpaceRefused(email: string)
    requires email != [] && (IsJsSpace(email[0]) || IsJsSpace(email[|email| - 1]))
    ensures FirstProblem(email).Some?
  {
    FirstProblemMeans(email);
  }

  /** The forgot-password page's state. */
  class ForgotPasswordForm {
    var email: string
    var loading: bool
    var emailSent: bool

    constructor ()
      ensures email == [] && !loading && !emailSent
    {
      email := [];
      loading := false;
      emailSent := false;
    }

    /** `handleSubmit`: `request` is how the awaited reset request ends (its error
        result is rethrown). Returns the address and redirect URL sent (if any)
        and the toast shown. */
    method HandleSubmit(origin: string, request: Call) returns (sent: Option<(string, string)>, toast: Toast)
      modifies this
      ensures var problem := FirstProblem(old(email));
              && (sent.Some? <==> problem.None?)
              && (problem.Some? ==> toast == problem.value && loading == old(loading))
      ensures sent.Some? ==> sent.value == (old(email), origin + "/reset-password") && !loading
      ensures emailSent <==> (sent.Some? && request.Succeeds?) || old(emailSent)
      ensures sent.Some? && request.Succeeds? ==> toast == EmailSent
      ensures sent.Some? && !request.Succeeds? ==> toast == Toast("Error", Described(request, FailureFallback), true)
      ensures email == old(email)
    {
      var problem := FirstProblem(email);
      if problem.Some? {
        return None, problem.value;
      }
      loading := true;
      sent := Some((email, origin + "/reset-password"));
      if request.Succeeds? {
        emailSent := true;
        toast := EmailSent;
      } else {
        toast := Toast("Error", Described(request, FailureFallback), true);
      }
      loading := false;
    }

    /** The "Try again" button: back to the form. */
    method TryAgain()
      modifies this
      ensures !emailSent && email == old(email) && loading == old(loading)
    {
      emailSent := false;
    }
  }
}
