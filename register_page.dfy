/** The registration form: its ordered validation chain and the submit handler
    that calls `signUp` only once every check has passed. */
module RegisterPage {
  import opened Wrappers
  import opened Text
  import opened Credentials

  const FillIn: Toast := Toast("Validation Error", "Please fill in all fields", true)
  const BadCharacters: Toast :=
    Toast("Invalid Username", "Username can only contain letters, numbers, and underscores", true)
  const ShortUsername: Toast := Toast("Invalid Username", "Username must be at least 3 characters long", true)
  const ShortPassword: Toast := Toast("Invalid Password", "Password must be at least 6 characters long", true)
  const Mismatch: Toast := Toast("Password Mismatch", "Passwords do not match", true)
  const TermsRequired: Toast :=
    Toast("Terms Required", "Please agree to the Terms of Service and Privacy Policy", true)
  const Created: Toast := Toast("Account Created!", "Welcome to SecureBox. You can now sign in.", false)
  const FailureFallback: string := "Failed to create account"

  /** Everything the form demands, in no particular order. */
  predicate Acceptable(username: string, password: string, confirm: string, agreed: bool) {
    && MatchesUsernamePattern(username)
    && JsLength(username) >= MinUsernameLength
    && JsLength(password) >= MinPasswordLength
    && password == confirm
    && agreed
  }

  /** The first check: no field is blank (the username after trimming). */
  predicate Filled(username: string, password: string, confirm: string) {
    Trim(username) != [] && password != [] && confirm != []
  }

  /** The toast of the first check `handleSubmit` fails, or `None` when the form
      is sent. The checks run in a fixed order: blank fields, the username's
      characters (on the untrimmed text), its length, the password's length, the
      confirmation, the terms. */
  function FirstProblem(username: string, password: string, confirm: string, agreed: bool): (r: Option<Toast>)
    ensures r.None? <==> Acceptable(username, password, confirm, agreed)
    ensures r == Some(FillIn) <==> !Filled(username, password, confirm)
    ensures r == Some(BadCharacters) <==> Filled(username, password, confirm) && !MatchesUsernamePattern(username)
    ensures r == Some(ShortUsername) <==>
              Filled(username, password, confirm) && MatchesUsernamePattern(username)
              && JsLength(username) < MinUsernameLength
    ensures r == Some(ShortPassword) <==>
              Filled(username, password, confirm) && MatchesUsernamePattern(username)
              && JsLength(username) >= MinUsernameLength && JsLength(password) < MinPasswordLength
    ensures r == Some(Mismatch) <==>
              Filled(username, password, confirm) && MatchesUsernamePattern(username)
              && JsLength(username) >= MinUsernameLength && JsLength(password) >= MinPasswordLength
              && password != confirm
    ensures r == Some(TermsRequired) <==> Acceptable(username, password, confirm, true) && !agreed
  {
    PatternAcceptsOnlyTrimmed(username);
    if !Filled(username, password, confirm) then Some(FillIn)
    else if !MatchesUsernamePattern(username) then Some(BadCharacters)
    else if JsLength(username) < MinUsernameLength then Some(ShortUsername)
    else if JsLength(password) < MinPasswordLength then Some(ShortPassword)
    else if password != confirm then Some(Mismatch)
    else if !agreed then Some(TermsRequired)
    else None
  }

  /** A username with white space before an otherwise valid name is refused for
      its characters: the pattern sees the untrimmed text. */
  lemma LeadingSpaceRefused(name: string, pad: string, password: string, confirm: string, agreed: bool)
    requires MatchesUsernamePattern(name)
    requires pad != [] && AllSpace(pad)
    requires password != [] && confirm != []
    ensures FirstProblem(pad + name, password, confirm, agreed) == Some(BadCharacters)
  {
    var padded := pad + name;
    UsernameCharNotSpace(pad[0]);
    UsernameCharNotSpace(name[0]);
    assert padded[0] == pad[0] && !IsUsernameChar(padded[0]);
    assert padded[|pad|] == name[0] && !IsJsSpace(padded[|pad|]);
    NotBlank(padded, |pad|);
    RefusedForCharacters(padded, password, confirm, agreed);
  }

  /** Likewise for white space after the name. */
  lemma TrailingSpaceRefused(name: string, pad: string, password: string, confirm: string, agreed: bool)
    requires MatchesUsernamePattern(name)
    requires pad != [] && AllSpace(pad)
    requires password != [] && confirm != []
    ensures FirstProblem(name + pad, password, confirm, agreed) == Some(BadCharacters)
  {
    var padded := name + pad;
    UsernameCharNotSpace(pad[0]);
    UsernameCharNotSpace(name[0]);
    assert padded[|name|] == pad[0] && !IsUsernameChar(padded[|name|]);
    assert padded[0] == name[0] && !IsJsSpace(padded[0]);
    NotBlank(padded, 0);
    RefusedForCharacters(padded, password, confirm, agreed);
  }

  lemma RefusedForCharacters(username: string, password: string, confirm: string, agreed: bool)
    requires Trim(username) != [] && password != [] && confirm != []
    requires !MatchesUsernamePattern(username)
    ensures FirstProblem(username, password, confirm, agreed) == Some(BadCharacters)
  {
  }

  /** A text with one character that is not white space is not blank after trimming. */
  lemma NotBlank(s: string, i: int)
    requires 0 <= i < |s| && !IsJsSpace(s[i])
    ensures Trim(s) != []
  {
    TrimEmptyIffBlank(s);
  }

  /** The registration page's form state. */
  class RegisterForm {
    var username: string
    var password: string
    var confirmPassword: string
    var agreeToTerms: bool
    var loading: bool

    constructor ()
      ensures username == [] && password == [] && confirmPassword == []
      ensures !agreeToTerms && !loading
    {
      username := [];
      password := [];
      confirmPassword := [];
      agreeToTerms := false;
      loading := false;
    }

    /** `handleSubmit`: `signUp` is how the awaited sign-up ends. Returns the
        credentials sent (if any), the toast shown and the route navigated to. */
    method HandleSubmit(signUp: Call) returns (sent: Option<(string, string)>, toast: Toast, navigateTo: Option<string>)
      modifies this
      ensures var problem := FirstProblem(username, password, confirmPassword, agreeToTerms);
              && (sent.Some? <==> problem.None?)
              && (problem.Some? ==> toast == problem.value && navigateTo == None && loading == old(loading))
      ensures sent.Some? ==> sent.value == (username, password) && !loading
      ensures sent.Some? && signUp.Succeeds? ==> toast == Created && navigateTo == Some("/login")
      ensures sent.Some? && !signUp.Succeeds? ==>
                toast == Toast("Registration Failed", Described(signUp, FailureFallback), true) && navigateTo == None
      ensures username == old(username) && password == old(password)
      ensures confirmPassword == old(confirmPassword) && agreeToTerms == old(agreeToTerms)
    {
      var problem := FirstProblem(username, password, confirmPassword, agreeToTerms);
      if problem.Some? {
        return None, problem.value, None;
      }
      loading := true;
      sent := Some((username, password));
      if signUp.Succeeds? {
        toast, navigateTo := Created, Some("/login");
      } else {
        toast, navigateTo := Toast("Registration Failed", Described(signUp, FailureFallback), true), None;
      }
      loading := false;
    }
  }
}
