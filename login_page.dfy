/** The sign-in form: its two validation checks, the sign-in handler, and the
    remember-me preference kept in the browser's `localStorage` under the keys
    `rememberMe` and `lastUsername`. */
module LoginPage {
  import opened Wrappers
  import opened Text
  import opened Credentials

  const RememberKey: string := "rememberMe"
  const UsernameKey: string := "lastUsername"

  const BothRequired: Toast := Toast("Validation Error", "Please enter both username and password", true)
  const BadCharacters: Toast :=
    Toast("Invalid Username", "Username can only contain letters, numbers, and underscores", true)
  const Welcome: Toast := Toast("Welcome Back!", "Successfully logged in to SecureBox", false)
  const FailureFallback: string := "Invalid credentials"

  /** A string-to-string key/value store that persists across page loads. */
  class LocalStorage {
    var items: map<string, string>

    constructor (items: map<string, string>)
      ensures this.items == items
    {
      this.items := items;
    }

    function GetItem(key: string): (r: Option<string>)
      reads this
      ensures r.Some? <==> key in items
      ensures r.Some? ==> r.value == items[key]
    {
      if key in items then Some(items[key]) else None
    }

    method SetItem(key: string, value: string)
      modifies this
      ensures items == old(items)[key := value]
      ensures GetItem(key) == Some(value)
      ensures forall k :: k != key ==> GetItem(k) == old(GetItem(k))
    {
      items := items[key := value];
    }

    method RemoveItem(key: string)
      modifies this
      ensures items == old(items) - {key}
      ensures GetItem(key) == None
      ensures forall k :: k != key ==> GetItem(k) == old(GetItem(k))
    {
      items := items - {key};
    }
  }

  /** The store after a successful sign-in: the name is remembered when asked,
      and both keys are forgotten otherwise. */
  function Persisted(items: map<string, string>, remember: bool, username: string): (r: map<string, string>)
    ensures forall k :: k != RememberKey && k != UsernameKey ==> (k in r <==> k in items) && (k in r ==> r[k] == items[k])
    ensures remember ==> RememberKey in r && r[RememberKey] == "true" && UsernameKey in r && r[UsernameKey] == username
    ensures !remember ==> RememberKey !in r && UsernameKey !in r
  {
    if remember then items[RememberKey := "true"][UsernameKey := username]
    else items - {RememberKey} - {UsernameKey}
  }

  /** The name the page prefills on load: only when `rememberMe` reads `true`
      and `lastUsername` is a non-empty string. */
  function Recalled(items: map<string, string>): (r: Option<string>)
    ensures r.Some? <==> RememberKey in items && items[RememberKey] == "true" && UsernameKey in items && items[UsernameKey] != []
    ensures r.Some? ==> r.value == items[UsernameKey]
  {
    if RememberKey in items && items[RememberKey] == "true" && UsernameKey in items && items[UsernameKey] != []
    then Some(items[UsernameKey])
    else None
  }

  /** Remembering and then loading gives back the name that signed in; opting
      out leaves nothing to load, whatever the store held before. */
  lemma SaveThenLoad(items: map<string, string>, remember: bool, username: string)
    requires username != []
    ensures Recalled(Persisted(items, remember, username)) == if remember then Some(username) else None
  {
  }

  /** The toast of the first failed check, or `None` when `signIn` is called. */
  function FirstProblem(username: string, password: string): (r: Option<Toast>)
    ensures r.None? <==> MatchesUsernamePattern(username) && password != []
    ensures r == Some(BothRequired) <==> Trim(username) == [] || password == []
    ensures r == Some(BadCharacters) <==> Trim(username) != [] && password != [] && !MatchesUsernamePattern(username)
  {
    PatternAcceptsOnlyTrimmed(username);
    if Trim(username) == [] || password == [] then Some(BothRequired)
    else if !MatchesUsernamePattern(username) then Some(BadCharacters)
    else None
  }

  /** The sign-in page's state. */
  class LoginForm {
    var username: string
    var password: string
    var rememberMe: bool
    var loading: bool

    constructor ()
      ensures username == [] && password == [] && !rememberMe && !loading
    {
      username := [];
      password := [];
      rememberMe := false;
      loading := false;
    }

    /** The mount initialiser: prefill the name and tick remember-me when the
        store has a remembered name; otherwise leave the form as it is. */
    method LoadRemembered(store: LocalStorage)
      modifies this
      ensures Recalled(store.items).Some? ==> username == Recalled(store.items).value && rememberMe
      ensures Recalled(store.items).None? ==> username == old(username) && rememberMe == old(rememberMe)
      ensures password == old(password) && loading == old(loading)
    {
      var remembered := store.GetItem(RememberKey);
      var lastUser := store.GetItem(UsernameKey);
      if remembered == Some("true") && lastUser.Some? && lastUser.value != [] {
        username := lastUser.value;
        rememberMe := true;
      }
    }

    /** `handleSubmit`: `signIn` is how the awaited sign-in ends. The store is
        written only after a successful sign-in. */
    method HandleSubmit(store: LocalStorage, signIn: Call)
      returns (sent: Option<(string, string)>, toast: Toast, navigateTo: Option<string>)
      requires store as object != this
      modifies this, store
      ensures var problem := FirstProblem(username, password);
              && (sent.Some? <==> problem.None?)
              && (problem.Some? ==> toast == problem.value && navigateTo == None && loading == old(loading))
      ensures sent.Some? ==> sent.value == (username, password) && !loading
      ensures sent.Some? && signIn.Succeeds? ==>
                store.items == Persisted(old(store.items), rememberMe, username)
                && toast == Welcome && navigateTo == Some("/")
      ensures !(sent.Some? && signIn.Succeeds?) ==> store.items == old(store.items)
      ensures sent.Some? && !signIn.Succeeds? ==>
                toast == Toast("Login Failed", Described(signIn, FailureFallback), true) && navigateTo == None
      ensures username == old(username) && password == old(password) && rememberMe == old(rememberMe)
    {
      var problem := FirstProblem(username, password);
      if problem.Some? {
        return None, problem.value, None;
      }
      loading := true;
      sent := Some((username, password));
      if signIn.Succeeds? {
        if rememberMe {
          store.SetItem(RememberKey, "true");
          store.SetItem(UsernameKey, username);
        } else {
          store.RemoveItem(RememberKey);
          store.RemoveItem(UsernameKey);
        }
        toast, navigateTo := Welcome, Some("/");
      } else {
        toast, navigateTo := Toast("Login Failed", Described(signIn, FailureFallback), true), None;
      }
      loading := false;
    }
  }

  /** A remembered sign-in is prefilled on the next visit. */
  lemma RememberedSignInIsPrefilled(items: map<string, string>, username: string, password: string)
    requires FirstProblem(username, password).None?
    ensures Recalled(Persisted(items, true, username)) == Some(username)
  {
    SaveThenLoad(items, true, username);
  }
}
