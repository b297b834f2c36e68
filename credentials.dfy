/** The credential rules the authentication pages share: the username pattern,
    the minimum lengths, the password-strength meter, and the shapes of the
    notifications and awaited calls the form handlers deal in. */
module Credentials {
  import opened Wrappers
  import opened Text

  const MinUsernameLength: nat := 3
  const MinPasswordLength: nat := 6
  /** The length that earns the meter's second length point. */
  const GoodPasswordLength: nat := 8

  /** A toast notification; `destructive` is the error styling. */
  datatype Toast = Toast(title: string, description: string, destructive: bool)

  /** How an awaited call ended: it resolved, it threw an `Error` with a message,
      or it threw a value that is not an `Error`. */
  datatype Call = Succeeds | ThrowsError(message: string) | ThrowsOther

  /** `error instanceof Error ? error.message : fallback`. */
  function Described(call: Call, fallback: string): (text: string)
    requires !call.Succeeds?
    ensures call.ThrowsError? ==> text == call.message
    ensures call.ThrowsOther? ==> text == fallback
  {
    if call.ThrowsError? then call.message else fallback
  }

  // ---------------------------------------------------------------- usernames

  predicate IsUsernameChar(c: char) {
    ('a' <= c <= 'z') || ('A' <= c <= 'Z') || ('0' <= c <= '9') || c == '_'
  }

  /** No character the username pattern allows is white space. */
  lemma UsernameCharNotSpace(c: char)
    ensures IsUsernameChar(c) ==> !IsJsSpace(c)
  {
  }

  /** `/^[a-zA-Z0-9_]+$/.test(s)`. */
  predicate MatchesUsernamePattern(s: string) {
    s != [] && forall i :: 0 <= i < |s| ==> IsUsernameChar(s[i])
  }

  /** A name the pattern accepts has nothing for `trim` to remove, so a name with
      surrounding white space is rejected rather than trimmed; and it is ASCII, so
      its JavaScript length is its number of characters. */
  lemma PatternAcceptsOnlyTrimmed(s: string)
    ensures MatchesUsernamePattern(s) ==> Trim(s) == s && Trim(s) != []
    ensures MatchesUsernamePattern(s) ==> JsLength(s) == |s|
  {
    if MatchesUsernamePattern(s) {
      var t := TrimStart(s);
      assert !IsJsSpace(s[0]);
      assert |t| == |s|;
      var u := TrimEnd(t);
      assert !IsJsSpace(t[|t| - 1]);
      assert |u| == |t|;
    }
  }

  // ---------------------------------------------------------------- strength meter

  /** The five things the meter rewards. */
  datatype Criterion = MinLength | GoodLength | Uppercase | Digit | Symbol

  const Criteria: seq<Criterion> := [MinLength, GoodLength, Uppercase, Digit, Symbol]

  predicate HasUpper(p: string) {
    exists i :: 0 <= i < |p| && 'A' <= p[i] <= 'Z'
  }

  predicate HasDigit(p: string) {
    exists i :: 0 <= i < |p| && IsDigit(p[i])
  }

  predicate IsAlphanumeric(c: char) {
    ('a' <= c <= 'z') || ('A' <= c <= 'Z') || ('0' <= c <= '9')
  }

  /** `/[^A-Za-z0-9]/.test(p)`. */
  predicate HasSymbol(p: string) {
    exists i :: 0 <= i < |p| && !IsAlphanumeric(p[i])
  }

  predicate Holds(c: Criterion, p: string) {
    match c
    case MinLength => JsLength(p) >= MinPasswordLength
    case GoodLength => JsLength(p) >= GoodPasswordLength
    case Uppercase => HasUpper(p)
    case Digit => HasDigit(p)
    case Symbol => HasSymbol(p)
  }

  /** How many of `cs` the password meets. */
  function CountHolding(cs: seq<Criterion>, p: string): (n: nat)
    ensures n <= |cs|
  {
    if cs == [] then 0
    else CountHolding(cs[..|cs| - 1], p) + (if Holds(cs[|cs| - 1], p) then 1 else 0)
  }

  /** The meter's reading: a score, its label and its colour. */
  datatype Meter = Meter(strength: nat, rating: string, color: string)

  function StrengthLabel(strength: nat): (word: string)
    ensures word == "Weak" <==> strength <= 2
    ensures word == "Medium" <==> strength == 3
    ensures word == "Strong" <==> strength >= 4
  {
    if strength <= 2 then "Weak" else if strength <= 3 then "Medium" else "Strong"
  }

  function StrengthColor(strength: nat): string {
    if strength <= 2 then "bg-red-500" else if strength <= 3 then "bg-yellow-500" else "bg-green-500"
  }

  /** `getPasswordStrength()`: nothing for an empty password; otherwise one
      point per criterion met, labelled by the thresholds. */
  method PasswordStrength(password: string) returns (m: Meter)
    ensures password == [] ==> m == Meter(0, "", "")
    ensures password != [] ==> m.strength == CountHolding(Criteria, password)
    ensures password != [] ==> m.rating == StrengthLabel(m.strength) && m.color == StrengthColor(m.strength)
    ensures m.strength <= 5
  {
    if password == [] {
      return Meter(0, "", "");
    }
    var strength := 0;
    if JsLength(password) >= MinPasswordLength {
      strength := strength + 1;
    }
    if JsLength(password) >= GoodPasswordLength {
      strength := strength + 1;
    }
    if HasUpper(password) {
      strength := strength + 1;
    }
    if HasDigit(password) {
      strength := strength + 1;
    }
    if HasSymbol(password) {
      strength := strength + 1;
    }
    CountUnfolds(password);
    m := Meter(strength, StrengthLabel(strength), StrengthColor(strength));
  }

  /** The meter's score written out criterion by criterion. */
  lemma CountUnfolds(p: string)
    ensures CountHolding(Criteria, p) ==
              (if Holds(MinLength, p) then 1 else 0) + (if Holds(GoodLength, p) then 1 else 0) +
              (if Holds(Uppercase, p) then 1 else 0) + (if Holds(Digit, p) then 1 else 0) +
              (if Holds(Symbol, p) then 1 else 0)
  {
    var c4 := [MinLength, GoodLength, Uppercase, Digit];
    var c3 := [MinLength, GoodLength, Uppercase];
    var c2 := [MinLength, GoodLength];
    var c1 := [MinLength];
    assert Criteria[..4] == c4 && c4[..3] == c3 && c3[..2] == c2 && c2[..1] == c1 && c1[..0] == [];
    assert CountHolding(c1, p) == (if Holds(MinLength, p) then 1 else 0);
    assert CountHolding(c2, p) == CountHolding(c1, p) + (if Holds(GoodLength, p) then 1 else 0);
    assert CountHolding(c3, p) == CountHolding(c2, p) + (if Holds(Uppercase, p) then 1 else 0);
    assert CountHolding(c4, p) == CountHolding(c3, p) + (if Holds(Digit, p) then 1 else 0);
    assert CountHolding(Criteria, p) == CountHolding(c4, p) + (if Holds(Symbol, p) then 1 else 0);
  }

  /** Every criterion, once met, stays met when more text is typed. */
  lemma HoldsGrows(c: Criterion, p: string, q: string)
    requires Holds(c, p)
    ensures Holds(c, p + q)
  {
    JsLengthAppend(p, q);
    match c
    case Uppercase =>
      var i :| 0 <= i < |p| && 'A' <= p[i] <= 'Z';
      assert (p + q)[i] == p[i];
    case Digit =>
      var i :| 0 <= i < |p| && IsDigit(p[i]);
      assert (p + q)[i] == p[i];
    case Symbol =>
      var i :| 0 <= i < |p| && !IsAlphanumeric(p[i]);
      assert (p + q)[i] == p[i];
    case _ =>
  }

  lemma {:induction false} CountGrows(cs: seq<Criterion>, p: string, q: string)
    ensures CountHolding(cs, p) <= CountHolding(cs, p + q)
  {
    if cs != [] {
      CountGrows(cs[..|cs| - 1], p, q);
      if Holds(cs[|cs| - 1], p) {
        HoldsGrows(cs[|cs| - 1], p, q);
      }
    }
  }

  /** Typing more characters never lowers the meter. */
  lemma StrengthNeverDropsWhileTyping(p: string, q: string)
    requires p != []
    ensures CountHolding(Criteria, p) <= CountHolding(Criteria, p + q)
  {
    CountGrows(Criteria, p, q);
  }

  /** A Strong reading needs at least two of the three character classes, so a
      password of lower-case letters alone never reads better than Weak. */
  lemma StrongNeedsMixedCharacters(p: string)
    ensures CountHolding(Criteria, p) >= 4 ==>
              (HasUpper(p) && HasDigit(p)) || (HasUpper(p) && HasSymbol(p)) || (HasDigit(p) && HasSymbol(p))
    ensures (forall i :: 0 <= i < |p| ==> 'a' <= p[i] <= 'z') ==> StrengthLabel(CountHolding(Criteria, p)) == "Weak"
  {
    CountUnfolds(p);
  }
}
