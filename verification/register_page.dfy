/**
 * The registration page: its four-field validation, the password-strength
 * meter, and what a submission sends and dispatches. The registration
 * request itself is an input (`RegisterOutcome`).
 */
module RegisterPage {
  import opened Wrappers
  import opened Text
  import opened FormRules
  import Store

  datatype RegisterForm = RegisterForm(name: string, email: string, password: string, confirmPassword: string)

  // ---------------------------------------------------------------------------
  // Field rules, first failing check wins

  function NameError(name: string): (e: Option<string>)
    ensures e.None? <==> |JsTrim(name)| >= 2
    ensures e == Some("Name is required") <==> All(name, IsJsSpace)
    ensures e == Some("Name must be at least 2 characters") <==> 0 < |JsTrim(name)| < 2
  {
    var t := JsTrim(name);
    if t == "" then Some("Name is required")
    else if |t| < 2 then Some("Name must be at least 2 characters")
    else None
  }

  function EmailError(email: string): (e: Option<string>)
    ensures e.None? <==> LooseEmail(email)
    ensures e == Some("Email is required") <==> email == ""
    ensures e == Some("Email is invalid") <==> email != "" && !LooseEmail(email)
  {
    if email == "" then Some("Email is required")
    else if !LooseEmail(email) then Some("Email is invalid")
    else None
  }

  /** The client's password rule: at least 8 characters and the mixed-case pattern. */
  predicate ClientPasswordOk(p: string) {
    |p| >= 8 && MixedCasePattern(p)
  }

  function PasswordError(p: string): (e: Option<string>)
    ensures e.None? <==> ClientPasswordOk(p)
    ensures e == Some("Password is required") <==> p == ""
    ensures e == Some("Password must be at least 8 characters") <==> 0 < |p| < 8
    ensures e == Some("Password must contain uppercase, lowercase, and number") <==> |p| >= 8 && !MixedCasePattern(p)
  {
    if p == "" then Some("Password is required")
    else if |p| < 8 then Some("Password must be at least 8 characters")
    else if !MixedCasePattern(p) then Some("Password must contain uppercase, lowercase, and number")
    else None
  }

  function ConfirmError(p: string, confirm: string): (e: Option<string>)
    ensures e.None? <==> (confirm != "" && confirm == p)
    ensures e == Some("Please confirm your password") <==> confirm == ""
    ensures e == Some("Passwords do not match") <==> confirm != "" && confirm != p
  {
    if confirm == "" then Some("Please confirm your password")
    else if p != confirm then Some("Passwords do not match")
    else None
  }

  /** `validateForm`'s error object. */
  function ValidateRegister(f: RegisterForm): (errs: FieldErrors)
    ensures errs.Keys <= {"name", "email", "password", "confirmPassword"}
    ensures "name" in errs <==> NameError(f.name).Some?
    ensures "email" in errs <==> EmailError(f.email).Some?
    ensures "password" in errs <==> PasswordError(f.password).Some?
    ensures "confirmPassword" in errs <==> ConfirmError(f.password, f.confirmPassword).Some?
    ensures "name" in errs ==> Some(errs["name"]) == NameError(f.name)
    ensures "email" in errs ==> Some(errs["email"]) == EmailError(f.email)
    ensures "password" in errs ==> Some(errs["password"]) == PasswordError(f.password)
    ensures "confirmPassword" in errs ==> Some(errs["confirmPassword"]) == ConfirmError(f.password, f.confirmPassword)
  {
    Collect(NameError(f.name), EmailError(f.email), PasswordError(f.password), ConfirmError(f.password, f.confirmPassword))
  }

  /** The error object holding each field's message, if any. */
  function Collect(name: Option<string>, email: Option<string>, password: Option<string>, confirm: Option<string>): (errs: FieldErrors)
    ensures errs.Keys <= {"name", "email", "password", "confirmPassword"}
    ensures "name" in errs <==> name.Some?
    ensures "email" in errs <==> email.Some?
    ensures "password" in errs <==> password.Some?
    ensures "confirmPassword" in errs <==> confirm.Some?
    ensures "name" in errs ==> Some(errs["name"]) == name
    ensures "email" in errs ==> Some(errs["email"]) == email
    ensures "password" in errs ==> Some(errs["password"]) == password
    ensures "confirmPassword" in errs ==> Some(errs["confirmPassword"]) == confirm
  {
    var e := Put(map[], "name", name);
    var e := Put(e, "email", email);
    var e := Put(e, "password", password);
    Put(e, "confirmPassword", confirm)
  }

  /** The form is accepted iff every field rule holds. */
  lemma RegisterAcceptance(f: RegisterForm)
    ensures ValidateRegister(f) == map[] <==>
      && |JsTrim(f.name)| >= 2
      && LooseEmail(f.email)
      && ClientPasswordOk(f.password)
      && f.confirmPassword != "" && f.confirmPassword == f.password
  {
    var errs := ValidateRegister(f);
    if errs != map[] {
      var k :| k in errs;
    }
  }

  // ---------------------------------------------------------------------------
  // Password strength

  datatype Strength = Strength(strength: nat, text: string, color: string)

  const Levels: seq<(string, string)> :=
    [("Very Weak", "danger"), ("Weak", "warning"), ("Fair", "info"), ("Good", "primary"), ("Strong", "success")]

  function Count(b: bool): nat { if b then 1 else 0 }

  function IsSymbol(c: char): bool { !IsAsciiAlnum(c) }

  /** The number of the five criteria a password meets. */
  function Score(p: string): (n: nat)
    ensures n <= 5
  {
    Count(|p| >= 8) + Count(Has(p, IsAsciiLower)) + Count(Has(p, IsAsciiUpper))
      + Count(Has(p, IsAsciiDigit)) + Count(Has(p, IsSymbol))
  }

  function Min(a: int, b: int): int { if a <= b then a else b }

  /** `getPasswordStrength`. */
  function PasswordStrength(p: string): (r: Strength)
    ensures p == "" ==> r == Strength(0, "", "")
    ensures p != "" ==> (r.strength == Score(p) && (r.text, r.color) == Levels[Min(r.strength, 4)])
    ensures r.strength <= 5
  {
    if p == "" then Strength(0, "", "")
    else
      var s := Score(p);
      var lv := Levels[Min(s, 4)];
      Strength(s, lv.0, lv.1)
  }

  /** A typed password meets at least one criterion, so the meter never shows "Very Weak". */
  lemma NonEmptyScoresAtLeastOne(p: string)
    requires p != ""
    ensures PasswordStrength(p).strength >= 1
    ensures PasswordStrength(p).text != "Very Weak"
  {
    var c := p[0];
    assert IsAsciiLower(c) || IsAsciiUpper(c) || IsAsciiDigit(c) || IsSymbol(c);
  }

  /** Every password the form accepts scores at least 4, so it reads "Strong". */
  lemma AcceptedPasswordIsStrong(p: string)
    requires PasswordError(p).None?
    ensures PasswordStrength(p).strength >= 4
    ensures PasswordStrength(p).text == "Strong"
  {
    MixedCaseNeedsClasses(p);
  }

  // ---------------------------------------------------------------------------
  // Submission

  /** The registration request's arguments: the name trimmed, e-mail and password as typed. */
  datatype RegisterRequest = RegisterRequest(email: string, password: string, name: string)

  datatype RegisterOutcome = Registered(user: Store.Record) | Failed(message: string)

  datatype Submission = Submission(
    errors: FieldErrors,
    request: Option<RegisterRequest>,
    dispatched: seq<Store.Action>,
    navigateTo: Option<string>)

  function Submit(f: RegisterForm, outcome: RegisterOutcome): (r: Submission)
    ensures r.errors == ValidateRegister(f)
    ensures r.request.Some? <==> r.errors == map[]
    ensures r.request.Some? ==> r.request.value == RegisterRequest(f.email, f.password, JsTrim(f.name))
    ensures r.request.None? ==> r.dispatched == [] && r.navigateTo.None?
    ensures r.request.Some? && outcome.Registered? ==>
      r.dispatched == [Store.ClearError, Store.LoginSuccess(outcome.user)] && r.navigateTo == Some("/dashboard")
    ensures r.request.Some? && outcome.Failed? ==>
      r.navigateTo.None? && r.dispatched ==
        [Store.ClearError, Store.SetError(if outcome.message == "" then "Registration failed" else outcome.message)]
  {
    var errs := ValidateRegister(f);
    if errs != map[] then Submission(errs, None, [], None)
    else
      var req := RegisterRequest(f.email, f.password, JsTrim(f.name));
      match outcome
      case Registered(u) => Submission(errs, Some(req), [Store.ClearError, Store.LoginSuccess(u)], Some("/dashboard"))
      case Failed(m) =>
        Submission(errs, Some(req), [Store.ClearError, Store.SetError(if m == "" then "Registration failed" else m)], None)
  }

  /** The name sent is never padded: it carries no leading or trailing whitespace. */
  lemma SentNameIsTrimmed(f: RegisterForm, outcome: RegisterOutcome)
    requires Submit(f, outcome).request.Some?
    ensures var n := Submit(f, outcome).request.value.name;
      |n| >= 2 && JsUnpadded(n)
  {
    RegisterAcceptance(f);
    var t := JsTrim(f.name);
    assert |t| >= 2;
    assert Submit(f, outcome).request.value.name == t;
  }
}
