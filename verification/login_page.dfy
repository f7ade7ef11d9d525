/**
 * The login page: its form validation, where it navigates after signing in,
 * how it turns a failed sign-in into the message shown, and the store
 * dispatches a submission performs. The sign-in request itself is an input
 * (`LoginOutcome`).
 */
module LoginPage {
  import opened Wrappers
  import opened Text
  import opened FormRules
  import Store
  import RouteGuard

  // ---------------------------------------------------------------------------
  // Redirect target

  const DefaultTarget := "/dashboard"

  /** `location.state?.from?.pathname || '/dashboard'`. */
  function RedirectTarget(state: Option<RouteGuard.NavState>): (path: string)
    ensures path != ""
    ensures path == DefaultTarget || (state.Some? && state.value.from.Some? && path == state.value.from.value.pathname)
    ensures (state.Some? && state.value.from.Some? && state.value.from.value.pathname != "") ==>
      path == state.value.from.value.pathname
  {
    if state.Some? && state.value.from.Some? && state.value.from.value.pathname != "" then
      state.value.from.value.pathname
    else DefaultTarget
  }

  /** The page the guard turned the user away from is the page login sends them back to. */
  lemma RedirectRoundTrip(s: Store.State, here: RouteGuard.Location)
    requires !s.isLoading && !s.isAuthenticated && here.pathname != ""
    ensures RouteGuard.Guard(s, here).Redirect?
    ensures RedirectTarget(Some(RouteGuard.Guard(s, here).state)) == here.pathname
  {
  }

  /** Reaching the login page directly, with no `from`, lands on the dashboard. */
  lemma RedirectFallback()
    ensures RedirectTarget(None) == DefaultTarget
    ensures RedirectTarget(Some(RouteGuard.NavState(None))) == DefaultTarget
  {
  }

  /** The effect that sends an already signed-in visitor on: a navigation iff authenticated. */
  function AlreadySignedIn(s: Store.State, state: Option<RouteGuard.NavState>): (nav: Option<string>)
    ensures nav.Some? <==> s.isAuthenticated
    ensures nav.Some? ==> nav.value == RedirectTarget(state)
  {
    if s.isAuthenticated then Some(RedirectTarget(state)) else None
  }

  // ---------------------------------------------------------------------------
  // Validation

  datatype LoginForm = LoginForm(email: string, password: string)

  /** `validateForm`'s error object: at most one message per field. */
  function ValidateLogin(f: LoginForm): (errs: FieldErrors)
    ensures errs.Keys <= {"email", "password"}
    ensures "email" in errs <==> (f.email == "" || !LooseEmail(f.email))
    ensures "email" in errs ==> errs["email"] == (if f.email == "" then "Email is required" else "Email is invalid")
    ensures "password" in errs <==> f.password == ""
    ensures "password" in errs ==> errs["password"] == "Password is required"
  {
    var e1: FieldErrors :=
      if f.email == "" then map["email" := "Email is required"]
      else if !LooseEmail(f.email) then map["email" := "Email is invalid"]
      else map[];
    if f.password == "" then e1["password" := "Password is required"] else e1
  }

  /** The form is accepted iff the e-mail matches the loose pattern and a password was typed; its length is not checked. */
  lemma LoginAcceptance(f: LoginForm)
    ensures ValidateLogin(f) == map[] <==> (LooseEmail(f.email) && f.password != "")
  {
    if LooseEmail(f.email) && f.password != "" {
      var a, d :| 0 < a < d < |f.email| && LooseEmailAt(f.email, a, d);
    } else {
      assert "email" in ValidateLogin(f) || "password" in ValidateLogin(f);
    }
  }

  /** A one-character password is enough for the form. */
  lemma LoginHasNoLengthRule()
    ensures ValidateLogin(LoginForm("a@b.c", "x")) == map[]
  {
    assert LooseEmailAt("a@b.c", 1, 3);
    LoginAcceptance(LoginForm("a@b.c", "x"));
  }

  // ---------------------------------------------------------------------------
  // Error classification

  const ConnectionError := "\U{1F50C} Connection error." + " Please check if the server" + " is running and try again."
  const InvalidCredentialsError := "\U{1F510} Invalid email or password." + " Please check your credentials."
  const AccountNotFoundError := "\U{1F464} Account not found." + " Please register first or check your email."
  const DefaultLoginError := "Login failed. Please try again."

  /** The message the authentication service raises when the server cannot be reached. */
  const ServiceUnreachable := Unreachable1 + Unreachable2 + Unreachable3
  const Unreachable1 := "Failed to connect to server."
  const Unreachable2 := " Please check if the"
  const Unreachable3 := " backend is running."

  /** The message shown for a failed sign-in: the first matching substring decides. */
  function ClassifyLoginError(message: string): (shown: string)
    ensures Contains(message, "fetch") ==> shown == ConnectionError
    ensures !Contains(message, "fetch") && Contains(message, "Invalid credentials") ==>
      shown == InvalidCredentialsError
    ensures (!Contains(message, "fetch") && !Contains(message, "Invalid credentials")
             && Contains(message, "User not found")) ==> shown == AccountNotFoundError
    ensures (!Contains(message, "fetch") && !Contains(message, "Invalid credentials")
             && !Contains(message, "User not found")) ==>
      shown == (if message == "" then DefaultLoginError else message)
  {
    if Contains(message, "fetch") then ConnectionError
    else if Contains(message, "Invalid credentials") then InvalidCredentialsError
    else if Contains(message, "User not found") then AccountNotFoundError
    else if message != "" then message
    else DefaultLoginError
  }

  /** The shown message is one of the four fixed texts or the raised message itself. */
  lemma ClassifyRange(message: string)
    ensures var shown := ClassifyLoginError(message);
      shown in {ConnectionError, InvalidCredentialsError, AccountNotFoundError, DefaultLoginError, message}
    ensures ClassifyLoginError(message) == message ==>
      message == "" || !(Contains(message, "fetch") || Contains(message, "Invalid credentials") || Contains(message, "User not found"))
      || message in {ConnectionError, InvalidCredentialsError, AccountNotFoundError}
  {
  }

  /** A message containing both "fetch" and "Invalid credentials" is reported as a connection error. */
  lemma ClassifyFirstMatchWins(message: string)
    requires Contains(message, "fetch") && Contains(message, "Invalid credentials")
    ensures ClassifyLoginError(message) == ConnectionError
  {
  }

  /** The service's unreachable-server message never has an 'f' followed by an 'e'. */
  lemma ServiceUnreachableNoFe()
    ensures NoPair(ServiceUnreachable, 'f', 'e')
  {
    assert NoPair(Unreachable1, 'f', 'e');
    assert NoPair(Unreachable2, 'f', 'e');
    assert NoPair(Unreachable3, 'f', 'e');
    NoPairAppend(Unreachable1, Unreachable2, 'f', 'e');
    NoPairAppend(Unreachable1 + Unreachable2, Unreachable3, 'f', 'e');
  }

  /** The service's unreachable-server message has no 'I' and no 'U'. */
  lemma ServiceUnreachableNoCapitals()
    ensures 'I' !in ServiceUnreachable && 'U' !in ServiceUnreachable
  {
    assert 'I' !in Unreachable1 && 'U' !in Unreachable1;
    assert 'I' !in Unreachable2 && 'U' !in Unreachable2;
    assert 'I' !in Unreachable3 && 'U' !in Unreachable3;
  }

  /** The service's own unreachable-server message has none of the keys, so it is shown verbatim. */
  lemma ServiceUnreachableShownVerbatim()
    ensures !Contains(ServiceUnreachable, "fetch")
    ensures ClassifyLoginError(ServiceUnreachable) == ServiceUnreachable
  {
    ServiceUnreachableNoFe();
    ServiceUnreachableNoCapitals();
    NotContainsByPair(ServiceUnreachable, "fetch");
    NotContainsByChar(ServiceUnreachable, "Invalid credentials", 0);
    NotContainsByChar(ServiceUnreachable, "User not found", 0);
  }

  // ---------------------------------------------------------------------------
  // Submission

  /** What the sign-in request produced: the signed-in user, or the raised error's message. */
  datatype LoginOutcome = SignedIn(user: Store.Record) | Failed(message: string)

  /** The observable effect of one submission. */
  datatype Submission = Submission(
    errors: FieldErrors,
    dispatched: seq<Store.Action>,
    navigateTo: Option<string>,
    busy: bool)

  /** `handleSubmit`: validation first; a valid form clears the error and then dispatches the outcome. */
  function Submit(f: LoginForm, state: Option<RouteGuard.NavState>, outcome: LoginOutcome): (r: Submission)
    ensures r.errors == ValidateLogin(f)
    ensures !r.busy
    ensures r.errors != map[] ==> r.dispatched == [] && r.navigateTo.None?
    ensures r.errors == map[] && outcome.SignedIn? ==>
      r.dispatched == [Store.ClearError, Store.LoginSuccess(outcome.user)]
      && r.navigateTo == Some(RedirectTarget(state))
    ensures r.errors == map[] && outcome.Failed? ==>
      r.dispatched == [Store.ClearError, Store.SetError(ClassifyLoginError(outcome.message))]
      && r.navigateTo.None?
  {
    var errs := ValidateLogin(f);
    if errs != map[] then Submission(errs, [], None, false)
    else
      match outcome
      case SignedIn(u) => Submission(errs, [Store.ClearError, Store.LoginSuccess(u)], Some(RedirectTarget(state)), false)
      case Failed(m) => Submission(errs, [Store.ClearError, Store.SetError(ClassifyLoginError(m))], None, false)
  }

  /** A successful submission leaves the store signed in with no error; a failed one leaves exactly one error. */
  lemma SubmitEffect(s: Store.State, f: LoginForm, state: Option<RouteGuard.NavState>, outcome: LoginOutcome)
    requires ValidateLogin(f) == map[]
    ensures var t := Store.Run(s, Submit(f, state, outcome).dispatched);
      && !t.isLoading
      && (outcome.SignedIn? ==> t.isAuthenticated && t.user == Some(outcome.user) && t.error.None?)
      && (outcome.Failed? ==> t.error == Some(ClassifyLoginError(outcome.message)) && t.user == s.user)
  {
    var acts := Submit(f, state, outcome).dispatched;
    var s1 := Store.Step(s, Store.ClearError);
    assert Store.Run(s, acts) == Store.Run(s1, acts[1..]);
    assert Store.Run(s1, acts[1..]) == Store.Run(Store.Step(s1, acts[1]), acts[2..]);
  }
}
