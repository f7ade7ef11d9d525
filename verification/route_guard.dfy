/**
 * The protected-route guard: a three-way decision on the store's loading and
 * authentication flags, and the `from` location it hands to the login page.
 */
module RouteGuard {
  import opened Wrappers
  import Store

  /** The router's current location. */
  datatype Location = Location(pathname: string, search: string, hash: string)

  /** The navigation state a redirect carries (`state={{ from: location }}`). */
  datatype NavState = NavState(from: Option<Location>)

  /** What the guard renders. */
  datatype View =
    | Spinner
    | Redirect(to: string, state: NavState, replace: bool)
    | Children

  const LoginPath := "/login"

  /** `ProtectedRoute`: spinner while loading, else redirect to login unless authenticated. */
  function Guard(s: Store.State, here: Location): (v: View)
    ensures v.Spinner? <==> s.isLoading
    ensures v.Children? <==> !s.isLoading && s.isAuthenticated
    ensures v.Redirect? ==> v == Redirect(LoginPath, NavState(Some(here)), true)
  {
    if s.isLoading then Spinner
    else if !s.isAuthenticated then Redirect(LoginPath, NavState(Some(here)), true)
    else Children
  }

  /** The decision reads nothing of the store but its two flags. */
  lemma GuardReadsOnlyFlags(s: Store.State, t: Store.State, here: Location)
    requires s.isLoading == t.isLoading && s.isAuthenticated == t.isAuthenticated
    ensures Guard(s, here) == Guard(t, here)
  {
  }

  /** The location only decides where a redirect returns to, never which view is shown. */
  lemma GuardKindIgnoresLocation(s: Store.State, h1: Location, h2: Location)
    ensures Guard(s, h1).Spinner? == Guard(s, h2).Spinner?
    ensures Guard(s, h1).Children? == Guard(s, h2).Children?
    ensures Guard(s, h1).Redirect? ==> Guard(s, h1).state.from == Some(h1)
  {
  }

  /** After the start-up check from a fresh store the guard never spins, and renders iff a user was fetched. */
  lemma GuardAfterCheckAuth(f: Store.UserFetch, here: Location)
    ensures var v := Guard(Store.CheckAuth(Store.InitialStore(), f), here);
      && !v.Spinner?
      && (v.Children? <==> (f.Fetched? && f.user.Some?))
  {
    Store.CheckAuthFromStart(f);
  }
}
