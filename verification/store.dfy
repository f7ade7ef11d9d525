/**
 * The client's global store: its state, the closed set of actions, the pure
 * reducer `Step`, and the start-up authentication check, which is a fixed
 * sequence of dispatches over the outcome of fetching the current user.
 */
module Store {
  import opened Wrappers
  import opened Json
  import Seqs

  /** A cached domain record (user, memory, reminder): a plain JSON object. */
  type Record = Object

  datatype AiAssistant = AiAssistant(isActive: bool, messages: seq<Value>)

  datatype State = State(
    user: Option<Record>,
    isAuthenticated: bool,
    memories: seq<Record>,
    reminders: seq<Record>,
    subscription: Value,
    isLoading: bool,
    error: Option<string>,
    success: Option<string>,
    aiAssistant: AiAssistant,
    dashboard: Value)

  datatype Action =
    | SetLoading(loading: bool)
    | SetError(message: string)
    | ClearError
    | SetSuccess(message: string)
    | ClearSuccess
    | LoginSuccess(profile: Record)
    | Logout
    | UpdateUser(patch: Record)
    | SetMemories(memories: seq<Record>)
    | AddMemory(memory: Record)
    | UpdateMemory(memory: Record)
    | DeleteMemory(memoryId: Option<Value>)
    | SetReminders(reminders: seq<Record>)
    | AddReminder(reminder: Record)
    | UpdateReminder(reminder: Record)
    | DeleteReminder(reminderId: Option<Value>)
    | ToggleReminderComplete(reminder: Record)
    | SetDashboardData(dashboard: Value)
    | ToggleAiAssistant
    | AddAiMessage(aiMessage: Value)
    | ClearAiMessages
      /** Any action type the reducer does not recognise. */
    | Unknown(tag: string)

  const InitialDashboard: Value :=
    Obj(map["stats" := Null, "recentMemories" := Arr([]), "upcomingReminders" := Arr([])])

  /** The state the store starts in and LOGOUT returns to. */
  function InitialStore(): State {
    State(None, false, [], [], Str("free"), false, None, None, AiAssistant(false, []), InitialDashboard)
  }

  /** The `id` property of a record (`None` when it has none). */
  function IdOf(r: Record): Option<Value> {
    Get(r, "id")
  }

  /** Removes every record whose id is `id` (`list.filter(x => x.id !== id)`). */
  function DeleteById(xs: seq<Record>, id: Option<Value>): (r: seq<Record>)
    ensures forall i | 0 <= i < |r| :: IdOf(r[i]) != id
    ensures forall i | 0 <= i < |xs| :: IdOf(xs[i]) != id ==> xs[i] in r
    ensures Seqs.IsSubsequence(r, xs)
    ensures forall x {:trigger multiset(r)[x]} :: multiset(r)[x] == if IdOf(x) != id then multiset(xs)[x] else 0
  {
    Seqs.Filter(xs, (x: Record) => IdOf(x) != id)
  }

  /** Replaces every record whose id equals the new record's id (`list.map(...)`). */
  function ReplaceById(xs: seq<Record>, item: Record): (r: seq<Record>)
    ensures |r| == |xs|
    ensures forall i | 0 <= i < |xs| :: r[i] == (if IdOf(xs[i]) == IdOf(item) then item else xs[i])
  {
    seq(|xs|, i requires 0 <= i < |xs| => if IdOf(xs[i]) == IdOf(item) then item else xs[i])
  }

  /** The reducer. */
  function Step(s: State, a: Action): State {
    match a
    case SetLoading(b) => s.(isLoading := b)
    case SetError(m) => s.(error := Some(m), isLoading := false)
    case ClearError => s.(error := None)
    case SetSuccess(m) => s.(success := Some(m), error := None)
    case ClearSuccess => s.(success := None)
    case LoginSuccess(u) =>
      s.(user := Some(u), isAuthenticated := true,
         subscription := JsOr(Get(u, "subscription_type"), Str("free")),
         isLoading := false, error := None)
    case Logout => InitialStore().(isLoading := false)
    case UpdateUser(p) =>
      s.(user := Some(s.user.GetOr(map[]) + p),
         subscription := JsOr(Get(p, "subscription_type"), s.subscription))
    case SetMemories(ms) => s.(memories := ms)
    case AddMemory(m) => s.(memories := [m] + s.memories)
    case UpdateMemory(m) => s.(memories := ReplaceById(s.memories, m))
    case DeleteMemory(id) => s.(memories := DeleteById(s.memories, id))
    case SetReminders(rs) => s.(reminders := rs)
    case AddReminder(r) => s.(reminders := [r] + s.reminders)
    case UpdateReminder(r) => s.(reminders := ReplaceById(s.reminders, r))
    case DeleteReminder(id) => s.(reminders := DeleteById(s.reminders, id))
    case ToggleReminderComplete(r) => s.(reminders := ReplaceById(s.reminders, r))
    case SetDashboardData(d) => s.(dashboard := d)
    case ToggleAiAssistant => s.(aiAssistant := s.aiAssistant.(isActive := !s.aiAssistant.isActive))
    case AddAiMessage(m) => s.(aiAssistant := s.aiAssistant.(messages := s.aiAssistant.messages + [m]))
    case ClearAiMessages => s.(aiAssistant := s.aiAssistant.(messages := []))
    case Unknown(_) => s
  }

  /** Dispatching a sequence of actions in order. */
  function Run(s: State, acts: seq<Action>): State
    decreases |acts|
  {
    if acts == [] then s else Run(Step(s, acts[0]), acts[1..])
  }

  lemma {:induction false} RunAppend(s: State, a: seq<Action>, b: seq<Action>)
    ensures Run(s, a + b) == Run(Run(s, a), b)
    decreases |a|
  {
    if a != [] {
      assert (a + b)[1..] == a[1..] + b;
      RunAppend(Step(s, a[0]), a[1..], b);
    } else {
      assert a + b == b;
    }
  }

  // ---------------------------------------------------------------------------
  // Which fields each action writes

  datatype Field =
    User | IsAuthenticated | Memories | Reminders | Subscription | IsLoading
    | Error | Success | Assistant | Dashboard

  /** The fields an action may change; every other field is left as it was. */
  function Writes(a: Action): set<Field> {
    match a
    case SetLoading(_) => {IsLoading}
    case SetError(_) => {Error, IsLoading}
    case ClearError => {Error}
    case SetSuccess(_) => {Success, Error}
    case ClearSuccess => {Success}
    case LoginSuccess(_) => {User, IsAuthenticated, Subscription, IsLoading, Error}
    case Logout => {User, IsAuthenticated, Memories, Reminders, Subscription, IsLoading,
                    Error, Success, Assistant, Dashboard}
    case UpdateUser(_) => {User, Subscription}
    case SetMemories(_) => {Memories}
    case AddMemory(_) => {Memories}
    case UpdateMemory(_) => {Memories}
    case DeleteMemory(_) => {Memories}
    case SetReminders(_) => {Reminders}
    case AddReminder(_) => {Reminders}
    case UpdateReminder(_) => {Reminders}
    case DeleteReminder(_) => {Reminders}
    case ToggleReminderComplete(_) => {Reminders}
    case SetDashboardData(_) => {Dashboard}
    case ToggleAiAssistant => {Assistant}
    case AddAiMessage(_) => {Assistant}
    case ClearAiMessages => {Assistant}
    case Unknown(_) => {}
  }

  /** `s` and `t` agree on every field outside `fs`. */
  predicate AgreeOutside(s: State, t: State, fs: set<Field>) {
    && (User !in fs ==> t.user == s.user)
    && (IsAuthenticated !in fs ==> t.isAuthenticated == s.isAuthenticated)
    && (Memories !in fs ==> t.memories == s.memories)
    && (Reminders !in fs ==> t.reminders == s.reminders)
    && (Subscription !in fs ==> t.subscription == s.subscription)
    && (IsLoading !in fs ==> t.isLoading == s.isLoading)
    && (Error !in fs ==> t.error == s.error)
    && (Success !in fs ==> t.success == s.success)
    && (Assistant !in fs ==> t.aiAssistant == s.aiAssistant)
    && (Dashboard !in fs ==> t.dashboard == s.dashboard)
  }

  /** Every action changes only the fields it is listed as writing. */
  lemma StepFrame(s: State, a: Action)
    ensures AgreeOutside(s, Step(s, a), Writes(a))
  {
    match a {
      case Logout =>
      case LoginSuccess(_) =>
      case UpdateUser(_) =>
      case SetLoading(_) | SetError(_) | ClearError | SetSuccess(_) | ClearSuccess =>
      case SetMemories(_) | AddMemory(_) | UpdateMemory(_) | DeleteMemory(_) =>
      case SetReminders(_) | AddReminder(_) | UpdateReminder(_) | DeleteReminder(_) | ToggleReminderComplete(_) =>
      case SetDashboardData(_) | ToggleAiAssistant | AddAiMessage(_) | ClearAiMessages | Unknown(_) =>
    }
  }

  /** An unrecognised action type leaves the state exactly as it was. */
  lemma UnknownIsNoOp(s: State, tag: string)
    ensures Step(s, Unknown(tag)) == s
  {
  }

  // ---------------------------------------------------------------------------
  // Error and success banners

  /**
   * SET_ERROR sets the error and stops loading but keeps any success banner;
   * SET_SUCCESS sets the success banner and clears the error but keeps the
   * loading flag.
   */
  lemma ErrorSuccessAsymmetry(s: State, e: string, m: string)
    ensures Step(s, SetError(e)).error == Some(e)
    ensures !Step(s, SetError(e)).isLoading
    ensures Step(s, SetError(e)).success == s.success
    ensures Step(s, SetSuccess(m)).success == Some(m)
    ensures Step(s, SetSuccess(m)).error == None
    ensures Step(s, SetSuccess(m)).isLoading == s.isLoading
    ensures Step(Step(s, SetError(e)), SetSuccess(m)).error == None
    ensures Step(Step(s, SetSuccess(m)), SetError(e)).success == Some(m)
  {
  }

  // ---------------------------------------------------------------------------
  // Session

  /** The transition-time invariant: authenticated exactly when a user is present. */
  predicate AuthConsistent(s: State) {
    s.isAuthenticated <==> s.user.Some?
  }

  /** The subscription LOGIN_SUCCESS records: the profile's `subscription_type`, or "free". */
  function SubscriptionOf(u: Record): (v: Value)
    ensures "subscription_type" in u && JsTruthy(u["subscription_type"]) ==> v == u["subscription_type"]
    ensures !("subscription_type" in u && JsTruthy(u["subscription_type"])) ==> v == Str("free")
  {
    JsOr(Get(u, "subscription_type"), Str("free"))
  }

  lemma LoginSuccessEffect(s: State, u: Record)
    ensures var t := Step(s, LoginSuccess(u));
      && t.user == Some(u) && t.isAuthenticated && AuthConsistent(t)
      && t.subscription == SubscriptionOf(u)
      && !t.isLoading && t.error == None
      && t.memories == s.memories && t.reminders == s.reminders && t.success == s.success
      && t.aiAssistant == s.aiAssistant && t.dashboard == s.dashboard
  {
  }

  /** LOGOUT from any state yields exactly the initial store. */
  lemma LogoutResets(s: State)
    ensures Step(s, Logout) == InitialStore()
    ensures AuthConsistent(Step(s, Logout))
  {
  }

  /** UPDATE_USER merges the patch over the current profile; an absent or falsy patch subscription keeps the old one. */
  lemma UpdateUserMerges(s: State, p: Record)
    ensures var t := Step(s, UpdateUser(p));
      && t.user.Some?
      && (forall k | k in p :: k in t.user.value && t.user.value[k] == p[k])
      && (s.user.Some? ==> forall k | k in s.user.value && k !in p :: k in t.user.value && t.user.value[k] == s.user.value[k])
      && t.user.value.Keys == p.Keys + (if s.user.Some? then s.user.value.Keys else {})
      && (!JsTruthyOpt(Get(p, "subscription_type")) ==> t.subscription == s.subscription)
      && t.isAuthenticated == s.isAuthenticated
  {
  }

  /** Every action except UPDATE_USER while logged out keeps the session invariant. */
  lemma StepKeepsAuthConsistent(s: State, a: Action)
    requires AuthConsistent(s)
    requires !(a.UpdateUser? && s.user.None?)
    ensures AuthConsistent(Step(s, a))
  {
  }

  /** UPDATE_USER while logged out creates a user without authenticating it. */
  lemma UpdateUserWhileLoggedOut(s: State, p: Record)
    requires AuthConsistent(s) && !s.isAuthenticated
    ensures Step(s, UpdateUser(p)).user.Some?
    ensures !Step(s, UpdateUser(p)).isAuthenticated
    ensures !AuthConsistent(Step(s, UpdateUser(p)))
  {
  }

  /** No action of a run is an UPDATE_USER dispatched while logged out. */
  predicate NoAnonymousUpdate(s: State, acts: seq<Action>)
    decreases |acts|
  {
    acts == [] || (!(acts[0].UpdateUser? && Step(s, acts[0]).user.Some? && s.user.None?)
                   && NoAnonymousUpdate(Step(s, acts[0]), acts[1..]))
  }

  /** The invariant holds after any run from the initial store that avoids anonymous profile updates. */
  lemma {:induction false} RunKeepsAuthConsistent(s: State, acts: seq<Action>)
    requires AuthConsistent(s)
    requires NoAnonymousUpdate(s, acts)
    ensures AuthConsistent(Run(s, acts))
    decreases |acts|
  {
    if acts != [] {
      StepKeepsAuthConsistent(s, acts[0]);
      RunKeepsAuthConsistent(Step(s, acts[0]), acts[1..]);
    }
  }

  // ---------------------------------------------------------------------------
  // Cached lists

  /** Prepending a record and then deleting its id restores a list that did not hold that id. */
  lemma AddThenDeleteList(xs: seq<Record>, m: Record)
    requires forall i | 0 <= i < |xs| :: IdOf(xs[i]) != IdOf(m)
    ensures DeleteById([m] + xs, IdOf(m)) == xs
  {
    var keep := (x: Record) => IdOf(x) != IdOf(m);
    assert ([m] + xs)[1..] == xs;
    assert DeleteById([m] + xs, IdOf(m)) == Seqs.Filter(xs, keep);
    Seqs.FilterKeepsAll(xs, keep);
  }

  /** ADD then DELETE of the same id restores the state when no cached record had that id. */
  lemma AddThenDeleteRestores(s: State, m: Record)
    requires forall i | 0 <= i < |s.memories| :: IdOf(s.memories[i]) != IdOf(m)
    requires forall i | 0 <= i < |s.reminders| :: IdOf(s.reminders[i]) != IdOf(m)
    ensures Step(Step(s, AddMemory(m)), DeleteMemory(IdOf(m))) == s
    ensures Step(Step(s, AddReminder(m)), DeleteReminder(IdOf(m))) == s
  {
    AddThenDeleteMemory(s, m);
    AddThenDeleteReminder(s, m);
  }

  lemma AddThenDeleteMemory(s: State, m: Record)
    requires forall i | 0 <= i < |s.memories| :: IdOf(s.memories[i]) != IdOf(m)
    ensures Step(Step(s, AddMemory(m)), DeleteMemory(IdOf(m))) == s
  {
    var t := Step(s, AddMemory(m));
    assert t == s.(memories := [m] + s.memories);
    AddThenDeleteList(s.memories, m);
    assert Step(t, DeleteMemory(IdOf(m))) == t.(memories := s.memories);
  }

  lemma AddThenDeleteReminder(s: State, m: Record)
    requires forall i | 0 <= i < |s.reminders| :: IdOf(s.reminders[i]) != IdOf(m)
    ensures Step(Step(s, AddReminder(m)), DeleteReminder(IdOf(m))) == s
  {
    var t := Step(s, AddReminder(m));
    assert t == s.(reminders := [m] + s.reminders);
    AddThenDeleteList(s.reminders, m);
    assert Step(t, DeleteReminder(IdOf(m))) == t.(reminders := s.reminders);
  }

  /** Deletion keeps every record with another id, in order, and no record with that id. */
  lemma DeleteKeepsOthers(s: State, id: Option<Value>)
    ensures var t := Step(s, DeleteMemory(id));
      && Seqs.IsSubsequence(t.memories, s.memories)
      && (forall i | 0 <= i < |t.memories| :: IdOf(t.memories[i]) != id)
      && (forall i | 0 <= i < |s.memories| :: IdOf(s.memories[i]) != id ==> s.memories[i] in t.memories)
      && (forall x {:trigger multiset(t.memories)[x]} :: multiset(t.memories)[x] == if IdOf(x) != id then multiset(s.memories)[x] else 0)
  {
  }

  /** Updating by an id no cached record has leaves both lists unchanged. */
  lemma {:induction false} UpdateAbsentIsNoOp(s: State, m: Record)
    requires forall i | 0 <= i < |s.memories| :: IdOf(s.memories[i]) != IdOf(m)
    requires forall i | 0 <= i < |s.reminders| :: IdOf(s.reminders[i]) != IdOf(m)
    ensures Step(s, UpdateMemory(m)) == s
    ensures Step(s, UpdateReminder(m)) == s
  {
    assert ReplaceById(s.memories, m) == s.memories;
    assert ReplaceById(s.reminders, m) == s.reminders;
  }

  /** TOGGLE_REMINDER_COMPLETE is the same transition as UPDATE_REMINDER. */
  lemma ToggleIsUpdate(s: State, r: Record)
    ensures Step(s, ToggleReminderComplete(r)) == Step(s, UpdateReminder(r))
  {
  }

  // ---------------------------------------------------------------------------
  // Start-up authentication check

  /** What fetching the current user produced: a user, a null/undefined user, or a thrown error. */
  datatype UserFetch = Fetched(user: Option<Record>) | FetchFailed

  /** The dispatches of the start-up check, in order. */
  function CheckAuthActions(f: UserFetch): (acts: seq<Action>)
    ensures |acts| >= 2 && acts[0] == SetLoading(true) && acts[|acts| - 1] == SetLoading(false)
    ensures (exists u :: LoginSuccess(u) in acts) <==> (f.Fetched? && f.user.Some?)
  {
    var middle := if f.Fetched? && f.user.Some? then [LoginSuccess(f.user.value)] else [];
    [SetLoading(true)] + middle + [SetLoading(false)]
  }

  function CheckAuth(s: State, f: UserFetch): State {
    Run(s, CheckAuthActions(f))
  }

  /** The check always ends not loading; it authenticates exactly when a user was fetched. */
  lemma CheckAuthOutcome(s: State, f: UserFetch)
    ensures !CheckAuth(s, f).isLoading
    ensures f.Fetched? && f.user.Some? ==>
      CheckAuth(s, f) == Step(s, LoginSuccess(f.user.value)).(isLoading := false)
    ensures !(f.Fetched? && f.user.Some?) ==> CheckAuth(s, f) == s.(isLoading := false)
  {
    var acts := CheckAuthActions(f);
    var s1 := Step(s, SetLoading(true));
    if f.Fetched? && f.user.Some? {
      var s2 := Step(s1, LoginSuccess(f.user.value));
      assert acts == [SetLoading(true), LoginSuccess(f.user.value), SetLoading(false)];
      assert Run(s, acts) == Run(s1, acts[1..]);
      assert Run(s1, acts[1..]) == Run(s2, acts[2..]);
      assert Run(s2, acts[2..]) == Run(Step(s2, SetLoading(false)), []);
    } else {
      assert acts == [SetLoading(true), SetLoading(false)];
      assert Run(s, acts) == Run(s1, acts[1..]);
      assert Run(s1, acts[1..]) == Run(Step(s1, SetLoading(false)), []);
    }
  }

  /** From the initial store, the check leaves the user authenticated iff the fetch returned one. */
  lemma CheckAuthFromStart(f: UserFetch)
    ensures var t := CheckAuth(InitialStore(), f);
      && !t.isLoading && AuthConsistent(t)
      && (t.isAuthenticated <==> (f.Fetched? && f.user.Some?))
  {
    CheckAuthOutcome(InitialStore(), f);
  }
}
