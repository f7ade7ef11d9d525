/**
 * The reminder handlers of the server: the filtered and ordered list,
 * creation and partial update with their normalisation, deletion,
 * completing and reopening, and the upcoming and overdue lists.
 *
 * Instants are integers (seconds); the clock is the parameter `now`.
 * `fromisoformat` is the parameter `parse`, which yields no instant for text
 * it rejects.
 */
module ReminderRoutes {
  import opened Wrappers
  import opened Json
  import opened Text
  import opened Db
  import Seqs
  import RM = ReminderModel
  import MemoryRoutes

  const NoData := "No data provided"
  const NotFound := "Reminder not found"
  const TitleRequired := "Title is required"
  const TitleEmpty := "Title cannot be empty"
  const BadTrigger := "Invalid trigger date format"
  const NoSuchMemory := "Associated memory not found"
  const CreateFailed := "Failed to create reminder"
  const UpdateFailed := "Failed to update reminder"

  const SecondsPerDay := 86400

  /** Every stored reminder records a completion instant exactly when it is completed. */
  predicate AllConsistent(d: Data) {
    forall r | r in d.reminders :: RM.CompletionConsistent(r)
  }

  /** The rows the handlers address: the caller's reminder with identifier `rid`. */
  predicate IsRow(x: Reminder, rid: int, uid: int) {
    x.id == rid && x.userId == uid
  }

  /** The reminders table after saving `r` over the caller's row `rid`. */
  function SaveReminder(d: Data, rid: int, uid: int, r: Reminder): (after: Data)
    ensures after.users == d.users && after.memories == d.memories
    ensures |after.reminders| == |d.reminders|
    ensures forall i | 0 <= i < |d.reminders| :: after.reminders[i] == (if IsRow(d.reminders[i], rid, uid) then r else d.reminders[i])
  {
    d.(reminders := ReplaceWhere(d.reminders, (x: Reminder) => IsRow(x, rid, uid), r))
  }

  // ---------------------------------------------------------------------------
  // Listing

  /** The list's query parameters `type` and `status`. */
  datatype Query = Query(reminderType: string, status: string)

  /** The status filter: "completed", "pending" and "overdue" select; any other value selects everything. */
  predicate StatusMatches(r: Reminder, status: string, now: int) {
    if status == "completed" then r.isCompleted
    else if status == "pending" then !r.isCompleted
    else if status == "overdue" then !r.isCompleted && r.trigger.Some? && r.trigger.value < now
    else true
  }

  predicate Listed(r: Reminder, uid: int, q: Query, now: int) {
    && r.userId == uid
    && (q.reminderType == "" || q.reminderType !in RM.ReminderTypes || r.reminderType == q.reminderType)
    && StatusMatches(r, q.status, now)
  }

  /** The completion instant negated, so that ascending order is latest first. */
  function LatestKey(r: Reminder): Option<int> {
    match r.completedAt
    case Some(t) => Some(-t)
    case None => None
  }

  function TriggerKey(r: Reminder): Option<int> {
    r.trigger
  }

  /** `get_reminders` before pagination: the listed reminders; completed ones latest completion first, the others soonest trigger first with the undated last. */
  function ListReminders(d: Data, uid: int, q: Query, now: int): (r: seq<Reminder>)
    ensures multiset(r) == multiset(Seqs.Filter(d.reminders, (x: Reminder) => Listed(x, uid, q, now)))
    ensures q.status == "completed" ==>
      forall i, j | 0 <= i < j < |r| && r[j].completedAt.Some? ::
        r[i].completedAt.Some? && r[i].completedAt.value >= r[j].completedAt.value
    ensures q.status != "completed" ==>
      forall i, j | 0 <= i < j < |r| && r[j].trigger.Some? ::
        r[i].trigger.Some? && r[i].trigger.value <= r[j].trigger.value
  {
    var selected := Selected(d, uid, q, now);
    ListIsOneFilter(d, uid, q, now);
    if q.status == "completed" then
      var r := Seqs.OrderNullsLast(selected, LatestKey);
      LatestKeyOrder(r);
      r
    else Seqs.OrderNullsLast(selected, TriggerKey)
  }

  /** Ascending by `LatestKey` with the keyless last is descending by completion instant with the uncompleted last. */
  lemma LatestKeyOrder(r: seq<Reminder>)
    requires forall i, j | 0 <= i < j < |r| && LatestKey(r[j]).Some? ::
      LatestKey(r[i]).Some? && LatestKey(r[i]).value <= LatestKey(r[j]).value
    ensures forall i, j | 0 <= i < j < |r| && r[j].completedAt.Some? ::
      r[i].completedAt.Some? && r[i].completedAt.value >= r[j].completedAt.value
  {
    forall i, j | 0 <= i < j < |r| && r[j].completedAt.Some?
      ensures r[i].completedAt.Some? && r[i].completedAt.value >= r[j].completedAt.value
    {
      assert LatestKey(r[j]).Some?;
    }
  }

  /** The caller's reminders of the type asked for, when that is a known type. */
  function OfType(d: Data, uid: int, q: Query): seq<Reminder> {
    var own := Seqs.Filter(d.reminders, (x: Reminder) => x.userId == uid);
    if q.reminderType != "" && q.reminderType in RM.ReminderTypes
    then Seqs.Filter(own, (x: Reminder) => x.reminderType == q.reminderType) else own
  }

  /** The query as the handler builds it: owner, then type, then status. */
  function Selected(d: Data, uid: int, q: Query, now: int): seq<Reminder> {
    Seqs.Filter(OfType(d, uid, q), (x: Reminder) => StatusMatches(x, q.status, now))
  }

  /** The caller's reminders of a known type asked for. */
  predicate Typed(x: Reminder, uid: int, q: Query) {
    x.userId == uid && (q.reminderType == "" || q.reminderType !in RM.ReminderTypes || x.reminderType == q.reminderType)
  }

  lemma TypeStage(d: Data, uid: int, q: Query)
    ensures OfType(d, uid, q) == Seqs.Filter(d.reminders, (x: Reminder) => Typed(x, uid, q))
  {
    var p0 := (x: Reminder) => x.userId == uid;
    var c1 := (x: Reminder) => q.reminderType == "" || q.reminderType !in RM.ReminderTypes || x.reminderType == q.reminderType;
    Seqs.ConditionalFilter(Seqs.Filter(d.reminders, p0), q.reminderType != "" && q.reminderType in RM.ReminderTypes, (x: Reminder) => x.reminderType == q.reminderType, c1);
    Seqs.FilterCompose(d.reminders, p0, c1, (x: Reminder) => Typed(x, uid, q));
  }

  /** The staged query is a single filter by the conjunctive rule. */
  lemma ListIsOneFilter(d: Data, uid: int, q: Query, now: int)
    ensures Selected(d, uid, q, now) == Seqs.Filter(d.reminders, (x: Reminder) => Listed(x, uid, q, now))
  {
    TypeStage(d, uid, q);
    Seqs.FilterCompose(d.reminders, (x: Reminder) => Typed(x, uid, q), (x: Reminder) => StatusMatches(x, q.status, now), (x: Reminder) => Listed(x, uid, q, now));
  }

  /** Over consistent data the completed list is entirely ordered by completion instant, latest first. */
  lemma CompletedListFullyOrdered(d: Data, uid: int, reminderType: string, now: int)
    requires AllConsistent(d)
    ensures var r := ListReminders(d, uid, Query(reminderType, "completed"), now);
      forall i, j | 0 <= i < j < |r| :: r[i].completedAt.Some? && r[j].completedAt.Some? && r[i].completedAt.value >= r[j].completedAt.value
  {
    var q := Query(reminderType, "completed");
    var r := ListReminders(d, uid, q, now);
    forall k | 0 <= k < |r| ensures r[k].completedAt.Some? {
      ListedMember(d, uid, q, now, r[k]);
      assert RM.CompletionConsistent(r[k]);
    }
  }

  /** A listed reminder is a stored one satisfying the listing rule. */
  lemma ListedMember(d: Data, uid: int, q: Query, now: int, x: Reminder)
    requires x in ListReminders(d, uid, q, now)
    ensures x in d.reminders && Listed(x, uid, q, now)
  {
    var listed := (y: Reminder) => Listed(y, uid, q, now);
    Seqs.FilterMembers(d.reminders, listed);
    Seqs.SameMembers(ListReminders(d, uid, q, now), Seqs.Filter(d.reminders, listed));
  }

  /** The completed and the pending lists split the unfiltered list between them. */
  lemma CompletedAndPendingSplitAll(d: Data, uid: int, reminderType: string, now: int)
    ensures multiset(ListReminders(d, uid, Query(reminderType, "completed"), now))
          + multiset(ListReminders(d, uid, Query(reminderType, "pending"), now))
         == multiset(ListReminders(d, uid, Query(reminderType, ""), now))
  {
    var all := Seqs.Filter(d.reminders, (x: Reminder) => Listed(x, uid, Query(reminderType, ""), now));
    var done := (x: Reminder) => Listed(x, uid, Query(reminderType, "completed"), now);
    var open := (x: Reminder) => Listed(x, uid, Query(reminderType, "pending"), now);
    var base := (x: Reminder) => Listed(x, uid, Query(reminderType, ""), now);
    Seqs.FilterPartition(all, (x: Reminder) => x.isCompleted, (x: Reminder) => !x.isCompleted);
    Seqs.FilterCompose(d.reminders, base, (x: Reminder) => x.isCompleted, done);
    Seqs.FilterCompose(d.reminders, base, (x: Reminder) => !x.isCompleted, open);
  }

  // ---------------------------------------------------------------------------
  // Upcoming and overdue

  /** Not completed, with a trigger from `now` to `days` days later, both ends included. */
  predicate IsUpcoming(r: Reminder, uid: int, days: int, now: int) {
    r.userId == uid && !r.isCompleted && r.trigger.Some? && now <= r.trigger.value <= now + days * SecondsPerDay
  }

  /** Not completed, with a trigger strictly before `now`. */
  predicate IsOverdueRow(r: Reminder, uid: int, now: int) {
    r.userId == uid && !r.isCompleted && r.trigger.Some? && r.trigger.value < now
  }

  function TriggerOrZero(r: Reminder): int {
    r.trigger.GetOr(0)
  }

  /** Soonest trigger first. */
  function SoonestFirst(rs: seq<Reminder>): (r: seq<Reminder>)
    requires forall x | x in rs :: x.trigger.Some?
    ensures multiset(r) == multiset(rs)
    ensures forall x | x in r :: x.trigger.Some?
    ensures forall i, j | 0 <= i < j < |r| :: r[i].trigger.Some? && r[j].trigger.Some? && r[i].trigger.value <= r[j].trigger.value
  {
    var r := Seqs.SortBy(rs, TriggerOrZero);
    Seqs.SameMembers(r, rs);
    assert Seqs.SortedBy(r, TriggerOrZero);
    r
  }

  /** `get_upcoming_reminders` for a `days` parameter (7 when absent). */
  function Upcoming(d: Data, uid: int, days: int, now: int): (r: seq<Reminder>)
    ensures multiset(r) == multiset(Seqs.Filter(d.reminders, (x: Reminder) => IsUpcoming(x, uid, days, now)))
    ensures forall x | x in r :: x in d.reminders && IsUpcoming(x, uid, days, now)
    ensures forall i, j | 0 <= i < j < |r| :: r[i].trigger.Some? && r[j].trigger.Some? && r[i].trigger.value <= r[j].trigger.value
  {
    var rs := Seqs.Filter(d.reminders, (x: Reminder) => IsUpcoming(x, uid, days, now));
    Seqs.FilterMembers(d.reminders, (x: Reminder) => IsUpcoming(x, uid, days, now));
    var r := SoonestFirst(rs);
    Seqs.SameMembers(r, rs);
    r
  }

  /** `get_overdue_reminders`. */
  function Overdue(d: Data, uid: int, now: int): (r: seq<Reminder>)
    ensures multiset(r) == multiset(Seqs.Filter(d.reminders, (x: Reminder) => IsOverdueRow(x, uid, now)))
    ensures forall x | x in r :: x in d.reminders && IsOverdueRow(x, uid, now)
    ensures forall i, j | 0 <= i < j < |r| :: r[i].trigger.Some? && r[j].trigger.Some? && r[i].trigger.value <= r[j].trigger.value
  {
    var rs := Seqs.Filter(d.reminders, (x: Reminder) => IsOverdueRow(x, uid, now));
    Seqs.FilterMembers(d.reminders, (x: Reminder) => IsOverdueRow(x, uid, now));
    var r := SoonestFirst(rs);
    Seqs.SameMembers(r, rs);
    r
  }

  /** At one instant no reminder is both upcoming and overdue. */
  lemma UpcomingOverdueDisjoint(d: Data, uid: int, days: int, now: int)
    ensures forall x | x in Upcoming(d, uid, days, now) :: x !in Overdue(d, uid, now)
  {
  }

  /**
   * The overdue list holds exactly the caller's reminders the model calls
   * overdue, and each of them serialises with `is_overdue` true.
   */
  lemma OverdueAgreesWithModel(d: Data, uid: int, now: int, iso: int -> string)
    ensures forall x :: x in Overdue(d, uid, now) <==> x in d.reminders && x.userId == uid && RM.IsOverdue(x, now)
    ensures forall x | x in Overdue(d, uid, now) :: RM.ToDict(x, now, iso)["is_overdue"] == Bool(true)
  {
    var rs := Seqs.Filter(d.reminders, (x: Reminder) => IsOverdueRow(x, uid, now));
    Seqs.FilterMembers(d.reminders, (x: Reminder) => IsOverdueRow(x, uid, now));
    Seqs.SameMembers(Overdue(d, uid, now), rs);
  }

  /** The "overdue" status of the list selects the same reminders as the overdue route. */
  lemma OverdueStatusIsOverdueRoute(d: Data, uid: int, now: int)
    ensures multiset(ListReminders(d, uid, Query("", "overdue"), now)) == multiset(Overdue(d, uid, now))
  {
    Seqs.FilterExt(d.reminders, (x: Reminder) => Listed(x, uid, Query("", "overdue"), now), (x: Reminder) => IsOverdueRow(x, uid, now));
  }

  // ---------------------------------------------------------------------------
  // The list's ORDER BY term

  /** An ordering term as the query builder composes it: a column wrapped in modifiers. */
  datatype OrderTerm = Column(name: string) | Asc(inner: OrderTerm) | Desc(inner: OrderTerm) | NullsLast(inner: OrderTerm)

  /** The builder writes each modifier after the term it wraps. */
  function RenderOrder(t: OrderTerm): string {
    match t
    case Column(n) => n
    case Asc(i) => RenderOrder(i) + " ASC"
    case Desc(i) => RenderOrder(i) + " DESC"
    case NullsLast(i) => RenderOrder(i) + " NULLS LAST"
  }

  /** A column, possibly followed by a direction. */
  predicate Directed(t: OrderTerm) {
    t.Column? || ((t.Asc? || t.Desc?) && t.inner.Column?)
  }

  /**
   * What SQL accepts as an ordering term: an expression, then an optional
   * direction, then an optional NULLS LAST. A direction after NULLS LAST is a
   * syntax error.
   */
  predicate ValidOrder(t: OrderTerm) {
    Directed(t) || (t.NullsLast? && Directed(t.inner))
  }

  const TriggerColumn := Column("reminders.trigger_date")
  const CompletedColumn := Column("reminders.completed_at")
  const ListFailed := "Failed to retrieve reminders"

  /** The ordering `get_reminders` builds as written: `asc(trigger_date.nullslast())` outside the completed list. */
  function WrittenOrder(status: string): OrderTerm {
    if status == "completed" then Desc(CompletedColumn) else Asc(NullsLast(TriggerColumn))
  }

  /** The ordering the handler's comment describes: `trigger_date.asc().nullslast()`. */
  function IntendedOrder(status: string): OrderTerm {
    if status == "completed" then Desc(CompletedColumn) else NullsLast(Asc(TriggerColumn))
  }

  /** The list's answer: the ordered reminders, or a failure the handler's `except` produces. */
  datatype Listing = Ordered(reminders: seq<Reminder>) | Failed(status: int, message: string)

  /** `get_reminders` with a given ordering term: a term the database refuses raises, and the handler answers 500. */
  function ListWith(d: Data, uid: int, q: Query, now: int, order: OrderTerm): (r: Listing)
    ensures r.Ordered? <==> ValidOrder(order)
    ensures r.Ordered? ==> multiset(r.reminders) == multiset(Seqs.Filter(d.reminders, (x: Reminder) => Listed(x, uid, q, now)))
    ensures r.Failed? ==> r == Failed(500, ListFailed)
  {
    if ValidOrder(order) then Ordered(ListReminders(d, uid, q, now)) else Failed(500, ListFailed)
  }

  /** `get_reminders` as written. */
  function GetRemindersAsWritten(d: Data, uid: int, q: Query, now: int): Listing {
    ListWith(d, uid, q, now, WrittenOrder(q.status))
  }

  /** `get_reminders` with the ordering its comment describes. */
  function GetReminders(d: Data, uid: int, q: Query, now: int): Listing {
    ListWith(d, uid, q, now, IntendedOrder(q.status))
  }

  /** The text of the two trigger orderings: the written one puts the direction after NULLS LAST. */
  lemma RenderedTriggerOrders()
    ensures RenderOrder(WrittenOrder("")) == "reminders.trigger_date NULLS LAST ASC"
    ensures RenderOrder(IntendedOrder("")) == "reminders.trigger_date ASC NULLS LAST"
  {
    assert RenderOrder(NullsLast(TriggerColumn)) == "reminders.trigger_date" + " NULLS LAST";
    assert RenderOrder(Asc(TriggerColumn)) == "reminders.trigger_date" + " ASC";
  }

  /** As written, only the completed list is answered; any other status, none included, gets 500. */
  lemma WrittenOrderFails(d: Data, uid: int, q: Query, now: int)
    ensures GetRemindersAsWritten(d, uid, q, now).Ordered? <==> q.status == "completed"
    ensures q.status != "completed" ==> GetRemindersAsWritten(d, uid, q, now) == Failed(500, ListFailed)
  {
    if q.status != "completed" {
      assert !ValidOrder(WrittenOrder(q.status));
    }
  }

  /** With the intended term every status is answered, soonest trigger first with the undated last. */
  lemma IntendedOrderLists(d: Data, uid: int, q: Query, now: int)
    ensures GetReminders(d, uid, q, now) == Ordered(ListReminders(d, uid, q, now))
  {
    var o := IntendedOrder(q.status);
    assert ValidOrder(o);
    assert GetReminders(d, uid, q, now) == ListWith(d, uid, q, now, o);
  }

  // ---------------------------------------------------------------------------
  // Fields shared by creation and update

  /** A trigger field the handlers accept: falsy, or text the parser reads once every 'Z' is "+00:00". */
  predicate TriggerReads(v: Value, parse: string -> Option<int>) {
    !PyTruthy(v) || (v.Str? && parse(ReplaceChar(v.s, 'Z', "+00:00")).Some?)
  }

  /** The trigger field: falsy means no instant; text is read with every 'Z' taken as "+00:00"; anything else raises. */
  function ReadTrigger(v: Value, parse: string -> Option<int>): (r: Step<Option<int>>)
    ensures r.Halt? ==> r.status in {400, 500}
    ensures r.Go? <==> TriggerReads(v, parse)
    ensures !PyTruthy(v) ==> r == Go(None)
    ensures r.Go? && PyTruthy(v) ==> r.value.Some?
    ensures r.Go? && r.value.Some? ==> v.Str? && parse(ReplaceChar(v.s, 'Z', "+00:00")) == r.value
    ensures r == Halt(400, BadTrigger) <==> PyTruthy(v) && v.Str? && parse(ReplaceChar(v.s, 'Z', "+00:00")).None?
  {
    if !PyTruthy(v) then Go(None)
    else if !v.Str? then Halt(500, "")
    else match parse(ReplaceChar(v.s, 'Z', "+00:00"))
      case None => Halt(400, BadTrigger)
      case Some(t) => Go(Some(t))
  }

  /**
   * The memory check: a truthy `memory_id` must designate one of the caller's
   * memories. Numbers and booleans are looked up as integers; text is not
   * matched; a list or dictionary cannot be bound as a query parameter.
   */
  function CheckMemory(d: Data, uid: int, v: Value): (r: Step<Value>)
    ensures r.Halt? ==> r.status in {404, 500}
    ensures r.Go? ==> r.value == v
    ensures r.Go? && PyTruthy(v) ==> OwnMemory(d, uid, v)
    ensures !PyTruthy(v) ==> r == Go(v)
    ensures r == Halt(404, NoSuchMemory) <==> PyTruthy(v) && Storable(v) && !OwnMemory(d, uid, v)
    ensures r.Halt? && r.status == 500 <==> PyTruthy(v) && !Storable(v)
  {
    if !PyTruthy(v) then Go(v)
    else if v.Arr? || v.Obj? then Halt(500, "")
    else match PyInt(v)
      case None => Halt(404, NoSuchMemory)
      case Some(n) => if FindMemory(d.memories, n, uid).Some? then Go(v) else Halt(404, NoSuchMemory)
  }

  /** The value, read as an integer, is the identifier of one of the caller's memories. */
  predicate OwnMemory(d: Data, uid: int, v: Value) {
    exists m | m in d.memories :: PyInt(v) == Some(m.id) && m.userId == uid
  }

  /** An integer column stores null, numbers, booleans and text; a list or dictionary makes the commit fail. */
  predicate Storable(v: Value) {
    !(v.Arr? || v.Obj?)
  }

  // ---------------------------------------------------------------------------
  // Creation

  /** The fields `create_reminder` reads, with their defaults. */
  datatype Fields = Fields(title: string, description: string, reminderType: Value, trigger: Value, repeatPattern: string, memoryId: Value)

  /** The three text fields are absent or hold strings, so stripping them does not raise. */
  predicate TextFieldsReadable(fields: map<string, Value>) {
    TextOrAbsent(fields, "title") && TextOrAbsent(fields, "description") && TextOrAbsent(fields, "repeat_pattern")
  }

  function CreateFields(body: Value): (f: Py<Fields>)
    ensures f.Ok? <==> body.Obj? && TextFieldsReadable(body.fields)
    ensures f.Ok? ==> f.value.reminderType == (if "reminder_type" in body.fields then body.fields["reminder_type"] else Str("deadline"))
    ensures f.Ok? ==> f.value.memoryId == (if "memory_id" in body.fields then body.fields["memory_id"] else Null)
    ensures f.Ok? ==> f.value.trigger == (if "trigger_date" in body.fields then body.fields["trigger_date"] else Null)
  {
    var title := StripField(body, "title");
    var description := StripField(body, "description");
    var repeat := StripField(body, "repeat_pattern");
    if title.Raised? || description.Raised? || repeat.Raised? then Raised
    else
      Ok(Fields(
        title.value, description.value,
        PyGet(body, "reminder_type", Str("deadline")).value,
        PyGet(body, "trigger_date", Null).value,
        repeat.value,
        PyGet(body, "memory_id", Null).value))
  }

  /** The text fields read are the stripped strings sent, an absent one reading as "". */
  lemma CreateFieldsStripped(body: Value)
    requires CreateFields(body).Ok?
    ensures var f := CreateFields(body).value;
      && f.title == PyStrip(TextOr(body.fields, "title"))
      && f.description == PyStrip(TextOr(body.fields, "description"))
      && f.repeatPattern == PyStrip(TextOr(body.fields, "repeat_pattern"))
  {
  }

  /** A value of the enumeration, else "deadline". */
  function CreateType(v: Value): (t: string)
    ensures t in RM.ReminderTypes
    ensures v.Str? && v.s in RM.ReminderTypes ==> t == v.s
  {
    if v.Str? && v.s in RM.ReminderTypes then v.s else "deadline"
  }

  /** A row `create_reminder` may append: the caller's, titled, pending, typed, storable, linked to one of the caller's memories. */
  predicate NewRowShape(d: Data, uid: int, x: Reminder) {
    && x.userId == uid && x.title != "" && !x.isCompleted && RM.CompletionConsistent(x)
    && x.reminderType in RM.ReminderTypes
    && x.repeatPattern != Some("")
    && (forall r | r in d.reminders :: r.id < x.id)
    && Storable(x.memoryId)
    && (PyTruthy(x.memoryId) ==> exists m | m in d.memories :: LinkedId(x) == Some(m.id) && m.userId == uid)
  }

  /**
   * The new row holds what was sent: the stripped title and description, the
   * type when it is one of the enumeration's, the parsed trigger, a blank
   * repeat pattern as null, and the link as sent.
   */
  predicate StoresFields(x: Reminder, f: Fields, parse: string -> Option<int>) {
    && x.title == f.title && x.description == f.description
    && x.reminderType == CreateType(f.reminderType)
    && x.repeatPattern == (if f.repeatPattern == "" then None else Some(f.repeatPattern))
    && x.memoryId == f.memoryId
    && (if PyTruthy(f.trigger)
        then f.trigger.Str? && x.trigger == parse(ReplaceChar(f.trigger.s, 'Z', "+00:00"))
        else x.trigger.None?)
  }

  /** The decision of `create_reminder`, in the handler's order. */
  function CreateChecks(d: Data, uid: int, body: Value, parse: string -> Option<int>, now: int): (s: Step<Reminder>)
    ensures s.Halt? ==> s.status in {400, 404, 500}
    ensures s.Go? ==> NewRowShape(d, uid, s.value)
    ensures s == Halt(400, NoData) <==> !PyTruthy(body)
    ensures PyTruthy(body) && CreateFields(body).Raised? ==> s == Halt(500, CreateFailed)
    ensures s == Halt(400, TitleRequired) <==> PyTruthy(body) && CreateFields(body).Ok? && CreateFields(body).value.title == ""
    ensures PyTruthy(body) && CreateFields(body).Ok? && CreateFields(body).value.title != "" ==>
      s == CreateFrom(d, uid, CreateFields(body).value, parse, now)
    ensures s.Go? ==> CreateFields(body).Ok? && StoresFields(s.value, CreateFields(body).value, parse) && s.value.createdAt == now
  {
    if !PyTruthy(body) then Halt(400, NoData)
    else match CreateFields(body)
      case Raised => Halt(500, CreateFailed)
      case Ok(f) => if f.title == "" then Halt(400, TitleRequired) else CreateFrom(d, uid, f, parse, now)
  }

  /** The checks after the fields are read: the trigger parses, the memory is the caller's, the value is storable. */
  function CreateFrom(d: Data, uid: int, f: Fields, parse: string -> Option<int>, now: int): (s: Step<Reminder>)
    requires f.title != ""
    ensures s.Halt? ==> s.status in {400, 404, 500}
    ensures s.Go? ==> NewRowShape(d, uid, s.value) && StoresFields(s.value, f, parse) && s.value.createdAt == now
    ensures s.Go? <==> TriggerReads(f.trigger, parse) && Storable(f.memoryId) && (PyTruthy(f.memoryId) ==> OwnMemory(d, uid, f.memoryId))
    ensures s == Halt(400, BadTrigger) <==> PyTruthy(f.trigger) && f.trigger.Str? && parse(ReplaceChar(f.trigger.s, 'Z', "+00:00")).None?
    ensures s == Halt(404, NoSuchMemory) <==> TriggerReads(f.trigger, parse) && PyTruthy(f.memoryId) && Storable(f.memoryId) && !OwnMemory(d, uid, f.memoryId)
    ensures s.Halt? && s.status == 500 ==> s.message == CreateFailed
    ensures s.Halt? && s.status == 400 ==> s.message == BadTrigger
  {
    match ReadTrigger(f.trigger, parse)
    case Halt(st, msg) => Halt(st, if st == 500 then CreateFailed else msg)
    case Go(trigger) =>
      match CheckMemory(d, uid, f.memoryId)
      case Halt(st, msg) => Halt(st, if st == 500 then CreateFailed else msg)
      case Go(mid) =>
        if !Storable(mid) then Halt(500, CreateFailed)
        else
          var x := Created(d, uid, f, trigger, mid, now);
          assert LinkedId(x) == PyInt(mid);
          Go(x)
  }

  /** The new row: the next identifier, the caller as owner, an empty repeat pattern stored as null. */
  function Created(d: Data, uid: int, f: Fields, trigger: Option<int>, mid: Value, now: int): (x: Reminder)
    requires f.title != ""
    ensures x.userId == uid && x.title == f.title && !x.isCompleted && RM.CompletionConsistent(x)
    ensures x.reminderType in RM.ReminderTypes && x.repeatPattern != Some("")
    ensures forall r | r in d.reminders :: r.id < x.id
    ensures x.memoryId == mid && x.trigger == trigger && x.createdAt == now
    ensures x.description == f.description && x.reminderType == CreateType(f.reminderType)
    ensures x.repeatPattern == (if f.repeatPattern == "" then None else Some(f.repeatPattern))
  {
    var id := FreshId(d.reminders, (r: Reminder) => r.id);
    FreshAbove(d.reminders, id);
    RM.New(id, uid, f.title, f.description, CreateType(f.reminderType), trigger,
           if f.repeatPattern != "" then Some(f.repeatPattern) else None, mid, now)
  }

  lemma FreshAbove(rs: seq<Reminder>, id: int)
    requires id == FreshId(rs, (x: Reminder) => x.id)
    ensures forall x | x in rs :: x.id < id
  {
    forall x | x in rs ensures x.id < id {
      var i :| 0 <= i < |rs| && rs[i] == x;
    }
  }

  /** `create_reminder`: 201 appends the new reminder; every other answer leaves the data as it was. */
  function CreateReminder(d: Data, uid: int, body: Value, parse: string -> Option<int>, now: int): (r: Reply)
    ensures r.status in {201, 400, 404, 500}
    ensures r.status != 201 ==> r.data == d
    ensures r.status == 201 <==> CreateChecks(d, uid, body, parse, now).Go?
    ensures r.status == 201 ==> r.data == d.(reminders := d.reminders + [CreateChecks(d, uid, body, parse, now).value])
    ensures r.status == 201 ==> var x := r.data.reminders[|d.reminders|];
      && CreateFields(body).Ok? && NewRowShape(d, uid, x)
      && StoresFields(x, CreateFields(body).value, parse) && x.createdAt == now
    ensures r.status == 400 && r.message == NoData <==> !PyTruthy(body)
  {
    match CreateChecks(d, uid, body, parse, now)
    case Halt(status, message) => Answer(d, status, message)
    case Go(x) => Reply(201, "Reminder created successfully", d.(reminders := d.reminders + [x]))
  }

  /** A trigger text the parser rejects is refused with 400, whatever the rest of a dictionary body with a title holds. */
  lemma CreateRejectsBadTrigger(d: Data, uid: int, fields: map<string, Value>, parse: string -> Option<int>, now: int, t: string)
    requires "title" in fields && fields["title"].Str? && PyStrip(fields["title"].s) != ""
    requires "description" !in fields && "repeat_pattern" !in fields
    requires "trigger_date" in fields && fields["trigger_date"] == Str(t) && t != ""
    requires parse(ReplaceChar(t, 'Z', "+00:00")).None?
    ensures CreateReminder(d, uid, Obj(fields), parse, now) == Answer(d, 400, BadTrigger)
  {
    assert PyTruthy(Obj(fields));
    var f := TitledFields(fields);
    assert f.trigger == Str(t);
    assert ReadTrigger(f.trigger, parse) == Halt(400, BadTrigger);
    assert CreateFrom(d, uid, f, parse, now) == Halt(400, BadTrigger);
  }

  /** A dictionary with a text title and no description or repeat pattern yields its fields. */
  lemma TitledFields(fields: map<string, Value>) returns (f: Fields)
    requires "title" in fields && fields["title"].Str? && PyStrip(fields["title"].s) != ""
    requires "description" !in fields && "repeat_pattern" !in fields
    ensures CreateFields(Obj(fields)) == Ok(f) && f.title != ""
    ensures f.trigger == (if "trigger_date" in fields then fields["trigger_date"] else Null)
  {
    assert Strip(PyGet(Obj(fields), "description", Str(""))).Ok?;
    assert Strip(PyGet(Obj(fields), "repeat_pattern", Str(""))).Ok?;
    f := CreateFields(Obj(fields)).value;
  }

  // ---------------------------------------------------------------------------
  // Update

  function EditTitle(r: Reminder, body: Value): (s: Step<Reminder>)
    ensures s.Halt? ==> s == Halt(400, TitleEmpty) || s == Halt(500, UpdateFailed)
    ensures s.Go? ==> s.value == r.(title := s.value.title)
    ensures body.Obj? && s.Go? ==>
      && TextOrAbsent(body.fields, "title")
      && s.value.title == (if "title" in body.fields then PyStrip(body.fields["title"].s) else r.title)
      && ("title" in body.fields ==> s.value.title != "")
  {
    match PyRead(body, "title")
    case Raised => Halt(500, UpdateFailed)
    case Ok(None) => Go(r)
    case Ok(Some(v)) =>
      match Strip(Ok(v))
      case Raised => Halt(500, UpdateFailed)
      case Ok(t) => if t == "" then Halt(400, TitleEmpty) else Go(r.(title := t))
  }

  function EditDescription(r: Reminder, body: Value): (s: Step<Reminder>)
    ensures s.Halt? ==> s == Halt(500, UpdateFailed)
    ensures s.Go? ==> s.value == r.(description := s.value.description)
    ensures body.Obj? && s.Go? ==>
      && TextOrAbsent(body.fields, "description")
      && s.value.description == (if "description" in body.fields then PyStrip(body.fields["description"].s) else r.description)
  {
    match PyRead(body, "description")
    case Raised => Halt(500, UpdateFailed)
    case Ok(None) => Go(r)
    case Ok(Some(v)) =>
      match Strip(Ok(v))
      case Raised => Halt(500, UpdateFailed)
      case Ok(t) => Go(r.(description := t))
  }

  /** The type after an update: a value of the enumeration when sent, else the stored one. */
  function UpdatedType(r: Reminder, fields: map<string, Value>): string {
    if "reminder_type" in fields && fields["reminder_type"].Str? && fields["reminder_type"].s in RM.ReminderTypes
    then fields["reminder_type"].s else r.reminderType
  }

  /** A value of the enumeration replaces the type; anything else is ignored. */
  function EditType(r: Reminder, body: Value): (s: Step<Reminder>)
    ensures s.Halt? ==> s == Halt(500, UpdateFailed)
    ensures s.Go? ==> s.value == r.(reminderType := s.value.reminderType)
    ensures body.Obj? ==> s == Go(r.(reminderType := UpdatedType(r, body.fields)))
  {
    match PyRead(body, "reminder_type")
    case Raised => Halt(500, UpdateFailed)
    case Ok(None) => Go(r)
    case Ok(Some(v)) => Go(if v.Str? && v.s in RM.ReminderTypes then r.(reminderType := v.s) else r)
  }

  /** A falsy trigger clears the instant; text replaces it or is refused. */
  function EditTrigger(r: Reminder, body: Value, parse: string -> Option<int>): (s: Step<Reminder>)
    ensures s.Go? ==> s.value == r.(trigger := s.value.trigger)
    ensures body.Obj? && s.Go? ==>
      && ("trigger_date" !in body.fields ==> s.value.trigger == r.trigger)
      && ("trigger_date" in body.fields && !PyTruthy(body.fields["trigger_date"]) ==> s.value.trigger.None?)
      && ("trigger_date" in body.fields && PyTruthy(body.fields["trigger_date"]) ==>
            body.fields["trigger_date"].Str? && s.value.trigger == parse(ReplaceChar(body.fields["trigger_date"].s, 'Z', "+00:00")))
    ensures s.Halt? ==> s == Halt(400, BadTrigger) || s == Halt(500, UpdateFailed)
    ensures body.Obj? && "trigger_date" in body.fields ==>
      (s == Halt(400, BadTrigger) <==> ReadTrigger(body.fields["trigger_date"], parse) == Halt(400, BadTrigger))
  {
    match PyRead(body, "trigger_date")
    case Raised => Halt(500, UpdateFailed)
    case Ok(None) => Go(r)
    case Ok(Some(v)) =>
      match ReadTrigger(v, parse)
      case Halt(st, msg) => Halt(st, if st == 500 then UpdateFailed else msg)
      case Go(t) => Go(r.(trigger := t))
  }

  /** `s.strip() or None`. */
  function BlankToNone(s: string): Option<string> {
    if PyStrip(s) == "" then None else Some(PyStrip(s))
  }

  /** `strip() or None`: blank text clears the pattern. */
  function EditRepeat(r: Reminder, body: Value): (s: Step<Reminder>)
    ensures s.Halt? ==> s == Halt(500, UpdateFailed)
    ensures s.Go? ==> s.value == r.(repeatPattern := s.value.repeatPattern)
    ensures s.Go? ==> s.value.repeatPattern == r.repeatPattern || s.value.repeatPattern != Some("")
    ensures body.Obj? && s.Go? ==>
      && TextOrAbsent(body.fields, "repeat_pattern")
      && s.value.repeatPattern == (if "repeat_pattern" in body.fields then BlankToNone(body.fields["repeat_pattern"].s) else r.repeatPattern)
  {
    match PyRead(body, "repeat_pattern")
    case Raised => Halt(500, UpdateFailed)
    case Ok(None) => Go(r)
    case Ok(Some(v)) =>
      match Strip(Ok(v))
      case Raised => Halt(500, UpdateFailed)
      case Ok(p) => Go(r.(repeatPattern := if p != "" then Some(p) else None))
  }

  /** A truthy memory identifier must be the caller's; any value that passes is stored. */
  function EditMemory(d: Data, r: Reminder, body: Value): (s: Step<Reminder>)
    ensures s.Go? ==> s.value == r.(memoryId := s.value.memoryId)
    ensures s.Go? && s.value.memoryId != r.memoryId && PyTruthy(s.value.memoryId) ==>
      exists m | m in d.memories :: LinkedId(s.value) == Some(m.id) && m.userId == r.userId
    ensures body.Obj? && s.Go? ==> s.value.memoryId == (if "memory_id" in body.fields then body.fields["memory_id"] else r.memoryId)
    ensures s.Halt? ==> s == Halt(404, NoSuchMemory) || s == Halt(500, UpdateFailed)
    ensures body.Obj? && "memory_id" in body.fields ==>
      (s == Halt(404, NoSuchMemory) <==> CheckMemory(d, r.userId, body.fields["memory_id"]) == Halt(404, NoSuchMemory))
  {
    match PyRead(body, "memory_id")
    case Raised => Halt(500, UpdateFailed)
    case Ok(None) => Go(r)
    case Ok(Some(v)) =>
      match CheckMemory(d, r.userId, v)
      case Halt(st, msg) => Halt(st, if st == 500 then UpdateFailed else msg)
      case Go(mid) => Go(r.(memoryId := mid))
  }

  /** The edits of `update_reminder`, in the handler's order; the first refusal or exception stops them. */
  function UpdateEdits(d: Data, r: Reminder, body: Value, parse: string -> Option<int>): (s: Step<Reminder>)
    ensures s.Halt? ==> s.status in {400, 404, 500}
    ensures s.Halt? ==> s in {Halt(400, TitleEmpty), Halt(400, BadTrigger), Halt(404, NoSuchMemory), Halt(500, UpdateFailed)}
    ensures s.Go? ==> s.value.(title := r.title, description := r.description, reminderType := r.reminderType,
                               trigger := r.trigger, repeatPattern := r.repeatPattern, memoryId := r.memoryId) == r
    ensures s.Go? && s.value.memoryId != r.memoryId && PyTruthy(s.value.memoryId) ==>
      exists m | m in d.memories :: LinkedId(s.value) == Some(m.id) && m.userId == r.userId
  {
    match EditTitle(r, body)
    case Halt(st, msg) => Halt(st, msg)
    case Go(r1) =>
      match EditDescription(r1, body)
      case Halt(st, msg) => Halt(st, msg)
      case Go(r2) =>
        match EditType(r2, body)
        case Halt(st, msg) => Halt(st, msg)
        case Go(r3) =>
          match EditTrigger(r3, body, parse)
          case Halt(st, msg) => Halt(st, msg)
          case Go(r4) =>
            match EditRepeat(r4, body)
            case Halt(st, msg) => Halt(st, msg)
            case Go(r5) => EditMemory(d, r5, body)
  }

  /**
   * For a dictionary body, an accepted update sets exactly the keys present:
   * a stripped non-empty title, a stripped description, a type only when
   * valid, a falsy trigger cleared, a blank pattern cleared, a memory link
   * as sent; an absent key keeps the stored value.
   */
  lemma UpdateSetsPresentKeys(d: Data, r: Reminder, fields: map<string, Value>, parse: string -> Option<int>)
    requires UpdateEdits(d, r, Obj(fields), parse).Go?
    ensures var n := UpdateEdits(d, r, Obj(fields), parse).value;
      && TextOrAbsent(fields, "title") && TextOrAbsent(fields, "description") && TextOrAbsent(fields, "repeat_pattern")
      && n.title == (if "title" in fields then PyStrip(fields["title"].s) else r.title)
      && ("title" in fields ==> n.title != "")
      && n.description == (if "description" in fields then PyStrip(fields["description"].s) else r.description)
      && n.reminderType == UpdatedType(r, fields)
      && ("trigger_date" !in fields ==> n.trigger == r.trigger)
      && ("trigger_date" in fields && !PyTruthy(fields["trigger_date"]) ==> n.trigger.None?)
      && n.repeatPattern == (if "repeat_pattern" in fields then BlankToNone(fields["repeat_pattern"].s) else r.repeatPattern)
      && n.memoryId == (if "memory_id" in fields then fields["memory_id"] else r.memoryId)
  {
    var b := Obj(fields);
    var r1 := EditTitle(r, b).value;
    var r2 := EditDescription(r1, b).value;
    var r3 := EditType(r2, b).value;
    var r4 := EditTrigger(r3, b, parse).value;
    var r5 := EditRepeat(r4, b).value;
    assert UpdateEdits(d, r, b, parse) == EditMemory(d, r5, b);
  }

  /** The decision of `update_reminder`, in the handler's order: the row to save. */
  function UpdateChecks(d: Data, uid: int, rid: int, body: Value, parse: string -> Option<int>, now: int): (s: Step<Reminder>)
    ensures s.Halt? ==> s.status in {400, 404, 500}
    ensures FindReminder(d.reminders, rid, uid).None? ==> s == Halt(404, NotFound)
    ensures s.Go? ==>
      && FindReminder(d.reminders, rid, uid).Some? && PyTruthy(body)
      && UpdateEdits(d, FindReminder(d.reminders, rid, uid).value, body, parse).Go?
      && s.value == RM.Touch(FindReminder(d.reminders, rid, uid).value,
                             UpdateEdits(d, FindReminder(d.reminders, rid, uid).value, body, parse).value, now)
      && Storable(s.value.memoryId)
    ensures FindReminder(d.reminders, rid, uid).Some? && !PyTruthy(body) ==> s == Halt(400, NoData)
    ensures (FindReminder(d.reminders, rid, uid).Some? && PyTruthy(body)
             && UpdateEdits(d, FindReminder(d.reminders, rid, uid).value, body, parse).Go?
             && Storable(UpdateEdits(d, FindReminder(d.reminders, rid, uid).value, body, parse).value.memoryId)) ==> s.Go?
    ensures (FindReminder(d.reminders, rid, uid).Some? && PyTruthy(body)
             && UpdateEdits(d, FindReminder(d.reminders, rid, uid).value, body, parse).Halt?) ==>
      s == UpdateEdits(d, FindReminder(d.reminders, rid, uid).value, body, parse)
  {
    match FindReminder(d.reminders, rid, uid)
    case None => Halt(404, NotFound)
    case Some(x) =>
      if !PyTruthy(body) then Halt(400, NoData)
      else match UpdateEdits(d, x, body, parse)
        case Halt(status, message) => Halt(status, message)
        case Go(n) => if !Storable(n.memoryId) then Halt(500, UpdateFailed) else Go(RM.Touch(x, n, now))
  }

  /** `update_reminder`: 200 saves the edited row (its modification time moves if anything changed); every other answer leaves the data as it was. */
  function UpdateReminder(d: Data, uid: int, rid: int, body: Value, parse: string -> Option<int>, now: int): (r: Reply)
    ensures r.status in {200, 400, 404, 500}
    ensures r.status != 200 ==> r.data == d
    ensures r.status == 200 <==> UpdateChecks(d, uid, rid, body, parse, now).Go?
    ensures r.status == 200 ==> r.data == SaveReminder(d, rid, uid, UpdateChecks(d, uid, rid, body, parse, now).value)
    ensures UpdateChecks(d, uid, rid, body, parse, now).Halt? ==>
      r == Answer(d, UpdateChecks(d, uid, rid, body, parse, now).status, UpdateChecks(d, uid, rid, body, parse, now).message)
  {
    match UpdateChecks(d, uid, rid, body, parse, now)
    case Halt(status, message) => Answer(d, status, message)
    case Go(x) => Reply(200, "Reminder updated successfully", SaveReminder(d, rid, uid, x))
  }

  /** An empty title is refused and nothing changes, whatever else the body holds. */
  lemma UpdateRejectsEmptyTitle(d: Data, uid: int, rid: int, fields: map<string, Value>, parse: string -> Option<int>, now: int, t: string)
    requires FindReminder(d.reminders, rid, uid).Some?
    requires "title" in fields && fields["title"] == Str(t) && PyStrip(t) == ""
    ensures UpdateReminder(d, uid, rid, Obj(fields), parse, now) == Answer(d, 400, TitleEmpty)
  {
    assert PyTruthy(Obj(fields));
    assert EditTitle(FindReminder(d.reminders, rid, uid).value, Obj(fields)) == Halt(400, TitleEmpty);
  }

  /** The fields the update reads before the trigger are acceptable: text where text is stripped, and a title that is not blank. */
  predicate LeadingEditsPass(fields: map<string, Value>) {
    && TextOrAbsent(fields, "title") && ("title" in fields ==> PyStrip(fields["title"].s) != "")
    && TextOrAbsent(fields, "description")
  }

  /** An unparseable trigger text on update is answered 400 and nothing changes. */
  lemma UpdateRejectsBadTrigger(d: Data, uid: int, rid: int, fields: map<string, Value>, parse: string -> Option<int>, now: int, t: string)
    requires FindReminder(d.reminders, rid, uid).Some?
    requires LeadingEditsPass(fields)
    requires "trigger_date" in fields && fields["trigger_date"] == Str(t) && t != ""
    requires parse(ReplaceChar(t, 'Z', "+00:00")).None?
    ensures UpdateReminder(d, uid, rid, Obj(fields), parse, now) == Answer(d, 400, BadTrigger)
  {
    var b := Obj(fields);
    var x := FindReminder(d.reminders, rid, uid).value;
    assert PyTruthy(b);
    var r1 := EditTitle(x, b).value;
    var r2 := EditDescription(r1, b).value;
    var r3 := EditType(r2, b).value;
    assert EditTrigger(r3, b, parse) == Halt(400, BadTrigger);
    assert UpdateEdits(d, x, b, parse) == Halt(400, BadTrigger);
  }

  /** A truthy memory identifier that is not one of the caller's memories is answered 404 on update and nothing changes. */
  lemma UpdateRejectsForeignMemory(d: Data, uid: int, rid: int, fields: map<string, Value>, parse: string -> Option<int>, now: int)
    requires FindReminder(d.reminders, rid, uid).Some?
    requires LeadingEditsPass(fields)
    requires "trigger_date" in fields ==> TriggerReads(fields["trigger_date"], parse)
    requires TextOrAbsent(fields, "repeat_pattern")
    requires "memory_id" in fields
    requires PyTruthy(fields["memory_id"]) && Storable(fields["memory_id"]) && !OwnMemory(d, uid, fields["memory_id"])
    ensures UpdateReminder(d, uid, rid, Obj(fields), parse, now) == Answer(d, 404, NoSuchMemory)
  {
    var b := Obj(fields);
    var x := FindReminder(d.reminders, rid, uid).value;
    assert PyTruthy(b);
    var r1 := EditTitle(x, b).value;
    var r2 := EditDescription(r1, b).value;
    var r3 := EditType(r2, b).value;
    var r4 := EditTrigger(r3, b, parse).value;
    var r5 := EditRepeat(r4, b).value;
    assert r5.userId == uid;
    assert EditMemory(d, r5, b) == Halt(404, NoSuchMemory);
    assert UpdateEdits(d, x, b, parse) == Halt(404, NoSuchMemory);
  }

  // ---------------------------------------------------------------------------
  // Deletion, completion

  /** `delete_reminder`. */
  function DeleteReminder(d: Data, uid: int, rid: int): (r: Reply)
    ensures r.status in {200, 404}
    ensures r.status == 404 <==> FindReminder(d.reminders, rid, uid).None?
    ensures r.status == 404 ==> r.data == d
    ensures r.status == 200 ==>
      && r.data.users == d.users && r.data.memories == d.memories
      && (forall x | x in r.data.reminders :: !IsRow(x, rid, uid))
      && (forall x | x in d.reminders && !IsRow(x, rid, uid) :: x in r.data.reminders)
      && (forall x | x in r.data.reminders :: x in d.reminders)
  {
    match FindReminder(d.reminders, rid, uid)
    case None => Answer(d, 404, NotFound)
    case Some(_) => Reply(200, "Reminder deleted successfully", d.(reminders := Seqs.Filter(d.reminders, (x: Reminder) => !IsRow(x, rid, uid))))
  }

  /** `complete_reminder`. */
  function Complete(d: Data, uid: int, rid: int, now: int): (r: Reply)
    ensures r.status in {200, 404}
    ensures r.status == 404 <==> FindReminder(d.reminders, rid, uid).None?
    ensures r.status == 404 ==> r.data == d
    ensures r.status == 200 ==> r.data == SaveReminder(d, rid, uid, RM.MarkCompleted(FindReminder(d.reminders, rid, uid).value, now))
  {
    match FindReminder(d.reminders, rid, uid)
    case None => Answer(d, 404, NotFound)
    case Some(x) => Reply(200, "Reminder marked as completed", SaveReminder(d, rid, uid, RM.MarkCompleted(x, now)))
  }

  /** `uncomplete_reminder`. */
  function Uncomplete(d: Data, uid: int, rid: int, now: int): (r: Reply)
    ensures r.status in {200, 404}
    ensures r.status == 404 <==> FindReminder(d.reminders, rid, uid).None?
    ensures r.status == 404 ==> r.data == d
    ensures r.status == 200 ==> r.data == SaveReminder(d, rid, uid, RM.MarkUncompleted(FindReminder(d.reminders, rid, uid).value, now))
  {
    match FindReminder(d.reminders, rid, uid)
    case None => Answer(d, 404, NotFound)
    case Some(x) => Reply(200, "Reminder marked as pending", SaveReminder(d, rid, uid, RM.MarkUncompleted(x, now)))
  }

  /**
   * Completing a pending reminder and reopening it restores the table, apart
   * from the modification time of that row, when identifiers are unique.
   */
  lemma CompleteThenUncomplete(d: Data, uid: int, rid: int, t1: int, t2: int)
    requires FindReminder(d.reminders, rid, uid).Some?
    requires forall i, j | 0 <= i < j < |d.reminders| :: d.reminders[i].id != d.reminders[j].id
    requires AllConsistent(d) && !FindReminder(d.reminders, rid, uid).value.isCompleted
    ensures Uncomplete(Complete(d, uid, rid, t1).data, uid, rid, t2).data
         == SaveReminder(d, rid, uid, FindReminder(d.reminders, rid, uid).value.(updatedAt := t2))
  {
    var x := FindReminder(d.reminders, rid, uid).value;
    var c := RM.MarkCompleted(x, t1);
    var d1 := SaveReminder(d, rid, uid, c);
    var i :| 0 <= i < |d.reminders| && d.reminders[i] == x;
    assert d1.reminders[i] == c;
    FindOnlyRow(d1.reminders, rid, uid, i);
    assert RM.CompletionConsistent(x);
    RM.CompleteThenReopen(x, t1, t2);
    assert Uncomplete(d1, uid, rid, t2).data == SaveReminder(d1, rid, uid, x.(updatedAt := t2));
    SaveRowTwice(d, rid, uid, c, x.(updatedAt := t2));
  }

  /** Saving the caller's row twice keeps only the second save, when the first keeps the row's identifier and owner. */
  lemma SaveRowTwice(d: Data, rid: int, uid: int, a: Reminder, b: Reminder)
    requires IsRow(a, rid, uid)
    ensures SaveReminder(SaveReminder(d, rid, uid, a), rid, uid, b) == SaveReminder(d, rid, uid, b)
  {
    var d1 := SaveReminder(d, rid, uid, a);
    var d2 := SaveReminder(d1, rid, uid, b);
    var e := SaveReminder(d, rid, uid, b);
    forall k | 0 <= k < |d.reminders| ensures d2.reminders[k] == e.reminders[k] {
      assert IsRow(d1.reminders[k], rid, uid) == IsRow(d.reminders[k], rid, uid);
    }
    assert d2.reminders == e.reminders;
  }

  /** With unique identifiers, the row at `i` is the one found for its identifier and owner. */
  lemma FindOnlyRow(rs: seq<Reminder>, rid: int, uid: int, i: int)
    requires 0 <= i < |rs| && IsRow(rs[i], rid, uid)
    requires forall a, b | 0 <= a < b < |rs| :: rs[a].id != rs[b].id
    ensures FindReminder(rs, rid, uid) == Some(rs[i])
  {
    var f := FindReminder(rs, rid, uid).value;
    var k :| 0 <= k < |rs| && rs[k] == f;
    assert !(k < i) && !(i < k);
  }

  // ---------------------------------------------------------------------------
  // Invariants

  /** Saving a consistent row, or the same row updated by `Touch`, keeps every row consistent. */
  lemma SaveKeepsConsistent(d: Data, rid: int, uid: int, x: Reminder)
    requires AllConsistent(d) && RM.CompletionConsistent(x)
    ensures AllConsistent(SaveReminder(d, rid, uid, x))
  {
    var after := SaveReminder(d, rid, uid, x);
    forall y | y in after.reminders ensures RM.CompletionConsistent(y) {
      var i :| 0 <= i < |after.reminders| && after.reminders[i] == y;
    }
  }

  lemma CreateKeepsConsistent(d: Data, uid: int, body: Value, parse: string -> Option<int>, now: int)
    requires AllConsistent(d)
    ensures AllConsistent(CreateReminder(d, uid, body, parse, now).data)
  {
    var s := CreateChecks(d, uid, body, parse, now);
    if s.Go? {
      AppendKeepsConsistent(d, s.value);
    }
  }

  /** Appending a consistent row keeps every row consistent. */
  lemma AppendKeepsConsistent(d: Data, x: Reminder)
    requires AllConsistent(d) && RM.CompletionConsistent(x)
    ensures AllConsistent(d.(reminders := d.reminders + [x]))
  {
    forall y | y in d.reminders + [x] ensures RM.CompletionConsistent(y) {
      if y != x {
        assert y in d.reminders;
      }
    }
  }

  lemma UpdateKeepsConsistent(d: Data, uid: int, rid: int, body: Value, parse: string -> Option<int>, now: int)
    requires AllConsistent(d)
    ensures AllConsistent(UpdateReminder(d, uid, rid, body, parse, now).data)
  {
    var s := UpdateChecks(d, uid, rid, body, parse, now);
    if s.Go? {
      var x := FindReminder(d.reminders, rid, uid).value;
      assert RM.CompletionConsistent(x);
      SaveKeepsConsistent(d, rid, uid, s.value);
    }
  }

  /** Completing and reopening keep every row consistent. */
  lemma CompletionKeepsConsistent(d: Data, uid: int, rid: int, now: int)
    requires AllConsistent(d)
    ensures AllConsistent(Complete(d, uid, rid, now).data)
    ensures AllConsistent(Uncomplete(d, uid, rid, now).data)
  {
    if FindReminder(d.reminders, rid, uid).Some? {
      var x := FindReminder(d.reminders, rid, uid).value;
      SaveKeepsConsistent(d, rid, uid, RM.MarkCompleted(x, now));
      SaveKeepsConsistent(d, rid, uid, RM.MarkUncompleted(x, now));
    }
  }

  /** Deleting a reminder, or a memory (which unlinks its reminders), keeps every row consistent. */
  lemma DeletionKeepsConsistent(d: Data, uid: int, rid: int, mid: int, now: int)
    requires AllConsistent(d)
    ensures AllConsistent(DeleteReminder(d, uid, rid).data)
    ensures AllConsistent(MemoryRoutes.DeleteMemory(d, uid, mid, now).data)
  {
    var m := MemoryRoutes.DeleteMemory(d, uid, mid, now);
    if m.status == 200 {
      forall y | y in m.data.reminders ensures RM.CompletionConsistent(y) {
        var i :| 0 <= i < |m.data.reminders| && m.data.reminders[i] == y;
        assert RM.CompletionConsistent(d.reminders[i]);
      }
    }
  }

  /** A created reminder's memory link designates a memory of the caller. */
  lemma CreateKeepsLinks(d: Data, uid: int, body: Value, parse: string -> Option<int>, now: int)
    requires ReminderLinksValid(d)
    ensures ReminderLinksValid(CreateReminder(d, uid, body, parse, now).data)
  {
    var s := CreateChecks(d, uid, body, parse, now);
    if s.Go? {
      AppendKeepsLinks(d, s.value);
    }
  }

  /** Appending a row whose truthy link designates one of its owner's memories keeps links valid. */
  lemma AppendKeepsLinks(d: Data, x: Reminder)
    requires ReminderLinksValid(d)
    requires PyTruthy(x.memoryId) ==> exists m | m in d.memories :: LinkedId(x) == Some(m.id) && m.userId == x.userId
    ensures ReminderLinksValid(d.(reminders := d.reminders + [x]))
  {
    var after := d.(reminders := d.reminders + [x]);
    forall y | y in after.reminders && PyTruthy(y.memoryId)
      ensures exists m | m in after.memories :: LinkedId(y) == Some(m.id) && m.userId == y.userId
    {
      if y != x {
        assert y in d.reminders;
      }
    }
  }

  /** An updated reminder's memory link is the old one or designates a memory of the caller. */
  lemma UpdateKeepsLinks(d: Data, uid: int, rid: int, body: Value, parse: string -> Option<int>, now: int)
    requires ReminderLinksValid(d)
    ensures ReminderLinksValid(UpdateReminder(d, uid, rid, body, parse, now).data)
  {
    var s := UpdateChecks(d, uid, rid, body, parse, now);
    if s.Go? {
      var x := FindReminder(d.reminders, rid, uid).value;
      SaveKeepsLinks(d, rid, uid, x, s.value);
    }
  }

  /** Completing, reopening and deleting leave every memory link as it was. */
  lemma CompletionKeepsLinks(d: Data, uid: int, rid: int, now: int)
    requires ReminderLinksValid(d)
    ensures ReminderLinksValid(Complete(d, uid, rid, now).data)
    ensures ReminderLinksValid(Uncomplete(d, uid, rid, now).data)
    ensures ReminderLinksValid(DeleteReminder(d, uid, rid).data)
  {
    if FindReminder(d.reminders, rid, uid).Some? {
      var x := FindReminder(d.reminders, rid, uid).value;
      SaveKeepsLinks(d, rid, uid, x, RM.MarkCompleted(x, now));
      SaveKeepsLinks(d, rid, uid, x, RM.MarkUncompleted(x, now));
    }
  }

  /** Saving over the caller's row a value owned by the caller, whose link is the old one or a valid one, keeps the links valid. */
  lemma SaveKeepsLinks(d: Data, rid: int, uid: int, x: Reminder, n: Reminder)
    requires ReminderLinksValid(d) && x in d.reminders && IsRow(x, rid, uid) && n.userId == uid
    requires n.memoryId == x.memoryId || !PyTruthy(n.memoryId) ||
      exists m | m in d.memories :: LinkedId(n) == Some(m.id) && m.userId == uid
    ensures ReminderLinksValid(SaveReminder(d, rid, uid, n))
  {
    var after := SaveReminder(d, rid, uid, n);
    forall y | y in after.reminders && PyTruthy(y.memoryId)
      ensures exists m | m in after.memories :: LinkedId(y) == Some(m.id) && m.userId == y.userId
    {
      var i :| 0 <= i < |after.reminders| && after.reminders[i] == y;
      if !IsRow(d.reminders[i], rid, uid) {
        assert y == d.reminders[i];
      } else if n.memoryId == x.memoryId {
        assert y == n && LinkedId(n) == LinkedId(x) && PyTruthy(x.memoryId);
      }
    }
  }
}
