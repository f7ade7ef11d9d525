/**
 * The new-reminder form: field and checkbox edits, validation against the
 * current time, and the payload a valid form produces. The clock is the
 * parameter `now` and date-time parsing is the parameter `parse`, which
 * yields an instant or `None` for an invalid date.
 */
module AddReminderPage {
  import opened Wrappers
  import opened Text
  import opened FormRules
  import Seqs
  import Store

  /** Text fields by input name, and the selected notification methods in order. */
  datatype ReminderForm = ReminderForm(fields: map<string, string>, methods: seq<string>)

  function InitialForm(): ReminderForm {
    ReminderForm(
      map["title" := "", "description" := "", "trigger_date" := "", "trigger_time" := "",
          "frequency" := "once", "memory_id" := "", "advance_notice" := "15"],
      ["browser"])
  }

  function Field(f: ReminderForm, name: string): string {
    if name in f.fields then f.fields[name] else ""
  }

  // ---------------------------------------------------------------------------
  // Edits

  datatype ChangeEvent =
    | Checkbox(name: string, value: string, checked: bool)
    | Input(name: string, value: string)

  function EventName(e: ChangeEvent): string {
    match e
    case Checkbox(n, _, _) => n
    case Input(n, _) => n
  }

  /** The method list after a checkbox event: checking appends, unchecking removes every copy. */
  function ToggleMethod(methods: seq<string>, value: string, checked: bool): (r: seq<string>)
    ensures checked ==> r == methods + [value]
    ensures !checked ==> value !in r && Seqs.IsSubsequence(r, methods)
    ensures !checked ==> forall m | m in methods && m != value :: m in r
    ensures !checked ==> forall m {:trigger multiset(r)[m]} :: multiset(r)[m] == if m != value then multiset(methods)[m] else 0
  {
    if checked then methods + [value] else Seqs.Filter(methods, m => m != value)
  }

  /** `handleChange`: only the event's field changes, and only its error is cleared. */
  function Change(f: ReminderForm, errors: FieldErrors, e: ChangeEvent): (r: (ReminderForm, FieldErrors))
    ensures r.1 == ClearFieldError(errors, EventName(e))
    ensures e.Input? ==> r.0 == f.(fields := f.fields[e.name := e.value])
    ensures e.Checkbox? && e.name == "notification_methods" ==>
      r.0 == f.(methods := ToggleMethod(f.methods, e.value, e.checked))
    ensures e.Checkbox? && e.name != "notification_methods" ==> r.0 == f
  {
    var g := match e
      case Checkbox(name, value, checked) =>
        if name == "notification_methods" then f.(methods := ToggleMethod(f.methods, value, checked)) else f
      case Input(name, value) => f.(fields := f.fields[name := value]);
    (g, ClearFieldError(errors, EventName(e)))
  }

  /** Checking a method that was not selected and unchecking it again restores the selection. */
  lemma CheckThenUncheck(methods: seq<string>, value: string)
    requires value !in methods
    ensures ToggleMethod(ToggleMethod(methods, value, true), value, false) == methods
  {
    var keep := (m: string) => m != value;
    Seqs.FilterAppend(methods, [value], keep);
    Seqs.FilterKeepsAll(methods, keep);
  }

  // ---------------------------------------------------------------------------
  // Validation

  /** The text the form hands to the date parser: `${date}T${time || '12:00'}`. */
  function DateTimeText(date: string, time: string): string {
    date + "T" + (if time == "" then "12:00" else time)
  }

  /**
   * The date rule: required, and in the future. An unparseable date compares
   * false with `now` (`NaN <= now`), so it draws no error here.
   */
  function DateError(date: string, time: string, now: int, parse: string -> Option<int>): (e: Option<string>)
    ensures e == Some("Date is required") <==> date == ""
    ensures e == Some("Date must be in the future") <==>
      date != "" && parse(DateTimeText(date, time)).Some? && parse(DateTimeText(date, time)).value <= now
    ensures e.None? <==>
      date != "" && (parse(DateTimeText(date, time)).None? || parse(DateTimeText(date, time)).value > now)
  {
    if date == "" then Some("Date is required")
    else
      var at := parse(DateTimeText(date, time));
      if at.Some? && at.value <= now then Some("Date must be in the future") else None
  }

  /** `validateForm`'s error object. */
  function ValidateReminder(f: ReminderForm, now: int, parse: string -> Option<int>): (errs: FieldErrors)
    ensures errs.Keys <= {"title", "trigger_date", "trigger_time", "notification_methods"}
    ensures "title" in errs <==> TitleError(Field(f, "title")).Some?
    ensures "trigger_date" in errs <==> DateError(Field(f, "trigger_date"), Field(f, "trigger_time"), now, parse).Some?
    ensures "trigger_time" in errs <==> Field(f, "trigger_time") == ""
    ensures "notification_methods" in errs <==> f.methods == []
    ensures "title" in errs ==> Some(errs["title"]) == TitleError(Field(f, "title"))
    ensures "trigger_date" in errs ==> Some(errs["trigger_date"]) == DateError(Field(f, "trigger_date"), Field(f, "trigger_time"), now, parse)
    ensures "trigger_time" in errs ==> errs["trigger_time"] == "Time is required"
    ensures "notification_methods" in errs ==> errs["notification_methods"] == "Select at least one notification method"
  {
    var e := Put(map[], "title", TitleError(Field(f, "title")));
    var e := Put(e, "trigger_date", DateError(Field(f, "trigger_date"), Field(f, "trigger_time"), now, parse));
    var e := Put(e, "trigger_time", if Field(f, "trigger_time") == "" then Some("Time is required") else None);
    Put(e, "notification_methods", if f.methods == [] then Some("Select at least one notification method") else None)
  }

  /** The form is valid iff title, date, time and at least one method pass their rules. */
  lemma ReminderFormAcceptance(f: ReminderForm, now: int, parse: string -> Option<int>)
    ensures ValidateReminder(f, now, parse) == map[] <==>
      && |JsTrim(Field(f, "title"))| >= 3
      && DateError(Field(f, "trigger_date"), Field(f, "trigger_time"), now, parse).None?
      && Field(f, "trigger_time") != ""
      && f.methods != []
  {
    var errs := ValidateReminder(f, now, parse);
    if errs != map[] {
      var k :| k in errs;
    }
  }

  // ---------------------------------------------------------------------------
  // Payload and submission

  /** The reminder payload; the trigger is the parsed instant, `memoryId` is null for "". */
  datatype ReminderPayload = ReminderPayload(
    title: string,
    description: string,
    trigger: int,
    frequency: string,
    memoryId: Option<string>,
    notificationMethods: seq<string>,
    advanceNotice: Option<int>)

  /** The message `toISOString` raises on an invalid date. */
  const InvalidTimeValue := "Invalid time value"

  /** Building the payload: fails exactly when the date and time do not parse. */
  function Payload(f: ReminderForm, parse: string -> Option<int>): (r: Result)
    ensures r.Failed? <==> parse(Field(f, "trigger_date") + "T" + Field(f, "trigger_time")).None?
    ensures r.Failed? ==> r.message == InvalidTimeValue
    ensures r.Built? ==> (r.payload.memoryId.None? <==> Field(f, "memory_id") == "")
    ensures r.Built? ==> r.payload.memoryId.Some? ==> r.payload.memoryId.value == Field(f, "memory_id")
    ensures r.Built? ==>
      && r.payload.title == JsTrim(Field(f, "title"))
      && r.payload.description == JsTrim(Field(f, "description"))
      && r.payload.notificationMethods == f.methods
      && r.payload.advanceNotice == ParseInt(Field(f, "advance_notice"))
    ensures r.Built? ==>
      && Some(r.payload.trigger) == parse(Field(f, "trigger_date") + "T" + Field(f, "trigger_time"))
      && r.payload.frequency == Field(f, "frequency")
  {
    match parse(Field(f, "trigger_date") + "T" + Field(f, "trigger_time"))
    case None => Failed(InvalidTimeValue)
    case Some(at) =>
      var mid := Field(f, "memory_id");
      Built(ReminderPayload(
        JsTrim(Field(f, "title")),
        JsTrim(Field(f, "description")),
        at,
        Field(f, "frequency"),
        if mid == "" then None else Some(mid),
        f.methods,
        ParseInt(Field(f, "advance_notice"))))
  }

  datatype Result = Built(payload: ReminderPayload) | Failed(message: string)

  /** The payload of a valid form that parses lies strictly after `now`. */
  lemma ValidPayloadIsFuture(f: ReminderForm, now: int, parse: string -> Option<int>)
    requires ValidateReminder(f, now, parse) == map[]
    requires Payload(f, parse).Built?
    ensures Payload(f, parse).payload.trigger > now
    ensures |Payload(f, parse).payload.title| >= 3 && Payload(f, parse).payload.notificationMethods != []
  {
    ReminderFormAcceptance(f, now, parse);
    assert DateTimeText(Field(f, "trigger_date"), Field(f, "trigger_time"))
        == Field(f, "trigger_date") + "T" + Field(f, "trigger_time");
  }

  const CreatedMessage := "Reminder created successfully! \U{1F514}"

  /** The dispatches of a submission: none for an invalid form, otherwise a cleared error then one outcome. */
  function SubmitActions(f: ReminderForm, now: int, parse: string -> Option<int>): (acts: seq<Store.Action>)
    ensures ValidateReminder(f, now, parse) != map[] ==> acts == []
    ensures ValidateReminder(f, now, parse) == map[] ==>
      && |acts| == 2 && acts[0] == Store.ClearError
      && (acts[1] == Store.SetSuccess(CreatedMessage) <==> Payload(f, parse).Built?)
      && (Payload(f, parse).Failed? ==> acts[1] == Store.SetError(InvalidTimeValue))
  {
    if ValidateReminder(f, now, parse) != map[] then []
    else
      match Payload(f, parse)
      case Built(_) => [Store.ClearError, Store.SetSuccess(CreatedMessage)]
      case Failed(m) => [Store.ClearError, Store.SetError(m)]
  }

  /** Where a submission leads: to the reminders list exactly when it dispatched the success message. */
  function SubmitTarget(f: ReminderForm, now: int, parse: string -> Option<int>): (path: Option<string>)
    ensures path.Some? ==> path.value == "/reminders"
    ensures path.Some? <==> Store.SetSuccess(CreatedMessage) in SubmitActions(f, now, parse)
  {
    if ValidateReminder(f, now, parse) == map[] && Payload(f, parse).Built? then Some("/reminders") else None
  }
}
