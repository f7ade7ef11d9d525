/**
 * The server's reminder record and its model methods: completing and
 * reopening, the overdue test, and the dictionary a reminder is serialised
 * to. Instants are integers (seconds); the clock is the parameter `now` and
 * the ISO rendering of an instant is the parameter `iso`.
 */
module ReminderModel {
  import opened Wrappers
  import opened Json

  /** The values of the reminder type enumeration, in declaration order. */
  const ReminderTypes: seq<string> := ["spaced_repetition", "deadline", "habit", "contextual"]

  /**
   * A stored reminder. `memoryId` holds the decoded request value it was
   * given (null when absent); `updatedAt` follows every change of the row.
   */
  datatype Reminder = Reminder(
    id: int,
    userId: int,
    title: string,
    description: string,
    reminderType: string,
    trigger: Option<int>,
    repeatPattern: Option<string>,
    isCompleted: bool,
    completedAt: Option<int>,
    memoryId: Value,
    createdAt: int,
    updatedAt: int)

  /** The completion state is consistent: a completion instant is recorded iff the reminder is completed. */
  predicate CompletionConsistent(r: Reminder) {
    r.completedAt.Some? <==> r.isCompleted
  }

  /** A reminder as first persisted: pending, never completed, both timestamps at `now`. */
  function New(
    id: int, userId: int, title: string, description: string, reminderType: string,
    trigger: Option<int>, repeatPattern: Option<string>, memoryId: Value, now: int): (r: Reminder)
    ensures CompletionConsistent(r) && !r.isCompleted
    ensures r.id == id && r.userId == userId && r.title == title && r.trigger == trigger
    ensures r.createdAt == now && r.updatedAt == now
    ensures r.description == description && r.reminderType == reminderType
    ensures r.repeatPattern == repeatPattern && r.memoryId == memoryId
  {
    Reminder(id, userId, title, description, reminderType, trigger, repeatPattern, false, None, memoryId, now, now)
  }

  /** A committed change: `updatedAt` moves to `now` only when some column actually changed. */
  function Touch(before: Reminder, after: Reminder, now: int): (r: Reminder)
    ensures after == before ==> r == before
    ensures after != before ==> r == after.(updatedAt := now)
  {
    if after == before then before else after.(updatedAt := now)
  }

  /** `mark_completed`. */
  function MarkCompleted(r: Reminder, now: int): (c: Reminder)
    ensures c.isCompleted && c.completedAt == Some(now)
    ensures CompletionConsistent(c)
    ensures c.(isCompleted := r.isCompleted, completedAt := r.completedAt, updatedAt := r.updatedAt) == r
  {
    Touch(r, r.(isCompleted := true, completedAt := Some(now)), now)
  }

  /** `mark_uncompleted`. */
  function MarkUncompleted(r: Reminder, now: int): (u: Reminder)
    ensures !u.isCompleted && u.completedAt.None?
    ensures CompletionConsistent(u)
    ensures u.(isCompleted := r.isCompleted, completedAt := r.completedAt, updatedAt := r.updatedAt) == r
  {
    Touch(r, r.(isCompleted := false, completedAt := None), now)
  }

  /** Completing a pending reminder and reopening it restores it, apart from the modification time. */
  lemma CompleteThenReopen(r: Reminder, t1: int, t2: int)
    requires CompletionConsistent(r) && !r.isCompleted
    ensures MarkUncompleted(MarkCompleted(r, t1), t2) == r.(updatedAt := t2)
  {
  }

  /** Reopening a pending reminder, or completing one again at the instant it was completed, changes nothing. */
  lemma MarkingIsIdempotent(r: Reminder, now: int)
    requires CompletionConsistent(r)
    ensures !r.isCompleted ==> MarkUncompleted(r, now) == r
    ensures r.completedAt == Some(now) ==> MarkCompleted(r, now) == r
  {
  }

  /** `is_overdue`: false without a trigger or once completed, otherwise whether `now` is strictly past the trigger. */
  predicate IsOverdue(r: Reminder, now: int) {
    if r.trigger.Some? && !r.isCompleted then now > r.trigger.value else false
  }

  /** The key set of `to_dict`. */
  const DictKeys: set<string> := {
    "id", "title", "description", "reminder_type", "trigger_date", "repeat_pattern", "is_completed",
    "created_at", "updated_at", "completed_at", "memory_id", "user_id", "is_overdue"}

  /** An optional instant as ISO text, or null. */
  function IsoOrNull(t: Option<int>, iso: int -> string): (v: Value)
    ensures v == Null <==> t.None?
    ensures t.Some? ==> v == Str(iso(t.value))
  {
    match t
    case Some(x) => Str(iso(x))
    case None => Null
  }

  /** `to_dict`. */
  function ToDict(r: Reminder, now: int, iso: int -> string): (d: Object)
    ensures d.Keys == DictKeys
    ensures d["trigger_date"] == Null <==> r.trigger.None?
    ensures d["completed_at"] == Null <==> r.completedAt.None?
    ensures d["repeat_pattern"] == Null <==> r.repeatPattern.None?
    ensures d["is_completed"] == Bool(r.isCompleted)
    ensures d["is_overdue"] == Bool(IsOverdue(r, now))
  {
    map[
      "id" := Num(r.id),
      "title" := Str(r.title),
      "description" := Str(r.description),
      "reminder_type" := Str(r.reminderType),
      "trigger_date" := IsoOrNull(r.trigger, iso),
      "repeat_pattern" := (match r.repeatPattern case Some(p) => Str(p) case None => Null),
      "is_completed" := Bool(r.isCompleted),
      "created_at" := Str(iso(r.createdAt)),
      "updated_at" := Str(iso(r.updatedAt)),
      "completed_at" := IsoOrNull(r.completedAt, iso),
      "memory_id" := r.memoryId,
      "user_id" := Num(r.userId),
      "is_overdue" := Bool(IsOverdue(r, now))]
  }

  /**
   * For a consistent reminder the serialised form agrees with itself: a null
   * `completed_at` exactly when `is_completed` is false, and never overdue
   * while completed or without a trigger.
   */
  lemma ToDictConsistent(r: Reminder, now: int, iso: int -> string)
    requires CompletionConsistent(r)
    ensures var d := ToDict(r, now, iso);
      && (d["completed_at"] == Null <==> d["is_completed"] == Bool(false))
      && (d["is_overdue"] == Bool(true) ==> d["is_completed"] == Bool(false) && d["trigger_date"] != Null)
  {
  }
}
