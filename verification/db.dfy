/**
 * The server's data as its route handlers see it. Users, memories and
 * reminders are sequences of records. A handler's reply is a status, a
 * message and the data after the request. This module also holds the Python
 * operations the handlers apply to a decoded request body, any of which may
 * raise.
 *
 * Every handler catches exceptions, rolls the session back and answers 500.
 * A handler that answers before committing leaves the data as it was, since
 * the uncommitted session is discarded at the end of the request.
 */
module Db {
  import opened Wrappers
  import opened Json
  import opened Text
  import Seqs
  import ReminderModel

  /** A Python computation: its value, or an exception. */
  datatype Py<T> = Ok(value: T) | Raised

  datatype Subscription = Free | Premium

  /** A user row; `passwordHash` is what the password hasher produced at registration or the last change. */
  datatype User = User(
    id: int,
    email: string,
    name: string,
    passwordHash: string,
    subscription: Subscription,
    isActive: bool)

  /** A memory row; `tags` is the stored JSON value and `createdAt` the creation instant. */
  datatype Memory = Memory(
    id: int,
    userId: int,
    title: string,
    content: string,
    memoryType: string,
    importance: int,
    tags: Value,
    createdAt: int)

  type Reminder = ReminderModel.Reminder

  datatype Data = Data(users: seq<User>, memories: seq<Memory>, reminders: seq<Reminder>)

  /** A handler's answer and the data after the request. */
  datatype Reply = Reply(status: int, message: string, data: Data)

  /** A handler's decision before it writes: answer at once, or go on with a value. */
  datatype Step<T> = Halt(status: int, message: string) | Go(value: T)

  /** An answer that leaves the data as it was. */
  function Answer(d: Data, status: int, message: string): (r: Reply)
    ensures r.data == d && r.status == status && r.message == message
  {
    Reply(status, message, d)
  }

  // ---------------------------------------------------------------------------
  // Python operations on a decoded request body

  /** `data.get(key, default)`: only a dictionary has `get`. */
  function PyGet(data: Value, key: string, default: Value): (r: Py<Value>)
    ensures r.Ok? <==> data.Obj?
    ensures data.Obj? && key in data.fields ==> r == Ok(data.fields[key])
    ensures data.Obj? && key !in data.fields ==> r == Ok(default)
  {
    match data
    case Obj(fields) => Ok(if key in fields then fields[key] else default)
    case _ => Raised
  }

  /**
   * `key in data`: a key of a dictionary, an element of a list, a substring
   * of a string; numbers and booleans do not support `in`.
   */
  function PyIn(data: Value, key: string): (r: Py<bool>)
    ensures data.Obj? ==> r == Ok(key in data.fields)
    ensures data.Arr? ==> r == Ok(Str(key) in data.items)
    ensures data.Str? ==> r == Ok(Contains(data.s, key))
    ensures r.Raised? <==> data.Null? || data.Bool? || data.Num?
  {
    match data
    case Obj(fields) => Ok(key in fields)
    case Arr(items) => Ok(Str(key) in items)
    case Str(s) => Ok(Contains(s, key))
    case _ => Raised
  }

  /** `data[key]`: only a dictionary holding the key yields a value. */
  function PyItem(data: Value, key: string): (r: Py<Value>)
    ensures r.Ok? <==> data.Obj? && key in data.fields
    ensures r.Ok? ==> r.value == data.fields[key]
  {
    if data.Obj? && key in data.fields then Ok(data.fields[key]) else Raised
  }

  /**
   * `if key in data: v = data[key]`: a body without `in` raises; a present key
   * that cannot be read (the body is a list or a string) raises; otherwise the
   * value, if the key is present.
   */
  function PyRead(body: Value, key: string): (r: Py<Option<Value>>)
    ensures body.Obj? ==> r == Ok(if key in body.fields then Some(body.fields[key]) else None)
    ensures r.Raised? ==> !body.Obj?
  {
    match PyIn(body, key)
    case Raised => Raised
    case Ok(false) => Ok(None)
    case Ok(true) => match PyItem(body, key) case Raised => Raised case Ok(v) => Ok(Some(v))
  }

  /** The key is absent or holds a string. */
  predicate TextOrAbsent(fields: map<string, Value>, key: string) {
    key in fields ==> fields[key].Str?
  }

  /** The string under the key, or "" when absent. */
  function TextOr(fields: map<string, Value>, key: string): string
    requires TextOrAbsent(fields, key)
  {
    if key in fields then fields[key].s else ""
  }

  /** `v.strip()`: only strings have `strip`. */
  function Strip(v: Py<Value>): (r: Py<string>)
    ensures r.Ok? <==> v.Ok? && v.value.Str?
    ensures r.Ok? ==> r.value == PyStrip(v.value.s)
  {
    if v.Ok? && v.value.Str? then Ok(PyStrip(v.value.s)) else Raised
  }

  /** `v.strip().lower()`. */
  function StripLower(v: Py<Value>): (r: Py<string>)
    ensures r.Ok? <==> v.Ok? && v.value.Str?
    ensures r.Ok? ==> r.value == AsciiLower(PyStrip(v.value.s))
  {
    if v.Ok? && v.value.Str? then Ok(AsciiLower(PyStrip(v.value.s))) else Raised
  }

  /** `data.get(key, '').strip()`: an absent key reads as "", a present one must hold a string. */
  function StripField(body: Value, key: string): (r: Py<string>)
    ensures r.Ok? <==> body.Obj? && TextOrAbsent(body.fields, key)
    ensures r.Ok? ==> r.value == PyStrip(TextOr(body.fields, key))
  {
    Strip(PyGet(body, key, Str("")))
  }

  /** `len(v)` on a decoded JSON value. */
  function PyLen(v: Value): (r: Py<nat>)
    ensures r.Ok? <==> v.Str? || v.Arr? || v.Obj?
    ensures v.Str? ==> r == Ok(|v.s|)
  {
    match v
    case Str(s) => Ok(|s|)
    case Arr(items) => Ok(|items|)
    case Obj(fields) => Ok(|fields|)
    case _ => Raised
  }

  // ---------------------------------------------------------------------------
  // Queries

  /** `User.query.get(id)`. */
  function FindUser(users: seq<User>, id: int): (r: Option<User>)
    ensures r.Some? ==> r.value in users && r.value.id == id
    ensures r.None? <==> forall u | u in users :: u.id != id
  {
    if users == [] then None
    else if users[0].id == id then Some(users[0])
    else FindUser(users[1..], id)
  }

  /** `User.query.filter_by(email=email).first()`. */
  function FindByEmail(users: seq<User>, email: string): (r: Option<User>)
    ensures r.Some? ==> r.value in users && r.value.email == email
    ensures r.None? <==> forall u | u in users :: u.email != email
  {
    if users == [] then None
    else if users[0].email == email then Some(users[0])
    else FindByEmail(users[1..], email)
  }

  /** `Memory.query.filter_by(id=id, user_id=uid).first()`. */
  function FindMemory(memories: seq<Memory>, id: int, uid: int): (r: Option<Memory>)
    ensures r.Some? ==> r.value in memories && r.value.id == id && r.value.userId == uid
    ensures r.None? <==> forall m | m in memories :: !(m.id == id && m.userId == uid)
  {
    if memories == [] then None
    else if memories[0].id == id && memories[0].userId == uid then Some(memories[0])
    else FindMemory(memories[1..], id, uid)
  }

  /** `Reminder.query.filter_by(id=id, user_id=uid).first()`. */
  function FindReminder(reminders: seq<Reminder>, id: int, uid: int): (r: Option<Reminder>)
    ensures r.Some? ==> r.value in reminders && r.value.id == id && r.value.userId == uid
    ensures r.None? <==> forall x | x in reminders :: !(x.id == id && x.userId == uid)
  {
    if reminders == [] then None
    else if reminders[0].id == id && reminders[0].userId == uid then Some(reminders[0])
    else FindReminder(reminders[1..], id, uid)
  }

  function UserMemories(d: Data, uid: int): seq<Memory> {
    Seqs.Filter(d.memories, (m: Memory) => m.userId == uid)
  }

  /** `Memory.query.filter_by(user_id=uid).count()`. */
  function MemoryCount(d: Data, uid: int): nat {
    |UserMemories(d, uid)|
  }

  function UserReminders(d: Data, uid: int): seq<Reminder> {
    Seqs.Filter(d.reminders, (r: Reminder) => r.userId == uid)
  }

  // ---------------------------------------------------------------------------
  // Row identifiers

  /** The identifier the database gives a new row: one more than the largest in the table. */
  function FreshId<T>(rows: seq<T>, id: T -> int): (n: int)
    ensures n >= 1
    ensures forall i | 0 <= i < |rows| :: id(rows[i]) < n
  {
    if rows == [] then 1
    else
      var rest := FreshId(rows[1..], id);
      assert forall i | 1 <= i < |rows| :: rows[i] == rows[1..][i - 1];
      if id(rows[0]) + 1 > rest then id(rows[0]) + 1 else rest
  }

  /** Replaces the rows `p` selects by `x`. */
  function ReplaceWhere<T>(rows: seq<T>, p: T -> bool, x: T): (r: seq<T>)
    ensures |r| == |rows|
    ensures forall i | 0 <= i < |rows| :: r[i] == (if p(rows[i]) then x else rows[i])
  {
    seq(|rows|, i requires 0 <= i < |rows| => if p(rows[i]) then x else rows[i])
  }

  /** The users table after saving `u` over the row with its identifier. */
  function SaveUser(d: Data, u: User): (r: Data)
    ensures r.memories == d.memories && r.reminders == d.reminders
    ensures |r.users| == |d.users|
    ensures forall i | 0 <= i < |d.users| :: r.users[i] == (if d.users[i].id == u.id then u else d.users[i])
  {
    d.(users := ReplaceWhere(d.users, (x: User) => x.id == u.id, u))
  }

  // ---------------------------------------------------------------------------
  // Invariants of the stored data

  /** No two users share an e-mail address (the column is unique). */
  predicate UniqueEmails(users: seq<User>) {
    forall i, j | 0 <= i < j < |users| :: users[i].email != users[j].email
  }

  /** No two users share an identifier (the primary key). */
  predicate UniqueUserIds(users: seq<User>) {
    forall i, j | 0 <= i < j < |users| :: users[i].id != users[j].id
  }

  /** Every memory belongs to an existing user. */
  predicate MemoryOwnersExist(d: Data) {
    forall m | m in d.memories :: exists u | u in d.users :: u.id == m.userId
  }

  /** The number of memories a free account may hold. */
  const FreeMemoryLimit := 100

  /** Every free account holds at most the free number of memories. */
  predicate FreeWithinLimit(d: Data) {
    forall u | u in d.users && u.subscription == Free :: MemoryCount(d, u.id) <= FreeMemoryLimit
  }

  /**
   * The memory a reminder's `memory_id` column designates: the stored value
   * read as an integer (a boolean is 0 or 1).
   */
  function LinkedId(r: Reminder): Option<int> {
    PyInt(r.memoryId)
  }

  /** Every reminder with a truthy `memory_id` designates a memory of the reminder's owner. */
  predicate ReminderLinksValid(d: Data) {
    forall r | r in d.reminders && PyTruthy(r.memoryId) ::
      exists m | m in d.memories :: LinkedId(r) == Some(m.id) && m.userId == r.userId
  }
}
