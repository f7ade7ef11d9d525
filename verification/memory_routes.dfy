/**
 * The memory handlers of the server: the filtered list, creation with its
 * normalisation and the free-tier limit, partial update, deletion and the
 * counts by type and by importance level.
 *
 * The memory-type enumeration is the parameter `types` (its values in
 * declaration order). The database's substring test is the parameter `like`
 * and the text a stored tag list is compared as is the parameter `tagsText`.
 */
module MemoryRoutes {
  import opened Wrappers
  import opened Json
  import opened Text
  import opened Db
  import Seqs
  import ReminderModel

  const NoData := "No data provided"
  const NotFound := "Memory not found"
  const LimitReached := "Memory limit reached. Upgrade to Premium for unlimited memories."
  const TitleRequired := "Title is required"
  const TitleEmpty := "Title cannot be empty"
  const CreateFailed := "Failed to create memory"
  const UpdateFailed := "Failed to update memory"

  /** What every stored memory satisfies: a type of the enumeration and a level from 1 to 5. */
  predicate WellFormed(m: Memory, types: seq<string>) {
    m.memoryType in types && 1 <= m.importance <= 5
  }

  predicate AllWellFormed(d: Data, types: seq<string>) {
    forall m | m in d.memories :: WellFormed(m, types)
  }

  // ---------------------------------------------------------------------------
  // Listing

  /** The list's query: `importance` is absent when missing or not an integer. */
  datatype Query = Query(search: string, memoryType: string, importance: Option<int>)

  /** The level filter as `if importance:` reads it: absent and 0 both mean no filter. */
  function Level(q: Query): int {
    q.importance.GetOr(0)
  }

  predicate MatchesSearch(m: Memory, search: string, like: (string, string) -> bool, tagsText: Value -> string) {
    like(m.title, search) || like(m.content, search) || like(tagsText(m.tags), search)
  }

  /**
   * The rule a memory is listed by: it is the caller's; it matches a
   * non-empty search; it has the type asked for when that is a value of the
   * enumeration; it has the level asked for when that is non-zero.
   */
  predicate Listed(m: Memory, uid: int, q: Query, types: seq<string>, like: (string, string) -> bool, tagsText: Value -> string) {
    && m.userId == uid
    && (q.search == "" || MatchesSearch(m, q.search, like, tagsText))
    && (q.memoryType == "" || q.memoryType !in types || m.memoryType == q.memoryType)
    && (Level(q) == 0 || m.importance == Level(q))
  }

  /** The caller's memories that match a non-empty search. */
  predicate Listed1(m: Memory, uid: int, q: Query, like: (string, string) -> bool, tagsText: Value -> string) {
    m.userId == uid && (q.search == "" || MatchesSearch(m, q.search, like, tagsText))
  }

  /** `Listed1`, and of the type asked for when that is a value of the enumeration. */
  predicate Listed2(m: Memory, uid: int, q: Query, types: seq<string>, like: (string, string) -> bool, tagsText: Value -> string) {
    Listed1(m, uid, q, like, tagsText) && (q.memoryType == "" || q.memoryType !in types || m.memoryType == q.memoryType)
  }

  function BySearch(ms: seq<Memory>, q: Query, like: (string, string) -> bool, tagsText: Value -> string): seq<Memory> {
    if q.search != "" then Seqs.Filter(ms, (m: Memory) => MatchesSearch(m, q.search, like, tagsText)) else ms
  }

  function ByType(ms: seq<Memory>, q: Query, types: seq<string>): seq<Memory> {
    if q.memoryType != "" && q.memoryType in types then Seqs.Filter(ms, (m: Memory) => m.memoryType == q.memoryType) else ms
  }

  function ByLevel(ms: seq<Memory>, q: Query): seq<Memory> {
    if Level(q) != 0 then Seqs.Filter(ms, (m: Memory) => m.importance == Level(q)) else ms
  }

  /** The query as the handler builds it: one filter after another, each only when its parameter asks for it. */
  function Stages(d: Data, uid: int, q: Query, types: seq<string>, like: (string, string) -> bool, tagsText: Value -> string): seq<Memory> {
    ByLevel(ByType(BySearch(UserMemories(d, uid), q, like, tagsText), q, types), q)
  }

  lemma SearchStage(d: Data, uid: int, q: Query, like: (string, string) -> bool, tagsText: Value -> string)
    ensures BySearch(UserMemories(d, uid), q, like, tagsText) == Seqs.Filter(d.memories, (m: Memory) => Listed1(m, uid, q, like, tagsText))
  {
    var c1 := (m: Memory) => q.search == "" || MatchesSearch(m, q.search, like, tagsText);
    Seqs.ConditionalFilter(UserMemories(d, uid), q.search != "", (m: Memory) => MatchesSearch(m, q.search, like, tagsText), c1);
    Seqs.FilterCompose(d.memories, (m: Memory) => m.userId == uid, c1, (m: Memory) => Listed1(m, uid, q, like, tagsText));
  }

  lemma TypeStage(d: Data, uid: int, q: Query, types: seq<string>, like: (string, string) -> bool, tagsText: Value -> string)
    ensures ByType(BySearch(UserMemories(d, uid), q, like, tagsText), q, types)
      == Seqs.Filter(d.memories, (m: Memory) => Listed2(m, uid, q, types, like, tagsText))
  {
    var p1 := (m: Memory) => Listed1(m, uid, q, like, tagsText);
    var c2 := (m: Memory) => q.memoryType == "" || q.memoryType !in types || m.memoryType == q.memoryType;
    SearchStage(d, uid, q, like, tagsText);
    Seqs.ConditionalFilter(Seqs.Filter(d.memories, p1), q.memoryType != "" && q.memoryType in types, (m: Memory) => m.memoryType == q.memoryType, c2);
    Seqs.FilterCompose(d.memories, p1, c2, (m: Memory) => Listed2(m, uid, q, types, like, tagsText));
  }

  /** The staged query is a single filter by the conjunctive rule. */
  lemma StagesAreOneFilter(d: Data, uid: int, q: Query, types: seq<string>, like: (string, string) -> bool, tagsText: Value -> string)
    ensures Stages(d, uid, q, types, like, tagsText) == Seqs.Filter(d.memories, (m: Memory) => Listed(m, uid, q, types, like, tagsText))
  {
    var p2 := (m: Memory) => Listed2(m, uid, q, types, like, tagsText);
    var c3 := (m: Memory) => Level(q) == 0 || m.importance == Level(q);
    TypeStage(d, uid, q, types, like, tagsText);
    Seqs.ConditionalFilter(Seqs.Filter(d.memories, p2), Level(q) != 0, (m: Memory) => m.importance == Level(q), c3);
    Seqs.FilterCompose(d.memories, p2, c3, (m: Memory) => Listed(m, uid, q, types, like, tagsText));
  }

  /** Newest first: descending creation instants, same memories. */
  function NewestFirst(ms: seq<Memory>): (r: seq<Memory>)
    ensures multiset(r) == multiset(ms)
    ensures forall i, j | 0 <= i < j < |r| :: r[i].createdAt >= r[j].createdAt
  {
    var r := Seqs.SortBy(ms, (m: Memory) => -m.createdAt);
    assert Seqs.SortedBy(r, (m: Memory) => -m.createdAt);
    r
  }

  /** `get_memories` before pagination: exactly the listed memories, newest first. */
  function ListMemories(d: Data, uid: int, q: Query, types: seq<string>, like: (string, string) -> bool, tagsText: Value -> string): (r: seq<Memory>)
    ensures multiset(r) == multiset(Seqs.Filter(d.memories, (m: Memory) => Listed(m, uid, q, types, like, tagsText)))
    ensures forall m :: m in r <==> m in d.memories && Listed(m, uid, q, types, like, tagsText)
    ensures forall i, j | 0 <= i < j < |r| :: r[i].createdAt >= r[j].createdAt
  {
    StagesAreOneFilter(d, uid, q, types, like, tagsText);
    var all := Seqs.Filter(d.memories, (m: Memory) => Listed(m, uid, q, types, like, tagsText));
    var r := NewestFirst(Stages(d, uid, q, types, like, tagsText));
    Seqs.SameMembers(r, all);
    Seqs.FilterMembers(d.memories, (m: Memory) => Listed(m, uid, q, types, like, tagsText));
    r
  }

  /** An empty query lists every memory of the caller, and no one else's. */
  lemma EmptyQueryListsOwn(d: Data, uid: int, types: seq<string>, like: (string, string) -> bool, tagsText: Value -> string)
    ensures multiset(ListMemories(d, uid, Query("", "", None), types, like, tagsText)) == multiset(UserMemories(d, uid))
  {
    Seqs.FilterExt(d.memories, (m: Memory) => Listed(m, uid, Query("", "", None), types, like, tagsText), (m: Memory) => m.userId == uid);
  }

  // ---------------------------------------------------------------------------
  // Counts

  const Levels: seq<int> := [1, 2, 3, 4, 5]

  /** The figures of `get_memory_stats`: the total, one count per type (in `types` order) and one per level 1 to 5. */
  datatype Stats = Stats(total: nat, typeCounts: seq<nat>, importanceCounts: seq<nat>)

  function TypeOf(m: Memory): string { m.memoryType }
  function LevelOf(m: Memory): int { m.importance }

  function GetStats(d: Data, uid: int, types: seq<string>): (s: Stats)
    ensures s.total == MemoryCount(d, uid)
    ensures |s.typeCounts| == |types| && |s.importanceCounts| == |Levels|
    ensures forall i | 0 <= i < |types| :: s.typeCounts[i] == |Seqs.Filter(UserMemories(d, uid), Seqs.KeyIs(TypeOf, types[i]))|
    ensures forall i | 0 <= i < |Levels| :: s.importanceCounts[i] == |Seqs.Filter(UserMemories(d, uid), Seqs.KeyIs(LevelOf, Levels[i]))|
  {
    var own := UserMemories(d, uid);
    Stats(|own|, Seqs.Counts(own, types, TypeOf), Seqs.Counts(own, Levels, LevelOf))
  }

  /** Over well-formed data, the per-type counts and the per-level counts each add up to the total. */
  lemma StatsAddUp(d: Data, uid: int, types: seq<string>)
    requires Seqs.Distinct(types)
    requires AllWellFormed(d, types)
    ensures var s := GetStats(d, uid, types);
      Seqs.Sum(s.typeCounts) == s.total && Seqs.Sum(s.importanceCounts) == s.total
  {
    var own := UserMemories(d, uid);
    OwnWellFormed(d, uid, types);
    Seqs.CountsCover(own, types, TypeOf);
    LevelsCover(own);
  }

  /** The caller's memories are well formed when all are. */
  lemma OwnWellFormed(d: Data, uid: int, types: seq<string>)
    requires AllWellFormed(d, types)
    ensures forall m | m in UserMemories(d, uid) :: WellFormed(m, types)
  {
  }

  /** The levels 1 to 5 cover every memory with a level in range, each once. */
  lemma LevelsCover(ms: seq<Memory>)
    requires forall m | m in ms :: 1 <= m.importance <= 5
    ensures Seqs.Sum(Seqs.Counts(ms, Levels, LevelOf)) == |ms|
  {
    LevelsDistinct();
    forall m | m in ms ensures LevelOf(m) in Levels {
      InLevels(m.importance);
    }
    Seqs.CountsCover(ms, Levels, LevelOf);
  }

  lemma LevelsDistinct()
    ensures Seqs.Distinct(Levels)
  {
  }

  lemma InLevels(n: int)
    requires 1 <= n <= 5
    ensures n in Levels
  {
    assert Levels[n - 1] == n;
  }

  // ---------------------------------------------------------------------------
  // Creation

  /** `isinstance(v, int) and 1 <= v <= 5`, else 1. */
  function CreateImportance(v: Value): (n: int)
    ensures 1 <= n <= 5
    ensures PyInt(v).Some? && 1 <= PyInt(v).value <= 5 ==> n == PyInt(v).value
  {
    match PyInt(v)
    case Some(k) => if 1 <= k <= 5 then k else 1
    case None => 1
  }

  /** A value of the enumeration, else "note". */
  function CreateType(v: Value, types: seq<string>): (t: string)
    ensures v.Str? && v.s in types ==> t == v.s
    ensures !(v.Str? && v.s in types) ==> t == "note"
  {
    if v.Str? && v.s in types then v.s else "note"
  }

  /** The fields `create_memory` reads, with their defaults. */
  datatype Fields = Fields(title: string, content: string, memoryType: Value, tags: Value, importance: Value)

  function CreateFields(body: Value): (f: Py<Fields>)
    ensures f.Ok? <==> body.Obj? && TextOrAbsent(body.fields, "title") && TextOrAbsent(body.fields, "content")
    ensures f.Ok? ==> f.value.title == PyStrip(TextOr(body.fields, "title")) && f.value.content == PyStrip(TextOr(body.fields, "content"))
  {
    var title := Strip(PyGet(body, "title", Str("")));
    var content := Strip(PyGet(body, "content", Str("")));
    if title.Raised? || content.Raised? then Raised
    else
      Ok(Fields(
        title.value, content.value,
        PyGet(body, "memory_type", Str("note")).value,
        PyGet(body, "tags", Arr([])).value,
        PyGet(body, "importance_level", Num(1)).value))
  }

  /** The free-tier refusal: a free account that already holds the limit. */
  predicate AtFreeLimit(d: Data, uid: int) {
    FindUser(d.users, uid).Some? && FindUser(d.users, uid).value.subscription == Free && MemoryCount(d, uid) >= FreeMemoryLimit
  }

  /** The memory `create_memory` stores for fields `f`. */
  function NewMemory(d: Data, uid: int, f: Fields, types: seq<string>, now: int): Memory {
    Memory(
      FreshId(d.memories, (m: Memory) => m.id), uid, f.title, f.content, CreateType(f.memoryType, types),
      CreateImportance(f.importance), if PyTruthy(f.tags) then f.tags else Arr([]), now)
  }

  /** The decision of `create_memory`, in the handler's order. */
  function CreateChecks(d: Data, uid: int, body: Value, types: seq<string>, now: int): (s: Step<Memory>)
    ensures s.Halt? ==> s.status in {400, 403, 500}
    ensures (s.Halt? && s.status == 403) <==> AtFreeLimit(d, uid)
    ensures s.Go? <==>
      && FindUser(d.users, uid).Some? && !AtFreeLimit(d, uid) && PyTruthy(body)
      && CreateFields(body).Ok? && CreateFields(body).value.title != ""
      && CreateType(CreateFields(body).value.memoryType, types) in types
    ensures s.Go? ==> s.value == NewMemory(d, uid, CreateFields(body).value, types, now)
    ensures s == Halt(400, NoData) <==> FindUser(d.users, uid).Some? && !AtFreeLimit(d, uid) && !PyTruthy(body)
    ensures s == Halt(400, TitleRequired) <==>
      && FindUser(d.users, uid).Some? && !AtFreeLimit(d, uid) && PyTruthy(body)
      && CreateFields(body).Ok? && CreateFields(body).value.title == ""
    ensures s.Halt? && s.status == 400 ==> s.message in {NoData, TitleRequired}
  {
    match FindUser(d.users, uid)
    case None => Halt(500, CreateFailed)
    case Some(u) =>
      if u.subscription == Free && MemoryCount(d, uid) >= FreeMemoryLimit then Halt(403, LimitReached)
      else if !PyTruthy(body) then Halt(400, NoData)
      else match CreateFields(body)
        case Raised => Halt(500, CreateFailed)
        case Ok(f) =>
          if f.title == "" then Halt(400, TitleRequired)
          else if CreateType(f.memoryType, types) !in types then Halt(500, CreateFailed)
          else Go(NewMemory(d, uid, f, types, now))
  }

  /** The stored memory: the caller's, created now, with an identifier above every existing one, a level from 1 to 5 and a truthy tag value or the empty list. */
  lemma NewMemoryShape(d: Data, uid: int, f: Fields, types: seq<string>, now: int)
    ensures var m := NewMemory(d, uid, f, types, now);
      && m.userId == uid && m.createdAt == now && m.title == f.title
      && (forall x | x in d.memories :: x.id < m.id)
      && 1 <= m.importance <= 5
      && (PyTruthy(m.tags) || m.tags == Arr([]))
  {
    var m := NewMemory(d, uid, f, types, now);
    forall x | x in d.memories ensures x.id < m.id {
      var i :| 0 <= i < |d.memories| && d.memories[i] == x;
    }
  }

  /** What a created memory is: the caller's, with a fresh identifier, a stripped non-empty title, a type of the enumeration and a level from 1 to 5. */
  lemma CreatedMemoryShape(d: Data, uid: int, body: Value, types: seq<string>, now: int)
    requires CreateChecks(d, uid, body, types, now).Go?
    ensures var m := CreateChecks(d, uid, body, types, now).value;
      && m.userId == uid && m.createdAt == now
      && (forall x | x in d.memories :: x.id < m.id)
      && m.title != "" && m.title == PyStrip(m.title)
      && WellFormed(m, types)
      && (PyTruthy(m.tags) || m.tags == Arr([]))
  {
    var f := CreateFields(body).value;
    var m := CreateChecks(d, uid, body, types, now).value;
    assert m == NewMemory(d, uid, f, types, now);
    NewMemoryShape(d, uid, f, types, now);
    assert f.title == PyStrip(TextOr(body.fields, "title"));
    PyStripIdempotent(TextOr(body.fields, "title"));
    assert m.memoryType in types;
  }

  /** `create_memory`: 201 appends the new memory; every other answer leaves the data as it was. */
  function CreateMemory(d: Data, uid: int, body: Value, types: seq<string>, now: int): (r: Reply)
    ensures r.status != 201 ==> r.data == d
    ensures r.status == 201 <==> CreateChecks(d, uid, body, types, now).Go?
    ensures r.status == 201 ==> r.data == d.(memories := d.memories + [CreateChecks(d, uid, body, types, now).value])
    ensures r.status == 403 <==> AtFreeLimit(d, uid)
    ensures r.status == 400 && r.message == NoData <==>
      FindUser(d.users, uid).Some? && !AtFreeLimit(d, uid) && !PyTruthy(body)
    ensures r.status == 400 && r.message == TitleRequired <==>
      && FindUser(d.users, uid).Some? && !AtFreeLimit(d, uid) && PyTruthy(body)
      && CreateFields(body).Ok? && CreateFields(body).value.title == ""
  {
    match CreateChecks(d, uid, body, types, now)
    case Halt(status, message) => Answer(d, status, message)
    case Go(m) => Reply(201, "Memory created successfully", d.(memories := d.memories + [m]))
  }

  /** A premium account is never refused for its number of memories. */
  lemma PremiumNeverLimited(d: Data, uid: int, body: Value, types: seq<string>, now: int)
    requires FindUser(d.users, uid).Some? && FindUser(d.users, uid).value.subscription == Premium
    ensures CreateMemory(d, uid, body, types, now).status != 403
  {
  }

  /** Appending a memory of `uid` adds one to that user's count and nothing to anyone else's. */
  lemma {:induction false} AppendMemoryCount(d: Data, m: Memory, uid: int)
    ensures MemoryCount(d.(memories := d.memories + [m]), uid) == MemoryCount(d, uid) + (if m.userId == uid then 1 else 0)
  {
    Seqs.FilterAppend(d.memories, [m], (x: Memory) => x.userId == uid);
  }

  /** Two records in a table with unique identifiers that share an identifier are the same record. */
  lemma SameIdSameUser(users: seq<User>, a: User, b: User)
    requires UniqueUserIds(users) && a in users && b in users && a.id == b.id
    ensures a == b
  {
    var i :| 0 <= i < |users| && users[i] == a;
    var j :| 0 <= j < |users| && users[j] == b;
    assert !(i < j) && !(j < i);
  }

  /** Creation keeps every free account within the limit, and every memory well formed. */
  lemma CreateKeepsInvariants(d: Data, uid: int, body: Value, types: seq<string>, now: int)
    requires UniqueUserIds(d.users) && FreeWithinLimit(d) && AllWellFormed(d, types)
    ensures FreeWithinLimit(CreateMemory(d, uid, body, types, now).data)
    ensures AllWellFormed(CreateMemory(d, uid, body, types, now).data, types)
  {
    var s := CreateChecks(d, uid, body, types, now);
    if s.Go? {
      var m := s.value;
      var d' := d.(memories := d.memories + [m]);
      CreatedMemoryShape(d, uid, body, types, now);
      forall u | u in d'.users && u.subscription == Free ensures MemoryCount(d', u.id) <= FreeMemoryLimit {
        AppendMemoryCount(d, m, u.id);
        if u.id == uid {
          SameIdSameUser(d.users, u, FindUser(d.users, uid).value);
        }
      }
    }
  }

  // ---------------------------------------------------------------------------
  // Update

  /** The title edit: stripped, refused when empty. */
  function EditTitle(m: Memory, body: Value): (s: Step<Memory>)
    ensures s.Go? ==> s.value == m || s.value == m.(title := s.value.title)
    ensures s.Go? ==> s.value.title != "" || s.value.title == m.title
  {
    match PyRead(body, "title")
    case Raised => Halt(500, UpdateFailed)
    case Ok(None) => Go(m)
    case Ok(Some(v)) =>
      match Strip(Ok(v))
      case Raised => Halt(500, UpdateFailed)
      case Ok(t) => if t == "" then Halt(400, TitleEmpty) else Go(m.(title := t))
  }

  function EditContent(m: Memory, body: Value): (s: Step<Memory>)
    ensures s.Go? ==> s.value == m.(content := s.value.content)
  {
    match PyRead(body, "content")
    case Raised => Halt(500, UpdateFailed)
    case Ok(None) => Go(m)
    case Ok(Some(v)) =>
      match Strip(Ok(v))
      case Raised => Halt(500, UpdateFailed)
      case Ok(c) => Go(m.(content := c))
  }

  /** A value of the enumeration replaces the type; anything else is ignored. */
  function EditType(m: Memory, body: Value, types: seq<string>): (s: Step<Memory>)
    ensures s.Go? ==> s.value == m.(memoryType := s.value.memoryType)
    ensures s.Go? ==> s.value.memoryType == m.memoryType || s.value.memoryType in types
  {
    match PyRead(body, "memory_type")
    case Raised => Halt(500, UpdateFailed)
    case Ok(None) => Go(m)
    case Ok(Some(v)) => Go(if v.Str? && v.s in types then m.(memoryType := v.s) else m)
  }

  function EditTags(m: Memory, body: Value): (s: Step<Memory>)
    ensures s.Go? ==> s.value == m.(tags := s.value.tags)
  {
    match PyRead(body, "tags")
    case Raised => Halt(500, UpdateFailed)
    case Ok(None) => Go(m)
    case Ok(Some(v)) => Go(m.(tags := v))
  }

  /** An integer from 1 to 5 replaces the level; anything else is ignored. */
  function EditImportance(m: Memory, body: Value): (s: Step<Memory>)
    ensures s.Go? ==> s.value == m.(importance := s.value.importance)
    ensures s.Go? ==> s.value.importance == m.importance || 1 <= s.value.importance <= 5
  {
    match PyRead(body, "importance_level")
    case Raised => Halt(500, UpdateFailed)
    case Ok(None) => Go(m)
    case Ok(Some(v)) =>
      match PyInt(v)
      case Some(k) => Go(if 1 <= k <= 5 then m.(importance := k) else m)
      case None => Go(m)
  }

  /** The edits of `update_memory`, in the handler's order; the first refusal or exception stops them. */
  function UpdateEdits(m: Memory, body: Value, types: seq<string>): (s: Step<Memory>)
    ensures s.Halt? ==> s.status in {400, 500}
    ensures s.Halt? ==> s == Halt(400, TitleEmpty) || s == Halt(500, UpdateFailed)
  {
    match EditTitle(m, body)
    case Halt(st, msg) => Halt(st, msg)
    case Go(m1) =>
      match EditContent(m1, body)
      case Halt(st, msg) => Halt(st, msg)
      case Go(m2) =>
        match EditType(m2, body, types)
        case Halt(st, msg) => Halt(st, msg)
        case Go(m3) =>
          match EditTags(m3, body)
          case Halt(st, msg) => Halt(st, msg)
          case Go(m4) => EditImportance(m4, body)
  }

  /**
   * For a dictionary body, an accepted update sets exactly the keys present:
   * a present title is stripped and non-empty, a present content is stripped,
   * a present type or level is taken when valid and ignored otherwise, present
   * tags are taken as sent; an absent key keeps the stored value; the
   * identifier, owner and creation instant never change.
   */
  lemma UpdateSetsPresentKeys(m: Memory, body: Value, types: seq<string>)
    requires body.Obj? && UpdateEdits(m, body, types).Go?
    ensures var n := UpdateEdits(m, body, types).value; var f := body.fields;
      && n.id == m.id && n.userId == m.userId && n.createdAt == m.createdAt
      && ("title" !in f ==> n.title == m.title)
      && ("title" in f ==> f["title"].Str? && n.title == PyStrip(f["title"].s) != "")
      && ("content" !in f ==> n.content == m.content)
      && ("content" in f ==> f["content"].Str? && n.content == PyStrip(f["content"].s))
      && (n.memoryType == (if "memory_type" in f && f["memory_type"].Str? && f["memory_type"].s in types then f["memory_type"].s else m.memoryType))
      && (n.tags == (if "tags" in f then f["tags"] else m.tags))
      && (n.importance == (if "importance_level" in f && PyInt(f["importance_level"]).Some? && 1 <= PyInt(f["importance_level"]).value <= 5
                           then PyInt(f["importance_level"]).value else m.importance))
  {
    var m1 := EditTitle(m, body).value;
    var m2 := EditContent(m1, body).value;
    var m3 := EditType(m2, body, types).value;
    var m4 := EditTags(m3, body).value;
    assert UpdateEdits(m, body, types) == EditImportance(m4, body);
  }

  /** An empty title is refused whatever else the body holds. */
  lemma EmptyTitleRefused(m: Memory, fields: map<string, Value>, t: string, types: seq<string>)
    requires "title" in fields && fields["title"] == Str(t) && PyStrip(t) == ""
    ensures UpdateEdits(m, Obj(fields), types) == Halt(400, TitleEmpty)
  {
  }

  /** At the handler: an owned memory sent an empty title is answered 400 and nothing changes. */
  lemma UpdateRejectsEmptyTitle(d: Data, uid: int, mid: int, fields: map<string, Value>, t: string, types: seq<string>)
    requires FindMemory(d.memories, mid, uid).Some?
    requires "title" in fields && fields["title"] == Str(t) && PyStrip(t) == ""
    ensures UpdateMemory(d, uid, mid, Obj(fields), types) == Answer(d, 400, TitleEmpty)
  {
    assert PyTruthy(Obj(fields));
    EmptyTitleRefused(FindMemory(d.memories, mid, uid).value, fields, t, types);
  }

  /** Updating keeps a memory well formed. */
  lemma UpdateKeepsWellFormed(m: Memory, body: Value, types: seq<string>)
    requires WellFormed(m, types) && UpdateEdits(m, body, types).Go?
    ensures WellFormed(UpdateEdits(m, body, types).value, types)
  {
    var m1 := EditTitle(m, body).value;
    var m2 := EditContent(m1, body).value;
    var m3 := EditType(m2, body, types).value;
    var m4 := EditTags(m3, body).value;
    assert UpdateEdits(m, body, types) == EditImportance(m4, body);
  }

  /** `update_memory`: 200 saves the edited memory over its row; every other answer leaves the data as it was. */
  function UpdateMemory(d: Data, uid: int, mid: int, body: Value, types: seq<string>): (r: Reply)
    ensures r.status in {200, 400, 404, 500}
    ensures r.status != 200 ==> r.data == d
    ensures r.status == 404 <==> FindMemory(d.memories, mid, uid).None?
    ensures r.status == 200 ==>
      && FindMemory(d.memories, mid, uid).Some? && PyTruthy(body)
      && UpdateEdits(FindMemory(d.memories, mid, uid).value, body, types).Go?
      && r.data == d.(memories := ReplaceWhere(d.memories, (x: Memory) => x.id == mid && x.userId == uid,
                                               UpdateEdits(FindMemory(d.memories, mid, uid).value, body, types).value))
    ensures (FindMemory(d.memories, mid, uid).Some? && PyTruthy(body)
             && UpdateEdits(FindMemory(d.memories, mid, uid).value, body, types).Go?) ==> r.status == 200
    ensures r.status == 400 && r.message == NoData <==> FindMemory(d.memories, mid, uid).Some? && !PyTruthy(body)
    ensures (FindMemory(d.memories, mid, uid).Some? && PyTruthy(body)
             && UpdateEdits(FindMemory(d.memories, mid, uid).value, body, types).Halt?) ==>
      var e := UpdateEdits(FindMemory(d.memories, mid, uid).value, body, types);
      r.status == e.status && r.message == e.message
  {
    match FindMemory(d.memories, mid, uid)
    case None => Answer(d, 404, NotFound)
    case Some(m) =>
      if !PyTruthy(body) then Answer(d, 400, NoData)
      else match UpdateEdits(m, body, types)
        case Halt(status, message) => Answer(d, status, message)
        case Go(n) => Reply(200, "Memory updated successfully", d.(memories := ReplaceWhere(d.memories, (x: Memory) => x.id == mid && x.userId == uid, n)))
  }

  /** Updates keep every memory well formed and every free account within the limit. */
  lemma UpdateKeepsInvariants(d: Data, uid: int, mid: int, body: Value, types: seq<string>)
    requires AllWellFormed(d, types) && FreeWithinLimit(d)
    ensures AllWellFormed(UpdateMemory(d, uid, mid, body, types).data, types)
    ensures FreeWithinLimit(UpdateMemory(d, uid, mid, body, types).data)
  {
    var r := UpdateMemory(d, uid, mid, body, types);
    if r.status == 200 {
      var m := FindMemory(d.memories, mid, uid).value;
      var n := UpdateEdits(m, body, types).value;
      UpdateKeepsWellFormed(m, body, types);
      UpdateOwnerKept(m, body, types);
      forall x | x in r.data.memories ensures WellFormed(x, types) {
        var i :| 0 <= i < |r.data.memories| && r.data.memories[i] == x;
      }
      forall u | u in r.data.users && u.subscription == Free ensures MemoryCount(r.data, u.id) <= FreeMemoryLimit {
        ReplaceKeepsCount(d.memories, (x: Memory) => x.id == mid && x.userId == uid, n, u.id);
      }
    }
  }

  lemma UpdateOwnerKept(m: Memory, body: Value, types: seq<string>)
    requires UpdateEdits(m, body, types).Go?
    ensures UpdateEdits(m, body, types).value.userId == m.userId
  {
    var m1 := EditTitle(m, body).value;
    assert m1.userId == m.userId;
    var m2 := EditContent(m1, body).value;
    assert m2.userId == m.userId;
    var m3 := EditType(m2, body, types).value;
    assert m3.userId == m.userId;
    var m4 := EditTags(m3, body).value;
    assert m4.userId == m.userId;
    assert UpdateEdits(m, body, types) == EditImportance(m4, body);
  }

  /** Replacing rows by a row of the same owner keeps every user's count. */
  lemma {:induction false} ReplaceKeepsCount(ms: seq<Memory>, p: Memory -> bool, n: Memory, uid: int)
    requires forall x | x in ms && p(x) :: x.userId == n.userId
    ensures |Seqs.Filter(ReplaceWhere(ms, p, n), (x: Memory) => x.userId == uid)|
         == |Seqs.Filter(ms, (x: Memory) => x.userId == uid)|
  {
    if ms != [] {
      var rs := ReplaceWhere(ms, p, n);
      assert rs[1..] == ReplaceWhere(ms[1..], p, n);
      ReplaceKeepsCount(ms[1..], p, n, uid);
    }
  }

  // ---------------------------------------------------------------------------
  // Deletion

  /**
   * Deleting a memory empties the `memory_id` of the reminders linked to it
   * (the relationship's default), which also moves their modification time.
   */
  function Unlink(rs: seq<Reminder>, mid: int, now: int): (r: seq<Reminder>)
    ensures |r| == |rs|
    ensures forall i | 0 <= i < |rs| ::
      r[i] == (if LinkedId(rs[i]) == Some(mid) then ReminderModel.Touch(rs[i], rs[i].(memoryId := Null), now) else rs[i])
  {
    seq(|rs|, i requires 0 <= i < |rs| =>
      if LinkedId(rs[i]) == Some(mid) then ReminderModel.Touch(rs[i], rs[i].(memoryId := Null), now) else rs[i])
  }

  /** `delete_memory`: 404 unless the caller has the memory; otherwise its row goes and its reminders are unlinked. */
  function DeleteMemory(d: Data, uid: int, mid: int, now: int): (r: Reply)
    ensures r.status in {200, 404}
    ensures r.status == 404 <==> FindMemory(d.memories, mid, uid).None?
    ensures r.status == 404 ==> r.data == d
    ensures r.status == 200 ==>
      && r.data.users == d.users
      && r.data.memories == Seqs.Filter(d.memories, (m: Memory) => !(m.id == mid && m.userId == uid))
      && r.data.reminders == Unlink(d.reminders, mid, now)
  {
    match FindMemory(d.memories, mid, uid)
    case None => Answer(d, 404, NotFound)
    case Some(_) =>
      Reply(200, "Memory deleted successfully",
        Data(d.users, Seqs.Filter(d.memories, (m: Memory) => !(m.id == mid && m.userId == uid)), Unlink(d.reminders, mid, now)))
  }

  /** After a deletion the caller has no memory with the identifier, no reminder is linked to it, and every other memory stays. */
  lemma DeleteRemovesAndUnlinks(d: Data, uid: int, mid: int, now: int)
    requires DeleteMemory(d, uid, mid, now).status == 200
    ensures var after := DeleteMemory(d, uid, mid, now).data;
      && (forall m | m in after.memories :: !(m.id == mid && m.userId == uid))
      && (forall m | m in d.memories && !(m.id == mid && m.userId == uid) :: m in after.memories)
      && (forall r | r in after.reminders :: LinkedId(r) != Some(mid))
  {
    var after := DeleteMemory(d, uid, mid, now).data;
    forall r | r in after.reminders ensures LinkedId(r) != Some(mid) {
      var i :| 0 <= i < |after.reminders| && after.reminders[i] == r;
    }
  }

  /** Deletion keeps every reminder's link valid, every memory well formed and every free account within the limit. */
  lemma DeleteKeepsInvariants(d: Data, uid: int, mid: int, now: int, types: seq<string>)
    requires ReminderLinksValid(d) && AllWellFormed(d, types) && FreeWithinLimit(d)
    ensures ReminderLinksValid(DeleteMemory(d, uid, mid, now).data)
    ensures AllWellFormed(DeleteMemory(d, uid, mid, now).data, types)
    ensures FreeWithinLimit(DeleteMemory(d, uid, mid, now).data)
  {
    var r := DeleteMemory(d, uid, mid, now);
    if r.status == 200 {
      var after := r.data;
      var keep := (m: Memory) => !(m.id == mid && m.userId == uid);
      forall x | x in after.reminders && PyTruthy(x.memoryId)
        ensures exists m | m in after.memories :: LinkedId(x) == Some(m.id) && m.userId == x.userId
      {
        var i :| 0 <= i < |after.reminders| && after.reminders[i] == x;
        var y := d.reminders[i];
        assert LinkedId(y) != Some(mid) && x == y;
        var m :| m in d.memories && LinkedId(y) == Some(m.id) && m.userId == y.userId;
        assert keep(m) && m in after.memories;
      }
      forall u | u in after.users && u.subscription == Free ensures MemoryCount(after, u.id) <= FreeMemoryLimit {
        var own := (m: Memory) => m.userId == u.id;
        var both := (m: Memory) => keep(m) && own(m);
        Seqs.FilterCompose(d.memories, keep, own, both);
        Seqs.FilterCompose(d.memories, own, keep, (m: Memory) => own(m) && keep(m));
        Seqs.FilterExt(d.memories, both, (m: Memory) => own(m) && keep(m));
      }
    }
  }
}
