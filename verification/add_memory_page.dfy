/**
 * The new-memory form: field edits, the tag list editor, validation and the
 * request body a valid form produces.
 */
module AddMemoryPage {
  import opened Wrappers
  import opened Text
  import opened FormRules
  import Seqs

  /**
   * The form: text fields by input name (`title`, `content`, `memory_type`,
   * `importance_level`) and the tag list. Every input delivers its value as a
   * string; the initial importance 3 is held as "3", which `parseInt` reads alike.
   */
  datatype MemoryForm = MemoryForm(fields: map<string, string>, tags: seq<string>)

  function InitialForm(): MemoryForm {
    MemoryForm(map["title" := "", "content" := "", "memory_type" := "note", "importance_level" := "3"], [])
  }

  function Field(f: MemoryForm, name: string): string {
    if name in f.fields then f.fields[name] else ""
  }

  // ---------------------------------------------------------------------------
  // Field edits

  /** `handleChange`: the named field takes the value and only that field's error is cleared. */
  function Change(f: MemoryForm, errors: FieldErrors, name: string, value: string): (r: (MemoryForm, FieldErrors))
    ensures Field(r.0, name) == value
    ensures forall k | k != name :: Field(r.0, k) == Field(f, k)
    ensures r.0.tags == f.tags
    ensures r.1 == ClearFieldError(errors, name)
  {
    (f.(fields := f.fields[name := value]), ClearFieldError(errors, name))
  }

  // ---------------------------------------------------------------------------
  // Tags

  predicate NoDuplicates(xs: seq<string>) {
    forall i, j | 0 <= i < j < |xs| :: xs[i] != xs[j]
  }

  /** A tag as entered: trimmed and lower-cased. */
  function NormalizeTag(input: string): string {
    AsciiLower(JsTrim(input))
  }

  /**
   * `handleTagAdd` for one key press: on Enter with a non-blank input the
   * normalised tag is appended unless already present, and the input is
   * cleared either way; any other key changes nothing.
   */
  function TagKey(tags: seq<string>, input: string, key: string): (r: (seq<string>, string))
    ensures !(key == "Enter" && JsTrim(input) != "") ==> r == (tags, input)
    ensures key == "Enter" && JsTrim(input) != "" ==>
      && r.1 == ""
      && NormalizeTag(input) in r.0
      && (NormalizeTag(input) in tags ==> r.0 == tags)
      && (NormalizeTag(input) !in tags ==> r.0 == tags + [NormalizeTag(input)])
  {
    if key == "Enter" && JsTrim(input) != "" then
      var t := NormalizeTag(input);
      (if t in tags then tags else tags + [t], "")
    else (tags, input)
  }

  /** Adding tags never introduces a duplicate. */
  lemma TagKeyKeepsNoDuplicates(tags: seq<string>, input: string, key: string)
    requires NoDuplicates(tags)
    ensures NoDuplicates(TagKey(tags, input, key).0)
  {
  }

  /** `removeTag`: every equal tag goes, the others keep their order. */
  function RemoveTag(tags: seq<string>, t: string): (r: seq<string>)
    ensures t !in r
    ensures forall x | x in tags && x != t :: x in r
    ensures Seqs.IsSubsequence(r, tags)
    ensures forall x {:trigger multiset(r)[x]} :: multiset(r)[x] == if x != t then multiset(tags)[x] else 0
  {
    Seqs.Filter(tags, x => x != t)
  }

  /** Adding a fresh tag and removing it again gives back the list. */
  lemma AddThenRemoveTag(tags: seq<string>, input: string)
    requires JsTrim(input) != "" && NormalizeTag(input) !in tags
    ensures RemoveTag(TagKey(tags, input, "Enter").0, NormalizeTag(input)) == tags
  {
    var t := NormalizeTag(input);
    var keep := (x: string) => x != t;
    Seqs.FilterAppend(tags, [t], keep);
    Seqs.FilterKeepsAll(tags, keep);
  }

  // ---------------------------------------------------------------------------
  // Validation

  function ContentError(content: string): (e: Option<string>)
    ensures e.None? <==> !All(content, IsJsSpace)
    ensures e.Some? ==> e.value == "Content is required"
  {
    if JsTrim(content) == "" then Some("Content is required") else None
  }

  /** `validateForm`'s error object. */
  function ValidateMemory(f: MemoryForm): (errs: FieldErrors)
    ensures errs.Keys <= {"title", "content"}
    ensures "title" in errs <==> TitleError(Field(f, "title")).Some?
    ensures "title" in errs ==> Some(errs["title"]) == TitleError(Field(f, "title"))
    ensures "content" in errs <==> ContentError(Field(f, "content")).Some?
    ensures "content" in errs ==> Some(errs["content"]) == ContentError(Field(f, "content"))
  {
    var e1: FieldErrors := match TitleError(Field(f, "title"))
      case Some(m) => map["title" := m]
      case None => map[];
    match ContentError(Field(f, "content"))
    case Some(m) => e1["content" := m]
    case None => e1
  }

  /** The form is valid iff the trimmed title has 3 or more characters and the content is not blank. */
  lemma MemoryFormAcceptance(f: MemoryForm)
    ensures ValidateMemory(f) == map[] <==>
      |JsTrim(Field(f, "title"))| >= 3 && !All(Field(f, "content"), IsJsSpace)
  {
    if ValidateMemory(f) != map[] {
      var k :| k in ValidateMemory(f);
    }
  }

  // ---------------------------------------------------------------------------
  // Request body

  /** The creation request's body; a `NaN` importance is `None`. */
  datatype MemoryBody = MemoryBody(
    title: string,
    content: string,
    memoryType: string,
    importanceLevel: Option<int>,
    tags: seq<string>)

  /** The body `handleSubmit` sends: trimmed title and content, the importance read with `parseInt`. */
  function Body(f: MemoryForm): MemoryBody
  {
    MemoryBody(
      JsTrim(Field(f, "title")),
      JsTrim(Field(f, "content")),
      Field(f, "memory_type"),
      ParseInt(Field(f, "importance_level")),
      f.tags)
  }

  /** A valid form sends a title of 3 or more characters and a non-empty content, neither padded with whitespace, and the tags as listed. */
  lemma ValidBodyShape(f: MemoryForm)
    requires ValidateMemory(f) == map[]
    ensures var b := Body(f);
      && |b.title| >= 3 && JsUnpadded(b.title) && JsUnpadded(b.content)
      && b.tags == f.tags
  {
    MemoryFormAcceptance(f);
    var t := JsTrim(Field(f, "title"));
    var c := JsTrim(Field(f, "content"));
    assert |t| >= 3 && c != [];
    assert Body(f).title == t && Body(f).content == c;
  }

  /** The values the importance slider delivers (`min="1"`, `max="5"`). */
  predicate SliderValue(v: string) {
    exists n: nat | 1 <= n <= 5 :: v == DecimalString(n)
  }

  /** A slider-set importance reaches the request as an integer from 1 to 5. */
  lemma SliderImportanceInRange(f: MemoryForm)
    requires SliderValue(Field(f, "importance_level"))
    ensures var i := Body(f).importanceLevel; i.Some? && 1 <= i.value <= 5
  {
    var n: nat :| 1 <= n <= 5 && Field(f, "importance_level") == DecimalString(n);
    ParseIntOfDecimal(n);
  }

  /** The initial form sends importance 3 and no tags. */
  lemma InitialBody()
    ensures Body(InitialForm()).importanceLevel == Some(3)
    ensures Body(InitialForm()).tags == []
    ensures Body(InitialForm()).memoryType == "note"
  {
    var f := InitialForm();
    assert Field(f, "importance_level") == "3";
    assert DecimalString(3) == [DigitChar(3)] == "3";
    ParseIntOfDecimal(3);
  }
}
