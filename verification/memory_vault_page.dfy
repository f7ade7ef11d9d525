/**
 * The memory vault page: the query it sends for a page of memories, the URL
 * it keeps in step with its filters, the filter count, content previews,
 * the badges and the pagination controls.
 */
module MemoryVaultPage {
  import opened Wrappers
  import opened Text
  import opened Json
  import ListPages

  datatype Filters = Filters(search: string, memoryType: string, importance: string)

  function FilterPairs(fl: Filters): ListPages.Params {
    [("search", fl.search), ("type", fl.memoryType), ("importance", fl.importance)]
  }

  // ---------------------------------------------------------------------------
  // Query and URL

  /** The URL parameters kept in step with the filters: the non-empty ones, in order. */
  function UrlOf(fl: Filters): (ps: ListPages.Params)
    ensures forall q | q in ps :: q.1 != ""
  {
    ListPages.NonEmptyParams(FilterPairs(fl))
  }

  /** The query of `fetchMemories`: page and page size first, then the non-empty filters. */
  function FetchParams(page: nat, perPage: nat, fl: Filters): (ps: ListPages.Params)
    ensures |ps| >= 2
  {
    [("page", DecimalString(page)), ("per_page", DecimalString(perPage))] + UrlOf(fl)
  }

  function FiltersFromUrl(ps: ListPages.Params): Filters {
    Filters(ListPages.ReadBack(ps, "search"), ListPages.ReadBack(ps, "type"), ListPages.ReadBack(ps, "importance"))
  }

  /** Reloading the page from the URL it wrote restores the same filters. */
  lemma UrlRoundTrip(fl: Filters)
    ensures FiltersFromUrl(UrlOf(fl)) == fl
  {
    var pairs := FilterPairs(fl);
    ListPages.ReadBackNonEmpty(pairs, 0);
    ListPages.ReadBackNonEmpty(pairs, 1);
    ListPages.ReadBackNonEmpty(pairs, 2);
  }

  /**
   * The query always carries the page and page size, which the server reads
   * back as numbers, and carries a filter iff it is non-empty, with its value.
   */
  lemma FetchParamsContent(page: nat, perPage: nat, fl: Filters)
    ensures var ps := FetchParams(page, perPage, fl);
      && ListPages.Get(ps, "page") == Some(DecimalString(page))
      && ListPages.Get(ps, "per_page") == Some(DecimalString(perPage))
      && ParseInt(DecimalString(page)) == Some(page)
      && ParseInt(DecimalString(perPage)) == Some(perPage)
      && (ListPages.Get(ps, "search").Some? <==> fl.search != "")
      && (ListPages.Get(ps, "type").Some? <==> fl.memoryType != "")
      && (ListPages.Get(ps, "importance").Some? <==> fl.importance != "")
      && FiltersFromUrl(ps[2..]) == fl
  {
    var ps := FetchParams(page, perPage, fl);
    var url := UrlOf(fl);
    assert ps[2..] == url;
    assert ps[1..][1..] == url;
    UrlRoundTrip(fl);
    ParseIntOfDecimal(page);
    ParseIntOfDecimal(perPage);
    FilterPresence(fl, "search", 0);
    FilterPresence(fl, "type", 1);
    FilterPresence(fl, "importance", 2);
  }

  lemma FilterPresence(fl: Filters, key: string, i: int)
    requires 0 <= i < 3 && FilterPairs(fl)[i].0 == key
    ensures ListPages.Get(UrlOf(fl), key).Some? <==> FilterPairs(fl)[i].1 != ""
  {
    var pairs := FilterPairs(fl);
    ListPages.ReadBackNonEmpty(pairs, i);
    if ListPages.Get(UrlOf(fl), key).Some? {
      var v := ListPages.Get(UrlOf(fl), key).value;
      assert (key, v) in pairs && v != "";
    }
  }

  // ---------------------------------------------------------------------------
  // Filter count

  function ActiveFiltersCount(fl: Filters): (n: nat)
    ensures n <= 3
    ensures n == 0 <==> fl == Filters("", "", "")
    ensures n == |UrlOf(fl)|
  {
    var vs := [fl.search, fl.memoryType, fl.importance];
    assert vs[0] == fl.search && vs[1] == fl.memoryType && vs[2] == fl.importance;
    ListPages.NonEmptyParamsCount(FilterPairs(fl));
    assert ListPages.Values(FilterPairs(fl)) == vs;
    ListPages.CountNonEmpty(vs)
  }

  function ClearFilters(fl: Filters): (r: Filters)
    ensures ActiveFiltersCount(r) == 0 && UrlOf(r) == []
  {
    Filters("", "", "")
  }

  // ---------------------------------------------------------------------------
  // Content preview

  const DefaultPreviewLength := 120

  /** `truncateContent`: short content as is, otherwise its first `maxLength` characters and "...". */
  function Truncate(content: string, maxLength: nat): (r: string)
    ensures |content| <= maxLength ==> r == content
    ensures |content| > maxLength ==>
      && |r| == maxLength + 3
      && r[..maxLength] == content[..maxLength]
      && r[maxLength..] == "..."
  {
    if |content| <= maxLength then content else content[..maxLength] + "..."
  }

  /** The preview never exceeds the limit by more than the ellipsis, and previewing a preview changes nothing. */
  lemma TruncateBoundAndIdempotent(content: string, maxLength: nat)
    ensures |Truncate(content, maxLength)| <= maxLength + 3
    ensures |Truncate(content, maxLength)| <= |content| + 3
    ensures Truncate(Truncate(content, maxLength), maxLength) == Truncate(content, maxLength)
  {
    if |content| > maxLength {
      var r := Truncate(content, maxLength);
      assert r[..maxLength] + "..." == r;
    }
  }

  // ---------------------------------------------------------------------------
  // Badges

  /** The key an importance value selects in the colour table ("1" to "5"), if any. */
  function ImportanceKey(v: Value): (k: Option<int>)
    ensures k.Some? ==> 1 <= k.value <= 5
  {
    match v
    case Num(n) => if 1 <= n <= 5 then Some(n) else None
    case Str(s) => if |s| == 1 && '1' <= s[0] <= '5' then Some(s[0] as int - '0' as int) else None
    case _ => None
  }

  const ImportanceColors: seq<string> := ["secondary", "info", "primary", "warning", "danger"]

  /** `getImportanceColor`: levels 1 to 5 have their colour, anything else is "secondary". */
  function ImportanceColor(v: Value): (c: string)
    ensures c in ImportanceColors
    ensures ImportanceKey(v).None? ==> c == "secondary"
  {
    match ImportanceKey(v)
    case Some(k) => ImportanceColors[k - 1]
    case None => "secondary"
  }

  /** The importance menu: value and colour of each option. */
  const ImportanceOptions: seq<(string, string)> :=
    [("", "secondary"), ("5", "danger"), ("4", "warning"), ("3", "primary"), ("2", "info"), ("1", "secondary")]

  /** The badge colour agrees with the menu, whether the level arrives as a number or as text. */
  lemma ImportanceColorsAgree()
    ensures forall i | 0 <= i < |ImportanceOptions| :: ImportanceColor(Str(ImportanceOptions[i].0)) == ImportanceOptions[i].1
    ensures forall n | 1 <= n <= 5 :: ImportanceColor(Num(n)) == ImportanceColor(Str(DecimalString(n)))
  {
    forall n | 1 <= n <= 5 ensures ImportanceColor(Num(n)) == ImportanceColor(Str(DecimalString(n))) {
      DigitColorAgrees(n);
    }
  }

  lemma DigitColorAgrees(n: int)
    requires 1 <= n <= 5
    ensures ImportanceColor(Num(n)) == ImportanceColor(Str(DecimalString(n)))
  {
    assert DecimalString(n) == [DigitChar(n)];
  }

  const NoteIcon := "bi-file-text"
  const NoteEmoji := "\U{1F4DD}"

  function TypeIcon(t: string): (icon: string)
    ensures t !in {"note", "idea", "task", "learning", "reference", "quote"} ==> icon == NoteIcon
  {
    if t == "note" then NoteIcon
    else if t == "idea" then "bi-lightbulb"
    else if t == "task" then "bi-check-square"
    else if t == "learning" then "bi-book"
    else if t == "reference" then "bi-bookmark"
    else if t == "quote" then "bi-quote"
    else NoteIcon
  }

  function TypeEmoji(t: string): (e: string)
    ensures t !in {"note", "idea", "task", "learning", "reference", "quote"} ==> e == NoteEmoji
  {
    if t == "note" then NoteEmoji
    else if t == "idea" then "\U{1F4A1}"
    else if t == "task" then "\U{2705}"
    else if t == "learning" then "\U{1F9E0}"
    else if t == "reference" then "\U{1F4DA}"
    else if t == "quote" then "\U{1F4AC}"
    else NoteEmoji
  }

  /** The type menu: value, icon and emoji of each option. */
  const MemoryTypes: seq<(string, string, string)> := [
    ("", "bi-collection", "\U{1F5C2}\U{FE0F}"),
    ("note", NoteIcon, NoteEmoji),
    ("idea", "bi-lightbulb", "\U{1F4A1}"),
    ("task", "bi-check-square", "\U{2705}"),
    ("learning", "bi-book", "\U{1F9E0}"),
    ("reference", "bi-bookmark", "\U{1F4DA}"),
    ("quote", "bi-quote", "\U{1F4AC}")]

  /** The badges agree with the type menu for every real type; the "all types" entry's symbols are not used for badges. */
  lemma TypeBadgesAgreeWithMenu()
    ensures forall i | 1 <= i < |MemoryTypes| ::
      TypeIcon(MemoryTypes[i].0) == MemoryTypes[i].1 && TypeEmoji(MemoryTypes[i].0) == MemoryTypes[i].2
    ensures TypeIcon(MemoryTypes[0].0) != MemoryTypes[0].1 && TypeEmoji(MemoryTypes[0].0) != MemoryTypes[0].2
  {
  }

  // ---------------------------------------------------------------------------
  // Pagination controls

  datatype Controls = Controls(prevDisabled: bool, nextDisabled: bool, pageNumbers: seq<int>)

  /** The controls under the list: none for a single page, else previous, the page numbers, next. */
  function PaginationControls(p: ListPages.Pagination): (c: Option<Controls>)
    ensures c.Some? <==> p.pages > 1
    ensures c.Some? ==>
      && |c.value.pageNumbers| == p.pages
      && (forall i | 0 <= i < p.pages :: c.value.pageNumbers[i] == i + 1)
    ensures c.Some? ==> (c.value.prevDisabled <==> p.page == 1) && (c.value.nextDisabled <==> p.page == p.pages)
  {
    if p.pages > 1 then
      Some(Controls(p.page == 1, p.page == p.pages, seq(p.pages, i requires 0 <= i < p.pages => i + 1)))
    else None
  }

  /** From a page in range, every enabled control leads to a page in range. */
  lemma ControlsStayInRange(p: ListPages.Pagination)
    requires 1 <= p.page <= p.pages
    requires PaginationControls(p).Some?
    ensures var c := PaginationControls(p).value;
      && (!c.prevDisabled ==> 1 <= p.page - 1 <= p.pages)
      && (!c.nextDisabled ==> 1 <= p.page + 1 <= p.pages)
      && (forall n | n in c.pageNumbers :: 1 <= n <= p.pages)
      && p.page in c.pageNumbers
  {
    var c := PaginationControls(p).value;
    assert c.pageNumbers[p.page - 1] == p.page;
  }
}
