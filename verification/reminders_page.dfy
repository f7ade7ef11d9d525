/**
 * The reminders list page: its three filters applied to the loaded reminders,
 * the pagination it reports, the URL it keeps in step with the filters, and
 * the status and frequency badges.
 */
module RemindersPage {
  import opened Wrappers
  import opened Text
  import Seqs
  import ListPages

  /** The fields of a listed reminder the page reads. */
  datatype ReminderCard = ReminderCard(id: int, title: string, description: string, status: string, frequency: string)

  datatype Filters = Filters(search: string, status: string, frequency: string)

  // ---------------------------------------------------------------------------
  // Filtering

  /** Case-insensitive substring match on the title or the description. */
  predicate MatchesSearch(term: string, r: ReminderCard) {
    Contains(AsciiLower(r.title), AsciiLower(term)) || Contains(AsciiLower(r.description), AsciiLower(term))
  }

  /** The three stages of `fetchReminders`, each skipped when its filter is empty. */
  function Pipeline(items: seq<ReminderCard>, fl: Filters): seq<ReminderCard> {
    var a := if fl.search != "" then Seqs.Filter(items, r => MatchesSearch(fl.search, r)) else items;
    var b := if fl.status != "" then Seqs.Filter(a, (r: ReminderCard) => r.status == fl.status) else a;
    if fl.frequency != "" then Seqs.Filter(b, (r: ReminderCard) => r.frequency == fl.frequency) else b
  }

  /** The conjunctive rule an item is kept by. */
  predicate Keep(fl: Filters, r: ReminderCard) {
    && (fl.search == "" || MatchesSearch(fl.search, r))
    && (fl.status == "" || r.status == fl.status)
    && (fl.frequency == "" || r.frequency == fl.frequency)
  }

  /** The staged pipeline is one filter by the conjunction of the three rules. */
  lemma PipelineIsConjunctive(items: seq<ReminderCard>, fl: Filters)
    ensures Pipeline(items, fl) == Seqs.Filter(items, r => Keep(fl, r))
  {
    var s1 := (r: ReminderCard) => fl.search == "" || MatchesSearch(fl.search, r);
    var s2 := (r: ReminderCard) => fl.status == "" || r.status == fl.status;
    var s3 := (r: ReminderCard) => fl.frequency == "" || r.frequency == fl.frequency;
    var s12 := (r: ReminderCard) => s1(r) && s2(r);
    var all := (r: ReminderCard) => Keep(fl, r);
    var a := if fl.search != "" then Seqs.Filter(items, r => MatchesSearch(fl.search, r)) else items;
    var b := if fl.status != "" then Seqs.Filter(a, (r: ReminderCard) => r.status == fl.status) else a;
    Seqs.ConditionalFilter(items, fl.search != "", r => MatchesSearch(fl.search, r), s1);
    Seqs.ConditionalFilter(a, fl.status != "", (r: ReminderCard) => r.status == fl.status, s2);
    Seqs.FilterCompose(items, s1, s2, s12);
    Seqs.ConditionalFilter(b, fl.frequency != "", (r: ReminderCard) => r.frequency == fl.frequency, s3);
    Seqs.FilterCompose(items, s12, s3, all);
  }

  /** The result keeps exactly the items satisfying all three rules, in their order. */
  lemma PipelineResult(items: seq<ReminderCard>, fl: Filters)
    ensures forall r | r in Pipeline(items, fl) :: r in items && Keep(fl, r)
    ensures forall r | r in items && Keep(fl, r) :: r in Pipeline(items, fl)
    ensures Seqs.IsSubsequence(Pipeline(items, fl), items)
  {
    PipelineIsConjunctive(items, fl);
  }

  /** With every filter empty the list is shown as loaded. */
  lemma NoFiltersKeepsAll(items: seq<ReminderCard>)
    ensures Pipeline(items, Filters("", "", "")) == items
  {
  }

  // ---------------------------------------------------------------------------
  // Pagination

  /** The pagination reported after a fetch: one page holding all results, 12 per page. */
  function FetchedPagination(items: seq<ReminderCard>, fl: Filters): (p: ListPages.Pagination)
    ensures p.page == 1 && p.pages == 1 && p.perPage == 12
    ensures p.total == |Pipeline(items, fl)| <= |items|
  {
    ListPages.Pagination(1, 1, |Pipeline(items, fl)|, 12)
  }

  // ---------------------------------------------------------------------------
  // Filters in the URL

  function FilterPairs(fl: Filters): ListPages.Params {
    [("search", fl.search), ("status", fl.status), ("frequency", fl.frequency)]
  }

  /** The URL parameters kept in step with the filters: the non-empty ones, in order. */
  function UrlOf(fl: Filters): (ps: ListPages.Params)
    ensures forall q | q in ps :: q.1 != ""
    ensures |ps| == ActiveFiltersCount(fl)
  {
    var pairs := FilterPairs(fl);
    var ps := ListPages.NonEmptyParams(pairs);
    ListPages.NonEmptyParamsCount(pairs);
    assert ListPages.Values(pairs) == [fl.search, fl.status, fl.frequency];
    ps
  }

  /** The filters the page starts with, read from the URL. */
  function FiltersFromUrl(ps: ListPages.Params): Filters {
    Filters(ListPages.ReadBack(ps, "search"), ListPages.ReadBack(ps, "status"), ListPages.ReadBack(ps, "frequency"))
  }

  /** Reloading the page from the URL it wrote restores the same filters. */
  lemma UrlRoundTrip(fl: Filters)
    ensures FiltersFromUrl(UrlOf(fl)) == fl
  {
    var pairs := FilterPairs(fl);
    ListPages.ReadBackNonEmpty(pairs, 0);
    ListPages.ReadBackNonEmpty(pairs, 1);
    ListPages.ReadBackNonEmpty(pairs, 2);
  }

  // ---------------------------------------------------------------------------
  // Filter count

  function ActiveFiltersCount(fl: Filters): (n: nat)
    ensures n <= 3
    ensures n == 0 <==> fl == Filters("", "", "")
  {
    var vs := [fl.search, fl.status, fl.frequency];
    assert vs[0] == fl.search && vs[1] == fl.status && vs[2] == fl.frequency;
    ListPages.CountNonEmpty(vs)
  }

  function ClearFilters(fl: Filters): (r: Filters)
    ensures ActiveFiltersCount(r) == 0
  {
    Filters("", "", "")
  }

  // ---------------------------------------------------------------------------
  // Badges

  const BellEmoji := "\U{1F514}"
  const CheckEmoji := "\U{2705}"
  const WarningEmoji := "\U{26A0}\U{FE0F}"
  const PauseEmoji := "\U{23F8}\U{FE0F}"
  const ClipboardEmoji := "\U{1F4CB}"
  const RepeatEmoji := "\U{1F504}"
  const OnceEmoji := "1\U{FE0F}\U{20E3}"
  const MonthlyEmoji := "\U{1F5D3}\U{FE0F}"

  function StatusColor(status: string): (c: string)
    ensures status !in {"active", "completed", "overdue", "paused"} ==> c == "secondary"
  {
    if status == "active" then "success"
    else if status == "completed" then "primary"
    else if status == "overdue" then "danger"
    else if status == "paused" then "warning"
    else "secondary"
  }

  function StatusEmoji(status: string): (e: string)
    ensures status !in {"active", "completed", "overdue", "paused"} ==> e == ClipboardEmoji
  {
    if status == "active" then BellEmoji
    else if status == "completed" then CheckEmoji
    else if status == "overdue" then WarningEmoji
    else if status == "paused" then PauseEmoji
    else ClipboardEmoji
  }

  function FrequencyEmoji(frequency: string): (e: string)
    ensures frequency !in {"once", "daily", "weekly", "monthly", "yearly"} ==> e == RepeatEmoji
  {
    if frequency == "once" then OnceEmoji
    else if frequency == "daily" then "\U{1F4C5}"
    else if frequency == "weekly" then "\U{1F4C6}"
    else if frequency == "monthly" then MonthlyEmoji
    else if frequency == "yearly" then "\U{1F4CA}"
    else RepeatEmoji
  }

  /** The filter menus: value, emoji and (for statuses) colour of each option. */
  const StatusOptions: seq<(string, string, string)> := [
    ("", ClipboardEmoji, "secondary"),
    ("active", BellEmoji, "success"),
    ("completed", CheckEmoji, "primary"),
    ("overdue", WarningEmoji, "danger"),
    ("paused", PauseEmoji, "warning")]

  const FrequencyOptions: seq<(string, string)> := [
    ("", RepeatEmoji),
    ("once", OnceEmoji),
    ("daily", "\U{1F4C5}"),
    ("weekly", "\U{1F4C6}"),
    ("monthly", MonthlyEmoji),
    ("yearly", "\U{1F4CA}")]

  /** The badges agree with the filter menus, the "any" option included. */
  lemma BadgesAgreeWithMenus()
    ensures forall i | 0 <= i < |StatusOptions| ::
      StatusEmoji(StatusOptions[i].0) == StatusOptions[i].1 && StatusColor(StatusOptions[i].0) == StatusOptions[i].2
    ensures forall i | 0 <= i < |FrequencyOptions| :: FrequencyEmoji(FrequencyOptions[i].0) == FrequencyOptions[i].1
  {
  }
}
