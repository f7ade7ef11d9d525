/**
 * What the list pages share: query strings as ordered key/value lists
 * (`URLSearchParams`), built from the filter values and read back when a
 * page loads, the count of active filters, and the pagination record.
 */
module ListPages {
  import opened Wrappers
  import Seqs

  type Params = seq<(string, string)>

  /** The pagination record the list endpoints report. */
  datatype Pagination = Pagination(page: int, pages: int, total: int, perPage: int)

  /** `params.get(key)`: the first value under `key`, or `None` (JavaScript `null`). */
  function Get(ps: Params, key: string): (r: Option<string>)
    ensures r.Some? ==> (key, r.value) in ps
    ensures r.None? <==> forall q | q in ps :: q.0 != key
  {
    if ps == [] then None
    else if ps[0].0 == key then Some(ps[0].1)
    else Get(ps[1..], key)
  }

  /** `params.get(key) || ''`, as each page reads its filters on load. */
  function ReadBack(ps: Params, key: string): string {
    Get(ps, key).GetOr("")
  }

  predicate DistinctKeys(pairs: Params) {
    forall i, j | 0 <= i < j < |pairs| :: pairs[i].0 != pairs[j].0
  }

  /** `if (value) params.set(key, value)` for each filter in turn, from empty params with distinct keys. */
  function NonEmptyParams(pairs: Params): (ps: Params)
    ensures forall q | q in ps :: q in pairs && q.1 != ""
    ensures forall i | 0 <= i < |pairs| :: pairs[i].1 != "" ==> pairs[i] in ps
    ensures Seqs.IsSubsequence(ps, pairs)
  {
    Seqs.Filter(pairs, (q: (string, string)) => q.1 != "")
  }

  /** Writing the filters to the URL and reading them back gives the filters. */
  lemma {:induction false} ReadBackNonEmpty(pairs: Params, i: int)
    requires DistinctKeys(pairs) && 0 <= i < |pairs|
    ensures ReadBack(NonEmptyParams(pairs), pairs[i].0) == pairs[i].1
  {
    var p := pairs[0];
    var rest := pairs[1..];
    var keep := (q: (string, string)) => q.1 != "";
    assert pairs == [p] + rest;
    Seqs.FilterAppend([p], rest, keep);
    assert NonEmptyParams(pairs) == Seqs.Filter([p], keep) + NonEmptyParams(rest);
    assert DistinctKeys(rest) by {
      forall a, b | 0 <= a < b < |rest| ensures rest[a].0 != rest[b].0 {
        assert rest[a] == pairs[a + 1] && rest[b] == pairs[b + 1];
      }
    }
    if i == 0 {
      if p.1 == "" {
        forall q | q in NonEmptyParams(rest) ensures q.0 != p.0 {
          var j :| 0 <= j < |rest| && rest[j] == q;
          assert q == pairs[j + 1];
        }
      }
    } else {
      assert pairs[i] == rest[i - 1];
      assert pairs[i].0 != p.0;
      ReadBackNonEmpty(rest, i - 1);
    }
  }

  /** The number of non-empty filter values (`[...].filter(Boolean).length`). */
  function CountNonEmpty(values: seq<string>): (n: nat)
    ensures n <= |values|
    ensures n == 0 <==> forall i | 0 <= i < |values| :: values[i] == ""
  {
    if values == [] then 0
    else (if values[0] != "" then 1 else 0) + CountNonEmpty(values[1..])
  }

  function Values(pairs: Params): (vs: seq<string>)
    ensures |vs| == |pairs| && forall i | 0 <= i < |pairs| :: vs[i] == pairs[i].1
  {
    seq(|pairs|, i requires 0 <= i < |pairs| => pairs[i].1)
  }

  /** As many parameters are written as there are non-empty values. */
  lemma {:induction false} NonEmptyParamsCount(pairs: Params)
    ensures |NonEmptyParams(pairs)| == CountNonEmpty(Values(pairs))
  {
    if pairs != [] {
      var keep := (q: (string, string)) => q.1 != "";
      assert pairs == [pairs[0]] + pairs[1..];
      Seqs.FilterAppend([pairs[0]], pairs[1..], keep);
      assert Values(pairs)[1..] == Values(pairs[1..]);
      NonEmptyParamsCount(pairs[1..]);
    }
  }
}
