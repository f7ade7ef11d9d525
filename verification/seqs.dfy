/** Sequence operations the model shares: filtering, subsequences and ordering by a key. */
module Seqs {
  import opened Wrappers

  /** `a` can be obtained from `b` by deleting elements (order is kept). */
  ghost predicate IsSubsequence<T>(a: seq<T>, b: seq<T>) {
    a == [] || (b != [] && ((a[0] == b[0] && IsSubsequence(a[1..], b[1..])) || IsSubsequence(a, b[1..])))
  }

  /** The elements of `xs` satisfying `p`, in their original order (JavaScript `Array.filter`). */
  function Filter<T>(xs: seq<T>, p: T -> bool): (r: seq<T>)
    ensures |r| <= |xs|
    ensures forall i | 0 <= i < |r| :: p(r[i])
    ensures forall i | 0 <= i < |xs| :: p(xs[i]) ==> xs[i] in r
    ensures forall y | y in r :: y in xs
    ensures IsSubsequence(r, xs)
    ensures forall y {:trigger multiset(r)[y]} | y in xs :: multiset(r)[y] == if p(y) then multiset(xs)[y] else 0
  {
    if xs == [] then []
    else
      var rest := Filter(xs[1..], p);
      assert xs == [xs[0]] + xs[1..];
      if p(xs[0]) then
        var r := [xs[0]] + rest;
        assert r[1..] == rest;
        r
      else
        assert IsSubsequence(rest, xs);
        rest
  }

  /** The members of a filter are exactly the members satisfying its predicate. */
  lemma FilterMembers<T>(xs: seq<T>, p: T -> bool)
    ensures forall x :: x in Filter(xs, p) <==> x in xs && p(x)
  {
    var r := Filter(xs, p);
    forall x | x in r ensures p(x) {
      var i :| 0 <= i < |r| && r[i] == x;
    }
  }

  /** A filter whose predicate holds everywhere keeps everything. */
  lemma {:induction false} FilterKeepsAll<T>(xs: seq<T>, p: T -> bool)
    requires forall i | 0 <= i < |xs| :: p(xs[i])
    ensures Filter(xs, p) == xs
  {
    if xs != [] {
      FilterKeepsAll(xs[1..], p);
    }
  }

  /** Two filters in a row are one filter by the conjunction. */
  lemma {:induction false} FilterCompose<T>(xs: seq<T>, p: T -> bool, q: T -> bool, both: T -> bool)
    requires forall x :: both(x) == (p(x) && q(x))
    ensures Filter(Filter(xs, p), q) == Filter(xs, both)
  {
    if xs != [] {
      FilterCompose(xs[1..], p, q, both);
      if p(xs[0]) {
        FilterAppend([xs[0]], Filter(xs[1..], p), q);
      }
    }
  }

  /** Filters by predicates that agree on the elements give the same result. */
  lemma {:induction false} FilterExt<T>(xs: seq<T>, p: T -> bool, q: T -> bool)
    requires forall i | 0 <= i < |xs| :: p(xs[i]) == q(xs[i])
    ensures Filter(xs, p) == Filter(xs, q)
  {
    if xs != [] {
      FilterExt(xs[1..], p, q);
    }
  }

  /** A filter applied only under a condition is a filter by "condition implies predicate". */
  lemma ConditionalFilter<T>(xs: seq<T>, c: bool, p: T -> bool, ok: T -> bool)
    requires forall x :: ok(x) == (!c || p(x))
    ensures (if c then Filter(xs, p) else xs) == Filter(xs, ok)
  {
    if c {
      FilterExt(xs, p, ok);
    } else {
      FilterKeepsAll(xs, ok);
    }
  }

  lemma {:induction false} FilterAppend<T>(a: seq<T>, b: seq<T>, p: T -> bool)
    ensures Filter(a + b, p) == Filter(a, p) + Filter(b, p)
  {
    if a != [] {
      assert (a + b)[1..] == a[1..] + b;
      FilterAppend(a[1..], b, p);
    } else {
      assert a + b == b;
    }
  }

  /** Splitting by a predicate and by its negation loses and adds nothing. */
  lemma {:induction false} FilterPartition<T>(xs: seq<T>, p: T -> bool, q: T -> bool)
    requires forall x :: q(x) == !p(x)
    ensures multiset(Filter(xs, p)) + multiset(Filter(xs, q)) == multiset(xs)
    ensures |Filter(xs, p)| + |Filter(xs, q)| == |xs|
  {
    if xs != [] {
      FilterPartition(xs[1..], p, q);
      assert xs == [xs[0]] + xs[1..];
    }
  }

  /** A predicate that holds nowhere keeps nothing. */
  lemma {:induction false} FilterNone<T>(xs: seq<T>, p: T -> bool)
    requires forall x | x in xs :: !p(x)
    ensures Filter(xs, p) == []
  {
    if xs != [] {
      FilterNone(xs[1..], p);
    }
  }

  /** Filtering first by a weaker predicate changes nothing. */
  lemma FilterMonotone<T>(xs: seq<T>, p: T -> bool, q: T -> bool)
    requires forall x :: p(x) ==> q(x)
    ensures Filter(Filter(xs, q), p) == Filter(xs, p)
  {
    FilterCompose(xs, q, p, p);
  }

  // ---------------------------------------------------------------------------
  // Counting by key

  /** The test "the key of x is k". */
  function KeyIs<T, K(==)>(key: T -> K, k: K): T -> bool {
    (x: T) => key(x) == k
  }

  /** The test "the key of x is not k". */
  function KeyIsNot<T, K(==)>(key: T -> K, k: K): T -> bool {
    (x: T) => key(x) != k
  }

  /** How many elements have each of `keys`, in the order of `keys`. */
  function Counts<T, K(==)>(xs: seq<T>, keys: seq<K>, key: T -> K): (r: seq<nat>)
    ensures |r| == |keys|
    ensures forall i | 0 <= i < |keys| :: r[i] == |Filter(xs, KeyIs(key, keys[i]))|
  {
    if keys == [] then []
    else
      var rest := Counts(xs, keys[1..], key);
      assert forall i | 1 <= i < |keys| :: keys[i] == keys[1..][i - 1];
      [|Filter(xs, KeyIs(key, keys[0]))|] + rest
  }

  function Sum(ns: seq<nat>): nat {
    if ns == [] then 0 else ns[0] + Sum(ns[1..])
  }

  predicate Distinct<K(==)>(keys: seq<K>) {
    forall i, j | 0 <= i < j < |keys| :: keys[i] != keys[j]
  }

  /** Counting by each of a list of distinct keys that covers every element counts every element once. */
  lemma {:induction false} CountsCover<T, K>(xs: seq<T>, keys: seq<K>, key: T -> K)
    requires Distinct(keys)
    requires forall x | x in xs :: key(x) in keys
    ensures Sum(Counts(xs, keys, key)) == |xs|
    decreases keys
  {
    if keys == [] {
      assert multiset(xs) == multiset{};
    } else {
      var k0 := keys[0];
      var rest := Filter(xs, KeyIsNot(key, k0));
      FilterPartition(xs, KeyIs(key, k0), KeyIsNot(key, k0));
      forall x | x in rest ensures key(x) in keys[1..] {
        var i :| 0 <= i < |rest| && rest[i] == x;
        assert key(x) in keys && key(x) != k0;
      }
      assert Distinct(keys[1..]) by {
        forall i, j | 0 <= i < j < |keys[1..]| ensures keys[1..][i] != keys[1..][j] {
          assert keys[1..][i] == keys[i + 1] && keys[1..][j] == keys[j + 1];
        }
      }
      CountsCover(rest, keys[1..], key);
      CountsRestrict(xs, keys[1..], key, k0);
    }
  }

  /** Counts by keys other than `k0` are the same before and after removing the elements with key `k0`. */
  lemma {:induction false} CountsRestrict<T, K>(xs: seq<T>, keys: seq<K>, key: T -> K, k0: K)
    requires k0 !in keys
    ensures Counts(Filter(xs, KeyIsNot(key, k0)), keys, key) == Counts(xs, keys, key)
  {
    if keys != [] {
      FilterCompose(xs, KeyIsNot(key, k0), KeyIs(key, keys[0]), KeyIs(key, keys[0]));
      CountsRestrict(xs, keys[1..], key, k0);
    }
  }

  // ---------------------------------------------------------------------------
  // Ordering by an integer key

  /** Sequences with the same multiset have the same members. */
  lemma SameMembers<T>(a: seq<T>, b: seq<T>)
    requires multiset(a) == multiset(b)
    ensures forall x :: x in a <==> x in b
  {
    forall x ensures x in a <==> x in b {
      assert x in a <==> x in multiset(a);
      assert x in b <==> x in multiset(b);
    }
  }

  ghost predicate SortedBy<T>(xs: seq<T>, key: T -> int) {
    forall i, j | 0 <= i < j < |xs| :: key(xs[i]) <= key(xs[j])
  }

  function InsertBy<T>(x: T, xs: seq<T>, key: T -> int): (r: seq<T>)
    requires SortedBy(xs, key)
    ensures SortedBy(r, key)
    ensures multiset(r) == multiset(xs) + multiset{x}
    ensures forall i | 0 <= i < |r| :: r[i] == x || r[i] in xs
  {
    if xs == [] || key(x) <= key(xs[0]) then [x] + xs
    else
      var rest := InsertBy(x, xs[1..], key);
      assert xs == [xs[0]] + xs[1..];
      InsertAbove(x, xs, key, rest);
      [xs[0]] + rest
  }

  /** Whatever is built from `x` and the tail of a sorted `xs` lies above the head when `x` does. */
  lemma InsertAbove<T>(x: T, xs: seq<T>, key: T -> int, rest: seq<T>)
    requires SortedBy(xs, key) && |xs| > 0 && key(xs[0]) < key(x)
    requires forall i | 0 <= i < |rest| :: rest[i] == x || rest[i] in xs[1..]
    ensures forall i | 0 <= i < |rest| :: key(xs[0]) <= key(rest[i])
  {
    forall i | 0 <= i < |rest| ensures key(xs[0]) <= key(rest[i]) {
      if rest[i] != x {
        var j :| 0 <= j < |xs[1..]| && xs[1..][j] == rest[i];
        assert xs[j + 1] == rest[i];
      }
    }
  }

  /** A stable insertion sort: ascending by `key`, same elements. */
  function SortBy<T>(xs: seq<T>, key: T -> int): (r: seq<T>)
    ensures SortedBy(r, key)
    ensures multiset(r) == multiset(xs)
  {
    if xs == [] then []
    else
      assert xs == [xs[0]] + xs[1..];
      InsertBy(xs[0], SortBy(xs[1..], key), key)
  }

  /** Ascending by an optional key with the elements that have no key last (SQL `NULLS LAST`). */
  function OrderNullsLast<T>(xs: seq<T>, key: T -> Option<int>): (r: seq<T>)
    ensures multiset(r) == multiset(xs)
    ensures forall i, j | 0 <= i < j < |r| && key(r[j]).Some? ::
      key(r[i]).Some? && key(r[i]).value <= key(r[j]).value
  {
    var keyed := Filter(xs, (x: T) => key(x).Some?);
    var unkeyed := Filter(xs, (x: T) => key(x).None?);
    var k := (x: T) => key(x).GetOr(0);
    var sorted := SortBy(keyed, k);
    FilterPartition(xs, (x: T) => key(x).Some?, (x: T) => key(x).None?);
    forall x | x in sorted ensures key(x).Some? {
      assert x in multiset(sorted);
      assert x in keyed;
    }
    forall t | |sorted| <= t < |sorted + unkeyed| ensures key((sorted + unkeyed)[t]).None? {
      assert (sorted + unkeyed)[t] == unkeyed[t - |sorted|];
    }
    forall i, j | 0 <= i < j < |sorted + unkeyed| && key((sorted + unkeyed)[j]).Some?
      ensures key((sorted + unkeyed)[i]).Some? && key((sorted + unkeyed)[i]).value <= key((sorted + unkeyed)[j]).value
    {
      assert (sorted + unkeyed)[i] == sorted[i] && (sorted + unkeyed)[j] == sorted[j];
      assert sorted[i] in sorted && sorted[j] in sorted;
      assert k(sorted[i]) <= k(sorted[j]);
    }
    sorted + unkeyed
  }
}
