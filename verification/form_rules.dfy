/**
 * Client-side validation rules shared by several forms: the loose e-mail
 * pattern `/\S+@\S+\.\S+/`, the mixed-case password pattern
 * `/(?=.*[a-z])(?=.*[A-Z])(?=.*\d)/`, the title rule of the memory and
 * reminder forms, and the per-field error clearing of `handleChange`.
 */
module FormRules {
  import opened Wrappers
  import opened Text

  // ---------------------------------------------------------------------------
  // The loose e-mail pattern (unanchored `test`)

  predicate NonSpace(c: char) { !IsJsSpace(c) }

  /**
   * The pattern matches with its `@` at `a` and its `\.` at `d`: a non-space
   * character before the `@`, a run of non-space characters strictly between
   * them, and a non-space character after the dot.
   */
  predicate LooseEmailAt(s: string, a: int, d: int) {
    && 0 < a && a + 2 <= d && d + 1 < |s|
    && NonSpace(s[a - 1]) && s[a] == '@'
    && (forall k | a < k < d :: NonSpace(s[k]))
    && s[d] == '.' && NonSpace(s[d + 1])
  }

  /** `/\S+@\S+\.\S+/.test(s)`. */
  predicate LooseEmail(s: string) {
    exists a, d | 0 < a < d < |s| :: LooseEmailAt(s, a, d)
  }

  /** A left-to-right search for the pattern, as a regex engine performs it. */
  method MatchLooseEmail(s: string) returns (found: bool)
    ensures found <==> LooseEmail(s)
  {
    var a := 1;
    while a < |s|
      invariant 1 <= a <= |s| || |s| == 0
      invariant forall a', d' | 0 < a' < a && a' < d' < |s| :: !LooseEmailAt(s, a', d')
    {
      if s[a] == '@' && NonSpace(s[a - 1]) {
        var d := a + 1;
        while d < |s| && NonSpace(s[d])
          invariant a + 1 <= d <= |s|
          invariant forall k | a < k < d :: NonSpace(s[k])
          invariant forall d' | a < d' < d :: !LooseEmailAt(s, a, d')
        {
          if d >= a + 2 && s[d] == '.' && d + 1 < |s| && NonSpace(s[d + 1]) {
            assert LooseEmailAt(s, a, d);
            return true;
          }
          d := d + 1;
        }
        assert forall d' | d <= d' < |s| :: !LooseEmailAt(s, a, d');
      }
      a := a + 1;
    }
    return false;
  }

  // ---------------------------------------------------------------------------
  // The mixed-case password pattern

  /** No line terminator among `s[p..q]`: a regex `.*` can cross from `p` to `q`. */
  predicate SameLine(s: string, p: int, q: int)
    requires 0 <= p <= q <= |s|
  {
    forall k | p <= k < q :: !IsLineTerminator(s[k])
  }

  /** The lookahead `(?=.*[cls])` succeeds at position `p`. */
  predicate LookaheadAt(s: string, p: int, cls: char -> bool)
    requires 0 <= p <= |s|
  {
    exists q | p <= q < |s| :: cls(s[q]) && SameLine(s, p, q)
  }

  /** `/(?=.*[a-z])(?=.*[A-Z])(?=.*\d)/.test(s)`: all three lookaheads succeed at one position. */
  predicate MixedCasePattern(s: string) {
    exists p | 0 <= p <= |s| ::
      LookaheadAt(s, p, IsAsciiLower) && LookaheadAt(s, p, IsAsciiUpper) && LookaheadAt(s, p, IsAsciiDigit)
  }

  /** The three classes each occur somewhere in `s`. */
  predicate HasAllClasses(s: string) {
    Has(s, IsAsciiLower) && Has(s, IsAsciiUpper) && Has(s, IsAsciiDigit)
  }

  /** A pattern match needs each class somewhere. */
  lemma MixedCaseNeedsClasses(s: string)
    requires MixedCasePattern(s)
    ensures HasAllClasses(s)
  {
    var p :| 0 <= p <= |s| && LookaheadAt(s, p, IsAsciiLower) && LookaheadAt(s, p, IsAsciiUpper)
             && LookaheadAt(s, p, IsAsciiDigit);
    var q1 :| p <= q1 < |s| && IsAsciiLower(s[q1]) && SameLine(s, p, q1);
    var q2 :| p <= q2 < |s| && IsAsciiUpper(s[q2]) && SameLine(s, p, q2);
    var q3 :| p <= q3 < |s| && IsAsciiDigit(s[q3]) && SameLine(s, p, q3);
  }

  /** On a single line the pattern is exactly "has a lower-case letter, an upper-case letter and a digit". */
  lemma MixedCaseOnOneLine(s: string)
    requires forall k | 0 <= k < |s| :: !IsLineTerminator(s[k])
    ensures MixedCasePattern(s) <==> HasAllClasses(s)
  {
    if MixedCasePattern(s) {
      MixedCaseNeedsClasses(s);
    }
    if HasAllClasses(s) {
      var q1 :| 0 <= q1 < |s| && IsAsciiLower(s[q1]);
      var q2 :| 0 <= q2 < |s| && IsAsciiUpper(s[q2]);
      var q3 :| 0 <= q3 < |s| && IsAsciiDigit(s[q3]);
      assert SameLine(s, 0, q1) && SameLine(s, 0, q2) && SameLine(s, 0, q3);
      assert LookaheadAt(s, 0, IsAsciiLower) && LookaheadAt(s, 0, IsAsciiUpper) && LookaheadAt(s, 0, IsAsciiDigit);
    }
  }

  /** Across a line break the pattern fails although every class occurs. */
  lemma MixedCaseLineBreak()
    ensures HasAllClasses("abcdefg\nA1")
    ensures !MixedCasePattern("abcdefg\nA1")
  {
    var s := "abcdefg\nA1";
    assert IsAsciiLower(s[0]) && IsAsciiUpper(s[8]) && IsAsciiDigit(s[9]);
    forall p | 0 <= p <= |s|
      ensures !(LookaheadAt(s, p, IsAsciiLower) && LookaheadAt(s, p, IsAsciiUpper))
    {
      if p <= 7 {
        forall q | p <= q < |s| && IsAsciiUpper(s[q]) ensures !SameLine(s, p, q) {
          assert q == 8;
          assert IsLineTerminator(s[7]);
        }
      } else {
        forall q | p <= q < |s| ensures !IsAsciiLower(s[q]) {
          assert q == 8 || q == 9;
        }
      }
    }
  }

  // ---------------------------------------------------------------------------
  // Titles

  /** The title rule of the memory and reminder forms: required, then at least 3 characters after trimming. */
  function TitleError(title: string): (e: Option<string>)
    ensures e.None? <==> |JsTrim(title)| >= 3
    ensures e == Some("Title is required") <==> All(title, IsJsSpace)
    ensures e == Some("Title must be at least 3 characters") <==> 0 < |JsTrim(title)| < 3
  {
    var t := JsTrim(title);
    if t == "" then Some("Title is required")
    else if |t| < 3 then Some("Title must be at least 3 characters")
    else None
  }

  // ---------------------------------------------------------------------------
  // Field errors

  /** Per-field error messages; an empty message is a cleared error. */
  type FieldErrors = map<string, string>

  /** Adds `field := message` when there is a message. */
  function Put(errs: FieldErrors, field: string, e: Option<string>): (r: FieldErrors)
    ensures field in r <==> (field in errs || e.Some?)
    ensures e.Some? ==> r[field] == e.value
    ensures forall k | k in errs && k != field :: k in r && r[k] == errs[k]
    ensures forall k | k in r && k != field :: k in errs
  {
    if e.Some? then errs[field := e.value] else errs
  }

  /** `handleChange`'s clearing: a truthy error for `name` becomes "", nothing else changes. */
  function ClearFieldError(errors: FieldErrors, name: string): (r: FieldErrors)
    ensures r.Keys == errors.Keys
    ensures name in r ==> r[name] == ""
    ensures forall k | k in errors && k != name :: r[k] == errors[k]
  {
    if name in errors && errors[name] != "" then errors[name := ""] else errors
  }
}
