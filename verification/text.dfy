/**
 * String primitives shared by the client (JavaScript) and the server (Python):
 * the two whitespace sets and trimming, ASCII character classes, substring
 * search, `parseInt`, decimal rendering and character replacement.
 */
module Text {
  import opened Wrappers

  // ---------------------------------------------------------------------------
  // Character classes

  /** JavaScript LineTerminator; also the characters a regex `.` does not match. */
  predicate IsLineTerminator(c: char) {
    c == '\n' || c == '\r' || c == '\U{2028}' || c == '\U{2029}'
  }

  /** Whitespace that JavaScript `trim` and Python `str.strip` both remove. */
  predicate IsCommonSpace(c: char) {
    || IsLineTerminator(c)
    || c == '\t' || c == '\U{0B}' || c == '\U{0C}' || c == ' '
    || c == '\U{A0}' || c == '\U{1680}' || ('\U{2000}' <= c <= '\U{200A}')
    || c == '\U{202F}' || c == '\U{205F}' || c == '\U{3000}'
  }

  /** JavaScript WhiteSpace or LineTerminator: what `trim` removes and what `\S` excludes. */
  predicate IsJsSpace(c: char) {
    IsCommonSpace(c) || c == '\U{FEFF}'
  }

  /** Python `str.isspace`: what `str.strip()` removes. */
  predicate IsPySpace(c: char) {
    IsCommonSpace(c) || ('\U{1C}' <= c <= '\U{1F}') || c == '\U{85}'
  }

  predicate IsAsciiLower(c: char) { 'a' <= c <= 'z' }
  predicate IsAsciiUpper(c: char) { 'A' <= c <= 'Z' }
  predicate IsAsciiDigit(c: char) { '0' <= c <= '9' }
  predicate IsAsciiLetter(c: char) { IsAsciiLower(c) || IsAsciiUpper(c) }
  predicate IsAsciiAlnum(c: char) { IsAsciiLetter(c) || IsAsciiDigit(c) }

  /** Some character of `s` satisfies `p` (an unanchored one-character regex test). */
  predicate Has(s: string, p: char -> bool) {
    exists i | 0 <= i < |s| :: p(s[i])
  }

  /** Every character of `s` satisfies `p`. */
  predicate All(s: string, p: char -> bool) {
    forall i | 0 <= i < |s| :: p(s[i])
  }

  // ---------------------------------------------------------------------------
  // Trimming

  /** `t` is what trimming the characters satisfying `sp` from both ends of `s` leaves. */
  ghost predicate IsTrimOf(s: string, t: string, sp: char -> bool) {
    exists i, j {:trigger s[i..j]} | 0 <= i <= j <= |s| ::
      && t == s[i..j]
      && All(s[..i], sp)
      && All(s[j..], sp)
      && (t == [] || (!sp(t[0]) && !sp(t[|t| - 1])))
  }

  function TrimStartBy(s: string, sp: char -> bool): (r: string)
    ensures |r| <= |s| && r == s[|s| - |r|..]
    ensures All(s[..|s| - |r|], sp)
    ensures r == [] || !sp(r[0])
  {
    if |s| > 0 && sp(s[0]) then TrimStartBy(s[1..], sp) else s
  }

  function TrimEndBy(s: string, sp: char -> bool): (r: string)
    ensures |r| <= |s| && r == s[..|r|]
    ensures All(s[|r|..], sp)
    ensures r == [] || !sp(r[|r| - 1])
  {
    if |s| > 0 && sp(s[|s| - 1]) then TrimEndBy(s[..|s| - 1], sp) else s
  }

  /** Trimming the start and then the end leaves an infix of `s` between runs of `sp`. */
  lemma TrimPartsAreTrim(s: string, sp: char -> bool)
    ensures IsTrimOf(s, TrimEndBy(TrimStartBy(s, sp), sp), sp)
  {
    var a := TrimStartBy(s, sp);
    var r := TrimEndBy(a, sp);
    var i := |s| - |a|;
    var j := i + |r|;
    assert s[i..j] == r;
    assert s[j..] == a[|r|..];
    assert r == [] || r[0] == a[0];
  }

  /** Trimming leaves nothing exactly when every character is white space. */
  lemma TrimPartsEmpty(s: string, sp: char -> bool)
    ensures TrimEndBy(TrimStartBy(s, sp), sp) == [] <==> All(s, sp)
  {
    var a := TrimStartBy(s, sp);
    var r := TrimEndBy(a, sp);
    var i := |s| - |a|;
    if r == [] {
      assert a == [];
      forall k | 0 <= k < |s| ensures sp(s[k]) {
        assert s[k] == s[..i][k];
      }
    } else {
      assert s[i] == r[0];
    }
  }

  /** Removes the characters satisfying `sp` from both ends. */
  function TrimBy(s: string, sp: char -> bool): (r: string)
    ensures IsTrimOf(s, r, sp)
    ensures r == [] || (!sp(r[0]) && !sp(r[|r| - 1]))
    ensures r == [] <==> All(s, sp)
  {
    TrimPartsAreTrim(s, sp);
    TrimPartsEmpty(s, sp);
    var r := TrimEndBy(TrimStartBy(s, sp), sp);
    assert r == [] || r[0] == TrimStartBy(s, sp)[0];
    r
  }

  /** Non-empty text that neither starts nor ends with JavaScript white space. */
  predicate JsUnpadded(s: string) {
    s != [] && !IsJsSpace(s[0]) && !IsJsSpace(s[|s| - 1])
  }

  /** JavaScript `String.prototype.trim`. */
  function JsTrim(s: string): (r: string)
    ensures r == [] || JsUnpadded(r)
  {
    TrimBy(s, IsJsSpace)
  }

  /** Python `str.strip()` with no argument. */
  function PyStrip(s: string): string {
    TrimBy(s, IsPySpace)
  }

  /** Trimming twice is trimming once. */
  lemma TrimIdempotent(s: string, sp: char -> bool)
    ensures TrimBy(TrimBy(s, sp), sp) == TrimBy(s, sp)
  {
    var t := TrimBy(s, sp);
    var i, j :| 0 <= i <= j <= |s| && t == s[i..j] && (t == [] || (!sp(t[0]) && !sp(t[|t| - 1])));
    assert TrimStartBy(t, sp) == t;
  }

  /** Stripping twice is stripping once. */
  lemma PyStripIdempotent(s: string)
    ensures PyStrip(PyStrip(s)) == PyStrip(s)
  {
    TrimIdempotent(s, IsPySpace);
  }

  // ---------------------------------------------------------------------------
  // Case mapping

  function AsciiLowerChar(c: char): char {
    if IsAsciiUpper(c) then (c as int - 'A' as int + 'a' as int) as char else c
  }

  /** Lower-casing, ASCII letters only. */
  function AsciiLower(s: string): (r: string)
    ensures |r| == |s|
    ensures forall i | 0 <= i < |s| :: r[i] == AsciiLowerChar(s[i])
  {
    seq(|s|, i requires 0 <= i < |s| => AsciiLowerChar(s[i]))
  }

  // ---------------------------------------------------------------------------
  // Substrings

  /** `sub` occurs in `s` (JavaScript `includes`, Python `in`, SQL `contains`). */
  predicate Contains(s: string, sub: string) {
    exists i | 0 <= i <= |s| - |sub| :: OccursAt(s, sub, i)
  }

  predicate OccursAt(s: string, sub: string, i: int) {
    0 <= i <= |s| - |sub| && s[i..i + |sub|] == sub
  }

  /** A string contained in a part of `s` is contained in `s`. */
  lemma ContainsInSlice(s: string, lo: int, hi: int, sub: string)
    requires 0 <= lo <= hi <= |s|
    requires Contains(s[lo..hi], sub)
    ensures Contains(s, sub)
  {
    var i :| 0 <= i <= (hi - lo) - |sub| && OccursAt(s[lo..hi], sub, i);
    forall k | 0 <= k < |sub| ensures s[lo + i + k] == sub[k] {
      assert s[lo..hi][i..i + |sub|][k] == sub[k];
    }
    assert OccursAt(s, sub, lo + i);
  }

  /** No character `x` of `s` is directly followed by `y`. */
  predicate NoPair(s: string, x: char, y: char) {
    forall i | 0 <= i < |s| - 1 :: !(s[i] == x && s[i + 1] == y)
  }

  /** A string whose first two characters never appear side by side in `s` does not occur in `s`. */
  lemma NotContainsByPair(s: string, sub: string)
    requires |sub| >= 2 && NoPair(s, sub[0], sub[1])
    ensures !Contains(s, sub)
  {
    forall i | 0 <= i <= |s| - |sub| ensures !OccursAt(s, sub, i) {
      assert s[i..i + |sub|][0] == s[i] && s[i..i + |sub|][1] == s[i + 1];
    }
  }

  /** Pairs are absent from a concatenation when absent from both parts and from the seam. */
  lemma NoPairAppend(a: string, b: string, x: char, y: char)
    requires NoPair(a, x, y) && NoPair(b, x, y)
    requires a == [] || b == [] || !(a[|a| - 1] == x && b[0] == y)
    ensures NoPair(a + b, x, y)
  {
    var m := a + b;
    forall i | 0 <= i < |m| - 1 ensures !(m[i] == x && m[i + 1] == y) {
      if i + 1 < |a| {
        assert m[i] == a[i] && m[i + 1] == a[i + 1];
      } else if i + 1 == |a| {
        assert m[i] == a[|a| - 1] && m[i + 1] == b[0];
      } else {
        assert m[i] == b[i - |a|] && m[i + 1] == b[i + 1 - |a|];
      }
    }
  }

  /** A string with a character that `s` lacks does not occur in `s`. */
  lemma NotContainsByChar(s: string, sub: string, k: int)
    requires 0 <= k < |sub| && sub[k] !in s
    ensures !Contains(s, sub)
  {
    forall i | 0 <= i <= |s| - |sub| ensures !OccursAt(s, sub, i) {
      assert s[i..i + |sub|][k] == s[i + k];
    }
  }

  // ---------------------------------------------------------------------------
  // Decimal numbers

  function DigitValue(c: char): nat
    requires IsAsciiDigit(c)
  {
    c as int - '0' as int
  }

  function DigitChar(d: nat): (c: char)
    requires d < 10
    ensures IsAsciiDigit(c) && DigitValue(c) == d
  {
    ('0' as int + d) as char
  }

  /** Value of a string of decimal digits, most significant first. */
  function DigitsValue(ds: string): nat
    requires All(ds, IsAsciiDigit)
  {
    if ds == [] then 0
    else DigitsValue(ds[..|ds| - 1]) * 10 + DigitValue(ds[|ds| - 1])
  }

  /** The longest prefix of ASCII digits. */
  function DigitPrefix(s: string): (ds: string)
    ensures |ds| <= |s| && ds == s[..|ds|]
    ensures All(ds, IsAsciiDigit)
    ensures |ds| == |s| || !IsAsciiDigit(s[|ds|])
  {
    if |s| > 0 && IsAsciiDigit(s[0]) then [s[0]] + DigitPrefix(s[1..]) else []
  }

  /**
   * JavaScript `parseInt(s)` read as decimal: leading whitespace is skipped, an
   * optional sign is read, then the longest run of digits; no digits is NaN,
   * modelled as `None`. Called without a radix, JavaScript reads a "0x"
   * prefix as hexadecimal, which this function does not.
   */
  function ParseInt(s: string): Option<int> {
    var t := TrimStartBy(s, IsJsSpace);
    var neg := |t| > 0 && t[0] == '-';
    var rest := if |t| > 0 && (t[0] == '-' || t[0] == '+') then t[1..] else t;
    var ds := DigitPrefix(rest);
    var v: int := if ds == [] then 0 else DigitsValue(ds);
    if ds == [] then None
    else if neg then Some(-v)
    else Some(v)
  }

  /** Decimal rendering of a natural number (JavaScript `toString`, Python `str`). */
  function DecimalString(n: nat): (s: string)
    ensures |s| > 0 && All(s, IsAsciiDigit)
  {
    if n < 10 then [DigitChar(n)] else DecimalString(n / 10) + [DigitChar(n % 10)]
  }

  lemma {:induction false} DecimalStringValue(n: nat)
    ensures DigitsValue(DecimalString(n)) == n
  {
    if n >= 10 {
      var s := DecimalString(n);
      assert s[..|s| - 1] == DecimalString(n / 10);
      DecimalStringValue(n / 10);
    } else {
      var s := DecimalString(n);
      assert s[..0] == [];
    }
  }

  /** `parseInt` reads back exactly the number a decimal rendering wrote. */
  lemma ParseIntOfDecimal(n: nat)
    ensures ParseInt(DecimalString(n)) == Some(n)
  {
    var s := DecimalString(n);
    assert DigitPrefix(s) == s;
    DecimalStringValue(n);
  }

  // ---------------------------------------------------------------------------
  // Replacement

  /** Python `s.replace(c, rep)` for a one-character pattern: every occurrence is replaced. */
  function ReplaceChar(s: string, c: char, rep: string): (r: string)
    ensures c !in s ==> r == s
  {
    if s == [] then []
    else (if s[0] == c then rep else [s[0]]) + ReplaceChar(s[1..], c, rep)
  }

  lemma {:induction false} ReplaceCharAppend(a: string, b: string, c: char, rep: string)
    ensures ReplaceChar(a + b, c, rep) == ReplaceChar(a, c, rep) + ReplaceChar(b, c, rep)
  {
    if a != [] {
      assert (a + b)[1..] == a[1..] + b;
      ReplaceCharAppend(a[1..], b, c, rep);
    } else {
      assert a + b == b;
    }
  }
}
