/**
 * The pieces of JavaScript string semantics the application relies on:
 * `String.prototype.includes`, the first-occurrence search behind
 * `String.prototype.replace` with a string pattern, `String.prototype.trim`,
 * the global `parseInt` with the radix omitted, and the decimal rendering of a
 * non-negative integer inside a template literal.
 */
module Text {
  import opened Wrappers

  // ---------------------------------------------------------------------------
  // Occurrences of a pattern
  // ---------------------------------------------------------------------------

  predicate OccursAt(s: string, pat: string, i: int) {
    0 <= i && i + |pat| <= |s| && s[i..i + |pat|] == pat
  }

  /** `s.includes(pat)`: the pattern occurs somewhere in `s`. */
  predicate Contains(s: string, pat: string) {
    exists i | 0 <= i <= |s| - |pat| :: OccursAt(s, pat, i)
  }

  /** The first index at or after `k` where `pat` occurs. */
  function IndexFrom(s: string, pat: string, k: nat): (r: Option<nat>)
    decreases |s| - k
    ensures r.Some? ==> k <= r.value && OccursAt(s, pat, r.value)
    ensures r.Some? ==> forall j :: k <= j < r.value ==> !OccursAt(s, pat, j)
    ensures r.None? ==> forall j :: k <= j ==> !OccursAt(s, pat, j)
  {
    if k + |pat| > |s| then None
    else if s[k..k + |pat|] == pat then Some(k)
    else IndexFrom(s, pat, k + 1)
  }

  /** `s.indexOf(pat)`, with `None` for -1. */
  function IndexOf(s: string, pat: string): (r: Option<nat>)
    ensures r.Some? <==> Contains(s, pat)
    ensures r.Some? ==> OccursAt(s, pat, r.value)
    ensures r.Some? ==> forall j :: 0 <= j < r.value ==> !OccursAt(s, pat, j)
  {
    IndexFrom(s, pat, 0)
  }

  /** `s.replace(pat, '')` with a string pattern: only the first occurrence goes. */
  function RemoveFirst(s: string, pat: string): string {
    match IndexOf(s, pat)
    case None => s
    case Some(i) => s[..i] + s[i + |pat|..]
  }

  /** Removing the first occurrence leaves what precedes and what follows it. */
  lemma RemoveFirstAt(pre: string, pat: string, post: string)
    requires forall j :: 0 <= j < |pre| ==> !OccursAt(pre + pat + post, pat, j)
    ensures RemoveFirst(pre + pat + post, pat) == pre + post
  {
    var s := pre + pat + post;
    assert OccursAt(s, pat, |pre|) by { assert s[|pre|..|pre| + |pat|] == pat; }
    var r := IndexOf(s, pat);
    assert r == Some(|pre|);
    assert s[..|pre|] == pre && s[|pre| + |pat|..] == post;
  }

  /** A string without the pattern is left as it is. */
  lemma RemoveFirstAbsent(s: string, pat: string)
    requires !Contains(s, pat)
    ensures RemoveFirst(s, pat) == s
  {
  }

  // ---------------------------------------------------------------------------
  // Whitespace and trim
  // ---------------------------------------------------------------------------

  /** ECMAScript WhiteSpace and LineTerminator code points: the set that `trim` removes and `parseInt` skips. */
  predicate IsJsSpace(c: char) {
    var k := c as int;
    k == 0x09 || k == 0x0A || k == 0x0B || k == 0x0C || k == 0x0D || k == 0x20 || k == 0xA0 ||
    k == 0x1680 || (0x2000 <= k <= 0x200A) || k == 0x2028 || k == 0x2029 || k == 0x202F ||
    k == 0x205F || k == 0x3000 || k == 0xFEFF
  }

  predicate NoSpace(s: string) {
    forall i :: 0 <= i < |s| ==> !IsJsSpace(s[i])
  }

  /** `s.trimStart()`: a suffix of `s` whose dropped prefix is all whitespace. */
  function TrimStart(s: string): (r: string)
    ensures |r| <= |s| && r == s[|s| - |r|..]
    ensures forall i :: 0 <= i < |s| - |r| ==> IsJsSpace(s[i])
    ensures r != [] ==> !IsJsSpace(r[0])
  {
    if s != [] && IsJsSpace(s[0]) then TrimStart(s[1..]) else s
  }

  /** `s.trimEnd()`: a prefix of `s` whose dropped suffix is all whitespace. */
  function TrimEnd(s: string): (r: string)
    ensures |r| <= |s| && r == s[..|r|]
    ensures forall i :: |r| <= i < |s| ==> IsJsSpace(s[i])
    ensures r != [] ==> !IsJsSpace(r[|r| - 1])
  {
    if s != [] && IsJsSpace(s[|s| - 1]) then TrimEnd(s[..|s| - 1]) else s
  }

  /** `s.trim()`: blank exactly when `s` is all whitespace; otherwise it starts and ends on a non-space. */
  function Trim(s: string): (r: string)
    ensures r == [] <==> forall i :: 0 <= i < |s| ==> IsJsSpace(s[i])
    ensures r != [] ==> !IsJsSpace(r[0]) && !IsJsSpace(r[|r| - 1])
  {
    var t := TrimStart(s);
    var r := TrimEnd(t);
    assert r == [] ==> t == [];
    r
  }

  /** What `trim` keeps is the window `s[a..a + |Trim(s)|]`, with only whitespace on either side of it. */
  lemma TrimWindow(s: string) returns (a: nat)
    ensures a + |Trim(s)| <= |s| && Trim(s) == s[a..a + |Trim(s)|]
    ensures forall i :: 0 <= i < a ==> IsJsSpace(s[i])
    ensures forall i :: a + |Trim(s)| <= i < |s| ==> IsJsSpace(s[i])
  {
    var t := TrimStart(s);
    a := |s| - |t|;
    var r := TrimEnd(t);
    assert Trim(s) == r;
    forall i | a + |r| <= i < |s| ensures IsJsSpace(s[i]) {
      assert s[i] == t[i - a];
    }
  }

  /** Two non-space characters of `s`, and everything between them, lie inside the window that `trim` keeps. */
  lemma NonSpaceSpanKept(s: string, p: int, q: int) returns (a: nat)
    requires 0 <= p <= q < |s| && !IsJsSpace(s[p]) && !IsJsSpace(s[q])
    ensures a + |Trim(s)| <= |s| && Trim(s) == s[a..a + |Trim(s)|]
    ensures a <= p && q < a + |Trim(s)|
  {
    a := TrimWindow(s);
  }

  /** An occurrence of a space-free token survives `trim`. */
  lemma TrimKeepsOccurrence(s: string, tok: string, i: int)
    requires tok != [] && NoSpace(tok) && OccursAt(s, tok, i)
    ensures Contains(Trim(s), tok)
  {
    var e := i + |tok| - 1;
    assert s[i] == tok[0] by { assert s[i..i + |tok|][0] == s[i]; }
    assert s[e] == tok[|tok| - 1] by { assert s[i..i + |tok|][|tok| - 1] == s[e]; }
    var a := NonSpaceSpanKept(s, i, e);
    var r := Trim(s);
    forall k | 0 <= k < |tok| ensures r[i - a + k] == tok[k] {
      assert r[i - a + k] == s[i + k];
      assert s[i..i + |tok|][k] == s[i + k];
    }
    assert r[i - a..i - a + |tok|] == tok;
    assert OccursAt(r, tok, i - a);
  }

  /** An occurrence in what `trim` keeps is an occurrence in the original. */
  lemma TrimmedOccurrenceLifts(s: string, tok: string, j: int)
    requires OccursAt(Trim(s), tok, j)
    ensures Contains(s, tok)
  {
    var r := Trim(s);
    var a := TrimWindow(s);
    forall k | 0 <= k < |tok| ensures s[a + j + k] == tok[k] {
      assert r[j..j + |tok|][k] == r[j + k];
      assert r[j + k] == s[a + j + k];
    }
    assert s[a + j..a + j + |tok|] == tok;
    assert OccursAt(s, tok, a + j);
  }

  /**
   * Trimming can neither create nor destroy an occurrence of a non-empty
   * token that holds no whitespace: every such occurrence lies inside the
   * part that `trim` keeps.
   */
  lemma TrimKeepsToken(s: string, tok: string)
    requires tok != [] && NoSpace(tok)
    ensures Contains(Trim(s), tok) <==> Contains(s, tok)
  {
    if Contains(s, tok) {
      var i :| 0 <= i <= |s| - |tok| && OccursAt(s, tok, i);
      TrimKeepsOccurrence(s, tok, i);
    }
    if Contains(Trim(s), tok) {
      var j :| 0 <= j <= |Trim(s)| - |tok| && OccursAt(Trim(s), tok, j);
      TrimmedOccurrenceLifts(s, tok, j);
    }
  }

  // ---------------------------------------------------------------------------
  // Digits, parseInt and number rendering
  // ---------------------------------------------------------------------------

  /** The value of a character as a digit in a radix up to 36, as `parseInt` reads it; 36 for any other character. */
  function DigitValue(c: char): (d: nat)
    ensures d <= 36
  {
    if '0' <= c <= '9' then c as int - '0' as int
    else if 'a' <= c <= 'z' then c as int - 'a' as int + 10
    else if 'A' <= c <= 'Z' then c as int - 'A' as int + 10
    else 36
  }

  predicate IsDigitIn(c: char, radix: nat) {
    DigitValue(c) < radix
  }

  /** The ASCII decimal digits, which is also what a regular expression's `\d` matches. */
  predicate IsDigit(c: char) {
    IsDigitIn(c, 10)
  }

  predicate AllDigits(s: string) {
    forall i :: 0 <= i < |s| ==> IsDigit(s[i])
  }

  /** The length of the longest prefix of `s` made of digits of the radix. */
  function DigitRun(s: string, radix: nat): (n: nat)
    ensures n <= |s|
    ensures forall i :: 0 <= i < n ==> IsDigitIn(s[i], radix)
    ensures n < |s| ==> !IsDigitIn(s[n], radix)
  {
    if s != [] && IsDigitIn(s[0], radix) then 1 + DigitRun(s[1..], radix) else 0
  }

  lemma ProductIsNat(a: nat, b: nat)
    ensures a * b >= 0
  {
  }

  /** The value of a string of digits of the radix, most significant digit first. */
  function ValueIn(s: string, radix: nat): nat
    requires forall i :: 0 <= i < |s| ==> IsDigitIn(s[i], radix)
  {
    if s == [] then 0
    else
      var init := s[..|s| - 1];
      assert forall i :: 0 <= i < |init| ==> init[i] == s[i];
      var v := ValueIn(init, radix);
      ProductIsNat(v, radix);
      v * radix + DigitValue(s[|s| - 1])
  }

  /**
   * The global `parseInt(s)` with the radix omitted: leading whitespace is
   * skipped, one sign is read, a `0x`/`0X` prefix switches to radix 16, and
   * the longest run of digits that follows is read; without any digit the
   * result is NaN, here `None`.
   */
  function ParseInt(s: string): Option<int> {
    var t := TrimStart(s);
    var negative := t != [] && t[0] == '-';
    var u := if t != [] && (t[0] == '-' || t[0] == '+') then t[1..] else t;
    var hex := |u| >= 2 && u[0] == '0' && (u[1] == 'x' || u[1] == 'X');
    var radix := if hex then 16 else 10;
    var body := if hex then u[2..] else u;
    var n := DigitRun(body, radix);
    if n == 0 then None
    else
      var v: int := ValueIn(body[..n], radix);
      Some(if negative then -v else v)
  }

  function DigitChar(d: nat): (c: char)
    requires d < 10
    ensures IsDigit(c) && DigitValue(c) == d
  {
    ('0' as int + d) as char
  }

  /** A non-negative integer written in decimal, as a template literal renders it: digits only, no leading zero, and reading back to `n`. */
  function NatToString(n: nat): (r: string)
    ensures r != [] && AllDigits(r)
    ensures n > 0 ==> r[0] != '0'
    ensures ValueIn(r, 10) == n
  {
    if n < 10 then [DigitChar(n)]
    else
      var r := NatToString(n / 10) + [DigitChar(n % 10)];
      assert r[..|r| - 1] == NatToString(n / 10);
      r
  }

  /** The digit run of `d + rest` is exactly `d` when `rest` does not go on with a digit. */
  lemma {:induction false} DigitRunStopsAt(d: string, rest: string)
    requires AllDigits(d)
    requires rest == [] || !IsDigit(rest[0])
    ensures DigitRun(d + rest, 10) == |d|
  {
    if d != [] {
      assert (d + rest)[1..] == d[1..] + rest;
      DigitRunStopsAt(d[1..], rest);
    }
  }

  /** A string that starts with a decimal digit other than a `0x` prefix is read as its leading digit run. */
  lemma ParseIntOfDigits(s: string)
    requires s != [] && IsDigit(s[0])
    requires !(|s| >= 2 && s[0] == '0' && (s[1] == 'x' || s[1] == 'X'))
    ensures ParseInt(s) == Some(ValueIn(s[..DigitRun(s, 10)], 10))
  {
    assert !IsJsSpace(s[0]);
    assert TrimStart(s) == s;
    assert DigitRun(s, 10) > 0;
  }

  /**
   * `parseInt` reads back what `NatToString` writes, and ignores whatever
   * follows the digits, provided it does not continue them: neither another
   * digit nor, after a lone "0", an `x` that would turn the prefix into `0x`.
   */
  lemma ParseIntReadsNumber(n: nat, rest: string)
    requires rest == [] || (!IsDigit(rest[0]) && rest[0] != 'x' && rest[0] != 'X')
    ensures ParseInt(NatToString(n) + rest) == Some(n)
  {
    var d := NatToString(n);
    var s := d + rest;
    assert s[0] == d[0];
    assert !(|s| >= 2 && s[0] == '0' && (s[1] == 'x' || s[1] == 'X')) by {
      if |d| >= 2 { assert s[1] == d[1]; } else if |s| >= 2 { assert s[1] == rest[0]; }
    }
    ParseIntOfDigits(s);
    DigitRunStopsAt(d, rest);
    assert s[..|d|] == d;
  }

  /** `parseInt` of a number read back exactly. */
  lemma ParseIntRoundTrip(n: nat)
    ensures ParseInt(NatToString(n)) == Some(n)
  {
    ParseIntReadsNumber(n, []);
    assert NatToString(n) + [] == NatToString(n);
  }
}
