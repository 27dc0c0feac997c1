/**
 * `parseProgressFromOutput`: each line the engine prints is matched against
 * two fixed patterns and may update the page counters.
 *
 *   /Processing pages \d+ through (\d+)/  searched anywhere in the line;
 *                                          sets `total` to the captured number.
 *   /^Page (\d+)$/                         the whole line; sets `currentPage`
 *                                          and `current` to the number.
 *
 * `\d` is an ASCII digit. The numbers are read with `parseInt` on a digit
 * string, which is their decimal value.
 */
module Progress {
  import opened Wrappers
  import opened Text

  datatype ProgressInfo = ProgressInfo(current: int, total: int, currentPage: int)

  const Zero := ProgressInfo(0, 0, 0)

  const ProcessingPages := "Processing pages "
  const Through := " through "
  const PagePrefix := "Page "

  /**
   * The end page captured when the "Processing pages" pattern matches
   * starting exactly at index `i`. Both digit runs are taken whole: the
   * first must be followed by " through ", which starts with a non-digit,
   * and the second ends the pattern, so neither greedy `\d+` has to give
   * back a digit for the match to succeed.
   */
  function TotalMatchAt(line: string, i: nat): Option<nat> {
    if !OccursAt(line, ProcessingPages, i) then None
    else PagesThroughEnd(line[i + |ProcessingPages|..])
  }

  /** `\d+ through (\d+)` at the start of `s`. */
  function PagesThroughEnd(s: string): Option<nat> {
    var a := DigitRun(s, 10);
    if a == 0 || !OccursAt(s, Through, a) then None
    else Captured(s[a + |Through|..])
  }

  /** `(\d+)` at the start of `s`: the value of its whole leading digit run. */
  function Captured(s: string): Option<nat> {
    var b := DigitRun(s, 10);
    if b == 0 then None else Some(ValueIn(s[..b], 10))
  }

  /** The leftmost index at or after `i` where the "Processing pages" pattern matches. */
  function FirstTotalFrom(line: string, i: nat): (r: Option<nat>)
    decreases |line| - i
    ensures r.Some? ==> i <= r.value <= |line| && TotalMatchAt(line, r.value).Some?
    ensures r.Some? ==> forall j :: i <= j < r.value ==> TotalMatchAt(line, j).None?
    ensures r.None? ==> forall j :: i <= j ==> TotalMatchAt(line, j).None?
  {
    if i > |line| then None
    else if TotalMatchAt(line, i).Some? then Some(i)
    else FirstTotalFrom(line, i + 1)
  }

  /** `output.match(/Processing pages \d+ through (\d+)/)`, reduced to the captured end page. */
  function TotalPages(line: string): Option<nat> {
    match FirstTotalFrom(line, 0)
    case Some(k) => TotalMatchAt(line, k)
    case None => None
  }

  /** `output.match(/^Page (\d+)$/)`, reduced to the captured page. */
  function PageNumber(line: string): Option<nat> {
    if !OccursAt(line, PagePrefix, 0) then None
    else
      var digits := line[|PagePrefix|..];
      if digits != [] && DigitRun(digits, 10) == |digits| then Some(ValueIn(digits, 10)) else None
  }

  /** One call of `parseProgressFromOutput` on the counters as they are. */
  function Step(p: ProgressInfo, line: string): ProgressInfo {
    var afterTotal :=
      match TotalPages(line)
      case Some(t) => p.(total := t)
      case None => p;
    match PageNumber(line)
    case Some(n) => afterTotal.(currentPage := n, current := n)
    case None => afterTotal
  }

  /** The counters after the engine's lines have been fed to `Step` in order. */
  function Feed(p: ProgressInfo, lines: seq<string>): ProgressInfo
    decreases |lines|
  {
    if lines == [] then p else Feed(Step(p, lines[0]), lines[1..])
  }

  /** The "Processing pages" pattern can only match where the line holds "Processing pages ". */
  lemma TotalNeedsPhrase(line: string)
    requires !Contains(line, ProcessingPages)
    ensures TotalPages(line).None?
  {
    forall j | 0 <= j ensures TotalMatchAt(line, j).None? {
      if j <= |line| - |ProcessingPages| {
        assert !OccursAt(line, ProcessingPages, j);
      }
    }
  }

  /** A line that is "Page N" cannot also hold the "Processing pages" phrase. */
  lemma PageLineHasNoTotal(line: string)
    requires PageNumber(line).Some?
    ensures TotalPages(line).None?
  {
    var digits := line[|PagePrefix|..];
    forall j | 0 <= j <= |line| - |ProcessingPages| ensures !OccursAt(line, ProcessingPages, j) {
      // ProcessingPages[1] is 'r', and no character of "age " or of the digits is 'r'
      if j + 1 < |PagePrefix| {
        assert line[j + 1] == PagePrefix[j + 1];
      } else {
        assert line[j + 1] == digits[j + 1 - |PagePrefix|];
        assert IsDigit(digits[j + 1 - |PagePrefix|]);
      }
      assert line[j..j + |ProcessingPages|][1] == line[j + 1];
    }
    TotalNeedsPhrase(line);
  }

  /** "Page " followed by a number written in decimal is read back as that number. */
  lemma PageNumberReads(n: nat)
    ensures PageNumber(PagePrefix + NatToString(n)) == Some(n)
  {
    var line := PagePrefix + NatToString(n);
    assert line[..|PagePrefix|] == PagePrefix;
    assert line[|PagePrefix|..] == NatToString(n);
    DigitRunStopsAt(NatToString(n), []);
    assert NatToString(n) + [] == NatToString(n);
  }

  /**
   * A line that is exactly "Page N" sets the current page and `current` to
   * N and leaves `total` as it was.
   */
  lemma PageLineSetsCurrent(p: ProgressInfo, line: string, n: nat)
    requires PageNumber(line) == Some(n)
    ensures Step(p, line) == p.(current := n, currentPage := n)
  {
    PageLineHasNoTotal(line);
  }

  /** The "Page" pattern is anchored at the start: anything before "Page N" defeats it. */
  lemma PagePatternAnchoredAtStart(pre: string, n: nat)
    requires pre != []
    ensures PageNumber(pre + PagePrefix + NatToString(n)) == None
  {
    var line := pre + PagePrefix + NatToString(n);
    if OccursAt(line, PagePrefix, 0) {
      var digits := line[|PagePrefix|..];
      // some character after "Page " is a letter or space of "Page ", or its 'P'
      var q := if |pre| < |PagePrefix| then 0 else |pre| - |PagePrefix|;
      if |pre| < |PagePrefix| {
        assert digits[0] == PagePrefix[|PagePrefix| - |pre|];
      } else {
        assert digits[q] == line[|pre|] == 'P';
      }
      assert !IsDigit(digits[q]);
      assert DigitRun(digits, 10) != |digits|;
    }
  }

  /** The "Page" pattern is anchored at the end: a non-digit after "Page N" defeats it. */
  lemma PagePatternAnchoredAtEnd(n: nat, post: string)
    requires post != [] && !IsDigit(post[0])
    ensures PageNumber(PagePrefix + NatToString(n) + post) == None
  {
    var line := PagePrefix + NatToString(n) + post;
    var digits := line[|PagePrefix|..];
    assert digits == NatToString(n) + post;
    DigitRunStopsAt(NatToString(n), post);
  }

  /** A decimal number at the start of `s`, not followed by another digit, is captured whole. */
  lemma CapturedReads(m: nat, post: string)
    requires post == [] || !IsDigit(post[0])
    ensures Captured(NatToString(m) + post) == Some(m)
  {
    DigitRunStopsAt(NatToString(m), post);
    assert (NatToString(m) + post)[..|NatToString(m)|] == NatToString(m);
  }

  /** The pattern matches where the phrase starts, capturing the end page in full. */
  lemma PhraseMatches(line: string, i: nat, x: nat, m: nat, post: string)
    requires i <= |line| && line[i..] == ProcessingPages + (NatToString(x) + (Through + (NatToString(m) + post)))
    requires post == [] || !IsDigit(post[0])
    ensures TotalMatchAt(line, i) == Some(m)
  {
    var tail := NatToString(x) + (Through + (NatToString(m) + post));
    assert OccursAt(line, ProcessingPages, i) by { assert line[i..][..|ProcessingPages|] == ProcessingPages; }
    assert line[i + |ProcessingPages|..] == tail by { assert line[i + |ProcessingPages|..] == line[i..][|ProcessingPages|..]; }
    DigitRunStopsAt(NatToString(x), Through + (NatToString(m) + post));
    var a := |NatToString(x)|;
    assert OccursAt(tail, Through, a) by { assert tail[a..a + |Through|] == Through; }
    assert tail[a + |Through|..] == NatToString(m) + post;
    CapturedReads(m, post);
  }

  /** The leftmost match decides what is captured. */
  lemma LeftmostMatchWins(line: string, i: nat, m: nat)
    requires TotalMatchAt(line, i) == Some(m)
    requires forall j :: 0 <= j < i ==> TotalMatchAt(line, j).None?
    ensures TotalPages(line) == Some(m)
  {
  }

  /** No match can start inside a leading text without a 'P'. */
  lemma NoMatchInside(line: string, pre: string)
    requires 'P' !in pre && |pre| <= |line| && line[..|pre|] == pre
    ensures forall j :: 0 <= j < |pre| ==> TotalMatchAt(line, j).None?
  {
    forall j | 0 <= j < |pre| ensures TotalMatchAt(line, j).None? {
      assert line[j] == pre[j] && pre[j] in pre;
      if j + |ProcessingPages| <= |line| {
        assert line[j..j + |ProcessingPages|][0] == line[j];
      }
    }
  }

  /** A line holding "Processing pages " anywhere is not a "Page N" line. */
  lemma PhraseLineIsNoPageLine(line: string)
    requires Contains(line, ProcessingPages)
    ensures PageNumber(line) == None
  {
    var j :| 0 <= j <= |line| - |ProcessingPages| && OccursAt(line, ProcessingPages, j);
    // the phrase's 'r' at j + 1 is neither a character of "age " nor a digit
    assert line[j + 1] == 'r' by { assert line[j..j + |ProcessingPages|][1] == line[j + 1]; }
    if j + 1 < |PagePrefix| {
      assert line[..|PagePrefix|][j + 1] == line[j + 1];
      assert PagePrefix[j + 1] != 'r';
      assert !OccursAt(line, PagePrefix, 0);
    } else {
      var digits := line[|PagePrefix|..];
      assert digits[j + 1 - |PagePrefix|] == 'r';
      assert !IsDigit(digits[j + 1 - |PagePrefix|]);
      assert DigitRun(digits, 10) != |digits|;
    }
  }

  /** Whenever the "Processing pages" pattern matches, the line sets `total` to the capture and nothing else. */
  lemma TotalSetsTotal(p: ProgressInfo, line: string, m: nat)
    requires TotalPages(line) == Some(m)
    ensures Step(p, line) == p.(total := m)
  {
    var k := FirstTotalFrom(line, 0).value;
    assert OccursAt(line, ProcessingPages, k);
    PhraseLineIsNoPageLine(line);
  }

  /**
   * The "Processing pages" pattern is not anchored: a line holding
   * "Processing pages X through M" after any text in which no match starts,
   * and followed by anything that does not extend M, sets `total` to M and
   * nothing else.
   */
  lemma TotalLineSetsTotal(p: ProgressInfo, pre: string, x: nat, m: nat, post: string)
    requires forall j :: 0 <= j < |pre| ==>
      TotalMatchAt(pre + ProcessingPages + NatToString(x) + Through + NatToString(m) + post, j).None?
    requires post == [] || !IsDigit(post[0])
    ensures Step(p, pre + ProcessingPages + NatToString(x) + Through + NatToString(m) + post) == p.(total := m)
  {
    var line := pre + ProcessingPages + NatToString(x) + Through + NatToString(m) + post;
    Regroup(pre, ProcessingPages, NatToString(x), Through, NatToString(m), post);
    PhraseMatches(line, |pre|, x, m, post);
    LeftmostMatchWins(line, |pre|, m);
    TotalSetsTotal(p, line, m);
  }

  /** In particular, any text without a 'P' may come before the phrase. */
  lemma PlainPrefixTotalLine(p: ProgressInfo, pre: string, x: nat, m: nat, post: string)
    requires 'P' !in pre
    requires post == [] || !IsDigit(post[0])
    ensures Step(p, pre + ProcessingPages + NatToString(x) + Through + NatToString(m) + post) == p.(total := m)
  {
    var line := pre + ProcessingPages + NatToString(x) + Through + NatToString(m) + post;
    Regroup(pre, ProcessingPages, NatToString(x), Through, NatToString(m), post);
    NoMatchInside(line, pre);
    TotalLineSetsTotal(p, pre, x, m, post);
  }

  /** Splitting a concatenation of six pieces after the first. */
  lemma Regroup<T>(a: seq<T>, b: seq<T>, c: seq<T>, d: seq<T>, e: seq<T>, f: seq<T>)
    ensures (a + b + c + d + e + f)[..|a|] == a
    ensures (a + b + c + d + e + f)[|a|..] == b + (c + (d + (e + f)))
  {
  }

  /** A line that matches neither pattern, whatever it holds, leaves the counters alone. */
  lemma OtherLinesIgnored(p: ProgressInfo, line: string)
    requires TotalPages(line).None?
    requires PageNumber(line).None?
    ensures Step(p, line) == p
  {
  }

  /** In particular, a line without "Processing pages " that is no "Page N" line leaves the counters alone. */
  lemma PhraselessLineIgnored(p: ProgressInfo, line: string)
    requires !Contains(line, ProcessingPages)
    requires PageNumber(line).None?
    ensures Step(p, line) == p
  {
    TotalNeedsPhrase(line);
    OtherLinesIgnored(p, line);
  }

  /** Feeding more lines continues from where the earlier ones left the counters: one `Step` per line, in order. */
  lemma {:induction false} FeedAppend(p: ProgressInfo, lines: seq<string>, line: string)
    ensures Feed(p, lines + [line]) == Step(Feed(p, lines), line)
    decreases |lines|
  {
    if lines == [] {
      assert [] + [line] == [line];
    } else {
      assert (lines + [line])[1..] == lines[1..] + [line];
      FeedAppend(Step(p, lines[0]), lines[1..], line);
    }
  }

  /** "Processing pages 1 through 42" then "Page 7" leaves the counters at page 7 of 42. */
  lemma FeedExample()
    ensures Feed(Zero, ["Processing pages 1 through 42", "Page 7"]) == ProgressInfo(7, 42, 7)
  {
    var first := "Processing pages 1 through 42";
    var p := ProgressInfo(0, 42, 0);
    assert Step(Zero, first) == p by {
      assert NatToString(1) == "1" && NatToString(42) == "42";
      assert first == [] + ProcessingPages + NatToString(1) + Through + NatToString(42) + [];
      TotalLineSetsTotal(Zero, [], 1, 42, []);
    }
    assert Step(p, "Page 7") == ProgressInfo(7, 42, 7) by {
      assert "Page 7" == PagePrefix + NatToString(7);
      PageNumberReads(7);
      PageLineSetsCurrent(p, "Page 7", 7);
    }
    assert Feed(Zero, [first]) == Step(Zero, first) by {
      FeedAppend(Zero, [], first);
      assert [] + [first] == [first];
    }
    FeedAppend(Zero, [first], "Page 7");
    assert [first] + ["Page 7"] == [first, "Page 7"];
  }
}
