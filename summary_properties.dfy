/**
 * What `parseTestResults` promises: each count comes from the first marker of
 * its kind, an absent marker counts 0, the fallback is consulted only when the
 * primary markers add up to 0, and the counts a runner prints are read back.
 */
module SummaryProperties {
  import opened Wrappers
  import opened Digits
  import opened Summary

  /** The count of a marker is the value at its leftmost match, whichever way that match is found. */
  lemma PlaywrightCountIsFirstMatch(s: string, suffix: string, a: nat, b: nat)
    requires StartsWithNonDigit(suffix) && NumberThenAt(s, suffix, a, b)
    requires forall a': nat, b': nat | a' < a :: !NumberThenAt(s, suffix, a', b')
    ensures AllDigits(s[a..b]) && PlaywrightCount(s, suffix) == ParseDigits(s[a..b])
  {
    DigitsSlice(s, a, b);
    FindNumberThenLeftmost(s, suffix, 0);
    var m := FindNumberThen(s, suffix, 0);
    assert m.Some?;
    var sp := m.value;
    assert sp.start == a;
    if b < sp.end {
      NotAtDigit(s, b, suffix);
    }
    assert sp.end == b;
  }

  /** Likewise for `/prefix(\d+)/`, whose capture runs to the end of the digits. */
  lemma NodeCountIsFirstMatch(s: string, prefix: string, a: nat, b: nat)
    requires NumberAfterAt(s, prefix, a, b) && (b < |s| ==> !IsDigit(s[b]))
    requires forall a': nat, b': nat | a' < a :: !NumberAfterAt(s, prefix, a', b')
    ensures AllDigits(s[a + |prefix|..b]) && NodeCount(s, prefix) == ParseDigits(s[a + |prefix|..b])
  {
    DigitsSlice(s, a + |prefix|, b);
    FindNumberAfterLeftmost(s, prefix, 0);
    var m := FindNumberAfter(s, prefix, 0);
    assert m.Some?;
    var sp := m.value;
    assert sp.start == a;
    assert sp.end == b;
  }

  /** A browser-runner marker that never follows digits in the output counts 0. */
  lemma AbsentSuffixCountsZero(s: string, suffix: string)
    requires StartsWithNonDigit(suffix)
    requires forall a: nat, b: nat :: !NumberThenAt(s, suffix, a, b)
    ensures PlaywrightCount(s, suffix) == 0
  {
    FindNumberThenLeftmost(s, suffix, 0);
    assert FindNumberThen(s, suffix, 0).None?;
  }

  /** A unit-runner marker that is never followed by digits in the output counts 0. */
  lemma AbsentPrefixCountsZero(s: string, prefix: string)
    requires forall a: nat, b: nat :: !NumberAfterAt(s, prefix, a, b)
    ensures NodeCount(s, prefix) == 0
  {
    FindNumberAfterLeftmost(s, prefix, 0);
    assert FindNumberAfter(s, prefix, 0).None?;
  }

  /** Output with none of the five markers parses to all zeros. */
  lemma NoMarkersNoResults(s: string)
    requires forall a: nat, b: nat :: !NumberThenAt(s, PassedMarker, a, b)
    requires forall a: nat, b: nat :: !NumberThenAt(s, FailedMarker, a, b)
    requires forall a: nat, b: nat :: !NumberThenAt(s, SkippedMarker, a, b)
    requires forall a: nat, b: nat :: !NumberAfterAt(s, NodePassMarker, a, b)
    requires forall a: nat, b: nat :: !NumberAfterAt(s, NodeFailMarker, a, b)
    ensures ParseTestResults(s) == NoResults
  {
    AbsentSuffixCountsZero(s, PassedMarker);
    AbsentSuffixCountsZero(s, FailedMarker);
    AbsentSuffixCountsZero(s, SkippedMarker);
    AbsentPrefixCountsZero(s, NodePassMarker);
    AbsentPrefixCountsZero(s, NodeFailMarker);
  }

  lemma HasAtAppend(s: string, t: string, pos: nat, lit: string)
    requires HasAt(s, pos, lit)
    ensures HasAt(s + t, pos, lit)
  {
    assert (s + t)[pos..pos + |lit|] == s[pos..pos + |lit|];
  }

  lemma DigitsInPrefix(s: string, t: string, a: nat, b: nat)
    requires a <= b <= |s| && DigitsIn(s + t, a, b)
    ensures DigitsIn(s, a, b)
  {
    forall k | a <= k < b ensures IsDigit(s[k]) {
      assert (s + t)[k] == s[k];
    }
  }

  /**
   * Output that streams in after a marker of the browser-automation runner
   * cannot change that marker's count: its first match stays the first.
   */
  lemma PlaywrightCountStable(s: string, t: string, suffix: string)
    requires StartsWithNonDigit(suffix)
    requires exists a: nat, b: nat :: NumberThenAt(s, suffix, a, b)
    ensures PlaywrightCount(s + t, suffix) == PlaywrightCount(s, suffix)
  {
    FindNumberThenLeftmost(s, suffix, 0);
    var m := FindNumberThen(s, suffix, 0);
    assert m.Some?;
    var a, b := m.value.start, m.value.end;
    var st := s + t;
    HasAtAppend(s, t, b, suffix);
    assert NumberThenAt(st, suffix, a, b);
    forall a': nat, b': nat | a' < a && a' < b' <= |st|
      ensures !NumberThenAt(st, suffix, a', b')
    {
      if b < b' {
        HasAtChar(st, b, suffix, 0);
        assert !IsDigit(st[b]);
      } else if a <= b' < b {
        assert st[b'] == s[b'];
        NotAtDigit(st, b', suffix);
      } else if DigitsIn(st, a', b') && HasAt(st, b', suffix) {
        assert st[b'..b' + |suffix|] == s[b'..b' + |suffix|];
        DigitsInPrefix(s, t, a', b');
        assert NumberThenAt(s, suffix, a', b');
      }
    }
    PlaywrightCountIsFirstMatch(st, suffix, a, b);
    assert st[a..b] == s[a..b];
  }

  /**
   * Once the output holds all three summary markers with a nonzero total,
   * whatever is appended later leaves the parsed results unchanged.
   */
  lemma ParseTestResultsStable(s: string, t: string)
    requires exists a: nat, b: nat :: NumberThenAt(s, PassedMarker, a, b)
    requires exists a: nat, b: nat :: NumberThenAt(s, FailedMarker, a, b)
    requires exists a: nat, b: nat :: NumberThenAt(s, SkippedMarker, a, b)
    requires PrimaryTotal(s) > 0
    ensures ParseTestResults(s + t) == ParseTestResults(s)
  {
    PlaywrightCountStable(s, t, PassedMarker);
    PlaywrightCountStable(s, t, FailedMarker);
    PlaywrightCountStable(s, t, SkippedMarker);
  }
}

module SummaryLines {
  import opened Wrappers
  import opened Digits
  import opened Summary
  import opened SummaryProperties

  /** The summary line of the browser-automation runner: "P passed, F failed, K skipped". */
  function PlaywrightLine(p: nat, f: nat, k: nat): string {
    PlaywrightText(Decimal(p), Decimal(f), Decimal(k))
  }

  function PlaywrightText(d1: string, d2: string, d3: string): string {
    d1 + " passed, " + (d2 + " failed, " + (d3 + " skipped"))
  }

  /** The summary comments of the unit-test runner: "# pass P" and "# fail F" on two lines. */
  function NodeLines(p: nat, f: nat): string {
    NodeText(Decimal(p), Decimal(f))
  }

  function NodeText(d1: string, d2: string): string {
    "# pass " + d1 + "\n" + ("# fail " + d2)
  }

  predicate NonDigits(lit: string) {
    forall j | 0 <= j < |lit| :: !IsDigit(lit[j])
  }

  /** A run of digits `d` at `pos`, followed by the literal `lit`. */
  predicate RunThen(s: string, pos: nat, d: string, lit: string) {
    |d| > 0 && AllDigits(d) && HasAt(s, pos, d) && HasAt(s, pos + |d|, lit)
  }

  lemma Pieces(x: string, y: string, z: string)
    ensures HasAt(x + y + z, 0, x) && HasAt(x + y + z, |x|, y)
  {
    assert (x + y + z)[0..|x|] == x;
    assert (x + y + z)[|x|..|x| + |y|] == y;
  }

  lemma HasAtAfter(x: string, y: string, pos: nat, lit: string)
    requires HasAt(y, pos, lit)
    ensures HasAt(x + y, |x| + pos, lit)
  {
    assert (x + y)[|x| + pos..|x| + pos + |lit|] == y[pos..pos + |lit|];
  }

  lemma RunThenAfter(x: string, y: string, pos: nat, d: string, lit: string)
    requires RunThen(y, pos, d, lit)
    ensures RunThen(x + y, |x| + pos, d, lit)
  {
    HasAtAfter(x, y, pos, d);
    HasAtAfter(x, y, pos + |d|, lit);
  }

  lemma HasAtPrefix(s: string, pos: nat, lit: string, n: nat)
    requires HasAt(s, pos, lit) && n <= |lit|
    ensures HasAt(s, pos, lit[..n])
  {
    assert s[pos..pos + n] == s[pos..pos + |lit|][..n];
  }

  lemma DigitsOccur(s: string, pos: nat, d: string)
    requires HasAt(s, pos, d) && AllDigits(d)
    ensures DigitsIn(s, pos, pos + |d|)
  {
    forall k | pos <= k < pos + |d| ensures IsDigit(s[k]) {
      HasAtChar(s, pos, d, k - pos);
    }
  }

  /** Where one literal occurs, another that differs from it at some index does not. */
  lemma Differ(s: string, pos: nat, lit: string, other: string, k: nat)
    requires HasAt(s, pos, lit) && k < |lit| && k < |other| && lit[k] != other[k]
    ensures !HasAt(s, pos, other)
  {
    HasAtChar(s, pos, lit, k);
    if pos + |other| <= |s| {
      assert s[pos..pos + |other|][k] == s[pos + k];
    }
  }

  lemma NotAt(s: string, pos: nat, lit: string)
    requires pos < |s| && |lit| > 0 && s[pos] != lit[0]
    ensures !HasAt(s, pos, lit)
  {
    if pos + |lit| <= |s| {
      assert s[pos..pos + |lit|][0] == s[pos];
    }
  }

  /** A literal containing a character that `s` lacks does not occur in `s`. */
  lemma Missing(s: string, lit: string, c: char)
    requires c in lit && c !in s
    ensures forall pos: nat :: !HasAt(s, pos, lit)
  {
    forall pos: nat | pos + |lit| <= |s| ensures !HasAt(s, pos, lit) {
      var k :| 0 <= k < |lit| && lit[k] == c;
      assert s[pos..pos + |lit|][k] == s[pos + k];
    }
  }

  lemma NotInDigits(d: string, c: char)
    requires AllDigits(d) && !IsDigit(c)
    ensures c !in d
  {
    forall i | 0 <= i < |d| ensures d[i] != c {
      assert IsDigit(d[i]);
    }
  }

  /**
   * A digit run followed by a literal that differs from `suffix` holds no match
   * of `/(\d+)suffix/`: if none starts before the run, none starts before the
   * end of the literal either.
   */
  lemma NoMatchBefore(s: string, suffix: string, i: nat, d: string, lit: string, k: nat)
    requires StartsWithNonDigit(suffix) && |lit| > 0 && NonDigits(lit)
    requires RunThen(s, i, d, lit) && k < |lit| && k < |suffix| && lit[k] != suffix[k]
    requires forall a: nat, b: nat | a < i :: !NumberThenAt(s, suffix, a, b)
    ensures forall a: nat, b: nat | a < i + |d| + |lit| :: !NumberThenAt(s, suffix, a, b)
  {
    var e := i + |d|;
    DigitsOccur(s, i, d);
    forall a: nat, b: nat | i <= a < e + |lit| && a < b <= |s|
      ensures !NumberThenAt(s, suffix, a, b)
    {
      if e <= a {
        HasAtChar(s, e, lit, a - e);
        assert !IsDigit(s[a]);
      } else if b < e {
        NotAtDigit(s, b, suffix);
      } else if b == e {
        Differ(s, e, lit, suffix, k);
      } else {
        HasAtChar(s, e, lit, 0);
        assert !IsDigit(s[e]);
      }
    }
  }

  /** The first match of `/(\d+)suffix/` is the run `d` at `i`, so the count is its value. */
  lemma CountAt(s: string, suffix: string, i: nat, d: string)
    requires StartsWithNonDigit(suffix) && RunThen(s, i, d, suffix)
    requires forall a: nat, b: nat | a < i :: !NumberThenAt(s, suffix, a, b)
    ensures PlaywrightCount(s, suffix) == ParseDigits(d)
  {
    DigitsOccur(s, i, d);
    PlaywrightCountIsFirstMatch(s, suffix, i, i + |d|);
    assert s[i..i + |d|] == d;
  }

  /** Where the pieces of a "P passed, F failed, K skipped" line stand. */
  predicate PlaywrightLayout(s: string, d1: string, d2: string, d3: string) {
    && RunThen(s, 0, d1, " passed, ")
    && RunThen(s, |d1| + 9, d2, " failed, ")
    && RunThen(s, |d1| + 9 + |d2| + 9, d3, " skipped")
  }

  lemma LayoutOfPlaywrightText(d1: string, d2: string, d3: string)
    requires |d1| > 0 && |d2| > 0 && |d3| > 0 && AllDigits(d1) && AllDigits(d2) && AllDigits(d3)
    ensures PlaywrightLayout(PlaywrightText(d1, d2, d3), d1, d2, d3)
  {
    var z2 := d3 + " skipped";
    var z := d2 + " failed, " + z2;
    var x := d1 + " passed, ";
    Pieces(d3, " skipped", []);
    assert z2 + [] == z2;
    Pieces(d2, " failed, ", z2);
    RunThenAfter(d2 + " failed, ", z2, 0, d3, " skipped");
    Pieces(d1, " passed, ", z);
    RunThenAfter(x, z, 0, d2, " failed, ");
    RunThenAfter(x, z, |d2| + 9, d3, " skipped");
  }

  lemma PassedCount(s: string, d1: string, d2: string, d3: string)
    requires PlaywrightLayout(s, d1, d2, d3)
    ensures PlaywrightCount(s, PassedMarker) == ParseDigits(d1)
  {
    HasAtPrefix(s, |d1|, " passed, ", 7);
    assert " passed, "[..7] == PassedMarker;
    CountAt(s, PassedMarker, 0, d1);
  }

  lemma FailedCount(s: string, d1: string, d2: string, d3: string)
    requires PlaywrightLayout(s, d1, d2, d3)
    ensures PlaywrightCount(s, FailedMarker) == ParseDigits(d2)
  {
    var f0 := |d1| + 9;
    HasAtPrefix(s, f0 + |d2|, " failed, ", 7);
    assert " failed, "[..7] == FailedMarker;
    assert NonDigits(" passed, ");
    NoMatchBefore(s, FailedMarker, 0, d1, " passed, ", 1);
    CountAt(s, FailedMarker, f0, d2);
  }

  lemma SkippedCount(s: string, d1: string, d2: string, d3: string)
    requires PlaywrightLayout(s, d1, d2, d3)
    ensures PlaywrightCount(s, SkippedMarker) == ParseDigits(d3)
  {
    var f0 := |d1| + 9;
    assert NonDigits(" passed, ") && NonDigits(" failed, ");
    NoMatchBefore(s, SkippedMarker, 0, d1, " passed, ", 1);
    NoMatchBefore(s, SkippedMarker, f0, d2, " failed, ", 1);
    CountAt(s, SkippedMarker, f0 + |d2| + 9, d3);
  }

  /** The counts of a summary line, read back from the digit strings it was printed with. */
  lemma PlaywrightTextParses(d1: string, d2: string, d3: string)
    requires |d1| > 0 && |d2| > 0 && |d3| > 0 && AllDigits(d1) && AllDigits(d2) && AllDigits(d3)
    ensures var r := ParseTestResults(PlaywrightText(d1, d2, d3));
      && r.passed == ParseDigits(d1) && r.failed == ParseDigits(d2) && r.skipped == ParseDigits(d3)
  {
    var s := PlaywrightText(d1, d2, d3);
    LayoutOfPlaywrightText(d1, d2, d3);
    PassedCount(s, d1, d2, d3);
    FailedCount(s, d1, d2, d3);
    SkippedCount(s, d1, d2, d3);
    if PrimaryTotal(s) == 0 {
      // No '#' anywhere, so neither fallback marker matches.
      NoHashInPlaywrightText(d1, d2, d3);
      NoNodeMatch(s, NodePassMarker);
      NoNodeMatch(s, NodeFailMarker);
    }
  }

  lemma NoHashInPlaywrightText(d1: string, d2: string, d3: string)
    requires AllDigits(d1) && AllDigits(d2) && AllDigits(d3)
    ensures '#' !in PlaywrightText(d1, d2, d3)
  {
    NotInDigits(d1, '#');
    NotInDigits(d2, '#');
    NotInDigits(d3, '#');
    assert '#' !in " passed, " && '#' !in " failed, " && '#' !in " skipped";
  }

  lemma NoLetterDInNodeText(d1: string, d2: string)
    requires AllDigits(d1) && AllDigits(d2)
    ensures 'd' !in NodeText(d1, d2)
  {
    NotInDigits(d1, 'd');
    NotInDigits(d2, 'd');
    assert 'd' !in "# pass " && 'd' !in "\n# fail ";
  }

  /** Without a '#' in the output, neither `# pass` nor `# fail` matches. */
  lemma NoNodeMatch(s: string, prefix: string)
    requires '#' !in s && '#' in prefix
    ensures FindNumberAfter(s, prefix, 0).None?
  {
    Missing(s, prefix, '#');
  }

  /** Every count of the runner's summary line is read back, and the total is their sum. */
  lemma PlaywrightLineParses(p: nat, f: nat, k: nat)
    ensures ParseTestResults(PlaywrightLine(p, f, k)) == Results(p + f + k, p, f, k)
  {
    PlaywrightTextParses(Decimal(p), Decimal(f), Decimal(k));
    ParseDecimal(p);
    ParseDecimal(f);
    ParseDecimal(k);
  }

  /** Where the pieces of the two "# pass P" / "# fail F" comments stand. */
  predicate NodeLayout(s: string, d1: string, d2: string) {
    && |d1| > 0 && |d2| > 0 && AllDigits(d1) && AllDigits(d2)
    && HasAt(s, 0, NodePassMarker) && HasAt(s, 7, d1) && 7 + |d1| < |s| && s[7 + |d1|] == '\n'
    && HasAt(s, 8 + |d1|, NodeFailMarker) && HasAt(s, 15 + |d1|, d2) && |s| == 15 + |d1| + |d2|
  }

  lemma LayoutOfNodeText(d1: string, d2: string)
    requires |d1| > 0 && |d2| > 0 && AllDigits(d1) && AllDigits(d2)
    ensures NodeLayout(NodeText(d1, d2), d1, d2)
  {
    var x := NodePassMarker + d1;
    var y := NodeFailMarker + d2;
    Pieces(NodePassMarker, d1, []);
    assert x + [] == x;
    HasAtAppend(x, "\n", 0, NodePassMarker);
    HasAtAppend(x, "\n", 7, d1);
    HasAtAppend(x + "\n", y, 0, NodePassMarker);
    HasAtAppend(x + "\n", y, 7, d1);
    assert (x + "\n" + y)[|x|] == '\n';
    Pieces(NodeFailMarker, d2, []);
    assert y + [] == y;
    HasAtAfter(x + "\n", y, 0, NodeFailMarker);
    HasAtAfter(x + "\n", y, 7, d2);
  }

  lemma NodePassCount(s: string, d1: string, d2: string)
    requires NodeLayout(s, d1, d2)
    ensures NodeCount(s, NodePassMarker) == ParseDigits(d1)
  {
    DigitsOccur(s, 7, d1);
    NodeCountIsFirstMatch(s, NodePassMarker, 0, 7 + |d1|);
    assert s[7..7 + |d1|] == d1;
  }

  /** `# fail ` does not occur before the second comment. */
  lemma NoFailBefore(s: string, d1: string, d2: string)
    requires NodeLayout(s, d1, d2)
    ensures forall a: nat | a < 8 + |d1| :: !HasAt(s, a, NodeFailMarker)
  {
    forall a: nat | a < 8 + |d1| ensures !HasAt(s, a, NodeFailMarker) {
      if a == 0 {
        Differ(s, 0, NodePassMarker, NodeFailMarker, 2);
      } else if a < 7 {
        HasAtChar(s, 0, NodePassMarker, a);
        NotAt(s, a, NodeFailMarker);
      } else if a < 7 + |d1| {
        HasAtChar(s, 7, d1, a - 7);
        NotAt(s, a, NodeFailMarker);
      } else {
        NotAt(s, a, NodeFailMarker);
      }
    }
  }

  lemma NodeFailCount(s: string, d1: string, d2: string)
    requires NodeLayout(s, d1, d2)
    ensures NodeCount(s, NodeFailMarker) == ParseDigits(d2)
  {
    var f0 := 8 + |d1|;
    DigitsOccur(s, 15 + |d1|, d2);
    NoFailBefore(s, d1, d2);
    NodeCountIsFirstMatch(s, NodeFailMarker, f0, |s|);
    assert s[f0 + 7..|s|] == d2;
  }

  /** A marker with a character that `s` lacks is never matched. */
  lemma NoThenMatch(s: string, suffix: string, c: char)
    requires StartsWithNonDigit(suffix) && c in suffix && c !in s
    ensures PlaywrightCount(s, suffix) == 0
  {
    Missing(s, suffix, c);
    assert FindNumberThen(s, suffix, 0).None?;
  }

  /** The two comments' counts, read back from the digit strings they were printed with. */
  lemma NodeTextParses(d1: string, d2: string)
    requires |d1| > 0 && |d2| > 0 && AllDigits(d1) && AllDigits(d2)
    ensures var r := ParseTestResults(NodeText(d1, d2));
      && r.passed == ParseDigits(d1) && r.failed == ParseDigits(d2) && r.skipped == 0
  {
    var s := NodeText(d1, d2);
    LayoutOfNodeText(d1, d2);
    NodePassCount(s, d1, d2);
    NodeFailCount(s, d1, d2);
    // No 'd' anywhere, so none of the three browser markers occurs.
    NoLetterDInNodeText(d1, d2);
    NoThenMatch(s, PassedMarker, 'd');
    NoThenMatch(s, FailedMarker, 'd');
    NoThenMatch(s, SkippedMarker, 'd');
  }

  /** The unit-test runner's two summary comments are read back; no browser marker is present. */
  lemma NodeLinesParse(p: nat, f: nat)
    ensures ParseTestResults(NodeLines(p, f)) == Results(p + f, p, f, 0)
  {
    NodeTextParses(Decimal(p), Decimal(f));
    ParseDecimal(p);
    ParseDecimal(f);
  }

  lemma PlaywrightExampleText()
    ensures PlaywrightText("12", "3", "1") == "12 passed, 3 failed, 1 skipped"
  {
  }

  lemma PlaywrightExampleCounts()
    ensures AllDigits("12") && AllDigits("3") && AllDigits("1")
    ensures ParseDigits("12") == 12 && ParseDigits("3") == 3 && ParseDigits("1") == 1
  {
    assert "12"[..1] == "1";
  }

  /** "12 passed, 3 failed, 1 skipped" gives 16 in all. */
  lemma PlaywrightExample()
    ensures ParseTestResults("12 passed, 3 failed, 1 skipped") == Results(16, 12, 3, 1)
  {
    PlaywrightExampleText();
    PlaywrightExampleCounts();
    PlaywrightTextParses("12", "3", "1");
  }

  /** "# pass 5" and "# fail 2" on two lines give 7 in all and nothing skipped. */
  lemma NodeExample()
    ensures ParseTestResults("# pass 5\n# fail 2") == Results(7, 5, 2, 0)
  {
    assert NodeText("5", "2") == "# pass 5\n# fail 2";
    assert AllDigits("5") && AllDigits("2");
    NodeTextParses("5", "2");
  }
}
