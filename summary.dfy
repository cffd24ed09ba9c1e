/**
 * The aggregate result parser of server.js (`parseTestResults`): the counts a
 * test runner prints at the end of its output, taken from the first occurrence
 * of each marker.
 *
 * `output.match(/(\d+) passed/)` succeeds at the leftmost start position where
 * a run of digits is followed by " passed"; `\d+` is greedy, so the capture is
 * the longest such run. `/# pass (\d+)/` is the mirror image: a literal prefix
 * followed by the longest run of digits. Both regular expressions are modelled
 * as explicit left-to-right scans, proved against a declarative description
 * of where they may match.
 */
module Summary {
  import opened Wrappers
  import opened Digits

  datatype Results = Results(total: nat, passed: nat, failed: nat, skipped: nat)

  const NoResults := Results(0, 0, 0, 0)

  /** The literal markers of the two runners' summaries. */
  const PassedMarker := " passed"
  const FailedMarker := " failed"
  const SkippedMarker := " skipped"
  const NodePassMarker := "# pass "
  const NodeFailMarker := "# fail "

  /** `lit` occurs in `s` starting at `pos`. */
  predicate HasAt(s: string, pos: nat, lit: string) {
    pos + |lit| <= |s| && s[pos..pos + |lit|] == lit
  }

  predicate DigitsIn(s: string, a: nat, b: nat)
    requires a <= b <= |s|
  {
    forall k | a <= k < b :: IsDigit(s[k])
  }

  /** `/(\d+)suffix/` can match `s` starting at `a` with the capture `s[a..b]`. */
  predicate NumberThenAt(s: string, suffix: string, a: nat, b: nat) {
    a < b <= |s| && DigitsIn(s, a, b) && HasAt(s, b, suffix)
  }

  /** `/prefix(\d+)/` can match `s` starting at `a` with the capture `s[a + |prefix|..b]`. */
  predicate NumberAfterAt(s: string, prefix: string, a: nat, b: nat) {
    a + |prefix| < b <= |s| && HasAt(s, a, prefix) && DigitsIn(s, a + |prefix|, b)
  }

  /** A suffix that cannot extend the digit run in front of it. */
  predicate StartsWithNonDigit(lit: string) {
    |lit| > 0 && !IsDigit(lit[0])
  }

  datatype Span = Span(start: nat, end: nat)

  /** The end of the run of digits that starts at `i`. */
  function RunEnd(s: string, i: nat): (e: nat)
    requires i <= |s|
    ensures i <= e <= |s| && DigitsIn(s, i, e)
    ensures e < |s| ==> !IsDigit(s[e])
    decreases |s| - i
  {
    if i < |s| && IsDigit(s[i]) then RunEnd(s, i + 1) else i
  }

  lemma HasAtChar(s: string, pos: nat, lit: string, k: nat)
    requires HasAt(s, pos, lit) && k < |lit|
    ensures s[pos + k] == lit[k]
  {
    assert s[pos..pos + |lit|][k] == s[pos + k];
  }

  /** A literal that starts with a non-digit cannot occur where a digit stands. */
  lemma NotAtDigit(s: string, pos: nat, lit: string)
    requires StartsWithNonDigit(lit) && pos < |s| && IsDigit(s[pos])
    ensures !HasAt(s, pos, lit)
  {
    if pos + |lit| <= |s| {
      assert s[pos..pos + |lit|][0] == s[pos];
    }
  }

  /** No match of `/(\d+)suffix/` starts inside a digit run that `suffix` does not follow. */
  lemma NoMatchInRun(s: string, suffix: string, i: nat, e: nat)
    requires StartsWithNonDigit(suffix)
    requires i <= e <= |s| && DigitsIn(s, i, e) && (e < |s| ==> !IsDigit(s[e]))
    requires !HasAt(s, e, suffix)
    ensures forall a: nat, b: nat | i <= a < e :: !NumberThenAt(s, suffix, a, b)
  {
    forall a: nat, b: nat | i <= a < e && a < b <= |s|
      ensures !NumberThenAt(s, suffix, a, b)
    {
      if b < e {
        NotAtDigit(s, b, suffix);
      } else if e < b {
        assert !IsDigit(s[e]);
      }
    }
  }

  /**
   * The scan for `/(\d+)suffix/` from position `from`: the leftmost match
   * start, and for it the longest capture (`FindNumberThenLeftmost`).
   */
  function FindNumberThen(s: string, suffix: string, from: nat): (r: Option<Span>)
    requires from <= |s| && StartsWithNonDigit(suffix)
    ensures r.Some? ==> from <= r.value.start && NumberThenAt(s, suffix, r.value.start, r.value.end)
    decreases |s| - from
  {
    if from == |s| then None
    else if !IsDigit(s[from]) then FindNumberThen(s, suffix, from + 1)
    else
      var e := RunEnd(s, from);
      if HasAt(s, e, suffix) then Some(Span(from, e)) else FindNumberThen(s, suffix, e)
  }

  /** No match starts before the one the scan finds, none is longer, and without one there is none. */
  lemma {:induction false} FindNumberThenLeftmost(s: string, suffix: string, from: nat)
    requires from <= |s| && StartsWithNonDigit(suffix)
    ensures var r := FindNumberThen(s, suffix, from);
      && (r.Some? ==> forall a: nat, b: nat | from <= a < r.value.start :: !NumberThenAt(s, suffix, a, b))
      && (r.Some? ==> forall b: nat | r.value.end < b :: !NumberThenAt(s, suffix, r.value.start, b))
      && (r.None? ==> forall a: nat, b: nat | from <= a :: !NumberThenAt(s, suffix, a, b))
    decreases |s| - from
  {
    if from == |s| {
    } else if !IsDigit(s[from]) {
      FindNumberThenLeftmost(s, suffix, from + 1);
      assert forall b: nat :: !NumberThenAt(s, suffix, from, b);
    } else {
      var e := RunEnd(s, from);
      if HasAt(s, e, suffix) {
        forall b: nat | e < b <= |s| ensures !DigitsIn(s, from, b) {
          assert !IsDigit(s[e]);
        }
      } else {
        NoMatchInRun(s, suffix, from, e);
        FindNumberThenLeftmost(s, suffix, e);
      }
    }
  }

  /**
   * The scan for `/prefix(\d+)/` from position `from`: `start` is the leftmost
   * match start, `end` the end of the longest capture (`FindNumberAfterLeftmost`).
   */
  function FindNumberAfter(s: string, prefix: string, from: nat): (r: Option<Span>)
    requires from <= |s|
    ensures r.Some? ==> from <= r.value.start && NumberAfterAt(s, prefix, r.value.start, r.value.end)
    decreases |s| - from
  {
    if from + |prefix| >= |s| then None
    else if HasAt(s, from, prefix) && IsDigit(s[from + |prefix|]) then
      Some(Span(from, RunEnd(s, from + |prefix|)))
    else
      FindNumberAfter(s, prefix, from + 1)
  }

  /** No match starts before the one the scan finds, none is longer, and without one there is none. */
  lemma {:induction false} FindNumberAfterLeftmost(s: string, prefix: string, from: nat)
    requires from <= |s|
    ensures var r := FindNumberAfter(s, prefix, from);
      && (r.Some? ==> forall a: nat, b: nat | from <= a < r.value.start :: !NumberAfterAt(s, prefix, a, b))
      && (r.Some? ==> forall b: nat | r.value.end < b :: !NumberAfterAt(s, prefix, r.value.start, b))
      && (r.None? ==> forall a: nat, b: nat | from <= a :: !NumberAfterAt(s, prefix, a, b))
    decreases |s| - from
  {
    if from + |prefix| >= |s| {
    } else if HasAt(s, from, prefix) && IsDigit(s[from + |prefix|]) {
      var e := RunEnd(s, from + |prefix|);
      forall b: nat | e < b <= |s| ensures !NumberAfterAt(s, prefix, from, b) {
        assert !IsDigit(s[e]);
      }
    } else {
      forall b: nat | from + |prefix| < b <= |s| && HasAt(s, from, prefix)
        ensures !NumberAfterAt(s, prefix, from, b)
      {
        assert !IsDigit(s[from + |prefix|]);
      }
      FindNumberAfterLeftmost(s, prefix, from + 1);
    }
  }

  lemma DigitsSlice(s: string, a: nat, b: nat)
    requires a <= b <= |s| && DigitsIn(s, a, b)
    ensures AllDigits(s[a..b])
  {
    forall k | 0 <= k < b - a ensures IsDigit(s[a..b][k]) {
      assert s[a..b][k] == s[a + k];
    }
  }

  /** `parseInt(match[1])` for `/(\d+)suffix/`, or 0 when there is no match. */
  function PlaywrightCount(s: string, suffix: string): nat
    requires StartsWithNonDigit(suffix)
  {
    match FindNumberThen(s, suffix, 0)
    case None => 0
    case Some(m) =>
      DigitsSlice(s, m.start, m.end);
      ParseDigits(s[m.start..m.end])
  }

  /** `parseInt(match[1])` for `/prefix(\d+)/`, or 0 when there is no match. */
  function NodeCount(s: string, prefix: string): nat {
    match FindNumberAfter(s, prefix, 0)
    case None => 0
    case Some(m) =>
      DigitsSlice(s, m.start + |prefix|, m.end);
      ParseDigits(s[m.start + |prefix|..m.end])
  }

  /** The total of the browser-automation runner's three markers. */
  function PrimaryTotal(s: string): nat {
    PlaywrightCount(s, PassedMarker) + PlaywrightCount(s, FailedMarker) + PlaywrightCount(s, SkippedMarker)
  }

  /**
   * `parseTestResults(output)`: the browser-automation runner's markers first;
   * only when they add up to 0, the unit-test runner's `# pass` / `# fail`.
   */
  function ParseTestResults(output: string): (r: Results)
    ensures r.total == r.passed + r.failed + r.skipped
    ensures r.skipped == PlaywrightCount(output, SkippedMarker)
    ensures PrimaryTotal(output) > 0 ==>
              r.passed == PlaywrightCount(output, PassedMarker) && r.failed == PlaywrightCount(output, FailedMarker)
    ensures PrimaryTotal(output) == 0 ==>
              r.skipped == 0 && r.passed == NodeCount(output, NodePassMarker) && r.failed == NodeCount(output, NodeFailMarker)
  {
    var passed := PlaywrightCount(output, PassedMarker);
    var failed := PlaywrightCount(output, FailedMarker);
    var skipped := PlaywrightCount(output, SkippedMarker);
    var total := passed + failed + skipped;
    if total != 0 then Results(total, passed, failed, skipped)
    else
      // `passed` is replaced only when `# pass N` matches; here it is 0 either way.
      var nodePassed := if FindNumberAfter(output, NodePassMarker, 0).Some? then NodeCount(output, NodePassMarker) else passed;
      var nodeFailed := if FindNumberAfter(output, NodeFailMarker, 0).Some? then NodeCount(output, NodeFailMarker) else failed;
      Results(nodePassed + nodeFailed, nodePassed, nodeFailed, skipped)
  }
}
