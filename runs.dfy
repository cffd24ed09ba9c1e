/**
 * Test runs: the record `POST /api/test-runs` stores, how the executor's
 * outcome completes it, the retention of the newest 100 runs, and the list
 * view with a truncated output.
 */
module Runs {
  import opened Wrappers
  import opened Json
  import opened Sequences
  import opened Summary

  datatype Status = Running | Passed | Failed | Error

  /** A stored run; `None` stands for `null`. */
  datatype TestRun = TestRun(
    id: string,
    projectId: Option<string>,
    fileId: Option<string>,
    runType: string,
    command: string,
    status: Status,
    output: string,
    results: Results,
    startedAt: string,
    completedAt: Option<string>,
    duration: Option<int>)

  /**
   * What became of the spawned command: it closed with an exit code (`None`
   * when a signal, such as the 120-second timeout, ended it) after printing
   * `output`, or `spawn` itself threw.
   */
  datatype Outcome =
    | Exited(code: Option<int>, output: string)
    | SpawnThrew(message: string)

  /** A run's bookkeeping agrees with its status and its counts add up. */
  predicate Consistent(run: TestRun) {
    && run.results.total == run.results.passed + run.results.failed + run.results.skipped
    && (run.status == Running <==> run.completedAt.None?)
    && (run.completedAt.None? <==> run.duration.None?)
  }

  /** The record of a run that has just been started. */
  function NewRun(id: string, projectId: Option<string>, fileId: Option<string>, runType: string,
                  command: string, now: string): (r: TestRun)
    ensures r.status == Running && r.output == "" && r.results == NoResults
    ensures r.completedAt.None? && r.duration.None? && r.startedAt == now
    ensures r.id == id && r.projectId == projectId && r.fileId == fileId
    ensures r.runType == runType && r.command == command
    ensures Consistent(r)
  {
    TestRun(id, projectId, fileId, runType, command, Running, "", NoResults, now, None, None)
  }

  /**
   * The close handler and the `catch` block: exit code 0 passes, any other
   * exit fails, and in both cases the counts are parsed from the output; a
   * throwing `spawn` is an error whose output is the message, and the counts
   * stay as they were.
   */
  function Complete(run: TestRun, outcome: Outcome, now: string, elapsed: int): (r: TestRun)
    ensures r.status == Passed <==> outcome.Exited? && outcome.code == Some(0)
    ensures r.status == Failed <==> outcome.Exited? && outcome.code != Some(0)
    ensures r.status == Error <==> outcome.SpawnThrew?
    ensures outcome.Exited? ==> r.output == outcome.output && r.results == ParseTestResults(outcome.output)
    ensures outcome.SpawnThrew? ==> r.output == outcome.message && r.results == run.results
    ensures r.completedAt == Some(now) && r.duration == Some(elapsed)
    ensures r.id == run.id && r.projectId == run.projectId && r.fileId == run.fileId
    ensures r.runType == run.runType && r.command == run.command && r.startedAt == run.startedAt
    ensures Consistent(run) ==> Consistent(r)
  {
    match outcome
    case Exited(code, output) =>
      run.(output := output, status := if code == Some(0) then Passed else Failed,
           completedAt := Some(now), duration := Some(elapsed), results := ParseTestResults(output))
    case SpawnThrew(message) =>
      run.(output := message, status := Error, completedAt := Some(now), duration := Some(elapsed))
  }

  /** A run that ends without an exit code (killed by a signal, the timeout among them) never passes. */
  lemma KilledRunFails(run: TestRun, output: string, now: string, elapsed: int)
    ensures Complete(run, Exited(None, output), now, elapsed).status == Failed
  {
  }

  const MaxRuns := 100

  /**
   * The new run is put in front, and the list is cut back to 100 when it grows past that:
   * the new run first, then the older ones in their order, at most 100 in all.
   */
  function Retain(runs: seq<TestRun>, run: TestRun): (r: seq<TestRun>)
    ensures |r| == if |runs| + 1 <= MaxRuns then |runs| + 1 else MaxRuns
    ensures r[0] == run
    ensures r[1..] == runs[..|r| - 1]
  {
    Prefix([run] + runs, MaxRuns)
  }

  /** Retention keeps every run a bound on the list demands: nothing is lost below 100 runs. */
  lemma RetainKeepsAll(runs: seq<TestRun>, run: TestRun)
    requires |runs| < MaxRuns
    ensures Retain(runs, run) == [run] + runs
  {
    var r := Retain(runs, run);
    assert r == [r[0]] + r[1..];
  }

  /** Each retained run is either the new one or one that was already there, at a later position. */
  lemma RetainShifts(runs: seq<TestRun>, run: TestRun, i: nat)
    requires 0 < i < |Retain(runs, run)|
    ensures i - 1 < |runs| && Retain(runs, run)[i] == runs[i - 1]
  {
    var r := Retain(runs, run);
    assert r[i] == r[1..][i - 1];
  }

  /** The index of the first run with the id, `None` when the run is gone. */
  function IndexOfRun(runs: seq<TestRun>, id: string): (r: Option<nat>)
    ensures r.Some? ==> r.value < |runs| && runs[r.value].id == id
    ensures r.Some? ==> forall j | 0 <= j < r.value :: runs[j].id != id
    ensures r.None? <==> forall j | 0 <= j < |runs| :: runs[j].id != id
  {
    FirstIndex(runs, (x: TestRun) => x.id == id)
  }

  /**
   * The completion step on the stored runs: the first run with the id is
   * completed in place; when retention has already dropped it, nothing changes.
   */
  function Finish(runs: seq<TestRun>, id: string, outcome: Outcome, now: string, elapsed: int): (r: seq<TestRun>)
    ensures |r| == |runs|
    ensures IndexOfRun(runs, id).None? ==> r == runs
    ensures IndexOfRun(runs, id).Some? ==> forall j | 0 <= j < |runs| && j != IndexOfRun(runs, id).value :: r[j] == runs[j]
  {
    match IndexOfRun(runs, id)
    case None => runs
    case Some(i) => runs[i := Complete(runs[i], outcome, now, elapsed)]
  }

  /** A run just stored is the one its id finds. */
  lemma StartedRunIsFound(runs: seq<TestRun>, run: TestRun)
    ensures IndexOfRun(Retain(runs, run), run.id) == Some(0)
  {
    var r := Retain(runs, run);
    assert r[0].id == run.id;
  }

  /** The completed run keeps its place, is found again under its id, and is no longer running. */
  lemma FinishSettles(runs: seq<TestRun>, id: string, outcome: Outcome, now: string, elapsed: int)
    requires IndexOfRun(runs, id).Some?
    ensures var i := IndexOfRun(runs, id).value;
      var r := Finish(runs, id, outcome, now, elapsed);
      r[i] == Complete(runs[i], outcome, now, elapsed) && r[i].status != Running &&
      IndexOfRun(r, id) == Some(i)
  {
    var i := IndexOfRun(runs, id).value;
    var r := Finish(runs, id, outcome, now, elapsed);
    assert r[i] == Complete(runs[i], outcome, now, elapsed);
    assert forall j | 0 <= j < i :: r[j] == runs[j];
  }

  /** Started and completed runs alike stay consistent. */
  lemma FinishKeepsConsistent(runs: seq<TestRun>, id: string, outcome: Outcome, now: string, elapsed: int)
    requires forall j | 0 <= j < |runs| :: Consistent(runs[j])
    ensures var r := Finish(runs, id, outcome, now, elapsed);
      forall j | 0 <= j < |r| :: Consistent(r[j])
  {
  }

  // ---------------------------------------------------------------------------
  // The list view
  // ---------------------------------------------------------------------------

  const OutputPreviewLength := 2000

  /** A run as `GET /api/test-runs` lists it: `output` dropped, `outputPreview` added. */
  datatype RunListing = RunListing(
    id: string,
    projectId: Option<string>,
    fileId: Option<string>,
    runType: string,
    command: string,
    status: Status,
    outputPreview: string,
    results: Results,
    startedAt: string,
    completedAt: Option<string>,
    duration: Option<int>)

  /**
   * The list form of a run: every field but the output is copied, and the
   * output is replaced by its first 2000 characters.
   */
  function Listing(run: TestRun): (v: RunListing)
    ensures v.outputPreview <= run.output
    ensures |v.outputPreview| == if |run.output| < OutputPreviewLength then |run.output| else OutputPreviewLength
    ensures v.id == run.id && v.projectId == run.projectId && v.fileId == run.fileId
    ensures v.runType == run.runType && v.command == run.command && v.status == run.status
    ensures v.results == run.results && v.startedAt == run.startedAt
    ensures v.completedAt == run.completedAt && v.duration == run.duration
  {
    RunListing(run.id, run.projectId, run.fileId, run.runType, run.command, run.status,
               Prefix(run.output, OutputPreviewLength), run.results, run.startedAt, run.completedAt, run.duration)
  }

  /** Listing is one-to-one on runs with the same output preview: nothing but the output is lost. */
  lemma ListingKeepsAllButOutput(a: TestRun, b: TestRun)
    requires Listing(a) == Listing(b)
    ensures a.(output := "") == b.(output := "")
  {
  }

  /** The query of `GET /api/test-runs` lets a run through: no project asked for, or the run's own. */
  predicate Wanted(run: TestRun, projectId: Option<string>) {
    !Given(projectId) || run.projectId == projectId
  }

  /** The runs `GET /api/test-runs` selects: those of the queried project, or all. */
  function Selected(runs: seq<TestRun>, projectId: Option<string>): (r: seq<TestRun>)
    ensures forall x :: multiset(r)[x] == if Wanted(x, projectId) then multiset(runs)[x] else 0
    ensures IsSubsequence(r, runs)
  {
    if Given(projectId) then Filter(runs, (x: TestRun) => x.projectId == projectId)
    else SubsequenceReflexive(runs); runs
  }

  /** A run is selected exactly when it is stored and wanted. */
  lemma SelectedMembers(runs: seq<TestRun>, projectId: Option<string>)
    ensures forall x :: x in Selected(runs, projectId) <==> x in runs && Wanted(x, projectId)
  {
    var kept := Selected(runs, projectId);
    forall x ensures x in kept <==> x in runs && Wanted(x, projectId) {
      assert x in kept <==> multiset(kept)[x] > 0;
      assert x in runs <==> multiset(runs)[x] > 0;
    }
  }

  /**
   * `GET /api/test-runs`: one listing per selected run. Every listing comes
   * from a wanted run, every wanted run is listed, and the stored order is kept.
   */
  function ListRuns(runs: seq<TestRun>, projectId: Option<string>): (r: seq<RunListing>)
    ensures forall v | v in r :: exists x | x in runs && Wanted(x, projectId) :: v == Listing(x)
    ensures forall x | x in runs && Wanted(x, projectId) :: Listing(x) in r
    ensures |r| == |Selected(runs, projectId)|
    ensures IsSubsequence(r, MapSeq(runs, Listing))
  {
    var kept := Selected(runs, projectId);
    SubsequenceMap(kept, runs, Listing);
    SelectedMembers(runs, projectId);
    MapSeq(kept, Listing)
  }
}
