/**
 * The in-memory database the handlers of server.js load, change and save:
 * projects, test cases and test files as JSON documents, and the test runs.
 * Each handler that changes it is a method of `Db`; what it computes is
 * specified by the functions of the other modules.
 */
module Server {
  import opened Wrappers
  import opened Json
  import opened Sequences
  import opened Documents
  import opened Commands
  import opened Runs

  /** The test keeping every document whose id is not `id`. */
  function WithoutId(id: string): Doc -> bool {
    (d: Doc) => !IdIs(d, id)
  }

  /** The test keeping every document that does not name `id` as its project. */
  function OutsideProject(id: string): Doc -> bool {
    (d: Doc) => !HasText(d, "projectId", id)
  }

  /** The test keeping every run that does not name `id` as its project. */
  function RunOutsideProject(id: string): TestRun -> bool {
    (r: TestRun) => r.projectId != Some(id)
  }

  /** The run record of a request that resolved to `cmd`. */
  function RunFor(runId: string, req: RunRequest, cmd: Command, now: string): (run: TestRun)
    ensures run.status == Running && run.id == runId && run.command == Render(cmd)
    ensures run.projectId == ProjectIdOf(req) && run.runType == RunTypeOf(req)
    ensures Given(req.fileId) ==> run.fileId == req.fileId
    ensures !Given(req.fileId) ==> run.fileId.None?
    ensures Consistent(run)
  {
    NewRun(runId, ProjectIdOf(req), if Given(req.fileId) then req.fileId else None,
           RunTypeOf(req), Render(cmd), now)
  }

  class Db {
    var projects: seq<Doc>
    var testCases: seq<Doc>
    var testFiles: seq<Doc>
    var testRuns: seq<TestRun>

    /** What the handlers keep: at most 100 runs, each with consistent bookkeeping. */
    predicate Valid()
      reads this
    {
      |testRuns| <= MaxRuns && forall j | 0 <= j < |testRuns| :: Consistent(testRuns[j])
    }

    /** The database `loadDb` returns when no file exists yet. */
    constructor Empty()
      ensures projects == [] && testCases == [] && testFiles == [] && testRuns == []
      ensures Valid()
    {
      projects, testCases, testFiles, testRuns := [], [], [], [];
    }

    /**
     * `POST /api/test-runs` up to the response: resolve the command, store
     * the new run in front and keep the newest 100. On failure (the 404)
     * nothing is stored.
     */
    method StartRun(runId: string, req: RunRequest, existingDirs: set<string>, testsDir: string, now: string)
      returns (r: Result<TestRun, string>)
      requires Valid()
      modifies this
      ensures Valid()
      ensures projects == old(projects) && testCases == old(testCases) && testFiles == old(testFiles)
      ensures var c := ResolveCommand(req, old(testFiles), existingDirs, testsDir);
        if c.Failure? then r == Failure(c.error) && testRuns == old(testRuns)
        else r == Success(RunFor(runId, req, c.value, now)) && testRuns == Retain(old(testRuns), r.value)
    {
      var c := ResolveCommand(req, testFiles, existingDirs, testsDir);
      if c.Failure? {
        return Failure(c.error);
      }
      var run := RunFor(runId, req, c.value, now);
      ghost var before := testRuns;
      testRuns := [run] + testRuns;
      if |testRuns| > MaxRuns {
        testRuns := testRuns[..MaxRuns];
      }
      assert testRuns == Retain(before, run);
      forall j | 0 < j < |testRuns| ensures Consistent(testRuns[j]) {
        RetainShifts(before, run, j);
      }
      r := Success(run);
    }

    /**
     * The close handler or the `catch` block of a run: reload, find the run
     * by id, and complete it; a run that is gone is left alone.
     */
    method CompleteRun(runId: string, outcome: Outcome, now: string, elapsed: int)
      requires Valid()
      modifies this
      ensures Valid()
      ensures projects == old(projects) && testCases == old(testCases) && testFiles == old(testFiles)
      ensures testRuns == Finish(old(testRuns), runId, outcome, now, elapsed)
    {
      var found := IndexOfRun(testRuns, runId);
      if found.Some? {
        var i := found.value;
        testRuns := testRuns[i := Complete(testRuns[i], outcome, now, elapsed)];
      }
    }

    /**
     * `DELETE /api/projects/:id`: the project and, in order, the test cases,
     * test files and runs that name it as their project are removed.
     */
    method DeleteProject(id: string)
      requires Valid()
      modifies this
      ensures Valid()
      ensures projects == Filter(old(projects), WithoutId(id))
      ensures testCases == Filter(old(testCases), OutsideProject(id))
      ensures testFiles == Filter(old(testFiles), OutsideProject(id))
      ensures testRuns == Filter(old(testRuns), RunOutsideProject(id))
    {
      projects := Filter(projects, WithoutId(id));
      testCases := Filter(testCases, OutsideProject(id));
      testFiles := Filter(testFiles, OutsideProject(id));
      ghost var before := testRuns;
      testRuns := Filter(testRuns, RunOutsideProject(id));
      forall j | 0 <= j < |testRuns| ensures Consistent(testRuns[j]) {
        FilterMember(before, RunOutsideProject(id), testRuns[j]);
      }
    }

    /** `PUT /api/projects/:id`: the merged project, or `None` for the 404. */
    method UpdateProject(id: string, body: Doc, now: string) returns (r: Option<Doc>)
      requires Valid()
      modifies this
      ensures Valid()
      ensures testCases == old(testCases) && testFiles == old(testFiles) && testRuns == old(testRuns)
      ensures var u := Update(old(projects), id, body, now);
        if u.None? then r.None? && projects == old(projects)
        else projects == u.value && r == Some(projects[IndexOfId(old(projects), id).value])
    {
      var found := IndexOfId(projects, id);
      if found.None? {
        return None;
      }
      var i := found.value;
      projects := projects[i := Merge(projects[i], body, now)];
      r := Some(projects[i]);
    }

    /** `PUT /api/test-cases/:id`: the merged test case, or `None` for the 404. */
    method UpdateTestCase(id: string, body: Doc, now: string) returns (r: Option<Doc>)
      requires Valid()
      modifies this
      ensures Valid()
      ensures projects == old(projects) && testFiles == old(testFiles) && testRuns == old(testRuns)
      ensures var u := Update(old(testCases), id, body, now);
        if u.None? then r.None? && testCases == old(testCases)
        else testCases == u.value && r == Some(testCases[IndexOfId(old(testCases), id).value])
    {
      var found := IndexOfId(testCases, id);
      if found.None? {
        return None;
      }
      var i := found.value;
      testCases := testCases[i := Merge(testCases[i], body, now)];
      r := Some(testCases[i]);
    }

    /**
     * `PUT /api/test-files/:id`: the content is assigned first when the body
     * has one, then the body is merged; the result is the same as the merge alone.
     */
    method UpdateTestFile(id: string, body: Doc, now: string) returns (r: Option<Doc>)
      requires Valid()
      modifies this
      ensures Valid()
      ensures projects == old(projects) && testCases == old(testCases) && testRuns == old(testRuns)
      ensures var u := Update(old(testFiles), id, body, now);
        if u.None? then r.None? && testFiles == old(testFiles)
        else testFiles == u.value && r == Some(testFiles[IndexOfId(old(testFiles), id).value])
    {
      var found := IndexOfId(testFiles, id);
      if found.None? {
        return None;
      }
      var i := found.value;
      var f := AssignContent(testFiles[i], body);
      ContentAssignmentSubsumed(testFiles[i], body, now);
      testFiles := testFiles[i := Merge(f, body, now)];
      r := Some(testFiles[i]);
    }

    /** `POST /api/test-files`: the new record is appended and returned. */
    method CreateTestFile(id: string, req: TestFileRequest, testsDir: string, now: string) returns (f: Doc)
      requires Valid()
      modifies this
      ensures Valid()
      ensures f == NewTestFile(id, req, testsDir, now)
      ensures testFiles == old(testFiles) + [f]
      ensures projects == old(projects) && testCases == old(testCases) && testRuns == old(testRuns)
    {
      f := NewTestFile(id, req, testsDir, now);
      testFiles := testFiles + [f];
    }
  }

  /**
   * After a project is deleted nothing stored refers to it, and every
   * document and run that did not belong to it is still there.
   */
  lemma {:induction false} DeleteProjectCascade(projects: seq<Doc>, testCases: seq<Doc>, testFiles: seq<Doc>,
                                                testRuns: seq<TestRun>, id: string)
    ensures forall d | d in Filter(projects, WithoutId(id)) :: !IdIs(d, id)
    ensures forall d | d in Filter(testCases, OutsideProject(id)) :: !HasText(d, "projectId", id)
    ensures forall d | d in Filter(testFiles, OutsideProject(id)) :: !HasText(d, "projectId", id)
    ensures forall r | r in Filter(testRuns, RunOutsideProject(id)) :: r.projectId != Some(id)
    ensures forall d | d in projects && !IdIs(d, id) :: d in Filter(projects, WithoutId(id))
    ensures forall d | d in testCases && !HasText(d, "projectId", id) :: d in Filter(testCases, OutsideProject(id))
    ensures forall d | d in testFiles && !HasText(d, "projectId", id) :: d in Filter(testFiles, OutsideProject(id))
    ensures forall r | r in testRuns && r.projectId != Some(id) :: r in Filter(testRuns, RunOutsideProject(id))
  {
    forall d | d in projects && !IdIs(d, id) ensures d in Filter(projects, WithoutId(id)) {
      FilterKeeps(projects, WithoutId(id), d);
    }
    forall d | d in testCases && !HasText(d, "projectId", id) ensures d in Filter(testCases, OutsideProject(id)) {
      FilterKeeps(testCases, OutsideProject(id), d);
    }
    forall d | d in testFiles && !HasText(d, "projectId", id) ensures d in Filter(testFiles, OutsideProject(id)) {
      FilterKeeps(testFiles, OutsideProject(id), d);
    }
    forall r | r in testRuns && r.projectId != Some(id) ensures r in Filter(testRuns, RunOutsideProject(id)) {
      FilterKeeps(testRuns, RunOutsideProject(id), r);
    }
  }

  /** A run started and then completed is stored, settled, at the front. */
  lemma StartThenComplete(runs: seq<TestRun>, run: TestRun, outcome: Outcome, now: string, elapsed: int)
    ensures var after := Finish(Retain(runs, run), run.id, outcome, now, elapsed);
      after[0] == Complete(run, outcome, now, elapsed) && after[0].status != Running &&
      after[1..] == Retain(runs, run)[1..]
  {
    var stored := Retain(runs, run);
    StartedRunIsFound(runs, run);
    FinishSettles(stored, run.id, outcome, now, elapsed);
    var after := Finish(stored, run.id, outcome, now, elapsed);
    assert forall j | 0 <= j < |after[1..]| :: after[1..][j] == stored[1..][j];
  }
}
