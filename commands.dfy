/**
 * How `POST /api/test-runs` decides what to run: a custom command verbatim,
 * else the requested test file with the runner its type calls for, else the
 * project's directory, else the directory of the requested test type.
 */
module Commands {
  import opened Wrappers
  import opened Json
  import opened Sequences
  import opened Paths
  import opened Documents

  /** The fields of the request body the handler reads, each absent or a string. */
  datatype RunRequest = RunRequest(
    command: Option<string>,
    fileId: Option<string>,
    projectId: Option<string>,
    runType: Option<string>)

  /** The shell command of a run. */
  datatype Command =
    | Custom(text: string)            // the request's own command
    | NodeTest(target: string)        // the built-in Node.js test runner
    | PlaywrightList(target: string)  // Playwright with the list reporter
    | NoTestFiles                     // a project without a test directory

  /** The command line handed to `sh -c`. */
  function Render(c: Command): string {
    match c
    case Custom(text) => text
    case NodeTest(target) => "node --test \"" + target + "\""
    case PlaywrightList(target) => "npx playwright test \"" + target + "\" --reporter=list"
    case NoTestFiles => "echo \"No test files found for project\""
  }

  const FileNotFound := "Test file not found"

  /** The requested test type, `api` when none is given. */
  function RunTypeOf(req: RunRequest): string {
    TextOr(req.runType, "api")
  }

  /** The requested project, null when none is given. */
  function ProjectIdOf(req: RunRequest): (r: Option<string>)
    ensures r.Some? <==> Given(req.projectId)
    ensures r.Some? ==> r == req.projectId
  {
    if Given(req.projectId) then req.projectId else None
  }

  /** The command for a stored test file: unit files run under Node, the rest under Playwright. */
  function FileCommand(f: Doc): Command {
    var path := Show(Get(f, "filePath"));
    if HasText(f, "type", "unit") then NodeTest(path) else PlaywrightList(path)
  }

  /** The command for a run by test type: `<dir>/` of the type. */
  function TypeCommand(testsDir: string, runType: string): Command {
    var dir := TypeDir(testsDir, runType) + "/";
    if runType == "unit" then NodeTest(dir) else PlaywrightList(dir)
  }

  /**
   * The decision chain of the handler. `existingDirs` stands for
   * `fs.pathExists`; the only failure is a requested test file that is not stored.
   */
  function ResolveCommand(req: RunRequest, files: seq<Doc>, existingDirs: set<string>, testsDir: string)
    : (r: Result<Command, string>)
    ensures Given(req.command) ==> r == Success(Custom(req.command.value))
    ensures r.Failure? <==>
              !Given(req.command) && Given(req.fileId) && forall j | 0 <= j < |files| :: !IdIs(files[j], req.fileId.value)
    ensures r.Failure? ==> r.error == FileNotFound
    ensures !Given(req.command) && Given(req.fileId) && IndexOfId(files, req.fileId.value).Some? ==>
              r == Success(FileCommand(files[IndexOfId(files, req.fileId.value).value]))
    ensures !Given(req.command) && !Given(req.fileId) && Given(req.projectId) ==>
              var dir := ProjectDir(testsDir, req.projectId.value);
              r == Success(if dir in existingDirs then PlaywrightList(dir) else NoTestFiles)
    ensures !Given(req.command) && !Given(req.fileId) && !Given(req.projectId) ==>
              r == Success(TypeCommand(testsDir, RunTypeOf(req)))
  {
    if Given(req.command) then Success(Custom(req.command.value))
    else if Given(req.fileId) then
      match IndexOfId(files, req.fileId.value)
      case None => Failure(FileNotFound)
      case Some(j) => Success(FileCommand(files[j]))
    else if Given(req.projectId) then
      var dir := ProjectDir(testsDir, req.projectId.value);
      Success(if dir in existingDirs then PlaywrightList(dir) else NoTestFiles)
    else
      Success(TypeCommand(testsDir, RunTypeOf(req)))
  }

  /** Which program a command starts. */
  datatype Runner = Shell | Node | Playwright | Echo

  function RunnerOf(c: Command): Runner {
    match c
    case Custom(_) => Shell
    case NodeTest(_) => Node
    case PlaywrightList(_) => Playwright
    case NoTestFiles => Echo
  }

  /**
   * Without a custom command, a run uses Node's test runner exactly when it
   * targets a unit-test file, or, with neither file nor project, the type `unit`.
   */
  lemma NodeRunnerChoice(req: RunRequest, files: seq<Doc>, existingDirs: set<string>, testsDir: string)
    requires !Given(req.command)
    requires ResolveCommand(req, files, existingDirs, testsDir).Success?
    ensures var c := ResolveCommand(req, files, existingDirs, testsDir).value;
      RunnerOf(c) == Node <==>
        if Given(req.fileId) then
          var j := IndexOfId(files, req.fileId.value).value;
          HasText(files[j], "type", "unit")
        else !Given(req.projectId) && RunTypeOf(req) == "unit"
  {
  }

  /** The first two characters of a command line tell which program it starts. */
  lemma RunnerOfRender(c: Command)
    requires !c.Custom?
    ensures |Render(c)| > 1
    ensures RunnerOf(c) == if Render(c)[0] == 'e' then Echo else if Render(c)[1] == 'o' then Node else Playwright
  {
  }

  /** Equal rendered lines of the same shape have the same target. */
  lemma SameFrame(pre: string, suf: string, x: string, y: string)
    requires pre + x + suf == pre + y + suf
    ensures x == y
  {
    var s := pre + x + suf;
    assert x == s[|pre|..|pre| + |x|];
    assert y == (pre + y + suf)[|pre|..|pre| + |y|];
  }

  /** The command line identifies the runner and its target: distinct commands render differently. */
  lemma RenderInjective(c: Command, d: Command)
    requires !c.Custom? && !d.Custom?
    requires Render(c) == Render(d)
    ensures c == d
  {
    RunnerOfRender(c);
    RunnerOfRender(d);
    if c.NodeTest? {
      assert d.NodeTest?;
      SameFrame("node --test \"", "\"", c.target, d.target);
    } else if c.PlaywrightList? {
      assert d.PlaywrightList?;
      SameFrame("npx playwright test \"", "\" --reporter=list", c.target, d.target);
    }
  }

  /**
   * With two stored files under the same id (a PUT body can set any `id`),
   * a run of that id executes the earlier one.
   */
  lemma DuplicateIdRunsFirst(files: seq<Doc>, i: nat, j: nat, rreq: RunRequest, existingDirs: set<string>,
                             testsDir: string)
    requires i < j < |files| && !Given(rreq.command) && Given(rreq.fileId)
    requires IdIs(files[i], rreq.fileId.value) && IdIs(files[j], rreq.fileId.value)
    requires forall k | 0 <= k < i :: !IdIs(files[k], rreq.fileId.value)
    ensures ResolveCommand(rreq, files, existingDirs, testsDir) == Success(FileCommand(files[i]))
  {
    var found := IndexOfId(files, rreq.fileId.value);
    assert found.Some?;
    assert found.value == i;
  }

  /**
   * A test file just created (with an id no stored file has) is what a run
   * of that id executes, with Node exactly when its type is `unit`.
   */
  lemma CreatedFileRuns(files: seq<Doc>, id: string, freq: TestFileRequest, testsDir: string, now: string,
                        rreq: RunRequest, existingDirs: set<string>)
    requires forall j | 0 <= j < |files| :: !IdIs(files[j], id)
    requires !Given(rreq.command) && rreq.fileId == Some(id) && |id| > 0
    ensures var f := NewTestFile(id, freq, testsDir, now);
      var path := Join(FileDir(freq, testsDir), FilenameOf(freq, id));
      ResolveCommand(rreq, files + [f], existingDirs, testsDir) ==
        Success(if FileTypeOf(freq) == "unit" then NodeTest(path) else PlaywrightList(path))
  {
    var f := NewTestFile(id, freq, testsDir, now);
    var all := files + [f];
    assert IdIs(all[|files|], id);
    assert forall k | 0 <= k < |files| :: all[k] == files[k];
  }

  /**
   * A run of a project whose directory exists executes Playwright on the
   * directory that every test file created for that project lies in.
   */
  lemma ProjectRunCoversItsFiles(rreq: RunRequest, files: seq<Doc>, existingDirs: set<string>, testsDir: string,
                                 id: string, freq: TestFileRequest, now: string)
    requires !Given(rreq.command) && !Given(rreq.fileId) && Given(rreq.projectId)
    requires ProjectDir(testsDir, rreq.projectId.value) in existingDirs
    requires freq.projectId == rreq.projectId
    requires Segment(FilenameOf(freq, id))
    ensures var r := ResolveCommand(rreq, files, existingDirs, testsDir);
      r.Success? && r.value.PlaywrightList? &&
      Under(NewTestFile(id, freq, testsDir, now)["filePath"].s, r.value.target)
  {
    NewTestFileLocation(id, freq, testsDir, now);
  }
}
