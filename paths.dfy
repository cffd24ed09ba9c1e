/**
 * The directories the server derives under its tests directory (`TESTS_DIR`,
 * taken as a parameter): one per test type and one per project.
 */
module Paths {
  /** `path.join(dir, name)`, for names without separators or `..` segments. */
  function Join(dir: string, name: string): string {
    dir + "/" + name
  }

  /** The directory of a test type inside the tests directory. */
  function TypeDir(testsDir: string, testType: string): string {
    Join(testsDir, testType)
  }

  /** The directory of a project, under `projects` inside the tests directory. */
  function ProjectDir(testsDir: string, projectId: string): string {
    Join(Join(testsDir, "projects"), projectId)
  }

  /** `dir + "/"` begins every path joined under `dir`. */
  predicate Under(path: string, dir: string) {
    dir + "/" <= path
  }

  /**
   * A name that `path.join` appends as one entry of the directory: not empty,
   * without a separator, and neither `.` nor `..`.
   */
  predicate Segment(name: string) {
    |name| > 0 && '/' !in name && name != "." && name != ".."
  }

  /** A single-segment name joined to `dir` names an entry of `dir`. */
  lemma JoinUnder(dir: string, name: string)
    requires Segment(name)
    ensures Under(Join(dir, name), dir)
    ensures Join(dir, name)[|dir| + 1..] == name
  {
    assert Join(dir, name) == (dir + "/") + name;
  }

  /** Distinct single-segment project ids get distinct directories. */
  lemma ProjectDirInjective(testsDir: string, p: string, q: string)
    requires Segment(p) && Segment(q)
    requires ProjectDir(testsDir, p) == ProjectDir(testsDir, q)
    ensures p == q
  {
    var base := Join(testsDir, "projects") + "/";
    assert ProjectDir(testsDir, p) == base + p;
    assert ProjectDir(testsDir, q) == base + q;
    assert p == (base + p)[|base|..];
  }
}
