# qa-engineer test runs, modelled in Dafny

This project models the test-run subsystem of the qa-engineer server
(`server.js`). The server keeps one JSON database of projects, test cases,
test files and test runs. The model covers:

- `POST /api/test-runs` choosing a shell command: a custom command verbatim;
  else the requested test file, under Node's test runner when its type is
  `unit` and under Playwright otherwise; else the project's test directory;
  else the directory of the requested test type.
- The new run record, stored newest first, with only the newest 100 kept.
- The completion of a run from the exit code and output of its process.
- `parseTestResults`: the counts read from Playwright's `N passed / N failed /
  N skipped` summary, falling back to the `# pass N / # fail N` lines of Node's
  test runner.
- Deleting a project together with its test cases, test files and runs.
- The `{ ...old, ...body, updatedAt }` merge of the three PUT handlers.
- The defaults and path of a new test file.
- The list views of test files and runs, with their truncated previews.
- `countBy`.

Modules:

- `Wrappers` holds `Option` and `Result`.
- `Digits` holds decimal digit strings, `parseInt` and `String(n)`.
- `Json` holds JSON values, documents as maps, JavaScript truthiness and `String(v)`.
- `Sequences` holds `filter`, `findIndex` and `slice`.
- `Paths` holds `path.join`.
- `Summary` and `SummaryProperties` model the result parser. `SummaryLines` proves that the parser reads back the summaries the runners print.
- `Documents` covers the document handlers.
- `Commands` covers command resolution.
- `Runs` covers run records, completion, retention and the run list.
- `Server` holds the class `Db`, whose methods are the handlers that change the database in place.

The handlers' external inputs are parameters:

- the fresh uuid and the current time;
- the set of directories that exist, standing for `fs.pathExists`;
- the tests directory;
- the outcome of the spawned process.

## Model

| member | source | states |
|---|---|---|
| Summary.FindNumberThenLeftmost | server.js:375-377 | the scan for `/(\d+) suffix/` finds the leftmost match with the longest digit run, and none when the text has no match |
| Summary.FindNumberAfterLeftmost | server.js:386-387 | the scan for `/prefix(\d+)/` finds the leftmost match with the longest digit run, and none when the text has no match |
| Summary.ParseTestResults | server.js:371-394 | total is the sum of the counts; the Playwright counts are used when they add up to more than 0, and otherwise the Node `# pass`/`# fail` counts with skipped 0 |
| SummaryProperties.PlaywrightCountIsFirstMatch | server.js:375-381 | a Playwright count is `parseInt` of the digits of the first match |
| SummaryProperties.NodeCountIsFirstMatch | server.js:386-389 | a Node count is `parseInt` of the digits of the first match |
| SummaryProperties.AbsentSuffixCountsZero | server.js:379-381 | a `N passed`/`N failed`/`N skipped` marker that never occurs after digits counts 0 |
| SummaryProperties.AbsentPrefixCountsZero | server.js:388-389 | a `# pass`/`# fail` marker that is never followed by digits counts 0 |
| SummaryProperties.NoMarkersNoResults | server.js:371-394 | output without any marker parses to all zeros |
| SummaryProperties.PlaywrightCountStable | server.js:375-381 | once a marker has matched, appending more output does not change its count |
| SummaryProperties.ParseTestResultsStable | server.js:371-394 | once all three Playwright markers have matched with a non-zero total, appending output does not change the results |
| SummaryLines.PlaywrightLineParses | server.js:375-382 | the line `p passed, f failed, k skipped` parses to total p+f+k with those counts |
| SummaryLines.NodeLinesParse | server.js:385-391 | the lines `# pass p` and `# fail f` parse to total p+f, skipped 0 |
| SummaryLines.PlaywrightExample | server.js:375-382 | "12 passed, 3 failed, 1 skipped" parses to total 16, passed 12, failed 3, skipped 1 |
| SummaryLines.NodeExample | server.js:385-391 | "# pass 5" and "# fail 2" on two lines parse to total 7, passed 5, failed 2, skipped 0 |
| SummaryLines.PlaywrightTextParses | server.js:375-382 | any three digit strings in the Playwright summary line parse back to their `parseInt` values |
| SummaryLines.NodeTextParses | server.js:385-391 | any two digit strings in the Node summary lines parse back to their `parseInt` values |
| Digits.ParseDecimal | server.js:379 | `parseInt(String(n))` is n |
| Digits.LeadingZero | server.js:379 | a leading zero does not change the value `parseInt` reads from a digit string |
| Commands.ProjectIdOf | server.js:274 | the run's project is the request's when it is a non-empty string, and null otherwise |
| Commands.ResolveCommand | server.js:270-310 | a custom command wins; a given file id that no stored file has is the 404 "Test file not found" and is the only failure; a found file gives the command of the first file with that id; a project gives Playwright on its directory if it exists, else the echo; otherwise the type directory |
| Commands.NodeRunnerChoice | server.js:284-310 | without a custom command, Node's runner is used exactly for a `unit` file or, with neither file nor project, the `unit` type |
| Commands.RenderInjective | server.js:288-309 | distinct non-custom commands give distinct command lines |
| Commands.DuplicateIdRunsFirst | server.js:286 | with two stored files under the same id, a run of that id executes the earlier one |
| Commands.CreatedFileRuns | server.js:184-220 | a newly created test file is what a run of its id executes, under Node exactly when its type is `unit` |
| Commands.ProjectRunCoversItsFiles | server.js:294-299 | a run of a project with a test directory targets a directory that holds every test file created for the project under a single-segment filename |
| Paths.JoinUnder | server.js:197 | a single-segment name joined to a directory names an entry of that directory |
| Paths.ProjectDirInjective | server.js:194 | distinct single-segment project ids have distinct test directories |
| Runs.NewRun | server.js:312-324 | a new run is running, has empty output and zero counts, and is consistent |
| Runs.Complete | server.js:345-367 | exit code 0 passes and any other exit (including a signal) fails, both with the parsed results; a throwing spawn is an error with the message as output and the counts kept; consistency is preserved |
| Runs.KilledRunFails | server.js:351 | a process ended without an exit code is recorded as failed |
| Runs.Retain | server.js:326-327 | the new run is first, followed by the older runs in order, at most 100 in all |
| Runs.RetainKeepsAll | server.js:326-327 | below 100 stored runs nothing is dropped |
| Runs.RetainShifts | server.js:326-327 | every other retained run is the older run one place earlier |
| Runs.IndexOfRun | server.js:347 | the first run with the id, or none when no run has it |
| Runs.Finish | server.js:347-358 | only the found run changes, and nothing changes when the run is gone |
| Runs.StartedRunIsFound | server.js:326-347 | a just-stored run is the one its id finds, at the front |
| Runs.FinishSettles | server.js:347-358 | the completed run keeps its place, is found again and is no longer running |
| Runs.FinishKeepsConsistent | server.js:345-367 | completion keeps every stored run consistent |
| Runs.Listing | server.js:259 | every field but the output is copied, and the output preview is a prefix of the output of length min(\|output\|, 2000) |
| Runs.ListingKeepsAllButOutput | server.js:259 | two runs with the same listing differ at most in their output |
| Runs.Selected | server.js:256-257 | with a project query, every run of that project is kept as often as it is stored and every other run is dropped; without one, all runs are kept; the stored order is kept |
| Runs.ListRuns | server.js:254-260 | every listing comes from a stored run the query wants, every such run is listed, one listing per selected run, in stored order |
| Documents.IndexOfId | server.js:86 | the first document with the id, or none |
| Documents.Merge | server.js:88 | the merge has the keys of both plus `updatedAt`; body values override old ones, and other old values stay |
| Documents.MergeIdempotent | server.js:88 | merging the same body twice is merging it once |
| Documents.ContentAssignmentSubsumed | server.js:229-236 | assigning the content before the merge makes no difference to the stored file |
| Documents.Update | server.js:84-91 | none (the 404) exactly when no document has the id; otherwise the first document with the id becomes its merge with the body and every other document stays |
| Documents.UpdateFindsMerged | server.js:86-90 | the merged document is found again at its place under the id exactly when the body leaves `id` alone or sets it to the same value |
| Documents.UpdateIdempotent | server.js:84-91 | repeating a PUT whose body keeps the id changes nothing more |
| Documents.UpdateCanRenameAway | server.js:88 | a body that sets another `id` leaves no document with the old id up to the updated place, so a later lookup finds a later duplicate or nothing |
| Documents.DefaultFilename | server.js:188 | the default name is `test_`, the first 8 characters of the id (fewer for a shorter id), and `.spec.js` |
| Documents.DefaultFilenameDistinct | server.js:188 | ids that differ in their first 8 characters get different default names |
| Documents.NewTestFile | server.js:184-220 | the stored file has exactly the handler's keys, with type, filename, path, project, content, language, description and timestamps defaulted as in the handler |
| Documents.NewTestFileLocation | server.js:192-197 | a file with a single-segment filename lies in its project's directory when it has a project, and in its type's directory otherwise |
| Documents.DefaultFilenameSegment | server.js:186-188 | the default filename of a uuid without separators is a single path segment |
| Documents.ContentPreview | server.js:170 | a falsy content gives "", a string or array its first 200 elements, and any other value throws |
| Documents.FileListing | server.js:170 | the listing drops `content`, adds `contentPreview` and keeps every other key |
| Documents.ListAll | server.js:170 | mapping the files to their listings gives all of them in order, or fails exactly when one of them throws |
| Documents.ListFiles | server.js:164-171 | the listings of exactly the files the query selects, in stored order, each without `content` and with `contentPreview`; none exactly when a selected file makes the handler throw |
| Documents.CountBy | server.js:421-423 | every count is positive |
| Documents.CountByTally | server.js:421-423 | there is an entry for exactly the key names that occur, and its count is their number of items |
| Server.RunFor | server.js:312-324 | the run record carries the resolved command line, the project and type, and the file id only when one was given |
| Server.Db.Empty | server.js:38-40 | the database starts with four empty collections |
| Server.Db.StartRun | server.js:268-327 | a failed resolution stores nothing; otherwise the new run is stored by retention and returned; the other collections are unchanged, and the run bound and consistency are kept |
| Server.Db.CompleteRun | server.js:345-367 | the stored runs become their completion, and the other collections are unchanged |
| Server.Db.DeleteProject | server.js:93-101 | each collection is filtered by its own test: projects by id, the rest by `projectId` |
| Server.DeleteProjectCascade | server.js:93-101 | after the deletion nothing refers to the project, and everything else is kept |
| Server.StartThenComplete | server.js:326-358 | a started then completed run is at the front and settled, and the older runs are untouched |
| Server.Db.UpdateProject | server.js:84-91 | the projects become the update, and the response is the merged project or the 404 |
| Server.Db.UpdateTestCase | server.js:143-150 | the test cases become the update, and the response is the merged case or the 404 |
| Server.Db.UpdateTestFile | server.js:222-238 | the content assignment followed by the merge yields the same update |
| Server.Db.CreateTestFile | server.js:184-220 | the new file record is appended |
| Sequences.Filter | server.js:96-99 | `filter` keeps exactly the accepted elements, in order |

## Left out

- Spawning the process, streaming its output, the 120-second timeout and the environment: the process outcome is a parameter (`Outcome`), and a kill by a signal or the timeout is an exit without a code.
- Disk I/O: `loadDb`/`saveDb`, writing and removing test files, `fs.ensureDir`, and reading a file's content back in `GET /api/test-files/:id`.
- Concurrency. Each handler runs to completion against one database value, so the lost update between a handler and a completion handler that reloads the database is not modelled.
- The request bodies of `POST /api/test-runs` and `POST /api/test-files` are modelled as absent-or-string fields. Non-string values (numbers or objects passed to template strings and `path.join`) are not modelled.
- Digits.ParseDigits: `parseInt` is exact over unbounded naturals; the loss of precision of JavaScript numbers past 2^53 is not modelled.
- JSON numbers are integers (`Num(int)`); fractional numbers are not modelled.
- Lengths and slices are counted in characters; JavaScript counts UTF-16 code units.
- Paths.Join: `path.join` is modelled as concatenation with `/`, without normalising `..`, `.` or repeated separators.
- `POST /api/test-files` takes `filename`, `type` and `projectId` from the request unchecked, and `path.join` resolves `..` in them, so a filename such as `../q/t.spec.js` stores the file outside its project's directory. The model keeps this behaviour and states the location lemmas only for single-segment filenames.
- Paths.JoinUnder: stated only for a single-segment name; a name with `/` or `..` leaves the directory.
- Paths.ProjectDirInjective: stated only for single-segment ids; `a/../b` and `b` name one directory.
- Documents.NewTestFileLocation: stated only for a single-segment filename, which the default name of a uuid is (Documents.DefaultFilenameSegment).
- Commands.ProjectRunCoversItsFiles: stated only for a single-segment filename.
- Documents.CountBy: the result is a map with no key order, and keys that clash with `Object.prototype` members (`__proto__`, `constructor`) are not modelled.
- The stats, health and project detail handlers (counts per project) are not modelled.
- Creating projects and test cases, the GET-by-id handlers, and the DELETE handlers for a single test case or test file are not modelled.
- Filtering test cases by query is not modelled.
- Express routing, query-string arrays and HTTP status codes: a 404 is a `None`/`Failure` result.
- Per-test detail parsing and the run-everything command are not modelled: this server has neither.
- The browser front end (`public/app.js`), the test specs and the configuration files are not part of this model.
- The PUT merge lets a body overwrite `id`, `createdAt` and any other key. The model keeps this behaviour (Documents.UpdateCanRenameAway) rather than correcting it.
