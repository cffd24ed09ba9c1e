/**
 * The document-level operations of server.js on projects, test cases and
 * test files, which are stored as JSON objects: the `{...old, ...body,
 * updatedAt}` merge of the PUT handlers, the defaults of a new test file,
 * the list view of test files, and `countBy`.
 */
module Documents {
  import opened Wrappers
  import opened Json
  import opened Sequences
  import opened Paths

  /** The document's `id` is the string `id`. */
  predicate IdIs(d: Doc, id: string) {
    HasText(d, "id", id)
  }

  /** The index of the first document with the id, `None` when there is none. */
  function IndexOfId(docs: seq<Doc>, id: string): (r: Option<nat>)
    ensures r.Some? ==> r.value < |docs| && IdIs(docs[r.value], id)
    ensures r.Some? ==> forall j | 0 <= j < r.value :: !IdIs(docs[j], id)
    ensures r.None? <==> forall j | 0 <= j < |docs| :: !IdIs(docs[j], id)
  {
    FirstIndex(docs, d => IdIs(d, id))
  }

  // ---------------------------------------------------------------------------
  // The PUT merge
  // ---------------------------------------------------------------------------

  /**
   * The spread of the old document, then the body, then a fresh `updatedAt`:
   * every key of the body overrides, every other key of the old document
   * stays, and `updatedAt` is stamped last.
   */
  function Merge(prev: Doc, body: Doc, now: string): (r: Doc)
    ensures r.Keys == prev.Keys + body.Keys + {"updatedAt"}
    ensures r["updatedAt"] == Str(now)
    ensures forall k | k in body && k != "updatedAt" :: r[k] == body[k]
    ensures forall k | k in prev && k !in body && k != "updatedAt" :: r[k] == prev[k]
  {
    prev + body + map["updatedAt" := Str(now)]
  }

  /** Sending the same update twice leaves the document as the first one did. */
  lemma MergeIdempotent(prev: Doc, body: Doc, now: string)
    ensures Merge(Merge(prev, body, now), body, now) == Merge(prev, body, now)
  {
    var once := Merge(prev, body, now);
    var twice := Merge(once, body, now);
    assert twice.Keys == once.Keys;
    forall k | k in once ensures twice[k] == once[k] {
    }
  }

  /**
   * The test-file handler first assigns `f.content = body.content` when the
   * body carries content, and then merges; the assignment is subsumed.
   */
  function AssignContent(f: Doc, body: Doc): (r: Doc)
    ensures "content" in body ==> r == f["content" := body["content"]]
    ensures "content" !in body ==> r == f
  {
    if "content" in body then f["content" := body["content"]] else f
  }

  lemma ContentAssignmentSubsumed(f: Doc, body: Doc, now: string)
    ensures Merge(AssignContent(f, body), body, now) == Merge(f, body, now)
  {
    var a := Merge(AssignContent(f, body), body, now);
    var b := Merge(f, body, now);
    assert a.Keys == b.Keys;
    forall k | k in a ensures a[k] == b[k] {
    }
  }

  /**
   * A PUT handler on a collection: the first document with the id is replaced
   * by its merge with the body; `None` (the 404) when no document has the id.
   */
  function Update(docs: seq<Doc>, id: string, body: Doc, now: string): (r: Option<seq<Doc>>)
    ensures r.None? <==> forall j | 0 <= j < |docs| :: !IdIs(docs[j], id)
    ensures r.Some? ==> |r.value| == |docs|
    ensures r.Some? ==> var i := IndexOfId(docs, id).value;
      r.value[i] == Merge(docs[i], body, now) &&
      forall j | 0 <= j < |docs| && j != i :: r.value[j] == docs[j]
  {
    match IndexOfId(docs, id)
    case None => None
    case Some(i) => Some(docs[i := Merge(docs[i], body, now)])
  }

  /**
   * The merged document is found again under the id exactly when the body
   * leaves `id` alone or sets it to the same value.
   */
  lemma UpdateFindsMerged(docs: seq<Doc>, id: string, body: Doc, now: string)
    requires IndexOfId(docs, id).Some?
    ensures var i := IndexOfId(docs, id).value;
      var r := Update(docs, id, body, now).value;
      IndexOfId(r, id) == Some(i) <==> ("id" in body ==> body["id"] == Str(id))
  {
    var i := IndexOfId(docs, id).value;
    var r := Update(docs, id, body, now).value;
    assert forall j | 0 <= j < i :: r[j] == docs[j];
    assert IdIs(r[i], id) <==> ("id" in body ==> body["id"] == Str(id));
  }

  /** Repeating a PUT whose body keeps the id gives the collection the first one gave. */
  lemma UpdateIdempotent(docs: seq<Doc>, id: string, body: Doc, now: string)
    requires IndexOfId(docs, id).Some?
    requires "id" in body ==> body["id"] == Str(id)
    ensures var once := Update(docs, id, body, now).value;
      Update(once, id, body, now) == Some(once)
  {
    var i := IndexOfId(docs, id).value;
    var once := Update(docs, id, body, now).value;
    UpdateFindsMerged(docs, id, body, now);
    MergeIdempotent(docs[i], body, now);
    assert once[i := Merge(once[i], body, now)] == once;
  }

  /**
   * A body that sets another `id` takes the document out of reach of its old
   * id: a later lookup of that id finds no document up to its old place, so
   * it finds a later duplicate or nothing.
   */
  lemma UpdateCanRenameAway(docs: seq<Doc>, id: string, body: Doc, now: string)
    requires IndexOfId(docs, id).Some?
    requires "id" in body && body["id"] != Str(id)
    ensures var i := IndexOfId(docs, id).value;
      var r := Update(docs, id, body, now).value;
      (forall j | 0 <= j <= i :: !IdIs(r[j], id)) &&
      (IndexOfId(r, id).None? || IndexOfId(r, id).value > i)
  {
    var i := IndexOfId(docs, id).value;
    var r := Update(docs, id, body, now).value;
    assert forall j | 0 <= j < i :: r[j] == docs[j];
    assert !IdIs(r[i], id);
  }

  // ---------------------------------------------------------------------------
  // A new test file
  // ---------------------------------------------------------------------------

  /** The fields of `POST /api/test-files` that the handler reads, each absent or a string. */
  datatype TestFileRequest = TestFileRequest(
    fileType: Option<string>,
    filename: Option<string>,
    projectId: Option<string>,
    content: Option<string>,
    language: Option<string>,
    description: Option<string>)

  const DefaultType := "api"

  /** The name a test file gets without one: `test_`, the first 8 characters of its id, `.spec.js`. */
  function DefaultFilename(id: string): (name: string)
    ensures |name| == 13 + (if |id| < 8 then |id| else 8)
    ensures name[..5] == "test_" && name[|name| - 8..] == ".spec.js"
    ensures name[5..|name| - 8] == Prefix(id, 8)
  {
    var p := Prefix(id, 8);
    var name := "test_" + p + ".spec.js";
    assert name[5..|name| - 8] == p;
    name
  }

  /** The default name of a file whose id has no separator is a single path segment. */
  lemma DefaultFilenameSegment(id: string)
    requires '/' !in id
    ensures Segment(DefaultFilename(id))
  {
    var name := DefaultFilename(id);
    var p := Prefix(id, 8);
    assert name == "test_" + p + ".spec.js";
    assert '/' !in p by {
      forall k | 0 <= k < |p| ensures p[k] != '/' {
        assert p[k] == id[k];
      }
    }
    assert '/' !in "test_" && '/' !in ".spec.js";
  }

  /** Ids that differ in their first 8 characters get different default names. */
  lemma DefaultFilenameDistinct(id1: string, id2: string)
    requires Prefix(id1, 8) != Prefix(id2, 8)
    ensures DefaultFilename(id1) != DefaultFilename(id2)
  {
  }

  /** The header a new test file gets when the request has no content. */
  function DefaultContent(filename: string, fileType: string): string {
    "// " + filename + "\n// Type: " + fileType + "\n\n"
  }

  function FileTypeOf(req: TestFileRequest): string {
    TextOr(req.fileType, DefaultType)
  }

  function FilenameOf(req: TestFileRequest, id: string): string {
    TextOr(req.filename, DefaultFilename(id))
  }

  /** The project's directory when the file belongs to one, its type's directory otherwise. */
  function FileDir(req: TestFileRequest, testsDir: string): string {
    if Given(req.projectId) then ProjectDir(testsDir, req.projectId.value)
    else TypeDir(testsDir, FileTypeOf(req))
  }

  const FileKeys: set<string> :=
    {"id", "projectId", "filename", "filePath", "type", "language", "description", "content", "createdAt", "updatedAt"}

  /** The record `POST /api/test-files` stores. */
  function NewTestFile(id: string, req: TestFileRequest, testsDir: string, now: string): (f: Doc)
    ensures f.Keys == FileKeys
    ensures IdIs(f, id)
    ensures HasText(f, "type", FileTypeOf(req)) && HasText(f, "filename", FilenameOf(req, id))
    ensures HasText(f, "filePath", Join(FileDir(req, testsDir), FilenameOf(req, id)))
    ensures Given(req.projectId) ==> HasText(f, "projectId", req.projectId.value)
    ensures !Given(req.projectId) ==> f["projectId"] == Null
    ensures Given(req.content) ==> HasText(f, "content", req.content.value)
    ensures !Given(req.content) ==> HasText(f, "content", DefaultContent(FilenameOf(req, id), FileTypeOf(req)))
    ensures HasText(f, "language", TextOr(req.language, "javascript"))
    ensures HasText(f, "description", TextOr(req.description, ""))
    ensures HasText(f, "createdAt", now) && HasText(f, "updatedAt", now)
  {
    var fileType := FileTypeOf(req);
    var filename := FilenameOf(req, id);
    map[
      "id" := Str(id),
      "projectId" := if Given(req.projectId) then Str(req.projectId.value) else Null,
      "filename" := Str(filename),
      "filePath" := Str(Join(FileDir(req, testsDir), filename)),
      "type" := Str(fileType),
      "language" := Str(TextOr(req.language, "javascript")),
      "description" := Str(TextOr(req.description, "")),
      "content" := Str(TextOr(req.content, DefaultContent(filename, fileType))),
      "createdAt" := Str(now),
      "updatedAt" := Str(now)
    ]
  }

  /**
   * A file created for a project lies in that project's directory; any other
   * in its type's. This needs a single-segment filename: the handler does not
   * check a filename it is given, and one with `/` or `..` leaves the directory.
   */
  lemma NewTestFileLocation(id: string, req: TestFileRequest, testsDir: string, now: string)
    requires Segment(FilenameOf(req, id))
    ensures var f := NewTestFile(id, req, testsDir, now);
      f["filePath"].Str? &&
      (Given(req.projectId) ==> Under(f["filePath"].s, ProjectDir(testsDir, req.projectId.value))) &&
      (!Given(req.projectId) ==> Under(f["filePath"].s, TypeDir(testsDir, FileTypeOf(req))))
  {
    JoinUnder(FileDir(req, testsDir), FilenameOf(req, id));
  }

  // ---------------------------------------------------------------------------
  // The list view of test files
  // ---------------------------------------------------------------------------

  const FilePreviewLength := 200

  /**
   * The first 200 elements of the content, with a falsy content read as ""; a string or an
   * array its first 200 elements, and any other value has no `slice`, so the
   * handler throws (`None`).
   */
  function ContentPreview(v: Option<Value>): (r: Option<Value>)
    ensures !Truthy(v) ==> r == Some(Str(""))
    ensures Truthy(v) && v.value.Str? ==> r == Some(Str(Prefix(v.value.s, FilePreviewLength)))
    ensures Truthy(v) && v.value.Arr? ==> r == Some(Arr(Prefix(v.value.items, FilePreviewLength)))
    ensures r.None? <==> Truthy(v) && !v.value.Str? && !v.value.Arr?
  {
    if !Truthy(v) then Some(Str(""))
    else match v.value
      case Str(s) => Some(Str(Prefix(s, FilePreviewLength)))
      case Arr(items) => Some(Arr(Prefix(items, FilePreviewLength)))
      case _ => None
  }

  /** A file in the list view: its fields without `content`, whose undefined value JSON drops, plus `contentPreview`. */
  function FileListing(f: Doc): (r: Option<Doc>)
    ensures r.Some? <==> ContentPreview(Get(f, "content")).Some?
    ensures r.Some? ==> r.value.Keys == f.Keys - {"content"} + {"contentPreview"}
    ensures r.Some? ==> r.value["contentPreview"] == ContentPreview(Get(f, "content")).value
    ensures r.Some? ==> forall k | k in f && k != "content" && k != "contentPreview" :: r.value[k] == f[k]
  {
    match ContentPreview(Get(f, "content"))
    case None => None
    case Some(p) => Some((f - {"content"})["contentPreview" := p])
  }

  /** The query filters of `GET /api/test-files`. */
  predicate FileSelected(f: Doc, projectId: Option<string>, fileType: Option<string>) {
    (Given(projectId) ==> HasText(f, "projectId", projectId.value)) &&
    (Given(fileType) ==> HasText(f, "type", fileType.value))
  }

  /** The two query filters as one test. */
  function FileFilter(projectId: Option<string>, fileType: Option<string>): Doc -> bool {
    (f: Doc) => FileSelected(f, projectId, fileType)
  }

  /** Mapping every file to its listing: all of them in order, or `None` as soon as one throws. */
  function ListAll(files: seq<Doc>): (r: Option<seq<Doc>>)
    ensures r.None? <==> exists f | f in files :: FileListing(f).None?
    ensures r.Some? ==> |r.value| == |files| && forall i | 0 <= i < |files| :: FileListing(files[i]) == Some(r.value[i])
  {
    if |files| == 0 then Some([])
    else
      assert files == [files[0]] + files[1..];
      match FileListing(files[0])
      case None => None
      case Some(v) =>
        var rest := ListAll(files[1..]);
        if rest.None? then None else Some([v] + rest.value)
  }

  /** A selected file that throws is a file of the filtered collection that throws, and back. */
  lemma SelectedThrows(files: seq<Doc>, projectId: Option<string>, fileType: Option<string>)
    ensures (exists f | f in Filter(files, FileFilter(projectId, fileType)) :: FileListing(f).None?) <==>
            (exists f | f in files :: FileSelected(f, projectId, fileType) && FileListing(f).None?)
  {
    var keep := FileFilter(projectId, fileType);
    if f :| f in files && FileSelected(f, projectId, fileType) && FileListing(f).None? {
      FilterKeeps(files, keep, f);
    }
    if f :| f in Filter(files, keep) && FileListing(f).None? {
      FilterMember(files, keep, f);
    }
  }

  /**
   * `GET /api/test-files`: the listings of the files the query selects, in
   * stored order, or `None` when one of them makes the handler throw.
   */
  function ListFiles(files: seq<Doc>, projectId: Option<string>, fileType: Option<string>): (r: Option<seq<Doc>>)
    ensures r.None? <==> exists f | f in files :: FileSelected(f, projectId, fileType) && FileListing(f).None?
    ensures r.Some? ==> var kept := Filter(files, FileFilter(projectId, fileType));
      |r.value| == |kept| && forall i | 0 <= i < |kept| :: FileListing(kept[i]) == Some(r.value[i])
    ensures r.Some? ==> forall i | 0 <= i < |r.value| :: "content" !in r.value[i] && "contentPreview" in r.value[i]
  {
    SelectedThrows(files, projectId, fileType);
    ListAll(Filter(files, FileFilter(projectId, fileType)))
  }

  // ---------------------------------------------------------------------------
  // countBy
  // ---------------------------------------------------------------------------

  /** The property name `item[key]` becomes when used as a key of `acc`. */
  function KeyOf(item: Doc, key: string): string {
    Show(Get(item, key))
  }

  /**
   * `countBy`: a reduce over the items, from the left, into an object keyed by
   * the string form of each item's `key` field, adding 1 per item.
   */
  function CountBy(items: seq<Doc>, key: string): (m: map<string, nat>)
    ensures forall k | k in m :: m[k] > 0
    decreases |items|
  {
    if |items| == 0 then map[]
    else
      var acc := CountBy(items[..|items| - 1], key);
      var k := KeyOf(items[|items| - 1], key);
      acc[k := (if k in acc then acc[k] else 0) + 1]
  }

  /** How many of `items` have `k` as the name of their `key`. */
  function Tally(items: seq<Doc>, key: string, k: string): nat {
    if |items| == 0 then 0
    else (if KeyOf(items[0], key) == k then 1 else 0) + Tally(items[1..], key, k)
  }

  lemma {:induction false} TallyAppend(items: seq<Doc>, item: Doc, key: string, k: string)
    ensures Tally(items + [item], key, k) == Tally(items, key, k) + (if KeyOf(item, key) == k then 1 else 0)
  {
    if |items| > 0 {
      assert (items + [item])[1..] == items[1..] + [item];
      TallyAppend(items[1..], item, key, k);
    }
  }

  /** `countBy` has an entry for exactly the key names that occur, and it is their number of items. */
  lemma {:induction false} CountByTally(items: seq<Doc>, key: string)
    ensures forall k :: k in CountBy(items, key) <==> Tally(items, key, k) > 0
    ensures forall k | k in CountBy(items, key) :: CountBy(items, key)[k] == Tally(items, key, k)
    decreases |items|
  {
    if |items| > 0 {
      var init := items[..|items| - 1];
      var last := items[|items| - 1];
      assert items == init + [last];
      CountByTally(init, key);
      forall k {
        TallyAppend(init, last, key, k);
      }
    }
  }
}
