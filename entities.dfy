/**
 * The typed entities the client decodes from server replies, with the values
 * derived from them: lateness, lookup of an assignment within a course,
 * the relative path of an attachment, and the extraction of a submission's
 * files from the nested plugin / file-area shape of the reply.
 */
module Entities {
  import opened Wrappers
  import opened Errors
  import opened Lookup
  import opened Paths

  /** An assignment; `duedate` is in seconds since the Unix epoch. */
  datatype MAssignment = MAssignment(id: nat, name: string, maxGrade: real, duedate: int) {

    /**
     * Seconds by which `submission` was last modified after the due date;
     * never negative: a submission on time or early is 0 seconds late.
     */
    function CalculateLate(submission: MSubmission): (late: nat)
      ensures submission.timemodified >= duedate ==> late == submission.timemodified - duedate
      ensures submission.timemodified < duedate ==> late == 0
    {
      var seconds := submission.timemodified - duedate;
      if seconds > 0 then seconds else 0
    }
  }

  function AssignmentId(a: MAssignment): nat { a.id }

  datatype MCourse = MCourse(id: nat, fullname: string, assignments: seq<MAssignment>) {

    /**
     * The first assignment of the course with id `assignmentId`, or
     * `NotFound(Assignment, assignmentId)` when the course has none.
     */
    function GetAssignment(assignmentId: nat): (r: Result<MAssignment>)
      ensures r.Ok? <==> HasId(assignments, AssignmentId, assignmentId)
      ensures r.Ok? ==> FirstMatch(assignments, AssignmentId, assignmentId, r.value)
      ensures r.Err? ==> r.error == NotFound(Assignment, assignmentId)
    {
      match FindFirst(assignments, AssignmentId, assignmentId)
      case Some(a) => Ok(a)
      case None => Err(NotFound(Assignment, assignmentId))
    }
  }

  function CourseId(c: MCourse): nat { c.id }

  /**
   * An attachment of a submission. `filepath` is the directory the server
   * reports, as `DeserializeFilepath` decodes it.
   */
  datatype SubmissionFile = SubmissionFile(filename: string, fileurl: string, filepath: Path) {

    /** The attachment's path: its file name joined onto its directory. */
    function Fullpath(): (p: Path)
      ensures !ParsePath(filename).rooted ==>
                p.rooted == filepath.rooted && p.parts == filepath.parts + ParsePath(filename).parts
      ensures ParsePath(filename).rooted ==> p == ParsePath(filename)
    {
      Join(filepath, filename)
    }
  }

  datatype SubmissionFileArea = SubmissionFileArea(area: string, files: Option<seq<SubmissionFile>>)

  datatype SubmissionPlugin = SubmissionPlugin(pluginType: string, fileareas: Option<seq<SubmissionFileArea>>)

  /** A submission; `files` is what `DeserializeFiles` extracts from its plugins. */
  datatype MSubmission = MSubmission(userid: nat, timemodified: int, files: seq<SubmissionFile>)

  /** The submissions the server groups under one assignment. */
  datatype AssignmentSubmission = AssignmentSubmission(assignmentid: nat, submissions: seq<MSubmission>)

  function GroupAssignmentId(g: AssignmentSubmission): nat { g.assignmentid }

  datatype MUser = MUser(id: nat, fullname: string, email: string)

  function UserId(u: MUser): nat { u.id }

  /** The decoded replies of the three listing functions of the web service. */
  datatype AssignmentsResponse = AssignmentsResponse(courses: seq<MCourse>)
  datatype SubmissionsResponse = SubmissionsResponse(assignments: seq<AssignmentSubmission>)
  datatype UserResponse = UserResponse(users: seq<MUser>)

  // ---------------------------------------------------------------------------
  // The directory of an attachment
  // ---------------------------------------------------------------------------

  /**
   * The server's path with its root removed: `/a/b/` becomes `a/b`, and a
   * path that has no leading separator becomes the empty path.
   */
  function DeserializeFilepath(s: string): (p: Path)
    ensures WellFormed(p) && !p.rooted
    ensures |s| > 0 && s[0] == '/' ==> "/" + Render(p) == Render(ParsePath(s))
    ensures !(|s| > 0 && s[0] == '/') ==> p == Empty
    ensures Render(p) == [] || Render(p)[0] != '/'
  {
    var p := StripRoot(ParsePath(s));
    RenderLeadingSeparator(p);
    p
  }

  /**
   * Decoding the text of a decoded directory a second time gives the empty
   * path: the strip keeps no root, so a second strip finds none.
   */
  lemma DeserializeFilepathTwice(s: string)
    ensures DeserializeFilepath(Render(DeserializeFilepath(s))) == Empty
  {
  }

  /** So the strip is not idempotent: `/a` decodes to `a`, and `a` to the empty path. */
  lemma DeserializeFilepathNotIdempotent()
    ensures Render(DeserializeFilepath("/a")) == "a"
    ensures DeserializeFilepath("a") == Empty
  {
    SplitPiece("a");
    assert Split("/a") == [""] + Split("a");
    assert Components(["", "a"]) == ["a"];
  }

  /**
   * The server's usual directory texts: `/a/b/` decodes to `a/b` (the
   * trailing separator adds no component) and `/` to the empty path.
   */
  lemma DeserializeFilepathExamples()
    ensures DeserializeFilepath("/a/b/") == Path(false, ["a", "b"])
    ensures DeserializeFilepath("/") == Empty
  {
    ParsePathPiece("");
    ParsePathPiece("a");
    ParsePathPiece("b");
    assert "b/" == "b" + "/" + "";
    ParsePathSeparated("b", "");
    assert "a/b/" == "a" + "/" + "b/";
    ParsePathSeparated("a", "b/");
    assert "/a/b/" == "" + "/" + "a/b/";
    ParsePathSeparated("", "a/b/");
    assert "/" == "" + "/" + "";
    ParsePathSeparated("", "");
  }

  /**
   * An attachment whose directory was decoded by `DeserializeFilepath` and
   * whose name has no leading separator has a relative full path, made of
   * the directory's components followed by the name's.
   */
  lemma FullpathRelative(f: SubmissionFile, serverPath: string)
    requires f.filepath == DeserializeFilepath(serverPath)
    requires !(|f.filename| > 0 && f.filename[0] == '/')
    ensures !f.Fullpath().rooted
    ensures f.Fullpath().parts == DeserializeFilepath(serverPath).parts + ParsePath(f.filename).parts
  {
  }

  // ---------------------------------------------------------------------------
  // Extraction of a submission's files
  // ---------------------------------------------------------------------------

  const FILE_PLUGIN := "file"
  const SUBMISSION_FILES := "submission_files"

  /** The file areas the scan looks at in one plugin: those of a `file` plugin, none of any other. */
  function ScannedAreas(p: SubmissionPlugin): seq<SubmissionFileArea> {
    if p.pluginType == FILE_PLUGIN then p.fileareas.GetOr([]) else []
  }

  /** Every scanned area of every plugin, in order. */
  function FileAreas(plugins: seq<SubmissionPlugin>): seq<SubmissionFileArea> {
    if plugins == [] then [] else ScannedAreas(plugins[0]) + FileAreas(plugins[1..])
  }

  /** The first `submission_files` area in `areas`. */
  function FirstSubmissionArea(areas: seq<SubmissionFileArea>): (r: Option<SubmissionFileArea>)
    ensures r.Some? <==> exists k :: 0 <= k < |areas| && areas[k].area == SUBMISSION_FILES
    ensures r.Some? ==> r.value in areas && r.value.area == SUBMISSION_FILES
  {
    if areas == [] then None
    else if areas[0].area == SUBMISSION_FILES then Some(areas[0])
    else
      var r := FirstSubmissionArea(areas[1..]);
      assert forall k :: 1 <= k < |areas| ==> areas[k] == areas[1..][k - 1];
      r
  }

  /**
   * The files of a submission, defined on the flattened areas: those of the
   * first `submission_files` area among the areas of the `file` plugins, the
   * empty list when that area lists no files or when there is no such area.
   */
  function SubmissionFiles(plugins: seq<SubmissionPlugin>): seq<SubmissionFile> {
    match FirstSubmissionArea(FileAreas(plugins))
    case Some(a) => a.files.GetOr([])
    case None => []
  }

  /** The plugin is scanned and has a `submission_files` area. */
  ghost predicate HasSubmissionArea(p: SubmissionPlugin) {
    exists k :: 0 <= k < |ScannedAreas(p)| && ScannedAreas(p)[k].area == SUBMISSION_FILES
  }

  lemma {:induction false} FirstSubmissionAreaConcat(xs: seq<SubmissionFileArea>, ys: seq<SubmissionFileArea>)
    ensures FirstSubmissionArea(xs + ys)
         == if FirstSubmissionArea(xs).Some? then FirstSubmissionArea(xs) else FirstSubmissionArea(ys)
  {
    if xs == [] {
      assert xs + ys == ys;
    } else {
      assert (xs + ys)[0] == xs[0];
      assert (xs + ys)[1..] == xs[1..] + ys;
      FirstSubmissionAreaConcat(xs[1..], ys);
    }
  }

  lemma {:induction false} FirstSubmissionAreaAt(areas: seq<SubmissionFileArea>, k: nat)
    requires k < |areas| && areas[k].area == SUBMISSION_FILES
    requires forall j :: 0 <= j < k ==> areas[j].area != SUBMISSION_FILES
    ensures FirstSubmissionArea(areas) == Some(areas[k])
  {
    if k > 0 {
      FirstSubmissionAreaAt(areas[1..], k - 1);
    }
  }

  /** The result is decided by the first plugin that has a `submission_files` area. */
  lemma SubmissionFilesCons(plugins: seq<SubmissionPlugin>)
    requires plugins != []
    ensures SubmissionFiles(plugins)
         == match FirstSubmissionArea(ScannedAreas(plugins[0]))
            case Some(a) => a.files.GetOr([])
            case None => SubmissionFiles(plugins[1..])
  {
    FirstSubmissionAreaConcat(ScannedAreas(plugins[0]), FileAreas(plugins[1..]));
  }

  /**
   * When the `k`-th scanned area of plugin `i` is the first `submission_files`
   * area of the scan, the files are that area's (or none when it lists none).
   */
  lemma {:induction false} SubmissionFilesAt(plugins: seq<SubmissionPlugin>, i: nat, k: nat)
    requires i < |plugins| && k < |ScannedAreas(plugins[i])|
    requires ScannedAreas(plugins[i])[k].area == SUBMISSION_FILES
    requires forall j :: 0 <= j < i ==> !HasSubmissionArea(plugins[j])
    requires forall j :: 0 <= j < k ==> ScannedAreas(plugins[i])[j].area != SUBMISSION_FILES
    ensures SubmissionFiles(plugins) == ScannedAreas(plugins[i])[k].files.GetOr([])
  {
    SubmissionFilesCons(plugins);
    if i == 0 {
      FirstSubmissionAreaAt(ScannedAreas(plugins[0]), k);
    } else {
      var rest := plugins[1..];
      assert !HasSubmissionArea(plugins[0]);
      assert FirstSubmissionArea(ScannedAreas(plugins[0])) == None;
      assert rest[i - 1] == plugins[i];
      forall j | 0 <= j < i - 1
        ensures !HasSubmissionArea(rest[j])
      {
        assert rest[j] == plugins[j + 1];
      }
      SubmissionFilesAt(rest, i - 1, k);
    }
  }

  /** Without a `submission_files` area in a `file` plugin there are no files. */
  lemma {:induction false} SubmissionFilesNone(plugins: seq<SubmissionPlugin>)
    requires forall j :: 0 <= j < |plugins| ==> !HasSubmissionArea(plugins[j])
    ensures SubmissionFiles(plugins) == []
  {
    if plugins != [] {
      SubmissionFilesCons(plugins);
      assert !HasSubmissionArea(plugins[0]);
      assert forall j :: 0 <= j < |plugins| - 1 ==> plugins[1..][j] == plugins[j + 1];
      SubmissionFilesNone(plugins[1..]);
    }
  }

  /**
   * Every extracted file is listed in a `submission_files` area of a plugin
   * of type `file`: no file of another plugin or another area appears.
   */
  lemma {:induction false} SubmissionFilesProvenance(plugins: seq<SubmissionPlugin>, f: SubmissionFile)
    requires f in SubmissionFiles(plugins)
    ensures exists i, a :: 0 <= i < |plugins| && plugins[i].pluginType == FILE_PLUGIN
              && plugins[i].fileareas.Some? && a in plugins[i].fileareas.value
              && a.area == SUBMISSION_FILES && a.files.Some? && f in a.files.value
  {
    SubmissionFilesCons(plugins);
    match FirstSubmissionArea(ScannedAreas(plugins[0]))
    case Some(a) =>
      assert plugins[0].pluginType == FILE_PLUGIN;
    case None =>
      SubmissionFilesProvenance(plugins[1..], f);
      var i, a :| 0 <= i < |plugins[1..]| && plugins[1..][i].pluginType == FILE_PLUGIN
              && plugins[1..][i].fileareas.Some? && a in plugins[1..][i].fileareas.value
              && a.area == SUBMISSION_FILES && a.files.Some? && f in a.files.value;
      assert plugins[i + 1] == plugins[1..][i];
  }

  /**
   * `deserialize_files`: scans the plugins in order and, within each plugin
   * of type `file`, its file areas in order; the first `submission_files`
   * area ends the scan with its files (none if it lists none).
   */
  method DeserializeFiles(plugins: seq<SubmissionPlugin>) returns (files: seq<SubmissionFile>)
    ensures files == SubmissionFiles(plugins)
  {
    for i := 0 to |plugins|
      invariant forall j :: 0 <= j < i ==> !HasSubmissionArea(plugins[j])
    {
      var plugin := plugins[i];
      if plugin.pluginType == FILE_PLUGIN {
        var areas := plugin.fileareas.GetOr([]);
        for k := 0 to |areas|
          invariant forall j :: 0 <= j < k ==> areas[j].area != SUBMISSION_FILES
        {
          if areas[k].area == SUBMISSION_FILES {
            SubmissionFilesAt(plugins, i, k);
            return areas[k].files.GetOr([]);
          }
        }
      }
    }
    SubmissionFilesNone(plugins);
    return [];
  }
}
