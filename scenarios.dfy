/**
 * Client-side checks: what a caller can conclude from the contracts of the
 * queries alone, on concrete replies.
 */
module Scenarios {
  import opened Wrappers
  import opened Errors
  import opened Lookup
  import opened Paths
  import opened Entities
  import opened Client

  /** A reply listing course 7 gives that course for 7, and `NotFound(Course, 8)` for 8. */
  method CourseReplyChecked(session: Moodle) {
    var a := MAssignment(3, "A", 100.0, 1700000000);
    var course := MCourse(7, "X", [a]);
    var reply := Ok(AssignmentsResponse([course]));
    assert CourseId(course) == 7;
    var _, found := session.GetCourseAssignments(7, reply);
    FirstMatchAt([course], CourseId, 7, 0);
    assert found.Ok?;
    ghost var i :| IsFirstMatch([course], CourseId, 7, i) && [course][i] == found.value;
    assert found == Ok(course);
    assert found.value.GetAssignment(3) == Ok(a) by {
      assert AssignmentId(a) == 3;
      FirstMatchAt([a], AssignmentId, 3, 0);
    }
    var _, missing := session.GetCourseAssignments(8, reply);
    assert !HasId([course], CourseId, 8);
    assert missing == Err(NotFound(Course, 8));
  }

  /** Groups for assignments 4 and 6 only: asking for 5 is `NotFound(Assignment, 5)`, not an empty list. */
  method SubmissionsReplyChecked(session: Moodle) {
    var groups := [AssignmentSubmission(4, []), AssignmentSubmission(6, [])];
    var _, r := session.GetSubmissions(5, Ok(SubmissionsResponse(groups)));
    assert GroupAssignmentId(groups[0]) == 4 && GroupAssignmentId(groups[1]) == 6;
    assert !HasId(groups, GroupAssignmentId, 5);
    assert r == Err(NotFound(Assignment, 5));
  }

  /** Only the files of the `file` plugin's `submission_files` area are kept. */
  method FilesReplyChecked() {
    var kept := SubmissionFile("a.pdf", "https://host/a.pdf", Empty);
    var other := SubmissionFile("b.txt", "https://host/b.txt", Empty);
    var plugins := [
      SubmissionPlugin("onlinetext", Some([SubmissionFileArea("submission_files", Some([other]))])),
      SubmissionPlugin("file", Some([SubmissionFileArea("draft", Some([other])),
                                     SubmissionFileArea("submission_files", Some([kept]))]))
    ];
    var files := DeserializeFiles(plugins);
    assert ScannedAreas(plugins[0]) == [];
    assert !HasSubmissionArea(plugins[0]);
    assert ScannedAreas(plugins[1])[0].area != SUBMISSION_FILES;
    SubmissionFilesAt(plugins, 1, 1);
    assert files == [kept];
  }

  /** A login reply without a token is a `Login` error with the server's message. */
  method LoginChecked() {
    var sent, refused := New("https://host/", "ann", "pw", Ok(LoginResponse(None, Some("invalid login"))));
    assert sent.url == "https://host/" + LOGIN_PATH;
    assert refused == Err(Login("invalid login"));
    var _, session := New("https://host/", "ann", "pw", Ok(LoginResponse(Some("abc"), None)));
    assert session == Ok(Moodle("https://host/" + WS_PATH, "abc"));
  }
}
