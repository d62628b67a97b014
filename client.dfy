/**
 * The web-service client: login, the single `post` every call goes through,
 * grade upload, and the three remote by-id queries. The HTTP exchange itself
 * is outside the model: each operation returns the request it sends, and the
 * server's decoded reply (or the transport / decode error `post` fails with)
 * is a parameter.
 */
module Client {
  import opened Wrappers
  import opened Errors
  import opened Lookup
  import opened Text
  import opened Entities

  const LOGIN_PATH := "login/token.php?service=moodle_mobile_app"
  const WS_PATH := "webservice/rest/server.php?moodlewsrestformat=json"
  const WSTOKEN := "wstoken"

  /**
   * A form field's value. Ids and grades are sent as their `to_string`
   * text; the model keeps the number the text renders.
   */
  datatype FormValue = Text(text: string) | Number(n: nat) | Grade(grade: real)

  type Form = map<string, FormValue>

  /** A form-encoded POST: the address and the fields. */
  datatype Request = Request(url: string, form: Form)

  /** The decoded body of the login endpoint's reply. */
  datatype LoginResponse = LoginResponse(token: Option<string>, error: Option<string>)

  /** `form` is `params` with the field `wstoken` set to `token`, whatever `params` held there. */
  ghost predicate WithToken(form: Form, params: Form, token: string) {
    && form.Keys == params.Keys + {WSTOKEN}
    && form[WSTOKEN] == Text(token)
    && forall k :: k in params && k != WSTOKEN ==> form[k] == params[k]
  }

  /**
   * `Moodle::new`: posts the credentials to the login endpoint, then, once
   * the reply is in, opens a session on the web-service endpoint holding the
   * token when the reply carries one, otherwise fails with a `Login` error
   * carrying the reply's message (empty when it has none).
   */
  method New(baseUrl: string, username: string, password: string, reply: Result<LoginResponse>)
    returns (request: Request, r: Result<Moodle>)
    ensures request.url == baseUrl + LOGIN_PATH
    ensures request.form.Keys == {"username", "password"}
    ensures request.form["username"] == Text(username) && request.form["password"] == Text(password)
    ensures reply.Err? ==> r == Err(reply.error)
    ensures r.Ok? <==> reply.Ok? && reply.value.token.Some?
    ensures r.Ok? ==> r.value.token == reply.value.token.value && r.value.url == baseUrl + WS_PATH
    ensures reply.Ok? && reply.value.token.None? ==>
              r == Err(Login(reply.value.error.GetOr("")))
  {
    request := Request(baseUrl + LOGIN_PATH, map["username" := Text(username), "password" := Text(password)]);
    if reply.Err? {
      return request, Err(reply.error);
    }
    var login := reply.value;
    if login.token.Some? {
      r := Ok(Moodle(baseUrl + WS_PATH, login.token.value));
    } else {
      r := Err(Login(login.error.GetOr("")));
    }
  }

  /**
   * The grade sent for `grade`: raised to 0, then lowered to `maxGrade`.
   * Because the upper bound is applied last the result never exceeds
   * `maxGrade`, even when `maxGrade` is negative.
   */
  function ClampGrade(grade: real, maxGrade: real): (g: real)
    ensures g <= maxGrade
    ensures 0.0 <= maxGrade ==> 0.0 <= g
    ensures 0.0 <= grade <= maxGrade ==> g == grade
    ensures grade < 0.0 <= maxGrade ==> g == 0.0
    ensures maxGrade < grade ==> g == maxGrade
    ensures maxGrade < 0.0 ==> g == maxGrade
  {
    var atLeastZero := if grade < 0.0 then 0.0 else grade;
    if maxGrade < atLeastZero then maxGrade else atLeastZero
  }

  /** Clamping a clamped grade changes nothing. */
  lemma ClampGradeIdempotent(grade: real, maxGrade: real)
    ensures ClampGrade(ClampGrade(grade, maxGrade), maxGrade) == ClampGrade(grade, maxGrade)
  {
  }

  const FEEDBACK_TEXT := "plugindata[assignfeedbackcomments_editor][text]"
  const FEEDBACK_FORMAT := "plugindata[assignfeedbackcomments_editor][format]"
  const FIXED_GRADE_KEYS := {"wsfunction", "attemptnumber", "addattempt", "workflowstate", "applytoall",
                             FEEDBACK_FORMAT}
  const ARGUMENT_GRADE_KEYS := {"assignmentid", "userid", "grade", FEEDBACK_TEXT}

  /**
   * The fields of `upload_grade` that do not depend on its arguments: the
   * service function, the latest attempt (`-1`), no new attempt, no
   * workflow-state change, not applied to all attempts, feedback format 2.
   */
  function FixedGradeFields(): (fields: Form)
    ensures fields.Keys == FIXED_GRADE_KEYS
    ensures fields["wsfunction"] == Text("mod_assign_save_grade")
    ensures fields["attemptnumber"] == Text("-1")
    ensures fields["addattempt"] == Text("0")
    ensures fields["workflowstate"] == Text("")
    ensures fields["applytoall"] == Text("0")
    ensures fields[FEEDBACK_FORMAT] == Text("2")
  {
    map[
      "wsfunction" := Text("mod_assign_save_grade"),
      "attemptnumber" := Text("-1"),
      "addattempt" := Text("0"),
      "workflowstate" := Text(""),
      "applytoall" := Text("0"),
      FEEDBACK_FORMAT := Text("2")
    ]
  }

  /**
   * The fields of `upload_grade` taken from its arguments: the two ids, the
   * grade clamped into range, and the feedback trimmed (empty when there is
   * none).
   */
  function ArgumentGradeFields(assignment: MAssignment, user: MUser, grade: real, feedback: Option<string>)
    : (fields: Form)
    ensures fields.Keys == ARGUMENT_GRADE_KEYS
    ensures fields["assignmentid"] == Number(assignment.id)
    ensures fields["userid"] == Number(user.id)
    ensures fields["grade"] == Grade(ClampGrade(grade, assignment.maxGrade))
    ensures fields[FEEDBACK_TEXT] == Text(Trim(feedback.GetOr("")))
    ensures feedback.None? ==> fields[FEEDBACK_TEXT] == Text("")
  {
    map[
      "assignmentid" := Number(assignment.id),
      "userid" := Number(user.id),
      "grade" := Grade(ClampGrade(grade, assignment.maxGrade)),
      FEEDBACK_TEXT := Text(Trim(feedback.GetOr("")))
    ]
  }

  /**
   * No grade field is both fixed and taken from the arguments, so their
   * union loses none; and none of them is `wstoken`.
   */
  lemma GradeKeysDisjoint()
    ensures FIXED_GRADE_KEYS !! ARGUMENT_GRADE_KEYS
    ensures WSTOKEN !in FIXED_GRADE_KEYS + ARGUMENT_GRADE_KEYS
  {
  }

  /** A logged-in session: the web-service endpoint and the token. */
  datatype Moodle = Moodle(url: string, token: string) {

    /** `request` goes to the web-service endpoint with `params` and this session's token. */
    ghost predicate Sends(request: Request, params: Form) {
      request.url == url && WithToken(request.form, params, token)
    }

    /**
     * `post`: the caller's fields with `wstoken` set to this session's token,
     * overriding any value the caller gave it; every other field unchanged.
     */
    method Post(params: Form) returns (request: Request)
      ensures Sends(request, params)
    {
      var form := params;
      form := form[WSTOKEN := Text(token)];
      request := Request(url, form);
    }

    /**
     * `upload_grade`: posts the fixed grade fields and those taken from its
     * arguments, with this session's token; the outcome is that of the reply.
     */
    method UploadGrade(assignment: MAssignment, user: MUser, grade: real, feedback: Option<string>,
                       reply: Result<()>)
      returns (request: Request, r: Result<()>)
      ensures Sends(request, FixedGradeFields() + ArgumentGradeFields(assignment, user, grade, feedback))
      ensures r == reply
    {
      var params := FixedGradeFields() + ArgumentGradeFields(assignment, user, grade, feedback);
      request := Post(params);
      r := reply;
    }

    /**
     * `get_course_assignments`: asks for the assignments of course
     * `courseId` and takes the first returned course with that id; a reply
     * without one is `NotFound(Course, courseId)`.
     */
    method GetCourseAssignments(courseId: nat, reply: Result<AssignmentsResponse>)
      returns (request: Request, r: Result<MCourse>)
      ensures Sends(request, map["wsfunction" := Text("mod_assign_get_assignments"),
                                 "courseids[]" := Number(courseId)])
      ensures reply.Err? ==> r == Err(reply.error)
      ensures reply.Ok? ==> (r.Ok? <==> HasId(reply.value.courses, CourseId, courseId))
      ensures reply.Ok? && r.Ok? ==> FirstMatch(reply.value.courses, CourseId, courseId, r.value)
      ensures reply.Ok? && r.Err? ==> r.error == NotFound(Course, courseId)
    {
      request := Post(map["wsfunction" := Text("mod_assign_get_assignments"),
                          "courseids[]" := Number(courseId)]);
      if reply.Err? {
        return request, Err(reply.error);
      }
      var courses := reply.value.courses;
      for i := 0 to |courses|
        invariant forall j :: 0 <= j < i ==> courses[j].id != courseId
      {
        if courses[i].id == courseId {
          FirstMatchAt(courses, CourseId, courseId, i);
          return request, Ok(courses[i]);
        }
      }
      return request, Err(NotFound(Course, courseId));
    }

    /**
     * `get_submissions`: asks for the submissions to assignment
     * `assignmentId` and takes those of the first returned group for that
     * assignment; a reply without one is `NotFound(Assignment, assignmentId)`,
     * never an empty list.
     */
    method GetSubmissions(assignmentId: nat, reply: Result<SubmissionsResponse>)
      returns (request: Request, r: Result<seq<MSubmission>>)
      ensures Sends(request, map["wsfunction" := Text("mod_assign_get_submissions"),
                                 "assignmentids[]" := Number(assignmentId)])
      ensures reply.Err? ==> r == Err(reply.error)
      ensures reply.Ok? ==> (r.Ok? <==> HasId(reply.value.assignments, GroupAssignmentId, assignmentId))
      ensures reply.Ok? && r.Ok? ==>
                exists g :: FirstMatch(reply.value.assignments, GroupAssignmentId, assignmentId, g)
                         && g.submissions == r.value
      ensures reply.Ok? && r.Err? ==> r.error == NotFound(Assignment, assignmentId)
    {
      request := Post(map["wsfunction" := Text("mod_assign_get_submissions"),
                          "assignmentids[]" := Number(assignmentId)]);
      if reply.Err? {
        return request, Err(reply.error);
      }
      var groups := reply.value.assignments;
      for i := 0 to |groups|
        invariant forall j :: 0 <= j < i ==> groups[j].assignmentid != assignmentId
      {
        if groups[i].assignmentid == assignmentId {
          FirstMatchAt(groups, GroupAssignmentId, assignmentId, i);
          return request, Ok(groups[i].submissions);
        }
      }
      return request, Err(NotFound(Assignment, assignmentId));
    }

    /**
     * `get_user`: asks for the user with id `userId` and takes the first
     * returned user with that id; a reply without one is
     * `NotFound(User, userId)`.
     */
    method GetUser(userId: nat, reply: Result<UserResponse>)
      returns (request: Request, r: Result<MUser>)
      ensures Sends(request, map["wsfunction" := Text("core_user_get_users_by_field"),
                                 "field" := Text("id"),
                                 "values[]" := Number(userId)])
      ensures reply.Err? ==> r == Err(reply.error)
      ensures reply.Ok? ==> (r.Ok? <==> HasId(reply.value.users, UserId, userId))
      ensures reply.Ok? && r.Ok? ==> FirstMatch(reply.value.users, UserId, userId, r.value)
      ensures reply.Ok? && r.Err? ==> r.error == NotFound(User, userId)
    {
      request := Post(map["wsfunction" := Text("core_user_get_users_by_field"),
                          "field" := Text("id"),
                          "values[]" := Number(userId)]);
      if reply.Err? {
        return request, Err(reply.error);
      }
      var users := reply.value.users;
      for i := 0 to |users|
        invariant forall j :: 0 <= j < i ==> users[j].id != userId
      {
        if users[i].id == userId {
          FirstMatchAt(users, UserId, userId, i);
          return request, Ok(users[i]);
        }
      }
      return request, Err(NotFound(User, userId));
    }
  }
}
