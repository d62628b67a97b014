# A verified model of the Moodle web-service client of `moody`

`moody` is a command-line tool that lists assignments, downloads submission
files and uploads grades through a Moodle site's web-service API. This project
models that tool's API client (`src/moodle.rs`) in Dafny. The model covers the
client's own logic, which sits between the HTTP exchanges:

- the login of `Moodle::new`: the credentials it posts, and its outcome, a
  session or a `Login` error;
- `post`, which injects the `wstoken` field into every web-service call;
- clamping of the grade, and the fixed `mod_assign_save_grade` fields that
  `upload_grade` sends;
- the by-id lookups: an assignment within a course, a course, the submissions
  of one assignment, and a user. Each takes the first returned entry with the
  requested id, or fails with `NotFound(kind, id)`;
- lateness of a submission, `max(0, timemodified - duedate)` in seconds;
- extraction of a submission's files from the nested plugin / file-area reply
  (`deserialize_files`);
- decoding of an attachment's directory (`deserialize_filepath`), and the
  attachment's full path (`fullpath`).

Server replies enter the model already decoded, as Dafny datatypes. A reply
may also be the error that `post` fails with: `Reqwest` or `JsonDeserialize`.
Every operation that sends something returns the `Request` it sends: the
address and the form fields.

Modules, leaf first:

- `Wrappers`: `Option`.
- `Errors`: the error taxonomy and `Result`.
- `Lookup`: the first-match discipline, `FindFirst` (iterator `find`), and
  uniqueness of the first match.
- `Paths`: Unix paths as a root flag plus components; parsing, rendering,
  `strip_prefix("/")` and `join`.
- `Text`: `str::trim` over Unicode white space.
- `Entities`: the decoded records with lateness, assignment lookup, path
  decoding and file extraction.
- `Client`: the session and its calls.
- `Scenarios`: what callers can conclude from the query contracts about concrete replies.

Three behaviours of the code that a reader may not expect:

- Stripping the leading separator is not idempotent. A path without a root
  becomes the empty path, so stripping `a` (the result of stripping `/a`)
  gives the empty path, not `a`. See `DeserializeFilepathNotIdempotent`.
- The grade is clamped as `max(0)` followed by `min(max_grade)`. When
  `max_grade` is negative, the grade sent is `max_grade`, which lies below 0.
  The model proves `grade <= max_grade` always, `0 <= grade` only when
  `max_grade >= 0`, and `grade == max_grade` whenever `max_grade < 0`.
- A login reply with neither a token nor an error message gives
  `Login("")`, because the field defaults to an empty message.

## Model

| member | source | states |
|---|---|---|
| `Client.New` | src/moodle.rs:57-76 | Posts exactly the fields `username` and `password`, holding the credentials, to `base_url + LOGIN_PATH`. A reply carrying a token gives a session holding exactly that token, at `base_url + WS_PATH`. A reply without a token gives `Login(error)`, where the message defaults to `""` when it is missing. A failed reply is propagated. |
| `Client.Moodle.Post` | src/moodle.rs:78-88 | The form sent is the caller's fields with `wstoken` set to the session token, overriding any caller value. It holds no other field, and every other field is unchanged. It goes to the session's endpoint. |
| `Client.ClampGrade` | src/moodle.rs:99 | The grade sent is `<= max_grade` always. It is `>= 0` when `max_grade >= 0`. It equals the input when the input is already in `[0, max_grade]`. It is 0 below the range and `max_grade` above it, and `max_grade` whenever `max_grade` is negative. |
| `Client.ClampGradeIdempotent` | src/moodle.rs:99 | Clamping a clamped grade leaves it unchanged. |
| `Client.FixedGradeFields` | src/moodle.rs:100-114 | The fields that do not depend on the arguments, exactly. `wsfunction` is `mod_assign_save_grade`, `attemptnumber` -1, `addattempt` 0, `workflowstate` empty, `applytoall` 0, and the feedback format 2. |
| `Client.ArgumentGradeFields` | src/moodle.rs:97-111 | The fields taken from the arguments, exactly. The ids are those of the assignment and the user. The grade is exactly `ClampGrade(grade, max_grade)`. The feedback text is the trimmed feedback, empty when absent. |
| `Client.GradeKeysDisjoint` | src/moodle.rs:100-114 | No grade field is both fixed and taken from the arguments, and none is `wstoken`. So the union of the two loses nothing, and the token is added, never overridden. |
| `Client.Moodle.UploadGrade` | src/moodle.rs:90-117 | Sends the fixed and the argument grade fields, with the session token, to the endpoint. The outcome is the reply's. |
| `Client.Moodle.GetCourseAssignments` | src/moodle.rs:204-218 | Sends `mod_assign_get_assignments` with `courseids[]` and the token. A failed reply is propagated. Otherwise the result is `Ok` exactly when some returned course has the id, and then it is the first such course. If none has it, the result is `NotFound(Course, id)`. |
| `Client.Moodle.GetSubmissions` | src/moodle.rs:305-324 | Sends `mod_assign_get_submissions` with `assignmentids[]` and the token. The result is `Ok` exactly when some returned group has the assignment id, and then it holds the submissions of the first such group. If none has it, the result is `NotFound(Assignment, id)`, never an empty list. |
| `Client.Moodle.GetUser` | src/moodle.rs:338-353 | Sends `core_user_get_users_by_field` with `field = id`, `values[]` and the token. The result is `Ok` exactly when some returned user has the id, and then it is the first such user. If none has it, the result is `NotFound(User, id)`. |
| `Entities.MCourse.GetAssignment` | src/moodle.rs:193-200 | The result is `Ok` exactly when some assignment of the course has the id, and then it is the first such assignment in order. Otherwise it is `NotFound(Assignment, id)`. |
| `Lookup.FindFirst` | src/moodle.rs:195-198 | Iterator `find` by id. It finds something exactly when some entry has the id, and what it finds is the entry at the first position with that id. |
| `Lookup.FirstMatchUnique` | src/moodle.rs:211-215 | Two entries that are both "first with this id" are the same entry, so every lookup's result is determined. |
| `Entities.MAssignment.CalculateLate` | src/moodle.rs:182-190 | Lateness is never negative. It is `timemodified - duedate` when the submission came at or after the due date, and 0 when it came before. |
| `Entities.DeserializeFilepath` | src/moodle.rs:284-296 | A path with a leading `/` loses exactly its root (`/a/b` becomes `a/b`). A path without one becomes the empty path. The result is never rooted, and its text never starts with `/`. |
| `Entities.DeserializeFilepathExamples` | src/moodle.rs:290-295 | The directory texts the server sends decode as expected: `/a/b/` to `a/b` and `/` to the empty path. |
| `Entities.DeserializeFilepathTwice` | src/moodle.rs:290-295 | Decoding the text of a decoded directory again always gives the empty path. |
| `Entities.DeserializeFilepathNotIdempotent` | src/moodle.rs:290-295 | `/a` decodes to `a`, and `a` decodes to the empty path, so the strip is not idempotent. |
| `Entities.SubmissionFile.Fullpath` | src/moodle.rs:298-302 | A relative file name is appended to the directory's components. An absolute one replaces the directory, as `Path::join` does. |
| `Entities.FullpathRelative` | src/moodle.rs:280-301 | An attachment whose directory was decoded by `DeserializeFilepath`, and whose name has no leading `/`, has a relative full path: the directory's components followed by the name's. |
| `Entities.DeserializeFiles` | src/moodle.rs:243-260 | The nested scan returns exactly `SubmissionFiles`. That is the files of the first `submission_files` area among the areas of the `file` plugins, in order. It is empty when that area lists no files, or when no such area exists. |
| `Entities.SubmissionFilesAt` | src/moodle.rs:249-255 | When area `k` of plugin `i` is the first `submission_files` area the scan meets, the files are that area's files, or none when the area has no `files`. The search stops there. |
| `Entities.SubmissionFilesNone` | src/moodle.rs:249-259 | When no `file` plugin has a `submission_files` area, there are no files. |
| `Entities.SubmissionFilesProvenance` | src/moodle.rs:249-256 | Every extracted file is listed in a `submission_files` area of a plugin of type `file`. No file of another plugin type or another area appears. |
| `Entities.FirstSubmissionAreaConcat` | src/moodle.rs:249-257 | The first `submission_files` area of concatenated area lists is that of the first list if it has one, otherwise that of the second. |
| `Paths.ParsePath` | src/moodle.rs:291 | A server path read as a `PathBuf` is well formed. It is rooted exactly when its text starts with `/`. |
| `Paths.ParsePathPiece` | src/moodle.rs:291 | A text without `/` has itself as its only component, or none when it is empty or `.`. |
| `Paths.ParsePathSeparated` | src/moodle.rs:291 | The components of `s + "/" + t` are those of `s` followed by those of `t`. With `ParsePathPiece` this fixes the components of every text, so repeated and trailing separators add none. |
| `Paths.Split` | src/moodle.rs:291 | The pieces of a text between separators: at least one, none containing `/`. |
| `Paths.SplitRejoin` | src/moodle.rs:291 | Joining the pieces with single separators gives the text back. |
| `Paths.SplitSeparated` | src/moodle.rs:291 | The pieces of `s + "/" + t` are those of `s` followed by those of `t`. |
| `Paths.Components` | src/moodle.rs:291 | Every component kept is non-empty, not `.`, and free of `/`. |
| `Paths.ComponentsConcat` | src/moodle.rs:291 | Dropping non-components distributes over concatenation, so the kept pieces stay in order. |
| `Paths.ComponentsSingle` | src/moodle.rs:291 | A single piece is kept exactly when it is a component. |
| `Paths.ParseRender` | src/moodle.rs:291-294 | Reading back the text of a well-formed path gives the same path. |
| `Paths.RenderLeadingSeparator` | src/moodle.rs:292-294 | The text of a well-formed path starts with `/` exactly when the path is rooted. |
| `Paths.StripRoot` | src/moodle.rs:292-293 | `strip_prefix("/")` with an empty fallback. The result is never rooted. A rooted path keeps its components, and a relative one becomes empty. |
| `Paths.Join` | src/moodle.rs:300 | `Path::join` on Unix. An absolute argument replaces the base, and a relative one appends its components. |
| `Text.Trim` | src/moodle.rs:111 | The result is a slice of the input with only white space outside it, and it neither starts nor ends with white space. |
| `Text.TrimStart` | src/moodle.rs:111 | A suffix of the input, preceded only by white space, not starting with white space. |
| `Text.TrimEnd` | src/moodle.rs:111 | A prefix of the input, followed only by white space, not ending with white space. |
| `Text.TrimIdempotent` | src/moodle.rs:111 | Trimming a trimmed feedback leaves it unchanged. |
| `Text.TrimAllWhitespace` | src/moodle.rs:111 | A feedback made only of white space is sent as the empty text. |

## Left out

- HTTP traffic (`reqwest`, `send`) is not modelled. Each server reply is a parameter of the operation that receives it.
- JSON decoding (serde, `ts_seconds`) is not modelled. Replies are decoded datatypes, and timestamps are `int` seconds since the epoch.
- A reply fails with one error value per library error (`Reqwest`, `JsonDeserialize`); what those errors carry is not modelled.
- The `#[serde(deserialize_with = ...)]` wiring is not modelled. `MSubmission.files` is taken to be the result of `DeserializeFiles`, and `SubmissionFile.filepath` the result of `DeserializeFilepath`.
- `Url::join` is modelled as concatenation of the base URL and the fixed path. Its relative-reference resolution and its `Parse` failure are not modelled, so the model never produces `Parse`.
- `download_file` (src/moodle.rs:119-131) is not modelled. It streams a reply body into a local file, which is network and file I/O.
- The `Display` impl of `MCourse`, `display_dt` and the `tabled` rendering are not modelled. They are output formatting only.
- src/cli.rs is not modelled. It declares command-line arguments and has no logic of its own.
- Floating point: `ClampGrade` is over `real`. f32 NaN and infinities, signed zero and rounding are not modelled.
- The textual rendering (`to_string`) of ids and grades is not modelled. A form field keeps the number it renders (`Number`, `Grade`).
- Ids are `nat`; the `u64` bound of the source is not modelled. The seconds of `CalculateLate` are exact for whole-second timestamps, and the i64 overflow of `num_seconds` is not modelled.
- Paths are modelled by their Unix components. Repeated separators and `.` components carry no information and are dropped, while `strip_prefix` keeps the original text of the remainder. `..` is treated as a name.
- Paths.Join: Windows prefixes and verbatim paths are not modelled (Unix semantics only).
- The reply type of `mod_assign_save_grade` (`()`) is passed through unchanged by `UploadGrade`. The model does not interpret it.
