# VianuEdu server: store façade and request handlers

This project models the VianuEdu school server: its MongoDB façade and the
HTTP handlers that decide each reply. Students and teachers register and
look up their ids. Students fetch tests, lessons and test queues, and submit
answer sheets. Teachers view and plan tests, create and update them, upload
lessons and grade submitted sheets.

The modules are:

- `Wrappers`: `Option`, plus `Outcome`, whose `Panic` case is a Go run-time
  panic. The panics modelled are a short slice in the unwrap helper, an
  `ObjectIdHex` of a malformed id and a nil validator result.
- `Strings`: `strings.Trim`, `strings.TrimLeft`/`TrimRight` and
  `strings.Contains`, plus the comma join that a marshalled JSON array
  consists of.
- `Database`:
  - The documents and the array-unwrap helper.
  - The pure queries on a `Snapshot` value of all collections: the credential
    lookups and the answer-sheet and grade lookups.
  - The `Store` class, whose fields are the collections. Its methods perform
    the inserts and removals.
  - Insert/remove outcomes and query failures are parameters.
- `Http`:
  - The reply a client sees (`Reply`, or `Aborted` when the handler panics).
  - A `Response` class with `net/http`'s first-`WriteHeader`-wins rule.
  - The two shapes of the basic-auth guard.
- `AnswerSheetApi`, `GradeApi`, `TestsApi`, `LessonsApi`, `AccountsApi`: one
  module per handler file.
  - A read handler is a function from the store to its reply.
  - A write handler is a pure rejection function (`None` exactly when the
    guards all pass). It comes with a method on `Store` and `Response` that
    sends that rejection and leaves the store unchanged, or performs the write
    and sends the success reply.
- `Scenarios`: concrete request sequences, such as registering and signing in,
  submitting twice, and grading.

Things the handlers only call are not shown in these files: `GetTest`,
`GetPlannedTests`, `GetTestQueue`, `ListLessons`, `GetLesson`,
`GetNextTestID`, `AddTest`, `EditTest` and `AddLesson`. They are modelled
as follows:

- The read operations are function-valued fields of a `Catalog` parameter.
- The next test id is a parameter.
- The write operations append to logs kept in the store (`testWrites`,
  `lessonWrites`).

Schema validation is a three-valued `Validation`:

- `SchemaValid`;
- `SchemaInvalid`;
- `SchemaError`, where the validator returned an error and its nil result
  panics at `Valid()`. In `uploadLesson` this case is a 400 instead.

The clock and the parse of a test's start time are parameters, with times as
integer Unix seconds. A request body is a record holding the fields the
handlers extract from it.

Where the code and the documented behaviour differ, the model follows the
code:

- An invalid registration body is documented as a 400, but the client
  receives 200 (see Findings).
- The Content-Type rule of `getStudent`/`getTeacher` holds only on the 200
  path. A 404 has its status written before the header is set, so the
  handler's type is not applied. `Reply.contentType` is the type the handler
  set in time, or `""` when it set none.
- `uploadLesson` reads the route variable `course`. The documented route
  names `{subject}` and `{grade}`, so on that route the course is `""`.
  `LessonsApi.UploadLesson` takes it as a parameter.

## Model

| member | source | states |
|---|---|---|
| Strings.TrimLeft | databaseHandler.go:81 | the result is a suffix of the input that does not start with the cut character, and every character removed is that character |
| Strings.TrimRight | databaseHandler.go:81 | the result is a prefix of the input that does not end with the cut character, and every character removed is that character |
| Strings.TrimPadded | databaseHandler.go:81 | `strings.Trim` takes any run of the cut character off both ends of a text that neither starts nor ends with it, and gives that text back |
| Strings.ContainsIff | APITests.go:142 | the substring search succeeds exactly when the pattern occurs at some index |
| Database.Unwrap | databaseHandler.go:75-84 | the helper's post-processing: `"null\n"` becomes `notFound`, otherwise `[` is trimmed from both ends and the last two bytes are cut; characterised by UnwrapArray, ShortTextsPanic and UnwrapMarshal |
| Database.UnwrapArray | databaseHandler.go:75-84 | unwrapping any number of `[` followed by `d + "]\n"`, where `d` does not start with `[`, gives exactly `d` |
| Database.UnwrapNested | databaseHandler.go:81-82 | a nested array loses its inner closing bracket only at the front, so the result keeps one `]` |
| Database.ShortTextsPanic | databaseHandler.go:81-82 | the slice panics exactly on the texts in which no two bytes are both something other than `[` (those leave fewer than two bytes once trimmed), in both directions |
| Database.UnwrapMarshal | databaseHandler.go:75-84 | unwrapping a marshalled result gives `notFound` for no documents and the comma-joined documents otherwise, never a panic |
| Database.Unwrapped | databaseHandler.go:75-84 | for no documents the helper gives `notFound`, otherwise a text starting with the first document; never `"null\n"` |
| Database.TestListSliceOfMarshal | databaseHandler.go:396-405 | GetTestType's slice never panics on a marshalled result: for one entry it gives that entry, for none it gives `ul` |
| Database.Select | databaseHandler.go:178-207 | every result document is a stored one whose key matches, every stored match is in the result, and the result is empty exactly when nothing matches; order and multiplicity are stated by SelectAppend and SelectConcat |
| Database.SelectConcat | databaseHandler.go:178-207 | the query over two stretches of the store is the query over the first followed by the query over the second, so results keep store order |
| Database.SelectFirst | databaseHandler.go:190-207 | the first matching document is the first result |
| Database.Fetched | databaseHandler.go:178-185 | a query that fails part-way has read a prefix of the matches; a complete one has read all of them |
| Database.RemoveFirst | databaseHandler.go:375 | `Remove` keeps only stored documents, never grows the collection, and changes nothing when no document has the key; RemoveFirstAt says exactly which one goes |
| Database.RemoveFirstAt | databaseHandler.go:375-385 | `Remove` deletes exactly the first document with the key and keeps the rest in order |
| Database.RemoveFirstOfDistinct | databaseHandler.go:375-385 | with distinct keys, removal leaves no document with the key and keeps the keys distinct |
| Database.FirstMatchID | databaseHandler.go:173-208 | the id is `notFound` when no account has the credentials, otherwise the oid of the first account that has them |
| Database.FirstMatchIDIsSentinelIff | databaseHandler.go:173-208 | on well-formed ids the lookup gives `notFound` exactly when no account matches, and never `""` |
| Database.ObjectByID | databaseHandler.go:56-85 | a malformed id panics; a well-formed one gives `notFound` exactly when no account has that id, and never `"null\n"` |
| Database.ObjectByIDOfStored | databaseHandler.go:56-85 | a stored account's id yields its rendered document |
| Database.AccountByID | databaseHandler.go:56-85 | an account is found exactly when one has the id (hex digits compared case-insensitively) |
| Database.SelectAppend | databaseHandler.go:214-227 | an appended document is added to a query's result once, after the earlier matches, exactly when its key matches; with the empty store giving no result, this determines the result as the store's matches, each once, in store order |
| Database.AppendFreshKeepsWellFormed | databaseHandler.go:214-227 | inserting an account with a new well-formed id keeps all ids well formed and distinct |
| Database.RegisteredAccountIsFound | databaseHandler.go:214-227 | after a stored registration the new id serves the body, and its credentials resolve to the first account that has them |
| Database.Snapshot.FindStudentID | databaseHandler.go:173-208 | a failed query gives `notFound`; a complete one gives the first matching account's id |
| Database.Snapshot.FindTeacherID | databaseHandler.go:130-165 | a failed query gives either `notFound` or the first match, because the teacher lookup does not stop on an error |
| Database.FailedQueriesDiffer | databaseHandler.go:137-142 | a failed query after one result gives `notFound` for the student lookup and the account's id for the teacher lookup |
| Database.Snapshot.StudentObjectByID | databaseHandler.go:56-85 | GetStudentObjectByID is ObjectByID over the student accounts, whose contract it inherits |
| Database.Snapshot.TeacherObjectByID | databaseHandler.go:93-124 | GetTeacherObjectByID is ObjectByID over the teacher accounts, whose contract it inherits |
| Database.Snapshot.StudentCredentialsByID | databaseHandler.go:260-263 | the userName and password jsonparser reads from a student's document: empty for an unknown id, otherwise those of a stored student with that id |
| Database.StoredStudentCredentials | databaseHandler.go:260-263 | on a store with generated ids, a stored student's id yields that student's own credentials |
| Database.Snapshot.GetTestType | databaseHandler.go:390-405 | the course TestList records for the test, `""` without an entry; TestListSliceOfMarshal shows the slice never panics, and "## Left out" admits the jsonparser step |
| Database.Snapshot.GetAnswerSheet | databaseHandler.go:255-295 | the lookup, keyed on testID, userName and password, gives `notFound` exactly when no such sheet is stored, and never `"null\n"` |
| Database.Snapshot.GetGrade | databaseHandler.go:323-351 | the lookup, in the test's course partition and keyed on testID and userName only, gives `notFound` exactly when no grade is stored |
| Database.AnswerSheetStoredOnce | databaseHandler.go:301-314 | an insert of a sheet with no stored twin keeps sheets unique per key, and an accepted insert makes it found |
| Database.GradeReplacesAnswerSheet | databaseHandler.go:360-387 | a refused grade insert changes nothing; an accepted one makes the grade found and, when the removal succeeds, the matching sheet is gone |
| Database.GradeStoredOnce | databaseHandler.go:360-387 | inserting a grade with no stored twin keeps grades unique per student and test in every partition |
| Database.Store.constructor | databaseHandler.go:36-48 | a fresh store has empty collections and the given test list |
| Database.Store.RegisterStudent | databaseHandler.go:214-227 | the body goes into the student accounts unchanged, with the generated id; nothing else changes |
| Database.Store.RegisterTeacher | databaseHandler.go:233-246 | the body goes into the teacher accounts unchanged, with the generated id; nothing else changes |
| Database.Store.AddAnswerSheet | databaseHandler.go:301-314 | the sheet is appended to the submitted answers when the insert succeeds; nothing else changes |
| Database.Store.AddGrade | databaseHandler.go:360-387 | the grade goes into `GetTestType(testID) + "Edu.Grades"`, and only then is the matching sheet removed |
| Database.Store.AddTest | APITests.go:286-288 | the call is logged with its path subject, its body and the new id, and no collection changes |
| Database.Store.EditTest | APITests.go:374 | the call is logged with the body's course, its body and the path id, and no collection changes |
| Database.Store.AddLesson | APILessons.go:158-161 | the call is logged with the course, the parsed grade and the body, and no collection changes |
| Http.HeaderCredentials | APIAnswerSheetData.go:84 | without a basic-auth header the credentials are empty, otherwise they are the header's |
| Http.ChainedAuthChecks | APIAnswerSheetData.go:93-107 | a 401 comes unless auth is present and the id resolves; both messages accumulate since the first guard does not return |
| Http.ReturningAuthChecks | APITests.go:84-97 | a 401 comes for a missing scheme, otherwise a 401 for unknown credentials, otherwise no rejection |
| Http.Response.WriteHeader | APIAnswerSheetData.go:43 | only the first status written counts |
| Http.Response.SetContentType | APIAnswerSheetData.go:59-64 | a header set after the status is written has no effect |
| Http.Response.Print | APIAnswerSheetData.go:67 | the text is appended to the body, and a body without a status implies 200 |
| Http.Response.Panic | APILessons.go:148-162 | a panic aborts the reply and nothing else changes |
| AnswerSheetApi.MatchesTestID | APIAnswerSheetData.go:37 | the test-id regexp `T-([0123456789])\w+`, searched unanchored; characterised by MatchesTestIDIff |
| AnswerSheetApi.AnswerSheetReply | APIAnswerSheetData.go:34-78 | the shared decision of getAnswerSheet against a sentinel; its two readings are GetAnswerSheetReplyAsWritten and GetAnswerSheetReply |
| AnswerSheetApi.MatchesTestIDIff | APIAnswerSheetData.go:37 | the unanchored search succeeds exactly when `T-`, a digit and a word character occur at some index |
| AnswerSheetApi.TestIDExamples | APIAnswerSheetData.go:37 | `T-1a`, `T-0001` and `xT-2_` match; `T-1`, `T-a1`, `t-12` and `T-1-` do not |
| AnswerSheetApi.GetAnswerSheetReplyAsWritten | APIAnswerSheetData.go:34-78 | as written: 400 for a bad test id, a panic for a malformed student id, and for a well-formed one always 200, with body `notFound` when the sheet is missing |
| AnswerSheetApi.GetAnswerSheetReply | APIAnswerSheetData.go:34-78 | as intended: 400 for a bad test id, a panic for a malformed student id, 400 exactly for an unknown student, then 404 exactly when the sheet is missing, otherwise 200 JSON |
| AnswerSheetApi.StoredSheetIsServed | APIAnswerSheetData.go:56-67 | a stored sheet is served by the student's id and the test id as its own document |
| AnswerSheetApi.SubmitAnswerSheetRejection | APIAnswerSheetData.go:80-167 | the write goes ahead exactly when auth is present, the header and body identities agree, the test ids agree, the schema is valid and no sheet is stored; an invalid schema gives an empty 200 |
| AnswerSheetApi.SubmitAnswerSheet | APIAnswerSheetData.go:80-167 | a rejection is sent and the store is unchanged; otherwise the sheet is inserted once and "Answer sheet added!" is sent; sheets stay unique per key |
| AnswerSheetApi.SheetBody | APIAnswerSheetData.go:125-157 | for an authenticated student: the body guards give their rejection with the store unchanged, or the sheet is inserted, "Answer sheet added!" is sent and sheets stay unique |
| AnswerSheetApi.ResubmissionIsAlreadyReported | APIAnswerSheetData.go:147-154 | submitting the same sheet again after it was stored gives 208 |
| AnswerSheetApi.SubmittedSheetIsServed | APIAnswerSheetData.go:156-157 | after a stored submission the sheet is served to its student |
| GradeApi.GetGradeReply | APIGradeData.go:36-63 | a malformed id panics; otherwise 404 exactly when the store has no grade for the student's userName and test |
| GradeApi.SubmitGradeRejection | APIGradeData.go:72-175 | the write goes ahead exactly when auth is present, the teacher identities agree, the three test ids agree, the schema is valid and no grade is stored for (userName, test) |
| GradeApi.GradeBodyRejection | APIGradeData.go:120-163 | past the auth guards, rejection is absent exactly when the body's teacher resolves to the header's id, the test ids agree and no grade exists |
| GradeApi.SubmitGrade | APIGradeData.go:72-175 | a rejection is sent and the store is unchanged; otherwise the grade goes into the course partition, the matching sheet is removed when that succeeds, and grades and sheets stay unique |
| GradeApi.GradeBody | APIGradeData.go:120-164 | for an authenticated teacher: the body guards give their rejection with the store unchanged, or the grade is recorded |
| GradeApi.RecordGrade | APIGradeData.go:163-164 | AddGrade then "Grade added!": an accepted insert makes the grade found, the removal takes the sheet away, and uniqueness is kept |
| GradeApi.GradeIsStored | APIGradeData.go:163 | after an accepted insert the grade is found under the student's userName and the test |
| GradeApi.ResubmittedGradeIsAlreadyReported | APIGradeData.go:156-161 | grading the same sheet again after it was stored gives 208 |
| GradeApi.GradeRejectionIgnoresStudents | APIGradeData.go:128 | the embedded student's identity is resolved but never checked: the student accounts do not affect the decision |
| GradeApi.SubmittedGradeIsServed | APIGradeData.go:36-63 | after a stored grade, getGrade for that student and test answers 200; when it is the first grade for them, the body is the grade's own document |
| GradeApi.FirstGradeIsWhole | databaseHandler.go:323-351 | after the first grade for a student and test is stored, GetGrade finds exactly that grade's document |
| TestsApi.SubjectKnown | APITests.go:142 | the subject check `strings.Contains("GeoPhiInfoMath", subject)`; characterised by SubjectKnownIff |
| TestsApi.SubjectKnownIff | APITests.go:142-147 | a subject passes exactly when it occurs in `GeoPhiInfoMath` |
| TestsApi.KnownSubjects | APITests.go:142-147 | `Geo`, `Phi`, `Info`, `Math`, `""` and `oPh` pass |
| TestsApi.UnknownSubjects | APITests.go:142-147 | `Bio` and `math` do not pass |
| TestsApi.Absent | APITests.go:142-147 | a subject with a character that no candidate position holds does not pass |
| TestsApi.StartOf | APITests.go:54 | an unparsable start time becomes Go's zero time |
| TestsApi.GetTestReply | APITests.go:35-74 | 404 exactly for `notFound`, otherwise 403 exactly when now is before the start, otherwise 200 with the test |
| TestsApi.ServedTestStaysServed | APITests.go:56-66 | a test served at one time is still served, the same way, at any later time |
| TestsApi.UnparsableStartIsOpen | APITests.go:54-66 | a test whose start time does not parse is served at any time after year 1 |
| TestsApi.TeacherChecks | APITests.go:84-97 | no rejection exactly when auth is present and the teacher is known |
| TestsApi.ViewTestReply | APITests.go:76-117 | the teacher checks come first, then 404 for `notFound`, otherwise 200 with the test and no time gate |
| TestsApi.TeacherSeesLockedTest | APITests.go:76-117 | a known teacher gets a test that students still get 403 for |
| TestsApi.GetPlannedTestsReply | APITests.go:119-166 | the teacher checks come first, then 404 for an unknown subject, otherwise the planned list for the subject |
| TestsApi.GetTestQueueReply | APITests.go:168-209 | a malformed id panics, an unknown student is 404 before the subject is checked, and the queue is looked up by the student's grade and letter |
| TestsApi.ClassmatesShareQueue | APITests.go:188-191 | two students with the same grade and letter get the same reply |
| TestsApi.StoredAccountById | APITests.go:172-186 | a stored student is found by its own id |
| TestsApi.GetNextTestIDReply | APITests.go:211-222 | the reply is 200 with the next id |
| TestsApi.UploadRejection | APITests.go:274-289 | the body passes exactly when it is schema-valid and carries the expected id; a panic exactly on a validator error |
| TestsApi.CreateTestRejection | APITests.go:224-299 | the write goes ahead exactly when the teacher checks pass and the body is valid with the next id; a wrong id gives 400 |
| TestsApi.CreateTest | APITests.go:224-299 | a rejection is sent and the store is unchanged; otherwise AddTest is called with the path subject and the new id, which is sent back |
| TestsApi.UpdateTestRejection | APITests.go:301-387 | the teacher checks come first, then 404 for an unknown test, then the body needs the path id; no rejection exactly when all pass |
| TestsApi.UpdateTest | APITests.go:301-387 | a rejection is sent and the store is unchanged; otherwise EditTest is called under the body's course and "Test updated!" is sent |
| TestsApi.UpdateBody | APITests.go:341-377 | once the teacher and the test are known: a validator error panics, an invalid body gets an empty 200, a changed id gets 400, otherwise EditTest under the body's course and "Test updated!" |
| LessonsApi.Atoi | APILessons.go:42 | a parsed value lies in the int64 range, and the text starts with a sign or a digit |
| LessonsApi.Decimal | APILessons.go:42 | a reference spelling for Atoi (the server never formats numbers): a non-empty digit string |
| LessonsApi.DecimalValue | APILessons.go:42 | a reference for Atoi: the digits of the reference spelling have that number as their value |
| LessonsApi.AtoiOfDecimal | APILessons.go:42 | Atoi reads back the reference spelling of any non-negative int64 value |
| LessonsApi.AtoiExamples | APILessons.go:42 | `12`, `-7` and `+0009` parse; `""`, `+`, ` 9`, `9a` and `1_0` do not |
| LessonsApi.GradeAccepted | APILessons.go:42-45 | the grade check: Atoi succeeds and the value lies in 9..12; characterised by GradeAcceptedIff |
| LessonsApi.GradeAcceptedIff | APILessons.go:42-50 | a grade passes exactly when, after one optional `+` and any leading zeros, it is `9`, `10`, `11` or `12` |
| LessonsApi.NegativeRefused | APILessons.go:42-50 | a grade with a minus sign never passes |
| LessonsApi.UnsignedGrade | APILessons.go:42-50 | a grade passes exactly when its unsigned part is a digit string worth 9 to 12 |
| LessonsApi.DigitsGradeIff | APILessons.go:42-50 | a digit string is worth 9 to 12 exactly when, without leading zeros, it spells a grade |
| LessonsApi.GradeTextValue | APILessons.go:42-50 | each grade spelling is a digit string worth 9 to 12 |
| LessonsApi.LeadingZerosValue | APILessons.go:42 | leading zeros do not change a digit string's value |
| LessonsApi.ZerosValue | APILessons.go:42 | a run of zeros is worth 0 |
| LessonsApi.LeadingDigitPositive | APILessons.go:42 | a digit string that starts with a non-zero digit is worth at least 1 |
| LessonsApi.SmallValueSpelling | APILessons.go:42-50 | a zero-free digit string worth 9 to 12 is one of the four grade spellings |
| LessonsApi.GradeExamples | APILessons.go:42-50 | `9`, `+10` and `0012` pass; `8`, `13`, `-9` and `""` do not |
| LessonsApi.ListLessonsReply | APILessons.go:38-67 | 400 for a grade outside 9..12 whatever the lookup gives, otherwise 404 exactly for `notFound`, otherwise 200 with the list |
| LessonsApi.SameSpellingSameGrade | APILessons.go:42 | two grade texts that are equal without sign and leading zeros parse to the same value |
| LessonsApi.SpelledGrade | APILessons.go:42-50 | an accepted grade text parses to the value its spelling names |
| LessonsApi.GetLessonReply | APILessons.go:72-93 | 404 exactly for `notFound`, otherwise 200 with the lesson |
| LessonsApi.UploadLessonRejection | APILessons.go:102-172 | the grade is checked (400) before the scheme (401), then the teacher (401), then the schema (400 on an error, an empty 200 when invalid); it never panics |
| LessonsApi.TeacherUploadRejection | APILessons.go:119-163 | past the grade check: 401 without basic auth, 401 for an unknown teacher, 400 for a validator error, an empty 200 for an invalid body, and no rejection exactly when all pass |
| LessonsApi.UploadLesson | APILessons.go:102-172 | a rejection is sent and the store is unchanged; otherwise AddLesson is called with the course and the parsed grade, and "Lesson uploaded!" is sent |
| LessonsApi.UploadedLessonGrade | APILessons.go:156-161 | an uploaded lesson's grade is between 9 and 12 and its text spells a grade |
| AccountsApi.ObjectOf | APIUserAndTeacherData.go:42 | the handler reads the account's document in its own collection |
| AccountsApi.FoundID | APIUserAndTeacherData.go:78 | the handler's lookup is the credential lookup in its own collection |
| AccountsApi.ContentTypeFor | APIUserAndTeacherData.go:56-60 | `text/plain` exactly when the Accept header is `text/plain`, otherwise `application/json` |
| AccountsApi.AccountReply | APIUserAndTeacherData.go:35-68 | the shared decision of getStudent and getTeacher against a sentinel; its two readings are GetAccountReplyAsWritten and GetAccountReply |
| AccountsApi.GetAccountReplyAsWritten | APIUserAndTeacherData.go:35-68 | as written: a malformed id panics, and every well-formed id gets 200, with body `notFound` when unknown |
| AccountsApi.GetAccountReply | APIUserAndTeacherData.go:35-68 | as intended: 404 exactly for an unknown id; a 200 carries the document in the negotiated type |
| AccountsApi.StoredAccountIsServed | APIUserAndTeacherData.go:35-68 | a stored account is served by its id as its own document |
| AccountsApi.UnknownAccountReplies | APIUserAndTeacherData.go:44-47 | for an unknown well-formed id, the code as written gives 200 `notFound` and the intended reading gives 404 |
| AccountsApi.FindIDReplyAsWritten | APIUserAndTeacherData.go:72-99 | as written, on a store with generated ids: always 200 text/plain with the lookup result, which is `notFound` for unknown credentials |
| AccountsApi.FindIDReply | APIUserAndTeacherData.go:72-99 | as intended: 404 exactly when the lookup gives `notFound`, otherwise 200 text/plain with the id |
| AccountsApi.FindIDReplyIff | APIUserAndTeacherData.go:80-83 | 404 exactly when no account has the credentials, otherwise the first matching account's id |
| AccountsApi.RegisterKeepsValid | APIUserAndTeacherData.go:192-200 | registration with a generated id keeps the ids well formed and distinct |
| AccountsApi.RegistrationReply | APIUserAndTeacherData.go:193-200 | after a stored registration the reply is the new id, unless an older account has the credentials; the new account is served |
| AccountsApi.Register | APIUserAndTeacherData.go:167-257 | as written: a validator error panics; a valid body is inserted and answered with its credentials' id; an invalid body gets 200 and the message; the store changes only for a valid body |
| AccountsApi.RegisterCorrected | APIUserAndTeacherData.go:192-204 | as intended: the same, except that an invalid body gets 400 |
| Scenarios.RegisterThenSignIn | APIUserAndTeacherData.go:72-211 | registering returns the new id, the credentials then resolve to it, and the id serves the document; a wrong password gets 200 `notFound` as written and 404 as intended |
| Scenarios.WrongPasswordAsWritten | APIUserAndTeacherData.go:78-83 | on the registered store, findStudentID as written answers a wrong password with 200 text/plain `notFound` |
| Scenarios.InvalidRegistration | APIUserAndTeacherData.go:192-204 | an invalid body gets 200 as written and 400 as intended, and no account is stored |
| Scenarios.EnrolledFacts | databaseHandler.go:130-208 | in the enrolled store both users' credentials resolve to their ids and the ids are well formed |
| Scenarios.SubmitTwice | APIAnswerSheetData.go:80-167 | the first submission is stored, the second gets 208, and the sheet is served |
| Scenarios.GradeReplacesSheet | APIGradeData.go:72-175 | grading stores the grade and getGrade serves its document; the sheet is gone, so getAnswerSheet answers 200 `notFound` as written and 404 as intended |
| Scenarios.GradedFacts | APIGradeData.go:36-63 | once Ana's sheet is graded, getAnswerSheet gives 200 `notFound` as written and 404 as intended, and getGrade gives 200 with the grade's document |

## Left out

- Transport: server start-up, routing, static files and the 404 page. Handlers are entered with the route variables, form values and header credentials already extracted.
- Logging and configuration: log rotation, request logging and reading the config file. The logged `responseCode` has no effect on the reply, except where Findings says so.
- The admin endpoints: archive creation, file serving and deletion.
- Concurrency: handlers run one at a time. The race between `GetNextTestID` and the insert in `createTest` is not modelled.
- BSON and JSON: request bodies are records, and stored documents are their field text. Marshalling is modelled only as far as the unwrap helper needs: a JSON array of rendered documents followed by a newline, `null` for no result.
- The mgo driver:
  - The query errors of `FindStudentID` and `FindTeacherID` are a `QueryRun` parameter. Handlers always pass `Complete`.
  - The other queries (`GetStudentObjectByID`, `GetTeacherObjectByID`, `GetAnswerSheet`, `GetGrade`, `GetTestType`) also ignore their error and keep partial results. They are taken as complete.
  - Each insert and remove outcome is a boolean parameter.
  - A client-supplied `_id` that clashes with a stored one is not modelled; ids come from the driver.
- `GetTest`, `GetPlannedTests`, `GetTestQueue`, `ListLessons`, `GetLesson`, `GetNextTestID`, `AddTest`, `EditTest` and `AddLesson` are not part of this model. Reads are uninterpreted `Catalog` functions, and writes are logged in the store. A logged `AddTest` or `EditTest` therefore does not change what `Catalog.getTest` returns, and no lemma relates a write to a later read of a test or lesson.
- Content sniffing: where the handler set no Content-Type in time (`contentType == ""`), `net/http` fills one in from the body, typically `text/plain; charset=utf-8`. That step is not modelled.
- Schema validation is not modelled: the validator's verdict is a `Validation` parameter.
- Time: time zones and the layout parse of `startTime` are not modelled. The clock and the parse result are integer seconds, given as parameters.
- Database.Snapshot.GetTestType: jsonparser's lookup of `course` in the sliced text is a map lookup. A missing entry gives `""`.
- TestsApi.UpdateTestRejection: the path id is checked against the catalog, but nothing stops an update from moving a test to another course.
- TestsApi.CreateTestRejection: the check is against the next id at the moment of the call, so a concurrent creation is not excluded.
- LessonsApi.Atoi: Go's `int` is taken as 64 bits, and values outside that range are refused.
- LessonsApi.UploadLesson: the course is a parameter. On the documented route, which has no `course` variable, it is `""`.

## Findings

| source | as written | input that shows it | evidently intended | confidence | as-written member | corrected member |
|---|---|---|---|---|---|---|
| APIUserAndTeacherData.go:44-47 | `getStudent`/`getTeacher` test the helper's result against `"null\n"`, which the helper never returns (it maps that to `notFound`) | any well-formed 24-hex-digit id that no account has | 404 "404 student not found" | not executed | AccountsApi.GetAccountReplyAsWritten | AccountsApi.GetAccountReply |
| APIAnswerSheetData.go:50-66 | `getAnswerSheet` tests the student lookup and the sheet lookup against `"null\n"` | a stored student's id with a test id for which no sheet was submitted | 404 "404 answer sheet not found" | not executed | AnswerSheetApi.GetAnswerSheetReplyAsWritten | AnswerSheetApi.GetAnswerSheetReply |
| APIUserAndTeacherData.go:80-83 | `findStudentID`/`findTeacherID` test the lookup against `""`, while an unknown user gives `notFound` | username `ana`, password `wrong` on a store where `ana` has another password | 404 "404 student not found" | not executed | AccountsApi.FindIDReplyAsWritten | AccountsApi.FindIDReply |
| APIUserAndTeacherData.go:192-204 | an invalid registration body sets the logged code to 400, but no `WriteHeader` follows, so the reply is 200 | a body that fails the student schema | 400 with the message | not executed | AccountsApi.Register | AccountsApi.RegisterCorrected |
