/** APITests.go: serving a test to students once it has started (getTest),
    the teacher views of a test and of the planned tests (viewTest,
    getPlannedTests), a student's test queue (getTestQueue), the next test ID
    (getNextTestID) and the two test uploads (createTest, updateTest). */
module TestsApi {
  import opened Wrappers
  import opened Strings
  import opened Database
  import opened Http

  const TestNotFound := "404 test not found!"
  const NotYetAvailable := "Nice try, but this test isn't available yet! Nice thinking, though! You should work for the project, you might be useful for this software!"
  const CourseNotFound := "404 course not found"
  const TestsNotFound := "404 tests not found!"
  const StudentNotFound := "404 student not found!"
  const ForeignTestID := "Invalid test ID! Test ID must be acquired from server from GetNextTestID endpoint!"
  const ChangedTestID := "Invalid test ID! Test ID must be the same as previous test upload!"
  const TestCreated := "Test created! New test ID is "
  const TestUpdated := "Test updated!"

  // ---------------------------------------------------------------------
  // Subjects
  // ---------------------------------------------------------------------

  /** The subject names glued together; a subject is known when it occurs
      in this text. */
  const Subjects := "GeoPhiInfoMath"

  /** The subject check of getPlannedTests and getTestQueue:
      strings.Contains("GeoPhiInfoMath", subject). */
  predicate SubjectKnown(subject: string) {
    Contains(Subjects, subject)
  }

  /** A subject passes exactly when it is a piece of the glued text: the four
      subjects, but also the empty subject and fragments such as "oPh". */
  lemma SubjectKnownIff(subject: string)
    ensures SubjectKnown(subject) <==> exists i :: OccursAt(Subjects, subject, i)
  {
    ContainsIff(Subjects, subject);
  }

  lemma KnownSubjects()
    ensures SubjectKnown("Geo") && SubjectKnown("Phi") && SubjectKnown("Info") && SubjectKnown("Math")
    ensures SubjectKnown("") && SubjectKnown("oPh")
  {
    FirstSubjectsKnown();
    LastSubjectsKnown();
    FragmentsKnown();
  }

  lemma FirstSubjectsKnown()
    ensures SubjectKnown("Geo") && SubjectKnown("Phi")
  {
    assert Subjects[0..3] == "Geo";
    Present("Geo", 0);
    assert Subjects[3..6] == "Phi";
    Present("Phi", 3);
  }

  lemma LastSubjectsKnown()
    ensures SubjectKnown("Info") && SubjectKnown("Math")
  {
    assert Subjects[6..10] == "Info";
    Present("Info", 6);
    assert Subjects[10..14] == "Math";
    Present("Math", 10);
  }

  lemma FragmentsKnown()
    ensures SubjectKnown("") && SubjectKnown("oPh")
  {
    Present("", 0);
    assert Subjects[2..5] == "oPh" by {
      assert Subjects[2] == 'o' && Subjects[3] == 'P' && Subjects[4] == 'h';
    }
    Present("oPh", 2);
  }

  /** A subject that occurs at some index is known. */
  lemma Present(subject: string, i: nat)
    requires OccursAt(Subjects, subject, i)
    ensures SubjectKnown(subject)
  {
    SubjectKnownIff(subject);
  }

  /** A name that does not occur in the text is refused; the check is
      case-sensitive. */
  lemma UnknownSubjects()
    ensures !SubjectKnown("Bio") && !SubjectKnown("math")
  {
    LowerCaseMathUnknown();
    BioUnknown();
  }

  lemma LowerCaseMathUnknown()
    ensures !SubjectKnown("math")
  {
    assert Subjects[0..11] == "GeoPhiInfoM";
    Absent("math", 0);
  }

  lemma BioUnknown()
    ensures !SubjectKnown("Bio")
  {
    assert Subjects[0..12] == "GeoPhiInfoMa";
    Absent("Bio", 0);
  }

  /** A subject is unknown when, wherever it could start, its k-th character
      differs from the text's. */
  lemma Absent(subject: string, k: nat)
    requires k < |subject| <= |Subjects|
    requires subject[k] !in Subjects[k..|Subjects| - |subject| + k + 1]
    ensures !SubjectKnown(subject)
  {
    SubjectKnownIff(subject);
    forall i | 0 <= i <= |Subjects| - |subject|
      ensures !OccursAt(Subjects, subject, i)
    {
      assert Subjects[i..i + |subject|][k] == Subjects[k..|Subjects| - |subject| + k + 1][i];
    }
  }

  // ---------------------------------------------------------------------
  // getTest: the start-time lock
  // ---------------------------------------------------------------------

  /** Go's zero time.Time, January 1 of year 1 UTC, in Unix seconds: what
      time.ParseInLocation returns when the start time does not parse. */
  const ZeroTime := -62135596800

  /** The instant the test opens: its parsed startTime, or the zero time when
      the field is missing or does not parse. */
  function StartOf(parsed: Option<int>): (t: int)
    ensures parsed.None? ==> t == ZeroTime
  {
    match parsed
    case None => ZeroTime
    case Some(t) => t
  }

  /** getTest at the instant `now`: 404 for an unknown test, 403 while now is
      before the test's start, and the test otherwise. `startOf` is what
      jsonparser and time.ParseInLocation make of the test's startTime field.
      The handler sets no Content-Type. */
  function GetTestReply(catalog: Catalog, testID: string, now: int, startOf: string -> Option<int>): (r: Reply)
    ensures r.Reply? && r.contentType == ""
    ensures catalog.getTest(testID) == NotFound <==> r.status == StatusNotFound
    ensures r.status == StatusNotFound ==> r.body == TestNotFound
    ensures catalog.getTest(testID) != NotFound ==>
              (r.status == StatusForbidden <==> now < StartOf(startOf(catalog.getTest(testID))))
    ensures r.status == StatusForbidden ==> r.body == NotYetAvailable
    ensures r.status in {StatusOK, StatusForbidden, StatusNotFound}
    ensures r.status == StatusOK ==> r.body == catalog.getTest(testID)
  {
    var test := catalog.getTest(testID);
    if test == NotFound then Reply(StatusNotFound, "", TestNotFound)
    else if now < StartOf(startOf(test)) then Reply(StatusForbidden, "", NotYetAvailable)
    else Reply(StatusOK, "", test)
  }

  /** Once a test is served it stays served: the lock only ever opens. */
  lemma ServedTestStaysServed(catalog: Catalog, testID: string, now: int, later: int, startOf: string -> Option<int>)
    requires now <= later
    requires GetTestReply(catalog, testID, now, startOf).status == StatusOK
    ensures GetTestReply(catalog, testID, later, startOf) == GetTestReply(catalog, testID, now, startOf)
  {
  }

  /** A test whose start time does not parse is never locked: it is served at
      any instant from year 1 on. */
  lemma UnparsableStartIsOpen(catalog: Catalog, testID: string, now: int, startOf: string -> Option<int>)
    requires catalog.getTest(testID) != NotFound
    requires startOf(catalog.getTest(testID)).None?
    requires now >= ZeroTime
    ensures GetTestReply(catalog, testID, now, startOf) == Reply(StatusOK, "", catalog.getTest(testID))
  {
  }

  // ---------------------------------------------------------------------
  // The teacher and student reads
  // ---------------------------------------------------------------------

  /** The returning authentication checks of a teacher endpoint. */
  function TeacherChecks(db: Snapshot, auth: Authorization): (r: Option<Reply>)
    ensures r.None? <==> auth.BasicAuth? && db.FindTeacherID(auth.credentials, Complete) != NotFound
  {
    ReturningAuthChecks(auth.BasicAuth?, db.FindTeacherID(HeaderCredentials(auth), Complete) != NotFound)
  }

  /** viewTest: a teacher sees any test, started or not. */
  function ViewTestReply(db: Snapshot, catalog: Catalog, auth: Authorization, testID: string): (r: Reply)
    ensures TeacherChecks(db, auth).Some? ==> r == TeacherChecks(db, auth).value
    ensures TeacherChecks(db, auth).None? ==>
              r == (if catalog.getTest(testID) == NotFound then Reply(StatusNotFound, "", TestNotFound)
                    else Reply(StatusOK, "", catalog.getTest(testID)))
  {
    var checks := TeacherChecks(db, auth);
    if checks.Some? then checks.value
    else
      var test := catalog.getTest(testID);
      if test == NotFound then Reply(StatusNotFound, "", TestNotFound) else Reply(StatusOK, "", test)
  }

  /** A signed-in teacher sees a test the start-time lock still hides from
      students. */
  lemma TeacherSeesLockedTest(db: Snapshot, catalog: Catalog, auth: Authorization, testID: string, now: int, startOf: string -> Option<int>)
    requires TeacherChecks(db, auth).None?
    requires GetTestReply(catalog, testID, now, startOf).status == StatusForbidden
    ensures ViewTestReply(db, catalog, auth, testID) == Reply(StatusOK, "", catalog.getTest(testID))
  {
  }

  /** getPlannedTests: authentication, then the subject check, then the
      planned tests of the subject. */
  function GetPlannedTestsReply(db: Snapshot, catalog: Catalog, auth: Authorization, subject: string): (r: Reply)
    ensures TeacherChecks(db, auth).Some? ==> r == TeacherChecks(db, auth).value
    ensures TeacherChecks(db, auth).None? && !SubjectKnown(subject) ==> r == Reply(StatusNotFound, "", CourseNotFound)
    ensures TeacherChecks(db, auth).None? && SubjectKnown(subject) ==>
              r == (if catalog.plannedTests(subject) == NotFound then Reply(StatusNotFound, "", TestsNotFound)
                    else Reply(StatusOK, "", catalog.plannedTests(subject)))
  {
    var checks := TeacherChecks(db, auth);
    if checks.Some? then checks.value
    else if !SubjectKnown(subject) then Reply(StatusNotFound, "", CourseNotFound)
    else
      var planned := catalog.plannedTests(subject);
      if planned == NotFound then Reply(StatusNotFound, "", TestsNotFound) else Reply(StatusOK, "", planned)
  }

  /** getTestQueue: the student is looked up first, then the subject is
      checked, then the queue of the student's class (grade and grade letter,
      read from the student's document) is served. */
  function GetTestQueueReply(db: Snapshot, catalog: Catalog, studentID: string, subject: string): (r: Reply)
    ensures !IsObjectIdHex(studentID) ==> r == Aborted
    ensures IsObjectIdHex(studentID) && !HasId(db.students, studentID) ==> r == Reply(StatusNotFound, "", StudentNotFound)
    ensures IsObjectIdHex(studentID) && HasId(db.students, studentID) && !SubjectKnown(subject) ==>
              r == Reply(StatusNotFound, "", CourseNotFound)
    ensures r.Reply? && r.status == StatusOK ==>
              HasId(db.students, studentID) && SubjectKnown(subject)
              && var a := AccountByID(db.students, studentID).value;
                 r.body == catalog.testQueue(subject, a.grade, a.gradeLetter) && r.body != NotFound
  {
    match db.StudentObjectByID(studentID)
    case Panic => Aborted
    case Value(student) =>
      if student == NotFound then Reply(StatusNotFound, "", StudentNotFound)
      else if !SubjectKnown(subject) then Reply(StatusNotFound, "", CourseNotFound)
      else
        var a := AccountByID(db.students, studentID).value;
        var tests := catalog.testQueue(subject, a.grade, a.gradeLetter);
        if tests == NotFound then Reply(StatusNotFound, "", TestsNotFound) else Reply(StatusOK, "", tests)
  }

  /** Two students of the same class get the same queue. */
  lemma ClassmatesShareQueue(db: Snapshot, catalog: Catalog, i: nat, j: nat, subject: string)
    requires db.Valid()
    requires i < |db.students| && j < |db.students|
    requires db.students[i].grade == db.students[j].grade && db.students[i].gradeLetter == db.students[j].gradeLetter
    ensures GetTestQueueReply(db, catalog, db.students[i].oid, subject) == GetTestQueueReply(db, catalog, db.students[j].oid, subject)
  {
    StoredStudentQueue(db, catalog, i, subject);
    StoredStudentQueue(db, catalog, j, subject);
  }

  /** A stored student's queue depends only on the subject and the
      student's class. */
  lemma StoredStudentQueue(db: Snapshot, catalog: Catalog, i: nat, subject: string)
    requires db.Valid() && i < |db.students|
    ensures var a := db.students[i];
            var tests := catalog.testQueue(subject, a.grade, a.gradeLetter);
            GetTestQueueReply(db, catalog, a.oid, subject)
            == if !SubjectKnown(subject) then Reply(StatusNotFound, "", CourseNotFound)
               else if tests == NotFound then Reply(StatusNotFound, "", TestsNotFound)
               else Reply(StatusOK, "", tests)
  {
    StoredAccountById(db.students, i);
  }

  /** The account found by the id of a stored account is that account. */
  lemma StoredAccountById(accounts: seq<Account>, i: nat)
    requires WellFormedIds(accounts) && i < |accounts|
    ensures IsObjectIdHex(accounts[i].oid)
    ensures AccountByID(accounts, accounts[i].oid) == Some(accounts[i])
  {
    ObjectByIDOfStored(accounts, i);
    var fetched := Select(accounts, IdKey, HexLower(accounts[i].oid));
    SelectOnly(accounts, IdKey, HexLower(accounts[i].oid), i);
    assert fetched == [accounts[i]];
  }

  /** getNextTestID: the store's next ID, as plain text with status 200. */
  function GetNextTestIDReply(nextTestID: string): (r: Reply)
    ensures r.Reply? && r.status == StatusOK && r.body == nextTestID
  {
    Reply(StatusOK, "", nextTestID)
  }

  // ---------------------------------------------------------------------
  // createTest and updateTest
  // ---------------------------------------------------------------------

  /** What the upload handlers read from the request body: its testID and
      course fields (empty when missing) and the raw text that is stored. */
  datatype TestUpload = TestUpload(testID: string, course: string, text: string)

  /** The guards that read the body: a validator error panics, an invalid
      body gets an empty 200, a test ID other than `expectedID` 400. */
  function UploadRejection(validation: Validation, upload: TestUpload, expectedID: string, wrongID: string): (r: Option<Reply>)
    ensures r.None? <==> validation == SchemaValid && upload.testID == expectedID
    ensures r == Some(Aborted) <==> validation == SchemaError
  {
    match validation
    case SchemaError => Some(Aborted)
    case SchemaInvalid => Some(Reply(StatusOK, "", ""))
    case SchemaValid =>
      if upload.testID != expectedID then Some(Reply(StatusBadRequest, "", wrongID)) else None
  }

  /** The reply with which createTest stops the request; None when the test
      is stored under the ID the server issues next. */
  function CreateTestRejection(db: Snapshot, auth: Authorization, validation: Validation, upload: TestUpload, nextTestID: string): (r: Option<Reply>)
    ensures r.None? <==>
              TeacherChecks(db, auth).None? && validation == SchemaValid && upload.testID == nextTestID
    ensures r.Some? && r.value.Reply? && r.value.status == StatusBadRequest ==> r.value.body == ForeignTestID
  {
    var checks := TeacherChecks(db, auth);
    if checks.Some? then checks else UploadRejection(validation, upload, nextTestID, ForeignTestID)
  }

  method CreateTest(store: Store, w: Response, auth: Authorization, subject: string,
                    validation: Validation, upload: TestUpload, nextTestID: string)
    requires w.Pristine()
    modifies store, w
    ensures var rejection := CreateTestRejection(old(store.View()), auth, validation, upload, nextTestID);
            if rejection.Some? then w.Sent() == rejection.value && store.View() == old(store.View())
            else w.Sent() == Reply(StatusOK, "", TestCreated + nextTestID)
                 && store.View() == old(store.View()).(testWrites := old(store.View().testWrites) + [TestAdded(subject, upload.text, nextTestID)])
  {
    ghost var db := store.View();
    var credentials, authOK := HeaderCredentials(auth), auth.BasicAuth?;
    var responseCode := StatusOK;
    var teacherID := store.View().FindTeacherID(credentials, Complete);

    if !authOK {
      assert CreateTestRejection(db, auth, validation, upload, nextTestID) == Some(Reply(StatusUnauthorized, "", BadScheme));
      responseCode := StatusUnauthorized;
      w.WriteHeader(responseCode);
      w.Print(BadScheme);
      return;
    }
    if teacherID == NotFound {
      assert CreateTestRejection(db, auth, validation, upload, nextTestID) == Some(Reply(StatusUnauthorized, "", BadCredentials));
      responseCode := StatusUnauthorized;
      w.WriteHeader(responseCode);
      w.Print(BadCredentials);
      return;
    }
    assert CreateTestRejection(db, auth, validation, upload, nextTestID)
           == UploadRejection(validation, upload, nextTestID, ForeignTestID);
    match validation {
      case SchemaError =>
        assert CreateTestRejection(db, auth, validation, upload, nextTestID) == Some(Aborted);
        w.Panic();
      case SchemaInvalid =>
        assert CreateTestRejection(db, auth, validation, upload, nextTestID) == Some(Reply(StatusOK, "", ""));
      case SchemaValid =>
        var testID := nextTestID;
        if testID != upload.testID {
          w.WriteHeader(StatusBadRequest);
          w.Print(ForeignTestID);
          return;
        }
        store.AddTest(subject, upload.text, testID);
        w.Print(TestCreated + testID);
    }
  }

  /** The reply with which updateTest stops the request; None when the upload
      replaces the test under its own ID. */
  function UpdateTestRejection(db: Snapshot, catalog: Catalog, auth: Authorization, pathTestID: string, validation: Validation, upload: TestUpload): (r: Option<Reply>)
    ensures r.None? <==>
              TeacherChecks(db, auth).None? && catalog.getTest(pathTestID) != NotFound
              && validation == SchemaValid && upload.testID == pathTestID
    ensures TeacherChecks(db, auth).None? && catalog.getTest(pathTestID) == NotFound ==>
              r == Some(Reply(StatusNotFound, "", TestNotFound))
    ensures r.Some? && r.value.Reply? && r.value.status == StatusBadRequest ==> r.value.body == ChangedTestID
  {
    var checks := TeacherChecks(db, auth);
    if checks.Some? then checks
    else if catalog.getTest(pathTestID) == NotFound then Some(Reply(StatusNotFound, "", TestNotFound))
    else UploadRejection(validation, upload, pathTestID, ChangedTestID)
  }

  method UpdateTest(store: Store, w: Response, catalog: Catalog, auth: Authorization, pathTestID: string,
                    validation: Validation, upload: TestUpload)
    requires w.Pristine()
    modifies store, w
    ensures var rejection := UpdateTestRejection(old(store.View()), catalog, auth, pathTestID, validation, upload);
            if rejection.Some? then w.Sent() == rejection.value && store.View() == old(store.View())
            else w.Sent() == Reply(StatusOK, "", TestUpdated)
                 && store.View() == old(store.View()).(testWrites := old(store.View().testWrites) + [TestEdited(upload.course, upload.text, pathTestID)])
  {
    ghost var db := store.View();
    var credentials, authOK := HeaderCredentials(auth), auth.BasicAuth?;
    var responseCode := StatusOK;
    var teacherID := store.View().FindTeacherID(credentials, Complete);

    if !authOK {
      assert UpdateTestRejection(db, catalog, auth, pathTestID, validation, upload) == Some(Reply(StatusUnauthorized, "", BadScheme));
      responseCode := StatusUnauthorized;
      w.WriteHeader(responseCode);
      w.Print(BadScheme);
      return;
    }
    if teacherID == NotFound {
      assert UpdateTestRejection(db, catalog, auth, pathTestID, validation, upload) == Some(Reply(StatusUnauthorized, "", BadCredentials));
      responseCode := StatusUnauthorized;
      w.WriteHeader(responseCode);
      w.Print(BadCredentials);
      return;
    }
    var test := catalog.getTest(pathTestID);
    if test == NotFound {
      w.WriteHeader(StatusNotFound);
      w.Print(TestNotFound);
      return;
    }
    assert UpdateTestRejection(db, catalog, auth, pathTestID, validation, upload)
           == UploadRejection(validation, upload, pathTestID, ChangedTestID);
    UpdateBody(store, w, pathTestID, validation, upload);
  }

  /** The block of updateTest that runs once the teacher and the test are
      known: the body guards, then EditTest under the body's course. */
  method UpdateBody(store: Store, w: Response, pathTestID: string, validation: Validation, upload: TestUpload)
    requires w.Pristine()
    modifies store, w
    ensures var rejection := UploadRejection(validation, upload, pathTestID, ChangedTestID);
            if rejection.Some? then w.Sent() == rejection.value && store.View() == old(store.View())
            else w.Sent() == Reply(StatusOK, "", TestUpdated)
                 && store.View() == old(store.View()).(testWrites := old(store.View().testWrites) + [TestEdited(upload.course, upload.text, pathTestID)])
  {
    match validation {
      case SchemaError =>
        w.Panic();
      case SchemaInvalid =>
      case SchemaValid =>
        var testID := pathTestID;
        if testID != upload.testID {
          w.WriteHeader(StatusBadRequest);
          w.Print(ChangedTestID);
          return;
        }
        store.EditTest(upload.course, upload.text, testID);
        w.Print(TestUpdated);
    }
  }
}
