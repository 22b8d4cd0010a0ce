/** APIGradeData.go: serving a grade (getGrade) and the guard pipeline of a
    grade submission (submitGrade), whose success turns the student's answer
    sheet into a grade. */
module GradeApi {
  import opened Wrappers
  import opened Database
  import opened Http

  // ---------------------------------------------------------------------
  // getGrade
  // ---------------------------------------------------------------------

  const GradeNotFound := "404 grade not found"

  /** The userName jsonparser reads from GetStudentObjectByID(studentID): ""
      when the text is the sentinel. */
  function StudentUser(db: Snapshot, studentID: string): string {
    db.StudentCredentialsByID(studentID).userName
  }

  /** getGrade: 404 exactly when the grade lookup for the student's userName
      and the test answers NotFound; no content type is set. */
  function GetGradeReply(db: Snapshot, studentID: string, testID: string): (r: Reply)
    ensures !IsObjectIdHex(studentID) ==> r == Aborted
    ensures IsObjectIdHex(studentID) ==>
              ((r == Reply(StatusNotFound, "", GradeNotFound)) <==> !db.HasGrade(StudentUser(db, studentID), testID))
    ensures r.Reply? ==> r.contentType == "" && (r.status == StatusOK || r.status == StatusNotFound)
    ensures r.Reply? && r.status == StatusOK ==> r.body != NotFound
  {
    match db.StudentObjectByID(studentID)
    case Panic => Aborted
    case Value(_) =>
      var grade := db.GetGrade(StudentUser(db, studentID), testID);
      if grade == NotFound then Reply(StatusNotFound, "", GradeNotFound) else Reply(StatusOK, "", grade)
  }

  // ---------------------------------------------------------------------
  // submitGrade
  // ---------------------------------------------------------------------

  const ForeignGrade := "Malformed grade! (can't upload grade on someone else's behalf"
  const GradeWrongTest := "Cannot submit grade from another test to this one!"
  const MixedTests := "Malformed grade! (Cannot have answer sheets from different tests!"
  const GradeResubmitted := "Cannot submit a grade after it has already been submitted!"
  const GradeAdded := "Grade added! You can no longer add anything to this test!"

  /** Every guard of submitGrade passes: a Basic header whose credentials
      belong to a teacher, a schema-valid body whose teacher.account belongs
      to the same teacher, whose answer sheet and answer key are both for the
      path's test, and no grade yet for the student's userName on that test.
      The embedded student is not checked. */
  predicate GradeAcceptable(db: Snapshot, auth: Authorization, pathTestID: string, validation: Validation, grade: Grade) {
    var teacherID := db.FindTeacherID(HeaderCredentials(auth), Complete);
    && auth.BasicAuth?
    && teacherID != NotFound
    && validation == SchemaValid
    && db.FindTeacherID(grade.teacher, Complete) == teacherID
    && grade.studentAnswerSheet.testID == pathTestID
    && grade.answerKeyTestID == pathTestID
    && !db.HasGrade(grade.studentAnswerSheet.student.userName, pathTestID)
  }

  /** The reply with which a guard of submitGrade stops the request, in guard
      order; None when the grade is to be stored. */
  function SubmitGradeRejection(db: Snapshot, auth: Authorization, pathTestID: string, validation: Validation, grade: Grade): (r: Option<Reply>)
    ensures r.None? <==> GradeAcceptable(db, auth, pathTestID, validation, grade)
    ensures r.Some? && r.value.Reply? && r.value.status == StatusOK ==> validation == SchemaInvalid && r.value.body == ""
    ensures r == Some(Aborted) ==> validation == SchemaError
  {
    var teacherID := db.FindTeacherID(HeaderCredentials(auth), Complete);
    var checks := ChainedAuthChecks(auth.BasicAuth?, teacherID != NotFound);
    if checks.Some? then checks else GradeBodyRejection(db, teacherID, pathTestID, validation, grade)
  }

  /** The guards of submitGrade that read the body, for an authenticated
      teacher. */
  function GradeBodyRejection(db: Snapshot, teacherID: string, pathTestID: string, validation: Validation, grade: Grade): (r: Option<Reply>)
    ensures r.None? <==> validation == SchemaValid && db.FindTeacherID(grade.teacher, Complete) == teacherID
                         && grade.studentAnswerSheet.testID == pathTestID && grade.answerKeyTestID == pathTestID
                         && !db.HasGrade(grade.studentAnswerSheet.student.userName, pathTestID)
    ensures r.Some? && r.value.Reply? && r.value.status == StatusOK ==> validation == SchemaInvalid && r.value.body == ""
    ensures r == Some(Aborted) ==> validation == SchemaError
  {
    var testID := grade.studentAnswerSheet.testID;
    match validation
    case SchemaError => Some(Aborted)
    case SchemaInvalid => Some(Reply(StatusOK, "", ""))
    case SchemaValid =>
      if db.FindTeacherID(grade.teacher, Complete) != teacherID then Some(Reply(StatusUnauthorized, "", ForeignGrade))
      else if testID != pathTestID then Some(Reply(StatusBadRequest, "", GradeWrongTest))
      else if testID != grade.answerKeyTestID then Some(Reply(StatusBadRequest, "", MixedTests))
      else if db.GetGrade(grade.studentAnswerSheet.student.userName, testID) != NotFound
      then Some(Reply(StatusAlreadyReported, "", GradeResubmitted))
      else None
  }

  /** submitGrade. The guards run as in submitAnswerSheet; the student's
      credentials are looked up but only logged. Success stores the grade in
      the course collection of the test and then removes the graded answer
      sheet. Every rejected path leaves the store unchanged, and the store
      keeps at most one grade per key and one sheet per key. */
  method SubmitGrade(store: Store, w: Response, auth: Authorization, pathTestID: string,
                     validation: Validation, grade: Grade, insertAccepted: bool, removeAccepted: bool)
    requires w.Pristine()
    modifies store, w
    ensures var rejection := SubmitGradeRejection(old(store.View()), auth, pathTestID, validation, grade);
            if rejection.Some? then w.Sent() == rejection.value && store.View() == old(store.View())
            else w.Sent() == Reply(StatusOK, "", GradeAdded)
                 && store.View() == old(store.View()).AfterAddGrade(grade, pathTestID, insertAccepted, removeAccepted)
    ensures old(store.View().UniqueGrades()) ==> store.View().UniqueGrades()
    ensures old(store.View().UniqueAnswerSheets()) ==> store.View().UniqueAnswerSheets()
    ensures SubmitGradeRejection(old(store.View()), auth, pathTestID, validation, grade).None? && insertAccepted ==>
              store.View().HasGrade(grade.studentAnswerSheet.student.userName, pathTestID)
    ensures SubmitGradeRejection(old(store.View()), auth, pathTestID, validation, grade).None? && insertAccepted
            && removeAccepted && old(store.View().UniqueAnswerSheets()) ==>
              !store.View().HasAnswerSheet(grade.studentAnswerSheet.student, pathTestID)
  {
    ghost var db := store.View();
    var credentials, authOK := HeaderCredentials(auth), auth.BasicAuth?;
    var responseCode := StatusOK;
    var teacherID := store.View().FindTeacherID(credentials, Complete);
    var studentID := "";

    if !authOK {
      responseCode := StatusUnauthorized;
      w.WriteHeader(responseCode);
      w.Print(BadScheme);
    }
    if teacherID == NotFound {
      responseCode := StatusUnauthorized;
      w.WriteHeader(responseCode);
      w.Print(BadCredentials);
    }
    assert store.View() == db;

    if responseCode == StatusOK {
      assert SubmitGradeRejection(db, auth, pathTestID, validation, grade)
             == GradeBodyRejection(db, teacherID, pathTestID, validation, grade);
      GradeBody(store, w, teacherID, pathTestID, validation, grade, insertAccepted, removeAccepted);
    } else {
      assert w.Sent() == ChainedAuthChecks(authOK, teacherID != NotFound).value;
      assert SubmitGradeRejection(db, auth, pathTestID, validation, grade) == Some(w.Sent());
    }
  }

  /** The block of submitGrade that runs for an authenticated teacher: the
      body guards in order, then the write. */
  method GradeBody(store: Store, w: Response, teacherID: string, pathTestID: string,
                   validation: Validation, grade: Grade, insertAccepted: bool, removeAccepted: bool)
    requires w.Pristine()
    modifies store, w
    ensures var rejection := GradeBodyRejection(old(store.View()), teacherID, pathTestID, validation, grade);
            if rejection.Some? then w.Sent() == rejection.value && store.View() == old(store.View())
            else w.Sent() == Reply(StatusOK, "", GradeAdded)
                 && store.View() == old(store.View()).AfterAddGrade(grade, pathTestID, insertAccepted, removeAccepted)
    ensures old(store.View().UniqueGrades()) ==> store.View().UniqueGrades()
    ensures old(store.View().UniqueAnswerSheets()) ==> store.View().UniqueAnswerSheets()
    ensures GradeBodyRejection(old(store.View()), teacherID, pathTestID, validation, grade).None? && insertAccepted ==>
              store.View().HasGrade(grade.studentAnswerSheet.student.userName, pathTestID)
    ensures GradeBodyRejection(old(store.View()), teacherID, pathTestID, validation, grade).None? && insertAccepted
            && removeAccepted && old(store.View().UniqueAnswerSheets()) ==>
              !store.View().HasAnswerSheet(grade.studentAnswerSheet.student, pathTestID)
  {
    ghost var db := store.View();
    var responseCode := StatusOK;
    var studentID := "";
    match validation {
      case SchemaError =>
        w.Panic();
      case SchemaInvalid =>
      case SchemaValid =>
        studentID := store.View().FindStudentID(grade.studentAnswerSheet.student, Complete);
        var checkID := store.View().FindTeacherID(grade.teacher, Complete);
        if checkID != teacherID {
          responseCode := StatusUnauthorized;
          w.WriteHeader(responseCode);
          w.Print(ForeignGrade);
          return;
        }
        var testID, keyID := grade.studentAnswerSheet.testID, grade.answerKeyTestID;
        if testID != pathTestID {
          responseCode := StatusBadRequest;
          w.WriteHeader(responseCode);
          w.Print(GradeWrongTest);
          return;
        }
        if testID != keyID {
          responseCode := StatusBadRequest;
          w.WriteHeader(responseCode);
          w.Print(MixedTests);
          return;
        }
        if store.View().GetGrade(grade.studentAnswerSheet.student.userName, testID) != NotFound {
          responseCode := StatusAlreadyReported;
          w.WriteHeader(responseCode);
          w.Print(GradeResubmitted);
          return;
        }
        RecordGrade(store, w, grade, testID, insertAccepted, removeAccepted);
    }
  }

  /** The last step of submitGrade: AddGrade, then the success message. The
      grade is found afterwards, and sheets and grades stay unique. */
  method RecordGrade(store: Store, w: Response, grade: Grade, testID: string, insertAccepted: bool, removeAccepted: bool)
    requires w.Pristine() && grade.studentAnswerSheet.testID == testID
    requires !store.View().HasGrade(grade.studentAnswerSheet.student.userName, testID)
    modifies store, w
    ensures w.Sent() == Reply(StatusOK, "", GradeAdded)
    ensures store.View() == old(store.View()).AfterAddGrade(grade, testID, insertAccepted, removeAccepted)
    ensures old(store.View().UniqueGrades()) ==> store.View().UniqueGrades()
    ensures old(store.View().UniqueAnswerSheets()) ==> store.View().UniqueAnswerSheets()
    ensures insertAccepted ==> store.View().HasGrade(grade.studentAnswerSheet.student.userName, testID)
    ensures insertAccepted && removeAccepted && old(store.View().UniqueAnswerSheets()) ==>
              !store.View().HasAnswerSheet(grade.studentAnswerSheet.student, testID)
  {
    ghost var db := store.View();
    if insertAccepted {
      if db.UniqueAnswerSheets() {
        GradeReplacesAnswerSheet(db, grade, testID, removeAccepted);
      }
      if db.UniqueGrades() {
        GradeStoredOnce(db, grade, testID, removeAccepted);
      }
      GradeIsStored(db, grade, testID, removeAccepted);
    }
    store.AddGrade(grade, testID, insertAccepted, removeAccepted);
    w.Print(GradeAdded);
  }

  /** A stored grade is found by its key, whatever the store holds. */
  lemma GradeIsStored(db: Snapshot, grade: Grade, testID: string, removeAccepted: bool)
    requires grade.studentAnswerSheet.testID == testID
    ensures db.AfterAddGrade(grade, testID, true, removeAccepted).HasGrade(grade.studentAnswerSheet.student.userName, testID)
  {
    var after := db.AfterAddGrade(grade, testID, true, removeAccepted);
    assert after.testList == db.testList;
    assert grade in after.GradesFor(testID);
  }

  /** Submitting the same grade again, once the first submission was stored,
      is stopped by the duplicate check with 208. */
  lemma ResubmittedGradeIsAlreadyReported(db: Snapshot, auth: Authorization, pathTestID: string, grade: Grade, removeAccepted: bool)
    requires SubmitGradeRejection(db, auth, pathTestID, SchemaValid, grade).None?
    ensures SubmitGradeRejection(db.AfterAddGrade(grade, pathTestID, true, removeAccepted), auth, pathTestID, SchemaValid, grade)
            == Some(Reply(StatusAlreadyReported, "", GradeResubmitted))
  {
    var after := db.AfterAddGrade(grade, pathTestID, true, removeAccepted);
    assert after.teachers == db.teachers;
    GradeIsStored(db, grade, pathTestID, removeAccepted);
  }

  /** The decision of submitGrade does not depend on the student accounts:
      the embedded student need not be a registered student. */
  lemma GradeRejectionIgnoresStudents(db: Snapshot, students: seq<Account>, auth: Authorization, pathTestID: string,
                                      validation: Validation, grade: Grade)
    ensures SubmitGradeRejection(db.(students := students), auth, pathTestID, validation, grade)
            == SubmitGradeRejection(db, auth, pathTestID, validation, grade)
  {
    var other := db.(students := students);
    var teacherID := db.FindTeacherID(HeaderCredentials(auth), Complete);
    TeacherLookupIgnoresStudents(db, students, HeaderCredentials(auth));
    TeacherLookupIgnoresStudents(db, students, grade.teacher);
    GradeLookupIgnoresStudents(db, students, grade.studentAnswerSheet.student.userName, grade.studentAnswerSheet.testID);
    GradeBodyRejectionDependsOn(other, db, teacherID, pathTestID, validation, grade);
  }

  lemma TeacherLookupIgnoresStudents(db: Snapshot, students: seq<Account>, c: Credentials)
    ensures db.(students := students).FindTeacherID(c, Complete) == db.FindTeacherID(c, Complete)
  {
    assert db.(students := students).teachers == db.teachers;
  }

  lemma GradeLookupIgnoresStudents(db: Snapshot, students: seq<Account>, user: string, testID: string)
    ensures db.(students := students).GetGrade(user, testID) == db.GetGrade(user, testID)
  {
    var other := db.(students := students);
    assert other.grades == db.grades && other.testList == db.testList;
    assert other.GradesFor(testID) == db.GradesFor(testID);
  }

  /** The body guards read the store only through the embedded teacher's id
      and the grade lookup. */
  lemma GradeBodyRejectionDependsOn(db1: Snapshot, db2: Snapshot, teacherID: string, pathTestID: string,
                                    validation: Validation, grade: Grade)
    requires db1.FindTeacherID(grade.teacher, Complete) == db2.FindTeacherID(grade.teacher, Complete)
    requires db1.GetGrade(grade.studentAnswerSheet.student.userName, grade.studentAnswerSheet.testID)
             == db2.GetGrade(grade.studentAnswerSheet.student.userName, grade.studentAnswerSheet.testID)
    ensures GradeBodyRejection(db1, teacherID, pathTestID, validation, grade)
            == GradeBodyRejection(db2, teacherID, pathTestID, validation, grade)
  {
  }

  /** A stored grade is served by getGrade to every student whose userName it
      names. */
  lemma SubmittedGradeIsServed(db: Snapshot, grade: Grade, testID: string, removeAccepted: bool, i: nat)
    requires db.Valid() && i < |db.students| && grade.studentAnswerSheet.testID == testID
    requires db.students[i].account.userName == grade.studentAnswerSheet.student.userName
    ensures GetGradeReply(db.AfterAddGrade(grade, testID, true, removeAccepted), db.students[i].oid, testID).Reply?
    ensures GetGradeReply(db.AfterAddGrade(grade, testID, true, removeAccepted), db.students[i].oid, testID).status == StatusOK
    ensures !db.HasGrade(grade.studentAnswerSheet.student.userName, testID) ==>
              GetGradeReply(db.AfterAddGrade(grade, testID, true, removeAccepted), db.students[i].oid, testID)
              == Reply(StatusOK, "", Rendered(grade.fields))
  {
    var after := db.AfterAddGrade(grade, testID, true, removeAccepted);
    var id := db.students[i].oid;
    assert after.students == db.students;
    assert IdKey(db.students[i]) == HexLower(id);
    SelectOnly(db.students, IdKey, HexLower(id), i);
    assert StudentUser(after, id) == grade.studentAnswerSheet.student.userName;
    GradeIsStored(db, grade, testID, removeAccepted);
    if !db.HasGrade(grade.studentAnswerSheet.student.userName, testID) {
      FirstGradeIsWhole(db, grade, testID, removeAccepted);
    }
  }

  /** The first grade stored for a student and a test is all that GetGrade
      then finds for them. */
  lemma FirstGradeIsWhole(db: Snapshot, grade: Grade, testID: string, removeAccepted: bool)
    requires grade.studentAnswerSheet.testID == testID
    requires !db.HasGrade(grade.studentAnswerSheet.student.userName, testID)
    ensures db.AfterAddGrade(grade, testID, true, removeAccepted).GetGrade(grade.studentAnswerSheet.student.userName, testID)
            == Rendered(grade.fields)
  {
    var after := db.AfterAddGrade(grade, testID, true, removeAccepted);
    var key := (testID, grade.studentAnswerSheet.student.userName);
    var before := db.GradesFor(testID);
    assert after.testList == db.testList;
    assert after.GradesFor(testID) == before + [grade];
    assert Select(before, GradeKey, key) == [] by {
      forall j | 0 <= j < |before|
        ensures GradeKey(before[j]) != key
      {
        assert before[j] in before;
      }
    }
    SelectAppend(before, grade, GradeKey, key);
    assert Texts([grade], GradeFields) == [Rendered(grade.fields)];
  }
}
