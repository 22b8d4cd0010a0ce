/** APIAnswerSheetData.go: serving a stored answer sheet (getAnswerSheet) and
    the guard pipeline of a sheet submission (submitAnswerSheet). */
module AnswerSheetApi {
  import opened Wrappers
  import opened Strings
  import opened Database
  import opened Http

  // ---------------------------------------------------------------------
  // The test-ID pattern T-([0123456789])\w+
  // ---------------------------------------------------------------------

  /** RE2's \w: the ASCII letters, the digits and the underscore. */
  predicate IsWordChar(ch: char) {
    IsDigit(ch) || 'a' <= ch <= 'z' || 'A' <= ch <= 'Z' || ch == '_'
  }

  /** The pattern has a match starting at index i: "T-", one digit, and at
      least one word character (the greedy \w+ needs only one). */
  predicate TestIDAt(s: string, i: int) {
    0 <= i && i + 4 <= |s| && s[i] == 'T' && s[i + 1] == '-' && IsDigit(s[i + 2]) && IsWordChar(s[i + 3])
  }

  /** regexp.Match: the search is not anchored and tries every start
      position from the left. */
  predicate MatchesTestID(s: string)
    decreases |s|
  {
    |s| >= 4 && (TestIDAt(s, 0) || MatchesTestID(s[1..]))
  }

  /** The search succeeds exactly when the pattern occurs somewhere. */
  lemma {:induction false} MatchesTestIDIff(s: string)
    ensures MatchesTestID(s) <==> exists i :: TestIDAt(s, i)
  {
    if |s| < 4 {
      assert forall i :: !TestIDAt(s, i);
    } else if TestIDAt(s, 0) {
    } else {
      MatchesTestIDIff(s[1..]);
      forall i | TestIDAt(s[1..], i)
        ensures TestIDAt(s, i + 1)
      {
      }
      forall i | TestIDAt(s, i)
        ensures TestIDAt(s[1..], i - 1)
      {
        assert i != 0;
      }
    }
  }

  /** Anything around the pattern is allowed; the digit and one word
      character after it are not optional. */
  lemma TestIDExamples()
    ensures MatchesTestID("T-1a") && MatchesTestID("T-0001") && MatchesTestID("xT-2_")
    ensures !MatchesTestID("T-1") && !MatchesTestID("T-a1") && !MatchesTestID("t-12") && !MatchesTestID("T-1-")
  {
    assert TestIDAt("xT-2_", 1);
    MatchesTestIDIff("xT-2_");
  }

  // ---------------------------------------------------------------------
  // getAnswerSheet
  // ---------------------------------------------------------------------

  const TestIdInvalid := "Test ID invalid!"
  const StudentIdInvalid := "Student ID invalid!"
  const SheetNotFound := "404 answer sheet not found"

  /** The decisions of getAnswerSheet, with the text that the student and
      sheet lookups are compared against to detect "not found". The content
      type application/json is set before the sheet check; the 404 branch
      replaces it with text/plain before writing the status. */
  function AnswerSheetReply(db: Snapshot, studentID: string, testID: string, sentinel: string): Reply {
    if !MatchesTestID(testID) then Reply(StatusBadRequest, "", TestIdInvalid)
    else
      match db.StudentObjectByID(studentID)
      case Panic => Aborted
      case Value(student) =>
        if student == sentinel then Reply(StatusBadRequest, "", StudentIdInvalid)
        else
          var sheet := db.GetAnswerSheet(db.StudentCredentialsByID(studentID), testID);
          if sheet == sentinel then Reply(StatusNotFound, TextType, SheetNotFound)
          else Reply(StatusOK, JsonType, sheet)
  }

  /** getAnswerSheet as written compares both lookups with the null text,
      which the helpers never return: a well-formed request is always
      answered 200, and a missing sheet is served as the body "notFound". */
  function GetAnswerSheetReplyAsWritten(db: Snapshot, studentID: string, testID: string): (r: Reply)
    ensures !MatchesTestID(testID) ==> r == Reply(StatusBadRequest, "", TestIdInvalid)
    ensures MatchesTestID(testID) && !IsObjectIdHex(studentID) ==> r == Aborted
    ensures MatchesTestID(testID) && IsObjectIdHex(studentID) ==> r.Reply? && r.status == StatusOK
    ensures (MatchesTestID(testID) && IsObjectIdHex(studentID)
             && !db.HasAnswerSheet(db.StudentCredentialsByID(studentID), testID)) ==> r.body == NotFound
  {
    AnswerSheetReply(db, studentID, testID, NullText)
  }

  /** getAnswerSheet as evidently intended: an unknown student is 400, a
      missing sheet 404, otherwise the sheet is served as JSON. */
  function GetAnswerSheetReply(db: Snapshot, studentID: string, testID: string): (r: Reply)
    ensures !MatchesTestID(testID) ==> r == Reply(StatusBadRequest, "", TestIdInvalid)
    ensures MatchesTestID(testID) && !IsObjectIdHex(studentID) ==> r == Aborted
    ensures MatchesTestID(testID) && IsObjectIdHex(studentID) ==>
              (r == Reply(StatusBadRequest, "", StudentIdInvalid) <==> !HasId(db.students, studentID))
    ensures MatchesTestID(testID) && IsObjectIdHex(studentID) && HasId(db.students, studentID) ==>
              ((r == Reply(StatusNotFound, TextType, SheetNotFound))
               <==> !db.HasAnswerSheet(db.StudentCredentialsByID(studentID), testID))
    ensures r.Reply? && r.status == StatusOK ==> r.contentType == JsonType && r.body != NotFound
  {
    AnswerSheetReply(db, studentID, testID, NotFound)
  }

  /** The intended handler serves a stored sheet to its student: one of the
      student's answer sheets, in a store holding one per key, comes back as
      exactly its document. */
  lemma StoredSheetIsServed(db: Snapshot, i: nat, sheet: AnswerSheet)
    requires db.Valid() && db.UniqueAnswerSheets() && i < |db.students|
    requires sheet in db.submittedAnswers && sheet.student == db.students[i].account
    requires MatchesTestID(sheet.testID)
    ensures GetAnswerSheetReply(db, db.students[i].oid, sheet.testID) == Reply(StatusOK, JsonType, Rendered(sheet.fields))
  {
    var id := db.students[i].oid;
    ObjectByIDOfStored(db.students, i);
    assert IdKey(db.students[i]) == HexLower(id);
    SelectOnly(db.students, IdKey, HexLower(id), i);
    assert db.StudentCredentialsByID(id) == sheet.student;
    var j :| 0 <= j < |db.submittedAnswers| && db.submittedAnswers[j] == sheet;
    SelectOnly(db.submittedAnswers, SheetKey, (sheet.testID, sheet.student), j);
    assert Texts([sheet], SheetFields) == [Rendered(sheet.fields)];
  }

  // ---------------------------------------------------------------------
  // submitAnswerSheet
  // ---------------------------------------------------------------------

  const ForeignSheet := "Malformed answer sheet! (can't upload answer sheet on someone else's behalf"
  const WrongTest := "Cannot submit answer sheet from another test to this one!"
  const SheetResubmitted := "Cannot submit an answer sheet after it has already been submitted!"
  const SheetAdded := "Answer sheet added! You can no longer add anything to this test!"

  /** Every guard of submitAnswerSheet passes: a Basic header whose
      credentials belong to a student, a schema-valid body whose top-level
      account belongs to the same student, the path's test, and no sheet yet
      for the embedded student and the test. */
  predicate SheetAcceptable(db: Snapshot, auth: Authorization, pathTestID: string, validation: Validation, sheet: AnswerSheet) {
    var studentID := db.FindStudentID(HeaderCredentials(auth), Complete);
    && auth.BasicAuth?
    && studentID != NotFound
    && validation == SchemaValid
    && db.FindStudentID(sheet.account, Complete) == studentID
    && sheet.testID == pathTestID
    && !db.HasAnswerSheet(sheet.student, sheet.testID)
  }

  /** The reply with which a guard of submitAnswerSheet stops the request, in
      guard order; None when the sheet is to be stored. */
  function SubmitAnswerSheetRejection(db: Snapshot, auth: Authorization, pathTestID: string, validation: Validation, sheet: AnswerSheet): (r: Option<Reply>)
    ensures r.None? <==> SheetAcceptable(db, auth, pathTestID, validation, sheet)
    ensures r.Some? && r.value.Reply? && r.value.status == StatusOK ==> validation == SchemaInvalid && r.value.body == ""
    ensures r == Some(Aborted) ==> validation == SchemaError
  {
    var studentID := db.FindStudentID(HeaderCredentials(auth), Complete);
    var checks := ChainedAuthChecks(auth.BasicAuth?, studentID != NotFound);
    if checks.Some? then checks else BodyRejection(db, studentID, pathTestID, validation, sheet)
  }

  /** The guards of submitAnswerSheet that read the body, for an
      authenticated student. */
  function BodyRejection(db: Snapshot, studentID: string, pathTestID: string, validation: Validation, sheet: AnswerSheet): Option<Reply> {
    match validation
    case SchemaError => Some(Aborted)
    case SchemaInvalid => Some(Reply(StatusOK, "", ""))
    case SchemaValid =>
      if db.FindStudentID(sheet.account, Complete) != studentID then Some(Reply(StatusUnauthorized, "", ForeignSheet))
      else if sheet.testID != pathTestID then Some(Reply(StatusBadRequest, "", WrongTest))
      else if db.GetAnswerSheet(sheet.student, sheet.testID) != NotFound then Some(Reply(StatusAlreadyReported, "", SheetResubmitted))
      else None
  }

  /** submitAnswerSheet. Both authentication checks run before either stops
      the request; a validator error leaves a nil result whose Valid() call
      panics; a schema-invalid body gets an empty 200. Only the path through
      every guard inserts the body, exactly once, and the store keeps at most
      one sheet per (test, student). */
  method SubmitAnswerSheet(store: Store, w: Response, auth: Authorization, pathTestID: string,
                           validation: Validation, sheet: AnswerSheet, accepted: bool)
    requires w.Pristine()
    modifies store, w
    ensures var rejection := SubmitAnswerSheetRejection(old(store.View()), auth, pathTestID, validation, sheet);
            if rejection.Some? then w.Sent() == rejection.value && store.View() == old(store.View())
            else w.Sent() == Reply(StatusOK, "", SheetAdded)
                 && store.View() == old(store.View()).AfterAddAnswerSheet(sheet, accepted)
    ensures old(store.View().UniqueAnswerSheets()) ==> store.View().UniqueAnswerSheets()
  {
    ghost var db := store.View();
    var credentials, authOK := HeaderCredentials(auth), auth.BasicAuth?;
    var responseCode := StatusOK;
    var studentID := store.View().FindStudentID(credentials, Complete);

    if !authOK {
      responseCode := StatusUnauthorized;
      w.WriteHeader(responseCode);
      w.Print(BadScheme);
    }
    if studentID == NotFound {
      responseCode := StatusUnauthorized;
      w.WriteHeader(responseCode);
      w.Print(BadCredentials);
    }
    assert store.View() == db;

    if responseCode == StatusOK {
      assert SubmitAnswerSheetRejection(db, auth, pathTestID, validation, sheet)
             == BodyRejection(db, studentID, pathTestID, validation, sheet);
      SheetBody(store, w, studentID, pathTestID, validation, sheet, accepted);
    } else {
      assert w.Sent() == ChainedAuthChecks(authOK, studentID != NotFound).value;
      assert SubmitAnswerSheetRejection(db, auth, pathTestID, validation, sheet) == Some(w.Sent());
    }
  }

  /** The block of submitAnswerSheet that runs for an authenticated student:
      the body guards in order, then the insert. */
  method SheetBody(store: Store, w: Response, studentID: string, pathTestID: string,
                   validation: Validation, sheet: AnswerSheet, accepted: bool)
    requires w.Pristine()
    modifies store, w
    ensures var rejection := BodyRejection(old(store.View()), studentID, pathTestID, validation, sheet);
            if rejection.Some? then w.Sent() == rejection.value && store.View() == old(store.View())
            else w.Sent() == Reply(StatusOK, "", SheetAdded)
                 && store.View() == old(store.View()).AfterAddAnswerSheet(sheet, accepted)
    ensures old(store.View().UniqueAnswerSheets()) ==> store.View().UniqueAnswerSheets()
  {
    ghost var db := store.View();
    var responseCode := StatusOK;
    match validation {
      case SchemaError =>
        w.Panic();
      case SchemaInvalid =>
      case SchemaValid =>
        var checkID := store.View().FindStudentID(sheet.account, Complete);
        if checkID != studentID {
          responseCode := StatusUnauthorized;
          w.WriteHeader(responseCode);
          w.Print(ForeignSheet);
          return;
        }
        if sheet.testID != pathTestID {
          responseCode := StatusBadRequest;
          w.WriteHeader(responseCode);
          w.Print(WrongTest);
          return;
        }
        if store.View().GetAnswerSheet(sheet.student, sheet.testID) != NotFound {
          responseCode := StatusAlreadyReported;
          w.WriteHeader(responseCode);
          w.Print(SheetResubmitted);
          return;
        }
        if db.UniqueAnswerSheets() {
          AnswerSheetStoredOnce(db, sheet, accepted);
        }
        store.AddAnswerSheet(sheet, accepted);
        w.Print(SheetAdded);
    }
  }

  /** Submitting the same sheet again, once the first submission was stored,
      is stopped by the duplicate check with 208. */
  lemma ResubmissionIsAlreadyReported(db: Snapshot, auth: Authorization, pathTestID: string, sheet: AnswerSheet)
    requires SubmitAnswerSheetRejection(db, auth, pathTestID, SchemaValid, sheet).None?
    ensures SubmitAnswerSheetRejection(db.AfterAddAnswerSheet(sheet, true), auth, pathTestID, SchemaValid, sheet)
            == Some(Reply(StatusAlreadyReported, "", SheetResubmitted))
  {
    var after := db.AfterAddAnswerSheet(sheet, true);
    assert after.students == db.students;
    assert sheet in after.submittedAnswers;
    assert after.HasAnswerSheet(sheet.student, sheet.testID);
  }

  /** A stored submission is visible to the intended getAnswerSheet of the
      submitting student. */
  lemma SubmittedSheetIsServed(db: Snapshot, auth: Authorization, sheet: AnswerSheet, i: nat)
    requires db.Valid() && db.UniqueAnswerSheets() && i < |db.students|
    requires SubmitAnswerSheetRejection(db, auth, sheet.testID, SchemaValid, sheet).None?
    requires sheet.student == db.students[i].account && MatchesTestID(sheet.testID)
    ensures GetAnswerSheetReply(db.AfterAddAnswerSheet(sheet, true), db.students[i].oid, sheet.testID)
            == Reply(StatusOK, JsonType, Rendered(sheet.fields))
  {
    var after := db.AfterAddAnswerSheet(sheet, true);
    AnswerSheetStoredOnce(db, sheet, true);
    assert after.students == db.students;
    assert sheet in after.submittedAnswers;
    StoredSheetIsServed(after, i, sheet);
  }
}
