/** Sequences of requests against one store, each starting from an empty
    database: what a client sees when it registers, submits and is graded. */
module Scenarios {
  import opened Wrappers
  import opened Database
  import opened Http
  import AccountsApi
  import AnswerSheetApi
  import GradeApi

  const AnaID := "5b0e1f2a3c4d5e6f708192a3"
  const Ana := Credentials("ana", "x123")
  const AnaFields := "\"name\":\"Ana\""

  const MihaiID := "5b0e1f2a3c4d5e6f708192b4"
  const Mihai := Credentials("mihai", "m-pass")

  const Test := "T-000007"

  const AnaBody := AccountBody(Ana, 9, "A", AnaFields)

  /** The store once Ana has registered. */
  const Registered := Snapshot([NewAccount(AnaBody, AnaID)], [], [], map[], map[], [], [])

  /** Ana registers; the reply carries her new id, her credentials resolve to
      it, and her id serves her document. A wrong password is answered 200
      with the body notFound by the lookup as written, and 404 by the
      corrected one. */
  method RegisterThenSignIn() returns (registered: Reply, found: Reply, wrongPasswordAsWritten: Reply,
                                       wrongPassword: Reply, served: Reply)
    ensures registered == Reply(StatusOK, "", AnaID)
    ensures found == Reply(StatusOK, TextType, AnaID)
    ensures wrongPasswordAsWritten == Reply(StatusOK, TextType, NotFound)
    ensures wrongPassword == Reply(StatusNotFound, "", "404 student not found")
    ensures served == Reply(StatusOK, JsonType, Rendered(AnaFields))
  {
    var store := new Store(map[]);
    var w := new Response();
    AnaRegisters();
    AccountsApi.Register(store, w, AccountsApi.Student, SchemaValid, AnaBody, AnaID, true);
    registered := w.Sent();
    RegisteredFacts();
    WrongPasswordAsWritten();
    found := AccountsApi.FindIDReply(store.View(), AccountsApi.Student, Ana);
    wrongPasswordAsWritten := AccountsApi.FindIDReplyAsWritten(store.View(), AccountsApi.Student, Credentials("ana", "wrong"));
    wrongPassword := AccountsApi.FindIDReply(store.View(), AccountsApi.Student, Credentials("ana", "wrong"));
    served := AccountsApi.GetAccountReply(store.View(), AccountsApi.Student, AnaID, JsonType);
  }

  lemma AnaRegisters()
    ensures AccountsApi.AfterRegisterAs(Snapshot([], [], [], map[], map[], [], []), AccountsApi.Student, AnaBody, AnaID, true) == Registered
  {
  }

  lemma RegisteredFacts()
    ensures AccountsApi.FoundID(Registered, AccountsApi.Student, Ana) == AnaID
    ensures AccountsApi.FindIDReply(Registered, AccountsApi.Student, Ana) == Reply(StatusOK, TextType, AnaID)
    ensures AccountsApi.FindIDReply(Registered, AccountsApi.Student, Credentials("ana", "wrong"))
            == Reply(StatusNotFound, "", "404 student not found")
    ensures AccountsApi.GetAccountReply(Registered, AccountsApi.Student, AnaID, JsonType) == Reply(StatusOK, JsonType, Rendered(AnaFields))
  {
    assert IsObjectIdHex(AnaID);
    assert Select(Registered.students, AccountCredentials, Ana) == Registered.students;
    AccountsApi.StoredAccountIsServed(Registered, AccountsApi.Student, 0, JsonType);
  }

  /** The lookup as written answers a wrong password with 200 notFound. */
  lemma WrongPasswordAsWritten()
    ensures AccountsApi.FindIDReplyAsWritten(Registered, AccountsApi.Student, Credentials("ana", "wrong"))
            == Reply(StatusOK, TextType, NotFound)
  {
    AnaIdWellFormed();
    assert Registered.Valid();
    assert Select(Registered.students, AccountCredentials, Credentials("ana", "wrong")) == [];
  }

  /** A registration whose body fails the schema: as written the client is
      told 200, as intended 400; neither stores anything. */
  method InvalidRegistration() returns (asWritten: Reply, corrected: Reply, accounts: nat)
    ensures asWritten == Reply(StatusOK, "", "Sent student JSON not valid! Reevaluate")
    ensures corrected == Reply(StatusBadRequest, "", "Sent student JSON not valid! Reevaluate")
    ensures accounts == 0
  {
    var store := new Store(map[]);
    var w := new Response();
    AccountsApi.Register(store, w, AccountsApi.Student, SchemaInvalid, AnaBody, AnaID, true);
    asWritten := w.Sent();
    var w2 := new Response();
    AccountsApi.RegisterCorrected(store, w2, AccountsApi.Student, SchemaInvalid, AnaBody, AnaID, true);
    corrected := w2.Sent();
    accounts := |store.students|;
  }

  const SheetText := "\"answers\":[\"b\",\"c\"]"
  const GradeText := "\"grade\":9"

  const Sheet := AnswerSheet(Ana, Test, Ana, SheetText)
  const MihaisGrade := Grade(Mihai, Sheet, Test, GradeText)

  /** Ana enrolled as a student, Mihai as a teacher, and the test listed as
      a Math test. */
  const Enrolled := Snapshot([NewAccount(AnaBody, AnaID)],
                             [NewAccount(AccountBody(Mihai, 0, "", ""), MihaiID)],
                             [], map[], map[Test := "Math"], [], [])

  lemma EnrolledFacts()
    ensures Enrolled.Valid() && Enrolled.UniqueAnswerSheets() && Enrolled.UniqueGrades()
    ensures Enrolled.FindStudentID(Ana, Complete) == AnaID
    ensures Enrolled.FindTeacherID(Mihai, Complete) == MihaiID
    ensures AnswerSheetApi.MatchesTestID(Test)
  {
    EnrolledIsValid();
    AnaResolves();
    MihaiResolves();
    TestIdMatches();
  }

  lemma IdsWellFormed()
    ensures IsObjectIdHex(AnaID) && IsObjectIdHex(MihaiID)
  {
    AnaIdWellFormed();
    MihaiIdWellFormed();
  }

  lemma AnaIdWellFormed()
    ensures IsObjectIdHex(AnaID)
  {
  }

  lemma MihaiIdWellFormed()
    ensures IsObjectIdHex(MihaiID)
  {
  }

  lemma EnrolledIsValid()
    ensures Enrolled.Valid() && Enrolled.UniqueAnswerSheets() && Enrolled.UniqueGrades()
  {
    IdsWellFormed();
  }

  lemma TestIdMatches()
    ensures AnswerSheetApi.MatchesTestID(Test)
  {
    assert AnswerSheetApi.TestIDAt(Test, 0);
  }

  lemma AnaResolves()
    ensures Enrolled.FindStudentID(Ana, Complete) == AnaID
  {
    assert Select(Enrolled.students, AccountCredentials, Ana) == Enrolled.students;
  }

  lemma MihaiResolves()
    ensures Enrolled.FindTeacherID(Mihai, Complete) == MihaiID
  {
    assert Select(Enrolled.teachers, AccountCredentials, Mihai) == Enrolled.teachers;
  }

  lemma SheetAccepted()
    ensures AnswerSheetApi.SubmitAnswerSheetRejection(Enrolled, BasicAuth(Ana), Test, SchemaValid, Sheet).None?
  {
    EnrolledFacts();
    assert !Enrolled.HasAnswerSheet(Ana, Test);
  }

  lemma GradeAccepted()
    ensures GradeApi.SubmitGradeRejection(Enrolled.AfterAddAnswerSheet(Sheet, true), BasicAuth(Mihai), Test, SchemaValid, MihaisGrade).None?
  {
    EnrolledFacts();
    var db := Enrolled.AfterAddAnswerSheet(Sheet, true);
    assert db.teachers == Enrolled.teachers && db.grades == map[] && db.testList == Enrolled.testList;
    assert db.FindTeacherID(Mihai, Complete) == MihaiID;
    assert !db.HasGrade("ana", Test);
  }

  method EnrolledStore() returns (store: Store)
    ensures fresh(store) && store.View() == Enrolled
  {
    store := new Store(map[Test := "Math"]);
    store.RegisterStudent(AnaBody, AnaID, true);
    store.RegisterTeacher(AccountBody(Mihai, 0, "", ""), MihaiID, true);
  }

  /** Ana submits her sheet twice: the first is stored, the second is refused
      with 208, and the sheet is served. */
  method SubmitTwice() returns (first: Reply, second: Reply, served: Reply)
    ensures first == Reply(StatusOK, "", AnswerSheetApi.SheetAdded)
    ensures second == Reply(StatusAlreadyReported, "", AnswerSheetApi.SheetResubmitted)
    ensures served == Reply(StatusOK, JsonType, Rendered(SheetText))
  {
    var store := EnrolledStore();
    SheetAccepted();
    EnrolledFacts();
    var w1 := new Response();
    AnswerSheetApi.SubmitAnswerSheet(store, w1, BasicAuth(Ana), Test, SchemaValid, Sheet, true);
    first := w1.Sent();
    AnswerSheetApi.ResubmissionIsAlreadyReported(Enrolled, BasicAuth(Ana), Test, Sheet);
    var w2 := new Response();
    AnswerSheetApi.SubmitAnswerSheet(store, w2, BasicAuth(Ana), Test, SchemaValid, Sheet, true);
    second := w2.Sent();
    AnswerSheetApi.SubmittedSheetIsServed(Enrolled, BasicAuth(Ana), Sheet, 0);
    served := AnswerSheetApi.GetAnswerSheetReply(store.View(), AnaID, Test);
  }

  /** Mihai grades Ana's submitted sheet: the grade is stored and served, and
      the sheet is gone: getAnswerSheet as written answers 200 with the body
      notFound, the corrected one 404. */
  method GradeReplacesSheet() returns (graded: Reply, sheetAsWritten: Reply, sheet: Reply, grade: Reply)
    ensures graded == Reply(StatusOK, "", GradeApi.GradeAdded)
    ensures sheetAsWritten.Reply? && sheetAsWritten.status == StatusOK && sheetAsWritten.body == NotFound
    ensures sheet == Reply(StatusNotFound, TextType, AnswerSheetApi.SheetNotFound)
    ensures grade == Reply(StatusOK, "", Rendered(GradeText))
  {
    var store := EnrolledStore();
    SheetAccepted();
    var w1 := new Response();
    AnswerSheetApi.SubmitAnswerSheet(store, w1, BasicAuth(Ana), Test, SchemaValid, Sheet, true);
    GradeAccepted();
    var w2 := new Response();
    GradeApi.SubmitGrade(store, w2, BasicAuth(Mihai), Test, SchemaValid, MihaisGrade, true, true);
    graded := w2.Sent();
    GradedFacts();
    sheetAsWritten := AnswerSheetApi.GetAnswerSheetReplyAsWritten(store.View(), AnaID, Test);
    sheet := AnswerSheetApi.GetAnswerSheetReply(store.View(), AnaID, Test);
    grade := GradeApi.GetGradeReply(store.View(), AnaID, Test);
  }

  /** The store once Ana's sheet is submitted and Mihai's grade stored. */
  function Graded(): Snapshot {
    Enrolled.AfterAddAnswerSheet(Sheet, true).AfterAddGrade(MihaisGrade, Test, true, true)
  }

  lemma GradedFacts()
    ensures AnswerSheetApi.GetAnswerSheetReplyAsWritten(Graded(), AnaID, Test).Reply?
    ensures AnswerSheetApi.GetAnswerSheetReplyAsWritten(Graded(), AnaID, Test).status == StatusOK
    ensures AnswerSheetApi.GetAnswerSheetReplyAsWritten(Graded(), AnaID, Test).body == NotFound
    ensures AnswerSheetApi.GetAnswerSheetReply(Graded(), AnaID, Test) == Reply(StatusNotFound, TextType, AnswerSheetApi.SheetNotFound)
    ensures GradeApi.GetGradeReply(Graded(), AnaID, Test) == Reply(StatusOK, "", Rendered(GradeText))
  {
    SheetGoneAsWritten();
    SheetGone();
    GradeServed();
  }

  lemma SheetGoneAsWritten()
    ensures AnswerSheetApi.GetAnswerSheetReplyAsWritten(Graded(), AnaID, Test).Reply?
    ensures AnswerSheetApi.GetAnswerSheetReplyAsWritten(Graded(), AnaID, Test).status == StatusOK
    ensures AnswerSheetApi.GetAnswerSheetReplyAsWritten(Graded(), AnaID, Test).body == NotFound
  {
    SheetRemoved();
    TestIdMatches();
    AnaIdWellFormed();
  }

  lemma SheetGone()
    ensures AnswerSheetApi.GetAnswerSheetReply(Graded(), AnaID, Test) == Reply(StatusNotFound, TextType, AnswerSheetApi.SheetNotFound)
  {
    SheetRemoved();
    TestIdMatches();
    AnaIdWellFormed();
    assert HasId(Graded().students, AnaID) by {
      ObjectByIDOfStored(Enrolled.students, 0);
    }
  }

  lemma GradeServed()
    ensures GradeApi.GetGradeReply(Graded(), AnaID, Test) == Reply(StatusOK, "", Rendered(GradeText))
  {
    EnrolledIsValid();
    assert !Enrolled.AfterAddAnswerSheet(Sheet, true).HasGrade("ana", Test);
    GradeApi.SubmittedGradeIsServed(Enrolled.AfterAddAnswerSheet(Sheet, true), MihaisGrade, Test, true, 0);
  }

  /** Grading removed the sheet; Ana's id still names Ana. */
  lemma SheetRemoved()
    ensures !Graded().HasAnswerSheet(Ana, Test)
    ensures Graded().students == Enrolled.students
    ensures Graded().StudentCredentialsByID(AnaID) == Ana
  {
    EnrolledIsValid();
    var submitted := Enrolled.AfterAddAnswerSheet(Sheet, true);
    AnswerSheetStoredOnce(Enrolled, Sheet, true);
    GradeReplacesAnswerSheet(submitted, MihaisGrade, Test, true);
    assert Graded().students == Enrolled.students;
    ObjectByIDOfStored(Enrolled.students, 0);
    assert Select(Enrolled.students, IdKey, HexLower(AnaID)) == Enrolled.students;
  }
}
