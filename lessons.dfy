/** APILessons.go: listing the lessons of a subject and grade (listLessons),
    downloading one lesson (getLesson) and a teacher's upload (uploadLesson).
    Both grade-taking handlers parse the grade route variable with
    strconv.Atoi and accept only 9 to 12. */
module LessonsApi {
  import opened Wrappers
  import opened Strings
  import opened Database
  import opened Http

  const InvalidGrade := "Invalid grade! Must be between 9-12!"
  const LessonsNotFound := "404 lessons not found"
  const LessonNotFound := "404 lesson not found!"
  const MalformedScheme := "Malformed authentication scheme!"
  const InvalidTeacher := "Invalid username and password!"
  const InvalidLesson := "Invalid Lesson object!"
  const LessonUploaded := "Lesson uploaded!"

  // ---------------------------------------------------------------------
  // strconv.Atoi
  // ---------------------------------------------------------------------

  /** The range of Go's int on the 64-bit platforms the server runs on. */
  const MinInt := -0x8000_0000_0000_0000
  const MaxInt := 0x7fff_ffff_ffff_ffff

  predicate AllDigits(s: string) {
    forall i :: 0 <= i < |s| ==> IsDigit(s[i])
  }

  function DigitValue(ch: char): int
    requires IsDigit(ch)
  {
    ch as int - '0' as int
  }

  /** The number a string of decimal digits spells, most significant first. */
  function DigitsValue(s: string): nat
    requires AllDigits(s)
  {
    if s == [] then 0 else DigitsValue(s[..|s| - 1]) * 10 + DigitValue(s[|s| - 1])
  }

  /** strconv.Atoi: an optional sign followed by at least one decimal digit,
      whose value lies in int's range; None for a syntax or a range error.
      No spaces, underscores or base prefixes are allowed. */
  function Atoi(s: string): (r: Option<int>)
    ensures r.Some? ==> MinInt <= r.value <= MaxInt
    ensures r.Some? ==> s != [] && (IsDigit(s[0]) || s[0] == '+' || s[0] == '-')
  {
    var signed := |s| > 0 && (s[0] == '+' || s[0] == '-');
    var digits := if signed then s[1..] else s;
    if digits == [] || !AllDigits(digits) then None
    else
      var v: int := if signed && s[0] == '-' then -(DigitsValue(digits) as int) else DigitsValue(digits);
      if MinInt <= v <= MaxInt then Some(v) else None
  }

  /** strconv.Itoa for the naturals: the shortest decimal spelling. */
  function Decimal(n: nat): (s: string)
    ensures s != [] && AllDigits(s)
  {
    if n < 10 then ['0' + n as char] else Decimal(n / 10) + ['0' + (n % 10) as char]
  }

  lemma {:induction false} DecimalValue(n: nat)
    ensures DigitsValue(Decimal(n)) == n
  {
    var s := Decimal(n);
    if n < 10 {
      assert s[..|s| - 1] == [];
    } else {
      assert s[..|s| - 1] == Decimal(n / 10);
      DecimalValue(n / 10);
    }
  }

  /** Atoi reads back what Itoa writes, for every non-negative int. */
  lemma AtoiOfDecimal(n: nat)
    requires n <= MaxInt
    ensures Atoi(Decimal(n)) == Some(n)
  {
    DecimalValue(n);
  }

  lemma AtoiExamples()
    ensures Atoi("12") == Some(12) && Atoi("-7") == Some(-7) && Atoi("+0009") == Some(9)
    ensures Atoi("") == None && Atoi("+") == None && Atoi(" 9") == None && Atoi("9a") == None && Atoi("1_0") == None
  {
    assert "12"[..1] == "1" && "1"[..0] == [];
    assert "7"[..0] == [];
    assert "0009"[..3] == "000" && "0"[..0] == [];
    assert "-7"[1..] == "7";
    assert "+0009"[1..] == "0009";
    assert "0009"[..3] == "000" && "000"[..2] == "00" && "00"[..1] == "0";
    assert !IsDigit("9a"[1]);
    assert !IsDigit(" 9"[0]);
    assert !IsDigit("1_0"[1]);
  }

  // ---------------------------------------------------------------------
  // The grade check
  // ---------------------------------------------------------------------

  /** The grade check of listLessons and uploadLesson: Atoi succeeds and the
      grade lies in 9..12. */
  predicate GradeAccepted(gradeText: string) {
    var g := Atoi(gradeText);
    g.Some? && 9 <= g.value <= 12
  }

  /** The four grades as written without sign or leading zeros. */
  predicate IsGradeText(t: string) {
    t == "9" || t == "10" || t == "11" || t == "12"
  }

  /** The text without one leading plus sign. */
  function Unsigned(s: string): string {
    if |s| > 0 && s[0] == '+' then s[1..] else s
  }

  /** The accepted grade texts are exactly the four grades, each preceded by
      an optional plus sign and any number of zeros. */
  lemma GradeAcceptedIff(s: string)
    ensures GradeAccepted(s) <==> IsGradeText(TrimLeft(Unsigned(s), '0'))
  {
    if |s| > 0 && s[0] == '-' {
      assert TrimLeft(s, '0') == s;
      NegativeRefused(s);
    } else {
      UnsignedGrade(s);
      DigitsGradeIff(Unsigned(s));
    }
  }

  /** A text with a minus sign is never a grade. */
  lemma NegativeRefused(s: string)
    requires |s| > 0 && s[0] == '-'
    ensures !GradeAccepted(s) && !IsGradeText(s)
  {
    if Atoi(s).Some? {
      assert Atoi(s).value == -(DigitsValue(s[1..]) as int);
    }
  }

  /** Without a minus sign, Atoi accepts a grade exactly when the unsigned text
      is a digit string worth 9..12. */
  lemma UnsignedGrade(s: string)
    requires !(|s| > 0 && s[0] == '-')
    ensures GradeAccepted(s) <==> (Unsigned(s) != [] && AllDigits(Unsigned(s)) && 9 <= DigitsValue(Unsigned(s)) <= 12)
  {
  }

  /** For an unsigned text: it is a non-empty digit string worth 9..12 exactly
      when it is one of the four grades after its leading zeros. */
  lemma DigitsGradeIff(d: string)
    ensures (d != [] && AllDigits(d) && 9 <= DigitsValue(d) <= 12) <==> IsGradeText(TrimLeft(d, '0'))
  {
    var t := TrimLeft(d, '0');
    var k := |d| - |t|;
    TrimLeftSplits(d, '0');
    if IsGradeText(t) {
      GradeTextValue(t);
      LeadingZerosValue(k, t);
    } else if d != [] && AllDigits(d) && 9 <= DigitsValue(d) <= 12 {
      DigitsSuffix(d, k);
      LeadingZerosValue(k, t);
      SmallValueSpelling(t);
    }
  }

  /** Every suffix of a digit string is a digit string. */
  lemma DigitsSuffix(d: string, k: nat)
    requires AllDigits(d) && k <= |d|
    ensures AllDigits(d[k..])
  {
    forall i | 0 <= i < |d| - k
      ensures IsDigit(d[k..][i])
    {
      assert d[k..][i] == d[k + i];
    }
  }

  lemma GradeTextValue(t: string)
    requires IsGradeText(t)
    ensures t != [] && AllDigits(t) && 9 <= DigitsValue(t) <= 12
  {
    if t == "9" {
      assert t[..0] == [];
    } else {
      assert t[..1] == "1" && t[..1][..0] == [];
      assert DigitsValue(t[..1]) == 1;
      assert DigitValue(t[1]) in {0, 1, 2};
    }
  }

  /** Leading zeros do not change the value. */
  lemma {:induction false} LeadingZerosValue(k: nat, t: string)
    requires AllDigits(t)
    ensures AllDigits(Repeat('0', k) + t)
    ensures DigitsValue(Repeat('0', k) + t) == DigitsValue(t)
  {
    var d := Repeat('0', k) + t;
    if t == [] {
      ZerosValue(k);
      assert d == Repeat('0', k);
    } else {
      LeadingZerosValue(k, t[..|t| - 1]);
      assert d[..|d| - 1] == Repeat('0', k) + t[..|t| - 1];
      assert d[|d| - 1] == t[|t| - 1];
    }
  }

  lemma {:induction false} ZerosValue(k: nat)
    ensures AllDigits(Repeat('0', k))
    ensures DigitsValue(Repeat('0', k)) == 0
  {
    if k > 0 {
      var z := Repeat('0', k);
      assert z[..k - 1] == Repeat('0', k - 1);
      ZerosValue(k - 1);
    }
  }

  /** A digit string that starts with a non-zero digit is worth at least 1. */
  lemma {:induction false} LeadingDigitPositive(t: string)
    requires t != [] && AllDigits(t) && t[0] != '0'
    ensures DigitsValue(t) >= 1
  {
    if |t| > 1 {
      assert t[..|t| - 1][0] == t[0];
      LeadingDigitPositive(t[..|t| - 1]);
    } else {
      assert t[..|t| - 1] == [];
    }
  }

  /** A digit string without leading zeros worth 9..12 is one of the four grades. */
  lemma SmallValueSpelling(t: string)
    requires t != [] && AllDigits(t) && t[0] != '0'
    requires 9 <= DigitsValue(t) <= 12
    ensures IsGradeText(t)
  {
    var p := t[..|t| - 1];
    if |t| >= 3 {
      assert p[..|p| - 1][0] == t[0];
      LeadingDigitPositive(p[..|p| - 1]);
      assert false;
    } else if |t| == 2 {
      assert p == [t[0]];
      assert p[..0] == [];
      assert t == [t[0], t[1]];
    } else {
      assert p == [];
      assert t == [t[0]];
    }
  }

  /** Texts that pass the grade check, and near misses that do not. */
  lemma GradeExamples()
    ensures GradeAccepted("9") && GradeAccepted("+10") && GradeAccepted("0012")
    ensures !GradeAccepted("8") && !GradeAccepted("13") && !GradeAccepted("-9") && !GradeAccepted("")
  {
    assert "9"[..0] == [];
    assert "+10"[1..] == "10" && "10"[..1] == "1" && "1"[..0] == [];
    assert "0012"[..3] == "001" && "001"[..2] == "00" && "00"[..1] == "0" && "0"[..0] == [];
    assert "8"[..0] == [];
    assert "13"[..1] == "1";
    assert "-9"[1..] == "9";
  }

  // ---------------------------------------------------------------------
  // The read handlers
  // ---------------------------------------------------------------------

  /** listLessons: 400 for a grade outside 9..12 whatever the store holds;
      otherwise the list of the subject and grade, or 404. */
  function ListLessonsReply(catalog: Catalog, subject: string, gradeText: string): (r: Reply)
    ensures !GradeAccepted(gradeText) ==> r == Reply(StatusBadRequest, "", InvalidGrade)
    ensures GradeAccepted(gradeText) ==>
              (r == Reply(StatusNotFound, "", LessonsNotFound) <==> catalog.listLessons(subject, Atoi(gradeText).value) == NotFound)
    ensures r.Reply? && r.contentType == "" && r.status in {StatusOK, StatusBadRequest, StatusNotFound}
    ensures r.status == StatusOK ==>
              GradeAccepted(gradeText) && r.body == catalog.listLessons(subject, Atoi(gradeText).value) && r.body != NotFound
  {
    var grade := Atoi(gradeText);
    if grade.None? || grade.value < 9 || grade.value > 12 then Reply(StatusBadRequest, "", InvalidGrade)
    else
      var lessonList := catalog.listLessons(subject, grade.value);
      if lessonList == NotFound then Reply(StatusNotFound, "", LessonsNotFound) else Reply(StatusOK, "", lessonList)
  }

  /** Two accepted spellings of the same grade (such as "+010" and "10")
      parse to the same grade, so listLessons and uploadLesson treat them
      alike. */
  lemma SameSpellingSameGrade(a: string, b: string)
    requires GradeAccepted(a) && GradeAccepted(b)
    requires TrimLeft(Unsigned(a), '0') == TrimLeft(Unsigned(b), '0')
    ensures Atoi(a) == Atoi(b)
  {
    SpelledGrade(a);
    SpelledGrade(b);
  }

  /** The grade an accepted text stands for is the one its digits spell. */
  lemma SpelledGrade(s: string)
    requires GradeAccepted(s)
    ensures var t := TrimLeft(Unsigned(s), '0');
            IsGradeText(t) && AllDigits(t) && Atoi(s).value == DigitsValue(t)
  {
    GradeAcceptedIff(s);
    var d := Unsigned(s);
    var t := TrimLeft(d, '0');
    GradeTextValue(t);
    assert d == Repeat('0', |d| - |t|) + t;
    LeadingZerosValue(|d| - |t|, t);
    assert Atoi(s).value == DigitsValue(d);
  }

  /** getLesson: the lesson, or 404. */
  function GetLessonReply(catalog: Catalog, course: string, lessonID: string): (r: Reply)
    ensures r.Reply? && r.contentType == ""
    ensures r.status == StatusNotFound <==> catalog.getLesson(course, lessonID) == NotFound
    ensures r.status != StatusNotFound ==> r == Reply(StatusOK, "", catalog.getLesson(course, lessonID))
    ensures r.status == StatusNotFound ==> r.body == LessonNotFound
  {
    var lesson := catalog.getLesson(course, lessonID);
    if lesson == NotFound then Reply(StatusNotFound, "", LessonNotFound) else Reply(StatusOK, "", lesson)
  }

  // ---------------------------------------------------------------------
  // uploadLesson
  // ---------------------------------------------------------------------

  /** The reply with which a guard of uploadLesson stops the request, in guard
      order; None when the lesson is stored. Unlike the other uploads, a
      validator error is answered with 400 rather than a panic. */
  function UploadLessonRejection(db: Snapshot, auth: Authorization, gradeText: string, validation: Validation): (r: Option<Reply>)
    ensures r.None? <==>
              GradeAccepted(gradeText) && auth.BasicAuth? && db.FindTeacherID(auth.credentials, Complete) != NotFound
              && validation == SchemaValid
    ensures !GradeAccepted(gradeText) ==> r == Some(Reply(StatusBadRequest, "", InvalidGrade))
    ensures GradeAccepted(gradeText) && !auth.BasicAuth? ==> r == Some(Reply(StatusUnauthorized, "", MalformedScheme))
    ensures r.Some? ==> r.value.Reply?
    ensures r.Some? && r.value.status == StatusOK ==> validation == SchemaInvalid && r.value.body == ""
  {
    if !GradeAccepted(gradeText) then Some(Reply(StatusBadRequest, "", InvalidGrade))
    else TeacherUploadRejection(db, auth, validation)
  }

  /** The guards of uploadLesson after the grade check. */
  function TeacherUploadRejection(db: Snapshot, auth: Authorization, validation: Validation): (r: Option<Reply>)
    ensures r.None? <==> auth.BasicAuth? && db.FindTeacherID(auth.credentials, Complete) != NotFound && validation == SchemaValid
    ensures !auth.BasicAuth? ==> r == Some(Reply(StatusUnauthorized, "", MalformedScheme))
    ensures r.Some? ==> r.value.Reply?
    ensures r.Some? && r.value.status == StatusOK ==> validation == SchemaInvalid && r.value.body == ""
  {
    if !auth.BasicAuth? then Some(Reply(StatusUnauthorized, "", MalformedScheme))
    else if db.FindTeacherID(auth.credentials, Complete) == NotFound then Some(Reply(StatusUnauthorized, "", InvalidTeacher))
    else
      match validation
      case SchemaError => Some(Reply(StatusBadRequest, "", InvalidLesson))
      case SchemaInvalid => Some(Reply(StatusOK, "", ""))
      case SchemaValid => None
  }

  /** uploadLesson. `course` is the course route variable, "" when the route
      has none; `body` is the request body as read. */
  method UploadLesson(store: Store, w: Response, auth: Authorization, course: string, gradeText: string,
                      validation: Validation, body: string)
    requires w.Pristine()
    modifies store, w
    ensures var rejection := UploadLessonRejection(old(store.View()), auth, gradeText, validation);
            if rejection.Some? then w.Sent() == rejection.value && store.View() == old(store.View())
            else w.Sent() == Reply(StatusOK, "", LessonUploaded)
                 && store.View() == old(store.View()).(lessonWrites := old(store.View().lessonWrites) + [LessonAdded(course, Atoi(gradeText).value, body)])
  {
    var grade := Atoi(gradeText);
    if grade.None? || grade.value < 9 || grade.value > 12 {
      w.WriteHeader(StatusBadRequest);
      w.Print(InvalidGrade);
      return;
    }
    if !auth.BasicAuth? {
      w.WriteHeader(StatusUnauthorized);
      w.Print(MalformedScheme);
      return;
    }
    var credentials := HeaderCredentials(auth);
    var teacherID := store.View().FindTeacherID(credentials, Complete);
    if teacherID == NotFound {
      w.WriteHeader(StatusUnauthorized);
      w.Print(InvalidTeacher);
      return;
    }
    match validation {
      case SchemaError =>
        w.WriteHeader(StatusBadRequest);
        w.Print(InvalidLesson);
      case SchemaInvalid =>
      case SchemaValid =>
        store.AddLesson(course, grade.value, body);
        w.Print(LessonUploaded);
    }
  }

  /** Every stored lesson is filed under a grade from 9 to 12. */
  lemma UploadedLessonGrade(db: Snapshot, auth: Authorization, gradeText: string, validation: Validation)
    requires UploadLessonRejection(db, auth, gradeText, validation).None?
    ensures 9 <= Atoi(gradeText).value <= 12
    ensures IsGradeText(TrimLeft(Unsigned(gradeText), '0'))
  {
    GradeAcceptedIff(gradeText);
  }
}
