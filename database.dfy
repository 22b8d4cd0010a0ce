/** The document store façade of databaseHandler.go.

    The MongoDB database is a set of collections: Students.Accounts,
    Teachers.Accounts, Students.SubmittedAnswers, one `{course}Edu.Grades`
    collection per course and the TestList collection that maps a test ID to
    its course. `Snapshot` is the value of all of them at one moment, with the
    read-only queries of the Go helpers as its member functions; `Store` is
    the mutable database that the write helpers insert into and remove from.

    A query returns its matching documents in insertion order. The Go helpers
    marshal that []bson.M back into JSON text and post-process the text
    (`Marshal`, `Unwrap`); the model keeps that text layer for the parts the
    handlers look at (the sentinel strings, the served document) and reads
    the projected fields of the first fetched document directly where the Go
    code runs jsonparser over the unwrapped text. */
module Database {
  import opened Wrappers
  import opened Strings

  /** The sentinel every helper returns when its query matched nothing. */
  const NotFound := "notFound"

  /** What bson.MarshalJSON writes for the nil []bson.M that Query.All leaves
      behind when nothing matched; the JSON encoder ends its output with a
      newline. */
  const NullText := "null\n"

  datatype Credentials = Credentials(userName: string, password: string)

  /** A document of Students.Accounts or Teachers.Accounts: the hex form of its
      store-generated ObjectId `_id`, the `account` credentials, the `grade`
      and `gradeLetter` of a student, and the remaining members as the driver
      renders them between the braces. */
  datatype Account = Account(oid: string, account: Credentials, grade: int, gradeLetter: string, fields: string)

  /** A registration body: an account before the store has given it an `_id`. */
  datatype AccountBody = AccountBody(account: Credentials, grade: int, gradeLetter: string, fields: string)

  /** An answer sheet as submitted and as stored: the top-level `account` of
      the submitter, the `testID`, the credentials inside the embedded
      `student` object (`student.account`), and the remaining members. */
  datatype AnswerSheet = AnswerSheet(account: Credentials, testID: string, student: Credentials, fields: string)

  /** A grade as submitted and as stored: the `teacher.account` credentials,
      the embedded `studentAnswerSheet`, the `answerKey.testID`, and the
      remaining members. */
  datatype Grade = Grade(teacher: Credentials, studentAnswerSheet: AnswerSheet, answerKeyTestID: string, fields: string)

  /** A call of the test store's AddTest or EditTest, whose bodies are not part
      of this model: the call is recorded with its arguments. */
  datatype TestWrite = TestAdded(subject: string, body: string, testID: string) | TestEdited(subject: string, body: string, testID: string)

  /** A call of the lesson store's AddLesson, recorded with its arguments. */
  datatype LessonWrite = LessonAdded(course: string, grade: int, body: string)

  /** How a Query.All call ended: it read every match, or the driver reported
      an error after `read` matches had been decoded into the result slice. */
  datatype QueryRun = Complete | FailedAfter(read: nat)

  /** The read helpers of the test and lesson store (GetTest, GetPlannedTests,
      GetTestQueue, ListLessons, GetLesson), whose bodies are not part of this
      model. Each is the text the helper returns for its arguments, the
      sentinel NotFound included. */
  datatype Catalog = Catalog(
    getTest: string -> string,
    plannedTests: string -> string,
    testQueue: (string, int, string) -> string,
    listLessons: (string, int) -> string,
    getLesson: (string, string) -> string)

  // ---------------------------------------------------------------------
  // The marshalled text of a query result and the helper that unwraps it
  // ---------------------------------------------------------------------

  /** The JSON text of a stored document. */
  function Rendered(fields: string): string {
    "{" + fields + "}"
  }

  predicate IsObjectText(d: string) {
    |d| > 0 && d[0] == '{'
  }

  /** bson.MarshalJSON of the documents a query fetched. */
  function Marshal(docs: seq<string>): string {
    if docs == [] then NullText else "[" + Join(docs, ",") + "]\n"
  }

  /** The post-processing that GetStudentObjectByID, GetTeacherObjectByID,
      GetAnswerSheet and GetGrade apply to the marshalled result: the null
      text becomes the sentinel; otherwise every leading and trailing '['
      is trimmed and the last two bytes are sliced off, which panics when
      fewer than two are left. */
  function Unwrap(text: string): Outcome<string> {
    if text == NullText then Value(NotFound)
    else
      var t := Trim(text, '[');
      if |t| < 2 then Panic else Value(t[..|t| - 2])
  }

  /** Unwrapping an array of any nesting depth k whose text d does not itself
      start with '[' gives back d: every opening bracket is trimmed, and the
      closing bracket goes with the newline. */
  lemma {:induction false} UnwrapArray(k: nat, d: string)
    requires k > 0 && (d == [] || d[0] != '[')
    ensures Unwrap(Repeat('[', k) + d + "]\n") == Value(d)
  {
    var text := Repeat('[', k) + d + "]\n";
    var u := d + "]\n";
    assert text != NullText by {
      assert text[0] == '[' != NullText[0];
    }
    assert text == Repeat('[', k) + u;
    TrimLeftPadded('[', k, u);
    assert u[|u| - 1] == '\n';
    assert TrimRight(u, '[') == u;
    assert u[..|u| - 2] == d;
  }

  /** The helper is not an inverse of nesting: a doubly nested array keeps one
      of its closing brackets. */
  lemma UnwrapNested(d: string)
    requires d == [] || d[0] != '['
    ensures Unwrap("[[" + d + "]]\n") == Value(d + "]")
  {
    assert "[[" + d + "]]\n" == Repeat('[', 2) + (d + "]") + "]\n";
    UnwrapArray(2, d + "]");
  }

  /** No two bytes of the text are both something other than '['. */
  predicate MostlyBrackets(text: string) {
    forall i, j :: 0 <= i < j < |text| ==> text[i] == '[' || text[j] == '['
  }

  /** The slice panics exactly on texts made of '[' around at most one other
      byte: those, and only those, leave fewer than two bytes once trimmed. */
  lemma ShortTextsPanic(text: string)
    ensures Unwrap(text) == Panic <==> MostlyBrackets(text)
  {
    if MostlyBrackets(text) {
      BracketsPanic(text);
    }
    if Unwrap(text) == Panic {
      PanicKeepsOneByte(text);
    }
  }

  lemma BracketsPanic(text: string)
    requires MostlyBrackets(text)
    ensures Unwrap(text) == Panic
  {
    ShortTrimPanics(text);
  }

  lemma PanicKeepsOneByte(text: string)
    requires Unwrap(text) == Panic
    ensures MostlyBrackets(text)
  {
    var l := TrimLeft(text, '[');
    var k := |text| - |l|;
    forall i, j | 0 <= i < j < |text|
      ensures text[i] == '[' || text[j] == '['
    {
      if i >= k && j >= k {
        assert text[j] == l[j - k];
      }
    }
  }

  /** The null text keeps all five bytes when trimmed, so a text that leaves
      fewer than two is not the null text and reaches the slice. */
  lemma ShortTrimPanics(text: string)
    requires |Trim(text, '[')| < 2
    ensures Unwrap(text) == Panic
  {
    assert Trim(NullText, '[') == NullText;
  }

  /** For rendered documents, the marshalled-then-unwrapped text is the null
      sentinel for no document and the comma-joined documents otherwise. */
  lemma UnwrapMarshal(docs: seq<string>)
    requires forall i :: 0 <= i < |docs| ==> IsObjectText(docs[i])
    ensures Unwrap(Marshal(docs)) == if docs == [] then Value(NotFound) else Value(Join(docs, ","))
  {
    if docs != [] {
      var j := Join(docs, ",");
      assert j[0] == docs[0][0] == '{';
      assert Repeat('[', 1) == "[";
      assert Marshal(docs) == "[" + j + "]\n";
      UnwrapArray(1, j);
    } else {
      assert Marshal(docs) == NullText;
    }
  }

  /** The text a Get* helper returns for the rendered documents its query
      fetched: NotFound for none, otherwise the documents, the first one
      leading. It is never the null text the handlers compare against. */
  function Unwrapped(docs: seq<string>): (r: string)
    requires forall i :: 0 <= i < |docs| ==> IsObjectText(docs[i])
    ensures docs == [] ==> r == NotFound
    ensures docs != [] ==> r == Join(docs, ",") && StartsWith(r, docs[0]) && IsObjectText(r)
    ensures r != NullText
  {
    UnwrapMarshal(docs);
    assert docs != [] ==> Join(docs, ",")[0] == docs[0][0];
    Unwrap(Marshal(docs)).value
  }

  /** The slicing GetTestType applies to the marshalled TestList result: drop
      the first byte and the last two. */
  function TestListSlice(text: string): Outcome<string> {
    if |text| < 3 then Panic else Value(text[1..|text| - 2])
  }

  /** The slicing never panics on a marshalled result. With no entry it
      leaves "ul", in which jsonparser finds no course (so GetTestType
      answers ""); with one entry it leaves exactly that entry's document. */
  lemma TestListSliceOfMarshal(docs: seq<string>)
    requires |docs| <= 1
    ensures TestListSlice(Marshal(docs)).Value?
    ensures docs == [] ==> TestListSlice(Marshal(docs)) == Value("ul")
    ensures |docs| == 1 ==> TestListSlice(Marshal(docs)) == Value(docs[0])
  {
    if docs == [] {
      assert NullText[1..|NullText| - 2] == "ul";
    } else {
      var text := "[" + docs[0] + "]\n";
      assert Marshal(docs) == text;
      assert text[1..|text| - 2] == docs[0];
    }
  }

  // ---------------------------------------------------------------------
  // Queries over a sequence of documents
  // ---------------------------------------------------------------------

  /** The documents whose key is k, in store order. */
  function Select<T(==), K(==)>(docs: seq<T>, key: T -> K, k: K): (r: seq<T>)
    ensures |r| <= |docs|
    ensures forall i :: 0 <= i < |r| ==> r[i] in docs && key(r[i]) == k
    ensures forall i :: 0 <= i < |docs| && key(docs[i]) == k ==> docs[i] in r
    ensures r == [] <==> forall i :: 0 <= i < |docs| ==> key(docs[i]) != k
  {
    if docs == [] then []
    else (if key(docs[0]) == k then [docs[0]] else []) + Select(docs[1..], key, k)
  }

  /** A query over two stretches of the store is the query over the first
      followed by the query over the second: results keep store order. */
  lemma {:induction false} SelectConcat<T, K>(a: seq<T>, b: seq<T>, key: T -> K, k: K)
    ensures Select(a + b, key, k) == Select(a, key, k) + Select(b, key, k)
  {
    if a == [] {
      assert a + b == b;
    } else {
      assert (a + b)[0] == a[0];
      assert (a + b)[1..] == a[1..] + b;
      SelectConcat(a[1..], b, key, k);
    }
  }

  /** The first document a query fetches is the first match in store order. */
  lemma {:induction false} SelectFirst<T, K>(docs: seq<T>, key: T -> K, k: K, i: nat)
    requires i < |docs| && key(docs[i]) == k
    requires forall j :: 0 <= j < i ==> key(docs[j]) != k
    ensures Select(docs, key, k) != [] && Select(docs, key, k)[0] == docs[i]
  {
    if i > 0 {
      SelectFirst(docs[1..], key, k, i - 1);
    }
  }

  /** A query over a collection whose only match is docs[i] fetches exactly it. */
  lemma {:induction false} SelectOnly<T, K>(docs: seq<T>, key: T -> K, k: K, i: nat)
    requires i < |docs| && key(docs[i]) == k
    requires forall j :: 0 <= j < |docs| && j != i ==> key(docs[j]) != k
    ensures Select(docs, key, k) == [docs[i]]
  {
    if i > 0 {
      SelectOnly(docs[1..], key, k, i - 1);
    } else {
      assert Select(docs[1..], key, k) == [];
    }
  }

  /** What a query with run `run` leaves in the result slice. */
  function Fetched<T>(matches: seq<T>, run: QueryRun): (r: seq<T>)
    ensures |r| <= |matches| && r == matches[..|r|]
    ensures run == Complete ==> r == matches
  {
    match run
    case Complete => matches
    case FailedAfter(n) => if n < |matches| then matches[..n] else matches
  }

  /** No two documents share a key. */
  predicate DistinctKeys<T, K(==)>(docs: seq<T>, key: T -> K) {
    forall i, j :: 0 <= i < j < |docs| ==> key(docs[i]) != key(docs[j])
  }

  /** mgo's Collection.Remove: deletes the first document whose key is k, if
      there is one. */
  function RemoveFirst<T, K(==)>(docs: seq<T>, key: T -> K, k: K): (r: seq<T>)
    ensures |r| <= |docs|
    ensures forall i :: 0 <= i < |r| ==> r[i] in docs
    ensures (forall i :: 0 <= i < |docs| ==> key(docs[i]) != k) ==> r == docs
  {
    if docs == [] then []
    else if key(docs[0]) == k then docs[1..]
    else [docs[0]] + RemoveFirst(docs[1..], key, k)
  }

  /** When docs[i] is the first match, exactly it is removed. */
  lemma {:induction false} RemoveFirstAt<T, K>(docs: seq<T>, key: T -> K, k: K, i: nat)
    requires i < |docs| && key(docs[i]) == k
    requires forall j :: 0 <= j < i ==> key(docs[j]) != k
    ensures RemoveFirst(docs, key, k) == docs[..i] + docs[i + 1..]
  {
    if i > 0 {
      RemoveFirstAt(docs[1..], key, k, i - 1);
      assert docs[1..][..i - 1] + docs[1..][i..] == docs[1..i] + docs[i + 1..];
      assert docs[..i] == [docs[0]] + docs[1..i];
    }
  }

  /** Removing the match from a collection without duplicate keys leaves no
      document with that key and still no duplicates. */
  lemma {:induction false} RemoveFirstOfDistinct<T, K>(docs: seq<T>, key: T -> K, k: K)
    requires DistinctKeys(docs, key)
    ensures DistinctKeys(RemoveFirst(docs, key, k), key)
    ensures forall i :: 0 <= i < |RemoveFirst(docs, key, k)| ==> key(RemoveFirst(docs, key, k)[i]) != k
  {
    if i :| 0 <= i < |docs| && key(docs[i]) == k {
      assert forall j :: 0 <= j < i ==> key(docs[j]) != k;
      RemoveFirstAt(docs, key, k, i);
      RemoveAtKeepsDistinct(docs, key, i, RemoveFirst(docs, key, k));
    }
  }

  /** Deleting the document at index i from a collection without duplicate
      keys leaves no duplicates and no document with its key. */
  lemma RemoveAtKeepsDistinct<T, K>(docs: seq<T>, key: T -> K, i: nat, r: seq<T>)
    requires DistinctKeys(docs, key) && i < |docs|
    requires r == docs[..i] + docs[i + 1..]
    ensures DistinctKeys(r, key)
    ensures forall a :: 0 <= a < |r| ==> key(r[a]) != key(docs[i])
  {
    assert forall a :: 0 <= a < |r| ==> r[a] == docs[if a < i then a else a + 1];
  }

  /** The rendered texts of some documents. */
  function Texts<T>(docs: seq<T>, fieldsOf: T -> string): (r: seq<string>)
    ensures |r| == |docs|
    ensures forall i :: 0 <= i < |docs| ==> r[i] == Rendered(fieldsOf(docs[i])) && IsObjectText(r[i])
  {
    seq(|docs|, i requires 0 <= i < |docs| => Rendered(fieldsOf(docs[i])))
  }

  // ---------------------------------------------------------------------
  // Accounts and their ObjectIds
  // ---------------------------------------------------------------------

  predicate IsHexDigit(ch: char) {
    '0' <= ch <= '9' || 'a' <= ch <= 'f' || 'A' <= ch <= 'F'
  }

  /** bson.ObjectIdHex accepts exactly the texts that hex.DecodeString turns
      into twelve bytes, and panics on any other. */
  predicate IsObjectIdHex(s: string) {
    |s| == 24 && forall i :: 0 <= i < |s| ==> IsHexDigit(s[i])
  }

  function LowerHexDigit(ch: char): char {
    if 'A' <= ch <= 'F' then (ch as int + 32) as char else ch
  }

  /** Two hex texts decode to the same ObjectId exactly when their
      lower-cased forms agree. */
  function HexLower(s: string): (r: string)
    ensures |r| == |s|
  {
    seq(|s|, i requires 0 <= i < |s| => LowerHexDigit(s[i]))
  }

  function AccountCredentials(a: Account): Credentials { a.account }
  function AccountFields(a: Account): string { a.fields }
  function IdKey(a: Account): string { HexLower(a.oid) }

  /** The account `_id`s the driver generated: well-formed ObjectIds, all
      different. */
  predicate WellFormedIds(accounts: seq<Account>) {
    (forall i :: 0 <= i < |accounts| ==> IsObjectIdHex(accounts[i].oid)) && DistinctKeys(accounts, IdKey)
  }

  predicate HasId(accounts: seq<Account>, id: string) {
    exists i :: 0 <= i < |accounts| && IdKey(accounts[i]) == HexLower(id)
  }

  /** The `_id.$oid` jsonparser reads from the unwrapped text of the fetched
      accounts: the id of the first one (see UnwrapMarshal), or NotFound when
      the marshalled result was the null text. */
  function ResolveID(fetched: seq<Account>): string {
    if fetched == [] then NotFound else fetched[0].oid
  }

  /** The id a credential lookup resolves to over a complete query: NotFound
      when no account has these credentials, otherwise the id of the first
      account in store order that has them. */
  function FirstMatchID(accounts: seq<Account>, c: Credentials): (id: string)
    ensures (forall i :: 0 <= i < |accounts| ==> accounts[i].account != c) ==> id == NotFound
    ensures forall i :: (0 <= i < |accounts| && accounts[i].account == c
              && (forall j :: 0 <= j < i ==> accounts[j].account != c)) ==> id == accounts[i].oid
  {
    var fetched := Select(accounts, AccountCredentials, c);
    assert forall i :: (0 <= i < |accounts| && accounts[i].account == c
              && (forall j :: 0 <= j < i ==> accounts[j].account != c)) ==> fetched != [] && fetched[0] == accounts[i] by {
      forall i | 0 <= i < |accounts| && accounts[i].account == c
                 && (forall j :: 0 <= j < i ==> accounts[j].account != c)
        ensures fetched != [] && fetched[0] == accounts[i]
      {
        SelectFirst(accounts, AccountCredentials, c, i);
      }
    }
    ResolveID(fetched)
  }

  /** On accounts with driver-generated ids the lookup result is NotFound
      exactly when no account has the credentials, and it is never empty. */
  lemma FirstMatchIDIsSentinelIff(accounts: seq<Account>, c: Credentials)
    requires WellFormedIds(accounts)
    ensures FirstMatchID(accounts, c) == NotFound <==> forall i :: 0 <= i < |accounts| ==> accounts[i].account != c
    ensures FirstMatchID(accounts, c) != ""
  {
    var fetched := Select(accounts, AccountCredentials, c);
    if fetched != [] {
      assert fetched[0] in accounts;
      var i :| 0 <= i < |accounts| && accounts[i] == fetched[0];
      assert IsObjectIdHex(fetched[0].oid);
      assert fetched[0].oid[0] != 'n' by {
        assert IsHexDigit(fetched[0].oid[0]);
      }
    }
  }

  /** GetStudentObjectByID / GetTeacherObjectByID: a malformed id makes
      bson.ObjectIdHex panic; otherwise the text of the account with that id,
      or NotFound. The result is never the null text. */
  function ObjectByID(accounts: seq<Account>, id: string): (r: Outcome<string>)
    ensures !IsObjectIdHex(id) ==> r == Panic
    ensures IsObjectIdHex(id) ==> r.Value? && r.value != NullText
    ensures IsObjectIdHex(id) ==> (r.value == NotFound <==> !HasId(accounts, id))
  {
    if !IsObjectIdHex(id) then Panic
    else
      var fetched := Select(accounts, IdKey, HexLower(id));
      Value(Unwrapped(Texts(fetched, AccountFields)))
  }

  /** Looking up a stored account by its own id serves exactly its document. */
  lemma ObjectByIDOfStored(accounts: seq<Account>, i: nat)
    requires WellFormedIds(accounts) && i < |accounts|
    ensures ObjectByID(accounts, accounts[i].oid) == Value(Rendered(accounts[i].fields))
  {
    var id := accounts[i].oid;
    assert IdKey(accounts[i]) == HexLower(id);
    SelectOnly(accounts, IdKey, HexLower(id), i);
    var texts := Texts([accounts[i]], AccountFields);
    assert texts == [Rendered(accounts[i].fields)];
  }

  /** The first account with the given id, whose members jsonparser reads from
      the text of GetStudentObjectByID. */
  function AccountByID(accounts: seq<Account>, id: string): (r: Option<Account>)
    ensures r.None? <==> !HasId(accounts, id)
    ensures r.Some? ==> r.value in accounts && IdKey(r.value) == HexLower(id)
  {
    var fetched := Select(accounts, IdKey, HexLower(id));
    if fetched == [] then None else Some(fetched[0])
  }

  function NewAccount(body: AccountBody, oid: string): Account {
    Account(oid, body.account, body.grade, body.gradeLetter, body.fields)
  }

  /** The accounts after inserting a registration body: the driver rejects an
      `_id` that is already taken, or the whole write may fail. */
  function AfterRegister(accounts: seq<Account>, body: AccountBody, oid: string, accepted: bool): seq<Account> {
    if accepted && !HasId(accounts, oid) then accounts + [NewAccount(body, oid)] else accounts
  }

  /** After an insert a query fetches what it fetched before, followed by the
      new document when it matches. */
  lemma {:induction false} SelectAppend<T, K>(docs: seq<T>, x: T, key: T -> K, k: K)
    ensures Select(docs + [x], key, k) == Select(docs, key, k) + (if key(x) == k then [x] else [])
  {
    if docs == [] {
      assert docs + [x] == [x];
      assert [x][1..] == [];
    } else {
      assert (docs + [x])[0] == docs[0];
      assert (docs + [x])[1..] == docs[1..] + [x];
      SelectAppend(docs[1..], x, key, k);
    }
  }

  /** Appending an account with a fresh, well-formed id keeps the ids well
      formed. */
  lemma AppendFreshKeepsWellFormed(accounts: seq<Account>, a: Account)
    requires WellFormedIds(accounts) && IsObjectIdHex(a.oid) && !HasId(accounts, a.oid)
    ensures WellFormedIds(accounts + [a])
  {
    var after := accounts + [a];
    forall i, j | 0 <= i < j < |after|
      ensures IdKey(after[i]) != IdKey(after[j])
    {
      if j == |accounts| {
        assert after[i] == accounts[i];
        assert IdKey(accounts[i]) != HexLower(a.oid);
      } else {
        assert after[i] == accounts[i] && after[j] == accounts[j];
      }
    }
  }

  /** Registering keeps the ids well formed and makes the new account
      reachable: by its id it is served as the body's document; by its
      credentials it is found unless an older account already has them, in
      which case the older account's id is still the answer. */
  lemma RegisteredAccountIsFound(accounts: seq<Account>, body: AccountBody, oid: string)
    requires WellFormedIds(accounts) && IsObjectIdHex(oid) && !HasId(accounts, oid)
    ensures WellFormedIds(AfterRegister(accounts, body, oid, true))
    ensures ObjectByID(AfterRegister(accounts, body, oid, true), oid) == Value(Rendered(body.fields))
    ensures FirstMatchID(AfterRegister(accounts, body, oid, true), body.account)
            == if FirstMatchID(accounts, body.account) == NotFound then oid else FirstMatchID(accounts, body.account)
  {
    var a := NewAccount(body, oid);
    var after := accounts + [a];
    assert AfterRegister(accounts, body, oid, true) == after;
    AppendFreshKeepsWellFormed(accounts, a);
    ObjectByIDOfStored(after, |accounts|);
    assert after[|accounts|] == a;
    SelectAppend(accounts, a, AccountCredentials, body.account);
    FirstMatchIDIsSentinelIff(accounts, body.account);
  }

  // ---------------------------------------------------------------------
  // Answer sheets and grades
  // ---------------------------------------------------------------------

  /** An answer sheet is looked up by (testID, student.account.userName,
      student.account.password). */
  function SheetKey(s: AnswerSheet): (string, Credentials) { (s.testID, s.student) }
  function SheetFields(s: AnswerSheet): string { s.fields }

  /** A grade is looked up by (studentAnswerSheet.testID,
      studentAnswerSheet.student.account.userName): the password is not part
      of the key. */
  function GradeKey(g: Grade): (string, string) { (g.studentAnswerSheet.testID, g.studentAnswerSheet.student.userName) }
  function GradeFields(g: Grade): string { g.fields }

  /** The name of the grades collection of a course. */
  function GradesCollection(course: string): string {
    course + "Edu.Grades"
  }

  datatype Snapshot = Snapshot(
    students: seq<Account>,               // Students.Accounts
    teachers: seq<Account>,               // Teachers.Accounts
    submittedAnswers: seq<AnswerSheet>,   // Students.SubmittedAnswers
    grades: map<string, seq<Grade>>,      // {course}Edu.Grades, by collection name
    testList: map<string, string>,        // TestList: test ID to course
    testWrites: seq<TestWrite>,           // calls of AddTest and EditTest
    lessonWrites: seq<LessonWrite>)       // calls of AddLesson
  {
    /** Every account `_id` was generated by the driver and is unique. */
    predicate Valid() {
      WellFormedIds(students) && WellFormedIds(teachers)
    }

    /** FindStudentID: a query error is answered with NotFound at once;
        otherwise the id of the first student with the credentials. */
    function FindStudentID(c: Credentials, run: QueryRun): (id: string)
      ensures run.FailedAfter? ==> id == NotFound
      ensures run == Complete ==> id == FirstMatchID(students, c)
    {
      if run.FailedAfter? then NotFound
      else ResolveID(Fetched(Select(students, AccountCredentials, c), run))
    }

    /** FindTeacherID does not stop at a query error: it answers from the
        accounts read before the error, so a failed query yields NotFound or
        the same id as a complete one. */
    function FindTeacherID(c: Credentials, run: QueryRun): (id: string)
      ensures id == NotFound || id == FirstMatchID(teachers, c)
      ensures run == Complete ==> id == FirstMatchID(teachers, c)
    {
      ResolveID(Fetched(Select(teachers, AccountCredentials, c), run))
    }

    function StudentObjectByID(id: string): Outcome<string> { ObjectByID(students, id) }
    function TeacherObjectByID(id: string): Outcome<string> { ObjectByID(teachers, id) }

    /** What jsonparser reads as account.userName and account.password from
        the text of GetStudentObjectByID(id): the first matching student's
        credentials, or empty strings when the text is the sentinel. */
    function StudentCredentialsByID(id: string): (c: Credentials)
      ensures !HasId(students, id) ==> c == Credentials("", "")
      ensures HasId(students, id) ==> exists a :: a in students && IdKey(a) == HexLower(id) && a.account == c
    {
      match AccountByID(students, id)
      case None => Credentials("", "")
      case Some(a) => a.account
    }

    predicate HasAnswerSheet(student: Credentials, testID: string) {
      exists s :: s in submittedAnswers && SheetKey(s) == (testID, student)
    }

    /** GetAnswerSheet: the text of the sheets with this test ID and this
        student's userName and password, NotFound when there is none. */
    function GetAnswerSheet(student: Credentials, testID: string): (r: string)
      ensures r != NullText
      ensures r == NotFound <==> !HasAnswerSheet(student, testID)
    {
      Unwrapped(Texts(Select(submittedAnswers, SheetKey, (testID, student)), SheetFields))
    }

    /** GetTestType: the course TestList records for the test, or "" when there
        is no entry (jsonparser errors are ignored). */
    function GetTestType(testID: string): string {
      if testID in testList then testList[testID] else ""
    }

    function GradesIn(name: string): seq<Grade> {
      if name in grades then grades[name] else []
    }

    /** The grades GetGrade and AddGrade use for a test: the collection of the
        course GetTestType gives. */
    function GradesFor(testID: string): seq<Grade> {
      GradesIn(GradesCollection(GetTestType(testID)))
    }

    predicate HasGrade(studentUser: string, testID: string) {
      exists g :: g in GradesFor(testID) && GradeKey(g) == (testID, studentUser)
    }

    /** GetGrade: the text of the grades for (testID, student userName) in the
        test's course collection, NotFound when there is none. */
    function GetGrade(studentUser: string, testID: string): (r: string)
      ensures r != NullText
      ensures r == NotFound <==> !HasGrade(studentUser, testID)
    {
      Unwrapped(Texts(Select(GradesFor(testID), GradeKey, (testID, studentUser)), GradeFields))
    }

    /** At most one answer sheet per (testID, student credentials). */
    predicate UniqueAnswerSheets() {
      DistinctKeys(submittedAnswers, SheetKey)
    }

    /** At most one grade per (testID, student userName) in each collection. */
    predicate UniqueGrades() {
      forall name :: name in grades ==> DistinctKeys(grades[name], GradeKey)
    }

    /** RegisterStudent: the body inserted unchanged, with the id the driver
        generated. */
    function AfterRegisterStudent(body: AccountBody, oid: string, accepted: bool): Snapshot {
      this.(students := AfterRegister(students, body, oid, accepted))
    }

    /** RegisterTeacher, likewise into Teachers.Accounts. */
    function AfterRegisterTeacher(body: AccountBody, oid: string, accepted: bool): Snapshot {
      this.(teachers := AfterRegister(teachers, body, oid, accepted))
    }

    /** AddAnswerSheet: the sheet inserted unchanged when the store accepts it. */
    function AfterAddAnswerSheet(sheet: AnswerSheet, accepted: bool): Snapshot {
      if accepted then this.(submittedAnswers := submittedAnswers + [sheet]) else this
    }

    /** AddGrade: the grade goes into the collection of the test's course; only
        when that insert succeeded is the answer sheet for (testID, the grade's
        student credentials) removed. */
    function AfterAddGrade(grade: Grade, testID: string, insertAccepted: bool, removeAccepted: bool): Snapshot {
      if !insertAccepted then this
      else
        var name := GradesCollection(GetTestType(testID));
        var graded := this.(grades := grades[name := GradesIn(name) + [grade]]);
        if removeAccepted
        then graded.(submittedAnswers := RemoveFirst(submittedAnswers, SheetKey, (testID, grade.studentAnswerSheet.student)))
        else graded
    }
  }

  /** The credentials read from a stored student's own document, on a store
      whose ids the driver generated, are that student's. */
  lemma StoredStudentCredentials(db: Snapshot, i: nat)
    requires WellFormedIds(db.students) && i < |db.students|
    ensures db.StudentCredentialsByID(db.students[i].oid) == db.students[i].account
  {
    var id := db.students[i].oid;
    assert IdKey(db.students[i]) == HexLower(id);
    SelectOnly(db.students, IdKey, HexLower(id), i);
  }

  /** A failed teacher query can still find the teacher while a failed student
      query never does: the two helpers differ on query errors. */
  lemma FailedQueriesDiffer(a: Account)
    ensures var db := Snapshot([a], [a], [], map[], map[], [], []);
            db.FindStudentID(a.account, FailedAfter(1)) == NotFound
            && db.FindTeacherID(a.account, FailedAfter(1)) == a.oid
  {
    var db := Snapshot([a], [a], [], map[], map[], [], []);
    assert Select([a], AccountCredentials, a.account) == [a];
  }

  /** Submitting a sheet whose key the store does not hold yet keeps the sheets
      unique, and once accepted the sheet is found by its key. */
  lemma AnswerSheetStoredOnce(db: Snapshot, sheet: AnswerSheet, accepted: bool)
    requires db.UniqueAnswerSheets() && !db.HasAnswerSheet(sheet.student, sheet.testID)
    ensures db.AfterAddAnswerSheet(sheet, accepted).UniqueAnswerSheets()
    ensures accepted ==> db.AfterAddAnswerSheet(sheet, accepted).HasAnswerSheet(sheet.student, sheet.testID)
  {
    if accepted {
      var after := db.AfterAddAnswerSheet(sheet, accepted);
      var n := |db.submittedAnswers|;
      assert after.submittedAnswers[n] == sheet;
      assert sheet in after.submittedAnswers;
      forall i, j | 0 <= i < j < |after.submittedAnswers|
        ensures SheetKey(after.submittedAnswers[i]) != SheetKey(after.submittedAnswers[j])
      {
        if j == n {
          assert after.submittedAnswers[i] == db.submittedAnswers[i];
          assert db.submittedAnswers[i] in db.submittedAnswers;
        }
      }
    }
  }

  /** A stored grade replaces the answer sheet: afterwards the grade is found
      by (testID, student userName) and, in a store holding one sheet per key,
      no answer sheet is left for (testID, student credentials). A failed grade
      insert changes nothing. */
  lemma GradeReplacesAnswerSheet(db: Snapshot, grade: Grade, testID: string, removeAccepted: bool)
    requires db.UniqueAnswerSheets() && grade.studentAnswerSheet.testID == testID
    ensures db.AfterAddGrade(grade, testID, false, removeAccepted) == db
    ensures db.AfterAddGrade(grade, testID, true, removeAccepted).HasGrade(grade.studentAnswerSheet.student.userName, testID)
    ensures removeAccepted ==>
              !db.AfterAddGrade(grade, testID, true, true).HasAnswerSheet(grade.studentAnswerSheet.student, testID)
    ensures db.AfterAddGrade(grade, testID, true, removeAccepted).UniqueAnswerSheets()
  {
    var after := db.AfterAddGrade(grade, testID, true, removeAccepted);
    var name := GradesCollection(db.GetTestType(testID));
    assert after.testList == db.testList;
    assert after.GradesFor(testID) == db.GradesIn(name) + [grade];
    assert grade in after.GradesFor(testID);
    if removeAccepted {
      RemoveFirstOfDistinct(db.submittedAnswers, SheetKey, (testID, grade.studentAnswerSheet.student));
      var left := after.submittedAnswers;
      forall s | s in left
        ensures SheetKey(s) != (testID, grade.studentAnswerSheet.student)
      {
        var i :| 0 <= i < |left| && left[i] == s;
      }
    }
  }

  /** Storing a grade whose key its collection does not hold yet keeps every
      grades collection unique. */
  lemma GradeStoredOnce(db: Snapshot, grade: Grade, testID: string, removeAccepted: bool)
    requires db.UniqueGrades() && grade.studentAnswerSheet.testID == testID
    requires !db.HasGrade(grade.studentAnswerSheet.student.userName, testID)
    ensures db.AfterAddGrade(grade, testID, true, removeAccepted).UniqueGrades()
  {
    var after := db.AfterAddGrade(grade, testID, true, removeAccepted);
    var name := GradesCollection(db.GetTestType(testID));
    var old_ := db.GradesIn(name);
    var new_ := old_ + [grade];
    assert after.grades == db.grades[name := new_];
    assert DistinctKeys(old_, GradeKey) by {
      if name in db.grades {
        assert old_ == db.grades[name];
      }
    }
    forall i, j | 0 <= i < j < |new_|
      ensures GradeKey(new_[i]) != GradeKey(new_[j])
    {
      if j == |old_| {
        assert new_[i] == old_[i];
        assert old_[i] in db.GradesFor(testID);
      }
    }
  }

  /** The database of the server: its collections, changed in place by the
      helpers that insert and remove documents. */
  class Store {
    var students: seq<Account>
    var teachers: seq<Account>
    var submittedAnswers: seq<AnswerSheet>
    var grades: map<string, seq<Grade>>
    var testList: map<string, string>
    var testWrites: seq<TestWrite>
    var lessonWrites: seq<LessonWrite>

    /** The value of every collection now. */
    function View(): Snapshot
      reads this
    {
      Snapshot(students, teachers, submittedAnswers, grades, testList, testWrites, lessonWrites)
    }

    /** An empty database whose TestList already holds the given entries. */
    constructor (testList: map<string, string>)
      ensures View() == Snapshot([], [], [], map[], testList, [], [])
    {
      students, teachers, submittedAnswers := [], [], [];
      grades := map[];
      this.testList := testList;
      testWrites, lessonWrites := [], [];
    }

    /** RegisterStudent: inserts the body into Students.Accounts with the id the
        driver generated, when the store accepts the write. */
    method RegisterStudent(body: AccountBody, freshOid: string, accepted: bool)
      modifies this
      ensures View() == old(View()).AfterRegisterStudent(body, freshOid, accepted)
    {
      if accepted && !HasId(students, freshOid) {
        students := students + [NewAccount(body, freshOid)];
      }
    }

    /** RegisterTeacher: likewise into Teachers.Accounts. */
    method RegisterTeacher(body: AccountBody, freshOid: string, accepted: bool)
      modifies this
      ensures View() == old(View()).AfterRegisterTeacher(body, freshOid, accepted)
    {
      if accepted && !HasId(teachers, freshOid) {
        teachers := teachers + [NewAccount(body, freshOid)];
      }
    }

    /** AddAnswerSheet: inserts the sheet unchanged into
        Students.SubmittedAnswers; nothing is checked. */
    method AddAnswerSheet(sheet: AnswerSheet, accepted: bool)
      modifies this
      ensures View() == old(View()).AfterAddAnswerSheet(sheet, accepted)
    {
      if accepted {
        submittedAnswers := submittedAnswers + [sheet];
      }
    }

    /** AddGrade: inserts the grade into the course collection of the test and,
        only if that succeeded, removes the matching answer sheet. */
    method AddGrade(grade: Grade, testID: string, insertAccepted: bool, removeAccepted: bool)
      modifies this
      ensures View() == old(View()).AfterAddGrade(grade, testID, insertAccepted, removeAccepted)
    {
      var testType := View().GetTestType(testID);
      var name := GradesCollection(testType);
      if insertAccepted {
        var current := if name in grades then grades[name] else [];
        grades := grades[name := current + [grade]];
        if removeAccepted {
          submittedAnswers := RemoveFirst(submittedAnswers, SheetKey, (testID, grade.studentAnswerSheet.student));
        }
      }
    }

    /** AddTest(subject, body, testID) of the test store. */
    method AddTest(subject: string, body: string, testID: string)
      modifies this
      ensures View() == old(View()).(testWrites := old(testWrites) + [TestAdded(subject, body, testID)])
    {
      testWrites := testWrites + [TestAdded(subject, body, testID)];
    }

    /** EditTest(subject, body, testID) of the test store. */
    method EditTest(subject: string, body: string, testID: string)
      modifies this
      ensures View() == old(View()).(testWrites := old(testWrites) + [TestEdited(subject, body, testID)])
    {
      testWrites := testWrites + [TestEdited(subject, body, testID)];
    }

    /** AddLesson(course, grade, body) of the lesson store. */
    method AddLesson(course: string, grade: int, body: string)
      modifies this
      ensures View() == old(View()).(lessonWrites := old(lessonWrites) + [LessonAdded(course, grade, body)])
    {
      lessonWrites := lessonWrites + [LessonAdded(course, grade, body)];
    }
  }
}
