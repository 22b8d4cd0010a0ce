/** APIUserAndTeacherData.go: serving an account by id (getStudent,
    getTeacher), resolving credentials to an id (findStudentID,
    findTeacherID) and registration (registerStudent, registerTeacher). The
    student and teacher handlers are the same code over the two account
    collections, so each pair is modelled once, over a `Role`. */
module AccountsApi {
  import opened Wrappers
  import opened Database
  import opened Http

  datatype Role = Student | Teacher

  /** The collection of the role's accounts. */
  function Accounts(db: Snapshot, role: Role): seq<Account> {
    match role
    case Student => db.students
    case Teacher => db.teachers
  }

  /** GetStudentObjectByID or GetTeacherObjectByID. */
  function ObjectOf(db: Snapshot, role: Role, id: string): (r: Outcome<string>)
    ensures r == ObjectByID(Accounts(db, role), id)
  {
    match role
    case Student => db.StudentObjectByID(id)
    case Teacher => db.TeacherObjectByID(id)
  }

  /** FindStudentID or FindTeacherID over a complete query: the id of the
      first account with the credentials, or NotFound. */
  function FoundID(db: Snapshot, role: Role, c: Credentials): (id: string)
    ensures id == FirstMatchID(Accounts(db, role), c)
  {
    match role
    case Student => db.FindStudentID(c, Complete)
    case Teacher => db.FindTeacherID(c, Complete)
  }

  function NotFoundText(role: Role): string {
    match role
    case Student => "404 student not found"
    case Teacher => "404 teacher not found"
  }

  function InvalidBodyText(role: Role): string {
    match role
    case Student => "Sent student JSON not valid! Reevaluate"
    case Teacher => "Sent teacher JSON not valid! Reevaluate"
  }

  /** The Content-Type getStudent and getTeacher set: text/plain exactly when
      the Accept header is text/plain, JSON otherwise. */
  function ContentTypeFor(accept: string): (t: string)
    ensures t == TextType <==> accept == TextType
    ensures t == TextType || t == JsonType
  {
    if accept == TextType then TextType else JsonType
  }

  // ---------------------------------------------------------------------
  // getStudent / getTeacher
  // ---------------------------------------------------------------------

  /** The decision of getStudent and getTeacher against the given sentinel.
      On the not-found path WriteHeader comes first, so the Content-Type set
      after it is not applied. */
  function AccountReply(db: Snapshot, role: Role, id: string, accept: string, sentinel: string): Reply {
    match ObjectOf(db, role, id)
    case Panic => Aborted
    case Value(doc) =>
      if doc == sentinel then Reply(StatusNotFound, "", NotFoundText(role))
      else Reply(StatusOK, ContentTypeFor(accept), doc)
  }

  /** getStudent and getTeacher as written compare with the null text, which
      the helper never returns: a well-formed id is always answered 200, and
      an unknown one gets the body "notFound". */
  function GetAccountReplyAsWritten(db: Snapshot, role: Role, id: string, accept: string): (r: Reply)
    ensures !IsObjectIdHex(id) ==> r == Aborted
    ensures IsObjectIdHex(id) ==> r.Reply? && r.status == StatusOK && r.contentType == ContentTypeFor(accept)
    ensures IsObjectIdHex(id) && !HasId(Accounts(db, role), id) ==> r.body == NotFound
  {
    AccountReply(db, role, id, accept, NullText)
  }

  /** getStudent and getTeacher as evidently intended: 404 exactly for an
      unknown id. */
  function GetAccountReply(db: Snapshot, role: Role, id: string, accept: string): (r: Reply)
    ensures !IsObjectIdHex(id) ==> r == Aborted
    ensures IsObjectIdHex(id) ==>
              (r == Reply(StatusNotFound, "", NotFoundText(role)) <==> !HasId(Accounts(db, role), id))
    ensures r.Reply? && r.status == StatusOK ==> r.contentType == ContentTypeFor(accept) && r.body != NotFound
  {
    AccountReply(db, role, id, accept, NotFound)
  }

  /** A stored account is served by its id as its own document, in the
      requested format. */
  lemma StoredAccountIsServed(db: Snapshot, role: Role, i: nat, accept: string)
    requires db.Valid() && i < |Accounts(db, role)|
    ensures var a := Accounts(db, role)[i];
            GetAccountReply(db, role, a.oid, accept) == Reply(StatusOK, ContentTypeFor(accept), Rendered(a.fields))
  {
    var a := Accounts(db, role)[i];
    ObjectByIDOfStored(Accounts(db, role), i);
    assert Rendered(a.fields) != NotFound by {
      assert Rendered(a.fields)[0] == '{';
    }
  }

  /** The two readings part exactly on the unknown well-formed ids. */
  lemma UnknownAccountReplies(db: Snapshot, role: Role, id: string, accept: string)
    requires IsObjectIdHex(id) && !HasId(Accounts(db, role), id)
    ensures GetAccountReplyAsWritten(db, role, id, accept) == Reply(StatusOK, ContentTypeFor(accept), NotFound)
    ensures GetAccountReply(db, role, id, accept) == Reply(StatusNotFound, "", NotFoundText(role))
  {
  }

  // ---------------------------------------------------------------------
  // findStudentID / findTeacherID
  // ---------------------------------------------------------------------

  /** The decision of findStudentID and findTeacherID against the given
      sentinel; the form values username and password are the credentials
      ("" when missing). */
  function IdReply(db: Snapshot, role: Role, c: Credentials, sentinel: string): Reply {
    var id := FoundID(db, role, c);
    if id == sentinel then Reply(StatusNotFound, "", NotFoundText(role)) else Reply(StatusOK, TextType, id)
  }

  /** findStudentID and findTeacherID as written compare with "": on a store
      whose ids the driver generated the lookup never yields it, so unknown
      credentials get 200 and the body "notFound". An account whose stored id
      is not an ObjectId reads as "", and only then does the 404 fire. */
  function FindIDReplyAsWritten(db: Snapshot, role: Role, c: Credentials): (r: Reply)
    ensures db.Valid() ==> r == Reply(StatusOK, TextType, FirstMatchID(Accounts(db, role), c))
    ensures (db.Valid() && forall i :: 0 <= i < |Accounts(db, role)| ==> Accounts(db, role)[i].account != c) ==>
              r.body == NotFound
  {
    var r := IdReply(db, role, c, "");
    if db.Valid() then FirstMatchIDIsSentinelIff(Accounts(db, role), c); r else r
  }

  /** findStudentID and findTeacherID as evidently intended: 404 when no
      account has the credentials. */
  function FindIDReply(db: Snapshot, role: Role, c: Credentials): (r: Reply)
    ensures r.Reply? && r.status in {StatusOK, StatusNotFound}
    ensures r.status == StatusNotFound <==> FirstMatchID(Accounts(db, role), c) == NotFound
    ensures r.status == StatusOK ==> r == Reply(StatusOK, TextType, FirstMatchID(Accounts(db, role), c))
  {
    IdReply(db, role, c, NotFound)
  }

  /** On a store with generated ids, the intended reply is 404 exactly when no
      account has the credentials, and otherwise the id of the first that has. */
  lemma FindIDReplyIff(db: Snapshot, role: Role, c: Credentials)
    requires db.Valid()
    ensures FindIDReply(db, role, c).status == StatusNotFound
            <==> forall i :: 0 <= i < |Accounts(db, role)| ==> Accounts(db, role)[i].account != c
    ensures forall i :: (0 <= i < |Accounts(db, role)| && Accounts(db, role)[i].account == c
              && (forall j :: 0 <= j < i ==> Accounts(db, role)[j].account != c)) ==>
              FindIDReply(db, role, c) == Reply(StatusOK, TextType, Accounts(db, role)[i].oid)
  {
    FirstMatchIDIsSentinelIff(Accounts(db, role), c);
  }

  // ---------------------------------------------------------------------
  // registerStudent / registerTeacher
  // ---------------------------------------------------------------------

  /** The store after RegisterStudent or RegisterTeacher. */
  function AfterRegisterAs(db: Snapshot, role: Role, body: AccountBody, oid: string, accepted: bool): Snapshot {
    match role
    case Student => db.AfterRegisterStudent(body, oid, accepted)
    case Teacher => db.AfterRegisterTeacher(body, oid, accepted)
  }

  /** Registration keeps the ids well formed when the driver generates a
      well-formed id. */
  lemma RegisterKeepsValid(db: Snapshot, role: Role, body: AccountBody, oid: string, accepted: bool)
    requires db.Valid() && IsObjectIdHex(oid)
    ensures AfterRegisterAs(db, role, body, oid, accepted).Valid()
  {
    if accepted && !HasId(Accounts(db, role), oid) {
      AppendFreshKeepsWellFormed(Accounts(db, role), NewAccount(body, oid));
    }
  }

  /** After a stored registration the reply is the new account's id, unless
      an older account already has the credentials: then it is that
      account's id. The new account is served by its id. */
  lemma RegistrationReply(db: Snapshot, role: Role, body: AccountBody, oid: string)
    requires db.Valid() && IsObjectIdHex(oid) && !HasId(Accounts(db, role), oid)
    ensures var after := AfterRegisterAs(db, role, body, oid, true);
            && after.Valid()
            && FoundID(after, role, body.account)
               == (if FoundID(db, role, body.account) == NotFound then oid else FoundID(db, role, body.account))
            && GetAccountReply(after, role, oid, JsonType) == Reply(StatusOK, JsonType, Rendered(body.fields))
  {
    var after := AfterRegisterAs(db, role, body, oid, true);
    assert Accounts(after, role) == AfterRegister(Accounts(db, role), body, oid, true);
    RegisteredAccountIsFound(Accounts(db, role), body, oid);
    RegisterKeepsValid(db, role, body, oid, true);
    assert Rendered(body.fields)[0] == '{';
  }

  /** registerStudent / registerTeacher as written. A validator error leaves
      a nil result whose Valid() panics. A valid body is inserted with the id
      the driver generates (`freshOid`; `accepted` is whether the insert
      succeeds), and the reply is the id its credentials now resolve to. An
      invalid body only sets the logged code to 400: no WriteHeader follows,
      so the client gets 200 with the message. */
  method Register(store: Store, w: Response, role: Role, validation: Validation,
                  body: AccountBody, freshOid: string, accepted: bool)
    requires w.Pristine()
    modifies store, w
    ensures validation != SchemaValid ==> store.View() == old(store.View())
    ensures validation == SchemaError ==> w.Sent() == Aborted
    ensures validation == SchemaInvalid ==> w.Sent() == Reply(StatusOK, "", InvalidBodyText(role))
    ensures validation == SchemaValid ==>
              store.View() == AfterRegisterAs(old(store.View()), role, body, freshOid, accepted)
              && w.Sent() == Reply(StatusOK, "", FoundID(store.View(), role, body.account))
    ensures old(store.View().Valid()) && IsObjectIdHex(freshOid) ==> store.View().Valid()
  {
    ghost var db := store.View();
    var responseCode := StatusOK;
    match validation {
      case SchemaError =>
        w.Panic();
      case SchemaValid =>
        if db.Valid() && IsObjectIdHex(freshOid) {
          RegisterKeepsValid(db, role, body, freshOid, accepted);
        }
        match role {
          case Student => store.RegisterStudent(body, freshOid, accepted);
          case Teacher => store.RegisterTeacher(body, freshOid, accepted);
        }
        var id := FoundID(store.View(), role, body.account);
        w.Print(id);
      case SchemaInvalid =>
        responseCode := StatusBadRequest;
        w.Print(InvalidBodyText(role));
    }
  }

  /** registerStudent / registerTeacher as evidently intended: the 400 the
      invalid branch records is also sent. */
  method RegisterCorrected(store: Store, w: Response, role: Role, validation: Validation,
                           body: AccountBody, freshOid: string, accepted: bool)
    requires w.Pristine()
    modifies store, w
    ensures validation != SchemaValid ==> store.View() == old(store.View())
    ensures validation == SchemaError ==> w.Sent() == Aborted
    ensures validation == SchemaInvalid ==> w.Sent() == Reply(StatusBadRequest, "", InvalidBodyText(role))
    ensures validation == SchemaValid ==>
              store.View() == AfterRegisterAs(old(store.View()), role, body, freshOid, accepted)
              && w.Sent() == Reply(StatusOK, "", FoundID(store.View(), role, body.account))
    ensures old(store.View().Valid()) && IsObjectIdHex(freshOid) ==> store.View().Valid()
  {
    ghost var db := store.View();
    match validation {
      case SchemaError =>
        w.Panic();
      case SchemaValid =>
        if db.Valid() && IsObjectIdHex(freshOid) {
          RegisterKeepsValid(db, role, body, freshOid, accepted);
        }
        match role {
          case Student => store.RegisterStudent(body, freshOid, accepted);
          case Teacher => store.RegisterTeacher(body, freshOid, accepted);
        }
        var id := FoundID(store.View(), role, body.account);
        w.Print(id);
      case SchemaInvalid =>
        w.WriteHeader(StatusBadRequest);
        w.Print(InvalidBodyText(role));
    }
  }
}
