/** What the handlers see of net/http: the status codes they use, the reply a
    client receives, the basic-authentication header, the schema validation
    outcome, and the response writer the imperative handlers write into. */
module Http {
  import opened Wrappers
  import opened Database

  const StatusOK := 200
  const StatusAlreadyReported := 208
  const StatusBadRequest := 400
  const StatusUnauthorized := 401
  const StatusForbidden := 403
  const StatusNotFound := 404

  const JsonType := "application/json"
  const TextType := "text/plain"

  /** What the client receives: a status, the Content-Type the handler set
      before the status was fixed ("" when it set none in time, in which case
      net/http fills one in by sniffing the body) and the body; or nothing at
      all, when the handler panicked. */
  datatype Reply = Reply(status: int, contentType: string, body: string) | Aborted

  /** r.BasicAuth(): the credentials of a well-formed Basic header, or none. */
  datatype Authorization = NoBasicAuth | BasicAuth(credentials: Credentials)

  /** The username and password r.BasicAuth() returns: empty strings when
      there is no well-formed header. */
  function HeaderCredentials(auth: Authorization): (c: Credentials)
    ensures auth.NoBasicAuth? ==> c == Credentials("", "")
    ensures auth.BasicAuth? ==> c == auth.credentials
  {
    match auth
    case NoBasicAuth => Credentials("", "")
    case BasicAuth(c) => c
  }

  /** gojsonschema.Validate against the endpoint's template: a result that is
      valid or not, or an error together with a nil result. */
  datatype Validation = SchemaValid | SchemaInvalid | SchemaError

  const BadScheme := "Invalid authentication scheme!"
  const BadCredentials := "Invalid username and password combination!"

  /** The two authentication checks of submitAnswerSheet and submitGrade.
      Neither returns, so a request failing both gets one 401 and both
      messages, in order. None when both pass. */
  function ChainedAuthChecks(authOK: bool, idFound: bool): (r: Option<Reply>)
    ensures r.None? <==> authOK && idFound
    ensures r.Some? ==> r.value.Reply? && r.value.status == StatusUnauthorized && r.value.contentType == ""
    ensures r.Some? ==> r.value.body == (if authOK then "" else BadScheme) + (if idFound then "" else BadCredentials)
  {
    if authOK && idFound then None
    else Some(Reply(StatusUnauthorized, "", (if authOK then "" else BadScheme) + (if idFound then "" else BadCredentials)))
  }

  /** The two authentication checks of viewTest, getPlannedTests, createTest
      and updateTest, each of which returns: a missing header is reported
      alone. */
  function ReturningAuthChecks(authOK: bool, idFound: bool): (r: Option<Reply>)
    ensures r.None? <==> authOK && idFound
    ensures !authOK ==> r == Some(Reply(StatusUnauthorized, "", BadScheme))
    ensures authOK && !idFound ==> r == Some(Reply(StatusUnauthorized, "", BadCredentials))
  {
    if !authOK then Some(Reply(StatusUnauthorized, "", BadScheme))
    else if !idFound then Some(Reply(StatusUnauthorized, "", BadCredentials))
    else None
  }

  /** The http.ResponseWriter of one request. The first WriteHeader, or the
      first write of the body, fixes the status; a header set after that has
      no effect; a panic of the handler means the client receives nothing. */
  class Response {
    var written: Option<int>
    var contentType: string
    var body: string
    var panicked: bool

    constructor ()
      ensures Pristine()
    {
      written, contentType, body, panicked := None, "", "", false;
    }

    /** Nothing has been written to the response yet. */
    predicate Pristine()
      reads this
    {
      written.None? && contentType == "" && body == "" && !panicked
    }

    /** What the client receives once the handler returns. A handler that
        writes nothing sends 200 with an empty body. */
    function Sent(): Reply
      reads this
    {
      if panicked then Aborted
      else Reply(if written.Some? then written.value else StatusOK, contentType, body)
    }

    /** w.WriteHeader(code): only the first call has an effect. */
    method WriteHeader(code: int)
      modifies this
      ensures written == if old(written).None? then Some(code) else old(written)
      ensures contentType == old(contentType) && body == old(body) && panicked == old(panicked)
    {
      if written.None? {
        written := Some(code);
      }
    }

    /** w.Header().Set("Content-Type", t): too late once the status is fixed. */
    method SetContentType(t: string)
      modifies this
      ensures contentType == if old(written).None? then t else old(contentType)
      ensures written == old(written) && body == old(body) && panicked == old(panicked)
    {
      if written.None? {
        contentType := t;
      }
    }

    /** fmt.Fprint(w, s): appends to the body, fixing the status at 200 if no
        status was written before. */
    method Print(s: string)
      modifies this
      ensures body == old(body) + s
      ensures old(body) == "" ==> body == s
      ensures written == if old(written).None? then Some(StatusOK) else old(written)
      ensures contentType == old(contentType) && panicked == old(panicked)
    {
      if written.None? {
        written := Some(StatusOK);
      }
      assert "" + s == s;
      body := body + s;
    }

    /** A run-time panic of the handler, recovered by the server. */
    method Panic()
      modifies this
      ensures panicked && Sent() == Aborted
      ensures written == old(written) && contentType == old(contentType) && body == old(body)
    {
      panicked := true;
    }
  }
}
