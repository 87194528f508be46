/**
 The store's state and its actions. The view status is a four-state machine
 driven by `submit` and `reset`; the endpoint list is changed only by `add` and
 `remove`. The asynchronous `submit` action awaits twice, for the response and
 for its parsed body, and writes no state between the two awaits. It is split
 there: `BeginSubmit` is the update made before the request is sent, and
 `CompleteSubmit` is the update made once both awaits resolve, with an `Outcome`. `JSON.stringify`
 is passed in as the parameter `stringify`, whose output format is not modelled.
 */
module Submission {
  import opened Wrappers
  import opened JsonValue
  import Registry

  /** The view status; the program's `ViewStatus` enum numbers its members 0 to 3. */
  datatype ViewStatus = Idle | Loading | Error | Success

  function Code(v: ViewStatus): nat
  {
    match v
    case Idle => 0
    case Loading => 1
    case Error => 2
    case Success => 3
  }

  /** The enum's numeric values, 0 to 3, and their inverse. */
  function FromCode(c: int): (r: Option<ViewStatus>)
    ensures r.Some? <==> 0 <= c <= 3
    ensures r.Some? ==> Code(r.value) == c
  {
    if c == 0 then Some(Idle)
    else if c == 1 then Some(Loading)
    else if c == 2 then Some(Error)
    else if c == 3 then Some(Success)
    else None
  }

  /** Every status has a distinct code, and reading the code back gives the status. */
  lemma CodeRoundTrip(v: ViewStatus)
    ensures 0 <= Code(v) <= 3
    ensures FromCode(Code(v)) == Some(v)
  {
  }

  /** The transaction a user submits: two unvalidated strings. */
  datatype PfbTx = PfbTx(namespaceId: string, data: string)

  /** The whole store: submission view state plus the endpoint registry. */
  datatype State = State(
    viewStatus: ViewStatus,
    errorMessage: string,
    result: Option<Json>,
    endpoints: seq<Registry.Endpoint>)

  /** How an HTTP submission resolves: a response whose body parsed as JSON, or a
      thrown value (network failure, or a body that was not JSON). */
  datatype Outcome = Response(status: int, body: Json) | Failure(error: Json)

  /** What `submit` hands to `fetch`. */
  datatype HttpRequest = HttpRequest(httpMethod: string, url: string, contentType: string, body: Json)

  const GasLimit: int := 80000
  const Fee: int := 2000
  const ContentType: string := "application/json;charset=UTF-8"
  const OkStatus: int := 200

  /** The store as first created: idle, no error text, no result, no endpoints. */
  function Initial(): (s: State)
    ensures s.viewStatus == Idle && s.errorMessage == "" && s.result == None
    ensures |s.endpoints| == 0
  {
    State(Idle, "", None, [])
  }

  /** The store's `add` action: only the endpoint list changes. */
  function AddEndpoint(s: State, e: Registry.Endpoint): (r: State)
    ensures r.endpoints == Registry.Add(s.endpoints, e)
    ensures r.viewStatus == s.viewStatus && r.errorMessage == s.errorMessage && r.result == s.result
  {
    s.(endpoints := Registry.Add(s.endpoints, e))
  }

  /** The store's `remove` action: only the endpoint list changes. */
  function RemoveEndpoint(s: State, u: string): (r: State)
    ensures r.endpoints == Registry.Remove(s.endpoints, u)
    ensures r.viewStatus == s.viewStatus && r.errorMessage == s.errorMessage && r.result == s.result
  {
    s.(endpoints := Registry.Remove(s.endpoints, u))
  }

  /** The JSON body of the submission: the transaction's two strings under
      `namespace_id` and `data`, then the fixed gas limit and fee. */
  function RequestBody(tx: PfbTx): (body: Json)
    ensures body.JObject?
    ensures Keys(body.fields) == ["namespace_id", "data", "gas_limit", "fee"]
    ensures Lookup(body.fields, "namespace_id") == Some(JString(tx.namespaceId))
    ensures Lookup(body.fields, "data") == Some(JString(tx.data))
    ensures Lookup(body.fields, "gas_limit") == Some(JNumber(80000))
    ensures Lookup(body.fields, "fee") == Some(JNumber(2000))
  {
    var fee := [("fee", JNumber(Fee))];
    var gas := [("gas_limit", JNumber(GasLimit))] + fee;
    var data := [("data", JString(tx.data))] + gas;
    var fields := [("namespace_id", JString(tx.namespaceId))] + data;
    assert Keys(fields) == ["namespace_id", "data", "gas_limit", "fee"] by {
      KeysCons(("fee", JNumber(Fee)), []);
      assert [("fee", JNumber(Fee))] + [] == fee;
      KeysCons(("gas_limit", JNumber(GasLimit)), fee);
      KeysCons(("data", JString(tx.data)), gas);
      KeysCons(("namespace_id", JString(tx.namespaceId)), data);
    }
    assert Lookup(fields, "fee") == Some(JNumber(Fee)) by {
      LookupCons(("gas_limit", JNumber(GasLimit)), fee, "fee");
      LookupCons(("data", JString(tx.data)), gas, "fee");
      LookupCons(("namespace_id", JString(tx.namespaceId)), data, "fee");
    }
    assert Lookup(fields, "gas_limit") == Some(JNumber(GasLimit)) by {
      LookupCons(("data", JString(tx.data)), gas, "gas_limit");
      LookupCons(("namespace_id", JString(tx.namespaceId)), data, "gas_limit");
    }
    assert Lookup(fields, "data") == Some(JString(tx.data)) by {
      LookupCons(("namespace_id", JString(tx.namespaceId)), data, "data");
    }
    JObject(fields)
  }

  /** The body carries the whole transaction: different transactions give
      different bodies, and the gas limit and fee never depend on the input. */
  lemma RequestBodyFaithful(t1: PfbTx, t2: PfbTx)
    ensures RequestBody(t1) == RequestBody(t2) <==> t1 == t2
    ensures Lookup(RequestBody(t1).fields, "gas_limit") == Lookup(RequestBody(t2).fields, "gas_limit")
    ensures Lookup(RequestBody(t1).fields, "fee") == Lookup(RequestBody(t2).fields, "fee")
  {
    if RequestBody(t1) == RequestBody(t2) {
      assert RequestBody(t1).fields[0] == RequestBody(t2).fields[0];
      assert RequestBody(t1).fields[1] == RequestBody(t2).fields[1];
    }
  }

  /** The request `submit` sends: a JSON POST of `RequestBody(tx)` to `url`. */
  function Request(tx: PfbTx, url: string): (req: HttpRequest)
    ensures req.httpMethod == "POST" && req.url == url
    ensures req.contentType == "application/json;charset=UTF-8"
    ensures req.body == RequestBody(tx)
  {
    HttpRequest("POST", url, ContentType, RequestBody(tx))
  }

  /** The synchronous start of `submit`, allowed from every status: Loading, the
      previous result dropped, the error text left as it was. */
  function BeginSubmit(s: State): (r: State)
    ensures r.viewStatus == Loading && r.result == None
    ensures r.errorMessage == s.errorMessage
    ensures r.endpoints == s.endpoints
  {
    s.(viewStatus := Loading, result := None)
  }

  /** The end of `submit`. Status 200 is Success with the body as result and the
      error text untouched; any other status is Error with the serialised body;
      a thrown value is Error with the serialised value. An Error leaves `result`
      as it was. */
  function CompleteSubmit(s: State, o: Outcome, stringify: Json -> string): (r: State)
    ensures r.viewStatus == Success <==> o.Response? && o.status == 200
    ensures r.viewStatus == Error <==> !(o.Response? && o.status == 200)
    ensures r.viewStatus == Success ==> r.result == Some(o.body) && r.errorMessage == s.errorMessage
    ensures o.Response? && o.status != 200 ==> r.errorMessage == stringify(o.body) && r.result == s.result
    ensures o.Failure? ==> r.errorMessage == stringify(o.error) && r.result == s.result
    ensures r.endpoints == s.endpoints
  {
    match o
    case Response(status, body) =>
      if status != OkStatus then s.(viewStatus := Error, errorMessage := stringify(body))
      else s.(viewStatus := Success, result := Some(body))
    case Failure(error) =>
      s.(viewStatus := Error, errorMessage := stringify(error))
  }

  /** The whole `submit` when it resolves before anything else happens. */
  function Submit(s: State, o: Outcome, stringify: Json -> string): (r: State)
    ensures r.viewStatus != Loading
    ensures r.result.Some? <==> r.viewStatus == Success
    ensures r.endpoints == s.endpoints
  {
    CompleteSubmit(BeginSubmit(s), o, stringify)
  }

  /** `reset`: Idle, no result, no error text, endpoints kept. */
  function Reset(s: State): (r: State)
    ensures r.viewStatus == Idle && r.result == None && r.errorMessage == ""
    ensures r.endpoints == s.endpoints
  {
    s.(viewStatus := Idle, result := None, errorMessage := "")
  }

  /** `reset` is idempotent, and it forgets everything a submission did. */
  lemma ResetAbsorbs(s: State, o: Outcome, stringify: Json -> string)
    ensures Reset(Reset(s)) == Reset(s)
    ensures Reset(BeginSubmit(s)) == Reset(s)
    ensures Reset(CompleteSubmit(s, o, stringify)) == Reset(s)
  {
  }

  /** A submission that ends in Error keeps the result it started with, which
      `BeginSubmit` has just cleared. */
  lemma FailedSubmitLeavesNoResult(s: State, o: Outcome, stringify: Json -> string)
    requires !(o.Response? && o.status == 200)
    ensures Submit(s, o, stringify).viewStatus == Error
    ensures Submit(s, o, stringify).result == None
    ensures Submit(s, o, stringify).errorMessage == stringify(if o.Response? then o.body else o.error)
  {
  }
}
