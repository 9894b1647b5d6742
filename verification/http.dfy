/** What a `fetch` can end in, how the poker, team and auth services turn that
    into their `{success, error | ...data}` result object, and which request
    headers they send. The three services share one mapping: their `apiCall`
    helpers are the same code. */
module Http {
  import opened Basics
  import opened Props
  import opened Json

  /** The `name` of an error a `fetch` can throw. `OtherError` stands for
      every other error and for thrown values that are not `Error`s. */
  datatype ErrorKind = TimeoutError | TypeError | AbortError | OtherError

  /** The body after `response.json()`: an object, or a parse failure
      (including an empty body). */
  datatype Body = JsonObject(fields: JsObject) | Unparseable

  /** How one `fetch` call ends. */
  datatype Fetch = Responded(status: int, body: Body) | Threw(kind: ErrorKind)

  /** `response.ok`. */
  predicate IsOk(status: int) {
    200 <= status <= 299
  }

  const GenericFailureText := "Bir hata oluştu"
  const TimeoutText := "İstek zaman aşımına uğradı. Lütfen tekrar deneyin."
  const UnreachableText := "Sunucuya bağlanılamıyor. Backend servisinin çalıştığından emin olun."
  const UnexpectedText := "Beklenmeyen bir hata oluştu. Lütfen tekrar deneyin."

  /** `{ success: false, error }`. */
  function Failure(error: JValue): JsObject {
    [("success", JBool(false)), ("error", error)]
  }

  /** `{ success: true, ...body }`: a `success` property of the body wins. */
  function Succeeded(body: JsObject): JsObject {
    Spread([("success", JBool(true))], body)
  }

  /** The message for an error caught around `fetch` and `response.json()`
      in the poker, team and auth services. */
  function CaughtText(kind: ErrorKind): string {
    match kind
    case TimeoutError => TimeoutText
    case TypeError => UnreachableText
    case _ => UnexpectedText
  }

  /** The shared `apiCall` result mapping. A body that does not parse throws
      before the status is looked at, whatever the status. */
  function MapFetch(f: Fetch): (r: JsObject)
    ensures f.Threw? ==> r == Failure(JString(CaughtText(f.kind)))
    ensures f.Responded? && f.body.Unparseable? ==> r == Failure(JString(UnexpectedText))
    ensures f.Responded? && f.body.JsonObject? && !IsOk(f.status) ==>
      r == Failure(FirstTruthyOf(f.body.fields, "message", "error", GenericFailureText))
    ensures f.Responded? && f.body.JsonObject? && IsOk(f.status) ==> r == Succeeded(f.body.fields)
  {
    match f
    case Threw(kind) => Failure(JString(CaughtText(kind)))
    case Responded(status, body) =>
      match body
      case Unparseable => Failure(JString(UnexpectedText))
      case JsonObject(data) =>
        if !IsOk(status) then Failure(FirstTruthyOf(data, "message", "error", GenericFailureText))
        else Succeeded(data)
  }

  /** On an OK JSON response every property of the body is passed through,
      and `success` reads `true` unless the body itself carries `success`. */
  lemma SucceededFields(body: JsObject, k: string)
    requires UniqueKeys(body)
    ensures Has(body, k) ==> Get(Succeeded(body), k) == Get(body, k)
    ensures !Has(body, k) && k != "success" ==> !Has(Succeeded(body), k)
    ensures !Has(body, "success") ==> Get(Succeeded(body), "success") == Some(JBool(true))
  {
    SpreadGet([("success", JBool(true))], body, k);
    SpreadGet([("success", JBool(true))], body, "success");
  }

  /** A call reports success exactly when the server answered 2xx with a JSON
      object whose own `success` property, if it has one, is truthy. */
  lemma MapFetchSucceedsIff(f: Fetch)
    requires f.Responded? && f.body.JsonObject? ==> UniqueKeys(f.body.fields)
    ensures TruthyAt(MapFetch(f), "success") <==>
      f.Responded? && IsOk(f.status) && f.body.JsonObject?
      && (Has(f.body.fields, "success") ==> TruthyAt(f.body.fields, "success"))
  {
    if f.Responded? && f.body.JsonObject? && IsOk(f.status) {
      SucceededFields(f.body.fields, "success");
    }
  }

  /** Every failure the mapping itself produces carries a truthy `error`,
      so callers never fall back to their own default text for it. */
  lemma MapFetchFailureHasError(f: Fetch)
    requires !(f.Responded? && f.body.JsonObject? && IsOk(f.status))
    ensures !TruthyAt(MapFetch(f), "success") && TruthyAt(MapFetch(f), "error")
  {
  }

  /** Request headers as a string-valued property list. */
  type Headers = Props<string>

  /** `{ 'Content-Type': 'application/json', ...callerHeaders }`, then
      `Authorization: Bearer <token>` when a token is stored (the auth service
      passes no token here). */
  function MergedHeaders(caller: Option<Headers>, token: Option<string>): Headers {
    var merged := Spread([("Content-Type", "application/json")], caller.GetOr([]));
    if TruthyStr(token) then Put(merged, "Authorization", "Bearer " + token.value) else merged
  }

  /** A request as handed to `fetch`: method, endpoint path (the configured
      base URL is left out) and headers. */
  datatype Request = Request(verb: string, path: string, headers: Headers)

  /** The headers `fetch` receives: `{ ...defaultOptions, ...options }` puts
      the caller's own `headers` object over the merged one whenever the
      caller passed one. */
  function SentHeaders(caller: Option<Headers>, token: Option<string>): Headers {
    if caller.Some? then caller.value else MergedHeaders(caller, token)
  }

  /** Without caller headers the request carries the JSON content type, and
      an `Authorization` header if and only if a token is stored. With caller
      headers it carries exactly those. */
  lemma SentHeadersContents(caller: Option<Headers>, token: Option<string>)
    ensures caller.None? ==> Get(SentHeaders(caller, token), "Content-Type") == Some("application/json")
    ensures caller.None? ==> (Has(SentHeaders(caller, token), "Authorization") <==> TruthyStr(token))
    ensures caller.None? && TruthyStr(token) ==>
      Get(SentHeaders(caller, token), "Authorization") == Some("Bearer " + token.value)
    ensures caller.Some? ==> SentHeaders(caller, token) == caller.value
  {
    if caller.None? && TruthyStr(token) {
      PutOther([("Content-Type", "application/json")], "Authorization", "Bearer " + token.value, "Content-Type");
    }
  }

  /** The merge the helpers build (and then lose) keeps every caller header
      except that a stored token overrides `Authorization`, and supplies the
      content type when the caller did not set one. */
  lemma MergedHeadersContents(caller: Headers, token: Option<string>, k: string)
    requires UniqueKeys(caller)
    ensures TruthyStr(token) ==> Get(MergedHeaders(Some(caller), token), "Authorization") == Some("Bearer " + token.value)
    ensures k != "Authorization" || !TruthyStr(token) ==>
      Get(MergedHeaders(Some(caller), token), k) ==
        (if Has(caller, k) then Get(caller, k)
         else if k == "Content-Type" then Some("application/json") else None)
  {
    var merged := Spread([("Content-Type", "application/json")], caller);
    SpreadGet([("Content-Type", "application/json")], caller, k);
    if TruthyStr(token) && k != "Authorization" {
      PutOther(merged, "Authorization", "Bearer " + token.value, k);
    }
  }

  /** With caller headers and a stored token, the request goes out without the
      token: a header the code builds on purpose is dropped. */
  lemma CallerHeadersDropToken()
    ensures !Has(SentHeaders(Some([("X-Trace", "1")]), Some("abc.def.ghi")), "Authorization")
    ensures Get(MergedHeaders(Some([("X-Trace", "1")]), Some("abc.def.ghi")), "Authorization")
      == Some("Bearer abc.def.ghi")
  {
    var caller: Headers := [("X-Trace", "1")];
    var merged := Spread([("Content-Type", "application/json")], caller);
    assert merged == [("Content-Type", "application/json"), ("X-Trace", "1")];
    assert "Bearer " + "abc.def.ghi" == "Bearer abc.def.ghi";
  }
}
