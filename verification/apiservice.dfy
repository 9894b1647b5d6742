/** The common API service's `apiCall`: the same `fetch` outcomes, but with a
    per-status classification of failures, an unparseable body read as `{}`,
    a session-expiry path that clears the stored credentials, and an optional
    error toast. */
module ApiService {
  import opened Basics
  import opened Props
  import opened Json
  import opened Http
  import opened Storage

  const SessionExpiredText := "Oturumunuz sona ermiş. Lütfen tekrar giriş yapın."
  const BadRequestText := "Geçersiz istek. Lütfen girdiğiniz bilgileri kontrol edin."
  const ForbiddenText := "Bu işlem için yetkiniz bulunmuyor."
  const NotFoundText := "Aradığınız kaynak bulunamadı."
  const ConflictText := "Bir çakışma oluştu. Bu kaynak zaten mevcut."
  const ServerErrorText := "Sunucu hatası oluştu. Lütfen daha sonra tekrar deneyin."
  const AbortedText := "İstek iptal edildi."

  /** The default text for any other failing status. */
  function OtherStatusText(status: int): string {
    "HTTP " + IntToString(status) + ": Bir hata oluştu"
  }

  /** Everything one call does: its result, the storage afterwards, the
      error toast shown (if any) and whether a redirect to `/login` is
      scheduled. */
  datatype Outcome = Outcome(result: JsObject, store: Store, toast: Option<JValue>, redirectToLogin: bool)

  /** `data` after `try { data = await response.json() } catch { data = {} }`. */
  function BodyData(b: Body): JsObject {
    if b.JsonObject? then b.fields else []
  }

  /** The statuses with a text of their own when the body has neither
      `message` nor `error`. */
  function ClientErrorDefault(status: int): Option<string> {
    if status == 400 then Some(BadRequestText)
    else if status == 403 then Some(ForbiddenText)
    else if status == 404 then Some(NotFoundText)
    else if status == 409 then Some(ConflictText)
    else None
  }

  /** The error a response is reported with, or `None` for a success; the
      statuses are tested in the order the helper tests them. */
  function ResponseError(status: int, data: JsObject): (r: Option<JValue>)
    ensures r.None? <==> IsOk(status)
    ensures status == 401 ==> r == Some(JString(SessionExpiredText))
    ensures status >= 500 ==> r == Some(JString(ServerErrorText))
    ensures r.Some? && ClientErrorDefault(status).Some? && !TruthyAt(data, "message") && !TruthyAt(data, "error") ==>
      r.value == JString(ClientErrorDefault(status).value)
  {
    if status == 401 then Some(JString(SessionExpiredText))
    else if ClientErrorDefault(status).Some? then
      Some(FirstTruthyOf(data, "message", "error", ClientErrorDefault(status).value))
    else if status >= 500 then Some(JString(ServerErrorText))
    else if !IsOk(status) then Some(FirstTruthyOf(data, "message", "error", OtherStatusText(status)))
    else None
  }

  /** The message for an error thrown by `fetch`. */
  function ThrownText(kind: ErrorKind): string {
    match kind
    case TimeoutError => TimeoutText
    case TypeError => UnreachableText
    case AbortError => AbortedText
    case OtherError => UnexpectedText
  }

  /** `apiCall(endpoint, options, showToast)`. */
  function ApiCall(st: Store, f: Fetch, showToast: bool): (o: Outcome)
    ensures o.redirectToLogin <==> f.Responded? && f.status == 401
    ensures o.store == if f.Responded? && f.status == 401 then ClearAuth(st) else st
    ensures o.toast.Some? <==> showToast && !(f.Responded? && ResponseError(f.status, BodyData(f.body)).None?)
    ensures o.toast.Some? ==> Get(o.result, "error") == Some(o.toast.value)
    ensures f.Responded? && IsOk(f.status) ==> o.result == Succeeded(BodyData(f.body))
  {
    match f
    case Threw(kind) =>
      var text := ThrownText(kind);
      Outcome(Failure(JString(text)), st, if showToast then Some(JString(text)) else None, false)
    case Responded(status, body) =>
      var data := BodyData(body);
      match ResponseError(status, data)
      case None => Outcome(Succeeded(data), st, None, false)
      case Some(error) =>
        var st' := if status == 401 then ClearAuth(st) else st;
        var toast := if showToast then Some(error) else None;
        Outcome(Failure(error), st', toast, status == 401)
  }

  /** A call succeeds exactly on a 2xx status, with or without a parseable
      body, unless the body's own `success` property is falsy. */
  lemma ApiCallSucceedsIff(st: Store, f: Fetch, showToast: bool)
    requires f.Responded? && f.body.JsonObject? ==> UniqueKeys(f.body.fields)
    ensures TruthyAt(ApiCall(st, f, showToast).result, "success") <==>
      f.Responded? && IsOk(f.status)
      && (Has(BodyData(f.body), "success") ==> TruthyAt(BodyData(f.body), "success"))
  {
    if f.Responded? && IsOk(f.status) {
      SucceededFields(BodyData(f.body), "success");
    }
  }

  /** A successful call hands the caller every property of the body
      unchanged, with `success` reading `true` unless the body sets it. */
  lemma ApiCallPassesBody(st: Store, status: int, body: Body, showToast: bool, k: string)
    requires IsOk(status)
    requires body.JsonObject? ==> UniqueKeys(body.fields)
    ensures var r := ApiCall(st, Responded(status, body), showToast).result;
      && (Has(BodyData(body), k) ==> Get(r, k) == Get(BodyData(body), k))
      && (!Has(BodyData(body), k) && k != "success" ==> !Has(r, k))
      && (!Has(BodyData(body), "success") ==> Get(r, "success") == Some(JBool(true)))
  {
    SucceededFields(BodyData(body), k);
  }

  /** The error each failing status is reported with: 401 and 5xx have fixed
      texts that ignore the body; 400, 403, 404, 409 and every other failing
      status take the body's `message`, else its `error`, else their own
      default. */
  lemma ApiCallStatusErrors(st: Store, status: int, body: Body, showToast: bool)
    ensures var r := ApiCall(st, Responded(status, body), showToast).result;
      var data := BodyData(body);
      && (status == 401 ==> r == Failure(JString(SessionExpiredText)))
      && (status in {400, 403, 404, 409} ==>
            r == Failure(FirstTruthyOf(data, "message", "error", ClientErrorDefault(status).value)))
      && (status >= 500 ==> r == Failure(JString(ServerErrorText)))
      && (!IsOk(status) && status !in {400, 401, 403, 404, 409} && status < 500 ==>
            r == Failure(FirstTruthyOf(data, "message", "error", OtherStatusText(status))))
  {
  }

  /** A server error reads the same whatever body came with it. */
  lemma ServerErrorIgnoresBody(st: Store, status: int, b1: Body, b2: Body, showToast: bool)
    requires status >= 500
    ensures ApiCall(st, Responded(status, b1), showToast) == ApiCall(st, Responded(status, b2), showToast)
  {
  }

  /** An OK response whose body does not parse is a success with nothing
      but `success: true`. */
  lemma UnparseableOkIsEmptySuccess(st: Store, status: int, showToast: bool)
    requires IsOk(status)
    ensures ApiCall(st, Responded(status, Unparseable), showToast).result == [("success", JBool(true))]
  {
  }

  /** Thrown errors: timeouts, network failures and aborts each have their
      own text; anything else gets the generic one. */
  lemma ApiCallThrownErrors(st: Store, kind: ErrorKind, showToast: bool)
    ensures var o := ApiCall(st, Threw(kind), showToast);
      && o.store == st
      && o.result == Failure(JString(
           if kind == TimeoutError then TimeoutText
           else if kind == TypeError then UnreachableText
           else if kind == AbortError then AbortedText
           else UnexpectedText))
  {
  }
}
