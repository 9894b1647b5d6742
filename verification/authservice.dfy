/** The auth service: the stored token and user, logout and the profile
    request. Login and signup are plain calls of the shared API call and add
    nothing to it. */
module AuthService {
  import opened Basics
  import opened Domain
  import opened Props
  import opened Json
  import opened Http
  import opened Storage
  import opened JsonText

  /** `isAuthenticated()`: `!!localStorage.getItem('token')`. */
  predicate IsAuthenticated(st: Store): (r: bool)
    ensures r <==> TokenKey in st && st[TokenKey] != ""
  {
    TruthyStr(GetItem(st, TokenKey))
  }

  /** What `getAuthData()` returns: the token entry, and the parsed user or
      `null`. */
  datatype AuthData = AuthData(token: Option<string>, user: JsonValue)

  /** `getAuthData()`: a missing or empty user entry gives `null`; it throws
      when the stored user text is not JSON. */
  function GetAuthData(st: Store): (r: Try<AuthData>)
    ensures r.Thrown? <==> ReadUser(st).Thrown?
    ensures r.Ok? ==> r.value.token == GetItem(st, TokenKey)
    ensures ReadUser(st) == Ok(None) ==> r == Ok(AuthData(GetItem(st, TokenKey), Null))
    ensures r.Ok? && ReadUser(st).value.Some? ==> r.value.user == ReadUser(st).value.value
  {
    match ReadUser(st)
    case Ok(None) => Ok(AuthData(GetItem(st, TokenKey), Null))
    case Ok(Some(u)) => Ok(AuthData(GetItem(st, TokenKey), u))
    case Thrown => Thrown
  }

  /** `setAuthData(token, user)`: stores the token and the user's JSON text
      and touches no other entry. */
  function SetAuthData(st: Store, token: string, user: JsonValue): (r: Store)
    ensures GetItem(r, TokenKey) == Some(token)
    ensures forall k :: k != TokenKey && k != UserKey ==> GetItem(r, k) == GetItem(st, k)
  {
    WriteUser(st[TokenKey := token], user)
  }

  /** `clearAuthData()`: removes both entries and nothing else. */
  function ClearAuthData(st: Store): (r: Store)
    ensures GetItem(r, TokenKey).None? && GetItem(r, UserKey).None?
    ensures forall k :: k != TokenKey && k != UserKey ==> GetItem(r, k) == GetItem(st, k)
  {
    ClearAuth(st)
  }

  /** Stored credentials read back as written, whatever JSON value the user
      is; the session counts as authenticated exactly when the token is not
      empty. */
  lemma SetThenGetAuthData(st: Store, token: string, user: JsonValue)
    ensures GetAuthData(SetAuthData(st, token, user)) == Ok(AuthData(Some(token), user))
    ensures IsAuthenticated(SetAuthData(st, token, user)) <==> token != ""
  {
    ReadWrittenUser(st[TokenKey := token], user);
  }

  /** After clearing, nobody is signed in and the user reads as `null`. */
  lemma ClearedAuthData(st: Store)
    ensures !IsAuthenticated(ClearAuthData(st))
    ensures GetAuthData(ClearAuthData(st)) == Ok(AuthData(None, Null))
  {
  }

  /** The outcome of a service call that also changes storage. */
  datatype Effect = Effect(request: Request, result: JsObject, store: Store)

  /** `logout()`: posts with the caller's own `Authorization` header (the
      content type is lost to the options spread), then removes `token` and
      `user` whatever the server answered. */
  function Logout(st: Store, f: Fetch): (e: Effect)
    ensures e.result == MapFetch(f)
    ensures e.store == ClearAuth(st)
  {
    var token := GetItem(st, TokenKey);
    var auth := if TruthyStr(token) then "Bearer " + token.value else "";
    Effect(Request("POST", "/api/auth/logout", SentHeaders(Some([("Authorization", auth)]), None)),
           MapFetch(f), ClearAuth(st))
  }

  const NoTokenText := "Token bulunamadı"

  /** The outcome of `getUserProfile()`: the request it sends, if any, and
      its result. */
  datatype ProfileOutcome = ProfileOutcome(request: Option<Request>, result: JsObject)

  /** `getUserProfile()`: without a token it answers at once and sends
      nothing. */
  function GetUserProfile(st: Store, f: Fetch): (p: ProfileOutcome)
    ensures !IsAuthenticated(st) ==> p == ProfileOutcome(None, Failure(JString(NoTokenText)))
    ensures IsAuthenticated(st) ==> p.request.Some? && p.result == MapFetch(f)
  {
    var token := GetItem(st, TokenKey);
    if !TruthyStr(token) then ProfileOutcome(None, Failure(JString(NoTokenText)))
    else
      ProfileOutcome(
        Some(Request("GET", "/api/auth/profile",
                     SentHeaders(Some([("Authorization", "Bearer " + token.value)]), None))),
        MapFetch(f))
  }

  /** Without a token the profile call does not depend on the network at
      all; with one, its request carries the token and nothing else. */
  lemma ProfileShortCircuit(st: Store, f1: Fetch, f2: Fetch)
    ensures !IsAuthenticated(st) ==> GetUserProfile(st, f1) == GetUserProfile(st, f2)
    ensures IsAuthenticated(st) ==>
      GetUserProfile(st, f1).request.value.headers == [("Authorization", "Bearer " + st[TokenKey])]
  {
  }
}
