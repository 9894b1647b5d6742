/** Parsed JSON values as the client handles them, and the JavaScript
    truthiness rules its `a || b` and `if (x)` tests apply to them. Structured
    payloads the client reads field by field (sessions, votes, teams) are kept
    typed; any other object or array is an opaque composite. */
module Json {
  import opened Basics
  import opened Domain
  import opened Props

  datatype Data =
    | SessionData(session: Session)
    | VoteData(vote: Vote)
    | TeamData(team: Team)
    | TeamListData(teams: seq<Team>)
    | SessionListData(sessions: seq<Session>)
    | OtherComposite

  datatype JValue =
    | JString(str: string)
    | JNumber(num: int)
    | JBool(b: bool)
    | JNull
    | JData(data: Data)

  /** A JSON object after `JSON.parse`. */
  type JsObject = Props<JValue>

  /** JavaScript truthiness: empty strings, zero, `false` and `null` are
      falsy; objects and arrays (even empty ones) are truthy. */
  predicate Truthy(v: JValue) {
    match v
    case JString(s) => s != ""
    case JNumber(n) => n != 0
    case JBool(b) => b
    case JNull => false
    case JData(_) => true
  }

  /** Truthiness of `o[k]`, where a missing property is `undefined`. */
  predicate TruthyAt(o: JsObject, k: string) {
    var v := Get(o, k);
    v.Some? && Truthy(v.value)
  }

  /** Truthiness of a value that may be `undefined`. */
  predicate TruthyOpt(v: Option<JValue>) {
    v.Some? && Truthy(v.value)
  }

  /** `vs[0] || vs[1] || ... || fallback`: the first truthy value, in
      order, and the fallback when none is truthy. */
  function FirstTruthy(vs: seq<Option<JValue>>, fallback: string): (r: JValue)
    ensures Truthy(r) || r == JString(fallback)
    ensures r == JString(fallback) || Some(r) in vs
    ensures forall i :: 0 <= i < |vs| && TruthyOpt(vs[i]) && (forall j :: 0 <= j < i ==> !TruthyOpt(vs[j])) ==>
      r == vs[i].value
    ensures (forall i :: 0 <= i < |vs| ==> !TruthyOpt(vs[i])) ==> r == JString(fallback)
    decreases |vs|
  {
    if |vs| == 0 then JString(fallback)
    else if TruthyOpt(vs[0]) then vs[0].value
    else FirstTruthy(vs[1..], fallback)
  }

  /** `o[k1] || o[k2] || fallback`. */
  function FirstTruthyOf(o: JsObject, k1: string, k2: string, fallback: string): (r: JValue)
    ensures TruthyAt(o, k1) ==> Some(r) == Get(o, k1)
    ensures !TruthyAt(o, k1) && TruthyAt(o, k2) ==> Some(r) == Get(o, k2)
    ensures !TruthyAt(o, k1) && !TruthyAt(o, k2) ==> r == JString(fallback)
  {
    var vs := [Get(o, k1), Get(o, k2)];
    assert TruthyOpt(vs[0]) == TruthyAt(o, k1) && TruthyOpt(vs[1]) == TruthyAt(o, k2);
    FirstTruthy(vs, fallback)
  }

  /** `o[k] || fallback` where `o[k]` is expected to be a string. */
  function TextOr(o: JsObject, k: string, fallback: string): JValue {
    if TruthyAt(o, k) then Get(o, k).value else JString(fallback)
  }
}
