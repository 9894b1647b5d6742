/** The poker REST endpoints: which method and URL each service call uses,
    what body it carries, and how the server side reads them back. Headers
    are the shared ones with no caller override, so every call carries the
    JSON content type and the stored token. */
module PokerApi {
  import opened Basics
  import opened Props
  import opened Json
  import opened Http
  import opened Storage

  /** One call of the poker service, with its arguments. */
  datatype Endpoint =
    | CreateSession(teamId: string, storyTitle: string, storyDescription: string)
    | JoinSession(sessionId: string)
    | CastVote(sessionId: string, voteValue: string)
    | RevealVotes(sessionId: string)
    | CompleteSession(sessionId: string, finalEstimate: string)
    | GetActiveSession(teamId: string)
    | GetTeamSessions(teamId: string)
    | StartVoting(sessionId: string)

  /** The JSON body a call sends. */
  datatype Payload =
    | NoPayload
    | NewSession(teamId: string, storyTitle: string, storyDescription: string)
    | NewVote(sessionId: string, voteValue: string)

  const PokerPrefix := "/api/poker/"
  const SessionsPath := "/api/poker/sessions"
  const VotesPath := "/api/poker/votes"
  const SessionsPrefix := "/api/poker/sessions/"
  const TeamsPrefix := "/api/poker/teams/"
  const EstimateQuery := "?finalEstimate="

  function VerbOf(e: Endpoint): string {
    if e.GetActiveSession? || e.GetTeamSessions? then "GET" else "POST"
  }

  function PayloadOf(e: Endpoint): Payload {
    match e
    case CreateSession(t, s, d) => NewSession(t, s, d)
    case CastVote(id, v) => NewVote(id, v)
    case _ => NoPayload
  }

  /** The endpoint URLs as the service builds them: arguments are spliced
      into the template unescaped, the final estimate included. */
  function PathOf(e: Endpoint): (r: string)
    ensures PokerPrefix <= r
  {
    match e
    case CreateSession(_, _, _) => SessionsPath
    case JoinSession(id) => SessionsPrefix + id + "/join"
    case CastVote(_, _) => VotesPath
    case RevealVotes(id) => SessionsPrefix + id + "/reveal"
    case CompleteSession(id, fe) => SessionsPrefix + id + "/complete" + EstimateQuery + fe
    case GetActiveSession(t) => TeamsPrefix + t + "/active-session"
    case GetTeamSessions(t) => TeamsPrefix + t + "/sessions"
    case StartVoting(id) => SessionsPrefix + id + "/start-voting"
  }

  /** The request a call hands to `fetch`: the service passes no headers of
      its own, so the merged defaults are sent. */
  function RequestFor(st: Store, e: Endpoint): (r: Request)
    ensures r.verb == "GET" <==> e.GetActiveSession? || e.GetTeamSessions?
    ensures Get(r.headers, "Content-Type") == Some("application/json")
    ensures Has(r.headers, "Authorization") <==> TruthyStr(GetItem(st, TokenKey))
    ensures TruthyStr(GetItem(st, TokenKey)) ==>
      Get(r.headers, "Authorization") == Some("Bearer " + GetItem(st, TokenKey).value)
  {
    SentHeadersContents(None, GetItem(st, TokenKey));
    Request(VerbOf(e), PathOf(e), SentHeaders(None, GetItem(st, TokenKey)))
  }

  /** No character of `s` is in `stops`. */
  predicate Free(s: string, stops: set<char>) {
    forall i :: 0 <= i < |s| ==> s[i] !in stops
  }

  /** `s` cut before its first character in `stops`. */
  function Span(s: string, stops: set<char>): (string, string) {
    if s == [] || s[0] in stops then ([], s)
    else
      var p := Span(s[1..], stops);
      ([s[0]] + p.0, p.1)
  }

  /** The cut splits `s` into a run free of `stops` and a rest that is empty
      or starts at a character in `stops`. */
  lemma {:induction false} SpanCut(s: string, stops: set<char>)
    ensures Span(s, stops).0 + Span(s, stops).1 == s
    ensures Free(Span(s, stops).0, stops)
    ensures Span(s, stops).1 != [] ==> Span(s, stops).1[0] in stops
  {
    if s != [] && s[0] !in stops {
      SpanCut(s[1..], stops);
      var p := Span(s[1..], stops);
      assert [s[0]] + p.0 + p.1 == [s[0]] + s[1..] == s;
      forall i | 0 <= i < |[s[0]] + p.0|
        ensures ([s[0]] + p.0)[i] !in stops
      {
        if i > 0 {
          assert ([s[0]] + p.0)[i] == p.0[i - 1];
        }
      }
    }
  }

  /** ... and it is the only cut with those properties. */
  lemma {:induction false} SpanOf(a: string, b: string, stops: set<char>)
    requires Free(a, stops)
    requires b != [] ==> b[0] in stops
    ensures Span(a + b, stops) == (a, b)
  {
    if a == [] {
      assert a + b == b;
    } else {
      assert (a + b)[0] == a[0];
      assert (a + b)[1..] == a[1..] + b;
      assert Free(a[1..], stops) by {
        forall i | 0 <= i < |a[1..]|
          ensures a[1..][i] !in stops
        {
          assert a[1..][i] == a[i + 1];
        }
      }
      SpanOf(a[1..], b, stops);
      assert [a[0]] + a[1..] == a;
    }
  }

  lemma FreeConcat(a: string, b: string, stops: set<char>)
    requires Free(a, stops) && Free(b, stops)
    ensures Free(a + b, stops)
  {
    forall i | 0 <= i < |a + b|
      ensures (a + b)[i] !in stops
    {
      if i >= |a| {
        assert (a + b)[i] == b[i - |a|];
      }
    }
  }

  predicate HasPrefix(s: string, p: string) {
    |p| <= |s| && s[..|p|] == p
  }

  /** The characters that end a query value or carry a meaning in it. */
  const QueryReserved: set<char> := {'&', '#', '%', '+'}

  /** The value of a hexadecimal digit. */
  function HexValue(c: char): Option<nat> {
    if '0' <= c <= '9' then Some(c as int - '0' as int)
    else if 'A' <= c <= 'F' then Some(c as int - 'A' as int + 10)
    else if 'a' <= c <= 'f' then Some(c as int - 'a' as int + 10)
    else None
  }

  function HexDigit(d: nat): (c: char)
    requires d < 16
    ensures HexValue(c) == Some(d)
  {
    if d < 10 then (d + '0' as int) as char else (d - 10 + 'A' as int) as char
  }

  /** How the server decodes a query value: `+` is a space and `%XY` the
      ASCII character with that code; anything else stands for itself. */
  function DecodeQuery(s: string): string {
    if s == [] then []
    else if s[0] == '%' && |s| >= 3 && HexValue(s[1]).Some? && HexValue(s[2]).Some?
      && HexValue(s[1]).value < 8 then
      [(HexValue(s[1]).value * 16 + HexValue(s[2]).value) as char] + DecodeQuery(s[3..])
    else if s[0] == '+' then [' '] + DecodeQuery(s[1..])
    else [s[0]] + DecodeQuery(s[1..])
  }

  /** The value of the parameter at the front of `q`: up to the next `&`,
      decoded. */
  function QueryValue(q: string): string {
    DecodeQuery(Span(q, {'&'}).0)
  }

  /** The path and the query of a URL, its fragment dropped. */
  function SplitUrl(url: string): (string, string) {
    Span(Span(url, {'#'}).0, {'?'})
  }

  /** Which call the server sees in a method, URL and body. */
  function Route(verb: string, url: string, payload: Payload): Option<Endpoint> {
    var split := SplitUrl(url);
    RoutePath(verb, split.0, split.1, payload)
  }

  /** Matching a path against the endpoint templates. */
  function RoutePath(verb: string, path: string, query: string, payload: Payload): Option<Endpoint> {
    if path == SessionsPath then
      if verb == "POST" && payload.NewSession? then
        Some(CreateSession(payload.teamId, payload.storyTitle, payload.storyDescription))
      else None
    else if path == VotesPath then
      if verb == "POST" && payload.NewVote? then Some(CastVote(payload.sessionId, payload.voteValue))
      else None
    else if HasPrefix(path, SessionsPrefix) && verb == "POST" then
      SessionRoute(Span(path[|SessionsPrefix|..], {'/'}), query)
    else if HasPrefix(path, TeamsPrefix) && verb == "GET" then
      TeamRoute(Span(path[|TeamsPrefix|..], {'/'}))
    else None
  }

  /** The actions on one session: an identifier segment, then the action. */
  function SessionRoute(seg: (string, string), query: string): Option<Endpoint> {
    if seg.1 == "/join" then Some(JoinSession(seg.0))
    else if seg.1 == "/reveal" then Some(RevealVotes(seg.0))
    else if seg.1 == "/start-voting" then Some(StartVoting(seg.0))
    else if seg.1 == "/complete" && HasPrefix(query, EstimateQuery) then
      Some(CompleteSession(seg.0, QueryValue(query[|EstimateQuery|..])))
    else None
  }

  /** The queries about one team. */
  function TeamRoute(seg: (string, string)): Option<Endpoint> {
    if seg.1 == "/active-session" then Some(GetActiveSession(seg.0))
    else if seg.1 == "/sessions" then Some(GetTeamSessions(seg.0))
    else None
  }

  /** Identifiers that fit in one path segment. */
  predicate SafeId(id: string) {
    Free(id, {'/', '?', '#'})
  }

  predicate SafeIds(e: Endpoint) {
    match e
    case CreateSession(_, _, _) => true
    case CastVote(_, _) => true
    case JoinSession(id) => SafeId(id)
    case RevealVotes(id) => SafeId(id)
    case CompleteSession(id, _) => SafeId(id)
    case GetActiveSession(t) => SafeId(t)
    case GetTeamSessions(t) => SafeId(t)
    case StartVoting(id) => SafeId(id)
  }

  /** A value with no character the query syntax reserves decodes to
      itself. */
  lemma {:induction false} DecodePlain(s: string)
    requires Free(s, QueryReserved)
    ensures DecodeQuery(s) == s
  {
    if s != [] {
      assert Free(s[1..], QueryReserved) by {
        assert forall i :: 0 <= i < |s| - 1 ==> s[1..][i] == s[i + 1];
      }
      DecodePlain(s[1..]);
    }
  }

  /** The fixed parts of the templates hold no fragment or query mark of
      their own, apart from the one that opens the estimate query. */
  lemma TemplatePartsFree()
    ensures Free(SessionsPrefix, {'#', '?'}) && Free(TeamsPrefix, {'#', '?'})
    ensures Free(EstimateQuery, {'#'})
    ensures Free("/complete", {'#', '?'})
  {
  }

  /** How the server splits a URL into path and query. */
  lemma UrlSplit(path: string, query: string, frag: string)
    requires Free(path, {'#', '?'}) && Free(query, {'#'})
    requires query != [] ==> query[0] == '?'
    requires frag != [] ==> frag[0] == '#'
    ensures SplitUrl(path + query + frag) == (path, query)
  {
    assert Free(path, {'#'});
    FreeConcat(path, query, {'#'});
    SpanOf(path + query, frag, {'#'});
    assert Free(path, {'?'});
    SpanOf(path, query, {'?'});
  }

  lemma PathFree(prefix: string, id: string, action: string)
    requires Free(prefix, {'#', '?'}) && SafeId(id) && Free(action, {'#', '?'})
    ensures Free(prefix + id + action, {'#', '?'})
  {
    assert Free(id, {'#', '?'});
    FreeConcat(prefix, id, {'#', '?'});
    FreeConcat(prefix + id, action, {'#', '?'});
  }

  /** A session path reaches the session actions with its identifier. */
  lemma SessionPathRoute(id: string, action: string, query: string, payload: Payload)
    requires SafeId(id) && action != [] && action[0] == '/'
    ensures RoutePath("POST", SessionsPrefix + id + action, query, payload) == SessionRoute((id, action), query)
  {
    var path := SessionsPrefix + id + action;
    assert |path| > |SessionsPath|;
    assert path[11] == 's' && VotesPath[11] == 'v';
    assert path[..|SessionsPrefix|] == SessionsPrefix;
    assert path[|SessionsPrefix|..] == id + action;
    assert Free(id, {'/'});
    SpanOf(id, action, {'/'});
  }

  /** A team path reaches the team queries with its identifier. */
  lemma TeamPathRoute(id: string, action: string, payload: Payload)
    requires SafeId(id) && action != [] && action[0] == '/'
    ensures RoutePath("GET", TeamsPrefix + id + action, [], payload) == TeamRoute((id, action))
  {
    var path := TeamsPrefix + id + action;
    assert path[11] == 't' && SessionsPath[11] == 's' && VotesPath[11] == 'v';
    assert path[..|TeamsPrefix|] == TeamsPrefix;
    assert path[|TeamsPrefix|..] == id + action;
    assert Free(id, {'/'});
    SpanOf(id, action, {'/'});
  }

  lemma RouteSessionAction(id: string, action: string)
    requires SafeId(id) && action != [] && action[0] == '/' && Free(action, {'#', '?'})
    ensures Route("POST", SessionsPrefix + id + action, NoPayload) == SessionRoute((id, action), [])
  {
    PathFree(SessionsPrefix, id, action);
    UrlSplit(SessionsPrefix + id + action, [], []);
    assert SessionsPrefix + id + action + [] + [] == SessionsPrefix + id + action;
    SessionPathRoute(id, action, [], NoPayload);
  }

  lemma RouteTeamAction(id: string, action: string)
    requires SafeId(id) && action != [] && action[0] == '/' && Free(action, {'#', '?'})
    ensures Route("GET", TeamsPrefix + id + action, NoPayload) == TeamRoute((id, action))
  {
    PathFree(TeamsPrefix, id, action);
    UrlSplit(TeamsPrefix + id + action, [], []);
    assert TeamsPrefix + id + action + [] + [] == TeamsPrefix + id + action;
    TeamPathRoute(id, action, NoPayload);
  }

  lemma RouteFixedPath(path: string)
    requires path == SessionsPath || path == VotesPath
    ensures SplitUrl(path) == (path, [])
  {
    UrlSplit(path, [], []);
    assert path + [] + [] == path;
  }

  /** The completion URL as built: the server reads the estimate up to a
      `#`, then up to an `&`, then decodes it. */
  lemma RouteCompletePath(id: string, fe: string)
    requires SafeId(id)
    ensures Route("POST", PathOf(CompleteSession(id, fe)), NoPayload)
      == Some(CompleteSession(id, QueryValue(Span(fe, {'#'}).0)))
  {
    TemplatePartsFree();
    var cut := Span(fe, {'#'});
    SpanCut(fe, {'#'});
    var query := EstimateQuery + cut.0;
    FreeConcat(EstimateQuery, cut.0, {'#'});
    var path := SessionsPrefix + id + "/complete";
    PathFree(SessionsPrefix, id, "/complete");
    assert PathOf(CompleteSession(id, fe)) == path + query + cut.1;
    UrlSplit(path, query, cut.1);
    SessionPathRoute(id, "/complete", query, NoPayload);
    assert query[..|EstimateQuery|] == EstimateQuery;
    assert query[|EstimateQuery|..] == cut.0;
  }

  /** Every call built by the service is read back by the server as the
      same call, provided identifiers fit in a path segment and the final
      estimate uses no character the query syntax reserves. */
  lemma RouteRequestFor(st: Store, e: Endpoint)
    requires SafeIds(e)
    requires e.CompleteSession? ==> Free(e.finalEstimate, QueryReserved)
    ensures Route(RequestFor(st, e).verb, RequestFor(st, e).path, PayloadOf(e)) == Some(e)
  {
    match e
    case CreateSession(_, _, _) => RouteFixedPath(SessionsPath);
    case CastVote(_, _) => RouteFixedPath(VotesPath);
    case JoinSession(id) => RouteSessionAction(id, "/join");
    case RevealVotes(id) => RouteSessionAction(id, "/reveal");
    case StartVoting(id) => RouteSessionAction(id, "/start-voting");
    case CompleteSession(id, fe) => RoutePlainEstimate(id, fe);
    case GetActiveSession(t) => RouteTeamAction(t, "/active-session");
    case GetTeamSessions(t) => RouteTeamAction(t, "/sessions");
  }

  lemma RoutePlainEstimate(id: string, fe: string)
    requires SafeId(id) && Free(fe, QueryReserved)
    ensures Route("POST", PathOf(CompleteSession(id, fe)), NoPayload) == Some(CompleteSession(id, fe))
  {
    RouteCompletePath(id, fe);
    assert Free(fe, {'#'});
    SpanOf(fe, [], {'#'});
    assert fe + [] == fe;
    assert Free(fe, {'&'});
    SpanOf(fe, [], {'&'});
    DecodePlain(fe);
  }

  /** An estimate with an ampersand reaches the server cut short: `5&x`
      completes the session with `5`. */
  lemma UnescapedEstimateCut()
    ensures Route("POST", PathOf(CompleteSession("s1", "5&x")), NoPayload)
      == Some(CompleteSession("s1", "5"))
  {
    var id, fe := "s1", "5&x";
    assert SafeId(id);
    EstimateCut();
    RouteCompletePath(id, fe);
  }

  /** `5&x` has no fragment mark, and its query value stops at the `&`. */
  lemma EstimateCut()
    ensures Span("5&x", {'#'}).0 == "5&x"
    ensures QueryValue("5&x") == "5"
  {
    SpanOf("5&x", [], {'#'});
    assert "5&x" + [] == "5&x";
    SpanOf("5", "&x", {'&'});
    assert "5" + "&x" == "5&x";
  }

  /** `encodeURIComponent` restricted to the characters the query syntax
      reserves: each becomes `%` and its two hexadecimal digits. */
  function EncodeQuery(s: string): (r: string)
    ensures Free(r, {'&', '#'})
  {
    if s == [] then []
    else
      var rest := EncodeQuery(s[1..]);
      var head := if s[0] in QueryReserved then
        ['%', HexDigit(s[0] as int / 16), HexDigit(s[0] as int % 16)]
      else [s[0]];
      assert Free(head, {'&', '#'});
      FreeConcat(head, rest, {'&', '#'});
      head + rest
  }

  lemma {:induction false} DecodeEncodeQuery(s: string)
    ensures DecodeQuery(EncodeQuery(s)) == s
  {
    if s != [] {
      DecodeEncodeQuery(s[1..]);
      var rest := EncodeQuery(s[1..]);
      if s[0] in QueryReserved {
        var e := ['%', HexDigit(s[0] as int / 16), HexDigit(s[0] as int % 16)] + rest;
        assert EncodeQuery(s) == e;
        assert e[3..] == rest;
        assert (HexValue(e[1]).value * 16 + HexValue(e[2]).value) as char == s[0];
      } else {
        assert EncodeQuery(s) == [s[0]] + rest;
        assert ([s[0]] + rest)[1..] == rest;
      }
      assert [s[0]] + s[1..] == s;
    }
  }

  /** The URLs with the estimate encoded. */
  function EncodedPathOf(e: Endpoint): string {
    if e.CompleteSession? then SessionsPrefix + e.sessionId + "/complete" + EstimateQuery + EncodeQuery(e.finalEstimate)
    else PathOf(e)
  }

  /** With the estimate encoded, every estimate reaches the server intact. */
  lemma RouteEncodedPath(e: Endpoint)
    requires SafeIds(e)
    ensures Route(VerbOf(e), EncodedPathOf(e), PayloadOf(e)) == Some(e)
  {
    if e.CompleteSession? {
      var enc := EncodeQuery(e.finalEstimate);
      RouteCompletePath(e.sessionId, enc);
      assert PathOf(CompleteSession(e.sessionId, enc)) == EncodedPathOf(e);
      assert Free(enc, {'#'});
      SpanOf(enc, [], {'#'});
      assert enc + [] == enc;
      assert Free(enc, {'&'});
      SpanOf(enc, [], {'&'});
      DecodeEncodeQuery(e.finalEstimate);
    } else {
      RouteRequestFor(map[], e);
    }
  }
}
