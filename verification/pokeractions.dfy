/** The planning-poker component's actions: each button handler publishes on
    the broadcast connection, calls the REST service, and folds the result
    into the component's state. One `fetch` outcome is an input of each
    action; storage and the connection are threaded through. */
module PokerActions {
  import opened Basics
  import opened Domain
  import opened Props
  import opened Json
  import opened Http
  import opened Storage
  import opened Estimate
  import opened PokerView
  import PS = PokerSocket
  import Api = PokerApi

  /** Everything an action leaves behind: the component's state, the
      connection, storage, and the REST request it issued, if any. */
  datatype Effect = Effect(view: View, conn: PS.Conn, store: Store, request: Option<Request>)

  /** The result object the component receives for one `fetch` outcome. */
  function Response(f: Fetch): JsObject {
    MapFetch(f)
  }

  predicate Accepted(f: Fetch) {
    TruthyAt(Response(f), "success")
  }

  /** The state after `setError(response.error || fallback)`. */
  function Failed(v: View, f: Fetch, fallback: string): View {
    v.(error := TextOr(Response(f), "error", fallback))
  }

  /** A button press the guard turns away. */
  function Unchanged(v: View, conn: PS.Conn, st: Store): Effect {
    Effect(v, conn, st, None)
  }

  predicate VotingOpen(v: View) {
    v.session.Some? && v.session.value.status == Voting
  }

  const VoteFailedText := "Vote could not be cast"
  const RevealFailedText := "Votes could not be revealed"
  const CompleteFailedText := "Session could not be completed"
  const StartFailedText := "Voting could not be started"
  const CreateFailedText := "New session could not be created"
  const NoTokenText := "Session expired. Please log in again."
  const BadTokenText := "Invalid token format. Please log in again."
  const ExpiredText := "Session expired. Please refresh the page and log in again."
  const StartThrewText := "An error occurred while starting voting"
  const VoteThrewText := "An error occurred while casting vote"
  const RevealThrewText := "An error occurred while revealing votes"
  const CompleteThrewText := "An error occurred while completing session"

  /** The state a button handler's `catch` leaves behind: the caught text,
      and `loading` ended by its `finally`. */
  function Caught(v: View, text: string): View {
    v.(loading := false, error := JString(text))
  }

  /** `castVote(voteValue)`: only while voting. The vote is published, then
      sent over REST; the user's own vote is recorded only on success. A
      publish that throws skips the request and shows the caught text. */
  function CastVote(v: View, ctx: Context, conn: PS.Conn, st: Store, value: string, f: Fetch): (e: Effect)
    ensures !VotingOpen(v) ==> e == Unchanged(v, conn, st)
    ensures VotingOpen(v) ==> (e.request.None? <==> PS.Refuses(conn))
    ensures VotingOpen(v) && !PS.Refuses(conn) ==>
      e.request == Some(Api.RequestFor(st, Api.CastVote(v.session.value.id, value)))
    ensures VotingOpen(v) && PS.Refuses(conn) ==> e.view == Caught(v, VoteThrewText) && e.conn == conn
    ensures VotingOpen(v) ==>
      && e.store == st && !e.view.loading
      && e.view.(userVote := v.userVote, loading := v.loading, error := v.error) == v
  {
    if !VotingOpen(v) then Unchanged(v, conn, st)
    else
      var id := v.session.value.id;
      var sent := PS.Step(conn, PS.Vote(ctx.teamId, id, value));
      if sent.Threw? then Effect(Caught(v, VoteThrewText), sent.conn, st, None)
      else
        var v' := v.(loading := false, error := NoError);
        var v'' := if Accepted(f) then v'.(userVote := Some(value)) else Failed(v', f, VoteFailedText);
        Effect(v'', sent.conn, st, Some(Api.RequestFor(st, Api.CastVote(id, value))))
  }

  /** Once the vote is published, the user's own vote becomes the cast
      value exactly when the server accepts the vote; otherwise the earlier
      vote is kept and the error shown is the answer's own `error`, else the
      fixed fallback. A failure the mapping builds always carries its own
      error text, and so does an OK answer that sets a falsy `success`
      together with an `error`. A publish that throws keeps the earlier
      vote and shows the caught text. */
  lemma CastVoteRecordsOnSuccess(v: View, ctx: Context, conn: PS.Conn, st: Store, value: string, f: Fetch)
    requires VotingOpen(v)
    requires f.Responded? && f.body.JsonObject? ==> UniqueKeys(f.body.fields)
    ensures Accepted(f) <==>
      (f.Responded? && IsOk(f.status) && f.body.JsonObject?
       && (Has(f.body.fields, "success") ==> TruthyAt(f.body.fields, "success")))
    ensures var e := CastVote(v, ctx, conn, st, value, f);
      PS.Refuses(conn) ==> e.view.userVote == v.userVote && e.view.error == JString(VoteThrewText)
    ensures var e := CastVote(v, ctx, conn, st, value, f);
      !PS.Refuses(conn) ==>
        && e.view.userVote == (if Accepted(f) then Some(value) else v.userVote)
        && e.view.error == (if Accepted(f) then NoError else TextOr(Response(f), "error", VoteFailedText))
        && (!(f.Responded? && IsOk(f.status) && f.body.JsonObject?) ==>
              Some(e.view.error) == Get(Response(f), "error") && Truthy(e.view.error))
        && (f.Responded? && IsOk(f.status) && f.body.JsonObject? && !Accepted(f) ==>
              e.view.error == TextOr(f.body.fields, "error", VoteFailedText))
  {
    MapFetchSucceedsIff(f);
    if !(f.Responded? && IsOk(f.status) && f.body.JsonObject?) {
      MapFetchFailureHasError(f);
    } else {
      SucceededFields(f.body.fields, "error");
    }
  }

  /** The vote frame goes out, signed with the remembered user, exactly
      when the connection is active. A service that is not connected skips
      the publish and still sends the request; one whose socket has closed
      throws, so neither goes out. */
  lemma CastVotePublishes(v: View, ctx: Context, conn: PS.Conn, st: Store, value: string, f: Fetch)
    requires VotingOpen(v)
    ensures var e := CastVote(v, ctx, conn, st, value, f);
      && (PS.IsConnectionActive(conn) ==>
            PS.Frames(e.conn.log) == PS.Frames(conn.log) +
              [PS.Frame(PS.Destination(ctx.teamId, "vote"), PS.CastVote, Some(v.session.value.id), Some(value), None, conn.userId, conn.userName)])
      && (!PS.IsConnectionActive(conn) ==> e.conn == conn)
      && (!conn.isConnected ==> e.request.Some?)
      && (PS.Refuses(conn) ==> e.request.None?)
  {
    if PS.IsConnectionActive(conn) {
      PS.FramesAfterPublish(conn.log, PS.Frame(PS.Destination(ctx.teamId, "vote"), PS.CastVote, Some(v.session.value.id), Some(value), None, conn.userId, conn.userName));
    }
  }

  /** The card a reveal pre-fills as the final estimate, written as
      `toString()` writes it. */
  function SuggestedEstimate(average: real): (s: string)
    ensures ParseNumber(s) == Some(ClosestFibonacci(average))
  {
    var card := ClosestFibonacci(average);
    assert card > 0;
    ParseNumberOfNumeral(card);
    NatToString(card)
  }

  /** `revealVotes()`: publishes, calls REST, and on success pre-fills the
      final estimate with the card nearest the average of the votes held,
      provided that average is positive. */
  function RevealVotes(v: View, ctx: Context, conn: PS.Conn, st: Store, f: Fetch): (e: Effect)
    ensures v.session.None? ==> e == Unchanged(v, conn, st)
    ensures v.session.Some? ==> (e.request.None? <==> PS.Refuses(conn))
    ensures v.session.Some? && !PS.Refuses(conn) ==>
      e.request == Some(Api.RequestFor(st, Api.RevealVotes(v.session.value.id)))
    ensures v.session.Some? && PS.Refuses(conn) ==> e.view == Caught(v, RevealThrewText) && e.conn == conn
    ensures v.session.Some? ==>
      && e.store == st && !e.view.loading
      && e.view.(loading := v.loading, error := v.error, finalEstimate := v.finalEstimate) == v
  {
    if v.session.None? then Unchanged(v, conn, st)
    else
      var id := v.session.value.id;
      var sent := PS.Step(conn, PS.Reveal(ctx.teamId, id));
      if sent.Threw? then Effect(Caught(v, RevealThrewText), sent.conn, st, None)
      else
        var v' := v.(loading := false, error := NoError);
        var average := AverageNumber(v.votes);
        var v'' :=
          if !Accepted(f) then Failed(v', f, RevealFailedText)
          else if average > 0.0 then v'.(finalEstimate := SuggestedEstimate(average))
          else v';
        Effect(v'', sent.conn, st, Some(Api.RequestFor(st, Api.RevealVotes(id))))
  }

  /** After a successful reveal with a positive average, the final
      estimate reads back as a card of the deck nearest the average, the
      lower of two equally near; otherwise, and when the publish throws,
      the estimate is left as it was. */
  lemma RevealPrefillsNearestCard(v: View, ctx: Context, conn: PS.Conn, st: Store, f: Fetch)
    requires v.session.Some?
    ensures var e := RevealVotes(v, ctx, conn, st, f);
      var average := AverageNumber(v.votes);
      && (!PS.Refuses(conn) && Accepted(f) && average > 0.0 ==>
            && ParseNumber(e.view.finalEstimate).Some?
            && var card := ParseNumber(e.view.finalEstimate).value;
            && card in Scale
            && (forall x :: x in Scale ==> Dist(card, average) <= Dist(x, average))
            && (forall x :: x in Scale && Dist(x, average) == Dist(card, average) ==> card <= x))
      && (PS.Refuses(conn) || !Accepted(f) || average <= 0.0 ==> e.view.finalEstimate == v.finalEstimate)
  {
  }

  /** With only `?` votes (or none), the average is 0 and nothing is
      pre-filled. */
  lemma RevealWithoutNumbersKeepsEstimate(v: View, ctx: Context, conn: PS.Conn, st: Store, f: Fetch)
    requires v.session.Some?
    requires forall w :: w in v.votes ==> w.voteValue == "?"
    ensures RevealVotes(v, ctx, conn, st, f).view.finalEstimate == v.finalEstimate
  {
    assert forall w :: w in v.votes ==> VoteNumber(w.voteValue).None?;
  }

  /** `completeSession()`: nothing happens without a session or with an
      empty estimate; otherwise the estimate is published and sent. A
      publish that throws skips the request and shows the caught text. */
  function CompleteSession(v: View, ctx: Context, conn: PS.Conn, st: Store, f: Fetch): (e: Effect)
    ensures v.session.None? || v.finalEstimate == "" ==> e == Unchanged(v, conn, st)
    ensures v.session.Some? && v.finalEstimate != "" ==> (e.request.None? <==> PS.Refuses(conn))
    ensures v.session.Some? && v.finalEstimate != "" && !PS.Refuses(conn) ==>
      e.request == Some(Api.RequestFor(st, Api.CompleteSession(v.session.value.id, v.finalEstimate)))
    ensures v.session.Some? && v.finalEstimate != "" && PS.Refuses(conn) ==>
      e.view == Caught(v, CompleteThrewText) && e.conn == conn
    ensures v.session.Some? && v.finalEstimate != "" ==>
      && e.store == st && !e.view.loading
      && e.view.(loading := v.loading, error := v.error) == v
  {
    if v.session.None? || v.finalEstimate == "" then Unchanged(v, conn, st)
    else
      var id := v.session.value.id;
      var sent := PS.Step(conn, PS.Complete(ctx.teamId, id, v.finalEstimate));
      if sent.Threw? then Effect(Caught(v, CompleteThrewText), sent.conn, st, None)
      else
        var v' := v.(loading := false, error := NoError);
        var v'' := if Accepted(f) then v' else Failed(v', f, CompleteFailedText);
        Effect(v'', sent.conn, st, Some(Api.RequestFor(st, Api.CompleteSession(id, v.finalEstimate))))
  }

  /** On an active connection the broadcast frame carries the estimate as
      typed, whatever characters it holds. Otherwise nothing is published. */
  lemma CompletePublishesEstimate(v: View, ctx: Context, conn: PS.Conn, st: Store, f: Fetch)
    requires v.session.Some? && v.finalEstimate != ""
    ensures PS.IsConnectionActive(conn) ==>
      PS.Frames(CompleteSession(v, ctx, conn, st, f).conn.log) == PS.Frames(conn.log) +
        [PS.Frame(PS.Destination(ctx.teamId, "complete"), PS.CompleteSession, Some(v.session.value.id), None,
                  Some(v.finalEstimate), conn.userId, conn.userName)]
    ensures !PS.IsConnectionActive(conn) ==> CompleteSession(v, ctx, conn, st, f).conn == conn
  {
    if PS.IsConnectionActive(conn) {
      PS.FramesAfterPublish(conn.log, PS.Frame(PS.Destination(ctx.teamId, "complete"), PS.CompleteSession,
        Some(v.session.value.id), None, Some(v.finalEstimate), conn.userId, conn.userName));
    }
  }

  /** When the socket has closed under a connected service, each session
      button lands in its `catch`: the caught text is shown, `loading`
      ends, nothing is published, no request goes out and storage is kept. */
  lemma RefusedButtonsCatch(v: View, ctx: Context, conn: PS.Conn, st: Store, f: Fetch, value: string)
    requires PS.Refuses(conn) && v.session.Some?
    ensures VotingOpen(v) ==> CastVote(v, ctx, conn, st, value, f) == Effect(Caught(v, VoteThrewText), conn, st, None)
    ensures RevealVotes(v, ctx, conn, st, f) == Effect(Caught(v, RevealThrewText), conn, st, None)
    ensures v.finalEstimate != "" ==>
      CompleteSession(v, ctx, conn, st, f) == Effect(Caught(v, CompleteThrewText), conn, st, None)
    ensures TruthyStr(GetItem(st, TokenKey)) && HasChar(GetItem(st, TokenKey).value, '.') ==>
      StartVoting(v, ctx, conn, st, f) == Effect(Caught(v, StartThrewText), conn, st, None)
  {
  }

  /** Connecting, then losing the socket without the disconnect callback,
      turns the next vote into the caught error: the earlier own vote is
      kept and neither the frame nor the request goes out. */
  lemma VoteAfterSocketClosed(v: View, ctx: Context, st: Store, f: Fetch, token: string, value: string)
    requires VotingOpen(v)
    ensures var conn := PS.Run(PS.Initial, [PS.DoConnect(token), PS.TransportConnected, PS.TransportClosed]);
      var e := CastVote(v, ctx, conn, st, value, f);
      && e.request.None?
      && e.view.error == JString(VoteThrewText) && !e.view.loading && e.view.userVote == v.userVote
      && PS.Frames(e.conn.log) == []
  {
    PS.VoteAfterSocketClosedThrows(token, ctx.teamId, v.session.value.id, value);
  }

  /** `error?.includes('token') || error?.includes('authentication')` on
      the service's error value: a missing or `null` error mentions
      nothing, and a value without an `includes` method throws. */
  function MentionsAuth(error: Option<JValue>): Try<bool> {
    match error
    case None => Ok(false)
    case Some(JNull) => Ok(false)
    case Some(JString(s)) => Ok(HasSubstring(s, "token") || HasSubstring(s, "authentication"))
    case Some(_) => Thrown
  }

  /** `startVoting()`: the stored token is checked before anything is sent.
      A missing token only shows an error; a token without a `.` also
      removes the stored credentials. A refusal that mentions the token or
      authentication removes them too. A publish that throws skips the
      request and shows the caught text. */
  function StartVoting(v: View, ctx: Context, conn: PS.Conn, st: Store, f: Fetch): (e: Effect)
    ensures v.session.None? ==> e == Unchanged(v, conn, st)
    ensures e.request.Some? ==> TruthyStr(GetItem(st, TokenKey)) && HasChar(GetItem(st, TokenKey).value, '.')
    ensures e.request.Some? ==> e.request == Some(Api.RequestFor(st, Api.StartVoting(v.session.value.id)))
    ensures e.store == st || e.store == ClearAuth(st)
    ensures e.view.(loading := v.loading, error := v.error) == v
    ensures v.session.Some? && TruthyStr(GetItem(st, TokenKey)) && HasChar(GetItem(st, TokenKey).value, '.') ==>
      (e.request.None? <==> PS.Refuses(conn))
    ensures v.session.Some? && TruthyStr(GetItem(st, TokenKey)) && HasChar(GetItem(st, TokenKey).value, '.') && PS.Refuses(conn) ==>
      e.store == st && e.view == Caught(v, StartThrewText) && e.conn == conn
  {
    if v.session.None? then Unchanged(v, conn, st)
    else
      var token := GetItem(st, TokenKey);
      if !TruthyStr(token) then Effect(v.(error := JString(NoTokenText)), conn, st, None)
      else if !HasChar(token.value, '.') then Effect(v.(error := JString(BadTokenText)), conn, ClearAuth(st), None)
      else
        var id := v.session.value.id;
        var sent := PS.Step(conn, PS.Start(ctx.teamId, id));
        if sent.Threw? then Effect(Caught(v, StartThrewText), sent.conn, st, None)
        else
          var conn' := sent.conn;
          var request := Some(Api.RequestFor(st, Api.StartVoting(id)));
          var v' := v.(loading := false, error := NoError);
          var r := Response(f);
          if Accepted(f) then Effect(v', conn', st, request)
          else
            match MentionsAuth(Get(r, "error"))
            case Thrown => Effect(v'.(error := JString(StartThrewText)), conn', st, request)
            case Ok(true) => Effect(v'.(error := JString(ExpiredText)), conn', ClearAuth(st), request)
            case Ok(false) => Effect(Failed(v', f, StartFailedText), conn', st, request)
  }

  /** Without a usable token nothing is published and no request is made:
      the connection is untouched. */
  lemma StartVotingChecksTokenFirst(v: View, ctx: Context, conn: PS.Conn, st: Store, f: Fetch)
    requires v.session.Some?
    ensures var e := StartVoting(v, ctx, conn, st, f);
      && (!TruthyStr(GetItem(st, TokenKey)) ==> e == Effect(v.(error := JString(NoTokenText)), conn, st, None))
      && (TruthyStr(GetItem(st, TokenKey)) && !HasChar(GetItem(st, TokenKey).value, '.') ==>
            e.conn == conn && e.request.None? && e.store == ClearAuth(st)
            && GetItem(e.store, TokenKey).None? && GetItem(e.store, UserKey).None?)
      && (TruthyStr(GetItem(st, TokenKey)) && HasChar(GetItem(st, TokenKey).value, '.') ==>
            e.conn == PS.Step(conn, PS.Start(ctx.teamId, v.session.value.id)).conn)
  {
  }

  /** Once the start is published, a refusal naming the token clears the
      stored credentials and asks for a new login. */
  lemma StartVotingTokenRefusal(v: View, ctx: Context, conn: PS.Conn, st: Store, status: int)
    requires v.session.Some? && TruthyStr(GetItem(st, TokenKey)) && HasChar(GetItem(st, TokenKey).value, '.')
    requires !IsOk(status)
    ensures var e := StartVoting(v, ctx, conn, st, Responded(status, JsonObject([("message", JString("invalid token"))])));
      !PS.Refuses(conn) ==> e.store == ClearAuth(st) && e.view.error == JString(ExpiredText)
  {
    var s := "invalid token";
    assert OccursAt(s, "token", 8) by { assert s[8..13] == "token"; }
  }

  /** The user's own vote in a list of votes, if the user is known and
      has one. */
  function OwnVote(votes: seq<Vote>, ctx: Context): Option<string> {
    if ctx.userId.Some? && VoteFor(votes, ctx.userId.value).Some?
    then Some(VoteFor(votes, ctx.userId.value).value.voteValue)
    else None
  }

  /** `loadActiveSession()`: on a successful answer carrying a session, the
      session and its votes are taken over, and the user's own earlier vote
      in it, if any, is restored. A failed answer changes nothing. */
  function LoadActiveSession(v: View, ctx: Context, conn: PS.Conn, st: Store, f: Fetch): (e: Effect)
    ensures e.request == Some(Api.RequestFor(st, Api.GetActiveSession(ctx.teamId)))
    ensures e.conn == conn && e.store == st
    ensures e.view.(session := v.session, votes := v.votes, userVote := v.userVote) == v
    ensures !Accepted(f) ==> e.view == v
    ensures e.view.session != v.session ==> e.view.session.Some? && e.view.votes == e.view.session.value.votes
    ensures e.view.userVote != v.userVote ==>
      e.view.session.Some? && e.view.userVote == OwnVote(e.view.session.value.votes, ctx)
  {
    var r := Response(f);
    var request := Some(Api.RequestFor(st, Api.GetActiveSession(ctx.teamId)));
    if TruthyAt(r, "success") && TruthyAt(r, "data") && Get(r, "data").value.JData? && Get(r, "data").value.data.SessionData? then
      var s := Get(r, "data").value.data.session;
      var mine := if |s.votes| > 0 && ctx.userId.Some? then VoteFor(s.votes, ctx.userId.value) else None;
      var v' := v.(session := Some(s), votes := s.votes);
      Effect(if mine.Some? then v'.(userVote := Some(mine.value.voteValue)) else v', conn, st, request)
    else Effect(v, conn, st, request)
  }

  /** An OK answer whose body carries a session, and whose own `success`,
      if any, is truthy, is accepted and hands that session over. */
  lemma SessionAnswer(status: int, body: JsObject, s: Session)
    requires IsOk(status) && UniqueKeys(body)
    requires Get(body, "data") == Some(JData(SessionData(s)))
    requires Has(body, "success") ==> TruthyAt(body, "success")
    ensures Accepted(Responded(status, JsonObject(body)))
    ensures Get(Response(Responded(status, JsonObject(body))), "data") == Some(JData(SessionData(s)))
  {
    SucceededFields(body, "data");
    SucceededFields(body, "success");
  }

  /** An OK answer carrying a session, with or without its own truthy
      `success`, loads that session and its votes. A user who voted before
      a reload gets the card back; a user with no vote in it keeps the
      own vote held before. */
  lemma LoadRestoresOwnVote(v: View, ctx: Context, conn: PS.Conn, st: Store, status: int, body: JsObject, s: Session)
    requires IsOk(status) && UniqueKeys(body)
    requires Get(body, "data") == Some(JData(SessionData(s)))
    requires Has(body, "success") ==> TruthyAt(body, "success")
    ensures var e := LoadActiveSession(v, ctx, conn, st, Responded(status, JsonObject(body)));
      && e.view.session == Some(s) && e.view.votes == s.votes
      && e.view.userVote == (if OwnVote(s.votes, ctx).Some? then OwnVote(s.votes, ctx) else v.userVote)
  {
    SessionAnswer(status, body, s);
    LoadTakesSession(v, ctx, conn, st, Responded(status, JsonObject(body)), s);
  }

  /** An accepted answer whose data is a session loads it, and restores the
      user's own vote in it when there is one. */
  lemma LoadTakesSession(v: View, ctx: Context, conn: PS.Conn, st: Store, f: Fetch, s: Session)
    requires Accepted(f) && Get(Response(f), "data") == Some(JData(SessionData(s)))
    ensures var e := LoadActiveSession(v, ctx, conn, st, f);
      && e.view.session == Some(s) && e.view.votes == s.votes
      && e.view.userVote == (if OwnVote(s.votes, ctx).Some? then OwnVote(s.votes, ctx) else v.userVote)
  {
    if ctx.userId.Some? && |s.votes| == 0 {
      assert VoteFor(s.votes, ctx.userId.value).None?;
    }
  }

  /** `startNewSession()`: a created session replaces the old one with no
      votes, no own vote and an empty estimate. The title and description
      are inputs (the service numbers sessions at random and stamps them
      with the local date). */
  function StartNewSession(v: View, ctx: Context, conn: PS.Conn, st: Store, f: Fetch, title: string, description: string): (e: Effect)
    ensures e.request == Some(Api.RequestFor(st, Api.CreateSession(ctx.teamId, title, description)))
    ensures e.conn == conn && e.store == st && !e.view.loading
    ensures e.view.connectedUsers == v.connectedUsers
  {
    var r := Response(f);
    var request := Some(Api.RequestFor(st, Api.CreateSession(ctx.teamId, title, description)));
    var v' := v.(loading := false, error := NoError);
    if TruthyAt(r, "success") && TruthyAt(r, "data") then
      var data := Get(r, "data").value;
      var s := if data.JData? then AsSession(data.data) else None;
      Effect(v'.(session := s, votes := [], userVote := None, finalEstimate := ""), conn, st, request)
    else Effect(Failed(v', f, CreateFailedText), conn, st, request)
  }

  /** A new round starts clean, whether or not the answer carries its own
      truthy `success`. */
  lemma NewRoundStartsClean(v: View, ctx: Context, conn: PS.Conn, st: Store, status: int, body: JsObject, s: Session, title: string, description: string)
    requires IsOk(status) && UniqueKeys(body)
    requires Get(body, "data") == Some(JData(SessionData(s)))
    requires Has(body, "success") ==> TruthyAt(body, "success")
    ensures var e := StartNewSession(v, ctx, conn, st, Responded(status, JsonObject(body)), title, description);
      e.view.session == Some(s) && e.view.votes == [] && e.view.userVote.None? && e.view.finalEstimate == ""
  {
    SessionAnswer(status, body, s);
  }

  /** The mount effect: with a token, connect. */
  function Mount(conn: PS.Conn, token: Option<string>): (c: PS.Conn)
    ensures !TruthyStr(token) ==> c == conn
    ensures TruthyStr(token) ==> c.client == Some(PS.Client(token.value, false))
  {
    if TruthyStr(token) then PS.Connect(conn, token.value) else conn
  }

  /** The polling tick that finds the connection active: subscribe to the
      team, then join it under the user's id and display name. */
  function OnConnectionReady(conn: PS.Conn, ctx: Context): (c: PS.Conn)
    ensures !PS.IsConnectionActive(conn) ==> c == conn
  {
    if !PS.IsConnectionActive(conn) then conn
    else
      var subscribed := PS.Subscribe(conn, ctx.teamId);
      if subscribed.Threw? then subscribed.conn
      else PS.SendJoin(subscribed.conn, ctx.teamId, ctx.userId, Some(ctx.userName)).conn
  }

  /** The effect's cleanup: while the connection is active, leave, drop the
      team's subscriptions and disconnect. */
  function Cleanup(conn: PS.Conn, ctx: Context): (c: PS.Conn)
    ensures !PS.IsConnectionActive(conn) ==> c == conn
    ensures PS.IsConnectionActive(conn) ==>
      && !c.isConnected && c.subscriptions == map[]
      && c.currentTeamId.None? && c.userId.None? && c.userName.None?
  {
    if !PS.IsConnectionActive(conn) then conn
    else
      var left := PS.SendLeave(conn, ctx.teamId, ctx.userId, Some(ctx.userName));
      if left.Threw? then left.conn
      else PS.Disconnect(PS.Unsubscribe(left.conn, ctx.teamId)).conn
  }

  /** Once ready, the component's votes are signed with its own user. */
  lemma ReadyThenVoteIsSigned(conn: PS.Conn, ctx: Context, v: View, st: Store, value: string, f: Fetch)
    requires PS.IsConnectionActive(conn) && VotingOpen(v)
    ensures var c := CastVote(v, ctx, OnConnectionReady(conn, ctx), st, value, f).conn;
      var fs := PS.Frames(c.log);
      |fs| > 0 && fs[|fs| - 1].userId == ctx.userId && fs[|fs| - 1].userName == Some(ctx.userName)
  {
    var ready := OnConnectionReady(conn, ctx);
    var frame := PS.Frame(PS.Destination(ctx.teamId, "vote"), PS.CastVote, Some(v.session.value.id), Some(value), None, ctx.userId, Some(ctx.userName));
    PS.FramesAfterPublish(ready.log, frame);
  }

  /** Cleanup publishes exactly one leave: the explicit one. Unsubscribing
      forgets the team first, so the leave inside `disconnect()` is
      skipped. */
  lemma CleanupLeavesOnce(conn: PS.Conn, ctx: Context)
    requires PS.IsConnectionActive(conn)
    ensures PS.Frames(Cleanup(conn, ctx).log) == PS.Frames(conn.log) +
      [PS.Frame(PS.Destination(ctx.teamId, "leave"), PS.LeaveRoom, None, None, None, ctx.userId, Some(ctx.userName))]
  {
    var frame := PS.Frame(PS.Destination(ctx.teamId, "leave"), PS.LeaveRoom, None, None, None, ctx.userId, Some(ctx.userName));
    var c1 := PS.SendLeave(conn, ctx.teamId, ctx.userId, Some(ctx.userName)).conn;
    PS.FramesAfterPublish(conn.log, frame);
    var c2 := PS.Unsubscribe(c1, ctx.teamId);
    assert PS.Frames(c2.log) == PS.Frames(c1.log) by {
      var a := PS.DropKey(c1, PS.TeamKey(ctx.teamId));
      var b := PS.DropKey(a, PS.SessionKey(ctx.teamId));
      PS.DropKeySilent(c1, PS.TeamKey(ctx.teamId));
      PS.DropKeySilent(a, PS.SessionKey(ctx.teamId));
      PS.DropKeySilent(b, PS.ErrorKey(ctx.teamId));
    }
    PS.FramesAfterSilent(c2.log, PS.Deactivated);
  }
}
