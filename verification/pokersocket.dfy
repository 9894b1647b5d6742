/** The broadcast-connection bookkeeping of the poker service: a flag for the
    connection, a map of subscription handles, the remembered team and user,
    and everything handed to the STOMP client, kept as a log. The transport
    itself is abstract: its callbacks are steps of their own, and subscribing
    or publishing only appends to the log. */
module PokerSocket {
  import opened Basics

  /** The message kinds the service publishes. */
  datatype MsgType = JoinRoom | LeaveRoom | CastVote | RevealVotes | StartVoting | CompleteSession

  /** The wire spelling of a message kind. */
  function TypeName(t: MsgType): string {
    match t
    case JoinRoom => "JOIN_ROOM"
    case LeaveRoom => "LEAVE_ROOM"
    case CastVote => "CAST_VOTE"
    case RevealVotes => "REVEAL_VOTES"
    case StartVoting => "START_VOTING"
    case CompleteSession => "COMPLETE_SESSION"
  }

  /** One published frame: its destination and the properties of its JSON
      body. `None` is a property the body leaves out or writes as `null`. */
  datatype Frame = Frame(
    destination: string,
    msgType: MsgType,
    sessionId: Option<string>,
    voteValue: Option<string>,
    finalEstimate: Option<string>,
    userId: Option<string>,
    userName: Option<string>)

  /** What the service asks of its STOMP client. */
  datatype Event =
    | Activated(token: string)
    | Deactivated
    | Subscribed(topic: string)
    | Unsubscribed(topic: string)
    | Published(frame: Frame)

  /** The client object: the token it was built with, and its own
      `connected` flag, which only the transport changes. */
  datatype Client = Client(token: string, connected: bool)

  /** The service's fields. `subscriptions` maps each key to the topic its
      handle listens on. */
  datatype Conn = Conn(
    client: Option<Client>,
    isConnected: bool,
    subscriptions: map<string, string>,
    currentTeamId: Option<string>,
    userId: Option<string>,
    userName: Option<string>,
    log: seq<Event>)

  /** The freshly constructed service. */
  const Initial := Conn(None, false, map[], None, None, None, [])

  /** The service only believes it is connected when it has a client. */
  predicate Valid(c: Conn) {
    c.isConnected ==> c.client.Some?
  }

  const TeamTopicPrefix := "/topic/poker/team/"
  const SessionTopic := "/queue/poker/session"
  const ErrorTopic := "/queue/poker/error"
  const AppPrefix := "/app/poker/team/"

  /** The three subscription keys of a team. */
  function TeamKey(teamId: string): string { "poker-team-" + teamId }
  function SessionKey(teamId: string): string { "poker-session-" + teamId }
  function ErrorKey(teamId: string): string { "poker-error-" + teamId }

  function TeamKeys(teamId: string): set<string> {
    {TeamKey(teamId), SessionKey(teamId), ErrorKey(teamId)}
  }

  /** The three keys of a team are distinct, and no key belongs to two
      teams, so one team's keys never clash with another's. */
  lemma TeamKeysDistinct(t: string, u: string)
    ensures |TeamKeys(t)| == 3
    ensures t != u ==> TeamKeys(t) !! TeamKeys(u)
  {
    assert TeamKey(t)[6] == 't' && SessionKey(t)[6] == 's' && ErrorKey(t)[6] == 'e';
    assert TeamKey(u)[6] == 't' && SessionKey(u)[6] == 's' && ErrorKey(u)[6] == 'e';
    if t != u {
      assert TeamKey(t)[11..] == t && TeamKey(u)[11..] == u;
      assert SessionKey(t)[14..] == t && SessionKey(u)[14..] == u;
      assert ErrorKey(t)[12..] == t && ErrorKey(u)[12..] == u;
    }
  }

  /** `/app/poker/team/{teamId}/{action}`. */
  function Destination(teamId: string, action: string): string {
    AppPrefix + teamId + "/" + action
  }

  /** `connect(token)`: a new client replaces any earlier one and is
      activated; the flag waits for the transport. */
  function Connect(c: Conn, token: string): (r: Conn)
    ensures r.client == Some(Client(token, false)) && r.isConnected == c.isConnected
    ensures r.log == c.log + [Activated(token)]
  {
    c.(client := Some(Client(token, false)), log := c.log + [Activated(token)])
  }

  /** The `onConnect` callback. A callback needs a client to fire it. */
  function OnConnect(c: Conn): (r: Conn)
    ensures c.client.Some? ==> r.isConnected && r.client.Some? && r.client.value.connected
    ensures c.client.None? ==> r == c
    ensures r.log == c.log
  {
    if c.client.None? then c
    else c.(isConnected := true, client := Some(c.client.value.(connected := true)))
  }

  /** The result of a service call: the fields it leaves behind, and whether
      it ended by throwing. A call that throws keeps what it assigned before
      the throw. */
  datatype Call = Returned(conn: Conn) | Threw(conn: Conn)

  /** The STOMP client has a live connection. It publishes and subscribes
      only then, and throws otherwise. */
  predicate ClientLive(c: Conn) {
    c.client.Some? && c.client.value.connected
  }

  /** The service's flag is up but its client has no connection: the
      service's guard lets a call through and the client then throws. */
  predicate Refuses(c: Conn) {
    c.isConnected && !ClientLive(c)
  }

  /** `client.publish(frame)`. */
  function Publish(c: Conn, f: Frame): (r: Call)
    ensures r.Threw? <==> !ClientLive(c)
    ensures r.Returned? ==> Frames(r.conn.log) == Frames(c.log) + [f]
    ensures r.conn.(log := c.log) == c && c.log <= r.conn.log
    ensures r.Threw? ==> r.conn == c
  {
    if !ClientLive(c) then Threw(c)
    else
      FramesAfterPublish(c.log, f);
      Returned(c.(log := c.log + [Published(f)]))
  }

  /** `sendLeaveMessage(teamId, userId, userName)`. */
  function SendLeave(c: Conn, teamId: string, userId: Option<string>, userName: Option<string>): (r: Call)
    ensures !c.isConnected ==> r == Returned(c)
    ensures r.Threw? <==> Refuses(c)
    ensures IsConnectionActive(c) ==>
      Frames(r.conn.log) == Frames(c.log) + [Frame(Destination(teamId, "leave"), LeaveRoom, None, None, None, userId, userName)]
    ensures r.conn.(log := c.log) == c && c.log <= r.conn.log
    ensures r.Threw? ==> r.conn == c
  {
    if !c.isConnected then Returned(c)
    else Publish(c, Frame(Destination(teamId, "leave"), LeaveRoom, None, None, None, userId, userName))
  }

  /** The service knows the room it is in: a team, a user id and a user
      name, all non-empty. */
  predicate KnowsRoom(c: Conn) {
    TruthyStr(c.currentTeamId) && TruthyStr(c.userId) && TruthyStr(c.userName)
  }

  /** The leave the service attempts when it knows the room. */
  function LeaveIfKnown(c: Conn): Call {
    if KnowsRoom(c) then SendLeave(c, c.currentTeamId.value, c.userId, c.userName)
    else Returned(c)
  }

  /** The `onDisconnect` callback: the flag drops first, so the leave it then
      attempts is refused by the connection guard and cannot throw. */
  function OnDisconnect(c: Conn): (r: Conn)
    ensures c.client.Some? ==> !r.isConnected && r.client.Some? && !r.client.value.connected
    ensures c.client.None? ==> r == c
  {
    if c.client.None? then c
    else LeaveIfKnown(c.(isConnected := false, client := Some(c.client.value.(connected := false)))).conn
  }

  /** The socket closing under the client without the service's callback:
      only the client's own flag changes. */
  function SocketClosed(c: Conn): (r: Conn)
    ensures r.isConnected == c.isConnected && r.log == c.log
    ensures c.client.Some? ==> r.client.Some? && !r.client.value.connected
  {
    if c.client.None? then c else c.(client := Some(c.client.value.(connected := false)))
  }

  /** `disconnect()`: with a client, a leave when the room is known, then
      deactivation and a full reset of the bookkeeping; the client object
      itself is kept. Without a client nothing happens. A leave that throws
      ends the call before the deactivation and the reset. */
  function Disconnect(c: Conn): (r: Call)
    ensures c.client.None? ==> r == Returned(c)
    ensures r.Threw? <==> c.client.Some? && KnowsRoom(c) && Refuses(c)
    ensures r.Threw? ==> r.conn == c
    ensures r.Returned? && c.client.Some? ==>
      && r.conn.client == c.client && !r.conn.isConnected && r.conn.subscriptions == map[]
      && r.conn.currentTeamId.None? && r.conn.userId.None? && r.conn.userName.None?
  {
    if c.client.None? then Returned(c)
    else
      var left := LeaveIfKnown(c);
      if left.Threw? then left
      else
        var c' := left.conn;
        Returned(c'.(log := c'.log + [Deactivated], isConnected := false, subscriptions := map[],
                     currentTeamId := None, userId := None, userName := None))
  }

  /** `subscribeToTeamPoker(teamId, callback)`: the team is remembered, then
      three subscriptions (the team topic and the two per-user queues) are
      stored under the team's keys. The first subscription throws when the
      client has no connection, and the rest of the call is skipped. */
  function Subscribe(c: Conn, teamId: string): (r: Call)
    ensures !c.isConnected ==> r == Returned(c)
    ensures r.Threw? <==> Refuses(c)
    ensures r.Threw? ==> r.conn == c.(currentTeamId := Some(teamId))
    ensures IsConnectionActive(c) ==>
      && r.conn.currentTeamId == Some(teamId)
      && r.conn.subscriptions.Keys == c.subscriptions.Keys + TeamKeys(teamId)
      && (forall k :: k in c.subscriptions && k !in TeamKeys(teamId) ==> r.conn.subscriptions[k] == c.subscriptions[k])
    ensures r.conn.client == c.client && r.conn.isConnected == c.isConnected
  {
    if !c.isConnected then Returned(c)
    else
      var c' := c.(currentTeamId := Some(teamId));
      if !ClientLive(c') then Threw(c')
      else
        var topic := TeamTopicPrefix + teamId;
        Returned(c'.(log := c.log + [Subscribed(topic), Subscribed(SessionTopic), Subscribed(ErrorTopic)],
                     subscriptions := c.subscriptions[TeamKey(teamId) := topic][SessionKey(teamId) := SessionTopic][ErrorKey(teamId) := ErrorTopic]))
  }

  /** Unsubscribes the handle under one key, if there is one. */
  function DropKey(c: Conn, key: string): Conn {
    if key in c.subscriptions
    then c.(log := c.log + [Unsubscribed(c.subscriptions[key])], subscriptions := c.subscriptions - {key})
    else c
  }

  /** `unsubscribeFromTeamPoker(teamId)`: needs no connection. */
  function Unsubscribe(c: Conn, teamId: string): (r: Conn)
    ensures r.subscriptions == c.subscriptions - TeamKeys(teamId)
    ensures r.currentTeamId.None?
    ensures r.isConnected == c.isConnected && r.userId == c.userId && r.userName == c.userName
  {
    var c' := DropKey(DropKey(DropKey(c, TeamKey(teamId)), SessionKey(teamId)), ErrorKey(teamId));
    c'.(currentTeamId := None)
  }

  /** `sendJoinMessage(teamId, userId, userName)`: remembers the team and
      the user, then publishes the join. The identity is kept even when the
      publish throws. */
  function SendJoin(c: Conn, teamId: string, userId: Option<string>, userName: Option<string>): (r: Call)
    ensures !c.isConnected ==> r == Returned(c)
    ensures r.Threw? <==> Refuses(c)
    ensures c.isConnected ==>
      r.conn.userId == userId && r.conn.userName == userName && r.conn.currentTeamId == Some(teamId)
    ensures IsConnectionActive(c) ==>
      Frames(r.conn.log) == Frames(c.log) + [Frame(Destination(teamId, "join"), JoinRoom, None, None, None, userId, userName)]
    ensures r.conn.client == c.client && r.conn.isConnected == c.isConnected && r.conn.subscriptions == c.subscriptions
    ensures c.log <= r.conn.log
    ensures r.Threw? ==> r.conn.log == c.log
  {
    if !c.isConnected then Returned(c)
    else
      Publish(c.(userId := userId, userName := userName, currentTeamId := Some(teamId)),
              Frame(Destination(teamId, "join"), JoinRoom, None, None, None, userId, userName))
  }

  /** Publishes a session action signed with the remembered user. */
  function SendAction(c: Conn, teamId: string, action: string, t: MsgType, sessionId: string,
                      voteValue: Option<string>, finalEstimate: Option<string>): (r: Call)
    ensures !c.isConnected ==> r == Returned(c)
    ensures r.Threw? <==> Refuses(c)
    ensures IsConnectionActive(c) ==>
      Frames(r.conn.log) == Frames(c.log) + [Frame(Destination(teamId, action), t, Some(sessionId), voteValue, finalEstimate, c.userId, c.userName)]
    ensures r.conn.(log := c.log) == c && c.log <= r.conn.log
    ensures r.Threw? ==> r.conn == c
  {
    if !c.isConnected then Returned(c)
    else Publish(c, Frame(Destination(teamId, action), t, Some(sessionId), voteValue, finalEstimate, c.userId, c.userName))
  }

  /** Every call the component can make, and the transport's callbacks. */
  datatype Action =
    | DoConnect(token: string)
    | TransportConnected
    | TransportDisconnected
    | TransportClosed
    | DoDisconnect
    | DoSubscribe(teamId: string)
    | DoUnsubscribe(teamId: string)
    | Join(teamId: string, userId: Option<string>, userName: Option<string>)
    | Leave(teamId: string, userId: Option<string>, userName: Option<string>)
    | Vote(teamId: string, sessionId: string, voteValue: string)
    | Reveal(teamId: string, sessionId: string)
    | Start(teamId: string, sessionId: string)
    | Complete(teamId: string, sessionId: string, finalEstimate: string)

  /** The calls that begin with the `isConnected` guard. */
  predicate Guarded(a: Action) {
    a.DoSubscribe? || a.Join? || a.Leave? || a.Vote? || a.Reveal? || a.Start? || a.Complete?
  }

  function Step(c: Conn, a: Action): Call {
    match a
    case DoConnect(token) => Returned(Connect(c, token))
    case TransportConnected => Returned(OnConnect(c))
    case TransportDisconnected => Returned(OnDisconnect(c))
    case TransportClosed => Returned(SocketClosed(c))
    case DoDisconnect => Disconnect(c)
    case DoSubscribe(t) => Subscribe(c, t)
    case DoUnsubscribe(t) => Returned(Unsubscribe(c, t))
    case Join(t, u, n) => SendJoin(c, t, u, n)
    case Leave(t, u, n) => SendLeave(c, t, u, n)
    case Vote(t, s, v) => SendAction(c, t, "vote", CastVote, s, Some(v), None)
    case Reveal(t, s) => SendAction(c, t, "reveal", RevealVotes, s, None, None)
    case Start(t, s) => SendAction(c, t, "start-voting", StartVoting, s, None, None)
    case Complete(t, s, fe) => SendAction(c, t, "complete", CompleteSession, s, None, Some(fe))
  }

  /** A sequence of calls. A call that throws ends only itself: the next one
      starts from the fields it left behind. */
  function Run(c: Conn, actions: seq<Action>): Conn
    decreases |actions|
  {
    if actions == [] then c else Run(Step(c, actions[0]).conn, actions[1..])
  }

  /** `isConnectionActive()`: the service's flag and the client's own. */
  predicate IsConnectionActive(c: Conn) {
    c.isConnected && c.client.Some? && c.client.value.connected
  }

  /** The frames in a log, in order. */
  function Frames(log: seq<Event>): (fs: seq<Frame>)
    ensures |fs| <= |log|
  {
    if log == [] then []
    else (if log[0].Published? then [log[0].frame] else []) + Frames(log[1..])
  }

  lemma {:induction false} FramesAppend(a: seq<Event>, b: seq<Event>)
    ensures Frames(a + b) == Frames(a) + Frames(b)
    decreases |a|
  {
    if a == [] {
      assert a + b == b;
    } else {
      assert (a + b)[0] == a[0];
      assert (a + b)[1..] == a[1..] + b;
      FramesAppend(a[1..], b);
    }
  }

  /** Appending an event that is not a publish adds no frame. */
  lemma FramesAfterSilent(log: seq<Event>, e: Event)
    requires !e.Published?
    ensures Frames(log + [e]) == Frames(log)
  {
    FramesAppend(log, [e]);
    assert Frames([e]) == [];
  }

  /** Appending a publish adds exactly its frame. */
  lemma FramesAfterPublish(log: seq<Event>, f: Frame)
    ensures Frames(log + [Published(f)]) == Frames(log) + [f]
  {
    FramesAppend(log, [Published(f)]);
    assert Frames([Published(f)]) == [f];
  }

  /** Dropping a subscription publishes nothing. */
  lemma DropKeySilent(c: Conn, key: string)
    ensures Frames(DropKey(c, key).log) == Frames(c.log)
    ensures c.log <= DropKey(c, key).log
  {
    if key in c.subscriptions {
      FramesAfterSilent(c.log, Unsubscribed(c.subscriptions[key]));
    }
  }

  /** While the service is not connected, every guarded call changes
      nothing at all: no state, no subscription, no frame, no throw. */
  lemma GuardedInertWhileDisconnected(c: Conn, a: Action)
    requires Guarded(a) && !c.isConnected
    ensures Step(c, a) == Returned(c)
  {
  }

  /** While the service's flag is up but the socket has closed, every
      guarded call gets past the service's guard and throws in the client,
      having published and subscribed nothing. */
  lemma GuardedThrowWhileRefused(c: Conn, a: Action)
    requires Guarded(a) && Refuses(c)
    ensures Step(c, a).Threw? && Step(c, a).conn.log == c.log
  {
  }

  /** Every step keeps the service's view consistent: it never believes it
      is connected without a client. */
  lemma StepKeepsValid(c: Conn, a: Action)
    requires Valid(c)
    ensures Valid(Step(c, a).conn)
  {
  }

  /** The log only grows; a step publishes a frame only when the service
      was connected before it, and a step that throws logs nothing. */
  lemma StepPublishesOnlyWhenConnected(c: Conn, a: Action)
    ensures c.log <= Step(c, a).conn.log
    ensures !c.isConnected ==> Frames(Step(c, a).conn.log) == Frames(c.log)
    ensures Step(c, a).Threw? ==> Step(c, a).conn.log == c.log
  {
    match a
    case DoConnect(token) =>
      FramesAfterSilent(c.log, Activated(token));
    case DoDisconnect =>
      if c.client.Some? {
        var left := LeaveIfKnown(c);
        if c.isConnected {
          assert c.log <= left.conn.log;
        } else {
          assert left.conn == c;
          FramesAfterSilent(c.log, Deactivated);
        }
      }
    case DoUnsubscribe(t) =>
      var c1 := DropKey(c, TeamKey(t));
      var c2 := DropKey(c1, SessionKey(t));
      DropKeySilent(c, TeamKey(t));
      DropKeySilent(c1, SessionKey(t));
      DropKeySilent(c2, ErrorKey(t));
    case _ =>
  }

  /** The only step that can raise the flag is the transport's connect
      callback. */
  lemma OnlyConnectCallbackConnects(c: Conn, a: Action)
    requires !c.isConnected && !a.TransportConnected?
    ensures !Step(c, a).conn.isConnected
  {
  }

  /** Once the connection is down, nothing is published until the
      transport reports a new connection, whatever the component calls. */
  lemma {:induction false} SilentUntilReconnected(c: Conn, actions: seq<Action>)
    requires !c.isConnected
    requires forall i :: 0 <= i < |actions| ==> !actions[i].TransportConnected?
    ensures Frames(Run(c, actions).log) == Frames(c.log)
    ensures !Run(c, actions).isConnected
    decreases |actions|
  {
    if actions != [] {
      StepPublishesOnlyWhenConnected(c, actions[0]);
      OnlyConnectCallbackConnects(c, actions[0]);
      SilentUntilReconnected(Step(c, actions[0]).conn, actions[1..]);
    }
  }

  /** Validity holds after any sequence of steps. */
  lemma {:induction false} RunKeepsValid(c: Conn, actions: seq<Action>)
    requires Valid(c)
    ensures Valid(Run(c, actions))
    decreases |actions|
  {
    if actions != [] {
      StepKeepsValid(c, actions[0]);
      RunKeepsValid(Step(c, actions[0]).conn, actions[1..]);
    }
  }

  /** The disconnect callback never publishes the leave it attempts. */
  lemma OnDisconnectPublishesNothing(c: Conn)
    ensures OnDisconnect(c).log == c.log
    ensures Frames(OnDisconnect(c).log) == Frames(c.log)
  {
  }

  /** An explicit disconnect publishes exactly one leave, for the remembered
      team and user, when it knows the room and is connected, and then
      deactivates the client. When the socket has closed under it, that
      leave throws and nothing is deactivated or reset. Otherwise it only
      deactivates. */
  lemma DisconnectLeaves(c: Conn)
    requires c.client.Some?
    ensures KnowsRoom(c) && IsConnectionActive(c) ==>
      Disconnect(c).conn.log == c.log + [
        Published(Frame(Destination(c.currentTeamId.value, "leave"), LeaveRoom, None, None, None, c.userId, c.userName)),
        Deactivated]
    ensures KnowsRoom(c) && Refuses(c) ==> Disconnect(c) == Threw(c)
    ensures !(KnowsRoom(c) && c.isConnected) ==> Disconnect(c).conn.log == c.log + [Deactivated]
  {
  }

  /** After a disconnect no connection is reported active. */
  lemma DisconnectedIsInactive(c: Conn)
    ensures !IsConnectionActive(Disconnect(c).conn) || c.client.None?
    ensures !IsConnectionActive(OnDisconnect(c))
    ensures !IsConnectionActive(SocketClosed(c))
  {
  }

  /** A fresh client is not active until its `onConnect` callback fires,
      and is active from then on. */
  lemma ConnectThenActive(c: Conn, token: string)
    ensures !IsConnectionActive(Connect(c, token))
    ensures IsConnectionActive(OnConnect(Connect(c, token)))
  {
  }

  /** `isConnectionActive` needs both flags: the service's flag alone, left
      up when the socket closes without the callback, is not enough, and
      the service then lets calls through that its client refuses. */
  lemma ClosedSocketKeepsFlag(c: Conn)
    requires IsConnectionActive(c)
    ensures SocketClosed(c).isConnected && !IsConnectionActive(SocketClosed(c))
    ensures Refuses(SocketClosed(c))
  {
  }

  /** Connecting and then losing the socket without the callback leaves a
      service that refuses: its next vote throws and publishes nothing. */
  lemma VoteAfterSocketClosedThrows(token: string, t: string, s: string, v: string)
    ensures var c := Run(Initial, [DoConnect(token), TransportConnected, TransportClosed]);
      && Refuses(c)
      && Step(c, Vote(t, s, v)).Threw?
      && Frames(Step(c, Vote(t, s, v)).conn.log) == []
  {
    var actions := [DoConnect(token), TransportConnected, TransportClosed];
    var c1 := Step(Initial, DoConnect(token)).conn;
    var c2 := Step(c1, TransportConnected).conn;
    var c3 := Step(c2, TransportClosed).conn;
    assert actions[1..][1..][1..] == [];
    assert Run(Initial, actions) == Run(c1, actions[1..]) == Run(c2, actions[1..][1..]) == c3;
    FramesAfterSilent([], Activated(token));
    assert [] + [Activated(token)] == [Activated(token)];
  }

  /** Subscribing asks the client for exactly the team topic and the two
      per-user queues, in that order; a refusing client is asked nothing
      and only the team is remembered. */
  lemma SubscribeTopics(c: Conn, teamId: string)
    requires c.isConnected
    ensures ClientLive(c) ==>
      Subscribe(c, teamId).conn.log == c.log + [Subscribed(TeamTopicPrefix + teamId), Subscribed(SessionTopic), Subscribed(ErrorTopic)]
    ensures ClientLive(c) ==> Subscribe(c, teamId).conn.subscriptions[TeamKey(teamId)] == TeamTopicPrefix + teamId
    ensures !ClientLive(c) ==> Subscribe(c, teamId) == Threw(c.(currentTeamId := Some(teamId)))
  {
  }

  /** Unsubscribing a team just subscribed gives back the subscriptions held
      before, when none of that team's keys was held then, whether or not
      the subscribe threw; other teams' subscriptions survive it. */
  lemma SubscribeThenUnsubscribe(c: Conn, t: string, u: string)
    requires c.isConnected
    ensures TeamKeys(t) !! c.subscriptions.Keys ==>
      Unsubscribe(Subscribe(c, t).conn, t).subscriptions == c.subscriptions
    ensures ClientLive(c) && t != u ==> TeamKeys(u) <= Subscribe(Subscribe(c, u).conn, t).conn.subscriptions.Keys
    ensures ClientLive(c) && t != u ==> TeamKeys(u) <= Unsubscribe(Subscribe(c, u).conn, t).subscriptions.Keys
  {
    TeamKeysDistinct(t, u);
  }

  /** After a join, the vote, reveal, start-voting and complete frames are
      signed with the joining user and addressed to the given team. When
      the socket has closed under the service, both calls throw and nothing
      is published, yet the join has already remembered the user. */
  lemma JoinThenActionCarriesIdentity(c: Conn, t: string, u: Option<string>, n: Option<string>, a: Action)
    requires c.isConnected
    requires a.Vote? || a.Reveal? || a.Start? || a.Complete?
    ensures var j := SendJoin(c, t, u, n); var r := Step(j.conn, a).conn;
      ClientLive(c) ==>
        && |Frames(r.log)| == |Frames(c.log)| + 2
        && Frames(r.log)[|Frames(c.log)|] == Frame(Destination(t, "join"), JoinRoom, None, None, None, u, n)
        && Frames(r.log)[|Frames(c.log)| + 1].userId == u
        && Frames(r.log)[|Frames(c.log)| + 1].userName == n
        && Frames(r.log)[|Frames(c.log)| + 1].destination == Destination(a.teamId, ActionPath(a))
    ensures var j := SendJoin(c, t, u, n);
      !ClientLive(c) ==>
        && j.Threw? && Step(j.conn, a).Threw?
        && Step(j.conn, a).conn.log == c.log
        && Step(j.conn, a).conn.userId == u && Step(j.conn, a).conn.userName == n
  {
    if ClientLive(c) {
      var j := SendJoin(c, t, u, n).conn;
      var r := Step(j, a).conn;
      FramesAppend(c.log, [j.log[|c.log|]]);
      assert j.log == c.log + [j.log[|c.log|]];
      FramesAppend(j.log, [r.log[|j.log|]]);
      assert r.log == j.log + [r.log[|j.log|]];
    }
  }

  /** The path segment of each session action. */
  function ActionPath(a: Action): string {
    match a
    case Vote(_, _, _) => "vote"
    case Reveal(_, _) => "reveal"
    case Start(_, _) => "start-voting"
    case Complete(_, _, _) => "complete"
    case _ => ""
  }

  /** Without a preceding join, session actions go out with a `null` user:
      a fresh service that has just connected signs a vote with nobody. */
  lemma VoteWithoutJoinIsAnonymous(token: string, t: string, s: string, v: string)
    ensures var r := Run(Initial, [DoConnect(token), TransportConnected, Vote(t, s, v)]);
      Frames(r.log) == [Frame(Destination(t, "vote"), CastVote, Some(s), Some(v), None, None, None)]
  {
    var actions := [DoConnect(token), TransportConnected, Vote(t, s, v)];
    var c1 := Step(Initial, DoConnect(token)).conn;
    var c2 := Step(c1, TransportConnected).conn;
    var c3 := Step(c2, Vote(t, s, v)).conn;
    assert actions[1..][1..][1..] == [];
    assert Run(Initial, actions) == Run(c1, actions[1..]) == Run(c2, actions[1..][1..]) == c3;
    FramesAfterPublish([Activated(token)], Frame(Destination(t, "vote"), CastVote, Some(s), Some(v), None, None, None));
  }

  /** A disconnect that completes forgets the user: a vote after
      reconnecting is anonymous again until the next join. */
  lemma DisconnectForgetsIdentity(c: Conn, t: string, s: string, v: string)
    requires c.client.Some?
    ensures var d := OnConnect(Disconnect(c).conn);
      Disconnect(c).Returned? ==>
        Frames(Step(d, Vote(t, s, v)).conn.log) == Frames(d.log) + [Frame(Destination(t, "vote"), CastVote, Some(s), Some(v), None, None, None)]
  {
    var d := OnConnect(Disconnect(c).conn);
    FramesAfterPublish(d.log, Frame(Destination(t, "vote"), CastVote, Some(s), Some(v), None, None, None));
  }
}
