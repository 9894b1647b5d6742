/** The planning-poker component's state and its pure parts: the vote upsert,
    the reducer for broadcast messages, and which moderator controls are
    shown in which session status. */
module PokerView {
  import opened Basics
  import opened Domain
  import opened Json

  /** The component's state. `error` is whatever value was last shown as
      the error (the empty string when there is none). */
  datatype View = View(
    session: Option<Session>,
    votes: seq<Vote>,
    userVote: Option<string>,
    loading: bool,
    finalEstimate: string,
    error: JValue,
    connectedUsers: seq<string>)

  const NoError := JString("")

  /** The state on first render. */
  const InitialView := View(None, [], None, false, "", NoError, [])

  /** What the component reads from its props and from the stored user on
      every render: the team, the user's `id` (missing when no user is
      stored) and the display name `${firstName} ${lastName}`. */
  datatype Context = Context(teamId: string, userId: Option<string>, userName: string)

  /** Index of the first vote by user `id`, or -1: `findIndex`. */
  function IndexOfUser(votes: seq<Vote>, id: string): (i: int)
    ensures -1 <= i < |votes|
    ensures 0 <= i ==> votes[i].user.id == id && forall j :: 0 <= j < i ==> votes[j].user.id != id
    ensures i == -1 <==> forall j :: 0 <= j < |votes| ==> votes[j].user.id != id
    decreases |votes|
  {
    if votes == [] then -1
    else if votes[0].user.id == id then 0
    else
      var k := IndexOfUser(votes[1..], id);
      if k < 0 then -1 else k + 1
  }

  /** The first vote by user `id`: `votes.find(v => v.user.id === id)`. */
  function VoteFor(votes: seq<Vote>, id: string): Option<Vote> {
    var i := IndexOfUser(votes, id);
    if i < 0 then None else Some(votes[i])
  }

  /** No user has two votes in the list. */
  predicate UniqueUsers(votes: seq<Vote>) {
    forall i, j :: 0 <= i < j < |votes| ==> votes[i].user.id != votes[j].user.id
  }

  /** `updateVotes(newVote)`: the vote replaces that user's earlier vote in
      place, or is appended when the user has none. */
  function UpdateVotes(votes: seq<Vote>, nv: Vote): (r: seq<Vote>)
    ensures |votes| <= |r| && nv in r
    ensures forall j :: 0 <= j < |votes| && votes[j].user.id != nv.user.id ==> r[j] == votes[j]
    ensures VoteFor(votes, nv.user.id).Some? ==> |r| == |votes|
    ensures VoteFor(votes, nv.user.id).None? ==> r == votes + [nv]
  {
    var i := IndexOfUser(votes, nv.user.id);
    if i >= 0 then
      assert votes[i := nv][i] == nv;
      votes[i := nv]
    else
      assert (votes + [nv])[|votes|] == nv;
      votes + [nv]
  }

  /** The first vote of a user is at `k` when it is there and nowhere
      before. */
  lemma FirstVoteAt(votes: seq<Vote>, id: string, k: int)
    requires 0 <= k < |votes| && votes[k].user.id == id
    requires forall j :: 0 <= j < k ==> votes[j].user.id != id
    ensures IndexOfUser(votes, id) == k
  {
  }

  /** Keyed by user, the upsert behaves as a map update: looking up the
      voting user finds the new vote, and every other user's lookup is
      unchanged. */
  lemma UpdateVotesLookup(votes: seq<Vote>, nv: Vote, id: string)
    ensures VoteFor(UpdateVotes(votes, nv), id) == if id == nv.user.id then Some(nv) else VoteFor(votes, id)
  {
    var i := IndexOfUser(votes, nv.user.id);
    var k := IndexOfUser(votes, id);
    var r := if i >= 0 then votes[i := nv] else votes + [nv];
    assert UpdateVotes(votes, nv) == r;
    if id == nv.user.id {
      FirstVoteAt(r, id, if i >= 0 then i else |votes|);
    } else if k >= 0 {
      FirstVoteAt(r, id, k);
    } else {
      assert forall j :: 0 <= j < |r| ==> r[j].user.id != id by {
        forall j | 0 <= j < |r| ensures r[j].user.id != id {
          if j < |votes| && j != i { assert r[j] == votes[j]; }
        }
      }
    }
  }

  /** The upsert keeps every user's vote unique, and afterwards the voting
      user's only vote is the new one. */
  lemma UpdateVotesUnique(votes: seq<Vote>, nv: Vote)
    requires UniqueUsers(votes)
    ensures UniqueUsers(UpdateVotes(votes, nv))
    ensures forall j :: 0 <= j < |UpdateVotes(votes, nv)| && UpdateVotes(votes, nv)[j].user.id == nv.user.id ==>
      UpdateVotes(votes, nv)[j] == nv
  {
  }

  /** Receiving the same vote twice is the same as receiving it once. */
  lemma UpdateVotesIdempotent(votes: seq<Vote>, nv: Vote)
    ensures UpdateVotes(UpdateVotes(votes, nv), nv) == UpdateVotes(votes, nv)
  {
    var r := UpdateVotes(votes, nv);
    UpdateVotesLookup(votes, nv, nv.user.id);
    var i := IndexOfUser(r, nv.user.id);
    assert r[i] == nv;
    assert r[i := nv] == r;
  }

  /** `names.filter(n => n !== name)`. */
  function Without(names: seq<string>, name: string): (r: seq<string>)
    ensures |r| <= |names|
    ensures forall n :: n in r <==> n in names && n != name
    decreases |names|
  {
    if names == [] then []
    else (if names[0] == name then [] else [names[0]]) + Without(names[1..], name)
  }

  predicate NoDuplicates(names: seq<string>) {
    forall i, j :: 0 <= i < j < |names| ==> names[i] != names[j]
  }

  lemma {:induction false} WithoutKeepsNoDuplicates(names: seq<string>, name: string)
    requires NoDuplicates(names)
    ensures NoDuplicates(Without(names, name))
    decreases |names|
  {
    if names != [] {
      WithoutKeepsNoDuplicates(names[1..], name);
      var rest := Without(names[1..], name);
      if names[0] != name {
        assert names[0] !in names[1..];
        assert names[0] !in rest;
        assert Without(names, name) == [names[0]] + rest;
      } else {
        assert Without(names, name) == rest;
      }
    }
  }

  /** A broadcast message after `JSON.parse`: its `type`, the `data` and
      `session` payloads, and the properties the presence and error
      messages carry. */
  datatype Message = Message(
    msgType: string,
    data: Option<Data>,
    session: Option<Session>,
    userName: Option<string>,
    connectedUsers: Option<seq<string>>,
    message: Option<JValue>,
    error: Option<JValue>)

  /** The `case` labels of the reducer's `switch`, grouped by branch. */
  datatype Kind =
    | SessionChanged | VoteChanged | VotesRevealed | SessionCompleted | VotingStarted
    | UserJoined | UserLeft | ErrorReported | ConnectionStatus | Unknown

  function Classify(t: string): Kind {
    if t == "SESSION_CREATED" || t == "SESSION_UPDATED" then SessionChanged
    else if t == "VOTE_CAST" || t == "VOTE_UPDATED" then VoteChanged
    else if t == "VOTES_REVEALED" then VotesRevealed
    else if t == "SESSION_COMPLETED" then SessionCompleted
    else if t == "VOTING_STARTED" then VotingStarted
    else if t == "USER_JOINED" || t == "JOIN_ROOM" then UserJoined
    else if t == "USER_LEFT" || t == "LEAVE_ROOM" then UserLeft
    else if t == "ERROR" then ErrorReported
    else if t == "CONNECTION_STATUS" then ConnectionStatus
    else Unknown
  }

  /** A payload read as a session. */
  function AsSession(d: Data): Option<Session> {
    if d.SessionData? then Some(d.session) else None
  }

  /** `message.data || message.session`, read as a session. */
  function PayloadSession(m: Message): Option<Session> {
    if m.data.Some? then AsSession(m.data.value) else m.session
  }

  /** `s.votes || []` on a possibly-missing session. */
  function VotesOf(s: Option<Session>): seq<Vote> {
    if s.Some? then s.value.votes else []
  }

  /** `message.data?.votes || message.session?.votes || []`. */
  function PayloadVotes(m: Message): seq<Vote> {
    if m.data.Some? && m.data.value.SessionData? then m.data.value.session.votes
    else VotesOf(m.session)
  }

  const GenericMessageError := "An error occurred"

  /** `handlePokerMessage(message)`. `roster` is the `connectedUsers` value
      the handler closed over when it was subscribed; every update of the
      roster itself applies to the live value. */
  function Reduce(v: View, m: Message, roster: seq<string>): (r: View)
    ensures Classify(m.msgType) in {SessionChanged, VoteChanged, VotesRevealed, SessionCompleted, VotingStarted} ==>
      r.error == NoError
    ensures Classify(m.msgType) == ErrorReported ==>
      !r.loading && r.error != NoError && r.session == v.session && r.votes == v.votes
    ensures Classify(m.msgType) == SessionChanged ==> r.session == PayloadSession(m)
  {
    var hasPayload := m.data.Some? || m.session.Some?;
    match Classify(m.msgType)
    case SessionChanged =>
      v.(session := PayloadSession(m), votes := PayloadVotes(m), error := NoError)
    case VoteChanged =>
      var v' := if m.data.Some? && m.data.value.VoteData? then v.(votes := UpdateVotes(v.votes, m.data.value.vote)) else v;
      v'.(error := NoError)
    case VotesRevealed =>
      if hasPayload then v.(session := PayloadSession(m), votes := VotesOf(PayloadSession(m)), error := NoError)
      else v.(error := NoError)
    case SessionCompleted =>
      if hasPayload then v.(session := PayloadSession(m), error := NoError) else v.(error := NoError)
    case VotingStarted =>
      if hasPayload then v.(session := PayloadSession(m), votes := VotesOf(PayloadSession(m)), userVote := None, error := NoError)
      else v.(error := NoError)
    case UserJoined =>
      if TruthyStr(m.userName) && m.userName.value !in roster
      then v.(connectedUsers := v.connectedUsers + [m.userName.value])
      else v
    case UserLeft =>
      if TruthyStr(m.userName) then v.(connectedUsers := Without(v.connectedUsers, m.userName.value)) else v
    case ErrorReported =>
      v.(error := FirstTruthy([m.message, m.error], GenericMessageError), loading := false)
    case ConnectionStatus =>
      if m.connectedUsers.Some? then v.(connectedUsers := m.connectedUsers.value) else v
    case Unknown => v
  }

  /** What each kind of message may touch: the final-estimate input is never
      changed by a broadcast; only errors clear `loading`; only presence
      messages change the roster; only a new voting round clears the user's
      own vote; presence messages leave session and votes alone. */
  lemma ReduceFrame(v: View, m: Message, roster: seq<string>)
    ensures var r := Reduce(v, m, roster);
      && r.finalEstimate == v.finalEstimate
      && (Classify(m.msgType) != ErrorReported ==> r.loading == v.loading)
      && (r.connectedUsers != v.connectedUsers ==> Classify(m.msgType) in {UserJoined, UserLeft, ConnectionStatus})
      && (r.userVote != v.userVote ==> Classify(m.msgType) == VotingStarted && r.userVote.None?)
      && (Classify(m.msgType) in {UserJoined, UserLeft, ConnectionStatus, ErrorReported, Unknown} ==>
            r.session == v.session && r.votes == v.votes)
  {
  }

  /** A message of a type the reducer does not know changes nothing. */
  lemma UnknownMessageIgnored(v: View, m: Message, roster: seq<string>)
    requires m.msgType !in {"SESSION_CREATED", "SESSION_UPDATED", "VOTE_CAST", "VOTE_UPDATED",
      "VOTES_REVEALED", "SESSION_COMPLETED", "VOTING_STARTED", "USER_JOINED", "JOIN_ROOM",
      "USER_LEFT", "LEAVE_ROOM", "ERROR", "CONNECTION_STATUS"}
    ensures Reduce(v, m, roster) == v
  {
  }

  /** A new voting round takes the broadcast session and its votes and
      forgets the user's own vote. */
  lemma VotingStartedResets(v: View, m: Message, roster: seq<string>, s: Session)
    requires m.msgType == "VOTING_STARTED" && m.data == Some(SessionData(s))
    ensures Reduce(v, m, roster).session == Some(s)
    ensures Reduce(v, m, roster).votes == s.votes
    ensures Reduce(v, m, roster).userVote.None?
  {
  }

  /** A vote broadcast upserts the vote by its user. */
  lemma VoteCastUpserts(v: View, m: Message, roster: seq<string>, nv: Vote)
    requires Classify(m.msgType) == VoteChanged && m.data == Some(VoteData(nv))
    ensures VoteFor(Reduce(v, m, roster).votes, nv.user.id) == Some(nv)
    ensures UniqueUsers(v.votes) ==> UniqueUsers(Reduce(v, m, roster).votes)
  {
    UpdateVotesLookup(v.votes, nv, nv.user.id);
    if UniqueUsers(v.votes) {
      UpdateVotesUnique(v.votes, nv);
    }
  }

  /** A leave removes every occurrence of the name and keeps the rest of
      the roster. */
  lemma LeaveRemovesName(v: View, m: Message, roster: seq<string>)
    requires Classify(m.msgType) == UserLeft && TruthyStr(m.userName)
    ensures forall n :: n in Reduce(v, m, roster).connectedUsers <==> n in v.connectedUsers && n != m.userName.value
  {
  }

  /** A connection status replaces the roster wholesale. */
  lemma StatusReplacesRoster(v: View, m: Message, roster: seq<string>)
    requires Classify(m.msgType) == ConnectionStatus && m.connectedUsers.Some?
    ensures Reduce(v, m, roster).connectedUsers == m.connectedUsers.value
  {
  }

  /** A join appends the name exactly when it is absent from the roster the
      handler captured, whatever the live roster holds. */
  lemma JoinAgainstCaptured(v: View, m: Message, roster: seq<string>)
    requires Classify(m.msgType) == UserJoined && TruthyStr(m.userName)
    ensures m.userName.value !in roster ==> Reduce(v, m, roster).connectedUsers == v.connectedUsers + [m.userName.value]
    ensures m.userName.value in roster ==> Reduce(v, m, roster) == v
  {
  }

  /** The handler is subscribed once, while the roster is still empty, so
      the captured roster is `[]`: a user already listed (here by a status
      message) who joins again is listed twice. */
  lemma StaleRosterDuplicates(v: View)
    requires v.connectedUsers == []
    ensures var status := Message("CONNECTION_STATUS", None, None, None, Some(["Ayşe"]), None, None);
      var join := Message("USER_JOINED", None, None, Some("Ayşe"), None, None, None);
      Reduce(Reduce(v, status, []), join, []).connectedUsers == ["Ayşe", "Ayşe"]
  {
  }

  /** The reducer as evidently intended: a join is checked against the live
      roster. */
  function ReduceLive(v: View, m: Message): View {
    Reduce(v, m, v.connectedUsers)
  }

  /** With the live roster, a roster without duplicates stays without
      duplicates, as long as status messages list every user once; a joined
      user is then listed. */
  lemma ReduceLiveNoDuplicates(v: View, m: Message)
    requires NoDuplicates(v.connectedUsers)
    requires m.connectedUsers.Some? ==> NoDuplicates(m.connectedUsers.value)
    ensures NoDuplicates(ReduceLive(v, m).connectedUsers)
    ensures Classify(m.msgType) == UserJoined && TruthyStr(m.userName) ==> m.userName.value in ReduceLive(v, m).connectedUsers
  {
    var k := Classify(m.msgType);
    if k == UserLeft && TruthyStr(m.userName) {
      WithoutKeepsNoDuplicates(v.connectedUsers, m.userName.value);
    }
  }

  /** `session.createdBy?.id === userId`: a session without a creator
      matches exactly a user without an id. */
  predicate IsModerator(s: Session, userId: Option<string>) {
    (if s.createdBy.Some? then Some(s.createdBy.value.id) else None) == userId
  }

  predicate ModeratorIn(v: View, ctx: Context, st: Status) {
    v.session.Some? && IsModerator(v.session.value, ctx.userId) && v.session.value.status == st
  }

  /** The Start Voting button. */
  predicate ShowStartVoting(v: View, ctx: Context) {
    ModeratorIn(v, ctx, Waiting)
  }

  /** The Reveal Votes button. */
  predicate ShowReveal(v: View, ctx: Context) {
    ModeratorIn(v, ctx, Voting) && |v.votes| > 0
  }

  /** The final-estimate input and Complete Session button; the button is
      enabled only with a non-empty estimate and no request in flight. */
  predicate ShowComplete(v: View, ctx: Context) {
    ModeratorIn(v, ctx, Revealed)
  }

  predicate CompleteEnabled(v: View, ctx: Context) {
    ShowComplete(v, ctx) && !v.loading && v.finalEstimate != ""
  }

  /** The Start New Round button. */
  predicate ShowNewRound(v: View, ctx: Context) {
    ModeratorIn(v, ctx, Completed)
  }

  /** The voting cards are shown while waiting or voting and can be pressed
      only while voting with no request in flight. */
  predicate CardsShown(v: View) {
    v.session.Some? && v.session.value.status in {Voting, Waiting}
  }

  predicate CardsEnabled(v: View) {
    CardsShown(v) && !v.loading && v.session.value.status == Voting
  }

  /** Each moderator control belongs to exactly one status, so at most one
      is shown at a time; all of them need the session's creator, and
      revealing needs a vote. */
  lemma ModeratorControlsExclusive(v: View, ctx: Context)
    ensures ShowStartVoting(v, ctx) ==> !ShowReveal(v, ctx) && !ShowComplete(v, ctx) && !ShowNewRound(v, ctx)
    ensures ShowReveal(v, ctx) ==> !ShowComplete(v, ctx) && !ShowNewRound(v, ctx) && |v.votes| > 0
    ensures ShowComplete(v, ctx) ==> !ShowNewRound(v, ctx)
    ensures (ShowStartVoting(v, ctx) || ShowReveal(v, ctx) || ShowComplete(v, ctx) || ShowNewRound(v, ctx)) ==>
      v.session.Some? && IsModerator(v.session.value, ctx.userId)
    ensures v.session.Some? && !IsModerator(v.session.value, ctx.userId) ==>
      !ShowStartVoting(v, ctx) && !ShowReveal(v, ctx) && !ShowComplete(v, ctx) && !ShowNewRound(v, ctx)
  {
  }

  /** With a signed-in user, only the creator moderates; a session without
      a creator is moderated by nobody. */
  lemma ModeratorIsCreator(s: Session, id: string)
    ensures IsModerator(s, Some(id)) <==> s.createdBy.Some? && s.createdBy.value.id == id
  {
  }

  /** The controls after a round message carrying session `s`: a new round
      enables the cards unless a request is in flight and offers the reveal
      to the moderator once there is a vote; a reveal hides the cards and
      offers the moderator the final estimate; a completion offers the
      moderator a new round. */
  lemma RoundControls(v: View, m: Message, roster: seq<string>, ctx: Context, s: Session)
    requires m.data == Some(SessionData(s))
    ensures var r := Reduce(v, m, roster);
      && (m.msgType == "VOTING_STARTED" && s.status == Voting ==>
            && (CardsEnabled(r) <==> !v.loading)
            && (ShowReveal(r, ctx) <==> IsModerator(s, ctx.userId) && |s.votes| > 0)
            && !ShowStartVoting(r, ctx) && r.userVote.None?)
      && (m.msgType == "VOTES_REVEALED" && s.status == Revealed ==>
            && !CardsShown(r)
            && (ShowComplete(r, ctx) <==> IsModerator(s, ctx.userId)))
      && (m.msgType == "SESSION_COMPLETED" && s.status == Completed ==>
            && !CardsShown(r)
            && (ShowNewRound(r, ctx) <==> IsModerator(s, ctx.userId)))
  {
  }
}
