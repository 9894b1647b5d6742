# Scrum tools front end: a Dafny model of the client logic

This project models the client-side logic of a React front end for planning
poker and retrospectives. The poker state machine itself lives on a server
that is not part of this model; what is modelled is everything the browser
decides on its own:

- **HTTP results.** The way each service's `apiCall` turns a `fetch` outcome
  (a status and a parsed body, a body that does not parse, or a thrown error
  kind) into `{ success, error | ...data }`. This covers the common API
  service's per-status classification, its session-expiry path and the
  request headers it builds (`Http`, `ApiService`).
- **Browser storage.** `localStorage` as a `map<string, string>`, and the
  stored user record as JSON text: `JSON.parse` and `JSON.stringify` over
  general JSON values, with a proved round trip (`Storage`, `JsonText`).
  On top of it sit the auth service's credential helpers, logout and
  profile short-circuit (`AuthService`), and the team service's "last
  selected team" preference (`TeamService`).
- **Poker endpoints.** The REST endpoints of the poker service and how a
  server reads the URLs they build (`PokerApi`).
- **Poker broadcast connection.** The connection bookkeeping of the poker
  WebSocket service, as a state machine that appends every subscription and
  every published frame to a log. The STOMP client publishes and subscribes
  only over a live connection and throws otherwise; a call that throws
  keeps what it assigned before the throw (`PokerSocket`).
- **Poker view-model.** The poker component's state, split in three:
  - the broadcast-message reducer, the vote upsert and the moderator and
    card guards (`PokerView`);
  - the vote average and the nearest Fibonacci card (`Estimate`);
  - the button actions, which combine a REST call, a broadcast and a state
    update (`PokerActions`).
- **Retrospective board.** Its phase sequence, item insertion, vote toggle
  and category columns (`Retro`).
- **Dashboard and layout.** The dashboard's and the layout's team-selection
  rule, their handlers, the layout's route guard and member role lookup, and
  logout (`TeamPages`).

Shared pieces:

- `Basics` holds `Option`, `Try` (a value, or a thrown exception), JavaScript
  truthiness of strings, white-space trimming and decimal numerals.
- `Props` models a JavaScript object as an ordered list of properties, with
  assignment and object spread.
- `Json` holds parsed JSON values and their truthiness.
- `Domain` holds the session, vote and team records.

I/O is turned into inputs:

- every network call is a `Fetch` value (`Responded(status, body)` or
  `Threw(kind)`);
- storage is an explicit `Store`;
- the WebSocket transport is a log of events;
- clock readings (retro item ids) and the random parts of new session titles
  are parameters.

## Model

| member | source | states |
|---|---|---|
| Http.MapFetch | src/services/pokerApiService.ts:119-159 | A thrown `TimeoutError` or `TypeError` gives its own fixed text and any other throw the generic one. A body that does not parse fails with the generic text whatever the status. A non-OK JSON answer fails with `message`, else `error`, else `Bir hata oluştu`. An OK JSON answer is `success: true` spread with the body. |
| Http.SucceededFields | src/services/pokerApiService.ts:133-136 | Every property of an OK body passes through `{ success: true, ...data }` unchanged; no other property appears; `success` reads `true` unless the body has its own. |
| Http.MapFetchSucceedsIff | src/services/teamService.ts:126-140 | A call reports success if and only if the server answered 2xx with a JSON object whose own `success`, if present, is truthy. |
| Http.MapFetchFailureHasError | src/services/authService.ts:80-118 | Every failure the mapping itself produces has a falsy `success` and a truthy `error`. |
| Http.SentHeadersContents | src/services/pokerApiService.ts:99-117 | Without caller headers the request carries `Content-Type: application/json`, and `Authorization: Bearer <token>` if and only if a token is stored. With caller headers it carries exactly those. |
| Http.MergedHeadersContents | src/services/apiService.ts:36-44 | The merged header object keeps every caller header. A stored token overrides `Authorization`, and the JSON content type is supplied when the caller set none. |
| Http.CallerHeadersDropToken | src/services/apiService.ts:46-51 | With a caller header and a stored token, the headers sent have no `Authorization`, although the merged object built just before has it. |
| ApiService.ResponseError | src/services/apiService.ts:67-154 | A response is reported as an error if and only if its status is not 2xx. 401 and 5xx get their fixed texts. 400, 403, 404 and 409 without `message` or `error` get their own default. |
| ApiService.ApiCall | src/services/apiService.ts:28-186 | A login redirect is scheduled, and `token` and `user` are removed, if and only if the status is 401. A toast is shown if and only if toasts are on and the call failed, and it shows the result's error. A 2xx answer gives `{ success: true, ...data }`. |
| ApiService.ApiCallPassesBody | src/services/apiService.ts:157-160 | On a 2xx answer every body field reaches the caller unchanged, no other field appears but `success`, and `success` is `true` unless the body has its own. |
| ApiService.ApiCallSucceedsIff | src/services/apiService.ts:53-160 | Success if and only if the status is 2xx, whether or not the body parses, unless the body's own `success` is falsy. |
| ApiService.ApiCallStatusErrors | src/services/apiService.ts:67-154 | 401 and 5xx have fixed texts. 400, 403, 404, 409 and every other failing status take `message`, else `error`, else their own default; the catch-all default is `HTTP <status>: Bir hata oluştu`. |
| ApiService.ServerErrorIgnoresBody | src/services/apiService.ts:133-142 | For a status of 500 or more, the outcome is the same whatever body came with it. |
| ApiService.UnparseableOkIsEmptySuccess | src/services/apiService.ts:57-62 | An OK answer whose body does not parse is read as `{}` and gives exactly `{ success: true }`. |
| ApiService.ApiCallThrownErrors | src/services/apiService.ts:162-185 | Timeout, network (`TypeError`) and abort errors each get their own text, and anything else gets the generic one. Storage is untouched. |
| Storage.ClearAuth | src/services/apiService.ts:17-20 | `token` and `user` are gone and every other entry is unchanged. |
| Storage.ReadUser | src/services/authService.ts:181-183 | A missing or empty `user` entry reads as no user. Any other text goes to `JSON.parse`, and the read throws if and only if the text is not JSON. |
| Storage.WriteUser | src/services/authService.ts:192 | Writing the user sets the `user` entry and no other. |
| Storage.ReadWrittenUser | src/services/authService.ts:179-193 | Any JSON value stored with `JSON.stringify` is parsed back equal to itself. |
| JsonText.ParseStringify | src/services/teamService.ts:240-243 | `JSON.parse(JSON.stringify(v))` is `v` for every value JSON can express: any string, numbers as written, and nested arrays and objects. |
| JsonText.ParseStringified | src/services/teamService.ts:240-243 | A written value reads back as itself whatever text follows it, as long as that text cannot continue a number. |
| JsonText.ParsePadded | src/services/authService.ts:183 | White space before and after the value is accepted. |
| JsonText.ParseMembersStep | src/services/teamService.ts:240 | Each property read is assigned onto those before it, so a repeated name keeps its first place and takes its last value. |
| JsonText.ParseUnicodeEscape | src/services/teamService.ts:251 | A `\u` escape of a character of the basic multilingual plane decodes to that character. |
| JsonText.ParseSurrogatePair | src/services/teamService.ts:251 | A pair of `\u` surrogate escapes decodes to the one character they encode. |
| JsonText.ParseEscaped | src/services/authService.ts:183-192 | Any string, escaped as `JSON.stringify` escapes it, reads back as itself. |
| AuthService.IsAuthenticated | src/services/authService.ts:173-176 | Signed in if and only if a non-empty token is stored. |
| AuthService.GetAuthData | src/services/authService.ts:179-186 | The token entry is returned as stored. A missing or empty user entry gives `null`, a stored user gives the parsed value, and the call throws if and only if the user text is not JSON. |
| AuthService.SetAuthData | src/services/authService.ts:189-193 | The token is stored, and no entry other than `token` and `user` changes. |
| AuthService.ClearAuthData | src/services/authService.ts:196-199 | Both entries are gone and every other entry is unchanged. |
| AuthService.SetThenGetAuthData | src/services/authService.ts:173-193 | After `setAuthData(t, u)`, `getAuthData()` returns `t` and `u`, whatever JSON value `u` is, and the session counts as authenticated if and only if `t` is not empty. |
| AuthService.ClearedAuthData | src/services/authService.ts:196-199 | After `clearAuthData()` nobody is authenticated and `getAuthData()` returns no token and a `null` user. |
| AuthService.Logout | src/services/authService.ts:137-152 | The result is the shared mapping of the server's answer, and `token` and `user` are removed whatever the answer was. |
| AuthService.GetUserProfile | src/services/authService.ts:154-170 | Without a token it answers `Token bulunamadı` and sends no request. With one, it sends a request and returns the mapped answer. |
| AuthService.ProfileShortCircuit | src/services/authService.ts:157-169 | Without a token the outcome does not depend on the network. With one, the request's only header is the bearer token. |
| TeamService.SetLastSelectedTeam | src/services/teamService.ts:237-245 | Without a stored user nothing changes. Text that is not JSON, or a stored `null`, makes it throw. Otherwise no entry other than `user` changes. |
| TeamService.GetLastSelectedTeam | src/services/teamService.ts:248-255 | Without a stored user it gives `null`. Text that is not JSON, or a stored `null`, makes it throw. A value it returns is truthy. |
| TeamService.SetThenGetLastSelected | src/services/teamService.ts:237-255 | When the stored user is an object whose `preferences` is missing, falsy or an object, saving succeeds and the id saved is the value read back; an empty id reads back as `null`. For any other stored user, a save that does not throw leaves the value read back as it was. |
| TeamService.SetLastSelectedThrows | src/services/teamService.ts:238-243 | Saving throws if and only if the text is not JSON or the user is neither an array nor an object whose `preferences \|\| {}` is an array or an object. It throws wherever reading throws. |
| TeamService.SetLastSelectedTwice | src/services/teamService.ts:237-245 | Saving the same id twice is saving it once. |
| TeamService.NoUserNoSelection | src/services/teamService.ts:238-254 | Without a stored user, saving changes nothing and reading gives no selection. |
| TeamService.SetLastSelectedKeepsTheRest | src/services/teamService.ts:240-243 | Every user property other than `preferences` reads as before, and so does every other preference. |
| PokerApi.PathOf | src/services/pokerApiService.ts:165-220 | Every poker URL lies under `/api/poker/`. |
| PokerApi.RequestFor | src/services/pokerApiService.ts:163-220 | Only the two team queries use `GET`. Every request carries the JSON content type, and a bearer header if and only if a token is stored. |
| PokerApi.RouteRequestFor | src/services/pokerApiService.ts:165-220 | A server reads every built request back as the same call, given identifiers that fit in one path segment and a final estimate without a reserved query character. |
| PokerApi.RouteCompletePath | src/services/pokerApiService.ts:195-199 | The completion URL reaches the server with the estimate cut at the first `#`, then at the first `&`, then decoded. |
| PokerApi.RoutePlainEstimate | src/services/pokerApiService.ts:195-199 | An estimate without reserved characters arrives unchanged. |
| PokerApi.UnescapedEstimateCut | src/services/pokerApiService.ts:196 | The estimate `5&x` completes the session with `5`. |
| PokerApi.DecodeEncodeQuery | src/services/pokerApiService.ts:196 | An escaped estimate decodes back to itself. |
| PokerApi.RouteEncodedPath | src/services/pokerApiService.ts:195-199 | With the estimate escaped, every call, completion included, is read back as itself. |
| Estimate.NumericValues | src/components/PokerSessionComponent.tsx:375-377 | The filter keeps at most one number per vote: none when no vote is numeric, one per vote when all are. |
| Estimate.NumericValuesAppend | src/components/PokerSessionComponent.tsx:375-377 | Filtering works vote by vote: the values of two runs of votes are the first run's followed by the second's. |
| Estimate.ParseNumber | src/components/PokerSessionComponent.tsx:376-377 | A blank string is 0, a run of digits is its value, and a negative result needs a leading `-`. |
| Estimate.ParseNumberOfNumeral | src/components/PokerSessionComponent.tsx:376-377 | `Number()` of a written card value is that value. |
| Estimate.MeanOfBounds | src/components/PokerSessionComponent.tsx:381-382 | The mean lies between the least and the greatest value. |
| Estimate.AverageNumber | src/components/PokerSessionComponent.tsx:374-383 | The average is 0 when no vote is numeric, and otherwise lies between the lowest and the highest numeric vote. |
| Estimate.AverageTimesCount | src/components/PokerSessionComponent.tsx:374-383 | The average times the number of numeric votes is their sum, so the average is the arithmetic mean. |
| Estimate.AverageCombines | src/components/PokerSessionComponent.tsx:374-383 | The average of two runs of votes is the mean of their averages, weighted by their numeric-vote counts. |
| Estimate.AverageOfOne | src/components/PokerSessionComponent.tsx:374-383 | One numeric vote averages to its own value. |
| Estimate.AverageIgnoresNonNumeric | src/components/PokerSessionComponent.tsx:375-377 | Adding a `?` or other non-numeric vote leaves the average unchanged. |
| Estimate.ReduceClosestIsFirstNearest | src/components/PokerSessionComponent.tsx:389-391 | The strict-`<` reduce returns the earliest element among those nearest to the average. |
| Estimate.FirstNearestAscending | src/components/PokerSessionComponent.tsx:387-391 | In an ascending list the earliest nearest element is the smallest nearest one. |
| Estimate.ClosestFibonacci | src/components/PokerSessionComponent.tsx:386-392 | The result is a card of the deck at the least distance from the average, and the lower of two equally near cards. |
| Estimate.TieGoesToLowerCard | src/components/PokerSessionComponent.tsx:386-392 | 6.5 gives 5. |
| Estimate.AverageExample | src/components/PokerSessionComponent.tsx:374-383 | Votes 5, 8 and `?` average 6.5. |
| PokerSocket.TeamKeysDistinct | src/services/pokerWebSocketService.ts:72-100 | A team has three distinct subscription keys, and two teams share none. |
| PokerSocket.Connect | src/services/pokerWebSocketService.ts:17-47 | `connect` installs and activates a new client with the token. The connected flag waits for the transport. |
| PokerSocket.OnConnect | src/services/pokerWebSocketService.ts:26-29 | The connect callback raises both flags; without a client nothing fires. |
| PokerSocket.OnDisconnect | src/services/pokerWebSocketService.ts:36-43 | The disconnect callback lowers both flags. |
| PokerSocket.SocketClosed | src/services/pokerWebSocketService.ts:253-255 | A socket that closes without the callback lowers only the client's flag. |
| PokerSocket.SendJoin | src/services/pokerWebSocketService.ts:123-145 | While not connected nothing changes. Otherwise it remembers the user id, the user name and the team, and then publishes one join frame. When the socket has closed under the service, that publish throws, but the identity is already stored. |
| PokerSocket.SendLeave | src/services/pokerWebSocketService.ts:147-165 | While not connected nothing changes. Over an active connection it publishes one leave frame for the team and user and changes nothing else. It throws, changing nothing, when the socket has closed under the service. |
| PokerSocket.SendAction | src/services/pokerWebSocketService.ts:167-250 | While not connected nothing changes. Over an active connection it publishes one frame of that action, signed with the remembered user, and changes nothing else. It throws, changing nothing, when the socket has closed under the service. |
| PokerSocket.Disconnect | src/services/pokerWebSocketService.ts:49-63 | Without a client nothing changes. It throws, changing nothing, exactly when it knows the room and its leave is refused by a closed socket. Otherwise the subscriptions, the team, the user and the flag are reset and the client is kept. |
| PokerSocket.Subscribe | src/services/pokerWebSocketService.ts:66-103 | While not connected nothing changes. Otherwise it remembers the team. Over an active connection it then adds exactly the team's three keys and keeps every other entry. On a closed socket the first subscribe throws and no key is added. |
| PokerSocket.Unsubscribe | src/services/pokerWebSocketService.ts:106-120 | It removes exactly the team's three keys and clears the team; the flag and the user are kept. |
| PokerSocket.GuardedInertWhileDisconnected | src/services/pokerWebSocketService.ts:66-250 | While not connected, subscribing and every send change nothing at all and do not throw. |
| PokerSocket.GuardedThrowWhileRefused | src/services/pokerWebSocketService.ts:66-250 | When the flag is up but the socket has closed, subscribing and every send get past the guard and throw, having logged nothing. |
| PokerSocket.Publish | src/services/pokerWebSocketService.ts:135-249 | A publish throws exactly when the client has no live connection. Otherwise it adds exactly its frame and changes nothing else. |
| PokerSocket.StepKeepsValid | src/services/pokerWebSocketService.ts:17-255 | No call leaves the service believing it is connected without a client. |
| PokerSocket.StepPublishesOnlyWhenConnected | src/services/pokerWebSocketService.ts:17-255 | The log only grows. A frame is published only if the service was connected, and a call that throws logs nothing. |
| PokerSocket.OnlyConnectCallbackConnects | src/services/pokerWebSocketService.ts:26-29 | Only the connect callback raises the flag. |
| PokerSocket.SilentUntilReconnected | src/services/pokerWebSocketService.ts:17-255 | Once disconnected, no sequence of calls publishes anything until the transport connects again. |
| PokerSocket.RunKeepsValid | src/services/pokerWebSocketService.ts:17-255 | Any sequence of calls keeps the connected flag backed by a client. |
| PokerSocket.OnDisconnectPublishesNothing | src/services/pokerWebSocketService.ts:36-43 | The leave attempted by the disconnect callback is never published. |
| PokerSocket.DisconnectLeaves | src/services/pokerWebSocketService.ts:49-63 | An explicit disconnect over an active connection that knows the room publishes one leave for the remembered team and user, and then deactivates the client. When the socket has closed under it, the leave throws and nothing is deactivated or reset. Otherwise it only deactivates. |
| PokerSocket.DisconnectedIsInactive | src/services/pokerWebSocketService.ts:253-255 | After a disconnect, a disconnect callback or a closed socket, no connection is reported active. |
| PokerSocket.ConnectThenActive | src/services/pokerWebSocketService.ts:253-255 | A new client is not active until its connect callback fires, and is active after it. |
| PokerSocket.ClosedSocketKeepsFlag | src/services/pokerWebSocketService.ts:253-255 | The service's own flag can stay up while the connection is not active, and the service then lets through calls that its client refuses. |
| PokerSocket.VoteAfterSocketClosedThrows | src/services/pokerWebSocketService.ts:167-186 | After connecting and losing the socket without the callback, a vote throws and publishes nothing. |
| PokerSocket.SubscribeTopics | src/services/pokerWebSocketService.ts:72-100 | Over a live client a subscribe asks for the team topic and then the two per-user queues. A refusing client is asked nothing, and only the team is remembered. |
| PokerSocket.SubscribeThenUnsubscribe | src/services/pokerWebSocketService.ts:66-120 | Unsubscribing a team just subscribed restores the earlier subscriptions, whether or not the subscribe threw. Other teams' subscriptions survive. |
| PokerSocket.JoinThenActionCarriesIdentity | src/services/pokerWebSocketService.ts:123-250 | Over a live client, a join is followed by one join frame and then one action frame, and the action is signed with the joining user. On a closed socket both calls throw and nothing is published, but the user is remembered. |
| PokerSocket.VoteWithoutJoinIsAnonymous | src/services/pokerWebSocketService.ts:167-186 | A vote without a preceding join carries a null user. |
| PokerSocket.DisconnectForgetsIdentity | src/services/pokerWebSocketService.ts:49-63 | After a disconnect that completes and a reconnect, a vote is anonymous again. |
| PokerView.IndexOfUser | src/components/PokerSessionComponent.tsx:332-343 | The index of the first vote by that user, or -1 exactly when the user has none. |
| PokerView.UpdateVotes | src/components/PokerSessionComponent.tsx:332-343 | An existing vote is replaced in place with the length kept; otherwise the vote is appended. Every other user's vote is unchanged. |
| PokerView.UpdateVotesLookup | src/components/PokerSessionComponent.tsx:332-343 | Keyed by user, the upsert is a map update. |
| PokerView.UpdateVotesUnique | src/components/PokerSessionComponent.tsx:332-343 | One vote per user is preserved, and the voter's only vote is the new one. |
| PokerView.UpdateVotesIdempotent | src/components/PokerSessionComponent.tsx:332-343 | The same vote received twice has the effect of receiving it once. |
| PokerView.Without | src/components/PokerSessionComponent.tsx:117-123 | The roster keeps exactly the names other than the leaving one. |
| PokerView.WithoutKeepsNoDuplicates | src/components/PokerSessionComponent.tsx:117-123 | Removing a name keeps a roster free of duplicates. |
| Json.FirstTruthy | src/components/PokerSessionComponent.tsx:125-128 | `a \|\| b \|\| fallback`, as the ERROR message handler reads `message.message \|\| message.error`. The result is truthy unless it is the fallback, and it is one of the inputs unless it is the fallback. It is the first truthy input when there is one, and the fallback when there is none. |
| PokerView.Reduce | src/components/PokerSessionComponent.tsx:64-139 | Every session and vote message clears the error. An error message ends `loading`, shows a non-empty error and keeps the session and votes. A session message takes the payload's session. |
| PokerView.ReduceFrame | src/components/PokerSessionComponent.tsx:64-139 | No message changes the estimate input. Only errors touch `loading`, only presence messages touch the roster, and only a new round clears the user's own vote. |
| PokerView.UnknownMessageIgnored | src/components/PokerSessionComponent.tsx:136-137 | A message of an unknown type changes nothing. |
| PokerView.VotingStartedResets | src/components/PokerSessionComponent.tsx:99-107 | A new round takes the session and its votes and clears the user's own vote. |
| PokerView.VoteCastUpserts | src/components/PokerSessionComponent.tsx:75-81 | A vote broadcast upserts the vote by its user, keeping one vote per user. |
| PokerView.LeaveRemovesName | src/components/PokerSessionComponent.tsx:117-123 | A leave removes every occurrence of the name. |
| PokerView.StatusReplacesRoster | src/components/PokerSessionComponent.tsx:130-134 | A connection status replaces the roster wholesale. |
| PokerView.JoinAgainstCaptured | src/components/PokerSessionComponent.tsx:109-115 | A join appends the name if and only if it is absent from the roster the handler captured. |
| PokerView.StaleRosterDuplicates | src/components/PokerSessionComponent.tsx:109-115 | A user listed by a status message who then joins is listed twice. |
| PokerView.ReduceLiveNoDuplicates | src/components/PokerSessionComponent.tsx:109-134 | Checked against the live roster, the roster never holds a name twice, and a joined user is listed. |
| PokerView.ModeratorControlsExclusive | src/components/PokerSessionComponent.tsx:599-646 | Each moderator control belongs to one status, so at most one is shown. All need the creator, revealing needs a vote, and a non-creator sees none. |
| PokerView.RoundControls | src/components/PokerSessionComponent.tsx:488-646 | After a new round the cards are enabled unless a request is in flight, and the moderator is offered the reveal once there is a vote. After a reveal the cards are hidden and the moderator is offered the final estimate. After completion the moderator is offered a new round. |
| PokerView.ModeratorIsCreator | src/components/PokerSessionComponent.tsx:599 | A signed-in user moderates if and only if they created the session. |
| PokerActions.CastVote | src/components/PokerSessionComponent.tsx:162-189 | Nothing happens unless the session is in voting. When the socket has closed under the service, the publish throws: no request is sent and the caught text is shown. Otherwise the vote request is sent. Either way `loading` ends false, and only the own vote and the error can change. |
| PokerActions.CastVoteRecordsOnSuccess | src/components/PokerSessionComponent.tsx:176-185 | Once the vote is published, the own vote becomes the cast value exactly when the server accepts, including an OK answer without its own `success`. On a refusal the earlier vote is kept and the server's error is shown. A publish that throws keeps the earlier vote and shows the caught text. |
| PokerActions.CastVotePublishes | src/components/PokerSessionComponent.tsx:167-170 | The vote frame is published, signed with the remembered user, exactly when the connection is active. A service that is not connected still sends the request, and one whose socket has closed does not. |
| PokerActions.RefusedButtonsCatch | src/components/PokerSessionComponent.tsx:162-294 | When the socket has closed under a connected service, the vote, reveal, complete and start buttons each end in their `catch`. Each shows its caught text with `loading` false, and none publishes, sends a request or touches storage. |
| PokerActions.VoteAfterSocketClosed | src/components/PokerSessionComponent.tsx:168-188 | A vote after connecting and then losing the socket without the callback shows "An error occurred while casting vote". It keeps the own vote and sends neither the frame nor the request. |
| PokerActions.SuggestedEstimate | src/components/PokerSessionComponent.tsx:207-209 | The pre-filled text reads back as the nearest card. |
| PokerActions.RevealVotes | src/components/PokerSessionComponent.tsx:191-219 | Nothing happens without a session. When the socket has closed under the service, no request is sent and the caught text is shown. Otherwise the reveal request is sent. Only `loading`, the error and the estimate can change. |
| PokerActions.RevealPrefillsNearestCard | src/components/PokerSessionComponent.tsx:203-215 | On success with a positive average the estimate is the nearest card, the lower on a tie. Otherwise, and when the publish throws, the estimate is kept. |
| PokerActions.RevealWithoutNumbersKeepsEstimate | src/components/PokerSessionComponent.tsx:203-211 | With only `?` votes nothing is pre-filled. |
| PokerActions.CompleteSession | src/components/PokerSessionComponent.tsx:221-242 | Nothing happens without a session or with an empty estimate. When the socket has closed under the service, no request is sent and the caught text is shown. Otherwise the completion request carries the estimate. |
| PokerActions.CompletePublishesEstimate | src/components/PokerSessionComponent.tsx:221-242 | Over an active connection the broadcast carries the estimate as typed. Otherwise nothing is published. |
| PokerActions.StartVoting | src/components/PokerSessionComponent.tsx:244-294 | A request goes out only with a token containing a `.`, and then exactly when the publish does not throw. A throwing publish shows the caught text and keeps storage. Storage is either unchanged or has its credentials cleared. |
| PokerActions.StartVotingChecksTokenFirst | src/components/PokerSessionComponent.tsx:254-265 | A missing token only shows an error. A token without a `.` also clears the credentials, and neither case sends anything. |
| PokerActions.StartVotingTokenRefusal | src/components/PokerSessionComponent.tsx:278-287 | Once the start is published, a refusal naming the token clears the credentials and asks for a new login. |
| PokerActions.LoadActiveSession | src/components/PokerSessionComponent.tsx:141-160 | The active-session request is sent, and a failed answer changes nothing. Only the session, the votes and the own vote can change. A new session comes with its own votes, and a new own vote is the user's vote in it. |
| PokerActions.LoadRestoresOwnVote | src/components/PokerSessionComponent.tsx:143-155 | An OK answer carrying a session, with or without its own truthy `success`, loads the session and its votes. The user's vote in it becomes the own vote, and a user with none keeps the own vote held before. |
| PokerActions.StartNewSession | src/components/PokerSessionComponent.tsx:296-330 | A create request is sent for the team, and the roster is kept. |
| PokerActions.NewRoundStartsClean | src/components/PokerSessionComponent.tsx:313-320 | A created session starts with no votes, no own vote and an empty estimate, for any OK answer carrying it whose own `success`, if any, is truthy. |
| PokerActions.Mount | src/components/PokerSessionComponent.tsx:31-35 | It connects only with a token. |
| PokerActions.OnConnectionReady | src/components/PokerSessionComponent.tsx:38-51 | Nothing happens until the connection is active. |
| PokerActions.Cleanup | src/components/PokerSessionComponent.tsx:53-61 | While active, it leaves, unsubscribes and disconnects, ending with no subscriptions, team or user. |
| PokerActions.ReadyThenVoteIsSigned | src/components/PokerSessionComponent.tsx:38-51 | Once ready, the component's votes are signed with its own user. |
| PokerActions.CleanupLeavesOnce | src/components/PokerSessionComponent.tsx:53-61 | Cleanup publishes exactly one leave. |
| Retro.PhaseButton | src/pages/RetrospectivePage.tsx:91-130 | Each phase's button moves one step on, and the last navigates to the dashboard. |
| Retro.PressAdvances | src/pages/RetrospectivePage.tsx:91-130 | After `n` presses the rank is the start's plus `n`, capped at the last phase. |
| Retro.AddItem | src/pages/RetrospectivePage.tsx:43-57 | Blank text changes nothing. Otherwise exactly one item is appended, with the untrimmed text, the selected category and no votes, and the input is cleared. |
| Retro.Vote | src/pages/RetrospectivePage.tsx:59-67 | Only items with that id flip `hasVoted` and move their count by one; all others are unchanged. |
| Retro.VoteTwice | src/pages/RetrospectivePage.tsx:59-67 | Voting twice restores the list. |
| Retro.AddItemWellCounted | src/pages/RetrospectivePage.tsx:50-52 | Adding an item keeps every count equal to the user's own vote on it. |
| Retro.VoteWellCounted | src/pages/RetrospectivePage.tsx:59-67 | Voting keeps every count equal to the user's own vote on it, so each count is 0 or 1. |
| Retro.CategoryItems | src/pages/RetrospectivePage.tsx:69-71 | A column holds exactly the items of its category. |
| Retro.CategoryItemsAppend | src/pages/RetrospectivePage.tsx:69-71 | A column of a concatenation is the concatenation of the columns. |
| Retro.ColumnsPartition | src/pages/RetrospectivePage.tsx:69-71 | The three columns together hold each item exactly as often as the board. |
| Retro.AddItemColumn | src/pages/RetrospectivePage.tsx:43-57 | A new item appears at the end of its own column, and the other columns are unchanged. |
| Retro.VoteKeepsColumns | src/pages/RetrospectivePage.tsx:59-71 | A vote keeps every column's length. |
| TeamPages.FindTeam | src/pages/Dashboard.tsx:46 | It finds a listed team with that id, and finds none if and only if none has it. |
| TeamPages.FindListedTeam | src/pages/Dashboard.tsx:46 | With distinct ids, a listed team is found by its id. |
| TeamPages.Remembered | src/pages/Dashboard.tsx:46 | Only a remembered string can match a team, and it matches the first listed team with that id. |
| TeamPages.Persist | src/pages/Dashboard.tsx:51-52 | The team is selected, and a failed save leaves storage unchanged. |
| TeamPages.DashboardSelect | src/pages/Dashboard.tsx:39-58 | An empty list, or a stored user that cannot be read, changes nothing. Otherwise a listed team is selected, and storage changes only by saving the selected team's id. |
| TeamPages.LayoutSelect | src/components/Layout.tsx:36-55 | An empty list, or a stored user that cannot be read, changes nothing. Otherwise a listed team is selected. |
| TeamPages.LayoutSelectAgrees | src/components/Layout.tsx:42-54 | The layout's copy of the rule makes the dashboard's choice on every input. |
| TeamPages.SelectEmptyKeeps | src/pages/Dashboard.tsx:39-58 | An empty list, or a remembered value that throws, leaves the selection and storage as they were. |
| TeamPages.SelectRemembered | src/pages/Dashboard.tsx:44-48 | A remembered team still in the list is selected, and storage is untouched. |
| TeamPages.SelectFirstOtherwise | src/pages/Dashboard.tsx:49-57 | With no remembered value or an unmatched one, the first team is selected and the save runs. When the stored user takes the preference, the first team's id is read back afterwards. |
| TeamPages.SelectIdempotent | src/pages/Dashboard.tsx:39-58 | Choosing again from the same list changes nothing, whatever the stored user is. |
| TeamPages.DashboardLoad | src/pages/Dashboard.tsx:35-65 | `teamsLoading` is false in every case. Without a team list in a successful answer nothing else changes; with one, the teams are replaced. |
| TeamPages.LayoutLoad | src/components/Layout.tsx:34-59 | Without a team list in a successful answer, nothing changes. |
| TeamPages.FailedLoadKeeps | src/pages/Dashboard.tsx:37-64 | A failed request changes neither the teams, the selection nor storage. |
| TeamPages.LoadsAgree | src/components/Layout.tsx:42-54 | The layout and the dashboard end with the same teams, selection and storage. A selection is made whenever the list is non-empty and the remembered value can be read. |
| TeamPages.SelectTeam | src/pages/Dashboard.tsx:67-70 | Only the selection changes on the page. |
| TeamPages.AddTeam | src/pages/Dashboard.tsx:72-82 | Exactly one team is appended at the end and selected. |
| TeamPages.SelectedTeamSurvivesReload | src/pages/Dashboard.tsx:67-70 | A team picked by hand is selected again after the list is reloaded, when the stored user takes the preference. |
| TeamPages.AddedTeamSurvivesReload | src/components/Layout.tsx:113-123 | A created or joined team with a new id keeps ids distinct, and stays selected after a reload when the stored user takes the preference. |
| TeamPages.DashboardMount | src/pages/Dashboard.tsx:20-33 | It goes to `/login` if and only if there is no token. |
| TeamPages.LayoutMount | src/components/Layout.tsx:82-98 | It does nothing if and only if the route is public. |
| TeamPages.MountGuards | src/components/Layout.tsx:31-32 | The public routes are exactly `/login` and `/signup`. Elsewhere the layout guards as the dashboard does, and an anonymous visitor goes to login. |
| TeamPages.SignedInLoads | src/components/Layout.tsx:86-97 | A signed-in user, whatever JSON value was stored, is shown and the teams are loaded. |
| TeamPages.RoleFor | src/components/Layout.tsx:68-75 | The role is that of the first member with the email, and `MEMBER` if none has it. |
| TeamPages.UserEmail | src/components/Layout.tsx:69-71 | The user's `email` takes part in the match only when it is a string. |
| TeamPages.RoleOf | src/components/Layout.tsx:68-75 | The role of the first member with the user's email, and `MEMBER` when there is none or the user has no string email. |
| TeamPages.LoadRole | src/components/Layout.tsx:61-80 | With no team or a falsy user it does nothing. Otherwise it fetches that team's details, and a failure keeps the role. |
| TeamPages.RoleFromAnswer | src/components/Layout.tsx:64-76 | An OK answer carrying the team, with or without its own truthy `success`, sets the user's role in the team. A non-member or a user without a string email gets `MEMBER`. An answer with a falsy `success` keeps the role. |
| TeamPages.LayoutSelectTeam | src/components/Layout.tsx:107-111 | The new team is selected whatever happens. If saving its id throws, the storage is kept and the handler stops before any request. Otherwise the id is saved, and with a truthy user the details requested are those of the team selected before the click. No request leaves the role unchanged. |
| TeamPages.LayoutSelectFetchesPrevious | src/components/Layout.tsx:107-111 | Switching from `a` to `b` fetches the details of `a` whenever the save goes through, in particular whenever the stored user takes the preference. A save that throws fetches nothing. |
| TeamPages.LayoutSelectTeamFixed | src/components/Layout.tsx:107-111 | The same selection and save as the handler as written, with the details requested for the team just picked. A throwing save still stops the handler before any request. |
| TeamPages.LayoutSelectFixedFetchesSelected | src/components/Layout.tsx:107-111 | The details requested, if any, are those of the team now selected. A request is missing exactly when the save throws, and a stored user that takes the preference always gets one. |
| TeamPages.HandleLogout | src/components/Layout.tsx:125-140 | Logout ends at `/login`. |
| TeamPages.LogoutSignsOut | src/pages/Dashboard.tsx:84-97 | Afterwards nobody is signed in, whatever the server answered, and the next guarded page goes to login. Other entries are kept. |

## Left out

- Real I/O. `fetch`, `AbortSignal.timeout`, the SockJS/STOMP transport,
  `localStorage`, `window.location`, toasts and console logging are not
  modelled: responses and thrown-error kinds are inputs, storage is a map,
  and the transport is an event log.
- The STOMP client's internals. Of its behaviour the model keeps its own
  `connected` flag and the rule that `publish` and `subscribe` throw
  without a live connection. Unsubscribing and deactivating are taken
  never to throw. Its automatic reconnection is the transport's connect
  callback, which the model lets fire at any step.
- The base URL and timeout constants read from the environment.
- Server-side behaviour: session transitions, authorization and conflict
  handling live on a server that is not part of this model. Only the
  client's guards, requests and reducers are modelled.
- Timing glue. The 100 ms connection polling, the order in which React
  runs effects and cleanups, and the one-second delayed redirect after a
  401 are not modelled; the redirect is a flag in the outcome.
- Floating point. Averages are exact `real`s. Votes are small integers, so
  a tie is a half-integer that a double also represents exactly.
- The displayed `toFixed(1)` average and the `Math.min`/`Math.max`
  statistics are display only.
- Random session titles and the locale date in a new session's
  description; both are inputs of `PokerActions.StartNewSession`.
- Retro item ids, which come from `Date.now()`; they are an input of
  `Retro.AddItem`.
- JSX rendering, CSS classes, the status badge, and the display-only
  components (modals, member lists, statistics, header).
- `Number()` is modelled only on white-space, an optional sign and decimal
  digits. Fractions, exponents, hexadecimal and `Infinity` count as
  non-numeric votes.
- HTTP and broadcast payloads: non-object bodies (`null`, arrays, strings)
  are not modelled. A
  payload whose shape is not the expected record (a session, a vote, a team
  list) reads as no session, is ignored, or leaves the team list unchanged.
- JSON numbers keep the literal they were read from. `JSON.stringify`
  would write the shortest form of the double instead (`1.50` becomes
  `1.5`, `1e400` becomes `null`); such a user text is read correctly but
  written back as read.
- The ordering rule that lists integer-like property names first in an
  object. Properties keep their insertion order.
- A `\u` escape of a lone surrogate. `JSON.parse` accepts it, but a Dafny
  string cannot hold it, so the parse is taken to fail.
- Module code runs in strict mode, so assigning a property on a boolean,
  number or string throws. Properties that primitives have built in, such
  as a string's `length`, are not modelled; the client reads no such name.
- PokerActions.StartVoting: `startVoting` parses the stored user only to
  log it, and that parse is left out. A malformed stored user would make the
  handler throw before the token checks.
- `error.includes` on a service error that is neither a string nor
  missing: such an object is taken to throw, and the throw is caught.
- `authService.login` and `signup` are the shared API call on
  `/api/auth/login` and `/api/auth/signup` with the form as the body. They
  add nothing to `ApiService.ApiCall`, so they have no member of their own.
- The `catch` branches around `authService.logout()` are not modelled. The
  call never throws, because `apiCall` catches every error and removing
  storage entries does not throw.
- Multi-byte percent-encoding. The corrected query encoding escapes only
  the characters the query syntax reserves (`&`, `#`, `%`, `+`).
- The timestamp and property order of the JSON message bodies the socket
  service publishes. A frame keeps the destination, type and fields.
- The retrospective page's team loading. Until it settles the page shows
  "Loading..." in place of the board (without a team id it never settles),
  and its result feeds the header; the board's own state does not depend
  on it.
- The team service calls other than `getUserTeams` and `getTeamDetails`
  (create, invite, approve, reject). They reach the same result mapping and
  are used only by the display-only components.
- Estimate.AverageNumber: the contract states the zero case and the
  min/max bounds. That the value is the arithmetic mean is stated by
  `Estimate.AverageCombines`, `Estimate.AverageOfOne` and
  `Estimate.AverageIgnoresNonNumeric`.
- TeamPages.LayoutLoad: the contract only pins the failure case and the
  loading flag. Its selection is related to the dashboard's by
  `TeamPages.LoadsAgree`.

## Findings

| source | as written | input that shows it | evidently intended | confidence | as-written member | corrected member |
|---|---|---|---|---|---|---|
| src/services/apiService.ts:46-51 | `{ ...defaultOptions, ...options }` puts the caller's `headers` object over the merged one, so the JSON content type and the bearer token built just before are dropped. The same spread appears in the poker, team and auth services. | caller headers `{ "X-Trace": "1" }` with token `abc.def.ghi` stored: no `Authorization` header is sent | the merged headers are sent: caller headers, JSON content type by default, and the token | medium, not executed | Http.CallerHeadersDropToken | Http.MergedHeadersContents |
| src/services/pokerApiService.ts:196 | `finalEstimate` is spliced into the query string unescaped | estimate `5&x` on session `s1`: the server reads the estimate `5` | the estimate is percent-encoded and arrives as typed | high, not executed | PokerApi.UnescapedEstimateCut | PokerApi.RouteEncodedPath |
| src/components/PokerSessionComponent.tsx:109-115 | the `USER_JOINED` check tests the roster captured when the handler was subscribed, which is empty | a `CONNECTION_STATUS` listing `Ayşe`, then `USER_JOINED` for `Ayşe`: the roster is `["Ayşe", "Ayşe"]` | a join adds the name only when the live roster lacks it | high, not executed | PokerView.StaleRosterDuplicates | PokerView.ReduceLiveNoDuplicates |
| src/components/Layout.tsx:107-111 | `handleTeamSelect` awaits the role loader of the current render, which still holds the previously selected team | team `a` selected, a stored user that takes the preference, user picks `b`: `GET /api/teams/<a>` is sent | the role is reloaded for `b` | medium, not executed; the effect on `selectedTeam` later loads `b` too, so what is visible is an extra request and a race between the two answers | TeamPages.LayoutSelectFetchesPrevious | TeamPages.LayoutSelectFixedFetchesSelected |
