# Verified model of Generacy

Generacy routes messages between agencies and humancy instances and keeps what cannot be sent; beside
it run a credential helper, a cluster relay, a dead letter queue and a handful of calculations. This
project models the parts that keep state across asynchronous steps, and the arithmetic and string code
with exact bounds, and proves what they promise for all inputs and over all runs.
`dafny verify dfyconfig.toml` checks everything.

How a stateful part is modelled: a value-level specification gives the state and what each call does
to it; a class with the source's fields and loops is proved, method by method, to do just that; and the
properties are proved about the specification over whole runs.

| part | specification | classes and methods | properties |
|---|---|---|---|
| store-and-forward messaging | StoreAndForward | Messaging | Conservation, Deliveries, Routing, TtlKeys, BlockedStreams |
| credential sessions | CredentialSpec | Credentials | CredentialRuns, CredentialTokens, CredentialTiming |
| cluster relay | RelaySpec, PendingFrames | ClusterRelay | RelayRuns, RelayLaws, PendingFrames |
| correlation | Correlation | CorrelationManager | Correlation |
| dead letter queue | DeadLetters, Retry | DeadLetterQueue | DeadLetters, RetryReadiness, RetryBudget |
| path guards | Paths | PathGuards | Paths, PathLaws, PathGuards |
| dispatcher | Dispatcher | (pure) | Dispatcher |
| metrics | Metrics | Metrics | MetricsLaws, MetricsRecombine |
| TTL text, poller, confidence | Ttl, Poller, Confidence | Poller, Confidence | Ttl, Poller, Confidence |

Asynchronous code is cut at its awaits: each stretch between two awaits is one step, and every
interleaving of steps is a run. Sends, callbacks, mints and polls succeed or fail as an argument says.
A timer or promise that the event loop holds is a ghost entry kept apart from the program's own table,
so that the correspondence of the two is something to prove. The clock is an argument of each call.

## Where the code does less than one might expect

- A TTL key hides a message that is still live when the message's timestamp lies in the future, or when
  its id is enqueued again with a shorter ttl (TtlKeys.EarlyOrShorterResendHidesLiveMessage; the exact
  condition is TtlKeys.EnqueueKeepsCoverIff for one enqueue and TtlKeys.RunHidesOnlyExpiredIff for a run).
- Entries whose TTL key is gone are read past but never removed. A live message with 100 or more of them
  before it in its stream, wherever they stand, is not delivered, however often its queue is, while those
  keys stay gone (BlockedStreams.LiveMessageIsLost; the exact condition is BlockedStreams.GetsOutIff). A delivery that finds
  only such entries changes nothing, and that lasts until one of their keys is set again
  (BlockedStreams.ReadsNothingIff, BlockedStreams.BlockedStaysBlocked).
- endSession cancels timers before it waits for the data server to close. A mint that lands during the
  wait arms a timer that the rest of endSession leaves armed (CredentialRuns.TimerMayOutliveItsSession; the exact
  condition is CredentialRuns.CancelLeavesNoTimerBehindIff). When it fires its token is dropped.
- The relay's close and error handlers do not look which socket they belong to. A late event of an earlier
  socket marks the current connection disconnected while its loop goes on waiting
  (RelayRuns.LateCloseHappens, RelayRuns.LateCloseStrands; the exact condition is RelayRuns.ConnectionLastsIff).
- Recording a failed attempt on an entry that was resolved by hand makes it pending again but not listed
  (DeadLetters.FailureAfterResolveUnlists, DeadLetters.RecordKeepsAgreementIff).
- Attributions past the last decision count overall but in no domain, so the rates over one or more decisions
  recombine exactly when none of them counts towards the rate (MetricsRecombine.RecombinesExactlyIff,
  MetricsRecombine.SurplusDoesNotRecombine).
- A scratch directory of "/" admits only "/" itself (Paths.UnderIff, PathGuards.RootScratchRefuses).
- A poller with an interval above 60 s polls faster after slow_down (Poller.SlowDownNeverShortensIff,
  Poller.SlowDownAtNinetySeconds), against section 3.5 of RFC 8628.

## Model

| member | source | states |
|---|---|---|
| Conservation.RunConserves | src/router/message-router.ts:174-333 | Over any run of unicasts, broadcasts, deliveries, registrations and status changes, the ids accepted for a recipient are, as a multiset, those sent live, delivered, expired or still waiting |
| Conservation.BroadcastReachesEachOnce | src/router/message-router.ts:231-333 | A broadcast handles each registered recipient of its kind exactly once (sent live when online and the send succeeds, otherwise stored or dropped as expired) and leaves every other recipient as it was |
| Conservation.UnicastShare | src/router/message-router.ts:174-218 | A unicast handles the message once for its registered target, and nothing changes for anyone else or for an unknown target |
| Conservation.StepConserves | src/connections/connection-registry.ts:260-279 | Each single action adds to what is accounted for exactly what it accepted, and keeps stream ids ascending and registry order and table in step |
| Conservation.SweepIsReadThenAcknowledge | src/persistence/message-queue.ts:84-122 | Reading, handing over and deleting by stream id has the same result as one walk that keeps, hands over or drops each entry where it stands |
| Conservation.DeliverIsSweep | src/persistence/message-queue.ts:68-125 | After a delivery the stream is that walk over its first 100 entries, then the rest untouched, and the events are those of the walk in stream order |
| Conservation.DeliverRemovesExactly | src/persistence/message-queue.ts:92-122 | An entry is in the stream afterwards exactly when it was before and was not read and then reported otherwise than failed; ids still ascend, so failed, skipped and later entries keep their order |
| Conservation.TallyAddsUp | src/persistence/message-queue.ts:77-124 | Delivered plus failed plus expired is the number dequeued |
| Conservation.QueueShortensByTally | src/persistence/message-queue.ts:119-131 | A delivery shortens the queue by exactly the delivered and expired counts that it reports |
| Deliveries.LivesForItsTtl | src/types/messages.ts:86-89 | A message lives for its ttl from its timestamp, to the millisecond, and for an hour without one |
| Deliveries.ReadIs | src/persistence/redis-store.ts:169-203 | A read is, of the first 100 entries, those without a ttl and those whose key has not run out, in order |
| Deliveries.EachReadHasItsFate | src/persistence/message-queue.ts:92-117 | Of the i-th message read the i-th event says expired if it has expired, delivered if it is live and taken, failed if it is live and refused |
| Deliveries.LeavesIffExpiredOrTaken | src/persistence/message-queue.ts:92-122 | An entry leaves the stream exactly when it is read and has expired or is taken; no other stream and no key changes |
| Deliveries.TallyCounts | src/persistence/message-queue.ts:77-124 | The counts are the numbers of messages read that were live and taken, live and refused, and expired |
| Deliveries.RefusedStays | src/persistence/message-queue.ts:106-116 | A live message that the callback refuses stays and is reported as failed |
| Routing.AttemptCounted | src/persistence/message-queue.ts:47-54 | What is stored is the message with one attempt more |
| Routing.QueueingStores | src/persistence/message-queue.ts:36-58 | An expired message is only reported; any other goes to the end of its stream, reported, and a ttl other than 0 sets its key that much later, rounded up to seconds |
| Routing.UnicastGoesOutOrWaits | src/router/message-router.ts:174-195 | A unicast goes out live exactly to an online connection that takes it; else that is offline and the message is queued; an unknown target changes nothing |
| Routing.RecipientsAre | src/router/message-router.ts:286-332 | A broadcast turns to the online connections of its kind and then to the offline ones, each in registration order |
| Routing.BroadcastServesInOrder | src/router/message-router.ts:308-333 | Of these, in that order, the online ones that take the message get it and all others are queued for; no connection changes |
| Routing.AnnouncedTook | src/router/message-router.ts:306-322 | The recipients announced are those that took the message, in order |
| Routing.RegisteringAdds | src/connections/connection-registry.ts:58-71 | A new connection is online, just seen and last in order; others are as before, and a known id changes nothing |
| Routing.UnregisteringRemoves | src/connections/connection-registry.ts:82-88 | The connection is gone from table and order; the others are as before |
| Routing.StatusChanges | src/connections/connection-registry.ts:93-120 | Only a connection of the other status changes, in its status and when it was last seen |
| TtlKeys.CoverIsHidingOnlyExpired | src/persistence/redis-store.ts:187-195 | Skipping entries whose TTL key is gone hides only expired messages, at every instant, exactly when each key lasts to its messages' deadlines |
| TtlKeys.EnqueueKeepsCoverIff | src/persistence/redis-store.ts:143-153 | One enqueue keeps that property exactly when the key it sets, rounded up to seconds, outlasts the message and every waiting copy of its id |
| TtlKeys.RunHidesOnlyExpiredIff | src/persistence/redis-store.ts:143-195 | Over any run: in all its states a missing key hides only expired messages exactly when each step that queues a message gives it a key that outlasts it and every copy of its id then waiting |
| TtlKeys.StepKeepsCoverIff | src/router/message-router.ts:174-333 | A unicast, broadcast, delivery or registry change keeps that exactly when the message it queues, if any, is such |
| TtlKeys.TtlKeyNeverHidesLiveMessage | src/types/messages.ts:86-89 | In every reachable state of a run whose messages are enqueued no earlier than their timestamp, and whose ids fix timestamp and ttl, an entry skipped for a missing key has expired by isMessageExpired |
| TtlKeys.EarlyOrShorterResendHidesLiveMessage | src/persistence/redis-store.ts:150-153 | A timestamp in the future, or the same id sent again with a shorter ttl, does hide a live message |
| BlockedStreams.GetsOutIff | src/persistence/redis-store.ts:168-203 | A message that can be seen leaves its stream after some number of deliveries that take all they are given exactly when fewer than 100 entries before it have lost their TTL keys |
| BlockedStreams.LiveMessageIsLost | src/persistence/message-queue.ts:83-122 | A run after which a stored, live message behind 100 such entries never gets out |
| BlockedStreams.ReadsNothingIff | src/persistence/redis-store.ts:168-203 | Of a stream of 100 entries or more a delivery reads nothing exactly when the first 100 have all lost their TTL keys, and then it changes nothing |
| BlockedStreams.EnqueueUnblocksIff | src/persistence/redis-store.ts:143-153 | Storing a message unblocks such a stream exactly when it sets the key of one of those entries again |
| BlockedStreams.BlockedStaysBlocked | src/persistence/message-queue.ts:83-122 | Over any run, whatever is stored or delivered meanwhile, such a stream stays blocked until that happens, and every delivery for its recipient changes nothing |
| Messaging.RedisStore.EnqueueMessage | src/persistence/redis-store.ts:133-156 | The stream gains the message at its end under a fresh id, and a message with a ttl resets the key of its id |
| Messaging.RedisStore.DequeueMessages | src/persistence/redis-store.ts:159-204 | The entries within the count whose ttl is absent or whose key still exists, in stream order; nothing changes |
| Messaging.RedisStore.AcknowledgeMessages | src/persistence/redis-store.ts:207-221 | Exactly the named entries leave the stream, and the number that left is returned |
| Messaging.RedisStore.GetQueueLength | src/persistence/redis-store.ts:224-231 | The number of entries in the recipient's stream |
| Messaging.MessageQueue.Enqueue | src/persistence/message-queue.ts:36-58 | An expired message is only reported, any other is stored with its attempt count raised |
| Messaging.MessageQueue.DeliverQueued | src/persistence/message-queue.ts:68-125 | Store, events and counts become those of the specified delivery, whatever the callback accepts |
| Messaging.MessageQueue.HandOver | src/persistence/message-queue.ts:92-117 | The loop reports each entry's fate in order, collects for acknowledgement all but the failed ones and counts each kind |
| Messaging.MessageQueue.Peek | src/persistence/message-queue.ts:137-144 | The messages that a delivery of that depth would read, with nothing removed |
| Messaging.ConnectionRegistry.Register | src/connections/connection-registry.ts:58-79 | A new connection is online and last in order; a known id is an error that changes nothing |
| Messaging.ConnectionRegistry.Unregister | src/connections/connection-registry.ts:82-90 | The connection is gone and the others are as before; an unknown id is an error |
| Messaging.ConnectionRegistry.MarkOffline | src/connections/connection-registry.ts:93-106 | Only an online connection changes, and takes the current time as last seen |
| Messaging.ConnectionRegistry.MarkOnline | src/connections/connection-registry.ts:109-127 | Only an offline connection changes; the result says whether a queue delivery is due, and an unknown id is an error |
| Messaging.ConnectionRegistry.SendTo | src/connections/connection-registry.ts:260-279 | True exactly when the connection was online and took the message; a failed send marks it offline |
| Messaging.ConnectionRegistry.ListByStatus | src/connections/connection-registry.ts:135-142 | The connections of one kind and status, in registration order |
| Messaging.MessageRouter.RouteTo | src/router/message-router.ts:174-195 | Registry, store and events become those of the specified unicast; the result tells live from queued from unknown |
| Messaging.MessageRouter.BroadcastTo | src/router/message-router.ts:285-333 | Registry, store and events become those of the specified broadcast; the recipients announced, or the error when nobody is registered |
| Messaging.MessageRouter.QueueForAll | src/router/message-router.ts:242-248 | Queueing for the offline recipients one by one completes the broadcast to those already served |
| CredentialRuns.AtMostOneChain | packages/credhelper-daemon/src/token-refresher.ts:20-70 | Under every interleaving of timers, mints and teardown, a credential never has two armed timers or in-flight mints |
| CredentialRuns.StepKeepsInv | packages/credhelper-daemon/src/token-refresher.ts:20-91 | Every step keeps it that the refresher's record holds each armed timer under its own session and credential, that what runs belongs to a begun credential, and that unavailable credentials have nothing running |
| CredentialRuns.ClearedStaysCleared | packages/credhelper-daemon/src/session-manager.ts:450-465 | Once a session's store is cleared, no late mint brings an entry back and no further timer is armed for it |
| CredentialRuns.UnavailableStays | packages/credhelper-daemon/src/token-refresher.ts:52-56 | A credential marked unavailable stays so until its session is cleared |
| CredentialRuns.RefusedForGood | packages/credhelper-daemon/src/data-server.ts:23-47 | A credential once marked unavailable or cleared is never served again |
| CredentialRuns.CancelKeepsInv | packages/credhelper-daemon/src/token-refresher.ts:73-81 | Cancelling a session disarms exactly its timers; mints in flight go on |
| CredentialRuns.CancelLeavesNoTimerBehindIff | packages/credhelper-daemon/src/session-manager.ts:450-465 | From any state of the invariant: that no run from the cancel on leaves a timer of the session armed once its store is cleared holds exactly when none of its mints is in flight at the cancel |
| CredentialRuns.LateMintRun | packages/credhelper-daemon/src/session-manager.ts:451-459 | For any mint in flight at the cancel there is a run in which it lands before the clear and its timer is armed after it |
| CredentialRuns.CancelQuietsIff | packages/credhelper-daemon/src/token-refresher.ts:73-81 | Right after the cancel the session has neither timer nor mint exactly when none of its mints is in flight |
| CredentialRuns.QuietStays | packages/credhelper-daemon/src/token-refresher.ts:30-46 | A cancelled session with neither timer nor mint stays so |
| CredentialRuns.TimerMayOutliveItsSession | packages/credhelper-daemon/src/session-manager.ts:451-459 | Such a run from the start: a timer outlives its session |
| CredentialTiming.NoServiceGap | packages/credhelper-daemon/src/data-server.ts:37-52 | With mints that take at most 1 s and leave at least 4 s, a first ttl of at least 4 s and punctual timers, the data server serves the credential at every moment from its begin to the cancel, over any number of refreshes |
| CredentialTiming.StepKeepsCover | packages/credhelper-daemon/src/token-refresher.ts:26-46 | Each timely step keeps a refresh under way that lands before the stored token expires |
| CredentialTokens.AnsweredOverRuns | packages/credhelper-daemon/src/data-server.ts:23-52 | In any state of any run: a credential begun and not cleared is answered with the token of its last completed mint, or of its begin, unless a mint of it has failed or that token has run out; any other is not found |
| CredentialTokens.MintedIsInstalled | packages/credhelper-daemon/src/token-refresher.ts:30-46 | A mint that completes puts its token and expiry in its entry and in no other, served up to the expiry, and arms the next refresh if time is left; for a cleared entry it does nothing |
| CredentialTokens.FiredIsInFlight | packages/credhelper-daemon/src/token-refresher.ts:28-30 | A timer that fires is a mint under way, and nothing else changes |
| CredentialTokens.FailedIsUnavailable | packages/credhelper-daemon/src/token-refresher.ts:47-57 | A mint that fails makes its entry unavailable, with token and expiry as they were, and schedules nothing |
| CredentialTokens.RefreshIsArmed | packages/credhelper-daemon/src/token-refresher.ts:26-69 | The timer is due after three quarters of the ttl or a second, whichever is longer, and replaces only the one on record for its credential |
| CredentialTokens.CancelTouchesTimersOnly | packages/credhelper-daemon/src/token-refresher.ts:73-81 | Cancelling a session touches no entry, no mint and no timer off its record |
| CredentialTokens.CancelAllTouchesTimersOnly | packages/credhelper-daemon/src/token-refresher.ts:84-91 | Cancelling all touches no entry and no mint |
| Credentials.CredentialStore.Put | packages/credhelper-daemon/src/credential-store.ts:10-17 | The entry is set and every other is as before |
| Credentials.CredentialStore.Lookup | packages/credhelper-daemon/src/credential-store.ts:19-21 | The stored entry, if there is one |
| Credentials.CredentialStore.ClearSession | packages/credhelper-daemon/src/credential-store.ts:33-35 | The session's entries are gone and the others are as before |
| CredentialSpec.Set | packages/credhelper-daemon/src/credential-store.ts:10-17 | Reading back at any two keys after a set |
| CredentialSpec.Drop | packages/credhelper-daemon/src/credential-store.ts:33-35 | Reading back at any two keys after a session is dropped |
| Credentials.TokenRefresher.ScheduleRefresh | packages/credhelper-daemon/src/token-refresher.ts:20-70 | A timer for three quarters of the ttl, at least 1 s, replaces the one on record, whose handle is cleared |
| Credentials.TokenRefresher.OnTimer | packages/credhelper-daemon/src/token-refresher.ts:28-30 | The timer turns into a mint in flight |
| Credentials.TokenRefresher.OnMinted | packages/credhelper-daemon/src/token-refresher.ts:30-46 | The minted token is stored only if the entry is still there, and a refresh follows only if time is left |
| Credentials.TokenRefresher.OnMintFailed | packages/credhelper-daemon/src/token-refresher.ts:47-57 | The entry, if still there, becomes unavailable and nothing is scheduled |
| Credentials.TokenRefresher.CancelSession | packages/credhelper-daemon/src/token-refresher.ts:73-81 | Every timer on record for the session is cleared and the record dropped |
| Credentials.TokenRefresher.CancelAll | packages/credhelper-daemon/src/token-refresher.ts:84-91 | Every timer on record is cleared and the record emptied |
| Credentials.SessionManager.StoreMinted | packages/credhelper-daemon/src/session-manager.ts:168-200 | The minted credential is stored and its refresh scheduled |
| Credentials.SessionManager.Activate | packages/credhelper-daemon/src/session-manager.ts:415 | The session becomes one of the active ones |
| Credentials.SessionManager.EndSessionFind | packages/credhelper-daemon/src/session-manager.ts:420-428 | The first stretch of endSession: an unknown session is an error |
| Credentials.SessionManager.EndSessionCancel | packages/credhelper-daemon/src/session-manager.ts:450-451 | The second: the session's timers are cancelled, whatever has happened during the first waits |
| Credentials.SessionManager.EndSessionClear | packages/credhelper-daemon/src/session-manager.ts:458-459 | The third, after the data server has closed: the store is cleared |
| Credentials.SessionManager.EndSessionForget | packages/credhelper-daemon/src/session-manager.ts:464-465 | The last, after the directory is wiped: the session is forgotten |
| RelayRuns.RunKeepsInv | packages/cluster-relay/src/relay.ts:168-258 | In every state of one connect() call its control state, its event log and its waits keep the invariant below |
| RelayRuns.HeartbeatExactlyWhenConnected | packages/cluster-relay/src/relay.ts:517-544 | The heartbeat timer is armed exactly while connected, and a send writes exactly then |
| RelayRuns.ConnectedOncePerSocket | packages/cluster-relay/src/relay.ts:353-391 | Before each "connected" a socket opened, with no other "connected" in between |
| RelayRuns.WaitsFollowBackoff | packages/cluster-relay/src/relay.ts:180-200 | The wait after the k-th consecutive failure is min(base * 2^(k-1), max), and min(base, max) after a clean close |
| RelayRuns.WritesAndDispatches | packages/cluster-relay/src/relay.ts:394-463 | What send writes is written while connected; API requests and cockpit replies reach no message handler |
| RelayRuns.ConnectionLastsIff | packages/cluster-relay/src/relay.ts:353-488 | From the opening of a socket until it closes or errs or disconnect() is called, the relay is authenticating or connected exactly as long as no other socket closes or errs; once one has, the loop waits on a socket that is lost to the relay |
| RelayRuns.CloseResumesLoopIff | packages/cluster-relay/src/relay.ts:470-488 | A close or error while authenticating or connected sends the loop on exactly when it is the loop's own socket's; otherwise the loop is left waiting on a live socket |
| RelayRuns.LateCloseStrands | packages/cluster-relay/src/relay.ts:360-488 | After such a close or error, and until the own socket closes or errs, the relay never authenticates or connects, its heartbeat is off and its sends write nothing, whatever happens |
| RelayRuns.LateCloseHappens | packages/cluster-relay/src/relay.ts:470-488 | A run in which the late close of a first socket drops the connection of the second |
| RelayLaws.NoPongIff | packages/cluster-relay/src/relay.ts:466-533 | In every state of every run a heartbeat tick would find no pong exactly if an earlier tick came after both the last pong and the last "connected" |
| RelayLaws.SecondTickFindsNone | packages/cluster-relay/src/relay.ts:521-526 | Of two ticks with neither between them, the second finds none and so terminates the socket |
| RelayLaws.TickAfterPongFindsIt | packages/cluster-relay/src/relay.ts:528-532 | A tick after a pong, with none between, finds it, clears it and writes a heartbeat if the socket is open |
| RelayLaws.MessageActs | packages/cluster-relay/src/relay.ts:376-463 | The first message on an authenticating relay connects it and says so once; a message reaches the handlers unless it is an API request or a cockpit reply |
| RelayLaws.ConnectedIffMessage | packages/cluster-relay/src/relay.ts:353-391 | While a connection lasts the relay is connected, rather than authenticating, exactly if a message has come since it opened |
| RelayLaws.SocketEventsAct | packages/cluster-relay/src/relay.ts:353-488 | What open, close and error make of state, socket and heartbeat, and what each announces |
| RelayLaws.AbortedIff | packages/cluster-relay/src/relay.ts:210-228 | The loop has been told to stop exactly if disconnect() was called while it ran |
| RelayLaws.LoopGoesOnIff | packages/cluster-relay/src/relay.ts:180-203 | The loop sleeps after an attempt and then tries again with a new socket, exactly if it has not been told to stop; else it ends, disconnected |
| RelayLaws.StoppedForGood | packages/cluster-relay/src/relay.ts:180-258 | Once stopped it opens no socket, never authenticates or connects, and writes nothing |
| RelayLaws.DisconnectActs | packages/cluster-relay/src/relay.ts:210-247 | disconnect() lets go of socket and heartbeat at once and ends disconnected; with nothing running it changes neither |
| RelayLaws.DelayDoubles | packages/cluster-relay/src/relay.ts:549-552 | The delay starts at base and doubles with each attempt, up to max |
| ClusterRelay.ClusterRelay.constructor | packages/cluster-relay/src/relay.ts:82-121 | A new relay is disconnected, with no frames |
| ClusterRelay.ClusterRelay.Connect | packages/cluster-relay/src/relay.ts:168-183 | connect() up to its first await, from any state; while already running it changes nothing |
| ClusterRelay.ClusterRelay.ReconnectDelayMs | packages/cluster-relay/src/relay.ts:549-552 | base doubled once per attempt, at most max |
| ClusterRelay.ClusterRelay.Resume | packages/cluster-relay/src/relay.ts:184-204 | What the loop does after a clean or failed attempt, and how long it sleeps |
| ClusterRelay.ClusterRelay.Wake | packages/cluster-relay/src/relay.ts:180-204 | After the sleep the loop tries again unless it was stopped or aborted |
| ClusterRelay.ClusterRelay.OnOpen | packages/cluster-relay/src/relay.ts:353-358 | The socket becomes current and the relay authenticates |
| ClusterRelay.ClusterRelay.OnMessage | packages/cluster-relay/src/relay.ts:360-464 | The first message while authenticating connects, once; replies settle frames; the rest is dispatched |
| ClusterRelay.ClusterRelay.OnClose | packages/cluster-relay/src/relay.ts:470-479 | Heartbeat off, no socket, disconnected, and the attempt resolves if it is this socket's |
| ClusterRelay.ClusterRelay.OnError | packages/cluster-relay/src/relay.ts:481-488 | As for a close, but the attempt is rejected |
| ClusterRelay.ClusterRelay.Send | packages/cluster-relay/src/relay.ts:252-258 | Writes exactly when connected with a socket |
| ClusterRelay.ClusterRelay.OnHeartbeatTick | packages/cluster-relay/src/relay.ts:521-533 | Without a pong since the last tick the socket is terminated, otherwise a heartbeat goes out; either way no pong is left on record |
| ClusterRelay.ClusterRelay.DisconnectStart | packages/cluster-relay/src/relay.ts:210-232 | Stops loop, heartbeat and socket; when nothing runs it only clears the frames |
| ClusterRelay.ClusterRelay.DisconnectFinish | packages/cluster-relay/src/relay.ts:241-247 | Clears the frames and ends disconnected |
| ClusterRelay.ClusterRelay.RegisterPendingFrame | packages/cluster-relay/src/relay.ts:260-275 | An empty id is ignored; a known one is replaced and its timer cleared; the new entry has a new timer |
| ClusterRelay.ClusterRelay.EvictOnTtl | packages/cluster-relay/src/relay.ts:277-293 | The callback takes out whatever holds its frame id, and clears no timer |
| ClusterRelay.ClusterRelay.ClearFrames | packages/cluster-relay/src/relay.ts:241-244 | The loop disarms exactly the timers in the table, then empties it |
| PendingFrames.StepKeepsInv | packages/cluster-relay/src/relay.ts:208-293 | Every step keeps table entries and armed TTL timers one to one, and each registration in the table or ended once |
| PendingFrames.RunKeepsInv | packages/cluster-relay/src/relay.ts:406-454 | So in every reachable state: each registration has left the table by exactly one of settled, evicted, replaced or cleared |
| PendingFrames.TimerEvictsItsOwn | packages/cluster-relay/src/relay.ts:277-280 | A TTL timer that fires evicts its own registration and no other, though it looks it up by id alone and clears no timer |
| PendingFrames.ReplacedTimerNeverFires | packages/cluster-relay/src/relay.ts:265-274 | After a replacement the old timer is disarmed and only the new one can evict the id |
| PendingFrames.RegistrationIs | packages/cluster-relay/src/relay.ts:260-275 | A registration puts in one entry with a fresh timer and ends a former one of its id as replaced; all others stay; an empty id changes nothing |
| PendingFrames.ReplySettlesItsFrame | packages/cluster-relay/src/relay.ts:408-411 | A reply takes out its frame, settled, with its timer, and no other |
| PendingFrames.ClearEndsAll | packages/cluster-relay/src/relay.ts:241-244 | disconnect() ends every waiting registration as cleared and leaves no timer; how others ended stays |
| PendingFrames.UnknownReplyChangesNothing | packages/cluster-relay/src/relay.ts:406-453 | A reply changes nothing exactly when its frame id is null or unknown |
| PendingFrames.EndIsFinal | packages/cluster-relay/src/relay.ts:260-293 | How a registration ended is never changed or added to |
| Correlation.RunKeepsInv | src/router/correlation-manager.ts:70-253 | In every reachable state pending ids and armed timeouts are one to one, and an accepted wait is pending or settled exactly once |
| Correlation.StepKeepsInv | src/router/correlation-manager.ts:70-253 | Every wait, response, cancel, cancel-all and timeout keeps that |
| Correlation.TimeoutIsItsOwn | src/router/correlation-manager.ts:83-90 | A timeout rejects its own wait and takes that wait's entry, never a later wait under the same id |
| Correlation.ResponseSettlesItsHolder | src/router/correlation-manager.ts:172-187 | A response settles the wait that holds the id now and no other, and with none changes nothing |
| Correlation.WaitIs | src/router/correlation-manager.ts:79-103 | A new wait holds its id with its request, deadline and own timer, and leaves all others; a pending id is refused |
| Correlation.ReleaseIsItsOwn | src/router/correlation-manager.ts:172-207 | A response or a cancel settles the wait that holds the id with just that, takes out its entry and timer, and leaves all others |
| Correlation.RequestIsSet | src/router/correlation-manager.ts:110-116 | Setting a request changes that of its wait and nothing else |
| Correlation.CancelAllSettlesAll | src/router/correlation-manager.ts:246-253 | Cancelling all settles every pending wait as cancelled and leaves how others settled |
| Correlation.OutcomeIsFinal | src/router/correlation-manager.ts:122-207 | What a wait settled with never changes |
| Correlation.CancelAllKeepsInv | src/router/correlation-manager.ts:246-253 | Cancelling all leaves no timer armed and settles every pending wait once |
| CorrelationManager.CorrelationManager.WaitForCorrelation | src/router/correlation-manager.ts:70-104 | A pending id is refused; otherwise a new wait with its own timeout |
| CorrelationManager.CorrelationManager.WaitForResponse | src/router/correlation-manager.ts:122-163 | A request without correlation id is an error; otherwise as above, with the request |
| CorrelationManager.CorrelationManager.SetRequest | src/router/correlation-manager.ts:110-116 | Only the request of a pending wait changes |
| CorrelationManager.CorrelationManager.Correlate | src/router/correlation-manager.ts:172-187 | Resolves the wait, disarms its timer, and says whether there was one |
| CorrelationManager.CorrelationManager.Cancel | src/router/correlation-manager.ts:192-207 | Rejects the wait, disarms its timer, and says whether there was one |
| CorrelationManager.CorrelationManager.OnTimeout | src/router/correlation-manager.ts:83-90 | Deletes what holds the id and rejects the promise that the timer was made for |
| CorrelationManager.CorrelationManager.CancelAll | src/router/correlation-manager.ts:246-253 | Every pending wait is rejected and its timer disarmed |
| DeadLetters.RunAgrees | src/persistence/dead-letter-queue.ts:72-295 | If nothing listed is added again and failures are recorded only on unresolved entries, the index has each id once, exactly for its unresolved entries, and is the surviving adds in order |
| DeadLetters.ListAfterRun | src/persistence/dead-letter-queue.ts:152-173 | After such a run list() gives the unresolved entries in add order and no other, none resolved, and the counts sum to the total |
| DeadLetters.AddKeepsAgreementIff | src/persistence/dead-letter-queue.ts:72-122 | An add keeps index and entries in agreement exactly when the id is not listed |
| DeadLetters.RecordKeepsAgreementIff | src/persistence/dead-letter-queue.ts:255-295 | Recording an attempt keeps it exactly unless it is a failure on a resolved entry |
| DeadLetters.OthersKeepAgreement | src/persistence/dead-letter-queue.ts:178-249 | Marking, resolving and deleting always keep it |
| DeadLetters.FailureAfterResolveUnlists | src/persistence/dead-letter-queue.ts:275-294 | A failure recorded after a manual resolve leaves a live entry that no list shows |
| RetryReadiness.ReadyAre | src/persistence/dead-letter-queue.ts:136-140 | The retry tick reads, in index order, exactly the pending entries with a next retry that is present, not 0 and not later than now |
| RetryReadiness.MarkedIsDue | src/persistence/dead-letter-queue.ts:178-193 | An unresolved entry that is marked is read from that moment on, and not before |
| RetryReadiness.RescheduledIsDue | src/persistence/dead-letter-queue.ts:276-284 | An entry whose retry failed is read again exactly if tries are left, from the time it is rescheduled for on |
| RetryReadiness.ListedAre | src/persistence/dead-letter-queue.ts:152-173 | A list is the stored entries of the index, in its order, all or of one status |
| RetryReadiness.AddedIs | src/persistence/dead-letter-queue.ts:78-115 | An added entry has one attempt more than its message carried, and is retried after the delay unless that was the last |
| RetryReadiness.MarkedAndResolvedAre | src/persistence/dead-letter-queue.ts:178-209 | Marking sets status and time of an unresolved entry, resolving the status; all other entries stay |
| RetryReadiness.DeletedIs | src/persistence/dead-letter-queue.ts:229-249 | Deleting removes the entry; it and resolving take just its id out of the index, in place |
| RetryReadiness.RecordedIs | src/persistence/dead-letter-queue.ts:255-295 | A success deletes; a failure counts an attempt, keeps the last error given, and reschedules or gives up; all other entries stay |
| RetryReadiness.DelayIs | src/utils/retry.ts:24-36 | The delay is the initial one times the factor for each attempt, up to a tenth more by chance, at most the cap |
| RetryBudget.AttemptsWithinBudget | src/persistence/dead-letter-queue.ts:318-340 | For each stay of an id in the queue the processor makes at most max(0, maxAttempts - attempts at add) plus the number of marks attempts |
| RetryBudget.StepKeepsInv | src/persistence/dead-letter-queue.ts:255-340 | Every step keeps attempts made plus attempts still possible within that budget |
| RetryBudget.FailureSpendsOne | src/persistence/dead-letter-queue.ts:263-284 | A failed attempt uses up exactly one of those that remain |
| RetryBudget.RescheduleWithinBounds | src/persistence/dead-letter-queue.ts:276-284 | A failure is rescheduled exactly when tries are left, between the plain backoff and maxDelay from now |
| DeadLetterQueue.DeadLetterQueue.Add | src/persistence/dead-letter-queue.ts:72-122 | The entry is stored, pending or already exceeded, and the id goes to the end of the index |
| DeadLetterQueue.DeadLetterQueue.ListEntries | src/persistence/dead-letter-queue.ts:152-173 | The stored entries of the index, in its order, of one status or all |
| DeadLetterQueue.DeadLetterQueue.GetReadyForRetry | src/persistence/dead-letter-queue.ts:136-140 | The pending entries whose time has come |
| DeadLetterQueue.DeadLetterQueue.MarkForRetry | src/persistence/dead-letter-queue.ts:178-193 | An unresolved entry becomes pending now; any other call is refused |
| DeadLetterQueue.DeadLetterQueue.RemoveFromStream | src/persistence/dead-letter-queue.ts:212-220 | The loop removes the first record of the id and nothing else |
| DeadLetterQueue.DeadLetterQueue.Resolve | src/persistence/dead-letter-queue.ts:198-224 | The entry is resolved and its first record leaves the index |
| DeadLetterQueue.DeadLetterQueue.Delete | src/persistence/dead-letter-queue.ts:229-249 | The entry and its first record are gone |
| DeadLetterQueue.DeadLetterQueue.RecordRetryAttempt | src/persistence/dead-letter-queue.ts:255-295 | Success deletes; failure reschedules or gives up |
| DeadLetterQueue.DeadLetterQueue.GetStats | src/persistence/dead-letter-queue.ts:300-313 | The count of each status, with none resolved and the rest summing to the total while index and entries agree |
| Retry.RetryDelayBounds | src/utils/retry.ts:24-36 | With jitter the delay lies between the plain backoff and maxDelay, and at most a tenth over the uncapped base |
| Paths.PrefixIff | packages/credhelper-daemon/src/file-path-denylist.ts:32-37 | With a slash after each, one resolved path is a string prefix of another exactly when its segments are |
| Paths.UnderIff | packages/credhelper-daemon/src/docker-bind-mount-guard.ts:56 | "Starts with base/ or equals base" on resolved paths is the segment-prefix test, except that only the root lies under the root |
| Paths.SegmentsAreClean | packages/credhelper-daemon/src/file-path-denylist.ts:24 | A resolved path has no empty, "." or ".." segment |
| PathLaws.DotDotDropsLast | packages/credhelper-daemon/src/file-path-denylist.ts:24 | A ".." drops the last segment and leaves the root |
| PathLaws.DotChangesNothing | packages/credhelper-daemon/src/file-path-denylist.ts:24 | A "." or a trailing slash changes nothing |
| PathLaws.NameGoesBelow | packages/credhelper-daemon/src/file-path-denylist.ts:24 | A name goes below |
| PathLaws.AbsoluteIgnoresCwd | packages/credhelper-daemon/src/file-path-denylist.ts:24 | A path that begins with a slash starts from the root |
| PathLaws.RelativeStartsFromCwd | packages/credhelper-daemon/src/docker-bind-mount-guard.ts:55 | Any other path, the empty one too, starts from the current directory |
| PathLaws.ResolvedIsFixed | packages/credhelper-daemon/src/file-path-denylist.ts:24 | A path of clean segments resolves to them, so a resolved path resolves to itself |
| PathLaws.ResolveIsIdempotent | packages/credhelper-daemon/src/file-path-denylist.ts:24 | Resolving twice is resolving once |
| PathLaws.ClimbingOutIsSeen | packages/credhelper-daemon/src/file-path-denylist.ts:23-41 | "/s/../etc" resolves to "/etc": it is denied, and not inside "/s" |
| PathLaws.DeniedDirectoriesAre | packages/credhelper-daemon/src/file-path-denylist.ts:3-17 | The denied directories, written out |
| PathLaws.InsideIs | packages/credhelper-daemon/src/docker-bind-mount-guard.ts:56 | Inside the scratch directory is below it by segments |
| PathLaws.ViolationsAre | packages/credhelper-daemon/src/docker-bind-mount-guard.ts:57-61 | The violations name the sources not inside and what they resolve to, in order |
| PathLaws.BindSourcesAre | packages/credhelper-daemon/src/docker-bind-mount-guard.ts:53-54 | Every bind has a source, in order |
| PathLaws.BindSourceIs | packages/credhelper-daemon/src/docker-bind-mount-guard.ts:54 | The source of a bind is what stands before its first colon, all of it without one |
| PathLaws.MountSourcesAre | packages/credhelper-daemon/src/docker-bind-mount-guard.ts:68-70 | The mounts of type bind have their sources, in order, an absent one being the empty path |
| PathGuards.DeniedIff | packages/credhelper-daemon/src/file-path-denylist.ts:23-41 | A path is denied exactly when its resolved segments are empty or extend those of a denied directory |
| PathGuards.ValidateBindMounts | packages/credhelper-daemon/src/docker-bind-mount-guard.ts:44-86 | Valid exactly when every bind source lies in the scratch directory by segments; the violations are the failing sources, binds before mounts, in order |
| PathGuards.CheckBinds | packages/credhelper-daemon/src/docker-bind-mount-guard.ts:52-64 | The loop over Binds adds exactly the failing sources before each first colon |
| PathGuards.CheckMounts | packages/credhelper-daemon/src/docker-bind-mount-guard.ts:67-80 | The loop over Mounts does the same for those of type bind, an absent source counting as empty |
| PathGuards.CheckSource | packages/credhelper-daemon/src/docker-bind-mount-guard.ts:55-62 | The string test on one source decides by segments |
| PathGuards.NoneFailingIff | packages/credhelper-daemon/src/docker-bind-mount-guard.ts:82-85 | There are no violations exactly when every source lies inside |
| PathGuards.RootScratchRefuses | packages/credhelper-daemon/src/docker-bind-mount-guard.ts:56 | Under a scratch directory of "/" a source is inside exactly when it resolves to "/"; "/a" is refused |
| Dispatcher.SortIsStable | packages/cluster-relay/src/dispatcher.ts:11-13 | The sorted routes are the same ones, longest prefix first, those of one length in configured order |
| Dispatcher.ResolvesToBest | packages/cluster-relay/src/dispatcher.ts:19-28 | Dispatch gives the earliest configured route among those with the longest matching prefix, and null exactly when none matches |
| Dispatcher.PrefixAndRemainder | packages/cluster-relay/src/dispatcher.ts:22-24 | Prefix and remainder rebuild the path, and the stripped path is the remainder with a leading slash |
| Dispatcher.OrderDoesNotMatter | packages/cluster-relay/src/relay.ts:103-118 | With distinct prefixes every ordering of the configuration gives the same answer |
| Metrics.CalculateValueMetrics | src/attribution/metrics-aggregator.ts:125-173 | The three rates are the counts of what they name over the valid outcomes, 0 without any |
| Metrics.GroupByDomain | src/attribution/metrics-aggregator.ts:182-201 | The domains in order of appearance, each with its decisions and the attributions at their positions |
| Metrics.CalculateDomainBreakdown | src/attribution/metrics-aggregator.ts:178-227 | One entry for each domain, with the rates of its own decisions and known outcomes |
| Metrics.Calculate | src/attribution/metrics-aggregator.ts:44-87 | Totals, rates and breakdown; all zero without decisions |
| MetricsRecombine.SumOverDomainsIsAll | src/attribution/metrics-aggregator.ts:185-201 | Each decision, with the attribution at its position, is counted in exactly one domain |
| MetricsRecombine.Recombines | src/attribution/metrics-aggregator.ts:44-227 | Of what calculate returns, for every input: domain names are distinct, their totals sum to the overall one, and each overall rate times its base is the weighted sum of the domain rates plus the surplus attributions |
| MetricsRecombine.RecombinesExactlyIff | src/attribution/metrics-aggregator.ts:53-69 | A rate that calculate returns recombines exactly when there are no decisions or no attribution past the last one counts towards it |
| MetricsRecombine.SurplusDoesNotRecombine | src/attribution/metrics-aggregator.ts:185-201 | One decision with two attributions of human merit: the overall rate does not recombine |
| MetricsRecombine.OverallIsBetweenDomains | src/attribution/metrics-aggregator.ts:61-69 | Without surplus each overall rate that calculate returns lies between two of its domain rates |
| MetricsLaws.MeasuresAre | src/attribution/metrics-aggregator.ts:118-164 | Which decisions and known outcomes each rate counts |
| MetricsLaws.OverallIs | src/attribution/metrics-aggregator.ts:50-66 | The overall totals and rates are the numbers of decisions and outcomes they name, over their number |
| MetricsLaws.DomainIs | src/attribution/metrics-aggregator.ts:185-223 | A domain's rates are those of its own decisions and of the outcomes known of them, a missing domain being "general" |
| MetricsLaws.DomainsAppearInOrder | src/attribution/metrics-aggregator.ts:183-206 | The domains come in the order in which they first appear |
| MetricsLaws.RatioIs | src/attribution/metrics-aggregator.ts:115-120 | A ratio multiplies back to what was counted, and is 0 of nothing |
| Ttl.FormatThenParse | src/utils/ttl.ts:61-67 | parseTtl accepts whatever formatTtl prints and reads it as the rounded duration |
| Ttl.ParseAcceptsExactly | src/utils/ttl.ts:35-58 | Of all inputs parseTtl accepts exactly digits followed by a unit, and scales their number by it |
| Ttl.UnitsAre | src/utils/ttl.ts:44-55 | The five units and their milliseconds, and no other |
| Ttl.NumberByPlaces | src/utils/ttl.ts:41 | Digits are read by their places in tens |
| Ttl.NoLeadingZero | src/utils/ttl.ts:62 | A number is printed without leading zeros |
| Ttl.FormatIs | src/utils/ttl.ts:61-67 | A duration is printed in the largest unit that fits, as the nearest number of them, halves upwards |
| Ttl.RoundTripError | src/utils/ttl.ts:61-67 | Print and parse is exact below a second, and off by at most half the unit and a third of the duration |
| Ttl.RoundTripMonotone | src/utils/ttl.ts:61-67 | A longer duration never comes back shorter |
| Ttl.RoundTripIdempotent | src/utils/ttl.ts:61-67 | Printing and parsing again changes nothing more |
| Poller.PollForApproval | packages/activation-client/src/poller.ts:26-59 | Each poll is sent when the sleep due after the answer before it ends, and before the deadline; the result is the terminal answer, or expired when the next poll would not come before the deadline |
| Poller.PollsInOrder | packages/activation-client/src/poller.ts:32-56 | Each poll is sent when it is due and before the deadline, for an interval of at most 60 s no sooner after the answer before it than min(60 s, interval + 5 s for each slow_down so far); all answers but the last say to go on |
| Poller.NextPollIs | packages/activation-client/src/poller.ts:29-33 | The next poll is due the interval after the last answer, or after the start |
| Poller.IntervalIs | packages/activation-client/src/poller.ts:49 | The interval is the initial one, and after the first slow_down 5 s more for each, up to 60 s |
| Poller.SlowDownsAre | packages/activation-client/src/poller.ts:48-51 | The slow_downs counted are the answers that say so |
| Poller.PollsFitLifetime | packages/activation-client/src/poller.ts:29-36 | The number of polls times the interval stays below the lifetime |
| Poller.IntervalFormulaIff | packages/activation-client/src/poller.ts:49 | The 5 s steps up to 60 s hold exactly for an initial interval of at most 60 s |
| Poller.SlowDownNeverShortensIff | packages/activation-client/src/poller.ts:49 | slow_down never shortens the interval exactly for an initial interval of at most 60 s |
| Poller.SlowDownAtNinetySeconds | packages/activation-client/src/poller.ts:49 | Started at 90 s, a poller told to slow down goes on at 60 s |
| Confidence.CalculateBaseConfidence | src/baseline/confidence-calculator.ts:27-67 | The share of supporting weight on a scale of 100, 50 when nothing weighs, always in range |
| Confidence.WeightIs | src/baseline/confidence-calculator.ts:36-51 | What weighs is the sum of the positive weights of the factors of an impact |
| Confidence.BaseIsShare | src/baseline/confidence-calculator.ts:53-66 | The score times all the weight is 100 times the supporting weight; 50 where nothing weighs |
| Confidence.BaseIgnoresOrder | src/baseline/confidence-calculator.ts:36-51 | The score is the same for every order of the factors |
| Confidence.BaseExtremes | src/baseline/confidence-calculator.ts:53-66 | It is 100 exactly when only supporting factors weigh, 0 exactly when something weighs and nothing supports |
| Confidence.ApplyLLMAdjustment | src/baseline/confidence-calculator.ts:78-102 | The adjusted score is in range, equals the suggestion when that is within reach, and otherwise moves by the whole of max(0, maxAdjustment) |
| Confidence.CalculateAlternativeConfidence | src/baseline/confidence-calculator.ts:173-229 | The loop computes the specified score, in range and at most 20 above the chosen one |
| Confidence.AlternativeIs | src/baseline/confidence-calculator.ts:177-228 | The score of an alternative is the chosen one, 10 less, or moved by 40 times the balance of weight but at most 20 up, in range |
| Confidence.ClampIs | src/baseline/confidence-calculator.ts:239-241 | Clamping leaves what is in range and moves the rest to the nearer end |
| Confidence.RoundIs | src/baseline/baseline-generator.ts:382 | Rounding is to the nearest integer, halves upwards |
| Confidence.EnrichAlternativeAnalysis | src/baseline/baseline-generator.ts:373-401 | In place, scores of 0 are filled in and others kept, even when an alternative is listed twice |
| Confidence.FillClosedForm | src/baseline/baseline-generator.ts:382-395 | Whatever the weights, a filled-in score rounds the chosen confidence, or 10 less, or 40 less but not below 0, as no factor supports, all supporting ones weigh nothing, or some weighs |
| Confidence.FillNeverAboveChosen | src/baseline/baseline-generator.ts:390-395 | A filled-in score never exceeds the rounded chosen one |
| Confidence.NormalizeWeight | src/baseline/baseline-generator.ts:321-329 | A weight lies in [0, 1] and is 0 exactly when it was given negative; absent and zero become one half |
| Confidence.NormalizeConfidence | src/baseline/baseline-generator.ts:354-363 | A score lies in [0, 100] and is 0, to be filled in, exactly when absent or not positive |
| Confidence.FillOfNormalized | src/baseline/baseline-generator.ts:305-312 | On normalized factors the middle case arises only when every supporting factor was given a negative weight |

## Left out

- Messaging.MessageRouter.RouteTo: the choice of destination, validation, channels and routeAndWait are not modelled; a queue is always configured and storage never fails.
- Messaging.MessageRouter.BroadcastTo: agencies and humancy instances share one method and one table keyed by kind and id, as the two source methods differ only in that.
- Messaging.RedisStore.DequeueMessages: malformed stream entries, which the source skips, do not occur; the clock does not move during a call.
- Messaging.RedisStore.EnqueueMessage: a negative or fractional ttl, which Redis refuses or the code rounds, is not modelled.
- Messaging.MessageQueue.DeliverQueued: no other call runs while it awaits its callback.
- Messaging.ConnectionRegistry.SendTo: connections are named by kind and id, not by object, so a connection replaced under the same id during the send is not modelled.
- CredentialRuns.AtMostOneChain: session ids are not used again, begins of one id do not overlap and a role lists a credential once.
- Credentials.SessionManager.StoreMinted: the rest of beginSession (plugins, files, its failure paths, the refusal of a second begin) is not modelled.
- Credentials.TokenRefresher.ScheduleRefresh: Node fires at once a timer set further off than about 24.8 days; the model does not. The same holds for every other timer and sleep here.
- ClusterRelay.ClusterRelay.Connect: its record of where the loop stands is that of one loop, and the runs of RelayRuns start one; a connect() after disconnect() may start a second loop beside the first, which is not modelled.
- ClusterRelay.ClusterRelay.OnOpen: the handshake and the metadata it carries.
- ClusterRelay.ClusterRelay.OnMessage: parsing, the proxying of an API request (its reply is a later send) and the log lines.
- RelayRuns.WaitsFollowBackoff: delays are reals.
- CorrelationManager.CorrelationManager.WaitForCorrelation: the request and response are names; listeners are not called.
- DeadLetterQueue.DeadLetterQueue.Add: message ids are not empty (a list skips an empty one); an entry's message, recipient type and recipient id are not kept.
- DeadLetterQueue.DeadLetterQueue.RemoveFromStream: a record's position stands for its stream id.
- RetryBudget.AttemptsWithinBudget: ticks of the retry processor do not overlap, and no id is added while it is listed.
- Retry.RetryDelayBounds: initial delay and backoff factor are not negative, as in every configuration of the source.
- PathGuards.ValidateBindMounts: the text of a violation's reason.
- Dispatcher.SortIsStable: Array.sort is taken to be the stable sort that ECMAScript requires.
- Metrics.Calculate: trends, period and user id; rates are reals.
- Ttl.FormatThenParse: integers are unbounded, so the switch of JavaScript to exponent notation above 10^21 is not modelled.
- Poller.PollForApproval: the request itself and its errors.
- Confidence.EnrichAlternativeAnalysis: a score that is not a number, which the source also fills in.
- Confidence.CalculateBaseConfidence: weights and scores are reals; calculateFactorAgreement, a second ratio of the same sums that no score uses, is not modelled.
- Event emitters and listeners: an emitted event is an entry of a log.
- src/scheduler, src/worker, src/learning, src/recommendation and packages/orchestrator rest on services whose code holds the real state elsewhere.
- The GitHub, Jira, Cloud Build, Copilot and VS Code packages wrap external clients or draw a user interface.
- Schemas, error classes, indexes, prompt building, request buffering and the retry wrapper declare shapes or pass data on and keep no state that the properties above depend on.
