# Verification of the holler message bus

holler is a local message bus for coding agents. This project models the small protocols inside it
that have to survive interleaving, lost connections and retries, and proves what they guarantee over
every run, every interleaving and every input.

| module | what it models |
|---|---|
| `AttentionBroker` | the broker that hands a notice to a waiting session: each critical section of its mutex and each operation on a one-slot channel is one atomic event, with a program counter for every running `Wait` |
| `RpcSession`, `RpcInvariant`, `RpcOrder`, `RpcSafety`, `RpcAnswers`, `RpcClient` | the client's call, reconnect and replay, the server's request loop with its provisional identities, their invariant, what follows from it, and a client object shown to take exactly those steps |
| `DeliveryLease`, `AckReplay` | the shared ack/nack decision with the statements that claim, extend, finish and revoke a delivery, and its composition with the RPC session: a resent ack is invisible end to end |
| `HostConnections` | the table of host attention connections and the check that drops its lock between two looks |
| `Framing` | length-prefixed frames at byte level, with short writes, partial reads, and whole conversations read by the Go and by the Python reader |
| `TerminalQueries` | the streaming terminal responder and its carried tail |
| `Gateway` | sessions, rate windows and in-place pruning of the human gateway |
| `EventWindow`, `Certification` | the paged read of an event window that goes on growing, and the search for witnesses in it |
| `MonitorWakes` | the file in which a monitor remembers what it has surfaced |
| `SendRequests`, `SendRetries` | the canonical form of a send request, and how a retry is recognised |
| `CodexPolicy` | the managed block spliced into and out of a user's configuration text |
| `Sorting`, `Text`, `Bytes`, `Wrappers` | sorting by a total order, the parts of Go's `strings` package used above, bytes, `Option` and `Result` |

Objects that the program updates in place are classes (`Broker`, `Client`, `HostConnectionTable`,
`HumanGateway`, `PtyProcess`, `Monitor`, `EventReader`); each method is proved equal to a step
function on values, and the theorems over runs are about those step functions.

What is assumed of the surroundings: a `Wait` creates a fresh channel, a claim and a login draw
values that were never drawn before, the gateway's clock never runs backwards and is more than a
minute past the zero time, an event stream only appends and numbers its events in increasing order,
a connection delivers whole frames in order or not at all, and a write that reports an error may or
may not have delivered its frame. A dispatched ack may fail for reasons other than the lease (the
database, an adopted actor); it is then assumed to have written nothing.

## Where the code is not what one might expect

- `Attached` also answers true for the all-empty session key when an actor has no presence: a Go map
  gives the zero key (`internal/attention/broker.go:39-44`).
- A Wait that is cancelled and whose context ends at the same time may report the timeout instead of
  the cancellation: exactly when it looks at its channel before the send that it is owed
  (`AttentionBroker.EvictedWaitTimesOutExactlyWhenOwed`, with the run in
  `AttentionBroker.CancelledWaitMayTimeOut`).
- When the server fails after it has bound a provisional actor and before it enters its request loop, the
  release at disconnect is never made, because it is only arranged there
  (`internal/api/api.go:605-643`, `RpcSafety.AbandonedHelloLeaksItsActor`); the store has other ways to
  reclaim such an actor, which are left out below.
- A nack has no replay protection: its second copy is refused because of the first
  (`DeliveryLease.ResentNackIsRefused`); it is rightly missing from the client's replay list,
  and so no client meets that refusal (`AckReplay.RefusedNackWasBeaten`).
- Replies to several queries in one chunk follow the order of the table, not of the queries
  (`TerminalQueries.OneChunkAnswersInTableOrder`).
- The Python reader accepts an empty frame that the Go reader refuses; that is the only difference
  (`Framing.ReadersAgree`).
- The gateway's windows restart on demand, so the nominal limits of ten requests and five failures do
  not hold for every second and every minute. A second that begins within the window of the session's
  own login, which counted nothing, can admit 20 requests; a later one 19
  (`Gateway.SharpRate`, `Gateway.TwentyAreReached`, `Gateway.NineteenAreReached`). A minute that begins
  within a window opened by a login that did not fail can record 10 failures, any other 9
  (`Gateway.TenFailuresNeedAQuietOpening`, `Gateway.TenFailuresAreReached`, `Gateway.NineFailuresAreReached`).
- A message identifier that is empty or contains white space is not remembered across continuations
  and can be surfaced again; words never are (`MonitorWakes.SurfacedIsRemembered`).
- Blank recipients next to destinations are counted before they are dropped, so adding one turns an
  accepted request into a refused one (`SendRequests.BlankRecipientBesideDestination`).
- A retry with legacy recipients conflicts with its own first copy when one of them was classified
  differently in between (`SendRetries.RetryIsRecognised`).
- Taking the managed block out joins the lines before and after it when there is text on both sides
  (`CodexPolicy.LinesAroundBlockJoin`).

## Model

| member | source | states |
|---|---|---|
| AttentionBroker.DeliveredExactlyWhenAccepted | internal/attention/broker.go:82-152 | in every interleaving, a finished Wait returned a notice if and only if some Notify of the run had returned true for that very Wait with that notice |
| AttentionBroker.NotifyAnswersAreTheDeliveries | internal/attention/broker.go:127-152 | Notify's true answers are exactly the deliveries that waiting calls are owed, for every run |
| AttentionBroker.NotifyAcceptsEachWaitOnce | internal/attention/broker.go:140-147 | two Notify calls never both return true for one Wait: no duplicate delivery |
| AttentionBroker.AcceptedNoticeIsReturned | internal/attention/broker.go:108-122 | an accepted notice is never lost or reported as a timeout: whatever the others do afterwards, the Wait's own remaining steps are enabled and return it, also when its context ended first |
| AttentionBroker.NotifyConsumesOneWaiter | internal/attention/broker.go:127-152 | Notify returns true exactly when the current presence has a waiter of that mode; its send never meets a full channel; it takes that one waiter and touches no other, and a false answer changes nothing |
| AttentionBroker.FinishedOutcome | internal/attention/broker.go:82-171 | how each finished Wait ended follows from who ended its registration: accepted, superseded or cancelled, or withdrawn by itself |
| AttentionBroker.EvictedWaitReturnsNoNotice | internal/attention/broker.go:64-75 | a Wait superseded or cancelled before a notice reached it never returns a notice later |
| AttentionBroker.FateIsFinal | internal/attention/broker.go:50-171 | the party that ended a registration is the only one that ever does |
| AttentionBroker.WaitersAreCurrent | internal/attention/broker.go:50-123 | a waiter exists only under its actor's current presence, with an empty channel of its own, at most one for each actor |
| AttentionBroker.UnregisterSparesOthers | internal/attention/broker.go:100-106 | a Wait that leaves removes exactly its own entry, never that of a later Wait on the same session |
| AttentionBroker.OwedSendFindsEmptySlot | internal/attention/broker.go:69-74 | the sends that Attach and Cancel make after unlocking always find the channel empty, so their default branch is never taken |
| AttentionBroker.EvictedWaitIsOwedItsError | internal/attention/broker.go:64-74 | no wakeup is lost: in every reachable state an evicted Wait that has not read its outcome has its error in its channel or is still owed the send that brings it, never both |
| AttentionBroker.EvictedWaitIsWoken | internal/attention/broker.go:64-74 | every parked Wait that was superseded or cancelled returns that error in its next two steps, at once or after the send it is owed |
| AttentionBroker.EvictedWaitTimesOutExactlyWhenOwed | internal/attention/broker.go:108-118 | at its re-check an evicted Wait reports the timeout if and only if its send is still pending, and its error otherwise |
| AttentionBroker.CancelledWaitMayTimeOut | internal/attention/broker.go:155-170 | a concrete run in which a cancelled Wait reports the timeout |
| AttentionBroker.AttachReplacesOnePresence | internal/attention/broker.go:50-80 | Attach makes the session its actor's presence unless it is already or the callback fails, when nothing changes; only the waiter of the presence it replaces goes, and no other actor notices |
| AttentionBroker.CancelEndsTheSession | internal/attention/broker.go:155-170 | over any later run in which the session does not attach again, no Notify to it is accepted, no Wait of it is admitted, and the Wait it had ends with Cancel's outcome or its own timeout |
| AttentionBroker.WaitIsAdmittedExactlyWhen | internal/attention/broker.go:82-98 | a Wait is admitted if and only if its session is the current presence and has no parked Wait, with a channel never used before |
| AttentionBroker.AttachAnswers | internal/attention/broker.go:50-80 | Attach answers the callback's own error exactly when the callback fails for a session that is not current; every other answer leaves the session as its actor's presence, and names exactly the waiter it evicted |
| AttentionBroker.WaitAnswers | internal/attention/broker.go:82-98 | the three errors of Wait are tied to no presence, the presence of another session, and a waiter already registered, one by one |
| AttentionBroker.NotifyAnswers | internal/attention/broker.go:127-152 | in every reachable state Notify answers true exactly when a Wait of that very session and mode is parked |
| AttentionBroker.PresenceIsTheLastAttached | internal/attention/broker.go:50-171 | over any run an actor's presence is the session that attached last with a passing callback, unless it was cancelled since |
| AttentionBroker.RunKeepsInv | internal/attention/broker.go:50-171 | the invariant tying waiters, presences, channels, program counters and owed sends together, in both directions, survives every event of every run |
| AttentionBroker.Broker.Attach | internal/attention/broker.go:50-80 | the locked part of Attach, callback failure included, is one atomic step of the machine |
| AttentionBroker.Broker.BeginWait | internal/attention/broker.go:82-98 | the admission of a Wait, with its three errors, is one atomic step |
| AttentionBroker.Broker.Notify | internal/attention/broker.go:127-152 | Notify is one atomic step and returns the adapter exactly when it accepted |
| AttentionBroker.Broker.Cancel | internal/attention/broker.go:155-166 | the locked part of Cancel is one atomic step |
| AttentionBroker.Broker.Attached | internal/attention/broker.go:39-44 | true for the current key of the actor, and for the zero key when there is none |
| RpcSafety.AtMostTwoCopies | internal/api/api.go:2155-2231 | one call puts at most two copies on the wire, each under one ID of one connection; a second copy outside the replay list exists only after the first was refused before dispatch |
| RpcSafety.UnsafeOpsRunAtMostOnce | internal/api/api.go:2187-2240 | over any run of drops, reconnects, ambiguous writes and reassignments, an operation outside the replay list is dispatched at most once |
| RpcSafety.LogHasNoRepeats | internal/api/api.go:648-685 | the server never dispatches the same copy twice |
| RpcSafety.AnswerIsForOwnLatestRequest | internal/api/api.go:2201-2231 | a result given to a caller is what the server did with that caller's own latest copy, on the connection and under the ID that carried it |
| RpcSafety.StaleResponseIsNotAnAnswer | internal/api/api.go:2194-2220 | an unread response of an earlier call is never taken for an answer: the call fails or starts its second attempt |
| RpcSafety.SecondAttemptExactlyWhen | internal/api/api.go:2165-2198 | an attempt that ends, by a failed or ambiguous write, a failed read or a response, leads to a second one if and only if it was the first, time is left, and a replayable operation met a transport or correlation failure or the server answered a reassigned binding; otherwise the call ends with its result, and only a failed first attempt closes the connection |
| RpcOrder.AnswersComeInOrder | internal/api/api.go:648-685 | on every connection the IDs of requests and of answers strictly increase and answers precede waiting requests; while a client reads, leftovers come first and its own answer last |
| RpcSafety.FinalityAgrees | internal/api/api.go:2165-2197 | when the client believes its identity final on its live connection, so does the server |
| RpcSafety.NoProvisionalFinalisation | internal/api/api.go:653-671 | no finalising operation is dispatched while the identity is provisional |
| RpcSafety.ReleasedExactlyWhenNeverFinalised | internal/api/api.go:605-671 | the release at disconnect is made if and only if the server entered its request loop, the connection has ended, and the actor was provisional with no finalising operation run on that connection |
| RpcSafety.AbandonedHelloLeaksItsActor | internal/api/api.go:605-643 | a concrete hello that the server abandons after binding a provisional actor; over any later run the release at disconnect is never made |
| RpcInvariant.RunKeepsInv | internal/api/api.go:2155-2231 | the invariant of queues, identities, copies, dispatch log, results and phase survives every event |
| RpcClient.Client.Call | internal/api/api.go:2155-2199 | the client object, with connections that fail anywhere, only ever reaches states of the machine, and records one outcome for each call |
| RpcClient.Client.CallOnceLocked | internal/api/api.go:2201-2231 | one attempt is the machine's write and read steps, with the ID match and the undecodable result |
| RpcClient.Client.ConnectLocked | internal/api/api.go:1638-1756 | a connect gives a fresh connection with numbering restarted at 1, which the server may have abandoned, or ends the call, perhaps leaving the server a bound actor |
| RpcClient.Client.ServeOne | internal/api/api.go:648-685 | one turn of the server's loop, with its three ways to refuse before dispatch, is the machine's step |
| RpcAnswers.RefusedIsNeverRun | internal/api/api.go:648-685 | the server refuses exactly what a provisional identity must not run: a refused copy is not dispatched then or over any later run, and every other request is dispatched |
| RpcAnswers.RefusesBeforeDispatch | internal/api/api.go:653-669 | a refusal leaves the dispatch log and the provisional identity alone, marks the copy as rejected, and tells the client of a reassigned binding exactly when that is the reason |
| RpcAnswers.DispatchesOtherwise | internal/api/api.go:653-684 | a request that is not refused is dispatched under its own operation and answered with its own result; the identity stays provisional exactly after a read |
| RpcAnswers.OnlyReadsRunProvisionally | internal/api/api.go:897-904 | over any run whatever is dispatched under a provisional identity is one of the ten operations named there |
| RpcAnswers.ReplaysExactlyTheReplayable | internal/api/api.go:2187-2240 | a first attempt that fails in transport with time left is repeated exactly for the twenty-one operations named there |
| RpcAnswers.OthersRunAtMostOnce | internal/api/api.go:2233-2240 | over any run every operation but those twenty-one, nack among them, is dispatched at most once |
| RpcAnswers.ClientBecomesFinal | internal/api/api.go:2165-2197 | the client's identity becomes final exactly through a success of an operation that does more than read |
| RpcAnswers.ConnectStartsAfresh | internal/api/api.go:1658-1756 | a connect gives an unused connection, the identity as the server bound it, and numbering from the ID of the hello on |
| RpcAnswers.TransmitSends | internal/api/api.go:2201-2213 | every attempt takes a new ID, and its operation is queued under that ID unless the write is lost |
| RpcAnswers.CloseForcesADial | internal/api/api.go:1769-1784 | after a close the next call begins with a connect, and without one it uses the connection it has |
| RpcAnswers.NothingIsDispatchedAfterHangUp | internal/api/api.go:648-652 | once the server has left the loop of a connection, no later run dispatches anything from it |
| RpcAnswers.AttemptIsAnswered | internal/api/api.go:648-685 | an attempt whose frames get through ends with the server's answer: dispatched exactly once, or refused with its reason and nothing dispatched |
| RpcAnswers.ReassignedCallRunsOnce | internal/api/api.go:2173-2186 | for every operation, a call whose first identity was reassigned runs exactly once, as its second copy, and its caller gets the answer to that copy |
| DeliveryLease.TerminalIsForever | internal/store/sqlite/delivery_transition.go:11-28 | no sequence of claims, extensions, finishes and revocations changes a terminal delivery |
| DeliveryLease.TerminalIsEnteredOnce | internal/store/sqlite/delivery_transition.go:11-28 | at most one event of a run makes the delivery terminal |
| DeliveryLease.OnlyTheLatestTokenFinishes | internal/store/sqlite/store.go:953-1012 | apart from a revoked membership, only the token of the latest claim, still held, makes it terminal, and is recorded as the terminal token |
| DeliveryLease.ClaimIsExclusive | internal/store/sqlite/store.go:823-845 | a claim wins if and only if the delivery is queued or its lease ran out; over any later run its token holds the delivery, and alone may finish it, if and only if no event ended that lease |
| DeliveryLease.LeaseEndsExactlyWhen | internal/store/sqlite/store.go:823-1012 | over any run a token stops holding the delivery exactly through a finish with it, a revocation in force, or a claim at or after the end of the lease then recorded, and never holds it again |
| DeliveryLease.WhatFences | internal/store/sqlite/store.go:823-835 | a token is fenced by being displaced while it holds the delivery or by its own nack, and by nothing else |
| DeliveryLease.FencedTokenIsRefused | internal/store/sqlite/delivery_transition.go:18-26 | a fenced token is refused ever after, and its attempts change nothing |
| DeliveryLease.ExpiredButUnreplacedMayFinish | internal/store/sqlite/delivery_transition.go:8-10 | an expired lease that no claim has replaced may still finish, in each of the three ways |
| DeliveryLease.FinishByStanding | internal/store/sqlite/delivery_transition.go:11-28 | in reachable states the decision is to proceed exactly for the held token and to confirm exactly for the recorded terminal token with the same operation |
| DeliveryLease.ResentAckIsTransparent | internal/store/sqlite/delivery_transition.go:12-17 | a second copy of an ack or dead-letter, with anything in between, succeeds without change if the first took effect, and is answered as if alone otherwise |
| DeliveryLease.CopiesOfAnAckAgree | internal/store/sqlite/delivery_transition.go:11-28 | over a run all copies of one ack are accepted together or refused together, in either order |
| DeliveryLease.RefusalIsFinal | internal/store/sqlite/delivery_transition.go:18-26 | a refusal of a token that was handed out never turns into an acceptance |
| DeliveryLease.ResentNackIsRefused | internal/store/sqlite/delivery_transition.go:24-26 | a resent nack is refused because its first copy took effect |
| DeliveryLease.DecisionAnswers | internal/store/sqlite/delivery_transition.go:11-28 | over the reachable states, which of the two errors a finish gets: terminal for a finished delivery and for a revoked holder of a queued one, a token mismatch otherwise |
| DeliveryLease.FinishWrites | internal/store/sqlite/store.go:983-1012 | only the held token writes; the new state follows its operation, the lease is gone, and the token becomes the terminal one except for a nack |
| DeliveryLease.RevokedHolderIsToldTerminal | internal/store/sqlite/lifecycle.go:262-280 | after an operator revoked a lease in force, its former holder is told that the delivery is terminal, over any run without another claim or a revoked membership |
| DeliveryLease.RevokedMembershipEnds | internal/store/sqlite/conversation_access.go:281 | a revoked membership ends every delivery that is not over yet and no other |
| DeliveryLease.ExtendMovesTheEnd | internal/store/sqlite/store.go:905-930 | an extension by the holder in time moves the end of the lease: no claim wins before the new end, one does at it; any other extension does nothing |
| DeliveryLease.ClaimTakesHold | internal/store/sqlite/store.go:823-845 | a claim that wins writes its token and the end of its lease, and keeps the terminal token of a revoked holder |
| AckReplay.AckAnswerSpeaksForEveryCopy | internal/api/api.go:2187-2235 | end to end, the answer to an ack holds for every copy that the store decided on: success means all were accepted, an error from deciding one means all were refused; in whatever order the copies reach the row; copies may also fail before the decision |
| AckReplay.AckedAfterOk | internal/api/api.go:2194-2198 | after a success the delivery is acked under that token, whatever else is written to the row |
| AckReplay.RefusedNackWasBeaten | internal/api/api.go:2233-2240 | no client sees a nack refused because of its own first copy: if its token held the delivery, a refused nack was beaten by an event of somebody else that ended the lease |
| HostConnections.TableHoldsTheLiveClaims | internal/api/api.go:808-857 | the table holds exactly the connections that claimed and were neither released nor evicted, one for each process |
| HostConnections.CanBindMeansNoRival | internal/api/api.go:828-857 | when the check answers true, its last locked look left no connection of another binding for the process |
| HostConnections.EvictsOnlyWhatItJudged | internal/api/api.go:845-856 | the check evicts and closes only the very connection whose registration it saw as not live, and otherwise answers by the successor's binding |
| HostConnections.RefusalsSawARival | internal/api/api.go:841-852 | over any run a check has answered false if and only if one of its looks met a live registration or a successor of another binding |
| HostConnections.ClosedMeansEvicted | internal/api/api.go:845-856 | over any run the closed connections are exactly those that some check found at its second look as it had judged them |
| HostConnections.RefusalEvictsNothing | internal/api/api.go:841-856 | over any run a check that answered false never closed a connection |
| HostConnections.LateReleaseSparesSuccessor | internal/api/api.go:820-826 | the late release of an evicted connection leaves the table as it is |
| HostConnections.ReleaseRemovesOwnEntry | internal/api/api.go:820-826 | a release removes its own entry and no other |
| HostConnections.HostConnectionTable.ProcessCanBind | internal/api/api.go:828-857 | the check with other parties running between its looks: its answer, its eviction and the table it leaves |
| HostConnections.HostConnectionTable.Claim | internal/api/api.go:808-818 | a claim succeeds exactly when the process has no entry |
| HostConnections.ClaimIsGranted | internal/api/api.go:808-818 | a claim for a process without an entry is granted and is then what the table holds; any other leaves the table unchanged |
| HostConnections.EntryStaysUntil | internal/api/api.go:820-857 | over any run an entry stays in the table if and only if its connection has not released it and no check has evicted it |
| HostConnections.GrantedClaimStays | internal/api/api.go:808-857 | the same from the moment the claim was granted |
| HostConnections.FirstLookAnswers | internal/api/api.go:828-843 | a check is true at once exactly when no other binding holds the process; otherwise it asks about that very entry and goes on to evict it exactly when it is not live |
| Framing.RoundTrip | internal/api/api.go:2252-2308 | decoding the written stream gives the same payloads, with exactly the undecodable rest left over |
| Framing.DecodeInvertsFrame | internal/api/api.go:2252-2308 | a stream decodes to a payload and a rest if and only if it is the frame of a payload of 1 byte to 2 MiB followed by that rest |
| Framing.CutFrameIsTruncated | internal/api/api.go:2294-2306 | a frame cut at any byte is recognised as unfinished, never as another frame |
| Framing.DecodeRefuses | internal/api/api.go:2294-2306 | with the four length bytes in network order, an announced length of 0 or over 2097152 is invalid, a shorter stream is truncated, and nothing else is refused |
| Framing.ReadersAgree | scripts/canary/managed.py:33-54 | the Python reader agrees with the Go reader on every stream, except that it accepts an empty frame |
| Framing.WriteAll | internal/api/api.go:2268-2280 | every pattern of short writes that make progress gets every byte out, in order, within as many writes as there are bytes; the first write that fails or takes nothing is reported, with a prefix out |
| Framing.WriteFrame | internal/api/api.go:2252-2266 | succeeds exactly when every write it makes progresses, and then exactly the frame is out; a payload over the limit writes nothing |
| Framing.ReadFrame | internal/api/api.go:2294-2306 | for every pattern of partial reads, the outcome and the rest of the stream are those of decoding |
| Framing.ReceiveExact | scripts/canary/managed.py:33-42 | for every pattern of partial reads, exactly the requested bytes, or an error |
| Framing.ReceiveFrame | scripts/canary/managed.py:50-51 | the second implementation of the reader refines its decoding function |
| Framing.PythonRoundTrip | scripts/canary/managed.py:33-54 | repeated receives of the Python reader get the same payloads from the written stream, with exactly the undecodable rest left over |
| Framing.Relay | internal/api/api.go:2252-2308 | any number of frames, written through any pattern of short writes that make progress and read with partial reads, arrive unchanged, with nothing left over; they fail to exactly when a write fails or takes nothing |
| Framing.RelayToPython | scripts/canary/managed.py:33-54 | the same with the Python reader at the end |
| TerminalQueries.ChunkingIsInvisible | scripts/canary/worker.py:71-83 | for every way of cutting a stream into chunks, each query is answered exactly as often as it occurs in the whole stream |
| TerminalQueries.ChunkCompletes | scripts/canary/worker.py:805-814 | with the tail carried, one chunk is answered for exactly the occurrences that it completes |
| TerminalQueries.NoOverlap | scripts/canary/worker.py:77-82 | occurrences of a query without a border never overlap, so skipping a whole match loses none |
| TerminalQueries.ScanIsExactExactlyWhenUnbordered | scripts/canary/worker.py:76-82 | skipping a whole match after each finds every occurrence in every stream if and only if the query has no border |
| TerminalQueries.ShorterTailMisses | scripts/canary/worker.py:813-814 | with one byte less carried, a longest query cut before its last byte is answered by nothing |
| TerminalQueries.ShippedTableIsWellFormed | scripts/canary/worker.py:59-68 | no shipped query has a border, and the longest has 8 bytes, so the tail of 7 suffices |
| TerminalQueries.ShippedReplies | scripts/canary/worker.py:59-68 | the text that stands beside each of the eight queries |
| TerminalQueries.OneChunkAnswersInTableOrder | scripts/canary/worker.py:74-82 | replies within one chunk come in table order |
| TerminalQueries.TerminalQueryResponses | scripts/canary/worker.py:71-83 | the nested loops give the replies for the occurrences that end behind the previous tail |
| TerminalQueries.PtyProcess.ReadChunk | scripts/canary/worker.py:794-814 | after each read the replies written so far answer everything read so far, query by query |
| Gateway.AtMostTwentyPerSecond | internal/gateway/gateway.go:228-239 | over any run, every half-open second admits at most 20 requests of one session |
| Gateway.AtMostTenFailuresPerMinute | internal/gateway/gateway.go:170-187 | over any run, every half-open minute records at most 10 failed logins |
| Gateway.SharpRate | internal/gateway/gateway.go:209-239 | the sharp bound for a session by its login: 20 in a second that begins strictly within the login's window, 19 in one that begins after it, 10 otherwise |
| Gateway.TwentyAreReached | internal/gateway/gateway.go:209-239 | for every second that begins strictly within a login's window, a run that admits 20 |
| Gateway.NineteenAreReached | internal/gateway/gateway.go:228-239 | for every later second of the session's eight hours that leaves room for one more window, a run that keeps the session from idling and then admits 19 |
| Gateway.TenFailuresNeedAQuietOpening | internal/gateway/gateway.go:170-187 | without a window that a login other than a failed one opened before the minute and that is in force when it begins, there are at most 9 failures |
| Gateway.TenFailuresAreReached | internal/gateway/gateway.go:170-187 | for every minute that begins within the window of a successful login, a run with 10 failures |
| Gateway.NineFailuresAreReached | internal/gateway/gateway.go:170-187 | for every minute that begins within the window of a failed login, a run with 9 failures |
| Gateway.TableIsBounded | internal/gateway/gateway.go:193-209 | over any run the table never exceeds 16 sessions and never repeats a token |
| Gateway.ThrottledUntilTheWindowEnds | internal/gateway/gateway.go:170-179 | five failures shut the login for the rest of their window: over any run every login before its end is throttled, with the right bearer too, and the first one from its end on is not |
| Gateway.WrongBearersAreCounted | internal/gateway/gateway.go:170-187 | with any bearer but the current one, absent or not, an open login is denied and counted; every other login counts nothing |
| Gateway.FiveWrongBearersShutTheLogin | internal/gateway/gateway.go:170-187 | over any run, after five wrong bearers within one window every login before its end is throttled, with the right bearer too |
| Gateway.ThrottledExactlyAfterFive | internal/gateway/gateway.go:170-187 | over any run within one window a login is throttled if and only if the failures it started with and the wrong bearers of the run make five |
| Gateway.LoginOutcome | internal/gateway/gateway.go:170-212 | each of the five ends of a login happens exactly under its own condition on window, bearer, draws and live sessions |
| Gateway.RotationRetiresTheBearer | internal/gateway/gateway.go:252-274 | over any run after a rotation, with fresh secrets, the old bearer never logs in again |
| Gateway.LoginOpensASession | internal/gateway/gateway.go:209-227 | a session that no request touches is accepted for exactly an hour after its login |
| Gateway.NoSessionOutlivesEightHours | internal/gateway/gateway.go:209-229 | over any run, however busy, no session is accepted eight hours after its login |
| Gateway.WhatEndsASession | internal/gateway/gateway.go:218-273 | its own logout, any rotation, its expiry and an idle hour end a session |
| Gateway.ActionAnswers | internal/gateway/gateway.go:243-274 | only an administrator's decoded rotation with a new bearer rotates, and only a decoded logout logs out |
| Gateway.WhatRequestsLeave | internal/gateway/gateway.go:243-274 | a rotation empties the table and takes the new bearer, a logout removes exactly its own session, and no other request removes one or changes the bearer or the failures |
| Gateway.DeadIsForever | internal/gateway/gateway.go:218-227 | a session that has ended is never accepted again, whatever comes later |
| Gateway.AcceptedExactlyWhenLive | internal/gateway/gateway.go:217-227 | a request passes the session lookup if and only if a live session carries its token |
| Gateway.LiveOnlyIsAFilter | internal/gateway/gateway.go:193-199 | pruning keeps exactly the live sessions |
| Gateway.LiveOnlyKeepsOrder | internal/gateway/gateway.go:193-199 | pruning keeps the order: it treats every part of the table by itself |
| Gateway.HumanGateway.Prune | internal/gateway/gateway.go:193-199 | pruning in place on the shared array equals filtering the live sessions in order |
| Gateway.HumanGateway.HandleLoginRequest | internal/gateway/gateway.go:170-212 | the login branch, window, throttle, draw failures and full table included, is the machine's step |
| Gateway.HumanGateway.HandleAuthorized | internal/gateway/gateway.go:217-274 | lookup, rate window, logout and rotation are the machine's step |
| EventWindow.ReadCertificationEvents | internal/connector/certify.go:190-217 | reading in pages of 100 from a growing store gives exactly the events after the cursor, in order, as the last page found them, with the last position; with every call answered it fails exactly when the window holds more than 10000 events, and it reports a reader failure exactly when a call is not answered, after at most 101 calls |
| EventWindow.AfterResumes | internal/connector/certify.go:204-212 | reading on from the position of any event of the window gives exactly the events behind it |
| EventWindow.EventReader.ListEvents | internal/store/sqlite/store.go:1063-1082 | the first events behind the cursor that the caller may see, in order, up to the limit or its default, of a stream that may have grown |
| Certification.Certify | internal/connector/certify.go:47-143 | a report speaks for the two complete windows: READY if and only if they hold all the witnesses, DEGRADED, REGISTERED or CONFIGURED otherwise; it fails exactly when project, actor or run is blank, a call is not answered, or a window is exceeded |
| Certification.Judge | internal/connector/certify.go:85-142 | state, readiness, builds and positions of a report, from two windows: READY if and only if a session was registered and hydrated, a message was sent, one message was claimed and acked, all builds are clean, and for live review such a message was noticed in such a session |
| Certification.CorrelatedSessions | internal/connector/certify.go:259-290 | exactly the sessions with a registration and a hydration of the run, both from clean builds |
| Certification.AcceptedNotificationMessageIDs | internal/connector/certify.go:236-257 | exactly the messages whose notice a correlated session accepted through the expected adapter |
| Certification.McpMessageIDs | internal/connector/certify.go:296-308 | exactly the messages that a clean real client acted on in the run |
| Certification.ObservedBuildsForRun | internal/connector/certify.go:310-337 | the builds the run's events name, strictly sorted, each exactly once, and whether each side named one |
| Certification.CertifiedBuilds | internal/connector/certify.go:178-188 | true exactly when both sides were seen and every build is known and clean |
| Certification.EventBuildsClean | internal/connector/certify.go:339-343 | true exactly when the event names a clean client build and a clean daemon build |
| Certification.NoticeMeans | internal/connector/certify.go:236-257 | field by field what an accepted notice says: kind, actor, run, harness, session, the result accepted, the daemon as client, the resolved adapter in live review, and two clean builds |
| Certification.ActMeans | internal/connector/certify.go:296-308 | the same for a client's act: the run, or else the sender's run, and a client name that begins with bus-mcp/ |
| Certification.SessionMeans | internal/connector/certify.go:259-290 | the same for a registration, which must name the resolved adapter, and a hydration, which need not |
| Certification.CertificateMeans | internal/connector/certify.go:85-135 | the witnesses as events: one message sent, one claimed and acked by events that name the same message, and for live review a notice of that very message |
| Certification.NoticedMeans | internal/connector/certify.go:236-257 | a noticed message has a notice, a registration and a hydration that name one session |
| Certification.ChecksByName | internal/connector/certify.go:102-128 | which evidence stands behind each check of a report, and that the notice is checked for live review alone |
| Certification.OnlyOwnEventsMatter | internal/connector/certify.go:85-100 | other actors, other runs, and the order and repetition of events have no say in READY |
| Certification.WiderWindow | internal/connector/certify.go:85-100 | more events never take evidence away: a wider window stays READY if and only if none of the builds in it is unclean |
| MonitorWakes.LoadInvertsRemember | cmd/holler/main.go:444-494 | a remembered set of up to 1024 identifiers is read back if and only if each is a non-empty, space-free, valid identifier of at most 128 bytes |
| MonitorWakes.FileFits | cmd/holler/main.go:444-463 | 1024 such identifiers always fit the limit of 129 * 1024 bytes, and reach it exactly when each has 128 bytes |
| MonitorWakes.NothingIsSurfacedTwice | cmd/holler/main.go:305-366 | over any chain of continuations from any file, no word is surfaced twice, whatever else was offered |
| MonitorWakes.NothingIsSurfacedTwiceAfterAStop | cmd/holler/main.go:305-366 | the same for the chain that a fresh stop begins, from whatever file it finds |
| MonitorWakes.FreshStopForgets | cmd/holler/main.go:444-454 | a fresh stop runs as a continuation from an empty file does |
| MonitorWakes.SurfacedIsRemembered | cmd/holler/main.go:444-494 | a surfaced identifier is remembered by the next run that can read the file if and only if it is a word |
| MonitorWakes.ChainRemembersAll | cmd/holler/main.go:305-366 | with valid identifiers, a chain remembers exactly what it surfaced, never fails to load, and refuses a message only with 1024 behind it |
| MonitorWakes.WatchEnds | cmd/holler/main.go:305-366 | the first offer that is neither suppressed nor unavailable decides: it is surfaced and remembered, or refused with 1024 behind it and the file unchanged |
| MonitorWakes.RunAnswers | cmd/holler/main.go:305-366 | from whatever file, a run surfaces the first message that is not remembered and is available or named by a notice; it is quiet exactly when there is none, refuses exactly with 1024 remembered, and fails exactly when the file cannot be read back |
| MonitorWakes.LoadAnswers | cmd/holler/main.go:455-472 | reading back fails for a file of more than 132096 bytes, and else for a word of more than 128 bytes or with a control character; otherwise it gives exactly the words of the file |
| MonitorWakes.ChainStep | cmd/holler/main.go:474-478 | the 1025th message is refused and leaves the file unchanged |
| MonitorWakes.Monitor.LoadMonitorWakes | cmd/holler/main.go:444-472 | a fresh stop forgets everything; a continuation reads the file back or reports why not |
| MonitorWakes.Monitor.RememberMonitorWake | cmd/holler/main.go:474-494 | adds the identifier and rewrites the file with the sorted set, or refuses and leaves the file alone |
| MonitorWakes.Monitor.Run | cmd/holler/main.go:305-366 | suppress, persist, then surface at most one message |
| SendRequests.NormalizeSendRequest | internal/bus/model.go:534-668 | the loops, seen-maps and sorts give the canonical form, or the first error in the source's order |
| SendRequests.AcceptedExactlyWhenAcceptable | internal/bus/model.go:534-663 | a request is accepted if and only if every condition on its fields, body, routes and recipients holds |
| SendRequests.ReportsTheEarliestProblem | internal/bus/model.go:534-663 | every field, limit and exclusion spelled out in the order of the checks: the reported problem is one that the request has, no earlier stage has any, and nothing is reported exactly when no stage has one |
| Text.TrimSpaceTakesThePadding | internal/bus/model.go:535-543 | trimming takes white space from both ends, all of it, and nothing inside |
| SendRequests.CanonicalLists | internal/bus/model.go:606-663 | routes and recipients come out strictly sorted, without repeats, padding or blanks, with nothing added or lost |
| SendRequests.NormalizingIsIdempotent | internal/bus/model.go:534-668 | normalising an accepted request again gives the same request |
| SendRequests.SameRequestsGetOneAnswer | internal/bus/model.go:599-663 | a request that differs from an accepted one only in order, repetition or padding gets the identical result, if and only if it does not name recipients beside destinations |
| SendRequests.BlankRecipientBesideDestination | internal/bus/model.go:599-601 | a concrete request for which that exception occurs, with every JSON decoder that accepts the empty object |
| SendRequests.NormalizedTellsRequestsApart | internal/bus/model.go:534-668 | two accepted requests have the same canonical form if and only if they are the same request |
| SendRequests.ValidateTextIdentifier | internal/bus/model.go:670-680 | the byte limit first, then control characters |
| SendRetries.RetryIsRecognised | internal/store/sqlite/store.go:524-561 | a retry, however its recipients are ordered, repeated or padded, is recognised if and only if its legacy recipients are classified as before: always for destinations and replies |
| SendRetries.EquivalenceIsAgreement | internal/bus/model.go:682-718 | between stamped requests equivalence is equality of the whole request, recipients aside, for which the routes stand |
| SendRetries.LegacyEquivalence | internal/bus/model.go:682-729 | a message that recorded no routes is equivalent to a stamped request if and only if the rest agrees and its recorded recipients are the values of the request's routes, of whatever kind |
| SendRetries.StampAnswers | internal/store/sqlite/store.go:524-553 | a reply is stored in its parent's conversation and thread with the parent as its one route, and refused exactly for a missing parent, another conversation or another thread; anything else is stored with its destinations, or its recipients by what the store knows them as |
| SendRetries.UnstampedEquivalence | internal/bus/model.go:682-729 | a request without routes of its own is compared by its destinations, or else by its recipients' names |
| SendRetries.StampingNamesEveryRoute | internal/store/sqlite/store.go:524-553 | a normalised request that is stamped has at least one route, and each has a kind |
| SendRetries.RouteMatchingIsReflexiveAndSymmetric | internal/bus/model.go:731-741 | route comparison is reflexive and symmetric |
| SendRetries.RouteMatchingIsTransitiveThrough | internal/bus/model.go:720-741 | comparison is transitive through a list if and only if that list has no legacy kind |
| SendRetries.CompareRoutes | internal/bus/model.go:731-741 | the loop decides element-wise matching |
| CodexPolicy.StripInvertsMerge | internal/connector/codex_setup.go:382-436 | stripping a merged text gives the user's text back up to the newlines at its end |
| CodexPolicy.RemoveInvertsMerge | internal/connector/remove.go:175-189 | merging and then removing leaves the user's text with exactly one newline at its end |
| CodexPolicy.RerunsSettle | internal/connector/codex_setup.go:382-421 | re-merging reaches a fixed point after at most one rerun, and the rerun changes something exactly when the text ended in surplus newlines |
| CodexPolicy.StripAroundBlock | internal/connector/codex_setup.go:423-438 | wherever whole lines without a marker surround the block, it is found and taken out, with the newlines next to it |
| CodexPolicy.RemovalKeepsLines | internal/connector/remove.go:175-189 | removal keeps the user's non-empty lines if and only if one side of the block has none |
| CodexPolicy.LinesAroundBlockJoin | internal/connector/codex_setup.go:437-437 | a concrete text whose two lines come back as one |
| CodexPolicy.HollerMarkersAreProper | internal/connector/codex_setup.go:369-372 | the markers are single lines and the end marker does not occur in the start marker |
| CodexPolicy.StripAnswers | internal/connector/codex_setup.go:423-433 | a block is incomplete exactly when one marker is missing or the first end marker comes before the first start marker; a text without markers is left alone by strip and by removal |
| CodexPolicy.PlanRefuses | internal/connector/codex_setup.go:394-407 | setup refuses exactly an undecodable text that is not blank, and a text whose own policy does not authorise |
| CodexPolicy.AuthorizedIsLeftAlone | internal/connector/codex_setup.go:399-405 | a text whose own policy authorises gets nothing written into it and loses a managed block, and a rerun changes nothing |
| CodexPolicy.PolicyIsWritten | internal/connector/codex_setup.go:408-420 | any other text is kept whole and gets the policy between its markers at its end, after a blank line if there is anything before it; the plan is a change exactly when it differs |
| CodexPolicy.StripManagedCodexPolicy | internal/connector/codex_setup.go:423-438 | the search and the loop over newlines compute the stripped text or report an incomplete block |
| CodexPolicy.PlannedCodexUserConfig | internal/connector/codex_setup.go:382-421 | the builder computes the plan: unchanged, block dropped, block merged, undecodable or conflicting |

## Left out

- Database queries beyond the delivery row, the event cursor and the alias classification: allocation, adoption, migrations, managed conversations. The error a claim or an extension returns is not modelled, only what it writes.
- JSON, TOML, base64, UTF-8 decoding, hashing and random draws: payloads are opaque, verdicts of the decoders are parameters, texts are sequences of characters whose UTF-8 length is counted.
- A deadline that cuts a frame in the middle of a running session: frames are atomic in `RpcSession`, and bytes are treated in `Framing` alone.
- Fencing of identity connections: a connection is bound before it is tracked, so no guarantee follows from the code.
- Connector manifests, attention-mode validation and the default profile of a certification: harness, requirement of a wake and mode are parameters; summaries and remediation texts are not modelled.
- Retry delays, sockets, locks, re-attachment and error texts of the monitor: a run is the list of messages it is offered, in order.
- Failing or torn writes of the monitor's file and of the configuration file: a write is whole.
- The gateway's `/rpc` operations and its static pages: they do not touch sessions or windows.
- Process inspection, service managers, setup, doctor, launch, tool plumbing, the error-code tables, the budget ledger and the remaining canary scripts: input and output, or finite tables.
- SendRequests.NormalizeSendRequest: the nine trims and the two defaults at its head are one function, not statements.
- SendRetries.EquivalenceIsAgreement: covers messages whose routes were recorded; those of older stores are the subject of `SendRetries.LegacyEquivalence`. How a row decodes into a message is not part of this model.
- EventWindow.EventReader.ListEvents: which events a caller may see is a parameter, and is assumed not to change for an event already stored; a blank partition or stream and a missing caller are not modelled.
- RpcSafety.ReleasedExactlyWhenNeverFinalised: speaks of the release that the server asks for at disconnect. The store then drops only an actor that is still provisional and idle, and it also reclaims idle provisional actors when it opens and on a later hello that reconciles them; none of this is part of this model, and neither are those paths for `RpcSafety.AbandonedHelloLeaksItsActor`.
- RpcClient.Client.ConnectLocked: the hello exchange of a new connection and its fallbacks for older daemons are one step that succeeds, fails, or fails after the server has bound an actor; the server may or may not enter its loop.
- RpcClient.Client.Call: one client; calls of several goroutines are serialised by its mutex and appear one after the other.
- AttentionBroker.Broker.BeginWait: a Wait is split at its blocking select; the steps after it are `TryReceive` and `Remove`, and the order in which the scheduler takes them is the machine's.
