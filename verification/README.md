# Verified model of the backplane

This project models the parts of the agent backplane whose correctness depends on
interleaving, object identity or byte-level detail, and proves what they keep.

**The router's task lifecycle** (`TaskStates`, `TaskTable`, `TaskHistory`, `Delegation`,
`TaskTree`, `Outcomes`, `Idempotency`, `TaskEffects`, `RouterTasks`, `Disconnects`,
`Addressees`). One database transaction is one step: a function from the whole table state
to the next. A run is any sequence of steps, so between two transactions of one request any
other requests' transactions may run. A request that spans several transactions (three-phase
delegation, admission) leaves an in-flight record in the state; any number of them may be
open. `RouterTasks.Router` is the same code as mutable tables and methods: `Interleave`
stands at every await, and each method's contract ties the new tables to the step functions.
`TaskEffects` says apart from those functions what each transaction does to its row, the log
and the frames, and the methods promise that as well. Result and Cancel frames are recorded
as they are planned at commit; delivering them is best effort and cannot change the plan.
Generated ids are fresh.

**Sockets and correlation** (`Sockets`, `Delivery`, `PendingResults`). Socket entries,
outboxes and in-flight sets are objects compared by identity. `Sockets.Run` is any mix of
handshakes, disconnects and expiry timers; `Delivery.Run` adds deliveries, heartbeats,
answers, waiters that end or are cancelled, and reaper ticks. Correlation ids are random and
so never repeat within a run. `PendingResults` is the SDK's map with its bounded buffer.

**Self-contained components.** `SessionLock` (refcounted local locks, and one Redis key per
session whose WATCH, GET and EXEC are separate steps), `StashNames`, `FileStore` and `Quota`
(the named file store, its byte accounting, and its quota gate with any number of commands
between gate and allocation, or between a move's read and its transaction), `BlobGc`
(reclaiming shared blobs while users upload: an upload stores its bytes and inserts its row
in two steps, a sweep re-checks and deletes in two), `LlmCalls` (the per-task index of provider calls),
`TextWindow` (the streaming UTF-8 window reader), `Supervision` (the MCP reconcile loop, with bridges that finish at every
await), `Acl` (the first-match evaluator and the boot-time merge).

Where the code does less than its comments or documentation say, the model follows the code,
with an input that shows it and the exact condition under which the promise holds:

- A transition to the state a task is already in is a silent no-op
  (`bp_router/state.py:129-140`), so a second report of the same status is announced again.
  `Outcomes.FramesAccountedFor` is therefore a counting law, and
  `Outcomes.RepeatMayCarryAnotherCode` shows that repeats agree on the status only.
- `fail_task` announces nothing upward for a root task, and otherwise addresses the parent's
  original executor (`bp_router/tasks.py:1667-1700`), who is not the caller when a delegate
  spawned the task: `Addressees.FailureReachesCallerExactlyWhen`, `Addressees.DelegateHearsNothing`.
- `fail_inflight_for_agent` is documented to fail the tasks currently assigned to an agent and
  selects by the original executor: `Disconnects.CleanupMeetsItsDocumentation` says when the
  two agree (no such task was ever handed on), `Disconnects.ExecutorGoesUnnoticed` when not.
- A replay to a retrying caller has no error document when the router itself cancelled the
  task (`bp_router/tasks.py:241-275`); `Outcomes.ReplayMatchesFirst` says exactly when it agrees.
- Admission never reads the parent's state (`RouterTasks.AdmissionIgnoresParentState`), so a
  child can be admitted below a task that was cancelled or failed. A descendant that is still
  live after `Router.CancelTask` or `Router.FailTask` was admitted after the snapshot.
- The re-raise after a unique violation whose winner cannot be found is unreachable
  (`Idempotency.CollisionAlwaysResolves`).
- An agent that reconnects without its resume token is connected, and still loses its
  in-flight tasks when the old window ends (`Sockets.ReconnectWithoutToken`).
- An overwrite whose row another transaction deletes between its read and its UPDATE changes
  nothing and still reports the name as saved (`FileStore.DeletedUnderOverwrite`);
  `FileStore.Directory.AllocateName` says exactly when it binds the name and counts right.
- The quota gate reads the name and the usage outside the allocating transaction
  (`bp_router/dispatch.py:1434-1447`), and a move passes no gate and reads its source outside
  its own (`bp_router/dispatch.py:1640-1673`). `Quota.WithinCeilingExactlyWhen` and
  `Quota.OverrunBound` are about every run of overlapping commands, and
  `Quota.CommittingAllExceedsExactlyWhen` is the converse of the bound;
  `Quota.GatesCanOverrun`, `Quota.IdempotentGateCanOverrun` and `Quota.StaleMoveCanOverrun` are
  three ways past the ceiling.
- A move deletes its source by name, whatever that name is bound to by then
  (`bp_router/dispatch.py:1672-1673`): `Quota.MoveKeepsNamedExactlyWhen` says which blobs keep
  a name, `Quota.StaleMoveTakesALastName` is a store answered as saved that loses its only one.
- The garbage collector's re-check and its storage delete are two steps
  (`bp_router/tasks.py:1924-1954`), and so are an upload's bytes and its row
  (`bp_router/api/files.py:122-168`). `BlobGc.SafeExactlyWhenNothingIsLost` is the exact
  condition over runs; `BlobGc.UploadInTheGapLosesBytes` and
  `BlobGc.UploadAroundTheGapLosesBytes` lose bytes in two ways, the second of which no atomic
  re-check and deletion would prevent. An upload refused after its put
  (`bp_router/api/files.py:147-158`) leaves bytes that no sweep deletes unless they are
  uploaded again.
- Exclusion of a session across processes fails exactly for guards that failed open or whose
  key lapsed: `SessionLock.SecondHolderExactlyWhen`, with a run of each kind in
  `SessionLock.FailOpenAdmitsTwo` and `SessionLock.LapseAdmitsTwo`.
- A bridge can finish before its done-callback runs, so a pass may leave a bridge that
  finished during it in its slot until the callback fires. One that had finished before the
  pass is never left: the listing request yields to the event loop, which runs the callbacks
  already due (`Supervision.Supervisor.ListServers`).

## Model

| member | source | states |
|---|---|---|
| TaskStates.TerminalOnlyLast | bp_router/state.py:30-60 | On any path of allowed transitions a terminal state can only be the last one. |
| TaskStates.LiveTasksCanAlwaysBeEnded | bp_router/state.py:30-60 | From every live state, failing, cancelling and timing out are all allowed; from a terminal one nothing is. |
| TaskStates.StatusRoundTrip | bp_router/tasks.py:204-216 | The maps between states and Result statuses are inverse on terminal states, and live states have no status. |
| TaskEffects.TableByTarget | bp_router/state.py:30-60 | Which states may start running, wait for children, and end with each of the four statuses: every live one, except that a task waiting for children cannot succeed. |
| TaskTable.FindIdempotent | bp_router/db/queries.py:366-385 | A lookup by user, caller and key finds a row exactly when one matches, and the row found matches. |
| TaskHistory.RunEvolves | bp_router/state.py:120-170 | In every continuation of a run of the task lifecycle no row disappears, its user, parent, key and agents of record never change, logs only grow, and a terminal row never changes again. |
| TaskHistory.CancelFramesInEveryRun | bp_router/tasks.py:1299-1354 | Every planned Cancel frame names the agent that is, and stays, its task's executor; its task is cancelled for good. |
| Delegation.TrailsInEveryRun | bp_router/tasks.py:398-597 | With any number of overlapping delegations, results, cancels and failures, each task's trail of executors has no repeats, at most the configured number of hops, and ends in the active agent. |
| Delegation.CallerActiveMeansNothingMoved | bp_router/tasks.py:519-544 | If Phase C still finds the caller active, the delegation history is the one Phase A read. |
| Delegation.PhaseAExactly | bp_router/tasks.py:398-460 | Phase A accepts exactly the delegations that may be made, whatever its limited query cuts off, and otherwise gives the first of its five errors that applies. |
| Delegation.FlipIffHistoryUnchanged | bp_router/tasks.py:519-597 | Phase C succeeds exactly when the task is live and its history is unchanged since Phase A (no ABA), and then Phase A's checks would pass again. |
| Delegation.HandedOnForGood | bp_router/tasks.py:1143-1170 | An agent that handed a task on is never its executor again, and every Result it reports, in any continuation, changes nothing. |
| TaskTree.TreeInEveryRun | bp_router/tasks.py:803-881 | In every run each parent existed before its child and belongs to the same user, chains are acyclic and never deeper than the cap, although the depth is measured before the insert. |
| TaskTree.ChainDepthExact | bp_router/db/queries.py:2004-2057 | The bounded depth query returns the true depth of the chain, cut off at its budget. |
| TaskTree.BelowIsDeeper | bp_router/db/queries.py:474-503 | Whatever lies below a task is strictly deeper: no task is its own descendant. |
| TaskTree.DescendantsExact | bp_router/db/queries.py:474-503 | In every run the descendant walk bounded at 64 levels returns exactly the task's proper descendants. |
| TaskTree.DescendantsWereThere | bp_router/db/queries.py:474-503 | A row that existed at an earlier state and is a descendant later was a descendant then. |
| Outcomes.OneOutcomePerTask | bp_router/tasks.py:1172-1235 | All Result frames ever planned for a task, across any run, carry the one terminal status of its row, which never changes afterwards. |
| Outcomes.FramesAccountedFor | bp_router/tasks.py:1172-1235 | The number of Result frames of a task is its announced endings plus announced no-ops plus replays; at most one ending is real, and a live task has none. |
| Outcomes.ReplayMatchesFirst | bp_router/tasks.py:241-275 | A replay repeats the first announcement's status, code and output; the error agrees exactly when the row stores a code. |
| Outcomes.RepeatMayCarryAnotherCode | bp_router/state.py:129-140 | A run in which a repeated report of the same status carries another status code. |
| Idempotency.OneTaskPerKey | bp_router/tasks.py:883-918 | However admissions of one user, caller and key interleave between lookup, insert and re-lookup, those that return return one task, and it is the only row with that key. |
| Idempotency.CollisionAlwaysResolves | bp_router/tasks.py:883-918 | After a unique violation the re-lookup always finds the winner. |
| Idempotency.ReplayExactlyWhenTerminal | bp_router/tasks.py:633-644 | A retry is answered with a replay exactly when the row found is terminal; its status, code (499 for a router cancel) and output stay a true account of the row forever. |
| RouterTasks.Router.TaskTransition | bp_router/state.py:93-170 | The method changes the row and the log exactly as the transition step says, errors included. |
| RouterTasks.Router.Complete | bp_router/tasks.py:1089-1235 | A Result of the active executor that can end the live task stores exactly the reported state, code, output and error, logs one move and sends the caller one frame with the same; a second report of the same status is sent on again and changes no row; in every other case nothing changes. |
| TaskEffects.CompleteIsTaken | bp_router/tasks.py:1178-1226 | The effect of a Result in each of its cases, on any table: nothing for an unknown task or a wrong reporter, the ending with its frame, the repeat with its frame, or nothing. |
| TaskEffects.ReportTakesEffect | bp_router/tasks.py:1178-1226 | In every run the executor's report ends a live task it can end; row and caller's frame carry the reported state, code, output and error, and keep them in every continuation. |
| TaskEffects.CancelIsTaken | bp_router/tasks.py:1299-1354 | Cancelling a row: a live one is cancelled and its columns kept, one already cancelled is announced again, each with a Result of code 499 and a Cancel frame to the executor; any other is left alone. |
| TaskEffects.FailureIsTaken | bp_router/tasks.py:1434-1700 | A task's own failure or timeout: a live row gets state, code and error, and the parent's original executor one frame; a row that is over keeps its outcome. |
| TaskEffects.ForceFailIsTaken | bp_router/db/queries.py:432-472 | The fallback fails exactly the user's own live row, with code and error, without event or frame. |
| RouterTasks.Router.CancelRows | bp_router/tasks.py:1299-1354 | With other requests between the rows, at the end every target is terminal, every planned row is cancelled, its executor has been sent a Cancel frame and its caller a Result with code 499; the task itself comes first. |
| RouterTasks.SweptForGood | bp_router/tasks.py:1299-1354 | What a sweep achieved holds in every continuation of the run. |
| RouterTasks.Router.CancelTask | bp_router/tasks.py:1252-1431 | A cancel ends the task and its whole descendant snapshot, tells executor and caller of each row it cancelled, and plans each at most once, the task first; a descendant still live afterwards was not there at the snapshot. |
| RouterTasks.Router.FailTask | bp_router/tasks.py:1434-1705 | A failure takes effect exactly on a live task, or one that already ended that way: the row gets state, code and error, its parent's original executor one frame, and then every task below it when the cascade takes its snapshot ends, so that a descendant still live was admitted later. Otherwise nothing changes. |
| RouterTasks.Router.FailBatch | bp_router/tasks.py:1813-1855 | After the deadline sweep every task of the batch is terminal: one found live when its turn came ended with the sweep's status, code and error, one found over is as it was. |
| RouterTasks.Router.FailInflightForAgent | bp_router/tasks.py:1708-1770 | After the cleanup every task the agent was first given is terminal, those found live with 503 and its error, and with them every task it was executing that was never handed on. |
| Disconnects.SelectedExactlyWhenNeverHandedOn | bp_router/tasks.py:1708-1733 | In every run a live task is selected for its executor, and a selected task is its agent's own work, exactly when it was never handed on. |
| Disconnects.CleanupMeetsItsDocumentation | bp_router/tasks.py:1708-1733 | The cleanup takes exactly the tasks currently assigned to the agent if and only if none of them, or of those it was first given, was handed on. |
| Disconnects.ExecutorGoesUnnoticed | bp_router/tasks.py:1708-1733 | A run after which the executor's cleanup selects nothing of its task, and the first agent's cleanup fails the task another is executing. |
| Addressees.EveryFrameAddressed | bp_router/tasks.py:1667-1700 | In every run each Result frame goes to its task's caller, or is a failure or timeout that goes to the parent's original executor. |
| Addressees.FailureReachesCallerExactlyWhen | bp_router/tasks.py:1667-1700 | In every run the failure of a live task reaches its caller exactly when the task has a parent that was first given to the caller; a root task's failure plans nothing, any other one frame. |
| Addressees.DelegateHearsNothing | bp_router/tasks.py:1667-1700 | A run in which the Result of a delegate's failed child goes to the agent that delegated, and to nobody else. |
| RouterTasks.Router.AdmitDelegation | bp_router/tasks.py:301-597 | A delegation passes validation exactly when the row is the user's, live, executed by the caller, short of the hop limit and new to the destination, and is else refused for the first of these that fails; a validated one succeeds exactly when it is accepted and Phase C finds the task live with its history unchanged. It then appends its destination and nothing else, and otherwise changes nothing and names the ack, or what Phase C found. |
| RouterTasks.Router.AdmitTask | bp_router/tasks.py:603-1086 | A row with the key is joined, with a replay of its outcome exactly if it is over; else a denial is returned as it is, and a parent is too deep exactly by its depth. From there what the INSERT finds decides: an unknown parent is refused, the one row with the request's user, caller and key is joined, a taken id is an internal error, and otherwise a queued row is inserted and dispatched: acceptance starts it, a refused, timed-out or disconnected dispatch fails it with 400, 504 or 503 if it is live then, and an uncaught error leaves it alone. Refusals leave nothing behind. |
| TaskEffects.AnswerIsTaken | bp_router/tasks.py:1020-1080 | What the destination's answer does to the row it finds: a queued row runs, a live row whose dispatch failed fails with 503, 504 or 400, a row that is over and one whose dispatch broke are left alone. |
| TaskEffects.JoinIsRejoining | bp_router/tasks.py:241-275 | Joining a row answers with the row found, and with one replay of its state, code, output and error exactly if it is over. |
| RouterTasks.AdmissionIgnoresParentState | bp_router/tasks.py:803-881 | A child is created exactly when the parent's depth leaves room, whatever state the parent is in. |
| RouterTasks.DescendantsGrow | bp_router/db/queries.py:474-503 | A later descendant walk returns at least what an earlier one did. |
| Sockets.PlacesInEveryRun | bp_router/ws_hub.py:137-204 | In every run an entry is in at most one of live and parked, under its own agent id, and no two entries that can still send share an outbox or in-flight set. |
| Sockets.LiveUntilDisplaced | bp_router/ws_hub.py:149-182 | A live entry leaves the registry only by its own disconnect or by a newer handshake of its agent. |
| Sockets.ParkFailsExactlyWhenUnclaimed | bp_router/ws_hub.py:981-1016 | When a park's window ends, the in-flight tasks are failed exactly when the entry was neither taken over by its token nor replaced by a later park; windows end at most once, and once their timer is gone they have. |
| Sockets.OnlyParkedEntriesExpire | bp_router/ws_hub.py:1005-1016 | A window never ends for an entry that was not parked before. |
| Sockets.ReconnectWithoutToken | bp_router/ws_hub.py:557-580 | After a reconnect without the parked token, the end of the window fails the tasks of a connected agent. |
| Sockets.ReconnectWithToken | bp_router/ws_hub.py:557-580 | After a reconnect with the parked token the new entry is live with the parked one's token, outbox and in-flight set, the park is logged as resumed and over, and in every continuation the end of its window fails nothing. |
| Sockets.SocketRegistry.AttachEntry | bp_router/ws_hub.py:144-147 | The entry becomes live, and the one it supersedes is returned. |
| Sockets.SocketRegistry.DetachEntry | bp_router/ws_hub.py:149-182 | Nothing happens unless the expected entry itself is live; otherwise it moves to the resume map when asked. |
| Sockets.SocketRegistry.ConsumeResume | bp_router/ws_hub.py:184-190 | An entry is handed over, and parked no longer, exactly when it is the agent's parked one and the token is its own, whoever is live; else nothing changes. |
| Sockets.SocketRegistry.ExpireResume | bp_router/ws_hub.py:192-204 | Pops and answers true exactly when this very entry is still parked. |
| Sockets.WsHub.Connect | bp_router/ws_hub.py:557-597 | A handshake is one step of the run: with the token of its agent's parked entry it takes over token, outbox and in-flight set and unparks it, and otherwise makes new ones; it is live afterwards, and the socket it superseded is closed. |
| Sockets.WsHub.OnDisconnect | bp_router/ws_hub.py:981-1002 | A disconnect parks its entry exactly when the entry is still the live one. |
| Sockets.WsHub.WindowExpiry | bp_router/ws_hub.py:1005-1016 | The expiry fails tasks exactly when nothing released the park since. |
| Delivery.AnswersComeFromTheAddressee | bp_router/dispatch.py:435-490 | In every run a frame answered by an Ack or Pong was answered on a socket of the agent it was addressed to, even across resume; a frame still awaited is pending, tracked and served by a connected socket. |
| Delivery.DeliveryAwaits | bp_router/delivery.py:66-131 | A delivery to a connected agent is pending with its deadline and tracked on its live socket. |
| Delivery.PingAwaits | bp_router/ws_hub.py:825-850 | A heartbeat is pending and tracked on the socket it is sent on. |
| Delivery.AnswerSettles | bp_router/dispatch.py:435-490 | An Ack or Pong for a frame in flight on its socket settles the frame as answered there, unless it was settled before. |
| Delivery.ReaperTimesOut | bp_router/correlation.py:110-123 | A reaper tick gives up exactly the pending frames whose deadline has come, and changes nothing else. |
| Delivery.EndedWaitIsUntracked | bp_router/delivery.py:125-131 | A wait that ends or is cancelled is settled and tracked on no socket. |
| Delivery.HubIsARun | bp_router/ws_hub.py:137-204 | The connections of any run of deliveries are those of its connection steps alone. |
| Delivery.DisconnectSettlesEverything | bp_router/ws_hub.py:964-992 | Once a disconnect has detached its entry, none of its in-flight ids is pending and every frame put on it is settled, those still open as disconnected. |
| Delivery.SettlesAtMostOnce | bp_router/correlation.py:42-87 | A settled future keeps its outcome in every continuation. |
| Delivery.BackpressureLeavesNothing | bp_router/delivery.py:94-124 | A delivery into a full outbox leaves nothing pending and nothing tracked. |
| Delivery.EachIsAll | bp_router/correlation.py:67-87 | Rejecting ids one after the other, repeats and unknown ids included, is rejecting their set. |
| Delivery.PendingAcks.Register | bp_router/correlation.py:42-48 | The id is pending with the given or the default timeout; a zero timeout means the default. |
| Delivery.PendingAcks.Resolve | bp_router/correlation.py:50-65 | Answers whether someone was waiting; the future is settled unless done. |
| Delivery.PendingAcks.RejectIds | bp_router/correlation.py:67-87 | Settles exactly the listed ids that were pending, and counts them. |
| Delivery.PendingAcks.ReapOnce | bp_router/correlation.py:110-123 | Times out exactly the ids whose deadline has come. |
| Delivery.Courier.DeliverFrame | bp_router/delivery.py:66-131 | Queued, refused or backed out: the outbox, the in-flight set and the pending map afterwards, in each case. |
| Delivery.Courier.HandleAnswer | bp_router/dispatch.py:435-490 | Only an id in flight on this very socket is resolved. |
| Delivery.Courier.DeliverInRun | bp_router/delivery.py:66-131 | On the heap a delivery is the run's delivery step: registry, pending map and every socket's in-flight set agree with the run before and after. |
| Delivery.Courier.AnswerInRun | bp_router/dispatch.py:435-490 | The same for an Ack or Pong. |
| Delivery.Courier.DisconnectInRun | bp_router/ws_hub.py:964-992 | The same for a disconnect, from rejecting the in-flight ids to the detach. |
| PendingResults.RunKeepsValid | bp_sdk/correlation.py:65-131 | In every run awaited and buffered ids are disjoint, buffered ids are distinct and within the cap, and every awaited future is its own. |
| PendingResults.EarlyValueReachesLateFuture | bp_sdk/correlation.py:65-131 | A value that arrives before its id is registered reaches the later future as in the other order, if fewer than the cap of fresh ids were buffered in between and the window has not passed. |
| PendingResults.FloodEvictsAtTheCap | bp_sdk/correlation.py:109-124 | The bound is exact: under a flood of fresh ids the value survives precisely while fewer than the cap have come. |
| PendingResults.RebufferKeepsPlace | bp_sdk/correlation.py:109-124 | Buffering an id again replaces the value and keeps its place in the eviction order. |
| PendingResults.SettledForGood | bp_sdk/correlation.py:86-107 | A future settles at most once. |
| PendingResults.PendingMap.Register | bp_sdk/correlation.py:65-84 | A registration takes the buffered value if there is one, and else waits with the right deadline. |
| PendingResults.PendingMap.Resolve | bp_sdk/correlation.py:86-107 | Settles the waiting future or buffers the value, and says which. |
| PendingResults.PendingMap.RejectAll | bp_sdk/correlation.py:126-131 | Every waiting future is rejected, none remains, and the count is right. |
| PendingResults.PendingMap.ReapOnce | bp_sdk/correlation.py:156-185 | One reaper tick times out the due futures and drops the stale buffered values. |
| SessionLock.PresentGuardsShareOneLock | bp_agents/session_lock.py:66-86 | In every run all guards of a session that entered and did not exit share the table's one lock, and the refcount is their number. |
| SessionLock.OneInsidePerProcess | bp_agents/session_lock.py:104-141 | Within a process at most one guard of a session is past the local lock, expiries and Redis failures included. |
| SessionLock.NeverTouchesForeignKeys | bp_agents/session_lock.py:158-190 | A renewal or release that changes the key found its own token in it, however late its EXEC runs. |
| SessionLock.OwnKeyIsActedOn | bp_agents/session_lock.py:158-190 | Undisturbed, a renewal of the guard's own key keeps its token and a release removes it. |
| SessionLock.ExitHandsOver | bp_agents/session_lock.py:79-141 | An exit frees the local lock: a waiting guard of the same session and process could not take it before and can then. |
| SessionLock.OneInsideAnywhere | bp_agents/session_lock.py:104-190 | Across processes at most one guard is inside, of those that did not fail open and whose key did not expire under them. |
| SessionLock.ExclusiveWithoutLapses | bp_agents/session_lock.py:104-190 | In a run without expiry and without failing open, at most one guard of a session is inside anywhere. |
| SessionLock.SecondHolderExactlyWhen | bp_agents/session_lock.py:104-190 | While a guard is inside and nothing more happens to it, a guard of another process can come to hold the session's key if and only if the first failed open or its key lapsed. |
| SessionLock.SecondGuardEnters | bp_agents/session_lock.py:143-156 | From any reachable state some continuation without failing open gives another process the key, after at most one expiry. |
| SessionLock.FailOpenAdmitsTwo | bp_agents/session_lock.py:104-117 | A run without any expiry in which a guard that failed open and one that did not are inside together. |
| SessionLock.LapseAdmitsTwo | bp_agents/session_lock.py:143-156 | A run with one expiry in which two processes are inside together. |
| SessionLock.SessionLockManager.Acquire | bp_agents/session_lock.py:66-77 | Returns the session's lock, the existing one if there is one, and counts the guard. |
| SessionLock.SessionLockManager.Release | bp_agents/session_lock.py:79-86 | Drops one reference, and the lock with the last. |
| SessionLock.RedisKey.CompareAndAct | bp_agents/session_lock.py:158-190 | Under arbitrary interference between WATCH, GET and EXEC it acts exactly when GET found its own token and the key was neither modified nor gone at EXEC, then only on its own token, and otherwise leaves the key as it was. |
| StashNames.DisplayRoundTrip | bp_router/file_store.py:37-61 | Displaying and parsing a stash name are inverse, in both directions. |
| StashNames.ScopesDiffer | bp_router/file_store.py:52-55 | The persistent scope is no session's scope, and session scopes differ as sessions do. |
| StashNames.CandidateInjective | bp_router/file_store.py:64-70 | Numbered candidates of a name never collide with each other or with the name. |
| StashNames.CandidateShape | bp_router/file_store.py:64-70 | The counter stands before the last extension, or at the end of a name without one. |
| StashNames.CandidateValid | bp_router/file_store.py:64-70 | A numbered candidate of a valid file name is valid. |
| StashNames.GlobMeansGlob | bp_router/db/queries.py:913-933 | The LIKE pattern sent for a glob matches exactly what the glob means, its percent signs, underscores and backslashes being literal. |
| StashNames.GlobLiteral | bp_router/dispatch.py:1593-1597 | A pattern without a star stands for itself only, so the exact delete and the glob delete agree on it. |
| FileStore.AllocateBinds | bp_router/file_store.py:73-125 | The name handed back is bound to the blob, no other row changes, and the reported bytes are exactly the change in the user's usage. |
| FileStore.PolicyDecides | bp_router/file_store.py:95-125 | A name taken by another blob is refused under the refusing policy, repointed under overwriting, and counted up from to the least free candidate otherwise; a free name, or one that has the blob, is saved as it is under all three. |
| FileStore.AppendCountGivesUpOnlyWhenFull | bp_router/file_store.py:117-125 | Counting up takes the least free candidate, and gives up only in a scope that holds at least 1001 distinct names. |
| FileStore.Directory.AllocateName | bp_router/file_store.py:73-125 | Statement by statement it is the allocation function. With other writers in between, a name first found bound to another blob is refused without a write, overwritten, or counted up from, as the policy says; no saving but an UPDATE replaces a row, and each binds the name and counts its own bytes right; an UPDATE binds it exactly when the row is still there, and then counts right exactly when it still has the size that was read. |
| FileStore.DeletedUnderOverwrite | bp_router/file_store.py:109-115 | An overwrite whose row is deleted before its UPDATE answers that the name is saved, and leaves it unbound. |
| FileStore.Directory.CountBytes | bp_router/db/queries.py:991-1002 | The sum over the user's directory rows. |
| FileStore.CommandRespectsQuota | bp_router/dispatch.py:1434-1447 | A command that raises usage leaves it within the ceiling. |
| FileStore.QuotaHoldsInEveryRun | bp_router/file_store.py:128-146 | Over any sequence of commands usage at or under the ceiling stays there, and usage above it never grows. |
| Quota.BooksBalance | bp_router/dispatch.py:1434-1452 | Over any run of overlapping gates, allocations, reads and transactions of moves, and deletes, usage plus what is outstanding, came out short or was freed is what it was at first plus what gates let through and allocations added beyond that. |
| Quota.WithinCeilingExactlyWhen | bp_router/dispatch.py:1434-1452 | Every state of such a run is within the ceiling if and only if no allocation, of a move or of a gated command, adds more than the room there is when it runs. |
| Quota.OverrunBound | bp_router/dispatch.py:1434-1452 | Usage with everything outstanding exceeds the ceiling by at most what was outstanding when a gate let more through, plus what allocations added beyond their gates, moves included; without either it never does. |
| Quota.CommittingAllExceedsExactlyWhen | bp_router/dispatch.py:1434-1452 | From any state whose commands in flight are gated and for new, distinct names, committing them all in any order ends at usage plus their sizes; asked in full, that exceeds the ceiling exactly when usage plus what is outstanding does. |
| Quota.BurstAddsUp | bp_router/dispatch.py:1434-1452 | Any number of commands for new names, in any scopes and policies, each of which fits alone and whose gates all run first, all pass and end at usage plus the sum of their sizes. |
| Quota.CommandIsItsSteps | bp_router/dispatch.py:1402-1779 | A store, write, copy, move or delete run on its own is its gate and its allocation, its read and its transaction, or its one step, with nothing in between. |
| Quota.GatesCanOverrun | bp_router/dispatch.py:1434-1452 | Two blobs as large as the ceiling both pass the gate of an empty directory and overrun it. |
| Quota.IdempotentGateCanOverrun | bp_router/dispatch.py:1440-1442 | An idempotent store whose name is deleted before it allocates adds its whole blob to a full directory. |
| Quota.StaleMoveCanOverrun | bp_router/dispatch.py:1640-1673 | A move whose source is deleted after it was read adds its whole blob to a directory filled in between, though no gates overlapped. |
| Quota.MoveKeepsNamedExactlyWhen | bp_router/dispatch.py:1640-1673 | A blob keeps a name through a move's transaction exactly when it has one besides the source, or is the blob that was read and lands elsewhere. |
| Quota.StaleMoveTakesALastName | bp_router/dispatch.py:1640-1673 | A move deletes the only name of a blob that was stored over its source after it was read. |
| FileStore.Handlers.CheckQuota | bp_router/file_store.py:128-146 | The gate passes exactly when the addition is not positive, the level is uncapped, or the sum stays within the ceiling. |
| FileStore.MoveKeepsEveryBlobNamed | bp_router/dispatch.py:1640-1685 | A move never raises usage, and neither a move nor a copy takes the last name of any blob. |
| FileStore.DeleteRemovesExactly | bp_router/dispatch.py:1581-1608 | A delete removes exactly the names of its scope that its pattern stands for, leaves every other row as it was, and answers their number. |
| FileStore.SavedNameResolves | bp_router/dispatch.py:1449-1513 | The name a command answers parses, and resolves to the blob that was stored, written or copied. |
| FileStore.StoreAnswers | bp_router/dispatch.py:1418-1466 | A store fails for a missing blob, a bad name, no room or a taken name, in this order, and otherwise answers the name its policy saves under; the name asked for counts before the one uploaded with, and that before the id. |
| FileStore.WriteAnswers | bp_router/dispatch.py:1688-1779 | The same for an inline write, with its size limit; a refused name leaves the blob registered. |
| FileStore.CopyAnswers | bp_router/dispatch.py:1619-1685 | The same for a copy or move: only copies meet the quota, onto itself nothing changes, and the source is gone exactly after a move. |
| FileStore.Handlers.HandleStore | bp_router/dispatch.py:1402-1466 | The handler changes the directory and answers as the command says, in every error case too. |
| FileStore.Handlers.HandleWrite | bp_router/dispatch.py:1688-1779 | The same for inline writes, registering the blob when its hash is new. |
| FileStore.Handlers.HandleCopy | bp_router/dispatch.py:1619-1685 | The same for copies and moves; a copy onto itself deletes nothing. |
| BlobGc.SafeExactlyWhenNothingIsLost | bp_router/tasks.py:1884-1962 | However both halves of uploads, row deletions, re-checks and byte deletions of any number of sweeps interleave, no live row ever lacks its bytes if and only if no hash is deleted while a row inserted since its re-check is present, and no upload inserts a row whose stored bytes were deleted and not stored again. |
| BlobGc.SweepsNeverLoseBytes | bp_router/tasks.py:1884-1962 | If every upload of a hash has inserted its row before the re-check or stores its bytes after the deletion, no live row ever lacks its bytes; with nothing in hand and no upload given up, storage holds exactly what is referenced or on its way. |
| BlobGc.FileGc.SweepOnce | bp_router/tasks.py:1871-1962 | A sweep with repeated hashes and halves of uploads at every await, the gap included, deletes exactly the rows of its batch and leaves nothing dead in storage but what refused uploads left; rows and uploads lack at most hashes that were present or on their way when deleted. With none of either, storage is what is referenced or on its way. |
| BlobGc.StepSafeExactlyWhen | bp_router/tasks.py:1924-1954 | A byte deletion keeps every live row's bytes exactly when no row inserted since the re-check is present, an insert exactly when its upload's bytes are still stored or were stored again; every other step keeps them. |
| BlobGc.UploadInTheGapLosesBytes | bp_router/tasks.py:1924-1954 | A run in which an upload of the same bytes between re-check and deletion ends with a row and no bytes. |
| BlobGc.UploadAroundTheGapLosesBytes | bp_router/api/files.py:122-168 | A run in which an upload stores its bytes before the re-check and inserts its row after the deletion, and ends with a row and no bytes. |
| LlmCalls.IndexReplacesScan | bp_router/tasks.py:57-83 | In every run aborting tasks through the index cancels exactly what a scan of all calls would, no bucket is empty, and calls that sockets no longer hold were already cancelled. |
| LlmCalls.LlmTracker.Start | bp_router/dispatch.py:521-578 | A duplicate correlation id is refused exactly while its call runs; otherwise the new call is tracked under its slot and its task. |
| LlmCalls.LlmTracker.OnDone | bp_router/dispatch.py:580-598 | The callback removes this call only, from slot and index, and the bucket with its last member. |
| LlmCalls.LlmTracker.CancelSlot | bp_router/dispatch.py:374-379 | Cancels and forgets the one call under a slot, if it runs. |
| LlmCalls.LlmTracker.OnDisconnect | bp_router/ws_hub.py:914-917 | Cancels every running call of the socket and clears its map; the task index is untouched. |
| LlmCalls.LlmTracker.AbortTasks | bp_router/tasks.py:41-83 | Cancels what a scan would, and returns their number. |
| TextWindow.DecodeInvertsEncode | bp_sdk/file_tools.py:331-339 | The decoder inverts the encoding of section 3 of RFC 3629. |
| TextWindow.DecodeOnlyEncodings | bp_sdk/file_tools.py:331-339 | The decoder accepts nothing but encodings: overlong forms, surrogates and truncated characters fail. |
| TextWindow.FeedSplits | bp_sdk/file_tools.py:335-339 | Decoding a piece and keeping its incomplete tail loses nothing, wherever the piece was cut. |
| TextWindow.SliceTextFile | bp_sdk/file_tools.py:323-348 | For any read sizes the window is the substring of the whole decoding, with start and total right; it fails exactly when the bytes are not UTF-8. |
| TextWindow.ReadPage | bp_sdk/file_tools.py:370-398 | The page is the clamped window, and it reports the next offset exactly when characters remain. |
| TextWindow.PageThrough | bp_sdk/file_tools.py:390-398 | Following the reported offsets from 0 with any sizes ends and yields the whole text. |
| Supervision.OneBridgePerServer | bp_mcp_bridge/supervisor.py:224-298 | At every instant at most one unfinished bridge exists per server. |
| Supervision.CallbackStep | bp_mcp_bridge/supervisor.py:252-272 | A done-callback never evicts another task's entry. |
| Supervision.Supervisor.OnBridgeDone | bp_mcp_bridge/supervisor.py:252-272 | The callback is that step, and keeps the invariant. |
| Supervision.Supervisor.Stop | bp_mcp_bridge/supervisor.py:282-298 | The entry is gone and its task has finished, with anything else happening meanwhile. |
| Supervision.Supervisor.ReconcileRow | bp_mcp_bridge/supervisor.py:158-199 | One desired row ends served: started, restarted after its old bridge finished, signalled exactly when its refresh stamp advanced, or updated in place. |
| Supervision.Supervisor.ListServers | bp_mcp_bridge/supervisor.py:126-141 | When the listing arrives, the callbacks of all bridges that had finished before have run. |
| Supervision.Supervisor.ReconcileOnce | bp_mcp_bridge/supervisor.py:126-199 | After a pass every desired server is served by a bridge of equal configuration, or a bridge of that very configuration, which the pass never stops, finished during the pass; no other server is active. |
| Supervision.Supervisor.TearDownAll | bp_mcp_bridge/supervisor.py:300-308 | Nothing stays active and every bridge ever started has finished. |
| Acl.PatternMeaning | bp_router/acl.py:161-191 | The string matcher decides every legal pattern by its meaning; a prefix glob never matches the bare prefix. |
| Acl.LevelMeaning | bp_router/principals.py:30-78 | The string comparison decides every well-formed level by its meaning: a tier admits itself, stricter tiers, administrators and services; the other two admit only themselves, the star everyone. |
| Acl.RuleMeaning | bp_router/acl.py:231-272 | A well-formed rule applies exactly when its level, caller pattern and callee pattern all admit. |
| Acl.FirstRuleDecides | bp_router/acl.py:231-272 | The decision is the effect and the name of the first rule that applies; without one, and to oneself, it is denial. |
| Acl.IsAllowed | bp_router/acl.py:231-272 | The decision of the first matching rule, default deny, self-calls denied; the trace lists the rules considered with the reason each was skipped. |
| Acl.SortSpec | bp_router/acl.py:477-485 | Sorting orders by ord and loses nothing. |
| Acl.SortStable | bp_router/acl.py:477-485 | Rules of equal ord keep their order. |
| Acl.CustomSort | bp_agents/acl.py:100-103 | Selecting the custom rules and sorting commute. |
| Acl.RuleSet.Replace | bp_router/acl.py:484-485 | The evaluator's list is the sorted permutation of what it is given. |
| Acl.MergePreservingCustom | bp_agents/acl.py:87-109 | The body is custom rules in order followed by the suite, with ords 0 to n-1. |
| Acl.MergeDecides | bp_agents/acl.py:87-109 | After any merge the decision is the first matching custom rule's in its old order, else the suite's, else denial; self-calls are denied. |
| Acl.MergeIdempotent | bp_agents/acl.py:87-109 | Merging what a merge stored yields the same body: a second boot changes nothing. |
| Acl.SuiteOrderIrrelevant | bp_agents/acl.py:1-9 | Permuting an allow-only suite never changes a verdict. |
| Acl.SuiteAllows | bp_agents/acl.py:16-44 | The shipped rules are all named and all allow. |

## Left out

- SQL, Redis, S3, HTTP and WebSocket I/O: atomic steps on abstract state; unexpected database errors and log-and-continue handlers are not modelled, except the unhandled dispatch error that leaves a new task queued.
- Purging users and sessions, which deletes task rows: not modelled, so "no row disappears" is about the task lifecycle alone.
- Renaming an evicted agent (`bp_router/db/queries.py:1898-1935`), which rewrites the agents of task rows but not the destinations in their delegation events: not modelled, so what is said of unchanging agents and of trails is about the task lifecycle alone.
- RouterTasks.Router.AwaitAck: a failed dispatch ends the new row only; the cascade over rows its destination put below it by then is that of `RouterTasks.Router.FailTask` and is not repeated.
- Deliveries of planned Result and Cancel frames: best effort, they may be dropped on a full outbox or a missing socket.
- The depth limits, quotas and levels are constants of a run.
- `caller_agent_cache` and `BoundedLRUDict`: the cache does not agree with the row across the read-then-backfill gap of `_handle_progress`.
- FileStore.QuotaHoldsInEveryRun: commands of one user run one at a time; overlapping ones are the subject of `Quota`, where each allocation is one step.
- FileStore.MoveKeepsEveryBlobNamed: one move or copy with nothing in between; a stale move can raise usage (`Quota.StaleMoveCanOverrun`) or take a last name (`Quota.StaleMoveTakesALastName`), and `Quota.MoveKeepsNamedExactlyWhen` says when it takes none.
- FileStore.SavedNameResolves: the name resolves when the command ends; nothing runs between its reads and its allocation, and a stale move may delete the name afterwards.
- FileStore.Handlers.HandleStore: the gate's reads and the allocation are one piece; `FileStore.Directory.AllocateName` and `Quota` have other commands in between.
- FileStore.Handlers.HandleWrite: the same.
- FileStore.Handlers.HandleCopy: the same, the read of a move's source included.
- Directory listing and stat, ILIKE case folding, and Unicode normalisation of names.
- BlobGc.SweepsNeverLoseBytes: speaks of runs in which no upload of a hash spans its re-check or its deletion, since the code does not keep them out.
- BlobGc.FileGc.SweepOnce: row deletions are serial, and no name is bound to an expired blob during the sweep; in the code either leaks bytes and loses none.
- Cancellation of a session guard while it is entering: the code does not undo its refcount, and the model does not cover it.
- SessionLock.OneInsideAnywhere: leaves out guards that failed open or whose key lapsed; for them exclusion across processes is false.
- Fairness of the local lock, renewal timing and Redis time: expiry is a step that may come at any moment.
- Sending and re-queueing frames in the send loop, and the order of frames within an outbox.
- The done-callback of a call that finished is run by the event loop at some later step; when is not modelled.
- Exceptions while a bridge is built, and cancellation of the supervisor while it waits in a stop; the custom-agent half of the supervisor has the same shape and is not repeated.
- Acl.PatternMeaning: about patterns the rule validator admits; the evaluator itself is modelled on any strings.
- JWT, OIDC, onboarding, admin pages, settings validation, LLM providers, metrics, tracing and audit rows.
