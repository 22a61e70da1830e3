# Verified models of the NooBaa operator

This project models six parts of the NooBaa operator in Dafny and proves what they promise, for all
inputs, all runs and all interleavings:

1. **The multiplexed RPC connection** (`Rpc*.dfy`): one websocket shared by callers, a reader, closers
   and reconnectors, as a transition system with one step per critical section, channel operation or
   network outcome, plus the critical sections on the objects themselves and the message framing.
2. **The lease-guarded PID-1 wrapper** (`Leader*.dfy`): any number of pods, each with its signal
   handler, leading callback and reaper, on a global clock, against an elector given only by its contract.
3. **The endpoint-update saga** (`Saga*.dfy`): pause, patch, update, resume, with rollback, for every set
   of failing writes, keeping the server's copy of a store apart from the in-memory object.
4. **The PostgreSQL reconciler** (`Db*.dfy`, `PgTune.dfy`, `Retention.dfy`): the desired specification and
   its change detector, runs of reconciles, memory tuning, snapshot retention.
5. **Quota arithmetic** (`Quota*.dfy`): the lossy value/unit encoding, the narrowing of two limits, the usage check.
6. **The PV pool** (`PvPool.dfy`, `PodTemplate.dfy`): matching claims to pods, and the staleness test.

Where the source changes state step by step, the model does too (classes and loops), and each such
method is proved to compute a specification function about which the theorems are then stated.  The
critical sections of the RPC objects are proved to be steps of the transition system instead
(`RpcRefine.dfy`), and the exit-code calls are judged over their whole history.

Places where the code does less than its documentation or its comments promise are proved as such,
with the exact condition under which the promise does hold:

- `connection update` promises that a failed step rolls everything back; a store whose patch write is
  the first write to fail still holds the new endpoint in memory and is written with it when its pause
  is removed (`PatchFailedIff`, `OneFailedPatchMoves`, `FailingRun`), and a pause from before the
  command is lost (`AbortRestoresIff`).
- A request whose send failed stays registered; when the connection closes and its response was
  already read, the reader blocks for ever.  Exactly these readers do (`ReaderFinishesIff`,
  `LeftForGood`, `ReaderCanBeLeft`), and nothing else is left stuck (`QuiescentShape`) once the
  goroutines come to rest, as they do unless dials keep failing (`ComesToRest`, `RedialsForever`).
- The leader timing rules cover loss of the lease only: with a signal before the loss, or before the
  child's PID is published, two children can run at once (`SafeIffTiming`).  Apart from the early
  signal, such a run needs an elector whose Run lingers after the loss, as its contract allows: the
  process is PID 1 and takes its child along when Run returns.
- The code for a lost lease is read when the elector's Run returns, which nothing makes wait for the
  callback that sets it: a loss ends in success exactly when Run returns first (`LossCodeIff`,
  `LossCanLookOk`).
- A body of the largest size the reader accepts does not fit the connection's read limit together
  with its header (`FrameRoundTrip`, `LargestBodyLost`).
- A bucket claim with a limit of zero or less lifts a positive class limit, and a negative class limit
  lifts a claim's (`ClassObjectsEnforcedIff`, `ClaimSizeEnforcedIff` and so on, `LimitsLifted`), and the warning that raising a quota does not help is silent in one case where it would be true (`RaisingHelpsIff`).
- A volume size that does not parse is accepted at creation and then fails every later reconcile
  (`CreatedStuckIff`, `StuckFromStart`, `SecondReconcileFailsIff`); withdrawn tolerations and parameters
  of the database keep their last value, and tolerations go away only by giving an empty list
  (`WithdrawnTolerationsStay`, `TolerationsGoneIff`, `WithdrawnParameterStays`).
- The count guard of the PV pool can overlook claims without a pod (`GuardBlindIff`), and pods it has
  just deleted count as attached in its report (`HealthyButShortIff`).
- The pod staleness test compares the affinity of the specification with itself (`AffinityDrift`); the
  toleration superset test is not reflexive for every toleration (`ReflexiveIff`, `BuiltStaleIff`) and
  ignores how long a toleration without an effect lasts (`LastsForAllIff`).

## Model

| member | source | states |
|---|---|---|
| RpcSafety.StepKeepsInv | pkg/nb/rpc_ws.go:62-214 | every step of every goroutine keeps the protocol invariant over locks, pending maps, reply channels and the address map |
| RpcSafety.ReachableInv | pkg/nb/rpc_ws.go:62-214 | the invariant holds in every state any schedule reaches from the empty one |
| RpcTheorems.NoStrandedWaiter | pkg/nb/rpc_ws.go:74-132 | every registered request has had a reply, is owed one by a HandleResponse that removed it, or is pending on a connection that is open or whose closer will wake it |
| RpcTheorems.StepMovesForward | pkg/nb/rpc_ws.go:99-132 | one step never moves a connection backwards from connected or closed, and registers nothing on a closed one |
| RpcTheorems.RunMovesForward | pkg/nb/rpc_ws.go:99-214 | the same over any schedule |
| RpcTheorems.CloserNeverBlocks | pkg/nb/rpc_ws.go:168-200 | in every reachable state each wake-up send of a closer finds a free slot |
| RpcTheorems.LockOrder | pkg/nb/rpc.go:184-217 | the holder of the map lock can always release it at once; whoever asks for a connection lock holds none |
| RpcTheorems.ConnMapIntegrity | pkg/nb/rpc.go:184-217 | RemoveConnection runs at most once per connection, finds its own entry, starts one reconnect; closed and mapped exactly while the closer holds the lock; at most one open connection per address |
| RpcTheorems.UnblockedCanStep | pkg/nb/rpc_ws.go:161-200 | a goroutine that waits for no lock and no channel can always move |
| RpcTheorems.QuiescentShape | pkg/nb/rpc_ws.go:74-94 | when nothing can move, no lock is held, and every goroutine is done, waits for an answer on an open connection, or is a reader left behind on an abandoned channel |
| RpcTheorems.LeftForGood | pkg/nb/rpc_ws.go:366-378 | a reader that is left behind stays blocked in every continuation |
| RpcTheorems.ReaderFinishesIff | pkg/nb/rpc_ws.go:366-378 | in every reachable state some schedule brings a reader that is about to deliver to its end, if and only if not both its caller gave up after a failed send and the close error fills the slot |
| RpcTheorems.ReaderCanBeLeft | pkg/nb/rpc_ws.go:74-94 | a schedule from the empty state that does leave a reader behind, so the excluded case of the previous row is reachable |
| RpcProgress.StepCosts | pkg/nb/rpc_ws.go:62-214 | every step uses up one unit of a potential over goroutines and connections, except what a spawn or a failed dial puts in |
| RpcProgress.RunBounded | pkg/nb/rpc_ws.go:62-214 | over any run, steps taken plus potential left are at most the potential at the start plus what was put in |
| RpcProgress.StepsPerRequest | pkg/nb/rpc_ws.go:62-214 | every run from the empty state has at most 15 steps for each goroutine spawned and 8 for each failed dial |
| RpcProgress.NoEndlessRun | pkg/nb/rpc_ws.go:62-214 | without spawns and failed dials no run is longer than the potential it starts from |
| RpcProgress.ComesToRest | pkg/nb/rpc_ws.go:62-214 | from wherever a run has got to, the goroutines left to themselves reach a state in which nothing can move, which QuiescentShape describes |
| RpcProgress.AtRestIff | pkg/nb/rpc_ws.go:62-214 | nothing can move exactly where no step without a spawn or a failed dial is left |
| RpcProgress.AnswerReachesCaller | pkg/nb/rpc_ws.go:366-378 | in every reachable state a caller waiting on a connection that is up and unlocked is done five steps after its response arrives, whatever else is pending |
| RpcProgress.RedialsForever | pkg/nb/rpc.go:203-217 | failed dials cannot be left out of the bound: one request can reconnect as often as one likes |
| RpcConn.Connection.NewRequest | pkg/nb/rpc_ws.go:203-214 | registers an empty one-slot channel of its own under the next id; every pending channel stays empty and unshared |
| RpcConn.Connection.TakePending | pkg/nb/rpc_ws.go:366-370 | removes exactly the answered request, after which no pending entry shares its channel |
| RpcConn.Connection.WakeAll | pkg/nb/rpc_ws.go:192-196 | every pending channel receives the close error, and no send could have blocked |
| RpcConn.Connection.CloseUnderLock | pkg/nb/rpc_ws.go:168-200 | a first close stops the pings, shuts an open socket, wakes every waiter, leaves the pending map as it was, unmaps only itself and starts a reconnect; a second does nothing |
| RpcConn.Connection.ConnectUnderLock | pkg/nb/rpc_ws.go:99-132 | dials only from the initial state after waiting out the reconnect delay; success opens the socket and starts one reader and the pings; a failed dial wakes every waiter, leaves the map and closes for good |
| RpcConn.Connection.Reconnect | pkg/nb/rpc_ws.go:62-71 | waits the full delay exactly before a first dial, and leaves the connection connected or closed |
| RpcConn.Connection.BeginCall | pkg/nb/rpc_ws.go:74-87 | registers exactly one request on a connected connection, or registers nothing on a closed one, where a failed dial has also woken every waiter and left the map |
| RpcConn.Rpc.GetConnection | pkg/nb/rpc.go:184-200 | returns the mapped connection or a new one, mapped only for a websocket address |
| RpcConn.Rpc.RemoveConnection | pkg/nb/rpc.go:203-217 | evicts only the connection itself and reconnects unless another has taken the address |
| RpcRefine.CloseRun | pkg/nb/rpc_ws.go:168-200 | from every state of the invariant with the map lock free, the whole close is a run of the closer: it wakes exactly the pending requests, unmaps exactly its own entry, and changes nothing else shared |
| RpcRefine.CallStep | pkg/nb/rpc_ws.go:74-87 | the step of a caller with the lock of a connection that is up: whatever else is pending it registers exactly one request, its own; on a closed connection, and for a reconnector, none |
| RpcRefine.Net.CallRegisters | pkg/nb/rpc_ws.go:74-87 | the locked part of Call, on a connection that is up or can dial, is a run of the caller that registers the next request and goes on to send it |
| RpcRefine.Net.TakePending | pkg/nb/rpc_ws.go:366-370 | the critical section of HandleResponse is one step of the reader, and hands out the channel that the step goes on to send on |
| RpcRefine.Net.SendReply | pkg/nb/rpc_ws.go:371-378 | the send that ends HandleResponse is one step, possible while the slot is free |
| RpcRefine.Net.ReceiveReply | pkg/nb/rpc_ws.go:88-94 | the receive that ends Call is one step, and yields what was sent |
| RpcRefine.Net.ReconnectSucceeds | pkg/nb/rpc_ws.go:62-71 | Reconnect, on a connection that is up or can dial, is a run that ends unlocked and registers nothing |
| RpcRefine.Net.TooLate | pkg/nb/rpc_ws.go:99-107 | on a closed connection Call and Reconnect are the step that only unlocks |
| RpcRefine.Net.GetConnection | pkg/nb/rpc.go:184-200 | for websocket addresses GetConnection is one step, which goes on to lock the connection returned |
| RpcRefine.Net.RemoveConnection | pkg/nb/rpc.go:203-217 | RemoveConnection is one step, which starts a reconnect goroutine exactly where the method does |
| RpcRefine.Net.Close | pkg/nb/rpc_ws.go:168-200 | closing on request, and closing after a failed dial in Call or Reconnect, end in the state of that run of steps |
| RpcFrame.PutGet | pkg/nb/rpc_ws.go:230-238 | big-endian words read back as written |
| RpcFrame.Reader.ReadBody | pkg/nb/rpc_ws.go:283-312 | reads what Decode says of the bytes the read limit lets through, and stops right after the header when it refuses |
| RpcFrame.FrameRoundTrip | pkg/nb/rpc_ws.go:217-312 | a written body reads back if and only if it is within the size limit and fits the read limit with its header |
| RpcFrame.LargestBodyLost | pkg/nb/rpc_ws.go:121-124 | a body of exactly RPCMaxMessageSize is lost under SetReadLimit(RPCMaxMessageSize) |
| RpcFrame.RefusedOnHeader | pkg/nb/rpc_ws.go:298-303 | wrong version or oversized length is refused on the first eight bytes alone, and with which error |
| RpcFrame.SetBuffers | pkg/nb/rpc.go:114-122 | cuts the bytes as specified by Cut, and fails where the original panics |
| RpcFrame.CutIffFits | pkg/nb/rpc.go:114-122 | the cut exists exactly when all lengths are non-negative and together fit |
| RpcFrame.CutConcat | pkg/nb/rpc.go:114-122 | the pieces have the stated lengths and concatenate to a prefix |
| RpcFrame.ReadMessage | pkg/nb/rpc_ws.go:283-333 | header, body, decoding and buffers together compute Receive, for any JSON decoder and any spare capacity |
| RpcFrame.ReceivedIff | pkg/nb/rpc_ws.go:283-333 | exactly when a message is returned, refused, or panics because it announces more buffers than there are bytes |
| RpcFrame.MessageRoundTrip | pkg/nb/rpc_ws.go:217-333 | a frame followed by its buffers comes back as the decoded message with exactly those bytes in its buffers |
| LeaderSafety.TakeoverSafety | pkg/leaderelect/leaderelect.go:161-169 | with safe timings, at most one pod has a live child in any reachable state, and it is stopped strictly before its last renewal plus LeaseDuration |
| LeaderSafety.StepKeepsInv | pkg/leaderelect/leaderelect.go:327-395 | every step of any pod keeps the timed invariant behind it |
| LeaderRuns.SafeIffTiming | pkg/leaderelect/leaderelect.go:161-169 | takeover safety holds if and only if the graces are below LeaseDuration minus RenewDeadline: LostGrace without signals, ShutdownGrace too with signals after the publish, never with signals at any time |
| LeaderRuns.ValidateIsExact | pkg/leaderelect/leaderelect.go:151-180 | Validate accepts exactly the configurations that are safe without signals; the defaults are not safe once a signal precedes the loss |
| LeaderProgress.ValidateIff | pkg/leaderelect/leaderelect.go:151-180 | exactly which configurations are accepted, and which error comes first |
| LeaderRuns.LeaseTooShortUnsafe | pkg/leaderelect/leaderelect.go:161-165 | a run with two children when the lease is not longer than the renew deadline |
| LeaderRuns.LostGraceUnsafe | pkg/leaderelect/leaderelect.go:166-169 | a run with two children when LostGrace reaches the bound |
| LeaderRuns.ShutdownGraceUnsafe | pkg/leaderelect/leaderelect.go:375-386 | a run with two children when a loss follows a signal and ShutdownGrace reaches the bound |
| LeaderRuns.EarlySignalUnsafe | pkg/leaderelect/leaderelect_unix.go:57-66 | a run with two children, for every configuration, when the signal precedes the publish |
| LeaderHandshake.StopHandshake | pkg/leaderelect/leaderelect.go:343-360 | once termination is requested and a PID published, in either order, its group has been or is being sent SIGTERM before time passes |
| LeaderHandshake.CancelAfterStop | pkg/leaderelect/leaderelect.go:226-232 | if the handler saw the PID, cancel follows only the reaping, or SIGKILL plus the kill wait |
| LeaderHandshake.ShutdownInTime | pkg/leaderelect/leaderelect.go:62-69 | the handler cancels within ShutdownGrace plus the kill wait, so the recommended grace period leaves the release margin |
| LeaderHandshake.GraceStarts | pkg/leaderelect/leaderelect.go:343-390 | once the callback sends SIGTERM the deadline is a full grace away: ShutdownGrace for a child published too late, LostGrace for a lost lease |
| LeaderHandshake.HandlerGraceStarts | pkg/leaderelect/leaderelect.go:226-232 | once the handler does, a full ShutdownGrace |
| LeaderHandshake.CallbackKillsLate | pkg/leaderelect/leaderelect_unix.go:57-90 | the callback sends SIGKILL only when a grace has run out |
| LeaderHandshake.HandlerKillsLate | pkg/leaderelect/leaderelect_unix.go:57-90 | so does the signal handler |
| LeaderProgress.NeverStuck | pkg/leaderelect/leaderelect.go:327-395 | in every state some goroutine can move, or a loss is due, or time can pass |
| LeaderProgress.SelectEither | pkg/leaderelect/leaderelect.go:362-376 | a select takes any case that is ready, either one when both are |
| LeaderProgress.LeadsOn | pkg/leaderelect/leaderelect.go:327-361 | a pod that renews in time leads on, its child alive, for any number of renewals |
| LeaderProgress.HandsOver | pkg/leaderelect/leaderelect.go:220-258 | for every configuration the ordinary shutdown returns success, and another pod takes the lease at once and starts its child |
| LeaderProgress.ChildCodeReturned | pkg/leaderelect/leaderelect.go:366-374 | for every configuration and code, a child that exits by itself makes the process return that code |
| LeaderExit.ExitCode | pkg/leaderelect/leaderelect.go:256-258 | on every run, what an unsignalled process can have ended with, and that a finished one has its child's code, a configuration error without a child, or the code for a loss exactly when it did not cancel the election itself; after the handler it is success unless a loss was reported |
| LeaderExit.UnsignalledCode | pkg/leaderelect/leaderelect.go:256-258 | the exact code at the return of Run without a signal: after its own cancel the child's or a configuration error, else a loss if the callback has forced it, else success |
| LeaderExit.SignalledCodeIff | pkg/leaderelect/leaderelect.go:226-232 | from the handler's write on, through any run, Run returns into the code for a loss if the callback forced it after that write, and into success otherwise |
| LeaderExit.ShutdownReturnsOk | pkg/leaderelect/leaderelect.go:226-232 | in particular without a loss a signalled process returns success |
| LeaderExit.LossCodeIff | pkg/leaderelect/leaderelect.go:375-395 | after a loss without signal or cancel, Run returns into the code for a loss if and only if the callback has forced it by then, and into success otherwise |
| LeaderExit.LossCanLookOk | pkg/leaderelect/leaderelect.go:256-258 | for every configuration a run in which a lost lease ends the process with success and a live child |
| LeaderExit.LossCanBeSeen | pkg/leaderelect/leaderelect.go:387-395 | for every configuration a run in which it ends with the code for a loss, the child down |
| LeaderReaper.ZeroOnlyOnCleanExit | pkg/leaderelect/leaderelect_unix.go:47-55 | the exact exit code of a wait status; only a clean exit maps to 0, and a signal to more than 128 |
| LeaderReaper.ReportIsFirst | pkg/leaderelect/leaderelect_unix.go:19-45 | the reported code is that of the first deciding wait result |
| LeaderReaper.NoReportWithout | pkg/leaderelect/leaderelect_unix.go:19-45 | nothing is reported exactly while neither the main child nor an error has shown up |
| LeaderReaper.Runner.WaitAndReap | pkg/leaderelect/leaderelect_unix.go:19-45 | reaps up to the first error, closes the channel exactly once, and keeps the reported code whatever is reaped later |
| LeaderReaper.Runner.GetExit | pkg/leaderelect/leaderelect.go:301-325 | over the whole history of calls, in whatever order the goroutines made them: the last forced code, else the first one set, else success |
| LeaderReaper.CallsDecide | pkg/leaderelect/leaderelect.go:301-325 | the same verdict holds of any interleaving of the calls in the transition system |
| Saga.StorePassCount | pkg/connection/connection.go:451-510 | how far a store loop gets, which writes succeeded, and that it leaves the core alone |
| Saga.StorePassAt | pkg/connection/connection.go:451-510 | each reached store is edited in memory, and on the server exactly when its own write succeeded |
| Saga.ConnPassAt | pkg/connection/connection.go:149-164 | each reached connection has the endpoint and its own type exactly when its write succeeded |
| Saga.EndpointLaws | pkg/connection/connection.go:274-304 | which endpoint a store has by its type, that an edit sets it and nothing else, and that pausing and unpausing do what they say |
| SagaRun.MatchingExact | pkg/connection/connection.go:182-211 | the matched stores are exactly the listed ones on the endpoint, each once |
| SagaRun.MatchingInOrder | pkg/connection/connection.go:182-211 | and in the order of the list |
| SagaRun.RollbackAt | pkg/connection/connection.go:515-568 | with working writes, rollback puts the old endpoint into the patched stores and unpauses all |
| SagaRun.AbortRestoresStores | pkg/connection/connection.go:123-165 | wherever a run aborts, with working clean-up every matched store is on its old endpoint and unpaused, otherwise as it was, except the one whose patch write failed, which ends on the new endpoint |
| SagaRun.AbortRestoresCore | pkg/connection/connection.go:123-165 | wherever a run aborts, with working clean-up the core's connections are all as they were |
| SagaTheorems.AbortRestoresIff | pkg/connection/connection.go:481-510 | with working clean-up an aborted run puts a store back on its endpoint, unpaused and otherwise unchanged, if and only if that store's own patch write is not the first of all writes to fail, or both endpoints are equal; it is the very store from before if and only if besides it was not paused before |
| SagaTheorems.PatchFailedIff | pkg/connection/connection.go:123-147 | a run fails at a store's patch exactly when every write before it succeeds and that one fails |
| SagaTheorems.OutcomeIff | pkg/connection/connection.go:123-169 | how a validated run ends, exactly, by the first of its writes to fail: pauses, patches, connections |
| SagaTheorems.RefusedChangesNothing | pkg/connection/connection.go:92-119 | a run stops before its first write exactly when nothing matched or the validation failed, and then nothing at all has changed |
| SagaTheorems.OneFailedPatchMoves | pkg/connection/connection.go:481-510 | from every start, one failed patch write and nothing else leaves that store on the new endpoint after the rollback |
| SagaTheorems.FailingRun | pkg/connection/connection.go:481-510 | a concrete world and failure where this happens |
| SagaTheorems.UnmatchedUntouched | pkg/connection/connection.go:182-211 | for any failures at all, a store that did not match is untouched |
| SagaTheorems.CommitStores | pkg/connection/connection.go:123-169 | a finished run leaves every matched store on the new endpoint, changed in nothing else but the pause annotation, which is gone exactly when its write succeeded |
| SagaTheorems.CommitCore | pkg/connection/connection.go:149-164 | a finished run moves exactly the connections on the old endpoint, keeping their types |
| SagaTheorems.NothingLeftOnOld | pkg/connection/connection.go:78-175 | from the listing to the end: a finished run leaves no store and no connection on the old endpoint |
| SagaTheorems.PausedThroughout | pkg/connection/connection.go:123-169 | for any failures, writes come in the order pause, patch, connect, revert, unpause, and every patch, connection or revert write finds all matched stores paused on the server |
| SagaTheorems.NeverCorrupts | pkg/connection/connection.go:515-568 | even with failing clean-up, a matched store ends on one of the two endpoints and differs in nothing else but the pause annotation |
| SagaCommand.FindMatchingStores | pkg/connection/connection.go:182-211 | the filtering loop returns exactly the matching stores in list order |
| SagaCommand.FindConnections | pkg/connection/connection.go:250-272 | lists each connection on the endpoint once, with its type, whatever accounts repeat it |
| SagaCommand.ValidateStores | pkg/connection/connection.go:219-243 | reports exactly the matched stores that do not pass on the new endpoint |
| SagaCommand.Session.SetPauseAnnotation | pkg/connection/connection.go:451-479 | stops at the first failed pause, never while unpausing; computes the store pass |
| SagaCommand.Session.PatchEndpoints | pkg/connection/connection.go:481-510 | computes the patch pass and returns the prefix it wrote |
| SagaCommand.Session.UpdateConnections | pkg/connection/connection.go:149-164 | computes the connection pass |
| SagaCommand.Session.DoRollback | pkg/connection/connection.go:515-568 | computes the specified rollback |
| SagaCommand.Session.Execute | pkg/connection/connection.go:78-175 | from the matched stores on, looking the connections up only after the patches, computes the specified run and outcome; with nothing matched or a failed validation nothing changes |
| SagaCommand.Session.Command | pkg/connection/connection.go:78-175 | the whole command, flags to outcome, computes the specified run on the stores it found; refused flags, no match and a failed validation change nothing; when it finishes nothing is left on the old endpoint |
| DbCluster.DesiredIsMet | pkg/system/db_reconciler.go:261-368 | unless it is refused, the written specification follows every input: label, catalog, sizes, class, access mode, affinity, tolerations, monitoring, certificates, backup, and each parameter by user setting before TLS before calculation; it keeps what the operator does not own |
| DbCluster.FailsIffRefused | pkg/system/db_reconciler.go:261-368 | it fails exactly for a missing storage class, a size that does not parse, or a backup without a volume snapshot |
| DbCluster.Fixpoint | pkg/system/db_reconciler.go:261-368 | reconciling the cluster specification twice with the same inputs equals once |
| DbCluster.DetectorExact | pkg/system/db_reconciler.go:921-936 | the change detector fires exactly when the reconcile altered the specification |
| DbCluster.SecondReconcileFailsIff | pkg/system/db_reconciler.go:812-852 | a second reconcile fails exactly when the requested size does not parse |
| DbCluster.OverridesTakeEffect | pkg/system/db_reconciler.go:656-664 | every override reads back, everything else is kept, an empty override never adds a key |
| DbCluster.OverridesIdempotent | pkg/system/db_reconciler.go:656-664 | applying the overrides twice equals once |
| DbCluster.TunedIsWritten | pkg/system/db_reconciler.go:592-664 | for the real operator, unless TLS or the user overrides it, a calculated setting is written, and a fixed default where none is calculated |
| DbCluster.ResourcesRead | pkg/system/db_reconciler.go:592-634 | the memory and CPUs the calculation starts from: the limit, else the request, else 16GB and 4 CPUs |
| DbRuns.GoesThroughIff | pkg/system/db_reconciler.go:145-248 | exactly when the desired specification ends up on the server |
| DbRuns.RefusedReconcile | pkg/system/db_reconciler.go:145-160 | a reconcile that fails before writing leaves everything alone |
| DbRuns.RecoveryWaits | pkg/system/db_reconciler.go:383-408 | while pods run or cannot be stopped a recovery only reports that it is pending |
| DbRuns.NotReadyYet | pkg/system/db_reconciler.go:145-248 | the exact state after a create or update that is not ready yet |
| DbRuns.CreatedCluster | pkg/system/db_reconciler.go:161-223 | a created cluster has the requested size and starts from the snapshot, or empty under the restricted security context |
| DbRuns.ReadyReport | pkg/system/db_reconciler.go:75-104 | a ready cluster is reported with the size it has and any recovery as completed |
| DbRuns.ReadyBackup | pkg/system/db_reconciler.go:435-469 | a ready cluster has its scheduled backup once the schedule converts, and loses it when the backup is withdrawn |
| DbRuns.ReadyPrunes | pkg/system/db_reconciler.go:503-555 | of the listed snapshots a ready reconcile keeps exactly the newest, the recovery one and failed deletes, and what it reports as available is there |
| DbRuns.UpdatingOnlyFromReady | pkg/system/db_reconciler.go:254-259 | the status becomes Updating only from Ready, by a written change |
| DbRuns.RecoveryCreation | pkg/system/db_reconciler.go:383-432 | a recovery cluster is created only with zero pods running and the scheduled backup removed |
| DbRuns.RecoveryStartsAlone | pkg/system/db_reconciler.go:161-223 | the same for the whole reconcile, with the snapshot asked for |
| DbRuns.RecoveryNeverSnapshotted | pkg/system/db_reconciler.go:52-104 | in every run, no scheduled backup exists while a recovered cluster has not been ready |
| DbRuns.RecoverySnapshotKept | pkg/system/db_reconciler.go:503-555 | in every run the snapshot to recover from survives all pruning |
| DbRuns.SizeIsRunningMax | pkg/system/db_reconciler.go:831-849 | over any reconciles of one cluster its size is the running maximum of the sizes requested and applied |
| DbRuns.UnparsableSizeSticks | pkg/system/db_reconciler.go:831-849 | a cluster whose recorded size does not parse is never written again |
| DbRuns.CreatedIff | pkg/system/db_reconciler.go:161-223 | whether a new cluster is created does not depend on its size: exactly on the catalog, the create call, a storage class and a backup that can be set up |
| DbRuns.CreatedStuckIff | pkg/system/db_reconciler.go:812-852 | no reconcile ever changes a cluster that was created if and only if the size it was created with does not parse |
| DbRuns.StuckFromStart | pkg/system/db_reconciler.go:812-852 | so from the start, with such a size, the cluster is created and then the same after any reconciles |
| DbRuns.WithdrawnTolerationsStay | pkg/system/db_reconciler.go:297-311 | tolerations that are withdrawn keep their value: they change only when an applied reconcile gives some |
| DbRuns.TolerationsAreLastGiven | pkg/system/db_reconciler.go:309-311 | after any reconciles the tolerations are the list, empty or not, of the last applied one that gave a list |
| DbRuns.TolerationsGoneIff | pkg/system/db_reconciler.go:309-311 | the tolerations of a cluster go away if and only if an applied reconcile gives an empty list and none after it gives any |
| DbRuns.WithdrawnParameterStays | pkg/system/db_reconciler.go:656-664 | a parameter keeps its value through any reconciles that do not set it |
| DbRuns.ParameterIsLastSet | pkg/system/db_reconciler.go:656-664 | after any reconciles a parameter has the value of the last applied one that set it |
| DbRuns.SteadyIsQuiet | pkg/system/db_reconciler.go:145-248 | after a reconcile went through, the next one with the same inputs writes nothing |
| DbRuns.SteadyStaysQuiet | pkg/system/db_reconciler.go:145-248 | the same for every later reconcile of a run with the same inputs, whatever snapshots are taken meanwhile |
| DbReconciler.Reconciler.ApplyOverrides | pkg/system/db_reconciler.go:656-664 | the loop, in any order, computes the specified parameters |
| DbReconciler.Reconciler.SetDesiredStorageConf | pkg/system/db_reconciler.go:812-852 | computes the desired storage or fails exactly where it should |
| DbReconciler.Reconciler.ReconcileClusterSpec | pkg/system/db_reconciler.go:261-368 | computes the desired specification |
| DbReconciler.Reconciler.ReconcileClusterRecovery | pkg/system/db_reconciler.go:383-432 | computes the specified recovery step |
| DbReconciler.Reconciler.ReconcileDbCluster | pkg/system/db_reconciler.go:145-248 | creates, updates or leaves the cluster as specified |
| DbReconciler.Reconciler.ReconcileBackupRetention | pkg/system/db_reconciler.go:503-555 | prunes and reports as specified, or leaves everything alone when there is no maximum or no listing |
| DbReconciler.Reconciler.ReconcileDbBackup | pkg/system/db_reconciler.go:435-469 | sets up or removes the scheduled backup as specified, then prunes |
| DbReconciler.Reconciler.Reconcile | pkg/system/db_reconciler.go:52-104 | one reconcile, backups and retention included, computes the specified step of a run |
| PgTune.MemoryBound | pkg/system/db_reconciler.go:725-731 | shared_buffers plus all work_mem grants fit in memory if and only if the 4MB floor did not apply |
| PgTune.Fractions | pkg/system/db_reconciler.go:677-702 | a quarter, three quarters, a sixteenth up to 8GB, and 3% of the shared buffers between 32kB and 16MB |
| PgTune.ConnectionsSuffice | pkg/system/db_reconciler.go:786-794 | when the three core processes and every endpoint pod stay within their pools, three connections are left for the superuser, and with full pools no smaller maximum would leave them |
| PgTune.MoreMemory | pkg/system/db_reconciler.go:672-731 | more memory never lowers a memory setting |
| PgTune.MoreSessions | pkg/system/db_reconciler.go:725-731 | more endpoints or workers never raise work_mem |
| PgTune.CpuThreshold | pkg/system/db_reconciler.go:704-724 | from below four CPUs to four up to seven work_mem never falls, from eight on it never rises, and it rises exactly when the new quotient exceeds both the old one and the 4MB floor |
| PgTune.RaiseNeedsMemory | pkg/system/db_reconciler.go:704-731 | such a raise needs fewer than eight CPUs and more than 4MB for every share of the memory |
| PgTune.WalKeepRange | pkg/system/db_reconciler.go:759-779 | wal_keep_size stays between 1GB and 16GB and grows with the volume |
| PgTune.SharedBuffersRead | pkg/system/db_reconciler.go:677-679 | shared_buffers, by name and as PostgreSQL reads it, is the quarter of Fractions |
| PgTune.EffectiveCacheRead | pkg/system/db_reconciler.go:681-682 | effective_cache_size is its three quarters |
| PgTune.MaintenanceRead | pkg/system/db_reconciler.go:684-689 | maintenance_work_mem is its capped sixteenth |
| PgTune.WalBuffersRead | pkg/system/db_reconciler.go:691-702 | wal_buffers is its 3% within bounds |
| PgTune.WorkMemRead | pkg/system/db_reconciler.go:725-731 | work_mem is the number of WorkMemIs |
| PgTune.WalKeepRead | pkg/system/db_reconciler.go:733-779 | wal_keep_size is the number of WalKeepIs |
| PgTune.CountSettings | pkg/system/db_reconciler.go:704-724 | max_connections and the worker settings, by name; none of the latter below four CPUs |
| PgTune.WorkMemIs | pkg/system/db_reconciler.go:725-731 | work_mem is what the shared buffers leave, for three grants to every connection and worker, or 4MB |
| PgTune.WalKeepIs | pkg/system/db_reconciler.go:759-779 | wal_keep_size is 12% of the volume within its range, or 6GB when the size is unknown |
| PgTune.FormatRoundTrip | pkg/system/db_reconciler.go:743-755 | every printed memory setting reads back as the same number of kB |
| PgTune.UnitForDivides | pkg/system/db_reconciler.go:743-755 | the printed unit divides the value exactly |
| PgTune.FormatInjective | pkg/system/db_reconciler.go:743-755 | different settings print differently |
| Retention.FilterByName | pkg/system/db_reconciler.go:577-583 | the listing keeps exactly the snapshots of the scheduled backup |
| Retention.ListOrderByCreate | pkg/system/db_reconciler.go:558-590 | the listing holds exactly the snapshots of the scheduled backup, ordered by creation |
| Retention.DeleteOldest | pkg/system/db_reconciler.go:523-545 | the loop deletes exactly the doomed names of the oldest, and the total and the available list keep up with it |
| Retention.ReconcileBackupRetention | pkg/system/db_reconciler.go:503-555 | for any maximum and failing deletes, computes the plan whose meaning the next three rows state |
| Retention.PlanKeeps | pkg/system/db_reconciler.go:519-545 | the newest and the recovery snapshot stay, any other survivor is one whose delete failed, and nothing outside the list is touched |
| Retention.PlanReports | pkg/system/db_reconciler.go:519-555 | the total is the list less what was deleted; available are the newest in order and last an older recovery snapshot |
| Retention.DeletedHasNewer | pkg/system/db_reconciler.go:503-590 | from the unsorted items, for any order by creation the sort picks: a snapshot is deleted only if it belongs to the scheduled backup, is not the one to recover from, and at least the maximum of others as new or newer are kept |
| Retention.ReconcileRetention | pkg/system/db_reconciler.go:503-590 | listing, ordering and deleting composed |
| QuotaUnits.DivideDown | pkg/nb/types.go:860-865 | the unit loop ends with the largest unit not above the value and the exact quotient |
| QuotaUnits.GetBytesAndUnits | pkg/nb/types.go:855-873 | returns the scaled value and its unit for every int64, never leaving the unit table |
| QuotaUnits.UnitIndexBounds | pkg/nb/types.go:860-865 | the chosen unit is the largest power of 1024 not above the value |
| QuotaUnits.UnitIndexSmall | pkg/nb/types.go:859-865 | no int64 needs a unit beyond E |
| QuotaUnits.EncodingBound | pkg/nb/types.go:877-913 | decoding an encoded positive limit succeeds, never exceeds it, and is short by less than a hundredth of the unit plus one half |
| QuotaUnits.SmallExact | pkg/nb/types.go:877-913 | below 1024 bytes nothing is lost |
| QuotaUnits.EncodeIsScaled | pkg/obc/provisioner.go:717-720 | the encoding is what GetBytesAndUnits returns with two decimals |
| QuotaUnits.BigIntExact | pkg/nb/types.go:916-921 | the two-word form is exact for every uint64; the int64 sum printed from it only below 2^63 |
| QuotaUnits.BigIntJson | pkg/nb/types.go:147-166 | decoding inverts encoding |
| QuotaPipeline.BuildQuotaConfig | pkg/obc/provisioner.go:656-727 | the stepwise narrowing computes the specified quota or error |
| QuotaPipeline.ObjectQuotaIsMinimum | pkg/obc/provisioner.go:682-724 | with both object limits positive, whatever the sizes, the built object quota is their minimum |
| QuotaPipeline.SizeQuotaWithinMinimum | pkg/obc/provisioner.go:682-724 | with both sizes positive, whatever the object limits, the built size quota decodes to at most their minimum, short by less than a hundredth of the unit plus one half |
| QuotaPipeline.BuiltIffParses | pkg/obc/provisioner.go:656-712 | a quota is built exactly when every limit that is set parses |
| QuotaPipeline.ClassObjectsEnforcedIff | pkg/obc/provisioner.go:656-724 | the quota that is built caps the objects at a positive class limit exactly when the claim sets none or a positive one |
| QuotaPipeline.ClassSizeEnforcedIff | pkg/obc/provisioner.go:656-724 | the same for the size, in the bytes that the built quota decodes to |
| QuotaPipeline.ClaimObjectsEnforcedIff | pkg/obc/provisioner.go:656-724 | the quota that is built caps the objects at a positive claim limit exactly when the class sets none or a non-negative one |
| QuotaPipeline.ClaimSizeEnforcedIff | pkg/obc/provisioner.go:656-724 | the same for the size, in the bytes that the built quota decodes to |
| QuotaPipeline.LimitsLifted | pkg/obc/provisioner.go:656-724 | a class of 5 with a claim of 0, and a class of -1 with a claim of 5, build no quota at all |
| QuotaPipeline.FitsIff | pkg/nb/quota.go:50-96 | for a bucket that is not a namespace bucket the check accepts exactly when every limit covers the usage |
| QuotaPipeline.RefusalNames | pkg/nb/quota.go:50-96 | which limit a refusal names, and with which numbers |
| QuotaPipeline.WarnsIffCapped | pkg/nb/quota.go:12-47 | for a bucket of known capacity it warns exactly when a quota one byte smaller would leave the same space available, and then no larger quota makes more available |
| QuotaPipeline.RaisingHelpsIff | pkg/nb/quota.go:12-47 | raising the quota makes more space available exactly when it does not warn and the quota does not end exactly where the free space does |
| QuotaPipeline.IsEqualIff | pkg/nb/types.go:376-385 | equality that takes a missing quota for an empty one |
| QuotaPipeline.BuiltDecodes | pkg/obc/provisioner.go:717-724 | every quota that is built decodes to a positive size and a positive count |
| QuotaPipeline.SentIff | pkg/obc/provisioner.go:614-653 | an update is sent exactly when class and bucket exist, the limits parse, the quota differs from the one in force and covers the usage, and the core accepts; the bucket then holds that quota, and otherwise nothing changes |
| QuotaPipeline.SentCoversUsage | pkg/obc/provisioner.go:614-653 | a quota sent for a non-namespace bucket is at least its object count and byte usage |
| QuotaPipeline.SecondUpdateQuiet | pkg/obc/provisioner.go:631-633 | repeating an update that went through sends nothing |
| QuotaPipeline.Core.Update | pkg/obc/provisioner.go:614-653 | the update computes the specified outcome and bucket |
| PvPool.GuardExact | pkg/backingstore/reconciler.go:1096-1101 | if pods mount distinct listed claims, the count guard fires exactly when some claim has no pod |
| PvPool.LackingCount | pkg/backingstore/reconciler.go:1096-1101 | for every pool, the claims without a pod are as many as the difference of the counts plus the duplicate and orphaned pods |
| PvPool.GuardBlindIff | pkg/backingstore/reconciler.go:1096-1101 | the guard overlooks claims without a pod exactly when there are some but no more than duplicate and orphaned pods |
| PvPool.OrphanHidesClaim | pkg/backingstore/reconciler.go:1096-1101 | the smallest pool where it does |
| PvPool.PodNamesDistinct | pkg/backingstore/reconciler.go:1114-1118 | pods of generated claims share a name only for the same claim |
| PvPool.ClaimPostfix | pkg/backingstore/reconciler.go:1297-1298 | the part after the last dash of a generated claim is its random part |
| PvPool.ReconcileKeeps | pkg/backingstore/reconciler.go:1294-1306 | whatever is created, deleted as stale or fails, the pool stays valid, no claim is dropped, and none is made beyond NumVolumes |
| PvPool.ClaimsReached | pkg/backingstore/reconciler.go:1294-1306 | the claims afterwards are the old ones and exactly those drawn whose create works; with fresh draws there are NumVolumes |
| PvPool.PodsReached | pkg/backingstore/reconciler.go:1105-1161 | exactly which claims have a pod afterwards, whatever creates and deletes fail |
| PvPool.NoTemplateNoPods | pkg/backingstore/reconciler.go:1109-1111 | without a pod template that is needed no pod is created or deleted |
| PvPool.ReconcileMatches | pkg/backingstore/reconciler.go:1071-1103 | a reconcile whose pod creates succeed ends in a one-to-one match but for exactly the stale pods it deleted |
| PvPool.PoolRecovers | pkg/backingstore/reconciler.go:1071-1103 | in every run from an empty pool the guard is exact, and the next reconcile that can create its pods and finds none stale restores the match, on NumVolumes claims or more if it can create those too |
| PvPool.PoolFills | pkg/backingstore/reconciler.go:1071-1103 | an empty pool that can create everything ends with exactly NumVolumes matched claims and pods |
| PvPool.PoolReconciler.ReconcileMissingPvcs | pkg/backingstore/reconciler.go:1294-1306 | the creation loop computes the specified claims |
| PvPool.PoolReconciler.ReconcileMissingPods | pkg/backingstore/reconciler.go:1105-1126 | the creation loop computes the specified pods |
| PvPool.PoolReconciler.ReconcileExistingPods | pkg/backingstore/reconciler.go:1128-1161 | removes exactly the stale pods among those listed at the start whose delete works, and reports on the listed ones as Assess says |
| PvPool.PoolReconciler.ReconcilePvPool | pkg/backingstore/reconciler.go:1071-1103 | claims, pods and stale pods in order compute the specified pool and ending |
| PvPool.HealthyIff | pkg/backingstore/reconciler.go:1128-1161 | the reconcile ends without an error exactly when NumVolumes of the listed pods are attached or stale |
| PvPool.ReportIs | pkg/backingstore/reconciler.go:1145-1161 | which error it is otherwise |
| PvPool.InNoobaaIff | pkg/backingstore/reconciler.go:1308-1315 | a pod counts as attached when some agent has its name with anything behind it |
| PvPool.HealthyButShortIff | pkg/backingstore/reconciler.go:1128-1161 | so it does although fewer than NumVolumes attached pods are left exactly when stale pods that are gone or were never attached make up the difference |
| PvPool.HealthyWhileEmpty | pkg/backingstore/reconciler.go:1128-1161 | the smallest case: the only pod is stale and deleted, and the pool counts as healthy |
| PodTemplate.ReflectEnvVariable | pkg/util/util.go:2074-2093 | the scan computes the specified overwrite, append or removal |
| PodTemplate.ReflectLookup | pkg/util/util.go:2074-2093 | afterwards the variable reads as the given value or is absent, and every other one as before |
| PodTemplate.UpdateLogEnv | pkg/backingstore/reconciler.go:1320-1327 | the loop sets exactly the two log variables |
| PodTemplate.OverridesHonoured | pkg/backingstore/reconciler.go:1458-1472 | for any profile and overrides the built resources satisfy the overrides |
| PodTemplate.ReflexiveIff | pkg/util/util.go:2008-2038 | a copy of a toleration covers it exactly for a known operator or without seconds |
| PodTemplate.SupersetSound | pkg/util/util.go:2008-2038 | whatever the superset test accepts tolerates every taint that the other does |
| PodTemplate.LastsForAllIff | pkg/util/util.go:2008-2038 | under NoExecute a toleration outlasts everything it is accepted for if and only if it has no seconds, has an effect, or has an unknown operator: one without an effect may evict sooner |
| PodTemplate.BuiltStaleIff | pkg/backingstore/reconciler.go:1185-1292 | a pod just built and admitted is judged stale under the same specifications if and only if some toleration has an unknown operator and seconds and no other entry covers it |
| PodTemplate.NoChurn | pkg/backingstore/reconciler.go:1317-1414 | with operators the API server accepts, a pod just built and admitted is never stale |
| PodTemplate.UnadmittedStaleIff | pkg/backingstore/reconciler.go:1224-1240 | before admission has filled in the pull secrets of the service account, those are the one further difference |
| PodTemplate.AffinityDrift | pkg/backingstore/reconciler.go:1256-1279 | a changed affinity is noticed exactly when one side has none |
| PodTemplate.StaleIffNoticed | pkg/backingstore/reconciler.go:1163-1292 | building under one specification and checking under another: the exact differences that replace the pods (proxy and log variables, image, priority class, pull secrets, presence of an affinity, label, CPU and memory overrides against what was built, uncovered tolerations) and no others |
| PodTemplate.BuiltResources | pkg/backingstore/reconciler.go:1394-1426 | the built resources are the override where given for CPU or memory, the profile elsewhere, with requests within limits |
| PodTemplate.BuiltCarries | pkg/backingstore/reconciler.go:1317-1414 | the built pod carries the affinity, labels, pull secret, tolerations, image and priority class of the specification |
| PodTemplate.StaleIffUnlike | pkg/backingstore/reconciler.go:1163-1292 | for any pod whatever: it is not stale exactly when it looks like the one that would be built in all the test reads, has the overridden resources, covers the tolerations and has the pull secrets |

## Left out

- The leader elector itself (client-go) is not part of this model: it is the contract at the head of `LeaderElect.dfy`: loss reported within RenewDeadline of the last renewal, takeover by expiry no earlier than LeaseDuration after it, early release only after a cancel, and a Run that returns at any moment from the loss or the cancel on.
- LeaderSafety.TakeoverSafety: the wrapper's own steps take no time, and a child counts as stopped once it is reaped or its group has been sent SIGKILL, because scheduling delay and signal delivery are the kernel's.
- LeaderRuns.SafeIffTiming: assumes a non-negative RenewDeadline, which every configuration that Validate accepts has.
- The RPC transition system: request ids are unbounded naturals, so uint64 wrap-around of the id counter is not modelled; a response with an unknown or foreign id is one that matches no pending id.
- HTTP connections: `RpcConn` creates them as unmapped connections and models nothing further of them.
- JSON encoding: the decoder of message bodies is a parameter of the frame model.
- RpcFrame.FrameRoundTrip: the read limit is a parameter, taken to count the whole websocket message as the library documents; its code is not part of this model.
- The ping loop: it is one of the callers of Close, which the environment may start at any time.
- The saga: other writers of the same stores (resource-version conflicts) and crashes of the command are outside, and so is the panic of `KubeUpdate` on an error that is not an API status (pkg/util/util.go:616), which ends the command without a rollback; whether secrets can be read and which stores pass validation are inputs; system info is taken to list each connection the same under every account.
- The database specification: its theorems hold for any parser of quantities and any calculated parameters (`Host`); `Operator` is the real one. API-server defaulting and normalisation of quantities, which can make a read-back specification differ from the one written; fields the operator never touches are opaque; quantities are whole bytes.
- DbRuns.SizeIsRunningMax: about sizes requested by reconciles that went through; a reconcile whose write failed changes nothing.
- Image catalog, PDB alert silencer, backup status times, `convertToSixFieldCron`: easy members; whether the schedule converts is an input.
- Retention.ListOrderByCreate: one of the orders by creation; the theorems hold for whichever the original's unstable sort picks.
- IEEE rounding in the quota code: all float64 arithmetic is in exact reals.
- QuotaPipeline.WarnsIffCapped: the bucket is given; the optional read of a missing bucket is not modelled.
- int64 overflow outside the two-word integers: quantities are taken to be int64 values already.
- The PV pool: claims that other tools put under the pool's label; the fetch of the agent configuration before the listing.
- PodTemplate.BuiltStaleIff: admission is taken to copy the service account's pull secrets into a pod that names none; topology spread and volumes are not modelled.
- Command-line handling, admission validators, autoscaling, OLM, diagnostics, COSI and account reconcilers, external-connection parameters: plumbing without deep properties.
