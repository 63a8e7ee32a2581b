# Verified models of isekai-terminal's decision logic

Dafny 4.11 models of the parts of `rust-core` that decide something, with proofs of what they
promise. `dafny verify dfyconfig.toml` checks everything.

| Part | Files |
|---|---|
| Shared SSH connections: reference counts, idle timers, waiting for another tab's attempt | `IdleLedger`, `ConnectionPool`, `PoolProtocol`, `PoolTheorems`, `OrphanTimers` |
| Wi-Fi / cellular rebind machine and its driver | `RebindManager`, `RebindDriver`, `RebindRuns`, `RebindTheorems`, `RebindTimers`, `StabilityFlag` |
| Reconnect reducer, publication queue, stale-event guards | `ReconnectFsm`, `ReconnectRuns`, `ReconnectDecisions`, `ReconnectTimeout`, `ReconnectWakes`, `PublicationQueue`, `Orchestrator`, `OrchestratorRuns`, `StagedStates`, `SessionSlot` |
| APC interceptor and Kitty graphics transfers | `ApcInterceptor`, `KittyGraphics`, `KittyPayloads`, `GraphicsStream` |
| Quiet-traffic statistic | `TrafficStats` |
| Shell quoting, and file preview requests from client to remote helper | `FilePreview`, `Numerals` |
| SSH agent strings, messages and frame loop | `AgentForward` |

Each mutable object of the source is a class whose methods are proved equal to functions on its
value. Concurrent behaviour is a state machine over those functions: every critical section is one
step, any enabled step may come next, and the theorems quantify over all runs.

The main results:

- **Pool.** In every interleaving of tabs and timers the reference counts are exact, a held entry is
  never removed, an idle entry never leaks, a connecting entry has exactly one establisher, every
  waiter gets the verdict of the establisher that created its channel and uses the value if there is
  one, a ready attachment is the latest published value, and a ready value stays until one of three
  events ends it. A timer removes an entry it was not armed for if and only if it outlived an earlier
  entry of the key; otherwise an idle entry stays for its whole grace.
- **Rebind.** Against arbitrary events at arbitrary times, a return to Wi-Fi happens exactly when an
  outside observer's own books justify it; every timer with its deadline, the quiet watch and every
  probe follow from those books; probing cannot stall; rebinds alternate.
- **Orchestrator.** Callbacks start in staging order with at most one drainer, for any number of
  threads and with re-entrant and panicking callbacks. Composed with the reducer and its guards,
  the connection edges that reach the user interface are well paired in every interleaving, and each
  established edge was staged by the session that was current at that moment.
- **Reconnect.** A disconnect starts a loop exactly when the session was connected, the user did not
  ask for it and the remote end did not exit by itself. What each event shows is spelled out.
  Attempts never overlap and loops never overlap. A running loop always has its task, retries in step,
  and gives up exactly when the timers expired since its clock started reach the time-out. A restored
  network path is passed on exactly when no connection is being made or used and a loop is active; the
  wake it stores becomes an attempt, or stays pending until it does or the loop stops, exactly when
  the running loop's task takes it.
- **Terminal graphics.** The byte-at-a-time interceptor agrees with a whole-stream parser that looks
  ahead; the bytes of a payload decide which image is placed or deleted; a chunked transfer equals the
  single transfer, also as a stream of APC strings between texts.
- **Wire and shell text.** Quoting, the shell with its tilde expansion, and the helper's own argument
  parser compose to the identity on requests, with the exact exceptions; agent strings and frames
  read back.

## Where code and documentation differ

- `pool_idle_fsm.rs:14-18` describes an ABA case as known behaviour. If the timers of a key fire in
  the order in which they were armed (one constant grace per pool), it cannot occur
  (`PoolTheorems.OrderedTimersNeverHitALaterEntry`); if a timer may overtake an older one, it does
  (`PoolTheorems.OvertakingTimerHitsALaterEntry`); `OrphanTimers.RemovalHitsALaterEntryIff` says
  exactly when.
- `rebind_manager.rs:129-130` says that the stability flag means an expiry without a failure in
  between. The failure branch at `rebind_manager.rs:230-233` resets only the counter, and
  `give_up_round` at 299-311 leaves the window armed. `StabilityFlag.FlagLosesItsMeaningIff` names
  the two kinds of step that break the meaning, with a run for each
  (`StabilityFlag.ReturnWithoutStabilityAfterFailure`, `StabilityFlag.FlagSetByBrokenWindow`).
- `orchestrator.rs:784-791` wants a network loss to leave later sessions alone. The state is compared
  under the lock, but the disconnect at line 802 takes whatever session is stored by then:
  `SessionSlot.StoredSessionIsDisconnectedIff`, and a run that hits a later session
  (`SessionSlot.LossHitsALaterSession`).
- `reconnect_fsm.rs:283-284` wants a network wake that arrives during an attempt to lead to a retry
  right after it. The reducer keeps such a wake, but `orchestrator.rs:1937-1942` does not send it one
  while the attempt's session is being made (`ReconnectWakes.RestoredPathDroppedDuringAttempt`), and
  the sleeping task of a stopped loop can swallow one
  (`ReconnectWakes.StoppedLoopSwallowsTheWake`). `ReconnectWakes.RestoredPathBecomesAttemptIff` says
  exactly when a restored path becomes an attempt.
- `orchestrator.rs:1358-1364` says that an early wake does not distort the accounting of the time-out.
  It leaves the account alone, so wakes closer together than one tick postpone giving up for ever
  (`ReconnectTimeout.WakesAlonePostponeGivingUp`).
- `file_preview.rs` promises that a quoted path arrives as an argument. It does, but the helper's
  `cat` takes the paths `--offset` and `--length` for its flags and rejects the command, and a leading
  tilde is left to the shell on purpose (`FilePreview.RequestArrivesIff`).

## Model

| member | source | states |
|---|---|---|
| `IdleLedgerFsm.IdleLedger.FirstHolder` | rust-core/src/pool_idle_fsm.rs:54-60 | a new ledger has one holder and generation zero |
| `IdleLedgerFsm.IdleLedger.Update` | rust-core/src/pool_idle_fsm.rs:71-94 | new counters and effects of every event, with saturation and wrap-around |
| `IdleLedgerFsm.ExpiryRemovesIffTokenIsCurrent` | rust-core/src/pool_idle_fsm.rs:71-94 | after any history an expiry removes the entry iff it carries the token of the latest armed timer and nobody attached since; otherwise it changes nothing |
| `IdleLedgerFsm.TokenIsGenerationOfIdleLedger` | rust-core/src/pool_idle_fsm.rs:71-94 | the token of the last armed timer, unless somebody attached since, is the generation exactly while nobody holds the entry |
| `IdleLedgerFsm.CountersStayInRange` | rust-core/src/pool_idle_fsm.rs:71-94 | after any history the counters fit their 32 and 64 bits |
| `PoolTable.ConnectionPool.constructor` | rust-core/src/pool.rs:56-60 | a new pool is empty |
| `PoolTable.ConnectionPool.TryAttachWith` | rust-core/src/pool.rs:79-112 | attach: create, wait, reuse a live value or replace a dead one, with the ledger updated in the same critical section |
| `PoolTable.ConnectionPool.Succeed` | rust-core/src/pool.rs:130-146 | publishes a new value to the entry and its channel |
| `PoolTable.ConnectionPool.Fail` | rust-core/src/pool.rs:148-161 | publishes a failure and leaves a dead entry |
| `PoolTable.ConnectionPool.MarkDead` | rust-core/src/pool.rs:166-176 | only the same value is marked dead |
| `PoolTable.ConnectionPool.UpdateIdle` | rust-core/src/pool.rs:219-259 | a release or expiry updates the ledger, removes the entry or arms a timer |
| `PoolProtocol.StepKeepsInv` | rust-core/src/pool.rs:79-259 | every step of every client and every timer keeps counts exact, one establisher per connecting entry, waiters served, values allocated and idle entries timed |
| `PoolProtocol.RunKeepsInv` | rust-core/src/lib.rs:1704-1764 | that invariant in every state of every interleaving of the client programs |
| `PoolTheorems.HeldEntriesAreNeverRemoved` | rust-core/src/pool.rs:219-259 | refcount equals the number of holders, every tab's entry exists, and an entry disappears only when a timer with its current generation fires while nobody holds it |
| `PoolTheorems.IdleEntryWillBeCollected` | rust-core/src/pool.rs:264-281 | an entry without holders always has a pending timer that removes it after at most the grace |
| `PoolTheorems.QuiescentPoolIsEmpty` | rust-core/src/pool.rs:264-281 | when all tabs are done and all timers fired, in any order, nothing is left |
| `PoolTheorems.ConnectingIffOneEstablisher` | rust-core/src/pool.rs:88-110 | an entry is connecting iff exactly one tab is its unpublished establisher, and a publication touches only its own entry and its own channel |
| `PoolTheorems.OrderedTimersNeverHitALaterEntry` | rust-core/src/pool_idle_fsm.rs:14-18 | with ordered timers an entry is removed only by the timer of its own latest release-to-zero, and no timer of that key is then pending |
| `PoolTheorems.OvertakingTimerHitsALaterEntry` | rust-core/src/pool_idle_fsm.rs:14-18 | a run in which an overtaken timer removes a later entry of the same key |
| `OrphanTimers.RunKeepsAccounts` | rust-core/src/pool.rs:219-281 | in every run a pending timer either belongs to the present entry of its key or is older than that entry's own timer |
| `OrphanTimers.RemovalHitsALaterEntryIff` | rust-core/src/pool_idle_fsm.rs:14-18 | in every run, ordered or not, the removing timer is not the one of the entry's latest release-to-zero iff it was still pending right after an earlier removal of the same key |
| `OrphanTimers.EntryStaysForItsGrace` | rust-core/src/pool.rs:219-281 | an idle entry stays for at least the grace after its latest release, unless the removing timer was still pending right after an earlier removal of the key |
| `OrphanTimers.OrderedTimersKeepTheGrace` | rust-core/src/pool.rs:264-281 | with ordered timers it always stays that long |
| `PoolTheorems.CreationIsUnique` | rust-core/src/pool.rs:88-110 | a channel is created by one attach only |
| `PoolTheorems.WaiterGetsItsEstablishersVerdict` | rust-core/src/pool.rs:115-161 | a waiter that wakes always finds a verdict, published by the tab whose attach created its channel, whatever happened to the entry meanwhile; it uses the very value published, or only releases after a failure |
| `PoolTheorems.WaitersAgree` | rust-core/src/pool.rs:115-128 | all waiters on a channel see the same verdict |
| `PoolTheorems.PublisherSharesItsValue` | rust-core/src/isekai_pipe_quic_transport.rs:724-769 | the publisher uses the value that it put into the entry and sent to its waiters, or only releases after a failure |
| `PoolTheorems.AttachFollowsTheEntry` | rust-core/src/lib.rs:1704-1764 | a tab uses the live ready value, waits on the attempt under way or makes its own, exactly as the entry tells |
| `PoolTheorems.ReadyValueIsTheLatest` | rust-core/src/pool.rs:130-176 | a ready entry holds the value of the latest publication for its key, not marked dead since |
| `PoolTheorems.ReadyAttachReturnsTheLatestLiveValue` | rust-core/src/pool.rs:97-108 | a ready attachment is that value, alive at that moment |
| `PoolTheorems.ReadyEndsIff` | rust-core/src/pool.rs:79-176 | across any run a ready value is gone iff a step marked that very value dead, attached while it was not alive, or fired the current timer of the unheld entry; marking an older value never disturbs it |
| `RebindMachine.RebindManager.constructor` | rust-core/src/rebind_manager.rs:141-153 | starts on Wi-Fi with all counters reset |
| `RebindMachine.RebindManager.HandleNoViablePath` | rust-core/src/rebind_manager.rs:185-201 | failover and its actions and timers |
| `RebindMachine.RebindManager.HandleProbeSucceeded` | rust-core/src/rebind_manager.rs:203-219 | manual return, or a counted success |
| `RebindMachine.RebindManager.HandleProbeFailed` | rust-core/src/rebind_manager.rs:221-240 | manual request dropped, counter reset, or round abandoned |
| `RebindMachine.RebindManager.MaybeEnterWaitingQuiet` | rust-core/src/rebind_manager.rs:242-264 | waiting begins when all three conditions hold |
| `RebindMachine.RebindManager.CompleteAutomaticReturn` | rust-core/src/rebind_manager.rs:273-297 | return to Wi-Fi, everything reset |
| `RebindMachine.RebindManager.AbandonRound` | rust-core/src/rebind_manager.rs:299-311 | the round ends and the next back-off step is armed |
| `RebindMachine.RebindManager.HandleEvent` | rust-core/src/rebind_manager.rs:333-342 | new state and response to every event |
| `RebindMachine.RebindManager.HandleTimeout` | rust-core/src/rebind_manager.rs:344-383 | new state and response to every timer expiry |
| `RebindLoop.RebindDriver.DispatchResponse` | rust-core/src/rebind_driver.rs:139-184 | armed timers, quiet watch, published states and requested rebinds after a response, in order |
| `RebindLoop.RebindDriver.Run` | rust-core/src/rebind_driver.rs:108-137 | one turn of the event loop |
| `RebindRuns.StepKeepsInv` | rust-core/src/rebind_manager.rs:185-383 | every possible input keeps machine, timers, watch and outputs in agreement with an outside observer |
| `RebindRuns.RunKeepsInv` | rust-core/src/rebind_driver.rs:108-184 | that agreement in every state of every run |
| `RebindTheorems.StepSeenFromOutside` | rust-core/src/rebind_manager.rs:333-383 | what a step publishes and rebinds follows from inputs and earlier outputs alone |
| `RebindTheorems.WifiReturnIsJustified` | rust-core/src/rebind_manager.rs:203-297 | a rebind to Wi-Fi happens iff a probe success is the first result after a manual request or quiet is reported while waiting; then dwell, five successes, a stability expiry in this round (of a window perhaps armed earlier), no failure while waiting and sixty seconds since the failover all hold |
| `RebindTheorems.WaitingIffHysteresisSatisfied` | rust-core/src/rebind_manager.rs:242-264 | waiting is announced iff the three hysteresis conditions come to hold off Wi-Fi |
| `RebindTheorems.TimersFollowThePhase` | rust-core/src/rebind_manager.rs:185-319 | on Wi-Fi nothing is armed or watched; off Wi-Fi exactly one of probe and back-off timer is armed, dwell is armed until it expires, and quiet-wait, watch and waiting coincide |
| `RebindTheorems.AbandonedRoundBacksOff` | rust-core/src/rebind_manager.rs:299-311 | the k-th abandoned round since the last return arms back-off step min(k, 3) |
| `RebindTheorems.BackoffNeverDecreases` | rust-core/src/rebind_manager.rs:175-183 | back-offs do not get shorter until a return to Wi-Fi |
| `RebindTheorems.OutputsAlternateInEveryRun` | rust-core/src/rebind_manager.rs:185-311 | rebinds alternate from cellular on, the last published state is the phase, no state is published twice in a row |
| `RebindTimers.DriverFollowsBooks` | rust-core/src/rebind_manager.rs:185-383 | in every run each step changes all armed timers and deadlines, the watch, the outputs and the started probes exactly as the observer's books tell; a probe is started exactly by the failover, the probe timer, the back-off and a manual request |
| `RebindTimers.NextProbeIsDue` | rust-core/src/rebind_manager.rs:344-383 | in every state off Wi-Fi a timer that starts a probe is due in at most ten seconds, or ten minutes during a back-off |
| `RebindTimers.StrayExpiriesPassThrough` | rust-core/src/rebind_manager.rs:344-383 | exactly the expiries without use are passed through, and change nothing |
| `RebindTimers.EveryInputIsConsumed` | rust-core/src/rebind_manager.rs:333-383 | no run has such an expiry |
| `StabilityFlag.DeadlineFollowsBooks` | rust-core/src/rebind_manager.rs:203-311 | the stability window is armed exactly by the counted success that begins a streak; its expiry, a return and a counted failure outside the wait disarm it, an abandoned round does not |
| `StabilityFlag.FlagLosesItsMeaningIff` | rust-core/src/rebind_manager.rs:129-130 | in every run the flag stops meaning "expired with no failure since it was armed" exactly by a counted failure outside the wait while it is set, or by an expiry with no success counted and a counted failure since the last wait was announced |
| `StabilityFlag.ReturnWithoutStabilityAfterFailure` | rust-core/src/rebind_manager.rs:230-233 | a run that returns to Wi-Fi on a flag older than the last failure |
| `StabilityFlag.FlagSetByBrokenWindow` | rust-core/src/rebind_manager.rs:299-311 | a run in which a window that outlived an abandoned round sets the flag with a counted failure inside it |
| `Publications.PublicationQueue.Stage` | rust-core/src/orchestrator.rs:986-1048 | items are appended in order |
| `Publications.PublicationQueue.TryElect` | rust-core/src/orchestrator.rs:1053-1075 | a caller becomes the drainer iff nobody drains and something is queued |
| `Publications.PublicationQueue.Take` | rust-core/src/orchestrator.rs:1075-1098 | the head is taken, or draining ends on an empty queue |
| `Publications.PublicationQueue.Flush` | rust-core/src/orchestrator.rs:1053-1098 | with callbacks that stage more and one that may panic: nothing is lost or reordered, draining ends, and without a panic nothing is left; nothing happens if another caller drains |
| `PublicationProtocol.StepKeepsInv` | rust-core/src/orchestrator.rs:1053-1098 | every step of every thread keeps one drainer, well-shaped stacks and the order |
| `PublicationProtocol.CallbacksStartInStagingOrder` | rust-core/src/orchestrator.rs:952-969 | started callbacks, then the drainer's item, then the queue are the staging order; at most one drainer; with re-entrancy and panics |
| `PublicationProtocol.FinishedThreadsLeaveNothingQueued` | rust-core/src/orchestrator.rs:1105-1204 | when all threads have finished and no callback panicked since some staging step, everything ever staged has been started |
| `ReconnectFsm.ApplyKeepsEdges` | rust-core/src/reconnect_fsm.rs:439-793 | every event keeps the emitted edges well paired |
| `ReconnectFsm.EstablishedGenerationsIncrease` | rust-core/src/reconnect_fsm.rs:87-88 | in a well-paired sequence a generation is established at most once and only after all earlier ones |
| `ReconnectFsm.OpenEdgeMeansConnected` | rust-core/src/reconnect_fsm.rs:560-568 | an edge is open only while connected |
| `ReconnectRuns.AttemptStartsAlone` | rust-core/src/reconnect_fsm.rs:737-793 | an attempt starts only in the live loop and with none in flight |
| `ReconnectRuns.AttemptsNeverOverlap` | rust-core/src/reconnect_fsm.rs:278-282 | between two attempts of any run, the first one ended |
| `ReconnectRuns.LoopsNeverOverlap` | rust-core/src/reconnect_fsm.rs:275-277 | between two loops of any run, the first one was stopped |
| `ReconnectRuns.PendingWakeStartsAttempt` | rust-core/src/reconnect_fsm.rs:737-793 | with no attempt in flight the next tick or wake turns a pending wake into an attempt |
| `ReconnectRuns.WakeIsNeverLost` | rust-core/src/reconnect_fsm.rs:283-284 | a wake event of the live loop that reaches the reducer stays pending until it became an attempt or the loop stopped, and a lost attempt wakes the loop |
| `ReconnectRuns.StaleLoopEventsAreIgnored` | rust-core/src/reconnect_fsm.rs:592-596 | events of a loop that is no longer current change nothing and ask for nothing |
| `ReconnectDecisions.LoopStartsIff` | rust-core/src/reconnect_fsm.rs:679-735 | in every run a disconnect starts a loop iff the session was connected, no loop is active, the user did not ask for it, the remote end did not exit by itself and a manual connect came before, whose latest attempt is repeated; any other outside a loop is announced, with the hint iff never connected and local |
| `ReconnectDecisions.UserDisconnectDoesNotReconnect` | rust-core/src/reconnect_fsm.rs:285-288 | after a user's disconnect outside a loop, the next disconnect without a manual connect in between starts no loop and is announced |
| `ReconnectDecisions.FlagMeansUserAsked` | rust-core/src/reconnect_fsm.rs:285-288 | the user flag is set iff the user asked and nothing settled it since |
| `ReconnectDecisions.RememberedAttemptIsTheLatest` | rust-core/src/reconnect_fsm.rs:291-294 | the remembered attempt is that of the latest accepted manual connect |
| `ReconnectDecisions.AttemptEndsIff` | rust-core/src/reconnect_fsm.rs:278-282 | an attempt in flight is over after exactly the events that end one |
| `ReconnectDecisions.LoopEndsIff` | rust-core/src/reconnect_fsm.rs:569-585 | a running loop is stopped by exactly the events that end one |
| `ReconnectDecisions.PendingMeansUnused` | rust-core/src/reconnect_fsm.rs:283-284 | in every run a wake is pending iff it came during an attempt and nothing used it up or made it pointless since |
| `ReconnectDecisions.EpochAdvancesIff` | rust-core/src/reconnect_fsm.rs:569-585 | the epoch advances exactly when a loop starts or loops are stopped |
| `ReconnectDecisions.PhaseFollowsEvents` | rust-core/src/reconnect_fsm.rs:439-568 | the phase after every event |
| `ReconnectDecisions.ShellIsAskedIff` | rust-core/src/reconnect_fsm.rs:439-793 | exactly when path losses are invalidated, attempts aborted, the session disconnected, the loop woken and a manual connect rejected |
| `ReconnectDecisions.TimersWaitForTheTick` | rust-core/src/reconnect_fsm.rs:597-609 | every armed timer belongs to the live loop and waits for the tick of the policy |
| `ReconnectDecisions.AttemptsNameTheirReason` | rust-core/src/reconnect_fsm.rs:737-793 | an attempt names its loop and its reason |
| `ReconnectDecisions.NumbersStayInRange` | rust-core/src/reconnect_fsm.rs:569-585 | the epoch fits 64 bits; shown seconds fit 32 bits and are exact below that |
| `ReconnectDecisions.BackgroundIsResetIff` | rust-core/src/reconnect_fsm.rs:439-793 | exactly when the background state is reset |
| `ReconnectWakes.RunningLoopHasItsTask` | rust-core/src/orchestrator.rs:1388-1417 | in every reachable state a running loop has exactly its one task, about to run or asleep |
| `ReconnectTimeout.AccountIsExpiredTime` | rust-core/src/reconnect_fsm.rs:737-793 | while a loop runs, its elapsed time is the sum of the timers expired since its clock started and its count is their number, whatever wakes and policies came |
| `ReconnectTimeout.LoopGivesUpIff` | rust-core/src/reconnect_fsm.rs:758-793 | the loop gives up at a tick iff the timers expired since its clock started, this one included, reach the time-out of the policy that armed it |
| `ReconnectTimeout.LoopGivesUpAtTick` | rust-core/src/reconnect_fsm.rs:758-793 | with one policy, at the first tick whose number times the tick reaches the time-out |
| `ReconnectTimeout.LoopRetriesIff` | rust-core/src/reconnect_fsm.rs:776-793 | a tick that does not give up starts an attempt iff none is in flight, and a wake is pending or the number of ticks since the clock started is a multiple of the retry interval in ticks |
| `ReconnectTimeout.WakesAlonePostponeGivingUp` | rust-core/src/reconnect_fsm.rs:737-756 | any number of wakes in a row leaves the account unchanged and the loop live |
| `ReconnectWakes.RestoredPathRingsIff` | rust-core/src/orchestrator.rs:1917-1936 | a restored path asks for a wake at its second look iff the phase was idle at the first and a loop is active at the second |
| `ReconnectWakes.RestoredPathBecomesAttemptIff` | rust-core/src/orchestrator.rs:1917-1942 | from the report to any later state: it rings iff idle and then active; the wake is due, then stored, until taken; the reducer reacts iff the running loop's task takes it, and then an attempt has started, the loop was stopped or the wake is pending |
| `ReconnectWakes.RestoredPathDroppedDuringAttempt` | rust-core/src/orchestrator.rs:1937-1942 | a run in which a path restored during an attempt leaves no wake stored, due or pending after the attempt fails |
| `ReconnectWakes.WakeReachesTheLoopIff` | rust-core/src/orchestrator.rs:1365-1370 | a stored wake starts an attempt or is remembered iff the task that takes it is the running loop's |
| `ReconnectWakes.StoredWakeBecomesAttempt` | rust-core/src/orchestrator.rs:1365-1435 | taken by the running loop's task, a stored wake has become an attempt, or the loop was stopped, or the wake is pending, in every later state |
| `ReconnectWakes.StoppedLoopSwallowsTheWake` | rust-core/src/orchestrator.rs:1388-1417 | a run in which the sleeping task of a stopped loop consumes the wake |
| `OrchestratorCore.PathObserver.HandleUpdate` | rust-core/src/net_health_policy.rs:70-74 | a token never handed out before, which becomes the only current one, and the debounce decision |
| `OrchestratorCore.PathObserver.IsCurrent` | rust-core/src/net_health_policy.rs:75-78 | of the tokens handed out, exactly the one of the last update is current, and none after an invalidation |
| `OrchestratorCore.PathObserver.Invalidate` | rust-core/src/net_health_policy.rs:85-88 | no token handed out so far is current any more |
| `OrchestratorCore.OrchestratorState.StagePublications` | rust-core/src/orchestrator.rs:986-1048 | the publications of the effects are staged in order, and aborts advance the generation |
| `OrchestratorCore.OrchestratorState.ApplyEvent` | rust-core/src/orchestrator.rs:975-984 | reducer step and staging in one critical section |
| `OrchestratorCore.OrchestratorState.CreateAdapter` | rust-core/src/orchestrator.rs:489-510 | a new session gets the next generation |
| `OrchestratorCore.OrchestratorState.HandleConnected` | rust-core/src/orchestrator.rs:577-593 | a connect event of an old generation changes nothing |
| `OrchestratorCore.OrchestratorState.HandleUnexpectedDisconnect` | rust-core/src/orchestrator.rs:864-890 | a disconnect of an old generation changes nothing |
| `OrchestratorCore.CallbacksOfOldSessionsChangeNothing` | rust-core/src/orchestrator.rs:577-603 | callbacks of an old generation change and show nothing, current ones are applied |
| `StagedStates.EventShows` | rust-core/src/orchestrator.rs:986-1048 | the publications that every event stages, from the state and the event alone |
| `StagedStates.StepShows` | rust-core/src/orchestrator.rs:975-1048 | in every run each step stages exactly what its event is to show |
| `StagedStates.EstablishedFollowsConnected` | rust-core/src/orchestrator.rs:577-593 | every established edge ever staged directly follows the connected state |
| `StagedStates.ManualConnectIsShown` | rust-core/src/reconnect_fsm.rs:651-677 | an accepted manual connect is shown as connecting, a rejected one not at all |
| `StagedStates.DisconnectIsShown` | rust-core/src/reconnect_fsm.rs:679-735 | a disconnect outside a loop that starts none is shown last, with the hint iff never connected and local |
| `StagedStates.TickShowsTheExpiredTime` | rust-core/src/reconnect_fsm.rs:758-793 | in every run a live tick shows the seconds of the timers expired since the clock started and the time-out, or exactly when they reach it that the time is over |
| `StagedStates.GenerationAdvancesIff` | rust-core/src/orchestrator.rs:1036-1042 | the generation advances exactly when a session is created or a loop is stopped with its attempt |
| `OrchestratorCore.StagedEdges` | rust-core/src/orchestrator.rs:986-1048 | staging keeps the reducer's edges, all of them and in order |
| `OrchestratorRuns.StepKeepsInv` | rust-core/src/orchestrator.rs:975-1098 | callbacks, user actions, path reports and deliveries keep staged edges well paired and the queue in order |
| `OrchestratorRuns.DeliveredEdgesAreWellPaired` | rust-core/src/reconnect_fsm.rs:87-88 | in every interleaving the edge callbacks started so far alternate, each loss names the generation before it, and generations increase |
| `OrchestratorRuns.EstablishedEdgesNameTheCurrentGeneration` | rust-core/src/orchestrator.rs:577-593 | every established edge ever staged was staged by a connect callback of the session it names, while that generation was current |
| `OrchestratorRuns.ReportCarriesItsGeneration` | rust-core/src/orchestrator.rs:1917-1966 | a path report in flight carries the generation of the moment it came in |
| `OrchestratorRuns.ReportIsWarranted` | rust-core/src/orchestrator.rs:1917-1966 | every report in flight comes from a loss of the path, during the handshake or of a connected session that is not QUIC |
| `OrchestratorRuns.ComparisonPassesIff` | rust-core/src/orchestrator.rs:793-801 | a due loss passes its comparison iff phase and generation are those of the moment the path change came in |
| `OrchestratorRuns.LossEventOnlyHitsTheReportedGeneration` | rust-core/src/orchestrator.rs:864-880 | the disconnect event of a network loss is applied only if the generation never changed since the loss was reported |
| `SessionSlot.LossDisconnectsTheReportedSessionIff` | rust-core/src/orchestrator.rs:793-812 | the session that a loss disconnects is the reported one iff that session was the last stored before the disconnect |
| `SessionSlot.StoredSessionIsDisconnectedIff` | rust-core/src/orchestrator.rs:793-812 | if it was stored at the comparison: iff no session was stored between the comparison and the disconnect |
| `SessionSlot.ReplacedSessionsAreDisconnected` | rust-core/src/orchestrator.rs:1345-1357 | a session that was stored is in the slot or was told to disconnect |
| `SessionSlot.LossHitsALaterSession` | rust-core/src/orchestrator.rs:802 | a run in which a loss disconnects a session stored after the comparison, whose end is then applied |
| `OrchestratorRuns.LaterPathUpdateCancelsLoss` | rust-core/src/orchestrator.rs:1951-1966 | a debounced loss survives its epoch check iff no path update and no invalidation came in between |
| `Apc.ApcInterceptor.Feed` | rust-core/src/kitty_graphics.rs:104-185 | one byte of the streaming interceptor |
| `Apc.ParseLosesNothing` | rust-core/src/kitty_graphics.rs:104-185 | the segments and the pending end of the whole-stream parser render back to the input |
| `Apc.InterceptorAgreesWithParser` | rust-core/src/kitty_graphics.rs:104-185 | for every stream the interceptor emits what the parser finds, in order, and holds the pending end |
| `Apc.StreamWithoutApcPasses` | rust-core/src/kitty_graphics.rs:104-140 | a stream without ESC underscore passes unchanged, up to one held ESC |
| `Apc.EncodedStreamComesBack` | rust-core/src/kitty_graphics.rs:104-185 | interleaved text and payloads come back exactly |
| `Kitty.ParseControlData` | rust-core/src/kitty_graphics.rs:346-359 | the parsing loop yields the keys in order, skipping parts without a value |
| `Kitty.ExpandRaw` | rust-core/src/kitty_graphics.rs:376-398 | the expansion loop fills the image, or rejects wrong sizes |
| `Kitty.KittyGraphics.HandlePayload` | rust-core/src/kitty_graphics.rs:231-252 | new transfer state and command for every payload |
| `Kitty.KittyGraphics.Start` | rust-core/src/kitty_graphics.rs:254-278 | a transfer opens, completes at once, or is ignored |
| `Kitty.KittyGraphics.Continue` | rust-core/src/kitty_graphics.rs:280-292 | a chunk is appended within the cap; the last one finishes |
| `Kitty.OnePayloadClearsPending` | rust-core/src/kitty_graphics.rs:280-292 | from any state a payload without `m=1` leaves nothing pending |
| `Kitty.PlacedRawPixelsArePreserved` | rust-core/src/kitty_graphics.rs:294-318 | a raw image placed has four bytes per pixel, the decoded pixels in order, opaque where the data has no alpha |
| `KittyPayloads.ControlTextParses` | rust-core/src/kitty_graphics.rs:338-359 | parsing undoes writing for every list of keys |
| `KittyPayloads.PayloadPlaces` | rust-core/src/kitty_graphics.rs:231-318 | a payload with `a=T` places exactly the picture its data decodes to, with the format, id, width and height of its text in any order, and nothing if the data does not decode or fit |
| `KittyPayloads.RgbPayloadPlaces` | rust-core/src/kitty_graphics.rs:254-318 | the text `a=T,f=24,i=<id>,s=<w>,v=<h>` places an opaque image of that id, width and height |
| `KittyPayloads.RgbaPayloadPlaces` | rust-core/src/kitty_graphics.rs:254-318 | the same for `f=32`, as it is |
| `KittyPayloads.TransmitOnlyPlacesNothing` | rust-core/src/kitty_graphics.rs:294-298 | `a=t` or no action places nothing |
| `KittyPayloads.OtherMediaAreIgnored` | rust-core/src/kitty_graphics.rs:254-262 | a transfer by another medium does nothing |
| `KittyPayloads.PayloadDeletes` | rust-core/src/kitty_graphics.rs:325-335 | what `a=d` deletes for every target and id |
| `KittyPayloads.OtherActionsAreIgnored` | rust-core/src/kitty_graphics.rs:246-252 | other actions do nothing |
| `KittyPayloads.ForeignPayloadsAreIgnored` | rust-core/src/kitty_graphics.rs:240-242 | payloads that do not begin with `G` do nothing |
| `Kitty.ContinuationsAccumulate` | rust-core/src/kitty_graphics.rs:280-292 | from any pending transfer all chunks but the last are no-ops, and the last finishes with what fits |
| `Kitty.NothingDroppedIffWithinCap` | rust-core/src/kitty_graphics.rs:280-292 | no data is dropped iff it fits the cap |
| `Kitty.ChunkedEqualsSingleShot` | rust-core/src/kitty_graphics.rs:231-318 | a transfer divided in any way within the cap gives the command and state of the single transfer |
| `Kitty.ClientChunksEqualSingleShot` | rust-core/src/kitty_graphics.rs:231-359 | the same for concrete payload bytes, control data once and then `m=1` / `m=0` chunks |
| `GraphicsStream.StreamShows` | rust-core/src/kitty_graphics.rs:104-318 | what an encoded stream shows depends on its text and its payloads, not on how they mix |
| `GraphicsStream.ChunkedStreamShowsTheSame` | rust-core/src/kitty_graphics.rs:104-318 | a transfer sent as APC strings anywhere between texts shows the text and the command of the single APC string, within the cap on control data and payload |
| `Traffic.PruneOlderThan` | rust-core/src/multipath_transport.rs:306-314 | the pruning loop |
| `Traffic.TrafficStats.RecordRx` | rust-core/src/multipath_transport.rs:329-333 | appends and prunes |
| `Traffic.TrafficStats.RecordTx` | rust-core/src/multipath_transport.rs:335-340 | appends, remembers the send and prunes |
| `Traffic.TrafficStats.IsQuiet` | rust-core/src/multipath_transport.rs:345-357 | prunes and answers from what is left |
| `Traffic.QueuesHoldTheWindow` | rust-core/src/multipath_transport.rs:306-357 | in whatever order the calls came, the pruned queues hold every byte in the window of an instant that is no earlier than any call |
| `Traffic.AnswerIsThatOfTheFullHistory` | rust-core/src/multipath_transport.rs:342-357 | if each queue was filled in order, whatever the order between receptions, sends and queries, the answer is that of the full history: at most 4096 bytes in three seconds, no send within a second |
| `Traffic.QuietAnswerOverlooksNothing` | rust-core/src/multipath_transport.rs:342-357 | in whatever order the calls came, a quiet answer means at most 4096 bytes in the window |
| `Traffic.LateReceptionHidesBytes` | rust-core/src/multipath_transport.rs:306-357 | a reception read after the query and recorded before it hides bytes that are still in the query's window, for all such lengths and instants |
| `ShellWords.QuotedArgumentIsLiteral` | rust-core/src/file_preview.rs:127-134 | a quoted argument is one word with exactly its characters, each quoted unless the argument looks safe |
| `ShellWords.SplittingUndoesQuoting` | rust-core/src/file_preview.rs:127-161 | splitting the quoted, joined line gives back exactly the arguments as words |
| `ShellWords.ShellDelivers` | rust-core/src/file_preview.rs:115-134 | for every shell, each argument is handed over unchanged up to the expansion of an unquoted leading tilde |
| `ShellWords.ReceivedUnchangedIff` | rust-core/src/file_preview.rs:119-134 | an argument arrives unchanged iff it is quoted, has no leading tilde, or the shell leaves its tilde-prefix alone |
| `FilePreview.BuildCommandLine` | rust-core/src/file_preview.rs:138-161 | the command line of a request |
| `FilePreview.CommandLineIsInjective` | rust-core/src/file_preview.rs:138-161 | different requests have different command lines |
| `FilePreview.ParseCatArguments` | rust-core/isekai-pipe/src/ctl_file.rs:246-272 | the helper's loop over the arguments of `cat` |
| `FilePreview.OtherSubcommands` | rust-core/isekai-pipe/src/ctl_file.rs:280-309 | `rm` takes exactly one path, recursive iff a flag stands anywhere; `cp` takes a source and a destination |
| `FilePreview.HelperLaunches` | rust-core/isekai-pipe/src/ctl_file.rs:233-315 | the helper launches the request with its path as the shell expands it, or rejects it if that path is a flag of `cat` |
| `FilePreview.RequestArrivesIff` | rust-core/isekai-pipe/src/ctl_file.rs:233-315 | for every shell, the helper launches exactly the client's request iff the path of `cat` is not one of its two flags and the shell does not expand a leading unquoted tilde of the path |
| `Numerals.ToStringParses` | rust-core/isekai-pipe/src/ctl_file.rs:226-231 | parsing undoes printing for every 64-bit number |
| `Numerals.PlusSignParses` | rust-core/isekai-pipe/src/ctl_file.rs:226-231 | one leading plus sign is accepted |
| `Numerals.NonNumeralsAreRejected` | rust-core/isekai-pipe/src/ctl_file.rs:226-231 | other characters, a lone plus sign and the empty string are rejected |
| `AgentForward.ReadString` | rust-core/src/agent_forward.rs:53-58 | reads the string at the cursor and moves past it, or fails |
| `AgentForward.ParseSignRequest` | rust-core/src/agent_forward.rs:102-107 | blob and data, or failure |
| `AgentForward.BuildIdentitiesAnswer` | rust-core/src/agent_forward.rs:74-85 | the answer, piece by piece |
| `AgentForward.ServeAgentStream` | rust-core/src/agent_forward.rs:190-214 | the frame loop |
| `AgentForward.StringAtIffWritten` | rust-core/src/agent_forward.rs:47-67 | a string is read at a position iff it was written there with a 32-bit length |
| `AgentForward.SignRequestParsesIff` | rust-core/src/agent_forward.rs:102-107 | a request parses to a blob and data iff it starts with the two as written strings |
| `AgentForward.WrittenStringsReadBackIff` | rust-core/src/agent_forward.rs:47-67 | two written strings and any tail read back iff their lengths fit 32 bits |
| `AgentForward.TruncatedRequestIsRejected` | rust-core/src/agent_forward.rs:102-107 | every input that ends inside the two strings is rejected |
| `AgentForward.IdentitiesAnswerReadsBack` | rust-core/src/agent_forward.rs:74-85 | the peer reads exactly the forwarded key, or none |
| `AgentForward.IdentitiesAreListed` | rust-core/src/agent_forward.rs:113-125 | a request for identities is answered with the forwarded key; what is neither that nor a request to sign with a failure |
| `AgentForward.SignRequestIsSignedOrRefused` | rust-core/src/agent_forward.rs:127-155 | a request to sign is answered with a signature or a failure |
| `AgentForward.SignsIffAskedAndApproved` | rust-core/src/agent_forward.rs:113-155 | the response is a given signature iff the message asks this key to sign data with that signature and the user approved |
| `AgentForward.EveryInputIsFramesAndRest` | rust-core/src/agent_forward.rs:190-204 | every stream is complete valid frames followed by something that is not one |
| `AgentForward.ServeAnswersEveryFrame` | rust-core/src/agent_forward.rs:190-214 | the output is the length-prefixed responses to those frames in order, and nothing more |
| `AgentForward.StreamIsAnswered` | rust-core/src/agent_forward.rs:114-214 | for every stream, and each signature in the output answers an approved request for this key |

## Assumptions

- Fewer than 2^32 holders of an entry and no wrap of its 64-bit generation within a run of the pool
  (`PoolProtocol.WithinLimits`).
- An idle timer is pending from the release's critical section on; killing a rebind timer drops its
  pending expiry; no timer fires before its deadline, and any may fire late.
- A panic in a callback unwinds its whole thread.
- The reconnect epoch does not wrap within a run of the loop's tasks, and any sleeping task may be the
  one that takes a stored wake.
- A verdict sent on a watch channel without receivers is kept, where the source drops it; nobody can
  subscribe to that channel any more.

## Left out

- The reconnect reducer is modelled on values, where the source updates its fields in place.
- The loop clock of the reducer does not saturate, and the session and path epochs do not wrap.
- Cancellation of a tab's task between attach and release, which would leak its reference.
- Hosts, reasons and other texts that go with published states.
- Acquiring file descriptors and probing: the rebind model records requested rebinds, not their success.
- base64, PNG decoding and signing, which are parameters; a failing write to the agent's stream.
- Shell constructs other than quoting, words and tilde expansion: a line with one of them has no words in the model.
- Overflow of the byte sum of the traffic statistic.
- Background and foreground transitions of the orchestrator, `forward_if_current!` callbacks, and the wake of QUIC sessions on a restored path.
- Waiting for user confirmation of a signature, of which only the answer is modelled.
- QUIC, SSH, STUN, relay and bootstrap connections, sockets and DNS.
- The terminal emulator, sixel decoding, trzsz, resume, SOCKS, diagnostics and platform code.
- Key-encoding tables and threshold policies, which would only add easy members.
