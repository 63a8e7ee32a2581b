/**
 How a restored network path reaches the reconnect loop
 (`rust-core/src/orchestrator.rs:1917-1942`, and the loop's task at 1365-1435).

 A loop runs as a task that waits for its timer or for a stored wake (a notification with one
 permit), whichever comes first, and hands the reducer a tick or a wake of its own epoch.  The task
 of a stopped loop learns of it only when it wakes up.
 */
module ReconnectWakes {
  import opened Wrappers
  import opened ReconnectFsm
  import opened ReconnectRuns

  type ReportId = nat

  /**
   `permit` is the stored wake and `notifying` counts the callers about to store one.  `starting` and
   `sleeping` are the epochs of the tasks that are about to run and that wait.  `restored` are the
   reports of a restored path that found no connection.
   */
  datatype Shell = Shell(
    reconnect: Reconnect,
    permit: bool,
    notifying: nat,
    starting: set<nat>,
    sleeping: set<nat>,
    restored: set<ReportId>)

  const INITIAL := Shell(DEFAULT, false, 0, {}, {}, {})

  datatype Label =
    | Outside(event: ReconnectEvent)                 // session callbacks and user actions
    | TaskStarts(epoch: nat, policy: Policy)
    | TaskTicks(epoch: nat, policy: Policy)
    | TaskWakes(epoch: nat, policy: Policy)
    | PathRestored(report: ReportId)                 // reads the phase
    | LoopChecked(report: ReportId)                  // reads whether a loop is active
    | Notify                                         // stores the wake

  predicate IsTaskEvent(ev: ReconnectEvent) {
    ev.LoopStarted? || ev.ReconnectTick? || ev.ReconnectWake?
  }

  /** The event that a task hands to the reducer. */
  function TaskEvent(l: Label): ReconnectEvent
    requires l.TaskStarts? || l.TaskTicks? || l.TaskWakes?
  {
    if l.TaskStarts? then LoopStarted(l.epoch, l.policy)
    else if l.TaskTicks? then ReconnectTick(l.epoch, l.policy)
    else ReconnectWake(l.epoch, l.policy)
  }

  predicate Arms(effects: seq<ReconnectEffect>) {
    exists i :: 0 <= i < |effects| && effects[i].ArmLoopTimer?
  }

  /** The epoch does not wrap at the next step. */
  predicate Enabled(w: Shell, l: Label) {
    && w.reconnect.epoch < U64_MAX
    && match l
       case Outside(ev) => !IsTaskEvent(ev)
       case TaskStarts(e, _) => e in w.starting
       case TaskTicks(e, _) => e in w.sleeping
       case TaskWakes(e, _) => e in w.sleeping && w.permit
       case PathRestored(r) => r !in w.restored
       case LoopChecked(r) => r in w.restored
       case Notify => w.notifying > 0
  }

  /** A task hands in its event and sleeps again if the reducer arms its timer, and ends otherwise. */
  function TaskStep(w: Shell, e: nat, ev: ReconnectEvent): Shell {
    var (r, effects) := Apply(w.reconnect, ev);
    w.(reconnect := r, starting := w.starting - {e},
       sleeping := if Arms(effects) then w.sleeping + {e} else w.sleeping - {e})
  }

  function Next(w: Shell, l: Label): Shell
    requires Enabled(w, l)
  {
    match l
    case Outside(ev) =>
      var (r, effects) := Apply(w.reconnect, ev);
      w.(reconnect := r,
         starting := w.starting + (if StartsLoop(w.reconnect, ev) then {r.epoch} else {}),
         notifying := w.notifying + if WakeReconnectLoop in effects then 1 else 0)
    case TaskStarts(e, _) => TaskStep(w, e, TaskEvent(l))
    case TaskTicks(e, _) => TaskStep(w, e, TaskEvent(l))
    case TaskWakes(e, _) => TaskStep(w.(permit := false), e, TaskEvent(l))
    case PathRestored(r) => if w.reconnect.phase == Idle then w.(restored := w.restored + {r}) else w
    case LoopChecked(r) =>
      w.(restored := w.restored - {r}, notifying := w.notifying + if w.reconnect.loopActive then 1 else 0)
    case Notify => w.(notifying := w.notifying - 1, permit := true)
  }

  ghost predicate IsWakeRun(ws: seq<Shell>, ls: seq<Label>) {
    && |ws| == |ls| + 1
    && ws[0] == INITIAL
    && (forall i :: 0 <= i < |ls| ==> Enabled(ws[i], ls[i]) && ws[i + 1] == Next(ws[i], ls[i]))
  }

  // ---- A running loop has its task ----

  ghost predicate TaskInv(w: Shell) {
    var s := w.reconnect;
    && (forall e :: e in w.starting || e in w.sleeping ==> e <= s.epoch)
    && w.starting !! w.sleeping
    && (s.clock.Some? ==> s.loopActive)
    && (s.loopActive ==> if s.clock.Some? then s.epoch in w.sleeping else s.epoch in w.starting)
  }

  /** What an event from outside does to the loop: nothing, stop it, or start one. */
  lemma OutsideLoopStep(s: Reconnect, ev: ReconnectEvent)
    requires !IsTaskEvent(ev) && s.epoch < U64_MAX
    ensures var s' := Apply(s, ev).0;
            if StartsLoop(s, ev) then !s.loopActive && s'.loopActive && s'.clock == None && s'.epoch == s.epoch + 1
            else || (s'.loopActive == s.loopActive && s'.clock == s.clock && s'.epoch == s.epoch)
                 || (!s'.loopActive && s'.clock == None && s'.epoch >= s.epoch)
  {
    if ev.AttemptDisconnected? {
      DisconnectLoopStep(s, ev);
    } else {
      OthersStartNoLoop(s, ev);
    }
  }

  lemma DisconnectLoopStep(s: Reconnect, ev: ReconnectEvent)
    requires ev.AttemptDisconnected? && s.epoch < U64_MAX
    ensures var s' := Apply(s, ev).0;
            if StartsLoop(s, ev) then !s.loopActive && s'.loopActive && s'.clock == None && s'.epoch == s.epoch + 1
            else s'.loopActive == s.loopActive && s'.clock == s.clock && s'.epoch == s.epoch
  {
    var effects := OnAttemptDisconnected(s, ev.kind, ev.targetsLocalNetwork).1;
    if !s.loopActive && Apply(s, ev).0.loopActive {
      assert effects[|effects| - 1].StartReconnectLoop?;
    }
  }

  lemma StartedOutcome(s: Reconnect, e: nat, policy: Policy)
    ensures var (s', effects) := Apply(s, LoopStarted(e, policy));
            if e == s.epoch && s.loopActive && s.clock.None?
            then Arms(effects) && s' == s.(clock := s'.clock) && s'.clock.Some?
            else s' == s && effects == []
  {
    if e == s.epoch && s.loopActive && s.clock.None? {
      assert OnLoopStarted(s, e, policy).1[1].ArmLoopTimer?;
    }
  }

  lemma TicksOutcome(s: Reconnect, e: nat, policy: Policy)
    requires s.epoch < U64_MAX
    ensures var (s', effects) := Apply(s, ReconnectTick(e, policy));
            if !LoopIsLive(s, e) then s' == s && effects == []
            else if GivesUp(s, ReconnectTick(e, policy))
            then !s'.loopActive && s'.clock == None && s'.epoch == s.epoch + 1 && !Arms(effects)
            else s'.loopActive && s'.clock.Some? && s'.epoch == s.epoch && Arms(effects)
  {
    if LoopIsLive(s, e) && !GivesUp(s, ReconnectTick(e, policy)) {
      var effects := OnReconnectTick(s, e, policy).1;
      assert effects[|effects| - 1].ArmLoopTimer?;
    }
  }

  lemma WakesOutcome(s: Reconnect, e: nat, policy: Policy)
    ensures var (s', effects) := Apply(s, ReconnectWake(e, policy));
            if !LoopIsLive(s, e) then s' == s && effects == []
            else s'.loopActive && s'.clock.Some? && s'.epoch == s.epoch && Arms(effects)
  {
    if LoopIsLive(s, e) {
      assert OnReconnectWake(s, e, policy).1[2].ArmLoopTimer?;
    }
  }

  lemma StepKeepsTasks(w: Shell, l: Label)
    requires TaskInv(w) && Enabled(w, l)
    ensures TaskInv(Next(w, l))
  {
    match l {
      case Outside(ev) => OutsideLoopStep(w.reconnect, ev);
      case TaskStarts(e, policy) => StartedOutcome(w.reconnect, e, policy);
      case TaskTicks(e, policy) => TicksOutcome(w.reconnect, e, policy);
      case TaskWakes(e, policy) => WakesOutcome(w.reconnect, e, policy);
      case _ =>
    }
  }

  lemma {:induction false} RunKeepsTasks(ws: seq<Shell>, ls: seq<Label>, n: nat)
    requires IsWakeRun(ws, ls) && n < |ws|
    ensures TaskInv(ws[n])
  {
    if n > 0 {
      RunKeepsTasks(ws, ls, n - 1);
      StepKeepsTasks(ws[n - 1], ls[n - 1]);
    }
  }

  /** In every reachable state a running loop has its task, about to run or asleep: it cannot die out. */
  lemma RunningLoopHasItsTask(ws: seq<Shell>, ls: seq<Label>, n: nat)
    requires IsWakeRun(ws, ls) && n < |ws| && ws[n].reconnect.loopActive
    ensures ws[n].reconnect.epoch in ws[n].starting <==> ws[n].reconnect.epoch !in ws[n].sleeping
    ensures ws[n].reconnect.epoch in ws[n].sleeping <==> ws[n].reconnect.clock.Some?
  {
    RunKeepsTasks(ws, ls, n);
  }

  // ---- From a restored path to an attempt ----

  /** Neither stage of report `r` happens in the stretch. */
  ghost predicate Untouched(ls: seq<Label>, a: nat, b: nat, r: ReportId)
    requires b <= |ls|
  {
    forall m :: a <= m < b ==> ls[m] != PathRestored(r) && ls[m] != LoopChecked(r)
  }

  lemma RestoredStep(w: Shell, l: Label, r: ReportId)
    requires Enabled(w, l) && l != PathRestored(r) && l != LoopChecked(r)
    ensures r in Next(w, l).restored <==> r in w.restored
  {
  }

  lemma {:induction false} RestoredStays(ws: seq<Shell>, ls: seq<Label>, a: nat, b: nat, r: ReportId)
    requires IsWakeRun(ws, ls) && a <= b <= |ls| && Untouched(ls, a, b, r)
    ensures r in ws[b].restored <==> r in ws[a].restored
    decreases b
  {
    if a < b {
      RestoredStays(ws, ls, a, b - 1, r);
      RestoredStep(ws[b - 1], ls[b - 1], r);
    }
  }

  /** The second look of report `r` rings for the loop: one more caller is about to store a wake. */
  predicate Rings(w: Shell, r: ReportId) {
    Enabled(w, LoopChecked(r)) && Next(w, LoopChecked(r)).notifying == w.notifying + 1
  }

  /**
   A path restored in step `i` rings at its second look in step `j` if and only if no connection was
   being made or used at the first and a loop is active at the second.
   */
  lemma RestoredPathRingsIff(ws: seq<Shell>, ls: seq<Label>, r: ReportId, i: nat, j: nat)
    requires IsWakeRun(ws, ls) && i < j < |ls| && ls[i] == PathRestored(r) && Untouched(ls, i + 1, j, r)
    ensures Rings(ws[j], r) <==> ws[i].reconnect.phase == Idle && ws[j].reconnect.loopActive
  {
    assert r !in ws[i].restored;
    RestoredStays(ws, ls, i + 1, j, r);
    assert Enabled(ws[j], ls[j]);
  }

  ghost predicate NoTaskWakes(ls: seq<Label>, a: nat, b: nat)
    requires b <= |ls|
  {
    forall m :: a <= m < b ==> !ls[m].TaskWakes?
  }

  lemma PermitStep(w: Shell, l: Label)
    requires Enabled(w, l) && w.permit && !l.TaskWakes?
    ensures Next(w, l).permit
  {
  }

  /** A stored wake stays until a task takes it. */
  lemma {:induction false} PermitStays(ws: seq<Shell>, ls: seq<Label>, a: nat, b: nat)
    requires IsWakeRun(ws, ls) && a <= b <= |ls| && ws[a].permit && NoTaskWakes(ls, a, b)
    ensures ws[b].permit
    decreases b
  {
    if a < b {
      PermitStays(ws, ls, a, b - 1);
      PermitStep(ws[b - 1], ls[b - 1]);
    }
  }

  /**
   Whoever takes the wake consumes it.  It starts an attempt or is remembered if and only if the
   task that takes it is the running loop's; the task of a stopped loop swallows it.
   */
  lemma WakeReachesTheLoopIff(ws: seq<Shell>, ls: seq<Label>, k: nat)
    requires IsWakeRun(ws, ls) && k < |ls| && ls[k].TaskWakes?
    ensures var s, s', e := ws[k].reconnect, ws[k + 1].reconnect, ls[k].epoch;
            && !ws[k + 1].permit
            && (if s.loopActive && e == s.epoch
                then LoopIsLive(s, e) && (StartsAttempt(s, TaskEvent(ls[k])) || (s'.pendingWake && s'.loopActive))
                else s' == s && Apply(s, TaskEvent(ls[k])).1 == [])
  {
    RunKeepsTasks(ws, ls, k);
    var s, e := ws[k].reconnect, ls[k].epoch;
    if s.loopActive && e == s.epoch {
      WakeIsTaken(s, e, ls[k].policy);
    } else if e != s.epoch {
      StaleLoopEventsAreIgnored(s, TaskEvent(ls[k]));
    }
  }

  /** The event that a step hands to the reducer, if any. */
  function Handed(l: Label): Option<ReconnectEvent> {
    match l
    case Outside(ev) => Some(ev)
    case TaskStarts(_, _) => Some(TaskEvent(l))
    case TaskTicks(_, _) => Some(TaskEvent(l))
    case TaskWakes(_, _) => Some(TaskEvent(l))
    case _ => None
  }

  predicate StartsAttemptIn(w: Shell, l: Label) {
    Handed(l).Some? && StartsAttempt(w.reconnect, Handed(l).value)
  }

  predicate EndsLoopIn(w: Shell, l: Label) {
    Handed(l).Some? && EndsLoop(w.reconnect, Handed(l).value)
  }

  lemma RememberedStep(w: Shell, l: Label)
    requires Enabled(w, l) && w.reconnect.pendingWake && w.reconnect.loopActive && !StartsAttemptIn(w, l)
             && !EndsLoopIn(w, l)
    ensures Next(w, l).reconnect.pendingWake && Next(w, l).reconnect.loopActive
            && Next(w, l).reconnect.epoch == w.reconnect.epoch
  {
    if Handed(l).Some? {
      WakeStaysPending(w.reconnect, Handed(l).value);
      LoopStaysActive(w.reconnect, Handed(l).value);
    }
  }

  lemma {:induction false} RememberedUntil(ws: seq<Shell>, ls: seq<Label>, a: nat, b: nat)
    requires IsWakeRun(ws, ls) && a <= b <= |ls| && ws[a].reconnect.pendingWake && ws[a].reconnect.loopActive
    requires forall m :: a <= m < b ==> !StartsAttemptIn(ws[m], ls[m]) && !EndsLoopIn(ws[m], ls[m])
    ensures ws[b].reconnect.pendingWake && ws[b].reconnect.loopActive && ws[b].reconnect.epoch == ws[a].reconnect.epoch
    decreases b
  {
    if a < b {
      RememberedUntil(ws, ls, a, b - 1);
      RememberedStep(ws[b - 1], ls[b - 1]);
    }
  }

  /**
   From the moment `n` at which a wake is stored: the first task `k` to wake takes it, and if that
   is the running loop's task then in every later state `m` an attempt has started, or the loop has
   been stopped, or the wake is remembered, so that the next tick or wake without an attempt in
   flight starts one.
   */
  lemma StoredWakeBecomesAttempt(ws: seq<Shell>, ls: seq<Label>, n: nat, k: nat, m: nat)
    requires IsWakeRun(ws, ls) && n <= k < m < |ws| && ws[n].permit && NoTaskWakes(ls, n, k) && ls[k].TaskWakes?
    requires ws[k].reconnect.loopActive && ls[k].epoch == ws[k].reconnect.epoch
    ensures ws[k].permit
    ensures || (exists j: nat :: k <= j < m && StartsAttemptIn(ws[j], ls[j]))
            || (exists j: nat :: k < j < m && EndsLoopIn(ws[j], ls[j]))
            || (ws[m].reconnect.pendingWake && ws[m].reconnect.loopActive && ws[m].reconnect.epoch == ls[k].epoch)
  {
    PermitStays(ws, ls, n, k);
    WakeReachesTheLoopIff(ws, ls, k);
    WakesOutcome(ws[k].reconnect, ls[k].epoch, ls[k].policy);
    if !StartsAttemptIn(ws[k], ls[k])
      && (forall j :: k < j < m ==> !StartsAttemptIn(ws[j], ls[j]) && !EndsLoopIn(ws[j], ls[j])) {
      RememberedUntil(ws, ls, k + 1, m);
    }
  }

  lemma {:induction false} NotifyStaysDue(ws: seq<Shell>, ls: seq<Label>, a: nat, b: nat)
    requires IsWakeRun(ws, ls) && a <= b <= |ls| && ws[a].notifying > 0
    requires forall m :: a <= m < b ==> ls[m] != Notify
    ensures ws[b].notifying > 0
    decreases b
  {
    if a < b {
      NotifyStaysDue(ws, ls, a, b - 1);
      DueStep(ws[b - 1], ls[b - 1]);
    }
  }

  lemma DueStep(w: Shell, l: Label)
    requires Enabled(w, l) && l != Notify
    ensures Next(w, l).notifying >= w.notifying
  {
  }

  /** After step `j` the next wake is stored in step `n`, and step `k` is the first to take one. */
  ghost predicate Travels(ls: seq<Label>, j: nat, n: nat, k: nat) {
    && j < n < k < |ls| && ls[n] == Notify && ls[k].TaskWakes?
    && (forall m :: j < m < n ==> ls[m] != Notify) && NoTaskWakes(ls, n + 1, k)
  }

  /** The task that wakes in step `k` is the running loop's. */
  predicate RunningTask(w: Shell, l: Label) {
    l.TaskWakes? && w.reconnect.loopActive && l.epoch == w.reconnect.epoch
  }

  /** An attempt has started, or the loop has been stopped, or the wake is remembered. */
  ghost predicate Honoured(ws: seq<Shell>, ls: seq<Label>, k: nat, m: nat)
    requires k < m < |ws| && |ws| == |ls| + 1 && ls[k].TaskWakes?
  {
    || (exists x: nat :: k <= x < m && StartsAttemptIn(ws[x], ls[x]))
    || (exists x: nat :: k < x < m && EndsLoopIn(ws[x], ls[x]))
    || (ws[m].reconnect.pendingWake && ws[m].reconnect.loopActive && ws[m].reconnect.epoch == ls[k].epoch)
  }

  /**
   The whole way of a restored path, from its report in step `i` over its second look `j`, the stored
   wake `n` and the task `k` that takes it to any later state `m`.  It is on its way after `j` if and
   only if the phase was idle at `i` and a loop is active at `j`; then a wake is due until one is
   stored, and stored until one is taken; and the reducer reacts if and only if the task that takes it
   is the running loop's.  If it reacts, the wake is honoured in every later state; if not, the wake is
   gone and nothing has changed.
   */
  lemma RestoredPathBecomesAttemptIff(ws: seq<Shell>, ls: seq<Label>, r: ReportId, i: nat, j: nat, n: nat, k: nat,
                                      m: nat)
    requires IsWakeRun(ws, ls) && Travels(ls, j, n, k) && k < m < |ws|
    requires i < j && ls[i] == PathRestored(r) && Untouched(ls, i + 1, j, r)
    ensures Rings(ws[j], r) <==> ws[i].reconnect.phase == Idle && ws[j].reconnect.loopActive
    ensures Rings(ws[j], r) && ls[j] == LoopChecked(r) ==>
              && (forall x :: j < x <= n ==> ws[x].notifying > 0)
              && (forall x :: n < x <= k ==> ws[x].permit)
              && (Apply(ws[k].reconnect, TaskEvent(ls[k])).1 != [] <==> RunningTask(ws[k], ls[k]))
              && (RunningTask(ws[k], ls[k]) ==> Honoured(ws, ls, k, m))
              && (!RunningTask(ws[k], ls[k]) ==> ws[k + 1].reconnect == ws[k].reconnect && !ws[k + 1].permit)
  {
    RestoredPathRingsIff(ws, ls, r, i, j);
    if Rings(ws[j], r) && ls[j] == LoopChecked(r) {
      forall x: nat | j < x <= n ensures ws[x].notifying > 0 {
        NotifyStaysDue(ws, ls, j + 1, x);
      }
      forall x: nat | n < x <= k ensures ws[x].permit {
        PermitStays(ws, ls, n + 1, x);
      }
      WakeReachesTheLoopIff(ws, ls, k);
      if RunningTask(ws[k], ls[k]) {
        WakesOutcome(ws[k].reconnect, ls[k].epoch, ls[k].policy);
        StoredWakeBecomesAttempt(ws, ls, n + 1, k, m);
      }
    }
  }

  // ---- A run in which a stopped loop's task swallows the wake ----

  lemma {:induction false} Extend(ws: seq<Shell>, ls: seq<Label>, l: Label) returns (ws': seq<Shell>, ls': seq<Label>)
    requires IsWakeRun(ws, ls) && Enabled(ws[|ls|], l)
    ensures ls' == ls + [l] && ws' == ws + [Next(ws[|ls|], l)] && IsWakeRun(ws', ls')
  {
    ls', ws' := ls + [l], ws + [Next(ws[|ls|], l)];
    forall i | 0 <= i < |ls'| ensures Enabled(ws'[i], ls'[i]) && ws'[i + 1] == Next(ws'[i], ls'[i]) {
      if i < |ls| {
        assert ws'[i] == ws[i] && ls'[i] == ls[i] && ws'[i + 1] == ws[i + 1];
      }
    }
  }

  const POLICY := Policy(1 * SECOND, 3 * SECOND, 60 * SECOND)

  /** What the run depends on between two connections. */
  ghost predicate Looks(w: Shell, phase: ConnPhase, epoch: nat, loop: bool, starting: set<nat>, sleeping: set<nat>) {
    && w.reconnect.phase == phase && w.reconnect.epoch == epoch && w.reconnect.loopActive == loop
    && !w.reconnect.userInitiated && !w.permit && w.notifying == 0 && w.restored == {}
    && w.starting == starting && w.sleeping == sleeping && !w.reconnect.pendingWake && !w.reconnect.inFlight
    && (loop ==> w.reconnect.clock.None? == (epoch in starting))
  }

  /** Connecting by hand, connecting, and losing the connection: a new loop. */
  lemma ConnectAndLose(ws: seq<Shell>, ls: seq<Label>, epoch: nat, sleeping: set<nat>)
    returns (ws': seq<Shell>, ls': seq<Label>)
    requires IsWakeRun(ws, ls) && Looks(ws[|ls|], Idle, epoch, false, {}, sleeping) && epoch < 100
    ensures IsWakeRun(ws', ls') && Looks(ws'[|ls'|], Idle, epoch + 3, true, {epoch + 3}, sleeping)
  {
    OthersStartNoLoop(ws[|ls|].reconnect, ManualConnectStarted(0));
    ws', ls' := Extend(ws, ls, Outside(ManualConnectStarted(0)));
    assert Looks(ws'[|ls'|], Connecting, epoch + 1, false, {}, sleeping) && ws'[|ls'|].reconnect.lastAttempt == Some(0);
    OthersStartNoLoop(ws'[|ls'|].reconnect, AttemptConnected(0));
    ws', ls' := Extend(ws', ls', Outside(AttemptConnected(0)));
    assert Looks(ws'[|ls'|], Connected, epoch + 2, false, {}, sleeping) && ws'[|ls'|].reconnect.lastAttempt == Some(0);
    LosingStartsLoop(ws'[|ls'|], epoch + 2, sleeping);
    ws', ls' := Extend(ws', ls', Outside(AttemptDisconnected(0, TransportError, false)));
  }

  lemma LosingStartsLoop(w: Shell, epoch: nat, sleeping: set<nat>)
    requires Looks(w, Connected, epoch, false, {}, sleeping) && w.reconnect.lastAttempt == Some(0) && epoch < 200
    ensures var l := Outside(AttemptDisconnected(0, TransportError, false));
            Enabled(w, l) && Looks(Next(w, l), Idle, epoch + 1, true, {epoch + 1}, sleeping)
  {
    DisconnectLoopStep(w.reconnect, AttemptDisconnected(0, TransportError, false));
    var effects := OnAttemptDisconnected(w.reconnect, TransportError, false).1;
    assert effects[|effects| - 1].StartReconnectLoop?;
    assert WakeReconnectLoop !in effects;
  }

  /** One loop is stopped, its task still asleep, and the task of the next loop is asleep too. */
  lemma TwoTasksAsleep() returns (ws: seq<Shell>, ls: seq<Label>)
    ensures IsWakeRun(ws, ls) && Looks(ws[|ls|], Idle, 7, true, {}, {3, 7})
  {
    ws, ls := ConnectAndLose([INITIAL], [], 0, {});
    StartedOutcome(ws[|ls|].reconnect, 3, POLICY);
    ws, ls := Extend(ws, ls, TaskStarts(3, POLICY));
    assert Looks(ws[|ls|], Idle, 3, true, {}, {3});
    OthersStartNoLoop(ws[|ls|].reconnect, CancelReconnect);
    ws, ls := Extend(ws, ls, Outside(CancelReconnect));
    assert Looks(ws[|ls|], Idle, 4, false, {}, {3});
    ws, ls := ConnectAndLose(ws, ls, 4, {3});
    StartedOutcome(ws[|ls|].reconnect, 7, POLICY);
    ws, ls := Extend(ws, ls, TaskStarts(7, POLICY));
    assert ws[|ls|].sleeping == {3, 7};
  }

  /** The path is restored while loop 7 runs, and the task of loop 3 swallows the wake. */
  lemma StoppedLoopSwallowsTheWake() returns (ws: seq<Shell>, ls: seq<Label>, i: nat)
    ensures IsWakeRun(ws, ls) && i + 4 == |ls|
    ensures ls[i..] == [PathRestored(0), LoopChecked(0), Notify, TaskWakes(3, POLICY)]
    ensures LoopIsLive(ws[i].reconnect, 7) && 7 in ws[i].sleeping
    ensures ws[|ls|].reconnect == ws[i].reconnect && !ws[|ls|].permit && ws[|ls|].notifying == 0
  {
    ws, ls := TwoTasksAsleep();
    i := |ls|;
    ws, ls := Extend(ws, ls, PathRestored(0));
    ws, ls := Extend(ws, ls, LoopChecked(0));
    ws, ls := Extend(ws, ls, Notify);
    StaleLoopEventsAreIgnored(ws[|ls|].reconnect, ReconnectWake(3, POLICY));
    ws, ls := Extend(ws, ls, TaskWakes(3, POLICY));
  }

  // ---- A run in which a path restored during an attempt is dropped ----

  /** A wake has started an attempt, and its session is being made. */
  lemma AttemptUnderWay() returns (ws: seq<Shell>, ls: seq<Label>)
    ensures IsWakeRun(ws, ls)
    ensures var w := ws[|ls|];
            && w.reconnect.phase == Connecting && w.reconnect.loopActive && w.reconnect.inFlight
            && w.reconnect.epoch == 3 && !w.reconnect.pendingWake && !w.permit && w.notifying == 0 && w.restored == {}
  {
    ws, ls := ConnectAndLose([INITIAL], [], 0, {});
    StartedOutcome(ws[|ls|].reconnect, 3, POLICY);
    ws, ls := Extend(ws, ls, TaskStarts(3, POLICY));
    ws, ls := Extend(ws, ls, PathRestored(0));
    ws, ls := Extend(ws, ls, LoopChecked(0));
    ws, ls := Extend(ws, ls, Notify);
    WakesOutcome(ws[|ls|].reconnect, 3, POLICY);
    ws, ls := Extend(ws, ls, TaskWakes(3, POLICY));
    OthersStartNoLoop(ws[|ls|].reconnect, ReconnectSessionStarting);
    ws, ls := Extend(ws, ls, Outside(ReconnectSessionStarting));
  }

  /**
   The path is restored while the attempt is in flight, the attempt then fails, and neither is a wake
   stored nor due nor pending: the loop waits for its next retry as if nothing had happened.
   */
  lemma RestoredPathDroppedDuringAttempt() returns (ws: seq<Shell>, ls: seq<Label>, i: nat)
    ensures IsWakeRun(ws, ls) && i + 2 == |ls|
    ensures ls[i] == PathRestored(1) && ls[i + 1] == Outside(AttemptDisconnected(0, TransportError, false))
    ensures ws[i].reconnect.loopActive && ws[i].reconnect.inFlight && ws[i + 1] == ws[i]
    ensures var w := ws[i + 2];
            && w.reconnect.loopActive && !w.reconnect.inFlight && !w.reconnect.pendingWake
            && !w.permit && w.notifying == 0 && w.restored == {}
  {
    ws, ls := AttemptUnderWay();
    i := |ls|;
    ws, ls := Extend(ws, ls, PathRestored(1));
    var s := ws[|ls|].reconnect;
    assert WakeReconnectLoop !in OnAttemptDisconnected(s, TransportError, false).1;
    ws, ls := Extend(ws, ls, Outside(AttemptDisconnected(0, TransportError, false)));
  }
}
