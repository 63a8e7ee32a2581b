/**
 What the reconnect reducer decides (`rust-core/src/reconnect_fsm.rs:439-793`), in terms of the events
 that came before: which disconnects start a reconnect loop, with which attempt, and what each event
 does to the phase, the flags and the shell.
 */
module ReconnectDecisions {
  import opened Wrappers
  import opened ReconnectFsm
  import opened ReconnectRuns

  /** A manual connect that is not rejected. */
  predicate Accepted(s: Reconnect, ev: ReconnectEvent) {
    ev.ManualConnectStarted? && s.phase != Connecting
  }

  /** A flag that is set and cleared step by step is up exactly if it was set and not cleared since. */
  lemma {:induction false} FlagIsUpIff(up: seq<bool>, sets: seq<bool>, clears: seq<bool>, k: nat)
    requires |up| == |sets| + 1 == |clears| + 1 && k < |up| && !up[0]
    requires forall m :: 0 <= m < |sets| ==> up[m + 1] == (sets[m] || (up[m] && !clears[m]))
    ensures up[k] <==> exists u: nat :: u < k && sets[u] && forall m :: u < m < k ==> !clears[m]
    decreases k
  {
    if k > 0 {
      var j: nat := k - 1;
      FlagIsUpIff(up, sets, clears, j);
      if up[k] && !sets[j] {
        var u: nat :| u < j && sets[u] && forall m :: u < m < j ==> !clears[m];
        assert forall m :: u < m < k ==> !clears[m];
      }
    }
  }

  // ---- Did the user ask for the disconnect? ----

  predicate AsksToDisconnect(s: Reconnect, ev: ReconnectEvent) {
    ev.UserDisconnect? && !s.loopActive
  }

  /** Settles an earlier request: the disconnect arrived, or something else was asked for. */
  predicate SettlesRequest(s: Reconnect, ev: ReconnectEvent) {
    ev.AttemptDisconnected? || Accepted(s, ev) || (ev.UserDisconnect? && s.loopActive)
  }

  /** Before step `k` the user asked for a disconnect outside a loop, and nothing settled it since. */
  ghost predicate UserAsked(ss: seq<Reconnect>, evs: seq<ReconnectEvent>, k: nat)
    requires IsRun(ss, evs) && k < |ss|
  {
    exists u: nat :: u < k && AsksToDisconnect(ss[u], evs[u]) && forall m :: u < m < k ==>
      !SettlesRequest(ss[m], evs[m])
  }

  lemma TickKeepsRequest(s: Reconnect, epoch: nat, policy: Policy)
    ensures OnReconnectTick(s, epoch, policy).0.userInitiated == s.userInitiated
    ensures OnReconnectTick(s, epoch, policy).0.lastAttempt == s.lastAttempt
  {
  }

  lemma RequestStep(s: Reconnect, ev: ReconnectEvent)
    ensures Apply(s, ev).0.userInitiated <==> AsksToDisconnect(s, ev) || (s.userInitiated && !SettlesRequest(s, ev))
  {
    if ev.ReconnectTick? {
      TickKeepsRequest(s, ev.epoch, ev.policy);
    }
  }

  lemma {:induction false} FlagMeansUserAsked(ss: seq<Reconnect>, evs: seq<ReconnectEvent>, k: nat)
    requires IsRun(ss, evs) && ss[0] == DEFAULT && k < |ss|
    ensures ss[k].userInitiated <==> UserAsked(ss, evs, k)
  {
    var up := seq(|ss|, m requires 0 <= m < |ss| => ss[m].userInitiated);
    var sets := seq(|evs|, m requires 0 <= m < |evs| <= |ss| => AsksToDisconnect(ss[m], evs[m]));
    var clears := seq(|evs|, m requires 0 <= m < |evs| <= |ss| => SettlesRequest(ss[m], evs[m]));
    forall m | 0 <= m < |sets| ensures up[m + 1] == (sets[m] || (up[m] && !clears[m])) {
      RequestStep(ss[m], evs[m]);
    }
    FlagIsUpIff(up, sets, clears, k);
    assert forall u: nat :: u < k ==> sets[u] == AsksToDisconnect(ss[u], evs[u]);
    assert forall m: nat :: m < k ==> clears[m] == SettlesRequest(ss[m], evs[m]);
  }

  // ---- Which attempt is the latest? ----

  /** Before step `k` the latest accepted manual connect was for `attempt`. */
  ghost predicate LatestAttempt(ss: seq<Reconnect>, evs: seq<ReconnectEvent>, k: nat, attempt: nat)
    requires IsRun(ss, evs) && k < |ss|
  {
    exists a: nat :: a < k && evs[a] == ManualConnectStarted(attempt) && Accepted(ss[a], evs[a])
                     && forall m :: a < m < k ==> !Accepted(ss[m], evs[m])
  }

  lemma AttemptStep(s: Reconnect, ev: ReconnectEvent)
    ensures Apply(s, ev).0.lastAttempt == if Accepted(s, ev) then Some(ev.attempt) else s.lastAttempt
  {
    if ev.ReconnectTick? {
      TickKeepsRequest(s, ev.epoch, ev.policy);
    }
  }

  lemma {:induction false} RememberedAttemptIsTheLatest(ss: seq<Reconnect>, evs: seq<ReconnectEvent>, k: nat,
                                                        attempt: nat)
    requires IsRun(ss, evs) && ss[0] == DEFAULT && k < |ss|
    ensures ss[k].lastAttempt == Some(attempt) <==> LatestAttempt(ss, evs, k, attempt)
  {
    if k > 0 {
      var j: nat := k - 1;
      RememberedAttemptIsTheLatest(ss, evs, j, attempt);
      AttemptStep(ss[j], evs[j]);
      if ss[k].lastAttempt == Some(attempt) {
        if !Accepted(ss[j], evs[j]) {
          var a: nat :| a < j && evs[a] == ManualConnectStarted(attempt) && Accepted(ss[a], evs[a])
                        && forall m :: a < m < j ==> !Accepted(ss[m], evs[m]);
          assert forall m :: a < m < k ==> !Accepted(ss[m], evs[m]);
        } else {
          assert evs[j] == ManualConnectStarted(attempt);
        }
      }
    }
  }

  // ---- Which disconnects reconnect? ----

  /** A disconnect that starts a reconnect loop. */
  predicate Reconnects(s: Reconnect, ev: ReconnectEvent) {
    && ev.AttemptDisconnected? && s.phase == Connected && !s.loopActive && !s.userInitiated
    && ev.kind != GracefulRemoteExit && s.lastAttempt.Some?
  }

  /** What follows the invalidation and the loss of the edge. */
  function AfterDisconnect(s: Reconnect, ev: ReconnectEvent): seq<ReconnectEffect>
    requires ev.AttemptDisconnected?
  {
    if s.loopActive then if s.pendingWake then [WakeReconnectLoop] else []
    else if Reconnects(s, ev) then [StartReconnectLoop(s.lastAttempt.value, NextEpoch(s.epoch))]
    else [PublishDisconnected(s.phase != Connected && ev.targetsLocalNetwork)]
  }

  lemma DisconnectEffects(s: Reconnect, ev: ReconnectEvent)
    requires ev.AttemptDisconnected?
    ensures Apply(s, ev).1 == [InvalidatePathObserver] + CloseEdge(s).1 + AfterDisconnect(s, ev)
  {
  }

  lemma {:induction false} DisconnectDecides(s: Reconnect, ev: ReconnectEvent)
    requires ev.AttemptDisconnected?
    ensures var effects := Apply(s, ev).1;
            && (forall attempt: nat, epoch: nat :: StartReconnectLoop(attempt, epoch) in effects <==>
                  Reconnects(s, ev) && s.lastAttempt == Some(attempt) && epoch == NextEpoch(s.epoch))
            && (forall hint :: PublishDisconnected(hint) in effects <==>
                  !s.loopActive && !Reconnects(s, ev) && hint == (s.phase != Connected && ev.targetsLocalNetwork))
            && (StartsLoop(s, ev) <==> Reconnects(s, ev))
  {
    DisconnectEffects(s, ev);
    TailDecides(s, ev, Apply(s, ev).1);
  }

  lemma {:induction false} TailDecides(s: Reconnect, ev: ReconnectEvent, effects: seq<ReconnectEffect>)
    requires ev.AttemptDisconnected? && effects == [InvalidatePathObserver] + CloseEdge(s).1 + AfterDisconnect(s, ev)
    ensures forall e :: e in effects && (e.StartReconnectLoop? || e.PublishDisconnected?) ==>
            e in AfterDisconnect(s, ev)
    ensures forall e :: e in AfterDisconnect(s, ev) ==> e in effects
    ensures (exists i :: 0 <= i < |effects| && effects[i].StartReconnectLoop?) <==> Reconnects(s, ev)
  {
    var tail := AfterDisconnect(s, ev);
    if Reconnects(s, ev) {
      assert effects[|effects| - 1] == tail[0];
    }
  }

  /**
   In every run from the start, a disconnect starts a reconnect loop if and only if the session was
   connected, no loop is active, the user did not ask for the disconnect, the remote end did not exit
   by itself and a manual connect came before; the loop repeats the attempt of the latest one.  A
   disconnect that neither starts a loop nor meets one is announced, with the hint exactly if the
   session was never connected and its target is on the local network.
   */
  lemma LoopStartsIff(ss: seq<Reconnect>, evs: seq<ReconnectEvent>, k: nat)
    requires IsRun(ss, evs) && ss[0] == DEFAULT && k < |evs| && evs[k].AttemptDisconnected?
    ensures var effects := Apply(ss[k], evs[k]).1;
            && (forall attempt: nat, epoch: nat :: StartReconnectLoop(attempt, epoch) in effects <==>
                  && ss[k].phase == Connected && !ss[k].loopActive && !UserAsked(ss, evs, k)
                  && evs[k].kind != GracefulRemoteExit && LatestAttempt(ss, evs, k, attempt)
                  && epoch == NextEpoch(ss[k].epoch))
            && (forall hint :: PublishDisconnected(hint) in effects <==>
                  && !ss[k].loopActive && hint == (ss[k].phase != Connected && evs[k].targetsLocalNetwork)
                  && !(ss[k].phase == Connected && !UserAsked(ss, evs, k) && evs[k].kind != GracefulRemoteExit
                       && exists attempt: nat :: LatestAttempt(ss, evs, k, attempt)))
  {
    FlagMeansUserAsked(ss, evs, k);
    forall attempt: nat ensures ss[k].lastAttempt == Some(attempt) <==> LatestAttempt(ss, evs, k, attempt) {
      RememberedAttemptIsTheLatest(ss, evs, k, attempt);
    }
    if ss[k].lastAttempt.Some? {
      assert LatestAttempt(ss, evs, k, ss[k].lastAttempt.value);
    }
    DisconnectDecides(ss[k], evs[k]);
  }

  /**
   A disconnect that the user asked for outside a loop starts no loop and is announced: the next
   disconnect after it, unless another manual connect came in between.
   */
  lemma {:induction false} UserDisconnectDoesNotReconnect(ss: seq<Reconnect>, evs: seq<ReconnectEvent>, u: nat, k: nat)
    requires IsRun(ss, evs) && u < k < |evs| && AsksToDisconnect(ss[u], evs[u]) && evs[k].AttemptDisconnected?
    requires forall m :: u < m < k ==> !evs[m].AttemptDisconnected? && !evs[m].ManualConnectStarted?
    ensures !StartsLoop(ss[k], evs[k]) && exists hint :: PublishDisconnected(hint) in Apply(ss[k], evs[k]).1
  {
    RequestKept(ss, evs, u, k);
    DisconnectDecides(ss[k], evs[k]);
    var hint := ss[k].phase != Connected && evs[k].targetsLocalNetwork;
    assert PublishDisconnected(hint) in Apply(ss[k], evs[k]).1;
  }

  lemma {:induction false} RequestKept(ss: seq<Reconnect>, evs: seq<ReconnectEvent>, u: nat, k: nat)
    requires IsRun(ss, evs) && u < k < |ss| && AsksToDisconnect(ss[u], evs[u])
    requires forall m :: u < m < k ==> !evs[m].AttemptDisconnected? && !evs[m].ManualConnectStarted?
    ensures ss[k].userInitiated && !ss[k].loopActive
    decreases k
  {
    if u < k - 1 {
      RequestKept(ss, evs, u, k - 1);
    }
    RequestStep(ss[k - 1], evs[k - 1]);
    NoLoopWithoutDisconnect(ss[k - 1], evs[k - 1]);
  }

  lemma NoLoopWithoutDisconnect(s: Reconnect, ev: ReconnectEvent)
    requires !s.loopActive && !ev.AttemptDisconnected?
    ensures !Apply(s, ev).0.loopActive
  {
  }

  // ---- Attempts and loops end exactly when they should ----

  /** An attempt in flight is over after exactly the events that end one. */
  lemma AttemptEndsIff(s: Reconnect, ev: ReconnectEvent)
    requires s.inFlight
    ensures !Apply(s, ev).0.inFlight <==> EndsAttempt(s, ev)
  {
    if !EndsAttempt(s, ev) {
      AttemptStaysInFlight(s, ev);
    }
  }

  /** A running loop is stopped by exactly the events that end one. */
  lemma LoopEndsIff(s: Reconnect, ev: ReconnectEvent)
    requires s.loopActive
    ensures !Apply(s, ev).0.loopActive <==> EndsLoop(s, ev)
  {
    if !EndsLoop(s, ev) {
      LoopStaysActive(s, ev);
    }
  }

  // ---- Pending wakes ----

  /** A wake of the live loop that finds an attempt in flight. */
  predicate RecordsWake(s: Reconnect, ev: ReconnectEvent) {
    ev.ReconnectWake? && LoopIsLive(s, ev.epoch) && s.inFlight
  }

  /** Uses a pending wake up, or makes it pointless. */
  predicate SettlesWake(s: Reconnect, ev: ReconnectEvent) {
    || StartsAttempt(s, ev) || ev.AttemptConnected? || Accepted(s, ev) || ev.CancelReconnect? || AbortsLoop(s, ev)
    || (ev.AttemptDisconnected? && !s.loopActive)
  }

  lemma TickWake(s: Reconnect, epoch: nat, policy: Policy)
    ensures OnReconnectTick(s, epoch, policy).0.pendingWake <==>
            s.pendingWake && !SettlesWake(s, ReconnectTick(epoch, policy))
  {
    if LoopIsLive(s, epoch) && !GivesUp(s, ReconnectTick(epoch, policy)) {
      if s.pendingWake && !s.inFlight {
        PendingWakeStartsAttempt(s, epoch, policy);
      } else if StartsAttempt(s, ReconnectTick(epoch, policy)) {
        TickStarts(s, epoch, policy);
      }
    }
  }

  lemma WakeWake(s: Reconnect, epoch: nat, policy: Policy)
    ensures OnReconnectWake(s, epoch, policy).0.pendingWake <==>
            RecordsWake(s, ReconnectWake(epoch, policy))
              || (s.pendingWake && !SettlesWake(s, ReconnectWake(epoch, policy)))
  {
    if LoopIsLive(s, epoch) && !s.inFlight {
      assert OnReconnectWake(s, epoch, policy).1[1].StartAttempt?;
    } else if StartsAttempt(s, ReconnectWake(epoch, policy)) {
      WakeStarts(s, epoch, policy);
    }
  }

  lemma WakePendsStep(s: Reconnect, ev: ReconnectEvent)
    ensures Apply(s, ev).0.pendingWake <==> RecordsWake(s, ev) || (s.pendingWake && !SettlesWake(s, ev))
  {
    match ev {
      case ReconnectTick(epoch, policy) => TickWake(s, epoch, policy);
      case ReconnectWake(epoch, policy) => WakeWake(s, epoch, policy);
      case _ => OthersStartNoAttempt(s, ev);
    }
  }

  /** Before step `k` a wake came during an attempt, and nothing used it up or made it pointless since. */
  ghost predicate WakeUnused(ss: seq<Reconnect>, evs: seq<ReconnectEvent>, k: nat)
    requires IsRun(ss, evs) && k < |ss|
  {
    exists u: nat :: u < k && RecordsWake(ss[u], evs[u]) && forall m :: u < m < k ==> !SettlesWake(ss[m], evs[m])
  }

  /** A wake is pending exactly if it was recorded and not used up: no wake leads to two attempts. */
  lemma {:induction false} PendingMeansUnused(ss: seq<Reconnect>, evs: seq<ReconnectEvent>, k: nat)
    requires IsRun(ss, evs) && ss[0] == DEFAULT && k < |ss|
    ensures ss[k].pendingWake <==> WakeUnused(ss, evs, k)
  {
    var up := seq(|ss|, m requires 0 <= m < |ss| => ss[m].pendingWake);
    var sets := seq(|evs|, m requires 0 <= m < |evs| <= |ss| => RecordsWake(ss[m], evs[m]));
    var clears := seq(|evs|, m requires 0 <= m < |evs| <= |ss| => SettlesWake(ss[m], evs[m]));
    forall m | 0 <= m < |sets| ensures up[m + 1] == (sets[m] || (up[m] && !clears[m])) {
      WakePendsStep(ss[m], evs[m]);
    }
    FlagIsUpIff(up, sets, clears, k);
    assert forall u: nat :: u < k ==> sets[u] == RecordsWake(ss[u], evs[u]);
    assert forall m: nat :: m < k ==> clears[m] == SettlesWake(ss[m], evs[m]);
  }

  // ---- The epoch ----

  lemma TickKeepsEpoch(s: Reconnect, epoch: nat, policy: Policy)
    ensures OnReconnectTick(s, epoch, policy).0.epoch ==
            if GivesUp(s, ReconnectTick(epoch, policy)) then NextEpoch(s.epoch) else s.epoch
  {
  }

  /** The epoch advances exactly when a loop starts and when loops are stopped, so that their events are stale. */
  lemma EpochAdvancesIff(s: Reconnect, ev: ReconnectEvent)
    ensures var advances := || Reconnects(s, ev) || ev.AttemptConnected? || Accepted(s, ev) || ev.CancelReconnect?
                            || (ev.UserDisconnect? && s.loopActive) || GivesUp(s, ev);
            Apply(s, ev).0.epoch == if advances then NextEpoch(s.epoch) else s.epoch
  {
    if ev.ReconnectTick? {
      TickKeepsEpoch(s, ev.epoch, ev.policy);
    }
  }

  // ---- The phase ----

  /** The phase after an event. */
  function PhaseAfter(s: Reconnect, ev: ReconnectEvent): ConnPhase {
    if ev.AttemptConnected? then Connected
    else if Accepted(s, ev) || ev.ReconnectSessionStarting? then Connecting
    else if || ev.AttemptDisconnected? || ev.ForegroundReconnectFailedSync?
            || (s.phase == Connecting
                 && (ev.ManualConnectFailedSync? || (ev.AttemptFailedSync? && ev.epoch == s.epoch)))
            || (s.loopActive && (ev.CancelReconnect? || ev.UserDisconnect?)) || GivesUp(s, ev)
    then Idle
    else s.phase
  }

  lemma TickPhase(s: Reconnect, epoch: nat, policy: Policy)
    ensures OnReconnectTick(s, epoch, policy).0.phase == PhaseAfter(s, ReconnectTick(epoch, policy))
  {
  }

  lemma PhaseFollowsEvents(s: Reconnect, ev: ReconnectEvent)
    ensures Apply(s, ev).0.phase == PhaseAfter(s, ev)
  {
    if ev.ReconnectTick? {
      TickPhase(s, ev.epoch, ev.policy);
    }
  }

  // ---- What the shell is asked to do ----

  /** The running loop is stopped together with the attempt it may have in flight. */
  predicate AbortsLoop(s: Reconnect, ev: ReconnectEvent) {
    (s.loopActive && (ev.CancelReconnect? || ev.UserDisconnect?)) || GivesUp(s, ev)
  }

  lemma TickAsks(s: Reconnect, epoch: nat, policy: Policy)
    ensures var effects, ev := OnReconnectTick(s, epoch, policy).1, ReconnectTick(epoch, policy);
            && (AbortInFlightAttempt in effects <==> AbortsLoop(s, ev))
            && DisconnectSession !in effects && InvalidatePathObserver !in effects
            && WakeReconnectLoop !in effects && ManualConnectRejected !in effects
  {
    var effects := OnReconnectTick(s, epoch, policy).1;
    if GivesUp(s, ReconnectTick(epoch, policy)) {
      assert effects[|effects| - 2] == AbortInFlightAttempt;
    }
  }

  lemma DisconnectAsks(s: Reconnect, ev: ReconnectEvent)
    requires ev.AttemptDisconnected?
    ensures var effects := Apply(s, ev).1;
            && AbortInFlightAttempt !in effects && DisconnectSession !in effects && ManualConnectRejected !in effects
            && effects[0] == InvalidatePathObserver
            && (WakeReconnectLoop in effects <==> s.loopActive && s.pendingWake)
  {
    DisconnectEffects(s, ev);
    var effects := Apply(s, ev).1;
    if s.loopActive && s.pendingWake {
      assert effects[|effects| - 1] == WakeReconnectLoop;
    }
  }

  lemma ManualAsks(s: Reconnect, attempt: nat)
    ensures var effects := OnManualConnectStarted(s, attempt).1;
            && (InvalidatePathObserver in effects <==> s.phase != Connecting)
            && (ManualConnectRejected in effects <==> s.phase == Connecting)
            && AbortInFlightAttempt !in effects && DisconnectSession !in effects && WakeReconnectLoop !in effects
  {
    var effects := OnManualConnectStarted(s, attempt).1;
    if s.phase != Connecting {
      assert effects[|effects| - 2] == InvalidatePathObserver;
    }
  }

  lemma StopAsks(s: Reconnect, ev: ReconnectEvent)
    requires ev.CancelReconnect? || ev.UserDisconnect?
    ensures var effects := Apply(s, ev).1;
            && (InvalidatePathObserver in effects <==> ev.UserDisconnect? && s.loopActive)
            && (AbortInFlightAttempt in effects <==> s.loopActive)
            && (DisconnectSession in effects <==> AsksToDisconnect(s, ev))
            && ManualConnectRejected !in effects && WakeReconnectLoop !in effects
  {
    var effects := Apply(s, ev).1;
    if s.loopActive {
      assert effects[|effects| - 2] == AbortInFlightAttempt;
      if ev.UserDisconnect? {
        assert effects[0] == InvalidatePathObserver;
      }
    } else if ev.UserDisconnect? {
      assert effects[0] == DisconnectSession;
    }
  }

  /**
   For every event: pending path losses are invalidated exactly by a disconnect, an accepted manual
   connect and a user's disconnect during a loop; the attempt in flight is aborted exactly when its
   loop is stopped from outside or gives up; the session is disconnected exactly at the user's request
   outside a loop; the loop is woken exactly when an attempt is lost with a wake pending; and a manual
   connect is rejected exactly while one is under way.
   */
  lemma ShellIsAskedIff(s: Reconnect, ev: ReconnectEvent)
    ensures var effects := Apply(s, ev).1;
            && (InvalidatePathObserver in effects <==>
                  ev.AttemptDisconnected? || Accepted(s, ev) || (ev.UserDisconnect? && s.loopActive))
            && (AbortInFlightAttempt in effects <==> AbortsLoop(s, ev))
            && (DisconnectSession in effects <==> AsksToDisconnect(s, ev))
            && (WakeReconnectLoop in effects <==> ev.AttemptDisconnected? && s.loopActive && s.pendingWake)
            && (ManualConnectRejected in effects <==> ev.ManualConnectStarted? && s.phase == Connecting)
  {
    match ev {
      case ReconnectTick(epoch, policy) => TickAsks(s, epoch, policy);
      case AttemptDisconnected(_, _, _) => DisconnectAsks(s, ev);
      case ManualConnectStarted(attempt) => ManualAsks(s, attempt);
      case CancelReconnect => StopAsks(s, ev);
      case UserDisconnect => StopAsks(s, ev);
      case _ => OthersAskNothing(s, ev);
    }
  }

  lemma OthersAskNothing(s: Reconnect, ev: ReconnectEvent)
    requires !ev.ReconnectTick? && !ev.AttemptDisconnected? && !ev.ManualConnectStarted?
    requires !ev.CancelReconnect? && !ev.UserDisconnect?
    ensures var effects := Apply(s, ev).1;
            && InvalidatePathObserver !in effects && AbortInFlightAttempt !in effects && DisconnectSession !in effects
            && WakeReconnectLoop !in effects && ManualConnectRejected !in effects
  {
  }

  // ---- Timers ----

  lemma TickTimer(s: Reconnect, epoch: nat, policy: Policy, e: nat, after: nat, secs: nat)
    requires ArmLoopTimer(e, after, secs) in OnReconnectTick(s, epoch, policy).1
    ensures var s' := OnReconnectTick(s, epoch, policy).0;
            e == s'.epoch == epoch && s'.clock.Some? && s'.clock.value.armed == policy && after == policy.tick
            && secs == s'.clock.value.elapsed / SECOND
  {
  }

  /** Every timer that is armed belongs to the live loop and waits for the tick of the event's policy. */
  lemma TimersWaitForTheTick(s: Reconnect, ev: ReconnectEvent, e: nat, after: nat, secs: nat)
    requires ArmLoopTimer(e, after, secs) in Apply(s, ev).1
    ensures ev.LoopStarted? || ev.ReconnectTick? || ev.ReconnectWake?
    ensures var s' := Apply(s, ev).0;
            e == s'.epoch == ev.epoch && s'.clock.Some? && s'.clock.value.armed == ev.policy && after == ev.policy.tick
            && secs == s'.clock.value.elapsed / SECOND
  {
    match ev {
      case ReconnectTick(epoch, policy) => TickTimer(s, epoch, policy, e, after, secs);
      case _ =>
    }
  }

  lemma TickReports(s: Reconnect, epoch: nat, policy: Policy)
    requires LoopIsLive(s, epoch)
    ensures var effects := OnReconnectTick(s, epoch, policy).1;
            && effects[0] == LoopTicked(epoch, s.clock.value.tickCount + 1,
                                        (s.clock.value.elapsed + s.clock.value.armed.tick) / SECOND)
            && forall e, source :: StartAttempt(e, source) in effects ==>
                                     e == epoch && source == if s.pendingWake then PendingWake else Tick
  {
  }

  /** An attempt names its loop and its reason: a pending wake, the retry interval, or a wake just now. */
  lemma AttemptsNameTheirReason(s: Reconnect, ev: ReconnectEvent, e: nat, source: AttemptSource)
    requires StartAttempt(e, source) in Apply(s, ev).1
    ensures (ev.ReconnectTick? || ev.ReconnectWake?) && e == ev.epoch == s.epoch
    ensures source == if ev.ReconnectWake? then NetworkWake else if s.pendingWake then PendingWake else Tick
  {
    var i :| 0 <= i < |Apply(s, ev).1| && Apply(s, ev).1[i] == StartAttempt(e, source);
    AttemptStartsAlone(s, ev);
    if ev.ReconnectTick? {
      TickReports(s, ev.epoch, ev.policy);
    }
  }

  /** The epoch stays within its 64 bits, and whole seconds within their 32. */
  lemma NumbersStayInRange(s: Reconnect, ev: ReconnectEvent, duration: nat)
    requires s.epoch <= U64_MAX
    ensures Apply(s, ev).0.epoch <= U64_MAX
    ensures Secs32(duration) < 0x1_0000_0000
    ensures duration < 0x1_0000_0000 * SECOND ==> Secs32(duration) == duration / SECOND
  {
    EpochAdvancesIff(s, ev);
  }

  // ---- Background ----

  /** The background state is reset exactly by the events after which no connection is being kept. */
  lemma BackgroundIsResetIff(s: Reconnect, ev: ReconnectEvent)
    ensures var resets := || Accepted(s, ev) || (ev.AttemptDisconnected? && !Apply(s, ev).0.loopActive)
                          || (s.loopActive && (ev.CancelReconnect? || ev.UserDisconnect?))
                          || (ev.LoopStartAborted? && ev.epoch == s.epoch);
            Apply(s, ev).0.background == if resets then Foreground else s.background
  {
    if ev.ReconnectTick? {
      TickBackground(s, ev.epoch, ev.policy);
    }
  }

  lemma TickBackground(s: Reconnect, epoch: nat, policy: Policy)
    ensures OnReconnectTick(s, epoch, policy).0.background == s.background
  {
  }
}
