/**
 Whole runs of the reconnect reducer (`rust-core/src/reconnect_fsm.rs:266-793`), from any state and
 with any events: attempts and loops never overlap, and a wake event that reaches the reducer is
 never lost.
 */
module ReconnectRuns {
  import opened Wrappers
  import opened ReconnectFsm

  ghost predicate IsRun(ss: seq<Reconnect>, evs: seq<ReconnectEvent>) {
    |ss| == |evs| + 1 && forall i :: 0 <= i < |evs| ==> ss[i + 1] == Apply(ss[i], evs[i]).0
  }

  predicate StartsAttempt(s: Reconnect, ev: ReconnectEvent) {
    var effects := Apply(s, ev).1;
    exists i :: 0 <= i < |effects| && effects[i].StartAttempt?
  }

  predicate StartsLoop(s: Reconnect, ev: ReconnectEvent) {
    var effects := Apply(s, ev).1;
    exists i :: 0 <= i < |effects| && effects[i].StartReconnectLoop?
  }

  /** The loop's timer expired and no time is left for another attempt. */
  predicate GivesUp(s: Reconnect, ev: ReconnectEvent) {
    && ev.ReconnectTick? && LoopIsLive(s, ev.epoch)
    && s.clock.value.elapsed + s.clock.value.armed.tick >= s.clock.value.armed.timeout
  }

  /** The attempt in flight got its result, or its loop was stopped. */
  predicate EndsAttempt(s: Reconnect, ev: ReconnectEvent) {
    || ev.AttemptConnected? || ev.AttemptDisconnected? || (ev.AttemptFailedSync? && ev.epoch == s.epoch)
    || (ev.ManualConnectStarted? && s.phase != Connecting)
    || ev.CancelReconnect? || (ev.UserDisconnect? && s.loopActive) || GivesUp(s, ev)
  }

  /** The running loop was stopped. */
  predicate EndsLoop(s: Reconnect, ev: ReconnectEvent) {
    || ev.AttemptConnected? || (ev.ManualConnectStarted? && s.phase != Connecting)
    || ev.CancelReconnect? || ev.UserDisconnect? || GivesUp(s, ev)
    || (ev.LoopStartAborted? && ev.epoch == s.epoch)
  }

  // ---- One event ----

  lemma TickStarts(s: Reconnect, epoch: nat, policy: Policy)
    requires StartsAttempt(s, ReconnectTick(epoch, policy))
    ensures LoopIsLive(s, epoch) && !s.inFlight && !GivesUp(s, ReconnectTick(epoch, policy))
    ensures OnReconnectTick(s, epoch, policy).0.inFlight
  {
    var effects := Apply(s, ReconnectTick(epoch, policy)).1;
    var i :| 0 <= i < |effects| && effects[i].StartAttempt?;
  }

  lemma WakeStarts(s: Reconnect, epoch: nat, policy: Policy)
    requires StartsAttempt(s, ReconnectWake(epoch, policy))
    ensures LoopIsLive(s, epoch) && !s.inFlight && OnReconnectWake(s, epoch, policy).0.inFlight
  {
  }

  lemma OthersStartNoAttempt(s: Reconnect, ev: ReconnectEvent)
    requires !ev.ReconnectTick? && !ev.ReconnectWake?
    ensures !StartsAttempt(s, ev)
  {
    if ev.AttemptDisconnected? {
      var effects := OnAttemptDisconnected(s, ev.kind, ev.targetsLocalNetwork).1;
      assert forall i :: 0 <= i < |effects| ==> !effects[i].StartAttempt?;
    }
  }

  /** An attempt starts only in the live loop, and only when none is in flight. */
  lemma AttemptStartsAlone(s: Reconnect, ev: ReconnectEvent)
    requires StartsAttempt(s, ev)
    ensures !s.inFlight && Apply(s, ev).0.inFlight
    ensures (ev.ReconnectTick? || ev.ReconnectWake?) && LoopIsLive(s, ev.epoch)
  {
    match ev {
      case ReconnectTick(epoch, policy) => TickStarts(s, epoch, policy);
      case ReconnectWake(epoch, policy) => WakeStarts(s, epoch, policy);
      case _ => OthersStartNoAttempt(s, ev);
    }
  }

  lemma TickKeepsFlags(s: Reconnect, epoch: nat, policy: Policy)
    requires !GivesUp(s, ReconnectTick(epoch, policy))
    ensures var s' := OnReconnectTick(s, epoch, policy).0;
            && s'.loopActive == s.loopActive && s'.epoch == s.epoch && (s.inFlight ==> s'.inFlight)
            && (s.inFlight ==> s'.pendingWake == s.pendingWake) && (s.clock.Some? ==> s'.clock.Some?)
  {
  }

  /** Nothing else takes an attempt out of flight. */
  lemma AttemptStaysInFlight(s: Reconnect, ev: ReconnectEvent)
    requires s.inFlight && !EndsAttempt(s, ev)
    ensures Apply(s, ev).0.inFlight
  {
    if ev.ReconnectTick? {
      TickKeepsFlags(s, ev.epoch, ev.policy);
    }
  }

  /** Only an unexpected disconnect starts a loop. */
  lemma OthersStartNoLoop(s: Reconnect, ev: ReconnectEvent)
    requires !ev.AttemptDisconnected? && !ev.ReconnectTick?
    ensures !StartsLoop(s, ev)
  {
  }

  lemma NoLoopFromTick(s: Reconnect, epoch: nat, policy: Policy)
    ensures !StartsLoop(s, ReconnectTick(epoch, policy))
  {
    var effects := OnReconnectTick(s, epoch, policy).1;
    assert forall i :: 0 <= i < |effects| ==> !effects[i].StartReconnectLoop?;
  }

  lemma LoopFromDisconnect(s: Reconnect, ev: ReconnectEvent)
    requires ev.AttemptDisconnected? && StartsLoop(s, ev)
    ensures !s.loopActive && Apply(s, ev).0.loopActive
  {
  }

  lemma LoopStartsAlone(s: Reconnect, ev: ReconnectEvent)
    requires StartsLoop(s, ev)
    ensures ev.AttemptDisconnected? && !s.loopActive && Apply(s, ev).0.loopActive
  {
    if ev.AttemptDisconnected? {
      LoopFromDisconnect(s, ev);
    } else if ev.ReconnectTick? {
      NoLoopFromTick(s, ev.epoch, ev.policy);
    } else {
      OthersStartNoLoop(s, ev);
    }
  }

  lemma LoopStaysActive(s: Reconnect, ev: ReconnectEvent)
    requires s.loopActive && !EndsLoop(s, ev)
    ensures Apply(s, ev).0.loopActive && Apply(s, ev).0.epoch == s.epoch
  {
    if ev.ReconnectTick? {
      TickKeepsFlags(s, ev.epoch, ev.policy);
    }
  }

  // ---- Runs ----

  /** Between two attempts, the first one ended. */
  lemma {:induction false} AttemptsNeverOverlap(ss: seq<Reconnect>, evs: seq<ReconnectEvent>, i: nat, j: nat)
    returns (k: nat)
    requires IsRun(ss, evs) && i < j < |evs| && StartsAttempt(ss[i], evs[i]) && StartsAttempt(ss[j], evs[j])
    ensures i < k < j && EndsAttempt(ss[k], evs[k])
  {
    AttemptStartsAlone(ss[i], evs[i]);
    AttemptStartsAlone(ss[j], evs[j]);
    k := FirstEndOfAttempt(ss, evs, i + 1, j);
  }

  lemma {:induction false} FirstEndOfAttempt(ss: seq<Reconnect>, evs: seq<ReconnectEvent>, i: nat, j: nat)
    returns (k: nat)
    requires IsRun(ss, evs) && i <= j <= |evs| && ss[i].inFlight && !ss[j].inFlight
    ensures i <= k < j && EndsAttempt(ss[k], evs[k])
    decreases j - i
  {
    if EndsAttempt(ss[i], evs[i]) {
      k := i;
    } else {
      AttemptStaysInFlight(ss[i], evs[i]);
      k := FirstEndOfAttempt(ss, evs, i + 1, j);
    }
  }

  /** Between two reconnect loops, the first one was stopped. */
  lemma {:induction false} LoopsNeverOverlap(ss: seq<Reconnect>, evs: seq<ReconnectEvent>, i: nat, j: nat)
    returns (k: nat)
    requires IsRun(ss, evs) && i < j < |evs| && StartsLoop(ss[i], evs[i]) && StartsLoop(ss[j], evs[j])
    ensures i < k < j && EndsLoop(ss[k], evs[k])
  {
    LoopStartsAlone(ss[i], evs[i]);
    LoopStartsAlone(ss[j], evs[j]);
    k := FirstEndOfLoop(ss, evs, i + 1, j);
  }

  lemma {:induction false} FirstEndOfLoop(ss: seq<Reconnect>, evs: seq<ReconnectEvent>, i: nat, j: nat) returns (k: nat)
    requires IsRun(ss, evs) && i <= j <= |evs| && ss[i].loopActive && !ss[j].loopActive
    ensures i <= k < j && EndsLoop(ss[k], evs[k])
    decreases j - i
  {
    if EndsLoop(ss[i], evs[i]) {
      k := i;
    } else {
      LoopStaysActive(ss[i], evs[i]);
      k := FirstEndOfLoop(ss, evs, i + 1, j);
    }
  }

  // ---- Wakes ----

  lemma TickKeepsWake(s: Reconnect, epoch: nat, policy: Policy)
    requires s.pendingWake && !GivesUp(s, ReconnectTick(epoch, policy))
             && !StartsAttempt(s, ReconnectTick(epoch, policy))
    ensures OnReconnectTick(s, epoch, policy).0.pendingWake
  {
    if LoopIsLive(s, epoch) && !s.inFlight {
      PendingWakeStartsAttempt(s, epoch, policy);
    }
  }

  /** With no attempt in flight, the next tick or wake of the live loop turns a pending wake into an attempt. */
  lemma PendingWakeStartsAttempt(s: Reconnect, epoch: nat, policy: Policy)
    requires s.pendingWake && !s.inFlight && LoopIsLive(s, epoch)
    ensures StartsAttempt(s, ReconnectWake(epoch, policy))
    ensures !GivesUp(s, ReconnectTick(epoch, policy)) ==> StartsAttempt(s, ReconnectTick(epoch, policy))
  {
    assert OnReconnectWake(s, epoch, policy).1[1].StartAttempt?;
    if !GivesUp(s, ReconnectTick(epoch, policy)) {
      assert OnReconnectTick(s, epoch, policy).1[2].StartAttempt?;
    }
  }

  lemma WakeStaysPending(s: Reconnect, ev: ReconnectEvent)
    requires s.pendingWake && s.loopActive && !EndsLoop(s, ev) && !StartsAttempt(s, ev)
    ensures Apply(s, ev).0.pendingWake
  {
    match ev {
      case ReconnectTick(epoch, policy) => TickKeepsWake(s, epoch, policy);
      case ReconnectWake(epoch, policy) =>
        if LoopIsLive(s, epoch) && !s.inFlight {
          PendingWakeStartsAttempt(s, epoch, policy);
        }
      case _ =>
    }
  }

  /** A wake of the live loop starts an attempt at once or is remembered. */
  lemma WakeIsTaken(s: Reconnect, epoch: nat, policy: Policy)
    requires LoopIsLive(s, epoch)
    ensures var s' := OnReconnectWake(s, epoch, policy).0;
            StartsAttempt(s, ReconnectWake(epoch, policy)) || (s'.pendingWake && s'.loopActive)
  {
    if !s.inFlight {
      assert OnReconnectWake(s, epoch, policy).1[1].StartAttempt?;
    }
  }

  /**
   A remembered wake survives every event until it has become an attempt or the loop is stopped;
   and when the attempt in flight is reported as lost meanwhile, the loop is woken.
   */
  lemma {:induction false} WakeIsNeverLost(ss: seq<Reconnect>, evs: seq<ReconnectEvent>, i: nat, n: nat)
    requires IsRun(ss, evs) && i < n < |ss|
    requires evs[i].ReconnectWake? && LoopIsLive(ss[i], evs[i].epoch)
    requires forall k :: i <= k < n ==> !StartsAttempt(ss[k], evs[k]) && !EndsLoop(ss[k], evs[k])
    ensures ss[n].pendingWake && ss[n].loopActive && ss[n].epoch == ss[i].epoch
    ensures forall kind, local :: WakeReconnectLoop in OnAttemptDisconnected(ss[n], kind, local).1
    decreases n
  {
    if n == i + 1 {
      WakeIsTaken(ss[i], evs[i].epoch, evs[i].policy);
      LoopStaysActive(ss[i], evs[i]);
    } else {
      WakeIsNeverLost(ss, evs, i, n - 1);
      WakeStaysPending(ss[n - 1], evs[n - 1]);
      LoopStaysActive(ss[n - 1], evs[n - 1]);
    }
    forall kind, local ensures WakeReconnectLoop in OnAttemptDisconnected(ss[n], kind, local).1 {
      LostAttemptWakesLoop(ss[n], kind, local);
    }
  }

  lemma LostAttemptWakesLoop(s: Reconnect, kind: DisconnectKind, local: bool)
    requires s.pendingWake && s.loopActive
    ensures WakeReconnectLoop in OnAttemptDisconnected(s, kind, local).1
  {
    var effects := OnAttemptDisconnected(s, kind, local).1;
    assert effects[|effects| - 1] == WakeReconnectLoop;
  }

  // ---- Stale events ----

  /** Events of a loop that is no longer live change nothing and ask for nothing. */
  lemma StaleLoopEventsAreIgnored(s: Reconnect, ev: ReconnectEvent)
    requires ev.LoopStarted? || ev.ReconnectTick? || ev.ReconnectWake? || ev.AttemptFailedSync? || ev.LoopStartAborted?
    requires ev.epoch != s.epoch
    ensures Apply(s, ev) == (s, [])
  {
  }
}
