/**
 What the user interface is told: the publications that each event stages
 (`rust-core/src/orchestrator.rs:975-1048`), spelled out from the state and the event, and what that
 means over runs.
 */
module StagedStates {
  import opened Wrappers
  import opened ConnectionEvents
  import opened ReconnectFsm
  import opened ReconnectRuns
  import opened ReconnectDecisions
  import opened ReconnectTimeout
  import opened OrchestratorCore
  import Publications
  import R = OrchestratorRuns

  // ---- One event ----

  /** The loss of the open edge, if one is open. */
  function LostEdge(s: Reconnect): seq<Publication> {
    if s.edgeOpen.Some? then [EdgeSeen(Lost(s.edgeOpen.value))] else []
  }

  function LostOtherEdge(s: Reconnect, generation: nat): seq<Publication> {
    if s.edgeOpen == Some(generation) then [] else LostEdge(s)
  }

  /** A generation is new if it is later than every generation established so far. */
  predicate IsNew(s: Reconnect, generation: nat) {
    s.lastEstablished.Some? ==> s.lastEstablished.value < generation
  }

  /** What a tick shows: the time that has expired, or that the time is over. */
  function ShownByTick(s: Reconnect, epoch: nat): seq<Publication> {
    if !LoopIsLive(s, epoch) then []
    else
      var armed, expired := s.clock.value.armed, s.clock.value.elapsed + s.clock.value.armed.tick;
      if expired >= armed.timeout then LostEdge(s) + [StateChanged(ShowTimedOut(Secs32(armed.timeout)))]
      else [StateChanged(ShowReconnecting(Secs32(expired), Secs32(armed.timeout)))]
  }

  /** What an event shows. */
  function Shown(s: Reconnect, ev: ReconnectEvent): seq<Publication> {
    match ev
    case AttemptConnected(g) =>
      LostOtherEdge(s, g) + [StateChanged(ShowConnected)]
      + if IsNew(s, g) && s.edgeOpen != Some(g) then [EdgeSeen(Established(g))] else []
    case AttemptDisconnected(_, _, local) =>
      LostEdge(s) + if s.loopActive || Reconnects(s, ev) then []
                    else [StateChanged(ShowDisconnected(s.phase != Connected && local))]
    case SessionCreated(g) => LostOtherEdge(s, g)
    case ManualConnectStarted(_) => if s.phase == Connecting then [] else LostEdge(s) + [StateChanged(ShowConnecting)]
    case ReconnectSessionStarting => LostEdge(s)
    case ForegroundReconnectFailedSync => LostEdge(s) + [StateChanged(ShowDisconnected(false))]
    case LoopStarted(epoch, policy) =>
      if epoch == s.epoch && s.loopActive
        && s.clock.None? then [StateChanged(ShowReconnecting(0, Secs32(policy.timeout)))]
      else []
    case ReconnectWake(_, _) => []
    case ReconnectTick(epoch, _) => ShownByTick(s, epoch)
    case AttemptFailedSync(epoch) => if epoch == s.epoch && s.phase == Connecting then LostEdge(s) else []
    case ManualConnectFailedSync => if s.phase == Connecting then LostEdge(s) else []
    case CancelReconnect => if s.loopActive then LostEdge(s) + [StateChanged(ShowDisconnected(false))] else []
    case UserDisconnect => if s.loopActive then LostEdge(s) + [StateChanged(ShowDisconnected(false))] else []
    case LoopStartAborted(epoch) => if epoch == s.epoch then [StateChanged(ShowDisconnected(false))] else []
  }

  lemma PublicationsSnoc(a: seq<ReconnectEffect>, e: ReconnectEffect)
    ensures PublicationsOf(a + [e]) == PublicationsOf(a) + PublicationOf(e)
  {
    assert (a + [e])[..|a|] == a;
  }

  lemma {:induction false} PublicationsAppend(a: seq<ReconnectEffect>, b: seq<ReconnectEffect>)
    ensures PublicationsOf(a + b) == PublicationsOf(a) + PublicationsOf(b)
    decreases |b|
  {
    if b == [] {
      assert a + b == a;
    } else {
      var front, e := b[..|b| - 1], b[|b| - 1];
      assert b == front + [e] && a + b == a + front + [e];
      PublicationsAppend(a, front);
      PublicationsSnoc(a + front, e);
      PublicationsSnoc(front, e);
      Publications.AppendAssociates(PublicationsOf(a), PublicationsOf(front), PublicationOf(e));
    }
  }

  lemma {:induction false} PublicationsOfOne(e: ReconnectEffect)
    ensures PublicationsOf([e]) == PublicationOf(e)
  {
    var none: seq<ReconnectEffect> := [];
    PublicationsSnoc(none, e);
    assert none + [e] == [e] && PublicationsOf(none) == [];
  }

  lemma {:induction false} PublicationsOfTwo(e: ReconnectEffect, f: ReconnectEffect)
    ensures PublicationsOf([e, f]) == PublicationOf(e) + PublicationOf(f)
  {
    assert [e, f] == [e] + [f];
    PublicationsAppend([e], [f]);
    PublicationsOfOne(e);
    PublicationsOfOne(f);
  }

  /** Something before, possibly the loss of the open edge, something after. */
  lemma {:induction false} PublicationsAround(front: seq<ReconnectEffect>, s: Reconnect, back: seq<ReconnectEffect>)
    ensures PublicationsOf(front + CloseEdge(s).1 + back) == PublicationsOf(front) + LostEdge(s) + PublicationsOf(back)
  {
    ClosingShows(s);
    PublicationsAppend(front, CloseEdge(s).1);
    PublicationsAppend(front + CloseEdge(s).1, back);
  }

  lemma ClosingShows(s: Reconnect)
    ensures PublicationsOf(CloseEdge(s).1) == LostEdge(s)
  {
    if s.edgeOpen.Some? {
      PublicationsOfOne(EdgeLost(s.edgeOpen.value));
    }
  }

  lemma ConnectedEffects(s: Reconnect, g: nat)
    requires s.edgeOpen.Some? ==> s.edgeOpen == s.lastEstablished
    ensures OnAttemptConnected(s, g).1 ==
            (if s.edgeOpen == Some(g) then [] else CloseEdge(s).1) + [PublishConnected]
            + (if IsNew(s, g) && s.edgeOpen != Some(g) then [EdgeEstablished(g)] else [])
  {
  }

  lemma {:induction false} ConnectedShows(s: Reconnect, g: nat)
    requires s.edgeOpen.Some? ==> s.edgeOpen == s.lastEstablished
    ensures PublicationsOf(OnAttemptConnected(s, g).1) == Shown(s, AttemptConnected(g))
  {
    ConnectedEffects(s, g);
    var closing := if s.edgeOpen == Some(g) then [] else CloseEdge(s).1;
    var last := if IsNew(s, g) && s.edgeOpen != Some(g) then [EdgeEstablished(g)] else [];
    ClosingShows(s);
    PublicationsOfOne(PublishConnected);
    PublicationsOfOne(EdgeEstablished(g));
    PublicationsAppend(closing, [PublishConnected]);
    PublicationsAppend(closing + [PublishConnected], last);
  }

  lemma {:induction false} AfterDisconnectShows(s: Reconnect, ev: ReconnectEvent)
    requires ev.AttemptDisconnected?
    ensures PublicationsOf(AfterDisconnect(s, ev)) ==
            if s.loopActive || Reconnects(s, ev) then []
            else [StateChanged(ShowDisconnected(s.phase != Connected && ev.targetsLocalNetwork))]
  {
    var tail := AfterDisconnect(s, ev);
    if tail != [] {
      PublicationsOfOne(tail[0]);
      assert tail == [tail[0]];
    }
  }

  lemma {:induction false} DisconnectTailShows(s: Reconnect, ev: ReconnectEvent, effects: seq<ReconnectEffect>)
    requires ev.AttemptDisconnected? && effects == [InvalidatePathObserver] + CloseEdge(s).1 + AfterDisconnect(s, ev)
    ensures PublicationsOf(effects) == Shown(s, ev)
  {
    PublicationsAround([InvalidatePathObserver], s, AfterDisconnect(s, ev));
    PublicationsOfOne(InvalidatePathObserver);
    AfterDisconnectShows(s, ev);
  }

  lemma {:induction false} DisconnectedShows(s: Reconnect, ev: ReconnectEvent)
    requires ev.AttemptDisconnected?
    ensures PublicationsOf(Apply(s, ev).1) == Shown(s, ev)
  {
    DisconnectEffects(s, ev);
    DisconnectTailShows(s, ev, Apply(s, ev).1);
  }

  lemma {:induction false} SilentEffects(effects: seq<ReconnectEffect>)
    requires forall i :: 0 <= i < |effects| ==> effects[i].StartAttempt? || effects[i].ArmLoopTimer?
    ensures PublicationsOf(effects) == []
    decreases |effects|
  {
    if effects != [] {
      var front, e := effects[..|effects| - 1], effects[|effects| - 1];
      SilentEffects(front);
      PublicationsSnoc(front, e);
      assert effects == front + [e];
    }
  }

  lemma TickEffects(s: Reconnect, epoch: nat, policy: Policy)
    requires LoopIsLive(s, epoch) && !GivesUp(s, ReconnectTick(epoch, policy))
    ensures var effects := OnReconnectTick(s, epoch, policy).1;
            var armed := s.clock.value.armed;
            && |effects| >= 2 && effects[0].LoopTicked?
            && effects[1] == PublishReconnecting(Secs32(s.clock.value.elapsed + armed.tick), Secs32(armed.timeout))
            && forall i :: 2 <= i < |effects| ==> effects[i].StartAttempt? || effects[i].ArmLoopTimer?
  {
  }

  lemma GiveUpEffects(s: Reconnect, epoch: nat, policy: Policy)
    requires GivesUp(s, ReconnectTick(epoch, policy))
    ensures var effects := OnReconnectTick(s, epoch, policy).1;
            && |effects| > 0 && effects[0].LoopTicked?
            && effects == [effects[0]] + CloseEdge(s).1
                          + [AbortInFlightAttempt, PublishReconnectTimedOut(Secs32(s.clock.value.armed.timeout))]
  {
  }

  /** A first effect that shows nothing, the loss of the edge, an abort and one publication. */
  lemma {:induction false} AbortingShows(effects: seq<ReconnectEffect>, first: seq<ReconnectEffect>, s: Reconnect,
                                         last: ReconnectEffect)
    requires effects == first + CloseEdge(s).1 + [AbortInFlightAttempt, last]
    requires first == [] || (|first| == 1 && (first[0].LoopTicked? || first[0].InvalidatePathObserver?))
    ensures PublicationsOf(effects) == LostEdge(s) + PublicationOf(last)
  {
    PublicationsAround(first, s, [AbortInFlightAttempt, last]);
    PublicationsOfTwo(AbortInFlightAttempt, last);
    if first != [] {
      PublicationsOfOne(first[0]);
      assert first == [first[0]];
    }
  }

  /** Two effects and then only silent ones. */
  lemma {:induction false} LeadingShows(effects: seq<ReconnectEffect>)
    requires |effects| >= 2
    requires forall i :: 2 <= i < |effects| ==> effects[i].StartAttempt? || effects[i].ArmLoopTimer?
    ensures PublicationsOf(effects) == PublicationOf(effects[0]) + PublicationOf(effects[1])
  {
    assert effects == [effects[0], effects[1]] + effects[2..];
    PublicationsAppend([effects[0], effects[1]], effects[2..]);
    PublicationsOfTwo(effects[0], effects[1]);
    SilentEffects(effects[2..]);
  }

  lemma {:induction false} TickShows(s: Reconnect, epoch: nat, policy: Policy)
    ensures PublicationsOf(OnReconnectTick(s, epoch, policy).1) == ShownByTick(s, epoch)
  {
    var effects := OnReconnectTick(s, epoch, policy).1;
    if GivesUp(s, ReconnectTick(epoch, policy)) {
      GiveUpEffects(s, epoch, policy);
      AbortingShows(effects, [effects[0]], s, PublishReconnectTimedOut(Secs32(s.clock.value.armed.timeout)));
    } else if LoopIsLive(s, epoch) {
      TickEffects(s, epoch, policy);
      LeadingShows(effects);
    }
  }

  lemma ManualShows(s: Reconnect, attempt: nat)
    ensures PublicationsOf(OnManualConnectStarted(s, attempt).1) == Shown(s, ManualConnectStarted(attempt))
  {
    ClosingShows(s);
    PublicationsOfOne(ManualConnectRejected);
    PublicationsOfTwo(InvalidatePathObserver, PublishConnecting);
    PublicationsAppend(CloseEdge(s).1, [InvalidatePathObserver, PublishConnecting]);
  }

  lemma StopEffects(s: Reconnect, ev: ReconnectEvent)
    requires (ev.CancelReconnect? || ev.UserDisconnect?) && s.loopActive
    ensures Apply(s, ev).1 == (if ev.UserDisconnect? then [InvalidatePathObserver] else []) + CloseEdge(s).1
                              + [AbortInFlightAttempt, PublishDisconnected(false)]
  {
  }

  lemma {:induction false} StopShows(s: Reconnect, ev: ReconnectEvent)
    requires ev.CancelReconnect? || ev.UserDisconnect?
    ensures PublicationsOf(Apply(s, ev).1) == Shown(s, ev)
  {
    if s.loopActive {
      StopEffects(s, ev);
      var first := if ev.UserDisconnect? then [InvalidatePathObserver] else [];
      AbortingShows(Apply(s, ev).1, first, s, PublishDisconnected(false));
    } else {
      PublicationsOfOne(DisconnectSession);
    }
  }

  lemma {:induction false} LoopStartShows(s: Reconnect, epoch: nat, policy: Policy)
    ensures PublicationsOf(OnLoopStarted(s, epoch, policy).1) == Shown(s, LoopStarted(epoch, policy))
  {
    var effects := OnLoopStarted(s, epoch, policy).1;
    if effects != [] {
      assert effects == [effects[0], effects[1]];
      PublicationsOfTwo(effects[0], effects[1]);
    }
  }

  lemma WakeEffects(s: Reconnect, epoch: nat, policy: Policy)
    requires LoopIsLive(s, epoch)
    ensures var effects := OnReconnectWake(s, epoch, policy).1;
            && |effects| == 3 && effects[0].LoopWokeEarly? && effects[2].ArmLoopTimer?
            && (effects[1].StartAttempt? || effects[1].PendingWakeRecorded?)
  {
  }

  lemma {:induction false} WakeShows(s: Reconnect, epoch: nat, policy: Policy)
    ensures PublicationsOf(OnReconnectWake(s, epoch, policy).1) == []
  {
    if LoopIsLive(s, epoch) {
      WakeEffects(s, epoch, policy);
      LeadingShows(OnReconnectWake(s, epoch, policy).1);
    }
  }

  lemma PlainShows(s: Reconnect, ev: ReconnectEvent)
    requires ev.SessionCreated? || ev.ReconnectSessionStarting? || ev.AttemptFailedSync? || ev.ManualConnectFailedSync?
             || ev.ForegroundReconnectFailedSync?
    ensures PublicationsOf(Apply(s, ev).1) == Shown(s, ev)
  {
    ClosingShows(s);
    PublicationsOfOne(PublishDisconnected(false));
    PublicationsAppend(CloseEdge(s).1, [PublishDisconnected(false)]);
  }

  /** Every event stages exactly what it is to show. */
  lemma EventShows(s: Reconnect, ev: ReconnectEvent)
    requires s.edgeOpen.Some? ==> s.edgeOpen == s.lastEstablished
    ensures PublicationsOf(Apply(s, ev).1) == Shown(s, ev)
  {
    match ev {
      case AttemptConnected(g) => ConnectedShows(s, g);
      case AttemptDisconnected(_, _, _) => DisconnectedShows(s, ev);
      case ReconnectTick(epoch, policy) => TickShows(s, epoch, policy);
      case ManualConnectStarted(attempt) => ManualShows(s, attempt);
      case CancelReconnect => StopShows(s, ev);
      case UserDisconnect => StopShows(s, ev);
      case LoopStarted(epoch, policy) => LoopStartShows(s, epoch, policy);
      case ReconnectWake(epoch, policy) => WakeShows(s, epoch, policy);
      case LoopStartAborted(_) => PublicationsOfOne(PublishDisconnected(false));
      case _ => PlainShows(s, ev);
    }
  }

  // ---- Generations ----

  lemma {:induction false} AbortsAppend(a: seq<ReconnectEffect>, b: seq<ReconnectEffect>)
    ensures Aborts(a + b) == Aborts(a) + Aborts(b)
    decreases |b|
  {
    if b == [] {
      assert a + b == a;
    } else {
      assert (a + b)[..|a + b| - 1] == a + b[..|b| - 1];
      AbortsAppend(a, b[..|b| - 1]);
    }
  }

  lemma {:induction false} OneAbort(effects: seq<ReconnectEffect>, front: seq<ReconnectEffect>, last: ReconnectEffect)
    requires effects == front + [AbortInFlightAttempt, last] && AbortInFlightAttempt !in front
    requires last != AbortInFlightAttempt
    ensures Aborts(effects) == 1
  {
    R.NoAborts(front);
    AbortsAppend(front, [AbortInFlightAttempt, last]);
    assert [AbortInFlightAttempt, last][..1] == [AbortInFlightAttempt] && [AbortInFlightAttempt][..0] == [];
  }

  lemma {:induction false} AbortsCount(s: Reconnect, ev: ReconnectEvent)
    ensures Aborts(Apply(s, ev).1) == if AbortsLoop(s, ev) then 1 else 0
  {
    var effects := Apply(s, ev).1;
    ShellIsAskedIff(s, ev);
    if !AbortsLoop(s, ev) {
      R.NoAborts(effects);
    } else if ev.ReconnectTick? {
      GiveUpEffects(s, ev.epoch, ev.policy);
      OneAbort(effects, [effects[0]] + CloseEdge(s).1, PublishReconnectTimedOut(Secs32(s.clock.value.armed.timeout)));
    } else {
      StopEffects(s, ev);
      var first := if ev.UserDisconnect? then [InvalidatePathObserver] else [];
      OneAbort(effects, first + CloseEdge(s).1, PublishDisconnected(false));
    }
  }

  /**
   The session generation advances by one exactly when a session is created and when a loop is
   stopped together with its attempt, so that the callbacks of an aborted attempt are stale; it never
   changes otherwise.
   */
  lemma {:induction false} GenerationAdvancesIff(w: R.World, l: R.Label)
    requires R.Enabled(w, l)
    ensures var aborts := l.Change? && AbortsLoop(w.core.reconnect, l.event);
            R.Next(w, l).core.generation == w.core.generation + if l.CreateAdapter? || aborts then 1 else 0
  {
    R.StepAppliesEvent(w, l);
    if R.Applied(w, l).Some? {
      AbortsCount(R.Applied(w, l).value.0.reconnect, R.Applied(w, l).value.1);
    }
  }

  // ---- Runs ----

  /** What a step of the orchestrator shows. */
  function ShownIn(w: R.World, l: R.Label): seq<Publication>
    requires R.Enabled(w, l)
  {
    match R.Applied(w, l)
    case None => []
    case Some(a) => Shown(a.0.reconnect, a.1)
  }

  /** In every run, each step stages exactly what the event it applies is to show. */
  lemma StepShows(ws: seq<R.World>, ls: seq<R.Label>, i: nat)
    requires R.IsRun(ws, ls) && i < |ls|
    ensures ws[i + 1].queue.staged == ws[i].queue.staged + ShownIn(ws[i], ls[i])
  {
    R.RunKeepsInv(ws, ls, i);
    R.StepAppliesEvent(ws[i], ls[i]);
    if R.Applied(ws[i], ls[i]).Some? {
      var (c, ev) := R.Applied(ws[i], ls[i]).value;
      assert c.reconnect == ws[i].core.reconnect;
      EventShows(c.reconnect, ev);
    }
  }

  lemma EstablishedIsShownLast(s: Reconnect, g: nat, x: nat)
    requires x < |Shown(s, AttemptConnected(g))| && Shown(s, AttemptConnected(g))[x] == EdgeSeen(Established(g))
    ensures x > 0 && Shown(s, AttemptConnected(g))[x - 1] == StateChanged(ShowConnected)
  {
  }

  /** Every established edge ever staged directly follows the state that shows the connection. */
  lemma EstablishedFollowsConnected(ws: seq<R.World>, ls: seq<R.Label>, n: nat, x: nat)
    requires R.IsRun(ws, ls) && n < |ws| && x < |ws[n].queue.staged|
    requires ws[n].queue.staged[x].EdgeSeen? && ws[n].queue.staged[x].edge.Established?
    ensures x > 0 && ws[n].queue.staged[x - 1] == StateChanged(ShowConnected)
  {
    var i := R.EstablishedEdgesNameTheCurrentGeneration(ws, ls, n, x);
    var g := ws[n].queue.staged[x].edge.generation;
    StepShows(ws, ls, i);
    StagedIsKept(ws, ls, i + 1, n);
    var before := |ws[i].queue.staged|;
    assert ws[i + 1].queue.staged[x] == ShownIn(ws[i], ls[i])[x - before];
    EstablishedIsShownLast(ws[i].core.reconnect, g, x - before);
    assert ws[i + 1].queue.staged[x - 1] == ShownIn(ws[i], ls[i])[x - 1 - before];
  }

  /** A sequence that only ever grows at its end keeps what it had. */
  lemma {:induction false} GrowingKeeps(qs: seq<seq<Publication>>, i: nat, n: nat)
    requires i <= n < |qs|
    requires forall m :: i <= m < n ==> |qs[m]| <= |qs[m + 1]| && qs[m + 1][..|qs[m]|] == qs[m]
    ensures |qs[i]| <= |qs[n]| && qs[n][..|qs[i]|] == qs[i]
    decreases n
  {
    if i < n {
      GrowingKeeps(qs, i, n - 1);
      assert qs[n][..|qs[i]|] == qs[n][..|qs[n - 1]|][..|qs[i]|];
    }
  }

  lemma {:induction false} StagedIsKept(ws: seq<R.World>, ls: seq<R.Label>, i: nat, n: nat)
    requires R.IsRun(ws, ls) && i <= n < |ws|
    ensures |ws[i].queue.staged| <= |ws[n].queue.staged|
    ensures ws[n].queue.staged[..|ws[i].queue.staged|] == ws[i].queue.staged
  {
    var qs := seq(|ws|, m requires 0 <= m < |ws| => ws[m].queue.staged);
    forall m: nat | i <= m < n ensures |qs[m]| <= |qs[m + 1]| && qs[m + 1][..|qs[m]|] == qs[m] {
      R.StagedGrows(ws[m], ls[m]);
    }
    GrowingKeeps(qs, i, n);
  }

  /** The last thing that a step stages. */
  ghost predicate EndsWith(ws: seq<R.World>, i: nat, shown: Publication)
    requires i + 1 < |ws|
  {
    var before, after := ws[i].queue.staged, ws[i + 1].queue.staged;
    |before| < |after| && after[|after| - 1] == shown
  }

  /** An accepted manual connect is shown as connecting, and a rejected one not at all. */
  lemma ManualConnectIsShown(ws: seq<R.World>, ls: seq<R.Label>, i: nat)
    requires R.IsRun(ws, ls) && i < |ls| && ls[i].Change? && ls[i].event.ManualConnectStarted?
    ensures if Accepted(ws[i].core.reconnect, ls[i].event) then EndsWith(ws, i, StateChanged(ShowConnecting))
            else ws[i + 1].queue.staged == ws[i].queue.staged
  {
    StepShows(ws, ls, i);
  }

  /**
   A disconnect that is applied, neither meeting a loop nor starting one, is shown last, with the hint
   exactly if the session was never connected and its target is on the local network; any other shows
   no state.
   */
  lemma DisconnectIsShown(ws: seq<R.World>, ls: seq<R.Label>, i: nat)
    requires R.IsRun(ws, ls) && i < |ls|
    requires R.Applied(ws[i], ls[i]).Some? && R.Applied(ws[i], ls[i]).value.1.AttemptDisconnected?
    ensures var s, ev := ws[i].core.reconnect, R.Applied(ws[i], ls[i]).value.1;
            if s.loopActive || StartsLoop(s, ev) then ws[i + 1].queue.staged == ws[i].queue.staged + LostEdge(s)
            else EndsWith(ws, i, StateChanged(ShowDisconnected(s.phase != Connected && ev.targetsLocalNetwork)))
  {
    var (c, ev) := R.Applied(ws[i], ls[i]).value;
    assert c.reconnect == ws[i].core.reconnect;
    StepShows(ws, ls, i);
    DisconnectDecides(c.reconnect, ev);
  }

  // ---- The time a loop shows ----

  /** The event that a step hands to the reducer, if any. */
  function EventOf(w: R.World, l: R.Label): Option<ReconnectEvent>
    requires R.Enabled(w, l)
  {
    if R.Applied(w, l).Some? then Some(R.Applied(w, l).value.1) else None
  }

  /** The states of the reducer, and the events handed to it, along a run. */
  ghost predicate IsPath(ss: seq<Reconnect>, evs: seq<Option<ReconnectEvent>>) {
    && |ss| == |evs| + 1
    && forall i :: 0 <= i < |evs| ==> ss[i + 1] == if evs[i].Some? then Apply(ss[i], evs[i].value).0 else ss[i]
  }

  function States(ws: seq<R.World>): seq<Reconnect> {
    seq(|ws|, i requires 0 <= i < |ws| => ws[i].core.reconnect)
  }

  ghost function Events(ws: seq<R.World>, ls: seq<R.Label>): seq<Option<ReconnectEvent>>
    requires R.IsRun(ws, ls)
  {
    seq(|ls|, i requires 0 <= i < |ls| && R.IsRun(ws, ls) => EventOf(ws[i], ls[i]))
  }

  lemma CoreStep(w: R.World, l: R.Label)
    requires R.Enabled(w, l)
    ensures R.Next(w, l).core.reconnect ==
            if EventOf(w, l).Some? then Apply(w.core.reconnect, EventOf(w, l).value).0 else w.core.reconnect
  {
    R.StepAppliesEvent(w, l);
  }

  lemma {:induction false} RunIsPath(ws: seq<R.World>, ls: seq<R.Label>)
    requires R.IsRun(ws, ls)
    ensures IsPath(States(ws), Events(ws, ls))
  {
    var ss, evs := States(ws), Events(ws, ls);
    forall i | 0 <= i < |evs|
      ensures ss[i + 1] == if evs[i].Some? then Apply(ss[i], evs[i].value).0 else ss[i]
    {
      CoreStep(ws[i], ls[i]);
    }
  }

  /** The sum of the loop timers that expired in the stretch. */
  function ExpiredOn(ss: seq<Reconnect>, evs: seq<Option<ReconnectEvent>>, a: nat, n: nat): nat
    requires a <= n <= |evs| <= |ss|
    decreases n
  {
    if n == a then 0
    else ExpiredOn(ss, evs, a, n - 1) + if evs[n - 1].Some? then Expired(ss[n - 1], evs[n - 1].value) else 0
  }

  /** From the start of a loop's clock before state `a` up to state `n` nothing ends the loop. */
  ghost predicate LoopRuns(ss: seq<Reconnect>, evs: seq<Option<ReconnectEvent>>, a: nat, n: nat) {
    && 0 < a <= n < |ss| && |ss| == |evs| + 1 && ss[a - 1].clock.None? && ss[a].clock.Some?
    && forall k :: a <= k < n && evs[k].Some? ==> !EndsLoop(ss[k], evs[k].value)
  }

  /** One step of a path that does not end the loop. */
  lemma PathStep(s: Reconnect, ev: Option<ReconnectEvent>, s': Reconnect)
    requires s' == if ev.Some? then Apply(s, ev.value).0 else s
    requires LoopIsLive(s, s.epoch) && (ev.Some? ==> !EndsLoop(s, ev.value))
    ensures LoopIsLive(s', s'.epoch)
    ensures s'.clock.value.elapsed == s.clock.value.elapsed + if ev.Some? then Expired(s, ev.value) else 0
  {
    if ev.Some? {
      AccountStep(s, ev.value);
    }
  }

  lemma PathStart(s: Reconnect, ev: Option<ReconnectEvent>, s': Reconnect)
    requires s' == (if ev.Some? then Apply(s, ev.value).0 else s) && s.clock.None? && s'.clock.Some?
    ensures LoopIsLive(s', s'.epoch) && s'.clock.value.elapsed == 0
  {
    ClockStarts(s, ev.value);
  }

  lemma {:induction false} AccountOnPath(ss: seq<Reconnect>, evs: seq<Option<ReconnectEvent>>, a: nat, n: nat)
    requires IsPath(ss, evs) && LoopRuns(ss, evs, a, n)
    ensures LoopIsLive(ss[n], ss[n].epoch) && ss[n].clock.value.elapsed == ExpiredOn(ss, evs, a, n)
    decreases n
  {
    if n == a {
      PathStart(ss[a - 1], evs[a - 1], ss[a]);
    } else {
      AccountOnPath(ss, evs, a, n - 1);
      PathStep(ss[n - 1], evs[n - 1], ss[n]);
    }
  }

  lemma TickIsShown(s: Reconnect, ev: ReconnectEvent)
    requires IsLiveTick(s, ev)
    ensures var expired, timeout := s.clock.value.elapsed + Expired(s, ev), s.clock.value.armed.timeout;
            && Shown(s, ev) != []
            && Shown(s, ev)[|Shown(s, ev)| - 1] ==
               StateChanged(if expired >= timeout then ShowTimedOut(Secs32(timeout))
                            else ShowReconnecting(Secs32(expired), Secs32(timeout)))
  {
  }

  /**
   A tick of the live loop shows the seconds of all the timers that expired since the loop's clock
   started, this one included, and the time-out; or, exactly when they reach the time-out, that the
   time is over.
   */
  lemma {:induction false} TickShowsTheExpiredTime(ws: seq<R.World>, ls: seq<R.Label>, a: nat, k: nat,
                                                   ss: seq<Reconnect>, evs: seq<Option<ReconnectEvent>>)
    requires R.IsRun(ws, ls) && k < |ls| && ss == States(ws) && evs == Events(ws, ls) && LoopRuns(ss, evs, a, k)
    requires evs[k].Some? && IsLiveTick(ss[k], evs[k].value)
    ensures var expired, timeout := ExpiredOn(ss, evs, a, k + 1), ss[k].clock.value.armed.timeout;
            EndsWith(ws, k, StateChanged(if expired >= timeout then ShowTimedOut(Secs32(timeout))
                                         else ShowReconnecting(Secs32(expired), Secs32(timeout))))
  {
    RunIsPath(ws, ls);
    PathTickShows(ss, evs, a, k);
    LastShown(ws, ls, k);
    assert ss[k] == ws[k].core.reconnect && evs[k] == EventOf(ws[k], ls[k]);
  }

  lemma {:induction false} PathTickShows(ss: seq<Reconnect>, evs: seq<Option<ReconnectEvent>>, a: nat, k: nat)
    requires IsPath(ss, evs) && LoopRuns(ss, evs, a, k) && k < |evs| && evs[k].Some? && IsLiveTick(ss[k], evs[k].value)
    ensures var expired, timeout := ExpiredOn(ss, evs, a, k + 1), ss[k].clock.value.armed.timeout;
            var shown := Shown(ss[k], evs[k].value);
            && shown != []
            && shown[|shown| - 1] == StateChanged(if expired >= timeout then ShowTimedOut(Secs32(timeout))
                                                  else ShowReconnecting(Secs32(expired), Secs32(timeout)))
  {
    AccountOnPath(ss, evs, a, k);
    TickIsShown(ss[k], evs[k].value);
  }

  lemma {:induction false} LastShown(ws: seq<R.World>, ls: seq<R.Label>, k: nat)
    requires R.IsRun(ws, ls) && k < |ls| && EventOf(ws[k], ls[k]).Some?
    ensures var shown := Shown(ws[k].core.reconnect, EventOf(ws[k], ls[k]).value);
            shown != [] ==> EndsWith(ws, k, shown[|shown| - 1])
  {
    StepShows(ws, ls, k);
    assert R.Applied(ws[k], ls[k]).value.0.reconnect == ws[k].core.reconnect;
  }
}
