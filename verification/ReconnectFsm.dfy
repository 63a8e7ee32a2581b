/**
 What the orchestrator tells the user interface: connection states and connection edges.  The
 texts that go with a state (host, reason) are left out.
 */
module ConnectionEvents {

  datatype Edge = Established(generation: nat) | Lost(generation: nat)

  datatype PublicState =
    | ShowConnecting
    | ShowConnected
    | ShowReconnecting(elapsedSecs: nat, timeoutSecs: nat)
    | ShowTimedOut(timeoutSecs: nat)
    | ShowDisconnected(localNetworkHint: bool)

  datatype Publication = StateChanged(state: PublicState) | EdgeSeen(edge: Edge)
}

/**
 The reconnect reducer of the session orchestrator (`rust-core/src/reconnect_fsm.rs:266-793`).

 `Apply` is the whole reducer.  Durations are nanoseconds; the loop's accumulated duration and tick
 count are not cut off at the largest representable value.
 */
module ReconnectFsm {
  import opened Wrappers
  import opened ConnectionEvents

  const U64_MAX: nat := 0xFFFF_FFFF_FFFF_FFFF
  const SECOND: nat := 1_000_000_000

  datatype ConnPhase = Idle | Connecting | Connected
  datatype BackgroundState = Foreground | Quiescing | Suspended
  datatype DisconnectKind = GracefulRemoteExit | NetworkLost | TransportError
  datatype AttemptSource = Tick | PendingWake | NetworkWake

  datatype Policy = Policy(tick: nat, retryInterval: nat, timeout: nat)

  datatype LoopClock = LoopClock(elapsed: nat, tickCount: nat, armed: Policy)

  datatype Reconnect = Reconnect(
    phase: ConnPhase,
    epoch: nat,
    loopActive: bool,
    inFlight: bool,
    pendingWake: bool,
    userInitiated: bool,
    background: BackgroundState,
    lastAttempt: Option<nat>,
    edgeOpen: Option<nat>,
    lastEstablished: Option<nat>,
    clock: Option<LoopClock>)

  const DEFAULT := Reconnect(Idle, 0, false, false, false, false, Foreground, None, None, None, None)

  datatype ReconnectEvent =
    | AttemptConnected(generation: nat)
    | AttemptDisconnected(generation: nat, kind: DisconnectKind, targetsLocalNetwork: bool)
    | SessionCreated(newGeneration: nat)
    | ManualConnectStarted(attempt: nat)
    | ReconnectSessionStarting
    | ForegroundReconnectFailedSync
    | LoopStarted(epoch: nat, policy: Policy)
    | ReconnectWake(epoch: nat, policy: Policy)
    | ReconnectTick(epoch: nat, policy: Policy)
    | AttemptFailedSync(epoch: nat)
    | CancelReconnect
    | UserDisconnect
    | ManualConnectFailedSync
    | LoopStartAborted(epoch: nat)

  datatype ReconnectEffect =
    | InvalidatePathObserver
    | WakeReconnectLoop
    | StartReconnectLoop(attempt: nat, epoch: nat)
    | PublishDisconnected(localNetworkHint: bool)
    | PublishConnected
    | StartAttempt(epoch: nat, source: AttemptSource)
    | PendingWakeRecorded(epoch: nat)
    | PublishConnecting
    | ManualConnectRejected
    | EdgeEstablished(generation: nat)
    | EdgeLost(generation: nat)
    | ArmLoopTimer(epoch: nat, after: nat, elapsedSecs: nat)
    | PublishReconnecting(elapsedSecs: nat, timeoutSecs: nat)
    | PublishReconnectTimedOut(timeoutSecs: nat)
    | LoopWokeEarly(epoch: nat)
    | LoopTicked(epoch: nat, tickCount: nat, elapsedSecs: nat)
    | AbortInFlightAttempt
    | DisconnectSession

  function NextEpoch(e: nat): nat {
    if e >= U64_MAX then 0 else e + 1
  }

  /** Conversion of whole seconds to `u32`. */
  function Secs32(duration: nat): nat {
    (duration / SECOND) % 0x1_0000_0000
  }

  function TicksPerRetry(p: Policy): nat
    ensures TicksPerRetry(p) >= 1
  {
    var n := p.retryInterval / (if p.tick == 0 then 1 else p.tick);
    if n == 0 then 1 else n
  }

  function CloseEdge(s: Reconnect): (Reconnect, seq<ReconnectEffect>) {
    if s.edgeOpen.Some? then (s.(edgeOpen := None), [EdgeLost(s.edgeOpen.value)]) else (s, [])
  }

  /** The only writer of the phase: leaving `Connected` closes an open edge in the same step. */
  function SetPhase(s: Reconnect, phase: ConnPhase): (Reconnect, seq<ReconnectEffect>) {
    var (s', effects) := if phase != Connected then CloseEdge(s) else (s, []);
    (s'.(phase := phase), effects)
  }

  function StopLoop(s: Reconnect): Reconnect {
    s.(epoch := NextEpoch(s.epoch), loopActive := false, inFlight := false, pendingWake := false, clock := None)
  }

  function AbortLoopAttempt(s: Reconnect): (Reconnect, seq<ReconnectEffect>) {
    var (s', effects) := SetPhase(s, Idle);
    (s', effects + [AbortInFlightAttempt])
  }

  predicate LoopIsLive(s: Reconnect, epoch: nat) {
    epoch == s.epoch && s.loopActive && s.clock.Some?
  }

  function ArmLoop(s: Reconnect, epoch: nat, policy: Policy): (Reconnect, seq<ReconnectEffect>) {
    if s.clock.None? then (s, [])
    else (s.(clock := Some(s.clock.value.(armed := policy))),
          [ArmLoopTimer(epoch, policy.tick, s.clock.value.elapsed / SECOND)])
  }

  function OnAttemptConnected(s: Reconnect, generation: nat): (Reconnect, seq<ReconnectEffect>) {
    var (s1, closing) := if s.edgeOpen.Some? && s.edgeOpen.value != generation then CloseEdge(s) else (s, []);
    var (s2, none) := SetPhase(s1, Connected);
    var s3 := StopLoop(s2);
    var effects := closing + none + [PublishConnected];
    if s3.edgeOpen.None? && !(s3.lastEstablished.Some? && generation <= s3.lastEstablished.value) then
      (s3.(edgeOpen := Some(generation), lastEstablished := Some(generation)), effects + [EdgeEstablished(generation)])
    else (s3, effects)
  }

  function OnManualConnectStarted(s: Reconnect, attempt: nat): (Reconnect, seq<ReconnectEffect>) {
    if s.phase == Connecting then (s, [ManualConnectRejected])
    else
      var (s1, closing) := SetPhase(s, Connecting);
      var s2 := StopLoop(s1.(lastAttempt := Some(attempt), userInitiated := false));
      (s2.(background := Foreground), closing + [InvalidatePathObserver, PublishConnecting])
  }

  function OnAttemptDisconnected(s: Reconnect, kind: DisconnectKind, targetsLocalNetwork: bool)
    : (Reconnect, seq<ReconnectEffect>)
  {
    var wasConnected := s.phase == Connected;
    var (s1, closing) := SetPhase(s.(userInitiated := false), Idle);
    var s2 := s1.(inFlight := false);
    var effects := [InvalidatePathObserver] + closing;
    if s.loopActive then
      (s2, effects + if s.pendingWake then [WakeReconnectLoop] else [])
    else if wasConnected && !s.userInitiated && kind != GracefulRemoteExit then
      (match s.lastAttempt
       case Some(attempt) =>
         var epoch := NextEpoch(s.epoch);
         (s2.(pendingWake := false, loopActive := true, epoch := epoch, clock := None),
          effects + [StartReconnectLoop(attempt, epoch)])
       case None =>
         (s2.(pendingWake := false, background := Foreground), effects + [PublishDisconnected(false)]))
    else
      (s2.(pendingWake := false, background := Foreground),
       effects + [PublishDisconnected(!wasConnected && targetsLocalNetwork)])
  }

  function OnLoopStarted(s: Reconnect, epoch: nat, policy: Policy): (Reconnect, seq<ReconnectEffect>) {
    if epoch != s.epoch || !s.loopActive || s.clock.Some? then (s, [])
    else
      var (s', arm) := ArmLoop(s.(clock := Some(LoopClock(0, 0, policy))), epoch, policy);
      (s', [PublishReconnecting(0, Secs32(policy.timeout))] + arm)
  }

  function OnReconnectWake(s: Reconnect, epoch: nat, policy: Policy): (Reconnect, seq<ReconnectEffect>) {
    if !LoopIsLive(s, epoch) then (s, [])
    else
      var (s1, attempt) :=
        if !s.inFlight then (s.(inFlight := true, pendingWake := false), [StartAttempt(epoch, NetworkWake)])
        else (s.(pendingWake := true), [PendingWakeRecorded(epoch)]);
      var (s2, arm) := ArmLoop(s1, epoch, policy);
      (s2, [LoopWokeEarly(epoch)] + attempt + arm)
  }

  function OnReconnectTick(s: Reconnect, epoch: nat, policy: Policy): (Reconnect, seq<ReconnectEffect>) {
    if !LoopIsLive(s, epoch) then (s, [])
    else
      var armed := s.clock.value.armed;
      var elapsed := s.clock.value.elapsed + armed.tick;
      var tickCount := s.clock.value.tickCount + 1;
      var timeoutSecs := Secs32(armed.timeout);
      var s1 := s.(clock := Some(LoopClock(elapsed, tickCount, armed)));
      var ticked := [LoopTicked(epoch, tickCount, elapsed / SECOND)];
      if elapsed >= armed.timeout then
        var (s2, aborting) := AbortLoopAttempt(StopLoop(s1));
        (s2, ticked + aborting + [PublishReconnectTimedOut(timeoutSecs)])
      else
        var due := tickCount % TicksPerRetry(armed) == 0;
        var starts := !s.inFlight && (due || s.pendingWake);
        var s2 := if starts then s1.(inFlight := true, pendingWake := false) else s1;
        var attempt := if starts then [StartAttempt(epoch, if s.pendingWake then PendingWake else Tick)] else [];
        var (s3, arm) := ArmLoop(s2, epoch, policy);
        (s3, ticked + [PublishReconnecting(Secs32(elapsed), timeoutSecs)] + attempt + arm)
  }

  function Apply(s: Reconnect, ev: ReconnectEvent): (Reconnect, seq<ReconnectEffect>) {
    match ev
    case AttemptConnected(g) => OnAttemptConnected(s, g)
    case AttemptDisconnected(_, kind, local) => OnAttemptDisconnected(s, kind, local)
    case SessionCreated(g) => if s.edgeOpen.Some? && s.edgeOpen.value != g then CloseEdge(s) else (s, [])
    case ManualConnectStarted(attempt) => OnManualConnectStarted(s, attempt)
    case ReconnectSessionStarting => SetPhase(s, Connecting)
    case ForegroundReconnectFailedSync =>
      var (s', closing) := SetPhase(s, Idle);
      (s', closing + [PublishDisconnected(false)])
    case LoopStarted(epoch, policy) => OnLoopStarted(s, epoch, policy)
    case ReconnectWake(epoch, policy) => OnReconnectWake(s, epoch, policy)
    case ReconnectTick(epoch, policy) => OnReconnectTick(s, epoch, policy)
    case AttemptFailedSync(epoch) =>
      if epoch != s.epoch then (s, [])
      else if s.phase == Connecting then SetPhase(s.(inFlight := false), Idle)
      else (s.(inFlight := false), [])
    case CancelReconnect =>
      var s1 := StopLoop(s);
      if !s.loopActive then (s1, [])
      else
        var (s2, aborting) := AbortLoopAttempt(s1.(background := Foreground));
        (s2, aborting + [PublishDisconnected(false)])
    case UserDisconnect =>
      if s.loopActive then
        var (s1, aborting) := AbortLoopAttempt(StopLoop(s).(userInitiated := false, background := Foreground));
        (s1, [InvalidatePathObserver] + aborting + [PublishDisconnected(false)])
      else (s.(userInitiated := true), [DisconnectSession])
    case ManualConnectFailedSync => if s.phase == Connecting then SetPhase(s, Idle) else (s, [])
    case LoopStartAborted(epoch) =>
      if epoch != s.epoch then (s, [])
      else (s.(loopActive := false, clock := None, background := Foreground), [PublishDisconnected(false)])
  }

  // ---- Connection edges ----

  function EdgesOf(effects: seq<ReconnectEffect>): seq<Edge> {
    if effects == [] then []
    else
      var e := effects[0];
      (if e.EdgeEstablished? then [Established(e.generation)]
       else if e.EdgeLost? then [Lost(e.generation)]
       else []) + EdgesOf(effects[1..])
  }

  lemma {:induction false} EdgesOfAppend(a: seq<ReconnectEffect>, b: seq<ReconnectEffect>)
    ensures EdgesOf(a + b) == EdgesOf(a) + EdgesOf(b)
  {
    if a == [] {
      assert a + b == b;
    } else {
      assert (a + b)[1..] == a[1..] + b;
      EdgesOfAppend(a[1..], b);
    }
  }

  /**
   Established and lost alternate, each loss names the generation established just before it, and
   each establishment names a later generation than the loss before it.
   */
  ghost predicate WellPaired(edges: seq<Edge>) {
    && (edges != [] ==> edges[0].Established?)
    && (forall i :: 0 < i < |edges| ==>
          if edges[i].Lost? then edges[i - 1] == Established(edges[i].generation)
          else edges[i - 1].Lost? && edges[i - 1].generation < edges[i].generation)
  }

  /** In particular a generation is established at most once. */
  lemma {:induction false} EstablishedGenerationsIncrease(edges: seq<Edge>, i: nat, j: nat)
    requires WellPaired(edges) && i < j < |edges| && edges[j].Established?
    ensures edges[i].generation < edges[j].generation
    decreases j
  {
    assert edges[j - 1].Lost?;
    if i < j - 1 {
      assert edges[j - 2] == Established(edges[j - 1].generation);
    }
    if i < j - 2 {
      EstablishedGenerationsIncrease(edges, i, j - 2);
    }
  }

  /** The reducer's books agree with the edges it has emitted. */
  ghost predicate EdgeInv(s: Reconnect, edges: seq<Edge>) {
    && WellPaired(edges)
    && (s.edgeOpen.Some? ==> s.phase == Connected)
    && s.lastEstablished == (if edges == [] then None else Some(edges[|edges| - 1].generation))
    && s.edgeOpen == (if edges != [] && edges[|edges| - 1].Established? then s.lastEstablished else None)
  }

  /** What one event adds: at most the loss of the open edge, then at most one later generation. */
  ghost predicate EdgeStep(s: Reconnect, s': Reconnect, added: seq<Edge>) {
    var closing := if s.edgeOpen.Some? then [Lost(s.edgeOpen.value)] else [];
    || (added == [] && s'.edgeOpen == s.edgeOpen && s'.lastEstablished == s.lastEstablished)
    || (added == closing && s'.edgeOpen == None && s'.lastEstablished == s.lastEstablished)
    || (&& s'.edgeOpen.Some? && s'.edgeOpen == s'.lastEstablished
        && (s.lastEstablished.Some? ==> s.lastEstablished.value < s'.edgeOpen.value)
        && added == closing + [Established(s'.edgeOpen.value)])
  }

  lemma EdgeStepKeepsInv(s: Reconnect, edges: seq<Edge>, s': Reconnect, added: seq<Edge>)
    requires EdgeInv(s, edges) && EdgeStep(s, s', added) && (s'.edgeOpen.Some? ==> s'.phase == Connected)
    ensures EdgeInv(s', edges + added)
  {
  }

  lemma EdgesOfOne(e: ReconnectEffect)
    ensures EdgesOf([e]) ==
            if e.EdgeEstablished? then [Established(e.generation)] else if e.EdgeLost? then [Lost(e.generation)] else []
  {
    assert [e][1..] == [];
  }

  lemma {:induction false} NoEdges(effects: seq<ReconnectEffect>)
    requires forall i :: 0 <= i < |effects| ==> !effects[i].EdgeEstablished? && !effects[i].EdgeLost?
    ensures EdgesOf(effects) == []
  {
    if effects != [] {
      NoEdges(effects[1..]);
    }
  }

  /** `front`, then possibly the loss of the open edge, then `back`. */
  lemma ClosingEdges(front: seq<ReconnectEffect>, closing: seq<ReconnectEffect>, back: seq<ReconnectEffect>)
    requires forall i :: 0 <= i < |front| ==> !front[i].EdgeEstablished? && !front[i].EdgeLost?
    requires forall i :: 0 <= i < |back| ==> !back[i].EdgeEstablished? && !back[i].EdgeLost?
    ensures EdgesOf(front + closing + back) == EdgesOf(closing)
  {
    NoEdges(front);
    NoEdges(back);
    EdgesOfAppend(front, closing);
    EdgesOfAppend(front + closing, back);
  }

  lemma CloseEdgeEdges(s: Reconnect)
    ensures EdgesOf(CloseEdge(s).1) == if s.edgeOpen.Some? then [Lost(s.edgeOpen.value)] else []
  {
    if s.edgeOpen.Some? {
      EdgesOfOne(EdgeLost(s.edgeOpen.value));
    }
  }

  lemma ConnectedEdgeStep(s: Reconnect, g: nat)
    requires s.edgeOpen.Some? ==> s.edgeOpen == s.lastEstablished
    ensures EdgeStep(s, OnAttemptConnected(s, g).0, EdgesOf(OnAttemptConnected(s, g).1))
  {
    CloseEdgeEdges(s);
    var closes := s.edgeOpen.Some? && s.edgeOpen.value != g;
    var closing := if closes then CloseEdge(s).1 else [];
    var (s', effects) := OnAttemptConnected(s, g);
    ClosingEdges([], closing, [PublishConnected]);
    assert [] + closing + [PublishConnected] == closing + [] + [PublishConnected];
    EdgesOfOne(EdgeEstablished(g));
    EdgesOfAppend(closing + [] + [PublishConnected], [EdgeEstablished(g)]);
  }

  lemma DisconnectedEdgeStep(s: Reconnect, kind: DisconnectKind, local: bool)
    ensures EdgeStep(s, OnAttemptDisconnected(s, kind, local).0, EdgesOf(OnAttemptDisconnected(s, kind, local).1))
  {
    CloseEdgeEdges(s);
    var (s', effects) := OnAttemptDisconnected(s, kind, local);
    var closing := CloseEdge(s).1;
    var front := [InvalidatePathObserver] + closing;
    assert effects[..|front|] == front;
    var back := effects[|front|..];
    assert effects == [InvalidatePathObserver] + closing + back;
    ClosingEdges([InvalidatePathObserver], closing, back);
  }

  lemma TickEdgeStep(s: Reconnect, epoch: nat, policy: Policy)
    ensures EdgeStep(s, OnReconnectTick(s, epoch, policy).0, EdgesOf(OnReconnectTick(s, epoch, policy).1))
  {
    if LoopIsLive(s, epoch) {
      if s.clock.value.elapsed + s.clock.value.armed.tick >= s.clock.value.armed.timeout {
        GiveUpEdgeStep(s, epoch, policy);
      } else {
        NoEdges(OnReconnectTick(s, epoch, policy).1);
      }
    }
  }

  lemma GiveUpEdgeStep(s: Reconnect, epoch: nat, policy: Policy)
    requires LoopIsLive(s, epoch) && s.clock.value.elapsed + s.clock.value.armed.tick >= s.clock.value.armed.timeout
    ensures EdgeStep(s, OnReconnectTick(s, epoch, policy).0, EdgesOf(OnReconnectTick(s, epoch, policy).1))
  {
    CloseEdgeEdges(s);
    var effects := OnReconnectTick(s, epoch, policy).1;
    var closing := CloseEdge(s).1;
    var last := effects[|effects| - 1];
    assert effects == [effects[0]] + closing + [AbortInFlightAttempt, last];
    ClosingEdges([effects[0]], closing, [AbortInFlightAttempt, last]);
  }

  lemma ManualEdgeStep(s: Reconnect, ev: ReconnectEvent)
    requires ev.ManualConnectStarted?
    ensures EdgeStep(s, Apply(s, ev).0, EdgesOf(Apply(s, ev).1))
  {
    CloseEdgeEdges(s);
    var closing := CloseEdge(s).1;
    var effects := Apply(s, ev).1;
    if s.phase == Connecting {
      NoEdges(effects);
    } else {
      var back := effects[|closing|..];
      assert effects == [] + closing + back;
      ClosingEdges([], closing, back);
    }
  }

  lemma ForegroundFailureEdgeStep(s: Reconnect, ev: ReconnectEvent)
    requires ev.ForegroundReconnectFailedSync?
    ensures EdgeStep(s, Apply(s, ev).0, EdgesOf(Apply(s, ev).1))
  {
    CloseEdgeEdges(s);
    var closing := CloseEdge(s).1;
    var effects := Apply(s, ev).1;
    var back := effects[|closing|..];
    assert effects == [] + closing + back;
    ClosingEdges([], closing, back);
  }

  lemma StoppingEdgeStep(s: Reconnect, ev: ReconnectEvent)
    requires ev.CancelReconnect? || ev.UserDisconnect?
    ensures EdgeStep(s, Apply(s, ev).0, EdgesOf(Apply(s, ev).1))
  {
    CloseEdgeEdges(s);
    var effects := Apply(s, ev).1;
    if s.loopActive {
      var front := if ev.UserDisconnect? then [InvalidatePathObserver] else [];
      var back := [AbortInFlightAttempt, PublishDisconnected(false)];
      assert effects == front + CloseEdge(s).1 + back;
      ClosingEdges(front, CloseEdge(s).1, back);
    } else {
      NoEdges(effects);
    }
  }

  lemma PlainEdgeStep(s: Reconnect, ev: ReconnectEvent)
    requires ev.SessionCreated? || ev.ReconnectSessionStarting? || ev.AttemptFailedSync? || ev.ManualConnectFailedSync?
    ensures EdgeStep(s, Apply(s, ev).0, EdgesOf(Apply(s, ev).1))
  {
    CloseEdgeEdges(s);
  }

  lemma LoopEdgeStep(s: Reconnect, ev: ReconnectEvent)
    requires ev.LoopStarted? || ev.ReconnectWake? || ev.LoopStartAborted?
    ensures EdgeStep(s, Apply(s, ev).0, EdgesOf(Apply(s, ev).1))
  {
    NoEdges(Apply(s, ev).1);
  }

  /** Every change of phase goes through `SetPhase`, so an edge is only open while connected. */
  lemma OpenEdgeMeansConnected(s: Reconnect, ev: ReconnectEvent)
    requires s.edgeOpen.Some? ==> s.phase == Connected
    ensures Apply(s, ev).0.edgeOpen.Some? ==> Apply(s, ev).0.phase == Connected
  {
    match ev {
      case AttemptDisconnected(_, kind, local) => assert OnAttemptDisconnected(s, kind, local).0.edgeOpen == None;
      case ReconnectTick(epoch, policy) => TickKeepsOpenEdge(s, epoch, policy);
      case ReconnectWake(epoch, policy) =>
        assert OnReconnectWake(s, epoch, policy).0.edgeOpen == s.edgeOpen
          && OnReconnectWake(s, epoch, policy).0.phase == s.phase;
      case _ =>
    }
  }

  lemma TickKeepsOpenEdge(s: Reconnect, epoch: nat, policy: Policy)
    requires s.edgeOpen.Some? ==> s.phase == Connected
    ensures var s' := OnReconnectTick(s, epoch, policy).0; s'.edgeOpen.Some? ==> s'.phase == Connected
  {
  }

  /** Whatever the event, the reducer keeps its edges well paired. */
  lemma ApplyKeepsEdges(s: Reconnect, edges: seq<Edge>, ev: ReconnectEvent)
    requires EdgeInv(s, edges)
    ensures EdgeInv(Apply(s, ev).0, edges + EdgesOf(Apply(s, ev).1))
  {
    match ev {
      case AttemptConnected(g) => ConnectedEdgeStep(s, g);
      case AttemptDisconnected(_, kind, local) => DisconnectedEdgeStep(s, kind, local);
      case ReconnectTick(epoch, policy) => TickEdgeStep(s, epoch, policy);
      case SessionCreated(_) => PlainEdgeStep(s, ev);
      case ReconnectSessionStarting => PlainEdgeStep(s, ev);
      case AttemptFailedSync(_) => PlainEdgeStep(s, ev);
      case ManualConnectFailedSync => PlainEdgeStep(s, ev);
      case LoopStarted(_, _) => LoopEdgeStep(s, ev);
      case ReconnectWake(_, _) => LoopEdgeStep(s, ev);
      case LoopStartAborted(_) => LoopEdgeStep(s, ev);
      case ManualConnectStarted(_) => ManualEdgeStep(s, ev);
      case ForegroundReconnectFailedSync => ForegroundFailureEdgeStep(s, ev);
      case CancelReconnect => StoppingEdgeStep(s, ev);
      case UserDisconnect => StoppingEdgeStep(s, ev);
    }
    OpenEdgeMeansConnected(s, ev);
    EdgeStepKeepsInv(s, edges, Apply(s, ev).0, EdgesOf(Apply(s, ev).1));
  }
}
