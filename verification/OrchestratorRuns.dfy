/**
 Every interleaving of session callbacks, user actions, network-path reports and deliveries.
 */
module OrchestratorRuns {
  import opened Wrappers
  import opened ConnectionEvents
  import opened ReconnectFsm
  import opened OrchestratorCore
  import Q = PublicationProtocol

  type ReportId = nat

  /**
   A path report on its way through `notify_network_path_changed` and, if it announces a loss of a
   plain connection, through the debounce and `apply_network_lost_if_unchanged`.  Each stage keeps
   the session generation read when the report came in.  What a restored path does to the reconnect
   loop is the subject of `ReconnectWakes`.
   */
  datatype Report =
    | Reported(satisfied: bool, generation: nat)                 // connected, not QUIC: about to tell the path observer
    | Debouncing(token: nat, generation: nat)                    // sleeping
    | Due(phase: ConnPhase, generation: nat)                     // about to compare with the state it was decided on
    | Checked(generation: nat)                                   // about to disconnect the stored session
    | Cut(generation: nat)                                       // about to report the disconnect

  /**
   Sessions are named by their generation.  `session` is the one in the shared slot, `unstored` are
   the ones created and not yet stored, and `told` the ones that were told to disconnect.
   */
  datatype World = World(
    core: Core,
    pathEpoch: nat,
    reports: map<ReportId, Report>,
    queue: Q.World,
    session: Option<nat>,
    unstored: set<nat>,
    told: set<nat>)

  const INITIAL := World(NEW_CORE, 0, map[], Q.INITIAL, None, {}, {})

  datatype Label =
    | Change(thread: Q.ThreadId, event: ReconnectEvent)          // user actions and the reconnect loop
    | CreateAdapter(thread: Q.ThreadId)
    | SessionConnected(thread: Q.ThreadId, generation: nat)      // callbacks of an adapter of any age
    | SessionDisconnected(thread: Q.ThreadId, generation: nat, kind: DisconnectKind, local: bool)
    | SyncConnectFailed(thread: Q.ThreadId, generation: nat)
    | InvalidatePath
    | PathChanged(report: ReportId, satisfied: bool, quic: bool)
    | Observe(report: ReportId)
    | DebounceOver(report: ReportId)
    | Compare(report: ReportId)
    | DisconnectCurrent(report: ReportId)
    | LoseSession(report: ReportId, thread: Q.ThreadId, local: bool)
    | StoreSession(generation: nat)
    | DisconnectStored                                           // the user, or an aborted attempt
    | Deliver(step: Q.Label)

  /** Session events reach the reducer only through their guards. */
  predicate Unguarded(ev: ReconnectEvent) {
    !ev.AttemptConnected? && !ev.AttemptDisconnected? && !ev.SessionCreated? && !ev.ManualConnectFailedSync?
  }

  predicate MayStage(w: World, t: Q.ThreadId) {
    Q.Enabled(w.queue, Q.Begin(t, []))
  }

  predicate Enabled(w: World, l: Label) {
    match l
    case Change(t, ev) => MayStage(w, t) && Unguarded(ev)
    case CreateAdapter(t) => MayStage(w, t)
    case SessionConnected(t, _) => MayStage(w, t)
    case SessionDisconnected(t, _, _, _) => MayStage(w, t)
    case SyncConnectFailed(t, _) => MayStage(w, t)
    case InvalidatePath => true
    case PathChanged(r, _, _) => r !in w.reports
    case Observe(r) => r in w.reports && w.reports[r].Reported?
    case DebounceOver(r) => r in w.reports && w.reports[r].Debouncing?
    case Compare(r) => r in w.reports && w.reports[r].Due?
    case DisconnectCurrent(r) => r in w.reports && w.reports[r].Checked?
    case LoseSession(r, t, _) => r in w.reports && w.reports[r].Cut? && MayStage(w, t)
    case StoreSession(g) => g in w.unstored
    case DisconnectStored => true
    case Deliver(step) => !step.Begin? && Q.Enabled(w.queue, step)
  }

  /** Leave the critical section with a new core, its publications staged and about to be flushed. */
  function Staged(w: World, t: Q.ThreadId, result: (Core, seq<Publication>)): World
    requires MayStage(w, t)
  {
    w.(core := result.0, queue := Q.Next(w.queue, Q.Begin(t, result.1)))
  }

  /** Like `Staged`, but a callback of an old generation changes nothing at all. */
  function StagedIfCurrent(w: World, t: Q.ThreadId, generation: nat, ev: ReconnectEvent): World
    requires MayStage(w, t)
  {
    if w.core.generation != generation then w else Staged(w, t, Guarded(w.core, generation, ev))
  }

  /** The stored session, if any, is told to disconnect. */
  function TellStored(w: World): set<nat> {
    w.told + if w.session.Some? then {w.session.value} else {}
  }

  function Next(w: World, l: Label): World
    requires Enabled(w, l)
  {
    match l
    case Change(t, ev) => Staged(w, t, ApplyReconnect(w.core, ev))
    case CreateAdapter(t) => Staged(w, t, NewAdapter(w.core)).(unstored := w.unstored + {w.core.generation + 1})
    case SessionConnected(t, g) => StagedIfCurrent(w, t, g, AttemptConnected(g))
    case SessionDisconnected(t, g, kind, local) => StagedIfCurrent(w, t, g, AttemptDisconnected(g, kind, local))
    case SyncConnectFailed(t, g) => StagedIfCurrent(w, t, g, ManualConnectFailedSync)
    case InvalidatePath => w.(pathEpoch := NextPathEpoch(w.pathEpoch))
    case PathChanged(r, satisfied, quic) =>
      (match w.core.reconnect.phase
       case Idle => w
       case Connecting => if satisfied then w else w.(reports := w.reports[r := Due(Connecting, w.core.generation)])
       case Connected => if quic then w else w.(reports := w.reports[r := Reported(satisfied, w.core.generation)]))
    case Observe(r) =>
      var token := NextPathEpoch(w.pathEpoch);
      var w' := w.(pathEpoch := token);
      if Decide(w.reports[r].satisfied) == Ignore then w'.(reports := w.reports - {r})
      else w'.(reports := w.reports[r := Debouncing(token, w.reports[r].generation)])
    case DebounceOver(r) =>
      if w.pathEpoch == w.reports[r].token then w.(reports := w.reports[r := Due(Connected, w.reports[r].generation)])
      else w.(reports := w.reports - {r})
    case Compare(r) =>
      if w.core.reconnect.phase != w.reports[r].phase || w.core.generation != w.reports[r].generation
      then w.(reports := w.reports - {r})
      else w.(reports := w.reports[r := Checked(w.reports[r].generation)])
    case DisconnectCurrent(r) => w.(told := TellStored(w), reports := w.reports[r := Cut(w.reports[r].generation)])
    case StoreSession(g) => w.(session := Some(g), unstored := w.unstored - {g}, told := TellStored(w))
    case DisconnectStored => w.(told := TellStored(w))
    case LoseSession(r, t, local) =>
      var g := w.reports[r].generation;
      StagedIfCurrent(w.(reports := w.reports - {r}), t, g, AttemptDisconnected(g, NetworkLost, local))
    case Deliver(step) => w.(queue := Q.Next(w.queue, step))
  }

  ghost predicate IsRun(ws: seq<World>, ls: seq<Label>) {
    && |ws| == |ls| + 1
    && ws[0] == INITIAL
    && (forall i :: 0 <= i < |ls| ==> Enabled(ws[i], ls[i]) && ws[i + 1] == Next(ws[i], ls[i]))
  }

  // ---- Edges reach the user interface in pairs ----

  ghost predicate Inv(w: World) {
    && EdgeInv(w.core.reconnect, EdgesIn(w.queue.staged))
    && Q.Inv(w.queue)
  }

  lemma StagedKeepsInv(w: World, t: Q.ThreadId, c: Core, ev: ReconnectEvent)
    requires Inv(w) && MayStage(w, t) && c.reconnect == w.core.reconnect
    ensures Inv(Staged(w, t, ApplyReconnect(c, ev)))
  {
    var items := ApplyReconnect(c, ev).1;
    StagingKeepsEdges(c, w.queue.staged, ev);
    Q.BeginKeepsInv(w.queue, t, items);
  }

  lemma StagedIfCurrentKeepsInv(w: World, t: Q.ThreadId, g: nat, ev: ReconnectEvent)
    requires Inv(w) && MayStage(w, t)
    ensures Inv(StagedIfCurrent(w, t, g, ev))
  {
    StagedKeepsInv(w, t, w.core, ev);
  }

  lemma ChangeKeepsInv(w: World, t: Q.ThreadId, ev: ReconnectEvent)
    requires Inv(w) && Enabled(w, Change(t, ev))
    ensures Inv(Next(w, Change(t, ev)))
  {
    StagedKeepsInv(w, t, w.core, ev);
  }

  lemma CreateAdapterKeepsInv(w: World, t: Q.ThreadId)
    requires Inv(w) && Enabled(w, CreateAdapter(t))
    ensures Inv(Next(w, CreateAdapter(t)))
  {
    var g := w.core.generation + 1;
    var c := w.core.(generation := g);
    var w' := Staged(w, t, ApplyReconnect(c, SessionCreated(g)));
    assert Next(w, CreateAdapter(t)) == w'.(unstored := w.unstored + {g});
    StagedKeepsInv(w, t, c, SessionCreated(g));
  }

  lemma SessionEventKeepsInv(w: World, l: Label)
    requires Inv(w) && Enabled(w, l) && (l.SessionConnected? || l.SessionDisconnected? || l.SyncConnectFailed?)
    ensures Inv(Next(w, l))
  {
    var ev := if l.SessionConnected? then AttemptConnected(l.generation)
              else if l.SessionDisconnected? then AttemptDisconnected(l.generation, l.kind, l.local)
              else ManualConnectFailedSync;
    StagedIfCurrentKeepsInv(w, l.thread, l.generation, ev);
  }

  lemma LoseSessionKeepsInv(w: World, r: ReportId, t: Q.ThreadId, local: bool)
    requires Inv(w) && Enabled(w, LoseSession(r, t, local))
    ensures Inv(Next(w, LoseSession(r, t, local)))
  {
    var g := w.reports[r].generation;
    StagedIfCurrentKeepsInv(w.(reports := w.reports - {r}), t, g, AttemptDisconnected(g, NetworkLost, local));
  }

  /** The stages of a report before its last, and the session slot, leave the locked state and the queue alone. */
  lemma ReportKeepsInv(w: World, l: Label)
    requires Inv(w) && Enabled(w, l)
    requires l.InvalidatePath? || l.PathChanged? || l.Observe? || l.DebounceOver? || l.Compare? || l.DisconnectCurrent?
             || l.StoreSession? || l.DisconnectStored?
    ensures Inv(Next(w, l))
  {
    assert Next(w, l).core == w.core && Next(w, l).queue == w.queue;
  }

  lemma StepKeepsInv(w: World, l: Label)
    requires Inv(w) && Enabled(w, l)
    ensures Inv(Next(w, l))
  {
    match l {
      case Change(t, ev) => ChangeKeepsInv(w, t, ev);
      case CreateAdapter(t) => CreateAdapterKeepsInv(w, t);
      case SessionConnected(_, _) => SessionEventKeepsInv(w, l);
      case SessionDisconnected(_, _, _, _) => SessionEventKeepsInv(w, l);
      case SyncConnectFailed(_, _) => SessionEventKeepsInv(w, l);
      case LoseSession(r, t, local) => LoseSessionKeepsInv(w, r, t, local);
      case Deliver(step) => DeliverKeepsInv(w, step);
      case _ => ReportKeepsInv(w, l);
    }
  }

  lemma DeliverKeepsInv(w: World, step: Q.Label)
    requires Inv(w) && Enabled(w, Deliver(step))
    ensures Inv(Next(w, Deliver(step)))
  {
    Q.StepKeepsInv(w.queue, step);
  }

  lemma {:induction false} RunKeepsInv(ws: seq<World>, ls: seq<Label>, n: nat)
    requires IsRun(ws, ls) && n < |ws|
    ensures Inv(ws[n])
  {
    if n > 0 {
      RunKeepsInv(ws, ls, n - 1);
      StepKeepsInv(ws[n - 1], ls[n - 1]);
    }
  }

  lemma WellPairedPrefix(a: seq<Edge>, b: seq<Edge>)
    requires WellPaired(a + b)
    ensures WellPaired(a)
  {
    forall i | 0 < i < |a|
      ensures if a[i].Lost? then a[i - 1] == Established(a[i].generation)
              else a[i - 1].Lost? && a[i - 1].generation < a[i].generation
    {
      assert (a + b)[i] == a[i] && (a + b)[i - 1] == a[i - 1];
    }
    if a != [] {
      assert (a + b)[0] == a[0];
    }
  }

  /**
   In every interleaving, the edge callbacks started so far are a well-paired sequence: established
   and lost alternate, every loss names the generation established before it, and generations
   strictly increase.
   */
  lemma DeliveredEdgesAreWellPaired(ws: seq<World>, ls: seq<Label>, n: nat)
    requires IsRun(ws, ls) && n < |ws|
    ensures WellPaired(EdgesIn(ws[n].queue.started))
  {
    RunKeepsInv(ws, ls, n);
    var q := ws[n].queue;
    var rest := Q.StartedIsPrefix(q);
    EdgesInAppend(q.started, rest);
    WellPairedPrefix(EdgesIn(q.started), EdgesIn(rest));
  }

  // ---- Generations ----

  lemma GenerationNeverDecreases(w: World, l: Label)
    requires Enabled(w, l)
    ensures w.core.generation <= Next(w, l).core.generation
    ensures l.CreateAdapter? ==> w.core.generation < Next(w, l).core.generation
    ensures w.pathEpoch <= Next(w, l).pathEpoch
    ensures l.InvalidatePath? || l.Observe? ==> w.pathEpoch < Next(w, l).pathEpoch
  {
  }

  lemma {:induction false} CountersNeverDecrease(ws: seq<World>, ls: seq<Label>, i: nat, j: nat)
    requires IsRun(ws, ls) && i <= j < |ws|
    ensures ws[i].core.generation <= ws[j].core.generation && ws[i].pathEpoch <= ws[j].pathEpoch
    decreases j - i
  {
    if i < j {
      CountersNeverDecrease(ws, ls, i, j - 1);
      GenerationNeverDecreases(ws[j - 1], ls[j - 1]);
    }
  }

  lemma {:induction false} SeenEdgeComesFromEffect(effects: seq<ReconnectEffect>, g: nat)
    requires EdgeSeen(Established(g)) in PublicationsOf(effects)
    ensures EdgeEstablished(g) in effects
  {
    if effects != [] && EdgeSeen(Established(g)) !in PublicationOf(effects[|effects| - 1]) {
      SeenEdgeComesFromEffect(effects[..|effects| - 1], g);
    }
  }

  lemma DisconnectEstablishesNothing(s: Reconnect, kind: DisconnectKind, local: bool, g: nat)
    ensures EdgeEstablished(g) !in OnAttemptDisconnected(s, kind, local).1
  {
  }

  lemma TickEstablishesNothing(s: Reconnect, epoch: nat, policy: Policy, g: nat)
    ensures EdgeEstablished(g) !in OnReconnectTick(s, epoch, policy).1
  {
  }

  lemma OnlyConnectingEstablishes(s: Reconnect, ev: ReconnectEvent, g: nat)
    requires EdgeEstablished(g) in Apply(s, ev).1
    ensures ev == AttemptConnected(g)
  {
    match ev {
      case AttemptDisconnected(_, kind, local) => DisconnectEstablishesNothing(s, kind, local, g);
      case ReconnectTick(epoch, policy) => TickEstablishesNothing(s, epoch, policy, g);
      case _ =>
    }
  }

  /** The event that a step applies to the reducer, if any, and the state it is applied to. */
  function Applied(w: World, l: Label): Option<(Core, ReconnectEvent)>
    requires Enabled(w, l)
  {
    match l
    case Change(_, ev) => Some((w.core, ev))
    case CreateAdapter(_) => Some((w.core.(generation := w.core.generation + 1), SessionCreated(w.core.generation + 1)))
    case SessionConnected(_, g) => if w.core.generation == g then Some((w.core, AttemptConnected(g))) else None
    case SessionDisconnected(_, g, kind, local) =>
      if w.core.generation == g then Some((w.core, AttemptDisconnected(g, kind, local))) else None
    case SyncConnectFailed(_, g) => if w.core.generation == g then Some((w.core, ManualConnectFailedSync)) else None
    case LoseSession(r, _, local) =>
      var g := w.reports[r].generation;
      if w.core.generation == g then Some((w.core, AttemptDisconnected(g, NetworkLost, local))) else None
    case _ => None
  }

  /** A step changes the locked state and stages publications exactly as the event it applies. */
  lemma StepAppliesEvent(w: World, l: Label)
    requires Enabled(w, l)
    ensures match Applied(w, l)
            case None => Next(w, l).core == w.core && Next(w, l).queue.staged == w.queue.staged
            case Some(a) => Next(w, l).core == ApplyReconnect(a.0, a.1).0
                            && Next(w, l).queue.staged == w.queue.staged + ApplyReconnect(a.0, a.1).1
  {
  }

  /** An established edge staged by a step names the generation current in that step. */
  lemma StagedEdgeStep(w: World, l: Label, g: nat, x: nat)
    requires Enabled(w, l) && |w.queue.staged| <= x < |Next(w, l).queue.staged|
    requires Next(w, l).queue.staged[x] == EdgeSeen(Established(g))
    ensures l.SessionConnected? && l.generation == g && w.core.generation == g
  {
    StepAppliesEvent(w, l);
    var (c, ev) := Applied(w, l).value;
    var items := ApplyReconnect(c, ev).1;
    assert items[x - |w.queue.staged|] == EdgeSeen(Established(g));
    SeenEdgeComesFromEffect(Apply(c.reconnect, ev).1, g);
    OnlyConnectingEstablishes(c.reconnect, ev, g);
  }

  lemma StagedGrows(w: World, l: Label)
    requires Enabled(w, l)
    ensures |w.queue.staged| <= |Next(w, l).queue.staged|
            && Next(w, l).queue.staged[..|w.queue.staged|] == w.queue.staged
  {
    StepAppliesEvent(w, l);
  }

  /**
   Every established edge ever staged was staged by a connect callback of the session it names, in
   a step in which that session's generation was the current one.
   */
  lemma {:induction false} EstablishedEdgesNameTheCurrentGeneration(ws: seq<World>, ls: seq<Label>, n: nat, x: nat)
    returns (i: nat)
    requires IsRun(ws, ls) && n < |ws| && x < |ws[n].queue.staged|
    requires ws[n].queue.staged[x].EdgeSeen? && ws[n].queue.staged[x].edge.Established?
    ensures i < n && |ws[i].queue.staged| <= x < |ws[i + 1].queue.staged|
    ensures var g := ws[n].queue.staged[x].edge.generation;
            ls[i].SessionConnected? && ls[i].generation == g && ws[i].core.generation == g
  {
    var m: nat := n - 1;
    StagedGrows(ws[m], ls[m]);
    if x < |ws[m].queue.staged| {
      i := EstablishedEdgesNameTheCurrentGeneration(ws, ls, m, x);
    } else {
      StagedEdgeStep(ws[m], ls[m], ws[n].queue.staged[x].edge.generation, x);
      i := m;
    }
  }

  lemma {:induction false} NoAborts(effects: seq<ReconnectEffect>)
    requires forall i :: 0 <= i < |effects| ==> !effects[i].AbortInFlightAttempt?
    ensures Aborts(effects) == 0
  {
    if effects != [] {
      NoAborts(effects[..|effects| - 1]);
    }
  }

  lemma ConnectingAbortsNothing(s: Reconnect, g: nat)
    ensures Aborts(OnAttemptConnected(s, g).1) == 0 && OnAttemptConnected(s, g).0.phase == Connected
  {
    NoAborts(OnAttemptConnected(s, g).1);
  }

  // ---- Debounced losses ----

  lemma ReportStep(w: World, l: Label, r: ReportId)
    requires Enabled(w, l) && r in Next(w, l).reports
    ensures (r in w.reports && Next(w, l).reports[r].generation == w.reports[r].generation)
            || (l.PathChanged? && l.report == r && Next(w, l).reports[r].generation == w.core.generation)
  {
  }

  /** Every report in flight carries the generation that was current when the path change came in. */
  lemma {:induction false} ReportCarriesItsGeneration(ws: seq<World>, ls: seq<Label>, n: nat, r: ReportId)
    returns (i: nat)
    requires IsRun(ws, ls) && n < |ws| && r in ws[n].reports
    ensures i < n && ls[i].PathChanged? && ls[i].report == r && ws[i].core.generation == ws[n].reports[r].generation
  {
    ReportStep(ws[n - 1], ls[n - 1], r);
    if ls[n - 1].PathChanged? && ls[n - 1].report == r {
      i := n - 1;
    } else {
      i := ReportCarriesItsGeneration(ws, ls, n - 1, r);
    }
  }

  /** What a report in flight still says of the path change that it came from. */
  ghost predicate Warranted(w: World, l: Label, report: Report) {
    && l.PathChanged? && report.generation == w.core.generation
    && (match report
        case Reported(satisfied, _) => w.core.reconnect.phase == Connected && !l.quic && satisfied == l.satisfied
        case Debouncing(_, _) => w.core.reconnect.phase == Connected && !l.quic && !l.satisfied
        case Due(phase, _) =>
          phase == w.core.reconnect.phase && !l.satisfied && (phase == Connecting || (phase == Connected && !l.quic))
        case _ =>
          && !l.satisfied
          && (w.core.reconnect.phase == Connecting || (w.core.reconnect.phase == Connected && !l.quic)))
  }

  lemma WarrantStep(w: World, l: Label, r: ReportId, w0: World, l0: Label)
    requires Enabled(w, l) && r in w.reports && Warranted(w0, l0, w.reports[r]) && r in Next(w, l).reports
    ensures Warranted(w0, l0, Next(w, l).reports[r])
  {
  }

  lemma NewReportIsWarranted(w: World, l: Label, r: ReportId)
    requires Enabled(w, l) && r !in w.reports && r in Next(w, l).reports
    ensures l.PathChanged? && l.report == r && Warranted(w, l, Next(w, l).reports[r])
  {
  }

  /**
   Every report in flight comes from a path change that warrants it: a loss of the path, during the
   handshake or of a connected session that is not QUIC.  A restored path and a connected QUIC session
   never lead to a disconnect.
   */
  lemma {:induction false} ReportIsWarranted(ws: seq<World>, ls: seq<Label>, n: nat, r: ReportId) returns (i: nat)
    requires IsRun(ws, ls) && n < |ws| && r in ws[n].reports
    ensures i < n && ls[i].PathChanged? && ls[i].report == r && Warranted(ws[i], ls[i], ws[n].reports[r])
  {
    var m: nat := n - 1;
    if r in ws[m].reports {
      i := ReportIsWarranted(ws, ls, m, r);
      WarrantStep(ws[m], ls[m], r, ws[i], ls[i]);
    } else {
      NewReportIsWarranted(ws[m], ls[m], r);
      i := m;
    }
  }

  /**
   A loss that is due passes its comparison if and only if the phase and the session generation are
   those of the moment at which the path change came in.
   */
  lemma ComparisonPassesIff(ws: seq<World>, ls: seq<Label>, c: nat) returns (i: nat)
    requires IsRun(ws, ls) && c < |ls| && ls[c].Compare?
    ensures i < c && ls[i].PathChanged? && ls[i].report == ls[c].report && !ls[i].satisfied
    ensures ls[c].report in ws[c + 1].reports <==>
            && ws[c].core.reconnect.phase == ws[i].core.reconnect.phase
            && ws[c].core.generation == ws[i].core.generation
  {
    i := ReportIsWarranted(ws, ls, c, ls[c].report);
  }

  /**
   The disconnect event of a network loss is applied only while the session generation is the one
   observed when the loss was reported: either the step leaves the locked state alone, or no session
   was created and no attempt aborted in the whole interval since the report.
   */
  lemma LossEventOnlyHitsTheReportedGeneration(ws: seq<World>, ls: seq<Label>, k: nat) returns (i: nat)
    requires IsRun(ws, ls) && k < |ls| && ls[k].LoseSession?
    ensures i < k && ls[i].PathChanged? && ls[i].report == ls[k].report
    ensures ws[k + 1].core != ws[k].core || ws[k + 1].queue != ws[k].queue ==>
              forall m :: i <= m <= k ==> ws[m].core.generation == ws[i].core.generation
  {
    i := ReportCarriesItsGeneration(ws, ls, k, ls[k].report);
    if ws[k].core.generation == ws[i].core.generation {
      forall m | i <= m <= k ensures ws[m].core.generation == ws[i].core.generation {
        CountersNeverDecrease(ws, ls, i, m);
        CountersNeverDecrease(ws, ls, m, k);
      }
    }
  }

  lemma DebounceStep(w: World, l: Label, r: ReportId)
    requires Enabled(w, l) && r in w.reports && w.reports[r].Debouncing? && l != DebounceOver(r)
    ensures r in Next(w, l).reports && Next(w, l).reports[r] == w.reports[r]
  {
  }

  /** A sleeping report keeps its token until its own debounce is over. */
  lemma {:induction false} DebounceKeepsItsToken(ws: seq<World>, ls: seq<Label>, i: nat, k: nat, r: ReportId)
    requires IsRun(ws, ls) && i <= k < |ws| && r in ws[i].reports && ws[i].reports[r].Debouncing?
    requires forall m :: i <= m < k ==> ls[m] != DebounceOver(r)
    ensures r in ws[k].reports && ws[k].reports[r] == ws[i].reports[r]
    decreases k - i
  {
    if i < k {
      DebounceKeepsItsToken(ws, ls, i, k - 1, r);
      DebounceStep(ws[k - 1], ls[k - 1], r);
    }
  }

  /**
   A loss reported in step `i` survives its own epoch check in step `k` if and only if no path
   update and no invalidation came in between; otherwise it is dropped there for good.
   */
  lemma LaterPathUpdateCancelsLoss(ws: seq<World>, ls: seq<Label>, i: nat, k: nat)
    requires IsRun(ws, ls) && i < k < |ls|
    requires ls[i].Observe? && !ws[i].reports[ls[i].report].satisfied && ls[k] == DebounceOver(ls[i].report)
    requires forall m :: i < m < k ==> ls[m] != DebounceOver(ls[i].report)
    ensures ls[i].report in ws[k + 1].reports <==> forall j :: i < j < k ==> !ls[j].InvalidatePath? && !ls[j].Observe?
  {
    var r := ls[i].report;
    DebounceKeepsItsToken(ws, ls, i + 1, k, r);
    if j :| i < j < k && (ls[j].InvalidatePath? || ls[j].Observe?) {
      CountersNeverDecrease(ws, ls, i + 1, j);
      GenerationNeverDecreases(ws[j], ls[j]);
      CountersNeverDecrease(ws, ls, j + 1, k);
    } else {
      QuietEpochStays(ws, ls, i + 1, k);
    }
  }

  lemma {:induction false} QuietEpochStays(ws: seq<World>, ls: seq<Label>, i: nat, k: nat)
    requires IsRun(ws, ls) && i <= k < |ws|
    requires forall j :: i <= j < k ==> !ls[j].InvalidatePath? && !ls[j].Observe?
    ensures ws[k].pathEpoch == ws[i].pathEpoch
    decreases k - i
  {
    if i < k {
      QuietEpochStays(ws, ls, i, k - 1);
      EpochStep(ws[k - 1], ls[k - 1]);
    }
  }

  lemma EpochStep(w: World, l: Label)
    requires Enabled(w, l) && !l.InvalidatePath? && !l.Observe?
    ensures Next(w, l).pathEpoch == w.pathEpoch
  {
  }
}
