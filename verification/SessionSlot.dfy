/**
 Which session a network loss disconnects (`rust-core/src/orchestrator.rs:793-812,1299-1357`).

 The loss is compared with the locked state, and then the session that happens to be in the shared
 slot is told to disconnect, in a separate critical section and without a look at its generation.
 */
module SessionSlot {
  import opened Wrappers
  import opened ReconnectFsm
  import opened OrchestratorCore
  import opened OrchestratorRuns

  // ---- The slot holds the session stored last ----

  ghost predicate NoStore(ls: seq<Label>, a: nat, b: nat)
    requires b <= |ls|
  {
    forall m :: a <= m < b ==> !ls[m].StoreSession?
  }

  lemma SlotStep(w: World, l: Label)
    requires Enabled(w, l)
    ensures Next(w, l).session == if l.StoreSession? then Some(l.generation) else w.session
  {
  }

  lemma {:induction false} SlotStays(ws: seq<World>, ls: seq<Label>, a: nat, b: nat)
    requires IsRun(ws, ls) && a <= b <= |ls| && NoStore(ls, a, b)
    ensures ws[b].session == ws[a].session
    decreases b
  {
    if a < b {
      SlotStays(ws, ls, a, b - 1);
      SlotStep(ws[b - 1], ls[b - 1]);
    }
  }

  /** Step `j` stores session `g`, and no session is stored after it before step `b`. */
  ghost predicate LastStoreIs(ls: seq<Label>, a: nat, j: nat, b: nat, g: nat)
    requires b <= |ls|
  {
    a <= j < b && ls[j] == StoreSession(g) && NoStore(ls, j + 1, b)
  }

  lemma {:induction false} LastStore(ls: seq<Label>, a: nat, b: nat) returns (j: nat)
    requires a <= b <= |ls| && !NoStore(ls, a, b)
    ensures a <= j < b && ls[j].StoreSession? && NoStore(ls, j + 1, b)
    decreases b
  {
    if ls[b - 1].StoreSession? {
      j := b - 1;
    } else {
      j := LastStore(ls, a, b - 1);
    }
  }

  /** The slot after a stretch of a run: what was stored last in it, or what was there before. */
  lemma SlotIsLastStore(ws: seq<World>, ls: seq<Label>, a: nat, b: nat, g: nat)
    requires IsRun(ws, ls) && a <= b <= |ls|
    ensures ws[b].session == Some(g) <==>
            (NoStore(ls, a, b) && ws[a].session == Some(g)) || exists j: nat :: LastStoreIs(ls, a, j, b, g)
  {
    if NoStore(ls, a, b) {
      SlotStays(ws, ls, a, b);
    } else {
      var j := LastStore(ls, a, b);
      SlotStep(ws[j], ls[j]);
      SlotStays(ws, ls, j + 1, b);
      assert LastStoreIs(ls, a, j, b, ls[j].generation);
      forall i: nat | LastStoreIs(ls, a, i, b, g) ensures i == j {
        assert ls[i].StoreSession? && ls[j].StoreSession?;
      }
    }
  }

  // ---- A session is stored at most once ----

  ghost predicate SlotInv(w: World) {
    && (forall g :: g in w.unstored ==> g <= w.core.generation)
    && (w.session.Some? ==> w.session.value !in w.unstored && w.session.value <= w.core.generation)
  }

  /** Once stored, a generation is never waiting to be stored again. */
  ghost predicate Spent(w: World, g: nat) {
    g !in w.unstored && g <= w.core.generation
  }

  lemma SpentStep(w: World, l: Label, g: nat)
    requires Enabled(w, l) && Spent(w, g)
    ensures Spent(Next(w, l), g)
  {
    GenerationNeverDecreases(w, l);
  }

  lemma {:induction false} SpentStays(ws: seq<World>, ls: seq<Label>, a: nat, b: nat, g: nat)
    requires IsRun(ws, ls) && a <= b <= |ls| && Spent(ws[a], g)
    ensures Spent(ws[b], g)
    decreases b
  {
    if a < b {
      SpentStays(ws, ls, a, b - 1, g);
      SpentStep(ws[b - 1], ls[b - 1], g);
    }
  }

  lemma SlotInvStep(w: World, l: Label)
    requires Enabled(w, l) && SlotInv(w)
    ensures SlotInv(Next(w, l))
  {
    GenerationNeverDecreases(w, l);
  }

  lemma {:induction false} RunKeepsSlotInv(ws: seq<World>, ls: seq<Label>, n: nat)
    requires IsRun(ws, ls) && n < |ws|
    ensures SlotInv(ws[n])
  {
    if n > 0 {
      RunKeepsSlotInv(ws, ls, n - 1);
      SlotInvStep(ws[n - 1], ls[n - 1]);
    }
  }

  // ---- Replaced sessions ----

  lemma ReplacedStep(w: World, l: Label, g: nat)
    requires Enabled(w, l) && (w.session == Some(g) || g in w.told)
    ensures Next(w, l).session == Some(g) || g in Next(w, l).told
  {
  }

  /** A session that was stored is in the slot or was told to disconnect: none is left behind alive. */
  lemma {:induction false} ReplacedSessionsAreDisconnected(ws: seq<World>, ls: seq<Label>, j: nat, n: nat, g: nat)
    requires IsRun(ws, ls) && j < n < |ws| && ls[j] == StoreSession(g)
    ensures ws[n].session == Some(g) || g in ws[n].told
    decreases n
  {
    if j < n - 1 {
      ReplacedSessionsAreDisconnected(ws, ls, j, n - 1, g);
      ReplacedStep(ws[n - 1], ls[n - 1], g);
    } else {
      SlotStep(ws[j], ls[j]);
    }
  }

  // ---- What a loss disconnects ----

  /** The comparison of report `r` in step `c` passes, and step `k` acts on it. */
  ghost predicate ActsOn(ws: seq<World>, ls: seq<Label>, c: nat, k: nat, r: ReportId)
    requires IsRun(ws, ls)
  {
    && c < k < |ls| && ls[c] == Compare(r) && r in ws[c + 1].reports && ls[k] == DisconnectCurrent(r)
    && forall m :: c < m < k ==> ls[m] != DisconnectCurrent(r)
  }

  /** Step `k` tells the session of generation `g` to disconnect. */
  ghost predicate Disconnects(ws: seq<World>, k: nat, g: nat)
    requires k < |ws|
  {
    ws[k].session == Some(g)
  }

  /**
   The session that a loss disconnects is the one it was reported for if and only if that session
   was the last to be stored: in the slot at the comparison with none stored since, or stored in
   between with none after it.
   */
  lemma LossDisconnectsTheReportedSessionIff(ws: seq<World>, ls: seq<Label>, c: nat, k: nat, r: ReportId)
    requires IsRun(ws, ls) && ActsOn(ws, ls, c, k, r)
    ensures var g := ws[c].core.generation;
            && ws[c].reports[r].generation == g
            && (Disconnects(ws, k, g) <==>
                  (NoStore(ls, c, k) && ws[c].session == Some(g)) || exists j: nat :: LastStoreIs(ls, c, j, k, g))
  {
    SlotIsLastStore(ws, ls, c, k, ws[c].core.generation);
  }

  /** If the reported session was in the slot at the comparison: iff no session was stored since. */
  lemma StoredSessionIsDisconnectedIff(ws: seq<World>, ls: seq<Label>, c: nat, k: nat, r: ReportId)
    requires IsRun(ws, ls) && ActsOn(ws, ls, c, k, r) && ws[c].session == Some(ws[c].core.generation)
    ensures Disconnects(ws, k, ws[c].core.generation) <==> NoStore(ls, c, k)
  {
    var g := ws[c].core.generation;
    RunKeepsSlotInv(ws, ls, c);
    SlotIsLastStore(ws, ls, c, k, g);
    if j: nat :| LastStoreIs(ls, c, j, k, g) {
      SpentStays(ws, ls, c, j, g);
      assert false;
    }
  }

  // ---- A run in which a loss disconnects a later session ----

  lemma {:induction false} Extend(ws: seq<World>, ls: seq<Label>, l: Label) returns (ws': seq<World>, ls': seq<Label>)
    requires IsRun(ws, ls) && Enabled(ws[|ls|], l)
    ensures ls' == ls + [l] && ws' == ws + [Next(ws[|ls|], l)] && IsRun(ws', ls')
  {
    ls', ws' := ls + [l], ws + [Next(ws[|ls|], l)];
    forall i | 0 <= i < |ls'| ensures Enabled(ws'[i], ls'[i]) && ws'[i + 1] == Next(ws'[i], ls'[i]) {
      if i < |ls| {
        assert ws'[i] == ws[i] && ls'[i] == ls[i] && ws'[i + 1] == ws[i + 1];
      }
    }
  }

  /** What the run below depends on: thread 0 may act, and the rest of the state is as given. */
  ghost predicate Looks(w: World, phase: ConnPhase, generation: nat, session: Option<nat>, unstored: set<nat>,
                        report: Option<Report>) {
    && MayStage(w, 0) && w.core.reconnect.phase == phase && w.core.generation == generation
    && w.session == session && w.unstored == unstored
    && (if report.Some? then 0 in w.reports && w.reports[0] == report.value else 0 !in w.reports)
  }

  lemma StagedMayStage(w: World, result: (Core, seq<ConnectionEvents.Publication>))
    requires MayStage(w, 0)
    ensures MayStage(Staged(w, 0, result), 0)
  {
  }

  lemma ManualLooks(w: World, attempt: nat, phase: ConnPhase, generation: nat, session: Option<nat>,
                    report: Option<Report>)
    requires Looks(w, phase, generation, session, {}, report) && phase != Connecting
    ensures Enabled(w, Change(0, ManualConnectStarted(attempt)))
    ensures Looks(Next(w, Change(0, ManualConnectStarted(attempt))), Connecting, generation, session, {}, report)
  {
    var ev := ManualConnectStarted(attempt);
    NoAborts(OnManualConnectStarted(w.core.reconnect, attempt).1);
    StagedMayStage(w, ApplyReconnect(w.core, ev));
  }

  lemma CreateLooks(w: World, generation: nat, session: Option<nat>, report: Option<Report>)
    requires Looks(w, Connecting, generation, session, {}, report)
    ensures Enabled(w, CreateAdapter(0))
    ensures Looks(Next(w, CreateAdapter(0)), Connecting, generation + 1, session, {generation + 1}, report)
  {
    NoAborts(Apply(w.core.reconnect, SessionCreated(generation + 1)).1);
    StagedMayStage(w, NewAdapter(w.core));
  }

  lemma ConnectLooks(w: World, generation: nat)
    requires Looks(w, Connecting, generation, Some(generation), {}, None)
    ensures Enabled(w, SessionConnected(0, generation))
    ensures Looks(Next(w, SessionConnected(0, generation)), Connected, generation, Some(generation), {}, None)
  {
    ConnectingAbortsNothing(w.core.reconnect, generation);
    StagedMayStage(w, Guarded(w.core, generation, AttemptConnected(generation)));
  }

  lemma DisconnectLooks(w: World, generation: nat, report: Option<Report>)
    requires Looks(w, Connecting, generation, Some(generation), {}, report)
    ensures var l := SessionDisconnected(0, generation, TransportError, false);
            Enabled(w, l) && Next(w, l).core.reconnect.phase == Idle
  {
  }

  /** A session is established and stored. */
  lemma SessionUp() returns (ws: seq<World>, ls: seq<Label>)
    ensures IsRun(ws, ls) && Looks(ws[|ls|], Connected, 1, Some(1), {}, None)
  {
    ws, ls := [INITIAL], [];
    ManualLooks(ws[|ls|], 0, Idle, 0, None, None);
    ws, ls := Extend(ws, ls, Change(0, ManualConnectStarted(0)));
    CreateLooks(ws[|ls|], 0, None, None);
    ws, ls := Extend(ws, ls, CreateAdapter(0));
    ws, ls := Extend(ws, ls, StoreSession(1));
    assert Looks(ws[|ls|], Connecting, 1, Some(1), {}, None);
    ConnectLooks(ws[|ls|], 1);
    ws, ls := Extend(ws, ls, SessionConnected(0, 1));
  }

  /** Its path is lost, and the debounced loss is compared with the state. */
  lemma LossCompared() returns (ws: seq<World>, ls: seq<Label>)
    ensures IsRun(ws, ls) && |ls| > 0 && ls[|ls| - 1] == Compare(0)
    ensures Looks(ws[|ls|], Connected, 1, Some(1), {}, Some(Checked(1)))
  {
    ws, ls := SessionUp();
    ws, ls := Extend(ws, ls, PathChanged(0, false, false));
    assert Looks(ws[|ls|], Connected, 1, Some(1), {}, Some(Reported(false, 1)));
    ws, ls := Extend(ws, ls, Observe(0));
    ghost var token := ws[|ls|].pathEpoch;
    assert Looks(ws[|ls|], Connected, 1, Some(1), {}, Some(Debouncing(token, 1)));
    ws, ls := Extend(ws, ls, DebounceOver(0));
    assert Looks(ws[|ls|], Connected, 1, Some(1), {}, Some(Due(Connected, 1)));
    ws, ls := Extend(ws, ls, Compare(0));
  }

  /** Before the loss acts, the user connects again and the new session is stored. */
  lemma LaterSessionStored() returns (ws: seq<World>, ls: seq<Label>, c: nat)
    ensures IsRun(ws, ls) && c + 4 == |ls| && ls[c] == Compare(0)
    ensures ls[c + 1..] == [Change(0, ManualConnectStarted(1)), CreateAdapter(0), StoreSession(2)]
    ensures Looks(ws[c + 1], Connected, 1, Some(1), {}, Some(Checked(1)))
    ensures Looks(ws[|ls|], Connecting, 2, Some(2), {}, Some(Checked(1)))
  {
    ws, ls := LossCompared();
    c := |ls| - 1;
    ManualLooks(ws[|ls|], 1, Connected, 1, Some(1), Some(Checked(1)));
    ws, ls := Extend(ws, ls, Change(0, ManualConnectStarted(1)));
    CreateLooks(ws[|ls|], 1, Some(1), Some(Checked(1)));
    ws, ls := Extend(ws, ls, CreateAdapter(0));
    ws, ls := Extend(ws, ls, StoreSession(2));
  }

  /**
   A loss reported for session 1 disconnects session 2, stored between the comparison and the
   disconnect; and when session 2 then reports its end, that report is current and is applied.
   */
  lemma LossHitsALaterSession() returns (ws: seq<World>, ls: seq<Label>, c: nat, k: nat)
    ensures IsRun(ws, ls) && ActsOn(ws, ls, c, k, 0) && k + 2 == |ls|
    ensures ws[c + 1].reports[0].generation == 1 && Disconnects(ws, k, 2) && 2 in ws[k + 1].told
    ensures ls[k + 1] == SessionDisconnected(0, 2, TransportError, false)
    ensures ws[k + 1].core.reconnect.phase == Connecting && ws[k + 2].core.reconnect.phase == Idle
  {
    ws, ls, c := LaterSessionStored();
    ghost var before := ls;
    k := |ls|;
    assert forall m :: c < m < k ==> before[m] == before[c + 1..][m - c - 1];
    ws, ls := Extend(ws, ls, DisconnectCurrent(0));
    assert Looks(ws[|ls|], Connecting, 2, Some(2), {}, Some(Cut(1)));
    DisconnectLooks(ws[|ls|], 2, Some(Cut(1)));
    ws, ls := Extend(ws, ls, SessionDisconnected(0, 2, TransportError, false));
  }
}
