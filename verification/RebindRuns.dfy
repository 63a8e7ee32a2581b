/**
 Whole runs of the rebind machine under its driver, against arbitrary events at arbitrary times.

 An observer that sees only the inputs and the published states keeps its own books; the theorems
 say what the machine does in terms of those books.
 */
module RebindRuns {
  import opened Wrappers
  import opened RebindMachine
  import opened RebindLoop

  /**
   The books of an outside observer.  A probe result is *counted* when it arrives off Wi-Fi and no
   manual request is waiting for it.  A round starts at the failover and whenever the previous
   round is abandoned; an episode lasts from a failover to the return to Wi-Fi.
   */
  datatype Observer = Observer(
    phase: Phase,               // the last published state
    streak: nat,                // counted successes since the last counted failure or round start
    expired: bool,              // a stability window expired in this round, whenever it was armed
    unbrokenWindow: bool,       // no counted failure since the success that last began a streak and armed the window
    unbrokenExpiry: bool,       // the window expired unbroken in this round, and no counted failure came afterwards
    dwelled: bool,              // the minimum dwell expired in this episode
    manual: bool,               // a manual request was received and no probe result since
    failedSinceWaiting: bool,   // a counted failure came after waiting was announced
    abandoned: nat,             // rounds abandoned since the last return to Wi-Fi
    failoverAt: nat)            // when this episode began

  const ON_WIFI := Observer(OnWifi, 0, false, false, false, false, false, false, 0, 0)

  function Announced(d: Driver, d': Driver): Option<Phase> {
    if |d.published| < |d'.published| then Some(d'.published[|d'.published| - 1]) else None
  }

  function NoteInput(o: Observer, input: Input): Observer {
    var off := o.phase != OnWifi;
    match input
    case Event(WifiProbeSucceeded) =>
      if off && !o.manual then o.(streak := o.streak + 1, unbrokenWindow := o.streak == 0 || o.unbrokenWindow)
      else o.(manual := false)
    case Event(WifiProbeFailed) =>
      if off && !o.manual then
        o.(streak := 0, unbrokenWindow := false, unbrokenExpiry := false, failedSinceWaiting := true)
      else o.(manual := false)
    case Event(ManualForceReturnRequested) => o.(manual := off)
    case Timeout(StabilityWindow) => if off then o.(expired := true, unbrokenExpiry := o.unbrokenWindow) else o
    case Timeout(CellularMinDwell) => if off then o.(dwelled := true) else o
    case _ => o
  }

  function Note(o: Observer, input: Input, announced: Option<Phase>, now: nat): Observer {
    var o' := NoteInput(o, input);
    match announced
    case None => o'
    case Some(OnWifi) => ON_WIFI
    case Some(WaitingQuietToReturn) => o'.(phase := WaitingQuietToReturn, failedSinceWaiting := false)
    case Some(FailedOverToCellular) =>
      if o.phase == OnWifi then ON_WIFI.(phase := FailedOverToCellular, failoverAt := now)
      else o'.(phase := FailedOverToCellular, streak := 0, expired := false, unbrokenExpiry := false,
               abandoned := o.abandoned + 1)
  }

  /** The driver together with its observer. */
  datatype Watched = Watched(driver: Driver, observer: Observer)

  const START := Watched(NEW_DRIVER, ON_WIFI)

  function Next(s: Watched, input: Input): Watched {
    var d' := Turn(s.driver, input);
    Watched(d', Note(s.observer, input, Announced(s.driver, d'), s.driver.now))
  }

  ghost predicate IsRun(ss: seq<Watched>, inputs: seq<Input>) {
    && |ss| == |inputs| + 1
    && ss[0] == START
    && (forall i :: 0 <= i < |inputs| ==> Possible(ss[i].driver, inputs[i]) && ss[i + 1] == Next(ss[i], inputs[i]))
  }

  // ---- The invariant ----

  function Min(a: nat, b: nat): nat {
    if a <= b then a else b
  }

  /** The three conditions of the hysteresis. */
  predicate ReadyToWait(o: Observer) {
    o.streak >= STABILITY_CONSECUTIVE_SUCCESSES && o.expired && o.dwelled
  }

  /** The machine's fields agree with the observer's books. */
  ghost predicate BooksAgree(m: Manager, o: Observer) {
    && m.phase == o.phase && m.successes == Min(o.streak, U32_MAX)
    && m.stable == o.expired && m.dwelled == o.dwelled && m.manual == o.manual
    && m.backoff == Min(o.abandoned, 2)
    && (m.phase == OnWifi ==> o == ON_WIFI)
    && (m.phase == FailedOverToCellular ==> !ReadyToWait(o))
    && (m.phase == WaitingQuietToReturn ==> ReadyToWait(o) && !o.failedSinceWaiting)
  }

  /** Armed timers and the quiet watch follow the phase. */
  ghost predicate TimersFollowPhase(d: Driver) {
    var m := d.manager;
    && (m.phase == OnWifi ==> d.armed == map[] && !d.watching && m == NEW_MANAGER)
    && (m.phase != OnWifi ==>
          && (ProbeCadence in d.armed <==> Backoff !in d.armed)
          && (CellularMinDwell in d.armed <==> !m.dwelled))
    && (QuietWait in d.armed <==> m.phase == WaitingQuietToReturn)
    && (d.watching <==> m.phase == WaitingQuietToReturn)
  }

  ghost predicate DwellIsTimed(d: Driver, o: Observer) {
    o.phase != OnWifi ==>
      && (CellularMinDwell in d.armed ==> d.armed[CellularMinDwell] == o.failoverAt + CELLULAR_MIN_DWELL)
      && (o.dwelled ==> d.now >= o.failoverAt + CELLULAR_MIN_DWELL)
  }

  /** Rebinds alternate, beginning with cellular; published states never repeat. */
  ghost predicate OutputsAlternate(d: Driver) {
    && (forall i :: 0 <= i < |d.rebinds| ==>
          d.rebinds[i] == if i % 2 == 0 then PerformRebindToCellular else PerformRebindToWifi)
    && (|d.rebinds| % 2 == 0 <==> d.manager.phase == OnWifi)
    && (d.published == [] ==> d.manager.phase == OnWifi)
    && (d.published != [] ==> d.published[0] != OnWifi && d.published[|d.published| - 1] == d.manager.phase)
    && (forall i :: 0 < i < |d.published| ==> d.published[i] != d.published[i - 1])
  }

  ghost predicate Inv(s: Watched) {
    && BooksAgree(s.driver.manager, s.observer) && TimersFollowPhase(s.driver)
    && DwellIsTimed(s.driver, s.observer) && OutputsAlternate(s.driver)
  }

  // ---- What each kind of response does to the driver ----

  lemma TimersSnoc(armed: map<TimerId, nat>, now: nat, ts: seq<TimerCommand>, t: TimerCommand)
    ensures ApplyTimers(armed, now, ts + [t]) == ApplyTimer(ApplyTimers(armed, now, ts), now, t)
  {
    assert (ts + [t])[..|ts|] == ts;
  }

  lemma ActionsSnoc(d: Driver, actions: seq<RebindAction>, a: RebindAction)
    ensures ApplyActions(d, actions + [a]) == ApplyAction(ApplyActions(d, actions), a)
  {
    assert (actions + [a])[..|actions|] == actions;
  }

  lemma Dispatch0(d: Driver, timers: seq<TimerCommand>, consumed: bool)
    requires |timers| <= 1
    ensures Dispatch(d, Response(consumed, [], timers)) ==
            d.(armed := if timers == [] then d.armed else ApplyTimer(d.armed, d.now, timers[0]))
    ensures Dispatch(d, Response(consumed, [StartWifiProbe], timers)) ==
            Dispatch(d, Response(consumed, [], timers)).(probes := d.probes + [d.now])
  {
    ActionsSnoc(d.(armed := ApplyTimers(d.armed, d.now, timers)), [], StartWifiProbe);
    assert [] + [StartWifiProbe] == [StartWifiProbe];
    if timers != [] {
      TimersSnoc(d.armed, d.now, [], timers[0]);
      assert [] + [timers[0]] == timers;
    }
  }

  lemma Timers2(armed: map<TimerId, nat>, now: nat, a: TimerCommand, b: TimerCommand)
    ensures ApplyTimers(armed, now, [a]) == ApplyTimer(armed, now, a)
    ensures ApplyTimers(armed, now, [a, b]) == ApplyTimer(ApplyTimer(armed, now, a), now, b)
  {
    assert [] + [a] == [a] && [a] + [b] == [a, b];
    TimersSnoc(armed, now, [], a);
    TimersSnoc(armed, now, [a], b);
  }

  lemma Timers3(armed: map<TimerId, nat>, now: nat, a: TimerCommand, b: TimerCommand, c: TimerCommand)
    ensures ApplyTimers(armed, now, [a, b, c]) == ApplyTimer(ApplyTimer(ApplyTimer(armed, now, a), now, b), now, c)
  {
    Timers2(armed, now, a, b);
    assert [a, b] + [c] == [a, b, c];
    TimersSnoc(armed, now, [a, b], c);
  }

  lemma Actions2(d: Driver, a: RebindAction, b: RebindAction)
    ensures ApplyActions(d, [a, b]) == ApplyAction(ApplyAction(d, a), b)
  {
    assert [] + [a] == [a] && [a] + [b] == [a, b];
    ActionsSnoc(d, [], a);
    ActionsSnoc(d, [a], b);
  }

  lemma Actions3(d: Driver, a: RebindAction, b: RebindAction, c: RebindAction)
    ensures ApplyActions(d, [a, b, c]) == ApplyAction(ApplyAction(ApplyAction(d, a), b), c)
  {
    Actions2(d, a, b);
    assert [a, b] + [c] == [a, b, c];
    ActionsSnoc(d, [a, b], c);
  }

  lemma DispatchFailover(d: Driver, m: Manager)
    requires m.phase == OnWifi
    ensures Dispatch(d, NoViable(m).1) ==
            d.(armed := d.armed[CellularMinDwell := d.now + CELLULAR_MIN_DWELL][ProbeCadence := d.now + PROBE_CADENCE],
               published := d.published + [FailedOverToCellular],
               rebinds := d.rebinds + [PerformRebindToCellular],
               probes := d.probes + [d.now])
  {
    var r := NoViable(m).1;
    Timers2(d.armed, d.now, r.timers[0], r.timers[1]);
    Actions3(d.(armed := ApplyTimers(d.armed, d.now, r.timers)), r.actions[0], r.actions[1], r.actions[2]);
  }

  lemma DispatchReturn(d: Driver, m: Manager)
    ensures Dispatch(d, CompleteReturn(m).1) ==
            d.(armed := map[], watching := false,
               published := d.published + [OnWifi],
               rebinds := d.rebinds + [PerformRebindToWifi])
  {
    var r := CompleteReturn(m).1;
    var ts := r.timers;
    Timers3(d.armed, d.now, ts[0], ts[1], ts[2]);
    assert ts[..4] == [ts[0], ts[1], ts[2]] + [ts[3]] && ts == ts[..4] + [ts[4]];
    TimersSnoc(d.armed, d.now, [ts[0], ts[1], ts[2]], ts[3]);
    TimersSnoc(d.armed, d.now, ts[..4], ts[4]);
    var armed3 := d.armed - {QuietWait} - {ProbeCadence} - {StabilityWindow};
    assert ApplyTimers(d.armed, d.now, ts[..4]) == armed3 - {Backoff};
    assert ApplyTimers(d.armed, d.now, ts) == armed3 - {Backoff} - {CellularMinDwell};
    assert armed3 - {Backoff} - {CellularMinDwell} == map[] by {
      forall id | id in armed3 - {Backoff} - {CellularMinDwell} ensures false {
        match id case CellularMinDwell => case StabilityWindow => case ProbeCadence => case QuietWait => case Backoff =>
      }
    }
    Actions3(d.(armed := map[]), r.actions[0], r.actions[1], r.actions[2]);
  }

  lemma DispatchGiveUp(d: Driver, m: Manager)
    ensures Dispatch(d, GiveUpRound(m).1) ==
            d.(armed := (d.armed - {QuietWait} - {ProbeCadence})[Backoff := d.now + CurrentBackoff(m)],
               watching := false,
               published := d.published + [FailedOverToCellular])
  {
    var r := GiveUpRound(m).1;
    Timers3(d.armed, d.now, r.timers[0], r.timers[1], r.timers[2]);
    Actions2(d.(armed := ApplyTimers(d.armed, d.now, r.timers)), r.actions[0], r.actions[1]);
  }

  lemma DispatchWait(d: Driver, timers: seq<TimerCommand>)
    requires |timers| <= 1
    ensures var armed := if timers == [] then d.armed else ApplyTimer(d.armed, d.now, timers[0]);
            Dispatch(d, Response(true, [PublishState(WaitingQuietToReturn), StartQuietWatch],
                                 timers + [SetTimer(QuietWait, QUIET_WAIT_TIMEOUT)])) ==
            d.(armed := armed[QuietWait := d.now + QUIET_WAIT_TIMEOUT], watching := true,
               published := d.published + [WaitingQuietToReturn])
  {
    TimersSnoc(d.armed, d.now, timers, SetTimer(QuietWait, QUIET_WAIT_TIMEOUT));
    Dispatch0(d, timers, true);
    Actions2(d.(armed := ApplyTimers(d.armed, d.now, timers + [SetTimer(QuietWait, QUIET_WAIT_TIMEOUT)])),
             PublishState(WaitingQuietToReturn), StartQuietWatch);
  }

  // ---- Every step keeps the invariant ----

  /** The driver just before it applies the response to `input`. */
  function Before(d: Driver, input: Input): Driver {
    d.(manager := Answer(d, input).0,
       armed := if input.Timeout? then d.armed - {input.id} else d.armed,
       now := if input.Elapse? then d.now + input.duration else d.now)
  }

  lemma FailoverKeepsInv(s: Watched, input: Input)
    requires Inv(s) && s.driver.manager.phase == OnWifi
    requires input == Event(NoViablePath) || input == Event(UpstreamHealthDegraded)
    ensures Inv(Next(s, input))
  {
    DispatchFailover(Before(s.driver, input), s.driver.manager);
  }

  lemma ReturnKeepsInv(s: Watched, input: Input)
    requires Inv(s) && s.driver.manager.phase != OnWifi
    requires input.Event? && Answer(s.driver, input) == CompleteReturn(s.driver.manager)
    ensures Inv(Next(s, input))
  {
    DispatchReturn(Before(s.driver, input), s.driver.manager);
  }

  lemma GiveUpKeepsInv(s: Watched, input: Input)
    requires Inv(s) && s.driver.manager.phase == WaitingQuietToReturn
    requires input == Timeout(QuietWait) || (input == Event(WifiProbeFailed) && !s.driver.manager.manual)
    ensures Inv(Next(s, input))
  {
    DispatchGiveUp(Before(s.driver, input), s.driver.manager);
  }

  /** Progress of a round: one more counted success, or one of its two timers expired. */
  ghost predicate Progresses(m: Manager, input: Input, progressed: Manager) {
    || (input == Event(WifiProbeSucceeded) && !m.manual
        && progressed == m.(successes := if m.successes >= U32_MAX then U32_MAX else m.successes + 1))
    || (input == Timeout(CellularMinDwell) && progressed == m.(dwelled := true))
    || (input == Timeout(StabilityWindow) && progressed == m.(stable := true))
  }

  lemma ProgressKeepsInv(s: Watched, input: Input, progressed: Manager, timers: seq<TimerCommand>)
    requires Inv(s) && Possible(s.driver, input) && s.driver.manager.phase != OnWifi
    requires Answer(s.driver, input) == MaybeEnterWaiting(progressed, timers)
             && Progresses(s.driver.manager, input, progressed)
    requires timers == [] || timers == [SetTimer(StabilityWindow, STABILITY_WINDOW)]
    ensures Inv(Next(s, input))
  {
    if MaybeEnterWaiting(progressed, timers).0.phase == progressed.phase {
      StayingKeepsInv(s, input, progressed, timers);
    } else {
      EnteringWaitKeepsInv(s, input, progressed, timers);
    }
  }

  lemma StayingKeepsInv(s: Watched, input: Input, progressed: Manager, timers: seq<TimerCommand>)
    requires Inv(s) && Possible(s.driver, input) && s.driver.manager.phase != OnWifi
             && Progresses(s.driver.manager, input, progressed)
    requires Answer(s.driver, input) == (progressed, Response(true, [], timers))
    requires timers == [] || timers == [SetTimer(StabilityWindow, STABILITY_WINDOW)]
    ensures Inv(Next(s, input))
  {
    Dispatch0(Before(s.driver, input), timers, true);
  }

  function ArmedForWait(d: Driver, timers: seq<TimerCommand>): map<TimerId, nat>
    requires |timers| <= 1
  {
    (if timers == [] then d.armed else ApplyTimer(d.armed, d.now, timers[0]))[QuietWait := d.now + QUIET_WAIT_TIMEOUT]
  }

  /** The driver after the turn that announces the wait. */
  function WaitDriver(d: Driver, input: Input, timers: seq<TimerCommand>): Driver
    requires |timers| <= 1
  {
    var before := Before(d, input);
    before.(armed := ArmedForWait(before, timers), watching := true,
            published := before.published + [WaitingQuietToReturn])
  }

  predicate Hysteresis(m: Manager) {
    m.phase == FailedOverToCellular && m.successes >= STABILITY_CONSECUTIVE_SUCCESSES && m.stable && m.dwelled
  }

  lemma EnteringWaitTurn(d: Driver, input: Input, progressed: Manager, timers: seq<TimerCommand>)
    requires Hysteresis(progressed) && |timers| <= 1 && Answer(d, input) == MaybeEnterWaiting(progressed, timers)
    ensures Turn(d, input) == WaitDriver(d, input, timers)
  {
    DispatchWait(Before(d, input), timers);
  }

  lemma WaitingKeepsOutputs(d: Driver, d': Driver)
    requires OutputsAlternate(d) && d.manager.phase == FailedOverToCellular && d'.manager.phase == WaitingQuietToReturn
    requires d'.rebinds == d.rebinds && d'.published == d.published + [WaitingQuietToReturn]
    ensures OutputsAlternate(d')
  {
  }

  /** The observer after the wait is announced. */
  function WaitObserver(o: Observer, input: Input): Observer {
    NoteInput(o, input).(phase := WaitingQuietToReturn, failedSinceWaiting := false)
  }

  lemma WaitingKeepsBooks(m: Manager, o: Observer, input: Input, progressed: Manager)
    requires BooksAgree(m, o) && Progresses(m, input, progressed) && Hysteresis(progressed)
    ensures BooksAgree(progressed.(phase := WaitingQuietToReturn), WaitObserver(o, input))
  {
  }

  lemma WaitingKeepsTimers(d: Driver, o: Observer, input: Input, progressed: Manager, timers: seq<TimerCommand>)
    requires BooksAgree(d.manager, o) && TimersFollowPhase(d) && DwellIsTimed(d, o) && Possible(d, input)
    requires Progresses(d.manager, input, progressed) && Hysteresis(progressed)
    requires Answer(d, input).0 == progressed.(phase := WaitingQuietToReturn)
    requires timers == [] || timers == [SetTimer(StabilityWindow, STABILITY_WINDOW)]
    ensures TimersFollowPhase(WaitDriver(d, input, timers))
            && DwellIsTimed(WaitDriver(d, input, timers), WaitObserver(o, input))
  {
  }

  lemma EnteringWaitKeepsInv(s: Watched, input: Input, progressed: Manager, timers: seq<TimerCommand>)
    requires Inv(s) && Possible(s.driver, input) && Progresses(s.driver.manager, input, progressed)
             && Hysteresis(progressed)
    requires Answer(s.driver, input) == MaybeEnterWaiting(progressed, timers)
    requires timers == [] || timers == [SetTimer(StabilityWindow, STABILITY_WINDOW)]
    ensures Inv(Next(s, input))
  {
    var d, o := s.driver, s.observer;
    EnteringWaitTurn(d, input, progressed, timers);
    WaitingKeepsBooks(d.manager, o, input, progressed);
    WaitingKeepsTimers(d, o, input, progressed, timers);
    WaitingKeepsOutputs(d, WaitDriver(d, input, timers));
    assert Next(s, input) == Watched(WaitDriver(d, input, timers), WaitObserver(o, input));
  }

  /** Passing time. */
  lemma ElapseKeepsInv(s: Watched, duration: nat)
    requires Inv(s)
    ensures Inv(Next(s, Elapse(duration)))
  {
    Dispatch0(Before(s.driver, Elapse(duration)), [], true);
  }

  /** Events that publish nothing and touch no timer. */
  lemma QuietStepKeepsInv(s: Watched, event: RebindEvent)
    requires Inv(s) && (event != WifiProbeSucceeded || s.driver.manager.phase == OnWifi)
    requires OnEvent(s.driver.manager, event).1.timers == []
             && OnEvent(s.driver.manager, event).1.actions in {[], [StartWifiProbe]}
    ensures Inv(Next(s, Event(event)))
  {
    Dispatch0(Before(s.driver, Event(event)), [], OnEvent(s.driver.manager, event).1.consumed);
  }

  lemma ProbeTimerKeepsInv(s: Watched, id: TimerId)
    requires Inv(s) && Possible(s.driver, Timeout(id)) && (id == ProbeCadence || id == Backoff)
    ensures Inv(Next(s, Timeout(id)))
  {
    Dispatch0(Before(s.driver, Timeout(id)), [SetTimer(ProbeCadence, PROBE_CADENCE)], true);
  }

  lemma CountedFailureKeepsInv(s: Watched)
    requires Inv(s) && s.driver.manager.phase == FailedOverToCellular && !s.driver.manager.manual
    ensures Inv(Next(s, Event(WifiProbeFailed)))
  {
    Dispatch0(Before(s.driver, Event(WifiProbeFailed)), [KillTimer(StabilityWindow)], true);
  }

  lemma StepKeepsInv(s: Watched, input: Input)
    requires Inv(s) && Possible(s.driver, input)
    ensures Inv(Next(s, input))
  {
    var m := s.driver.manager;
    match input {
      case Event(WifiProbeSucceeded) =>
        if m.manual {
          ReturnKeepsInv(s, input);
        } else if m.phase == OnWifi {
          QuietStepKeepsInv(s, WifiProbeSucceeded);
        } else {
          var counted := m.(successes := if m.successes >= U32_MAX then U32_MAX else m.successes + 1);
          var timers := if counted.successes == 1 then [SetTimer(StabilityWindow, STABILITY_WINDOW)] else [];
          ProgressKeepsInv(s, input, counted, timers);
        }
      case Event(event) =>
        if m.phase == OnWifi && (event == NoViablePath || event == UpstreamHealthDegraded) {
          FailoverKeepsInv(s, input);
        } else if m.phase == WaitingQuietToReturn && event == TrafficQuietDetected {
          ReturnKeepsInv(s, input);
        } else if m.phase == WaitingQuietToReturn && event == WifiProbeFailed && !m.manual {
          GiveUpKeepsInv(s, input);
        } else if m.phase == FailedOverToCellular && event == WifiProbeFailed && !m.manual {
          CountedFailureKeepsInv(s);
        } else {
          QuietStepKeepsInv(s, event);
        }
      case Timeout(CellularMinDwell) => ProgressKeepsInv(s, input, m.(dwelled := true), []);
      case Timeout(StabilityWindow) => ProgressKeepsInv(s, input, m.(stable := true), []);
      case Timeout(QuietWait) => GiveUpKeepsInv(s, input);
      case Timeout(id) => ProbeTimerKeepsInv(s, id);
      case Elapse(duration) => ElapseKeepsInv(s, duration);
    }
  }

  lemma {:induction false} RunKeepsInv(ss: seq<Watched>, inputs: seq<Input>, n: nat)
    requires IsRun(ss, inputs) && n < |ss|
    ensures Inv(ss[n])
  {
    if n > 0 {
      RunKeepsInv(ss, inputs, n - 1);
      StepKeepsInv(ss[n - 1], inputs[n - 1]);
    }
  }
}
