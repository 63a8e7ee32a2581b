/**
 What the rebind machine guarantees over every run.
 */
module RebindTheorems {
  import opened Wrappers
  import opened RebindMachine
  import opened RebindLoop
  import opened RebindRuns

  // ---- Outputs of one turn ----

  lemma AppendCancels<T>(s: seq<T>, x: seq<T>, y: seq<T>)
    ensures s + x == s + y <==> x == y
  {
    assert (s + x)[|s|..] == x && (s + y)[|s|..] == y;
  }

  function RebindFor(before: Phase, after: Phase): seq<RebindAction> {
    if before == OnWifi && after != OnWifi then [PerformRebindToCellular]
    else if before != OnWifi && after == OnWifi then [PerformRebindToWifi]
    else []
  }

  /** The response is determined by the change of phase, up to probes and single timers. */
  ghost predicate ShapeFits(m: Manager, m': Manager, r: Response) {
    if m.phase == OnWifi && m'.phase != OnWifi then m'.phase == FailedOverToCellular && r == NoViable(m).1
    else if m.phase != OnWifi && m'.phase == OnWifi then r == CompleteReturn(m).1
    else if m.phase == WaitingQuietToReturn && m'.phase == FailedOverToCellular then r == GiveUpRound(m).1
    else if m.phase == FailedOverToCellular && m'.phase == WaitingQuietToReturn then
      exists ts: seq<TimerCommand> :: |ts| <= 1
        && r == Response(true, [PublishState(WaitingQuietToReturn), StartQuietWatch],
                         ts + [SetTimer(QuietWait, QUIET_WAIT_TIMEOUT)])
    else |r.timers| <= 1 && (r.actions == [] || r.actions == [StartWifiProbe])
  }

  lemma WaitShapeFits(m: Manager, progressed: Manager, ts: seq<TimerCommand>)
    requires progressed.phase == m.phase != OnWifi && |ts| <= 1
    ensures ShapeFits(m, MaybeEnterWaiting(progressed, ts).0, MaybeEnterWaiting(progressed, ts).1)
  {
  }

  lemma EventShapeFits(m: Manager, event: RebindEvent)
    requires m.phase == OnWifi ==> m == NEW_MANAGER
    ensures ShapeFits(m, OnEvent(m, event).0, OnEvent(m, event).1)
  {
    if event == WifiProbeSucceeded && m.phase != OnWifi && !m.manual {
      var counted := m.(successes := if m.successes >= U32_MAX then U32_MAX else m.successes + 1);
      WaitShapeFits(m, counted, if counted.successes == 1 then [SetTimer(StabilityWindow, STABILITY_WINDOW)] else []);
    }
  }

  lemma TimeoutShapeFits(m: Manager, id: TimerId)
    ensures ShapeFits(m, OnTimeout(m, id).0, OnTimeout(m, id).1)
  {
    if m.phase != OnWifi {
      WaitShapeFits(m, m.(dwelled := true), []);
      WaitShapeFits(m, m.(stable := true), []);
    }
  }

  /** A turn rebinds and publishes exactly when it changes the phase. */
  lemma TurnOutputs(d: Driver, input: Input)
    requires d.manager.phase == OnWifi ==> d.manager == NEW_MANAGER
    ensures var d' := Turn(d, input);
            && d'.rebinds == d.rebinds + RebindFor(d.manager.phase, d'.manager.phase)
            && d'.published == d.published + (if d.manager.phase == d'.manager.phase then [] else [d'.manager.phase])
            && d'.manager == Answer(d, input).0 && d'.now == Before(d, input).now
  {
    var m := d.manager;
    var (m', r) := Answer(d, input);
    match input {
      case Event(e) => EventShapeFits(m, e);
      case Timeout(id) => TimeoutShapeFits(m, id);
      case Elapse(_) =>
    }
    DispatchOutputs(Before(d, input), m, r);
  }

  /** The outputs of dispatching a response that comes with a change of phase. */
  ghost predicate OutputsFit(e: Driver, before: Phase, d': Driver) {
    && d'.rebinds == e.rebinds + RebindFor(before, e.manager.phase)
    && d'.published == e.published + (if before == e.manager.phase then [] else [e.manager.phase])
    && d'.manager == e.manager && d'.now == e.now
  }

  lemma WaitOutputs(e: Driver, r: Response)
    requires e.manager.phase == WaitingQuietToReturn
    requires exists ts: seq<TimerCommand> :: |ts| <= 1
               && r == Response(true, [PublishState(WaitingQuietToReturn), StartQuietWatch],
                                ts + [SetTimer(QuietWait, QUIET_WAIT_TIMEOUT)])
    ensures OutputsFit(e, FailedOverToCellular, Dispatch(e, r))
  {
    var ts: seq<TimerCommand> :| |ts| <= 1
      && r == Response(true, [PublishState(WaitingQuietToReturn), StartQuietWatch],
                       ts + [SetTimer(QuietWait, QUIET_WAIT_TIMEOUT)]);
    DispatchWait(e, ts);
  }

  lemma StayingOutputs(e: Driver, r: Response)
    requires |r.timers| <= 1 && (r.actions == [] || r.actions == [StartWifiProbe])
    ensures OutputsFit(e, e.manager.phase, Dispatch(e, r))
  {
    Dispatch0(e, r.timers, r.consumed);
  }

  lemma {:induction false} DispatchOutputs(e: Driver, m: Manager, r: Response)
    requires ShapeFits(m, e.manager, r)
    ensures OutputsFit(e, m.phase, Dispatch(e, r))
  {
    var m' := e.manager;
    if m.phase == OnWifi && m'.phase != OnWifi {
      DispatchFailover(e, m);
    } else if m.phase != OnWifi && m'.phase == OnWifi {
      DispatchReturn(e, m);
    } else if m.phase == WaitingQuietToReturn && m'.phase == FailedOverToCellular {
      DispatchGiveUp(e, m);
    } else if m.phase == FailedOverToCellular && m'.phase == WaitingQuietToReturn {
      WaitOutputs(e, r);
    } else {
      StayingOutputs(e, r);
    }
  }

  /** The observer's view of the phase after one more input, without looking at the machine. */
  function PhaseAfter(o: Observer, input: Input): Phase {
    var o' := NoteInput(o, input);
    match o.phase
    case OnWifi =>
      if input == Event(NoViablePath) || input == Event(UpstreamHealthDegraded) then FailedOverToCellular else OnWifi
    case FailedOverToCellular =>
      if input == Event(WifiProbeSucceeded) && o.manual then OnWifi
      else if ReadyToWait(o') then WaitingQuietToReturn
      else FailedOverToCellular
    case WaitingQuietToReturn =>
      if (input == Event(WifiProbeSucceeded) && o.manual) || input == Event(TrafficQuietDetected) then OnWifi
      else if (input == Event(WifiProbeFailed) && !o.manual) || input == Timeout(QuietWait) then FailedOverToCellular
      else WaitingQuietToReturn
  }

  lemma EventPhaseFollowsBooks(m: Manager, o: Observer, event: RebindEvent)
    requires BooksAgree(m, o)
    ensures OnEvent(m, event).0.phase == PhaseAfter(o, Event(event))
  {
  }

  lemma TimeoutPhaseFollowsBooks(m: Manager, o: Observer, id: TimerId)
    requires BooksAgree(m, o)
    ensures OnTimeout(m, id).0.phase == PhaseAfter(o, Timeout(id))
  {
  }

  lemma PhaseFollowsBooks(d: Driver, o: Observer, input: Input)
    requires BooksAgree(d.manager, o)
    ensures Answer(d, input).0.phase == PhaseAfter(o, input)
  {
    match input {
      case Event(e) => EventPhaseFollowsBooks(d.manager, o, e);
      case Timeout(id) => TimeoutPhaseFollowsBooks(d.manager, o, id);
      case Elapse(_) =>
    }
  }

  /** Step `i` of a run, seen from outside. */
  lemma StepSeenFromOutside(ss: seq<Watched>, inputs: seq<Input>, i: nat)
    requires IsRun(ss, inputs) && i < |inputs|
    ensures var before, after := ss[i].observer.phase, PhaseAfter(ss[i].observer, inputs[i]);
            && ss[i].driver.manager.phase == before
            && ss[i + 1].driver.rebinds == ss[i].driver.rebinds + RebindFor(before, after)
            && ss[i + 1].driver.published == ss[i].driver.published + (if before == after then [] else [after])
  {
    RunKeepsInv(ss, inputs, i);
    TurnOutputs(ss[i].driver, inputs[i]);
    PhaseFollowsBooks(ss[i].driver, ss[i].observer, inputs[i]);
  }

  // ---- Returning to Wi-Fi ----

  ghost predicate RebindsTo(ss: seq<Watched>, i: nat, action: RebindAction)
    requires i + 1 < |ss|
  {
    ss[i + 1].driver.rebinds == ss[i].driver.rebinds + [action]
  }

  /**
   The machine returns to Wi-Fi exactly when off Wi-Fi a probe succeeds as the first probe result
   after a manual request, or quiet traffic is reported while waiting.  In the second case the
   dwell expired in this episode, at least five counted successes came since the last counted
   failure or round start, a stability window expired in this round (though it may have been armed
   in an earlier one), no counted failure came since waiting began, and at least sixty seconds
   passed since the failover.
   */
  lemma WifiReturnIsJustified(ss: seq<Watched>, inputs: seq<Input>, i: nat)
    requires IsRun(ss, inputs) && i < |inputs|
    ensures var o, input := ss[i].observer, inputs[i];
            var manual := o.phase != OnWifi && o.manual && input == Event(WifiProbeSucceeded);
            var quiet := o.phase == WaitingQuietToReturn && input == Event(TrafficQuietDetected);
            && (RebindsTo(ss, i, PerformRebindToWifi) <==> manual || quiet)
            && (quiet ==>
                  && o.dwelled && o.streak >= STABILITY_CONSECUTIVE_SUCCESSES && o.expired && !o.failedSinceWaiting
                  && ss[i].driver.now >= o.failoverAt + CELLULAR_MIN_DWELL)
            && (RebindsTo(ss, i, PerformRebindToCellular) <==>
                  o.phase == OnWifi && (input == Event(NoViablePath) || input == Event(UpstreamHealthDegraded)))
  {
    RunKeepsInv(ss, inputs, i);
    StepSeenFromOutside(ss, inputs, i);
    var rebinds := RebindFor(ss[i].observer.phase, PhaseAfter(ss[i].observer, inputs[i]));
    AppendCancels(ss[i].driver.rebinds, rebinds, [PerformRebindToWifi]);
    AppendCancels(ss[i].driver.rebinds, rebinds, [PerformRebindToCellular]);
  }

  /** Waiting is announced exactly when all three conditions of the hysteresis first hold together. */
  lemma WaitingIffHysteresisSatisfied(ss: seq<Watched>, inputs: seq<Input>, i: nat)
    requires IsRun(ss, inputs) && i < |inputs|
    ensures var o := ss[i].observer;
            ss[i + 1].driver.published == ss[i].driver.published + [WaitingQuietToReturn] <==>
            o.phase == FailedOverToCellular && ReadyToWait(NoteInput(o, inputs[i]))
              && !(o.manual && inputs[i] == Event(WifiProbeSucceeded))
  {
    RunKeepsInv(ss, inputs, i);
    StepSeenFromOutside(ss, inputs, i);
    AppendCancels(ss[i].driver.published,
                  ss[i + 1].driver.published[|ss[i].driver.published|..], [WaitingQuietToReturn]);
  }

  // ---- Timers and the quiet watch ----

  /**
   On Wi-Fi no timer is armed, the watch is off and all counters are reset.  Off Wi-Fi exactly one
   of the probe timer and the back-off is armed, so probing cannot stall; the dwell timer is armed
   exactly until it expires; and the quiet-wait timer, the quiet watch and the waiting phase
   coincide.
   */
  lemma TimersFollowThePhase(ss: seq<Watched>, inputs: seq<Input>, n: nat)
    requires IsRun(ss, inputs) && n < |ss|
    ensures var d, o := ss[n].driver, ss[n].observer;
            && d.manager.phase == o.phase
            && (o.phase == OnWifi ==> d.armed == map[] && !d.watching && d.manager == NEW_MANAGER)
            && (o.phase != OnWifi ==>
                  && (ProbeCadence in d.armed <==> Backoff !in d.armed)
                  && (CellularMinDwell in d.armed <==> !o.dwelled))
            && (QuietWait in d.armed <==> o.phase == WaitingQuietToReturn)
            && (d.watching <==> o.phase == WaitingQuietToReturn)
  {
    RunKeepsInv(ss, inputs, n);
  }

  // ---- Back-off ----

  ghost predicate Abandons(ss: seq<Watched>, i: nat)
    requires i + 1 < |ss|
  {
    ss[i].observer.phase != OnWifi && ss[i + 1].driver.published == ss[i].driver.published + [FailedOverToCellular]
  }

  /** The k-th round abandoned since the last return to Wi-Fi pauses for step min(k, 3). */
  lemma AbandonedRoundBacksOff(ss: seq<Watched>, inputs: seq<Input>, i: nat)
    requires IsRun(ss, inputs) && i < |inputs| && Abandons(ss, i)
    ensures var k := ss[i].observer.abandoned + 1;
            && ss[i + 1].observer.abandoned == k
            && Backoff in ss[i + 1].driver.armed
            && ss[i + 1].driver.armed[Backoff] == ss[i].driver.now + BACKOFF_STEPS[Min(k, 3) - 1]
  {
    RunKeepsInv(ss, inputs, i);
    var s, input := ss[i], inputs[i];
    StepSeenFromOutside(ss, inputs, i);
    assert s.observer.phase == WaitingQuietToReturn;
    DispatchGiveUp(Before(s.driver, input), s.driver.manager);
  }

  lemma NoteKeepsAbandoned(o: Observer, input: Input, announced: Option<Phase>, now: nat)
    requires (o.phase == OnWifi ==> o == ON_WIFI) && Note(o, input, announced, now).phase != OnWifi
    ensures o.abandoned <= Note(o, input, announced, now).abandoned
  {
  }

  lemma AbandonedStep(s: Watched, input: Input)
    requires BooksAgree(s.driver.manager, s.observer) && Next(s, input).observer.phase != OnWifi
    ensures s.observer.abandoned <= Next(s, input).observer.abandoned
  {
    NoteKeepsAbandoned(s.observer, input, Announced(s.driver, Turn(s.driver, input)), s.driver.now);
  }

  lemma AbandonedGrows(ss: seq<Watched>, inputs: seq<Input>, i: nat)
    requires IsRun(ss, inputs) && i < |inputs| && ss[i + 1].observer.phase != OnWifi
    ensures ss[i].observer.abandoned <= ss[i + 1].observer.abandoned
  {
    RunKeepsInv(ss, inputs, i);
    AbandonedStep(ss[i], inputs[i]);
  }

  lemma {:induction false} StepwiseGrowth(a: seq<nat>, i: nat, j: nat)
    requires i <= j < |a| && forall n :: i <= n < j ==> a[n] <= a[n + 1]
    ensures a[i] <= a[j]
    decreases j - i
  {
    if i < j {
      StepwiseGrowth(a, i, j - 1);
    }
  }

  lemma BackoffStepsGrow(a: nat, b: nat)
    requires a <= b
    ensures BACKOFF_STEPS[Min(a, 2)] <= BACKOFF_STEPS[Min(b, 2)]
  {
  }

  /** Until the next return to Wi-Fi, back-offs never get shorter. */
  lemma {:induction false} BackoffNeverDecreases(ss: seq<Watched>, inputs: seq<Input>, i: nat, j: nat)
    requires IsRun(ss, inputs) && i <= j < |ss|
    requires forall n :: i < n <= j ==> ss[n].observer.phase != OnWifi
    ensures ss[i].observer.abandoned <= ss[j].observer.abandoned
    ensures BACKOFF_STEPS[Min(ss[i].observer.abandoned, 2)] <= BACKOFF_STEPS[Min(ss[j].observer.abandoned, 2)]
  {
    var a: seq<nat> := seq(|ss|, n requires 0 <= n < |ss| => ss[n].observer.abandoned);
    forall n: nat | i <= n < j ensures a[n] <= a[n + 1] {
      AbandonedGrows(ss, inputs, n);
    }
    StepwiseGrowth(a, i, j);
    BackoffStepsGrow(ss[i].observer.abandoned, ss[j].observer.abandoned);
  }

  // ---- Alternation ----

  /**
   Rebinds alternate cellular, Wi-Fi, cellular and so on; the last published state is the phase;
   and no published state repeats its predecessor.
   */
  lemma OutputsAlternateInEveryRun(ss: seq<Watched>, inputs: seq<Input>, n: nat)
    requires IsRun(ss, inputs) && n < |ss|
    ensures var d := ss[n].driver;
            && (forall i :: 0 <= i < |d.rebinds| ==>
                  d.rebinds[i] == if i % 2 == 0 then PerformRebindToCellular else PerformRebindToWifi)
            && (d.manager.phase == if d.published == [] then OnWifi else d.published[|d.published| - 1])
            && (forall i :: 0 < i < |d.published| ==> d.published[i] != d.published[i - 1])
  {
    RunKeepsInv(ss, inputs, n);
  }
}
