/**
 Timers, probes and the quiet watch of the rebind machine, computed from the books of the outside
 observer alone.
 */
module RebindTimers {
  import opened Wrappers
  import opened RebindMachine
  import opened RebindLoop
  import opened RebindRuns
  import opened RebindTheorems

  predicate CountedSuccess(o: Observer, input: Input) {
    input == Event(WifiProbeSucceeded) && o.phase != OnWifi && !o.manual
  }

  predicate CountedFailure(o: Observer, input: Input) {
    input == Event(WifiProbeFailed) && o.phase != OnWifi && !o.manual
  }

  /** A probe is started by the failover, and off Wi-Fi by the probe timer, the back-off and a manual request. */
  predicate StartsProbe(o: Observer, input: Input) {
    if o.phase == OnWifi then input == Event(NoViablePath) || input == Event(UpstreamHealthDegraded)
    else input == Timeout(ProbeCadence) || input == Timeout(Backoff) || input == Event(ManualForceReturnRequested)
  }

  /** The timers after one more input in which the phase stays, or changes from failed over to waiting. */
  function ArmedOffWifi(o: Observer, armed: map<TimerId, nat>, input: Input, now: nat): map<TimerId, nat> {
    var progressed :=
      if CountedSuccess(o, input) && o.streak == 0 then armed[StabilityWindow := now + STABILITY_WINDOW]
      else if CountedFailure(o, input) then armed - {StabilityWindow}
      else if input == Timeout(ProbeCadence)
        || input == Timeout(Backoff) then armed[ProbeCadence := now + PROBE_CADENCE]
      else armed;
    if PhaseAfter(o, input) == WaitingQuietToReturn != o.phase then progressed[QuietWait := now + QUIET_WAIT_TIMEOUT]
    else progressed
  }

  /** The armed timers after one more input. */
  function ArmedAfter(o: Observer, armed: map<TimerId, nat>, input: Input, now: nat): map<TimerId, nat> {
    var pending := if input.Timeout? then armed - {input.id} else armed;
    var after := PhaseAfter(o, input);
    if after == OnWifi then map[]
    else if o.phase ==
      OnWifi then map[CellularMinDwell := now + CELLULAR_MIN_DWELL, ProbeCadence := now + PROBE_CADENCE]
    else if o.phase == WaitingQuietToReturn && after == FailedOverToCellular then
      (pending - {QuietWait} - {ProbeCadence})[Backoff := now + BACKOFF_STEPS[Min(o.abandoned, 2)]]
    else ArmedOffWifi(o, pending, input, now)
  }

  /** Everything but the machine itself after one more input. */
  function DriverAfter(d: Driver, o: Observer, input: Input): Driver {
    var after := PhaseAfter(o, input);
    Driver(d.manager,
           if input.Elapse? then d.now + input.duration else d.now,
           ArmedAfter(o, d.armed, input, d.now),
           after == WaitingQuietToReturn,
           d.published + (if after == o.phase then [] else [after]),
           d.rebinds + RebindFor(o.phase, after),
           d.probes + (if StartsProbe(o, input) then [d.now] else []))
  }

  lemma SuccessTurn(s: Watched)
    requires Inv(s) && CountedSuccess(s.observer, Event(WifiProbeSucceeded))
    ensures var d, input := s.driver, Event(WifiProbeSucceeded);
            Turn(d, input) == DriverAfter(d, s.observer, input).(manager := Answer(d, input).0)
  {
    var d, m, input := s.driver, s.driver.manager, Event(WifiProbeSucceeded);
    var counted := m.(successes := if m.successes >= U32_MAX then U32_MAX else m.successes + 1);
    var timers := if counted.successes == 1 then [SetTimer(StabilityWindow, STABILITY_WINDOW)] else [];
    PhaseFollowsBooks(d, s.observer, input);
    assert counted.successes == 1 <==> s.observer.streak == 0;
    if Hysteresis(counted) {
      EnteringWaitTurn(d, input, counted, timers);
    } else {
      Dispatch0(Before(d, input), timers, true);
    }
  }

  lemma FailureTurn(s: Watched)
    requires Inv(s) && CountedFailure(s.observer, Event(WifiProbeFailed))
    ensures var d, input := s.driver, Event(WifiProbeFailed);
            Turn(d, input) == DriverAfter(d, s.observer, input).(manager := Answer(d, input).0)
  {
    var d, input := s.driver, Event(WifiProbeFailed);
    PhaseFollowsBooks(d, s.observer, input);
    if s.observer.phase == WaitingQuietToReturn {
      DispatchGiveUp(Before(d, input), d.manager);
    } else {
      Dispatch0(Before(d, input), [KillTimer(StabilityWindow)], true);
    }
  }

  lemma FailoverTurn(s: Watched, event: RebindEvent)
    requires Inv(s) && s.observer.phase == OnWifi && (event == NoViablePath || event == UpstreamHealthDegraded)
    ensures var d, input := s.driver, Event(event);
            Turn(d, input) == DriverAfter(d, s.observer, input).(manager := Answer(d, input).0)
  {
    DispatchFailover(Before(s.driver, Event(event)), s.driver.manager);
  }

  lemma ReturnTurn(s: Watched, event: RebindEvent)
    requires Inv(s) && s.observer.phase != OnWifi && PhaseAfter(s.observer, Event(event)) == OnWifi
    ensures var d, input := s.driver, Event(event);
            Turn(d, input) == DriverAfter(d, s.observer, input).(manager := Answer(d, input).0)
  {
    DispatchReturn(Before(s.driver, Event(event)), s.driver.manager);
  }

  lemma StayingTurn(s: Watched, event: RebindEvent)
    requires Inv(s) && !CountedSuccess(s.observer, Event(event)) && !CountedFailure(s.observer, Event(event))
    requires PhaseAfter(s.observer, Event(event)) == s.observer.phase
    ensures var d, input := s.driver, Event(event);
            Turn(d, input) == DriverAfter(d, s.observer, input).(manager := Answer(d, input).0)
  {
    PhaseFollowsBooks(s.driver, s.observer, Event(event));
    Dispatch0(Before(s.driver, Event(event)), [], OnEvent(s.driver.manager, event).1.consumed);
  }

  lemma OtherEventTurn(s: Watched, event: RebindEvent)
    requires Inv(s) && !CountedSuccess(s.observer, Event(event)) && !CountedFailure(s.observer, Event(event))
    ensures var d, input := s.driver, Event(event);
            Turn(d, input) == DriverAfter(d, s.observer, input).(manager := Answer(d, input).0)
  {
    if PhaseAfter(s.observer, Event(event)) == s.observer.phase {
      StayingTurn(s, event);
    } else if s.observer.phase == OnWifi {
      FailoverTurn(s, event);
    } else {
      ReturnTurn(s, event);
    }
  }

  lemma ProgressTimeoutTurn(s: Watched, id: TimerId)
    requires Inv(s) && Possible(s.driver, Timeout(id)) && (id == CellularMinDwell || id == StabilityWindow)
    ensures var d, input := s.driver, Timeout(id);
            Turn(d, input) == DriverAfter(d, s.observer, input).(manager := Answer(d, input).0)
  {
    var d, m, input := s.driver, s.driver.manager, Timeout(id);
    PhaseFollowsBooks(d, s.observer, input);
    var progressed := if id == StabilityWindow then m.(stable := true) else m.(dwelled := true);
    if Hysteresis(progressed) {
      EnteringWaitTurn(d, input, progressed, []);
    } else {
      Dispatch0(Before(d, input), [], true);
    }
  }

  lemma QuietWaitTurn(s: Watched)
    requires Inv(s) && Possible(s.driver, Timeout(QuietWait))
    ensures var d, input := s.driver, Timeout(QuietWait);
            Turn(d, input) == DriverAfter(d, s.observer, input).(manager := Answer(d, input).0)
  {
    DispatchGiveUp(Before(s.driver, Timeout(QuietWait)), s.driver.manager);
  }

  lemma ProbeTimerTurn(s: Watched, id: TimerId)
    requires Inv(s) && Possible(s.driver, Timeout(id)) && (id == ProbeCadence || id == Backoff)
    ensures var d, input := s.driver, Timeout(id);
            Turn(d, input) == DriverAfter(d, s.observer, input).(manager := Answer(d, input).0)
  {
    PhaseFollowsBooks(s.driver, s.observer, Timeout(id));
    Dispatch0(Before(s.driver, Timeout(id)), [SetTimer(ProbeCadence, PROBE_CADENCE)], true);
  }

  lemma ElapseTurn(s: Watched, duration: nat)
    requires Inv(s)
    ensures var d, input := s.driver, Elapse(duration);
            Turn(d, input) == DriverAfter(d, s.observer, input).(manager := Answer(d, input).0)
  {
    Dispatch0(Before(s.driver, Elapse(duration)), [], true);
  }

  lemma TurnFollowsBooks(s: Watched, input: Input)
    requires Inv(s) && Possible(s.driver, input)
    ensures Turn(s.driver, input) == DriverAfter(s.driver, s.observer, input).(manager := Answer(s.driver, input).0)
  {
    match input {
      case Event(event) =>
        if CountedSuccess(s.observer, input) {
          SuccessTurn(s);
        } else if CountedFailure(s.observer, input) {
          FailureTurn(s);
        } else {
          OtherEventTurn(s, event);
        }
      case Timeout(id) =>
        if id == CellularMinDwell || id == StabilityWindow {
          ProgressTimeoutTurn(s, id);
        } else if id == QuietWait {
          QuietWaitTurn(s);
        } else {
          ProbeTimerTurn(s, id);
        }
      case Elapse(duration) => ElapseTurn(s, duration);
    }
  }

  /**
   In every run, each step changes the armed timers and their deadlines, the quiet watch, the
   published states, the requested rebinds and the started probes exactly as the books tell.
   */
  lemma DriverFollowsBooks(ss: seq<Watched>, inputs: seq<Input>, i: nat)
    requires IsRun(ss, inputs) && i < |inputs|
    ensures ss[i + 1].driver ==
            DriverAfter(ss[i].driver, ss[i].observer, inputs[i]).(manager := ss[i + 1].driver.manager)
  {
    RunKeepsInv(ss, inputs, i);
    TurnFollowsBooks(ss[i], inputs[i]);
  }

  // ---- Probing cannot stall ----

  /** Neither the probe timer nor the back-off is set further ahead than its duration. */
  ghost predicate ProbesBounded(d: Driver) {
    && (ProbeCadence in d.armed ==> d.armed[ProbeCadence] <= d.now + PROBE_CADENCE)
    && (Backoff in d.armed ==> d.armed[Backoff] <= d.now + BACKOFF_STEPS[2])
  }

  lemma BoundedStep(d: Driver, o: Observer, input: Input)
    requires ProbesBounded(d)
    ensures ProbesBounded(DriverAfter(d, o, input))
  {
  }

  lemma {:induction false} RunKeepsProbesBounded(ss: seq<Watched>, inputs: seq<Input>, n: nat)
    requires IsRun(ss, inputs) && n < |ss|
    ensures ProbesBounded(ss[n].driver)
  {
    if n > 0 {
      RunKeepsProbesBounded(ss, inputs, n - 1);
      DriverFollowsBooks(ss, inputs, n - 1);
      BoundedStep(ss[n - 1].driver, ss[n - 1].observer, inputs[n - 1]);
    }
  }

  /**
   In every reachable state off Wi-Fi a timer is armed whose expiry starts a probe, and it is due in
   at most ten seconds, or in at most ten minutes during a back-off.
   */
  lemma NextProbeIsDue(ss: seq<Watched>, inputs: seq<Input>, n: nat) returns (id: TimerId)
    requires IsRun(ss, inputs) && n < |ss| && ss[n].observer.phase != OnWifi
    ensures id in ss[n].driver.armed && StartsProbe(ss[n].observer, Timeout(id))
    ensures var wait := if id == Backoff then BACKOFF_STEPS[2] else PROBE_CADENCE;
            ss[n].driver.armed[id] <= ss[n].driver.now + wait
  {
    RunKeepsInv(ss, inputs, n);
    RunKeepsProbesBounded(ss, inputs, n);
    id := if ProbeCadence in ss[n].driver.armed then ProbeCadence else Backoff;
  }

  // ---- What is consumed ----

  /** An expiry that the machine has no use for. */
  predicate Stray(m: Manager, id: TimerId) {
    if id == QuietWait then m.phase != WaitingQuietToReturn else m.phase == OnWifi
  }

  /** Exactly the stray expiries are passed through, and they change nothing. */
  lemma StrayExpiriesPassThrough(m: Manager, id: TimerId)
    ensures OnTimeout(m, id).1.consumed <==> !Stray(m, id)
    ensures Stray(m, id) ==> OnTimeout(m, id) == (m, Response(false, [], []))
  {
  }

  /** With timers that are killed when they are no longer needed, no run has a stray expiry. */
  lemma EveryInputIsConsumed(ss: seq<Watched>, inputs: seq<Input>, i: nat)
    requires IsRun(ss, inputs) && i < |inputs|
    ensures Answer(ss[i].driver, inputs[i]).1.consumed
  {
    RunKeepsInv(ss, inputs, i);
    if inputs[i].Timeout? {
      StrayExpiriesPassThrough(ss[i].driver.manager, inputs[i].id);
    }
  }
}
