/**
 The Wi-Fi / cellular rebind machine (`rust-core/src/rebind_manager.rs`).

 `OnEvent` and `OnTimeout` give the machine as functions on its state; the class `RebindManager`
 is the mutable machine, handler by handler, proved against them.
 */
module RebindMachine {

  const U32_MAX: nat := 0xFFFF_FFFF

  /** The phase, which is also what is published to the user interface. */
  datatype Phase = OnWifi | FailedOverToCellular | WaitingQuietToReturn

  datatype RebindEvent =
    | NoViablePath
    | WifiProbeSucceeded
    | WifiProbeFailed
    | TrafficQuietDetected
    | TrafficBusyDetected
    | ManualForceReturnRequested
    | UpstreamHealthDegraded

  datatype RebindAction =
    | PerformRebindToCellular
    | StartWifiProbe
    | PerformRebindToWifi
    | PublishState(state: Phase)
    | StartQuietWatch
    | StopQuietWatch

  datatype TimerId = CellularMinDwell | StabilityWindow | ProbeCadence | QuietWait | Backoff

  datatype TimerCommand = SetTimer(id: TimerId, duration: nat) | KillTimer(id: TimerId)

  datatype Response = Response(consumed: bool, actions: seq<RebindAction>, timers: seq<TimerCommand>)

  // Durations in milliseconds.
  const CELLULAR_MIN_DWELL: nat := 60_000
  const STABILITY_WINDOW: nat := 15_000
  const STABILITY_CONSECUTIVE_SUCCESSES: nat := 5
  const PROBE_CADENCE: nat := 10_000
  const QUIET_WAIT_TIMEOUT: nat := 90_000
  const BACKOFF_STEPS: seq<nat> := [120_000, 300_000, 600_000]

  datatype Manager = Manager(
    phase: Phase,
    successes: nat,
    stable: bool,
    dwelled: bool,
    manual: bool,
    backoff: nat)

  const NEW_MANAGER := Manager(OnWifi, 0, false, false, false, 0)
  const CONSUME := Response(true, [], [])
  const PASS_THROUGH := Response(false, [], [])

  function Emit(actions: seq<RebindAction>): Response {
    Response(true, actions, [])
  }

  function CurrentBackoff(m: Manager): nat {
    BACKOFF_STEPS[if m.backoff < 2 then m.backoff else 2]
  }

  function NoViable(m: Manager): (Manager, Response) {
    if m.phase != OnWifi then (m, CONSUME)
    else
      (Manager(FailedOverToCellular, 0, false, false, false, m.backoff),
       Response(true,
                [PerformRebindToCellular, PublishState(FailedOverToCellular), StartWifiProbe],
                [SetTimer(CellularMinDwell, CELLULAR_MIN_DWELL), SetTimer(ProbeCadence, PROBE_CADENCE)]))
  }

  function MaybeEnterWaiting(m: Manager, timers: seq<TimerCommand>): (Manager, Response) {
    if m.phase != FailedOverToCellular || m.successes < STABILITY_CONSECUTIVE_SUCCESSES || !m.stable || !m.dwelled
    then (m, Response(true, [], timers))
    else
      (m.(phase := WaitingQuietToReturn),
       Response(true,
                [PublishState(WaitingQuietToReturn), StartQuietWatch],
                timers + [SetTimer(QuietWait, QUIET_WAIT_TIMEOUT)]))
  }

  function CompleteReturn(m: Manager): (Manager, Response) {
    (NEW_MANAGER,
     Response(true,
              [PerformRebindToWifi, PublishState(OnWifi), StopQuietWatch],
              [KillTimer(QuietWait), KillTimer(ProbeCadence), KillTimer(StabilityWindow), KillTimer(Backoff),
               KillTimer(CellularMinDwell)]))
  }

  function GiveUpRound(m: Manager): (Manager, Response) {
    (m.(phase := FailedOverToCellular, successes := 0, stable := false,
        backoff := if m.backoff < 2 then m.backoff + 1 else m.backoff),
     Response(true,
              [PublishState(FailedOverToCellular), StopQuietWatch],
              [KillTimer(QuietWait), KillTimer(ProbeCadence), SetTimer(Backoff, CurrentBackoff(m))]))
  }

  function ProbeSucceeded(m: Manager): (Manager, Response) {
    if m.manual then
      (if m.phase == OnWifi then (m.(manual := false), CONSUME) else CompleteReturn(m.(manual := false)))
    else if m.phase == OnWifi then (m, CONSUME)
    else
      var m' := m.(successes := if m.successes >= U32_MAX then U32_MAX else m.successes + 1);
      MaybeEnterWaiting(m', if m'.successes == 1 then [SetTimer(StabilityWindow, STABILITY_WINDOW)] else [])
  }

  function ProbeFailed(m: Manager): (Manager, Response) {
    if m.manual then (m.(manual := false), CONSUME)
    else match m.phase
         case OnWifi => (m, CONSUME)
         case FailedOverToCellular => (m.(successes := 0), Response(true, [], [KillTimer(StabilityWindow)]))
         case WaitingQuietToReturn => GiveUpRound(m)
  }

  function OnEvent(m: Manager, event: RebindEvent): (Manager, Response) {
    match event
    case NoViablePath => NoViable(m)
    case UpstreamHealthDegraded => NoViable(m)
    case WifiProbeSucceeded => ProbeSucceeded(m)
    case WifiProbeFailed => ProbeFailed(m)
    case TrafficQuietDetected => if m.phase != WaitingQuietToReturn then (m, CONSUME) else CompleteReturn(m)
    case TrafficBusyDetected => (m, CONSUME)
    case ManualForceReturnRequested =>
      if m.phase == OnWifi then (m, CONSUME) else (m.(manual := true), Emit([StartWifiProbe]))
  }

  function OnTimeout(m: Manager, id: TimerId): (Manager, Response) {
    match id
    case CellularMinDwell =>
      if m.phase == OnWifi then (m, PASS_THROUGH) else MaybeEnterWaiting(m.(dwelled := true), [])
    case StabilityWindow =>
      if m.phase == OnWifi then (m, PASS_THROUGH) else MaybeEnterWaiting(m.(stable := true), [])
    case QuietWait =>
      if m.phase != WaitingQuietToReturn then (m, PASS_THROUGH) else GiveUpRound(m)
    case _ =>
      if m.phase == OnWifi then (m, PASS_THROUGH)
      else (m, Response(true, [StartWifiProbe], [SetTimer(ProbeCadence, PROBE_CADENCE)]))
  }

  /** The mutable machine. */
  class RebindManager {
    var phase: Phase
    var successes: nat
    var stable: bool
    var dwelled: bool
    var manual: bool
    var backoff: nat

    ghost function View(): Manager
      reads this
    {
      Manager(phase, successes, stable, dwelled, manual, backoff)
    }

    constructor ()
      ensures View() == NEW_MANAGER
    {
      phase, successes, stable, dwelled, manual, backoff := OnWifi, 0, false, false, false, 0;
    }

    method ResetReturnRound()
      modifies this
      ensures View() == old(View()).(successes := 0, stable := false)
    {
      successes := 0;
      stable := false;
    }

    method ResetEpisode()
      modifies this
      ensures View() == old(View()).(successes := 0, stable := false, dwelled := false, manual := false)
    {
      ResetReturnRound();
      dwelled := false;
      manual := false;
    }

    method HandleNoViablePath() returns (r: Response)
      modifies this
      ensures (View(), r) == NoViable(old(View()))
    {
      if phase != OnWifi {
        return CONSUME;
      }
      phase := FailedOverToCellular;
      ResetEpisode();
      r := Emit([PerformRebindToCellular, PublishState(FailedOverToCellular), StartWifiProbe]);
      r := r.(timers := [SetTimer(CellularMinDwell, CELLULAR_MIN_DWELL), SetTimer(ProbeCadence, PROBE_CADENCE)]);
    }

    method HandleProbeSucceeded() returns (r: Response)
      modifies this
      ensures (View(), r) == ProbeSucceeded(old(View()))
    {
      if manual {
        manual := false;
        if phase == OnWifi {
          return CONSUME;
        }
        r := CompleteAutomaticReturn();
        return;
      }
      if phase == OnWifi {
        return CONSUME;
      }
      successes := if successes >= U32_MAX then U32_MAX else successes + 1;
      r := CONSUME;
      if successes == 1 {
        r := r.(timers := [SetTimer(StabilityWindow, STABILITY_WINDOW)]);
      }
      r := MaybeEnterWaitingQuiet(r);
    }

    method HandleProbeFailed() returns (r: Response)
      modifies this
      ensures (View(), r) == ProbeFailed(old(View()))
    {
      r := CONSUME;
      if manual {
        manual := false;
        return;
      }
      match phase {
        case OnWifi =>
        case FailedOverToCellular =>
          successes := 0;
          r := r.(timers := [KillTimer(StabilityWindow)]);
        case WaitingQuietToReturn =>
          r := AbandonRound();
      }
    }

    method MaybeEnterWaitingQuiet(resp: Response) returns (r: Response)
      requires resp.consumed && resp.actions == []
      modifies this
      ensures (View(), r) == MaybeEnterWaiting(old(View()), resp.timers)
    {
      if phase != FailedOverToCellular || successes < STABILITY_CONSECUTIVE_SUCCESSES || !stable || !dwelled {
        return resp;
      }
      phase := WaitingQuietToReturn;
      r := Response(true,
                    resp.actions + [PublishState(WaitingQuietToReturn), StartQuietWatch],
                    resp.timers + [SetTimer(QuietWait, QUIET_WAIT_TIMEOUT)]);
      assert r.actions == [PublishState(WaitingQuietToReturn), StartQuietWatch];
    }

    method CompleteAutomaticReturn() returns (r: Response)
      modifies this
      ensures (View(), r) == CompleteReturn(old(View()))
    {
      phase := OnWifi;
      backoff := 0;
      ResetEpisode();
      r := Emit([PerformRebindToWifi, PublishState(OnWifi), StopQuietWatch]);
      r := r.(timers := [KillTimer(QuietWait), KillTimer(ProbeCadence), KillTimer(StabilityWindow), KillTimer(Backoff),
                         KillTimer(CellularMinDwell)]);
    }

    method AbandonRound() returns (r: Response)
      modifies this
      ensures (View(), r) == GiveUpRound(old(View()))
    {
      phase := FailedOverToCellular;
      ResetReturnRound();
      var pause := CurrentBackoff(Manager(phase, successes, stable, dwelled, manual, backoff));
      if backoff < |BACKOFF_STEPS| - 1 {
        backoff := backoff + 1;
      }
      r := Emit([PublishState(FailedOverToCellular), StopQuietWatch]);
      r := r.(timers := [KillTimer(QuietWait), KillTimer(ProbeCadence), SetTimer(Backoff, pause)]);
    }

    method HandleEvent(event: RebindEvent) returns (r: Response)
      modifies this
      ensures (View(), r) == OnEvent(old(View()), event)
    {
      match event {
        case NoViablePath => r := HandleNoViablePath();
        case UpstreamHealthDegraded => r := HandleNoViablePath();
        case WifiProbeSucceeded => r := HandleProbeSucceeded();
        case WifiProbeFailed => r := HandleProbeFailed();
        case TrafficQuietDetected =>
          if phase != WaitingQuietToReturn {
            return CONSUME;
          }
          r := CompleteAutomaticReturn();
        case TrafficBusyDetected => r := CONSUME;
        case ManualForceReturnRequested =>
          if phase == OnWifi {
            return CONSUME;
          }
          manual := true;
          r := Emit([StartWifiProbe]);
      }
    }

    method HandleTimeout(id: TimerId) returns (r: Response)
      modifies this
      ensures (View(), r) == OnTimeout(old(View()), id)
    {
      if (if id == QuietWait then phase != WaitingQuietToReturn else phase == OnWifi) {
        return PASS_THROUGH;
      }
      match id {
        case CellularMinDwell =>
          dwelled := true;
          r := MaybeEnterWaitingQuiet(CONSUME);
        case StabilityWindow =>
          stable := true;
          r := MaybeEnterWaitingQuiet(CONSUME);
        case QuietWait =>
          r := AbandonRound();
        case _ =>
          r := Emit([StartWifiProbe]).(timers := [SetTimer(ProbeCadence, PROBE_CADENCE)]);
      }
    }
  }
}
