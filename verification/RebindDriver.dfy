/**
 The driver of the rebind machine (`rust-core/src/rebind_driver.rs`): an event loop that owns the
 machine, its armed timers and the quiet watch, and applies every response.
 */
module RebindLoop {
  import opened RebindMachine

  /**
   `armed` maps each armed timer to its deadline.  Setting a timer replaces an earlier setting and
   killing one drops its pending expiry.  `published`, `rebinds` and `probes` record what was sent to
   the user interface and to the rebind executor, and when probes were started, oldest first.
   */
  datatype Driver = Driver(
    manager: Manager,
    now: nat,
    armed: map<TimerId, nat>,
    watching: bool,
    published: seq<Phase>,
    rebinds: seq<RebindAction>,
    probes: seq<nat>)

  const NEW_DRIVER := Driver(NEW_MANAGER, 0, map[], false, [], [], [])

  /** What happens next: an event from outside, the expiry of an armed timer, or passing time. */
  datatype Input = Event(event: RebindEvent) | Timeout(id: TimerId) | Elapse(duration: nat)

  /** Timers never fire before their deadline; they may fire arbitrarily late. */
  ghost predicate Possible(d: Driver, input: Input) {
    input.Timeout? ==> input.id in d.armed && d.armed[input.id] <= d.now
  }

  function ApplyTimer(armed: map<TimerId, nat>, now: nat, command: TimerCommand): map<TimerId, nat> {
    match command
    case SetTimer(id, duration) => armed[id := now + duration]
    case KillTimer(id) => armed - {id}
  }

  function ApplyTimers(armed: map<TimerId, nat>, now: nat, commands: seq<TimerCommand>): map<TimerId, nat> {
    if commands == [] then armed
    else ApplyTimer(ApplyTimers(armed, now, commands[..|commands| - 1]), now, commands[|commands| - 1])
  }

  function ApplyAction(d: Driver, action: RebindAction): Driver {
    match action
    case PublishState(state) => d.(published := d.published + [state])
    case StartQuietWatch => d.(watching := true)
    case StopQuietWatch => d.(watching := false)
    case PerformRebindToCellular => d.(rebinds := d.rebinds + [action])
    case PerformRebindToWifi => d.(rebinds := d.rebinds + [action])
    case StartWifiProbe => d.(probes := d.probes + [d.now])
  }

  function ApplyActions(d: Driver, actions: seq<RebindAction>): Driver {
    if actions == [] then d
    else ApplyAction(ApplyActions(d, actions[..|actions| - 1]), actions[|actions| - 1])
  }

  function Dispatch(d: Driver, r: Response): Driver {
    ApplyActions(d.(armed := ApplyTimers(d.armed, d.now, r.timers)), r.actions)
  }

  /** The machine's answer to an input; passing time is not an input of the machine. */
  function Answer(d: Driver, input: Input): (Manager, Response) {
    match input
    case Event(e) => OnEvent(d.manager, e)
    case Timeout(id) => OnTimeout(d.manager, id)
    case Elapse(_) => (d.manager, CONSUME)
  }

  /** One turn of the loop.  An expired timer is no longer armed when the machine sees it. */
  function Turn(d: Driver, input: Input): Driver {
    var (m, r) := Answer(d, input);
    var d' := d.(manager := m,
                 armed := if input.Timeout? then d.armed - {input.id} else d.armed,
                 now := if input.Elapse? then d.now + input.duration else d.now);
    Dispatch(d', r)
  }

  /** The mutable driver. */
  class RebindDriver {
    const manager: RebindManager
    var now: nat
    var armed: map<TimerId, nat>
    var watching: bool
    var published: seq<Phase>
    var rebinds: seq<RebindAction>
    var probes: seq<nat>

    ghost function View(): Driver
      reads this, manager
    {
      Driver(manager.View(), now, armed, watching, published, rebinds, probes)
    }

    constructor ()
      ensures View() == NEW_DRIVER && fresh(manager)
    {
      manager := new RebindManager();
      now, armed, watching, published, rebinds, probes := 0, map[], false, [], [], [];
    }

    method DispatchResponse(r: Response)
      modifies this
      ensures View() == Dispatch(old(View()), r)
    {
      for i := 0 to |r.timers|
        invariant View() == old(View()).(armed := ApplyTimers(old(armed), now, r.timers[..i]))
      {
        assert r.timers[..i + 1][..i] == r.timers[..i];
        match r.timers[i] {
          case SetTimer(id, duration) => armed := armed[id := now + duration];
          case KillTimer(id) => armed := armed - {id};
        }
      }
      assert r.timers[..|r.timers|] == r.timers;
      ghost var start := View();
      for i := 0 to |r.actions|
        invariant View() == ApplyActions(start, r.actions[..i])
      {
        assert r.actions[..i + 1][..i] == r.actions[..i];
        match r.actions[i] {
          case PublishState(state) => published := published + [state];
          case StartQuietWatch => watching := true;
          case StopQuietWatch => watching := false;
          case PerformRebindToCellular => rebinds := rebinds + [PerformRebindToCellular];
          case PerformRebindToWifi => rebinds := rebinds + [PerformRebindToWifi];
          case StartWifiProbe => probes := probes + [now];
        }
      }
      assert r.actions[..|r.actions|] == r.actions;
    }

    method Run(input: Input)
      modifies this, manager
      ensures View() == Turn(old(View()), input)
    {
      var r := CONSUME;
      match input {
        case Event(e) => r := manager.HandleEvent(e);
        case Timeout(id) =>
          armed := armed - {id};
          r := manager.HandleTimeout(id);
        case Elapse(duration) => now := now + duration;
      }
      DispatchResponse(r);
    }
  }
}
