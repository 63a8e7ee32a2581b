/**
 The shared table of pooled connections (`rust-core/src/pool.rs`).

 Every function of this module is one critical section of the pool's mutex.  The mutable class
 `ConnectionPool` is proved against these functions, and the interleaving proofs in
 `PoolProtocol` use them as atomic steps.
 */
module PoolTable {
  import opened Wrappers
  import opened IdleLedgerFsm

  /** Keys are only compared for equality. */
  type Key(==, !new)
  /** A published connection; the identity of the shared pointer. */
  type Value = nat
  /** A watch channel, numbered in order of creation. */
  type Chan = nat

  datatype Verdict = Established(value: Value) | Failed(message: string)

  datatype EntryState =
    | Connecting(chan: Chan)
    | Ready(value: Value)
    | Dead

  datatype Entry = Entry(state: EntryState, idle: Ledger)

  /**
   `slots[c]` is the content of watch channel `c`.  A verdict sent on a channel nobody subscribed
   to is lost in the original and kept here; nobody can subscribe to that channel afterwards.
   */
  datatype Pool = Pool(entries: map<Key, Entry>, slots: seq<Option<Verdict>>, nextValue: Value)

  datatype Attachment =
    | AttachedReady(value: Value)
    | AttachedWaiter(chan: Chan)
    | AttachedEstablisher

  datatype ArmTimer = ArmTimer(key: Key, generation: nat, after: nat)

  const EMPTY_POOL := Pool(map[], [], 0)

  function TryAttach(p: Pool, key: Key, alive: set<Value>): (Pool, Attachment) {
    var newlyConnecting := Connecting(|p.slots|);
    if key !in p.entries then
      (p.(entries := p.entries[key := Entry(newlyConnecting, FIRST_HOLDER)], slots := p.slots + [None]),
       AttachedEstablisher)
    else
      var idle := Apply(p.entries[key].idle, Attached).0;
      var state := p.entries[key].state;
      match state
      case Connecting(c) => (p.(entries := p.entries[key := Entry(state, idle)]), AttachedWaiter(c))
      case _ =>
        if state.Ready? && state.value in alive then
          (p.(entries := p.entries[key := Entry(state, idle)]), AttachedReady(state.value))
        else
          (p.(entries := p.entries[key := Entry(newlyConnecting, idle)], slots := p.slots + [None]),
           AttachedEstablisher)
  }

  /** Send a verdict on the channel of `key`'s entry, if it is still connecting. */
  function Send(p: Pool, key: Key, verdict: Verdict): seq<Option<Verdict>> {
    if key in p.entries && p.entries[key].state.Connecting? && p.entries[key].state.chan < |p.slots|
    then p.slots[p.entries[key].state.chan := Some(verdict)]
    else p.slots
  }

  function PublishSuccess(p: Pool, key: Key): (Pool, Value) {
    var value := p.nextValue;
    var entries := if key in p.entries then p.entries[key := p.entries[key].(state := Ready(value))] else p.entries;
    (Pool(entries, Send(p, key, Established(value)), value + 1), value)
  }

  function PublishFailure(p: Pool, key: Key, message: string): Pool {
    var entries := if key in p.entries then p.entries[key := p.entries[key].(state := Dead)] else p.entries;
    p.(entries := entries, slots := Send(p, key, Failed(message)))
  }

  function MarkDeadIfSame(p: Pool, key: Key, value: Value): Pool {
    if key in p.entries && p.entries[key].state == Ready(value)
    then p.(entries := p.entries[key := p.entries[key].(state := Dead)])
    else p
  }

  function ApplyIdleInLock(p: Pool, key: Key, ev: IdleEvent): (Pool, seq<ArmTimer>) {
    if key !in p.entries then (p, [])
    else
      var (idle, effects) := Apply(p.entries[key].idle, ev);
      if effects == [] then (p.(entries := p.entries[key := p.entries[key].(idle := idle)]), [])
      else match effects[0]
           case Remove => (p.(entries := p.entries - {key}), [])
           case ArmIdleTimer(generation, after) =>
             (p.(entries := p.entries[key := p.entries[key].(idle := idle)]), [ArmTimer(key, generation, after)])
  }

  function ReleaseStep(p: Pool, key: Key, grace: nat): (Pool, seq<ArmTimer>) {
    ApplyIdleInLock(p, key, Released(grace))
  }

  function IdleExpiredStep(p: Pool, key: Key, generation: nat): (Pool, seq<ArmTimer>) {
    ApplyIdleInLock(p, key, IdleExpired(generation))
  }

  /** The mutable pool, as the original keeps it behind its mutex. */
  class ConnectionPool {
    var entries: map<Key, Entry>
    var slots: seq<Option<Verdict>>
    var nextValue: Value

    ghost function View(): Pool
      reads this
    {
      Pool(entries, slots, nextValue)
    }

    constructor ()
      ensures View() == EMPTY_POOL
    {
      entries, slots, nextValue := map[], [], 0;
    }

    method NewChannel() returns (chan: Chan)
      modifies this`slots
      ensures chan == |old(slots)| && slots == old(slots) + [None]
    {
      chan := |slots|;
      slots := slots + [None];
    }

    method TryAttachWith(key: Key, alive: set<Value>) returns (outcome: Attachment)
      modifies this
      ensures (View(), outcome) == TryAttach(old(View()), key, alive)
    {
      if key !in entries {
        var chan := NewChannel();
        entries := entries[key := Entry(Connecting(chan), FIRST_HOLDER)];
        return AttachedEstablisher;
      }
      var state := entries[key].state;
      var idle := Apply(entries[key].idle, Attached).0;
      entries := entries[key := Entry(state, idle)];
      match state {
        case Connecting(c) => outcome := AttachedWaiter(c);
        case Ready(v) =>
          if v in alive {
            outcome := AttachedReady(v);
          } else {
            var chan := NewChannel();
            entries := entries[key := entries[key].(state := Connecting(chan))];
            assert entries == old(entries)[key := Entry(Connecting(chan), idle)];
            outcome := AttachedEstablisher;
          }
        case Dead =>
          var chan := NewChannel();
          entries := entries[key := entries[key].(state := Connecting(chan))];
          assert entries == old(entries)[key := Entry(Connecting(chan), idle)];
          outcome := AttachedEstablisher;
      }
    }

    method Publish(key: Key, verdict: Verdict, state: EntryState)
      modifies this`entries, this`slots
      ensures slots == Send(old(View()), key, verdict)
      ensures entries ==
              if key in old(entries) then old(entries)[key := old(entries)[key].(state := state)] else old(entries)
    {
      if key in entries {
        if entries[key].state.Connecting? && entries[key].state.chan < |slots| {
          slots := slots[entries[key].state.chan := Some(verdict)];
        }
        entries := entries[key := entries[key].(state := state)];
      }
    }

    method Succeed(key: Key) returns (value: Value)
      modifies this
      ensures (View(), value) == PublishSuccess(old(View()), key)
    {
      value := nextValue;
      nextValue := nextValue + 1;
      Publish(key, Established(value), Ready(value));
    }

    method Fail(key: Key, message: string)
      modifies this
      ensures View() == PublishFailure(old(View()), key, message)
    {
      Publish(key, Failed(message), Dead);
    }

    method MarkDead(key: Key, value: Value)
      modifies this
      ensures View() == MarkDeadIfSame(old(View()), key, value)
    {
      if key in entries && entries[key].state == Ready(value) {
        entries := entries[key := entries[key].(state := Dead)];
      }
    }

    method UpdateIdle(key: Key, ev: IdleEvent) returns (timers: seq<ArmTimer>)
      modifies this
      ensures (View(), timers) == ApplyIdleInLock(old(View()), key, ev)
    {
      timers := [];
      if key !in entries {
        return;
      }
      var (idle, effects) := Apply(entries[key].idle, ev);
      assert |effects| <= 1;
      entries := entries[key := entries[key].(idle := idle)];
      for i := 0 to |effects|
        invariant Apply(old(entries)[key].idle, ev) == (idle, effects)
        invariant i == 0 ==> timers == [] && entries == old(entries)[key := old(entries)[key].(idle := idle)]
        invariant i > 0 ==> (View(), timers) == ApplyIdleInLock(old(View()), key, ev)
        invariant slots == old(slots) && nextValue == old(nextValue)
      {
        match effects[i] {
          case ArmIdleTimer(generation, after) =>
            timers := timers + [ArmTimer(key, generation, after)];
            assert timers == [ArmTimer(key, generation, after)];
          case Remove =>
            entries := entries - {key};
            assert entries == old(entries) - {key};
        }
      }
    }
  }
}
