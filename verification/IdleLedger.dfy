/**
 The reference count and idle-timer generation of one pool entry
 (`rust-core/src/pool_idle_fsm.rs`).

 The ledger decides when an idle timer is armed and whether an expired timer may remove the
 entry.  Timers are never cancelled: a timer carries the generation at which it was armed, and an
 expiry whose generation is no longer current is ignored.
 */
module IdleLedgerFsm {
  import opened Wrappers

  const U32_MAX: nat := 0xFFFF_FFFF
  const U64_MAX: nat := 0xFFFF_FFFF_FFFF_FFFF

  /** Saturating `u32` count and wrapping `u64` generation. */
  datatype Ledger = Ledger(refcount: nat, generation: nat)

  datatype IdleEvent =
    | Attached
    | Released(grace: nat)
    | IdleExpired(generation: nat)

  datatype IdleEffect =
    | ArmIdleTimer(generation: nat, after: nat)
    | Remove

  const FIRST_HOLDER := Ledger(1, 0)

  function NextGeneration(g: nat): nat {
    if g >= U64_MAX then 0 else g + 1
  }

  function Apply(l: Ledger, ev: IdleEvent): (Ledger, seq<IdleEffect>) {
    match ev
    case Attached =>
      (Ledger(if l.refcount >= U32_MAX then U32_MAX else l.refcount + 1, NextGeneration(l.generation)), [])
    case Released(grace) =>
      var refcount := if l.refcount == 0 then 0 else l.refcount - 1;
      if refcount != 0 then (Ledger(refcount, l.generation), [])
      else
        var generation := NextGeneration(l.generation);
        (Ledger(0, generation), [ArmIdleTimer(generation, grace)])
    case IdleExpired(generation) =>
      (l, if l.refcount == 0 && l.generation == generation then [Remove] else [])
  }

  /** The mutable ledger; `Apply` above specifies its one operation. */
  class IdleLedger {
    var refcount: nat
    var generation: nat

    ghost function View(): Ledger
      reads this
    {
      Ledger(refcount, generation)
    }

    constructor FirstHolder()
      ensures View() == FIRST_HOLDER
    {
      refcount := 1;
      generation := 0;
    }

    method Update(ev: IdleEvent) returns (effects: seq<IdleEffect>)
      modifies this
      ensures (View(), effects) == Apply(old(View()), ev)
    {
      effects := [];
      match ev {
        case Attached =>
          refcount := if refcount >= U32_MAX then U32_MAX else refcount + 1;
          generation := NextGeneration(generation);
        case Released(grace) =>
          if refcount > 0 {
            refcount := refcount - 1;
          }
          if refcount != 0 {
            return;
          }
          generation := NextGeneration(generation);
          effects := [ArmIdleTimer(generation, grace)];
        case IdleExpired(token) =>
          if refcount == 0 && generation == token {
            effects := [Remove];
          }
      }
    }
  }

  // ---- Histories of one ledger ----

  /** The ledger after a history of events, starting with its first holder. */
  function After(history: seq<IdleEvent>): Ledger {
    if history == [] then FIRST_HOLDER
    else Apply(After(history[..|history| - 1]), history[|history| - 1]).0
  }

  /**
   The token of the timer that is current after `history`: the one that the last `Released` armed,
   if it armed one and nobody attached afterwards.
   */
  ghost function CurrentToken(history: seq<IdleEvent>): Option<nat> {
    if history == [] then None
    else
      var before := history[..|history| - 1];
      match history[|history| - 1]
      case Attached => None
      case IdleExpired(_) => CurrentToken(before)
      case Released(grace) =>
        var effects := Apply(After(before), Released(grace)).1;
        if effects != [] && effects[0].ArmIdleTimer? then Some(effects[0].generation) else None
  }

  /**
   Whatever happened before, an expiry removes the entry exactly when it carries the token of the
   most recently armed timer and nobody attached since; every other expiry has no effect at all.
   */
  lemma {:induction false} ExpiryRemovesIffTokenIsCurrent(history: seq<IdleEvent>, token: nat)
    ensures var (after, effects) := Apply(After(history), IdleExpired(token));
            && after == After(history)
            && (effects == [Remove] <==> CurrentToken(history) == Some(token))
            && (effects == [] <==> CurrentToken(history) != Some(token))
  {
    TokenIsGenerationOfIdleLedger(history);
  }

  lemma {:induction false} TokenIsGenerationOfIdleLedger(history: seq<IdleEvent>)
    ensures CurrentToken(history) == if After(history).refcount == 0 then Some(After(history).generation) else None
  {
    if history != [] {
      TokenIsGenerationOfIdleLedger(history[..|history| - 1]);
    }
  }

  /** The counters stay within their 32 and 64 bits, whatever happens. */
  lemma {:induction false} CountersStayInRange(history: seq<IdleEvent>)
    ensures After(history).refcount <= U32_MAX && After(history).generation <= U64_MAX
  {
    if history != [] {
      CountersStayInRange(history[..|history| - 1]);
    }
  }
}
