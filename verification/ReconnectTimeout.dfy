/**
 When the reconnect loop gives up (`rust-core/src/reconnect_fsm.rs:737-793`): the accounting of one
 loop, from the start of its clock, in any run and with any policies.
 */
module ReconnectTimeout {
  import opened Wrappers
  import opened ReconnectFsm
  import opened ReconnectRuns

  /** The event is the expiry of the live loop's timer. */
  predicate IsLiveTick(s: Reconnect, ev: ReconnectEvent) {
    ev.ReconnectTick? && LoopIsLive(s, ev.epoch)
  }

  /** The duration that an event adds to the loop's account: that of the expired timer. */
  function Expired(s: Reconnect, ev: ReconnectEvent): nat {
    if IsLiveTick(s, ev) then s.clock.value.armed.tick else 0
  }

  /** The sum of the timers that expired in the stretch. */
  function ExpiredTime(ss: seq<Reconnect>, evs: seq<ReconnectEvent>, a: nat, n: nat): nat
    requires a <= n <= |evs| <= |ss|
    decreases n
  {
    if n == a then 0 else ExpiredTime(ss, evs, a, n - 1) + Expired(ss[n - 1], evs[n - 1])
  }

  /** The number of timers that expired in the stretch. */
  function ExpiredTicks(ss: seq<Reconnect>, evs: seq<ReconnectEvent>, a: nat, n: nat): nat
    requires a <= n <= |evs| <= |ss|
    decreases n
  {
    if n == a then 0 else ExpiredTicks(ss, evs, a, n - 1) + if IsLiveTick(ss[n - 1], evs[n - 1]) then 1 else 0
  }

  lemma TickAccount(s: Reconnect, epoch: nat, policy: Policy)
    requires LoopIsLive(s, epoch) && !GivesUp(s, ReconnectTick(epoch, policy))
    ensures var s' := OnReconnectTick(s, epoch, policy).0;
            && LoopIsLive(s', epoch)
            && s'.clock == Some(LoopClock(s.clock.value.elapsed + s.clock.value.armed.tick,
                                          s.clock.value.tickCount + 1, policy))
  {
  }

  lemma WakeAccount(s: Reconnect, epoch: nat, policy: Policy)
    requires LoopIsLive(s, epoch)
    ensures var s' := OnReconnectWake(s, epoch, policy).0;
            LoopIsLive(s', epoch) && s'.clock == Some(s.clock.value.(armed := policy))
  {
  }

  lemma OtherAccount(s: Reconnect, ev: ReconnectEvent)
    requires LoopIsLive(s, s.epoch) && !EndsLoop(s, ev) && !ev.ReconnectTick? && !ev.ReconnectWake?
    ensures LoopIsLive(Apply(s, ev).0, s.epoch) && Apply(s, ev).0.clock == s.clock
  {
  }

  /** An event that does not end the loop adds the expired timer, if it is one, and nothing else. */
  lemma AccountStep(s: Reconnect, ev: ReconnectEvent)
    requires LoopIsLive(s, s.epoch) && !EndsLoop(s, ev)
    ensures var s' := Apply(s, ev).0;
            && LoopIsLive(s', s.epoch)
            && s'.clock.value.elapsed == s.clock.value.elapsed + Expired(s, ev)
            && s'.clock.value.tickCount == s.clock.value.tickCount + if IsLiveTick(s, ev) then 1 else 0
  {
    match ev {
      case ReconnectTick(epoch, policy) =>
        if LoopIsLive(s, epoch) {
          TickAccount(s, epoch, policy);
        }
      case ReconnectWake(epoch, policy) =>
        if LoopIsLive(s, epoch) {
          WakeAccount(s, epoch, policy);
        }
      case _ => OtherAccount(s, ev);
    }
  }

  /** The step starts the clock of a loop. */
  ghost predicate StartsClock(ss: seq<Reconnect>, evs: seq<ReconnectEvent>, a: nat)
    requires IsRun(ss, evs)
  {
    a < |evs| && ss[a].clock.None? && ss[a + 1].clock.Some?
  }

  lemma ClockStarts(s: Reconnect, ev: ReconnectEvent)
    requires s.clock.None? && Apply(s, ev).0.clock.Some?
    ensures ev.LoopStarted? && LoopIsLive(Apply(s, ev).0, s.epoch)
    ensures Apply(s, ev).0 == s.(clock := Some(LoopClock(0, 0, ev.policy)))
  {
  }

  /**
   While the loop runs, its account is the sum of the timers that expired since its clock started,
   and its count is their number: waiting that a wake cut short is not counted.
   */
  lemma {:induction false} AccountIsExpiredTime(ss: seq<Reconnect>, evs: seq<ReconnectEvent>, a: nat, n: nat)
    requires IsRun(ss, evs) && StartsClock(ss, evs, a) && a < n < |ss|
    requires forall k :: a < k < n ==> !EndsLoop(ss[k], evs[k])
    ensures LoopIsLive(ss[n], ss[a].epoch)
    ensures ss[n].clock.value.elapsed == ExpiredTime(ss, evs, a + 1, n)
    ensures ss[n].clock.value.tickCount == ExpiredTicks(ss, evs, a + 1, n)
    decreases n
  {
    if n == a + 1 {
      ClockStarts(ss[a], evs[a]);
    } else {
      AccountIsExpiredTime(ss, evs, a, n - 1);
      AccountStep(ss[n - 1], evs[n - 1]);
    }
  }

  lemma GivingUpStops(s: Reconnect, epoch: nat, policy: Policy)
    requires LoopIsLive(s, epoch)
    ensures OnReconnectTick(s, epoch, policy).0.loopActive <==> !GivesUp(s, ReconnectTick(epoch, policy))
  {
  }

  /**
   The loop gives up at an expired timer if and only if the timers expired since its clock started,
   this one included, reach the time-out of the policy that armed it; and it gives up at nothing else.
   */
  lemma LoopGivesUpIff(ss: seq<Reconnect>, evs: seq<ReconnectEvent>, a: nat, k: nat)
    requires IsRun(ss, evs) && StartsClock(ss, evs, a) && a < k < |evs|
    requires forall j :: a < j < k ==> !EndsLoop(ss[j], evs[j])
    ensures LoopIsLive(ss[k], ss[a].epoch)
    ensures GivesUp(ss[k], evs[k]) <==>
            IsLiveTick(ss[k], evs[k]) && ExpiredTime(ss, evs, a + 1, k + 1) >= ss[k].clock.value.armed.timeout
    ensures IsLiveTick(ss[k], evs[k]) ==> (ss[k + 1].loopActive <==> !GivesUp(ss[k], evs[k]))
  {
    AccountIsExpiredTime(ss, evs, a, k);
    if IsLiveTick(ss[k], evs[k]) {
      GivingUpStops(ss[k], evs[k].epoch, evs[k].policy);
    }
  }

  // ---- Attempts ----

  function Max(a: nat, b: nat): nat {
    if a >= b then a else b
  }

  /** Every how many ticks an attempt is due. */
  function RetryEvery(policy: Policy): (n: nat)
    ensures n > 0
  {
    Max(1, policy.retryInterval / Max(1, policy.tick))
  }

  lemma TickStartsAttemptIff(s: Reconnect, epoch: nat, policy: Policy)
    requires LoopIsLive(s, epoch) && !GivesUp(s, ReconnectTick(epoch, policy))
    ensures StartsAttempt(s, ReconnectTick(epoch, policy)) <==>
            !s.inFlight && (s.pendingWake || (s.clock.value.tickCount + 1) % RetryEvery(s.clock.value.armed) == 0)
  {
    var effects := OnReconnectTick(s, epoch, policy).1;
    assert TicksPerRetry(s.clock.value.armed) == RetryEvery(s.clock.value.armed);
    if !s.inFlight && (s.pendingWake || (s.clock.value.tickCount + 1) % RetryEvery(s.clock.value.armed) == 0) {
      assert effects[2].StartAttempt?;
    }
  }

  /**
   A tick at which the loop does not give up starts an attempt if and only if none is in flight, and a
   wake is pending or the number of ticks since the clock started, this one included, is a multiple of
   the retry interval in ticks.
   */
  lemma LoopRetriesIff(ss: seq<Reconnect>, evs: seq<ReconnectEvent>, a: nat, k: nat)
    requires IsRun(ss, evs) && StartsClock(ss, evs, a) && a < k < |evs|
    requires forall j :: a < j < k ==> !EndsLoop(ss[j], evs[j])
    requires IsLiveTick(ss[k], evs[k]) && !GivesUp(ss[k], evs[k])
    ensures StartsAttempt(ss[k], evs[k]) <==>
            && !ss[k].inFlight
            && (ss[k].pendingWake || ExpiredTicks(ss, evs, a + 1, k + 1) % RetryEvery(ss[k].clock.value.armed) == 0)
  {
    AccountIsExpiredTime(ss, evs, a, k);
    TickStartsAttemptIff(ss[k], evs[k].epoch, evs[k].policy);
  }

  // ---- One policy ----

  /** All the loop's timers are armed with the same policy. */
  predicate SamePolicy(ev: ReconnectEvent, policy: Policy) {
    ev.LoopStarted? || ev.ReconnectTick? || ev.ReconnectWake? ==> ev.policy == policy
  }

  lemma ArmedStep(s: Reconnect, ev: ReconnectEvent, policy: Policy)
    requires LoopIsLive(s, s.epoch) && !EndsLoop(s, ev) && s.clock.value.armed == policy && SamePolicy(ev, policy)
    ensures Apply(s, ev).0.clock.Some? && Apply(s, ev).0.clock.value.armed == policy
  {
    match ev {
      case ReconnectTick(epoch, p) =>
        if LoopIsLive(s, epoch) {
          TickAccount(s, epoch, p);
        }
      case ReconnectWake(epoch, p) =>
        if LoopIsLive(s, epoch) {
          WakeAccount(s, epoch, p);
        }
      case _ => OtherAccount(s, ev);
    }
  }

  lemma {:induction false} ArmedStays(ss: seq<Reconnect>, evs: seq<ReconnectEvent>, a: nat, n: nat, policy: Policy)
    requires IsRun(ss, evs) && StartsClock(ss, evs, a) && a < n < |ss|
    requires forall k :: a < k < n ==> !EndsLoop(ss[k], evs[k])
    requires forall k :: a <= k < n ==> SamePolicy(evs[k], policy)
    ensures LoopIsLive(ss[n], ss[a].epoch) && ss[n].clock.value.armed == policy
    ensures ss[n].clock.value.elapsed == ss[n].clock.value.tickCount * policy.tick
    decreases n
  {
    if n == a + 1 {
      ClockStarts(ss[a], evs[a]);
    } else {
      ArmedStays(ss, evs, a, n - 1, policy);
      AccountStep(ss[n - 1], evs[n - 1]);
      ArmedStep(ss[n - 1], evs[n - 1], policy);
      Distributes(ss[n - 1].clock.value.tickCount, policy.tick);
    }
  }

  lemma Distributes(n: nat, tick: nat)
    ensures (n + 1) * tick == n * tick + tick
  {
  }

  /** With one policy, the loop gives up at the first tick `c` with `c * tick >= timeout`. */
  lemma LoopGivesUpAtTick(ss: seq<Reconnect>, evs: seq<ReconnectEvent>, a: nat, k: nat, policy: Policy)
    requires IsRun(ss, evs) && StartsClock(ss, evs, a) && a < k < |evs|
    requires forall j :: a < j < k ==> !EndsLoop(ss[j], evs[j])
    requires forall j :: a <= j < k ==> SamePolicy(evs[j], policy)
    requires IsLiveTick(ss[k], evs[k])
    ensures GivesUp(ss[k], evs[k]) <==> (ExpiredTicks(ss, evs, a + 1, k) + 1) * policy.tick >= policy.timeout
  {
    AccountIsExpiredTime(ss, evs, a, k);
    ArmedStays(ss, evs, a, k, policy);
    Distributes(ss[k].clock.value.tickCount, policy.tick);
  }

  // ---- Wakes alone ----

  /**
   Wakes never age the loop: after any number of them in a row, each before the timer it re-arms could
   expire, the account and the count are what they were and the loop is still live, whatever its
   time-out.
   */
  lemma {:induction false} WakesAlonePostponeGivingUp(ss: seq<Reconnect>, evs: seq<ReconnectEvent>, a: nat, n: nat)
    requires IsRun(ss, evs) && a <= n < |ss| && LoopIsLive(ss[a], ss[a].epoch)
    requires forall k :: a <= k < n ==> evs[k].ReconnectWake? && evs[k].epoch == ss[a].epoch
    ensures LoopIsLive(ss[n], ss[a].epoch)
    ensures ss[n].clock.value.elapsed == ss[a].clock.value.elapsed
    ensures ss[n].clock.value.tickCount == ss[a].clock.value.tickCount
    decreases n
  {
    if a < n {
      WakesAlonePostponeGivingUp(ss, evs, a, n - 1);
      AccountStep(ss[n - 1], evs[n - 1]);
    }
  }
}
