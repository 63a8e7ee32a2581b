/**
 The stability flag of the rebind machine, and what its comment
 (`rust-core/src/rebind_manager.rs:129-130`) says of it.
 */
module StabilityFlag {
  import opened Wrappers
  import opened RebindMachine
  import opened RebindLoop
  import opened RebindRuns
  import opened RebindTheorems
  import opened RebindTimers

  // ---- When the window is armed ----

  /** The deadline of the stability window, if one is armed. */
  function Deadline(d: Driver): Option<nat> {
    if StabilityWindow in d.armed then Some(d.armed[StabilityWindow]) else None
  }

  /** The observer's view of the window after one more input. */
  function DeadlineAfter(o: Observer, deadline: Option<nat>, input: Input, now: nat): Option<nat> {
    if PhaseAfter(o, input) == OnWifi || input == Timeout(StabilityWindow) then None
    else if CountedSuccess(o, input) && o.streak == 0 then Some(now + STABILITY_WINDOW)
    else if CountedFailure(o, input) && o.phase == FailedOverToCellular then None
    else deadline
  }

  /**
   The window is armed exactly by the counted success that begins a streak, and disarmed by its
   expiry, by the return to Wi-Fi and by a counted failure outside the wait; a failure that
   abandons a round leaves it armed.
   */
  lemma DeadlineFollowsBooks(s: Watched, input: Input)
    requires Inv(s) && Possible(s.driver, input)
    ensures Deadline(Turn(s.driver, input)) == DeadlineAfter(s.observer, Deadline(s.driver), input, s.driver.now)
  {
    TurnFollowsBooks(s, input);
  }

  /** The state after one more input, from the books alone. */
  lemma StepFollowsBooks(s: Watched, input: Input)
    requires Inv(s) && Possible(s.driver, input)
    ensures var s', after := Next(s, input), PhaseAfter(s.observer, input);
            && s'.driver.manager == Answer(s.driver, input).0
            && s'.observer ==
                 Note(s.observer, input, if after == s.observer.phase then None else Some(after), s.driver.now)
            && s'.driver.now == s.driver.now + (if input.Elapse? then input.duration else 0)
            && Deadline(s'.driver) == DeadlineAfter(s.observer, Deadline(s.driver), input, s.driver.now)
  {
    TurnOutputs(s.driver, input);
    PhaseFollowsBooks(s.driver, s.observer, input);
    DeadlineFollowsBooks(s, input);
  }

  // ---- The meaning of the flag ----

  /**
   The comment says that the flag means a window that expired without a failure in between: no
   counted failure since that window was armed.
   */
  ghost predicate FlagMeansUnbroken(s: Watched) {
    s.driver.manager.stable ==> s.observer.unbrokenExpiry
  }

  /**
   An armed window has a counted failure inside it exactly if no success was counted since and a
   counted failure came after the last wait was announced: the failure that ended that wait.
   */
  ghost predicate WindowInv(o: Observer, deadline: Option<nat>) {
    deadline.Some? ==> (!o.unbrokenWindow <==> o.streak == 0 && o.failedSinceWaiting)
  }

  lemma NoteKeepsWindow(o: Observer, deadline: Option<nat>, input: Input, now: nat)
    requires WindowInv(o, deadline) && (o.phase == OnWifi ==> o == ON_WIFI && deadline == None)
    requires o.phase == WaitingQuietToReturn ==> !o.failedSinceWaiting && o.streak > 0
    requires o.phase == FailedOverToCellular ==> !ReadyToWait(o)
    ensures var after := PhaseAfter(o, input);
            WindowInv(Note(o, input, if after == o.phase then None else Some(after), now),
                      DeadlineAfter(o, deadline, input, now))
  {
  }

  lemma {:induction false} RunKeepsWindow(ss: seq<Watched>, inputs: seq<Input>, n: nat)
    requires IsRun(ss, inputs) && n < |ss|
    ensures WindowInv(ss[n].observer, Deadline(ss[n].driver))
  {
    if n > 0 {
      var s := ss[n - 1];
      RunKeepsWindow(ss, inputs, n - 1);
      RunKeepsInv(ss, inputs, n - 1);
      StepFollowsBooks(s, inputs[n - 1]);
      NoteKeepsWindow(s.observer, Deadline(s.driver), inputs[n - 1], s.driver.now);
    }
  }

  /** The flag after one more input, from the books alone. */
  lemma FlagAfter(s: Watched, input: Input)
    requires Inv(s) && Possible(s.driver, input)
    ensures Next(s, input).driver.manager.stable == Next(s, input).observer.expired
  {
    StepKeepsInv(s, input);
  }

  lemma NoteBreaksMeaningIff(o: Observer, input: Input, now: nat)
    requires (o.phase == OnWifi ==> o == ON_WIFI) && (o.expired ==> o.unbrokenExpiry)
    requires input == Timeout(StabilityWindow) ==> o.phase != OnWifi
    ensures var after := PhaseAfter(o, input);
            var o' := Note(o, input, if after == o.phase then None else Some(after), now);
            o'.expired && !o'.unbrokenExpiry <==>
            || (CountedFailure(o, input) && o.phase == FailedOverToCellular && o.expired)
            || (input == Timeout(StabilityWindow) && !o.unbrokenWindow)
  {
  }

  /**
   In every run the flag loses that meaning in exactly two kinds of step: a counted failure outside
   the wait while the flag is set, because that branch resets the counter and not the flag; and the
   expiry of a window with no success counted and a counted failure since the last wait, which is a
   window that the failure left armed when it ended the wait.
   */
  lemma {:induction false} FlagLosesItsMeaningIff(ss: seq<Watched>, inputs: seq<Input>, i: nat)
    requires IsRun(ss, inputs) && i < |inputs| && FlagMeansUnbroken(ss[i])
    ensures var m, o := ss[i].driver.manager, ss[i].observer;
            !FlagMeansUnbroken(ss[i + 1]) <==>
            || (inputs[i] == Event(WifiProbeFailed) && m.phase == FailedOverToCellular && !m.manual && m.stable)
            || (inputs[i] == Timeout(StabilityWindow) && m.successes == 0 && o.failedSinceWaiting)
  {
    var s, input := ss[i], inputs[i];
    RunKeepsInv(ss, inputs, i);
    RunKeepsWindow(ss, inputs, i);
    StepFollowsBooks(s, input);
    FlagAfter(s, input);
    NoteBreaksMeaningIff(s.observer, input, s.driver.now);
  }

  // ---- A run for each of the two ----

  /** A run that ends in the given state. */
  ghost predicate Reaches(ss: seq<Watched>, inputs: seq<Input>, m: Manager, o: Observer, now: nat,
                          deadline: Option<nat>) {
    && IsRun(ss, inputs)
    && var s := ss[|inputs|];
       && s.driver.manager == m && s.observer == o && s.driver.now == now && Deadline(s.driver) == deadline
  }

  lemma {:induction false} ExtendRun(ss: seq<Watched>, inputs: seq<Input>, input: Input)
    requires IsRun(ss, inputs) && Possible(ss[|inputs|].driver, input)
    ensures IsRun(ss + [Next(ss[|inputs|], input)], inputs + [input])
  {
    var inputs', ss' := inputs + [input], ss + [Next(ss[|inputs|], input)];
    forall i | 0 <= i < |inputs'|
      ensures Possible(ss'[i].driver, inputs'[i]) && ss'[i + 1] == Next(ss'[i], inputs'[i])
    {
      if i < |inputs| {
        assert ss'[i] == ss[i] && inputs'[i] == inputs[i] && ss'[i + 1] == ss[i + 1];
      }
    }
  }

  /** One more input, seen from outside. */
  lemma {:induction false} Extend(ss: seq<Watched>, inputs: seq<Input>, input: Input, m: Manager, o: Observer,
                                  now: nat, deadline: Option<nat>)
    returns (ss': seq<Watched>, inputs': seq<Input>)
    requires Reaches(ss, inputs, m, o, now, deadline) && Possible(ss[|inputs|].driver, input)
    ensures inputs' == inputs + [input] && |ss'| == |ss| + 1 && ss'[..|ss|] == ss
    ensures var after := PhaseAfter(o, input);
            Reaches(ss', inputs', Answer(ss[|inputs|].driver, input).0,
                    Note(o, input, if after == o.phase then None else Some(after), now),
                    now + (if input.Elapse? then input.duration else 0),
                    DeadlineAfter(o, deadline, input, now))
  {
    inputs', ss' := inputs + [input], ss + [Next(ss[|inputs|], input)];
    RunKeepsInv(ss, inputs, |inputs|);
    ExtendRun(ss, inputs, input);
    StepFollowsBooks(ss[|inputs|], input);
  }

  const FAILED_OVER := NEW_MANAGER.(phase := FailedOverToCellular)
  const OFF_WIFI := ON_WIFI.(phase := FailedOverToCellular)
  const STALE_BOOKS := OFF_WIFI.(expired := true, failedSinceWaiting := true)

  /** Failover, one success, and the window is due. */
  lemma WindowDue() returns (ss: seq<Watched>, inputs: seq<Input>)
    ensures Reaches(ss, inputs, FAILED_OVER.(successes := 1), OFF_WIFI.(streak := 1, unbrokenWindow := true), 60_000,
                    Some(STABILITY_WINDOW))
  {
    ss, inputs := Extend([START], [], Event(NoViablePath), NEW_MANAGER, ON_WIFI, 0, None);
    ss, inputs := Extend(ss, inputs, Event(WifiProbeSucceeded), FAILED_OVER, OFF_WIFI, 0, None);
    ss, inputs := Extend(ss, inputs, Elapse(60_000), FAILED_OVER.(successes := 1),
                         OFF_WIFI.(streak := 1, unbrokenWindow := true), 0, Some(STABILITY_WINDOW));
  }

  /** The window expires, then a failure: the flag stays set. */
  lemma StaleFlag() returns (ss: seq<Watched>, inputs: seq<Input>)
    ensures Reaches(ss, inputs, FAILED_OVER.(stable := true), STALE_BOOKS, 60_000, None)
  {
    var books := OFF_WIFI.(streak := 1, unbrokenWindow := true);
    ss, inputs := WindowDue();
    ss, inputs := Extend(ss, inputs, Timeout(StabilityWindow), FAILED_OVER.(successes := 1), books, 60_000,
                         Some(STABILITY_WINDOW));
    ss, inputs := Extend(ss, inputs, Event(WifiProbeFailed), FAILED_OVER.(successes := 1, stable := true),
                         books.(expired := true, unbrokenExpiry := true), 60_000, None);
  }

  /** With the minimum dwell over as well, up to four successes change nothing but the streak. */
  lemma {:induction false} Succeed(n: nat) returns (ss: seq<Watched>, inputs: seq<Input>)
    requires n < STABILITY_CONSECUTIVE_SUCCESSES
    ensures Reaches(ss, inputs, FAILED_OVER.(stable := true, dwelled := true, successes := n),
                    STALE_BOOKS.(dwelled := true, streak := n, unbrokenWindow := n > 0), 60_000,
                    if n == 0 then None else Some(60_000 + STABILITY_WINDOW))
    decreases n
  {
    if n == 0 {
      ss, inputs := StaleFlag();
      RunKeepsInv(ss, inputs, |inputs|);
      assert ss[|inputs|].observer.failoverAt == 0;
      ss, inputs := Extend(ss, inputs, Timeout(CellularMinDwell), FAILED_OVER.(stable := true), STALE_BOOKS, 60_000,
                           None);
    } else {
      ss, inputs := Succeed(n - 1);
      ss, inputs := Extend(ss, inputs, Event(WifiProbeSucceeded),
                           FAILED_OVER.(stable := true, dwelled := true, successes := n - 1),
                           STALE_BOOKS.(dwelled := true, streak := n - 1, unbrokenWindow := n > 1), 60_000,
                           if n == 1 then None else Some(60_000 + STABILITY_WINDOW));
    }
  }

  const WAITING := Manager(WaitingQuietToReturn, 5, true, true, false, 0)
  const WAITING_BOOKS :=
    STALE_BOOKS.(phase := WaitingQuietToReturn, dwelled := true, streak := 5, unbrokenWindow := true,
                 failedSinceWaiting := false)

  /** The fifth success announces the wait on the stale flag, with the new window still armed. */
  lemma WaitOnStaleFlag() returns (ss: seq<Watched>, inputs: seq<Input>)
    ensures Reaches(ss, inputs, WAITING, WAITING_BOOKS, 60_000, Some(60_000 + STABILITY_WINDOW))
  {
    ss, inputs := Succeed(4);
    ss, inputs := Extend(ss, inputs, Event(WifiProbeSucceeded),
                         FAILED_OVER.(stable := true, dwelled := true, successes := 4),
                         STALE_BOOKS.(dwelled := true, streak := 4, unbrokenWindow := true),
                         60_000, Some(60_000 + STABILITY_WINDOW));
  }

  /** An automatic return to Wi-Fi although no window expired after the last counted failure. */
  lemma ReturnWithoutStabilityAfterFailure() returns (ss: seq<Watched>, inputs: seq<Input>)
    ensures IsRun(ss, inputs) && |inputs| > 0
    ensures var i := |inputs| - 1;
            && inputs[i] == Event(TrafficQuietDetected) && RebindsTo(ss, i, PerformRebindToWifi)
            && !ss[i].observer.manual && !ss[i].observer.unbrokenExpiry
  {
    ss, inputs := WaitOnStaleFlag();
    ss, inputs := Extend(ss, inputs, Event(TrafficQuietDetected), WAITING, WAITING_BOOKS, 60_000,
                         Some(60_000 + STABILITY_WINDOW));
    assert ss[|inputs| - 1].observer == WAITING_BOOKS;
    StepSeenFromOutside(ss, inputs, |inputs| - 1);
  }

  const ABANDONED := FAILED_OVER.(dwelled := true, backoff := 1)
  const ABANDONED_BOOKS := OFF_WIFI.(dwelled := true, failedSinceWaiting := true, abandoned := 1)

  /** A counted failure ends the round and leaves the window armed; then the window is due. */
  lemma WindowOutlivesRound() returns (ss: seq<Watched>, inputs: seq<Input>)
    ensures Reaches(ss, inputs, ABANDONED, ABANDONED_BOOKS, 75_000, Some(75_000))
  {
    ss, inputs := WaitOnStaleFlag();
    ss, inputs := Extend(ss, inputs, Event(WifiProbeFailed), WAITING, WAITING_BOOKS, 60_000, Some(75_000));
    ss, inputs := Extend(ss, inputs, Elapse(15_000), ABANDONED, ABANDONED_BOOKS, 60_000, Some(75_000));
  }

  /** The flag is set by a window that has a counted failure inside it. */
  lemma FlagSetByBrokenWindow() returns (ss: seq<Watched>, inputs: seq<Input>)
    ensures IsRun(ss, inputs) && |inputs| > 0
    ensures var i := |inputs| - 1;
            && inputs[i] == Timeout(StabilityWindow)
            && FlagMeansUnbroken(ss[i]) && !ss[i].driver.manager.stable && ss[i + 1].driver.manager.stable
            && !ss[i].observer.unbrokenWindow && !FlagMeansUnbroken(ss[i + 1])
  {
    ss, inputs := WindowOutlivesRound();
    ss, inputs := Extend(ss, inputs, Timeout(StabilityWindow), ABANDONED, ABANDONED_BOOKS, 75_000, Some(75_000));
    assert ss[|inputs| - 1].observer == ABANDONED_BOOKS;
  }
}
