/**
 The sliding-window traffic statistic that decides whether a connection is quiet
 (`rust-core/src/multipath_transport.rs:292-358`).

 Instants are nanoseconds on a monotonic clock. Byte counts are unbounded.
 */
module Traffic {
  import opened Wrappers

  const SECOND: nat := 1_000_000_000
  const QUIET_BYTES_THRESHOLD: nat := 4096
  const QUIET_ACTIVITY_WINDOW: nat := 3 * SECOND
  const QUIET_MIN_IDLE_SINCE_LAST_TX: nat := 1 * SECOND

  datatype Event = Event(at: nat, len: nat)

  datatype Stats = Stats(rx: seq<Event>, tx: seq<Event>, lastTx: Option<nat>)

  /** Elapsed time, zero for an instant in the future. */
  function Since(now: nat, t: nat): nat {
    if now >= t then now - t else 0
  }

  function PrunedOlderThan(events: seq<Event>, now: nat): seq<Event> {
    if events != [] && Since(now, events[0].at) > QUIET_ACTIVITY_WINDOW
    then PrunedOlderThan(events[1..], now) else events
  }

  function Sum(events: seq<Event>): nat {
    if events == [] then 0 else events[0].len + Sum(events[1..])
  }

  function RecordedRx(s: Stats, len: nat, now: nat): Stats {
    s.(rx := PrunedOlderThan(s.rx + [Event(now, len)], now))
  }

  function RecordedTx(s: Stats, len: nat, now: nat): Stats {
    s.(tx := PrunedOlderThan(s.tx + [Event(now, len)], now), lastTx := Some(now))
  }

  function Queried(s: Stats, now: nat): Stats {
    s.(rx := PrunedOlderThan(s.rx, now), tx := PrunedOlderThan(s.tx, now))
  }

  predicate QuietAnswer(s: Stats, now: nat) {
    && Sum(PrunedOlderThan(s.rx, now) + PrunedOlderThan(s.tx, now)) <= QUIET_BYTES_THRESHOLD
    && (s.lastTx.None? || Since(now, s.lastTx.value) >= QUIET_MIN_IDLE_SINCE_LAST_TX)
  }

  method PruneOlderThan(events: seq<Event>, now: nat) returns (kept: seq<Event>)
    ensures kept == PrunedOlderThan(events, now)
  {
    kept := events;
    while kept != []
      invariant PrunedOlderThan(kept, now) == PrunedOlderThan(events, now)
      decreases |kept|
    {
      if Since(now, kept[0].at) > QUIET_ACTIVITY_WINDOW {
        kept := kept[1..];
      } else {
        break;
      }
    }
  }

  /** The statistic kept behind the mutex. */
  class TrafficStats {
    var rxEvents: seq<Event>
    var txEvents: seq<Event>
    var lastTx: Option<nat>

    ghost function State(): Stats
      reads this
    {
      Stats(rxEvents, txEvents, lastTx)
    }

    constructor ()
      ensures State() == Stats([], [], None)
    {
      rxEvents, txEvents, lastTx := [], [], None;
    }

    method RecordRx(len: nat, now: nat)
      modifies this
      ensures State() == RecordedRx(old(State()), len, now)
    {
      rxEvents := rxEvents + [Event(now, len)];
      rxEvents := PruneOlderThan(rxEvents, now);
    }

    method RecordTx(len: nat, now: nat)
      modifies this
      ensures State() == RecordedTx(old(State()), len, now)
    {
      txEvents := txEvents + [Event(now, len)];
      lastTx := Some(now);
      txEvents := PruneOlderThan(txEvents, now);
    }

    method IsQuiet(now: nat) returns (quiet: bool)
      modifies this
      ensures State() == Queried(old(State()), now)
      ensures quiet == QuietAnswer(old(State()), now)
    {
      rxEvents := PruneOlderThan(rxEvents, now);
      txEvents := PruneOlderThan(txEvents, now);
      var windowBytes := Sum(rxEvents + txEvents);
      if windowBytes > QUIET_BYTES_THRESHOLD {
        return false;
      }
      quiet := lastTx.None? || Since(now, lastTx.value) >= QUIET_MIN_IDLE_SINCE_LAST_TX;
    }
  }

  // ---- Runs ----

  datatype Call = RecordRx(len: nat, now: nat) | RecordTx(len: nat, now: nat) | IsQuiet(now: nat)

  function Step(s: Stats, call: Call): Stats {
    match call
    case RecordRx(len, now) => RecordedRx(s, len, now)
    case RecordTx(len, now) => RecordedTx(s, len, now)
    case IsQuiet(now) => Queried(s, now)
  }

  /** The state after a history of calls on a new statistic. */
  function After(calls: seq<Call>): Stats {
    if calls == [] then Stats([], [], None) else Step(After(calls[..|calls| - 1]), calls[|calls| - 1])
  }

  /**
   Instants are read before the lock is taken, so calls can come in out of order.  What is needed:
   the receptions are in order among themselves, and so are the sends.
   */
  predicate QueuesOrdered(calls: seq<Call>) {
    && (forall i, j :: 0 <= i < j < |calls| && calls[i].RecordRx? && calls[j].RecordRx? ==>
         calls[i].now <= calls[j].now)
    && (forall i, j :: 0 <= i < j < |calls| && calls[i].RecordTx? && calls[j].RecordTx? ==>
         calls[i].now <= calls[j].now)
  }

  /** No call was made later than `now`. */
  predicate NoneLater(calls: seq<Call>, now: nat) {
    forall i :: 0 <= i < |calls| ==> calls[i].now <= now
  }

  // ---- The meaning, over the full history ----

  /** Bytes of the calls made no more than the window before `now`. */
  function BytesInWindow(calls: seq<Call>, now: nat): nat {
    if calls == [] then 0
    else
      var last := calls[|calls| - 1];
      BytesInWindow(calls[..|calls| - 1], now) +
      if !last.IsQuiet? && now <= last.now + QUIET_ACTIVITY_WINDOW then last.len else 0
  }

  /** No send was made less than a second before `now`. */
  predicate IdleSinceLastSend(calls: seq<Call>, now: nat) {
    forall i :: 0 <= i < |calls| && calls[i].RecordTx? ==> calls[i].now + QUIET_MIN_IDLE_SINCE_LAST_TX <= now
  }

  predicate Quiet(calls: seq<Call>, now: nat) {
    BytesInWindow(calls, now) <= QUIET_BYTES_THRESHOLD && IdleSinceLastSend(calls, now)
  }

  // ---- Pruning keeps the window ----

  predicate Sorted(events: seq<Event>) {
    forall i, j :: 0 <= i < j < |events| ==> events[i].at <= events[j].at
  }

  /** Bytes of the events that are in the window at `now`. */
  function WindowBytes(events: seq<Event>, now: nat): nat {
    if events == [] then 0
    else
      (if Since(now, events[0].at) <= QUIET_ACTIVITY_WINDOW then events[0].len else 0) + WindowBytes(events[1..], now)
  }

  lemma {:induction false} WindowBytesAppend(events: seq<Event>, e: Event, now: nat)
    ensures WindowBytes(events + [e], now)
         == WindowBytes(events, now) + if Since(now, e.at) <= QUIET_ACTIVITY_WINDOW then e.len else 0
  {
    if events == [] {
      assert events + [e] == [e];
    } else {
      assert (events + [e])[1..] == events[1..] + [e];
      WindowBytesAppend(events[1..], e, now);
    }
  }

  /** What pruning removes stays outside the window for ever. */
  lemma {:induction false} PruningKeepsWindow(events: seq<Event>, now: nat, later: nat)
    requires now <= later
    ensures WindowBytes(PrunedOlderThan(events, now), later) == WindowBytes(events, later)
  {
    if events != [] && Since(now, events[0].at) > QUIET_ACTIVITY_WINDOW {
      PruningKeepsWindow(events[1..], now, later);
    }
  }

  /** Pruning takes away a prefix. */
  lemma {:induction false} PruningIsASuffix(events: seq<Event>, now: nat) returns (k: nat)
    ensures k <= |events| && PrunedOlderThan(events, now) == events[k..]
    ensures k < |events| ==> Since(now, events[k].at) <= QUIET_ACTIVITY_WINDOW
  {
    k := 0;
    if events != [] && Since(now, events[0].at) > QUIET_ACTIVITY_WINDOW {
      k := PruningIsASuffix(events[1..], now);
      k := k + 1;
    }
  }

  /** A sorted queue that starts in the window lies in it wholly. */
  lemma {:induction false} SumIsWindow(events: seq<Event>, now: nat)
    requires forall i :: 0 <= i < |events| ==> Since(now, events[i].at) <= QUIET_ACTIVITY_WINDOW
    ensures Sum(events) == WindowBytes(events, now)
  {
    if events != [] {
      SumIsWindow(events[1..], now);
    }
  }

  /** On a sorted queue, what is left after pruning is exactly the window. */
  lemma PrunedSumIsWindow(events: seq<Event>, now: nat)
    requires Sorted(events)
    ensures Sum(PrunedOlderThan(events, now)) == WindowBytes(events, now)
  {
    var k := PruningIsASuffix(events, now);
    PruningKeepsWindow(events, now, now);
    SumIsWindow(events[k..], now);
  }

  lemma {:induction false} SumAppend(a: seq<Event>, b: seq<Event>)
    ensures Sum(a + b) == Sum(a) + Sum(b)
  {
    if a == [] {
      assert a + b == b;
    } else {
      assert (a + b)[1..] == a[1..] + b;
      SumAppend(a[1..], b);
    }
  }

  /** Appending the latest event and pruning keep a queue sorted. */
  lemma SortedStep(events: seq<Event>, e: Event, now: nat)
    requires Sorted(events) && (forall i :: 0 <= i < |events| ==> events[i].at <= e.at)
    ensures Sorted(PrunedOlderThan(events, now)) && Sorted(PrunedOlderThan(events + [e], now))
    ensures forall x :: x in PrunedOlderThan(events, now) ==> x.at <= e.at
    ensures forall x :: x in PrunedOlderThan(events + [e], now) ==> x.at <= e.at
  {
    var k := PruningIsASuffix(events, now);
    var l := PruningIsASuffix(events + [e], now);
  }

  // ---- The invariant over runs ----

  predicate QueueInv(events: seq<Event>, last: nat) {
    Sorted(events) && forall i :: 0 <= i < |events| ==> events[i].at <= last
  }

  /** The latest reception recorded. */
  function LastRx(calls: seq<Call>): nat {
    if calls == [] then 0
    else if calls[|calls| - 1].RecordRx? then calls[|calls| - 1].now else LastRx(calls[..|calls| - 1])
  }

  /** The latest send recorded. */
  function LastTx(calls: seq<Call>): nat {
    if calls == [] then 0
    else if calls[|calls| - 1].RecordTx? then calls[|calls| - 1].now else LastTx(calls[..|calls| - 1])
  }

  /** The last recorded instant of each kind is the instant of one of the calls. */
  lemma {:induction false} LastIsACall(calls: seq<Call>)
    ensures LastRx(calls) == 0 || exists i :: 0 <= i < |calls| && calls[i].RecordRx? && calls[i].now == LastRx(calls)
    ensures LastTx(calls) == 0 || exists i :: 0 <= i < |calls| && calls[i].RecordTx? && calls[i].now == LastTx(calls)
    decreases |calls|
  {
    if calls != [] {
      LastIsACall(calls[..|calls| - 1]);
    }
  }

  lemma {:induction false} QueuesStaySorted(calls: seq<Call>)
    requires QueuesOrdered(calls)
    ensures QueueInv(After(calls).rx, LastRx(calls)) && QueueInv(After(calls).tx, LastTx(calls))
    decreases |calls|
  {
    if calls != [] {
      var front, call := calls[..|calls| - 1], calls[|calls| - 1];
      QueuesStaySorted(front);
      LastIsACall(front);
      var s := After(front);
      match call
      case RecordRx(len, now) => SortedStep(s.rx, Event(now, len), now);
      case RecordTx(len, now) => SortedStep(s.tx, Event(now, len), now);
      case IsQuiet(now) =>
        SortedStep(s.rx, Event(LastRx(front), 0), now);
        SortedStep(s.tx, Event(LastTx(front), 0), now);
    }
  }

  /** In whatever order the calls came: the queues hold every byte that the window can see. */
  lemma {:induction false} QueuesHoldTheWindow(calls: seq<Call>, now: nat)
    requires NoneLater(calls, now)
    ensures WindowBytes(After(calls).rx, now) + WindowBytes(After(calls).tx, now) == BytesInWindow(calls, now)
    decreases |calls|
  {
    if calls != [] {
      var front, call := calls[..|calls| - 1], calls[|calls| - 1];
      QueuesHoldTheWindow(front, now);
      var s := After(front);
      match call
      case RecordRx(len, t) =>
        PruningKeepsWindow(s.rx + [Event(t, len)], t, now);
        WindowBytesAppend(s.rx, Event(t, len), now);
      case RecordTx(len, t) =>
        PruningKeepsWindow(s.tx + [Event(t, len)], t, now);
        WindowBytesAppend(s.tx, Event(t, len), now);
      case IsQuiet(t) =>
        PruningKeepsWindow(s.rx, t, now);
        PruningKeepsWindow(s.tx, t, now);
    }
  }

  lemma {:induction false} LastSendIsRemembered(calls: seq<Call>, now: nat)
    requires QueuesOrdered(calls) && NoneLater(calls, now)
    ensures var lastTx := After(calls).lastTx;
            IdleSinceLastSend(calls, now) <==> lastTx.None? || Since(now, lastTx.value) >= QUIET_MIN_IDLE_SINCE_LAST_TX
    ensures After(calls).lastTx.Some? ==> After(calls).lastTx.value <= now
    decreases |calls|
  {
    if calls != [] {
      var front, call := calls[..|calls| - 1], calls[|calls| - 1];
      assert calls == front + [call];
      LastSendIsRemembered(front, now);
      if call.RecordTx? {
        assert calls[|calls| - 1].RecordTx?;
      } else {
        assert IdleSinceLastSend(calls, now) <==> IdleSinceLastSend(front, now);
      }
    }
  }

  /**
   After every history in which each queue was filled in order, whatever the order between
   receptions, sends and queries: the answer computed from the pruned queues, at an instant no
   earlier than any call, is the answer that the full history gives.
   */
  lemma {:induction false} AnswerIsThatOfTheFullHistory(calls: seq<Call>, now: nat)
    requires QueuesOrdered(calls) && NoneLater(calls, now)
    ensures QuietAnswer(After(calls), now) <==> Quiet(calls, now)
  {
    var s := After(calls);
    QueuesStaySorted(calls);
    QueuesHoldTheWindow(calls, now);
    LastSendIsRemembered(calls, now);
    PrunedSumIsWindow(s.rx, now);
    PrunedSumIsWindow(s.tx, now);
    SumAppend(PrunedOlderThan(s.rx, now), PrunedOlderThan(s.tx, now));
  }

  // ---- Out of order ----

  lemma {:induction false} SumCoversWindow(events: seq<Event>, now: nat)
    ensures WindowBytes(events, now) <= Sum(events)
  {
    if events != [] {
      SumCoversWindow(events[1..], now);
    }
  }

  /** In whatever order the calls came, a quiet answer never overlooks bytes in the window. */
  lemma {:induction false} QuietAnswerOverlooksNothing(calls: seq<Call>, now: nat)
    requires NoneLater(calls, now) && QuietAnswer(After(calls), now)
    ensures BytesInWindow(calls, now) <= QUIET_BYTES_THRESHOLD
  {
    var s := After(calls);
    QueuesHoldTheWindow(calls, now);
    PruningKeepsWindow(s.rx, now, now);
    PruningKeepsWindow(s.tx, now, now);
    SumAppend(PrunedOlderThan(s.rx, now), PrunedOlderThan(s.tx, now));
    SumCoversWindow(PrunedOlderThan(s.rx, now), now);
    SumCoversWindow(PrunedOlderThan(s.tx, now), now);
  }

  /**
   But a reception whose instant is read after `now`, and which is recorded before the query of `now`
   is answered, prunes bytes that are still in the window at `now`.
   */
  lemma LateReceptionHidesBytes(len: nat, at: nat, more: nat, late: nat, now: nat)
    requires len > QUIET_BYTES_THRESHOLD >= more && at <= now <= at + QUIET_ACTIVITY_WINDOW < late
    ensures var calls := [RecordRx(len, at), RecordRx(more, late)];
            QuietAnswer(After(calls), now) && !Quiet(calls, now)
  {
    var first := [RecordRx(len, at)];
    var calls := first + [RecordRx(more, late)];
    assert calls == [RecordRx(len, at), RecordRx(more, late)];
    assert calls[..1] == first && first[..0] == [];
    assert After(first) == Stats([Event(at, len)], [], None);
    var kept, none: seq<Event> := [Event(late, more)], [];
    assert [Event(at, len)] + kept == [Event(at, len), Event(late, more)];
    assert ([Event(at, len)] + kept)[1..] == kept && kept[1..] == none;
    assert PrunedOlderThan([Event(at, len)] + kept, late) == PrunedOlderThan(kept, late) == kept;
    assert After(calls) == Stats(kept, [], None);
    assert kept + none == kept && Sum(kept) == more;
    assert BytesInWindow(first, now) == len;
  }
}
