/**
 What the pool guarantees over every run of its clients.
 */
module PoolTheorems {
  import opened Wrappers
  import opened IdleLedgerFsm
  import opened PoolTable
  import opened PoolProtocol

  // ---- Reference counts and removal ----

  /** The entry of `key` disappears in the step from `w` by `l`. */
  ghost predicate Removes(w: World, l: Label, key: Key)
    requires Enabled(w, l)
  {
    key in w.pool.entries && key !in Next(w, l).pool.entries
  }

  /**
   In every interleaving the reference count of an entry is the number of tabs holding its key,
   every tab between attach and release holds an existing entry, and an entry can only disappear
   when a timer with its current generation fires while nobody holds it.
   */
  lemma HeldEntriesAreNeverRemoved(ws: seq<World>, ls: seq<Label>, i: nat)
    requires IsRun(ws, ls) && i < |ls|
    ensures forall t :: t in ws[i].tabs ==> ws[i].tabs[t].key in ws[i].pool.entries
    ensures forall k :: k in ws[i].pool.entries ==> ws[i].pool.entries[k].idle.refcount == |Holders(ws[i].tabs, k)|
    ensures forall k :: Removes(ws[i], ls[i], k) ==>
              && Holders(ws[i].tabs, k) == {}
              && ls[i].Fire?
              && ws[i].timers[ls[i].index].key == k
              && ws[i].timers[ls[i].index].generation == ws[i].pool.entries[k].idle.generation
  {
    RunKeepsInv(ws, ls, i);
    forall k | Removes(ws[i], ls[i], k) ensures Holders(ws[i].tabs, k) == {} && ls[i].Fire? {
      assert ls[i].Fire?;
    }
  }

  /**
   No timer waits longer than the grace, and the timer of the latest release-to-zero of a key is due
   exactly the grace after that release.
   */
  ghost predicate DuesKept(w: World) {
    && w.lastArmed.Keys == w.releasedAt.Keys
    && (forall t :: t in w.timers ==>
          && t.serial < w.armed && t.due <= w.now + GRACE
          && (t.key in w.lastArmed && t.serial == w.lastArmed[t.key] ==> t.due == w.releasedAt[t.key] + GRACE))
  }

  lemma ReleaseKeepsDues(w: World, t: TabId)
    requires CountsExact(w) && WithinLimits(w) && DuesKept(w) && Enabled(w, Release(t))
    ensures DuesKept(Next(w, Release(t)))
  {
    ReleaseOutcome(w, t);
    var w' := Next(w, Release(t));
    forall p | p in w'.timers
      ensures p.serial < w'.armed && p.due <= w'.now + GRACE
      ensures p.key in w'.lastArmed && p.serial == w'.lastArmed[p.key] ==> p.due == w'.releasedAt[p.key] + GRACE
    {
      if p !in w.timers {
        assert p.serial == w.armed && p.due == w.now + GRACE;
      }
    }
  }

  lemma FireKeepsDues(w: World, i: nat)
    requires DuesKept(w) && Enabled(w, Fire(i))
    ensures DuesKept(Next(w, Fire(i)))
  {
    PendingAfterFire(w, i);
  }

  lemma OthersKeepDues(w: World, l: Label)
    requires DuesKept(w) && Enabled(w, l) && !l.Release? && !l.Fire?
    ensures DuesKept(Next(w, l))
  {
    var w' := Next(w, l);
    assert w'.timers == w.timers && w'.armed == w.armed && w'.lastArmed == w.lastArmed;
    assert w'.releasedAt == w.releasedAt && w'.now >= w.now;
  }

  lemma {:induction false} RunKeepsDues(ws: seq<World>, ls: seq<Label>, n: nat)
    requires IsRun(ws, ls) && n < |ws|
    ensures DuesKept(ws[n])
  {
    if n > 0 {
      var w, l := ws[n - 1], ls[n - 1];
      RunKeepsDues(ws, ls, n - 1);
      RunKeepsInv(ws, ls, n - 1);
      match l {
        case Release(t) => ReleaseKeepsDues(w, t);
        case Fire(i) => FireKeepsDues(w, i);
        case _ => OthersKeepDues(w, l);
      }
    }
  }

  lemma PendingAfterFire(w: World, i: nat)
    requires Enabled(w, Fire(i))
    ensures forall t :: t in Next(w, Fire(i)).timers ==> t in w.timers
  {
    var w' := Next(w, Fire(i));
    assert forall j :: 0 <= j < |w'.timers| ==> w'.timers[j] == w.timers[if j < i then j else j + 1];
  }

  /** A release counts down, and the last one arms a timer with the next generation for the grace. */
  lemma ReleaseOutcome(w: World, t: TabId)
    requires CountsExact(w) && WithinLimits(w) && Enabled(w, Release(t))
    ensures var k, w' := w.tabs[t].key, Next(w, Release(t));
            && k in w.pool.entries && w'.now == w.now
            && var idle := w.pool.entries[k].idle;
               && idle.refcount > 0 && w'.pool.entries.Keys == w.pool.entries.Keys
               && (forall q :: q in w.pool.entries && q != k ==> w'.pool.entries[q] == w.pool.entries[q])
               && (idle.refcount > 1 ==>
                     w'.pool.entries[k].idle == Ledger(idle.refcount - 1, idle.generation)
                     && w'.timers == w.timers && w'.armed == w.armed && w'.lastArmed == w.lastArmed
                     && w'.releasedAt == w.releasedAt)
               && (idle.refcount == 1 ==>
                     w'.pool.entries[k].idle == Ledger(0, idle.generation + 1)
                     && w'.timers == w.timers + [Timer(k, idle.generation + 1, w.armed, w.now + GRACE)]
                     && w'.armed == w.armed + 1 && w'.lastArmed == w.lastArmed[k := w.armed]
                     && w'.releasedAt == w.releasedAt[k := w.now])
  {
    HolderCounts(w.tabs, t);
  }

  /** Nothing leaks: an idle entry always has a timer that removes it after at most the grace. */
  lemma IdleEntryWillBeCollected(ws: seq<World>, ls: seq<Label>, n: nat, key: Key) returns (timer: nat)
    requires IsRun(ws, ls) && n < |ws|
    requires key in ws[n].pool.entries && Holders(ws[n].tabs, key) == {}
    ensures timer < |ws[n].timers|
    ensures var w := Next(ws[n], Elapse(GRACE)); Enabled(w, Fire(timer)) && Removes(w, Fire(timer), key)
  {
    RunKeepsInv(ws, ls, n);
    RunKeepsDues(ws, ls, n);
    var g := ws[n].pool.entries[key].idle.generation;
    assert HasTimer(ws[n].timers, key, g);
    timer :| 0 <= timer < |ws[n].timers| && ws[n].timers[timer].key == key && ws[n].timers[timer].generation == g;
    assert ws[n].timers[timer] in ws[n].timers;
  }

  /** When all tabs are done and all timers have fired, in any order, the pool is empty. */
  lemma QuiescentPoolIsEmpty(ws: seq<World>, ls: seq<Label>, n: nat)
    requires IsRun(ws, ls) && n < |ws|
    requires ws[n].tabs == map[] && ws[n].timers == []
    ensures ws[n].pool.entries == map[]
  {
    if key :| key in ws[n].pool.entries {
      var timer := IdleEntryWillBeCollected(ws, ls, n, key);
      assert false;
    }
  }

  // ---- One establisher per attempt ----

  /**
   An entry is connecting exactly when precisely one tab is its unpublished establisher; and a
   publication finds the publisher's own entry, still connecting on the publisher's own channel,
   with no verdict sent before.
   */
  lemma ConnectingIffOneEstablisher(ws: seq<World>, ls: seq<Label>, n: nat, key: Key)
    requires IsRun(ws, ls) && n < |ws|
    ensures (key in ws[n].pool.entries && ws[n].pool.entries[key].state.Connecting?) <==>
            (exists t :: t in ws[n].tabs && ws[n].tabs[t].Establishing? && ws[n].tabs[t].key == key)
    ensures forall t, t' ::
              && t in ws[n].tabs && ws[n].tabs[t].Establishing? && ws[n].tabs[t].key == key
              && t' in ws[n].tabs && ws[n].tabs[t'].Establishing? && ws[n].tabs[t'].key == key
              ==> t == t'
    ensures n < |ls| && ls[n].Publish? && ws[n].tabs[ls[n].tab].key == key ==>
              var c := ws[n].tabs[ls[n].tab].chan;
              && key in ws[n].pool.entries
              && ws[n].pool.entries[key].state == Connecting(c)
              && c < |ws[n].pool.slots| && ws[n].pool.slots[c] == None
              && |ws[n + 1].pool.slots| == |ws[n].pool.slots| && ws[n + 1].pool.slots[c].Some?
              && (forall d :: 0 <= d < |ws[n].pool.slots| && d != c ==> ws[n + 1].pool.slots[d] == ws[n].pool.slots[d])
              && (forall k :: k != key && k in ws[n].pool.entries ==>
                    k in ws[n + 1].pool.entries && ws[n + 1].pool.entries[k] == ws[n].pool.entries[k])
  {
    RunKeepsInv(ws, ls, n);
    OneEstablisher(ws[n], key);
    if n < |ls| && ls[n].Publish? {
      PublicationTouchesItsOwn(ws[n], ls[n]);
    }
  }

  lemma OneEstablisher(w: World, key: Key)
    requires EstablishersOwn(w)
    ensures (key in w.pool.entries && w.pool.entries[key].state.Connecting?) <==>
            (exists t :: t in w.tabs && w.tabs[t].Establishing? && w.tabs[t].key == key)
    ensures forall t, t' ::
              && t in w.tabs && w.tabs[t].Establishing? && w.tabs[t].key == key
              && t' in w.tabs && w.tabs[t'].Establishing? && w.tabs[t'].key == key
              ==> t == t'
  {
    if key in w.pool.entries && w.pool.entries[key].state.Connecting? {
      var e :| IsEstablisherOf(w, e, key, w.pool.entries[key].state.chan);
    }
  }

  lemma PublicationTouchesItsOwn(w: World, l: Label)
    requires EstablishersOwn(w) && Enabled(w, l) && l.Publish?
    ensures var key, c, p := w.tabs[l.tab].key, w.tabs[l.tab].chan, Next(w, l).pool;
            && key in w.pool.entries && w.pool.entries[key].state == Connecting(c)
            && c < |w.pool.slots| && w.pool.slots[c] == None && |p.slots| == |w.pool.slots| && p.slots[c].Some?
            && (forall d :: 0 <= d < |w.pool.slots| && d != c ==> p.slots[d] == w.pool.slots[d])
            && (forall k :: k != key && k in w.pool.entries ==> k in p.entries && p.entries[k] == w.pool.entries[k])
  {
  }

  // ---- Timers that fire in order ----

  /** The fired timer is the oldest pending one of its key. */
  ghost predicate FiresInOrder(w: World, l: Label) {
    l.Fire? && l.index < |w.timers| ==>
      forall j :: 0 <= j < l.index ==> w.timers[j].key != w.timers[l.index].key
  }

  /** Pending timers belong to the present entry of their key and get younger along the queue. */
  ghost predicate TimersOrdered(w: World) {
    && (forall i :: 0 <= i < |w.timers| ==>
          var k := w.timers[i].key;
          && k in w.pool.entries && k in w.lastArmed
          && w.timers[i].generation <= w.pool.entries[k].idle.generation
          && (w.pool.entries[k].idle.refcount == 0 && w.timers[i].generation == w.pool.entries[k].idle.generation ==>
                w.timers[i].serial == w.lastArmed[k]))
    && (forall i, j :: 0 <= i < j < |w.timers| && w.timers[i].key == w.timers[j].key ==>
          w.timers[i].generation < w.timers[j].generation)
  }

  lemma FireKeepsTimersOrdered(w: World, i: nat)
    requires TimersOrdered(w) && Enabled(w, Fire(i)) && FiresInOrder(w, Fire(i))
    ensures TimersOrdered(Next(w, Fire(i)))
    ensures forall k :: Removes(w, Fire(i), k) ==>
              && k in w.lastArmed && w.timers[i].serial == w.lastArmed[k]
              && forall j :: 0 <= j < |w.timers| && j != i ==> w.timers[j].key != k
  {
    var w' := Next(w, Fire(i));
    assert forall j :: 0 <= j < |w'.timers| ==> w'.timers[j] == w.timers[if j < i then j else j + 1];
    assert forall k :: k in w'.pool.entries ==> k in w.pool.entries && w'.pool.entries[k] == w.pool.entries[k];
  }

  lemma AttachKeepsTimersOrdered(w: World, t: TabId, k: Key)
    requires TimersOrdered(w) && WithinLimits(w) && Enabled(w, Attach(t, k))
    ensures TimersOrdered(Next(w, Attach(t, k)))
  {
  }

  lemma ReleaseKeepsTimersOrdered(w: World, t: TabId)
    requires CountsExact(w) && WithinLimits(w) && TimersOrdered(w) && Enabled(w, Release(t))
    ensures TimersOrdered(Next(w, Release(t)))
  {
    HolderCounts(w.tabs, t);
    var w' := Next(w, Release(t));
    assert forall i :: 0 <= i < |w.timers| ==> w'.timers[i] == w.timers[i];
  }

  lemma StepKeepsTimersOrdered(w: World, l: Label)
    requires Inv(w) && WithinLimits(w) && TimersOrdered(w) && Enabled(w, l) && FiresInOrder(w, l)
    ensures TimersOrdered(Next(w, l))
  {
    match l {
      case Fire(i) => FireKeepsTimersOrdered(w, i);
      case Release(t) => ReleaseKeepsTimersOrdered(w, t);
      case Attach(t, k) => AttachKeepsTimersOrdered(w, t, k);
      case _ => OthersKeepTimersOrdered(w, l);
    }
  }

  lemma OthersKeepTimersOrdered(w: World, l: Label)
    requires TimersOrdered(w) && Enabled(w, l) && !l.Fire? && !l.Release? && !l.Attach?
    ensures TimersOrdered(Next(w, l))
  {
    var w' := Next(w, l);
    assert w'.timers == w.timers && w'.lastArmed == w.lastArmed;
    assert forall k :: k in w.pool.entries ==>
                         k in w'.pool.entries && w'.pool.entries[k].idle == w.pool.entries[k].idle;
  }

  lemma {:induction false} OrderedRunKeepsTimersOrdered(ws: seq<World>, ls: seq<Label>, n: nat)
    requires IsRun(ws, ls) && n < |ws|
    requires forall i :: 0 <= i < |ls| ==> FiresInOrder(ws[i], ls[i])
    ensures TimersOrdered(ws[n])
  {
    if n > 0 {
      OrderedRunKeepsTimersOrdered(ws, ls, n - 1);
      RunKeepsInv(ws, ls, n - 1);
      StepKeepsTimersOrdered(ws[n - 1], ls[n - 1]);
    }
  }

  /**
   If the timers of each key fire in the order in which they were armed, an entry is only ever
   removed by the timer armed at its own latest release-to-zero, and no other timer of that key is
   then pending: no stale timer survives into a later entry of the same key.
   */
  lemma OrderedTimersNeverHitALaterEntry(ws: seq<World>, ls: seq<Label>, i: nat, key: Key)
    requires IsRun(ws, ls) && i < |ls| && (forall j :: 0 <= j < |ls| ==> FiresInOrder(ws[j], ls[j]))
    requires Removes(ws[i], ls[i], key)
    ensures ls[i].Fire? && key in ws[i].lastArmed && ws[i].timers[ls[i].index].serial == ws[i].lastArmed[key]
    ensures var pending := ws[i + 1].timers; forall j :: 0 <= j < |pending| ==> pending[j].key != key
  {
    HeldEntriesAreNeverRemoved(ws, ls, i);
    OrderedRunKeepsTimersOrdered(ws, ls, i);
    FireKeepsTimersOrdered(ws[i], ls[i].index);
  }

  // ---- Where a waiter's verdict comes from ----

  function VerdictOf(w: World, outcome: Outcome): Verdict {
    match outcome
    case Succeeds => Established(w.pool.nextValue)
    case Fails(message) => Failed(message)
  }

  /** In step `h` tab `t` attached to `key` and became the establisher that created `chan`. */
  ghost predicate Creates(ws: seq<World>, ls: seq<Label>, h: nat, t: TabId, key: Key, chan: Chan)
    requires IsRun(ws, ls)
  {
    h < |ls| && ls[h] == Attach(t, key) && chan == |ws[h].pool.slots| && IsEstablisherOf(ws[h + 1], t, key, chan)
  }

  /** In step `j` tab `t`, still the establisher of `chan`, publishes `verdict`. */
  ghost predicate Publishes(ws: seq<World>, ls: seq<Label>, j: nat, t: TabId, key: Key, chan: Chan, verdict: Verdict)
    requires IsRun(ws, ls)
  {
    && j < |ls| && ls[j].Publish? && ls[j].tab == t
    && IsEstablisherOf(ws[j], t, key, chan) && verdict == VerdictOf(ws[j], ls[j].outcome)
  }

  lemma EstablisherStep(w: World, l: Label, t: TabId, key: Key, chan: Chan)
    requires Enabled(w, l) && IsEstablisherOf(Next(w, l), t, key, chan)
    ensures IsEstablisherOf(w, t, key, chan) || (l == Attach(t, key) && chan == |w.pool.slots|)
  {
  }

  lemma WaiterStep(w: World, l: Label, t: TabId, key: Key, chan: Chan)
    requires Enabled(w, l) && t in Next(w, l).tabs && Next(w, l).tabs[t] == Waiting(key, chan)
    ensures (t in w.tabs && w.tabs[t] == Waiting(key, chan))
            || (l == Attach(t, key) && key in w.pool.entries && w.pool.entries[key].state == Connecting(chan))
  {
  }

  lemma SlotStep(w: World, l: Label, chan: Chan)
    requires Inv(w) && Enabled(w, l)
    ensures |w.pool.slots| <= |Next(w, l).pool.slots|
    ensures l.Attach? && IsEstablisherOf(Next(w, l), l.tab, l.key, |w.pool.slots|) ==>
            |w.pool.slots| < |Next(w, l).pool.slots|
    ensures chan < |w.pool.slots| && w.pool.slots[chan].Some? ==> Next(w, l).pool.slots[chan] == w.pool.slots[chan]
    ensures chan < |Next(w, l).pool.slots| && Next(w, l).pool.slots[chan].Some?
            && !(chan < |w.pool.slots| && w.pool.slots[chan].Some?) ==>
              && l.Publish?
              && IsEstablisherOf(w, l.tab, w.tabs[l.tab].key, chan)
              && Next(w, l).pool.slots[chan] == Some(VerdictOf(w, l.outcome))
  {
    if l.Publish? {
      var c := w.tabs[l.tab].chan;
      assert Next(w, l).pool.slots == w.pool.slots[c := Some(VerdictOf(w, l.outcome))];
    }
  }

  /** `SlotStep` at step `i` of a run. */
  lemma SlotStepAt(ws: seq<World>, ls: seq<Label>, i: nat, chan: Chan)
    requires IsRun(ws, ls) && i < |ls|
    ensures |ws[i].pool.slots| <= |ws[i + 1].pool.slots|
    ensures ls[i].Attach? && IsEstablisherOf(ws[i + 1], ls[i].tab, ls[i].key, |ws[i].pool.slots|) ==>
              |ws[i].pool.slots| < |ws[i + 1].pool.slots|
    ensures chan < |ws[i].pool.slots| && ws[i].pool.slots[chan].Some? ==>
            ws[i + 1].pool.slots[chan] == ws[i].pool.slots[chan]
    ensures chan < |ws[i + 1].pool.slots| && ws[i + 1].pool.slots[chan].Some?
            && !(chan < |ws[i].pool.slots| && ws[i].pool.slots[chan].Some?) ==>
              && ls[i].Publish? && ls[i].tab in ws[i].tabs
              && Publishes(ws, ls, i, ls[i].tab, ws[i].tabs[ls[i].tab].key, chan, ws[i + 1].pool.slots[chan].value)
  {
    RunKeepsInv(ws, ls, i);
    SlotStep(ws[i], ls[i], chan);
  }

  lemma {:induction false} EstablisherWasCreated(ws: seq<World>, ls: seq<Label>, n: nat, t: TabId, key: Key, chan: Chan)
    returns (h: nat)
    requires IsRun(ws, ls) && n < |ws| && IsEstablisherOf(ws[n], t, key, chan)
    ensures h < n && Creates(ws, ls, h, t, key, chan)
  {
    EstablisherStep(ws[n - 1], ls[n - 1], t, key, chan);
    if IsEstablisherOf(ws[n - 1], t, key, chan) {
      h := EstablisherWasCreated(ws, ls, n - 1, t, key, chan);
    } else {
      h := n - 1;
    }
  }

  lemma {:induction false} WaiterSubscribed(ws: seq<World>, ls: seq<Label>, n: nat, t: TabId, key: Key, chan: Chan)
    returns (m: nat)
    requires IsRun(ws, ls) && n < |ws| && t in ws[n].tabs && ws[n].tabs[t] == Waiting(key, chan)
    ensures m < n && ls[m] == Attach(t, key)
    ensures key in ws[m].pool.entries && ws[m].pool.entries[key].state == Connecting(chan)
  {
    WaiterStep(ws[n - 1], ls[n - 1], t, key, chan);
    if t in ws[n - 1].tabs && ws[n - 1].tabs[t] == Waiting(key, chan) {
      m := WaiterSubscribed(ws, ls, n - 1, t, key, chan);
    } else {
      m := n - 1;
    }
  }

  lemma {:induction false} VerdictWasPublished(ws: seq<World>, ls: seq<Label>, n: nat, chan: Chan)
    returns (j: nat, t: TabId, key: Key)
    requires IsRun(ws, ls) && n < |ws| && chan < |ws[n].pool.slots| && ws[n].pool.slots[chan].Some?
    ensures j < n && Publishes(ws, ls, j, t, key, chan, ws[n].pool.slots[chan].value)
  {
    var i: nat := n - 1;
    SlotStepAt(ws, ls, i, chan);
    if chan < |ws[i].pool.slots| && ws[i].pool.slots[chan].Some? {
      j, t, key := VerdictWasPublished(ws, ls, i, chan);
    } else {
      j, t, key := i, ls[i].tab, ws[i].tabs[ls[i].tab].key;
    }
  }

  lemma {:induction false} ChannelsAccumulate(ws: seq<World>, ls: seq<Label>, m: nat, n: nat, chan: Chan)
    requires IsRun(ws, ls) && m <= n < |ws|
    ensures |ws[m].pool.slots| <= |ws[n].pool.slots|
    ensures chan < |ws[m].pool.slots| && ws[m].pool.slots[chan].Some? ==>
            ws[n].pool.slots[chan] == ws[m].pool.slots[chan]
    decreases n - m
  {
    if m < n {
      ChannelsAccumulate(ws, ls, m, n - 1, chan);
      SlotStepAt(ws, ls, n - 1, chan);
    }
  }

  /** A channel is created by one attach only. */
  lemma CreationIsUnique(ws: seq<World>, ls: seq<Label>, h: nat, t: TabId, key: Key, h': nat, t': TabId, key': Key,
                         chan: Chan)
    requires IsRun(ws, ls) && Creates(ws, ls, h, t, key, chan) && Creates(ws, ls, h', t', key', chan)
    ensures h == h' && t == t' && key == key'
  {
    if h != h' {
      var a, b := if h < h' then h else h', if h < h' then h' else h;
      SlotStepAt(ws, ls, a, 0);
      ChannelsAccumulate(ws, ls, a + 1, b, chan);
      assert false;
    }
  }

  /**
   A waiter that wakes up always finds a verdict.  That verdict is the one published by the tab
   whose attach created the channel the waiter subscribed to, for the waiter's own key, however the
   entry was marked dead, re-established or removed in between.  If the attempt succeeded the waiter
   uses the very value that was published, and if it failed the waiter only releases.
   */
  lemma WaiterGetsItsEstablishersVerdict(ws: seq<World>, ls: seq<Label>, i: nat)
    returns (h: nat, j: nat, establisher: TabId)
    requires IsRun(ws, ls) && i < |ls| && ls[i].Observe?
    ensures var waiter := ws[i].tabs[ls[i].tab];
            && ws[i].pool.slots[waiter.chan].Some?
            && h < j < i
            && Creates(ws, ls, h, establisher, waiter.key, waiter.chan)
            && Publishes(ws, ls, j, establisher, waiter.key, waiter.chan, ws[i].pool.slots[waiter.chan].value)
            && (ls[j].outcome == Succeeds ==> ws[i + 1].tabs[ls[i].tab] == Using(waiter.key, ws[j].pool.nextValue))
            && (ls[j].outcome.Fails? ==> ws[i + 1].tabs[ls[i].tab] == Releasing(waiter.key))
  {
    RunKeepsInv(ws, ls, i);
    var waiter := ws[i].tabs[ls[i].tab];
    var c := waiter.chan;
    assert ws[i].pool.slots[c].Some? by {
      if ws[i].pool.slots[c] == None {
        assert ws[i].pool.entries[waiter.key].state == Connecting(c);
        assert SenderAlive(ws[i].pool, c);
      }
    }
    var key;
    j, establisher, key := VerdictWasPublished(ws, ls, i, c);
    h := EstablisherWasCreated(ws, ls, j, establisher, key, c);
    var m := WaiterSubscribed(ws, ls, i, ls[i].tab, waiter.key, c);
    RunKeepsInv(ws, ls, m);
    var e :| IsEstablisherOf(ws[m], e, waiter.key, c);
    var h' := EstablisherWasCreated(ws, ls, m, e, waiter.key, c);
    CreationIsUnique(ws, ls, h, establisher, key, h', e, waiter.key, c);
  }

  /** All waiters on a channel agree. */
  lemma WaitersAgree(ws: seq<World>, ls: seq<Label>, i: nat, i': nat)
    requires IsRun(ws, ls) && i <= i' < |ls| && ls[i].Observe? && ls[i'].Observe?
    requires ws[i].tabs[ls[i].tab].chan == ws[i'].tabs[ls[i'].tab].chan
    ensures var c := ws[i].tabs[ls[i].tab].chan;
            ws[i].pool.slots[c].Some? && ws[i'].pool.slots[c] == ws[i].pool.slots[c]
  {
    var h, j, e := WaiterGetsItsEstablishersVerdict(ws, ls, i);
    ChannelsAccumulate(ws, ls, i, i', ws[i].tabs[ls[i].tab].chan);
  }

  // ---- What a ready attachment returns ----

  /** Step `m` publishes an outcome for `key`. */
  ghost predicate PublishesFor(ws: seq<World>, ls: seq<Label>, m: nat, key: Key)
    requires IsRun(ws, ls)
  {
    m < |ls| && ls[m].Publish? && ws[m].tabs[ls[m].tab].key == key
  }

  /** Step `m` reports that the first channel over `value` could not be opened. */
  ghost predicate MarksDead(ws: seq<World>, ls: seq<Label>, m: nat, key: Key, value: Value)
    requires IsRun(ws, ls)
  {
    m < |ls| && ls[m].Finish? && ls[m].openFailed && ws[m].tabs[ls[m].tab] == Using(key, value)
  }

  lemma ReadyStep(w: World, l: Label, key: Key, value: Value)
    requires Inv(w) && Enabled(w, l)
    requires key in Next(w, l).pool.entries && Next(w, l).pool.entries[key].state == Ready(value)
    ensures l.Publish? && w.tabs[l.tab].key == key ==> l.outcome == Succeeds && value == w.pool.nextValue
    ensures !(l.Publish? && w.tabs[l.tab].key == key) ==>
            key in w.pool.entries && w.pool.entries[key].state == Ready(value)
    ensures !(l.Finish? && l.openFailed && w.tabs[l.tab] == Using(key, value))
  {
    if l.Publish? {
      PublicationTouchesItsOwn(w, l);
    } else {
      ReadyWasReady(w, l, key, value);
    }
  }

  lemma ReadyWasReady(w: World, l: Label, key: Key, value: Value)
    requires Enabled(w, l) && !l.Publish?
    requires key in Next(w, l).pool.entries && Next(w, l).pool.entries[key].state == Ready(value)
    ensures key in w.pool.entries && w.pool.entries[key].state == Ready(value)
    ensures !(l.Finish? && l.openFailed && w.tabs[l.tab] == Using(key, value))
  {
  }

  /** `ReadyStep` at step `i` of a run. */
  lemma ReadyStepAt(ws: seq<World>, ls: seq<Label>, i: nat, key: Key, value: Value)
    requires IsRun(ws, ls) && i < |ls|
    requires key in ws[i + 1].pool.entries && ws[i + 1].pool.entries[key].state == Ready(value)
    ensures PublishesFor(ws, ls, i, key) ==> ls[i].outcome == Succeeds && value == ws[i].pool.nextValue
    ensures !PublishesFor(ws, ls, i, key) ==> key in ws[i].pool.entries && ws[i].pool.entries[key].state == Ready(value)
    ensures !MarksDead(ws, ls, i, key, value)
  {
    RunKeepsInv(ws, ls, i);
    ReadyStep(ws[i], ls[i], key, value);
  }

  lemma {:induction false} ReadyValueIsTheLatest(ws: seq<World>, ls: seq<Label>, n: nat, key: Key) returns (j: nat)
    requires IsRun(ws, ls) && n < |ws|
    requires key in ws[n].pool.entries && ws[n].pool.entries[key].state.Ready?
    ensures j < n && PublishesFor(ws, ls, j, key) && ls[j].outcome == Succeeds
    ensures ws[n].pool.entries[key].state.value == ws[j].pool.nextValue
    ensures forall m :: j < m < n ==>
              !PublishesFor(ws, ls, m, key) && !MarksDead(ws, ls, m, key, ws[n].pool.entries[key].state.value)
  {
    var value := ws[n].pool.entries[key].state.value;
    ReadyStepAt(ws, ls, n - 1, key, value);
    if PublishesFor(ws, ls, n - 1, key) {
      j := n - 1;
    } else {
      j := ReadyValueIsTheLatest(ws, ls, n - 1, key);
    }
  }

  /**
   A tab that attaches to a ready entry receives the value published by the most recent publication
   for that key; it is alive at that moment and nobody reported it dead since it was published.
   */
  lemma ReadyAttachReturnsTheLatestLiveValue(ws: seq<World>, ls: seq<Label>, i: nat) returns (j: nat)
    requires IsRun(ws, ls) && i < |ls| && ls[i].Attach? && ws[i + 1].tabs[ls[i].tab].Using?
    ensures var value := ws[i + 1].tabs[ls[i].tab].value;
            && value in ws[i].alive
            && j < i && PublishesFor(ws, ls, j, ls[i].key) && ls[j].outcome == Succeeds && value == ws[j].pool.nextValue
            && (forall m :: j < m < i ==>
                 !PublishesFor(ws, ls, m, ls[i].key) && !MarksDead(ws, ls, m, ls[i].key, value))
  {
    j := ReadyValueIsTheLatest(ws, ls, i, ls[i].key);
  }

  // ---- What each client does ----

  /**
   A tab that attaches uses the live ready value, waits on the channel of the attempt under way, or
   makes an attempt of its own on a new channel, exactly as the entry of the key tells.
   */
  lemma AttachFollowsTheEntry(w: World, t: TabId, key: Key)
    requires Enabled(w, Attach(t, key))
    ensures var tab := Next(w, Attach(t, key)).tabs[t];
            && (forall v :: tab == Using(key, v) <==> IsReady(w, key, v) && v in w.alive)
            && (forall c :: tab == Waiting(key, c) <==>
                  key in w.pool.entries && w.pool.entries[key].state == Connecting(c))
            && (tab == Establishing(key, |w.pool.slots|) <==>
                  key !in w.pool.entries || w.pool.entries[key].state == Dead
                  || (w.pool.entries[key].state.Ready? && w.pool.entries[key].state.value !in w.alive))
  {
  }

  /** The tab that publishes uses what its waiters get, and a tab with nothing to use only releases. */
  lemma PublisherSharesItsValue(ws: seq<World>, ls: seq<Label>, j: nat)
    requires IsRun(ws, ls) && j < |ls| && ls[j].Publish?
    ensures var tab := ws[j].tabs[ls[j].tab];
            if ls[j].outcome.Fails?
            then ws[j + 1].tabs[ls[j].tab] == Releasing(tab.key)
            else && ws[j + 1].tabs[ls[j].tab] == Using(tab.key, ws[j].pool.nextValue)
                 && IsReady(ws[j + 1], tab.key, ws[j].pool.nextValue) && ws[j].pool.nextValue in ws[j + 1].alive
                 && tab.chan < |ws[j + 1].pool.slots|
                 && ws[j + 1].pool.slots[tab.chan] == Some(Established(ws[j].pool.nextValue))
  {
    RunKeepsInv(ws, ls, j);
  }

  // ---- How long a ready value stays ----

  ghost predicate IsReady(w: World, key: Key, value: Value) {
    key in w.pool.entries && w.pool.entries[key].state == Ready(value)
  }

  /**
   The step reports that very value dead, attaches to the key while the value is not alive, or fires
   a timer with the current generation of the entry that nobody holds.
   */
  ghost predicate EndsReady(w: World, l: Label, key: Key, value: Value)
    requires Enabled(w, l)
  {
    || (l.Finish? && l.openFailed && w.tabs[l.tab] == Using(key, value))
    || (l.Attach? && l.key == key && value !in w.alive)
    || (l.Fire? && key in w.pool.entries && Holders(w.tabs, key) == {}
        && w.timers[l.index].key == key && w.timers[l.index].generation == w.pool.entries[key].idle.generation)
  }

  lemma PublishNeedsConnecting(w: World, l: Label, key: Key, value: Value)
    requires Inv(w) && Enabled(w, l) && IsReady(w, key, value) && l.Publish?
    ensures w.tabs[l.tab].key != key && IsReady(Next(w, l), key, value)
  {
  }

  lemma FireEndsReady(w: World, i: nat, key: Key, value: Value)
    requires CountsExact(w) && Enabled(w, Fire(i)) && IsReady(w, key, value)
    ensures !IsReady(Next(w, Fire(i)), key, value) <==> EndsReady(w, Fire(i), key, value)
  {
  }

  lemma ReadyEndsStep(w: World, l: Label, key: Key, value: Value)
    requires Inv(w) && Enabled(w, l) && IsReady(w, key, value)
    ensures !IsReady(Next(w, l), key, value) <==> EndsReady(w, l, key, value)
  {
    match l {
      case Publish(_, _) => PublishNeedsConnecting(w, l, key, value);
      case Fire(i) => FireEndsReady(w, i, key, value);
      case _ =>
    }
  }

  lemma ValuesGrow(w: World, l: Label)
    requires Enabled(w, l)
    ensures w.pool.nextValue <= Next(w, l).pool.nextValue
  {
  }

  /** A value that stopped being ready does not become ready again. */
  lemma GoneStep(w: World, l: Label, key: Key, value: Value)
    requires Inv(w) && Enabled(w, l) && value < w.pool.nextValue && !IsReady(w, key, value)
    ensures !IsReady(Next(w, l), key, value)
  {
    if IsReady(Next(w, l), key, value) {
      ReadyStep(w, l, key, value);
      assert false;
    }
  }

  lemma {:induction false} ValuesGrowInRun(ws: seq<World>, ls: seq<Label>, i: nat, n: nat)
    requires IsRun(ws, ls) && i <= n < |ws|
    ensures ws[i].pool.nextValue <= ws[n].pool.nextValue
    decreases n
  {
    if i < n {
      ValuesGrowInRun(ws, ls, i, n - 1);
      ValuesGrow(ws[n - 1], ls[n - 1]);
    }
  }

  /** Both steps, at step `m` of a run in which the value was ready before. */
  lemma {:induction false} ReadyFactsAt(ws: seq<World>, ls: seq<Label>, i: nat, m: nat, key: Key, value: Value)
    requires IsRun(ws, ls) && i <= m < |ls| && IsReady(ws[i], key, value)
    ensures IsReady(ws[m + 1], key, value) <==> IsReady(ws[m], key, value) && !EndsReady(ws[m], ls[m], key, value)
  {
    RunKeepsInv(ws, ls, i);
    RunKeepsInv(ws, ls, m);
    ValuesGrowInRun(ws, ls, i, m);
    if IsReady(ws[m], key, value) {
      ReadyEndsStep(ws[m], ls[m], key, value);
    } else {
      GoneStep(ws[m], ls[m], key, value);
    }
  }

  /** Something that holds from `i` on until it is ended, and never comes back. */
  lemma {:induction false} HoldsUntilEnded(holds: seq<bool>, ends: seq<bool>, i: nat, n: nat)
    requires i <= n < |holds| && |ends| + 1 == |holds| && holds[i]
    requires forall m :: i <= m < n ==> holds[m + 1] == (holds[m] && !ends[m])
    ensures !holds[n] <==> exists m: nat :: i <= m < n && ends[m]
    decreases n
  {
    if i < n {
      HoldsUntilEnded(holds, ends, i, n - 1);
      if m: nat :| i <= m < n && ends[m] && m != n - 1 {
        assert i <= m < n - 1 && ends[m];
      }
    }
  }

  /**
   Across any run a ready value stays ready until a step ends it in one of the three ways of
   `EndsReady`, and is gone for good afterwards.  In particular neither a report about another
   value nor a publication disturbs it.
   */
  lemma {:induction false} ReadyEndsIff(ws: seq<World>, ls: seq<Label>, i: nat, n: nat, key: Key, value: Value)
    requires IsRun(ws, ls) && i <= n < |ws| && IsReady(ws[i], key, value)
    ensures !IsReady(ws[n], key, value) <==> exists m: nat :: i <= m < n && EndsReady(ws[m], ls[m], key, value)
  {
    ghost var holds := seq(|ws|, m requires 0 <= m < |ws| => IsReady(ws[m], key, value));
    ghost var ends := seq(|ls|, m requires 0 <= m < |ls| && IsRun(ws, ls) => EndsReady(ws[m], ls[m], key, value));
    forall m: nat | i <= m < n ensures holds[m + 1] == (holds[m] && !ends[m]) {
      ReadyFactsAt(ws, ls, i, m, key, value);
    }
    HoldsUntilEnded(holds, ends, i, n);
    assert forall m: nat :: i <= m < n ==> ends[m] == EndsReady(ws[m], ls[m], key, value);
  }

  // ---- Without ordering: the documented ABA case ----

  /** One step of a concrete run. */
  lemma Extend(ws: seq<World>, ls: seq<Label>, l: Label) returns (ws': seq<World>, ls': seq<Label>)
    requires IsRun(ws, ls) && WithinLimits(ws[|ls|]) && Enabled(ws[|ls|], l)
    ensures ls' == ls + [l] && ws' == ws + [Next(ws[|ls|], l)] && IsRun(ws', ls')
  {
    ls', ws' := ls + [l], ws + [Next(ws[|ls|], l)];
  }

  /** Nobody holds anything, and the pool has one live, ready entry. */
  ghost predicate IdleWith(w: World, key: Key, value: Value, generation: nat) {
    && w.tabs == map[] && value in w.alive
    && w.pool.entries == map[key := Entry(Ready(value), Ledger(0, generation))]
  }

  /** A tab creates the entry, uses it and releases it. */
  lemma VisitNew(ws: seq<World>, ls: seq<Label>, key: Key) returns (ws': seq<World>, ls': seq<Label>)
    requires IsRun(ws, ls) && ws[|ls|].tabs == map[] && ws[|ls|].pool.entries == map[]
    ensures IsRun(ws', ls')
    ensures var w, w' := ws[|ls|], ws'[|ls'|];
            && IdleWith(w', key, w.pool.nextValue, 1)
            && w'.timers == w.timers + [Timer(key, 1, w.armed, w.now + GRACE)] && w'.armed == w.armed + 1
            && w'.lastArmed == w.lastArmed[key := w.armed] && w'.releasedAt == w.releasedAt[key := w.now]
            && w'.now == w.now
  {
    ws', ls' := Extend(ws, ls, Attach(0, key));
    ws', ls' := Extend(ws', ls', Publish(0, Succeeds));
    ws', ls' := Extend(ws', ls', Finish(0, false));
    ws', ls' := Extend(ws', ls', Release(0));
  }

  /** A tab attaches to the idle entry, uses it and releases it. */
  lemma VisitIdle(ws: seq<World>, ls: seq<Label>, key: Key, value: Value, generation: nat)
    returns (ws': seq<World>, ls': seq<Label>)
    requires IsRun(ws, ls) && generation < 100
    requires IdleWith(ws[|ls|], key, value, generation)
    ensures IsRun(ws', ls')
    ensures var w, w' := ws[|ls|], ws'[|ls'|];
            && IdleWith(w', key, value, generation + 2)
            && w'.timers == w.timers + [Timer(key, generation + 2, w.armed, w.now + GRACE)] && w'.armed == w.armed + 1
            && w'.lastArmed == w.lastArmed[key := w.armed] && w'.releasedAt == w.releasedAt[key := w.now]
            && w'.now == w.now
  {
    ws', ls' := Extend(ws, ls, Attach(0, key));
    ws', ls' := Extend(ws', ls', Finish(0, false));
    ws', ls' := Extend(ws', ls', Release(0));
  }

  /**
   The ordering of timers is needed.  When a younger timer overtakes an older one, the older one
   survives into the next entry of the key, whose generations start at zero again, and removes it at
   the very moment of its release, although that entry's own timer (armed later) is still pending.
   */
  lemma OvertakingTimerHitsALaterEntry(key: Key) returns (ws: seq<World>, ls: seq<Label>)
    ensures IsRun(ws, ls)
    ensures var w := ws[|ls|];
            && |w.timers| == 2
            && Enabled(w, Fire(0)) && Removes(w, Fire(0), key)
            && key in w.lastArmed && w.timers[0].serial < w.lastArmed[key] == w.timers[1].serial
            && key in w.releasedAt && w.now == w.releasedAt[key]
  {
    ws, ls := [INITIAL], [];
    ws, ls := VisitNew(ws, ls, key);           // generation 1, timer 0
    ws, ls := VisitIdle(ws, ls, key, 0, 1);    // generation 3, timer 1
    ws, ls := Extend(ws, ls, Elapse(GRACE));
    ws, ls := Extend(ws, ls, Fire(1));         // overtakes timer 0 and removes the entry
    assert ws[|ls|].pool.entries == map[];
    ws, ls := VisitNew(ws, ls, key);           // generation 1 again, timer 2
  }
}
