/**
 Every interleaving of the tabs that share a connection pool.

 A tab is one run of a pool client: `run_russh_transport` (`rust-core/src/lib.rs:1704-1764`) or
 `acquire_pooled_handle` with the tails of `connect` / `connect_auto`
 (`rust-core/src/isekai_pipe_quic_transport.rs:122-180,724-769`).  Each label below is one critical
 section of the pool, one wake-up of a waiter, one expiry of an idle timer, or the death of a
 connection; any enabled label may come next.
 */
module PoolProtocol {
  import opened Wrappers
  import opened IdleLedgerFsm
  import opened PoolTable

  type TabId = nat

  /** Where a tab is between two of its critical sections. */
  datatype Tab =
    | Waiting(key: Key, chan: Chan)        // subscribed to another tab's attempt
    | Establishing(key: Key, chan: Chan)   // its own attach created `chan`
    | Using(key: Key, value: Value)        // running channels over `value`
    | Releasing(key: Key)                  // only the release is left

  /**
   A pending idle timer: it fires at `due` or later.  `serial` numbers all timers in the order in which
   they were armed.
   */
  datatype Timer = Timer(key: Key, generation: nat, serial: nat, due: nat)

  /**
   `tabs` holds the tabs between attach and release.  `lastArmed[k]` is the serial of the timer
   armed by the latest release that left `k` without holders, and `releasedAt[k]` the time of that
   release; both record history only.
   */
  datatype World = World(
    pool: Pool,
    tabs: map<TabId, Tab>,
    timers: seq<Timer>,
    armed: nat,
    lastArmed: map<Key, nat>,
    releasedAt: map<Key, nat>,
    alive: set<Value>,
    now: nat)

  const INITIAL := World(EMPTY_POOL, map[], [], 0, map[], map[], {}, 0)

  /** One constant grace per pool, in milliseconds. */
  const GRACE: nat := 30_000

  datatype Outcome = Succeeds | Fails(message: string)

  datatype Label =
    | Attach(tab: TabId, key: Key)
    | Publish(tab: TabId, outcome: Outcome)
    | Observe(tab: TabId)
    | Finish(tab: TabId, openFailed: bool)
    | Release(tab: TabId)
    | Fire(index: nat)
    | Die(value: Value)
    | Elapse(duration: nat)

  ghost predicate SenderAlive(p: Pool, chan: Chan) {
    exists k :: k in p.entries && p.entries[k].state == Connecting(chan)
  }

  /** A waiter wakes up when its channel holds a verdict, or when the sender is gone. */
  ghost predicate Enabled(w: World, l: Label) {
    match l
    case Attach(t, _) => t !in w.tabs
    case Publish(t, _) => t in w.tabs && w.tabs[t].Establishing?
    case Observe(t) =>
      && t in w.tabs && w.tabs[t].Waiting?
      && var c := w.tabs[t].chan;
         c < |w.pool.slots| && (w.pool.slots[c].Some? || !SenderAlive(w.pool, c))
    case Finish(t, _) => t in w.tabs && w.tabs[t].Using?
    case Release(t) => t in w.tabs && w.tabs[t].Releasing?
    case Fire(i) => i < |w.timers| && w.timers[i].due <= w.now
    case Die(v) => v in w.alive
    case Elapse(_) => true
  }

  /** A waiter whose channel ended without a verdict gives up like one that received a failure. */
  function AfterWait(key: Key, verdict: Option<Verdict>): Tab {
    if verdict.Some? && verdict.value.Established? then Using(key, verdict.value.value) else Releasing(key)
  }

  ghost function Next(w: World, l: Label): World
    requires Enabled(w, l)
  {
    match l
    case Attach(t, k) =>
      var (p, outcome) := TryAttach(w.pool, k, w.alive);
      var tab := match outcome
                 case AttachedReady(v) => Using(k, v)
                 case AttachedWaiter(c) => Waiting(k, c)
                 case AttachedEstablisher => Establishing(k, |w.pool.slots|);
      w.(pool := p, tabs := w.tabs[t := tab])
    case Publish(t, outcome) =>
      var k := w.tabs[t].key;
      (match outcome
       case Succeeds =>
         var (p, v) := PublishSuccess(w.pool, k);
         w.(pool := p, tabs := w.tabs[t := Using(k, v)], alive := w.alive + {v})
       case Fails(message) =>
         w.(pool := PublishFailure(w.pool, k, message), tabs := w.tabs[t := Releasing(k)]))
    case Observe(t) =>
      var tab := w.tabs[t];
      w.(tabs := w.tabs[t := AfterWait(tab.key, w.pool.slots[tab.chan])])
    case Finish(t, openFailed) =>
      var tab := w.tabs[t];
      w.(pool := if openFailed then MarkDeadIfSame(w.pool, tab.key, tab.value) else w.pool,
         tabs := w.tabs[t := Releasing(tab.key)])
    case Release(t) =>
      var k := w.tabs[t].key;
      var (p, arms) := ReleaseStep(w.pool, k, GRACE);
      var w' := w.(pool := p, tabs := w.tabs - {t});
      if arms == [] then w'
      else w'.(timers := w.timers + [Timer(k, arms[0].generation, w.armed, w.now + arms[0].after)],
               armed := w.armed + 1,
               lastArmed := w.lastArmed[k := w.armed],
               releasedAt := w.releasedAt[k := w.now])
    case Fire(i) =>
      w.(pool := IdleExpiredStep(w.pool, w.timers[i].key, w.timers[i].generation).0,
         timers := w.timers[..i] + w.timers[i + 1..])
    case Die(v) => w.(alive := w.alive - {v})
    case Elapse(duration) => w.(now := w.now + duration)
  }

  /** Fewer than 2^32 holders and no wrap of the 64-bit generation at the next step. */
  ghost predicate WithinLimits(w: World) {
    forall k :: k in w.pool.entries ==>
      w.pool.entries[k].idle.refcount < U32_MAX && w.pool.entries[k].idle.generation < U64_MAX
  }

  ghost predicate IsRun(ws: seq<World>, ls: seq<Label>) {
    && |ws| == |ls| + 1
    && ws[0] == INITIAL
    && (forall i :: 0 <= i < |ls| ==> WithinLimits(ws[i]) && Enabled(ws[i], ls[i]) && ws[i + 1] == Next(ws[i], ls[i]))
  }

  // ---- The invariant ----

  function Holders(tabs: map<TabId, Tab>, key: Key): set<TabId> {
    set t | t in tabs && tabs[t].key == key
  }

  /** Reference counts are exact, and every tab holds an entry that exists. */
  ghost predicate CountsExact(w: World) {
    && (forall t :: t in w.tabs ==> w.tabs[t].key in w.pool.entries)
    && (forall k :: k in w.pool.entries ==> w.pool.entries[k].idle.refcount == |Holders(w.tabs, k)|)
  }

  ghost predicate IsEstablisherOf(w: World, t: TabId, key: Key, chan: Chan) {
    t in w.tabs && w.tabs[t] == Establishing(key, chan)
  }

  /** An unpublished establisher owns its entry and its channel, alone. */
  ghost predicate EstablishersOwn(w: World) {
    && (forall t :: t in w.tabs && w.tabs[t].Establishing? ==>
          var k, c := w.tabs[t].key, w.tabs[t].chan;
          k in w.pool.entries && w.pool.entries[k].state == Connecting(c) && c < |w.pool.slots|
            && w.pool.slots[c] == None)
    && (forall t, t' :: t in w.tabs && t' in w.tabs && w.tabs[t].Establishing? && w.tabs[t'].Establishing?
                        && w.tabs[t].chan == w.tabs[t'].chan
                        ==> t == t')
    && (forall k :: k in w.pool.entries && w.pool.entries[k].state.Connecting? ==>
          exists t :: IsEstablisherOf(w, t, k, w.pool.entries[k].state.chan))
  }

  /** A waiter's channel has a verdict, or its sender still sits in the waiter's entry. */
  ghost predicate WaitersServed(w: World) {
    forall t :: t in w.tabs && w.tabs[t].Waiting? ==>
      var k, c := w.tabs[t].key, w.tabs[t].chan;
      c < |w.pool.slots|
        && (w.pool.slots[c] == None ==> k in w.pool.entries && w.pool.entries[k].state == Connecting(c))
  }

  ghost predicate ValuesAllocated(w: World) {
    && (forall k :: k in w.pool.entries && w.pool.entries[k].state.Ready? ==>
         w.pool.entries[k].state.value < w.pool.nextValue)
    && (forall t :: t in w.tabs && w.tabs[t].Using? ==> w.tabs[t].value < w.pool.nextValue)
    && (forall c :: 0 <= c < |w.pool.slots| && w.pool.slots[c].Some? && w.pool.slots[c].value.Established? ==>
          w.pool.slots[c].value.value < w.pool.nextValue)
  }

  ghost predicate HasTimer(timers: seq<Timer>, key: Key, generation: nat) {
    exists i :: 0 <= i < |timers| && timers[i].key == key && timers[i].generation == generation
  }

  /** An entry without holders has a pending timer with its current generation. */
  ghost predicate IdleEntriesTimed(w: World) {
    forall k :: k in w.pool.entries && w.pool.entries[k].idle.refcount == 0 ==>
      HasTimer(w.timers, k, w.pool.entries[k].idle.generation)
  }

  ghost predicate Inv(w: World) {
    CountsExact(w) && EstablishersOwn(w) && WaitersServed(w) && ValuesAllocated(w) && IdleEntriesTimed(w)
  }

  // ---- Counting holders ----

  lemma HoldersAdd(tabs: map<TabId, Tab>, t: TabId, tab: Tab, key: Key)
    requires t !in tabs
    ensures |Holders(tabs[t := tab], key)| == |Holders(tabs, key)| + if tab.key == key then 1 else 0
  {
    assert Holders(tabs[t := tab], key) == Holders(tabs, key) + if tab.key == key then {t} else {};
  }

  lemma HoldersMove(tabs: map<TabId, Tab>, t: TabId, tab: Tab, key: Key)
    requires t in tabs && tab.key == tabs[t].key
    ensures Holders(tabs[t := tab], key) == Holders(tabs, key)
  {
  }

  lemma HoldersDrop(tabs: map<TabId, Tab>, t: TabId, key: Key)
    requires t in tabs
    ensures |Holders(tabs, key)| == |Holders(tabs - {t}, key)| + if tabs[t].key == key then 1 else 0
  {
    assert (tabs - {t})[t := tabs[t]] == tabs;
    HoldersAdd(tabs - {t}, t, tabs[t], key);
  }

  lemma HolderCounts(tabs: map<TabId, Tab>, t: TabId)
    requires t in tabs
    ensures |Holders(tabs, tabs[t].key)| > 0
  {
    assert t in Holders(tabs, tabs[t].key);
  }

  // ---- Each step keeps the invariant ----

  lemma AttachKeepsCounts(w: World, t: TabId, k: Key)
    requires CountsExact(w) && WithinLimits(w) && Enabled(w, Attach(t, k))
    ensures CountsExact(Next(w, Attach(t, k)))
  {
    var w' := Next(w, Attach(t, k));
    forall q | q in w'.pool.entries
      ensures w'.pool.entries[q].idle.refcount == |Holders(w'.tabs, q)|
    {
      HoldersAdd(w.tabs, t, w'.tabs[t], q);
      assert q !in w.pool.entries ==> Holders(w.tabs, q) == {};
    }
  }

  lemma ReleaseKeepsCounts(w: World, t: TabId)
    requires CountsExact(w) && Enabled(w, Release(t))
    ensures CountsExact(Next(w, Release(t)))
  {
    var w' := Next(w, Release(t));
    HolderCounts(w.tabs, t);
    forall q | q in w'.pool.entries
      ensures w'.pool.entries[q].idle.refcount == |Holders(w'.tabs, q)|
    {
      HoldersDrop(w.tabs, t, q);
    }
  }

  /** The refcount test protects a held entry, whatever generation the timer carries. */
  lemma FireKeepsCounts(w: World, i: nat)
    requires CountsExact(w) && Enabled(w, Fire(i))
    ensures CountsExact(Next(w, Fire(i)))
  {
    forall t | t in w.tabs ensures w.tabs[t].key in Next(w, Fire(i)).pool.entries {
      HolderCounts(w.tabs, t);
    }
  }

  lemma StepKeepsCounts(w: World, l: Label)
    requires CountsExact(w) && WithinLimits(w) && Enabled(w, l)
    ensures CountsExact(Next(w, l))
  {
    var w' := Next(w, l);
    match l {
      case Attach(t, k) => AttachKeepsCounts(w, t, k);
      case Publish(t, _) => KeepCountsOnMove(w, t, w'.tabs[t], w'.pool);
      case Observe(t) => KeepCountsOnMove(w, t, w'.tabs[t], w'.pool);
      case Finish(t, _) => KeepCountsOnMove(w, t, w'.tabs[t], w'.pool);
      case Release(t) => ReleaseKeepsCounts(w, t);
      case Fire(i) => FireKeepsCounts(w, i);
      case Die(_) =>
      case Elapse(_) =>
    }
  }

  lemma KeepCountsOnMove(w: World, t: TabId, tab: Tab, pool: Pool)
    requires CountsExact(w) && t in w.tabs && tab.key == w.tabs[t].key
    requires pool.entries.Keys == w.pool.entries.Keys
    requires forall q :: q in pool.entries ==> pool.entries[q].idle == w.pool.entries[q].idle
    ensures CountsExact(w.(pool := pool, tabs := w.tabs[t := tab]))
  {
    forall q | q in pool.entries ensures pool.entries[q].idle.refcount == |Holders(w.tabs[t := tab], q)| {
      HoldersMove(w.tabs, t, tab, q);
    }
  }

  lemma ConnectingChansExist(w: World)
    requires EstablishersOwn(w)
    ensures forall q :: q in w.pool.entries && w.pool.entries[q].state.Connecting? ==>
            w.pool.entries[q].state.chan < |w.pool.slots|
  {
    forall q | q in w.pool.entries && w.pool.entries[q].state.Connecting?
      ensures w.pool.entries[q].state.chan < |w.pool.slots|
    {
      var e :| IsEstablisherOf(w, e, q, w.pool.entries[q].state.chan);
    }
  }

  lemma AttachKeepsWaitersAndValues(w: World, t: TabId, k: Key)
    requires WaitersServed(w) && ValuesAllocated(w) && Enabled(w, Attach(t, k))
    requires forall q :: q in w.pool.entries && w.pool.entries[q].state.Connecting? ==>
             w.pool.entries[q].state.chan < |w.pool.slots|
    ensures WaitersServed(Next(w, Attach(t, k))) && ValuesAllocated(Next(w, Attach(t, k)))
  {
  }

  /** A verdict lands in the publisher's own channel, so exactly its waiters are released. */
  lemma PublishKeepsWaiters(w: World, t: TabId, outcome: Outcome)
    requires EstablishersOwn(w) && WaitersServed(w) && Enabled(w, Publish(t, outcome))
    ensures WaitersServed(Next(w, Publish(t, outcome)))
  {
    var w' := Next(w, Publish(t, outcome));
    var c := w.tabs[t].chan;
    assert forall d :: 0 <= d < |w.pool.slots| && d != c ==> w'.pool.slots[d] == w.pool.slots[d];
    assert w'.pool.slots[c].Some?;
  }

  lemma PublishKeepsValues(w: World, t: TabId, outcome: Outcome)
    requires ValuesAllocated(w) && Enabled(w, Publish(t, outcome))
    ensures ValuesAllocated(Next(w, Publish(t, outcome)))
  {
  }

  lemma OthersKeepWaitersAndValues(w: World, l: Label)
    requires CountsExact(w) && WaitersServed(w) && ValuesAllocated(w) && Enabled(w, l) && !l.Attach? && !l.Publish?
    ensures WaitersServed(Next(w, l)) && ValuesAllocated(Next(w, l))
  {
    var w' := Next(w, l);
    assert w'.pool.slots == w.pool.slots && w'.pool.nextValue == w.pool.nextValue;
    if l.Fire? {
      forall t | t in w.tabs ensures w.tabs[t].key in w'.pool.entries {
        HolderCounts(w.tabs, t);
      }
    }
  }

  /** Connecting entries that a step leaves alone keep their establisher. */
  lemma KeepEstablisher(w: World, w': World, q: Key)
    requires EstablishersOwn(w)
    requires q in w.pool.entries && q in w'.pool.entries && w.pool.entries[q].state.Connecting?
    requires w'.pool.entries[q].state == w.pool.entries[q].state
    requires forall t :: t in w.tabs && w.tabs[t].Establishing? && w.tabs[t].key == q ==>
             t in w'.tabs && w'.tabs[t] == w.tabs[t]
    ensures exists e :: IsEstablisherOf(w', e, q, w'.pool.entries[q].state.chan)
  {
    var e :| IsEstablisherOf(w, e, q, w.pool.entries[q].state.chan);
    assert IsEstablisherOf(w', e, q, w'.pool.entries[q].state.chan);
  }

  lemma AttachKeepsEstablishers(w: World, t: TabId, k: Key)
    requires EstablishersOwn(w) && Enabled(w, Attach(t, k))
    ensures EstablishersOwn(Next(w, Attach(t, k)))
  {
    var w' := Next(w, Attach(t, k));
    forall q | q in w'.pool.entries && w'.pool.entries[q].state.Connecting?
      ensures exists e :: IsEstablisherOf(w', e, q, w'.pool.entries[q].state.chan)
    {
      if q == k && w'.tabs[t].Establishing? {
        assert IsEstablisherOf(w', t, q, w'.pool.entries[q].state.chan);
      } else {
        KeepEstablisher(w, w', q);
      }
    }
  }

  lemma PublishKeepsEstablishers(w: World, t: TabId, outcome: Outcome)
    requires EstablishersOwn(w) && Enabled(w, Publish(t, outcome))
    ensures EstablishersOwn(Next(w, Publish(t, outcome)))
  {
    var w' := Next(w, Publish(t, outcome));
    var c := w.tabs[t].chan;
    assert forall d :: 0 <= d < |w.pool.slots| && d != c ==> w'.pool.slots[d] == w.pool.slots[d];
    forall q | q in w'.pool.entries && w'.pool.entries[q].state.Connecting?
      ensures exists e :: IsEstablisherOf(w', e, q, w'.pool.entries[q].state.chan)
    {
      KeepEstablisher(w, w', q);
    }
  }

  /** Steps that neither start nor end an attempt leave the owners alone. */
  lemma KeepEstablishersOwn(w: World, w': World)
    requires EstablishersOwn(w) && w'.pool.slots == w.pool.slots
    requires forall t :: (t in w.tabs && w.tabs[t].Establishing?) <==> (t in w'.tabs && w'.tabs[t].Establishing?)
    requires forall t :: t in w.tabs && w.tabs[t].Establishing? ==>
             w'.tabs[t] == w.tabs[t] && w.tabs[t].key in w'.pool.entries
    requires forall q :: q in w'.pool.entries ==> q in w.pool.entries
    requires forall q ::
               q in w'.pool.entries && (w.pool.entries[q].state.Connecting? || w'.pool.entries[q].state.Connecting?) ==>
               w'.pool.entries[q].state == w.pool.entries[q].state
    ensures EstablishersOwn(w')
  {
    forall q | q in w'.pool.entries && w'.pool.entries[q].state.Connecting?
      ensures exists e :: IsEstablisherOf(w', e, q, w'.pool.entries[q].state.chan)
    {
      KeepEstablisher(w, w', q);
    }
  }

  lemma FireKeepsEstablishers(w: World, i: nat)
    requires CountsExact(w) && EstablishersOwn(w) && Enabled(w, Fire(i))
    ensures EstablishersOwn(Next(w, Fire(i)))
  {
    var w' := Next(w, Fire(i));
    forall t | t in w.tabs && w.tabs[t].Establishing? ensures w.tabs[t].key in w'.pool.entries {
      HolderCounts(w.tabs, t);
    }
    KeepEstablishersOwn(w, w');
  }

  /** A release removes no entry and changes no state. */
  lemma ReleaseKeepsStates(w: World, t: TabId)
    requires Enabled(w, Release(t))
    ensures var w' := Next(w, Release(t));
            && w'.pool.slots == w.pool.slots && w'.pool.entries.Keys == w.pool.entries.Keys
            && (forall q :: q in w.pool.entries ==> w'.pool.entries[q].state == w.pool.entries[q].state)
            && (forall e :: e in w.tabs && w.tabs[e].Establishing? ==> e in w'.tabs && w'.tabs[e] == w.tabs[e])
            && (forall e :: e in w'.tabs && w'.tabs[e].Establishing? ==> e in w.tabs && w'.tabs[e] == w.tabs[e])
  {
  }

  lemma ReleaseKeepsEstablishers(w: World, t: TabId)
    requires CountsExact(w) && EstablishersOwn(w) && Enabled(w, Release(t))
    ensures EstablishersOwn(Next(w, Release(t)))
  {
    ReleaseKeepsStates(w, t);
    KeepEstablishersOwn(w, Next(w, Release(t)));
  }

  lemma OthersKeepEstablishers(w: World, l: Label)
    requires EstablishersOwn(w) && Enabled(w, l) && (l.Observe? || l.Finish? || l.Die? || l.Elapse?)
    ensures EstablishersOwn(Next(w, l))
  {
    KeepEstablishersOwn(w, Next(w, l));
  }

  lemma ReleaseKeepsTimed(w: World, t: TabId)
    requires CountsExact(w) && IdleEntriesTimed(w) && Enabled(w, Release(t))
    ensures IdleEntriesTimed(Next(w, Release(t)))
  {
    var w' := Next(w, Release(t));
    HolderCounts(w.tabs, t);
    forall q | q in w'.pool.entries && w'.pool.entries[q].idle.refcount == 0
      ensures HasTimer(w'.timers, q, w'.pool.entries[q].idle.generation)
    {
      if q == w.tabs[t].key {
        assert w'.timers[|w.timers|].key == q;
      } else {
        var i :| 0 <= i < |w.timers| && w.timers[i].key == q
          && w.timers[i].generation == w.pool.entries[q].idle.generation;
        assert w'.timers[i] == w.timers[i];
      }
    }
  }

  lemma FireKeepsTimed(w: World, f: nat)
    requires IdleEntriesTimed(w) && Enabled(w, Fire(f))
    ensures IdleEntriesTimed(Next(w, Fire(f)))
  {
    var w' := Next(w, Fire(f));
    forall q | q in w'.pool.entries && w'.pool.entries[q].idle.refcount == 0
      ensures HasTimer(w'.timers, q, w'.pool.entries[q].idle.generation)
    {
      var i :| 0 <= i < |w.timers| && w.timers[i].key == q
        && w.timers[i].generation == w.pool.entries[q].idle.generation;
      assert w'.timers[if f < i then i - 1 else i] == w.timers[i];
    }
  }

  lemma OthersKeepTimed(w: World, l: Label)
    requires IdleEntriesTimed(w) && Enabled(w, l) && !l.Release? && !l.Fire?
    ensures IdleEntriesTimed(Next(w, l))
  {
    var w' := Next(w, l);
    assert w'.timers == w.timers;
    assert forall q :: q in w'.pool.entries && w'.pool.entries[q].idle.refcount == 0 ==>
                         q in w.pool.entries && w'.pool.entries[q].idle == w.pool.entries[q].idle;
  }

  lemma StepKeepsTimed(w: World, l: Label)
    requires CountsExact(w) && IdleEntriesTimed(w) && Enabled(w, l)
    ensures IdleEntriesTimed(Next(w, l))
  {
    match l {
      case Release(t) => ReleaseKeepsTimed(w, t);
      case Fire(i) => FireKeepsTimed(w, i);
      case _ => OthersKeepTimed(w, l);
    }
  }

  lemma StepKeepsInv(w: World, l: Label)
    requires Inv(w) && WithinLimits(w) && Enabled(w, l)
    ensures Inv(Next(w, l))
  {
    StepKeepsCounts(w, l);
    StepKeepsTimed(w, l);
    match l {
      case Attach(t, k) =>
        AttachKeepsEstablishers(w, t, k);
        ConnectingChansExist(w);
        AttachKeepsWaitersAndValues(w, t, k);
      case Publish(t, outcome) =>
        PublishKeepsEstablishers(w, t, outcome);
        PublishKeepsWaiters(w, t, outcome);
        PublishKeepsValues(w, t, outcome);
      case Fire(i) =>
        FireKeepsEstablishers(w, i);
        OthersKeepWaitersAndValues(w, l);
      case Release(t) =>
        ReleaseKeepsEstablishers(w, t);
        OthersKeepWaitersAndValues(w, l);
      case _ =>
        OthersKeepEstablishers(w, l);
        OthersKeepWaitersAndValues(w, l);
    }
  }

  lemma {:induction false} RunKeepsInv(ws: seq<World>, ls: seq<Label>, n: nat)
    requires IsRun(ws, ls) && n < |ws|
    ensures Inv(ws[n])
  {
    if n > 0 {
      RunKeepsInv(ws, ls, n - 1);
      StepKeepsInv(ws[n - 1], ls[n - 1]);
    }
  }
}
