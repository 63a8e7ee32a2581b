/**
 Exactly when an idle timer removes an entry that it was not armed for
 (`rust-core/src/pool_idle_fsm.rs:14-18`).
 */
module OrphanTimers {
  import opened IdleLedgerFsm
  import opened PoolTable
  import opened PoolProtocol
  import opened PoolTheorems

  /** The timers that the step leaves pending although it removes the entry of their key. */
  ghost function Orphaned(w: World, l: Label): set<Timer>
    requires Enabled(w, l)
  {
    set t | t in Next(w, l).timers && Removes(w, l, t.key)
  }

  /** The timers orphaned so far. */
  ghost function OrphansAt(ws: seq<World>, ls: seq<Label>, n: nat): set<Timer>
    requires IsRun(ws, ls) && n < |ws|
  {
    if n == 0 then {} else OrphansAt(ws, ls, n - 1) + Orphaned(ws[n - 1], ls[n - 1])
  }

  /** A timer that is no orphan belongs to the present entry of its key. */
  ghost predicate BelongsToEntry(w: World, t: Timer) {
    && t.key in w.pool.entries && t.key in w.lastArmed
    && var idle := w.pool.entries[t.key].idle;
       && t.generation <= idle.generation
       && (idle.refcount == 0 && t.generation == idle.generation ==> t.serial == w.lastArmed[t.key])
  }

  /** An orphan is older than the timer of any idle entry that its key has now. */
  ghost predicate OlderThanEntry(w: World, t: Timer) {
    t.key in w.pool.entries && w.pool.entries[t.key].idle.refcount == 0 ==>
      t.key in w.lastArmed && t.serial < w.lastArmed[t.key]
  }

  ghost predicate Accounted(w: World, orphans: set<Timer>) {
    forall t :: t in w.timers ==>
      t.serial < w.armed && if t in orphans then OlderThanEntry(w, t) else BelongsToEntry(w, t)
  }

  lemma FireKeepsAccounts(w: World, i: nat, orphans: set<Timer>)
    requires Accounted(w, orphans) && Enabled(w, Fire(i))
    ensures Accounted(Next(w, Fire(i)), orphans + Orphaned(w, Fire(i)))
  {
    PendingAfterFire(w, i);
    var w' := Next(w, Fire(i));
    assert forall k :: k in w'.pool.entries ==> k in w.pool.entries && w'.pool.entries[k] == w.pool.entries[k];
  }

  lemma ReleaseKeepsAccounts(w: World, t: TabId, orphans: set<Timer>)
    requires Inv(w) && WithinLimits(w) && Accounted(w, orphans) && Enabled(w, Release(t))
    requires forall o :: o in orphans ==> o.serial < w.armed
    ensures Accounted(Next(w, Release(t)), orphans + Orphaned(w, Release(t)))
  {
    ReleaseOutcome(w, t);
    assert Orphaned(w, Release(t)) == {};
    var w' := Next(w, Release(t));
    forall p | p in w'.timers
      ensures p.serial < w'.armed && if p in orphans then OlderThanEntry(w', p) else BelongsToEntry(w', p)
    {
      if p !in w.timers {
        assert p.serial == w.armed;
      }
    }
  }

  lemma AttachKeepsAccounts(w: World, t: TabId, k: Key, orphans: set<Timer>)
    requires WithinLimits(w) && Accounted(w, orphans) && Enabled(w, Attach(t, k))
    ensures Accounted(Next(w, Attach(t, k)), orphans + Orphaned(w, Attach(t, k)))
  {
  }

  lemma OthersKeepAccounts(w: World, l: Label, orphans: set<Timer>)
    requires Accounted(w, orphans) && Enabled(w, l) && (l.Publish? || l.Observe? || l.Finish? || l.Die? || l.Elapse?)
    ensures Accounted(Next(w, l), orphans + Orphaned(w, l))
  {
    var w' := Next(w, l);
    assert w'.timers == w.timers && w'.armed == w.armed && w'.lastArmed == w.lastArmed;
    assert w'.pool.entries.Keys == w.pool.entries.Keys;
    assert forall k :: k in w.pool.entries ==> w'.pool.entries[k].idle == w.pool.entries[k].idle;
  }

  lemma StepKeepsAccounts(w: World, l: Label, orphans: set<Timer>)
    requires Inv(w) && WithinLimits(w) && Accounted(w, orphans) && Enabled(w, l)
    requires forall o :: o in orphans ==> o.serial < w.armed
    ensures Accounted(Next(w, l), orphans + Orphaned(w, l))
    ensures forall o :: o in orphans + Orphaned(w, l) ==> o.serial < Next(w, l).armed
  {
    match l {
      case Fire(i) => FireKeepsAccounts(w, i, orphans);
      case Release(t) => ReleaseKeepsAccounts(w, t, orphans);
      case Attach(t, k) => AttachKeepsAccounts(w, t, k, orphans);
      case _ => OthersKeepAccounts(w, l, orphans);
    }
    ArmedGrows(w, l);
  }

  lemma ArmedGrows(w: World, l: Label)
    requires Enabled(w, l)
    ensures w.armed <= Next(w, l).armed
  {
  }

  lemma {:induction false} RunKeepsAccounts(ws: seq<World>, ls: seq<Label>, n: nat)
    requires IsRun(ws, ls) && n < |ws|
    ensures Accounted(ws[n], OrphansAt(ws, ls, n))
    ensures forall o :: o in OrphansAt(ws, ls, n) ==> o.serial < ws[n].armed
  {
    if n > 0 {
      RunKeepsAccounts(ws, ls, n - 1);
      RunKeepsInv(ws, ls, n - 1);
      StepKeepsAccounts(ws[n - 1], ls[n - 1], OrphansAt(ws, ls, n - 1));
    }
  }

  /** The timer was still pending right after step `h` removed an entry of its key. */
  ghost predicate SurvivedRemoval(ws: seq<World>, ls: seq<Label>, h: nat, t: Timer)
    requires IsRun(ws, ls) && h < |ls|
  {
    Removes(ws[h], ls[h], t.key) && t in ws[h + 1].timers
  }

  lemma {:induction false} OrphansSurvivedRemovals(ws: seq<World>, ls: seq<Label>, n: nat, t: Timer)
    requires IsRun(ws, ls) && n < |ws|
    ensures t in OrphansAt(ws, ls, n) <==> exists h: nat :: h < n && SurvivedRemoval(ws, ls, h, t)
  {
    if n > 0 {
      OrphansSurvivedRemovals(ws, ls, n - 1, t);
      assert t in Orphaned(ws[n - 1], ls[n - 1]) <==> SurvivedRemoval(ws, ls, n - 1, t);
      if t in OrphansAt(ws, ls, n - 1) {
        var h: nat :| h < n - 1 && SurvivedRemoval(ws, ls, h, t);
        assert h < n && SurvivedRemoval(ws, ls, h, t);
      }
    }
  }

  /**
   In every run, whatever the order of the timers: the timer that removes an entry is not the one
   armed at the latest release-to-zero of that entry if and only if it was still pending right after
   an earlier removal of the same key.
   */
  lemma RemovalHitsALaterEntryIff(ws: seq<World>, ls: seq<Label>, i: nat, key: Key)
    requires IsRun(ws, ls) && i < |ls| && Removes(ws[i], ls[i], key)
    ensures ls[i].Fire? && key in ws[i].lastArmed
    ensures var t := ws[i].timers[ls[i].index];
            t.serial != ws[i].lastArmed[key] <==> exists h: nat :: h < i && SurvivedRemoval(ws, ls, h, t)
  {
    HeldEntriesAreNeverRemoved(ws, ls, i);
    RunKeepsInv(ws, ls, i);
    RunKeepsAccounts(ws, ls, i);
    var t := ws[i].timers[ls[i].index];
    assert t in ws[i].timers;
    OrphansSurvivedRemovals(ws, ls, i, t);
    assert ws[i].pool.entries[key].idle.refcount == 0;
  }

  /**
   An idle entry stays for at least the grace after its latest release, unless the timer that removes
   it was still pending right after an earlier removal of the same key.
   */
  lemma EntryStaysForItsGrace(ws: seq<World>, ls: seq<Label>, i: nat, key: Key)
    requires IsRun(ws, ls) && i < |ls| && Removes(ws[i], ls[i], key)
    ensures key in ws[i].releasedAt
    ensures ws[i].now >= ws[i].releasedAt[key] + GRACE
            || (ls[i].Fire? && exists h: nat :: h < i && SurvivedRemoval(ws, ls, h, ws[i].timers[ls[i].index]))
  {
    RemovalHitsALaterEntryIff(ws, ls, i, key);
    RunKeepsDues(ws, ls, i);
    HeldEntriesAreNeverRemoved(ws, ls, i);
    assert ws[i].timers[ls[i].index] in ws[i].timers;
  }

  /** If the timers of each key fire in the order in which they were armed, it always stays that long. */
  lemma OrderedTimersKeepTheGrace(ws: seq<World>, ls: seq<Label>, i: nat, key: Key)
    requires IsRun(ws, ls) && i < |ls| && Removes(ws[i], ls[i], key)
    requires forall j :: 0 <= j < |ls| ==> FiresInOrder(ws[j], ls[j])
    ensures key in ws[i].releasedAt && ws[i].now >= ws[i].releasedAt[key] + GRACE
  {
    OrderedTimersNeverHitALaterEntry(ws, ls, i, key);
    RunKeepsDues(ws, ls, i);
    HeldEntriesAreNeverRemoved(ws, ls, i);
    assert ws[i].timers[ls[i].index] in ws[i].timers;
  }
}
