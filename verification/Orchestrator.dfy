/**
 The locked state of the session orchestrator and the guards that keep stale events out
 (`rust-core/src/orchestrator.rs`, `rust-core/src/net_health_policy.rs`).
 */
module OrchestratorCore {
  import opened Wrappers
  import opened Publications
  import opened ConnectionEvents
  import opened ReconnectFsm

  // ---- Debounced path changes (`net_health_policy.rs`) ----

  datatype Decision = Ignore | NotifyAfterDebounce(debounce: nat)

  const DEBOUNCE_MS: nat := 400

  function Decide(isSatisfied: bool): Decision {
    if isSatisfied then Ignore else NotifyAfterDebounce(DEBOUNCE_MS)
  }

  /** The epoch after an update or an invalidation. */
  function NextPathEpoch(epoch: nat): nat {
    epoch + 1
  }

  /**
   Hands out one token for each path update.  `issued` records the tokens handed out and `latest`
   the one that is still current: the token of the last update, unless an invalidation followed it.
   */
  class PathObserver {
    var epoch: nat
    ghost var issued: set<nat>
    ghost var latest: Option<nat>

    ghost predicate Valid()
      reads this
    {
      && (forall token :: token in issued ==> token <= epoch)
      && (if latest.Some? then latest.value == epoch && epoch in issued else epoch !in issued)
    }

    constructor ()
      ensures Valid() && epoch == 0 && issued == {} && latest == None
    {
      epoch, issued, latest := 0, {}, None;
    }

    /** The new token was never handed out before, and it is the only current one. */
    method HandleUpdate(isSatisfied: bool) returns (token: nat, decision: Decision)
      requires Valid()
      modifies this
      ensures Valid() && epoch == NextPathEpoch(old(epoch)) && token == epoch && decision == Decide(isSatisfied)
      ensures token !in old(issued) && issued == old(issued) + {token} && latest == Some(token)
    {
      epoch := epoch + 1;
      token := epoch;
      decision := Decide(isSatisfied);
      issued, latest := issued + {token}, Some(token);
    }

    /** A token is current exactly when neither an update nor an invalidation came after it. */
    method IsCurrent(token: nat) returns (current: bool)
      requires Valid()
      ensures current <==> epoch == token
      ensures token in issued ==> (current <==> latest == Some(token))
    {
      current := epoch == token;
    }

    /** No token handed out so far is current any more. */
    method Invalidate()
      requires Valid()
      modifies this
      ensures Valid() && epoch == NextPathEpoch(old(epoch)) && issued == old(issued) && latest == None
    {
      epoch := epoch + 1;
      latest := None;
    }
  }

  // ---- Staging ----

  function PublicationOf(e: ReconnectEffect): seq<Publication> {
    match e
    case PublishDisconnected(hint) => [StateChanged(ShowDisconnected(hint))]
    case PublishConnected => [StateChanged(ShowConnected)]
    case PublishConnecting => [StateChanged(ShowConnecting)]
    case PublishReconnecting(elapsed, timeout) => [StateChanged(ShowReconnecting(elapsed, timeout))]
    case PublishReconnectTimedOut(timeout) => [StateChanged(ShowTimedOut(timeout))]
    case EdgeEstablished(g) => [EdgeSeen(Established(g))]
    case EdgeLost(g) => [EdgeSeen(Lost(g))]
    case _ => []
  }

  function PublicationsOf(effects: seq<ReconnectEffect>): seq<Publication> {
    if effects == [] then []
    else PublicationsOf(effects[..|effects| - 1]) + PublicationOf(effects[|effects| - 1])
  }

  /** Aborting an attempt in flight advances the session generation in the same critical section. */
  function Aborts(effects: seq<ReconnectEffect>): nat {
    if effects == [] then 0
    else Aborts(effects[..|effects| - 1]) + if effects[|effects| - 1].AbortInFlightAttempt? then 1 else 0
  }

  lemma {:induction false} StagingStep(effects: seq<ReconnectEffect>, i: nat)
    requires i < |effects|
    ensures PublicationsOf(effects[..i + 1]) == PublicationsOf(effects[..i]) + PublicationOf(effects[i])
    ensures Aborts(effects[..i + 1]) == Aborts(effects[..i]) + if effects[i].AbortInFlightAttempt? then 1 else 0
  {
    assert effects[..i + 1][..i] == effects[..i];
  }

  /** `session_generation` and the reducer, as guarded by the state lock. */
  datatype Core = Core(generation: nat, reconnect: Reconnect)

  const NEW_CORE := Core(0, DEFAULT)

  /** Apply one event and stage what it publishes, in one critical section. */
  function ApplyReconnect(c: Core, ev: ReconnectEvent): (Core, seq<Publication>) {
    var (r, effects) := Apply(c.reconnect, ev);
    (Core(c.generation + Aborts(effects), r), PublicationsOf(effects))
  }

  function NewAdapter(c: Core): (Core, seq<Publication>) {
    var g := c.generation + 1;
    ApplyReconnect(c.(generation := g), SessionCreated(g))
  }

  /** Events of an adapter are dropped unless its generation is current. */
  function Guarded(c: Core, generation: nat, ev: ReconnectEvent): (Core, seq<Publication>) {
    if c.generation != generation then (c, []) else ApplyReconnect(c, ev)
  }

  function OnConnected(c: Core, generation: nat): (Core, seq<Publication>) {
    Guarded(c, generation, AttemptConnected(generation))
  }

  function OnDisconnected(c: Core, generation: nat, kind: DisconnectKind, local: bool): (Core, seq<Publication>) {
    Guarded(c, generation, AttemptDisconnected(generation, kind, local))
  }

  /** A callback of an old generation changes nothing and shows nothing; a current one is applied. */
  lemma CallbacksOfOldSessionsChangeNothing(c: Core, generation: nat, kind: DisconnectKind, local: bool)
    ensures c.generation != generation ==>
              OnConnected(c, generation) == (c, []) && OnDisconnected(c, generation, kind, local) == (c, [])
    ensures c.generation == generation ==>
              && OnConnected(c, generation) == ApplyReconnect(c, AttemptConnected(generation))
              && OnDisconnected(c, generation, kind, local) ==
                 ApplyReconnect(c, AttemptDisconnected(generation, kind, local))
  {
  }

  class OrchestratorState {
    var generation: nat
    var reconnect: Reconnect
    const publications: PublicationQueue<Publication>

    ghost function View(): Core
      reads this
    {
      Core(generation, reconnect)
    }

    constructor ()
      ensures View() == NEW_CORE && fresh(publications) && publications.View() == Queue([], false)
    {
      generation, reconnect := 0, DEFAULT;
      publications := new PublicationQueue();
    }

    method StagePublications(effects: seq<ReconnectEffect>)
      modifies this`generation, publications
      ensures publications.View() == Staged(old(publications.View()), PublicationsOf(effects))
      ensures generation == old(generation) + Aborts(effects)
    {
      for i := 0 to |effects|
        invariant publications.View() == Staged(old(publications.View()), PublicationsOf(effects[..i]))
        invariant generation == old(generation) + Aborts(effects[..i])
      {
        StagingStep(effects, i);
        publications.Stage(PublicationOf(effects[i]));
        if effects[i].AbortInFlightAttempt? {
          generation := generation + 1;
        }
      }
      assert effects[..|effects|] == effects;
    }

    method ApplyEvent(ev: ReconnectEvent) returns (effects: seq<ReconnectEffect>)
      modifies this, publications
      ensures effects == Apply(old(reconnect), ev).1
      ensures View() == ApplyReconnect(old(View()), ev).0
      ensures publications.View() == Staged(old(publications.View()), ApplyReconnect(old(View()), ev).1)
    {
      var (r, es) := Apply(reconnect, ev);
      reconnect, effects := r, es;
      StagePublications(effects);
    }

    method CreateAdapter() returns (g: nat)
      modifies this, publications
      ensures g == old(generation) + 1 && View() == NewAdapter(old(View())).0
      ensures publications.View() == Staged(old(publications.View()), NewAdapter(old(View())).1)
    {
      generation := generation + 1;
      g := generation;
      var _ := ApplyEvent(SessionCreated(g));
    }

    method HandleConnected(g: nat)
      modifies this, publications
      ensures View() == OnConnected(old(View()), g).0
      ensures publications.View() == Staged(old(publications.View()), OnConnected(old(View()), g).1)
    {
      if generation != g {
        return;
      }
      var _ := ApplyEvent(AttemptConnected(g));
    }

    method HandleUnexpectedDisconnect(g: nat, kind: DisconnectKind, local: bool)
      modifies this, publications
      ensures View() == OnDisconnected(old(View()), g, kind, local).0
      ensures publications.View() == Staged(old(publications.View()), OnDisconnected(old(View()), g, kind, local).1)
    {
      if generation != g {
        return;
      }
      var _ := ApplyEvent(AttemptDisconnected(g, kind, local));
    }
  }

  // ---- Edges among publications ----

  function EdgesIn(items: seq<Publication>): seq<Edge> {
    if items == [] then []
    else EdgesIn(items[..|items| - 1])
         + (if items[|items| - 1].EdgeSeen? then [items[|items| - 1].edge] else [])
  }

  lemma {:induction false} EdgesInAppend(a: seq<Publication>, b: seq<Publication>)
    ensures EdgesIn(a + b) == EdgesIn(a) + EdgesIn(b)
  {
    if b == [] {
      assert a + b == a;
    } else {
      assert (a + b)[..|a + b| - 1] == a + b[..|b| - 1];
      EdgesInAppend(a, b[..|b| - 1]);
    }
  }

  lemma StagedEdgesStep(front: seq<ReconnectEffect>, last: ReconnectEffect)
    requires EdgesIn(PublicationsOf(front)) == EdgesOf(front)
    ensures EdgesIn(PublicationsOf(front + [last])) == EdgesOf(front + [last])
  {
    StagingStep(front + [last], |front|);
    assert (front + [last])[..|front|] == front && (front + [last])[..|front| + 1] == front + [last];
    EdgesInAppend(PublicationsOf(front), PublicationOf(last));
    EdgesOfAppend(front, [last]);
    EdgesInOne(last);
  }

  /** Staging keeps the reducer's edges, all of them and in order. */
  lemma {:induction false} StagedEdges(effects: seq<ReconnectEffect>)
    ensures EdgesIn(PublicationsOf(effects)) == EdgesOf(effects)
  {
    if effects != [] {
      var front, last := effects[..|effects| - 1], effects[|effects| - 1];
      StagedEdges(front);
      StagedEdgesStep(front, last);
      assert front + [last] == effects;
    }
  }

  lemma EdgesInOne(e: ReconnectEffect)
    ensures EdgesIn(PublicationOf(e)) == EdgesOf([e])
  {
    EdgesOfOne(e);
    var items := PublicationOf(e);
    if items != [] {
      assert items[..0] == [];
    }
  }

  /** A critical section that applies an event keeps the staged edges well paired. */
  lemma StagingKeepsEdges(c: Core, items: seq<Publication>, ev: ReconnectEvent)
    requires EdgeInv(c.reconnect, EdgesIn(items))
    ensures EdgeInv(ApplyReconnect(c, ev).0.reconnect, EdgesIn(items + ApplyReconnect(c, ev).1))
  {
    var (r, effects) := Apply(c.reconnect, ev);
    ApplyKeepsEdges(c.reconnect, EdgesIn(items), ev);
    StagedEdges(effects);
    EdgesInAppend(items, PublicationsOf(effects));
  }
}
