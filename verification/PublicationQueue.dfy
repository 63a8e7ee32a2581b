/**
 The ordered publication queue of the orchestrator (`rust-core/src/orchestrator.rs:952-1098`).

 State changes stage their publications in the critical section that makes the change; one elected
 thread at a time delivers them outside the lock, one callback after the other.  Callbacks may
 re-enter the orchestrator and may panic.
 */
module Publications {
  import opened Wrappers

  /** What waits for delivery, and whether somebody delivers. */
  datatype Queue<Item> = Queue(items: seq<Item>, draining: bool)

  function Staged<Item>(q: Queue<Item>, items: seq<Item>): Queue<Item> {
    q.(items := q.items + items)
  }

  /** First critical section of a flush: elect this caller unless somebody drains or nothing is queued. */
  function Elect<Item>(q: Queue<Item>): (Queue<Item>, bool) {
    var elected := !q.draining && q.items != [];
    (q.(draining := q.draining || elected), elected)
  }

  /** Loop critical section: take the next item, or stop draining because the queue is empty. */
  function TakeNext<Item>(q: Queue<Item>): (Queue<Item>, Option<Item>) {
    if q.items == [] then (q.(draining := false), None) else (q.(items := q.items[1..]), Some(q.items[0]))
  }

  /** The drop guard of a drainer whose callback panicked. */
  function Unwound<Item>(q: Queue<Item>): Queue<Item> {
    q.(draining := false)
  }

  /** What the first `n` callbacks stage, in order. */
  function FirstReactions<T>(reactions: seq<seq<T>>, n: nat): seq<T> {
    if n == 0 then [] else FirstReactions(reactions, n - 1) + (if n <= |reactions| then reactions[n - 1] else [])
  }

  lemma AppendAssociates<T>(a: seq<T>, b: seq<T>, c: seq<T>)
    ensures a + b + c == a + (b + c)
  {
  }

  /** Moving the head to the started ones and staging a reaction keeps the order. */
  lemma OneDelivery<T>(base: seq<T>, started: seq<T>, queue: seq<T>, added: seq<T>, reaction: seq<T>)
    requires queue != [] && started + queue == base + added
    ensures started + [queue[0]] + (queue[1..] + reaction) == base + (added + reaction)
  {
    assert queue == [queue[0]] + queue[1..];
    AppendAssociates(started, [queue[0]], queue[1..]);
    AppendAssociates(started + [queue[0]], queue[1..], reaction);
    AppendAssociates(base, added, reaction);
  }

  /** The queue proper, with the history of what was staged and of which callbacks were started. */
  class PublicationQueue<Item> {
    var queue: seq<Item>
    var draining: bool
    ghost var staged: seq<Item>
    ghost var started: seq<Item>

    ghost function View(): Queue<Item>
      reads this
    {
      Queue(queue, draining)
    }

    constructor ()
      ensures View() == Queue([], false) && staged == [] && started == []
    {
      queue, draining, staged, started := [], false, [], [];
    }

    method Stage(items: seq<Item>)
      modifies this`queue, this`staged
      ensures View() == Staged(old(View()), items) && staged == old(staged) + items
    {
      for i := 0 to |items|
        invariant queue == old(queue) + items[..i] && staged == old(staged)
      {
        queue := queue + [items[i]];
      }
      assert items[..|items|] == items;
      staged := staged + items;
    }

    method TryElect() returns (elected: bool)
      modifies this`draining
      ensures (View(), elected) == Elect(old(View()))
    {
      elected := !draining && queue != [];
      if elected {
        draining := true;
      }
    }

    method Take() returns (next: Option<Item>)
      modifies this`queue, this`draining
      ensures (View(), next) == TakeNext(old(View()))
    {
      if queue == [] {
        draining := false;
        return None;
      }
      next := Some(queue[0]);
      queue := queue[1..];
    }

    /**
     One turn of the drain loop: a callback is started and stages `reaction` from inside, or draining
     ends.  `base` and `added` are what was staged before and during the flush.
     */
    method DeliverNext(reaction: seq<Item>, ghost base: seq<Item>, ghost added: seq<Item>) returns (delivered: bool)
      requires draining && started + queue == base + added
      modifies this
      ensures !delivered ==>
              old(queue) == [] && View() == Queue([], false) && staged == old(staged) && started == old(started)
      ensures delivered ==>
                && draining && started + queue == base + (added + reaction) && staged == old(staged) + reaction
                && |started| == |old(started)| + 1 && |queue| == |old(queue)| - 1 + |reaction|
    {
      var next := Take();
      delivered := next != None;
      if delivered {
        OneDelivery(base, started, old(queue), added, reaction);
        started := started + [next.value];
        Stage(reaction);
      }
    }

    /**
     A whole flush by one thread.  Callback `i` stages `reactions[i]` from inside and flushes in
     turn, which does nothing because this flush is draining; callback `panics` panics.  `added` is
     what the callbacks staged.  Nothing is lost or reordered, and without a panic nothing is left.
     */
    method Flush(reactions: seq<seq<Item>>, panics: Option<nat>) returns (panicked: bool, added: seq<Item>)
      modifies this
      ensures old(draining) ==> View() == old(View()) && !panicked && added == []
      ensures !old(draining) ==> !draining
      ensures staged == old(staged) + added && |started| >= old(|started|)
      ensures added == FirstReactions(reactions, |started| - old(|started|))
      ensures started + queue == old(started) + old(queue) + added
      ensures !old(draining) && !panicked ==> queue == []
      ensures panicked ==> panics.Some? && old(|started|) + panics.value + 1 == |started|
    {
      panicked, added := false, [];
      var elected := TryElect();
      if !elected {
        return;
      }
      ghost var base := old(started) + old(queue);
      assert base + [] == base;
      var n := 0;
      while true
        invariant draining && !old(draining) && staged == old(staged) + added
        invariant |started| == old(|started|) + n
        invariant added == FirstReactions(reactions, n) && started + queue == base + added
        decreases if n < |reactions| then |reactions| - n else 0, |queue|
      {
        var reaction := if n < |reactions| then reactions[n] else [];
        AppendAssociates(old(staged), added, reaction);
        var delivered := DeliverNext(reaction, base, added);
        if !delivered {
          return;
        }
        added := added + reaction;
        if panics == Some(n) {
          draining := false;
          panicked := true;
          return;
        }
        n := n + 1;
      }
    }
  }
}

/**
 Any number of threads that stage and flush, interleaved at every critical section.
 */
module PublicationProtocol {
  import opened Wrappers
  import opened Publications
  import opened ConnectionEvents

  type ThreadId = nat

  /** The queue never looks inside a publication. */
  type Item = Publication

  /**
   The frames of a thread's call stack, outermost first: an interpreter of effects with some flush
   points left, an elected drainer (holding the item it has taken but not yet delivered), and a
   running callback.
   */
  datatype Frame = Op(flushes: nat) | Drain(held: Option<Item>) | Callback

  datatype World = World(
    queue: seq<Item>,
    draining: bool,
    staged: seq<Item>,
    started: seq<Item>,
    stacks: map<ThreadId, seq<Frame>>)

  const INITIAL := World([], false, [], [], map[])

  datatype Label =
    | Begin(thread: ThreadId, items: seq<Item>)  // stage, then interpret: one flush per item and a last one
    | Flush(thread: ThreadId)
    | Take(thread: ThreadId)
    | Start(thread: ThreadId)
    | Return(thread: ThreadId)                   // a callback or a finished interpreter returns
    | Panic(thread: ThreadId)                    // a callback panics and its thread unwinds

  function Stack(w: World, t: ThreadId): seq<Frame> {
    if t in w.stacks then w.stacks[t] else []
  }

  function Top(w: World, t: ThreadId): Option<Frame> {
    var stack := Stack(w, t);
    if stack == [] then None else Some(stack[|stack| - 1])
  }

  /** Replace the top frame of `t` by `frames`. */
  function Replace(w: World, t: ThreadId, frames: seq<Frame>): map<ThreadId, seq<Frame>>
    requires Top(w, t).Some?
  {
    w.stacks[t := Stack(w, t)[..|Stack(w, t)| - 1] + frames]
  }

  predicate Enabled(w: World, l: Label) {
    match l
    case Begin(t, _) => var top := Top(w, t); top.Some? ==> !top.value.Drain?
    case Flush(t) => var top := Top(w, t); top.Some? && top.value.Op? && top.value.flushes > 0
    case Take(t) => Top(w, t) == Some(Drain(None))
    case Start(t) => var top := Top(w, t); top.Some? && top.value.Drain? && top.value.held.Some?
    case Return(t) => Top(w, t) == Some(Callback) || Top(w, t) == Some(Op(0))
    case Panic(t) => Top(w, t) == Some(Callback)
  }

  /** The two fields that the critical sections of the queue work on. */
  function QueueOf(w: World): Queue<Item> {
    Queue(w.queue, w.draining)
  }

  function WithQueue(w: World, q: Queue<Item>): World {
    w.(queue := q.items, draining := q.draining)
  }

  predicate HasDrain(stack: seq<Frame>) {
    exists i :: 0 <= i < |stack| && stack[i].Drain?
  }

  function Next(w: World, l: Label): World
    requires Enabled(w, l)
  {
    match l
    case Begin(t, items) =>
      WithQueue(w, Staged(QueueOf(w), items)).(staged := w.staged + items,
                                               stacks := w.stacks[t := Stack(w, t) + [Op(|items| + 1)]])
    case Flush(t) =>
      var left := Op(Top(w, t).value.flushes - 1);
      var (q, elected) := Elect(QueueOf(w));
      WithQueue(w, q).(stacks := Replace(w, t, if elected then [left, Drain(None)] else [left]))
    case Take(t) =>
      var (q, next) := TakeNext(QueueOf(w));
      WithQueue(w, q).(stacks := Replace(w, t, if next.Some? then [Drain(next)] else []))
    case Start(t) =>
      w.(started := w.started + [Top(w, t).value.held.value], stacks := Replace(w, t, [Drain(None), Callback]))
    case Return(t) => w.(stacks := Replace(w, t, []))
    case Panic(t) =>
      WithQueue(w, if HasDrain(Stack(w, t)) then Unwound(QueueOf(w)) else QueueOf(w)).(stacks := w.stacks[t := []])
  }

  ghost predicate IsRun(ws: seq<World>, ls: seq<Label>) {
    && |ws| == |ls| + 1
    && ws[0] == INITIAL
    && (forall i :: 0 <= i < |ls| ==> Enabled(ws[i], ls[i]) && ws[i + 1] == Next(ws[i], ls[i]))
  }

  // ---- The invariant ----

  ghost predicate DrainAt(w: World, t: ThreadId, i: nat) {
    t in w.stacks && i < |w.stacks[t]| && w.stacks[t][i].Drain?
  }

  ghost predicate OneDrainer(w: World) {
    && (forall t: ThreadId, i: nat, t': ThreadId, i': nat :: DrainAt(w, t, i) && DrainAt(w, t', i') ==>
         t == t' && i == i')
    && (w.draining <==> exists t: ThreadId, i: nat :: DrainAt(w, t, i))
  }

  /** A callback runs on top of its drainer, and a drainer below the top is running its callback. */
  ghost predicate StacksShaped(w: World) {
    && (forall t: ThreadId, i: nat :: t in w.stacks && i < |w.stacks[t]| && w.stacks[t][i].Callback? ==>
          i > 0 && w.stacks[t][i - 1] == Drain(None))
    && (forall t: ThreadId, i: nat :: DrainAt(w, t, i) && i + 1 < |w.stacks[t]| ==> w.stacks[t][i].held == None)
  }

  function HeldBy(frame: Frame): seq<Item> {
    if frame.Drain? && frame.held.Some? then [frame.held.value] else []
  }

  /** Started callbacks, then the drainer's held item, then the queue: together the staging order. */
  ghost predicate InOrder(w: World) {
    && (!w.draining ==> w.started + w.queue == w.staged)
    && (forall t: ThreadId, i: nat :: DrainAt(w, t, i) ==> w.started + HeldBy(w.stacks[t][i]) + w.queue == w.staged)
  }

  ghost predicate Inv(w: World) {
    OneDrainer(w) && StacksShaped(w) && InOrder(w)
  }

  // ---- Each step keeps the invariant ----

  /** The drainers of two worlds are the same frames. */
  ghost predicate SameDrains(w: World, w': World) {
    && (forall t: ThreadId, i: nat :: DrainAt(w, t, i) ==> DrainAt(w', t, i) && w'.stacks[t][i] == w.stacks[t][i])
    && (forall t: ThreadId, i: nat :: DrainAt(w', t, i) ==> DrainAt(w, t, i))
  }

  lemma SameDrainsKeepOneDrainer(w: World, w': World)
    requires OneDrainer(w) && SameDrains(w, w') && w'.draining == w.draining
    ensures OneDrainer(w')
  {
    if w'.draining {
      var t: ThreadId, i: nat :| DrainAt(w, t, i);
      assert DrainAt(w', t, i);
    }
  }

  /** No new drainer but the frame at `(t, i)`, where the only old one may be. */
  lemma OnlyDrain(w: World, w': World, t: ThreadId, i: nat)
    requires OneDrainer(w) && (w.draining ==> DrainAt(w, t, i))
    requires forall u: ThreadId, j: nat :: DrainAt(w', u, j) ==> DrainAt(w, u, j) || (u == t && j == i)
    ensures forall u: ThreadId, j: nat :: DrainAt(w', u, j) ==> u == t && j == i
  {
  }

  lemma NoDrain(w: World, w': World, t: ThreadId, i: nat)
    requires OneDrainer(w) && DrainAt(w, t, i) && !DrainAt(w', t, i)
    requires forall u: ThreadId, j: nat :: DrainAt(w', u, j) ==> DrainAt(w, u, j)
    ensures forall u: ThreadId, j: nat :: !DrainAt(w', u, j)
  {
  }

  lemma BeginKeepsInv(w: World, t: ThreadId, items: seq<Item>)
    requires Inv(w) && Enabled(w, Begin(t, items))
    ensures Inv(Next(w, Begin(t, items)))
  {
    var w' := Next(w, Begin(t, items));
    assert SameDrains(w, w');
    SameDrainsKeepOneDrainer(w, w');
    assert !w.draining ==> w'.started + w'.queue == (w.started + w.queue) + items;
    forall u: ThreadId, i: nat | DrainAt(w', u, i)
      ensures w'.started + HeldBy(w'.stacks[u][i]) + w'.queue == w'.staged
    {
      assert w'.started + HeldBy(w'.stacks[u][i]) + w'.queue == (w.started + HeldBy(w.stacks[u][i]) + w.queue) + items;
    }
  }

  lemma FlushKeepsInv(w: World, t: ThreadId)
    requires Inv(w) && Enabled(w, Flush(t))
    ensures Inv(Next(w, Flush(t)))
  {
    var w' := Next(w, Flush(t));
    if w.draining || w.queue == [] {
      assert SameDrains(w, w');
      SameDrainsKeepOneDrainer(w, w');
    } else {
      assert DrainAt(w', t, |w.stacks[t]|);
      OnlyDrain(w, w', t, |w.stacks[t]|);
      assert w.started + [] + w.queue == w.staged;
    }
  }

  lemma TakeKeepsInv(w: World, t: ThreadId)
    requires Inv(w) && Enabled(w, Take(t))
    ensures Inv(Next(w, Take(t)))
  {
    var w' := Next(w, Take(t));
    var top := |w.stacks[t]| - 1;
    assert DrainAt(w, t, top);
    assert w.started + [] + w.queue == w.staged;
    if w.queue == [] {
      NoDrain(w, w', t, top);
    } else {
      assert DrainAt(w', t, top);
      OnlyDrain(w, w', t, top);
      assert w.started + [w.queue[0]] + w.queue[1..] == w.started + w.queue;
    }
  }

  lemma StartKeepsInv(w: World, t: ThreadId)
    requires Inv(w) && Enabled(w, Start(t))
    ensures Inv(Next(w, Start(t)))
  {
    var w' := Next(w, Start(t));
    var top := |w.stacks[t]| - 1;
    assert DrainAt(w, t, top) && DrainAt(w', t, top);
    OnlyDrain(w, w', t, top);
    assert w'.started + [] + w'.queue == w.started + HeldBy(w.stacks[t][top]) + w.queue;
  }

  lemma ReturnKeepsInv(w: World, t: ThreadId)
    requires Inv(w) && Enabled(w, Return(t))
    ensures Inv(Next(w, Return(t)))
  {
    var w' := Next(w, Return(t));
    assert SameDrains(w, w');
    SameDrainsKeepOneDrainer(w, w');
  }

  lemma PanicKeepsInv(w: World, t: ThreadId)
    requires Inv(w) && Enabled(w, Panic(t))
    ensures Inv(Next(w, Panic(t)))
  {
    var w' := Next(w, Panic(t));
    var drain := |w.stacks[t]| - 2;
    assert DrainAt(w, t, drain) && w.stacks[t][drain] == Drain(None);
    assert w.started + [] + w.queue == w.staged;
    NoDrain(w, w', t, drain);
  }

  lemma StepKeepsInv(w: World, l: Label)
    requires Inv(w) && Enabled(w, l)
    ensures Inv(Next(w, l))
  {
    match l {
      case Begin(t, items) => BeginKeepsInv(w, t, items);
      case Flush(t) => FlushKeepsInv(w, t);
      case Take(t) => TakeKeepsInv(w, t);
      case Start(t) => StartKeepsInv(w, t);
      case Return(t) => ReturnKeepsInv(w, t);
      case Panic(t) => PanicKeepsInv(w, t);
    }
  }

  lemma {:induction false} RunKeepsInv(ws: seq<World>, ls: seq<Label>, n: nat)
    requires IsRun(ws, ls) && n < |ws|
    ensures Inv(ws[n])
  {
    if n > 0 {
      RunKeepsInv(ws, ls, n - 1);
      StepKeepsInv(ws[n - 1], ls[n - 1]);
    }
  }

  /**
   For any number of threads and any interleaving, with re-entrant and panicking callbacks: at most
   one thread drains, in one frame; and the callbacks started so far, followed by what the drainer
   holds and by the queue, are the publications in the order in which they were staged.
   */
  lemma CallbacksStartInStagingOrder(ws: seq<World>, ls: seq<Label>, n: nat) returns (held: seq<Item>)
    requires IsRun(ws, ls) && n < |ws|
    ensures forall t: ThreadId, i: nat, t': ThreadId, i': nat :: DrainAt(ws[n], t, i) && DrainAt(ws[n], t', i') ==>
            t == t' && i == i'
    ensures |held| <= 1 && (!ws[n].draining ==> held == [])
    ensures ws[n].started + held + ws[n].queue == ws[n].staged
  {
    RunKeepsInv(ws, ls, n);
    held := HeldItem(ws[n]);
  }

  lemma HeldItem(w: World) returns (held: seq<Item>)
    requires Inv(w)
    ensures |held| <= 1 && (!w.draining ==> held == []) && w.started + held + w.queue == w.staged
  {
    held := [];
    if w.draining {
      var t: ThreadId, i: nat :| DrainAt(w, t, i);
      held := HeldBy(w.stacks[t][i]);
    } else {
      assert w.started + held + w.queue == w.started + w.queue;
    }
  }

  lemma StartedIsPrefix(w: World) returns (rest: seq<Item>)
    requires Inv(w)
    ensures w.started + rest == w.staged
  {
    var held := HeldItem(w);
    rest := held + w.queue;
    assert w.started + rest == w.started + held + w.queue;
  }

  // ---- Nothing is left behind ----

  ghost predicate FlushPending(w: World, t: ThreadId, i: nat) {
    t in w.stacks && i < |w.stacks[t]| && w.stacks[t][i].Op? && w.stacks[t][i].flushes > 0
  }

  /** Somebody drains, somebody will flush, or there is nothing to deliver. */
  ghost predicate Covered(w: World) {
    w.queue == [] || w.draining || exists t: ThreadId, i: nat :: FlushPending(w, t, i)
  }

  lemma StepKeepsCovered(w: World, l: Label)
    requires Enabled(w, l) && Inv(w) && !l.Panic? && (Covered(w) || l.Begin?)
    ensures Covered(Next(w, l))
  {
    var w' := Next(w, l);
    if l.Begin? {
      assert FlushPending(w', l.thread, |Stack(w, l.thread)|);
    } else if w'.queue != [] && !w'.draining {
      var t: ThreadId, i: nat :| FlushPending(w, t, i);
      assert FlushPending(w', t, i);
    }
  }

  lemma {:induction false} RunKeepsCovered(ws: seq<World>, ls: seq<Label>, b: nat, n: nat)
    requires IsRun(ws, ls) && b < n < |ws| && ls[b].Begin?
    requires forall i :: b <= i < n ==> !ls[i].Panic?
    ensures Covered(ws[n])
    decreases n
  {
    RunKeepsInv(ws, ls, n - 1);
    if b < n - 1 {
      RunKeepsCovered(ws, ls, b, n - 1);
    }
    StepKeepsCovered(ws[n - 1], ls[n - 1]);
  }

  /**
   Once every thread has finished its effects and no callback panicked since some staging step, the
   queue is empty and every publication ever staged has been started, in order.  In particular a
   panic only delays publications until the next state change.
   */
  lemma FinishedThreadsLeaveNothingQueued(ws: seq<World>, ls: seq<Label>, b: nat, n: nat)
    requires IsRun(ws, ls) && b < n < |ws| && ls[b].Begin?
    requires forall i :: b <= i < n ==> !ls[i].Panic?
    requires forall t :: t in ws[n].stacks ==> ws[n].stacks[t] == []
    ensures ws[n].queue == [] && !ws[n].draining && ws[n].started == ws[n].staged
  {
    RunKeepsCovered(ws, ls, b, n);
    var held := CallbacksStartInStagingOrder(ws, ls, n);
    RunKeepsInv(ws, ls, n);
  }
}
