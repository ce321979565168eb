/** src/readerwriterqueue.h, size_approx and max_capacity, called by one of the two threads
    while the other one goes on working.

    The walk round the ring is a third party that moves only when its owner, the producer or
    the consumer, is between calls of its own. Its loads of shared variables are steps of
    their own; taking its start at `frontBlock` is the first. It writes nothing. */
module SpscWalk {
  import opened Bits
  import opened Sums
  import opened SpscQueue
  import opened SpscInvariant
  import opened SpscEffects
  import opened SpscRuns
  import opened SpscQuiescent
  import opened SpscStructure

  datatype Owner = ByProducer | ByConsumer

  datatype Kind = SizeApprox | MaxCapacity

  /** Where the walk is, named after the step it takes next. `visited` counts the blocks that
      are in `result`; no step reads it. */
  datatype Walk =
    | Done(result: nat, visited: nat)
    | LoadFront(kind: Kind, first: Ptr, block: Ptr, result: nat, visited: nat)
    | LoadTail(kind: Kind, first: Ptr, block: Ptr, result: nat, visited: nat, front: nat)
    | LoadNext(kind: Kind, first: Ptr, block: Ptr, result: nat, visited: nat)

  datatype World<T> = World(q: State<T>, owner: Owner, w: Walk)

  datatype Event<T> =
    | Queue(act: Action<T>)
    | StartWalk(owner: Owner, kind: Kind)
    | WalkStep

  /** `(blockTail - blockFront) & sizeMask` */
  function Counted<T>(b: Block<T>, front: nat): nat {
    And(Wrap(b.tail - front), b.sizeMask)
  }

  function WalkNext<T>(q: State<T>, w: Walk): Walk
    requires !w.Done? && Valid(q, w.block)
  {
    var b := q.blocks[w.block];
    match w
    case LoadFront(kind, first, block, result, visited) =>
      if kind.MaxCapacity? then LoadNext(kind, first, block, result + b.sizeMask, visited + 1)
      else LoadTail(kind, first, block, result, visited, b.front)
    case LoadTail(kind, first, block, result, visited, front) =>
      LoadNext(kind, first, block, result + Counted(b, front), visited + 1)
    case LoadNext(kind, first, block, result, visited) =>
      if b.next == first then Done(result, visited) else LoadFront(kind, first, b.next, result, visited)
  }

  predicate OwnStep<T>(owner: Owner, act: Action<T>) {
    if owner.ByProducer? then act.Enqueue? || act.ProducerStep? else act.Dequeue? || act.ConsumerStep?
  }

  predicate CanHappen<T>(x: World<T>, e: Event<T>) {
    match e
    case Queue(act) => Can(x.q, act) && (x.w.Done? || !OwnStep(x.owner, act))
    case StartWalk(owner, _) => x.w.Done? && (if owner.ByProducer? then x.q.p.PIdle? else x.q.c.CIdle?)
    case WalkStep => !x.w.Done? && Valid(x.q, x.w.block)
  }

  function After<T>(x: World<T>, e: Event<T>): World<T>
    requires CanHappen(x, e)
  {
    match e
    case Queue(act) => x.(q := Do(x.q, act))
    case StartWalk(owner, kind) => World(x.q, owner, LoadFront(kind, x.q.frontBlock, x.q.frontBlock, 0, 0))
    case WalkStep => x.(w := WalkNext(x.q, x.w))
  }

  ghost predicate IsHistory<T>(tr: seq<World<T>>, es: seq<Event<T>>, size: nat, maxBlockSize: nat)
    requires maxBlockSize >= 2
  {
    && |tr| == |es| + 1 && tr[0] == World(InitialState(size, maxBlockSize), ByProducer, Done(0, 0))
    && forall i :: 0 <= i < |es| ==> CanHappen(tr[i], es[i]) && tr[i + 1] == After(tr[i], es[i])
  }

  ghost function EventView<T>(x: World<T>, a: View, e: Event<T>): View
    requires CanHappen(x, e)
  {
    if e.Queue? then NextView(x.q, a, e.act) else a
  }

  ghost function ViewAfter<T>(tr: seq<World<T>>, es: seq<Event<T>>, size: nat, maxBlockSize: nat, i: nat): View
    requires maxBlockSize >= 2 && IsHistory(tr, es, size, maxBlockSize) && i < |tr|
  {
    if i == 0 then InitialView(size, maxBlockSize)
    else EventView(tr[i - 1], ViewAfter(tr, es, size, maxBlockSize, i - 1), es[i - 1])
  }

  lemma {:induction false} HistoryInv<T>(tr: seq<World<T>>, es: seq<Event<T>>, size: nat, maxBlockSize: nat, i: nat)
    requires Configuration(size, maxBlockSize) && IsHistory(tr, es, size, maxBlockSize) && i < |tr|
    ensures Inv(tr[i].q, ViewAfter(tr, es, size, maxBlockSize, i))
  {
    hide Inv, NextView, Do, InitialState, InitialView;
    if i == 0 {
      InitialInv<T>(size, maxBlockSize);
    } else {
      HistoryInv(tr, es, size, maxBlockSize, i - 1);
      if es[i - 1].Queue? { StepKeeps(tr[i - 1].q, ViewAfter(tr, es, size, maxBlockSize, i - 1), es[i - 1].act); }
    }
  }

  // ------------------------------------------------------------ amounts

  /** What a walk is after in one block: its elements, or its usable cells. */
  function Amount<T>(kind: Kind, b: Block<T>, c: Counters): nat {
    if kind.MaxCapacity? then b.sizeMask else if c.f <= c.t then c.t - c.f else 0
  }

  function Amounts<T>(kind: Kind, blocks: seq<Block<T>>, v: seq<Counters>): (a: seq<nat>)
    requires |v| == |blocks|
    ensures |a| == |v| && forall b :: 0 <= b < |v| ==> a[b] == Amount(kind, blocks[b], v[b])
  {
    seq(|v|, b requires 0 <= b < |v| => Amount(kind, blocks[b], v[b]))
  }

  /** The usable cells of the first n blocks. */
  function UsableCells<T>(blocks: seq<Block<T>>, n: nat): nat
    requires n <= |blocks|
  {
    if n == 0 then 0 else UsableCells(blocks, n - 1) + blocks[n - 1].sizeMask
  }

  /** The blocks that are in the ring. */
  function LinkedBlocks<T>(s: State<T>): int {
    |s.blocks| - Unlinked(s.p)
  }

  /** What a walk is after in the whole queue: its length, with an element that is in place and
      not yet published; or the usable cells of the linked blocks. */
  ghost function Total<T>(kind: Kind, s: State<T>): int {
    if kind.SizeApprox? then |s.sent| - |s.received| + If(Pending(s.p))
    else if 0 <= LinkedBlocks(s) <= |s.blocks| then UsableCells(s.blocks, LinkedBlocks(s)) else 0
  }

  lemma {:induction false} ElementsSum<T>(s: State<T>, l: Layout, i: nat)
    requires |l.v| == |s.blocks| && i <= |l.ring|
    requires forall j :: 0 <= j < |l.ring| ==> 0 <= l.ring[j] < |l.v|
    requires forall b :: 0 <= b < |l.v| ==> l.v[b].f <= l.v[b].t
    ensures ElementsFrom(l, i) == Sum(Amounts(SizeApprox, s.blocks, l.v), l.ring) - Sum(Amounts(SizeApprox, s.blocks, l.v), l.ring[..i])
    decreases |l.ring| - i
  {
    var a := Amounts(SizeApprox, s.blocks, l.v);
    if i < |l.ring| {
      ElementsSum(s, l, i + 1);
      SumStep(a, l.ring, i);
    } else {
      assert l.ring[..i] == l.ring;
    }
  }

  lemma {:induction false} UsableSum<T>(blocks: seq<Block<T>>, v: seq<Counters>, n: nat)
    requires |v| == |blocks| && n <= |blocks|
    ensures Sum(Amounts(MaxCapacity, blocks, v), Range(n)) == UsableCells(blocks, n)
  {
    if n > 0 {
      UsableSum(blocks, v, n - 1);
      assert Range(n)[..n - 1] == Range(n - 1);
    }
  }

  /** Added up round the ring, the amounts are the total. */
  lemma RingTotal<T>(kind: Kind, s: State<T>, a: View)
    requires Inv(s, a)
    ensures |a.l.v| == |s.blocks| && Sum(Amounts(kind, s.blocks, a.l.v), a.l.ring) == Total(kind, s)
  {
    hide Consistent, ProducerOK, ConsumerOK;
    var l := a.l;
    Ordered(s, a);
    if kind.SizeApprox? {
      ElementsCount(MemoryOf(s), l);
      ElementsSum(s, l, 0);
    } else {
      RingMembers(s, a);
      SumAll(Amounts(kind, s.blocks, l.v), l.ring, |l.ring|);
      UsableSum(s.blocks, l.v, |l.ring|);
    }
  }

  lemma RingMembers<T>(s: State<T>, a: View)
    requires Core(s, a)
    ensures |a.l.ring| == LinkedBlocks(s) >= 1 && Covers(a.l.ring, |a.l.ring|) && a.l.ring[0] == s.frontBlock
    ensures forall k :: 0 <= k < |a.l.ring| ==> 0 <= a.l.ring[k] < |a.l.ring| <= |s.blocks|
    ensures forall k :: 0 <= k < |a.l.ring| ==> s.blocks[a.l.ring[k]].next == a.l.ring[Succ(k, |a.l.ring|)]
  {
    hide AllIndices, Payload, Order;
  }

  /** The links lead along the path, and from its last block to its first. */
  ghost predicate Linked<T>(q: State<T>, path: seq<Ptr>) {
    && |path| >= 1 && Covers(path, |path|) && |path| <= |q.blocks|
    && forall k :: 0 <= k < |path| ==> 0 <= path[k] < |q.blocks| && q.blocks[path[k]].next == path[Succ(k, |path|)]
  }

  lemma InvRing<T>(s: State<T>, a: View)
    requires Inv(s, a)
    ensures |a.l.v| == |s.blocks| && |a.l.ring| == LinkedBlocks(s) && Linked(s, a.l.ring) && a.l.ring[0] == s.frontBlock
    ensures forall k :: 0 <= k < |a.l.ring| ==> 0 <= a.l.ring[k] < |a.l.ring|
    ensures forall b :: 0 <= b < |a.l.v| ==> a.l.v[b].f <= a.l.v[b].t
  {
    hide Consistent, ProducerOK, ConsumerOK, Covers;
    RingMembers(s, a);
    Ordered(s, a);
  }

  /** What is read of a block is its amount: `tail` counter t, `front` counter f at the time
      each was read. */
  lemma CountedIs<T>(b: Block<T>, c: Counters, f: nat)
    requires Indices(b, c) && b.sizeMask + 1 <= HALF_WORD && f <= c.t <= f + b.sizeMask
    ensures Counted(b, Slot(f, b.sizeMask + 1)) == c.t - f
  {
    hide And;
    MaskedDistance(f, c.t, b.sizeMask + 1);
    WrapIsSub64(b.tail, Slot(f, b.sizeMask + 1));
  }

  lemma WrapIsSub64(x: nat, y: nat)
    requires x < WORD && y < WORD
    ensures Wrap(x - y) == Sub64(x, y)
  {
  }

  // ------------------------------------------------------------ the producer walks

  /** What the consumer's steps leave alone while the producer is between calls, and what they
      move. */
  ghost predicate ConsumerMoves<T>(q: State<T>, l: Layout, q': State<T>, l': Layout, x: Ptr)
    requires |l.v| == |q.blocks|
  {
    && q'.p == q.p && q'.sent == q.sent && |q'.blocks| == |q.blocks| == |l'.v|
    && (forall b :: 0 <= b < |q.blocks| ==>
          && q'.blocks[b].next == q.blocks[b].next && q'.blocks[b].sizeMask == q.blocks[b].sizeMask
          && l'.v[b].t == l.v[b].t && l'.v[b].lf == l.v[b].lf && l'.v[b].f == l.v[b].f + If(b == x))
    && |q'.received| == |q.received| + If(x != NULL)
    && (x != NULL ==> 0 <= x < |q.blocks|)
  }

  /** The block that the consumer's next step takes an element from. */
  function TakesFrom<T>(q: State<T>, act: Action<T>): Ptr {
    if act.ConsumerStep? && q.c.CStoreFront? then q.c.fb else NULL
  }

  lemma ConsumerStepMoves<T>(q: State<T>, a: View, act: Action<T>)
    requires Inv(q, a) && Can(q, act) && (act.Dequeue? || act.ConsumerStep?)
    ensures |a.l.v| == |q.blocks|
    ensures ConsumerMoves(q, a.l, Do(q, act), NextView(q, a, act).l, TakesFrom(q, act))
  {
    hide Consistent, ProducerOK;
    RingFacts(MemoryOf(q), a.l);
    Ordered(q, a);
    if act.ConsumerStep? {
      ConsumerLeavesLinks(q);
      hide ConsumerNext, CountersAdvance, Advance;
      forall b | 0 <= b < |q.blocks| ensures ConsumerLayout(q, a.l).v[b].lf == a.l.v[b].lf { }
      forall b: nat | b < |q.blocks| ensures CountersAdvance(q, ConsumerStep, b, a.l.v[b], ConsumerLayout(q, a.l).v[b]) {
        ConsumerAdvances(q, a, b);
      }
    }
  }

  lemma ConsumerLeavesLinks<T>(q: State<T>)
    requires !q.c.CIdle? && ConsumerSafe(q)
    ensures var q' := ConsumerNext(q);
      && q'.p == q.p && q'.sent == q.sent && |q'.blocks| == |q.blocks|
      && |q'.received| == |q.received| + If(q.c.CStoreFront?)
      && forall b :: 0 <= b < |q.blocks| ==> q'.blocks[b].next == q.blocks[b].next && q'.blocks[b].sizeMask == q.blocks[b].sizeMask
  {
    hide Advance;
  }

  /** The walk has passed the first n blocks of the path, and stands at the next one or has
      just counted the last one. */
  ghost predicate OnPath(w: Walk, kind: Kind, path: seq<Ptr>, n: nat) {
    match w
    case Done(_, _) => n == |path|
    case LoadFront(k, first, block, _, _) => k == kind && n < |path| && first == path[0] && block == path[n]
    case LoadTail(k, first, block, _, _, _) =>
      k == kind && kind.SizeApprox? && n < |path| && first == path[0] && block == path[n]
    case LoadNext(k, first, block, _, _) => k == kind && 1 <= n <= |path| && first == path[0] && block == path[n - 1]
  }

  /** A load of `front` that came in while the counter went from lo to hi. */
  predicate LoadedAt(front: nat, sizeMask: nat, f: nat, lo: nat, hi: nat) {
    lo <= f <= hi && front == Slot(f, sizeMask + 1)
  }

  /** The producer's walk: the ring is as it was, only that elements have been taken out. What
      is counted lies between what the blocks passed hold now and what they held at first; and
      what all blocks hold is what the queue holds. */
  ghost predicate ProducerWalks<T>(kind: Kind, q0: State<T>, l0: Layout, q: State<T>, l: Layout, w: Walk)
    requires |l0.v| == |q0.blocks|
  {
    && q.p.PIdle? && q0.p.PIdle? && |q.blocks| == |q0.blocks| == |l.v| == |l0.ring| && Covers(l0.ring, |l0.ring|)
    && q.sent == q0.sent && |q.received| >= |q0.received|
    && (forall b :: 0 <= b < |q.blocks| ==>
          && q.blocks[b].next == q0.blocks[b].next && q.blocks[b].sizeMask == q0.blocks[b].sizeMask
          && l.v[b].t == l0.v[b].t && l.v[b].lf == l0.v[b].lf && l0.v[b].f <= l.v[b].f)
    && Sum(Amounts(SizeApprox, q.blocks, l.v), l0.ring) == |q.sent| - |q.received|
    && OnPath(w, kind, l0.ring, w.visited) && w.visited <= |l0.ring|
    && Sum(Amounts(kind, q.blocks, l.v), l0.ring[..w.visited]) <= w.result
    && w.result <= Sum(Amounts(kind, q0.blocks, l0.v), l0.ring[..w.visited])
    && (w.LoadTail? ==> exists f: nat :: LoadedAt(w.front, q.blocks[w.block].sizeMask, f, l0.v[w.block].f, l.v[w.block].f))
  }

  lemma ProducerSetsOut<T>(kind: Kind, q: State<T>, a: View)
    requires Inv(q, a) && q.p.PIdle?
    ensures |a.l.v| == |q.blocks|
    ensures ProducerWalks(kind, q, a.l, q, a.l, LoadFront(kind, q.frontBlock, q.frontBlock, 0, 0))
  {
    hide Inv, Amounts, Covers;
    RingTotal(SizeApprox, q, a);
    InvRing(q, a);
    assert a.l.ring[..0] == [];
  }

  /** A step of the consumer does not disturb the producer's walk. */
  lemma ProducerWalkHolds<T>(kind: Kind, q0: State<T>, l0: Layout, q: State<T>, l: Layout, w: Walk, q': State<T>, l': Layout, x: Ptr)
    requires |l0.v| == |q0.blocks| && |l.v| == |q.blocks| && ProducerWalks(kind, q0, l0, q, l, w) && ConsumerMoves(q, l, q', l', x)
    requires forall b :: 0 <= b < |l.v| ==> l.v[b].f <= l.v[b].t
    requires forall b :: 0 <= b < |l'.v| ==> l'.v[b].f <= l'.v[b].t
    ensures ProducerWalks(kind, q0, l0, q', l', w)
  {
    hide Sum, Covers;
    var a, a' := Amounts(kind, q.blocks, l.v), Amounts(kind, q'.blocks, l'.v);
    forall b ensures Get(a', b) <= Get(a, b) { }
    SumMonotone(a', a, l0.ring[..w.visited]);
    OneLess(q, l, q', l', l0.ring, x);
    if w.LoadTail? {
      Within(l0.ring, |l0.ring|, w.visited);
      var f: nat :| LoadedAt(w.front, q.blocks[w.block].sizeMask, f, l0.v[w.block].f, l.v[w.block].f);
      assert LoadedAt(w.front, q'.blocks[w.block].sizeMask, f, l0.v[w.block].f, l'.v[w.block].f);
    }
  }

  lemma OneLess<T>(q: State<T>, l: Layout, q': State<T>, l': Layout, path: seq<Ptr>, x: Ptr)
    requires |l.v| == |q.blocks| && ConsumerMoves(q, l, q', l', x) && Covers(path, |q.blocks|)
    requires forall b :: 0 <= b < |l.v| ==> l.v[b].f <= l.v[b].t
    requires forall b :: 0 <= b < |l'.v| ==> l'.v[b].f <= l'.v[b].t
    ensures Sum(Amounts(SizeApprox, q'.blocks, l'.v), path) + If(x != NULL) == Sum(Amounts(SizeApprox, q.blocks, l.v), path)
  {
    hide Sum, Slot;
    var a, a' := Amounts(SizeApprox, q.blocks, l.v), Amounts(SizeApprox, q'.blocks, l'.v);
    if x == NULL {
      SumSame(a, a', path);
    } else {
      SumDrops(a, a', path, x);
    }
  }

  /** What the producer reads of a block is no less than what is there now, and no more than
      what was there at first. */
  lemma ReadsAmount<T>(q0: State<T>, a0: View, q: State<T>, a: View, b: Ptr, front: nat, f: nat)
    requires Inv(q0, a0) && Inv(q, a) && 0 <= b < |q.blocks| == |q0.blocks| == |a0.l.v| == |a.l.v|
    requires a.l.v[b].t == a0.l.v[b].t && a.l.v[b].lf == a0.l.v[b].lf
    requires LoadedAt(front, q.blocks[b].sizeMask, f, a0.l.v[b].f, a.l.v[b].f)
    ensures Amount(SizeApprox, q.blocks[b], a.l.v[b]) <= Counted(q.blocks[b], front) <= Amount(SizeApprox, q0.blocks[b], a0.l.v[b])
  {
    hide Consistent, ProducerOK, ConsumerOK, IsPow2;
    BlockFacts(MemoryOf(q0), a0.l, b);
    BlockFacts(MemoryOf(q), a.l, b);
    CountedIs(q.blocks[b], a.l.v[b], f);
  }

  lemma NextOnPath<T>(q: State<T>, path: seq<Ptr>, kind: Kind, w: Walk, n: nat)
    requires Linked(q, path) && w.LoadNext? && OnPath(w, kind, path, n)
    ensures Valid(q, w.block) && !WalkNext(q, w).LoadTail? && WalkNext(q, w).result == w.result
    ensures OnPath(WalkNext(q, w), kind, path, n)
    ensures WalkNext(q, w).visited == w.visited
  {
    assert q.blocks[path[n - 1]].next == path[Succ(n - 1, |path|)];
    if n < |path| { assert path[0] != path[n]; }
  }

  lemma ProducerPath<T>(q0: State<T>, a0: View, q: State<T>)
    requires Inv(q0, a0)
    requires |q.blocks| == |q0.blocks| && forall b :: 0 <= b < |q.blocks| ==> q.blocks[b].next == q0.blocks[b].next
    ensures Linked(q, a0.l.ring)
  {
    hide Inv, Covers;
    InvRing(q0, a0);
    forall k | 0 <= k < |a0.l.ring|
      ensures 0 <= a0.l.ring[k] < |q.blocks| && q.blocks[a0.l.ring[k]].next == a0.l.ring[Succ(k, |a0.l.ring|)]
    {
      assert q0.blocks[a0.l.ring[k]].next == a0.l.ring[Succ(k, |a0.l.ring|)];
    }
  }

  /** A step of the producer's walk. */
  lemma ProducerWalkGoesOn<T>(kind: Kind, q0: State<T>, a0: View, q: State<T>, a: View, w: Walk)
    requires Inv(q0, a0) && Inv(q, a) && |a0.l.v| == |q0.blocks|
    requires ProducerWalks(kind, q0, a0.l, q, a.l, w) && !w.Done?
    ensures Valid(q, w.block) && ProducerWalks(kind, q0, a0.l, q, a.l, WalkNext(q, w))
  {
    hide Inv, Sum, Covers, Slot;
    var l0, l := a0.l, a.l;
    Within(l0.ring, |l0.ring|, if w.LoadNext? then w.visited - 1 else w.visited);
    match w
    case LoadFront(_, _, block, result, visited) =>
      if kind.SizeApprox? {
        CountersStand(q, a, block);
        assert LoadedAt(q.blocks[block].front, q.blocks[block].sizeMask, l.v[block].f, l0.v[block].f, l.v[block].f);
      } else {
        CountsBlock(Amounts(kind, q.blocks, l.v), Amounts(kind, q0.blocks, l0.v), l0.ring, visited, result, q.blocks[block].sizeMask);
      }
    case LoadTail(_, _, block, result, visited, front) =>
      var f: nat :| LoadedAt(front, q.blocks[block].sizeMask, f, l0.v[block].f, l.v[block].f);
      ReadsAmount(q0, a0, q, a, block, front, f);
      CountsBlock(Amounts(kind, q.blocks, l.v), Amounts(kind, q0.blocks, l0.v), l0.ring, visited, result, Counted(q.blocks[block], front));
    case LoadNext(_, _, _, _, _) =>
      ProducerPath(q0, a0, q);
      NextOnPath(q, l0.ring, kind, w, w.visited);
  }

  // ------------------------------------------------------------ the consumer walks

  /** The ring after a block is linked in at position p; no block for p == 0. */
  function Inserted(ring: seq<Ptr>, p: nat): seq<Ptr> {
    if 1 <= p <= |ring| then ring[..p] + [|ring|] + ring[p..] else ring
  }

  /** What the producer's steps leave alone while the consumer is between calls, and what they
      move. */
  ghost predicate ProducerMoves<T>(q: State<T>, l: Layout, q': State<T>, l': Layout, p: nat)
    requires |l.v| == |q.blocks|
  {
    && q'.c == q.c && q'.received == q.received && |q.blocks| <= |q'.blocks| == |l'.v|
    && (forall b :: 0 <= b < |q.blocks| ==>
          && q'.blocks[b].front == q.blocks[b].front && q'.blocks[b].sizeMask == q.blocks[b].sizeMask
          && l'.v[b].f == l.v[b].f && l'.v[b].t >= l.v[b].t)
    && l'.ring == Inserted(l.ring, p)
  }

  function LinksAt<T>(q: State<T>, l: Layout, act: Action<T>): nat {
    if act.ProducerStep? && q.p.PLinkNew? then l.tp + 1 else 0
  }

  lemma ProducerStepMoves<T>(q: State<T>, a: View, act: Action<T>)
    requires Inv(q, a) && Can(q, act) && (act.Enqueue? || act.ProducerStep?)
    ensures |a.l.v| == |q.blocks|
    ensures ProducerMoves(q, a.l, Do(q, act), NextView(q, a, act).l, LinksAt(q, a.l, act))
  {
    hide Inv, CountersAdvance, Advance;
    InvRing(q, a);
    if act.ProducerStep? {
      ProducerLeaves(q, act.mallocOk);
      ProducerLeavesFronts(q, act.mallocOk);
      if q.p.PLinkNew? { LinkedInLast(q, a); }
      ProducerRing(q, a.l, act.mallocOk);
      ProducerRaises(q, a, act.mallocOk);
    }
  }

  lemma ProducerRing<T>(q: State<T>, l: Layout, ok: bool)
    requires !q.p.PIdle? && (q.p.PLinkNew? ==> l.tp < |l.ring| == q.p.nb)
    ensures ProducerLayout(q, l, ok).ring == Inserted(l.ring, LinksAt(q, l, ProducerStep(ok)))
    ensures |ProducerLayout(q, l, ok).v| == |l.v| + If(q.p.PAllocate? && ok)
  {
  }

  /** The block linked in is the one number that the ring lacks. */
  lemma LinkedInLast<T>(q: State<T>, a: View)
    requires Inv(q, a) && q.p.PLinkNew?
    ensures a.l.tp < |a.l.ring| == q.p.nb
  {
    hide Consistent, ConsumerOK, Sizes;
    RingFacts(MemoryOf(q), a.l);
  }

  lemma ProducerRaises<T>(q: State<T>, a: View, ok: bool)
    requires Inv(q, a) && !q.p.PIdle?
    ensures |ProducerLayout(q, a.l, ok).v| >= |a.l.v| == |q.blocks|
    ensures forall b :: 0 <= b < |q.blocks| ==>
      ProducerLayout(q, a.l, ok).v[b].f == a.l.v[b].f && ProducerLayout(q, a.l, ok).v[b].t >= a.l.v[b].t
  {
    hide Consistent, ConsumerOK, Sizes;
    InvRing(q, a);
    forall b: nat | b < |q.blocks|
      ensures |ProducerLayout(q, a.l, ok).v| >= |a.l.v|
      ensures ProducerLayout(q, a.l, ok).v[b].f == a.l.v[b].f && ProducerLayout(q, a.l, ok).v[b].t >= a.l.v[b].t
    {
      Ordered(q, a);
      ProducerAdvances(q, a, ok, b);
    }
  }

  /** The amounts of the blocks that were linked at first, and nothing for later ones. */
  ghost function FirstAmounts<T>(kind: Kind, q0: State<T>, l0: Layout): seq<nat>
    requires |l0.v| == |q0.blocks| && |l0.ring| <= |l0.v|
  {
    Amounts(kind, q0.blocks, l0.v)[..|l0.ring|]
  }

  /** Blocks and elements come in and none go out. */
  ghost predicate Filling<T>(q0: State<T>, l0: Layout, q: State<T>, l: Layout)
    requires |l0.v| == |q0.blocks|
  {
    && |q0.blocks| <= |q.blocks| == |l.v|
    && forall b :: 0 <= b < |q0.blocks| ==>
      && q.blocks[b].front == q0.blocks[b].front && q.blocks[b].sizeMask == q0.blocks[b].sizeMask
      && l.v[b].f == l0.v[b].f && l.v[b].t >= l0.v[b].t
  }

  /** A result with n blocks of the ring passed: see ConsumerWalks. */
  ghost predicate Between(first: seq<nat>, ring0: seq<Ptr>, now: seq<nat>, ring: seq<Ptr>, n: nat, result: nat) {
    && n <= |ring| && result <= Sum(now, ring[..n])
    && Sum(first, ring0) <= result + Sum(first, ring[n..])
  }

  /** The consumer's walk: elements are put in and blocks linked in, and some of those may be
      missed. What is counted is no more than what the blocks passed hold now, n of them by
      the ring as it is now; and with what the blocks ahead held at first, it is no less than
      what was there at first. */
  ghost predicate ConsumerWalks<T>(kind: Kind, q0: State<T>, l0: Layout, q: State<T>, l: Layout, w: Walk, n: nat)
    requires |l0.v| == |q0.blocks| && |l0.ring| <= |l0.v|
  {
    && q.c.CIdle? && q.received == q0.received && |l.ring| <= |l.v| && Filling(q0, l0, q, l)
    && w.visited <= n <= |l.ring| && OnPath(w, kind, l.ring, n)
    && Between(FirstAmounts(kind, q0, l0), l0.ring, Amounts(kind, q.blocks, l.v), l.ring, n, w.result)
    && (w.LoadTail? ==> Valid(q, w.block) && w.front == q.blocks[w.block].front)
  }

  lemma ConsumerSetsOut<T>(kind: Kind, q: State<T>, a: View)
    requires Inv(q, a) && q.c.CIdle?
    ensures |a.l.v| == |q.blocks| && |a.l.ring| <= |a.l.v|
    ensures ConsumerWalks(kind, q, a.l, q, a.l, LoadFront(kind, q.frontBlock, q.frontBlock, 0, 0), 0)
  {
    hide Inv, Amounts, Covers;
    InvRing(q, a);
    assert a.l.ring[0..] == a.l.ring;
  }

  /** Where the walk is after a block has been linked in at p. */
  function StillAt(w: Walk, n: nat, p: nat): nat {
    if 1 <= p && p + If(w.LoadNext?) <= n then n + 1 else n
  }

  /** The part of the ring passed and the part ahead, after a block has been linked in. */
  lemma InsertedParts(ring: seq<Ptr>, p: nat, w: Walk, kind: Kind, n: nat)
    requires !w.Done? && n <= |ring| && |ring| >= 1 && OnPath(w, kind, ring, n)
    ensures var ring', n' := Inserted(ring, p), StillAt(w, n, if p <= |ring| then p else 0);
      && n' <= |ring'| && OnPath(w, kind, ring', n')
      && (ring'[..n'] == ring[..n] || (p <= n && ring'[..n'] == ring[..p] + [|ring|] + ring[p..n]))
      && (ring'[n'..] == ring[n..] || (n <= p <= |ring| && ring'[n'..] == ring[n..p] + [|ring|] + ring[p..]))
  {
  }

  lemma MoreAhead(a: seq<nat>, x: seq<int>, b: int, y: seq<int>)
    ensures Sum(a, x + y) <= Sum(a, x + [b] + y)
  {
    SumInserted(a, x, b, y);
  }

  /** Passed and ahead, nothing is lost when a block is linked in. */
  lemma SumsAfterLink(a: seq<nat>, ring: seq<Ptr>, p: nat, w: Walk, kind: Kind, n: nat)
    requires !w.Done? && n <= |ring| && |ring| >= 1 && OnPath(w, kind, ring, n)
    ensures var ring', n' := Inserted(ring, p), StillAt(w, n, if p <= |ring| then p else 0);
      n' <= |ring'| && Sum(a, ring[..n]) <= Sum(a, ring'[..n']) && Sum(a, ring[n..]) <= Sum(a, ring'[n'..])
  {
    hide Sum, OnPath;
    InsertedParts(ring, p, w, kind, n);
    if p <= n { MoreAhead(a, ring[..p], |ring|, ring[p..n]); assert ring[..p] + ring[p..n] == ring[..n]; }
    if n <= p <= |ring| { MoreAhead(a, ring[n..p], |ring|, ring[p..]); assert ring[n..p] + ring[p..] == ring[n..]; }
  }

  lemma KeepsFilling<T>(q0: State<T>, l0: Layout, q: State<T>, l: Layout, q': State<T>, l': Layout, p: nat)
    requires |l0.v| == |q0.blocks| && Filling(q0, l0, q, l) && ProducerMoves(q, l, q', l', p)
    ensures Filling(q0, l0, q', l')
  {
  }

  lemma AmountsGrow<T>(kind: Kind, q: State<T>, l: Layout, q': State<T>, l': Layout, p: nat, b: int)
    requires |l.v| == |q.blocks| && ProducerMoves(q, l, q', l', p) && forall b :: 0 <= b < |l.v| ==> l.v[b].f <= l.v[b].t
    ensures |l'.v| == |q'.blocks| && Get(Amounts(kind, q.blocks, l.v), b) <= Get(Amounts(kind, q'.blocks, l'.v), b)
  {
  }

  lemma StaysBetween(first: seq<nat>, ring0: seq<Ptr>, now: seq<nat>, now': seq<nat>, ring: seq<Ptr>, p: nat, w: Walk, kind: Kind, n: nat)
    requires Between(first, ring0, now, ring, n, w.result) && forall b :: Get(now, b) <= Get(now', b)
    requires !w.Done? && n <= |ring| && |ring| >= 1 && OnPath(w, kind, ring, n)
    ensures Between(first, ring0, now', Inserted(ring, p), StillAt(w, n, if p <= |ring| then p else 0), w.result)
  {
    hide Sum, OnPath, Inserted;
    SumsAfterLink(now', ring, p, w, kind, n);
    SumsAfterLink(first, ring, p, w, kind, n);
    SumMonotone(now, now', ring[..n]);
  }

  /** A step of the producer does not disturb the consumer's walk. */
  lemma ConsumerWalkHolds<T>(kind: Kind, q0: State<T>, l0: Layout, q: State<T>, l: Layout, w: Walk, n: nat, q': State<T>, l': Layout, p: nat)
    returns (n': nat)
    requires |l0.v| == |q0.blocks| && |l0.ring| <= |l0.v| && |l.v| == |q.blocks|
    requires ConsumerWalks(kind, q0, l0, q, l, w, n) && !w.Done? && ProducerMoves(q, l, q', l', p)
    requires |l.ring| >= 1 && |l'.ring| <= |l'.v| && forall b :: 0 <= b < |l.v| ==> l.v[b].f <= l.v[b].t
    ensures ConsumerWalks(kind, q0, l0, q', l', w, n')
  {
    n' := StillAt(w, n, if p <= |l.ring| then p else 0);
    var a, a' := Amounts(kind, q.blocks, l.v), Amounts(kind, q'.blocks, l'.v);
    hide Filling, Between, Amounts, OnPath, Inserted, FirstAmounts;
    KeepsFilling(q0, l0, q, l, q', l', p);
    forall b ensures Get(a, b) <= Get(a', b) { AmountsGrow(kind, q, l, q', l', p, b); }
    InsertedParts(l.ring, p, w, kind, n);
    StaysBetween(FirstAmounts(kind, q0, l0), l0.ring, a, a', l.ring, p, w, kind, n);
  }

  /** A step of the consumer's walk. */
  lemma ConsumerWalkGoesOn<T>(kind: Kind, q0: State<T>, l0: Layout, q: State<T>, a: View, w: Walk, n: nat)
    returns (n': nat)
    requires |l0.v| == |q0.blocks| && |l0.ring| <= |l0.v| && Inv(q, a)
    requires ConsumerWalks(kind, q0, l0, q, a.l, w, n) && !w.Done?
    requires forall b :: 0 <= b < |l0.v| ==> l0.v[b].f <= l0.v[b].t
    ensures Valid(q, w.block) && ConsumerWalks(kind, q0, l0, q, a.l, WalkNext(q, w), n')
  {
    var l := a.l;
    hide Inv, Linked, Filling, Between, Amounts, FirstAmounts, Counted;
    InvRing(q, a);
    n' := n;
    match w
    case LoadFront(_, _, block, result, visited) =>
      if kind.MaxCapacity? {
        n' := n + 1;
        CountsAhead(kind, q0, l0, q, l, n, result, q.blocks[block].sizeMask);
      }
    case LoadTail(_, _, block, result, visited, front) =>
      n' := n + 1;
      ReadsNow(q, a, block);
      CountsAhead(kind, q0, l0, q, l, n, result, Counted(q.blocks[block], front));
    case LoadNext(_, _, _, _, _) =>
      NextOnPath(q, l.ring, kind, w, n);
  }

  lemma ReadsNow<T>(q: State<T>, a: View, b: Ptr)
    requires Inv(q, a) && 0 <= b < |q.blocks| == |a.l.v|
    ensures Counted(q.blocks[b], q.blocks[b].front) == Amount(SizeApprox, q.blocks[b], a.l.v[b])
  {
    hide Consistent, ProducerOK, ConsumerOK, IsPow2;
    BlockFacts(MemoryOf(q), a.l, b);
    CountedIs(q.blocks[b], a.l.v[b], a.l.v[b].f);
  }

  lemma CountsAhead<T>(kind: Kind, q0: State<T>, l0: Layout, q: State<T>, l: Layout, n: nat, result: nat, amount: nat)
    requires |l0.v| == |q0.blocks| && |l0.ring| <= |l0.v| && Filling(q0, l0, q, l)
    requires forall b :: 0 <= b < |l0.v| ==> l0.v[b].f <= l0.v[b].t
    requires n < |l.ring| && 0 <= l.ring[n] < |q.blocks| && amount == Amount(kind, q.blocks[l.ring[n]], l.v[l.ring[n]])
    requires Between(FirstAmounts(kind, q0, l0), l0.ring, Amounts(kind, q.blocks, l.v), l.ring, n, result)
    ensures Between(FirstAmounts(kind, q0, l0), l0.ring, Amounts(kind, q.blocks, l.v), l.ring, n + 1, result + amount)
  {
    assert Get(FirstAmounts(kind, q0, l0), l.ring[n]) <= amount == Get(Amounts(kind, q.blocks, l.v), l.ring[n]);
    hide Sum, Amounts, FirstAmounts, Filling;
    SumStep(Amounts(kind, q.blocks, l.v), l.ring, n);
    SumConcat(FirstAmounts(kind, q0, l0), [l.ring[n]], l.ring[n + 1..]);
    SumOne(FirstAmounts(kind, q0, l0), l.ring[n]);
    assert l.ring[n..] == [l.ring[n]] + l.ring[n + 1..];
  }

  // ------------------------------------------------------------ whole walks

  /** Events i .. j - 1 belong to the walk that starts with event i, or to the two threads. */
  ghost predicate WalkCall<T>(tr: seq<World<T>>, es: seq<Event<T>>, i: nat, j: nat, owner: Owner, kind: Kind) {
    && i < j < |tr| && |tr| == |es| + 1 && es[i] == StartWalk(owner, kind)
    && forall k :: i < k < j ==> !tr[k].w.Done?
  }

  /** Steps of the walk among events i .. j - 1. */
  function WalkSteps<T>(es: seq<Event<T>>, i: nat, j: nat): (n: nat)
    requires j <= |es|
  {
    if i >= j then 0 else WalkSteps(es, i, j - 1) + If(es[j - 1].WalkStep?)
  }

  /** How many steps a walk has taken, at most. */
  function StepsTaken(w: Walk): int {
    match w
    case Done(_, visited) => 3 * visited
    case LoadFront(_, _, _, _, visited) => 3 * visited
    case LoadTail(_, _, _, _, visited, _) => 3 * visited + 1
    case LoadNext(_, _, _, _, visited) => 3 * visited - 1
  }

  lemma {:induction false} StepsCounted<T>(tr: seq<World<T>>, es: seq<Event<T>>, size: nat, maxBlockSize: nat, i: nat, j: nat, owner: Owner, kind: Kind)
    requires maxBlockSize >= 2 && IsHistory(tr, es, size, maxBlockSize) && WalkCall(tr, es, i, j, owner, kind)
    ensures WalkSteps(es, i, j) <= StepsTaken(tr[j].w) && tr[j].owner == owner
    decreases j
  {
    hide Do, Can, InitialState, Counted;
    if j > i + 1 {
      StepsCounted(tr, es, size, maxBlockSize, i, j - 1, owner, kind);
    } else {
      assert WalkSteps(es, i, i) == 0;
    }
  }

  lemma ProducerWalkEvent<T>(kind: Kind, q0: State<T>, a0: View, x: World<T>, a: View, e: Event<T>)
    requires CanHappen(x, e) && Inv(q0, a0) && Inv(x.q, a) && Inv(After(x, e).q, EventView(x, a, e))
    requires |a0.l.v| == |q0.blocks| && ProducerWalks(kind, q0, a0.l, x.q, a.l, x.w) && x.owner.ByProducer? && !x.w.Done?
    ensures ProducerWalks(kind, q0, a0.l, After(x, e).q, EventView(x, a, e).l, After(x, e).w)
  {
    hide Inv, ProducerWalks, ConsumerMoves, NextView, Do, Can, WalkNext, Linked;
    match e
    case Queue(act) =>
      InvRing(x.q, a);
      InvRing(Do(x.q, act), NextView(x.q, a, act));
      ConsumerStepMoves(x.q, a, act);
      ProducerWalkHolds(kind, q0, a0.l, x.q, a.l, x.w, Do(x.q, act), NextView(x.q, a, act).l, TakesFrom(x.q, act));
    case WalkStep => ProducerWalkGoesOn(kind, q0, a0, x.q, a, x.w);
    case _ =>
  }

  lemma OneEvent<T>(tr: seq<World<T>>, es: seq<Event<T>>, size: nat, maxBlockSize: nat, i: nat)
    requires Configuration(size, maxBlockSize) && IsHistory(tr, es, size, maxBlockSize) && i < |es|
    ensures |tr| == |es| + 1 && CanHappen(tr[i], es[i]) && tr[i + 1] == After(tr[i], es[i])
    ensures ViewAfter(tr, es, size, maxBlockSize, i + 1) == EventView(tr[i], ViewAfter(tr, es, size, maxBlockSize, i), es[i])
    ensures Inv(tr[i].q, ViewAfter(tr, es, size, maxBlockSize, i))
    ensures Inv(tr[i + 1].q, ViewAfter(tr, es, size, maxBlockSize, i + 1))
  {
    hide Inv, EventView, After, CanHappen, InitialView, InitialState;
    HistoryInv(tr, es, size, maxBlockSize, i);
    HistoryInv(tr, es, size, maxBlockSize, i + 1);
  }

  lemma ProducerWalkStarts<T>(kind: Kind, x: World<T>, a: View, e: Event<T>)
    requires CanHappen(x, e) && Inv(x.q, a) && e == StartWalk(ByProducer, kind)
    ensures |a.l.v| == |x.q.blocks| && ProducerWalks(kind, x.q, a.l, After(x, e).q, EventView(x, a, e).l, After(x, e).w)
  {
    hide Inv, ProducerWalks, Can, Do, NextView;
    ProducerSetsOut(kind, x.q, a);
  }

  lemma ConsumerWalkStarts<T>(kind: Kind, x: World<T>, a: View, e: Event<T>)
    requires CanHappen(x, e) && Inv(x.q, a) && e == StartWalk(ByConsumer, kind)
    ensures |a.l.v| == |x.q.blocks| && |a.l.ring| <= |a.l.v|
    ensures ConsumerWalks(kind, x.q, a.l, After(x, e).q, EventView(x, a, e).l, After(x, e).w, 0)
  {
    hide Inv, ConsumerWalks, Can, Do, NextView;
    ConsumerSetsOut(kind, x.q, a);
  }

  lemma {:induction false} ProducerWalkInv<T>(tr: seq<World<T>>, es: seq<Event<T>>, size: nat, maxBlockSize: nat, i: nat, j: nat, kind: Kind)
    requires Configuration(size, maxBlockSize) && IsHistory(tr, es, size, maxBlockSize) && WalkCall(tr, es, i, j, ByProducer, kind)
    ensures var l0, l := ViewAfter(tr, es, size, maxBlockSize, i).l, ViewAfter(tr, es, size, maxBlockSize, j).l;
      |l0.v| == |tr[i].q.blocks| && ProducerWalks(kind, tr[i].q, l0, tr[j].q, l, tr[j].w)
    decreases j
  {
    hide IsHistory, ViewAfter, Inv, ProducerWalks, EventView, After, CanHappen;
    var a0, a := ViewAfter(tr, es, size, maxBlockSize, i), ViewAfter(tr, es, size, maxBlockSize, j - 1);
    OneEvent(tr, es, size, maxBlockSize, i);
    OneEvent(tr, es, size, maxBlockSize, j - 1);
    if j == i + 1 {
      ProducerWalkStarts(kind, tr[i], a0, es[i]);
    } else {
      ProducerWalkInv(tr, es, size, maxBlockSize, i, j - 1, kind);
      StepsCounted(tr, es, size, maxBlockSize, i, j - 1, ByProducer, kind);
      ProducerWalkEvent(kind, tr[i].q, a0, tr[j - 1], a, es[j - 1]);
    }
  }

  lemma ConsumerWalkEvent<T>(kind: Kind, q0: State<T>, a0: View, x: World<T>, a: View, e: Event<T>, n: nat) returns (n': nat)
    requires CanHappen(x, e) && Inv(q0, a0) && Inv(x.q, a) && Inv(After(x, e).q, EventView(x, a, e))
    requires |a0.l.v| == |q0.blocks| && |a0.l.ring| <= |a0.l.v|
    requires ConsumerWalks(kind, q0, a0.l, x.q, a.l, x.w, n) && x.owner.ByConsumer? && !x.w.Done?
    ensures ConsumerWalks(kind, q0, a0.l, After(x, e).q, EventView(x, a, e).l, After(x, e).w, n')
  {
    hide Inv, ConsumerWalks, ProducerMoves, NextView, Do, Can, WalkNext;
    InvRing(x.q, a);
    n' := n;
    match e
    case Queue(act) =>
      InvRing(Do(x.q, act), NextView(x.q, a, act));
      hide Linked;
      ProducerStepMoves(x.q, a, act);
      n' := ConsumerWalkHolds(kind, q0, a0.l, x.q, a.l, x.w, n, Do(x.q, act), NextView(x.q, a, act).l, LinksAt(x.q, a.l, act));
    case WalkStep =>
      InvRing(q0, a0);
      n' := ConsumerWalkGoesOn(kind, q0, a0.l, x.q, a, x.w, n);
    case _ =>
  }

  lemma {:induction false} ConsumerWalkInv<T>(tr: seq<World<T>>, es: seq<Event<T>>, size: nat, maxBlockSize: nat, i: nat, j: nat, kind: Kind)
    returns (n: nat)
    requires Configuration(size, maxBlockSize) && IsHistory(tr, es, size, maxBlockSize) && WalkCall(tr, es, i, j, ByConsumer, kind)
    ensures var l0, l := ViewAfter(tr, es, size, maxBlockSize, i).l, ViewAfter(tr, es, size, maxBlockSize, j).l;
      && |l0.v| == |tr[i].q.blocks| && |l0.ring| <= |l0.v|
      && ConsumerWalks(kind, tr[i].q, l0, tr[j].q, l, tr[j].w, n)
    decreases j
  {
    hide IsHistory, ViewAfter, Inv, ConsumerWalks, EventView, After, CanHappen;
    var a0, a := ViewAfter(tr, es, size, maxBlockSize, i), ViewAfter(tr, es, size, maxBlockSize, j - 1);
    OneEvent(tr, es, size, maxBlockSize, i);
    OneEvent(tr, es, size, maxBlockSize, j - 1);
    if j == i + 1 {
      ConsumerWalkStarts(kind, tr[i], a0, es[i]);
      n := 0;
    } else {
      n := ConsumerWalkInv(tr, es, size, maxBlockSize, i, j - 1, kind);
      StepsCounted(tr, es, size, maxBlockSize, i, j - 1, ByConsumer, kind);
      n := ConsumerWalkEvent(kind, tr[i].q, a0, tr[j - 1], a, es[j - 1], n);
    }
  }

  // ------------------------------------------------------------ what the callers get

  /** Called by the producer: the walk ends within three steps a block, can always take its
      next step, and `size_approx` lies between the length at its end and at its start;
      `max_capacity` is exact. */
  lemma WalkByProducer<T>(tr: seq<World<T>>, es: seq<Event<T>>, size: nat, maxBlockSize: nat, i: nat, j: nat, kind: Kind)
    requires Configuration(size, maxBlockSize) && IsHistory(tr, es, size, maxBlockSize) && WalkCall(tr, es, i, j, ByProducer, kind)
    ensures |tr[j].q.blocks| == |tr[i].q.blocks| && WalkSteps(es, i, j) <= 3 * |tr[i].q.blocks|
    ensures !tr[j].w.Done? ==> CanHappen(tr[j], WalkStep)
    ensures InOrder(tr[i].q) && InOrder(tr[j].q)
    ensures tr[j].w.Done? && kind.SizeApprox? ==> |Fifo(tr[j].q)| <= tr[j].w.result <= |Fifo(tr[i].q)|
    ensures tr[j].w.Done? && kind.MaxCapacity? ==> tr[j].w.result == UsableCells(tr[i].q.blocks, |tr[i].q.blocks|)
  {
    hide IsHistory, ViewAfter, EventView, Inv, ProducerWalks;
    var a0, a := ViewAfter(tr, es, size, maxBlockSize, i), ViewAfter(tr, es, size, maxBlockSize, j);
    HistoryInv(tr, es, size, maxBlockSize, i);
    HistoryInv(tr, es, size, maxBlockSize, j);
    ProducerWalkInv(tr, es, size, maxBlockSize, i, j, kind);
    StepsCounted(tr, es, size, maxBlockSize, i, j, ByProducer, kind);
    ProducerWalkGives(kind, tr[i].q, a0, tr[j].q, a, tr[j].w);
  }

  lemma Orderly<T>(q: State<T>, a: View)
    requires Inv(q, a)
    ensures InOrder(q)
  {
    hide Core, ProducerOK, ConsumerOK, Sizes;
  }

  lemma ProducerWalkGives<T>(kind: Kind, q0: State<T>, a0: View, q: State<T>, a: View, w: Walk)
    requires Inv(q0, a0) && Inv(q, a) && |a0.l.v| == |q0.blocks| && ProducerWalks(kind, q0, a0.l, q, a.l, w)
    ensures |q.blocks| == |q0.blocks| && StepsTaken(w) <= 3 * |q0.blocks| && (!w.Done? ==> Valid(q, w.block))
    ensures InOrder(q0) && InOrder(q)
    ensures w.Done? && kind.SizeApprox? ==> |Fifo(q)| <= w.result <= |Fifo(q0)|
    ensures w.Done? && kind.MaxCapacity? ==> w.result == UsableCells(q0.blocks, |q0.blocks|)
  {
    hide Inv, Covers, Sum, Amounts, Slot;
    Orderly(q0, a0);
    Orderly(q, a);
    InvRing(q0, a0);
    if w.Done? {
      RingTotal(kind, q0, a0);
      assert a0.l.ring[..w.visited] == a0.l.ring;
      if kind.MaxCapacity? { MasksAlike(q0, a0.l, q, a.l); }
    } else {
      ProducerWalkGoesOn(kind, q0, a0, q, a, w);
    }
  }

  lemma MasksAlike<T>(q0: State<T>, l0: Layout, q: State<T>, l: Layout)
    requires |l0.v| == |q0.blocks| == |q.blocks| == |l.v|
    requires forall b :: 0 <= b < |q.blocks| ==> q.blocks[b].sizeMask == q0.blocks[b].sizeMask
    ensures Amounts(MaxCapacity, q.blocks, l.v) == Amounts(MaxCapacity, q0.blocks, l0.v)
  {
  }

  /** Called by the consumer: the walk takes at most three steps for each block there is by
      then, so it can only go on as long as the producer goes on adding blocks. Its next step
      can always be taken. `size_approx` lies between the length at its start and at its end
      (with an element in place that is about to be published); `max_capacity` likewise. */
  lemma WalkByConsumer<T>(tr: seq<World<T>>, es: seq<Event<T>>, size: nat, maxBlockSize: nat, i: nat, j: nat, kind: Kind)
    requires Configuration(size, maxBlockSize) && IsHistory(tr, es, size, maxBlockSize) && WalkCall(tr, es, i, j, ByConsumer, kind)
    ensures WalkSteps(es, i, j) <= 3 * |tr[j].q.blocks|
    ensures !tr[j].w.Done? ==> CanHappen(tr[j], WalkStep)
    ensures InOrder(tr[i].q) && InOrder(tr[j].q)
    ensures tr[j].w.Done? && kind.SizeApprox? ==> |Fifo(tr[i].q)| <= tr[j].w.result <= |Fifo(tr[j].q)| + If(Pending(tr[j].q.p))
    ensures tr[j].w.Done? && kind.MaxCapacity? ==>
      && 0 <= LinkedBlocks(tr[i].q) <= |tr[i].q.blocks| && 0 <= LinkedBlocks(tr[j].q) <= |tr[j].q.blocks|
      && UsableCells(tr[i].q.blocks, LinkedBlocks(tr[i].q)) <= tr[j].w.result <= UsableCells(tr[j].q.blocks, LinkedBlocks(tr[j].q))
  {
    hide IsHistory, ViewAfter, EventView, Inv, ConsumerWalks;
    var a0, a := ViewAfter(tr, es, size, maxBlockSize, i), ViewAfter(tr, es, size, maxBlockSize, j);
    HistoryInv(tr, es, size, maxBlockSize, i);
    HistoryInv(tr, es, size, maxBlockSize, j);
    var n := ConsumerWalkInv(tr, es, size, maxBlockSize, i, j, kind);
    StepsCounted(tr, es, size, maxBlockSize, i, j, ByConsumer, kind);
    Orderly(tr[i].q, a0);
    Orderly(tr[j].q, a);
    ConsumerWalkGives(kind, tr[i].q, a0, tr[j].q, a, tr[j].w, n);
  }

  lemma ConsumerWalkGives<T>(kind: Kind, q0: State<T>, a0: View, q: State<T>, a: View, w: Walk, n: nat)
    requires Inv(q0, a0) && Inv(q, a) && |a0.l.v| == |q0.blocks| && |a0.l.ring| <= |a0.l.v|
    requires ConsumerWalks(kind, q0, a0.l, q, a.l, w, n)
    ensures StepsTaken(w) <= 3 * |q.blocks| && (!w.Done? ==> Valid(q, w.block))
    ensures |a0.l.ring| == LinkedBlocks(q0) && |a.l.ring| == LinkedBlocks(q) <= |q.blocks|
    ensures w.Done? ==> Total(kind, q0) <= w.result <= Total(kind, q)
  {
    hide Inv, Covers, Sum, Amounts, FirstAmounts, Filling, Total;
    InvRing(q0, a0);
    InvRing(q, a);
    if w.Done? {
      RingTotal(kind, q0, a0);
      RingTotal(kind, q, a);
      assert a.l.ring[..n] == a.l.ring && a.l.ring[n..] == [];
      NothingAhead(FirstAmounts(kind, q0, a0.l));
      FirstAmountsAre(kind, q0, a0.l);
    } else {
      OnTheWay(kind, a.l.ring, w, n);
      hide Linked;
      var _ := ConsumerWalkGoesOn(kind, q0, a0.l, q, a, w, n);
    }
  }

  lemma OnTheWay(kind: Kind, path: seq<Ptr>, w: Walk, n: nat)
    requires OnPath(w, kind, path, n) && w.visited <= n && !w.Done?
    ensures StepsTaken(w) <= 3 * |path|
  {
  }

  lemma FirstAmountsAre<T>(kind: Kind, q: State<T>, l: Layout)
    requires |l.v| == |q.blocks| && |l.ring| <= |l.v| && forall k :: 0 <= k < |l.ring| ==> 0 <= l.ring[k] < |l.ring|
    ensures Sum(FirstAmounts(kind, q, l), l.ring) == Sum(Amounts(kind, q.blocks, l.v), l.ring)
  {
    hide Sum, Amounts;
    SumSame(FirstAmounts(kind, q, l), Amounts(kind, q.blocks, l.v), l.ring);
  }

  lemma NothingAhead(a: seq<nat>)
    ensures Sum(a, []) == 0
  {
  }
}
