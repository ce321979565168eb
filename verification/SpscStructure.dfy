/** What every reachable state of the queue looks like in memory. */
module SpscStructure {
  import opened Bits
  import opened SpscQueue
  import opened SpscInvariant
  import opened SpscEffects
  import opened SpscSafety
  import opened SpscRuns
  import opened SpscTheorems
  import opened SpscQuiescent
  import P = SpscProducer
  import C = SpscConsumer

  // ------------------------------------------------------------ the ring

  predicate Holds<T>(b: Block<T>, n: nat) {
    b.front < WORD && b.tail < WORD && Occupied(b) == n
  }

  /** Blocks strictly between front and tail are full, the tail block is not empty unless it
      is the front block, and blocks after the tail are empty but for one filled ahead. */
  ghost predicate Filled<T>(s: State<T>, ring: seq<Ptr>, tp: nat)
    requires forall i :: 0 <= i < |ring| ==> 0 <= ring[i] < |s.blocks|
  {
    && tp < |ring| && ring[tp] == s.tailBlock
    && (forall i :: 0 < i < tp ==> Holds(s.blocks[ring[i]], s.blocks[ring[i]].sizeMask))
    && (tp > 0 ==> s.blocks[ring[tp]].front != s.blocks[ring[tp]].tail)
    && (forall i :: tp < i < |ring| ==> Holds(s.blocks[ring[i]], if Pending(s.p) && i == tp + 1 then 1 else 0))
    && (Pending(s.p) ==> tp + 1 < |ring|)
  }

  /** All blocks but the one that the producer is about to link form one cycle. */
  ghost predicate OneCycle<T>(s: State<T>, ring: seq<Ptr>, tp: nat) {
    Shape(s.blocks, s.frontBlock, s.tailBlock, |s.blocks| - Unlinked(s.p), ring, tp)
  }

  lemma RingStands<T>(s: State<T>, a: View)
    requires Inv(s, a)
    ensures OneCycle(s, a.l.ring, a.l.tp) && forall i :: 0 <= i < |a.l.ring| ==> 0 <= a.l.ring[i] < |s.blocks|
  {
    hide AllIndices, Payload, Order, ProducerOK, ConsumerOK;
  }

  lemma BlocksFilled<T>(s: State<T>, a: View)
    requires Inv(s, a) && forall i :: 0 <= i < |a.l.ring| ==> 0 <= a.l.ring[i] < |s.blocks|
    ensures Filled(s, a.l.ring, a.l.tp)
  {
    var m, l := MemoryOf(s), a.l;
    hide Consistent, Occupied, ProducerOK, ConsumerOK;
    RingFacts(m, l);
    OrderOf(m, l);
    forall i | 0 <= i < |l.ring|
      ensures Indices(s.blocks[l.ring[i]], l.v[l.ring[i]])
      ensures l.v[l.ring[i]].f <= l.v[l.ring[i]].t && Holds(s.blocks[l.ring[i]], l.v[l.ring[i]].t - l.v[l.ring[i]].f)
    {
      BlockFacts(m, l, l.ring[i]);
      P.OccupiedIs(s.blocks[l.ring[i]], l.v[l.ring[i]], s.largestBlockSize);
    }
    EqualIndices(s.blocks[s.tailBlock], l.v[s.tailBlock]);
  }

  /** In every reachable state the linked blocks are one cycle, filled from front to tail. */
  lemma RingIsFilled<T>(tr: seq<State<T>>, acts: seq<Action<T>>, size: nat, maxBlockSize: nat, i: nat)
    requires Configuration(size, maxBlockSize) && IsRun(tr, acts, size, maxBlockSize) && i < |tr|
    ensures exists ring, tp :: OneCycle(tr[i], ring, tp) && Filled(tr[i], ring, tp)
  {
    var a := ViewAt(tr, acts, size, maxBlockSize, i);
    ReachableInv(tr, acts, size, maxBlockSize, i);
    hide Inv, OneCycle, Filled, ViewAt;
    RingStands(tr[i], a);
    BlocksFilled(tr[i], a);
  }

  /** The consumer moves on from an empty front block only, and to the block after it, which
      holds an element. */
  lemma LeavesNothingBehind<T>(tr: seq<State<T>>, acts: seq<Action<T>>, size: nat, maxBlockSize: nat, i: nat)
    requires Configuration(size, maxBlockSize) && IsRun(tr, acts, size, maxBlockSize) && i < |tr|
    requires tr[i].c.CStoreFrontBlock?
    ensures var s := tr[i];
      && Valid(s, s.frontBlock) && Holds(s.blocks[s.frontBlock], 0) && s.frontBlock != s.tailBlock
      && s.blocks[s.frontBlock].next == s.c.nb && Valid(s, s.c.nb) && s.blocks[s.c.nb].front != s.blocks[s.c.nb].tail
  {
    var a := ViewAt(tr, acts, size, maxBlockSize, i);
    ReachableInv(tr, acts, size, maxBlockSize, i);
    hide Inv, ViewAt, Holds;
    FrontIsEmpty(tr[i], a);
  }

  lemma FrontIsEmpty<T>(s: State<T>, a: View)
    requires Inv(s, a) && s.c.CStoreFrontBlock?
    ensures Valid(s, s.frontBlock) && Holds(s.blocks[s.frontBlock], 0) && s.frontBlock != s.tailBlock
    ensures s.blocks[s.frontBlock].next == s.c.nb && Valid(s, s.c.nb) && s.blocks[s.c.nb].front != s.blocks[s.c.nb].tail
  {
    hide Consistent, ProducerOK, Occupied;
    var m, l := MemoryOf(s), a.l;
    RingFacts(m, l);
    NextFacts(m, l);
    OrderFacts(m, l);
    BlockFacts(m, l, s.frontBlock);
    P.OccupiedIs(s.blocks[s.frontBlock], l.v[s.frontBlock], s.largestBlockSize);
    BlockFacts(m, l, s.c.nb);
    EqualIndices(s.blocks[s.c.nb], l.v[s.c.nb]);
  }

  // ------------------------------------------------------------ the shadow indices

  /** Counters only ever go up, each by at most what its thread has just done: `front` by the
      consumer's store, `tail` by the producer's. */
  ghost predicate CountersAdvance<T>(s: State<T>, act: Action<T>, b: Ptr, c: Counters, c': Counters) {
    && c.lf <= c'.lf && c.f <= c'.f && c.lt <= c'.lt && c.t <= c'.t
    && c'.f == c.f + If(act.ConsumerStep? && s.c.CStoreFront? && s.c.fb == b)
    && c'.t == c.t + If(act.ProducerStep? && Placing(s.p) == b)
    && (act.ProducerStep? || c'.lf == c.lf)
    && (act.ConsumerStep? || c'.lt == c.lt || s.p.PStoreNewTail?)
  }

  /** Each block's four masked indices are the residues of unbounded counters, with
      localFront <= front <= localTail <= tail <= localFront + sizeMask, so that a stale copy
      errs on the safe side only; and the counters follow the run. */
  lemma ShadowsSound<T>(tr: seq<State<T>>, acts: seq<Action<T>>, size: nat, maxBlockSize: nat, i: nat, b: nat)
    requires Configuration(size, maxBlockSize) && IsRun(tr, acts, size, maxBlockSize) && i < |tr| && b < |tr[i].blocks|
    ensures var v := ViewAt(tr, acts, size, maxBlockSize, i).l.v;
      && |v| == |tr[i].blocks| && Indices(tr[i].blocks[b], v[b])
      && (i + 1 < |tr| ==>
            var v' := ViewAt(tr, acts, size, maxBlockSize, i + 1).l.v;
            |v'| >= |v| && CountersAdvance(tr[i], acts[i], b, v[b], v'[b]))
  {
    var a := ViewAt(tr, acts, size, maxBlockSize, i);
    ReachableInv(tr, acts, size, maxBlockSize, i);
    assert i + 1 < |tr| ==> ViewAt(tr, acts, size, maxBlockSize, i + 1) == NextView(tr[i], a, acts[i]);
    hide Inv, Indices, ViewAt, NextView, CountersAdvance;
    CountersStand(tr[i], a, b);
    if i + 1 < |tr| { StepAdvances(tr[i], a, acts[i], b); }
  }

  lemma CountersStand<T>(s: State<T>, a: View, b: nat)
    requires Inv(s, a) && b < |s.blocks|
    ensures |a.l.v| == |s.blocks| && Indices(s.blocks[b], a.l.v[b])
  {
    hide Consistent;
    BlockFacts(MemoryOf(s), a.l, b);
  }

  lemma StepAdvances<T>(s: State<T>, a: View, act: Action<T>, b: nat)
    requires Inv(s, a) && Can(s, act) && b < |s.blocks| == |a.l.v|
    ensures |NextView(s, a, act).l.v| >= |a.l.v| && CountersAdvance(s, act, b, a.l.v[b], NextView(s, a, act).l.v[b])
  {
    assert NextView(s, a, act).l == match act
      case ProducerStep(mallocOk) => ProducerLayout(s, a.l, mallocOk)
      case ConsumerStep => ConsumerLayout(s, a.l)
      case _ => a.l;
    hide Core, ProducerOK, ConsumerOK, CountersAdvance, NextView, Do;
    Ordered(s, a);
    match act
    case ProducerStep(ok) => ProducerAdvances(s, a, ok, b);
    case ConsumerStep => ConsumerAdvances(s, a, b);
    case _ => CallAdvances(s, act, b, a.l.v[b]);
  }

  lemma Ordered<T>(s: State<T>, a: View)
    requires Core(s, a)
    ensures |a.l.v| == |s.blocks|
    ensures forall d :: 0 <= d < |s.blocks| ==> a.l.v[d].lf <= a.l.v[d].f <= a.l.v[d].lt <= a.l.v[d].t
  {
    hide Shape, Payload, Order;
  }

  lemma CallAdvances<T>(s: State<T>, act: Action<T>, b: Ptr, c: Counters)
    requires act.Enqueue? || act.Dequeue?
    ensures CountersAdvance(s, act, b, c, c)
  {
  }

  lemma ProducerAdvances<T>(s: State<T>, a: View, ok: bool, b: nat)
    requires Core(s, a) && ProducerOK(s, a) && b < |s.blocks| == |a.l.v|
    requires forall d :: 0 <= d < |s.blocks| ==> a.l.v[d].lf <= a.l.v[d].f <= a.l.v[d].lt <= a.l.v[d].t
    ensures |ProducerLayout(s, a.l, ok).v| >= |a.l.v|
    ensures CountersAdvance(s, ProducerStep(ok), b, a.l.v[b], ProducerLayout(s, a.l, ok).v[b])
  {
    hide Consistent;
    RingFacts(MemoryOf(s), a.l);
  }

  lemma ConsumerAdvances<T>(s: State<T>, a: View, b: nat)
    requires Core(s, a) && ConsumerOK(s, a) && b < |s.blocks| == |a.l.v|
    requires forall d :: 0 <= d < |s.blocks| ==> a.l.v[d].lf <= a.l.v[d].f <= a.l.v[d].lt <= a.l.v[d].t
    ensures |ConsumerLayout(s, a.l).v| >= |a.l.v|
    ensures CountersAdvance(s, ConsumerStep, b, a.l.v[b], ConsumerLayout(s, a.l).v[b])
  {
    hide Consistent;
    RingFacts(MemoryOf(s), a.l);
  }

  // ------------------------------------------------------------ peek

  /** The address that `peek` returned stays the address of the queue's first element until
      the consumer's next call, whatever the producer does meanwhile. */
  lemma PeekedAddressHolds<T>(tr: seq<State<T>>, acts: seq<Action<T>>, size: nat, maxBlockSize: nat, i: nat)
    requires Configuration(size, maxBlockSize) && IsRun(tr, acts, size, maxBlockSize) && i < |tr|
    requires tr[i].c.CIdle? && tr[i].c.last.Address?
    ensures InOrder(tr[i]) && Fifo(tr[i]) != []
    ensures var at, cell := tr[i].c.last.at, tr[i].c.last.cell;
      ValidCell(tr[i], at, cell) && tr[i].blocks[at].data[cell] == Live(Fifo(tr[i])[0])
  {
    var a := ViewAt(tr, acts, size, maxBlockSize, i);
    ReachableInv(tr, acts, size, maxBlockSize, i);
    hide Inv, ViewAt;
    FirstIsThere(tr[i], a);
  }

  lemma FirstIsThere<T>(s: State<T>, a: View)
    requires Inv(s, a) && s.c.CIdle? && s.c.last.Address?
    ensures InOrder(s) && Fifo(s) != []
    ensures ValidCell(s, s.c.last.at, s.c.last.cell) && s.blocks[s.c.last.at].data[s.c.last.cell] == Live(Fifo(s)[0])
  {
    hide Consistent, ProducerOK;
    var m, l, at := MemoryOf(s), a.l, s.c.last.at;
    RingFacts(m, l);
    OrderOf(m, l);
    OrderFacts(m, l);
    LiveAtFront(m, l, at);
    BlockFacts(m, l, at);
    var i := if at == s.frontBlock then 0 else 1;
    C.NoneBeyondSent(m, l, i);
  }

  // ------------------------------------------------------------ between calls

  /** The state as one thread finds it, whatever the last two calls returned. */
  function AtRest<T>(s: State<T>): State<T> {
    s.(p := PIdle(NeverCalled), c := CIdle(NothingYet))
  }

  /** Whenever a run of the two threads finds both between calls, the queue is one that the
      sequential object accepts: `size_approx`, `max_capacity` and the destructor then do
      what they do there, the latter leaving no object alive. */
  lemma IdleIsQuiescent<T>(tr: seq<State<T>>, acts: seq<Action<T>>, size: nat, maxBlockSize: nat, i: nat)
    requires Configuration(size, maxBlockSize) && IsRun(tr, acts, size, maxBlockSize) && i < |tr|
    requires tr[i].p.PIdle? && tr[i].c.CIdle?
    ensures Quiescent(AtRest(tr[i]), ViewAt(tr, acts, size, maxBlockSize, i).l)
    ensures InOrder(tr[i]) && Fifo(AtRest(tr[i])) == Fifo(tr[i])
  {
    ReachableInv(tr, acts, size, maxBlockSize, i);
    hide Inv, Quiescent, ViewAt;
    IdleRests(tr[i], ViewAt(tr, acts, size, maxBlockSize, i));
  }

  lemma IdleRests<T>(s: State<T>, a: View)
    requires Inv(s, a) && s.p.PIdle? && s.c.CIdle?
    ensures Quiescent(AtRest(s), a.l) && InOrder(s)
  {
    hide Consistent, ProducerOK, ConsumerOK;
    assert MemoryOf(AtRest(s)) == MemoryOf(s);
  }
}
