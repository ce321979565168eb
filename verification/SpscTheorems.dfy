/** What every run of the queue guarantees to its two clients. */
module SpscTheorems {
  import opened Bits
  import opened SpscQueue
  import opened SpscInvariant
  import opened SpscEffects
  import opened SpscSafety
  import opened SpscContents
  import opened SpscRuns
  import P = SpscProducer
  import C = SpscConsumer

  // ------------------------------------------------------------ reachable states

  ghost function ViewAt<T>(tr: seq<State<T>>, acts: seq<Action<T>>, size: nat, maxBlockSize: nat, i: nat): View
    requires maxBlockSize >= 2 && IsRun(tr, acts, size, maxBlockSize) && i < |tr|
  {
    if i == 0 then InitialView(size, maxBlockSize)
    else NextView(tr[i - 1], ViewAt(tr, acts, size, maxBlockSize, i - 1), acts[i - 1])
  }

  lemma {:induction false} ReachableInv<T>(tr: seq<State<T>>, acts: seq<Action<T>>, size: nat, maxBlockSize: nat, i: nat)
    requires Configuration(size, maxBlockSize) && IsRun(tr, acts, size, maxBlockSize) && i < |tr|
    ensures Inv(tr[i], ViewAt(tr, acts, size, maxBlockSize, i))
  {
    hide Inv, NextView, Do, InitialState, InitialView;
    if i == 0 {
      InitialInv<T>(size, maxBlockSize);
    } else {
      ReachableInv(tr, acts, size, maxBlockSize, i - 1);
      StepKeeps(tr[i - 1], ViewAt(tr, acts, size, maxBlockSize, i - 1), acts[i - 1]);
    }
  }

  /** No step of either thread dereferences a bad address, constructs over a live object,
      moves from or destroys a dead one, or fails an assertion: each thread that is inside a
      call can always take its next step. */
  lemma NeverStuck<T>(tr: seq<State<T>>, acts: seq<Action<T>>, size: nat, maxBlockSize: nat, i: nat)
    requires Configuration(size, maxBlockSize) && IsRun(tr, acts, size, maxBlockSize) && i < |tr|
    ensures ProducerSafe(tr[i]) && ProducerAsserts(tr[i])
    ensures ConsumerSafe(tr[i]) && ConsumerAsserts(tr[i])
  {
    var a := ViewAt(tr, acts, size, maxBlockSize, i);
    ReachableInv(tr, acts, size, maxBlockSize, i);
    hide Core, ProducerOK, ConsumerOK, ProducerSafe, ConsumerSafe, Sizes, ViewAt;
    ProducerIsSafe(tr[i], a);
    ConsumerIsSafe(tr[i], a);
  }

  // ------------------------------------------------------------ the abstract queue

  /** The store that makes an element visible: to `tail` of the tail block, or to
      `tailBlock` for an element put in another block. */
  predicate EnqueuePoint<T>(p: Producer<T>) {
    p.PStoreTail? || p.PPublishNext? || p.PPublishNew?
  }

  /** One step of the abstract queue: the element sent goes to the back at the enqueue point,
      the element received leaves the front at the store to `front`, and no other step of
      either thread changes the queue. */
  ghost predicate FifoStep<T>(s: State<T>, act: Action<T>, s': State<T>)
    requires InOrder(s) && InOrder(s') && Can(s, act)
  {
    var q, q' := Fifo(s), Fifo(s');
    if act.ProducerStep? && EnqueuePoint(s.p) then
      q' == q + [s.p.x] && s'.p == PIdle(Enqueued)
    else if act.ConsumerStep? && s.c.CStoreFront? then
      && q != [] && q' == q[1..]
      && s'.received == s.received + [q[0]]
      && s'.c == CIdle(if s.c.op.TryDequeue? then Took(q[0]) else Popped)
    else
      q' == q
  }

  /** Along every run, memory read from front to tail is the abstract queue. */
  lemma MemoryHoldsFifo<T>(tr: seq<State<T>>, acts: seq<Action<T>>, size: nat, maxBlockSize: nat, i: nat)
    requires Configuration(size, maxBlockSize) && IsRun(tr, acts, size, maxBlockSize) && i < |tr|
    ensures InOrder(tr[i]) && InMemory(tr[i]) == CellsOf(Fifo(tr[i]), tr[i].c.CStoreFront?)
  {
    ReachableInv(tr, acts, size, maxBlockSize, i);
    MemoryIsFifo(tr[i], ViewAt(tr, acts, size, maxBlockSize, i));
  }

  /** Refinement: each step of a run is a step of the abstract queue. */
  lemma RefinesFifo<T>(tr: seq<State<T>>, acts: seq<Action<T>>, size: nat, maxBlockSize: nat, i: nat)
    requires Configuration(size, maxBlockSize) && IsRun(tr, acts, size, maxBlockSize) && i + 1 < |tr|
    ensures InOrder(tr[i]) && InOrder(tr[i + 1]) && FifoStep(tr[i], acts[i], tr[i + 1])
  {
    ReachableInv(tr, acts, size, maxBlockSize, i);
    ReachableInv(tr, acts, size, maxBlockSize, i + 1);
    IsFifoStep(tr[i], ViewAt(tr, acts, size, maxBlockSize, i), acts[i]);
  }

  lemma IsFifoStep<T>(s: State<T>, a: View, act: Action<T>)
    requires Inv(s, a) && Can(s, act) && InOrder(Do(s, act))
    ensures FifoStep(s, act, Do(s, act))
  {
    hide Consistent, ProducerOK, Sizes, ProducerNext, ConsumerNext;
    match act
    case ProducerStep(ok) => ProducerFifoStep(s, ok); ProducerLeaves(s, ok);
    case ConsumerStep => ConsumerFifoStep(s, a);
    case _ =>
  }

  lemma ProducerFifoStep<T>(s: State<T>, ok: bool)
    requires !s.p.PIdle? && ProducerSafe(s)
    ensures var s' := ProducerNext(s, ok);
      && s'.sent == (if EnqueuePoint(s.p) then s.sent + [s.p.x] else s.sent)
      && (EnqueuePoint(s.p) <==> s'.p == PIdle(Enqueued))
  {
    hide Advance, NewBlockSize, MakeBlock;
  }

  lemma ConsumerFifoStep<T>(s: State<T>, a: View)
    requires Inv(s, a) && !s.c.CIdle? && ConsumerSafe(s) && InOrder(ConsumerNext(s))
    ensures FifoStep(s, ConsumerStep, ConsumerNext(s))
  {
    hide Consistent, ProducerOK, Sizes, Advance;
  }

  /** The elements received, in order, are a prefix of the elements sent. */
  lemma ReceivedIsPrefix<T>(tr: seq<State<T>>, acts: seq<Action<T>>, size: nat, maxBlockSize: nat, i: nat)
    requires Configuration(size, maxBlockSize) && IsRun(tr, acts, size, maxBlockSize) && i < |tr|
    ensures tr[i].received <= tr[i].sent
  {
    ReachableInv(tr, acts, size, maxBlockSize, i);
  }

  // ------------------------------------------------------------ what a false result means

  /** Actions i .. j - 1 belong to the consumer call that starts with action i, or to the
      producer. */
  ghost predicate ConsumerCall<T>(tr: seq<State<T>>, acts: seq<Action<T>>, i: nat, j: nat) {
    && i < j < |tr| && |tr| == |acts| + 1 && acts[i].Dequeue?
    && forall k :: i < k < j ==> !acts[k].Dequeue?
  }

  ghost predicate ProducerCall<T>(tr: seq<State<T>>, acts: seq<Action<T>>, i: nat, j: nat) {
    && i < j < |tr| && |tr| == |acts| + 1 && acts[i].Enqueue?
    && forall k :: i < k < j ==> !acts[k].Enqueue?
  }

  lemma {:induction false} EmptyWasSeen<T>(tr: seq<State<T>>, acts: seq<Action<T>>, size: nat, maxBlockSize: nat, i: nat, j: nat) returns (k: nat)
    requires maxBlockSize >= 2 && IsRun(tr, acts, size, maxBlockSize)
    requires ConsumerCall(tr, acts, i, j) && ViewAt(tr, acts, size, maxBlockSize, j).sawEmpty
    ensures i < k <= j && |tr[k].received| == |tr[k].sent|
    decreases j
  {
    hide InitialView, InitialState, Do, NoRoomAhead;
    if |tr[j].received| == |tr[j].sent| || j == i + 1 {
      k := j;
    } else {
      k := EmptyWasSeen(tr, acts, size, maxBlockSize, i, j - 1);
    }
  }

  lemma {:induction false} FullWasSeen<T>(tr: seq<State<T>>, acts: seq<Action<T>>, size: nat, maxBlockSize: nat, i: nat, j: nat) returns (k: nat)
    requires maxBlockSize >= 2 && IsRun(tr, acts, size, maxBlockSize)
    requires ProducerCall(tr, acts, i, j) && ViewAt(tr, acts, size, maxBlockSize, j).sawFull
    ensures i < k <= j && AllButFrontFull(tr[k])
    decreases j
  {
    hide InitialView, InitialState, Do, NoRoomAhead;
    if AllButFrontFull(tr[j]) || j == i + 1 {
      k := j;
    } else {
      k := FullWasSeen(tr, acts, size, maxBlockSize, i, j - 1);
    }
  }

  /** A `try_dequeue`, `pop` or `peek` that comes back empty-handed: at some instant of that
      very call, the queue was empty. */
  lemma FalseMeansEmpty<T>(tr: seq<State<T>>, acts: seq<Action<T>>, size: nat, maxBlockSize: nat, i: nat, j: nat) returns (k: nat)
    requires Configuration(size, maxBlockSize) && IsRun(tr, acts, size, maxBlockSize)
    requires ConsumerCall(tr, acts, i, j) && tr[j].c == CIdle(SawNothing)
    ensures i < k <= j && InOrder(tr[k]) && Fifo(tr[k]) == []
  {
    ReachableInv(tr, acts, size, maxBlockSize, j);
    hide Core, ViewAt;
    k := EmptyWasSeen(tr, acts, size, maxBlockSize, i, j);
    ReachableInv(tr, acts, size, maxBlockSize, k);
  }

  // ------------------------------------------------------------ capacity

  /** Blocks never get fewer or smaller than the constructor made them. */
  predicate Roomy<T>(s: State<T>, size: nat, maxBlockSize: nat)
    requires maxBlockSize >= 2
  {
    && s.maxBlockSize == maxBlockSize && s.largestBlockSize >= InitialBlockSize(size, maxBlockSize)
    && |s.blocks| >= InitialBlockCount(size, maxBlockSize)
    && (forall b :: 0 <= b < |s.blocks| ==> s.blocks[b].sizeMask + 1 >= InitialBlockSize(size, maxBlockSize))
    && (forall b, d :: 0 <= b < d < |s.blocks| ==> s.blocks[b].sizeMask <= s.blocks[d].sizeMask)
  }

  lemma {:induction false} ReachableRoomy<T>(tr: seq<State<T>>, acts: seq<Action<T>>, size: nat, maxBlockSize: nat, i: nat)
    requires Configuration(size, maxBlockSize) && IsRun(tr, acts, size, maxBlockSize) && i < |tr|
    ensures Roomy(tr[i], size, maxBlockSize)
  {
    hide InitialBlockSize, InitialBlockCount, Inv, Do, NextView, ViewAt, IsPow2;
    EnoughBlocks(size, maxBlockSize);
    if i > 0 {
      ReachableRoomy(tr, acts, size, maxBlockSize, i - 1);
      ReachableInv(tr, acts, size, maxBlockSize, i - 1);
      StaysRoomy(tr[i - 1], ViewAt(tr, acts, size, maxBlockSize, i - 1), acts[i - 1], size, maxBlockSize);
    }
  }

  lemma StaysRoomy<T>(s: State<T>, a: View, act: Action<T>, size: nat, maxBlockSize: nat)
    requires maxBlockSize >= 2 && Inv(s, a) && Can(s, act) && Roomy(s, size, maxBlockSize)
    ensures Roomy(Do(s, act), size, maxBlockSize)
  {
    hide Core, InitialBlockSize, InitialBlockCount;
    if act.ProducerStep? && s.p.PAllocate? {
    } else {
      MasksStandAlways(s, act);
    }
  }

  lemma MasksStandAlways<T>(s: State<T>, act: Action<T>)
    requires Can(s, act) && !(act.ProducerStep? && s.p.PAllocate?)
    ensures var s' := Do(s, act);
      && |s'.blocks| == |s.blocks| && s'.largestBlockSize == s.largestBlockSize && s'.maxBlockSize == s.maxBlockSize
      && forall b :: 0 <= b < |s.blocks| ==> s'.blocks[b].sizeMask == s.blocks[b].sizeMask
  {
    if act.ProducerStep? { MasksStand(s, act.mallocOk); }
  }

  /** Every block, by the constructor or by growth, has a power-of-two size from 2 to twice
      the maximum, and is no smaller than the blocks made before it. */
  lemma BlockSizes<T>(tr: seq<State<T>>, acts: seq<Action<T>>, size: nat, maxBlockSize: nat, i: nat, b: nat)
    requires Configuration(size, maxBlockSize) && IsRun(tr, acts, size, maxBlockSize) && i < |tr| && b < |tr[i].blocks|
    ensures IsPow2(tr[i].blocks[b].sizeMask + 1)
    ensures 2 <= tr[i].blocks[b].sizeMask + 1 <= 2 * maxBlockSize
    ensures forall d :: 0 <= d < b ==> tr[i].blocks[d].sizeMask <= tr[i].blocks[b].sizeMask
  {
    ReachableInv(tr, acts, size, maxBlockSize, i);
    ReachableRoomy(tr, acts, size, maxBlockSize, i);
    hide Consistent, ProducerOK, ConsumerOK, InitialBlockSize, InitialBlockCount;
    BlockFacts(MemoryOf(tr[i]), ViewAt(tr, acts, size, maxBlockSize, i).l, b);
  }

  /** i full blocks past the front hold at least i times the smallest mask. */
  lemma {:induction false} FullBlocksAdd<T>(m: Memory<T>, l: Layout, i: nat, least: nat)
    requires Consistent(m, l) && |l.v| == |m.blocks| && 1 <= i <= l.tp < |l.ring|
    requires forall j :: 0 <= j < |l.ring| ==> 0 <= l.ring[j] < |m.blocks|
    requires forall j :: 1 <= j < |l.ring| ==> l.v[l.ring[j]].t - l.v[l.ring[j]].f >= least
    ensures l.v[l.ring[i]].off + l.v[l.ring[i]].t >= l.v[l.ring[1]].off + l.v[l.ring[1]].f + i * least
  {
    hide Consistent;
    if i > 1 {
      FullBlocksAdd(m, l, i - 1, least);
      StepAlongRing(m, l, i - 1);
      assert i * least == (i - 1) * least + least;
    }
  }

  lemma FullBlock<T>(s: State<T>, l: Layout, b: Ptr)
    requires Consistent(MemoryOf(s), l) && Sizes(s) && AllButFrontFull(s) && 0 <= b < |s.blocks| == |l.v|
    requires b != s.frontBlock || |s.blocks| == 1
    ensures l.v[b].t - l.v[b].f == s.blocks[b].sizeMask >= 1
  {
    hide Consistent;
    BlockFacts(MemoryOf(s), l, b);
    P.OccupiedIs(s.blocks[b], l.v[b], s.largestBlockSize);
  }

  lemma NothingAfterTail<T>(m: Memory<T>, l: Layout)
    requires Consistent(m, l) && !m.pending && |l.v| == |m.blocks| && |l.ring| >= 1
    requires forall j :: 0 <= j < |l.ring| ==> 0 <= l.ring[j] < |m.blocks|
    requires forall j :: 1 <= j < |l.ring| ==> l.v[l.ring[j]].t - l.v[l.ring[j]].f >= 1
    ensures l.tp == |l.ring| - 1
  {
    hide Shape, Payload, Indices;
    RingFacts(m, l);
    if l.tp + 1 < |l.ring| { OrderFacts(m, l); }
  }

  lemma FullBlocksHold<T>(s: State<T>, a: View, least: nat)
    requires Inv(s, a) && AllButFrontFull(s)
    requires forall b :: 0 <= b < |s.blocks| ==> s.blocks[b].sizeMask >= least
    ensures |s.blocks| >= 1 && InOrder(s)
    ensures |Fifo(s)| == |s.sent| - |s.received|
    ensures |s.sent| - |s.received| >= if |s.blocks| == 1 then least else (|s.blocks| - 1) * least
  {
    hide Consistent, ProducerOK, ConsumerOK, NoRoomAhead;
    var m, l := MemoryOf(s), a.l;
    var n := |s.blocks|;
    RingFacts(m, l);
    RingDistinct(m, l);
    OrderFacts(m, l);
    forall j | 1 <= j < n ensures l.v[l.ring[j]].t - l.v[l.ring[j]].f >= least && l.v[l.ring[j]].t - l.v[l.ring[j]].f >= 1 {
      FullBlock(s, l, l.ring[j]);
    }
    NothingAfterTail(m, l);
    if n == 1 {
      FullBlock(s, l, 0);
    } else {
      FullBlocksAdd(m, l, n - 1, least);
      StepAlongRing(m, l, 0);
      BlockFacts(m, l, s.frontBlock);
      C.CountersOrdered(s.blocks[s.frontBlock], l.v[s.frontBlock]);
    }
  }

  /** When the producer has no room ahead, the queue holds at least `size` elements. */
  lemma NoRoomMeansSize<T>(s: State<T>, a: View, size: nat, maxBlockSize: nat)
    requires Configuration(size, maxBlockSize) && Inv(s, a) && Roomy(s, size, maxBlockSize) && AllButFrontFull(s)
    ensures InOrder(s) && |Fifo(s)| >= size
  {
    hide Inv, InitialBlockSize, InitialBlockCount, NoRoomAhead, IsPow2;
    EnoughBlocks(size, maxBlockSize);
    var n, least, k := |s.blocks|, InitialBlockSize(size, maxBlockSize) - 1, InitialBlockCount(size, maxBlockSize);
    FullBlocksHold(s, a, least);
    if n > 1 {
      if k == 1 { AtLeastOnce(n - 1, least); } else { MoreBlocks(n - 1, k - 1, least); }
    }
  }

  lemma AtLeastOnce(n: nat, least: nat)
    requires n >= 1
    ensures n * least >= least
  {
  }

  lemma MoreBlocks(n: nat, k: nat, least: nat)
    requires n >= k
    ensures n * least >= k * least
  {
    assert n * least == k * least + (n - k) * least;
  }

  /** An enqueue that refuses, runs out of memory or sets out to allocate: at some instant of
      that very call, every block but the front one (or the only block) was full, and the
      queue held at least the number of elements it was built for. */
  lemma RefusalMeansFull<T>(tr: seq<State<T>>, acts: seq<Action<T>>, size: nat, maxBlockSize: nat, i: nat, j: nat) returns (k: nat)
    requires Configuration(size, maxBlockSize) && IsRun(tr, acts, size, maxBlockSize)
    requires ProducerCall(tr, acts, i, j)
    requires tr[j].p in {PIdle(Refused), PIdle(OutOfMemory)} || tr[j].p.PAllocate?
    ensures i < k <= j && AllButFrontFull(tr[k]) && InOrder(tr[k]) && |Fifo(tr[k])| >= size
  {
    ReachableInv(tr, acts, size, maxBlockSize, j);
    hide Core, ViewAt, NoRoomAhead;
    k := FullWasSeen(tr, acts, size, maxBlockSize, i, j);
    ReachableInv(tr, acts, size, maxBlockSize, k);
    ReachableRoomy(tr, acts, size, maxBlockSize, k);
    NoRoomMeansSize(tr[k], ViewAt(tr, acts, size, maxBlockSize, k), size, maxBlockSize);
  }
}
