/** From the constructor on: every run of the two threads. */
module SpscRuns {
  import opened Bits
  import opened Rounding
  import opened SpscQueue
  import opened SpscInvariant
  import opened SpscEffects
  import opened SpscInterference
  import P = SpscProducer
  import C = SpscConsumer

  // ------------------------------------------------------------ one step

  lemma ProducerArrives<T>(s: State<T>, a: View, ok: bool, s': State<T>, a': View)
    requires P.Moves(s, a, ok, s', a') && (AllButFrontFull(s') ==> a'.sawFull)
    ensures Core(s', a') && ProducerOK(s', a')
  {
    hide P.Moves, Core, ProducerOK, NoRoomAhead;
    match s.p
    case PIdle(_) => assert false by { Busy(s, a, ok, s', a'); }
    case PLoadTailBlock(_, _) => P.LoadsTail(s, a, ok, s', a');
    case PLoadTail(_, _, _, _) => P.LoadsTail(s, a, ok, s', a');
    case PLoadFront(_, _, _, _, _) => P.LoadsFront(s, a, ok, s', a');
    case PConstruct(_, _, _, _) => P.Constructs(s, a, ok, s', a');
    case PStoreTail(_, _, _) => P.StoresTail(s, a, ok, s', a');
    case PLoadNext(_, _, _) => P.LooksAhead(s, a, ok, s', a');
    case PLoadFrontBlock(_, _, _, _) => P.LooksAhead(s, a, ok, s', a');
    case PReloadNext(_, _) => P.LooksAhead(s, a, ok, s', a');
    case PLoadNextFront(_, _) => P.LoadsNextFront(s, a, ok, s', a');
    case PLoadNextTail(_, _, _) => P.LoadsNextTail(s, a, ok, s', a');
    case PConstructNext(_, _, _) => P.ConstructsNext(s, a, ok, s', a');
    case PStoreNextTail(_, _, _) => P.StoresNextTail(s, a, ok, s', a');
    case PPublishNext(_, _) => P.Publishes(s, a, ok, s', a');
    case PAllocate(_, _) => P.Allocates(s, a, ok, s', a');
    case PConstructNew(_, _, _) => P.ConstructsNew(s, a, ok, s', a');
    case PStoreNewTail(_, _, _) => P.FillsNew(s, a, ok, s', a');
    case PSetNewNext(_, _, _) => P.FillsNew(s, a, ok, s', a');
    case PLinkNew(_, _, _) => P.Links(s, a, ok, s', a');
    case PPublishNew(_, _) => P.Publishes(s, a, ok, s', a');
  }

  lemma Busy<T>(s: State<T>, a: View, ok: bool, s': State<T>, a': View)
    requires P.Moves(s, a, ok, s', a')
    ensures !s.p.PIdle?
  {
    hide Core, ProducerOK;
  }

  lemma ConsumerArrives<T>(s: State<T>, a: View, s': State<T>, a': View)
    requires C.Moves(s, a, s', a') && (|s'.received| == |s'.sent| ==> a'.sawEmpty)
    ensures Core(s', a') && ConsumerOK(s', a')
  {
    hide C.Moves, Core, ConsumerOK;
    match s.c
    case CIdle(_) => assert false by { ConsumerBusy(s, a, s', a'); }
    case CLoadFrontBlock(_) => C.LoadsFront(s, a, s', a');
    case CLoadFront(_, _, _) => C.LoadsFront(s, a, s', a');
    case CLoadTail(_, _, _) => C.LoadsTail(s, a, s', a');
    case CLoadTailBlock(_, _) => C.LoadsTailBlock(s, a, s', a');
    case CReloadFrontBlock(_) => C.LoadsTailBlock(s, a, s', a');
    case CReloadTail(_, _) => C.ReloadsTail(s, a, s', a');
    case CReloadFront(_, _, _) => C.ReloadsFront(s, a, s', a');
    case CLoadNext(_, _) => C.LoadsNext(s, a, s', a');
    case CLoadNextFront(_, _) => C.LoadsNext(s, a, s', a');
    case CLoadNextTail(_, _, _) => C.LoadsNextTail(s, a, s', a');
    case CStoreFrontBlock(_, _, _) => C.StoresFrontBlock(s, a, s', a');
    case CTake(_, _, _) => C.Takes(s, a, s', a');
    case CStoreFront(_, _, _, _) => C.StoresFront(s, a, s', a');
  }

  lemma ConsumerBusy<T>(s: State<T>, a: View, s': State<T>, a': View)
    requires C.Moves(s, a, s', a')
    ensures !s.c.CIdle?
  {
    hide Core, ConsumerOK;
  }

  lemma ConsumerKeepsOrder<T>(s: State<T>, a: View, s': State<T>, a': View)
    requires C.Moves(s, a, s', a')
    ensures InOrder(s')
  {
    hide Core, ConsumerOK;
    if s.c.CStoreFront? { C.StoresFront(s, a, s', a'); }
  }

  lemma ProducerKeeps<T>(s: State<T>, a: View, ok: bool)
    requires Inv(s, a) && Can(s, ProducerStep(ok))
    ensures Inv(Do(s, ProducerStep(ok)), NextView(s, a, ProducerStep(ok)))
  {
    var act: Action<T> := ProducerStep(ok);
    var s', a' := Do(s, act), NextView(s, a, act);
    assert P.Moves(s, a, ok, s', a') by { hide NoRoomAhead, Consistent; TakingFront(s, a); }
    hide Core, ProducerOK, ConsumerOK, Sizes, NoRoomAhead, P.Moves, HoldsForConsumer;
    ProducerArrives(s, a, ok, s', a');
    ProducerHolds(s, a, ok, s', a');
    ConsumerUndisturbed(s, a, s', a');
    ProducerKeepsSizes(s, a, ok);
  }

  lemma TakingFront<T>(s: State<T>, a: View)
    requires Core(s, a) && ConsumerOK(s, a)
    ensures Taking(s.c) in {NULL, s.frontBlock}
  {
    hide Consistent;
  }

  lemma ProducerKeepsSizes<T>(s: State<T>, a: View, ok: bool)
    requires Inv(s, a) && Can(s, ProducerStep(ok))
    ensures Sizes(Do(s, ProducerStep(ok))) && InOrder(Do(s, ProducerStep(ok)))
  {
    hide Core, ProducerOK, ConsumerOK, ConsumerNext, Advance;
    if s.p.PAllocate? { NewSize(s); } else { MasksStand(s, ok); }
  }

  lemma MasksStand<T>(s: State<T>, ok: bool)
    requires !s.p.PIdle? && ProducerSafe(s) && !s.p.PAllocate?
    ensures var s' := ProducerNext(s, ok);
      && |s'.blocks| == |s.blocks| && s'.largestBlockSize == s.largestBlockSize && s'.maxBlockSize == s.maxBlockSize
      && forall b :: 0 <= b < |s.blocks| ==> s'.blocks[b].sizeMask == s.blocks[b].sizeMask
  {
  }

  /** No producer step writes what belongs to the consumer. */
  lemma ProducerLeaves<T>(s: State<T>, ok: bool)
    requires !s.p.PIdle? && ProducerSafe(s)
    ensures ProducerNext(s, ok).c == s.c && ProducerNext(s, ok).received == s.received
    ensures ProducerNext(s, ok).frontBlock == s.frontBlock
  {
    hide Advance, NewBlockSize, MakeBlock;
  }

  lemma ProducerLeavesFronts<T>(s: State<T>, ok: bool)
    requires !s.p.PIdle? && ProducerSafe(s)
    ensures var s' := ProducerNext(s, ok);
      && |s'.blocks| == |s.blocks| + If(s.p.PAllocate? && ok)
      && forall b :: 0 <= b < |s.blocks| ==> s'.blocks[b].front == s.blocks[b].front && s'.blocks[b].sizeMask == s.blocks[b].sizeMask
  {
    if !s.p.PAllocate? {
      hide ProducerNext, ProducerSafe;
      MasksStand(s, ok);
      forall b: nat | b < |s.blocks|
        ensures b < |ProducerNext(s, ok).blocks| && ProducerNext(s, ok).blocks[b].front == s.blocks[b].front
      {
        FrontsStand(s, ok, b);
      }
    }
  }

  lemma FrontsStand<T>(s: State<T>, ok: bool, b: nat)
    requires !s.p.PIdle? && ProducerSafe(s) && !s.p.PAllocate? && b < |s.blocks|
    ensures b < |ProducerNext(s, ok).blocks| && ProducerNext(s, ok).blocks[b].front == s.blocks[b].front
  {
    hide Advance;
  }

  lemma ConsumerKeeps<T>(s: State<T>, a: View)
    requires Inv(s, a) && Can(s, ConsumerStep)
    ensures Inv(Do(s, ConsumerStep), NextView(s, a, ConsumerStep))
  {
    var act: Action<T> := ConsumerStep;
    var s', a' := Do(s, act), NextView(s, a, act);
    hide Core, ProducerOK, ConsumerOK, Sizes, NoRoomAhead, HoldsForProducer, InOrder;
    ConsumerArrives(s, a, s', a');
    ConsumerKeepsOrder(s, a, s', a');
    ConsumerHolds(s, a, s', a');
    ProducerUndisturbed(s, a, s', a');
    ConsumerKeepsSizes(s, a);
  }

  lemma ConsumerKeepsSizes<T>(s: State<T>, a: View)
    requires Inv(s, a) && Can(s, ConsumerStep)
    ensures Sizes(Do(s, ConsumerStep))
  {
    hide Core, ProducerOK, ConsumerOK;
  }

  lemma CallKeeps<T>(s: State<T>, a: View, act: Action<T>)
    requires Inv(s, a) && Can(s, act) && (act.Enqueue? || act.Dequeue?)
    ensures Inv(Do(s, act), NextView(s, a, act))
  {
    hide Consistent, NoRoomAhead;
    assert MemoryOf(Do(s, act)) == MemoryOf(s);
  }

  /** Every step of either thread keeps the invariant. */
  lemma StepKeeps<T>(s: State<T>, a: View, act: Action<T>)
    requires Inv(s, a) && Can(s, act)
    ensures Inv(Do(s, act), NextView(s, a, act))
  {
    hide Inv, NextView, Do;
    match act
    case ProducerStep(ok) => ProducerKeeps(s, a, ok);
    case ConsumerStep => ConsumerKeeps(s, a);
    case _ => CallKeeps(s, a, act);
  }

  // ------------------------------------------------------------ the constructor

  /** The sizes and maximum block sizes for which the constructor builds a working queue. At
      a maximum of 2^63 its doubling wraps to 0, and so does the count of blocks from size 3
      on. */
  predicate Configuration(size: nat, maxBlockSize: nat) {
    && IsPow2(maxBlockSize) && 2 <= maxBlockSize <= HALF_WORD
    && if maxBlockSize < HALF_WORD then 1 <= size < HALF_WORD else size <= 2
  }

  /** Enough blocks: without the front block, room for `size` elements; and the only block,
      if there is just one, has that room itself. */
  lemma EnoughBlocks(size: nat, maxBlockSize: nat)
    requires Configuration(size, maxBlockSize)
    ensures var n, capacity := InitialBlockCount(size, maxBlockSize), InitialBlockSize(size, maxBlockSize);
      && n >= 1 && IsPow2(capacity) && 2 <= capacity <= 2 * maxBlockSize && capacity <= HALF_WORD
      && (if n == 1 then capacity - 1 else (n - 1) * (capacity - 1)) >= size
  {
    hide IsPow2, LeastPow2;
    RoundUpFits(size + 1);
    if maxBlockSize == HALF_WORD {
      HugeBlocks(size);
    } else {
      PowersApart(maxBlockSize, HALF_WORD) by { HalfWordIsPow2(); }
      if SeveralBlocks(size, maxBlockSize) { Ceiling(size, maxBlockSize - 1); }
    }
  }

  lemma RoundUpFits(x: nat)
    requires 1 <= x <= HALF_WORD
    ensures RoundUp(x) == LeastPow2(x) && IsLeastPow2AtLeast(LeastPow2(x), x) && x <= LeastPow2(x) <= HALF_WORD
    ensures IsPow2(LeastPow2(x))
  {
    LeastPow2IsLeast(x);
    HalfWordIsPow2();
  }

  /** The constructor's arithmetic at the largest maximum: 2^64 - 3 + size, in blocks of
      2^63 - 1 cells. */
  lemma HugeBlocks(size: nat)
    requires size <= 2
    ensures SeveralBlocks(size, HALF_WORD) && IsPow2(HALF_WORD)
    ensures InitialBlockCount(size, HALF_WORD) == if size == 0 then 1 else 2
  {
    hide IsPow2, LeastPow2;
    RoundUpFits(size + 1);
    HalfWordIsPow2();
  }

  /** What the constructor builds, in terms of what was asked for: one block, with the least
      power of two above `size` as its size, if that is at most twice the maximum; otherwise as
      few blocks of the maximum size as have room for `size` elements without the front one. */
  lemma InitialBlocks<T>(size: nat, maxBlockSize: nat)
    requires Configuration(size, maxBlockSize)
    ensures var s := InitialState<T>(size, maxBlockSize);
      && s.maxBlockSize == maxBlockSize && s.frontBlock == s.tailBlock == 0 && s.sent == s.received == []
      && (forall b :: 0 <= b < |s.blocks| ==>
            && s.blocks[b].sizeMask + 1 == |s.blocks[b].data| == s.largestBlockSize
            && s.blocks[b].front == s.blocks[b].tail == s.blocks[b].localFront == s.blocks[b].localTail == 0
            && forall k :: 0 <= k < |s.blocks[b].data| ==> s.blocks[b].data[k] == Dead)
      && (maxBlockSize < HALF_WORD && size < 2 * maxBlockSize ==>
            |s.blocks| == 1 && IsLeastPow2AtLeast(s.largestBlockSize, size + 1))
      && (maxBlockSize < HALF_WORD && size >= 2 * maxBlockSize ==>
            && s.largestBlockSize == maxBlockSize
            && (|s.blocks| - 2) * (maxBlockSize - 1) < size <= (|s.blocks| - 1) * (maxBlockSize - 1))
      && (maxBlockSize == HALF_WORD ==> s.largestBlockSize == maxBlockSize && |s.blocks| == if size == 0 then 1 else 2)
  {
    EnoughBlocks(size, maxBlockSize);
    OneOrSeveral(size, maxBlockSize);
    hide InitialBlockSize, InitialBlockCount, IsPow2, IsLeastPow2AtLeast;
  }

  lemma OneOrSeveral(size: nat, maxBlockSize: nat)
    requires Configuration(size, maxBlockSize)
    ensures var n, capacity := InitialBlockCount(size, maxBlockSize), InitialBlockSize(size, maxBlockSize);
      && (maxBlockSize < HALF_WORD && size < 2 * maxBlockSize ==> n == 1 && IsLeastPow2AtLeast(capacity, size + 1))
      && (maxBlockSize < HALF_WORD && size >= 2 * maxBlockSize ==>
            capacity == maxBlockSize && (n - 2) * (maxBlockSize - 1) < size <= (n - 1) * (maxBlockSize - 1))
      && (maxBlockSize == HALF_WORD ==> capacity == maxBlockSize && n == if size == 0 then 1 else 2)
  {
    hide IsPow2, LeastPow2;
    RoundUpFits(size + 1);
    if maxBlockSize == HALF_WORD {
      HugeBlocks(size);
    } else {
      PowersApart(maxBlockSize, HALF_WORD) by { HalfWordIsPow2(); }
      DoubleIsPow2(maxBlockSize);
      if size >= 2 * maxBlockSize { Ceiling(size, maxBlockSize - 1); }
    }
  }

  lemma Ceiling(size: nat, m: nat)
    requires size >= 1 && m >= 1
    ensures ((size + 2 * m - 1) / m - 2) * m < size <= ((size + 2 * m - 1) / m - 1) * m && (size + 2 * m - 1) / m >= 2
  {
    var x := size + 2 * m - 1;
    var q, r := x / m, x % m;
    assert x == q * m + r;
    assert (q - 1) * m == q * m - m && (q - 2) * m == q * m - 2 * m;
    MultipleAtLeast(q - 1, m);
  }

  function InitialView(size: nat, maxBlockSize: nat): View
    requires maxBlockSize >= 2
  {
    var n := InitialBlockCount(size, maxBlockSize);
    View(Layout(seq(n, i => i), 0, seq(n, _ => Counters(0, 0, 0, 0, 0))), true, false)
  }

  lemma InitialConsistent<T>(size: nat, maxBlockSize: nat)
    requires Configuration(size, maxBlockSize)
    ensures Consistent(MemoryOf(InitialState<T>(size, maxBlockSize)), InitialView(size, maxBlockSize).l)
  {
    EnoughBlocks(size, maxBlockSize);
    var s, l := InitialState<T>(size, maxBlockSize), InitialView(size, maxBlockSize).l;
    var n, capacity := InitialBlockCount(size, maxBlockSize), InitialBlockSize(size, maxBlockSize);
    hide InitialBlockCount, InitialBlockSize, Shape, Stored, Indices, IsPow2;
    InitialShape(s.blocks, n, l.ring);
    FreshCells(MakeBlock<T>(capacity).data, capacity, []);
    forall b | 0 <= b < n ensures Indices(s.blocks[b], Counters(0, 0, 0, 0, 0)) { FreshIndices<T>(capacity, s.blocks[b].next); }
    assert Payload(s.blocks, l.v, [], NULL, NULL);
  }

  lemma InitialInv<T>(size: nat, maxBlockSize: nat)
    requires Configuration(size, maxBlockSize)
    ensures Inv(InitialState<T>(size, maxBlockSize), InitialView(size, maxBlockSize))
  {
    EnoughBlocks(size, maxBlockSize);
    hide InitialBlockCount, InitialBlockSize, Consistent, IsPow2;
    InitialConsistent<T>(size, maxBlockSize);
  }

  lemma FreshIndices<T>(capacity: nat, next: Ptr)
    requires IsPow2(capacity) && 2 <= capacity <= HALF_WORD
    ensures Indices(MakeBlock<T>(capacity).(next := next), Counters(0, 0, 0, 0, 0))
  {
    hide IsPow2;
  }

  lemma InitialShape<T>(blocks: seq<Block<T>>, n: nat, ring: seq<Ptr>)
    requires |blocks| == n >= 1 && ring == seq(n, i => i)
    requires forall i :: 0 <= i < n ==> blocks[i].next == Succ(i, n)
    ensures Shape(blocks, 0, 0, n, ring, 0)
  {
    forall b | 0 <= b < n ensures b in ring { assert ring[b] == b; }
  }
}
