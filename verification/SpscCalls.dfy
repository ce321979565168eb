/** What each call of the two threads comes to, over any run: which element goes in or comes
    out, what is returned, and which calls may allocate. */
module SpscCalls {
  import opened Bits
  import opened SpscQueue
  import opened SpscInvariant
  import opened SpscEffects
  import opened SpscRuns
  import opened SpscTheorems

  // ------------------------------------------------------------ the producer's calls

  /** On the way to a new block. */
  predicate Allocating<T>(p: Producer<T>) {
    p.PAllocate? || Made(p)
  }

  /** The new block is made. */
  predicate Made<T>(p: Producer<T>) {
    p.PConstructNew? || p.PStoreNewTail? || p.PSetNewNext? || p.PLinkNew? || p.PPublishNew?
  }

  predicate StillDeciding<T>(p: Producer<T>) {
    p.PLoadTailBlock? || p.PLoadTail? || p.PLoadFront? || p.PLoadNext? || p.PLoadFrontBlock?
  }

  /** How far a call that began in s0 has come; `failed` says whether malloc has refused it. */
  ghost predicate Enqueueing<T>(s0: State<T>, x: T, mode: AllocationMode, failed: bool, s: State<T>) {
    && s.maxBlockSize == s0.maxBlockSize
    && (!s.p.PIdle? ==> s.p.x == x && s.sent == s0.sent && !failed)
    && (StillDeciding(s.p) ==> s.p.mode == mode)
    && (Allocating(s.p) ==> mode.CanAlloc?)
    && (s.p.PIdle? ==> Ended(s0, x, mode, failed, s))
    && Growth(s0, mode, s)
  }

  ghost predicate Ended<T>(s0: State<T>, x: T, mode: AllocationMode, failed: bool, s: State<T>)
    requires s.p.PIdle?
  {
    match s.p.last
    case NeverCalled => false
    case Enqueued => s.sent == s0.sent + [x] && !failed
    case Refused => s.sent == s0.sent && mode.CannotAlloc? && !failed
    case OutOfMemory => s.sent == s0.sent && mode.CanAlloc? && failed
  }

  /** Either the blocks are those there were, or there is one more: of twice the largest size
      so far until that reaches the maximum, and made by a call that may allocate. */
  ghost predicate Growth<T>(s0: State<T>, mode: AllocationMode, s: State<T>) {
    if |s.blocks| == |s0.blocks| then
      s.largestBlockSize == s0.largestBlockSize && !Made(s.p)
    else
      && mode.CanAlloc? && (Made(s.p) || s.p == PIdle(Enqueued)) && |s.blocks| == |s0.blocks| + 1
      && s.largestBlockSize == (if s0.largestBlockSize >= s0.maxBlockSize then s0.largestBlockSize else 2 * s0.largestBlockSize)
      && s.blocks[|s0.blocks|].sizeMask + 1 == s.largestBlockSize
  }

  lemma ProducerStepCounts<T>(s0: State<T>, x: T, mode: AllocationMode, s: State<T>, ok: bool)
    requires Enqueueing(s0, x, mode, false, s) && !s.p.PIdle? && ProducerSafe(s) && Sizes(s)
    ensures Enqueueing(s0, x, mode, s.p.PAllocate? && !ok, ProducerNext(s, ok))
  {
    if s.p.PAllocate? {
      NewSize(s);
    } else {
      MasksStand(s, ok);
      hide Advance, Growth, Sizes;
      ProducerPositions(s0, x, mode, s, ok);
      GrowthStands(s0, mode, s, ProducerNext(s, ok));
    }
  }

  lemma GrowthStands<T>(s0: State<T>, mode: AllocationMode, s: State<T>, s': State<T>)
    requires Growth(s0, mode, s) && |s'.blocks| == |s.blocks| && s'.largestBlockSize == s.largestBlockSize
    requires forall b :: 0 <= b < |s.blocks| ==> s'.blocks[b].sizeMask == s.blocks[b].sizeMask
    requires if Made(s.p) then Made(s'.p) || s'.p == PIdle(Enqueued) else !Made(s'.p)
    requires !s.p.PIdle?
    ensures Growth(s0, mode, s')
  {
  }

  lemma ProducerPositions<T>(s0: State<T>, x: T, mode: AllocationMode, s: State<T>, ok: bool)
    requires Enqueueing(s0, x, mode, false, s) && !s.p.PIdle? && ProducerSafe(s) && !s.p.PAllocate?
    ensures var s' := ProducerNext(s, ok);
      && s'.maxBlockSize == s0.maxBlockSize
      && (!s'.p.PIdle? ==> s'.p.x == x && s'.sent == s0.sent)
      && (StillDeciding(s'.p) ==> s'.p.mode == mode)
      && (Allocating(s'.p) ==> mode.CanAlloc?)
      && (s'.p.PIdle? ==> Ended(s0, x, mode, false, s'))
      && (if Made(s.p) then Made(s'.p) || s'.p == PIdle(Enqueued) else !Made(s'.p))
  {
    hide Advance, Growth, NewBlockSize, MakeBlock;
  }

  lemma ConsumerStandsBy<T>(s0: State<T>, x: T, mode: AllocationMode, failed: bool, s: State<T>)
    requires Enqueueing(s0, x, mode, failed, s) && !s.c.CIdle? && ConsumerSafe(s)
    ensures Enqueueing(s0, x, mode, failed, ConsumerNext(s))
  {
    ConsumerLeavesMasks(s);
    hide Advance, ConsumerNext, ConsumerSafe;
  }

  lemma ConsumerLeavesMasks<T>(s: State<T>)
    requires !s.c.CIdle? && ConsumerSafe(s)
    ensures var s' := ConsumerNext(s);
      && s'.p == s.p && s'.sent == s.sent && s'.maxBlockSize == s.maxBlockSize && s'.largestBlockSize == s.largestBlockSize
      && |s'.blocks| == |s.blocks|
      && forall b :: 0 <= b < |s.blocks| ==> s'.blocks[b].sizeMask == s.blocks[b].sizeMask
  {
    hide Advance;
  }

  lemma EnqueueSetsOut<T>(s: State<T>, x: T, mode: AllocationMode)
    requires s.p.PIdle?
    ensures Enqueueing(s, x, mode, false, Do(s, Enqueue(x, mode)))
  {
  }

  /** Malloc has refused a block among actions i .. j - 1. */
  ghost predicate MallocRefused<T>(tr: seq<State<T>>, acts: seq<Action<T>>, i: nat, j: nat) {
    exists k :: i <= k < j && k < |acts| && k < |tr| && acts[k] == ProducerStep(false) && tr[k].p.PAllocate?
  }

  lemma {:induction false} EnqueueSoFar<T>(tr: seq<State<T>>, acts: seq<Action<T>>, size: nat, maxBlockSize: nat, i: nat, j: nat)
    requires Configuration(size, maxBlockSize) && IsRun(tr, acts, size, maxBlockSize) && ProducerCall(tr, acts, i, j)
    ensures Enqueueing(tr[i], acts[i].x, acts[i].mode, MallocRefused(tr, acts, i, j), tr[j])
    decreases j
  {
    hide Enqueueing, ProducerNext, ConsumerNext, ProducerSafe, ConsumerSafe, InitialState, Inv;
    var x, mode, k := acts[i].x, acts[i].mode, j - 1;
    if k == i {
      assert tr[j] == Do(tr[i], Enqueue(x, mode));
      EnqueueSetsOut(tr[i], x, mode);
    } else {
      EnqueueSoFar(tr, acts, size, maxBlockSize, i, k);
      ReachableSizes(tr, acts, size, maxBlockSize, k);
      match acts[k]
      case ProducerStep(ok) =>
        NotRefusedYet(tr[i], x, mode, MallocRefused(tr, acts, i, k), tr[k]);
        ProducerStepCounts(tr[i], x, mode, tr[k], ok);
      case ConsumerStep =>
        ConsumerStandsBy(tr[i], x, mode, MallocRefused(tr, acts, i, k), tr[k]);
      case Dequeue(op) =>
        CallStandsBy(tr[i], x, mode, MallocRefused(tr, acts, i, k), tr[k], op);
    }
  }

  lemma NotRefusedYet<T>(s0: State<T>, x: T, mode: AllocationMode, failed: bool, s: State<T>)
    requires Enqueueing(s0, x, mode, failed, s) && !s.p.PIdle?
    ensures !failed
  {
  }

  lemma CallStandsBy<T>(s0: State<T>, x: T, mode: AllocationMode, failed: bool, s: State<T>, op: Operation)
    requires Enqueueing(s0, x, mode, failed, s)
    ensures Enqueueing(s0, x, mode, failed, s.(c := CLoadFrontBlock(op)))
  {
  }

  lemma ReachableSizes<T>(tr: seq<State<T>>, acts: seq<Action<T>>, size: nat, maxBlockSize: nat, i: nat)
    requires Configuration(size, maxBlockSize) && IsRun(tr, acts, size, maxBlockSize) && i < |tr|
    ensures Sizes(tr[i])
  {
    ReachableInv(tr, acts, size, maxBlockSize, i);
    hide Core, ProducerOK, ConsumerOK, ViewAt;
  }

  /** Every `try_enqueue` and `enqueue` of every run. The element is sent exactly if the call
      returns true. A call that may not allocate makes no block and is never on its way to one;
      one that may is never refused, and runs out of memory exactly if malloc refused it a
      block. A block made has the size that growth prescribes. */
  lemma EnqueueOutcome<T>(tr: seq<State<T>>, acts: seq<Action<T>>, size: nat, maxBlockSize: nat, i: nat, j: nat)
    requires Configuration(size, maxBlockSize) && IsRun(tr, acts, size, maxBlockSize) && ProducerCall(tr, acts, i, j)
    ensures tr[j].sent == if tr[j].p == PIdle(Enqueued) then tr[i].sent + [acts[i].x] else tr[i].sent
    ensures tr[j].p.PIdle? ==> tr[j].p.last in {Enqueued, Refused, OutOfMemory}
    ensures acts[i].mode.CannotAlloc? ==>
      && |tr[j].blocks| == |tr[i].blocks| && tr[j].largestBlockSize == tr[i].largestBlockSize
      && !tr[j].p.PAllocate? && !tr[j].p.PConstructNew? && !tr[j].p.PStoreNewTail?
      && !tr[j].p.PSetNewNext? && !tr[j].p.PLinkNew? && !tr[j].p.PPublishNew?
      && tr[j].p != PIdle(OutOfMemory)
    ensures acts[i].mode.CanAlloc? ==>
      && tr[j].p != PIdle(Refused)
      && (tr[j].p == PIdle(OutOfMemory) <==> MallocRefused(tr, acts, i, j))
    ensures |tr[j].blocks| == |tr[i].blocks| || (|tr[j].blocks| == |tr[i].blocks| + 1 && !tr[j].p.PAllocate?)
    ensures |tr[j].blocks| == |tr[i].blocks| + 1 ==>
      && tr[j].largestBlockSize == (if tr[i].largestBlockSize >= maxBlockSize then tr[i].largestBlockSize else 2 * tr[i].largestBlockSize)
      && tr[j].blocks[|tr[i].blocks|].sizeMask + 1 == tr[j].largestBlockSize
  {
    hide IsRun;
    EnqueueSoFar(tr, acts, size, maxBlockSize, i, j);
    ReachableRoomy(tr, acts, size, maxBlockSize, i);
  }

  // ------------------------------------------------------------ the consumer's calls

  /** How far a call that began in s0 has come. */
  ghost predicate Dequeueing<T>(s0: State<T>, op: Operation, s: State<T>) {
    && (!s.c.CIdle? ==> s.c.op == op && s.received == s0.received)
    && (s.c.CIdle? ==> match s.c.last
          case NothingYet => false
          case Took(v) => op.TryDequeue? && s.received == s0.received + [v]
          case Popped => op.Pop? && |s.received| == |s0.received| + 1 && s0.received <= s.received
          case Address(_, _) => op.Peek? && s.received == s0.received
          case SawNothing => s.received == s0.received)
    && (op.Peek? ==> FrontsKept(s0, s))
  }

  /** Nothing that tells what the queue's first element is has been written. */
  ghost predicate FrontsKept<T>(s0: State<T>, s: State<T>) {
    && s.frontBlock == s0.frontBlock && |s.blocks| >= |s0.blocks|
    && forall b :: 0 <= b < |s0.blocks| ==> s.blocks[b].front == s0.blocks[b].front
  }

  lemma ConsumerStepCounts<T>(s0: State<T>, op: Operation, s: State<T>)
    requires Dequeueing(s0, op, s) && !s.c.CIdle? && ConsumerSafe(s)
    requires s.c.CStoreFront? || s.c.CStoreFrontBlock? ==> !s.c.op.Peek?
    ensures Dequeueing(s0, op, ConsumerNext(s))
  {
    hide Advance, FrontsKept;
    if op.Peek? { PeekWritesNoFront(s0, s); }
  }

  lemma PeekWritesNoFront<T>(s0: State<T>, s: State<T>)
    requires FrontsKept(s0, s) && !s.c.CIdle? && ConsumerSafe(s) && s.c.op.Peek?
    requires !s.c.CStoreFront? && !s.c.CStoreFrontBlock?
    ensures FrontsKept(s0, ConsumerNext(s))
  {
    hide Advance;
  }

  lemma ProducerStandsBy<T>(s0: State<T>, op: Operation, s: State<T>, ok: bool)
    requires Dequeueing(s0, op, s) && !s.p.PIdle? && ProducerSafe(s)
    ensures Dequeueing(s0, op, ProducerNext(s, ok))
  {
    ProducerLeaves(s, ok);
    ProducerLeavesFronts(s, ok);
    hide ProducerNext, ProducerSafe;
  }

  lemma DequeueSetsOut<T>(s: State<T>, op: Operation)
    requires s.c.CIdle?
    ensures Dequeueing(s, op, Do(s, Dequeue(op)))
  {
  }

  lemma {:induction false} DequeueSoFar<T>(tr: seq<State<T>>, acts: seq<Action<T>>, size: nat, maxBlockSize: nat, i: nat, j: nat)
    requires Configuration(size, maxBlockSize) && IsRun(tr, acts, size, maxBlockSize) && ConsumerCall(tr, acts, i, j)
    ensures Dequeueing(tr[i], acts[i].op, tr[j])
    decreases j
  {
    hide Dequeueing, ProducerNext, ConsumerNext, ProducerSafe, ConsumerSafe, InitialState, Inv;
    var op, k := acts[i].op, j - 1;
    if k == i {
      assert tr[j] == Do(tr[i], Dequeue(op));
      DequeueSetsOut(tr[i], op);
    } else {
      DequeueSoFar(tr, acts, size, maxBlockSize, i, k);
      match acts[k]
      case ProducerStep(ok) => ProducerStandsBy(tr[i], op, tr[k], ok);
      case ConsumerStep =>
        ReachableInv(tr, acts, size, maxBlockSize, k);
        PeekOnlyLooks(tr[k], ViewAt(tr, acts, size, maxBlockSize, k));
        ConsumerStepCounts(tr[i], op, tr[k]);
      case Enqueue(x, mode) => EnqueueStandsBy(tr[i], op, tr[k], x, mode);
    }
  }

  lemma EnqueueStandsBy<T>(s0: State<T>, op: Operation, s: State<T>, x: T, mode: AllocationMode)
    requires Dequeueing(s0, op, s)
    ensures Dequeueing(s0, op, s.(p := PLoadTailBlock(x, mode)))
  {
  }

  lemma PeekOnlyLooks<T>(s: State<T>, a: View)
    requires Inv(s, a)
    ensures s.c.CStoreFront? || s.c.CStoreFrontBlock? ==> !s.c.op.Peek?
  {
    hide Consistent, ProducerOK, Sizes;
  }

  /** Every `try_dequeue`, `pop` and `peek` of every run, once it is over. `try_dequeue` hands
      over the oldest element not yet received, and only `try_dequeue` hands one over; `pop`
      removes it; `peek` gives an address and leaves every `front` alone; a call that comes back
      empty-handed takes nothing. */
  lemma DequeueOutcome<T>(tr: seq<State<T>>, acts: seq<Action<T>>, size: nat, maxBlockSize: nat, i: nat, j: nat)
    requires Configuration(size, maxBlockSize) && IsRun(tr, acts, size, maxBlockSize) && ConsumerCall(tr, acts, i, j)
    requires tr[j].c.CIdle?
    ensures tr[j].c.last.SawNothing? || tr[j].c.last.Took? || tr[j].c.last.Popped? || tr[j].c.last.Address?
    ensures tr[j].c.last.SawNothing? ==> tr[j].received == tr[i].received
    ensures !tr[j].c.last.SawNothing? ==> match acts[i].op
      case TryDequeue => tr[j].c.last.Took? && tr[j].received == tr[i].received + [tr[j].c.last.value]
      case Pop => tr[j].c.last.Popped? && |tr[j].received| == |tr[i].received| + 1
      case Peek => tr[j].c.last.Address? && tr[j].received == tr[i].received
    ensures |tr[i].received| < |tr[j].received| ==>
      |tr[i].received| < |tr[j].sent| && tr[j].received == tr[i].received + [tr[j].sent[|tr[i].received|]]
    ensures acts[i].op.Peek? ==> FrontsKept(tr[i], tr[j])
  {
    hide IsRun, FrontsKept;
    DequeueSoFar(tr, acts, size, maxBlockSize, i, j);
    ReceivedIsPrefix(tr, acts, size, maxBlockSize, j);
    OneTaken(tr[i].received, tr[j].received, tr[j].sent);
  }

  lemma OneTaken<T>(before: seq<T>, after: seq<T>, sent: seq<T>)
    requires after <= sent
    ensures |after| == |before| + 1 && before <= after ==> after == before + [sent[|before|]]
  {
  }
}
