/** No call waits for the other thread: each ends after a bounded number of its own steps,
    whatever the other thread does or leaves undone. */
module SpscProgress {
  import opened Bits
  import opened SpscQueue
  import opened SpscRuns
  import opened SpscTheorems

  /** At most how many steps the producer is away from the end of its call. */
  function ProducerLeft<T>(p: Producer<T>): nat {
    match p
    case PIdle(_) => 0
    case PLoadTailBlock(_, _) => 11
    case PLoadTail(_, _, _, _) => 10
    case PLoadFront(_, _, _, _, _) => 9
    case PConstruct(_, _, _, _) => 2
    case PStoreTail(_, _, _) => 1
    case PLoadNext(_, _, _) => 8
    case PLoadFrontBlock(_, _, _, _) => 7
    case PReloadNext(_, _) => 6
    case PLoadNextFront(_, _) => 5
    case PLoadNextTail(_, _, _) => 4
    case PConstructNext(_, _, _) => 3
    case PStoreNextTail(_, _, _) => 2
    case PPublishNext(_, _) => 1
    case PAllocate(_, _) => 6
    case PConstructNew(_, _, _) => 5
    case PStoreNewTail(_, _, _) => 4
    case PSetNewNext(_, _, _) => 3
    case PLinkNew(_, _, _) => 2
    case PPublishNew(_, _) => 1
  }

  function ConsumerLeft<T>(c: Consumer<T>): nat {
    match c
    case CIdle(_) => 0
    case CLoadFrontBlock(_) => 13
    case CLoadFront(_, _, _) => 12
    case CLoadTail(_, _, _) => 11
    case CLoadTailBlock(_, _) => 10
    case CReloadFrontBlock(_) => 9
    case CReloadTail(_, _) => 8
    case CReloadFront(_, _, _) => 7
    case CLoadNext(_, _) => 6
    case CLoadNextFront(_, _) => 5
    case CLoadNextTail(_, _, _) => 4
    case CStoreFrontBlock(_, _, _) => 3
    case CTake(_, _, _) => 2
    case CStoreFront(_, _, _, _) => 1
  }

  /** Steps of the producer among actions i .. j - 1. */
  function ProducerSteps<T>(acts: seq<Action<T>>, i: nat, j: nat): (n: nat)
    requires j <= |acts|
  {
    if i >= j then 0 else ProducerSteps(acts, i, j - 1) + If(acts[j - 1].ProducerStep?)
  }

  function ConsumerSteps<T>(acts: seq<Action<T>>, i: nat, j: nat): (n: nat)
    requires j <= |acts|
  {
    if i >= j then 0 else ConsumerSteps(acts, i, j - 1) + If(acts[j - 1].ConsumerStep?)
  }

  lemma ProducerGetsOn<T>(s: State<T>, ok: bool)
    requires !s.p.PIdle? && ProducerSafe(s)
    ensures ProducerLeft(ProducerNext(s, ok).p) < ProducerLeft(s.p)
  {
    hide Put, PutCell, Advance, NewBlockSize, MakeBlock;
  }

  lemma ConsumerGetsOn<T>(s: State<T>)
    requires !s.c.CIdle? && ConsumerSafe(s)
    ensures ConsumerLeft(ConsumerNext(s).c) < ConsumerLeft(s.c) && ConsumerNext(s).p == s.p
  {
    hide Advance;
  }

  lemma ProducerCounts<T>(s: State<T>, act: Action<T>)
    requires Can(s, act)
    ensures var p, p' := s.p, Do(s, act).p;
      if act.Enqueue? then ProducerLeft(p') == 11
      else if act.ProducerStep? then ProducerLeft(p') < ProducerLeft(p)
      else p' == p
  {
    hide ProducerSafe, ProducerNext, ConsumerSafe, ConsumerNext;
    if act.ProducerStep? { ProducerGetsOn(s, act.mallocOk); }
    if act.ConsumerStep? { ConsumerGetsOn(s); }
  }

  lemma ConsumerCounts<T>(s: State<T>, act: Action<T>)
    requires Can(s, act)
    ensures var c, c' := s.c, Do(s, act).c;
      if act.Dequeue? then ConsumerLeft(c') == 13
      else if act.ConsumerStep? then ConsumerLeft(c') < ConsumerLeft(c)
      else c' == c
  {
    hide ProducerSafe, ProducerNext, ConsumerSafe, ConsumerNext;
    if act.ProducerStep? { ProducerLeaves(s, act.mallocOk); }
    if act.ConsumerStep? { ConsumerGetsOn(s); }
  }

  /** A call of the producer that is still going on has taken fewer than 11 steps, and its
      next step can be taken at once. */
  lemma {:induction false} EnqueueEnds<T>(tr: seq<State<T>>, acts: seq<Action<T>>, size: nat, maxBlockSize: nat, i: nat, j: nat)
    requires Configuration(size, maxBlockSize) && IsRun(tr, acts, size, maxBlockSize) && ProducerCall(tr, acts, i, j)
    ensures ProducerSteps(acts, i, j) + ProducerLeft(tr[j].p) <= 11
    ensures !tr[j].p.PIdle? ==> ProducerSteps(acts, i, j) < 11 && forall ok :: Can(tr[j], ProducerStep(ok))
    decreases j
  {
    hide Do, InitialState, ProducerSafe, ConsumerSafe;
    NeverStuck(tr, acts, size, maxBlockSize, j);
    ProducerCounts(tr[j - 1], acts[j - 1]);
    if j > i + 1 {
      EnqueueEnds(tr, acts, size, maxBlockSize, i, j - 1);
    } else {
      assert ProducerSteps(acts, i, i) == 0;
    }
  }

  /** A call of the consumer that is still going on has taken fewer than 13 steps, and its
      next step can be taken at once. */
  lemma {:induction false} DequeueEnds<T>(tr: seq<State<T>>, acts: seq<Action<T>>, size: nat, maxBlockSize: nat, i: nat, j: nat)
    requires Configuration(size, maxBlockSize) && IsRun(tr, acts, size, maxBlockSize) && ConsumerCall(tr, acts, i, j)
    ensures ConsumerSteps(acts, i, j) + ConsumerLeft(tr[j].c) <= 13
    ensures !tr[j].c.CIdle? ==> ConsumerSteps(acts, i, j) < 13 && Can(tr[j], ConsumerStep)
    decreases j
  {
    hide Do, InitialState, ProducerSafe, ConsumerSafe;
    NeverStuck(tr, acts, size, maxBlockSize, j);
    ConsumerCounts(tr[j - 1], acts[j - 1]);
    if j > i + 1 {
      DequeueEnds(tr, acts, size, maxBlockSize, i, j - 1);
    } else {
      assert ConsumerSteps(acts, i, i) == 0;
    }
  }
}
