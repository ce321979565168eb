/** src/readerwriterqueue.h, ReaderWriterQueue, as a state machine.

    One producer thread and one consumer thread run against a heap of blocks. Every load
    and store of a variable that both threads can reach is a step of its own, and the two
    threads' steps interleave freely, under sequential consistency. A thread's position in
    its code is the constructor of its record below, which holds the local variables that
    are live there. The shadow index `localFront` is only touched by the producer and
    `localTail` only by the consumer, so those accesses ride along with a shared one. */
module SpscQueue {
  import opened Bits
  import opened Rounding

  /** A block's address: its position in allocation order. */
  type Ptr = int
  const NULL: Ptr := -1

  /** One `sizeof(T)` slot of a block: raw memory, or memory holding a live object. */
  datatype Cell<T> = Dead | Live(value: T)

  datatype Block<T> = Block(
    front: nat, localTail: nat,
    tail: nat, localFront: nat,
    next: Ptr,
    data: seq<Cell<T>>,
    sizeMask: nat)

  datatype AllocationMode = CanAlloc | CannotAlloc

  /** How the last `inner_enqueue` ended. */
  datatype EnqueueResult = NeverCalled | Enqueued | Refused | OutOfMemory

  datatype Operation = TryDequeue | Pop | Peek

  /** How the last consumer call ended. `peek` returns an address: block and cell. */
  datatype DequeueResult<T> = NothingYet | Took(value: T) | Popped | Address(at: Ptr, cell: nat) | SawNothing

  /** The producer's position in `inner_enqueue`, named after the step it takes next. */
  datatype Producer<T> =
    | PIdle(last: EnqueueResult)
    | PLoadTailBlock(x: T, mode: AllocationMode)
    | PLoadTail(x: T, mode: AllocationMode, tb: Ptr, bf: nat)
    | PLoadFront(x: T, mode: AllocationMode, tb: Ptr, bt: nat, nbt: nat)
    | PConstruct(x: T, tb: Ptr, bt: nat, nbt: nat)
    | PStoreTail(x: T, tb: Ptr, nbt: nat)
    // the tail block is full
    | PLoadNext(x: T, mode: AllocationMode, tb: Ptr)
    | PLoadFrontBlock(x: T, mode: AllocationMode, tb: Ptr, nx: Ptr)
    // the next block is free
    | PReloadNext(x: T, tb: Ptr)
    | PLoadNextFront(x: T, tbn: Ptr)
    | PLoadNextTail(x: T, tbn: Ptr, nbf: nat)
    | PConstructNext(x: T, tbn: Ptr, nbt: nat)
    | PStoreNextTail(x: T, tbn: Ptr, nbt: nat)
    | PPublishNext(x: T, tbn: Ptr)
    // the next block is the front block
    | PAllocate(x: T, tb: Ptr)
    | PConstructNew(x: T, tb: Ptr, nb: Ptr)
    | PStoreNewTail(x: T, tb: Ptr, nb: Ptr)
    | PSetNewNext(x: T, tb: Ptr, nb: Ptr)
    | PLinkNew(x: T, tb: Ptr, nb: Ptr)
    | PPublishNew(x: T, nb: Ptr)

  /** The consumer's position in `try_dequeue`, `pop` or `peek`. */
  datatype Consumer<T> =
    | CIdle(last: DequeueResult<T>)
    | CLoadFrontBlock(op: Operation)
    | CLoadFront(op: Operation, fb: Ptr, bt: nat)
    | CLoadTail(op: Operation, fb: Ptr, bf: nat)
    | CLoadTailBlock(op: Operation, fb: Ptr)
    | CReloadFrontBlock(op: Operation)
    | CReloadTail(op: Operation, fb: Ptr)
    | CReloadFront(op: Operation, fb: Ptr, bt: nat)
    // the front block is empty and another block is ahead
    | CLoadNext(op: Operation, fb: Ptr)
    | CLoadNextFront(op: Operation, nb: Ptr)
    | CLoadNextTail(op: Operation, nb: Ptr, nbf: nat)
    | CStoreFrontBlock(op: Operation, nb: Ptr, nbf: nat)
    // an element is there
    | CTake(op: Operation, fb: Ptr, bf: nat)
    | CStoreFront(op: Operation, fb: Ptr, bf: nat, val: T)

  /** `sent` and `received` log the elements of the calls that have succeeded so far; no
      step reads them. */
  datatype State<T> = State(
    blocks: seq<Block<T>>,
    frontBlock: Ptr,
    tailBlock: Ptr,
    largestBlockSize: nat,
    maxBlockSize: nat,
    p: Producer<T>,
    c: Consumer<T>,
    sent: seq<T>,
    received: seq<T>)

  datatype Action<T> =
    | Enqueue(x: T, mode: AllocationMode)
    | ProducerStep(mallocOk: bool)
    | Dequeue(op: Operation)
    | ConsumerStep

  // ------------------------------------------------------------ memory

  /** `make_block`. A block asked for with no cells gets the mask of all ones. */
  function MakeBlock<T>(capacity: nat): (b: Block<T>)
    ensures 1 <= capacity <= WORD ==> b.sizeMask + 1 == |b.data| == capacity
  {
    Block(0, 0, 0, 0, NULL, seq(capacity, _ => Dead), Wrap(capacity - 1))
  }

  predicate Valid<T>(s: State<T>, b: Ptr) {
    0 <= b < |s.blocks|
  }

  predicate ValidCell<T>(s: State<T>, b: Ptr, i: nat) {
    Valid(s, b) && i < |s.blocks[b].data|
  }

  function Put<T>(s: State<T>, b: Ptr, blk: Block<T>): State<T>
    requires Valid(s, b)
  {
    s.(blocks := s.blocks[b := blk])
  }

  function PutCell<T>(s: State<T>, b: Ptr, i: nat, cell: Cell<T>): State<T>
    requires ValidCell(s, b, i)
  {
    Put(s, b, s.blocks[b].(data := s.blocks[b].data[i := cell]))
  }

  function NewBlockSize<T>(s: State<T>): nat {
    if s.largestBlockSize >= s.maxBlockSize then s.largestBlockSize else s.largestBlockSize * 2
  }

  // ------------------------------------------------------------ producer

  /** The producer's next step has defined behaviour: it dereferences block addresses only,
      indexes inside `data`, and constructs an object only in raw memory. */
  predicate ProducerSafe<T>(s: State<T>) {
    match s.p
    case PIdle(_) => true
    case PLoadTailBlock(_, _) => Valid(s, s.tailBlock)
    case PLoadTail(_, _, tb, _) => Valid(s, tb)
    case PLoadFront(_, _, tb, _, _) => Valid(s, tb)
    case PConstruct(_, tb, bt, _) => ValidCell(s, tb, bt) && s.blocks[tb].data[bt].Dead?
    case PStoreTail(_, tb, _) => Valid(s, tb)
    case PLoadNext(_, _, tb) => Valid(s, tb)
    case PLoadFrontBlock(_, _, _, _) => true
    case PReloadNext(_, tb) => Valid(s, tb)
    case PLoadNextFront(_, tbn) => Valid(s, tbn)
    case PLoadNextTail(_, tbn, _) => Valid(s, tbn)
    case PConstructNext(_, tbn, nbt) => ValidCell(s, tbn, nbt) && s.blocks[tbn].data[nbt].Dead?
    case PStoreNextTail(_, tbn, _) => Valid(s, tbn)
    case PPublishNext(_, tbn) => Valid(s, tbn)
    case PAllocate(_, _) => true
    case PConstructNew(_, _, nb) => ValidCell(s, nb, 0) && s.blocks[nb].data[0].Dead?
    case PStoreNewTail(_, _, nb) => Valid(s, nb)
    case PSetNewNext(_, tb, nb) => Valid(s, tb) && Valid(s, nb)
    case PLinkNew(_, tb, _) => Valid(s, tb)
    case PPublishNew(_, nb) => Valid(s, nb)
  }

  /** The assertions that `inner_enqueue` makes on its next step. */
  predicate ProducerAsserts<T>(s: State<T>)
    requires ProducerSafe(s)
  {
    match s.p
    case PLoadNextTail(_, tbn, nbf) => nbf == s.blocks[tbn].tail
    case PStoreNewTail(_, _, nb) => s.blocks[nb].front == 0
    case _ => true
  }

  function ProducerNext<T>(s: State<T>, mallocOk: bool): State<T>
    requires ProducerSafe(s) && !s.p.PIdle?
  {
    match s.p
    case PLoadTailBlock(x, mode) =>
      s.(p := PLoadTail(x, mode, s.tailBlock, s.blocks[s.tailBlock].localFront))
    case PLoadTail(x, mode, tb, bf) =>
      var bt := s.blocks[tb].tail;
      var nbt := Advance(bt, s.blocks[tb].sizeMask);
      s.(p := if nbt != bf then PConstruct(x, tb, bt, nbt) else PLoadFront(x, mode, tb, bt, nbt))
    case PLoadFront(x, mode, tb, bt, nbt) =>
      var f := s.blocks[tb].front;
      Put(s, tb, s.blocks[tb].(localFront := f))
      .(p := if nbt != f then PConstruct(x, tb, bt, nbt) else PLoadNext(x, mode, tb))
    case PConstruct(x, tb, bt, nbt) =>
      PutCell(s, tb, bt, Live(x)).(p := PStoreTail(x, tb, nbt))
    case PStoreTail(x, tb, nbt) =>
      Put(s, tb, s.blocks[tb].(tail := nbt)).(p := PIdle(Enqueued), sent := s.sent + [x])
    case PLoadNext(x, mode, tb) =>
      s.(p := PLoadFrontBlock(x, mode, tb, s.blocks[tb].next))
    case PLoadFrontBlock(x, mode, tb, nx) =>
      if nx != s.frontBlock then s.(p := PReloadNext(x, tb))
      else if mode.CanAlloc? then s.(p := PAllocate(x, tb))
      else s.(p := PIdle(Refused))
    case PReloadNext(x, tb) =>
      s.(p := PLoadNextFront(x, s.blocks[tb].next))
    case PLoadNextFront(x, tbn) =>
      var f := s.blocks[tbn].front;
      Put(s, tbn, s.blocks[tbn].(localFront := f)).(p := PLoadNextTail(x, tbn, f))
    case PLoadNextTail(x, tbn, nbf) =>
      Put(s, tbn, s.blocks[tbn].(localFront := nbf)).(p := PConstructNext(x, tbn, s.blocks[tbn].tail))
    case PConstructNext(x, tbn, nbt) =>
      PutCell(s, tbn, nbt, Live(x)).(p := PStoreNextTail(x, tbn, nbt))
    case PStoreNextTail(x, tbn, nbt) =>
      Put(s, tbn, s.blocks[tbn].(tail := Advance(nbt, s.blocks[tbn].sizeMask))).(p := PPublishNext(x, tbn))
    case PPublishNext(x, tbn) =>
      s.(tailBlock := tbn, p := PIdle(Enqueued), sent := s.sent + [x])
    case PAllocate(x, tb) =>
      if mallocOk then
        s.(blocks := s.blocks + [MakeBlock(NewBlockSize(s))], largestBlockSize := NewBlockSize(s),
           p := PConstructNew(x, tb, |s.blocks|))
      else s.(p := PIdle(OutOfMemory))
    case PConstructNew(x, tb, nb) =>
      PutCell(s, nb, 0, Live(x)).(p := PStoreNewTail(x, tb, nb))
    case PStoreNewTail(x, tb, nb) =>
      Put(s, nb, s.blocks[nb].(tail := 1, localTail := 1)).(p := PSetNewNext(x, tb, nb))
    case PSetNewNext(x, tb, nb) =>
      Put(s, nb, s.blocks[nb].(next := s.blocks[tb].next)).(p := PLinkNew(x, tb, nb))
    case PLinkNew(x, tb, nb) =>
      Put(s, tb, s.blocks[tb].(next := nb)).(p := PPublishNew(x, nb))
    case PPublishNew(x, nb) =>
      s.(tailBlock := nb, p := PIdle(Enqueued), sent := s.sent + [x])
  }

  // ------------------------------------------------------------ consumer

  /** As ProducerSafe; an object is moved out or destroyed only where one is live. */
  predicate ConsumerSafe<T>(s: State<T>) {
    match s.c
    case CIdle(_) => true
    case CLoadFrontBlock(_) => Valid(s, s.frontBlock)
    case CLoadFront(_, fb, _) => Valid(s, fb)
    case CLoadTail(_, fb, _) => Valid(s, fb)
    case CLoadTailBlock(_, _) => true
    case CReloadFrontBlock(_) => true
    case CReloadTail(_, fb) => Valid(s, fb)
    case CReloadFront(_, fb, _) => Valid(s, fb)
    case CLoadNext(_, fb) => Valid(s, fb)
    case CLoadNextFront(_, nb) => Valid(s, nb)
    case CLoadNextTail(_, nb, _) => Valid(s, nb)
    case CStoreFrontBlock(_, nb, _) => Valid(s, nb)
    case CTake(_, fb, bf) => ValidCell(s, fb, bf) && s.blocks[fb].data[bf].Live?
    case CStoreFront(_, fb, _, _) => Valid(s, fb)
  }

  /** The assertion that the consumer makes on its next step. */
  predicate ConsumerAsserts<T>(s: State<T>)
    requires ConsumerSafe(s)
  {
    match s.c
    case CLoadNextTail(_, nb, nbf) => nbf != s.blocks[nb].tail
    case _ => true
  }

  function ConsumerNext<T>(s: State<T>): State<T>
    requires ConsumerSafe(s) && !s.c.CIdle?
  {
    match s.c
    case CLoadFrontBlock(op) =>
      s.(c := CLoadFront(op, s.frontBlock, s.blocks[s.frontBlock].localTail))
    case CLoadFront(op, fb, bt) =>
      var bf := s.blocks[fb].front;
      s.(c := if bf != bt then CTake(op, fb, bf) else CLoadTail(op, fb, bf))
    case CLoadTail(op, fb, bf) =>
      var t := s.blocks[fb].tail;
      Put(s, fb, s.blocks[fb].(localTail := t))
      .(c := if bf != t then CTake(op, fb, bf) else CLoadTailBlock(op, fb))
    case CLoadTailBlock(op, fb) =>
      s.(c := if fb != s.tailBlock then CReloadFrontBlock(op) else CIdle(SawNothing))
    case CReloadFrontBlock(op) =>
      s.(c := CReloadTail(op, s.frontBlock))
    case CReloadTail(op, fb) =>
      var t := s.blocks[fb].tail;
      Put(s, fb, s.blocks[fb].(localTail := t)).(c := CReloadFront(op, fb, t))
    case CReloadFront(op, fb, bt) =>
      var bf := s.blocks[fb].front;
      s.(c := if bf != bt then CTake(op, fb, bf) else CLoadNext(op, fb))
    case CLoadNext(op, fb) =>
      s.(c := CLoadNextFront(op, s.blocks[fb].next))
    case CLoadNextFront(op, nb) =>
      s.(c := CLoadNextTail(op, nb, s.blocks[nb].front))
    case CLoadNextTail(op, nb, nbf) =>
      if op.Peek? then s.(c := CIdle(Address(nb, nbf)))
      else Put(s, nb, s.blocks[nb].(localTail := s.blocks[nb].tail)).(c := CStoreFrontBlock(op, nb, nbf))
    case CStoreFrontBlock(op, nb, nbf) =>
      s.(frontBlock := nb, c := CTake(op, nb, nbf))
    case CTake(op, fb, bf) =>
      if op.Peek? then s.(c := CIdle(Address(fb, bf)))
      else PutCell(s, fb, bf, Dead).(c := CStoreFront(op, fb, bf, s.blocks[fb].data[bf].value))
    case CStoreFront(op, fb, bf, val) =>
      Put(s, fb, s.blocks[fb].(front := Advance(bf, s.blocks[fb].sizeMask)))
      .(c := CIdle(if op.TryDequeue? then Took(val) else Popped), received := s.received + [val])
  }

  // ------------------------------------------------------------ runs

  predicate Can<T>(s: State<T>, act: Action<T>) {
    match act
    case Enqueue(_, _) => s.p.PIdle?
    case ProducerStep(_) => !s.p.PIdle? && ProducerSafe(s)
    case Dequeue(_) => s.c.CIdle?
    case ConsumerStep => !s.c.CIdle? && ConsumerSafe(s)
  }

  function Do<T>(s: State<T>, act: Action<T>): State<T>
    requires Can(s, act)
  {
    match act
    case Enqueue(x, mode) => s.(p := PLoadTailBlock(x, mode))
    case ProducerStep(mallocOk) => ProducerNext(s, mallocOk)
    case Dequeue(op) => s.(c := CLoadFrontBlock(op))
    case ConsumerStep => ConsumerNext(s)
  }

  /** The position after i in a ring of n. */
  function Succ(i: nat, n: nat): nat {
    if i + 1 == n then 0 else i + 1
  }

  /** `largestBlockSize > MAX_BLOCK_SIZE * 2`, for the size requested. Sums, differences and
      products of words wrap. */
  predicate SeveralBlocks(size: nat, maxBlockSize: nat) {
    RoundUp(Wrap(size + 1)) > Wrap(maxBlockSize * 2)
  }

  /** The constructor's block size and number of blocks for a requested size. */
  function InitialBlockSize(size: nat, maxBlockSize: nat): nat {
    if SeveralBlocks(size, maxBlockSize) then maxBlockSize else RoundUp(Wrap(size + 1))
  }

  function InitialBlockCount(size: nat, maxBlockSize: nat): nat
    requires maxBlockSize >= 2
  {
    if SeveralBlocks(size, maxBlockSize) then Div(Wrap(size + maxBlockSize * 2 - 3), maxBlockSize - 1) else 1
  }

  /** What the constructor builds. */
  function InitialState<T>(size: nat, maxBlockSize: nat): State<T>
    requires maxBlockSize >= 2
  {
    var n := InitialBlockCount(size, maxBlockSize);
    var capacity := InitialBlockSize(size, maxBlockSize);
    var firstBlock := if n == 0 then NULL else 0;
    State(seq(n, i requires 0 <= i < n => MakeBlock<T>(capacity).(next := Succ(i, n))), firstBlock, firstBlock, capacity, maxBlockSize,
          PIdle(NeverCalled), CIdle(NothingYet), [], [])
  }

  /** A run: the constructor's state, then one action after another, in any order. */
  ghost predicate IsRun<T>(tr: seq<State<T>>, acts: seq<Action<T>>, size: nat, maxBlockSize: nat)
    requires maxBlockSize >= 2
  {
    && |tr| == |acts| + 1 && tr[0] == InitialState(size, maxBlockSize)
    && forall i :: 0 <= i < |acts| ==> Can(tr[i], acts[i]) && tr[i + 1] == Do(tr[i], acts[i])
  }

  // ------------------------------------------------------------ the abstract queue

  /** What the clients see as the queue: sent and not yet received. */
  function Fifo<T>(s: State<T>): seq<T>
    requires |s.received| <= |s.sent|
  {
    s.sent[|s.received|..]
  }

  /** Elements in a block, as `size_approx` counts them. */
  function Occupied<T>(b: Block<T>): nat
    requires b.front < WORD && b.tail < WORD
  {
    And(Sub64(b.tail, b.front), b.sizeMask)
  }

  /** The cells of a block from index i up to its `tail`. */
  function CellsFrom<T>(b: Block<T>, i: nat, fuel: nat): seq<Cell<T>>
    decreases fuel
  {
    if fuel == 0 || i == b.tail || i >= |b.data| then []
    else [b.data[i]] + CellsFrom(b, Advance(i, b.sizeMask), fuel - 1)
  }

  /** What memory holds between `front` and `tail`, block by block from b to the tail block. */
  function Walk<T>(s: State<T>, b: Ptr, fuel: nat): seq<Cell<T>>
    decreases fuel
  {
    if fuel == 0 || !Valid(s, b) then []
    else
      var here := CellsFrom(s.blocks[b], s.blocks[b].front, |s.blocks[b].data|);
      if b == s.tailBlock then here else here + Walk(s, s.blocks[b].next, fuel - 1)
  }

  function InMemory<T>(s: State<T>): seq<Cell<T>> {
    Walk(s, s.frontBlock, |s.blocks|)
  }
}
