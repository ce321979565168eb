/** src/readerwriterqueue.h, ReaderWriterQueue, as an object used by one thread at a time,
    which the header allows. What two threads add is in the state machine of SpscQueue; the
    blocks, their indices and the facts about them are the same. */
module ReaderWriterQueues {
  import opened Bits
  import opened Rounding
  import opened SpscQueue
  import opened SpscInvariant
  import opened SpscMemory
  import opened SpscRuns
  import opened SpscQuiescent

  datatype Option<T> = None | Some(value: T)

  /** The producer leaves the consumer's indices alone, in every block there was. */
  ghost predicate ConsumerSideKept<T>(before: seq<Block<T>>, after: seq<Block<T>>) {
    && |before| <= |after|
    && forall b :: 0 <= b < |before| ==> after[b].front == before[b].front && after[b].localTail == before[b].localTail
  }

  /** The consumer leaves the producer's indices and the links alone. */
  ghost predicate ProducerSideKept<T>(before: seq<Block<T>>, after: seq<Block<T>>) {
    && |after| == |before|
    && forall b :: 0 <= b < |before| ==>
      && after[b].tail == before[b].tail && after[b].localFront == before[b].localFront
      && after[b].next == before[b].next && after[b].sizeMask == before[b].sizeMask
  }

  class ReaderWriterQueue<T> {
    const maxBlockSize: nat
    var blocks: seq<Block<T>>
    var frontBlock: Ptr
    var tailBlock: Ptr
    var largestBlockSize: nat
    ghost var layout: Layout
    ghost var sent: seq<T>
    ghost var received: seq<T>

    ghost function AsState(): State<T>
      reads this
    {
      State(blocks, frontBlock, tailBlock, largestBlockSize, maxBlockSize, PIdle(NeverCalled), CIdle(NothingYet), sent, received)
    }

    ghost predicate Valid()
      reads this
    {
      Quiescent(AsState(), layout)
    }

    ghost function Contents(): seq<T>
      requires Valid()
      reads this
    {
      Fifo(AsState())
    }

    /** The cells the producer can fill before it meets the front block. */
    ghost function Room(): int
      requires Valid()
      reads this
    {
      Free(AsState(), layout)
    }

    /** The cells of all blocks, less one spare each. */
    ghost function TotalRoom(): nat
      requires Valid()
      reads this
    {
      Capacity(AsState(), layout)
    }

    /** The constructor's blocks: one of the size asked for, or a ring of blocks of the
        maximum size. Sums and products of words wrap. */
    static method BuildBlocks(size: nat, maxBlockSize: nat) returns (heap: seq<Block<T>>, firstBlock: Ptr, largest: nat)
      requires size < WORD && 2 <= maxBlockSize <= HALF_WORD
      ensures heap == InitialState<T>(size, maxBlockSize).blocks && firstBlock == InitialState<T>(size, maxBlockSize).frontBlock
      ensures largest == InitialBlockSize(size, maxBlockSize)
    {
      hide RoundUp, Wrap, Div;
      largest := CeilToPow2(Wrap(size + 1));
      if largest > Wrap(maxBlockSize * 2) {
        var initialBlockCount := Div(Wrap(size + maxBlockSize * 2 - 3), maxBlockSize - 1);
        largest := maxBlockSize;
        heap, firstBlock := BuildRing(initialBlockCount, largest);
      } else {
        heap, firstBlock := [MakeBlock(largest)], 0;
        heap := heap[firstBlock := heap[firstBlock].(next := firstBlock)];
      }
    }

    static method BuildRing(initialBlockCount: nat, largest: nat) returns (heap: seq<Block<T>>, firstBlock: Ptr)
      ensures |heap| == initialBlockCount && firstBlock == if initialBlockCount == 0 then NULL else 0
      ensures forall k :: 0 <= k < |heap| ==> heap[k] == MakeBlock<T>(largest).(next := Succ(k, initialBlockCount))
    {
      heap, firstBlock := [], NULL;
      var lastBlock := NULL;
      var i := 0;
      while i != initialBlockCount
        invariant 0 <= i <= initialBlockCount && |heap| == i
        invariant i == 0 ==> firstBlock == NULL
        invariant i > 0 ==> firstBlock == 0 && lastBlock == i - 1
        invariant forall k :: 0 <= k < i ==> heap[k] == MakeBlock<T>(largest).(next := Succ(k, i))
        decreases initialBlockCount - i
      {
        var block := |heap|;
        heap := heap + [MakeBlock(largest)];
        if firstBlock == NULL {
          firstBlock := block;
        } else {
          heap := heap[lastBlock := heap[lastBlock].(next := block)];
        }
        lastBlock := block;
        heap := heap[block := heap[block].(next := firstBlock)];
        i := i + 1;
      }
    }

    /** For any size, and any maximum that passes the constructor's assertions. The queue is
        in working order for the configurations that SpscWitness shows to be the right ones. */
    constructor (size: nat, maxBlockSize: nat)
      requires size < WORD && IsPow2(maxBlockSize) && 2 <= maxBlockSize <= HALF_WORD
      ensures AsState() == InitialState(size, maxBlockSize)
      ensures Configuration(size, maxBlockSize) ==> Valid() && Contents() == []
    {
      hide Quiescent, InitialState, IsPow2;
      var heap, firstBlock, largest := BuildBlocks(size, maxBlockSize);
      StartsAs(size, maxBlockSize, heap, firstBlock, largest);
      if Configuration(size, maxBlockSize) { StartsValid(size, maxBlockSize); }
      this.maxBlockSize := maxBlockSize;
      blocks, largestBlockSize := heap, largest;
      frontBlock, tailBlock := firstBlock, firstBlock;
      layout, sent, received := InitialView(size, maxBlockSize).l, [], [];
    }

    /** The queue as a run of two threads has left it between calls. */
    constructor Adopt(s: State<T>, ghost l: Layout)
      requires Quiescent(s, l)
      ensures Valid() && AsState() == s && layout == l
    {
      maxBlockSize := s.maxBlockSize;
      blocks, largestBlockSize := s.blocks, s.largestBlockSize;
      frontBlock, tailBlock := s.frontBlock, s.tailBlock;
      layout, sent, received := l, s.sent, s.received;
    }

    static lemma StartsAs(size: nat, maxBlockSize: nat, heap: seq<Block<T>>, firstBlock: Ptr, largest: nat)
      requires maxBlockSize >= 2 && largest == InitialBlockSize(size, maxBlockSize)
      requires heap == InitialState<T>(size, maxBlockSize).blocks && firstBlock == InitialState<T>(size, maxBlockSize).frontBlock
      ensures InitialState<T>(size, maxBlockSize)
           == State(heap, firstBlock, firstBlock, largest, maxBlockSize, PIdle(NeverCalled), CIdle(NothingYet), [], [])
    {
      hide InitialBlockSize, InitialBlockCount;
    }

    static lemma StartsValid(size: nat, maxBlockSize: nat)
      requires Configuration(size, maxBlockSize)
      ensures Quiescent(InitialState<T>(size, maxBlockSize), InitialView(size, maxBlockSize).l)
      ensures Fifo(InitialState<T>(size, maxBlockSize)) == []
    {
      hide Consistent, InitialBlockSize, InitialBlockCount;
      InitialInv<T>(size, maxBlockSize);
    }

    // ---------------------------------------------------------- enqueue

    /** `localFront = front` */
    method RefreshLocalFront(b: Ptr)
      requires Valid() && 0 <= b < |blocks|
      modifies this`blocks, this`layout
      ensures Valid() && |layout.v| == |blocks|
      ensures blocks == old(blocks[b := blocks[b].(localFront := blocks[b].front)])
      ensures layout == With(old(layout), b, At(old(layout), b).(lf := At(old(layout), b).f))
      ensures Room() == old(Room()) && TotalRoom() == old(TotalRoom())
    {
      ghost var s, l := AsState(), layout;
      hide Consistent;
      Bounds(s, l);
      RefreshesShadow(s, l, b, true);
      blocks := blocks[b := blocks[b].(localFront := blocks[b].front)];
      layout := With(l, b, l.v[b].(lf := l.v[b].f));
      RoomSame(s.blocks, l, blocks, layout, l.tp);
      MasksSame(s.blocks, blocks, l.ring, 0);
    }

    /** The tail block has room: construct the element at `tail`, then advance `tail`. */
    method EnqueueInTailBlock(x: T, blockTail: nat, nextBlockTail: nat)
      requires Valid() && RoomHere(AsState(), layout)
      requires blockTail == blocks[tailBlock].tail && nextBlockTail == Advance(blockTail, blocks[tailBlock].sizeMask)
      modifies this`blocks, this`layout, this`sent
      ensures Valid() && Contents() == old(Contents()) + [x]
      ensures ConsumerSideKept(old(blocks), blocks)
      ensures Room() == old(Room()) - 1 && TotalRoom() == old(TotalRoom()) && |blocks| == old(|blocks|)
    {
      ghost var s, l := AsState(), layout;
      hide Consistent, Indices;
      Bounds(s, l);
      EnqueuesHere(s, l, x);
      blocks := blocks[tailBlock := blocks[tailBlock].(data := blocks[tailBlock].data[blockTail := Live(x)])];
      blocks := blocks[tailBlock := blocks[tailBlock].(tail := nextBlockTail)];
      layout := With(l, tailBlock, l.v[tailBlock].(t := l.v[tailBlock].t + 1));
      sent := sent + [x];
      assert AsState() == WithTail(WithCell(s, s.tailBlock, x), s.tailBlock).(sent := s.sent + [x]);
      RoomTaken(s, l, AsState(), layout, l.tp);
      MasksSame(s.blocks, blocks, l.ring, 0);
    }

    /** The tail block is full and the next block is free: construct the element there, and
        only then move the tail to it. */
    method EnqueueInNextBlock(x: T)
      requires Valid() && |layout.ring| == |blocks| && layout.tp + 1 < |layout.ring|
      requires 0 <= tailBlock < |blocks| == |layout.v|
      requires layout.v[tailBlock].t == layout.v[tailBlock].f + blocks[tailBlock].sizeMask
      modifies this`blocks, this`tailBlock, this`layout, this`sent
      ensures Valid() && Contents() == old(Contents()) + [x]
      ensures ConsumerSideKept(old(blocks), blocks)
      ensures var b := old(blocks[tailBlock].next);
        0 <= b < old(|blocks|) && b != frontBlock && old(blocks)[b].front == old(blocks)[b].tail && tailBlock == b
      ensures Room() == old(Room()) - 1 && TotalRoom() == old(TotalRoom()) && |blocks| == old(|blocks|)
    {
      hide Consistent, Indices;
      Bounds(AsState(), layout);
      var tailBlockNext := blocks[tailBlock].next;
      var nextBlockFront := blocks[tailBlockNext].front;
      RefreshLocalFront(tailBlockNext);
      NextBlockEmpty(AsState(), layout, tailBlockNext);
      var nextBlockTail := blocks[tailBlockNext].tail;
      assert nextBlockFront == nextBlockTail;
      FillNextBlock(x, tailBlockNext, nextBlockTail);
    }

    method FillNextBlock(x: T, tailBlockNext: Ptr, nextBlockTail: nat)
      requires Valid() && RoomNext(AsState(), layout, tailBlockNext) && nextBlockTail == blocks[tailBlockNext].tail
      modifies this`blocks, this`tailBlock, this`layout, this`sent
      ensures Valid() && Contents() == old(Contents()) + [x]
      ensures tailBlock == tailBlockNext
      ensures ConsumerSideKept(old(blocks), blocks)
      ensures Room() == old(Room()) - 1 && TotalRoom() == old(TotalRoom()) && |blocks| == old(|blocks|)
    {
      hide Quiescent;
      ghost var s, l := AsState(), layout;
      EnqueuesNext(s, l, tailBlockNext, x);
      blocks := blocks[tailBlockNext := blocks[tailBlockNext].(data := blocks[tailBlockNext].data[nextBlockTail := Live(x)])];
      blocks := blocks[tailBlockNext := blocks[tailBlockNext].(tail := Advance(nextBlockTail, blocks[tailBlockNext].sizeMask))];
      tailBlock := tailBlockNext;
      layout := With(l, tailBlockNext, l.v[tailBlockNext].(off := |s.sent| - l.v[tailBlockNext].t, t := l.v[tailBlockNext].t + 1)).(tp := l.tp + 1);
      sent := sent + [x];
      assert blocks == WithTail(WithCell(s, tailBlockNext, x), tailBlockNext).blocks;
      hide Quiescent;
      NextCellUsed(s, l, AsState(), layout, tailBlockNext);
      Appended(s, l, AsState(), layout, x);
    }

    /** One block more than before, of twice the largest size so far until the maximum is
        reached. */
    ghost predicate GrownBy(before: State<T>)
      reads this
    {
      && |blocks| == |before.blocks| + 1
      && largestBlockSize == (if before.largestBlockSize >= maxBlockSize then before.largestBlockSize else before.largestBlockSize * 2)
      && blocks[|before.blocks|].sizeMask == largestBlockSize - 1
    }

    /** The tail block is full and the next block is the front block: link in a new block
        that holds the element, then move the tail to it. */
    method EnqueueInNewBlock(x: T)
      requires Valid() && 0 <= tailBlock < |blocks| == |layout.v| && layout.tp + 1 == |layout.ring|
      requires layout.v[tailBlock].t == layout.v[tailBlock].f + blocks[tailBlock].sizeMask
      modifies this`blocks, this`tailBlock, this`largestBlockSize, this`layout, this`sent
      ensures Valid() && Contents() == old(Contents()) + [x]
      ensures ConsumerSideKept(old(blocks), blocks)
      ensures GrownBy(old(AsState()))
      ensures TotalRoom() == old(TotalRoom()) + largestBlockSize - 1 && Room() == largestBlockSize - 2
    {
      hide Quiescent, IsPow2, ConsumerSideKept;
      ghost var s, l := AsState(), layout;
      AfterGrowth(s, l, x);
      var newBlockSize := if largestBlockSize >= maxBlockSize then largestBlockSize else largestBlockSize * 2;
      var newBlock := |blocks|;
      blocks := blocks + [MakeBlock(newBlockSize)];
      largestBlockSize := newBlockSize;
      blocks := blocks[newBlock := blocks[newBlock].(data := blocks[newBlock].data[0 := Live(x)])];
      assert blocks[newBlock].front == 0;
      blocks := blocks[newBlock := blocks[newBlock].(tail := 1, localTail := 1)];
      blocks := blocks[newBlock := blocks[newBlock].(next := blocks[tailBlock].next)];
      blocks := blocks[tailBlock := blocks[tailBlock].(next := newBlock)];
      tailBlock := newBlock;
      layout := GrownLayout(l, |s.sent|);
      sent := sent + [x];
      assert AsState() == Grown(s, x);
    }

    /** What growing amounts to. */
    static lemma AfterGrowth(s: State<T>, l: Layout, x: T)
      requires Quiescent(s, l) && 0 <= s.tailBlock < |s.blocks| == |l.v| && l.tp + 1 == |l.ring|
      requires l.v[s.tailBlock].t == l.v[s.tailBlock].f + s.blocks[s.tailBlock].sizeMask
      ensures 1 <= NewBlockSize(s) <= HALF_WORD && InOrder(s) && InOrder(Grown(s, x))
      ensures var s', l' := Grown(s, x), GrownLayout(l, |s.sent|);
        && Quiescent(s', l') && Fifo(s') == Fifo(s) + [x] && ConsumerSideKept(s.blocks, s'.blocks)
        && Capacity(s', l') == Capacity(s, l) + NewBlockSize(s) - 1 && Free(s', l') == NewBlockSize(s) - 2
    {
      hide Quiescent, Free, Capacity;
      EnqueuesNew(s, l, x);
      GrownRoom(s, l, x);
      Appended(s, l, Grown(s, x), GrownLayout(l, |s.sent|), x);
    }


    /** The tail block is full: use the next block, or make one, or refuse. */
    method EnqueueElsewhere(x: T, canAlloc: AllocationMode, mallocOk: bool) returns (ok: bool)
      requires Valid() && 0 <= tailBlock < |blocks| == |layout.v|
      requires layout.v[tailBlock].t == layout.v[tailBlock].f + blocks[tailBlock].sizeMask
      modifies this`blocks, this`tailBlock, this`largestBlockSize, this`layout, this`sent
      ensures Valid()
      ensures ConsumerSideKept(old(blocks), blocks)
      ensures ok <==> old(Room()) > 0 || (canAlloc.CanAlloc? && mallocOk)
      ensures Contents() == if ok then old(Contents()) + [x] else old(Contents())
      ensures old(Room()) > 0 || !ok ==>
        && |blocks| == old(|blocks|) && largestBlockSize == old(largestBlockSize)
        && TotalRoom() == old(TotalRoom()) && Room() == old(Room()) - If(ok)
      ensures old(Room()) == 0 && ok ==>
        && GrownBy(old(AsState()))
        && TotalRoom() == old(TotalRoom()) + largestBlockSize - 1 && Room() == largestBlockSize - 2
    {
      hide Quiescent, Consistent, Indices;
      Bounds(AsState(), layout);
      RoomMeans(AsState(), layout);
      if blocks[tailBlock].next != frontBlock {
        EnqueueInNextBlock(x);
        ok := true;
      } else if canAlloc.CanAlloc? {
        if mallocOk { EnqueueInNewBlock(x); }
        ok := mallocOk;
      } else {
        ok := false;
      }
    }

    /** `inner_enqueue`. `mallocOk` is what the allocator would answer. Exactly when it has
        room, or may allocate and can, the queue takes the element; it takes it at the back
        and leaves the rest alone, the consumer's variables included. */
    method InnerEnqueue(x: T, canAlloc: AllocationMode, mallocOk: bool) returns (ok: bool)
      requires Valid()
      modifies this`blocks, this`tailBlock, this`largestBlockSize, this`layout, this`sent
      ensures Valid()
      ensures ConsumerSideKept(old(blocks), blocks)
      ensures ok <==> old(Room()) > 0 || (canAlloc.CanAlloc? && mallocOk)
      ensures Contents() == if ok then old(Contents()) + [x] else old(Contents())
      ensures old(Room()) > 0 || !ok ==>
        && |blocks| == old(|blocks|) && largestBlockSize == old(largestBlockSize)
        && TotalRoom() == old(TotalRoom()) && Room() == old(Room()) - If(ok)
      ensures old(Room()) == 0 && ok ==>
        && GrownBy(old(AsState()))
        && TotalRoom() == old(TotalRoom()) + largestBlockSize - 1 && Room() == largestBlockSize - 2
    {
      hide Quiescent, Consistent, Indices;
      RoomMeans(AsState(), layout);
      LapOrRoom(AsState(), layout);
      var tailBlock_ := tailBlock;
      var blockFront := blocks[tailBlock_].localFront;
      var blockTail := blocks[tailBlock_].tail;
      var nextBlockTail := Advance(blockTail, blocks[tailBlock_].sizeMask);
      if nextBlockTail == blockFront {
        RefreshLocalFront(tailBlock_);
        LapOrRoom(AsState(), layout);
      }
      if nextBlockTail != blocks[tailBlock_].localFront {
        EnqueueInTailBlock(x, blockTail, nextBlockTail);
        ok := true;
      } else {
        ok := EnqueueElsewhere(x, canAlloc, mallocOk);
      }
    }

    // ---------------------------------------------------------- dequeue

    /** `localTail = tail` */
    method RefreshLocalTail(b: Ptr)
      requires Valid() && 0 <= b < |blocks|
      modifies this`blocks, this`layout
      ensures Valid() && |layout.v| == |blocks|
      ensures blocks == old(blocks[b := blocks[b].(localTail := blocks[b].tail)])
      ensures layout == With(old(layout), b, At(old(layout), b).(lt := At(old(layout), b).t))
      ensures Contents() == old(Contents())
    {
      hide Consistent;
      ghost var l := layout;
      RefreshesShadow(AsState(), l, b, false);
      blocks := blocks[b := blocks[b].(localTail := blocks[b].tail)];
      layout := With(l, b, l.v[b].(lt := l.v[b].t));
    }

    /** Move the front element out, destroy it, advance `front`. */
    method TakeFront() returns (result: T)
      requires Valid() && ElementHere(AsState(), layout)
      modifies this`blocks, this`layout, this`received
      ensures Valid() && old(Contents()) != []
      ensures ProducerSideKept(old(blocks), blocks)
      ensures result == old(Contents())[0] && Contents() == old(Contents())[1..]
    {
      hide Consistent, Indices;
      ghost var s, l := AsState(), layout;
      FrontElement(s, l);
      DequeuesHere(s, l);
      var frontBlock_ := frontBlock;
      var blockFront := blocks[frontBlock_].front;
      result := blocks[frontBlock_].data[blockFront].value;
      blocks := blocks[frontBlock_ := blocks[frontBlock_].(data := blocks[frontBlock_].data[blockFront := Dead])];
      blocks := blocks[frontBlock_ := blocks[frontBlock_].(front := Advance(blockFront, blocks[frontBlock_].sizeMask))];
      layout := With(l, frontBlock_, l.v[frontBlock_].(f := l.v[frontBlock_].f + 1));
      received := received + [result];
      assert blocks == WithoutFront(s).blocks;
    }

    /** The front block is used up and a block is ahead: move to it. */
    method AdvanceFrontBlock()
      requires Valid() && ElementNext(AsState(), layout)
      modifies this`blocks, this`frontBlock, this`layout
      ensures Valid() && Contents() == old(Contents()) && ElementHere(AsState(), layout)
      ensures ProducerSideKept(old(blocks), blocks)
      ensures 0 <= frontBlock < |blocks| && frontBlock == old(blocks[frontBlock].next)
      ensures blocks[frontBlock].front != blocks[frontBlock].tail
    {
      hide Consistent, Indices;
      AdvancesFront(AsState(), layout);
      var nextBlock := blocks[frontBlock].next;
      var nextBlockFront := blocks[nextBlock].front;
      RefreshLocalTail(nextBlock);
      assert nextBlockFront != blocks[nextBlock].localTail;
      AdvancesFront(AsState(), layout);
      frontBlock := nextBlock;
      layout := Rotate(layout);
      hide Quiescent;
    }

    /** What `try_dequeue` and `pop` share: bring the front element under `front` of the front
        block. Alone, the consumer re-reads what it read before. */
    method FindElement() returns (found: bool)
      requires Valid()
      modifies this`blocks, this`frontBlock, this`layout
      ensures Valid() && Contents() == old(Contents())
      ensures ProducerSideKept(old(blocks), blocks)
      ensures found <==> Contents() != []
      ensures found ==> ElementHere(AsState(), layout)
    {
      hide Consistent;
      Bounds(AsState(), layout);
      EmptyFront(AsState(), layout);
      SameIndices(AsState(), layout);
      var frontBlock_ := frontBlock;
      var blockTail := blocks[frontBlock_].localTail;
      var blockFront := blocks[frontBlock_].front;
      if blockFront == blockTail {
        RefreshLocalTail(frontBlock_);
        EmptyFront(AsState(), layout);
        SameIndices(AsState(), layout);
      }
      if blockFront != blocks[frontBlock_].localTail {
        found := true;
      } else if frontBlock_ != tailBlock {
        AdvanceFrontBlock();
        found := true;
      } else {
        found := false;
      }
    }

    /** `try_dequeue`: the oldest element, or nothing exactly when the queue is empty. */
    method TryDequeue() returns (result: Option<T>)
      requires Valid()
      modifies this`blocks, this`frontBlock, this`layout, this`received
      ensures Valid()
      ensures ProducerSideKept(old(blocks), blocks)
      ensures old(Contents()) == [] ==> result == None && Contents() == []
      ensures old(Contents()) != [] ==> result == Some(old(Contents())[0]) && Contents() == old(Contents())[1..]
    {
      hide Quiescent, ElementHere;
      var found := FindElement();
      if found {
        var element := TakeFront();
        result := Some(element);
      } else {
        result := None;
      }
    }

    /** `pop`: as `try_dequeue`, but the element is only destroyed. */
    method Pop() returns (popped: bool)
      requires Valid()
      modifies this`blocks, this`frontBlock, this`layout, this`received
      ensures Valid()
      ensures ProducerSideKept(old(blocks), blocks)
      ensures popped <==> old(Contents()) != []
      ensures Contents() == if popped then old(Contents())[1..] else []
    {
      hide Quiescent, ElementHere;
      popped := FindElement();
      if popped {
        var _ := TakeFront();
      }
    }

    /** `peek`: where the oldest element is, or nothing exactly when the queue is empty. */
    method Peek() returns (address: Option<(Ptr, nat)>)
      requires Valid()
      modifies this`blocks, this`layout
      ensures Valid() && Contents() == old(Contents())
      ensures 0 <= frontBlock < |blocks| == old(|blocks|)
      ensures blocks == old(blocks) || blocks == old(blocks)[frontBlock := old(blocks)[frontBlock].(localTail := old(blocks)[frontBlock].tail)]
      ensures ProducerSideKept(old(blocks), blocks)
      ensures address == None <==> Contents() == []
      ensures address.Some? ==>
        var (b, i) := address.value;
        0 <= b < |blocks| && i < |blocks[b].data| && blocks[b].data[i] == Live(Contents()[0])
    {
      hide Consistent;
      Bounds(AsState(), layout);
      EmptyFront(AsState(), layout);
      SameIndices(AsState(), layout);
      var frontBlock_ := frontBlock;
      var blockTail := blocks[frontBlock_].localTail;
      var blockFront := blocks[frontBlock_].front;
      if blockFront == blockTail {
        RefreshLocalTail(frontBlock_);
        EmptyFront(AsState(), layout);
        SameIndices(AsState(), layout);
      }
      if blockFront != blocks[frontBlock_].localTail {
        FrontElement(AsState(), layout);
        address := Some((frontBlock_, blockFront));
      } else if frontBlock_ != tailBlock {
        NextElement(AsState(), layout);
        var nextBlock := blocks[frontBlock_].next;
        address := Some((nextBlock, blocks[nextBlock].front));
      } else {
        address := None;
      }
    }

    // ---------------------------------------------------------- walks around the ring

    /** `size_approx`: exact when no other thread is at work. */
    method SizeApprox() returns (result: nat)
      requires Valid()
      ensures result == |Contents()|
    {
      hide Consistent, Indices, Occupied;
      result := 0;
      var frontBlock_ := frontBlock;
      var block := frontBlock_;
      ghost var i := 0;
      Bounds(AsState(), layout);
      ElementsAreFifo(AsState(), layout);
      while true
        invariant i < |layout.ring| == |layout.v| && block == layout.ring[i]
        invariant forall j :: 0 <= j < |layout.ring| ==> 0 <= layout.ring[j] < |layout.v|
        invariant result + ElementsFrom(layout, i) == |Contents()|
        decreases |layout.ring| - i
      {
        RingNext(AsState(), layout, i);
        result := result + Occupied(blocks[block]);
        block := blocks[block].next;
        i := i + 1;
        if block == frontBlock_ { break; }
      }
    }

    /** `max_capacity` */
    method MaxCapacity() returns (result: nat)
      requires Valid()
      ensures result == TotalRoom()
    {
      hide Consistent, Indices;
      result := 0;
      var frontBlock_ := frontBlock;
      var block := frontBlock_;
      ghost var i := 0;
      Bounds(AsState(), layout);
      while true
        invariant i < |layout.ring| == |blocks| && block == layout.ring[i]
        invariant forall j :: 0 <= j < |layout.ring| ==> 0 <= layout.ring[j] < |blocks|
        invariant result + MasksFrom(blocks, layout.ring, i) == TotalRoom()
        decreases |layout.ring| - i
      {
        RingNext(AsState(), layout, i);
        result := result + blocks[block].sizeMask;
        block := blocks[block].next;
        i := i + 1;
        if block == frontBlock_ { break; }
      }
    }

    /** No live object is left. */
    static predicate Raw(data: seq<Cell<T>>) {
      forall k :: 0 <= k < |data| ==> data[k].Dead?
    }

    static lemma LiveFirst(data: seq<Cell<T>>, n: nat, lo: nat, hi: nat, off: int, hist: seq<T>)
      requires Stored(data, n, lo, hi, off, hist) && lo < hi
      ensures 0 <= off + lo < |hist| && Slot(lo, n) < |data| && data[Slot(lo, n)] == Live(hist[off + lo])
    {
    }

    /** The destructor's inner loop: destroy the elements of one block, one cell at a time:
        each was live, none is met twice, and no other cell is touched. */
    static method DestroyElements(b: Block<T>, ghost c: Counters, ghost hist: seq<T>)
      returns (data: seq<Cell<T>>, ghost destroyed: seq<T>, ghost cells: seq<nat>)
      requires Indices(b, c) && Stored(b.data, b.sizeMask + 1, c.f, c.t, c.off, hist)
      ensures |data| == |b.data| && Raw(data)
      ensures destroyed == Held(c, hist)
      ensures DestroyedCells(b.data, data, cells, destroyed)
    {
      var blockTail := b.tail;
      var i := b.front;
      data, destroyed, cells := b.data, [], [];
      hide Segment, Stored, IsPow2, DestroyedCells;
      NoneYet(hist, c.off + c.f);
      NoCells(b.data);
      ghost var k, n := c.f, b.sizeMask + 1;
      while i != blockTail
        invariant c.f <= k <= c.t && i == Slot(k, n) && |data| == n
        invariant Stored(data, n, k, c.t, c.off, hist)
        invariant destroyed == Segment(hist, c.off + c.f, c.off + k)
        invariant k > c.f ==> c.off + c.f >= 0
        invariant DestroyedCells(b.data, data, cells, destroyed)
        decreases c.t - k
      {
        LiveFirst(data, n, k, c.t, c.off, hist);
        ghost var element := data[i].value;
        OneMoreCell(b.data, data, cells, destroyed, i);
        OneMore(hist, c.off + c.f, c.off + k);
        TakeCell(data, n, k, c.t, c.off, hist);
        SlotNext(k, n);
        data := data[i := Dead];
        destroyed, cells := destroyed + [element], cells + [i];
        i := Advance(i, b.sizeMask);
        k := k + 1;
      }
      SlotInjective(k, c.t, n);
      AllDead(data, n, k, c.off, hist);
    }

    /** Which cells were destroyed and what they held: each live at first and raw at last, all
        different, and the cells not among them as they were. */
    static ghost predicate DestroyedCells(before: seq<Cell<T>>, after: seq<Cell<T>>, cells: seq<nat>, destroyed: seq<T>) {
      && |after| == |before| && |cells| == |destroyed|
      && (forall k :: 0 <= k < |cells| ==> cells[k] < |before|)
      && (forall k :: 0 <= k < |cells| ==> before[cells[k]] == Live(destroyed[k]))
      && (forall k :: 0 <= k < |cells| ==> after[cells[k]] == Dead)
      && (forall k, m :: 0 <= k < m < |cells| ==> cells[k] != cells[m])
      && (forall i: nat :: i < |before| && i !in cells ==> after[i] == before[i])
    }

    static lemma NoCells(data: seq<Cell<T>>)
      ensures DestroyedCells(data, data, [], [])
    {
    }

    static lemma OneMoreCell(before: seq<Cell<T>>, after: seq<Cell<T>>, cells: seq<nat>, destroyed: seq<T>, i: nat)
      requires DestroyedCells(before, after, cells, destroyed) && i < |after| && after[i].Live?
      ensures i !in cells
      ensures DestroyedCells(before, after[i := Dead], cells + [i], destroyed + [after[i].value])
    {
      var cells' := cells + [i];
      forall m: nat | m < |before| && m !in cells' ensures after[i := Dead][m] == before[m] {
        assert cells'[|cells|] == i;
        assert m !in cells;
      }
    }

    /** How far the destructor has come: i blocks are freed, the first ones of the ring, their
        elements are destroyed, and the other blocks are as they were. */
    static ghost predicate Freed(s: State<T>, l: Layout, heap: seq<Block<T>>, i: nat, freed: seq<Ptr>, destroyed: seq<T>) {
      && i <= |l.ring| == |s.blocks| == |heap| && freed == l.ring[..i]
      && (forall j :: 0 <= j < |l.ring| ==> 0 <= l.ring[j] < |heap|)
      && |s.received| <= Reach(s, l, i) <= |s.sent| && destroyed == s.sent[|s.received|..Reach(s, l, i)]
      && (forall j :: 0 <= j < i ==> Raw(heap[l.ring[j]].data))
      && (forall j :: i <= j < |l.ring| ==> heap[l.ring[j]] == s.blocks[l.ring[j]])
    }

    static lemma NoneFreed(s: State<T>, l: Layout)
      requires Quiescent(s, l)
      ensures |l.ring| >= 1 && l.ring[0] == s.frontBlock && Freed(s, l, s.blocks, 0, [], [])
    {
      hide Quiescent;
      Bounds(s, l);
      ReachesAll(s, l);
    }

    static lemma OneMoreFreed(s: State<T>, l: Layout, heap: seq<Block<T>>, i: nat, freed: seq<Ptr>, destroyed: seq<T>, blk: Block<T>)
      requires Quiescent(s, l) && Freed(s, l, heap, i, freed, destroyed) && i < |l.ring| && Raw(blk.data)
      ensures |l.v| == |s.blocks| && l.ring[i] !in freed
      ensures Freed(s, l, heap[l.ring[i] := blk], i + 1, freed + [l.ring[i]], destroyed + Held(l.v[l.ring[i]], s.sent))
    {
      hide Quiescent, Raw, Reach, Held;
      RingOnce(s, l);
      HeldInTurn(s, l, i);
    }

    static lemma AllFreed(s: State<T>, l: Layout, heap: seq<Block<T>>, freed: seq<Ptr>, destroyed: seq<T>)
      requires Quiescent(s, l) && Freed(s, l, heap, |l.ring|, freed, destroyed)
      ensures |freed| == |heap|
      ensures forall i, j :: 0 <= i < j < |freed| ==> freed[i] != freed[j]
      ensures forall b :: 0 <= b < |heap| ==> b in freed
      ensures forall b :: 0 <= b < |heap| ==> Raw(heap[b].data)
      ensures s.received <= s.sent && destroyed == Fifo(s) && s.received + destroyed == s.sent
    {
      hide Quiescent, Raw, Reach;
      RingOnce(s, l);
      ReachesAll(s, l);
      assert freed == l.ring && s.sent[|s.received|..|s.sent|] == Fifo(s);
      forall b | 0 <= b < |heap| ensures Raw(heap[b].data) {
        assert b in l.ring;
        var j :| 0 <= j < |l.ring| && l.ring[j] == b;
      }
    }

    /** The destructor: every block is freed exactly once, and not touched after; the elements
        still in the queue are destroyed, each once and in order, and nothing else is. */
    method Destroy() returns (freed: seq<Ptr>, ghost destroyed: seq<T>)
      requires Valid()
      modifies this`blocks
      ensures |freed| == |blocks| == old(|blocks|)
      ensures forall i, j :: 0 <= i < j < |freed| ==> freed[i] != freed[j]
      ensures forall b :: 0 <= b < |blocks| ==> b in freed
      ensures forall b :: 0 <= b < |blocks| ==> Raw(blocks[b].data)
      ensures destroyed == old(Contents()) && received + destroyed == sent
    {
      hide Quiescent, Indices, Stored, Raw, Freed, Held;
      ghost var s, l := AsState(), layout;
      NoneFreed(s, l);
      var frontBlock_ := frontBlock;
      var block := frontBlock_;
      freed, destroyed := [], [];
      ghost var i := 0;
      while true
        invariant i < |l.ring| && block == l.ring[i] && Freed(s, l, blocks, i, freed, destroyed)
        decreases |l.ring| - i
      {
        RingNext(s, l, i);
        StillThere(s, l, blocks, i, freed, destroyed);
        var nextBlock := blocks[block].next;
        var data, gone, _ := DestroyElements(blocks[block], l.v[block], s.sent);
        OneMoreFreed(s, l, blocks, i, freed, destroyed, blocks[block].(data := data));
        blocks := blocks[block := blocks[block].(data := data)];
        freed, destroyed := freed + [block], destroyed + gone;
        block := nextBlock;
        i := i + 1;
        if block == frontBlock_ { break; }
      }
      AllFreed(s, l, blocks, freed, destroyed);
    }

    /** The block whose turn it is has not been touched. */
    static lemma StillThere(s: State<T>, l: Layout, heap: seq<Block<T>>, i: nat, freed: seq<Ptr>, destroyed: seq<T>)
      requires Freed(s, l, heap, i, freed, destroyed) && i < |l.ring|
      ensures |heap| == |s.blocks| && 0 <= l.ring[i] < |heap| && heap[l.ring[i]] == s.blocks[l.ring[i]]
    {
    }
  }

  /** From an empty queue, consecutive calls to `try_enqueue` succeed exactly `max_capacity`
      times. */
  method TryEnqueueAll<T>(q: ReaderWriterQueue<T>, xs: seq<T>) returns (accepted: nat)
    requires q.Valid() && q.Contents() == []
    modifies q`blocks, q`tailBlock, q`largestBlockSize, q`layout, q`sent
    ensures q.Valid() && accepted == (if |xs| <= old(q.TotalRoom()) then |xs| else old(q.TotalRoom()))
    ensures q.Contents() == xs[..accepted]
  {
    hide Quiescent;
    EmptyHasRoom(q.AsState(), q.layout);
    accepted := 0;
    while accepted < |xs|
      invariant q.Valid() && accepted <= |xs| && q.Contents() == xs[..accepted]
      invariant q.Room() + accepted == old(q.TotalRoom()) && q.Room() >= 0
    {
      var ok := q.InnerEnqueue(xs[accepted], CannotAlloc, false);
      RoomMeans(q.AsState(), q.layout);
      if !ok { break; }
      accepted := accepted + 1;
    }
  }
}
