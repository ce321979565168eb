/** The queue between calls, and what one call at a time does to it. */
module SpscQuiescent {
  import opened Bits
  import opened SpscQueue
  import opened SpscInvariant
  import opened SpscEffects
  import opened SpscSafety
  import opened SpscContents
  import C = SpscConsumer
  import P = SpscProducer

  /** Free cells of the block at ring position i and of those after it. */
  ghost function RoomFrom<T>(blocks: seq<Block<T>>, l: Layout, i: nat): int
    requires |l.v| == |blocks| && forall j :: 0 <= j < |l.ring| ==> 0 <= l.ring[j] < |blocks|
    decreases |l.ring| - i
  {
    if i >= |l.ring| then 0
    else
      var b := l.ring[i];
      blocks[b].sizeMask - (l.v[b].t - l.v[b].f) + RoomFrom(blocks, l, i + 1)
  }

  lemma {:induction false} RoomSame<T>(blocks: seq<Block<T>>, l: Layout, blocks': seq<Block<T>>, l': Layout, i: nat)
    requires |l.v| == |blocks| && forall j :: 0 <= j < |l.ring| ==> 0 <= l.ring[j] < |blocks|
    requires |l'.v| == |blocks'| && forall j :: 0 <= j < |l'.ring| ==> 0 <= l'.ring[j] < |blocks'|
    requires l'.ring == l.ring
    requires forall j :: i <= j < |l.ring| ==>
      && blocks'[l.ring[j]].sizeMask == blocks[l.ring[j]].sizeMask
      && l'.v[l.ring[j]].t - l'.v[l.ring[j]].f == l.v[l.ring[j]].t - l.v[l.ring[j]].f
    ensures RoomFrom(blocks', l', i) == RoomFrom(blocks, l, i)
    decreases |l.ring| - i
  {
    if i < |l.ring| { RoomSame(blocks, l, blocks', l', i + 1); }
  }

  // ------------------------------------------------------------ one call at a time

  /** Between calls: the invariant, for a thread that has not looked at any flag. */
  ghost predicate Quiescent<T>(s: State<T>, l: Layout) {
    && s.p == PIdle(NeverCalled) && s.c == CIdle(NothingYet)
    && Consistent(MemoryOf(s), l) && Sizes(s) && InOrder(s)
  }

  lemma Bounds<T>(s: State<T>, l: Layout)
    requires Quiescent(s, l)
    ensures |l.v| == |s.blocks| == |l.ring| && l.tp < |l.ring|
    ensures 0 <= s.tailBlock < |s.blocks| && 0 <= s.frontBlock < |s.blocks|
    ensures l.ring[0] == s.frontBlock && l.ring[l.tp] == s.tailBlock
    ensures forall j :: 0 <= j < |l.ring| ==> 0 <= l.ring[j] < |s.blocks|
    ensures Indices(s.blocks[s.tailBlock], l.v[s.tailBlock]) && Indices(s.blocks[s.frontBlock], l.v[s.frontBlock])
    ensures s.blocks[s.tailBlock].tail < |s.blocks[s.tailBlock].data|
    ensures s.blocks[s.tailBlock].next == l.ring[Succ(l.tp, |l.ring|)]
    ensures s.blocks[s.tailBlock].next == s.frontBlock <==> l.tp + 1 == |l.ring|
  {
    hide Consistent;
    RingFacts(MemoryOf(s), l);
    NextFacts(MemoryOf(s), l);
    BlockFacts(MemoryOf(s), l, s.tailBlock);
    BlockFacts(MemoryOf(s), l, s.frontBlock);
  }

  ghost function Free<T>(s: State<T>, l: Layout): int
    requires Quiescent(s, l)
  {
    Bounds(s, l);
    RoomFrom(s.blocks, l, l.tp)
  }

  /** There is room in the tail block, and the producer knows where `front` is. */
  ghost predicate RoomHere<T>(s: State<T>, l: Layout) {
    && 0 <= s.tailBlock < |s.blocks| == |l.v|
    && l.v[s.tailBlock].t < l.v[s.tailBlock].lf + s.blocks[s.tailBlock].sizeMask
    && s.blocks[s.tailBlock].tail < |s.blocks[s.tailBlock].data|
  }

  function WithCell<T>(s: State<T>, b: Ptr, x: T): State<T>
    requires 0 <= b < |s.blocks| && s.blocks[b].tail < |s.blocks[b].data|
  {
    PutCell(s, b, s.blocks[b].tail, Live(x))
  }

  function WithTail<T>(s: State<T>, b: Ptr): State<T>
    requires 0 <= b < |s.blocks|
  {
    Put(s, b, s.blocks[b].(tail := Advance(s.blocks[b].tail, s.blocks[b].sizeMask)))
  }

  /** The memory after constructing x at `tail` of block b. */
  ghost function MemoryWithCell<T>(s: State<T>, b: Ptr, x: T): Memory<T>
    requires 0 <= b < |s.blocks| && s.blocks[b].tail < |s.blocks[b].data|
  {
    MemoryOf(s).(blocks := WithCell(s, b, x).blocks, hist := s.sent + [x], placing := b)
  }

  lemma ConstructsHere<T>(s: State<T>, l: Layout, x: T)
    requires Quiescent(s, l) && RoomHere(s, l)
    ensures Consistent(MemoryWithCell(s, s.tailBlock, x), l)
  {
    hide Consistent;
    Bounds(s, l);
    OrderFacts(MemoryOf(s), l);
    var tb := s.tailBlock;
    Placed(MemoryOf(s), l, tb, x, l.v[tb].off);
    assert l.v[tb := l.v[tb].(off := l.v[tb].off)] == l.v;
  }

  /** Constructing an element at `tail` of the tail block and stepping `tail` over it. */
  lemma EnqueuesHere<T>(s: State<T>, l: Layout, x: T)
    requires Quiescent(s, l) && RoomHere(s, l)
    ensures Quiescent(WithTail(WithCell(s, s.tailBlock, x), s.tailBlock).(sent := s.sent + [x]),
                      With(l, s.tailBlock, l.v[s.tailBlock].(t := l.v[s.tailBlock].t + 1)))
  {
    hide Consistent, Indices;
    Bounds(s, l);
    var tb := s.tailBlock;
    ConstructsHere(s, l, x);
    var s1 := WithCell(s, tb, x);
    var s2 := WithTail(s1, tb).(sent := s.sent + [x]);
    TailSteps(s.blocks[tb], l.v[tb], Live(x));
    TailStored(MemoryWithCell(s, tb, x), l, s2.blocks[tb]);
    assert s1.blocks[tb := s2.blocks[tb]] == s2.blocks;
  }

  lemma TailSteps<T>(b: Block<T>, c: Counters, cell: Cell<T>)
    requires Indices(b, c) && c.t < c.lf + b.sizeMask
    ensures b.tail < |b.data|
    ensures Indices(b.(data := b.data[b.tail := cell], tail := Advance(b.tail, b.sizeMask)), c.(t := c.t + 1))
  {
    SlotNext(c.t, b.sizeMask + 1);
  }

  /** The tail block is full and the block after it is not the front block. */
  ghost predicate RoomNext<T>(s: State<T>, l: Layout, tbn: Ptr) {
    && l.tp + 1 < |l.ring| == |s.blocks| == |l.v| && l.ring[l.tp + 1] == tbn
    && 0 <= tbn < |s.blocks| && 0 <= s.tailBlock < |s.blocks|
    && s.blocks[tbn].tail < |s.blocks[tbn].data|
    && l.v[tbn].lf == l.v[tbn].f
    && l.v[s.tailBlock].t == l.v[s.tailBlock].f + s.blocks[s.tailBlock].sizeMask
  }

  lemma ConstructsNext<T>(s: State<T>, l: Layout, tbn: Ptr, x: T)
    requires Quiescent(s, l) && RoomNext(s, l, tbn)
    ensures Consistent(MemoryWithCell(s, tbn, x), With(l, tbn, l.v[tbn].(off := |s.sent| - l.v[tbn].t)))
    ensures l.v[tbn].t == l.v[tbn].f && tbn != s.tailBlock && Indices(s.blocks[tbn], l.v[tbn])
    ensures l.v[tbn].t < l.v[tbn].lf + s.blocks[tbn].sizeMask
  {
    hide Consistent;
    Bounds(s, l);
    RingFacts(MemoryOf(s), l);
    OrderFacts(MemoryOf(s), l);
    BlockFacts(MemoryOf(s), l, tbn);
    Placed(MemoryOf(s), l, tbn, x, |s.sent| - l.v[tbn].t);
  }

  /** Constructing an element in the next block, and moving the tail there. */
  lemma EnqueuesNext<T>(s: State<T>, l: Layout, tbn: Ptr, x: T)
    requires Quiescent(s, l) && RoomNext(s, l, tbn)
    ensures Quiescent(WithTail(WithCell(s, tbn, x), tbn).(tailBlock := tbn, sent := s.sent + [x]),
                      With(l, tbn, l.v[tbn].(off := |s.sent| - l.v[tbn].t, t := l.v[tbn].t + 1)).(tp := l.tp + 1))
  {
    hide Consistent, Indices;
    Bounds(s, l);
    ConstructsNext(s, l, tbn, x);
    var m1, l1 := MemoryWithCell(s, tbn, x), With(l, tbn, l.v[tbn].(off := |s.sent| - l.v[tbn].t));
    var s1 := WithCell(s, tbn, x);
    var s2 := WithTail(s1, tbn);
    TailSteps(s.blocks[tbn], l.v[tbn], Live(x));
    OffFree(s2.blocks[tbn], l.v[tbn].(t := l.v[tbn].t + 1), |s.sent| - l.v[tbn].t);
    NextTailStored(m1, l1, tbn, s2.blocks[tbn]);
    assert s1.blocks[tbn := s2.blocks[tbn]] == s2.blocks;
    var l2 := l1.(v := l1.v[tbn := l1.v[tbn].(t := l1.v[tbn].t + 1)]);
    Published(m1.(blocks := s2.blocks, placing := NULL, pending := true), l2);
    assert l2.v == l.v[tbn := l.v[tbn].(off := |s.sent| - l.v[tbn].t, t := l.v[tbn].t + 1)];
  }

  lemma OffFree<T>(b: Block<T>, c: Counters, off: int)
    requires Indices(b, c)
    ensures Indices(b, c.(off := off))
  {
  }

  /** The block that growth links in: one element, and `next` as the tail block's was. */
  function GrownBlock<T>(size: nat, x: T, next: Ptr): Block<T>
    requires size >= 1
  {
    MakeBlock<T>(size).(data := MakeBlock<T>(size).data[0 := Live(x)], tail := 1, localTail := 1, next := next)
  }

  function Grown<T>(s: State<T>, x: T): State<T>
    requires 0 <= s.tailBlock < |s.blocks| && NewBlockSize(s) >= 1
  {
    var tb, nb := s.tailBlock, |s.blocks|;
    s.(blocks := s.blocks[tb := s.blocks[tb].(next := nb)] + [GrownBlock(NewBlockSize(s), x, s.blocks[tb].next)],
       largestBlockSize := NewBlockSize(s), tailBlock := nb, sent := s.sent + [x])
  }

  function GrownLayout(l: Layout, nsent: nat): Layout {
    Layout(if l.tp < |l.ring| then l.ring[..l.tp + 1] + [|l.v|] + l.ring[l.tp + 1..] else l.ring,
           l.tp + 1, l.v + [Counters(0, 0, 1, 1, nsent)])
  }

  lemma MakesBlock<T>(s: State<T>, l: Layout, x: T)
    requires Quiescent(s, l)
    ensures Unlinked'(s, l, x, s.blocks + [MakeBlock<T>(NewBlockSize(s)).(data := MakeBlock<T>(NewBlockSize(s)).data[0 := Live(x)])],
                      l.v + [Counters(0, 0, 0, 0, |s.sent|)], |s.blocks|)
  {
    hide Consistent, Indices;
    Bounds(s, l);
    var m, n, size := MemoryOf(s), |s.blocks|, NewBlockSize(s);
    NewSize(s);
    Allocated(m, l, size);
    var m1 := m.(blocks := s.blocks + [MakeBlock(size)]);
    var l1 := l.(v := l.v + [Counters(0, 0, 0, 0, 0)]);
    BlockFacts(m1, l1, n);
    Placed(m1, l1, n, x, |s.sent|);
    var b := MakeBlock<T>(size);
    assert m1.blocks[n := b.(data := b.data[0 := Live(x)])] == s.blocks + [b.(data := b.data[0 := Live(x)])];
    assert l1.v[n := Counters(0, 0, 0, 0, |s.sent|)] == l.v + [Counters(0, 0, 0, 0, |s.sent|)];
  }

  ghost predicate Unlinked'<T>(s: State<T>, l: Layout, x: T, blocks: seq<Block<T>>, v: seq<Counters>, placing: Ptr) {
    Consistent(MemoryOf(s).(blocks := blocks, hist := s.sent + [x], placing := placing), l.(v := v))
  }

  lemma FillsBlock<T>(s: State<T>, l: Layout, x: T)
    requires Quiescent(s, l)
    ensures 0 <= s.tailBlock < |s.blocks|
    ensures Unlinked'(s, l, x, s.blocks + [GrownBlock(NewBlockSize(s), x, s.blocks[s.tailBlock].next)],
                      l.v + [Counters(0, 0, 1, 1, |s.sent|)], NULL)
  {
    hide Consistent, Indices;
    Bounds(s, l);
    NewSize(s);
    MakesBlock(s, l, x);
    var n, size := |s.blocks|, NewBlockSize(s);
    var b := MakeBlock<T>(size).(data := MakeBlock<T>(size).data[0 := Live(x)]);
    var m1 := MemoryOf(s).(blocks := s.blocks + [b], hist := s.sent + [x], placing := n);
    var l1 := l.(v := l.v + [Counters(0, 0, 0, 0, |s.sent|)]);
    var g := GrownBlock(size, x, s.blocks[s.tailBlock].next);
    GrownIndices(size, x, s.blocks[s.tailBlock].next, |s.sent|);
    UnlinkedSet(m1, l1, g, Counters(0, 0, 1, 1, |s.sent|), NULL);
    assert m1.blocks[n := g] == s.blocks + [g];
    assert l1.v[n := Counters(0, 0, 1, 1, |s.sent|)] == l.v + [Counters(0, 0, 1, 1, |s.sent|)];
  }

  lemma GrownIndices<T>(size: nat, x: T, next: Ptr, off: int)
    requires 2 <= size <= HALF_WORD && IsPow2(size)
    ensures Indices(GrownBlock(size, x, next), Counters(0, 0, 1, 1, off))
  {
    hide IsPow2;
  }

  lemma GrownSizes<T>(s: State<T>, x: T)
    requires Sizes(s) && 0 <= s.tailBlock < |s.blocks|
    ensures NewBlockSize(s) >= 2 && Sizes(Grown(s, x))
  {
    hide IsPow2;
    NewSize(s);
  }

  lemma LinksAndPublishes<T>(m: Memory<T>, l: Layout)
    requires Consistent(m, l) && m.linked == |m.blocks| - 1 && |l.v| == |m.blocks| && 0 <= m.tailBlock < m.linked
    requires l.tp < |l.ring| && !m.pending
    requires m.blocks[m.linked].next == m.blocks[m.tailBlock].next
    requires l.v[m.linked].t == l.v[m.linked].f + 1 && l.v[m.linked].off + l.v[m.linked].f == m.nsent
    requires l.v[m.tailBlock].t == l.v[m.tailBlock].f + m.blocks[m.tailBlock].sizeMask
    ensures Consistent(m.(blocks := m.blocks[m.tailBlock := m.blocks[m.tailBlock].(next := m.linked)], linked := m.linked + 1,
                          tailBlock := m.linked, nsent := m.nsent + 1),
                       l.(ring := l.ring[..l.tp + 1] + [m.linked] + l.ring[l.tp + 1..], tp := l.tp + 1))
  {
    hide Consistent, Indices;
    Linked(m, l);
    var m' := m.(blocks := m.blocks[m.tailBlock := m.blocks[m.tailBlock].(next := m.linked)], linked := m.linked + 1, pending := true);
    var l' := l.(ring := l.ring[..l.tp + 1] + [m.linked] + l.ring[l.tp + 1..]);
    Published(m', l');
  }

  lemma UpdateBeforeLast<T>(xs: seq<T>, last: T, i: nat, x: T)
    requires i < |xs|
    ensures (xs + [last])[i := x] == xs[i := x] + [last]
  {
  }

  /** The memory with the new block made and filled, before it is linked in. */
  ghost function FilledMemory<T>(s: State<T>, x: T): Memory<T>
    requires 0 <= s.tailBlock < |s.blocks| && NewBlockSize(s) >= 1
  {
    MemoryOf(s).(blocks := s.blocks + [GrownBlock(NewBlockSize(s), x, s.blocks[s.tailBlock].next)], hist := s.sent + [x])
  }

  lemma GrownMemory<T>(s: State<T>, x: T)
    requires 0 <= s.tailBlock < |s.blocks| && NewBlockSize(s) >= 1 && s.p.PIdle?
    ensures var m, n := FilledMemory(s, x), |s.blocks|;
      MemoryOf(Grown(s, x)) == m.(blocks := m.blocks[m.tailBlock := m.blocks[m.tailBlock].(next := n)], linked := n + 1, tailBlock := n, nsent := m.nsent + 1)
  {
    hide GrownBlock, NewBlockSize;
    var tb := s.tailBlock;
    UpdateBeforeLast(s.blocks, GrownBlock(NewBlockSize(s), x, s.blocks[tb].next), tb, s.blocks[tb].(next := |s.blocks|));
  }

  lemma FilledConsistent<T>(s: State<T>, l: Layout, x: T)
    requires Quiescent(s, l) && 0 <= s.tailBlock < |s.blocks| == |l.v|
    ensures 1 <= NewBlockSize(s) && |l.ring| == |s.blocks| && l.tp < |l.ring| && s.p.PIdle?
    ensures Consistent(FilledMemory(s, x), l.(v := l.v + [Counters(0, 0, 1, 1, |s.sent|)]))
    ensures var m := FilledMemory(s, x);
      && m.linked == |s.blocks| == |m.blocks| - 1 && m.tailBlock == s.tailBlock && m.nsent == |s.sent| && !m.pending
      && m.blocks[m.linked].next == s.blocks[s.tailBlock].next
      && m.blocks[s.tailBlock].next == s.blocks[s.tailBlock].next && m.blocks[s.tailBlock].sizeMask == s.blocks[s.tailBlock].sizeMask
  {
    GrownSizes(s, x);
    hide Consistent, Indices, Sizes, IsPow2, NewBlockSize;
    Bounds(s, l);
    FillsBlock(s, l, x);
  }

  lemma GrownRing<T>(s: State<T>, l: Layout, x: T)
    requires Quiescent(s, l) && 0 <= s.tailBlock < |s.blocks| == |l.v|
    requires l.v[s.tailBlock].t == l.v[s.tailBlock].f + s.blocks[s.tailBlock].sizeMask
    ensures NewBlockSize(s) >= 1 && Consistent(MemoryOf(Grown(s, x)), GrownLayout(l, |s.sent|))
  {
    hide Quiescent, Consistent, NewBlockSize, Grown, FilledMemory, MemoryOf;
    FilledConsistent(s, l, x);
    GrownMemory(s, x);
    LinksAndPublishes(FilledMemory(s, x), l.(v := l.v + [Counters(0, 0, 1, 1, |s.sent|)]));
  }

  /** Growing: a new block with the element in it goes in after the full tail block. */
  lemma EnqueuesNew<T>(s: State<T>, l: Layout, x: T)
    requires Quiescent(s, l) && 0 <= s.tailBlock < |s.blocks| == |l.v|
    requires l.v[s.tailBlock].t == l.v[s.tailBlock].f + s.blocks[s.tailBlock].sizeMask
    ensures 1 <= NewBlockSize(s) <= HALF_WORD && Quiescent(Grown(s, x), GrownLayout(l, |s.sent|))
  {
    hide Consistent, Sizes, GrownLayout;
    NewSize(s);
    GrownSizes(s, x);
    GrownRing(s, l, x);
  }

  // ------------------------------------------------------------ shadows and dequeuing

  /** A shadow index takes the value of the index it copies. */
  lemma RefreshesShadow<T>(s: State<T>, l: Layout, b: Ptr, front: bool)
    requires Quiescent(s, l) && 0 <= b < |s.blocks|
    ensures |l.v| == |s.blocks|
    ensures Quiescent(Put(s, b, if front then s.blocks[b].(localFront := s.blocks[b].front) else s.blocks[b].(localTail := s.blocks[b].tail)),
                      With(l, b, if front then l.v[b].(lf := l.v[b].f) else l.v[b].(lt := l.v[b].t)))
  {
    hide Consistent;
    BlockFacts(MemoryOf(s), l, b);
    var blk := if front then s.blocks[b].(localFront := s.blocks[b].front) else s.blocks[b].(localTail := s.blocks[b].tail);
    var c := if front then l.v[b].(lf := l.v[b].f) else l.v[b].(lt := l.v[b].t);
    ShadowRefreshed(MemoryOf(s), l, b, blk, c);
  }

  /** The front block has an element, and the consumer knows. */
  ghost predicate ElementHere<T>(s: State<T>, l: Layout) {
    && 0 <= s.frontBlock < |s.blocks| == |l.v|
    && l.v[s.frontBlock].f < l.v[s.frontBlock].lt
  }

  lemma FrontElement<T>(s: State<T>, l: Layout)
    requires Quiescent(s, l) && ElementHere(s, l)
    ensures s.blocks[s.frontBlock].front < |s.blocks[s.frontBlock].data|
    ensures |s.received| < |s.sent|
    ensures s.blocks[s.frontBlock].data[s.blocks[s.frontBlock].front] == Live(s.sent[|s.received|])
  {
    hide Consistent;
    Bounds(s, l);
    OrderFacts(MemoryOf(s), l);
    LiveAtFront(MemoryOf(s), l, s.frontBlock);
  }

  function WithoutFront<T>(s: State<T>): State<T>
    requires 0 <= s.frontBlock < |s.blocks| && s.blocks[s.frontBlock].front < |s.blocks[s.frontBlock].data|
  {
    var b := s.blocks[s.frontBlock];
    Put(s, s.frontBlock, b.(data := b.data[b.front := Dead], front := Advance(b.front, b.sizeMask)))
  }

  lemma FrontSteps<T>(b: Block<T>, c: Counters)
    requires Indices(b, c) && c.f < c.lt
    ensures b.front < |b.data|
    ensures Indices(b.(data := b.data[b.front := Dead], front := Advance(b.front, b.sizeMask)), c.(f := c.f + 1))
    ensures c.f < c.t
  {
    SlotNext(c.f, b.sizeMask + 1);
  }

  /** Moving the front element out, destroying it, and stepping `front` over it. */
  lemma DequeuesHere<T>(s: State<T>, l: Layout)
    requires Quiescent(s, l) && ElementHere(s, l)
    ensures s.blocks[s.frontBlock].front < |s.blocks[s.frontBlock].data| && |s.received| < |s.sent|
    ensures Quiescent(WithoutFront(s).(received := s.received + [s.sent[|s.received|]]),
                      With(l, s.frontBlock, l.v[s.frontBlock].(f := l.v[s.frontBlock].f + 1)))
  {
    hide Consistent, Indices;
    Bounds(s, l);
    FrontElement(s, l);
    var fb := s.frontBlock;
    var b := s.blocks[fb];
    FrontSteps(b, l.v[fb]);
    Taken(MemoryOf(s), l);
    var b1 := b.(data := b.data[b.front := Dead]);
    var m1 := MemoryOf(s).(blocks := s.blocks[fb := b1], taking := fb);
    var s2 := WithoutFront(s).(received := s.received + [s.sent[|s.received|]]);
    FrontStored(m1, l, s2.blocks[fb]);
    assert m1.blocks[fb := s2.blocks[fb]] == s2.blocks;
  }

  /** The front block is empty and a block is ahead. */
  ghost predicate ElementNext<T>(s: State<T>, l: Layout) {
    && l.tp >= 1 && 0 <= s.frontBlock < |s.blocks| == |l.v| && |l.ring| >= 2
    && l.v[s.frontBlock].f == l.v[s.frontBlock].t
  }

  lemma AdvancesFront<T>(s: State<T>, l: Layout)
    requires Quiescent(s, l) && ElementNext(s, l)
    ensures 0 <= l.ring[1] < |s.blocks| && s.blocks[s.frontBlock].next == l.ring[1]
    ensures l.v[l.ring[1]].f < l.v[l.ring[1]].t && s.blocks[l.ring[1]].front != s.blocks[l.ring[1]].tail
    ensures Quiescent(s.(frontBlock := l.ring[1]), Rotate(l))
  {
    hide Consistent;
    Bounds(s, l);
    NextFacts(MemoryOf(s), l);
    OrderFacts(MemoryOf(s), l);
    BlockFacts(MemoryOf(s), l, l.ring[1]);
    EqualIndices(s.blocks[l.ring[1]], l.v[l.ring[1]]);
    FrontAdvanced(MemoryOf(s), l);
  }

  /** An empty front block means an empty queue, or a block ahead. */
  lemma EmptyFront<T>(s: State<T>, l: Layout)
    requires Quiescent(s, l)
    ensures 0 <= s.frontBlock < |s.blocks| == |l.v|
    ensures l.v[s.frontBlock].f == l.v[s.frontBlock].t ==> (s.frontBlock == s.tailBlock <==> Fifo(s) == [])
    ensures l.v[s.frontBlock].f == l.v[s.frontBlock].t && s.frontBlock != s.tailBlock ==> ElementNext(s, l)
    ensures Fifo(s) == [] ==> s.frontBlock == s.tailBlock && l.tp == 0
    ensures l.v[s.frontBlock].f < l.v[s.frontBlock].t ==> Fifo(s) != []
  {
    hide Consistent;
    Bounds(s, l);
    RingFacts(MemoryOf(s), l);
    OrderFacts(MemoryOf(s), l);
    C.NoneBeyondSent(MemoryOf(s), l, 0);
    if l.tp > 0 { AheadIsSent(s, l); }
  }

  lemma AheadIsSent<T>(s: State<T>, l: Layout)
    requires Quiescent(s, l) && l.tp > 0
    ensures |s.received| < |s.sent|
  {
    hide Consistent;
    Bounds(s, l);
    OrderFacts(MemoryOf(s), l);
    StepAlongRing(MemoryOf(s), l, 0);
    C.NoneBeyondSent(MemoryOf(s), l, 1);
    BlockFacts(MemoryOf(s), l, s.frontBlock);
  }

  // ------------------------------------------------------------ room

  ghost function MasksFrom<T>(blocks: seq<Block<T>>, ring: seq<Ptr>, i: nat): nat
    requires forall j :: 0 <= j < |ring| ==> 0 <= ring[j] < |blocks|
    decreases |ring| - i
  {
    if i >= |ring| then 0 else blocks[ring[i]].sizeMask + MasksFrom(blocks, ring, i + 1)
  }

  ghost function ElementsFrom(l: Layout, i: nat): int
    requires forall j :: 0 <= j < |l.ring| ==> 0 <= l.ring[j] < |l.v|
    decreases |l.ring| - i
  {
    if i >= |l.ring| then 0 else l.v[l.ring[i]].t - l.v[l.ring[i]].f + ElementsFrom(l, i + 1)
  }

  ghost function Capacity<T>(s: State<T>, l: Layout): nat
    requires Quiescent(s, l)
  {
    Bounds(s, l);
    MasksFrom(s.blocks, l.ring, 0)
  }

  lemma {:induction false} MasksAppended<T>(blocks: seq<Block<T>>, ring: seq<Ptr>, blocks': seq<Block<T>>, b: Ptr, i: nat)
    requires |blocks| <= |blocks'| && 0 <= b < |blocks'| && forall j :: 0 <= j < |ring| ==> 0 <= ring[j] < |blocks|
    requires i <= |ring| && forall d :: 0 <= d < |blocks| ==> blocks'[d].sizeMask == blocks[d].sizeMask
    ensures MasksFrom(blocks', ring + [b], i) == MasksFrom(blocks, ring, i) + blocks'[b].sizeMask
    decreases |ring| - i
  {
    if i < |ring| {
      MasksAppended(blocks, ring, blocks', b, i + 1);
    } else {
      assert MasksFrom(blocks', ring + [b], i + 1) == 0;
    }
  }

  /** A new block brings its own room, less the element put in it. */
  lemma GrownRoom<T>(s: State<T>, l: Layout, x: T)
    requires Quiescent(s, l) && 0 <= s.tailBlock < |s.blocks| == |l.v| && l.tp + 1 == |l.ring| && NewBlockSize(s) >= 1
    requires Quiescent(Grown(s, x), GrownLayout(l, |s.sent|))
    ensures Capacity(Grown(s, x), GrownLayout(l, |s.sent|)) == Capacity(s, l) + NewBlockSize(s) - 1
    ensures Free(Grown(s, x), GrownLayout(l, |s.sent|)) == NewBlockSize(s) - 2
  {
    hide Quiescent;
    var s', l' := Grown(s, x), GrownLayout(l, |s.sent|);
    Bounds(s, l);
    Bounds(s', l');
    assert l'.ring == l.ring + [|s.blocks|];
    MasksAppended(s.blocks, l.ring, s'.blocks, |s.blocks|, 0);
    assert RoomFrom(s'.blocks, l', |l'.ring|) == 0;
  }

  lemma RingBlock<T>(s: State<T>, l: Layout, i: nat)
    requires Quiescent(s, l) && i < |l.ring|
    ensures |l.v| == |s.blocks| && 0 <= l.ring[i] < |s.blocks| && l.tp < |l.ring|
    ensures Indices(s.blocks[l.ring[i]], l.v[l.ring[i]])
    ensures i > l.tp ==> l.v[l.ring[i]].t == l.v[l.ring[i]].f
    ensures l.ring[i] == s.tailBlock ==> i == l.tp
    ensures l.ring[i] == s.frontBlock ==> i == 0
    ensures l.tp + 1 < |l.ring| && l.ring[i] == l.ring[l.tp + 1] ==> i == l.tp + 1
  {
    hide Consistent;
    Bounds(s, l);
    RingDistinct(MemoryOf(s), l);
    BlockFacts(MemoryOf(s), l, l.ring[i]);
    AfterTail(MemoryOf(s), l, i);
  }

  lemma AfterTail<T>(m: Memory<T>, l: Layout, i: nat)
    requires Consistent(m, l) && i < |l.ring|
    ensures |l.v| == |m.blocks| && 0 <= l.ring[i] < |l.v|
    ensures i > l.tp ==> l.v[l.ring[i]].t == l.v[l.ring[i]].f + If(m.pending && i == l.tp + 1)
    ensures m.pending ==> l.tp + 1 < |l.ring|
  {
    hide Payload, Indices;
  }

  lemma {:induction false} RoomAhead<T>(s: State<T>, l: Layout, i: nat)
    requires Quiescent(s, l) && |l.v| == |s.blocks| && forall j :: 0 <= j < |l.ring| ==> 0 <= l.ring[j] < |s.blocks|
    requires l.tp < i <= |l.ring|
    ensures RoomFrom(s.blocks, l, i) == MasksFrom(s.blocks, l.ring, i) >= |l.ring| - i
    decreases |l.ring| - i
  {
    hide Quiescent;
    if i < |l.ring| {
      RingBlock(s, l, i);
      RoomAhead(s, l, i + 1);
    }
  }

  /** There is room exactly when the tail block is not full or is not right behind the front
      block. */
  lemma RoomMeans<T>(s: State<T>, l: Layout)
    requires Quiescent(s, l)
    ensures 0 <= s.tailBlock < |s.blocks| == |l.v| && Free(s, l) >= 0
    ensures Free(s, l) > 0 <==>
      l.v[s.tailBlock].t < l.v[s.tailBlock].f + s.blocks[s.tailBlock].sizeMask || s.blocks[s.tailBlock].next != s.frontBlock
  {
    hide Consistent;
    Bounds(s, l);
    RoomAhead(s, l, l.tp + 1);
  }

  /** An empty queue has all its capacity free. */
  lemma EmptyHasRoom<T>(s: State<T>, l: Layout)
    requires Quiescent(s, l) && Fifo(s) == []
    ensures Free(s, l) == Capacity(s, l) && s.frontBlock == s.tailBlock
  {
    hide Consistent, Indices;
    Bounds(s, l);
    EmptyFront(s, l);
    RoomAhead(s, l, 1);
    OrderFacts(MemoryOf(s), l);
  }

  /** `t` of the block at ring position i grows by one. */
  lemma RoomTaken<T>(s: State<T>, l: Layout, s': State<T>, l': Layout, i: nat)
    requires Quiescent(s, l) && Quiescent(s', l') && i < |l.ring| && l'.ring == l.ring && i in {l.tp, l.tp + 1}
    requires |l.v| == |s.blocks| == |s'.blocks| == |l'.v| && forall j :: 0 <= j < |l.ring| ==> 0 <= l.ring[j] < |s.blocks|
    requires forall b :: 0 <= b < |l.v| && b != l.ring[i] ==> l'.v[b] == l.v[b]
    requires forall b :: 0 <= b < |l.v| ==> s'.blocks[b].sizeMask == s.blocks[b].sizeMask
    requires l'.v[l.ring[i]].f == l.v[l.ring[i]].f && l'.v[l.ring[i]].t == l.v[l.ring[i]].t + 1
    ensures RoomFrom(s'.blocks, l', i) == RoomFrom(s.blocks, l, i) - 1
  {
    hide Consistent;
    Bounds(s, l);
    forall j | i < j < |l.ring| ensures l.ring[j] != l.ring[i] { RingBlock(s, l, j); }
    hide Quiescent;
    RoomSame(s.blocks, l, s'.blocks, l', i + 1);
  }

  lemma {:induction false} MasksSame<T>(blocks: seq<Block<T>>, blocks': seq<Block<T>>, ring: seq<Ptr>, i: nat)
    requires |blocks'| == |blocks| && forall j :: 0 <= j < |ring| ==> 0 <= ring[j] < |blocks|
    requires forall b :: 0 <= b < |blocks| ==> blocks'[b].sizeMask == blocks[b].sizeMask
    ensures MasksFrom(blocks', ring, i) == MasksFrom(blocks, ring, i)
    decreases |ring| - i
  {
    if i < |ring| { MasksSame(blocks, blocks', ring, i + 1); }
  }

  lemma {:induction false} ElementsBehindTail<T>(m: Memory<T>, l: Layout, i: nat)
    requires Consistent(m, l) && |l.v| == |m.blocks| && forall j :: 0 <= j < |l.ring| ==> 0 <= l.ring[j] < |m.blocks|
    requires l.tp < i <= |l.ring|
    ensures ElementsFrom(l, i) == If(m.pending && i == l.tp + 1)
    decreases |l.ring| - i
  {
    hide Consistent;
    if i < |l.ring| {
      AfterTail(m, l, i);
      ElementsBehindTail(m, l, i + 1);
    } else {
      AfterTail(m, l, i - 1);
    }
  }

  lemma {:induction false} ElementsAhead<T>(m: Memory<T>, l: Layout, i: nat)
    requires Consistent(m, l) && |l.v| == |m.blocks| && forall j :: 0 <= j < |l.ring| ==> 0 <= l.ring[j] < |m.blocks|
    requires i <= l.tp < |l.ring| && l.ring[l.tp] == m.tailBlock
    ensures ElementsFrom(l, i) == m.nsent + If(m.pending) - (l.v[l.ring[i]].off + l.v[l.ring[i]].f)
    decreases l.tp - i
  {
    hide Consistent;
    if i < l.tp {
      StepAlongRing(m, l, i);
      ElementsAhead(m, l, i + 1);
    } else {
      OrderFacts(m, l);
      ElementsBehindTail(m, l, i + 1);
    }
  }

  /** Counting block by block counts the queue, and an element that is in its block and not
      yet published. */
  lemma ElementsCount<T>(m: Memory<T>, l: Layout)
    requires Consistent(m, l)
    ensures |l.v| == |m.blocks| && forall j :: 0 <= j < |l.ring| ==> 0 <= l.ring[j] < |m.blocks|
    ensures ElementsFrom(l, 0) == m.nsent + If(m.pending) - m.nreceived
  {
    hide Consistent;
    RingFacts(m, l);
    OrderFacts(m, l);
    ElementsAhead(m, l, 0);
  }

  lemma ElementsAreFifo<T>(s: State<T>, l: Layout)
    requires Quiescent(s, l)
    ensures |l.v| == |s.blocks| && forall j :: 0 <= j < |l.ring| ==> 0 <= l.ring[j] < |s.blocks|
    ensures ElementsFrom(l, 0) == |Fifo(s)|
  {
    hide Consistent;
    ElementsCount(MemoryOf(s), l);
  }

  /** What the masked comparison in `inner_enqueue` decides. */
  lemma LapOrRoom<T>(s: State<T>, l: Layout)
    requires Quiescent(s, l)
    ensures 0 <= s.tailBlock < |s.blocks| == |l.v|
    ensures var b, c := s.blocks[s.tailBlock], l.v[s.tailBlock];
      Advance(b.tail, b.sizeMask) != b.localFront <==> c.t < c.lf + b.sizeMask
    ensures l.v[s.tailBlock].lf <= l.v[s.tailBlock].f && l.v[s.tailBlock].t <= l.v[s.tailBlock].lf + s.blocks[s.tailBlock].sizeMask
    ensures s.blocks[s.tailBlock].tail < |s.blocks[s.tailBlock].data|
  {
    hide Consistent;
    Bounds(s, l);
    var b, c := s.blocks[s.tailBlock], l.v[s.tailBlock];
    FullLap(c.lf, c.t, b.sizeMask + 1);
  }

  lemma NextBlockEmpty<T>(s: State<T>, l: Layout, tbn: Ptr)
    requires Quiescent(s, l) && l.tp + 1 < |l.ring| && l.ring[l.tp + 1] == tbn
    ensures 0 <= tbn < |s.blocks| == |l.v| && s.blocks[tbn].front == s.blocks[tbn].tail < |s.blocks[tbn].data|
  {
    hide Consistent;
    Bounds(s, l);
    RingBlock(s, l, l.tp + 1);
  }

  lemma Appended<T>(s: State<T>, l: Layout, s': State<T>, l': Layout, x: T)
    requires Quiescent(s, l) && Quiescent(s', l') && s'.sent == s.sent + [x] && s'.received == s.received
    ensures InOrder(s) && InOrder(s') && Fifo(s') == Fifo(s) + [x]
  {
    hide Consistent;
  }

  /** The tail moves from a full block to the next, which takes one element. */
  lemma NextCellUsed<T>(s: State<T>, l: Layout, s': State<T>, l': Layout, tbn: Ptr)
    requires Quiescent(s, l) && RoomNext(s, l, tbn) && Quiescent(s', l')
    requires l'.ring == l.ring && l'.tp == l.tp + 1 && |s'.blocks| == |s.blocks| && |l'.v| == |l.v|
    requires forall b :: 0 <= b < |l.v| && b != tbn ==> l'.v[b] == l.v[b]
    requires forall b :: 0 <= b < |l.v| ==> s'.blocks[b].sizeMask == s.blocks[b].sizeMask
    requires l'.v[tbn].f == l.v[tbn].f && l'.v[tbn].t == l.v[tbn].t + 1
    ensures Free(s', l') == Free(s, l) - 1 && Capacity(s', l') == Capacity(s, l)
  {
    hide Consistent;
    Bounds(s, l);
    RoomTaken(s, l, s', l', l.tp + 1);
    MasksSame(s.blocks, s'.blocks, l.ring, 0);
  }

  /** Equal masked indices of the front block are equal counters. */
  lemma SameIndices<T>(s: State<T>, l: Layout)
    requires Quiescent(s, l)
    ensures 0 <= s.frontBlock < |s.blocks| == |l.v|
    ensures var b, c := s.blocks[s.frontBlock], l.v[s.frontBlock];
      (b.front == b.localTail <==> c.f == c.lt) && c.f <= c.lt <= c.t
  {
    hide Consistent;
    Bounds(s, l);
    EqualIndices(s.blocks[s.frontBlock], l.v[s.frontBlock]);
  }

  /** The oldest element, when it is in the block after the front block. */
  lemma NextElement<T>(s: State<T>, l: Layout)
    requires Quiescent(s, l) && ElementNext(s, l)
    ensures |s.received| < |s.sent|
    ensures var b := s.blocks[s.frontBlock].next;
      0 <= b < |s.blocks| && s.blocks[b].front < |s.blocks[b].data|
      && s.blocks[b].data[s.blocks[b].front] == Live(s.sent[|s.received|])
  {
    hide Consistent;
    Bounds(s, l);
    AheadIsSent(s, l);
    NextFacts(MemoryOf(s), l);
    OrderFacts(MemoryOf(s), l);
    StepAlongRing(MemoryOf(s), l, 0);
    LiveAtFront(MemoryOf(s), l, l.ring[1]);
  }

  // ------------------------------------------------------------ walks

  /** How far into the history the blocks before ring position i reach. */
  ghost function Reach<T>(s: State<T>, l: Layout, i: nat): int {
    if i <= l.tp && i < |l.ring| && 0 <= l.ring[i] < |l.v| then l.v[l.ring[i]].off + l.v[l.ring[i]].f else |s.sent|
  }

  /** The elements a block holds. */
  function Held<T>(c: Counters, hist: seq<T>): seq<T> {
    Segment(hist, c.off + c.f, c.off + c.t)
  }

  function Segment<T>(hist: seq<T>, lo: int, hi: int): seq<T> {
    if 0 <= lo < hi <= |hist| then hist[lo..hi] else []
  }

  lemma NoneYet<T>(hist: seq<T>, lo: int)
    ensures Segment(hist, lo, lo) == []
  {
  }

  lemma OneMore<T>(hist: seq<T>, lo: int, hi: int)
    requires 0 <= lo <= hi < |hist|
    ensures Segment(hist, lo, hi) + [hist[hi]] == Segment(hist, lo, hi + 1)
  {
  }

  lemma HeldInTurn<T>(s: State<T>, l: Layout, i: nat)
    requires Quiescent(s, l) && i < |l.ring| && Reach(s, l, i) >= 0
    ensures |l.v| == |s.blocks| && 0 <= l.ring[i] < |l.v|
    ensures Reach(s, l, i) <= Reach(s, l, i + 1) <= |s.sent|
    ensures Held(l.v[l.ring[i]], s.sent) == s.sent[Reach(s, l, i)..Reach(s, l, i + 1)]
  {
    hide Consistent;
    Bounds(s, l);
    RingBlock(s, l, i);
    C.CountersOrdered(s.blocks[l.ring[i]], l.v[l.ring[i]]);
    OrderFacts(MemoryOf(s), l);
    if i <= l.tp { C.NoneBeyondSent(MemoryOf(s), l, i); }
    if i < l.tp {
      StepAlongRing(MemoryOf(s), l, i);
      C.NoneBeyondSent(MemoryOf(s), l, i + 1);
      RingBlock(s, l, i + 1);
      C.CountersOrdered(s.blocks[l.ring[i + 1]], l.v[l.ring[i + 1]]);
    }
  }

  lemma ReachesAll<T>(s: State<T>, l: Layout)
    requires Quiescent(s, l)
    ensures Reach(s, l, 0) == |s.received| && Reach(s, l, |l.ring|) == |s.sent| && s.received <= s.sent
  {
    hide Consistent;
    Bounds(s, l);
    OrderFacts(MemoryOf(s), l);
  }

  lemma RingNext<T>(s: State<T>, l: Layout, i: nat)
    requires Quiescent(s, l) && i < |l.ring|
    ensures |l.v| == |s.blocks| == |l.ring| && 0 <= l.ring[i] < |s.blocks|
    ensures var b, c := s.blocks[l.ring[i]], l.v[l.ring[i]];
      && b.front < WORD && b.tail < WORD && Occupied(b) == c.t - c.f
      && b.next == l.ring[Succ(i, |l.ring|)]
      && (b.next == s.frontBlock <==> i + 1 == |l.ring|)
      && Indices(b, c) && Stored(b.data, b.sizeMask + 1, c.f, c.t, c.off, s.sent)
  {
    hide Consistent, Indices, Stored, Occupied, IsPow2;
    Bounds(s, l);
    RingBlock(s, l, i);
    P.OccupiedIs(s.blocks[l.ring[i]], l.v[l.ring[i]], s.largestBlockSize);
    RingLink(MemoryOf(s), l, i);
    Cells(MemoryOf(s), l, l.ring[i]);
  }

  lemma RingLink<T>(m: Memory<T>, l: Layout, i: nat)
    requires Consistent(m, l) && i < |l.ring|
    ensures 0 <= l.ring[i] < |m.blocks| && m.blocks[l.ring[i]].next == l.ring[Succ(i, |l.ring|)]
    ensures i + 1 < |l.ring| ==> l.ring[i + 1] != m.frontBlock
  {
    hide AllIndices, Payload, Order;
    assert m.blocks[l.ring[i]].next == l.ring[Succ(i, |l.ring|)];
    if i + 1 < |l.ring| { assert l.ring[0] != l.ring[i + 1]; }
  }

  lemma RingOnce<T>(s: State<T>, l: Layout)
    requires Quiescent(s, l)
    ensures |l.ring| == |s.blocks|
    ensures forall i, j :: 0 <= i < j < |l.ring| ==> l.ring[i] != l.ring[j]
    ensures forall b :: 0 <= b < |s.blocks| ==> b in l.ring
  {
    hide AllIndices, Payload, Order;
  }

  lemma {:induction false} SlotCovers(lo: nat, j: nat, n: nat) returns (k: nat)
    requires j < n
    ensures lo <= k < lo + n && Slot(k, n) == j
    decreases lo
  {
    if lo >= n {
      k := SlotCovers(lo - n, j, n);
      k := k + n;
      SlotPeriod(k - n, n);
    } else if j >= lo {
      k := j;
    } else {
      k := j + n;
      SlotPeriod(j, n);
    }
  }

  lemma AllDead<T>(data: seq<Cell<T>>, n: nat, k: nat, off: int, hist: seq<T>)
    requires Stored(data, n, k, k, off, hist)
    ensures forall j :: 0 <= j < |data| ==> data[j] == Dead
  {
    forall j | 0 <= j < |data| ensures data[j] == Dead {
      var i := SlotCovers(k, j, n);
      assert data[Slot(i, n)] == Dead;
    }
  }
}
