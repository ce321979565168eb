/** How each kind of shared access moves a consistent memory to a consistent memory. */
module SpscEffects {
  import opened Bits
  import opened Rounding
  import opened SpscQueue
  import opened SpscInvariant
  import opened SpscMemory

  // ------------------------------------------------------------ reading off

  lemma RingFacts<T>(m: Memory<T>, l: Layout)
    requires Consistent(m, l)
    ensures |l.v| == |m.blocks| && l.tp < |l.ring| == m.linked <= |m.blocks|
    ensures forall i :: 0 <= i < |l.ring| ==> 0 <= l.ring[i] < m.linked
    ensures l.ring[0] == m.frontBlock && l.ring[l.tp] == m.tailBlock
    ensures l.tp > 0 ==> m.frontBlock != m.tailBlock
    ensures l.tp + 1 < |l.ring| ==> l.ring[l.tp + 1] !in {m.frontBlock, m.tailBlock}
    ensures l.tp > 0 ==> l.ring[1] != m.frontBlock
  {
    hide AllIndices, Payload, Order;
    MemoryShape(m, l);
  }

  lemma MemoryShape<T>(m: Memory<T>, l: Layout)
    requires Consistent(m, l)
    ensures Shape(m.blocks, m.frontBlock, m.tailBlock, m.linked, l.ring, l.tp) && |l.v| == |m.blocks|
  {
    hide Shape, Payload, Order;
  }

  lemma NextFacts<T>(m: Memory<T>, l: Layout)
    requires Consistent(m, l)
    ensures 0 <= m.tailBlock < |m.blocks| && 0 <= m.frontBlock < |m.blocks| && l.tp < |l.ring|
    ensures m.blocks[m.tailBlock].next == l.ring[Succ(l.tp, |l.ring|)]
    ensures m.blocks[m.frontBlock].next == l.ring[Succ(0, |l.ring|)]
    ensures m.blocks[m.tailBlock].next == m.frontBlock <==> l.tp + 1 == |l.ring|
  {
    hide AllIndices, Payload, Order;
    assert m.blocks[l.ring[l.tp]].next == l.ring[Succ(l.tp, |l.ring|)];
  }

  lemma BlockFacts<T>(m: Memory<T>, l: Layout, b: Ptr)
    requires Consistent(m, l) && 0 <= b < |m.blocks|
    ensures |l.v| == |m.blocks| && Indices(m.blocks[b], l.v[b])
  {
    hide Shape, Payload, Order;
  }

  lemma Cells<T>(m: Memory<T>, l: Layout, b: Ptr)
    requires Consistent(m, l) && 0 <= b < |m.blocks|
    ensures |l.v| == |m.blocks|
    ensures Stored(m.blocks[b].data, m.blocks[b].sizeMask + 1, l.v[b].f + If(b == m.taking), l.v[b].t + If(b == m.placing), l.v[b].off, m.hist)
  {
    hide Shape, Order;
  }

  /** Distances along the ring. */
  lemma OrderFacts<T>(m: Memory<T>, l: Layout)
    requires Consistent(m, l)
    ensures |l.v| == |m.blocks| && 0 <= m.frontBlock < |m.blocks| && 0 <= m.tailBlock < |m.blocks| && l.tp < |l.ring|
    ensures forall i :: 0 <= i < |l.ring| ==> 0 <= l.ring[i] < |m.blocks|
    ensures l.v[m.frontBlock].off + l.v[m.frontBlock].f == m.nreceived
    ensures l.v[m.tailBlock].off + l.v[m.tailBlock].t == m.nsent
    ensures l.tp > 0 ==> l.v[m.tailBlock].f < l.v[m.tailBlock].t
    ensures l.tp > 0 ==> l.v[l.ring[1]].f < l.v[l.ring[1]].t
    ensures m.pending ==> l.tp + 1 < |l.ring|
    ensures l.tp + 1 < |l.ring| ==> l.v[l.ring[l.tp + 1]].t == l.v[l.ring[l.tp + 1]].f + If(m.pending)
  {
    hide Payload;
    if l.tp > 1 { BlockFacts(m, l, l.ring[1]); }
  }

  // ------------------------------------------------------------ writing

  lemma IndicesUpdated<T>(blocks: seq<Block<T>>, v: seq<Counters>, b: Ptr, blk: Block<T>, c: Counters)
    requires AllIndices(blocks, v) && 0 <= b < |blocks| && Indices(blk, c)
    ensures AllIndices(blocks[b := blk], v[b := c])
  {
  }

  /** One block is written to: what is left to show is its own state and the order. */
  lemma Written<T>(m: Memory<T>, l: Layout, b: Ptr, blk: Block<T>, c: Counters, hist: seq<T>, taking: Ptr, placing: Ptr,
                   nsent: nat, nreceived: nat, pending: bool)
    requires Consistent(m, l) && 0 <= b < |m.blocks| == |l.v| && l.tp < |l.ring| && m.linked <= |m.blocks|
    requires forall i :: 0 <= i < |l.ring| ==> 0 <= l.ring[i] < m.linked
    requires Indices(blk, c) && (b < m.linked ==> blk.next == m.blocks[b].next)
    requires Stored(blk.data, blk.sizeMask + 1, c.f + If(b == taking), c.t + If(b == placing), c.off, hist)
    requires m.hist <= hist
    requires (m.taking in {b, NULL} && taking in {b, NULL}) || m.taking == taking
    requires (m.placing in {b, NULL} && placing in {b, NULL}) || m.placing == placing
    requires Order(m.blocks[b := blk], l.v[b := c], l.ring, l.tp, nsent, nreceived, pending)
    ensures Consistent(Memory(m.blocks[b := blk], m.frontBlock, m.tailBlock, m.linked, hist, taking, placing, nsent, nreceived, pending),
                       l.(v := l.v[b := c]))
  {
    hide Shape, AllIndices, Payload, Order, Stored, Indices;
    ShapeKept(m.blocks, m.blocks[b := blk], m.frontBlock, m.tailBlock, m.linked, l.ring, l.tp);
    IndicesUpdated(m.blocks, l.v, b, blk, c);
    PayloadUpdate(m.blocks, l.v, m.hist, m.taking, m.placing, blk, c, hist, taking, placing, b);
  }

  lemma OrderOf<T>(m: Memory<T>, l: Layout)
    requires Consistent(m, l)
    ensures InRange(m.blocks, l.v, l.ring, l.tp)
    ensures Order(m.blocks, l.v, l.ring, l.tp, m.nsent, m.nreceived, m.pending)
  {
    hide Payload, Indices;
  }

  function Shadowless<T>(b: Block<T>): Block<T> {
    b.(localFront := 0, localTail := 0)
  }

  /** A shadow index is refreshed. */
  lemma ShadowRefreshed<T>(m: Memory<T>, l: Layout, b: Ptr, blk: Block<T>, c: Counters)
    requires Consistent(m, l) && 0 <= b < |m.blocks| == |l.v|
    requires Indices(blk, c) && Shadowless(blk) == Shadowless(m.blocks[b]) && c.(lf := 0, lt := 0) == l.v[b].(lf := 0, lt := 0)
    ensures Consistent(m.(blocks := m.blocks[b := blk]), l.(v := l.v[b := c]))
  {
    hide Shape, AllIndices, Payload, Order, Stored, Indices;
    RingFacts(m, l);
    OrderOf(m, l);
    OrderKept(m.blocks, l.v, l.ring, l.tp, m.nsent, m.nreceived, m.pending, m.blocks[b := blk], l.v[b := c]);
    Cells(m, l, b);
    Written(m, l, b, blk, c, m.hist, m.taking, m.placing, m.nsent, m.nreceived, m.pending);
  }

  lemma CellSet<T>(b: Block<T>, c: Counters, cell: Cell<T>, off: int)
    requires Indices(b, c)
    ensures b.tail == Slot(c.t, b.sizeMask + 1) < |b.data| && b.front == Slot(c.f, b.sizeMask + 1) < |b.data|
    ensures Indices(b.(data := b.data[b.tail := cell]), c.(off := off))
    ensures Indices(b.(data := b.data[b.front := cell]), c.(off := off))
    ensures c.f <= c.t
  {
  }

  /** An object is constructed in block b at `tail`. */
  lemma Placed<T>(m: Memory<T>, l: Layout, b: Ptr, x: T, off: int)
    requires Consistent(m, l) && 0 <= b < |m.blocks| == |l.v|
    requires m.placing == NULL && m.taking in {NULL, m.frontBlock} && !m.pending
    requires Indices(m.blocks[b], l.v[b])
    requires l.v[b].t < l.v[b].f + m.blocks[b].sizeMask && off + l.v[b].t == |m.hist|
    requires (b == m.tailBlock && off == l.v[b].off)
          || (b >= m.linked && l.v[b].f == l.v[b].t)
          || (l.tp + 1 < |l.ring| && b == l.ring[l.tp + 1] && l.v[b].f == l.v[b].t)
    ensures m.blocks[b].tail < |m.blocks[b].data|
    ensures Consistent(m.(blocks := m.blocks[b := m.blocks[b].(data := m.blocks[b].data[m.blocks[b].tail := Live(x)])],
                          hist := m.hist + [x], placing := b),
                       l.(v := l.v[b := l.v[b].(off := off)]))
  {
    hide Shape, AllIndices, Payload, Order, Stored, Indices;
    RingFacts(m, l);
    RingDistinct(m, l);
    CellSet(m.blocks[b], l.v[b], Live(x), off);
    var blk := m.blocks[b].(data := m.blocks[b].data[m.blocks[b].tail := Live(x)]);
    var c := l.v[b].(off := off);
    OrderOf(m, l);
    OrderKept(m.blocks, l.v, l.ring, l.tp, m.nsent, m.nreceived, m.pending, m.blocks[b := blk], l.v[b := c]);
    Cells(m, l, b);
    PlaceCell(m.blocks[b].data, m.blocks[b].sizeMask + 1, c.f + If(b == m.taking), c.t, l.v[b].off, m.hist, x, off);
    Written(m, l, b, blk, c, m.hist + [x], m.taking, b, m.nsent, m.nreceived, m.pending);
  }

  lemma RingDistinct<T>(m: Memory<T>, l: Layout)
    requires Consistent(m, l)
    ensures |l.v| == |m.blocks| && l.tp < |l.ring| && 0 <= m.tailBlock < m.linked
    ensures forall i :: 0 <= i < |l.ring| ==> 0 <= l.ring[i] < m.linked
    ensures forall i :: 0 <= i < |l.ring| && l.ring[i] == m.tailBlock ==> i == l.tp
    ensures forall i :: 0 <= i < |l.ring| && l.ring[i] == m.frontBlock ==> i == 0
    ensures l.tp + 1 < |l.ring| ==> forall i :: 0 <= i < |l.ring| && l.ring[i] == l.ring[l.tp + 1] ==> i == l.tp + 1
  {
    hide Payload, Order;
  }

  /** `tail` of the tail block takes in the object constructed there. */
  lemma TailStored<T>(m: Memory<T>, l: Layout, blk: Block<T>)
    requires Consistent(m, l) && |l.v| == |m.blocks| && 0 <= m.tailBlock < |m.blocks|
    requires m.placing == m.tailBlock && !m.pending
    requires var b := m.tailBlock; Indices(blk, l.v[b].(t := l.v[b].t + 1)) && blk == m.blocks[b].(tail := blk.tail)
    ensures Consistent(m.(blocks := m.blocks[m.tailBlock := blk], placing := NULL, nsent := m.nsent + 1),
                       l.(v := l.v[m.tailBlock := l.v[m.tailBlock].(t := l.v[m.tailBlock].t + 1)]))
  {
    hide Shape, AllIndices, Payload, Order, Stored, Indices;
    RingFacts(m, l);
    RingDistinct(m, l);
    var b := m.tailBlock;
    var c := l.v[b].(t := l.v[b].t + 1);
    OrderOf(m, l);
    OrderTailStored(m.blocks, l.v, l.ring, l.tp, m.nsent, m.nreceived, m.blocks[b := blk], l.v[b := c]);
    Cells(m, l, b);
    Written(m, l, b, blk, c, m.hist, m.taking, NULL, m.nsent + 1, m.nreceived, false);
  }

  /** `tail` of the block after the tail block takes in the object constructed there. */
  lemma NextTailStored<T>(m: Memory<T>, l: Layout, b: Ptr, blk: Block<T>)
    requires Consistent(m, l) && |l.v| == |m.blocks| && 0 <= b < |m.blocks|
    requires l.tp + 1 < |l.ring| && b == l.ring[l.tp + 1] == m.placing && !m.pending
    requires Indices(blk, l.v[b].(t := l.v[b].t + 1)) && blk == m.blocks[b].(tail := blk.tail)
    ensures Consistent(m.(blocks := m.blocks[b := blk], placing := NULL, pending := true),
                       l.(v := l.v[b := l.v[b].(t := l.v[b].t + 1)]))
  {
    hide Shape, AllIndices, Payload, Order, Stored, Indices;
    RingFacts(m, l);
    RingDistinct(m, l);
    var c := l.v[b].(t := l.v[b].t + 1);
    OrderOf(m, l);
    OrderNextTailStored(m.blocks, l.v, l.ring, l.tp, m.nsent, m.nreceived, m.blocks[b := blk], l.v[b := c]);
    Cells(m, l, b);
    Written(m, l, b, blk, c, m.hist, m.taking, NULL, m.nsent, m.nreceived, true);
  }

  /** `tailBlock` moves on to the block that was filled. */
  lemma Published<T>(m: Memory<T>, l: Layout)
    requires Consistent(m, l) && |l.v| == |m.blocks| && 0 <= m.tailBlock < |m.blocks|
    requires m.pending && l.tp + 1 < |l.ring| && 0 <= l.ring[l.tp + 1] < |m.blocks|
    requires l.v[l.ring[l.tp + 1]].off + l.v[l.ring[l.tp + 1]].f == m.nsent
    requires l.tp > 0 ==> l.v[m.tailBlock].t == l.v[m.tailBlock].f + m.blocks[m.tailBlock].sizeMask
    ensures Consistent(m.(tailBlock := l.ring[l.tp + 1], nsent := m.nsent + 1, pending := false), l.(tp := l.tp + 1))
  {
    hide Shape, AllIndices, Payload, Order;
    RingFacts(m, l);
    ShapeTailAdvances(m.blocks, m.frontBlock, m.tailBlock, m.linked, l.ring, l.tp);
    OrderPublished(m.blocks, l.v, l.ring, l.tp, m.nsent, m.nreceived);
  }

  /** A grown block's size: doubling stops at the maximum, so it never wraps. */
  lemma NewSize<T>(s: State<T>)
    requires Sizes(s)
    ensures IsPow2(NewBlockSize(s)) && 2 <= NewBlockSize(s) <= HALF_WORD
    ensures s.largestBlockSize <= NewBlockSize(s) <= 2 * s.maxBlockSize
  {
    if s.largestBlockSize < s.maxBlockSize {
      PowersApart(s.largestBlockSize, s.maxBlockSize);
      DoubleIsPow2(s.largestBlockSize);
    }
  }

  /** A block is made; no other block points to it yet. */
  lemma Allocated<T>(m: Memory<T>, l: Layout, size: nat)
    requires Consistent(m, l) && m.linked == |m.blocks| && 2 <= size <= HALF_WORD && IsPow2(size)
    requires m.placing == NULL && m.taking < |m.blocks|
    ensures Consistent(m.(blocks := m.blocks + [MakeBlock(size)]), l.(v := l.v + [Counters(0, 0, 0, 0, 0)]))
  {
    hide Shape, AllIndices, Payload, Order, Stored, Indices;
    RingFacts(m, l);
    var blk, c := MakeBlock<T>(size), Counters(0, 0, 0, 0, 0);
    ShapeKept(m.blocks, m.blocks + [blk], m.frontBlock, m.tailBlock, m.linked, l.ring, l.tp);
    IndicesGrow(m.blocks, l.v, size);
    OrderOf(m, l);
    OrderKept(m.blocks, l.v, l.ring, l.tp, m.nsent, m.nreceived, m.pending, m.blocks + [blk], l.v + [c]);
    FreshCells(blk.data, size, m.hist);
    PayloadGrows(m, l, blk);
  }

  lemma IndicesGrow<T>(blocks: seq<Block<T>>, v: seq<Counters>, size: nat)
    requires AllIndices(blocks, v) && 2 <= size <= HALF_WORD && IsPow2(size)
    ensures AllIndices(blocks + [MakeBlock(size)], v + [Counters(0, 0, 0, 0, 0)])
  {
    assert Indices(MakeBlock<T>(size), Counters(0, 0, 0, 0, 0));
    hide Indices;
  }

  lemma FreshCells<T>(data: seq<Cell<T>>, n: nat, hist: seq<T>)
    requires |data| == n > 0 && forall i :: 0 <= i < n ==> data[i] == Dead
    ensures Stored(data, n, 0, 0, 0, hist)
  {
  }

  lemma PayloadGrows<T>(m: Memory<T>, l: Layout, blk: Block<T>)
    requires |l.v| == |m.blocks| && Payload(m.blocks, l.v, m.hist, m.taking, m.placing)
    requires m.placing == NULL && m.taking < |m.blocks|
    requires Stored(blk.data, blk.sizeMask + 1, 0, 0, 0, m.hist)
    ensures Payload(m.blocks + [blk], l.v + [Counters(0, 0, 0, 0, 0)], m.hist, m.taking, m.placing)
  {
    hide Stored;
  }

  /** Fields of the unlinked block are set. */
  lemma UnlinkedSet<T>(m: Memory<T>, l: Layout, blk: Block<T>, c: Counters, placing: Ptr)
    requires Consistent(m, l) && 0 <= m.linked < |m.blocks| == |l.v|
    requires m.placing in {m.linked, NULL} && placing in {m.linked, NULL} && m.taking != m.linked
    requires Indices(blk, c) && blk.data == m.blocks[m.linked].data && blk.sizeMask == m.blocks[m.linked].sizeMask
    requires c.f == l.v[m.linked].f && c.off == l.v[m.linked].off
    requires c.t + If(placing == m.linked) == l.v[m.linked].t + If(m.placing == m.linked)
    ensures Consistent(m.(blocks := m.blocks[m.linked := blk], placing := placing), l.(v := l.v[m.linked := c]))
  {
    hide Shape, AllIndices, Payload, Order, Stored, Indices;
    RingFacts(m, l);
    var b := m.linked;
    OrderOf(m, l);
    OrderKept(m.blocks, l.v, l.ring, l.tp, m.nsent, m.nreceived, m.pending, m.blocks[b := blk], l.v[b := c]);
    Cells(m, l, b);
    Written(m, l, b, blk, c, m.hist, m.taking, placing, m.nsent, m.nreceived, m.pending);
  }

  /** The block made is linked in after the tail block. */
  lemma Linked<T>(m: Memory<T>, l: Layout)
    requires Consistent(m, l) && m.linked == |m.blocks| - 1 && |l.v| == |m.blocks| && 0 <= m.tailBlock < m.linked
    requires l.tp < |l.ring| && !m.pending
    requires m.blocks[m.linked].next == m.blocks[m.tailBlock].next
    requires l.v[m.linked].t == l.v[m.linked].f + 1
    ensures Consistent(m.(blocks := m.blocks[m.tailBlock := m.blocks[m.tailBlock].(next := m.linked)], linked := m.linked + 1, pending := true),
                       l.(ring := l.ring[..l.tp + 1] + [m.linked] + l.ring[l.tp + 1..]))
  {
    hide Shape, AllIndices, Payload, Order, Stored;
    RingFacts(m, l);
    BlockFacts(m, l, m.tailBlock);
    assert Indices(m.blocks[m.tailBlock].(next := m.linked), l.v[m.tailBlock]);
    hide Indices;
    var nb := m.linked;
    var blk := m.blocks[m.tailBlock].(next := nb);
    var blocks' := m.blocks[m.tailBlock := blk];
    var r := l.ring[..l.tp + 1] + [nb] + l.ring[l.tp + 1..];
    ShapeInsert(m.blocks, blocks', m.frontBlock, m.tailBlock, nb, l.ring, l.tp);
    IndicesUpdated(m.blocks, l.v, m.tailBlock, blk, l.v[m.tailBlock]);
    assert l.v[m.tailBlock := l.v[m.tailBlock]] == l.v;
    PayloadKept(m.blocks, l.v, m.hist, m.taking, m.placing, blocks', l.v);
    assert forall i :: 0 <= i < |r| ==> 0 <= r[i] < |blocks'|;
    OrderInserted(m.blocks, l.v, l.ring, l.tp, m.nsent, m.nreceived, blocks', nb);
  }

  /** The object at `front` of the front block is moved out and destroyed. */
  lemma Taken<T>(m: Memory<T>, l: Layout)
    requires Consistent(m, l) && 0 <= m.frontBlock < |m.blocks| == |l.v| && m.taking == NULL
    requires Indices(m.blocks[m.frontBlock], l.v[m.frontBlock]) && l.v[m.frontBlock].f < l.v[m.frontBlock].t
    ensures m.blocks[m.frontBlock].front < |m.blocks[m.frontBlock].data|
    ensures Consistent(m.(blocks := m.blocks[m.frontBlock := m.blocks[m.frontBlock].(data := m.blocks[m.frontBlock].data[m.blocks[m.frontBlock].front := Dead])],
                          taking := m.frontBlock), l)
  {
    hide Shape, AllIndices, Payload, Order, Stored, Indices;
    RingFacts(m, l);
    var b := m.frontBlock;
    CellSet(m.blocks[b], l.v[b], Dead, l.v[b].off);
    var blk := m.blocks[b].(data := m.blocks[b].data[m.blocks[b].front := Dead]);
    var c := l.v[b];
    assert l.v[b := c] == l.v;
    OrderOf(m, l);
    OrderKept(m.blocks, l.v, l.ring, l.tp, m.nsent, m.nreceived, m.pending, m.blocks[b := blk], l.v);
    Cells(m, l, b);
    TakeCell(m.blocks[b].data, m.blocks[b].sizeMask + 1, c.f, c.t + If(b == m.placing), c.off, m.hist);
    Written(m, l, b, blk, c, m.hist, b, m.placing, m.nsent, m.nreceived, m.pending);
  }

  /** `front` of the front block steps over the object destroyed. */
  lemma FrontStored<T>(m: Memory<T>, l: Layout, blk: Block<T>)
    requires Consistent(m, l) && 0 <= m.frontBlock < |m.blocks| == |l.v| && m.taking == m.frontBlock
    requires var b := m.frontBlock; Indices(blk, l.v[b].(f := l.v[b].f + 1)) && blk == m.blocks[b].(front := blk.front)
    ensures Consistent(m.(blocks := m.blocks[m.frontBlock := blk], taking := NULL, nreceived := m.nreceived + 1),
                       l.(v := l.v[m.frontBlock := l.v[m.frontBlock].(f := l.v[m.frontBlock].f + 1)]))
  {
    hide Shape, AllIndices, Payload, Order, Stored, Indices;
    RingFacts(m, l);
    RingDistinct(m, l);
    var b := m.frontBlock;
    var c := l.v[b].(f := l.v[b].f + 1);
    OrderOf(m, l);
    OrderFrontStored(m.blocks, l.v, l.ring, l.tp, m.nsent, m.nreceived, m.pending, m.blocks[b := blk], l.v[b := c]);
    Cells(m, l, b);
    Written(m, l, b, blk, c, m.hist, NULL, m.placing, m.nsent, m.nreceived + 1, m.pending);
  }

  /** `frontBlock` moves on from a block that is used up. */
  lemma FrontAdvanced<T>(m: Memory<T>, l: Layout)
    requires Consistent(m, l) && l.tp >= 1 && |l.ring| >= 2 && 0 <= m.frontBlock < |l.v|
    requires l.v[m.frontBlock].f == l.v[m.frontBlock].t
    ensures Consistent(m.(frontBlock := l.ring[1]), Rotate(l))
  {
    hide Shape, AllIndices, Payload, Order;
    RingFacts(m, l);
    ShapeFrontAdvances(m.blocks, m.frontBlock, m.tailBlock, m.linked, l.ring, l.tp);
    OrderFrontAdvances(m.blocks, l.v, l.ring, l.tp, m.nsent, m.nreceived, m.pending);
  }
}
