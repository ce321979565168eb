/** Memory holds the abstract queue: read from the front block to the tail block, the cells
    between `front` and `tail` are the elements sent and not yet received, in order. */
module SpscContents {
  import opened Bits
  import opened SpscQueue
  import opened SpscInvariant
  import opened SpscEffects
  import C = SpscConsumer

  lemma {:induction false} BlockCells<T>(b: Block<T>, c: Counters, k: nat, fuel: nat)
    requires Indices(b, c) && c.f <= k <= c.t && fuel >= c.t - k
    ensures var cells := CellsFrom(b, Slot(k, b.sizeMask + 1), fuel);
      && |cells| == c.t - k
      && forall i :: 0 <= i < c.t - k ==> cells[i] == b.data[Slot(k + i, b.sizeMask + 1)]
    decreases c.t - k
  {
    hide Slot, IsPow2, And;
    var n := b.sizeMask + 1;
    var cells := CellsFrom(b, Slot(k, n), fuel);
    if k < c.t {
      if Slot(k, n) == b.tail { SlotInjective(k, c.t, n); }
      SlotNext(k, n);
      BlockCells(b, c, k + 1, fuel - 1);
      assert cells == [b.data[Slot(k, n)]] + CellsFrom(b, Slot(k + 1, n), fuel - 1);
      forall i | 0 <= i < c.t - k ensures cells[i] == b.data[Slot(k + i, n)] {
        if i > 0 { assert cells[i] == CellsFrom(b, Slot(k + 1, n), fuel - 1)[i - 1]; }
      }
    }
  }

  /** n cells that hold the history from element `first` on; the first may be destroyed. */
  ghost predicate Images<T>(cells: seq<Cell<T>>, hist: seq<T>, first: int, taken: bool) {
    && 0 <= first
    && forall i :: 0 <= i < |cells| ==>
      if i == 0 && taken then cells[i] == Dead else first + i < |hist| && cells[i] == Live(hist[first + i])
  }

  lemma BlockImages<T>(m: Memory<T>, l: Layout, b: Ptr)
    requires Consistent(m, l) && 0 <= b < |m.blocks| == |l.v|
    requires l.v[b].off + l.v[b].f >= 0
    ensures var cells := CellsFrom(m.blocks[b], m.blocks[b].front, |m.blocks[b].data|);
      |cells| == l.v[b].t - l.v[b].f && Images(cells, m.hist, l.v[b].off + l.v[b].f, b == m.taking)
  {
    hide Shape, AllIndices, Payload, Order, Slot, IsPow2, CellsFrom;
    BlockFacts(m, l, b);
    Cells(m, l, b);
    var blk, c := m.blocks[b], l.v[b];
    var n := blk.sizeMask + 1;
    assert c.t - c.f < n && blk.front == Slot(c.f, n);
    BlockCells(blk, c, c.f, n);
    hide Indices;
    var cells := CellsFrom(blk, Slot(c.f, n), n);
    SlotPeriod(c.f, n);
    forall i | 0 <= i < |cells|
      ensures if i == 0 && b == m.taking then cells[i] == Dead else c.off + c.f + i < |m.hist| && cells[i] == Live(m.hist[c.off + c.f + i])
    {
      assert cells[i] == blk.data[Slot(c.f + i, n)];
      if i == 0 && b == m.taking { assert blk.data[Slot(c.f + n, n)] == Dead; }
    }
  }

  lemma ImagesJoin<T>(here: seq<Cell<T>>, rest: seq<Cell<T>>, hist: seq<T>, first: int, taken: bool)
    requires Images(here, hist, first, taken) && (|rest| == 0 || Images(rest, hist, first + |here|, false))
    requires taken ==> |here| > 0
    ensures Images(here + rest, hist, first, taken)
  {
    forall i | |here| <= i < |here + rest|
      ensures first + i < |hist| && (here + rest)[i] == Live(hist[first + i])
    {
      assert (here + rest)[i] == rest[i - |here|];
    }
  }

  lemma StepAlongRing<T>(m: Memory<T>, l: Layout, i: nat)
    requires Consistent(m, l) && i < l.tp
    ensures |l.v| == |m.blocks| && l.tp < |l.ring| && 0 <= l.ring[i] < |m.blocks| && 0 <= l.ring[i + 1] < |m.blocks|
    ensures m.blocks[l.ring[i]].next == l.ring[i + 1] && l.ring[i] != m.tailBlock && l.ring[i + 1] != m.frontBlock
    ensures l.v[l.ring[i]].off + l.v[l.ring[i]].t == l.v[l.ring[i + 1]].off + l.v[l.ring[i + 1]].f
  {
    hide Payload, Indices;
    assert m.blocks[l.ring[i]].next == l.ring[Succ(i, |l.ring|)];
    assert l.ring[0] != l.ring[i + 1] && l.ring[i] != l.ring[l.tp];
  }

  /** The walk from the block at position i reads the rest of the queue. */
  lemma {:induction false} WalkImages<T>(s: State<T>, a: View, i: nat, fuel: nat)
    requires Core(s, a) && i <= a.l.tp < |a.l.ring| && |a.l.v| == |s.blocks|
    requires forall j :: 0 <= j < |a.l.ring| ==> 0 <= a.l.ring[j] < |s.blocks|
    requires a.l.v[a.l.ring[i]].off + a.l.v[a.l.ring[i]].f >= 0
    requires Taking(s.c) == NULL || (Taking(s.c) == s.frontBlock && a.l.v[s.frontBlock].f < a.l.v[s.frontBlock].t)
    requires fuel > a.l.tp - i
    ensures var b := a.l.ring[i];
      var first := a.l.v[b].off + a.l.v[b].f;
      var cells := Walk(s, b, fuel);
      |cells| == |s.sent| - first && Images(cells, Hist(s), first, b == Taking(s.c))
    decreases a.l.tp - i
  {
    hide Consistent, Images, CellsFrom;
    var m, l := MemoryOf(s), a.l;
    var b := l.ring[i];
    var here := CellsFrom(s.blocks[b], s.blocks[b].front, |s.blocks[b].data|);
    RingFacts(m, l);
    OrderFacts(m, l);
    BlockImages(m, l, b);
    if i < l.tp {
      StepAlongRing(m, l, i);
      BlockFacts(m, l, b);
      C.CountersOrdered(s.blocks[b], l.v[b]);
      WalkImages(s, a, i + 1, fuel - 1);
      ImagesJoin(here, Walk(s, l.ring[i + 1], fuel - 1), Hist(s), l.v[b].off + l.v[b].f, b == Taking(s.c));
    }
  }


  /** The cells of a queue of live elements, with the first one destroyed if `taken`. */
  function CellsOf<T>(q: seq<T>, taken: bool): seq<Cell<T>> {
    seq(|q|, i requires 0 <= i < |q| => if i == 0 && taken then Dead else Live(q[i]))
  }

  /** What is in memory is exactly the abstract queue; only between destroying the first
      element and stepping over it does the consumer leave a hole there. */
  lemma MemoryIsFifo<T>(s: State<T>, a: View)
    requires Inv(s, a)
    ensures InMemory(s) == CellsOf(Fifo(s), s.c.CStoreFront?)
  {
    hide Consistent, Images, Walk;
    RingFacts(MemoryOf(s), a.l);
    OrderFacts(MemoryOf(s), a.l);
    TakingOne(s, a);
    WalkImages(s, a, 0, |s.blocks|);
    ImagesAreCells(InMemory(s), s, s.c.CStoreFront?);
  }

  lemma TakingOne<T>(s: State<T>, a: View)
    requires Inv(s, a)
    ensures |a.l.v| == |s.blocks| && 0 <= s.frontBlock < |s.blocks|
    ensures Taking(s.c) == NULL || (Taking(s.c) == s.frontBlock && a.l.v[s.frontBlock].f < a.l.v[s.frontBlock].t)
    ensures s.c.CStoreFront? <==> s.frontBlock == Taking(s.c)
  {
    hide Consistent;
    RingFacts(MemoryOf(s), a.l);
    BlockFacts(MemoryOf(s), a.l, s.frontBlock);
  }

  lemma ImagesAreCells<T>(cells: seq<Cell<T>>, s: State<T>, taken: bool)
    requires InOrder(s) && |cells| == |s.sent| - |s.received| && Images(cells, Hist(s), |s.received|, taken)
    ensures cells == CellsOf(Fifo(s), taken)
  {
    forall i | 0 <= i < |cells| ensures cells[i] == CellsOf(Fifo(s), taken)[i] {
      assert Hist(s)[..|s.sent|] == s.sent;
      if !(i == 0 && taken) { assert cells[i] == Live(Hist(s)[|s.received| + i]); }
    }
  }
}
