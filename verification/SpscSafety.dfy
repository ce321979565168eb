/** Under the invariant the next step of either thread is defined and its assertions hold. */
module SpscSafety {
  import opened Bits
  import opened SpscQueue
  import opened SpscInvariant
  import opened SpscEffects

  lemma DeadAtTail<T>(m: Memory<T>, l: Layout, b: Ptr)
    requires Consistent(m, l) && 0 <= b < |m.blocks| == |l.v|
    requires b != m.placing && l.v[b].t < l.v[b].f + m.blocks[b].sizeMask
    ensures m.blocks[b].tail < |m.blocks[b].data| && m.blocks[b].data[m.blocks[b].tail].Dead?
  {
    hide Shape, AllIndices, Payload, Order;
    BlockFacts(m, l, b);
    Cells(m, l, b);
  }

  lemma LiveAtFront<T>(m: Memory<T>, l: Layout, b: Ptr)
    requires Consistent(m, l) && 0 <= b < |m.blocks| == |l.v|
    requires b != m.taking && l.v[b].f < l.v[b].t
    ensures 0 <= l.v[b].off + l.v[b].f < |m.hist|
    ensures m.blocks[b].front < |m.blocks[b].data|
    ensures m.blocks[b].data[m.blocks[b].front] == Live(m.hist[l.v[b].off + l.v[b].f])
  {
    hide Shape, AllIndices, Payload, Order;
    BlockFacts(m, l, b);
    Cells(m, l, b);
  }

  lemma EqualIndices<T>(b: Block<T>, c: Counters)
    requires Indices(b, c)
    ensures b.front == b.tail <==> c.f == c.t
    ensures b.front == b.localTail <==> c.f == c.lt
  {
    var n := b.sizeMask + 1;
    if b.front == b.tail { SlotInjective(c.f, c.t, n); }
    if b.front == b.localTail { SlotInjective(c.f, c.lt, n); }
  }

  /** A masked tail one short of a masked front means a full lap. */
  lemma FullLap(x: nat, t: nat, n: nat)
    requires IsPow2(n) && x <= t < x + n
    ensures Advance(Slot(t, n), n - 1) == Slot(x, n) <==> t + 1 == x + n
  {
    SlotNext(t, n);
    SlotPeriod(x, n);
    if Slot(t + 1, n) == Slot(x, n) { SlotInjective(t + 1, x + n, n); }
  }

  lemma ProducerIsSafe<T>(s: State<T>, a: View)
    requires Core(s, a) && ProducerOK(s, a) && Sizes(s)
    ensures ProducerSafe(s) && ProducerAsserts(s)
  {
    hide Consistent;
    var m := MemoryOf(s);
    RingFacts(m, a.l);
    match s.p
    case PConstruct(_, tb, _, _) => BlockFacts(m, a.l, tb); DeadAtTail(m, a.l, tb);
    case PConstructNext(_, tbn, _) => OrderFacts(m, a.l); BlockFacts(m, a.l, tbn); DeadAtTail(m, a.l, tbn);
    case PConstructNew(_, _, nb) => BlockFacts(m, a.l, nb); DeadAtTail(m, a.l, nb);
    case PLoadNextTail(_, _, _) => NextIsEmpty(s, a);
    case PStoreNewTail(_, _, nb) => BlockFacts(m, a.l, nb);
    case _ =>
  }

  /** The block after the tail block, once it is known not to be the front block, is empty. */
  lemma NextIsEmpty<T>(s: State<T>, a: View)
    requires Core(s, a) && ProducerOK(s, a) && s.p.PLoadNextTail?
    ensures Valid(s, s.p.tbn) && s.p.nbf == s.blocks[s.p.tbn].tail
  {
    hide Consistent;
    var m := MemoryOf(s);
    RingFacts(m, a.l);
    OrderFacts(m, a.l);
    BlockFacts(m, a.l, s.p.tbn);
    EqualIndices(s.blocks[s.p.tbn], a.l.v[s.p.tbn]);
  }

  lemma ConsumerIsSafe<T>(s: State<T>, a: View)
    requires Core(s, a) && ConsumerOK(s, a)
    ensures ConsumerSafe(s) && ConsumerAsserts(s)
  {
    hide Consistent;
    var m := MemoryOf(s);
    RingFacts(m, a.l);
    match s.c
    case CTake(_, fb, _) => BlockFacts(m, a.l, fb); LiveAtFront(m, a.l, fb);
    case CLoadNextTail(_, nb, nbf) => OrderFacts(m, a.l); BlockFacts(m, a.l, nb); EqualIndices(s.blocks[nb], a.l.v[nb]);
    case _ =>
  }
}
