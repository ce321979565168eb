/** Each step of `try_dequeue`, `pop` and `peek` keeps the memory consistent and arrives with
    the facts of its next position. */
module SpscConsumer {
  import opened Bits
  import opened SpscQueue
  import opened SpscInvariant
  import opened SpscEffects
  import opened SpscSafety

  ghost predicate Moves<T>(s: State<T>, a: View, s': State<T>, a': View) {
    && Core(s, a) && ConsumerOK(s, a) && InOrder(s)
    && !s.c.CIdle? && ConsumerSafe(s) && s' == ConsumerNext(s)
    && a'.l == ConsumerLayout(s, a.l) && (a.sawEmpty ==> a'.sawEmpty)
  }

  /** No block up to the tail block holds an element that is not yet sent. */
  lemma {:induction false} NoneBeyondSent<T>(m: Memory<T>, l: Layout, i: nat)
    requires Consistent(m, l) && i <= l.tp < |l.ring| && |l.v| == |m.blocks|
    requires forall j :: 0 <= j < |l.ring| ==> 0 <= l.ring[j] < |m.blocks|
    ensures l.v[l.ring[i]].off + l.v[l.ring[i]].t <= m.nsent
    decreases l.tp - i
  {
    hide Shape, AllIndices, Payload, Indices;
    if i < l.tp {
      NoneBeyondSent(m, l, i + 1);
      var b := l.ring[i + 1];
      BlockFacts(m, l, b);
      assert l.v[b].f <= l.v[b].t by { CountersOrdered(m.blocks[b], l.v[b]); }
    }
  }

  lemma CountersOrdered<T>(b: Block<T>, c: Counters)
    requires Indices(b, c)
    ensures c.lf <= c.f <= c.lt <= c.t
  {
  }

  lemma LoadsFront<T>(s: State<T>, a: View, s': State<T>, a': View)
    requires Moves(s, a, s', a') && (s.c.CLoadFrontBlock? || s.c.CLoadFront?)
    ensures Core(s', a') && ConsumerOK(s', a')
  {
    hide Consistent, InOrder;
    var m := MemoryOf(s);
    assert MemoryOf(s') == m;
    RingFacts(m, a.l);
    BlockFacts(m, a.l, s.frontBlock);
    EqualIndices(s.blocks[s.frontBlock], a.l.v[s.frontBlock]);
  }

  /** The instant the front block is seen empty: were it also the tail block, the queue
      would be empty. */
  lemma LoadsTail<T>(s: State<T>, a: View, s': State<T>, a': View)
    requires Moves(s, a, s', a') && s.c.CLoadTail?
    requires |s'.received| == |s'.sent| ==> a'.sawEmpty
    ensures Core(s', a') && ConsumerOK(s', a')
  {
    hide Consistent, InOrder;
    var m := MemoryOf(s);
    var fb := s.frontBlock;
    RingFacts(m, a.l);
    OrderFacts(m, a.l);
    BlockFacts(m, a.l, fb);
    EqualIndices(s.blocks[fb], a.l.v[fb]);
    ShadowRefreshed(m, a.l, fb, s'.blocks[fb], a'.l.v[fb]);
  }

  lemma LoadsTailBlock<T>(s: State<T>, a: View, s': State<T>, a': View)
    requires Moves(s, a, s', a') && (s.c.CLoadTailBlock? || s.c.CReloadFrontBlock?)
    ensures Core(s', a') && ConsumerOK(s', a')
  {
    hide Consistent, InOrder;
    var m := MemoryOf(s);
    assert MemoryOf(s') == m;
    RingFacts(m, a.l);
  }

  lemma ReloadsTail<T>(s: State<T>, a: View, s': State<T>, a': View)
    requires Moves(s, a, s', a') && s.c.CReloadTail?
    ensures Core(s', a') && ConsumerOK(s', a')
  {
    hide Consistent, InOrder;
    var m := MemoryOf(s);
    var fb := s.frontBlock;
    RingFacts(m, a.l);
    BlockFacts(m, a.l, fb);
    ShadowRefreshed(m, a.l, fb, s'.blocks[fb], a'.l.v[fb]);
  }

  lemma ReloadsFront<T>(s: State<T>, a: View, s': State<T>, a': View)
    requires Moves(s, a, s', a') && s.c.CReloadFront?
    ensures Core(s', a') && ConsumerOK(s', a')
  {
    hide Consistent, InOrder;
    var m := MemoryOf(s);
    var fb := s.frontBlock;
    assert MemoryOf(s') == m;
    RingFacts(m, a.l);
    BlockFacts(m, a.l, fb);
    EqualIndices(s.blocks[fb], a.l.v[fb]);
  }

  lemma LoadsNext<T>(s: State<T>, a: View, s': State<T>, a': View)
    requires Moves(s, a, s', a') && (s.c.CLoadNext? || s.c.CLoadNextFront?)
    ensures Core(s', a') && ConsumerOK(s', a')
  {
    hide Consistent, InOrder;
    var m := MemoryOf(s);
    assert MemoryOf(s') == m;
    RingFacts(m, a.l);
    NextFacts(m, a.l);
  }

  lemma LoadsNextTail<T>(s: State<T>, a: View, s': State<T>, a': View)
    requires Moves(s, a, s', a') && s.c.CLoadNextTail?
    ensures Core(s', a') && ConsumerOK(s', a')
  {
    hide Consistent, InOrder;
    var m := MemoryOf(s);
    var nb := s.c.nb;
    RingFacts(m, a.l);
    OrderFacts(m, a.l);
    if s.c.op.Peek? {
      assert MemoryOf(s') == m;
    } else {
      BlockFacts(m, a.l, nb);
      ShadowRefreshed(m, a.l, nb, s'.blocks[nb], a'.l.v[nb]);
    }
  }

  lemma StoresFrontBlock<T>(s: State<T>, a: View, s': State<T>, a': View)
    requires Moves(s, a, s', a') && s.c.CStoreFrontBlock?
    ensures Core(s', a') && ConsumerOK(s', a')
  {
    hide Consistent, InOrder;
    var m := MemoryOf(s);
    RingFacts(m, a.l);
    FrontAdvanced(m, a.l);
  }

  lemma Takes<T>(s: State<T>, a: View, s': State<T>, a': View)
    requires Moves(s, a, s', a') && s.c.CTake?
    ensures Core(s', a') && ConsumerOK(s', a')
  {
    hide Consistent, InOrder;
    var m := MemoryOf(s);
    var fb := s.frontBlock;
    RingFacts(m, a.l);
    OrderFacts(m, a.l);
    BlockFacts(m, a.l, fb);
    CountersOrdered(s.blocks[fb], a.l.v[fb]);
    if s.c.op.Peek? {
      assert MemoryOf(s') == m;
    } else {
      LiveAtFront(m, a.l, fb);
      NoneBeyondSent(m, a.l, 0);
      Taken(m, a.l);
    }
  }

  /** The value handed over is the oldest one sent and not yet received. */
  lemma StoresFront<T>(s: State<T>, a: View, s': State<T>, a': View)
    requires Moves(s, a, s', a') && s.c.CStoreFront?
    ensures Core(s', a') && ConsumerOK(s', a') && InOrder(s')
  {
    hide Consistent, Slot, IsPow2, And;
    var m := MemoryOf(s);
    var fb := s.frontBlock;
    RingFacts(m, a.l);
    BlockFacts(m, a.l, fb);
    SlotNext(a.l.v[fb].f, s.blocks[fb].sizeMask + 1);
    FrontStored(m, a.l, s'.blocks[fb]);
  }
}
