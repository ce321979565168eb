/** Each step of `inner_enqueue` keeps the memory consistent and arrives with the facts of
    its next position. */
module SpscProducer {
  import opened Bits
  import opened SpscQueue
  import opened SpscInvariant
  import opened SpscEffects
  import opened SpscSafety

  ghost predicate Moves<T>(s: State<T>, a: View, mallocOk: bool, s': State<T>, a': View) {
    && Core(s, a) && ProducerOK(s, a) && Sizes(s) && Taking(s.c) in {NULL, s.frontBlock}
    && !s.p.PIdle? && ProducerSafe(s) && s' == ProducerNext(s, mallocOk)
    && a'.l == ProducerLayout(s, a.l, mallocOk) && (a.sawFull ==> a'.sawFull)
  }

  // ------------------------------------------------------------ the tail block

  lemma LoadsTail<T>(s: State<T>, a: View, ok: bool, s': State<T>, a': View)
    requires Moves(s, a, ok, s', a') && (s.p.PLoadTailBlock? || s.p.PLoadTail?)
    ensures Core(s', a') && ProducerOK(s', a')
  {
    hide Consistent;
    var m := MemoryOf(s);
    assert MemoryOf(s') == m;
    if s.p.PLoadTail? {
      RingFacts(m, a.l);
      BlockFacts(m, a.l, s.tailBlock);
      var b, c := s.blocks[s.tailBlock], a.l.v[s.tailBlock];
      FullLap(c.lf, c.t, b.sizeMask + 1);
    }
  }

  lemma LoadsFront<T>(s: State<T>, a: View, ok: bool, s': State<T>, a': View)
    requires Moves(s, a, ok, s', a') && s.p.PLoadFront?
    requires s'.p.PLoadNext? && |s'.blocks| == 1 && AllButFrontFull(s') ==> a'.sawFull
    ensures Core(s', a') && ProducerOK(s', a')
  {
    hide Consistent, NoRoomAhead, Slot, IsPow2, And;
    var m := MemoryOf(s);
    var tb := s.tailBlock;
    RingFacts(m, a.l);
    BlockFacts(m, a.l, tb);
    var b, c := s.blocks[tb], a.l.v[tb];
    FullLap(c.f, c.t, b.sizeMask + 1);
    ShadowRefreshed(m, a.l, tb, s'.blocks[tb], a'.l.v[tb]);
    if s'.p.PLoadNext? && |s'.blocks| == 1 { OnlyBlockFull(s', a'.l); }
  }

  lemma Constructs<T>(s: State<T>, a: View, ok: bool, s': State<T>, a': View)
    requires Moves(s, a, ok, s', a') && s.p.PConstruct?
    ensures Core(s', a') && ProducerOK(s', a')
  {
    hide Consistent;
    var m := MemoryOf(s);
    var tb := s.tailBlock;
    RingFacts(m, a.l);
    OrderFacts(m, a.l);
    BlockFacts(m, a.l, tb);
    Placed(m, a.l, tb, s.p.x, a.l.v[tb].off);
    assert a.l.v[tb := a.l.v[tb].(off := a.l.v[tb].off)] == a.l.v;
  }

  lemma StoresTail<T>(s: State<T>, a: View, ok: bool, s': State<T>, a': View)
    requires Moves(s, a, ok, s', a') && s.p.PStoreTail?
    ensures Core(s', a') && ProducerOK(s', a')
  {
    hide Consistent;
    var m := MemoryOf(s);
    var tb := s.tailBlock;
    RingFacts(m, a.l);
    BlockFacts(m, a.l, tb);
    SlotNext(a.l.v[tb].t, s.blocks[tb].sizeMask + 1);
    TailStored(m, a.l, s'.blocks[tb]);
  }

  // ------------------------------------------------------------ the next block

  lemma LooksAhead<T>(s: State<T>, a: View, ok: bool, s': State<T>, a': View)
    requires Moves(s, a, ok, s', a') && (s.p.PLoadNext? || s.p.PLoadFrontBlock? || s.p.PReloadNext?)
    requires (s'.p.PAllocate? || s'.p.PIdle?) && AllButFrontFull(s') ==> a'.sawFull
    ensures Core(s', a') && ProducerOK(s', a')
  {
    hide Consistent, NoRoomAhead;
    var m := MemoryOf(s);
    RingFacts(m, a.l);
    NextFacts(m, a.l);
    assert MemoryOf(s') == m;
    if (s'.p.PAllocate? || s'.p.PIdle?) && |s.blocks| > 1 { RoomUsedUp(s, a); }
  }

  lemma LoadsNextFront<T>(s: State<T>, a: View, ok: bool, s': State<T>, a': View)
    requires Moves(s, a, ok, s', a') && s.p.PLoadNextFront?
    ensures Core(s', a') && ProducerOK(s', a')
  {
    hide Consistent;
    var m := MemoryOf(s);
    var b := s.p.tbn;
    RingFacts(m, a.l);
    BlockFacts(m, a.l, b);
    ShadowRefreshed(m, a.l, b, s'.blocks[b], a'.l.v[b]);
  }

  lemma LoadsNextTail<T>(s: State<T>, a: View, ok: bool, s': State<T>, a': View)
    requires Moves(s, a, ok, s', a') && s.p.PLoadNextTail?
    ensures Core(s', a') && ProducerOK(s', a')
  {
    hide Consistent;
    var m := MemoryOf(s);
    var b := s.p.tbn;
    RingFacts(m, a.l);
    BlockFacts(m, a.l, b);
    assert s'.blocks[b] == s.blocks[b] && s'.blocks == s.blocks;
    assert MemoryOf(s') == m;
  }

  lemma ConstructsNext<T>(s: State<T>, a: View, ok: bool, s': State<T>, a': View)
    requires Moves(s, a, ok, s', a') && s.p.PConstructNext?
    ensures Core(s', a') && ProducerOK(s', a')
  {
    hide Consistent;
    var m := MemoryOf(s);
    var b := s.p.tbn;
    RingFacts(m, a.l);
    OrderFacts(m, a.l);
    BlockFacts(m, a.l, b);
    Placed(m, a.l, b, s.p.x, |s.sent| - a.l.v[b].t);
  }

  lemma StoresNextTail<T>(s: State<T>, a: View, ok: bool, s': State<T>, a': View)
    requires Moves(s, a, ok, s', a') && s.p.PStoreNextTail?
    ensures Core(s', a') && ProducerOK(s', a')
  {
    hide Consistent, Slot, IsPow2, And;
    var m := MemoryOf(s);
    var b := s.p.tbn;
    RingFacts(m, a.l);
    OrderFacts(m, a.l);
    BlockFacts(m, a.l, b);
    SlotNext(a.l.v[b].t, s.blocks[b].sizeMask + 1);
    NextTailStored(m, a.l, b, s'.blocks[b]);
  }

  lemma Publishes<T>(s: State<T>, a: View, ok: bool, s': State<T>, a': View)
    requires Moves(s, a, ok, s', a') && (s.p.PPublishNext? || s.p.PPublishNew?)
    ensures Core(s', a') && ProducerOK(s', a')
  {
    hide Consistent;
    var m := MemoryOf(s);
    RingFacts(m, a.l);
    Published(m, a.l);
  }

  // ------------------------------------------------------------ a new block

  lemma Allocates<T>(s: State<T>, a: View, ok: bool, s': State<T>, a': View)
    requires Moves(s, a, ok, s', a') && s.p.PAllocate?
    ensures Core(s', a') && ProducerOK(s', a')
  {
    hide Consistent;
    var m := MemoryOf(s);
    if ok {
      RingFacts(m, a.l);
      NewSize(s);
      Allocated(m, a.l, NewBlockSize(s));
    } else {
      assert MemoryOf(s') == m;
    }
  }

  lemma ConstructsNew<T>(s: State<T>, a: View, ok: bool, s': State<T>, a': View)
    requires Moves(s, a, ok, s', a') && s.p.PConstructNew?
    ensures Core(s', a') && ProducerOK(s', a')
  {
    hide Consistent;
    var m := MemoryOf(s);
    var b := s.p.nb;
    RingFacts(m, a.l);
    BlockFacts(m, a.l, b);
    Placed(m, a.l, b, s.p.x, |s.sent|);
  }

  lemma FillsNew<T>(s: State<T>, a: View, ok: bool, s': State<T>, a': View)
    requires Moves(s, a, ok, s', a') && (s.p.PStoreNewTail? || s.p.PSetNewNext?)
    ensures Core(s', a') && ProducerOK(s', a')
  {
    hide Consistent;
    var m := MemoryOf(s);
    var b := s.p.nb;
    RingFacts(m, a.l);
    BlockFacts(m, a.l, b);
    assert a.l.v[b := a.l.v[b]] == a.l.v;
    UnlinkedSet(m, a.l, s'.blocks[b], a'.l.v[b], NULL);
  }

  lemma Links<T>(s: State<T>, a: View, ok: bool, s': State<T>, a': View)
    requires Moves(s, a, ok, s', a') && s.p.PLinkNew?
    ensures Core(s', a') && ProducerOK(s', a')
  {
    hide Consistent;
    var m := MemoryOf(s);
    RingFacts(m, a.l);
    Linked(m, a.l);
  }

  // ------------------------------------------------------------ no room ahead

  lemma OccupiedIs<T>(b: Block<T>, c: Counters, largest: nat)
    requires Indices(b, c) && b.sizeMask + 1 <= largest <= HALF_WORD
    ensures b.front < WORD && b.tail < WORD && Occupied(b) == c.t - c.f
  {
    MaskedDistance(c.f, c.t, b.sizeMask + 1);
  }

  lemma OnlyBlockFull<T>(s: State<T>, l: Layout)
    requires Consistent(MemoryOf(s), l) && Sizes(s) && |s.blocks| == 1 && Unlinked(s.p) == 0 && !Pending(s.p)
    requires |l.v| == 1 && l.v[0].t == l.v[0].f + s.blocks[0].sizeMask
    ensures AllButFrontFull(s)
  {
    hide Consistent, Occupied;
    BlockFacts(MemoryOf(s), l, 0);
    OccupiedIs(s.blocks[0], l.v[0], s.largestBlockSize);
  }

  /** The tail block is full and the block after it is the front block. */
  lemma RoomUsedUp<T>(s: State<T>, a: View)
    requires Core(s, a) && Sizes(s) && |s.blocks| > 1 && Unlinked(s.p) == 0 && !Pending(s.p)
    requires TailFull(s, a) && a.l.tp + 1 == |a.l.ring|
    ensures AllButFrontFull(s)
  {
    hide Consistent, Occupied;
    var m := MemoryOf(s);
    RingFacts(m, a.l);
    forall b | 0 <= b < |s.blocks| && b != s.frontBlock
      ensures s.blocks[b].front < WORD && s.blocks[b].tail < WORD && Occupied(s.blocks[b]) == s.blocks[b].sizeMask
    {
      BlockFacts(m, a.l, b);
      FullBehindFront(m, a.l, b);
      OccupiedIs(s.blocks[b], a.l.v[b], s.largestBlockSize);
    }
  }

  lemma FullBehindFront<T>(m: Memory<T>, l: Layout, b: Ptr)
    requires Consistent(m, l) && |l.v| == |m.blocks| == m.linked && l.tp + 1 == |l.ring|
    requires 0 <= m.tailBlock < |m.blocks| && 0 <= b < |m.blocks| && b != m.frontBlock
    requires l.tp > 0 ==> l.v[m.tailBlock].t == l.v[m.tailBlock].f + m.blocks[m.tailBlock].sizeMask
    ensures l.v[b].t == l.v[b].f + m.blocks[b].sizeMask
  {
    hide AllIndices, Payload;
    assert b in l.ring;
    var i :| 0 <= i < |l.ring| && l.ring[i] == b;
    assert i > 0;
  }
}
