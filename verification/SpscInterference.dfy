/** Neither thread's steps disturb what the other relies on. */
module SpscInterference {
  import opened SpscQueue
  import opened SpscInvariant
  import opened SpscMemory
  import opened SpscEffects
  import P = SpscProducer
  import C = SpscConsumer

  /** Where the threads' blocks stand in the rings before and after a step. */
  lemma Rings<T>(s: State<T>, a: View, s': State<T>, a': View)
    requires Core(s, a) && Core(s', a')
    ensures InRange(s.blocks, a.l.v, a.l.ring, a.l.tp) && InRange(s'.blocks, a'.l.v, a'.l.ring, a'.l.tp)
    ensures |a.l.ring| == |s.blocks| - Unlinked(s.p) && forall i :: 0 <= i < |a.l.ring| ==> a.l.ring[i] < |a.l.ring|
    ensures |a'.l.ring| == |s'.blocks| - Unlinked(s'.p) && forall i :: 0 <= i < |a'.l.ring| ==> a'.l.ring[i] < |a'.l.ring|
    ensures a.l.ring[0] == s.frontBlock && a.l.ring[a.l.tp] == s.tailBlock
    ensures a'.l.ring[0] == s'.frontBlock && a'.l.ring[a'.l.tp] == s'.tailBlock
    ensures a.l.tp > 0 ==> s.frontBlock != s.tailBlock && a.l.ring[1] != s.frontBlock
    ensures a'.l.tp > 0 ==> s'.frontBlock != s'.tailBlock && a'.l.ring[1] != s'.frontBlock
    ensures a.l.tp + 1 < |a.l.ring| ==> a.l.ring[a.l.tp + 1] !in {s.frontBlock, s.tailBlock}
    ensures a'.l.tp + 1 < |a'.l.ring| ==> a'.l.ring[a'.l.tp + 1] !in {s'.frontBlock, s'.tailBlock}
    ensures a.l.tp > 0 && a.l.tp + 1 < |a.l.ring| ==> a.l.ring[a.l.tp + 1] !in {a.l.ring[0], a.l.ring[1]}
  {
    hide Consistent;
    RingFacts(MemoryOf(s), a.l);
    RingFacts(MemoryOf(s'), a'.l);
    SecondIsNotAhead(MemoryOf(s), a.l);
  }

  lemma SecondIsNotAhead<T>(m: Memory<T>, l: Layout)
    requires Consistent(m, l)
    ensures |l.ring| >= 1 && (l.tp > 0 && l.tp + 1 < |l.ring| ==> l.ring[l.tp + 1] !in {l.ring[0], l.ring[1]})
  {
    hide AllIndices, Payload, Order;
  }

  // ------------------------------------------------------------ the consumer's view

  /** What the consumer relies on: its block indices stand still, `tail` only grows, and once
      the tail block is ahead, the front block's `tail` and the next block stand still too. */
  ghost predicate HoldsForConsumer<T>(s: State<T>, a: View, s': State<T>, a': View)
    requires Core(s, a) && Core(s', a')
  {
    var fb, v, v' := s.frontBlock, a.l.v, a'.l.v;
    && s'.c == s.c && s'.frontBlock == fb && s'.received == s.received && s.sent <= s'.sent
    && s'.blocks[fb].front == s.blocks[fb].front && s'.blocks[fb].localTail == s.blocks[fb].localTail
    && v'[fb].f == v[fb].f && v'[fb].lt == v[fb].lt && v'[fb].t >= v[fb].t
    && (a.sawEmpty ==> a'.sawEmpty)
    && (a.l.tp > 0 ==>
          var nb := a.l.ring[1];
          && a'.l.tp > 0 && a'.l.ring[1] == nb
          && s'.blocks[fb].tail == s.blocks[fb].tail && v'[fb].t == v[fb].t
          && s'.blocks[nb].front == s.blocks[nb].front
          && v'[nb].f == v[nb].f && v'[nb].lt == v[nb].lt)
  }

  lemma ConsumerUndisturbed<T>(s: State<T>, a: View, s': State<T>, a': View)
    requires Core(s, a) && Core(s', a') && ConsumerOK(s, a) && HoldsForConsumer(s, a, s', a')
    ensures ConsumerOK(s', a')
  {
    hide Consistent;
    Rings(s, a, s', a');
  }

  lemma LoadsHold<T>(s: State<T>, a: View, ok: bool, s': State<T>, a': View)
    requires P.Moves(s, a, ok, s', a') && Core(s', a') && (a.sawEmpty ==> a'.sawEmpty)
    requires s.p.PLoadTailBlock? || s.p.PLoadTail? || s.p.PLoadNext? || s.p.PLoadFrontBlock? || s.p.PReloadNext? || s.p.PLoadNextTail?
    ensures HoldsForConsumer(s, a, s', a')
  {
    hide Consistent, Sizes;
    Rings(s, a, s', a');
  }

  lemma TailBlockWritesHold<T>(s: State<T>, a: View, ok: bool, s': State<T>, a': View)
    requires P.Moves(s, a, ok, s', a') && Core(s', a') && (a.sawEmpty ==> a'.sawEmpty)
    requires s.p.PLoadFront? || s.p.PConstruct? || s.p.PStoreTail? || s.p.PLinkNew?
    ensures HoldsForConsumer(s, a, s', a')
  {
    hide Consistent, Sizes;
    Rings(s, a, s', a');
  }

  lemma NextBlockWritesHold<T>(s: State<T>, a: View, ok: bool, s': State<T>, a': View)
    requires P.Moves(s, a, ok, s', a') && Core(s', a') && (a.sawEmpty ==> a'.sawEmpty)
    requires s.p.PLoadNextFront? || s.p.PConstructNext? || s.p.PStoreNextTail?
    ensures HoldsForConsumer(s, a, s', a')
  {
    hide Consistent, Sizes;
    Rings(s, a, s', a');
  }

  lemma NewBlockWritesHold<T>(s: State<T>, a: View, ok: bool, s': State<T>, a': View)
    requires P.Moves(s, a, ok, s', a') && Core(s', a') && (a.sawEmpty ==> a'.sawEmpty)
    requires s.p.PAllocate? || s.p.PConstructNew? || s.p.PStoreNewTail? || s.p.PSetNewNext?
    ensures HoldsForConsumer(s, a, s', a')
  {
    hide Consistent, Sizes;
    Rings(s, a, s', a');
  }

  lemma PublishingHolds<T>(s: State<T>, a: View, ok: bool, s': State<T>, a': View)
    requires P.Moves(s, a, ok, s', a') && Core(s', a') && (a.sawEmpty ==> a'.sawEmpty)
    requires s.p.PPublishNext? || s.p.PPublishNew?
    ensures HoldsForConsumer(s, a, s', a')
  {
    hide Consistent, Sizes;
    Rings(s, a, s', a');
  }

  lemma ProducerHolds<T>(s: State<T>, a: View, ok: bool, s': State<T>, a': View)
    requires P.Moves(s, a, ok, s', a') && Core(s', a') && (a.sawEmpty ==> a'.sawEmpty)
    ensures HoldsForConsumer(s, a, s', a')
  {
    hide Core, HoldsForConsumer;
    if s.p.PLoadFront? || s.p.PConstruct? || s.p.PStoreTail? || s.p.PLinkNew? { TailBlockWritesHold(s, a, ok, s', a'); }
    else if s.p.PLoadNextFront? || s.p.PConstructNext? || s.p.PStoreNextTail? { NextBlockWritesHold(s, a, ok, s', a'); }
    else if s.p.PAllocate? || s.p.PConstructNew? || s.p.PStoreNewTail? || s.p.PSetNewNext? { NewBlockWritesHold(s, a, ok, s', a'); }
    else if s.p.PPublishNext? || s.p.PPublishNew? { PublishingHolds(s, a, ok, s', a'); }
    else { LoadsHold(s, a, ok, s', a'); }
  }

  // ------------------------------------------------------------ the producer's view

  /** What the producer relies on: the tail block stands still while the consumer is in
      another block, and so do the block after it and the block being made. */
  ghost predicate HoldsForProducer<T>(s: State<T>, a: View, s': State<T>, a': View)
    requires Core(s, a) && Core(s', a')
  {
    var tb, v, v' := s.tailBlock, a.l.v, a'.l.v;
    && s'.p == s.p && s'.tailBlock == tb && s'.sent == s.sent && |s'.blocks| == |s.blocks|
    && s'.blocks[tb].localFront == s.blocks[tb].localFront && s'.blocks[tb].tail == s.blocks[tb].tail
    && s'.blocks[tb].sizeMask == s.blocks[tb].sizeMask && s'.blocks[tb].next == s.blocks[tb].next
    && v'[tb].lf == v[tb].lf && v'[tb].t == v[tb].t
    && (a'.l.tp > 0 ==> a.l.tp > 0 && v'[tb].f == v[tb].f)
    && (a.sawFull ==> a'.sawFull)
    && (a.l.tp + 1 < |a.l.ring| ==>
          var b := a.l.ring[a.l.tp + 1];
          && a'.l.tp + 1 < |a'.l.ring| && a'.l.ring[a'.l.tp + 1] == b
          && s'.blocks[b].front == s.blocks[b].front && s'.blocks[b].tail == s.blocks[b].tail && v'[b] == v[b])
    && (Unlinked(s.p) == 1 ==>
          var b := |s.blocks| - 1;
          s'.blocks[b] == s.blocks[b] && v'[b] == v[b])
  }

  lemma ProducerUndisturbed<T>(s: State<T>, a: View, s': State<T>, a': View)
    requires Core(s, a) && Core(s', a') && ProducerOK(s, a) && HoldsForProducer(s, a, s', a')
    ensures ProducerOK(s', a')
  {
    hide Consistent;
    Rings(s, a, s', a');
  }

  lemma ConsumerLoadsHold<T>(s: State<T>, a: View, s': State<T>, a': View)
    requires C.Moves(s, a, s', a') && Core(s', a') && (a.sawFull ==> a'.sawFull)
    requires s.c.CLoadFrontBlock? || s.c.CLoadFront? || s.c.CLoadTailBlock? || s.c.CReloadFrontBlock? || s.c.CReloadFront? || s.c.CLoadNext? || s.c.CLoadNextFront?
    ensures HoldsForProducer(s, a, s', a')
  {
    hide Consistent, InOrder;
    Rings(s, a, s', a');
  }

  lemma TailShadowsHold<T>(s: State<T>, a: View, s': State<T>, a': View)
    requires C.Moves(s, a, s', a') && Core(s', a') && (a.sawFull ==> a'.sawFull)
    requires s.c.CLoadTail? || s.c.CReloadTail?
    ensures HoldsForProducer(s, a, s', a')
  {
    hide Consistent, InOrder;
    Rings(s, a, s', a');
  }

  lemma NextTailShadowHolds<T>(s: State<T>, a: View, s': State<T>, a': View)
    requires C.Moves(s, a, s', a') && Core(s', a') && (a.sawFull ==> a'.sawFull)
    requires s.c.CLoadNextTail?
    ensures HoldsForProducer(s, a, s', a')
  {
    hide Consistent, InOrder;
    Rings(s, a, s', a');
  }

  lemma TakingHolds<T>(s: State<T>, a: View, s': State<T>, a': View)
    requires C.Moves(s, a, s', a') && Core(s', a') && (a.sawFull ==> a'.sawFull)
    requires s.c.CTake?
    ensures HoldsForProducer(s, a, s', a')
  {
    hide Consistent, InOrder;
    Rings(s, a, s', a');
  }

  lemma FrontStoreHolds<T>(s: State<T>, a: View, s': State<T>, a': View)
    requires C.Moves(s, a, s', a') && Core(s', a') && (a.sawFull ==> a'.sawFull)
    requires s.c.CStoreFront?
    ensures HoldsForProducer(s, a, s', a')
  {
    hide Consistent, InOrder;
    Rings(s, a, s', a');
  }

  lemma AdvancingHolds<T>(s: State<T>, a: View, s': State<T>, a': View)
    requires C.Moves(s, a, s', a') && Core(s', a') && (a.sawFull ==> a'.sawFull)
    requires s.c.CStoreFrontBlock?
    ensures HoldsForProducer(s, a, s', a')
  {
    hide Consistent, InOrder;
    Rings(s, a, s', a');
  }

  lemma ConsumerHolds<T>(s: State<T>, a: View, s': State<T>, a': View)
    requires C.Moves(s, a, s', a') && Core(s', a') && (a.sawFull ==> a'.sawFull)
    ensures HoldsForProducer(s, a, s', a')
  {
    hide Core, HoldsForProducer;
    if s.c.CLoadTail? || s.c.CReloadTail? { TailShadowsHold(s, a, s', a'); }
    else if s.c.CLoadNextTail? { NextTailShadowHolds(s, a, s', a'); }
    else if s.c.CTake? { TakingHolds(s, a, s', a'); }
    else if s.c.CStoreFront? { FrontStoreHolds(s, a, s', a'); }
    else if s.c.CStoreFrontBlock? { AdvancingHolds(s, a, s', a'); }
    else { ConsumerLoadsHold(s, a, s', a'); }
  }
}
