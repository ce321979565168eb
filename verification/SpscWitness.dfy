/** Runs that matter: the race that the second look at the front block is there for, and what
    goes wrong in a queue built for a size that the constructor cannot serve. Each step is
    spelled out with the variables it changes. */
module SpscWitness {
  import opened Bits
  import opened Rounding
  import opened SpscQueue
  import opened SpscRuns
  import opened SpscTheorems

  /** A run so far, and where it is. */
  datatype Journey = Journey(tr: seq<State<int>>, acts: seq<Action<int>>, s: State<int>)

  ghost predicate Travels(j: Journey, size: nat, maxBlockSize: nat)
    requires maxBlockSize >= 2
  {
    IsRun(j.tr, j.acts, size, maxBlockSize) && j.tr[|j.tr| - 1] == j.s
  }

  lemma Step(j: Journey, size: nat, maxBlockSize: nat, act: Action<int>, s: State<int>) returns (j': Journey)
    requires maxBlockSize >= 2 && Travels(j, size, maxBlockSize) && Can(j.s, act) && s == Do(j.s, act)
    ensures Travels(j', size, maxBlockSize) && j'.s == s
  {
    hide Can, Do, InitialState;
    j' := Journey(j.tr + [s], j.acts + [act], s);
  }

  function B(front: nat, localTail: nat, tail: nat, localFront: nat, next: Ptr, data: seq<Cell<int>>): Block<int>
    requires |data| >= 1
  {
    Block(front, localTail, tail, localFront, next, data, |data| - 1)
  }

  lemma Wraps(m: nat)
    requires m <= 1
    ensures forall i: nat :: i <= m ==> Advance(i, m) == if i == m then 0 else i + 1
  {
    forall i: nat | i <= m ensures Advance(i, m) == if i == m then 0 else i + 1 { AdvanceWraps(i, m); }
  }

  lemma TwoRaw()
    ensures MakeBlock<int>(2) == B(0, 0, 0, 0, NULL, [Dead, Dead])
  {
  }

  lemma TwoCells(x: Cell<int>, y: Cell<int>, c: Cell<int>)
    ensures [x, y][0 := c] == [c, y] && [x, y][1 := c] == [x, c]
  {
  }

  // ------------------------------------------------------------ stretches of a producer call

  /** A call that finds the tail block full, its copy of `front` being up to date. */
  lemma SeesTailFull(j0: Journey, size: nat, maxBlockSize: nat, x: int) returns (j: Journey)
    requires maxBlockSize >= 2 && Travels(j0, size, maxBlockSize) && j0.s.p.PIdle? && Valid(j0.s, j0.s.tailBlock)
    requires var b := j0.s.blocks[j0.s.tailBlock]; Advance(b.tail, b.sizeMask) == b.localFront == b.front
    ensures Travels(j, size, maxBlockSize) && j.s == j0.s.(p := PLoadNext(x, CanAlloc, j0.s.tailBlock))
  {
    hide Travels, Advance;
    var tb := j0.s.tailBlock;
    var b := j0.s.blocks[tb];
    j := Step(j0, size, maxBlockSize, Enqueue(x, CanAlloc), j0.s.(p := PLoadTailBlock(x, CanAlloc)));
    j := Step(j, size, maxBlockSize, ProducerStep(true), j0.s.(p := PLoadTail(x, CanAlloc, tb, b.localFront)));
    j := Step(j, size, maxBlockSize, ProducerStep(true), j0.s.(p := PLoadFront(x, CanAlloc, tb, b.tail, b.front)));
    assert j0.s.blocks[tb := b] == j0.s.blocks;
    j := Step(j, size, maxBlockSize, ProducerStep(true), j0.s.(p := PLoadNext(x, CanAlloc, tb)));
  }

  /** A call that finds room only after it has refreshed its copy of `front`. */
  lemma RefreshesFront(j0: Journey, size: nat, maxBlockSize: nat, x: int) returns (j: Journey)
    requires maxBlockSize >= 2 && Travels(j0, size, maxBlockSize) && j0.s.p.PIdle? && Valid(j0.s, j0.s.tailBlock)
    requires var b := j0.s.blocks[j0.s.tailBlock]; Advance(b.tail, b.sizeMask) == b.localFront != b.front
    ensures Travels(j, size, maxBlockSize)
    ensures var tb, b := j0.s.tailBlock, j0.s.blocks[j0.s.tailBlock];
      j.s == Put(j0.s, tb, b.(localFront := b.front)).(p := PConstruct(x, tb, b.tail, b.localFront))
  {
    hide Travels, Advance;
    var tb := j0.s.tailBlock;
    var b := j0.s.blocks[tb];
    j := Step(j0, size, maxBlockSize, Enqueue(x, CanAlloc), j0.s.(p := PLoadTailBlock(x, CanAlloc)));
    j := Step(j, size, maxBlockSize, ProducerStep(true), j0.s.(p := PLoadTail(x, CanAlloc, tb, b.localFront)));
    j := Step(j, size, maxBlockSize, ProducerStep(true), j0.s.(p := PLoadFront(x, CanAlloc, tb, b.tail, b.localFront)));
    j := Step(j, size, maxBlockSize, ProducerStep(true), Put(j0.s, tb, b.(localFront := b.front)).(p := PConstruct(x, tb, b.tail, b.localFront)));
  }

  /** A call that finds room at once. */
  lemma SeesRoom(j0: Journey, size: nat, maxBlockSize: nat, x: int) returns (j: Journey)
    requires maxBlockSize >= 2 && Travels(j0, size, maxBlockSize) && j0.s.p.PIdle? && Valid(j0.s, j0.s.tailBlock)
    requires var b := j0.s.blocks[j0.s.tailBlock]; Advance(b.tail, b.sizeMask) != b.localFront
    ensures Travels(j, size, maxBlockSize)
    ensures var tb, b := j0.s.tailBlock, j0.s.blocks[j0.s.tailBlock];
      j.s == j0.s.(p := PConstruct(x, tb, b.tail, Advance(b.tail, b.sizeMask)))
  {
    hide Travels, Advance;
    var tb := j0.s.tailBlock;
    var b := j0.s.blocks[tb];
    j := Step(j0, size, maxBlockSize, Enqueue(x, CanAlloc), j0.s.(p := PLoadTailBlock(x, CanAlloc)));
    j := Step(j, size, maxBlockSize, ProducerStep(true), j0.s.(p := PLoadTail(x, CanAlloc, tb, b.localFront)));
    j := Step(j, size, maxBlockSize, ProducerStep(true), j0.s.(p := PConstruct(x, tb, b.tail, Advance(b.tail, b.sizeMask))));
  }

  lemma PutsInTail(j0: Journey, size: nat, maxBlockSize: nat, b: Block<int>) returns (j: Journey)
    requires maxBlockSize >= 2 && Travels(j0, size, maxBlockSize) && j0.s.p.PConstruct?
    requires ValidCell(j0.s, j0.s.p.tb, j0.s.p.bt) && j0.s.blocks[j0.s.p.tb].data[j0.s.p.bt].Dead?
    requires b == j0.s.blocks[j0.s.p.tb].(data := j0.s.blocks[j0.s.p.tb].data[j0.s.p.bt := Live(j0.s.p.x)])
    ensures Travels(j, size, maxBlockSize)
    ensures j.s == j0.s.(blocks := j0.s.blocks[j0.s.p.tb := b.(tail := j0.s.p.nbt)], p := PIdle(Enqueued), sent := j0.s.sent + [j0.s.p.x])
  {
    hide Travels;
    var x, tb, nbt := j0.s.p.x, j0.s.p.tb, j0.s.p.nbt;
    j := Step(j0, size, maxBlockSize, ProducerStep(true), j0.s.(blocks := j0.s.blocks[tb := b], p := PStoreTail(x, tb, nbt)));
    var done := j0.s.blocks[tb := b.(tail := nbt)];
    assert j.s.blocks[tb := b.(tail := nbt)] == done;
    j := Step(j, size, maxBlockSize, ProducerStep(true), j0.s.(blocks := done, p := PIdle(Enqueued), sent := j0.s.sent + [x]));
  }

  /** The next block is the front block. */
  lemma WantsBlock(j0: Journey, size: nat, maxBlockSize: nat, x: int, tb: Ptr) returns (j: Journey)
    requires maxBlockSize >= 2 && Travels(j0, size, maxBlockSize) && j0.s.p == PLoadNext(x, CanAlloc, tb) && Valid(j0.s, tb)
    requires j0.s.blocks[tb].next == j0.s.frontBlock
    ensures Travels(j, size, maxBlockSize) && j.s == j0.s.(p := PAllocate(x, tb))
  {
    hide Travels;
    j := Step(j0, size, maxBlockSize, ProducerStep(true), j0.s.(p := PLoadFrontBlock(x, CanAlloc, tb, j0.s.frontBlock)));
    j := Step(j, size, maxBlockSize, ProducerStep(true), j0.s.(p := PAllocate(x, tb)));
  }

  lemma MakesPair(j0: Journey, size: nat, maxBlockSize: nat, x: int, tb: Ptr) returns (j: Journey)
    requires maxBlockSize >= 2 && Travels(j0, size, maxBlockSize) && j0.s.p == PAllocate(x, tb) && NewBlockSize(j0.s) == 2
    ensures Travels(j, size, maxBlockSize)
    ensures j.s == j0.s.(blocks := j0.s.blocks + [B(0, 1, 1, 0, NULL, [Live(x), Dead])], largestBlockSize := 2, p := PSetNewNext(x, tb, |j0.s.blocks|))
  {
    hide Travels, MakeBlock;
    TwoRaw();
    TwoCells(Dead, Dead, Live(x));
    var nb, s := |j0.s.blocks|, j0.s.(largestBlockSize := 2);
    var b0, b1, b2 := B(0, 0, 0, 0, NULL, [Dead, Dead]), B(0, 0, 0, 0, NULL, [Live(x), Dead]), B(0, 1, 1, 0, NULL, [Live(x), Dead]);
    j := Step(j0, size, maxBlockSize, ProducerStep(true), s.(blocks := s.blocks + [b0], p := PConstructNew(x, tb, nb)));
    assert (s.blocks + [b0])[nb := b1] == s.blocks + [b1];
    j := Step(j, size, maxBlockSize, ProducerStep(true), s.(blocks := s.blocks + [b1], p := PStoreNewTail(x, tb, nb)));
    assert (s.blocks + [b1])[nb := b2] == s.blocks + [b2];
    j := Step(j, size, maxBlockSize, ProducerStep(true), s.(blocks := s.blocks + [b2], p := PSetNewNext(x, tb, nb)));
  }

  lemma LinksPair(j0: Journey, size: nat, maxBlockSize: nat, x: int, tb: Ptr, nb: Ptr) returns (j: Journey)
    requires maxBlockSize >= 2 && Travels(j0, size, maxBlockSize) && j0.s.p == PSetNewNext(x, tb, nb)
    requires Valid(j0.s, tb) && Valid(j0.s, nb) && tb != nb
    ensures Travels(j, size, maxBlockSize)
    ensures var bs := j0.s.blocks;
      j.s == j0.s.(blocks := bs[nb := bs[nb].(next := bs[tb].next)][tb := bs[tb].(next := nb)], tailBlock := nb,
                   p := PIdle(Enqueued), sent := j0.s.sent + [x])
  {
    hide Travels;
    var bs := j0.s.blocks;
    var bs1 := bs[nb := bs[nb].(next := bs[tb].next)];
    var bs2 := bs1[tb := bs[tb].(next := nb)];
    j := Step(j0, size, maxBlockSize, ProducerStep(true), j0.s.(blocks := bs1, p := PLinkNew(x, tb, nb)));
    j := Step(j, size, maxBlockSize, ProducerStep(true), j0.s.(blocks := bs2, p := PPublishNew(x, nb)));
    j := Step(j, size, maxBlockSize, ProducerStep(true), j0.s.(blocks := bs2, tailBlock := nb, p := PIdle(Enqueued), sent := j0.s.sent + [x]));
  }

  /** The next block is free. */
  lemma FindsFreeBlock(j0: Journey, size: nat, maxBlockSize: nat, x: int, tb: Ptr, tbn: Ptr) returns (j: Journey)
    requires maxBlockSize >= 2 && Travels(j0, size, maxBlockSize) && j0.s.p == PLoadNext(x, CanAlloc, tb) && Valid(j0.s, tb)
    requires j0.s.blocks[tb].next == tbn != j0.s.frontBlock
    ensures Travels(j, size, maxBlockSize) && j.s == j0.s.(p := PLoadNextFront(x, tbn))
  {
    hide Travels;
    j := Step(j0, size, maxBlockSize, ProducerStep(true), j0.s.(p := PLoadFrontBlock(x, CanAlloc, tb, tbn)));
    j := Step(j, size, maxBlockSize, ProducerStep(true), j0.s.(p := PReloadNext(x, tb)));
    j := Step(j, size, maxBlockSize, ProducerStep(true), j0.s.(p := PLoadNextFront(x, tbn)));
  }

  lemma FillsFreeBlock(j0: Journey, size: nat, maxBlockSize: nat, x: int, tbn: Ptr, b: Block<int>) returns (j: Journey)
    requires maxBlockSize >= 2 && Travels(j0, size, maxBlockSize) && j0.s.p == PLoadNextFront(x, tbn) && Valid(j0.s, tbn)
    requires var c := j0.s.blocks[tbn];
      && c.localFront == c.front && c.tail < |c.data| && c.data[c.tail].Dead?
      && b == c.(data := c.data[c.tail := Live(x)])
    ensures Travels(j, size, maxBlockSize)
    ensures j.s == j0.s.(blocks := j0.s.blocks[tbn := b], p := PStoreNextTail(x, tbn, j0.s.blocks[tbn].tail))
  {
    hide Travels;
    var c := j0.s.blocks[tbn];
    assert j0.s.blocks[tbn := c] == j0.s.blocks;
    j := Step(j0, size, maxBlockSize, ProducerStep(true), j0.s.(p := PLoadNextTail(x, tbn, c.front)));
    j := Step(j, size, maxBlockSize, ProducerStep(true), j0.s.(p := PConstructNext(x, tbn, c.tail)));
    j := Step(j, size, maxBlockSize, ProducerStep(true), j0.s.(blocks := j0.s.blocks[tbn := b], p := PStoreNextTail(x, tbn, c.tail)));
  }

  lemma PublishesFreeBlock(j0: Journey, size: nat, maxBlockSize: nat, x: int, tbn: Ptr, nbt: nat) returns (j: Journey)
    requires maxBlockSize >= 2 && Travels(j0, size, maxBlockSize) && j0.s.p == PStoreNextTail(x, tbn, nbt) && Valid(j0.s, tbn)
    ensures Travels(j, size, maxBlockSize)
    ensures var b := j0.s.blocks[tbn];
      j.s == j0.s.(blocks := j0.s.blocks[tbn := b.(tail := Advance(nbt, b.sizeMask))], tailBlock := tbn, p := PIdle(Enqueued), sent := j0.s.sent + [x])
  {
    hide Travels, Advance;
    var b := j0.s.blocks[tbn];
    var bs := j0.s.blocks[tbn := b.(tail := Advance(nbt, b.sizeMask))];
    j := Step(j0, size, maxBlockSize, ProducerStep(true), j0.s.(blocks := bs, p := PPublishNext(x, tbn)));
    j := Step(j, size, maxBlockSize, ProducerStep(true), j0.s.(blocks := bs, tailBlock := tbn, p := PIdle(Enqueued), sent := j0.s.sent + [x]));
  }

  // ------------------------------------------------------------ stretches of a consumer call

  /** A call that finds the front block empty. */
  lemma SeesFrontEmpty(j0: Journey, size: nat, maxBlockSize: nat) returns (j: Journey)
    requires maxBlockSize >= 2 && Travels(j0, size, maxBlockSize) && j0.s.c.CIdle? && Valid(j0.s, j0.s.frontBlock)
    requires var b := j0.s.blocks[j0.s.frontBlock]; b.front == b.localTail == b.tail
    ensures Travels(j, size, maxBlockSize) && j.s == j0.s.(c := CLoadTailBlock(TryDequeue, j0.s.frontBlock))
  {
    hide Travels;
    var fb := j0.s.frontBlock;
    var b := j0.s.blocks[fb];
    j := Step(j0, size, maxBlockSize, Dequeue(TryDequeue), j0.s.(c := CLoadFrontBlock(TryDequeue)));
    j := Step(j, size, maxBlockSize, ConsumerStep, j0.s.(c := CLoadFront(TryDequeue, fb, b.localTail)));
    j := Step(j, size, maxBlockSize, ConsumerStep, j0.s.(c := CLoadTail(TryDequeue, fb, b.front)));
    assert j0.s.blocks[fb := b] == j0.s.blocks;
    j := Step(j, size, maxBlockSize, ConsumerStep, j0.s.(c := CLoadTailBlock(TryDequeue, fb)));
  }

  /** A call that finds an element only after it has refreshed its copy of `tail`. */
  lemma RefreshesTail(j0: Journey, size: nat, maxBlockSize: nat) returns (j: Journey)
    requires maxBlockSize >= 2 && Travels(j0, size, maxBlockSize) && j0.s.c.CIdle? && Valid(j0.s, j0.s.frontBlock)
    requires var b := j0.s.blocks[j0.s.frontBlock]; b.front == b.localTail != b.tail
    ensures Travels(j, size, maxBlockSize)
    ensures var fb, b := j0.s.frontBlock, j0.s.blocks[j0.s.frontBlock];
      j.s == Put(j0.s, fb, b.(localTail := b.tail)).(c := CTake(TryDequeue, fb, b.front))
  {
    hide Travels;
    var fb := j0.s.frontBlock;
    var b := j0.s.blocks[fb];
    j := Step(j0, size, maxBlockSize, Dequeue(TryDequeue), j0.s.(c := CLoadFrontBlock(TryDequeue)));
    j := Step(j, size, maxBlockSize, ConsumerStep, j0.s.(c := CLoadFront(TryDequeue, fb, b.localTail)));
    j := Step(j, size, maxBlockSize, ConsumerStep, j0.s.(c := CLoadTail(TryDequeue, fb, b.front)));
    j := Step(j, size, maxBlockSize, ConsumerStep, Put(j0.s, fb, b.(localTail := b.tail)).(c := CTake(TryDequeue, fb, b.front)));
  }

  /** The second look finds the front block empty again. */
  lemma LooksAgain(j0: Journey, size: nat, maxBlockSize: nat, fb: Ptr) returns (j: Journey)
    requires maxBlockSize >= 2 && Travels(j0, size, maxBlockSize) && j0.s.c == CLoadTailBlock(TryDequeue, fb)
    requires Valid(j0.s, fb) && fb == j0.s.frontBlock != j0.s.tailBlock
    requires var b := j0.s.blocks[fb]; b.front == b.localTail == b.tail
    ensures Travels(j, size, maxBlockSize) && j.s == j0.s.(c := CLoadNext(TryDequeue, fb))
  {
    hide Travels;
    var b := j0.s.blocks[fb];
    j := Step(j0, size, maxBlockSize, ConsumerStep, j0.s.(c := CReloadFrontBlock(TryDequeue)));
    j := Step(j, size, maxBlockSize, ConsumerStep, j0.s.(c := CReloadTail(TryDequeue, fb)));
    assert j0.s.blocks[fb := b] == j0.s.blocks;
    j := Step(j, size, maxBlockSize, ConsumerStep, j0.s.(c := CReloadFront(TryDequeue, fb, b.tail)));
    j := Step(j, size, maxBlockSize, ConsumerStep, j0.s.(c := CLoadNext(TryDequeue, fb)));
  }

  lemma ReadsNext(j0: Journey, size: nat, maxBlockSize: nat, fb: Ptr, nb: Ptr) returns (j: Journey)
    requires maxBlockSize >= 2 && Travels(j0, size, maxBlockSize) && j0.s.c == CLoadNext(TryDequeue, fb)
    requires Valid(j0.s, fb) && Valid(j0.s, nb) && j0.s.blocks[fb].next == nb
    ensures Travels(j, size, maxBlockSize) && j.s == j0.s.(c := CLoadNextTail(TryDequeue, nb, j0.s.blocks[nb].front))
  {
    hide Travels;
    j := Step(j0, size, maxBlockSize, ConsumerStep, j0.s.(c := CLoadNextFront(TryDequeue, nb)));
    j := Step(j, size, maxBlockSize, ConsumerStep, j0.s.(c := CLoadNextTail(TryDequeue, nb, j0.s.blocks[nb].front)));
  }

  lemma MovesOn(j0: Journey, size: nat, maxBlockSize: nat, nb: Ptr, nbf: nat) returns (j: Journey)
    requires maxBlockSize >= 2 && Travels(j0, size, maxBlockSize) && j0.s.c == CLoadNextTail(TryDequeue, nb, nbf)
    requires Valid(j0.s, nb) && j0.s.blocks[nb].localTail == j0.s.blocks[nb].tail
    ensures Travels(j, size, maxBlockSize) && j.s == j0.s.(frontBlock := nb, c := CTake(TryDequeue, nb, nbf))
  {
    hide Travels;
    assert j0.s.blocks[nb := j0.s.blocks[nb]] == j0.s.blocks;
    j := Step(j0, size, maxBlockSize, ConsumerStep, j0.s.(c := CStoreFrontBlock(TryDequeue, nb, nbf)));
    j := Step(j, size, maxBlockSize, ConsumerStep, j0.s.(frontBlock := nb, c := CTake(TryDequeue, nb, nbf)));
  }

  lemma Takes(j0: Journey, size: nat, maxBlockSize: nat, v: int, b: Block<int>) returns (j: Journey)
    requires maxBlockSize >= 2 && Travels(j0, size, maxBlockSize) && j0.s.c.CTake? && j0.s.c.op == TryDequeue
    requires ValidCell(j0.s, j0.s.c.fb, j0.s.c.bf) && j0.s.blocks[j0.s.c.fb].data[j0.s.c.bf] == Live(v)
    requires b == j0.s.blocks[j0.s.c.fb].(data := j0.s.blocks[j0.s.c.fb].data[j0.s.c.bf := Dead])
    ensures Travels(j, size, maxBlockSize)
    ensures j.s == j0.s.(blocks := j0.s.blocks[j0.s.c.fb := b.(front := Advance(j0.s.c.bf, b.sizeMask))], c := CIdle(Took(v)), received := j0.s.received + [v])
  {
    hide Travels, Advance;
    var fb, bf := j0.s.c.fb, j0.s.c.bf;
    j := Step(j0, size, maxBlockSize, ConsumerStep, j0.s.(blocks := j0.s.blocks[fb := b], c := CStoreFront(TryDequeue, fb, bf, v)));
    var done := j0.s.blocks[fb := b.(front := Advance(bf, b.sizeMask))];
    assert j.s.blocks[fb := b.(front := Advance(bf, b.sizeMask))] == done;
    j := Step(j, size, maxBlockSize, ConsumerStep, j0.s.(blocks := done, c := CIdle(Took(v)), received := j0.s.received + [v]));
  }

  // ------------------------------------------------------------ a queue built for size 0

  function After0(maxBlockSize: nat): State<int> {
    State([B(0, 0, 0, 0, 0, [Dead])], 0, 0, 1, maxBlockSize, PIdle(NeverCalled), CIdle(NothingYet), [], [])
  }

  function After1(maxBlockSize: nat): State<int> {
    State([B(0, 0, 0, 0, 1, [Dead]), B(0, 1, 1, 0, 0, [Live(1), Dead])], 0, 1, 2, maxBlockSize, PIdle(Enqueued), CIdle(NothingYet), [1], [])
  }

  function After2(maxBlockSize: nat): State<int> {
    State([B(0, 0, 0, 0, 1, [Dead]), B(1, 1, 1, 0, 0, [Dead, Dead])], 1, 1, 2, maxBlockSize, PIdle(Enqueued), CIdle(Took(1)), [1], [1])
  }

  function After3(maxBlockSize: nat): State<int> {
    State([B(0, 0, 0, 0, 1, [Dead]), B(1, 1, 0, 1, 0, [Dead, Live(2)])], 1, 1, 2, maxBlockSize, PIdle(Enqueued), CIdle(Took(1)), [1, 2], [1])
  }

  function After4(maxBlockSize: nat): State<int> {
    State([B(0, 0, 0, 0, 1, [Live(3)]), B(1, 1, 0, 1, 0, [Dead, Live(2)])], 1, 0, 2, maxBlockSize, PIdle(Enqueued), CIdle(Took(1)), [1, 2, 3], [1])
  }

  function After5(maxBlockSize: nat): State<int> {
    State([B(0, 0, 0, 0, 1, [Live(3)]), B(0, 0, 0, 1, 0, [Dead, Dead])], 1, 0, 2, maxBlockSize, PIdle(Enqueued), CIdle(Took(2)), [1, 2, 3], [1, 2])
  }

  function After6(maxBlockSize: nat): State<int> {
    State([B(0, 0, 0, 0, 1, [Live(3)]), B(0, 0, 0, 1, 0, [Dead, Dead])], 1, 0, 2, maxBlockSize, PIdle(Enqueued), CLoadNextTail(TryDequeue, 0, 0), [1, 2, 3], [1, 2])
  }

  lemma Enqueue1Grows(j0: Journey, maxBlockSize: nat) returns (j: Journey)
    requires maxBlockSize >= 2 && Travels(j0, 0, maxBlockSize) && j0.s == After0(maxBlockSize)
    ensures Travels(j, 0, maxBlockSize) && j.s == After1(maxBlockSize)
  {
    hide Travels, Advance;
    Wraps(0);
    j := SeesTailFull(j0, 0, maxBlockSize, 1);
    j := WantsBlock(j, 0, maxBlockSize, 1, 0);
    j := MakesPair(j, 0, maxBlockSize, 1, 0);
    j := LinksPair(j, 0, maxBlockSize, 1, 0, 1);
  }

  lemma Dequeue1(j0: Journey, maxBlockSize: nat) returns (j: Journey)
    requires maxBlockSize >= 2 && Travels(j0, 0, maxBlockSize) && j0.s == After1(maxBlockSize)
    ensures Travels(j, 0, maxBlockSize) && j.s == After2(maxBlockSize)
  {
    hide Travels, Advance;
    Wraps(1);
    j := SeesFrontEmpty(j0, 0, maxBlockSize);
    j := LooksAgain(j, 0, maxBlockSize, 0);
    j := ReadsNext(j, 0, maxBlockSize, 0, 1);
    j := MovesOn(j, 0, maxBlockSize, 1, 0);
    TwoCells(Live(1), Dead, Dead);
    j := Takes(j, 0, maxBlockSize, 1, B(0, 1, 1, 0, 0, [Dead, Dead]));
  }

  lemma Enqueue2(j0: Journey, maxBlockSize: nat) returns (j: Journey)
    requires maxBlockSize >= 2 && Travels(j0, 0, maxBlockSize) && j0.s == After2(maxBlockSize)
    ensures Travels(j, 0, maxBlockSize) && j.s == After3(maxBlockSize)
  {
    hide Travels, Advance;
    Wraps(1);
    j := RefreshesFront(j0, 0, maxBlockSize, 2);
    TwoCells(Dead, Dead, Live(2));
    j := PutsInTail(j, 0, maxBlockSize, B(1, 1, 1, 1, 0, [Dead, Live(2)]));
  }

  lemma Enqueue3ComesBack(j0: Journey, maxBlockSize: nat) returns (j: Journey)
    requires maxBlockSize >= 2 && Travels(j0, 0, maxBlockSize) && j0.s == After3(maxBlockSize)
    ensures Travels(j, 0, maxBlockSize) && j.s == After4(maxBlockSize)
  {
    hide Travels, Advance;
    Wraps(0); Wraps(1);
    j := SeesTailFull(j0, 0, maxBlockSize, 3);
    j := FindsFreeBlock(j, 0, maxBlockSize, 3, 1, 0);
    assert [Dead][0 := Live(3)] == [Live(3)];
    j := FillsFreeBlock(j, 0, maxBlockSize, 3, 0, B(0, 0, 0, 0, 1, [Live(3)]));
    j := PublishesFreeBlock(j, 0, maxBlockSize, 3, 0, 0);
  }

  lemma Dequeue2(j0: Journey, maxBlockSize: nat) returns (j: Journey)
    requires maxBlockSize >= 2 && Travels(j0, 0, maxBlockSize) && j0.s == After4(maxBlockSize)
    ensures Travels(j, 0, maxBlockSize) && j.s == After5(maxBlockSize)
  {
    hide Travels, Advance;
    Wraps(1);
    j := RefreshesTail(j0, 0, maxBlockSize);
    TwoCells(Dead, Live(2), Dead);
    j := Takes(j, 0, maxBlockSize, 2, B(1, 0, 0, 1, 0, [Dead, Dead]));
  }

  lemma Dequeue3Fails(j0: Journey, maxBlockSize: nat) returns (j: Journey)
    requires maxBlockSize >= 2 && Travels(j0, 0, maxBlockSize) && j0.s == After5(maxBlockSize)
    ensures Travels(j, 0, maxBlockSize) && j.s == After6(maxBlockSize)
  {
    hide Travels, Advance;
    j := SeesFrontEmpty(j0, 0, maxBlockSize);
    j := LooksAgain(j, 0, maxBlockSize, 1);
    j := ReadsNext(j, 0, maxBlockSize, 1, 0);
  }

  // ------------------------------------------------------------ the race

  function Race0(): State<int> {
    State([B(0, 0, 0, 0, 0, [Dead, Dead])], 0, 0, 2, 2, PIdle(NeverCalled), CIdle(NothingYet), [], [])
  }

  function Race1(): State<int> {
    State([B(0, 0, 0, 0, 0, [Dead, Dead])], 0, 0, 2, 2, PIdle(NeverCalled), CLoadTailBlock(TryDequeue, 0), [], [])
  }

  function Race2(): State<int> {
    State([B(0, 0, 1, 0, 0, [Live(1), Dead])], 0, 0, 2, 2, PIdle(Enqueued), CLoadTailBlock(TryDequeue, 0), [1], [])
  }

  function Race3(): State<int> {
    State([B(0, 0, 1, 0, 1, [Live(1), Dead]), B(0, 1, 1, 0, 0, [Live(2), Dead])], 0, 1, 2, 2, PIdle(Enqueued), CLoadTailBlock(TryDequeue, 0), [1, 2], [])
  }

  function Race4(): State<int> {
    State([B(0, 0, 1, 0, 1, [Live(1), Dead]), B(0, 1, 1, 0, 0, [Live(2), Dead])], 0, 1, 2, 2, PIdle(Enqueued), CReloadFrontBlock(TryDequeue), [1, 2], [])
  }

  lemma ConsumerFindsFrontEmpty(j0: Journey) returns (j: Journey)
    requires Travels(j0, 1, 2) && j0.s == Race0()
    ensures Travels(j, 1, 2) && j.s == Race1()
  {
    hide Travels;
    j := SeesFrontEmpty(j0, 1, 2);
  }

  lemma ProducerFillsFront(j0: Journey) returns (j: Journey)
    requires Travels(j0, 1, 2) && j0.s == Race1()
    ensures Travels(j, 1, 2) && j.s == Race2()
  {
    hide Travels, Advance;
    Wraps(1);
    j := SeesRoom(j0, 1, 2, 1);
    TwoCells(Dead, Dead, Live(1));
    j := PutsInTail(j, 1, 2, B(0, 0, 0, 0, 0, [Live(1), Dead]));
  }

  lemma ProducerMovesOn(j0: Journey) returns (j: Journey)
    requires Travels(j0, 1, 2) && j0.s == Race2()
    ensures Travels(j, 1, 2) && j.s == Race3()
  {
    hide Travels, Advance;
    Wraps(1);
    j := SeesTailFull(j0, 1, 2, 2);
    j := WantsBlock(j, 1, 2, 2, 0);
    j := MakesPair(j, 1, 2, 2, 0);
    j := LinksPair(j, 1, 2, 2, 0, 1);
  }

  lemma ConsumerFindsTailMoved(j0: Journey) returns (j: Journey)
    requires Travels(j0, 1, 2) && j0.s == Race3()
    ensures Travels(j, 1, 2) && j.s == Race4()
  {
    hide Travels;
    j := Step(j0, 1, 2, ConsumerStep, j0.s.(c := CReloadFrontBlock(TryDequeue)));
  }

  // ------------------------------------------------------------ what they show

  lemma Departs(size: nat, maxBlockSize: nat) returns (j: Journey)
    requires maxBlockSize >= 2
    ensures Travels(j, size, maxBlockSize) && j.s == InitialState<int>(size, maxBlockSize)
  {
    hide InitialState;
    j := Journey([InitialState<int>(size, maxBlockSize)], [], InitialState<int>(size, maxBlockSize));
  }

  lemma OneBlock(size: nat, maxBlockSize: nat, capacity: nat)
    requires maxBlockSize >= 2 && RoundUp(Wrap(size + 1)) == capacity && !SeveralBlocks(size, maxBlockSize)
    ensures InitialState<int>(size, maxBlockSize)
         == State([MakeBlock<int>(capacity).(next := 0)], 0, 0, capacity, maxBlockSize, PIdle(NeverCalled), CIdle(NothingYet), [], [])
  {
    hide RoundUp, MakeBlock, Wrap;
  }

  lemma SmallPowers(x: nat)
    requires x in {1, 2}
    ensures LeastPow2(x) == x
  {
  }

  lemma OneRaw()
    ensures MakeBlock<int>(1) == B(0, 0, 0, 0, NULL, [Dead])
  {
  }

  lemma SmallStart(maxBlockSize: nat)
    requires 2 <= maxBlockSize < HALF_WORD
    ensures InitialState<int>(0, maxBlockSize) == After0(maxBlockSize)
    ensures InitialState<int>(1, 2) == Race0()
  {
    hide InitialState, LeastPow2, MakeBlock;
    SmallPowers(1);
    SmallPowers(2);
    OneBlock(0, maxBlockSize, 1);
    OneBlock(1, 2, 2);
    OneRaw();
    TwoRaw();
  }

  /** In a queue built for size 0, six calls one after the other bring the consumer to the
      assertion that the next block has an element, with none there: the full one-cell block
      looks empty. */
  lemma SizeZeroFails(maxBlockSize: nat) returns (tr: seq<State<int>>, acts: seq<Action<int>>)
    requires 2 <= maxBlockSize < HALF_WORD
    ensures IsRun(tr, acts, 0, maxBlockSize)
    ensures var s := tr[|tr| - 1]; ConsumerSafe(s) && !ConsumerAsserts(s)
  {
    hide InitialState;
    SmallStart(maxBlockSize);
    var j := Departs(0, maxBlockSize);
    j := Enqueue1Grows(j, maxBlockSize);
    j := Dequeue1(j, maxBlockSize);
    j := Enqueue2(j, maxBlockSize);
    j := Enqueue3ComesBack(j, maxBlockSize);
    j := Dequeue2(j, maxBlockSize);
    j := Dequeue3Fails(j, maxBlockSize);
    tr, acts := j.tr, j.acts;
  }

  /** Neither thread can be about to fail an assertion or to do something undefined. */
  predicate Sound(s: State<int>) {
    ProducerSafe(s) && ProducerAsserts(s) && ConsumerSafe(s) && ConsumerAsserts(s)
  }

  ghost predicate AlwaysSound(size: nat, maxBlockSize: nat)
    requires maxBlockSize >= 2
  {
    forall tr: seq<State<int>>, acts: seq<Action<int>> :: IsRun(tr, acts, size, maxBlockSize) ==> Sound(tr[|tr| - 1])
  }

  lemma LargeStart(size: nat, maxBlockSize: nat)
    requires HALF_WORD <= size < WORD && maxBlockSize >= 2
    ensures InitialState<int>(size, maxBlockSize)
         == State([Block(0, 0, 0, 0, 0, [], WORD - 1)], 0, 0, 0, maxBlockSize, PIdle(NeverCalled), CIdle(NothingYet), [], [])
  {
    assert RoundUp(Wrap(size + 1)) == 0;
    hide InitialState;
    OneBlock(size, maxBlockSize, 0);
  }

  lemma FirstAdvance(m: nat)
    requires m % 2 == 1
    ensures Advance(0, m) == 1
  {
    assert And(0, m / 2) == 0;
  }

  /** From 2^63 elements on, rounding up wraps to 0 and the one block has no cells: the first
      element goes outside of it. */
  lemma LargeSizeFails(size: nat, maxBlockSize: nat) returns (tr: seq<State<int>>, acts: seq<Action<int>>)
    requires HALF_WORD <= size < WORD && maxBlockSize >= 2
    ensures IsRun(tr, acts, size, maxBlockSize)
    ensures var s := tr[|tr| - 1]; s.p == PConstruct(1, 0, 0, 1) && |s.blocks| == 1 && s.blocks[0].data == [] && !ProducerSafe(s)
  {
    hide InitialState, Advance;
    LargeStart(size, maxBlockSize);
    FirstAdvance(WORD - 1);
    var j := Departs(size, maxBlockSize);
    j := SeesRoom(j, size, maxBlockSize, 1);
    tr, acts := j.tr, j.acts;
  }

  /** With a maximum block size of 2^63 the number of blocks wraps to 0 from size 3 on, and
      there is no block to look into. */
  lemma NoBlockFails(size: nat) returns (tr: seq<State<int>>, acts: seq<Action<int>>)
    requires 3 <= size < HALF_WORD
    ensures IsRun(tr, acts, size, HALF_WORD)
    ensures var s := tr[|tr| - 1]; s.p == PLoadTailBlock(1, CanAlloc) && s.blocks == [] && !ProducerSafe(s)
  {
    hide LeastPow2;
    RoundUpFits(size + 1);
    assert InitialBlockCount(size, HALF_WORD) == 0;
    hide InitialBlockCount, InitialBlockSize;
    var j := Departs(size, HALF_WORD);
    j := Step(j, size, HALF_WORD, Enqueue(1, CanAlloc), j.s.(p := PLoadTailBlock(1, CanAlloc)));
    tr, acts := j.tr, j.acts;
  }

  /** For every size that the constructor takes and every maximum that passes its assertions:
      no assertion fails and no step is undefined, in any run, exactly when the size is at
      least 1 and less than 2^63; or, with a maximum of 2^63, at most 2. */
  lemma AssertionsNeedSize(size: nat, maxBlockSize: nat)
    requires size < WORD && IsPow2(maxBlockSize) && 2 <= maxBlockSize <= HALF_WORD
    ensures AlwaysSound(size, maxBlockSize) <==> if maxBlockSize < HALF_WORD then 1 <= size < HALF_WORD else size <= 2
  {
    hide IsPow2, Sound;
    if Configuration(size, maxBlockSize) {
      forall tr: seq<State<int>>, acts: seq<Action<int>> | IsRun(tr, acts, size, maxBlockSize) ensures Sound(tr[|tr| - 1]) {
        SoundRun(tr, acts, size, maxBlockSize);
      }
    } else {
      var tr, acts := Unsound(size, maxBlockSize);
    }
  }

  lemma SoundRun(tr: seq<State<int>>, acts: seq<Action<int>>, size: nat, maxBlockSize: nat)
    requires Configuration(size, maxBlockSize) && IsRun(tr, acts, size, maxBlockSize)
    ensures Sound(tr[|tr| - 1])
  {
    hide ProducerSafe, ConsumerSafe, ProducerAsserts, ConsumerAsserts;
    NeverStuck(tr, acts, size, maxBlockSize, |tr| - 1);
  }

  lemma Unsound(size: nat, maxBlockSize: nat) returns (tr: seq<State<int>>, acts: seq<Action<int>>)
    requires size < WORD && IsPow2(maxBlockSize) && 2 <= maxBlockSize <= HALF_WORD && !Configuration(size, maxBlockSize)
    ensures IsRun(tr, acts, size, maxBlockSize) && !Sound(tr[|tr| - 1])
  {
    hide IsRun;
    if size >= HALF_WORD { tr, acts := LargeSizeFails(size, maxBlockSize); }
    else if maxBlockSize == HALF_WORD { tr, acts := NoBlockFails(size); }
    else { tr, acts := SizeZeroFails(maxBlockSize); }
  }

  /** The cell under `front` of block b. */
  function CellAtFront(s: State<int>, b: Ptr): Cell<int> {
    if Valid(s, b) && s.blocks[b].front < |s.blocks[b].data| then s.blocks[b].data[s.blocks[b].front] else Dead
  }

  function NextOf(s: State<int>, b: Ptr): Ptr {
    if Valid(s, b) then s.blocks[b].next else NULL
  }

  /** The race: a consumer that saw the front block empty and then the tail block elsewhere
      is, at that point, in front of a block that holds the oldest element. The next block's
      first element was sent later, so going straight to it would break the order. */
  lemma SecondLookNeeded() returns (tr: seq<State<int>>, acts: seq<Action<int>>)
    ensures IsRun(tr, acts, 1, 2)
    ensures var s := tr[|tr| - 1];
      && s.c == CReloadFrontBlock(TryDequeue)
      && s.sent == [1, 2] && s.received == []
      && CellAtFront(s, s.frontBlock) == Live(1)
      && CellAtFront(s, NextOf(s, s.frontBlock)) == Live(2)
  {
    hide InitialState;
    SmallStart(2);
    var j := Departs(1, 2);
    j := ConsumerFindsFrontEmpty(j);
    j := ProducerFillsFront(j);
    j := ProducerMovesOn(j);
    j := ConsumerFindsTailMoved(j);
    tr, acts := j.tr, j.acts;
  }
}
