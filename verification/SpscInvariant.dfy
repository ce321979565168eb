/** What holds in every reachable state of the queue, and that every step keeps it. */
module SpscInvariant {
  import opened Bits
  import opened SpscQueue

  /** Unbounded counters behind a block's masked indices. The element at counter k, front
      <= k < tail, is number off + k of all elements ever sent. */
  datatype Counters = Counters(lf: nat, f: nat, lt: nat, t: nat, off: int)

  /** The auxiliary state. `ring` lists the linked blocks in `next` order from the front
      block; the tail block is at position tp. The flags say whether, at some instant of
      the call in progress, the queue was empty / all room ahead of the producer was used. */
  datatype Layout = Layout(ring: seq<Ptr>, tp: nat, v: seq<Counters>)

  datatype View = View(l: Layout, sawEmpty: bool, sawFull: bool)

  // ------------------------------------------------------------ memory invariants

  /** The linked blocks form one cycle through the front and the tail block. */
  ghost predicate Shape<T>(blocks: seq<Block<T>>, frontBlock: Ptr, tailBlock: Ptr, linked: int, ring: seq<Ptr>, tp: nat) {
    && 1 <= |ring| == linked <= |blocks|
    && tp < |ring|
    && (forall i :: 0 <= i < |ring| ==> 0 <= ring[i] < linked)
    && (forall i, j :: 0 <= i < j < |ring| ==> ring[i] != ring[j])
    && (forall b {:trigger b in ring} :: 0 <= b < linked ==> b in ring)
    && ring[0] == frontBlock
    && ring[tp] == tailBlock
    && (forall i {:trigger blocks[ring[i]].next} :: 0 <= i < |ring| ==> blocks[ring[i]].next == ring[Succ(i, |ring|)])
  }

  /** localFront <= front <= localTail <= tail <= localFront + sizeMask, on the unbounded
      counters; the block's fields are their residues. */
  predicate Indices<T>(b: Block<T>, c: Counters) {
    && b.sizeMask >= 1 && IsPow2(b.sizeMask + 1) && |b.data| == b.sizeMask + 1
    && c.lf <= c.f <= c.lt <= c.t <= c.lf + b.sizeMask
    && b.localFront == Slot(c.lf, b.sizeMask + 1)
    && b.front == Slot(c.f, b.sizeMask + 1)
    && b.localTail == Slot(c.lt, b.sizeMask + 1)
    && b.tail == Slot(c.t, b.sizeMask + 1)
  }

  ghost predicate AllIndices<T>(blocks: seq<Block<T>>, v: seq<Counters>) {
    |v| == |blocks| && forall b :: 0 <= b < |blocks| ==> Indices(blocks[b], v[b])
  }

  /** Cells lo..hi hold elements off + lo .. off + hi of the history; the others are raw. */
  ghost predicate Stored<T>(data: seq<Cell<T>>, n: nat, lo: nat, hi: nat, off: int, hist: seq<T>) {
    && n == |data| && n > 0 && lo <= hi <= lo + n
    && (lo < hi ==> 0 <= off + lo && off + hi <= |hist|)
    && (forall k {:trigger Slot(k, n)} :: lo <= k < hi ==> data[Slot(k, n)] == Live(hist[off + k]))
    && (forall k {:trigger Slot(k, n)} :: hi <= k < lo + n ==> data[Slot(k, n)] == Dead)
  }

  ghost predicate Payload<T>(blocks: seq<Block<T>>, v: seq<Counters>, hist: seq<T>, taking: Ptr, placing: Ptr)
    requires |v| == |blocks|
  {
    forall b :: 0 <= b < |blocks| ==>
      Stored(blocks[b].data, blocks[b].sizeMask + 1, v[b].f + If(b == taking), v[b].t + If(b == placing), v[b].off, hist)
  }

  /** The blocks from front to tail hold the queue in order: each takes up where the one
      before stops, those strictly between are full, those after the tail are empty, except
      one that is filled and not yet published. */
  ghost predicate Order<T>(blocks: seq<Block<T>>, v: seq<Counters>, ring: seq<Ptr>, tp: nat, nsent: nat, nreceived: nat, pending: bool)
    requires |v| == |blocks| && tp < |ring|
    requires forall i :: 0 <= i < |ring| ==> 0 <= ring[i] < |blocks|
  {
    && v[ring[0]].off + v[ring[0]].f == nreceived
    && v[ring[tp]].off + v[ring[tp]].t == nsent
    && (forall i, j {:trigger ring[i], ring[j]} :: 0 <= i < tp && j == i + 1 ==>
          v[ring[i]].off + v[ring[i]].t == v[ring[j]].off + v[ring[j]].f)
    && (forall i :: 0 < i < tp ==> v[ring[i]].t == v[ring[i]].f + blocks[ring[i]].sizeMask)
    && (tp > 0 ==> v[ring[tp]].t > v[ring[tp]].f)
    && (pending ==> tp + 1 < |ring|)
    && (forall i :: tp < i < |ring| ==> v[ring[i]].t == v[ring[i]].f + If(pending && i == tp + 1))
  }

  // ------------------------------------------------------------ by program position

  /** The block the producer has made and not yet linked, if any. */
  function Unlinked<T>(p: Producer<T>): nat {
    If(p.PConstructNew? || p.PStoreNewTail? || p.PSetNewNext? || p.PLinkNew?)
  }

  /** The block where the producer has constructed an object beyond `tail`. */
  function Placing<T>(p: Producer<T>): Ptr {
    match p
    case PStoreTail(_, tb, _) => tb
    case PStoreNextTail(_, tbn, _) => tbn
    case PStoreNewTail(_, _, nb) => nb
    case _ => NULL
  }

  /** The block where the consumer has destroyed the object at `front`. */
  function Taking<T>(c: Consumer<T>): Ptr {
    if c.CStoreFront? then c.fb else NULL
  }

  predicate Pending<T>(p: Producer<T>) {
    p.PPublishNext? || p.PPublishNew?
  }

  /** The producer has constructed its element and not yet made it visible. */
  predicate Constructed<T>(p: Producer<T>) {
    p.PStoreTail? || p.PStoreNextTail? || p.PPublishNext? || p.PStoreNewTail? || p.PSetNewNext? || p.PLinkNew? || p.PPublishNew?
  }

  function Hist<T>(s: State<T>): seq<T> {
    if Constructed(s.p) then s.sent + [s.p.x] else s.sent
  }

  /** What the memory invariants look at: the shared variables, and how far the two threads
      are into the accesses that come in pairs. */
  datatype Memory<T> = Memory(
    blocks: seq<Block<T>>, frontBlock: Ptr, tailBlock: Ptr, linked: int,
    hist: seq<T>, taking: Ptr, placing: Ptr, nsent: nat, nreceived: nat, pending: bool)

  function MemoryOf<T>(s: State<T>): Memory<T> {
    Memory(s.blocks, s.frontBlock, s.tailBlock, |s.blocks| - Unlinked(s.p),
           Hist(s), Taking(s.c), Placing(s.p), |s.sent|, |s.received|, Pending(s.p))
  }

  ghost predicate Consistent<T>(m: Memory<T>, l: Layout) {
    && Shape(m.blocks, m.frontBlock, m.tailBlock, m.linked, l.ring, l.tp)
    && AllIndices(m.blocks, l.v)
    && Payload(m.blocks, l.v, m.hist, m.taking, m.placing)
    && Order(m.blocks, l.v, l.ring, l.tp, m.nsent, m.nreceived, m.pending)
  }

  ghost predicate Core<T>(s: State<T>, a: View) {
    Consistent(MemoryOf(s), a.l)
  }

  /** The tail block has no room, by the shadow copy of `front`; and the copy is exact while
      the consumer is in another block. */
  ghost predicate TailFull<T>(s: State<T>, a: View)
    requires Core(s, a)
  {
    var c := a.l.v[s.tailBlock];
    && c.t == c.lf + s.blocks[s.tailBlock].sizeMask
    && (a.l.tp > 0 ==> c.f == c.lf)
    && (|s.blocks| == 1 ==> a.sawFull)
  }

  ghost predicate FreeAhead<T>(s: State<T>, a: View, tbn: Ptr)
    requires Core(s, a)
  {
    TailFull(s, a) && a.l.tp + 1 < |a.l.ring| && a.l.ring[a.l.tp + 1] == tbn
  }

  ghost predicate FreshBlock<T>(s: State<T>, a: View, tb: Ptr, nb: Ptr, filled: nat)
    requires Core(s, a)
  {
    && TailFull(s, a) && a.sawFull && tb == s.tailBlock
    && nb == |s.blocks| - 1
    && a.l.v[nb].(off := 0) == Counters(0, 0, filled, filled, 0)
  }

  ghost predicate ProducerOK<T>(s: State<T>, a: View)
    requires Core(s, a)
  {
    match s.p
    case PIdle(last) => last.Refused? || last.OutOfMemory? ==> a.sawFull
    case PLoadTailBlock(_, _) => true
    case PLoadTail(_, _, tb, bf) => tb == s.tailBlock && bf == s.blocks[tb].localFront
    case PLoadFront(_, _, tb, bt, nbt) =>
      && tb == s.tailBlock && bt == s.blocks[tb].tail && nbt == Advance(bt, s.blocks[tb].sizeMask)
      && a.l.v[tb].t == a.l.v[tb].lf + s.blocks[tb].sizeMask
    case PConstruct(_, tb, bt, nbt) =>
      && tb == s.tailBlock && bt == s.blocks[tb].tail && nbt == Advance(bt, s.blocks[tb].sizeMask)
      && a.l.v[tb].t < a.l.v[tb].lf + s.blocks[tb].sizeMask
    case PStoreTail(_, tb, nbt) =>
      && tb == s.tailBlock && nbt == Advance(s.blocks[tb].tail, s.blocks[tb].sizeMask)
      && a.l.v[tb].t < a.l.v[tb].lf + s.blocks[tb].sizeMask
    case PLoadNext(_, _, tb) => tb == s.tailBlock && TailFull(s, a)
    case PLoadFrontBlock(_, _, tb, nx) => tb == s.tailBlock && TailFull(s, a) && nx == s.blocks[tb].next
    case PReloadNext(_, tb) => tb == s.tailBlock && FreeAhead(s, a, s.blocks[tb].next)
    case PLoadNextFront(_, tbn) => FreeAhead(s, a, tbn)
    case PLoadNextTail(_, tbn, nbf) =>
      FreeAhead(s, a, tbn) && nbf == s.blocks[tbn].front && a.l.v[tbn].lf == a.l.v[tbn].f
    case PConstructNext(_, tbn, nbt) =>
      FreeAhead(s, a, tbn) && nbt == s.blocks[tbn].tail && a.l.v[tbn].lf == a.l.v[tbn].f
    case PStoreNextTail(_, tbn, nbt) =>
      && FreeAhead(s, a, tbn) && nbt == s.blocks[tbn].tail && a.l.v[tbn].lf == a.l.v[tbn].f
      && a.l.v[tbn].off + a.l.v[tbn].t == |s.sent|
    case PPublishNext(_, tbn) => FreeAhead(s, a, tbn) && a.l.v[tbn].off + a.l.v[tbn].f == |s.sent|
    case PAllocate(_, tb) => tb == s.tailBlock && TailFull(s, a) && a.sawFull
    case PConstructNew(_, tb, nb) => FreshBlock(s, a, tb, nb, 0)
    case PStoreNewTail(_, tb, nb) => FreshBlock(s, a, tb, nb, 0) && a.l.v[nb].off == |s.sent|
    case PSetNewNext(_, tb, nb) => FreshBlock(s, a, tb, nb, 1) && a.l.v[nb].off == |s.sent|
    case PLinkNew(_, tb, nb) =>
      FreshBlock(s, a, tb, nb, 1) && a.l.v[nb].off == |s.sent| && s.blocks[nb].next == s.blocks[tb].next
    case PPublishNew(_, nb) => FreeAhead(s, a, nb) && a.l.v[nb].off + a.l.v[nb].f == |s.sent|
  }

  /** The front block is used up and another block is ahead. */
  ghost predicate MovingOn<T>(s: State<T>, a: View)
    requires Core(s, a)
  {
    a.l.tp >= 1 && a.l.v[s.frontBlock].f == a.l.v[s.frontBlock].t
  }

  ghost predicate ConsumerOK<T>(s: State<T>, a: View)
    requires Core(s, a)
  {
    match s.c
    case CIdle(Address(at, i)) =>
      || (at == s.frontBlock && i == s.blocks[at].front && a.l.v[at].f < a.l.v[at].t)
      || (MovingOn(s, a) && at == a.l.ring[1] && i == s.blocks[at].front)
    case CIdle(SawNothing) => a.sawEmpty
    case CIdle(_) => true
    case CLoadFrontBlock(_) => true
    case CLoadFront(_, fb, bt) => fb == s.frontBlock && bt == s.blocks[fb].localTail
    case CLoadTail(_, fb, bf) => fb == s.frontBlock && bf == s.blocks[fb].front && a.l.v[fb].f == a.l.v[fb].lt
    case CLoadTailBlock(_, fb) => fb == s.frontBlock && (a.l.tp == 0 ==> a.sawEmpty)
    case CReloadFrontBlock(_) => a.l.tp >= 1
    case CReloadTail(_, fb) => fb == s.frontBlock && a.l.tp >= 1
    case CReloadFront(_, fb, bt) => fb == s.frontBlock && a.l.tp >= 1 && bt == s.blocks[fb].tail && a.l.v[fb].lt == a.l.v[fb].t
    case CLoadNext(_, fb) => fb == s.frontBlock && MovingOn(s, a)
    case CLoadNextFront(_, nb) => MovingOn(s, a) && nb == a.l.ring[1]
    case CLoadNextTail(_, nb, nbf) => MovingOn(s, a) && nb == a.l.ring[1] && nbf == s.blocks[nb].front
    case CStoreFrontBlock(op, nb, nbf) =>
      !op.Peek? && MovingOn(s, a) && nb == a.l.ring[1] && nbf == s.blocks[nb].front && a.l.v[nb].f < a.l.v[nb].lt
    case CTake(_, fb, bf) => fb == s.frontBlock && bf == s.blocks[fb].front && a.l.v[fb].f < a.l.v[fb].lt
    case CStoreFront(op, fb, bf, val) =>
      && !op.Peek? && fb == s.frontBlock && bf == s.blocks[fb].front && a.l.v[fb].f < a.l.v[fb].lt
      && |s.received| < |s.sent| && val == s.sent[|s.received|]
  }

  /** Block sizes: powers of two from 2 to twice the maximum, none above the largest. */
  predicate Sizes<T>(s: State<T>) {
    && IsPow2(s.maxBlockSize) && 2 <= s.maxBlockSize <= HALF_WORD
    && IsPow2(s.largestBlockSize) && 2 <= s.largestBlockSize <= 2 * s.maxBlockSize && s.largestBlockSize <= HALF_WORD
    && forall b :: 0 <= b < |s.blocks| ==> s.blocks[b].sizeMask + 1 <= s.largestBlockSize
  }

  /** What the log says: the elements received are the first ones sent. */
  ghost predicate InOrder<T>(s: State<T>) {
    s.received <= s.sent
  }

  ghost predicate Inv<T>(s: State<T>, a: View) {
    Core(s, a) && ProducerOK(s, a) && ConsumerOK(s, a) && Sizes(s) && InOrder(s)
  }

  /** All the room the producer could use without overtaking the consumer is used, by
      elements already sent: every block but the front one, or the only one, is full. */
  predicate AllButFrontFull<T>(s: State<T>) {
    Unlinked(s.p) == 0 && !Pending(s.p) && NoRoomAhead(s.blocks, s.frontBlock)
  }

  predicate NoRoomAhead<T>(blocks: seq<Block<T>>, frontBlock: Ptr) {
    forall b :: 0 <= b < |blocks| && (b != frontBlock || |blocks| == 1) ==>
      blocks[b].front < WORD && blocks[b].tail < WORD && Occupied(blocks[b]) == blocks[b].sizeMask
  }

  // ------------------------------------------------------------ how the view moves

  function At(l: Layout, b: Ptr): Counters {
    if 0 <= b < |l.v| then l.v[b] else Counters(0, 0, 0, 0, 0)
  }

  function With(l: Layout, b: Ptr, c: Counters): Layout {
    if 0 <= b < |l.v| then l.(v := l.v[b := c]) else l
  }

  function Rotate(l: Layout): Layout {
    if l.tp == 0 || |l.ring| == 0 then l
    else l.(ring := l.ring[1..] + [l.ring[0]], tp := l.tp - 1)
  }

  function InsertAfterTail(l: Layout, nb: Ptr): Layout {
    if l.tp >= |l.ring| then l
    else l.(ring := l.ring[..l.tp + 1] + [nb] + l.ring[l.tp + 1..])
  }

  function ProducerLayout<T>(s: State<T>, l: Layout, mallocOk: bool): Layout {
    match s.p
    case PLoadFront(_, _, tb, _, _) => With(l, tb, At(l, tb).(lf := At(l, tb).f))
    case PStoreTail(_, tb, _) => With(l, tb, At(l, tb).(t := At(l, tb).t + 1))
    case PLoadNextFront(_, tbn) => With(l, tbn, At(l, tbn).(lf := At(l, tbn).f))
    case PConstructNext(_, tbn, _) => With(l, tbn, At(l, tbn).(off := |s.sent| - At(l, tbn).t))
    case PStoreNextTail(_, tbn, _) => With(l, tbn, At(l, tbn).(t := At(l, tbn).t + 1))
    case PPublishNext(_, _) => l.(tp := l.tp + 1)
    case PAllocate(_, _) => if mallocOk then l.(v := l.v + [Counters(0, 0, 0, 0, 0)]) else l
    case PConstructNew(_, _, nb) => With(l, nb, At(l, nb).(off := |s.sent|))
    case PStoreNewTail(_, _, nb) => With(l, nb, At(l, nb).(lt := 1, t := 1))
    case PLinkNew(_, _, nb) => InsertAfterTail(l, nb)
    case PPublishNew(_, _) => l.(tp := l.tp + 1)
    case _ => l
  }

  function ConsumerLayout<T>(s: State<T>, l: Layout): Layout {
    match s.c
    case CLoadTail(_, fb, _) => With(l, fb, At(l, fb).(lt := At(l, fb).t))
    case CReloadTail(_, fb) => With(l, fb, At(l, fb).(lt := At(l, fb).t))
    case CLoadNextTail(op, nb, _) => if op.Peek? then l else With(l, nb, At(l, nb).(lt := At(l, nb).t))
    case CStoreFrontBlock(_, _, _) => Rotate(l)
    case CStoreFront(_, fb, _, _) => With(l, fb, At(l, fb).(f := At(l, fb).f + 1))
    case _ => l
  }

  ghost function NextView<T>(s: State<T>, a: View, act: Action<T>): View
    requires Can(s, act)
  {
    var s' := Do(s, act);
    View(
      match act
        case ProducerStep(mallocOk) => ProducerLayout(s, a.l, mallocOk)
        case ConsumerStep => ConsumerLayout(s, a.l)
        case _ => a.l,
      |s'.received| == |s'.sent| || (!act.Dequeue? && a.sawEmpty),
      AllButFrontFull(s') || (!act.Enqueue? && a.sawFull))
  }
}
