/** How each kind of access to the blocks moves the memory invariants, one invariant at a
    time. */
module SpscMemory {
  import opened Bits
  import opened SpscQueue
  import opened SpscInvariant

  // ------------------------------------------------------------ the ring

  lemma ShapeKept<T>(blocks: seq<Block<T>>, blocks': seq<Block<T>>, frontBlock: Ptr, tailBlock: Ptr, linked: int, ring: seq<Ptr>, tp: nat)
    requires Shape(blocks, frontBlock, tailBlock, linked, ring, tp)
    requires |blocks'| >= |blocks|
    requires forall b :: 0 <= b < linked ==> blocks'[b].next == blocks[b].next
    ensures Shape(blocks', frontBlock, tailBlock, linked, ring, tp)
  {
  }

  lemma ShapeTailAdvances<T>(blocks: seq<Block<T>>, frontBlock: Ptr, tailBlock: Ptr, linked: int, ring: seq<Ptr>, tp: nat)
    requires Shape(blocks, frontBlock, tailBlock, linked, ring, tp) && tp + 1 < |ring|
    ensures Shape(blocks, frontBlock, ring[tp + 1], linked, ring, tp + 1)
  {
  }

  lemma ShapeFrontAdvances<T>(blocks: seq<Block<T>>, frontBlock: Ptr, tailBlock: Ptr, linked: int, ring: seq<Ptr>, tp: nat)
    requires Shape(blocks, frontBlock, tailBlock, linked, ring, tp) && tp >= 1
    ensures Shape(blocks, ring[1], tailBlock, linked, ring[1..] + [ring[0]], tp - 1)
  {
    var r := ring[1..] + [ring[0]];
    forall b {:trigger b in r} | 0 <= b < linked ensures b in r { assert b in ring; }
    RotatedNext(blocks, ring, r);
  }

  lemma RotatedNext<T>(blocks: seq<Block<T>>, ring: seq<Ptr>, r: seq<Ptr>)
    requires |ring| >= 1 && r == ring[1..] + [ring[0]]
    requires forall i :: 0 <= i < |ring| ==> 0 <= ring[i] < |blocks|
    requires forall i {:trigger blocks[ring[i]].next} :: 0 <= i < |ring| ==> blocks[ring[i]].next == ring[Succ(i, |ring|)]
    ensures forall i :: 0 <= i < |r| ==> 0 <= r[i] < |blocks|
    ensures forall i {:trigger blocks[r[i]].next} :: 0 <= i < |r| ==> blocks[r[i]].next == r[Succ(i, |r|)]
  {
    var n := |ring|;
    forall i | 0 <= i < n ensures 0 <= r[i] < |blocks| && blocks[r[i]].next == r[Succ(i, n)] {
      var j := Succ(i, n);
      assert r[i] == ring[j] && r[j] == ring[Succ(j, n)];
      assert blocks[ring[j]].next == ring[Succ(j, n)];
    }
  }

  /** Linking a new block in after the tail block. */
  lemma ShapeInsert<T>(blocks: seq<Block<T>>, blocks': seq<Block<T>>, frontBlock: Ptr, tailBlock: Ptr, nb: Ptr, ring: seq<Ptr>, tp: nat)
    requires Shape(blocks, frontBlock, tailBlock, nb, ring, tp)
    requires nb == |blocks| - 1 && blocks[nb].next == blocks[tailBlock].next
    requires blocks' == blocks[tailBlock := blocks[tailBlock].(next := nb)]
    ensures Shape(blocks', frontBlock, tailBlock, nb + 1, ring[..tp + 1] + [nb] + ring[tp + 1..], tp)
  {
    var r := ring[..tp + 1] + [nb] + ring[tp + 1..];
    var n := |ring|;
    assert forall i :: 0 <= i <= tp ==> r[i] == ring[i];
    assert r[tp + 1] == nb;
    assert forall i :: tp + 1 < i <= n ==> r[i] == ring[i - 1];
    forall b | 0 <= b < nb + 1 ensures b in r {
      if b < nb { assert b in ring; }
    }
    InsertedNext(blocks, blocks', frontBlock, tailBlock, nb, ring, tp, r);
  }

  lemma InsertedNext<T>(blocks: seq<Block<T>>, blocks': seq<Block<T>>, frontBlock: Ptr, tailBlock: Ptr, nb: Ptr, ring: seq<Ptr>, tp: nat, r: seq<Ptr>)
    requires Shape(blocks, frontBlock, tailBlock, nb, ring, tp)
    requires nb == |blocks| - 1 && blocks[nb].next == blocks[tailBlock].next
    requires blocks' == blocks[tailBlock := blocks[tailBlock].(next := nb)]
    requires r == ring[..tp + 1] + [nb] + ring[tp + 1..]
    ensures forall i {:trigger blocks'[r[i]].next} :: 0 <= i < |r| ==> 0 <= r[i] < |blocks'| && blocks'[r[i]].next == r[Succ(i, |r|)]
  {
    hide Shape;
    NextAtTail(blocks, frontBlock, tailBlock, nb, ring, tp, r);
    forall i | 0 <= i < |r| ensures 0 <= r[i] < |blocks'| && blocks'[r[i]].next == r[Succ(i, |r|)] {
      if i < tp { NextBefore(blocks, frontBlock, tailBlock, nb, ring, tp, r, i); }
      if i > tp + 1 { NextAfter(blocks, frontBlock, tailBlock, nb, ring, tp, r, i); }
    }
  }

  lemma NextBefore<T>(blocks: seq<Block<T>>, frontBlock: Ptr, tailBlock: Ptr, nb: Ptr, ring: seq<Ptr>, tp: nat, r: seq<Ptr>, i: nat)
    requires Shape(blocks, frontBlock, tailBlock, nb, ring, tp) && nb < |blocks|
    requires r == ring[..tp + 1] + [nb] + ring[tp + 1..] && i < tp
    ensures |r| == |ring| + 1 && 0 <= r[i] < |blocks| && r[i] != tailBlock && blocks[r[i]].next == r[Succ(i, |r|)]
  {
    assert r[i] == ring[i] && r[i + 1] == ring[i + 1] && ring[i] != ring[tp];
    assert blocks[ring[i]].next == ring[Succ(i, |ring|)];
  }

  lemma NextAtTail<T>(blocks: seq<Block<T>>, frontBlock: Ptr, tailBlock: Ptr, nb: Ptr, ring: seq<Ptr>, tp: nat, r: seq<Ptr>)
    requires Shape(blocks, frontBlock, tailBlock, nb, ring, tp) && nb == |blocks| - 1
    requires r == ring[..tp + 1] + [nb] + ring[tp + 1..]
    ensures |r| == |ring| + 1 && tp + 1 < |r| && r[tp] == tailBlock && 0 <= tailBlock < nb && r[tp + 1] == nb
    ensures blocks[tailBlock].next == r[Succ(tp + 1, |r|)]
  {
    assert blocks[ring[tp]].next == ring[Succ(tp, |ring|)];
    if tp + 1 < |ring| { assert r[tp + 2] == ring[tp + 1]; } else { assert r[0] == ring[0]; }
  }

  lemma NextAfter<T>(blocks: seq<Block<T>>, frontBlock: Ptr, tailBlock: Ptr, nb: Ptr, ring: seq<Ptr>, tp: nat, r: seq<Ptr>, i: nat)
    requires Shape(blocks, frontBlock, tailBlock, nb, ring, tp) && nb < |blocks|
    requires r == ring[..tp + 1] + [nb] + ring[tp + 1..] && tp + 1 < i < |r|
    ensures |r| == |ring| + 1 && 0 <= r[i] < |blocks| && r[i] != tailBlock && blocks[r[i]].next == r[Succ(i, |r|)]
  {
    assert r[i] == ring[i - 1] && ring[i - 1] != ring[tp];
    assert blocks[ring[i - 1]].next == ring[Succ(i - 1, |ring|)];
    if i + 1 < |r| { assert r[i + 1] == ring[i]; } else { assert r[0] == ring[0]; }
  }

  // ------------------------------------------------------------ cells

  lemma PlaceCell<T>(data: seq<Cell<T>>, n: nat, lo: nat, hi: nat, off: int, hist: seq<T>, x: T, off': int)
    requires Stored(data, n, lo, hi, off, hist)
    requires hi < lo + n && off' + hi == |hist| && (lo < hi ==> off' == off)
    ensures Stored(data[Slot(hi, n) := Live(x)], n, lo, hi + 1, off', hist + [x])
  {
    hide Slot;
    forall k | lo <= k < lo + n && Slot(k, n) == Slot(hi, n) ensures k == hi {
      if k <= hi { SlotInjective(k, hi, n); } else { SlotInjective(hi, k, n); }
    }
  }

  lemma TakeCell<T>(data: seq<Cell<T>>, n: nat, lo: nat, hi: nat, off: int, hist: seq<T>)
    requires Stored(data, n, lo, hi, off, hist) && lo < hi
    ensures Stored(data[Slot(lo, n) := Dead], n, lo + 1, hi, off, hist)
  {
    hide Slot;
    SlotPeriod(lo, n);
    forall k | lo <= k < lo + n && Slot(k, n) == Slot(lo, n) ensures k == lo {
      SlotInjective(lo, k, n);
    }
  }

  /** A block's cells change hands: its new Stored fact replaces the old, the others' hold
      on over a longer history. */
  lemma PayloadUpdate<T>(blocks: seq<Block<T>>, v: seq<Counters>, hist: seq<T>, taking: Ptr, placing: Ptr,
                         blk: Block<T>, c: Counters, hist': seq<T>, taking': Ptr, placing': Ptr, b: Ptr)
    requires |v| == |blocks| && 0 <= b < |blocks|
    requires Payload(blocks, v, hist, taking, placing) && hist <= hist'
    requires Stored(blk.data, blk.sizeMask + 1, c.f + If(b == taking'), c.t + If(b == placing'), c.off, hist')
    requires (taking in {b, NULL} && taking' in {b, NULL}) || taking == taking'
    requires (placing in {b, NULL} && placing' in {b, NULL}) || placing == placing'
    ensures Payload(blocks[b := blk], v[b := c], hist', taking', placing')
  {
    hide Stored;
    forall d | 0 <= d < |blocks| && d != b
      ensures Stored(blocks[d].data, blocks[d].sizeMask + 1, v[d].f + If(d == taking'), v[d].t + If(d == placing'), v[d].off, hist')
    {
      assert Stored(blocks[d].data, blocks[d].sizeMask + 1, v[d].f + If(d == taking), v[d].t + If(d == placing), v[d].off, hist);
      StoredExtends(blocks[d].data, blocks[d].sizeMask + 1, v[d].f + If(d == taking), v[d].t + If(d == placing), v[d].off, hist, hist');
    }
  }

  lemma StoredExtends<T>(data: seq<Cell<T>>, n: nat, lo: nat, hi: nat, off: int, hist: seq<T>, hist': seq<T>)
    requires Stored(data, n, lo, hi, off, hist) && hist <= hist'
    ensures Stored(data, n, lo, hi, off, hist')
  {
  }

  /** Steps that leave cells and front and tail counters alone. */
  lemma PayloadKept<T>(blocks: seq<Block<T>>, v: seq<Counters>, hist: seq<T>, taking: Ptr, placing: Ptr, blocks': seq<Block<T>>, v': seq<Counters>)
    requires |v| == |blocks| == |blocks'| == |v'|
    requires Payload(blocks, v, hist, taking, placing)
    requires forall b :: 0 <= b < |blocks| ==> blocks'[b].data == blocks[b].data && blocks'[b].sizeMask == blocks[b].sizeMask
    requires forall b :: 0 <= b < |blocks| ==> v'[b].f == v[b].f && v'[b].t == v[b].t && v'[b].off == v[b].off
    ensures Payload(blocks', v', hist, taking, placing)
  {
    forall b | 0 <= b < |blocks|
      ensures Stored(blocks'[b].data, blocks'[b].sizeMask + 1, v'[b].f + If(b == taking), v'[b].t + If(b == placing), v'[b].off, hist)
    {
      assert Stored(blocks[b].data, blocks[b].sizeMask + 1, v[b].f + If(b == taking), v[b].t + If(b == placing), v[b].off, hist);
    }
  }

  // ------------------------------------------------------------ the order of elements

  ghost predicate InRange<T>(blocks: seq<Block<T>>, v: seq<Counters>, ring: seq<Ptr>, tp: nat) {
    |v| == |blocks| && tp < |ring| && forall i :: 0 <= i < |ring| ==> 0 <= ring[i] < |blocks|
  }

  lemma OrderKept<T>(blocks: seq<Block<T>>, v: seq<Counters>, ring: seq<Ptr>, tp: nat, nsent: nat, nreceived: nat, pending: bool,
                     blocks': seq<Block<T>>, v': seq<Counters>)
    requires InRange(blocks, v, ring, tp) && InRange(blocks', v', ring, tp)
    requires Order(blocks, v, ring, tp, nsent, nreceived, pending)
    requires forall i :: 0 <= i < |ring| ==>
      && v'[ring[i]].f == v[ring[i]].f && v'[ring[i]].t == v[ring[i]].t
      && (i <= tp || pending ==> v'[ring[i]].off == v[ring[i]].off)
      && blocks'[ring[i]].sizeMask == blocks[ring[i]].sizeMask
    ensures Order(blocks', v', ring, tp, nsent, nreceived, pending)
  {
  }

  lemma OrderTailStored<T>(blocks: seq<Block<T>>, v: seq<Counters>, ring: seq<Ptr>, tp: nat, nsent: nat, nreceived: nat,
                           blocks': seq<Block<T>>, v': seq<Counters>)
    requires InRange(blocks, v, ring, tp) && InRange(blocks', v', ring, tp)
    requires Order(blocks, v, ring, tp, nsent, nreceived, false)
    requires forall i :: 0 <= i < |ring| ==>
      && v'[ring[i]].f == v[ring[i]].f && v'[ring[i]].t == v[ring[i]].t + If(i == tp)
      && v'[ring[i]].off == v[ring[i]].off && blocks'[ring[i]].sizeMask == blocks[ring[i]].sizeMask
    ensures Order(blocks', v', ring, tp, nsent + 1, nreceived, false)
  {
  }

  lemma OrderNextTailStored<T>(blocks: seq<Block<T>>, v: seq<Counters>, ring: seq<Ptr>, tp: nat, nsent: nat, nreceived: nat,
                               blocks': seq<Block<T>>, v': seq<Counters>)
    requires InRange(blocks, v, ring, tp) && InRange(blocks', v', ring, tp) && tp + 1 < |ring|
    requires Order(blocks, v, ring, tp, nsent, nreceived, false)
    requires forall i :: 0 <= i < |ring| ==>
      && v'[ring[i]].f == v[ring[i]].f && v'[ring[i]].t == v[ring[i]].t + If(i == tp + 1)
      && v'[ring[i]].off == v[ring[i]].off && blocks'[ring[i]].sizeMask == blocks[ring[i]].sizeMask
    ensures Order(blocks', v', ring, tp, nsent, nreceived, true)
  {
  }

  lemma OrderPublished<T>(blocks: seq<Block<T>>, v: seq<Counters>, ring: seq<Ptr>, tp: nat, nsent: nat, nreceived: nat)
    requires InRange(blocks, v, ring, tp)
    requires Order(blocks, v, ring, tp, nsent, nreceived, true)
    requires v[ring[tp + 1]].off + v[ring[tp + 1]].f == nsent
    requires tp > 0 ==> v[ring[tp]].t == v[ring[tp]].f + blocks[ring[tp]].sizeMask
    ensures Order(blocks, v, ring, tp + 1, nsent + 1, nreceived, false)
  {
  }

  lemma OrderInserted<T>(blocks: seq<Block<T>>, v: seq<Counters>, ring: seq<Ptr>, tp: nat, nsent: nat, nreceived: nat,
                         blocks': seq<Block<T>>, nb: Ptr)
    requires InRange(blocks, v, ring, tp) && InRange(blocks', v, ring[..tp + 1] + [nb] + ring[tp + 1..], tp)
    requires Order(blocks, v, ring, tp, nsent, nreceived, false)
    requires 0 <= nb < |v| && v[nb].t == v[nb].f + 1
    requires forall b :: 0 <= b < |blocks| ==> blocks'[b].sizeMask == blocks[b].sizeMask
    ensures Order(blocks', v, ring[..tp + 1] + [nb] + ring[tp + 1..], tp, nsent, nreceived, true)
  {
    var r := ring[..tp + 1] + [nb] + ring[tp + 1..];
    assert forall i :: 0 <= i <= tp ==> r[i] == ring[i];
    assert forall i :: tp + 1 < i < |r| ==> r[i] == ring[i - 1];
  }

  lemma OrderFrontAdvances<T>(blocks: seq<Block<T>>, v: seq<Counters>, ring: seq<Ptr>, tp: nat, nsent: nat, nreceived: nat, pending: bool)
    requires InRange(blocks, v, ring, tp) && tp >= 1
    requires Order(blocks, v, ring, tp, nsent, nreceived, pending)
    requires v[ring[0]].f == v[ring[0]].t
    ensures InRange(blocks, v, ring[1..] + [ring[0]], tp - 1)
    ensures Order(blocks, v, ring[1..] + [ring[0]], tp - 1, nsent, nreceived, pending)
  {
    var r := ring[1..] + [ring[0]];
    assert forall i :: 0 <= i < |r| ==> r[i] == ring[Succ(i, |r|)];
    assert r[tp - 1] == ring[tp];
    forall i, j {:trigger r[i], r[j]} | 0 <= i < tp - 1 && j == i + 1 ensures v[r[i]].off + v[r[i]].t == v[r[j]].off + v[r[j]].f {
      assert r[i] == ring[i + 1] && r[j] == ring[i + 2];
    }
  }

  lemma OrderFrontStored<T>(blocks: seq<Block<T>>, v: seq<Counters>, ring: seq<Ptr>, tp: nat, nsent: nat, nreceived: nat, pending: bool,
                            blocks': seq<Block<T>>, v': seq<Counters>)
    requires InRange(blocks, v, ring, tp) && InRange(blocks', v', ring, tp)
    requires Order(blocks, v, ring, tp, nsent, nreceived, pending)
    requires forall i :: 0 <= i < |ring| ==>
      && v'[ring[i]].f == v[ring[i]].f + If(i == 0) && v'[ring[i]].t == v[ring[i]].t
      && v'[ring[i]].off == v[ring[i]].off && blocks'[ring[i]].sizeMask == blocks[ring[i]].sizeMask
    ensures Order(blocks', v', ring, tp, nsent, nreceived + 1, pending)
  {
  }
}
