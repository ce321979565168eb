/** Every object's life, over any run of the two threads and the destructor after it: what is
    constructed is destroyed exactly once, and in the order of construction. */
module Lifecycle {
  import opened Bits
  import opened SpscQueue
  import opened SpscInvariant
  import opened SpscRuns
  import opened SpscTheorems
  import opened SpscQuiescent
  import opened SpscStructure
  import opened ReaderWriterQueues

  /** What a step constructs in a cell. */
  function Constructs<T>(s: State<T>, act: Action<T>): seq<T> {
    if act.ProducerStep? && (s.p.PConstruct? || s.p.PConstructNext? || s.p.PConstructNew?) then [s.p.x] else []
  }

  /** What a step moves out of a cell and destroys. */
  function Destroys<T>(s: State<T>, act: Action<T>): seq<T>
    requires Can(s, act)
  {
    if act.ConsumerStep? && s.c.CTake? && !s.c.op.Peek? then [s.blocks[s.c.fb].data[s.c.bf].value] else []
  }

  /** All values constructed, and all values destroyed, by the first i steps of a run. */
  ghost function Built<T>(tr: seq<State<T>>, acts: seq<Action<T>>, i: nat): seq<T>
    requires i <= |acts| < |tr|
  {
    if i == 0 then [] else Built(tr, acts, i - 1) + Constructs(tr[i - 1], acts[i - 1])
  }

  ghost function Gone<T>(tr: seq<State<T>>, acts: seq<Action<T>>, i: nat): seq<T>
    requires i <= |acts| < |tr| && forall k :: 0 <= k < i ==> Can(tr[k], acts[k])
  {
    if i == 0 then [] else Gone(tr, acts, i - 1) + Destroys(tr[i - 1], acts[i - 1])
  }

  /** The element that the consumer has taken and not yet accounted for. */
  function InHand<T>(c: Consumer<T>): seq<T> {
    if c.CStoreFront? then [c.val] else []
  }

  lemma ProducerBuilds<T>(s: State<T>, ok: bool)
    requires !s.p.PIdle? && ProducerSafe(s)
    ensures Hist(ProducerNext(s, ok)) == Hist(s) + Constructs(s, ProducerStep(ok))
  {
    hide Advance, NewBlockSize, MakeBlock;
    if !s.p.PConstruct? && !s.p.PConstructNext? && !s.p.PConstructNew? { BuildsNothing(s, ok); }
  }

  lemma BuildsNothing<T>(s: State<T>, ok: bool)
    requires !s.p.PIdle? && ProducerSafe(s) && !s.p.PConstruct? && !s.p.PConstructNext? && !s.p.PConstructNew?
    ensures Hist(ProducerNext(s, ok)) == Hist(s)
  {
    hide Advance, NewBlockSize, MakeBlock;
  }

  lemma ConsumerDestroys<T>(s: State<T>)
    requires !s.c.CIdle? && ConsumerSafe(s)
    ensures var s' := ConsumerNext(s);
      s'.received + InHand(s'.c) == s.received + InHand(s.c) + Destroys(s, ConsumerStep) && Hist(s') == Hist(s)
  {
    hide Advance;
  }

  lemma StepLedger<T>(s: State<T>, act: Action<T>)
    requires Can(s, act)
    ensures var s' := Do(s, act);
      && Hist(s') == Hist(s) + Constructs(s, act)
      && s'.received + InHand(s'.c) == s.received + InHand(s.c) + Destroys(s, act)
  {
    hide ProducerSafe, ConsumerSafe, ProducerNext, ConsumerNext;
    match act
    case ProducerStep(ok) => ProducerBuilds(s, ok); ProducerLeaves(s, ok);
    case ConsumerStep => ConsumerDestroys(s);
    case _ =>
  }

  /** At every instant of a run: the values constructed are those sent and one that is about
      to be; the values destroyed are those received and one that is about to be. */
  lemma {:induction false} Ledger<T>(tr: seq<State<T>>, acts: seq<Action<T>>, size: nat, maxBlockSize: nat, i: nat)
    requires Configuration(size, maxBlockSize) && IsRun(tr, acts, size, maxBlockSize) && i < |tr|
    ensures Built(tr, acts, i) == Hist(tr[i])
    ensures Gone(tr, acts, i) == tr[i].received + InHand(tr[i].c)
  {
    hide Do, Can;
    if i > 0 {
      Ledger(tr, acts, size, maxBlockSize, i - 1);
      StepLedger(tr[i - 1], acts[i - 1]);
    }
  }

  /** Any run, then the destructor: every value constructed in the run is destroyed once, by
      the consumer or by the destructor, and every block is freed once. */
  method DestroyAfter<T>(tr: seq<State<T>>, acts: seq<Action<T>>, size: nat, maxBlockSize: nat, i: nat)
    returns (freed: seq<Ptr>, ghost destroyed: seq<T>)
    requires Configuration(size, maxBlockSize) && IsRun(tr, acts, size, maxBlockSize) && i < |tr|
    requires tr[i].p.PIdle? && tr[i].c.CIdle?
    ensures Built(tr, acts, i) == Gone(tr, acts, i) + destroyed
    ensures |freed| == |tr[i].blocks|
    ensures forall k, m :: 0 <= k < m < |freed| ==> freed[k] != freed[m]
    ensures forall b :: 0 <= b < |tr[i].blocks| ==> b in freed
  {
    hide Quiescent, ViewAt;
    IdleIsQuiescent(tr, acts, size, maxBlockSize, i);
    Ledger(tr, acts, size, maxBlockSize, i);
    hide IsRun;
    var q := new ReaderWriterQueue.Adopt(AtRest(tr[i]), ViewAt(tr, acts, size, maxBlockSize, i).l);
    freed, destroyed := q.Destroy();
  }
}
