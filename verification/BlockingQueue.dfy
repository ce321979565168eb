/** src/readerwriterqueue.h, BlockingReaderWriterQueue: the queue and the semaphore together.
    A producer call runs the inner enqueue and, if it succeeded, signals; a consumer call
    waits for a permit and, once granted, runs the inner dequeue. Both threads' inner steps
    interleave. */
module BlockingQueue {
  import opened Bits
  import Q = SpscQueue
  import I = SpscInvariant
  import R = SpscRuns
  import S = SpscSafety
  import T = SpscTheorems
  import M = Semaphore

  /** What the producer is in the middle of. */
  datatype ProducerPhase = Resting(ok: bool) | Inserting | Signalling

  /** The consumer's calls: `try_dequeue` and `pop` try the semaphore once, a timed wait asks
      it once with its timeout, `wait_dequeue` asks until it is granted, and `peek` does not
      ask. */
  datatype ConsumerCall =
    | TryTake(op: Q.Operation)
    | WaitTake
    | TimedTake(timeout: int)
    | Look

  datatype ConsumerPhase =
    | AtRest(ok: bool)
    | Asking(call: ConsumerCall)
    | Taking
    | Looking

  datatype State<T> = State(q: Q.State<T>, m: M.Sema, pp: ProducerPhase, cp: ConsumerPhase)

  datatype Action<T> =
    | Enqueue(x: T, mode: Q.AllocationMode)
    | ProducerStep(mallocOk: bool)
    | Call(call: ConsumerCall)
    | ConsumerStep(kernelGrants: bool)

  function OperationOf(call: ConsumerCall): Q.Operation {
    if call.TryTake? then call.op else if call.Look? then Q.Peek else Q.TryDequeue
  }

  function WaitOf(call: ConsumerCall): M.WaitCall {
    match call
    case WaitTake => M.Wait(-1)
    case TimedTake(timeout) => M.Wait(timeout)
    case _ => M.TryWait
  }

  predicate Can<T>(b: State<T>, act: Action<T>) {
    match act
    case Enqueue(x, mode) => b.pp.Resting? && Q.Can(b.q, Q.Enqueue(x, mode)) && b.m.s.SIdle?
    case ProducerStep(mallocOk) =>
      (b.pp.Inserting? && Q.Can(b.q, Q.ProducerStep(mallocOk)) && b.m.s.SIdle?) || (b.pp.Signalling? && M.Can(b.m, M.SignalerStep))
    case Call(call) =>
      && b.cp.AtRest? && b.m.w.WIdle? && b.q.c.CIdle?
      && (call.TryTake? ==> !call.op.Peek?)
    case ConsumerStep(kernelGrants) =>
      match b.cp
      case AtRest(_) => false
      case Asking(_) => M.Can(b.m, M.WaiterStep(kernelGrants)) && b.q.c.CIdle?
      case _ => Q.Can(b.q, Q.ConsumerStep)
  }

  function ProducerNext<T>(b: State<T>, mallocOk: bool): State<T>
    requires Can(b, ProducerStep(mallocOk))
  {
    if b.pp.Inserting? then
      var q := Q.Do(b.q, Q.ProducerStep(mallocOk));
      if !q.p.PIdle? then b.(q := q)
      else if q.p.last.Enqueued? then b.(q := q, m := M.Do(b.m, M.Signal(1)), pp := Signalling)
      else b.(q := q, pp := Resting(false))
    else
      var m := M.Do(b.m, M.SignalerStep);
      b.(m := m, pp := if m.s.SIdle? then Resting(true) else Signalling)
  }

  function ConsumerNext<T>(b: State<T>, kernelGrants: bool): State<T>
    requires Can(b, ConsumerStep(kernelGrants))
  {
    match b.cp
    case Asking(call) =>
      var m := M.Do(b.m, M.WaiterStep(kernelGrants));
      if !m.w.WIdle? then b.(m := m)
      else if m.w.last.Granted? then b.(m := m, q := Q.Do(b.q, Q.Dequeue(OperationOf(call))), cp := Taking)
      else if call.WaitTake? then b.(m := M.Do(m, M.StartWait(M.Wait(-1))))
      else b.(m := m, cp := AtRest(false))
    case Taking =>
      var q := Q.Do(b.q, Q.ConsumerStep);
      // the source asserts that the inner call succeeds, and returns true
      b.(q := q, cp := if q.c.CIdle? then AtRest(true) else Taking)
    case Looking =>
      var q := Q.Do(b.q, Q.ConsumerStep);
      b.(q := q, cp := if q.c.CIdle? then AtRest(!q.c.last.SawNothing?) else Looking)
    case AtRest(_) => b
  }

  function Do<T>(b: State<T>, act: Action<T>): State<T>
    requires Can(b, act)
  {
    match act
    case Enqueue(x, mode) => b.(q := Q.Do(b.q, Q.Enqueue(x, mode)), pp := Inserting)
    case ProducerStep(mallocOk) => ProducerNext(b, mallocOk)
    case Call(call) =>
      if call.Look? then b.(q := Q.Do(b.q, Q.Dequeue(Q.Peek)), cp := Looking)
      else b.(m := M.Do(b.m, M.StartWait(WaitOf(call))), cp := Asking(call))
    case ConsumerStep(kernelGrants) => ConsumerNext(b, kernelGrants)
  }

  function InitialState<T>(size: nat, maxBlockSize: nat): State<T>
    requires maxBlockSize >= 2
  {
    State(Q.InitialState(size, maxBlockSize), M.InitialSema(0), Resting(true), AtRest(true))
  }

  ghost predicate IsRun<T>(tr: seq<State<T>>, acts: seq<Action<T>>, size: nat, maxBlockSize: nat)
    requires maxBlockSize >= 2
  {
    && |tr| == |acts| + 1 && tr[0] == InitialState(size, maxBlockSize)
    && forall i :: 0 <= i < |acts| ==> Can(tr[i], acts[i]) && tr[i + 1] == Do(tr[i], acts[i])
  }

  // ------------------------------------------------------------ the invariant

  /** Which thread part is busy when. */
  predicate Phases<T>(b: State<T>) {
    && (b.pp.Inserting? <==> !b.q.p.PIdle?)
    && (b.pp.Signalling? <==> !b.m.s.SIdle?)
    && (b.m.s.SAdd? ==> b.m.s.count == 1)
    && (b.cp.Asking? <==> !b.m.w.WIdle?)
    && (b.cp.Taking? || b.cp.Looking? <==> !b.q.c.CIdle?)
    && (b.cp.Asking? ==> !b.cp.call.Look? && !OperationOf(b.cp.call).Peek?)
    && (b.cp.Taking? ==> !b.q.c.op.Peek?)
    && (b.cp.Looking? ==> b.q.c.op.Peek?)
  }

  /** An element is in the queue and its permit is not there yet. */
  predicate Unsignalled<T>(b: State<T>) {
    b.m.s.SAdd?
  }

  /** The elements sent are those signalled, and perhaps one more; the elements received are
      those whose permits were granted, but for one that is being taken. */
  predicate Counts<T>(b: State<T>) {
    && b.m.initial == 0
    && |b.q.sent| == b.m.signalled + If(Unsignalled(b))
    && |b.q.received| + If(b.cp.Taking?) == b.m.granted
  }

  ghost predicate Inv<T>(b: State<T>, a: I.View) {
    && I.Inv(b.q, a) && M.Inv(b.m) && Phases(b) && Counts(b)
    && (b.cp.Taking? ==> !a.sawEmpty)
  }

  // ------------------------------------------------------------ inner steps

  /** What one step of the inner queue does to its log. */
  lemma ProducerLog<T>(q: Q.State<T>, mallocOk: bool)
    requires Q.Can(q, Q.ProducerStep(mallocOk))
    ensures var q' := Q.Do(q, Q.ProducerStep(mallocOk));
      && q'.c == q.c && q'.received == q.received
      && |q'.sent| == |q.sent| + If(q'.p == Q.PIdle(Q.Enqueued))
  {
    hide Q.ProducerNext, Q.ConsumerNext, Q.ProducerSafe, Q.ConsumerSafe, T.EnqueuePoint;
    R.ProducerLeaves(q, mallocOk);
    T.ProducerFifoStep(q, mallocOk);
  }

  lemma ConsumerLog<T>(q: Q.State<T>)
    requires Q.Can(q, Q.ConsumerStep) && (q.c.CStoreFront? ==> !q.c.op.Peek?)
    ensures var q' := Q.Do(q, Q.ConsumerStep);
      && q'.p == q.p && q'.sent == q.sent
      && |q'.received| == |q.received| + If(q'.c.CIdle? && (q'.c.last.Took? || q'.c.last.Popped?))
      && (!q'.c.CIdle? ==> q'.c.op == q.c.op)
      && (q'.c.CIdle? && !q.c.op.Peek? ==> q'.c.last.Took? || q'.c.last.Popped? || q'.c.last.SawNothing?)
      && (q'.c.CIdle? && q.c.op.Peek? ==> q'.c.last.Address? || q'.c.last.SawNothing?)
  {
  }

  lemma StoresOnlyTakes<T>(q: Q.State<T>, a: I.View)
    requires I.Inv(q, a)
    ensures q.c.CStoreFront? ==> !q.c.op.Peek?
    ensures I.InOrder(q)
    ensures q.c == Q.CIdle(Q.SawNothing) ==> a.sawEmpty
  {
    hide I.Consistent;
  }

  /** A granted permit that is not used up yet means an element is in the queue. */
  lemma PermitMeansElement<T>(b: State<T>)
    requires M.Inv(b.m) && Counts(b) && b.cp.Taking?
    ensures |b.q.received| < |b.q.sent|
  {
  }

  // ------------------------------------------------------------ steps

  lemma ProducerKeeps<T>(b: State<T>, a: I.View, mallocOk: bool) returns (a': I.View)
    requires Inv(b, a) && Can(b, ProducerStep(mallocOk))
    ensures Inv(Do(b, ProducerStep(mallocOk)), a')
  {
    hide I.Inv, Q.Do, I.NextView;
    if b.pp.Inserting? {
      var act: Q.Action<T> := Q.ProducerStep(mallocOk);
      var q := Q.Do(b.q, act);
      a' := I.NextView(b.q, a, act);
      R.StepKeeps(b.q, a, act);
      ProducerLog(b.q, mallocOk);
      SeenFlags(b.q, a, act);
      if b.cp.Taking? { PermitMeansElement(b); }
    } else {
      a' := a;
    }
  }

  lemma SeenFlags<T>(q: Q.State<T>, a: I.View, act: Q.Action<T>)
    requires Q.Can(q, act)
    ensures var q' := Q.Do(q, act);
      I.NextView(q, a, act).sawEmpty <==> |q'.received| == |q'.sent| || (!act.Dequeue? && a.sawEmpty)
  {
    hide Q.Do;
  }

  /** What one step of the waiter does to the semaphore's log. */
  lemma WaiterLog(m: M.Sema, kernelGrants: bool)
    requires M.Can(m, M.WaiterStep(kernelGrants))
    ensures var m' := M.Do(m, M.WaiterStep(kernelGrants));
      && m'.s == m.s && m'.signalled == m.signalled && m'.initial == m.initial
      && m'.granted == m.granted + If(m'.w == M.WIdle(M.Granted))
      && (m'.w.WIdle? ==> m'.w.last.Granted? || m'.w.last.Denied?)
  {
  }

  lemma AskingKeeps<T>(b: State<T>, a: I.View, kernelGrants: bool) returns (a': I.View)
    requires Inv(b, a) && Can(b, ConsumerStep(kernelGrants)) && b.cp.Asking?
    ensures Inv(Do(b, ConsumerStep(kernelGrants)), a')
  {
    hide I.Inv, I.NextView, M.WaiterNext, Q.ConsumerNext, Q.ProducerNext, Q.ConsumerSafe;
    var act: M.Action := M.WaiterStep(kernelGrants);
    M.StepKeeps(b.m, act);
    WaiterLog(b.m, kernelGrants);
    var m := M.Do(b.m, act);
    if m.w.WIdle? && m.w.last.Granted? {
      var start: Q.Action<T> := Q.Dequeue(OperationOf(b.cp.call));
      a' := I.NextView(b.q, a, start);
      R.StepKeeps(b.q, a, start);
      SeenFlags(b.q, a, start);
    } else {
      a' := a;
      if m.w.WIdle? { M.StepKeeps(m, M.StartWait(M.Wait(-1))); }
    }
  }

  lemma TakingKeeps<T>(b: State<T>, a: I.View, kernelGrants: bool) returns (a': I.View)
    requires Inv(b, a) && Can(b, ConsumerStep(kernelGrants)) && !b.cp.Asking?
    ensures Inv(Do(b, ConsumerStep(kernelGrants)), a')
    ensures b.cp.Taking? ==> Granted(b, Do(b, ConsumerStep(kernelGrants)))
  {
    hide I.Inv, I.NextView, Q.Do, M.Inv;
    var act: Q.Action<T> := Q.ConsumerStep;
    a' := I.NextView(b.q, a, act);
    R.StepKeeps(b.q, a, act);
    SeenFlags(b.q, a, act);
    StoresOnlyTakes(b.q, a);
    StoresOnlyTakes(Q.Do(b.q, act), a');
    ConsumerLog(b.q);
    if b.cp.Taking? { PermitMeansElement(b); }
  }

  /** The inner call, if it is over, has delivered. */
  predicate Granted<T>(b: State<T>, b': State<T>) {
    b'.q.c.CIdle? ==> (b'.q.c.last.Took? || b'.q.c.last.Popped?) && b'.cp == AtRest(true)
  }

  lemma CallKeeps<T>(b: State<T>, a: I.View, act: Action<T>) returns (a': I.View)
    requires Inv(b, a) && Can(b, act) && (act.Enqueue? || act.Call?)
    ensures Inv(Do(b, act), a')
  {
    hide I.Inv, I.NextView;
    match act
    case Enqueue(x, mode) =>
      a' := I.NextView(b.q, a, Q.Enqueue(x, mode));
      R.StepKeeps(b.q, a, Q.Enqueue(x, mode));
      SeenFlags(b.q, a, Q.Enqueue(x, mode));
      if b.cp.Taking? { PermitMeansElement(b); }
    case Call(call) =>
      if call.Look? {
        a' := I.NextView(b.q, a, Q.Dequeue(Q.Peek));
        R.StepKeeps(b.q, a, Q.Dequeue(Q.Peek));
      } else {
        a' := a;
        M.StepKeeps(b.m, M.StartWait(WaitOf(call)));
      }
    case _ =>
  }

  lemma StepKeeps<T>(b: State<T>, a: I.View, act: Action<T>) returns (a': I.View)
    requires Inv(b, a) && Can(b, act)
    ensures Inv(Do(b, act), a')
  {
    hide Inv, Do;
    match act
    case ProducerStep(mallocOk) => a' := ProducerKeeps(b, a, mallocOk);
    case ConsumerStep(kernelGrants) =>
      if b.cp.Asking? { a' := AskingKeeps(b, a, kernelGrants); } else { a' := TakingKeeps(b, a, kernelGrants); }
    case _ => a' := CallKeeps(b, a, act);
  }

  // ------------------------------------------------------------ over whole runs

  lemma {:induction false} Reachable<T>(tr: seq<State<T>>, acts: seq<Action<T>>, size: nat, maxBlockSize: nat, i: nat) returns (a: I.View)
    requires R.Configuration(size, maxBlockSize) && IsRun(tr, acts, size, maxBlockSize) && i < |tr|
    ensures Inv(tr[i], a)
  {
    hide I.Inv, Do, Q.InitialBlockCount, Q.InitialBlockSize;
    if i == 0 {
      R.InitialInv<T>(size, maxBlockSize);
      a := R.InitialView(size, maxBlockSize);
    } else {
      a := Reachable(tr, acts, size, maxBlockSize, i - 1);
      a := StepKeeps(tr[i - 1], a, acts[i - 1]);
    }
  }

  /** Whenever the semaphore has granted a permit, the inner dequeue or pop succeeds: the
      assertions on its result hold in every run. */
  lemma GrantedMeansDelivered<T>(tr: seq<State<T>>, acts: seq<Action<T>>, size: nat, maxBlockSize: nat, i: nat)
    requires R.Configuration(size, maxBlockSize) && IsRun(tr, acts, size, maxBlockSize) && i + 1 < |tr|
    requires tr[i].cp.Taking? && acts[i].ConsumerStep? && tr[i + 1].q.c.CIdle?
    ensures tr[i + 1].q.c.last.Took? || tr[i + 1].q.c.last.Popped?
    ensures |tr[i + 1].q.received| == |tr[i].q.received| + 1
  {
    var a := Reachable(tr, acts, size, maxBlockSize, i);
    hide I.Inv, M.Inv, Q.Do;
    var _ := TakingKeeps(tr[i], a, acts[i].kernelGrants);
    StoresOnlyTakes(tr[i].q, a);
    ConsumerLog(tr[i].q);
  }

  /** The balance behind it: the elements in the queue are the permits outstanding, plus one
      that is enqueued and not yet signalled, plus one whose permit the consumer holds. */
  lemma ElementsArePermits<T>(tr: seq<State<T>>, acts: seq<Action<T>>, size: nat, maxBlockSize: nat, i: nat)
    requires R.Configuration(size, maxBlockSize) && IsRun(tr, acts, size, maxBlockSize) && i < |tr|
    ensures |tr[i].q.received| <= |tr[i].q.sent| && tr[i].q.received <= tr[i].q.sent
    ensures |Q.Fifo(tr[i].q)| ==
      tr[i].m.count + If(M.Registered(tr[i].m.w)) + If(tr[i].m.s.SAdd?) + If(tr[i].cp.Taking?)
  {
    var a := Reachable(tr, acts, size, maxBlockSize, i);
    hide I.Inv;
    StoresOnlyTakes(tr[i].q, a);
  }

  /** `size_approx` is exact when no call is in progress. */
  lemma SizeWhenQuiet<T>(tr: seq<State<T>>, acts: seq<Action<T>>, size: nat, maxBlockSize: nat, i: nat)
    requires R.Configuration(size, maxBlockSize) && IsRun(tr, acts, size, maxBlockSize) && i < |tr|
    requires tr[i].pp.Resting? && tr[i].cp.AtRest?
    ensures |tr[i].q.received| <= |tr[i].q.sent|
    ensures M.AvailableApprox(tr[i].m) == |Q.Fifo(tr[i].q)|
  {
    ElementsArePermits(tr, acts, size, maxBlockSize, i);
    var a := Reachable(tr, acts, size, maxBlockSize, i);
    hide I.Inv;
  }

  /** `size_approx` at any time, from either thread: never more than the length, and less only
      by an element whose permit a sleeping or withdrawing consumer has been assigned, whose
      signal is still to come, or which the consumer is taking. */
  lemma SizeAlways<T>(tr: seq<State<T>>, acts: seq<Action<T>>, size: nat, maxBlockSize: nat, i: nat)
    requires R.Configuration(size, maxBlockSize) && IsRun(tr, acts, size, maxBlockSize) && i < |tr|
    ensures |tr[i].q.received| <= |tr[i].q.sent|
    ensures M.AvailableApprox(tr[i].m) <= |Q.Fifo(tr[i].q)|
    ensures |Q.Fifo(tr[i].q)| <= M.AvailableApprox(tr[i].m) + If(M.Registered(tr[i].m.w)) + If(tr[i].m.s.SAdd?) + If(tr[i].cp.Taking?)
  {
    ElementsArePermits(tr, acts, size, maxBlockSize, i);
    var a := Reachable(tr, acts, size, maxBlockSize, i);
    hide I.Inv;
  }

  /** No wake-up is lost: a consumer that sleeps in the kernel with no post there, and none to
      come from a signal in progress, sleeps before an empty queue. */
  lemma NoLostWakeUp<T>(tr: seq<State<T>>, acts: seq<Action<T>>, size: nat, maxBlockSize: nat, i: nat)
    requires R.Configuration(size, maxBlockSize) && IsRun(tr, acts, size, maxBlockSize) && i < |tr|
    requires tr[i].m.w.WKernel? && tr[i].m.kernel == 0 && tr[i].m.s.SIdle?
    ensures |tr[i].q.received| <= |tr[i].q.sent| && Q.Fifo(tr[i].q) == []
  {
    ElementsArePermits(tr, acts, size, maxBlockSize, i);
    var a := Reachable(tr, acts, size, maxBlockSize, i);
    hide I.Inv;
  }

  /** A `try_dequeue`, `pop` or timed wait that returns false does so at an instant when no
      permit is outstanding: the queue is empty but for an element whose signal is still to
      come. */
  lemma FalseMeansNoPermit<T>(tr: seq<State<T>>, acts: seq<Action<T>>, size: nat, maxBlockSize: nat, i: nat)
    requires R.Configuration(size, maxBlockSize) && IsRun(tr, acts, size, maxBlockSize) && i + 1 < |tr|
    requires acts[i].ConsumerStep? && tr[i].cp.Asking? && tr[i + 1].cp == AtRest(false)
    ensures tr[i].m.count + If(M.Registered(tr[i].m.w)) == 0
    ensures |tr[i].q.received| <= |tr[i].q.sent| && |Q.Fifo(tr[i].q)| == If(tr[i].m.s.SAdd?)
  {
    ElementsArePermits(tr, acts, size, maxBlockSize, i);
    var a := Reachable(tr, acts, size, maxBlockSize, i);
    hide I.Inv, Q.Do, M.Inv, M.Do, M.WaiterNext;
    WaiterLog(tr[i].m, acts[i].kernelGrants);
    M.DeniedMeansNone(tr[i].m, acts[i].kernelGrants);
  }

  /** Neither thread ever gets stuck inside a call by undefined behaviour or a failed
      assertion of the queue or the semaphore; the consumer is held up only by the kernel, and
      by that only while there is no post. Between calls each can begin any other. */
  lemma NeverStuck<T>(tr: seq<State<T>>, acts: seq<Action<T>>, size: nat, maxBlockSize: nat, i: nat)
    requires R.Configuration(size, maxBlockSize) && IsRun(tr, acts, size, maxBlockSize) && i < |tr|
    ensures Q.ProducerSafe(tr[i].q) && Q.ProducerAsserts(tr[i].q)
    ensures Q.ConsumerSafe(tr[i].q) && Q.ConsumerAsserts(tr[i].q)
    ensures tr[i].m.s.SAdd? ==> tr[i].m.count >= -1
    ensures !tr[i].pp.Resting? ==> Can(tr[i], ProducerStep(true))
    ensures !tr[i].cp.AtRest? ==> Can(tr[i], ConsumerStep(false))
    ensures tr[i].cp.Asking? && tr[i].m.kernel > 0 ==> Can(tr[i], ConsumerStep(true))
    ensures tr[i].pp.Resting? ==> forall x, mode :: Can(tr[i], Enqueue(x, mode))
    ensures tr[i].cp.AtRest? ==> forall call: ConsumerCall :: call != TryTake(Q.Peek) ==> Can(tr[i], Call(call))
  {
    hide Inv, Can, Do, Q.ProducerSafe, Q.ConsumerSafe, Q.ProducerAsserts, Q.ConsumerAsserts;
    var a := Reachable(tr, acts, size, maxBlockSize, i);
    NotStuck(tr[i], a);
  }

  lemma NotStuck<T>(b: State<T>, a: I.View)
    requires Inv(b, a)
    ensures Q.ProducerSafe(b.q) && Q.ProducerAsserts(b.q)
    ensures Q.ConsumerSafe(b.q) && Q.ConsumerAsserts(b.q)
    ensures b.m.s.SAdd? ==> b.m.count >= -1
    ensures !b.pp.Resting? ==> Can(b, ProducerStep(true))
    ensures !b.cp.AtRest? ==> Can(b, ConsumerStep(false))
    ensures b.cp.Asking? && b.m.kernel > 0 ==> Can(b, ConsumerStep(true))
    ensures b.pp.Resting? ==> forall x, mode :: Can(b, Enqueue(x, mode))
    ensures b.cp.AtRest? ==> forall call: ConsumerCall :: call != TryTake(Q.Peek) ==> Can(b, Call(call))
  {
    hide I.Inv, Q.ProducerSafe, Q.ConsumerSafe, Q.ProducerAsserts, Q.ConsumerAsserts;
    Sound(b.q, a);
  }

  lemma Sound<T>(q: Q.State<T>, a: I.View)
    requires I.Inv(q, a)
    ensures Q.ProducerSafe(q) && Q.ProducerAsserts(q) && Q.ConsumerSafe(q) && Q.ConsumerAsserts(q)
  {
    hide I.Core, I.ProducerOK, I.ConsumerOK, Q.ProducerSafe, Q.ConsumerSafe;
    S.ProducerIsSafe(q, a);
    S.ConsumerIsSafe(q, a);
  }
}
