/** What each call of a BlockingReaderWriterQueue comes to, over any run: what it returns, what
    it has put in or taken out by then, and how it has waited. */
module BlockingCalls {
  import opened Bits
  import opened BlockingQueue
  import Q = SpscQueue
  import I = SpscInvariant
  import R = SpscRuns
  import T = SpscTheorems
  import C = SpscCalls
  import M = Semaphore

  // ------------------------------------------------------------ the run of the inner queue

  /** What an action does to the inner queue: one action or none. */
  ghost function InnerAction<T>(b: State<T>, act: Action<T>): seq<Q.Action<T>>
    requires Can(b, act)
  {
    match act
    case Enqueue(x, mode) => [Q.Enqueue(x, mode)]
    case ProducerStep(mallocOk) => if b.pp.Inserting? then [Q.ProducerStep(mallocOk)] else []
    case Call(call) => if call.Look? then [Q.Dequeue(Q.Peek)] else []
    case ConsumerStep(kernelGrants) =>
      if !b.cp.Asking? then [Q.ConsumerStep]
      else if M.Do(b.m, M.WaiterStep(kernelGrants)).w == M.WIdle(M.Granted) then [Q.Dequeue(OperationOf(b.cp.call))]
      else []
  }

  lemma InnerStep<T>(b: State<T>, act: Action<T>)
    requires Can(b, act)
    ensures |InnerAction(b, act)| <= 1
    ensures InnerAction(b, act) == [] ==> Do(b, act).q == b.q
    ensures InnerAction(b, act) != [] ==> Q.Can(b.q, InnerAction(b, act)[0]) && Do(b, act).q == Q.Do(b.q, InnerAction(b, act)[0])
  {
    hide Q.ProducerNext, Q.ConsumerNext, Q.ProducerSafe, Q.ConsumerSafe, M.WaiterNext, M.SignalerNext;
  }

  /** pos[k] is where the inner run stands after k actions; action m of the inner run is done
      by action src[m]. */
  ghost predicate Follows<T>(tr: seq<State<T>>, acts: seq<Action<T>>, n: nat, qtr: seq<Q.State<T>>, qacts: seq<Q.Action<T>>,
                             pos: seq<nat>, src: seq<nat>)
    requires n <= |acts| < |tr| && forall k :: 0 <= k < n ==> Can(tr[k], acts[k])
  {
    && |pos| == n + 1 && |src| == |qacts| && |qtr| == |qacts| + 1 && pos[0] == 0 && pos[n] == |qacts|
    && (forall k :: 0 <= k <= n ==> pos[k] <= |qacts| && qtr[pos[k]] == tr[k].q)
    && (forall k :: 0 <= k < n ==> pos[k + 1] == pos[k] + |InnerAction(tr[k], acts[k])|)
    && (forall k :: 0 <= k < n && InnerAction(tr[k], acts[k]) != [] ==> pos[k] < |qacts| && [qacts[pos[k]]] == InnerAction(tr[k], acts[k]))
    && (forall m :: 0 <= m < |src| ==> src[m] < n && pos[src[m]] == m && InnerAction(tr[src[m]], acts[src[m]]) == [qacts[m]])
  }

  lemma Stays<T>(tr: seq<State<T>>, acts: seq<Action<T>>, n: nat, qtr: seq<Q.State<T>>, qacts: seq<Q.Action<T>>, pos: seq<nat>, src: seq<nat>)
    requires n < |acts| < |tr| && forall k :: 0 <= k <= n ==> Can(tr[k], acts[k])
    requires Follows(tr, acts, n, qtr, qacts, pos, src) && InnerAction(tr[n], acts[n]) == [] && tr[n + 1].q == tr[n].q
    ensures Follows(tr, acts, n + 1, qtr, qacts, pos + [|qacts|], src)
  {
    hide Can, InnerAction;
  }

  lemma GoesAlong<T>(tr: seq<State<T>>, acts: seq<Action<T>>, n: nat, qtr: seq<Q.State<T>>, qacts: seq<Q.Action<T>>, pos: seq<nat>, src: seq<nat>, qa: Q.Action<T>)
    requires n < |acts| < |tr| && forall k :: 0 <= k <= n ==> Can(tr[k], acts[k])
    requires Follows(tr, acts, n, qtr, qacts, pos, src) && InnerAction(tr[n], acts[n]) == [qa]
    ensures Follows(tr, acts, n + 1, qtr + [tr[n + 1].q], qacts + [qa], pos + [|qacts| + 1], src + [n])
  {
    hide Can, InnerAction;
  }

  lemma RunExtends<T>(qtr: seq<Q.State<T>>, qacts: seq<Q.Action<T>>, size: nat, maxBlockSize: nat, qa: Q.Action<T>)
    requires maxBlockSize >= 2 && Q.IsRun(qtr, qacts, size, maxBlockSize) && Q.Can(qtr[|qacts|], qa)
    ensures Q.IsRun(qtr + [Q.Do(qtr[|qacts|], qa)], qacts + [qa], size, maxBlockSize)
  {
    hide Q.InitialState, Q.Do, Q.Can;
  }

  lemma NothingDone<T>(tr: seq<State<T>>, acts: seq<Action<T>>, size: nat, maxBlockSize: nat)
    requires maxBlockSize >= 2 && IsRun(tr, acts, size, maxBlockSize)
    ensures Q.IsRun([tr[0].q], [], size, maxBlockSize) && Follows(tr, acts, 0, [tr[0].q], [], [0], [])
  {
    hide Q.InitialState, Q.Do, Q.Can, Do, Can, InnerAction;
  }

  lemma AtEnd<T>(tr: seq<State<T>>, acts: seq<Action<T>>, n: nat, qtr: seq<Q.State<T>>, qacts: seq<Q.Action<T>>, pos: seq<nat>, src: seq<nat>)
    requires n <= |acts| < |tr| && (forall k :: 0 <= k < n ==> Can(tr[k], acts[k])) && Follows(tr, acts, n, qtr, qacts, pos, src)
    ensures |qtr| == |qacts| + 1 && qtr[|qacts|] == tr[n].q
  {
    hide Can, InnerAction;
    assert pos[n] == |qacts|;
  }

  lemma {:induction false} InnerRun<T>(tr: seq<State<T>>, acts: seq<Action<T>>, size: nat, maxBlockSize: nat, n: nat)
    returns (qtr: seq<Q.State<T>>, qacts: seq<Q.Action<T>>, pos: seq<nat>, src: seq<nat>)
    requires maxBlockSize >= 2 && IsRun(tr, acts, size, maxBlockSize) && n < |tr|
    ensures Q.IsRun(qtr, qacts, size, maxBlockSize) && Follows(tr, acts, n, qtr, qacts, pos, src)
  {
    hide Q.InitialState, Q.Do, Q.Can, Do, Can, InnerAction, Follows, Q.IsRun;
    if n == 0 {
      qtr, qacts, pos, src := [tr[0].q], [], [0], [];
      NothingDone(tr, acts, size, maxBlockSize);
    } else {
      qtr, qacts, pos, src := InnerRun(tr, acts, size, maxBlockSize, n - 1);
      AtEnd(tr, acts, n - 1, qtr, qacts, pos, src);
      InnerStep(tr[n - 1], acts[n - 1]);
      if InnerAction(tr[n - 1], acts[n - 1]) == [] {
        Stays(tr, acts, n - 1, qtr, qacts, pos, src);
        pos := pos + [|qacts|];
      } else {
        var qa := InnerAction(tr[n - 1], acts[n - 1])[0];
        GoesAlong(tr, acts, n - 1, qtr, qacts, pos, src, qa);
        RunExtends(qtr, qacts, size, maxBlockSize, qa);
        pos, src := pos + [|qacts| + 1], src + [n - 1];
        qtr, qacts := qtr + [tr[n].q], qacts + [qa];
      }
    }
  }

  lemma {:induction false} PositionsRise<T>(tr: seq<State<T>>, acts: seq<Action<T>>, n: nat, qtr: seq<Q.State<T>>, qacts: seq<Q.Action<T>>,
                                            pos: seq<nat>, src: seq<nat>, i: nat, j: nat)
    requires n <= |acts| < |tr| && forall k :: 0 <= k < n ==> Can(tr[k], acts[k])
    requires Follows(tr, acts, n, qtr, qacts, pos, src) && i <= j <= n
    ensures pos[i] <= pos[j]
    decreases j
  {
    hide Can, InnerAction;
    if i < j { PositionsRise(tr, acts, n, qtr, qacts, pos, src, i, j - 1); }
  }

  /** An inner action between two positions is done by an action between the two. */
  lemma Within<T>(tr: seq<State<T>>, acts: seq<Action<T>>, n: nat, qtr: seq<Q.State<T>>, qacts: seq<Q.Action<T>>,
                  pos: seq<nat>, src: seq<nat>, i: nat, j: nat, m: nat)
    requires n <= |acts| < |tr| && forall k :: 0 <= k < n ==> Can(tr[k], acts[k])
    requires Follows(tr, acts, n, qtr, qacts, pos, src) && i <= j <= n && pos[i] <= m < pos[j]
    ensures m < |src| && i <= src[m] < j && qtr[m + 1] == tr[src[m] + 1].q && qtr[m] == tr[src[m]].q
    ensures InnerAction(tr[src[m]], acts[src[m]]) == [qacts[m]]
    ensures pos[i] < m ==> i < src[m]
  {
    hide Can, InnerAction;
    var k := src[m];
    if k < i { PositionsRise(tr, acts, n, qtr, qacts, pos, src, k + 1, i); }
    if k >= j { PositionsRise(tr, acts, n, qtr, qacts, pos, src, j, k); }
  }

  // ------------------------------------------------------------ the producer's calls

  /** Actions i .. j - 1 belong to the producer call that starts with action i, or to the
      consumer. */
  ghost predicate EnqueueCall<T>(tr: seq<State<T>>, acts: seq<Action<T>>, i: nat, j: nat) {
    && i < j < |tr| && |tr| == |acts| + 1 && acts[i].Enqueue?
    && forall k :: i < k < j ==> !acts[k].Enqueue?
  }

  /** A call of the producer is a call of the inner queue. */
  lemma EnqueueInside<T>(tr: seq<State<T>>, acts: seq<Action<T>>, size: nat, maxBlockSize: nat, i: nat, j: nat)
    returns (qtr: seq<Q.State<T>>, qacts: seq<Q.Action<T>>, pos: seq<nat>, src: seq<nat>)
    requires maxBlockSize >= 2 && IsRun(tr, acts, size, maxBlockSize) && EnqueueCall(tr, acts, i, j)
    ensures Q.IsRun(qtr, qacts, size, maxBlockSize) && |acts| < |tr| && forall k :: 0 <= k < |acts| ==> Can(tr[k], acts[k])
    ensures Follows(tr, acts, |acts|, qtr, qacts, pos, src) && |pos| == |tr|
    ensures pos[i] < |qtr| && pos[j] < |qtr| && qtr[pos[i]] == tr[i].q && qtr[pos[j]] == tr[j].q && pos[i] < |qacts|
    ensures T.ProducerCall(qtr, qacts, pos[i], pos[j]) && qacts[pos[i]] == Q.Enqueue(acts[i].x, acts[i].mode)
  {
    qtr, qacts, pos, src := InnerRun(tr, acts, size, maxBlockSize, |acts|);
    hide Can, Q.IsRun;
    assert InnerAction(tr[i], acts[i]) == [Q.Enqueue(acts[i].x, acts[i].mode)];
    PositionsRise(tr, acts, |acts|, qtr, qacts, pos, src, i + 1, j);
    forall m | pos[i] < m < pos[j] ensures !qacts[m].Enqueue? {
      Within(tr, acts, |acts|, qtr, qacts, pos, src, i, j, m);
    }
  }

  /** How far a call that began in b0 has come with its signal. */
  ghost predicate Signals<T>(b0: State<T>, b: State<T>) {
    match b.pp
    case Inserting => !b.q.p.PIdle? && b.m.s.SIdle? && b.m.signalled == b0.m.signalled
    case Signalling =>
      && b.q.p == Q.PIdle(Q.Enqueued) && !b.m.s.SIdle?
      && b.m.signalled == b0.m.signalled + If(b.m.s.SPost?) && (b.m.s.SAdd? ==> b.m.s.count == 1)
    case Resting(ok) =>
      && b.q.p.PIdle? && b.m.s.SIdle? && b.m.signalled == b0.m.signalled + If(ok)
      && (ok <==> b.q.p == Q.PIdle(Q.Enqueued))
  }

  lemma SignalsGoOn<T>(b0: State<T>, b: State<T>, act: Action<T>)
    requires Signals(b0, b) && Can(b, act) && !act.Enqueue?
    ensures Signals(b0, Do(b, act))
  {
    match act
    case ProducerStep(ok) =>
      hide Q.ProducerNext, Q.ConsumerNext, Q.ProducerSafe, Q.ConsumerSafe, M.WaiterNext;
    case Call(call) =>
      hide Q.ProducerNext, Q.ConsumerNext, Q.ProducerSafe, Q.ConsumerSafe, M.WaiterNext, M.SignalerNext;
    case ConsumerStep(grants) =>
      hide Q.ProducerNext, Q.ConsumerNext, Q.ProducerSafe, M.SignalerNext, M.WaiterNext;
      if b.cp.Asking? { WaiterLog(b.m, grants); } else { C.ConsumerLeavesMasks(b.q); }
  }

  lemma {:induction false} SignalsSoFar<T>(tr: seq<State<T>>, acts: seq<Action<T>>, size: nat, maxBlockSize: nat, i: nat, j: nat)
    requires maxBlockSize >= 2 && IsRun(tr, acts, size, maxBlockSize) && EnqueueCall(tr, acts, i, j)
    ensures Signals(tr[i], tr[j])
    decreases j
  {
    hide Q.Do, Q.Can, InitialState;
    if j == i + 1 {
      EnqueueStarts(tr[i], acts[i]);
    } else {
      hide Do, Can, Signals;
      SignalsSoFar(tr, acts, size, maxBlockSize, i, j - 1);
      SignalsGoOn(tr[i], tr[j - 1], acts[j - 1]);
    }
  }

  lemma EnqueueStarts<T>(b: State<T>, act: Action<T>)
    requires Can(b, act) && act.Enqueue?
    ensures Signals(b, Do(b, act))
  {
    hide Q.ProducerNext, Q.ConsumerNext, Q.ProducerSafe, Q.ConsumerSafe;
  }

  /** Every `enqueue` and `try_enqueue`, once it is over: it returns true exactly if it has put
      its element in, and then it has signalled once; otherwise neither. A `try_enqueue` makes
      no block. */
  lemma EnqueueReturns<T>(tr: seq<State<T>>, acts: seq<Action<T>>, size: nat, maxBlockSize: nat, i: nat, j: nat)
    requires R.Configuration(size, maxBlockSize) && IsRun(tr, acts, size, maxBlockSize)
    requires EnqueueCall(tr, acts, i, j) && tr[j].pp.Resting?
    ensures tr[j].pp.ok <==> tr[j].q.sent == tr[i].q.sent + [acts[i].x]
    ensures !tr[j].pp.ok <==> tr[j].q.sent == tr[i].q.sent
    ensures tr[j].m.signalled == tr[i].m.signalled + (if tr[j].pp.ok then 1 else 0)
    ensures acts[i].mode.CannotAlloc? ==> |tr[j].q.blocks| == |tr[i].q.blocks|
  {
    hide IsRun, Q.IsRun, Can, Follows, T.ProducerCall, IsPow2, C.MallocRefused;
    var qtr, qacts, pos, src := EnqueueInside(tr, acts, size, maxBlockSize, i, j);
    SignalsSoFar(tr, acts, size, maxBlockSize, i, j);
    C.EnqueueOutcome(qtr, qacts, size, maxBlockSize, pos[i], pos[j]);
  }

  /** One that returns false: at some instant of the call the queue was full for its size; and
      an `enqueue` was refused a block by malloc. */
  lemma EnqueueRefused<T>(tr: seq<State<T>>, acts: seq<Action<T>>, size: nat, maxBlockSize: nat, i: nat, j: nat) returns (full: nat)
    requires R.Configuration(size, maxBlockSize) && IsRun(tr, acts, size, maxBlockSize)
    requires EnqueueCall(tr, acts, i, j) && tr[j].pp == Resting(false)
    ensures i < full <= j && I.AllButFrontFull(tr[full].q) && I.InOrder(tr[full].q) && |Q.Fifo(tr[full].q)| >= size
    ensures acts[i].mode.CanAlloc? ==> exists k :: i < k < j && acts[k] == ProducerStep(false) && tr[k].q.p.PAllocate?
  {
    hide IsRun, Q.IsRun, Can, Follows, T.ProducerCall, IsPow2, I.AllButFrontFull, C.MallocRefused, EnqueueCall;
    var qtr, qacts, pos, src := EnqueueInside(tr, acts, size, maxBlockSize, i, j);
    SignalsSoFar(tr, acts, size, maxBlockSize, i, j);
    Order(tr, acts, i, j);
    C.EnqueueOutcome(qtr, qacts, size, maxBlockSize, pos[i], pos[j]);
    var m := T.RefusalMeansFull(qtr, qacts, size, maxBlockSize, pos[i], pos[j]);
    Within(tr, acts, |acts|, qtr, qacts, pos, src, i, j, m - 1);
    full := src[m - 1] + 1;
    if acts[i].mode.CanAlloc? { RefusalTraced(tr, acts, qtr, qacts, pos, src, i, j); }
  }

  lemma Order<T>(tr: seq<State<T>>, acts: seq<Action<T>>, i: nat, j: nat)
    requires EnqueueCall(tr, acts, i, j)
    ensures i < j <= |acts| < |tr| && acts[i].Enqueue?
  {
  }

  lemma RefusalTraced<T>(tr: seq<State<T>>, acts: seq<Action<T>>, qtr: seq<Q.State<T>>, qacts: seq<Q.Action<T>>, pos: seq<nat>, src: seq<nat>, i: nat, j: nat)
    requires i < j <= |acts| < |tr| && (forall k :: 0 <= k < |acts| ==> Can(tr[k], acts[k])) && acts[i].Enqueue?
    requires Follows(tr, acts, |acts|, qtr, qacts, pos, src) && |pos| == |tr| && C.MallocRefused(qtr, qacts, pos[i], pos[j])
    ensures exists k :: i < k < j && acts[k] == ProducerStep(false) && tr[k].q.p.PAllocate?
  {
    hide Can, Follows;
    var n :| pos[i] <= n < pos[j] && n < |qacts| && n < |qtr| && qacts[n] == Q.ProducerStep(false) && qtr[n].p.PAllocate?;
    Within(tr, acts, |acts|, qtr, qacts, pos, src, i, j, n);
    var k := src[n];
    assert acts[k] == ProducerStep(false) && tr[k].q.p.PAllocate?;
  }

  // ------------------------------------------------------------ the consumer's calls

  /** Actions i .. j - 1 belong to the consumer call that starts with action i, or to the
      producer. */
  ghost predicate TakeCall<T>(tr: seq<State<T>>, acts: seq<Action<T>>, i: nat, j: nat) {
    && i < j < |tr| && |tr| == |acts| + 1 && acts[i].Call?
    && forall k :: i < k < j ==> !acts[k].Call?
  }

  /** The wait in progress is the one that the call makes. */
  predicate Fits(call: ConsumerCall, w: M.Waiter) {
    match w
    case WLoad(c) => c == WaitOf(call)
    case WSpin(timeout, _) => WaitOf(call) == M.Wait(timeout)
    case WRegister(timeout) => WaitOf(call) == M.Wait(timeout)
    case WKernel(timeout) => WaitOf(call) == M.Wait(timeout) && timeout != 0
    case WTake => true
    case _ => WaitOf(call).Wait?
  }

  /** How far a call that began in b0 has come. */
  ghost predicate Takes<T>(b0: State<T>, call: ConsumerCall, b: State<T>) {
    match b.cp
    case Asking(c) =>
      c == call && !call.Look? && b.q.received == b0.q.received && b.m.granted == b0.m.granted && Fits(call, b.m.w)
    case Taking =>
      !call.Look? && !b.q.c.CIdle? && C.Dequeueing(b0.q, OperationOf(call), b.q) && b.m.granted == b0.m.granted + 1
    case Looking =>
      call.Look? && !b.q.c.CIdle? && C.Dequeueing(b0.q, Q.Peek, b.q) && b.m.granted == b0.m.granted
    case AtRest(ok) =>
      if call.Look? then
        b.q.c.CIdle? && C.Dequeueing(b0.q, Q.Peek, b.q) && (ok <==> !b.q.c.last.SawNothing?) && b.m.granted == b0.m.granted
      else if ok then
        && b.q.c.CIdle? && C.Dequeueing(b0.q, OperationOf(call), b.q) && !b.q.c.last.SawNothing?
        && b.m.granted == b0.m.granted + 1
      else
        b.q.received == b0.q.received && b.m.granted == b0.m.granted && !call.WaitTake?
  }

  lemma TakeStarts<T>(b: State<T>, act: Action<T>)
    requires Can(b, act) && act.Call?
    ensures Takes(b, act.call, Do(b, act))
  {
  }

  lemma FitsOn(call: ConsumerCall, m: M.Sema, grants: bool)
    requires Fits(call, m.w) && M.Can(m, M.WaiterStep(grants))
    ensures var m' := M.Do(m, M.WaiterStep(grants));
      && (!m'.w.WIdle? ==> Fits(call, m'.w))
      && m'.granted == m.granted + If(m'.w == M.WIdle(M.Granted))
      && (m'.w.WIdle? ==> m'.w.last.Granted? || m'.w.last.Denied?)
  {
  }

  /** Dequeueing speaks of the state at the start only through what had been received, unless
      it is a peek. */
  lemma StartsTaking<T>(q0: Q.State<T>, q: Q.State<T>, op: Q.Operation)
    requires q.received == q0.received && !op.Peek? && q.c.CIdle?
    ensures C.Dequeueing(q0, op, Q.Do(q, Q.Dequeue(op)))
  {
  }

  lemma AskingGoesOn<T>(b0: State<T>, call: ConsumerCall, b: State<T>, act: Action<T>)
    requires Takes(b0, call, b) && Can(b, act) && act.ConsumerStep? && b.cp.Asking? && Phases(b)
    ensures Takes(b0, call, Do(b, act))
  {
    FitsOn(call, b.m, act.kernelGrants);
    hide C.Dequeueing, M.WaiterNext, M.SignalerNext, Q.ProducerNext, Q.ConsumerNext, Q.ProducerSafe, Q.ConsumerSafe;
    if M.Do(b.m, M.WaiterStep(act.kernelGrants)).w == M.WIdle(M.Granted) { StartsTaking(b0.q, b.q, OperationOf(call)); }
  }

  lemma TakingGoesOn<T>(b0: State<T>, a: I.View, call: ConsumerCall, b: State<T>, act: Action<T>)
    requires Inv(b, a) && Takes(b0, call, b) && Can(b, act) && act.ConsumerStep? && !b.cp.Asking?
    ensures Takes(b0, call, Do(b, act))
  {
    hide I.Inv, M.Inv, C.Dequeueing, Q.ConsumerNext, Q.ProducerNext, Q.ProducerSafe, Q.ConsumerSafe;
    assert Q.Do(b.q, Q.ConsumerStep) == Q.ConsumerNext(b.q) && Q.ConsumerSafe(b.q);
    C.PeekOnlyLooks(b.q, a);
    C.ConsumerStepCounts(b0.q, if b.cp.Looking? then Q.Peek else OperationOf(call), b.q);
    var _ := TakingKeeps(b, a, act.kernelGrants);
    hide Inv;
  }

  lemma ProducerBeside<T>(b0: State<T>, call: ConsumerCall, b: State<T>, act: Action<T>)
    requires Takes(b0, call, b) && Can(b, act) && (act.ProducerStep? || act.Enqueue?)
    ensures Takes(b0, call, Do(b, act))
  {
    hide C.Dequeueing, Q.ConsumerNext, Q.ConsumerSafe, M.WaiterNext, Q.ProducerNext, Q.ProducerSafe;
    var op := if call.Look? then Q.Peek else OperationOf(call);
    match act
    case ProducerStep(ok) =>
      if b.pp.Inserting? {
        R.ProducerLeaves(b.q, ok);
        if !b.cp.Asking? && C.Dequeueing(b0.q, op, b.q) { C.ProducerStandsBy(b0.q, op, b.q, ok); }
      }
    case Enqueue(x, mode) =>
      if !b.cp.Asking? && C.Dequeueing(b0.q, op, b.q) { C.EnqueueStandsBy(b0.q, op, b.q, x, mode); }
    case _ =>
  }

  lemma {:induction false} TakesSoFar<T>(tr: seq<State<T>>, acts: seq<Action<T>>, size: nat, maxBlockSize: nat, i: nat, j: nat)
    requires R.Configuration(size, maxBlockSize) && IsRun(tr, acts, size, maxBlockSize) && TakeCall(tr, acts, i, j)
    ensures Takes(tr[i], acts[i].call, tr[j])
    decreases j
  {
    hide Do, Can, Takes, Inv, InitialState, IsPow2;
    var k := j - 1;
    if k == i {
      TakeStarts(tr[i], acts[i]);
    } else {
      TakesSoFar(tr, acts, size, maxBlockSize, i, k);
      if acts[k].ConsumerStep? {
        var a := Reachable(tr, acts, size, maxBlockSize, k);
        PhasesHold(tr[k], a);
        if tr[k].cp.Asking? { AskingGoesOn(tr[i], acts[i].call, tr[k], acts[k]); }
        else { TakingGoesOn(tr[i], a, acts[i].call, tr[k], acts[k]); }
      } else {
        ProducerBeside(tr[i], acts[i].call, tr[k], acts[k]);
      }
    }
  }

  lemma PhasesHold<T>(b: State<T>, a: I.View)
    requires Inv(b, a)
    ensures Phases(b)
  {
    hide I.Inv, M.Inv;
  }

  /** What the caller has in hand: the value, but for `pop`. */
  ghost predicate HandsOver<T>(call: ConsumerCall, c: Q.Consumer<T>, v: T) {
    match call
    case TryTake(TryDequeue) => c == Q.CIdle(Q.Took(v))
    case TryTake(Pop) => c == Q.CIdle(Q.Popped)
    case WaitTake => c == Q.CIdle(Q.Took(v))
    case TimedTake(_) => c == Q.CIdle(Q.Took(v))
    case _ => false
  }

  /** Every call of the consumer, once it is over. `try_dequeue`, `wait_dequeue` and
      `wait_dequeue_timed` that return true have handed over the oldest element not yet
      received; `pop` that returns true has removed it; each has used up one permit. One that
      returns false has taken neither, and `wait_dequeue` does not. `peek` takes nothing, and
      returns an address exactly when it does not find the queue empty. */
  lemma TakeReturns<T>(tr: seq<State<T>>, acts: seq<Action<T>>, size: nat, maxBlockSize: nat, i: nat, j: nat)
    requires R.Configuration(size, maxBlockSize) && IsRun(tr, acts, size, maxBlockSize)
    requires TakeCall(tr, acts, i, j) && tr[j].cp.AtRest?
    ensures tr[j].cp.ok && !acts[i].call.Look? ==>
      && |tr[i].q.received| < |tr[j].q.sent|
      && tr[j].q.received == tr[i].q.received + [tr[j].q.sent[|tr[i].q.received|]]
      && tr[j].m.granted == tr[i].m.granted + 1
    ensures tr[j].cp.ok && !acts[i].call.Look? ==> HandsOver(acts[i].call, tr[j].q.c, tr[j].q.sent[|tr[i].q.received|])
    ensures tr[j].cp.ok && acts[i].call.Look? ==> tr[j].q.c.CIdle? && tr[j].q.c.last.Address?
    ensures !tr[j].cp.ok || acts[i].call.Look? ==>
      tr[j].q.received == tr[i].q.received && tr[j].m.granted == tr[i].m.granted
    ensures !tr[j].cp.ok && acts[i].call.Look? ==> tr[j].q.c == Q.CIdle(Q.SawNothing)
    ensures acts[i].call.WaitTake? ==> tr[j].cp.ok
  {
    hide IsRun, I.Inv, M.Inv, IsPow2, M.Can, Q.Can;
    TakesSoFar(tr, acts, size, maxBlockSize, i, j);
    ElementsArePermits(tr, acts, size, maxBlockSize, j);
    CallTakes(tr, acts, size, maxBlockSize, i);
    C.OneTaken(tr[i].q.received, tr[j].q.received, tr[j].q.sent);
  }

  lemma CallTakes<T>(tr: seq<State<T>>, acts: seq<Action<T>>, size: nat, maxBlockSize: nat, i: nat)
    requires maxBlockSize >= 2 && IsRun(tr, acts, size, maxBlockSize) && i < |acts| && acts[i].Call?
    ensures acts[i].call.TryTake? ==> !acts[i].call.op.Peek?
  {
  }

  // ------------------------------------------------------------ how a call waits

  /** A load of `m_count` by the consumer, before it registers. */
  predicate Looks<T>(b: State<T>, act: Action<T>) {
    act.ConsumerStep? && b.cp.Asking? && M.Looks(b.m, M.WaiterStep(act.kernelGrants))
  }

  ghost function LooksTaken<T>(tr: seq<State<T>>, acts: seq<Action<T>>, i: nat, j: nat): (n: nat)
    requires j <= |acts| < |tr|
  {
    if i >= j then 0 else LooksTaken(tr, acts, i, j - 1) + If(Looks(tr[j - 1], acts[j - 1]))
  }

  ghost predicate NothingSeen<T>(tr: seq<State<T>>, acts: seq<Action<T>>, i: nat, j: nat)
    requires j <= |acts| < |tr|
  {
    forall k :: i <= k < j && Looks(tr[k], acts[k]) ==> tr[k].m.count <= 0
  }

  /** The kernel has let a wait with this timeout come back empty-handed. */
  ghost predicate KernelRefused<T>(tr: seq<State<T>>, acts: seq<Action<T>>, i: nat, j: nat, timeout: int)
    requires j <= |acts| < |tr|
  {
    exists k :: i <= k < j && Refuses(tr[k], acts[k], timeout)
  }

  predicate Refuses<T>(b: State<T>, act: Action<T>, timeout: int) {
    b.cp.Asking? && b.m.w == M.WKernel(timeout) && act.ConsumerStep? && !act.kernelGrants
  }

  predicate AsksOnce(call: ConsumerCall) {
    call.TryTake? || call.TimedTake?
  }

  /** One wait of the semaphore, from its start to what it has come to; then no other. */
  ghost predicate OneWait<T>(call: ConsumerCall, looks: nat, nothing: bool, refused: bool, b: State<T>) {
    && M.WaitSoFar(WaitOf(call), looks, nothing, refused, b.m.w)
    && (b.cp.Asking? ==> b.cp.call == call)
    && (b.cp == AtRest(false) ==> b.m.w == M.WIdle(M.Denied))
    && (!b.cp.Asking? ==> b.m.w.WIdle?)
    && !b.cp.Looking?
  }

  lemma OneWaitGoesOn<T>(call: ConsumerCall, looks: nat, nothing: bool, refused: bool, b: State<T>, act: Action<T>)
    requires AsksOnce(call) && OneWait(call, looks, nothing, refused, b) && Can(b, act) && !act.Call?
    ensures OneWait(call, looks + If(Looks(b, act)), nothing && (Looks(b, act) ==> b.m.count <= 0),
                    refused || (call.TimedTake? && Refuses(b, act, call.timeout)), Do(b, act))
  {
    hide Q.ConsumerNext, Q.ConsumerSafe, Q.ProducerNext, Q.ProducerSafe, M.WaitSoFar, M.WaiterNext;
    if act.ConsumerStep? && b.cp.Asking? {
      M.WaitGoesOn(WaitOf(call), looks, nothing, refused, b.m, act.kernelGrants);
      WaiterLog(b.m, act.kernelGrants);
    }
  }

  lemma OneWaitStarts<T>(b: State<T>, act: Action<T>)
    requires Can(b, act) && act.Call? && AsksOnce(act.call)
    ensures OneWait(act.call, 0, true, false, Do(b, act))
  {
    hide Q.ConsumerNext, Q.ConsumerSafe, Q.ProducerNext, Q.ProducerSafe;
  }

  lemma {:induction false} OneWaitSoFar<T>(tr: seq<State<T>>, acts: seq<Action<T>>, size: nat, maxBlockSize: nat, i: nat, j: nat)
    requires maxBlockSize >= 2 && IsRun(tr, acts, size, maxBlockSize) && TakeCall(tr, acts, i, j) && AsksOnce(acts[i].call)
    ensures var call := acts[i].call;
      OneWait(call, LooksTaken(tr, acts, i, j), NothingSeen(tr, acts, i, j),
              call.TimedTake? && KernelRefused(tr, acts, i, j, call.timeout), tr[j])
    decreases j
  {
    hide Do, Can, OneWait, InitialState, Looks, Refuses;
    var call, k := acts[i].call, j - 1;
    if k == i {
      OneWaitStarts(tr[i], acts[i]);
      CallLooksNot(tr[i], acts[i]);
      assert LooksTaken(tr, acts, i, i) == 0;
    } else {
      OneWaitSoFar(tr, acts, size, maxBlockSize, i, k);
      OneWaitGoesOn(call, LooksTaken(tr, acts, i, k), NothingSeen(tr, acts, i, k),
                    call.TimedTake? && KernelRefused(tr, acts, i, k, call.timeout), tr[k], acts[k]);
      assert NothingSeen(tr, acts, i, j) <==> NothingSeen(tr, acts, i, k) && (Looks(tr[k], acts[k]) ==> tr[k].m.count <= 0);
      if call.TimedTake? { OneMoreRefusal(tr, acts, i, k, call.timeout); }
    }
  }

  lemma CallLooksNot<T>(b: State<T>, act: Action<T>)
    requires act.Call?
    ensures !Looks(b, act) && forall t :: !Refuses(b, act, t)
  {
  }

  lemma OneMoreRefusal<T>(tr: seq<State<T>>, acts: seq<Action<T>>, i: nat, k: nat, timeout: int)
    requires i <= k < |acts| < |tr|
    ensures KernelRefused(tr, acts, i, k + 1, timeout) <==> KernelRefused(tr, acts, i, k, timeout) || Refuses(tr[k], acts[k], timeout)
  {
  }

  /** How the calls wait. `try_dequeue` and `pop` look once and never register or sleep.
      `wait_dequeue_timed` sleeps with its own timeout, not at all for a timeout of 0, and only
      after 1025 looks in vain; it returns false only after those and, but for a timeout of 0,
      after the kernel let it come back empty-handed. `wait_dequeue` sleeps without a limit. */
  lemma TakeWaits<T>(tr: seq<State<T>>, acts: seq<Action<T>>, size: nat, maxBlockSize: nat, i: nat, j: nat)
    requires R.Configuration(size, maxBlockSize) && IsRun(tr, acts, size, maxBlockSize) && TakeCall(tr, acts, i, j)
    ensures tr[j].cp.Asking? && (tr[j].m.w.WSpin? || tr[j].m.w.WRegister? || tr[j].m.w.WKernel?) ==> match acts[i].call
      case TimedTake(timeout) => tr[j].m.w.timeout == timeout && (timeout == 0 ==> !tr[j].m.w.WKernel?)
      case WaitTake => tr[j].m.w.timeout < 0
      case _ => false
    ensures acts[i].call.TryTake? ==> !M.Waiting(tr[j].m.w) && !tr[j].m.w.WSpin? && !tr[j].m.w.WRegister?
    ensures acts[i].call.TryTake? && tr[j].cp == AtRest(false) ==> LooksTaken(tr, acts, i, j) == 1 && NothingSeen(tr, acts, i, j)
    ensures acts[i].call.TimedTake? && (tr[j].cp == AtRest(false) || M.Waiting(tr[j].m.w)) ==>
      LooksTaken(tr, acts, i, j) == 1025 && NothingSeen(tr, acts, i, j)
    ensures acts[i].call.TimedTake? && tr[j].cp == AtRest(false) ==>
      acts[i].call.timeout == 0 || KernelRefused(tr, acts, i, j, acts[i].call.timeout)
  {
    hide IsRun, IsPow2, C.Dequeueing, NothingSeen, KernelRefused, LooksTaken;
    TakesSoFar(tr, acts, size, maxBlockSize, i, j);
    if AsksOnce(acts[i].call) { OneWaitSoFar(tr, acts, size, maxBlockSize, i, j); }
  }

  // ------------------------------------------------------------ peek

  lemma LookInside<T>(tr: seq<State<T>>, acts: seq<Action<T>>, size: nat, maxBlockSize: nat, i: nat, j: nat)
    returns (qtr: seq<Q.State<T>>, qacts: seq<Q.Action<T>>, pos: seq<nat>, src: seq<nat>)
    requires R.Configuration(size, maxBlockSize) && IsRun(tr, acts, size, maxBlockSize) && TakeCall(tr, acts, i, j) && acts[i].call.Look?
    ensures Q.IsRun(qtr, qacts, size, maxBlockSize) && |acts| < |tr| && forall k :: 0 <= k < |acts| ==> Can(tr[k], acts[k])
    ensures Follows(tr, acts, |acts|, qtr, qacts, pos, src) && |pos| == |tr|
    ensures pos[i] < |qtr| && pos[j] < |qtr| && qtr[pos[i]] == tr[i].q && qtr[pos[j]] == tr[j].q && pos[i] < |qacts|
    ensures T.ConsumerCall(qtr, qacts, pos[i], pos[j]) && qacts[pos[i]] == Q.Dequeue(Q.Peek)
  {
    qtr, qacts, pos, src := InnerRun(tr, acts, size, maxBlockSize, |acts|);
    hide Can, Q.IsRun, Takes;
    assert InnerAction(tr[i], acts[i]) == [Q.Dequeue(Q.Peek)];
    PositionsRise(tr, acts, |acts|, qtr, qacts, pos, src, i + 1, j);
    forall m | pos[i] < m < pos[j] ensures !qacts[m].Dequeue? {
      Within(tr, acts, |acts|, qtr, qacts, pos, src, i, j, m);
      TakesSoFar(tr, acts, size, maxBlockSize, i, src[m]);
      LookAsksNot(tr[i], acts[i].call, tr[src[m]]);
    }
  }

  lemma LookAsksNot<T>(b0: State<T>, call: ConsumerCall, b: State<T>)
    requires Takes(b0, call, b) && call.Look?
    ensures !b.cp.Asking?
  {
    hide C.Dequeueing;
  }

  /** A `peek` that returns null: at some instant of the call the queue was empty. */
  lemma LookFalseMeansEmpty<T>(tr: seq<State<T>>, acts: seq<Action<T>>, size: nat, maxBlockSize: nat, i: nat, j: nat) returns (k: nat)
    requires R.Configuration(size, maxBlockSize) && IsRun(tr, acts, size, maxBlockSize)
    requires TakeCall(tr, acts, i, j) && acts[i].call.Look? && tr[j].cp == AtRest(false)
    ensures i < k <= j && I.InOrder(tr[k].q) && Q.Fifo(tr[k].q) == []
  {
    hide IsRun, Q.IsRun, Can, Follows, T.ConsumerCall, IsPow2, TakeCall;
    Between(tr, acts, i, j);
    TakeReturns(tr, acts, size, maxBlockSize, i, j);
    var qtr, qacts, pos, src := LookInside(tr, acts, size, maxBlockSize, i, j);
    var m := T.FalseMeansEmpty(qtr, qacts, size, maxBlockSize, pos[i], pos[j]);
    Within(tr, acts, |acts|, qtr, qacts, pos, src, i, j, m - 1);
    k := src[m - 1] + 1;
  }

  lemma Between<T>(tr: seq<State<T>>, acts: seq<Action<T>>, i: nat, j: nat)
    requires TakeCall(tr, acts, i, j)
    ensures i < j <= |acts| < |tr| && acts[i].Call?
  {
  }
}
