/** src/atomicops.h, spsc_sema::LightweightSemaphore, as a state machine.

    One thread signals and one waits. Each fetch-and-add or load of `m_count` and each
    operation on the kernel semaphore is a step; the threads interleave freely. The kernel
    semaphore is a counter: a wait takes one from it when it can, and may also come back
    empty-handed at any time (a timeout or an interruption). */
module Semaphore {
  import opened Bits

  /** How the last wait ended. */
  datatype WaitResult = NeverWaited | Granted | Denied

  /** `timeout` is in microseconds; negative waits indefinitely. */
  datatype WaitCall = TryWait | Wait(timeout: int)

  datatype Signaler =
    | SIdle
    | SAdd(count: nat)
    | SPost

  /** The waiter's position, named after the step it takes next. */
  datatype Waiter =
    | WIdle(last: WaitResult)
    // tryWait
    | WLoad(call: WaitCall)
    // waitWithPartialSpinning; `spin` loads are left
    | WSpin(timeout: int, spin: nat)
    // a positive count was seen: m_count.fetch_add_acquire(-1), return true
    | WTake
    // m_count.fetch_add_acquire(-1) without having seen one
    | WRegister(timeout: int)
    | WKernel(timeout: int)
    // the re-adjust loop
    | WReadd
    | WRetract
    | WTryKernel

  const SPINS: nat := 1024

  /** `signalled` and `granted` count permits added and waits that returned true so far, and
      `atRegister` is what `signalled` was at the last registration; no step reads them. */
  datatype Sema = Sema(
    count: int, kernel: nat, s: Signaler, w: Waiter,
    initial: nat, signalled: nat, granted: nat, atRegister: nat)

  datatype Action =
    | Signal(count: nat)
    | SignalerStep
    | StartWait(call: WaitCall)
    | WaiterStep(kernelGrants: bool)

  function SignalerNext(m: Sema): Sema
    requires !m.s.SIdle?
  {
    match m.s
    case SAdd(count) =>
      m.(count := m.count + count, signalled := m.signalled + count, s := if m.count < 0 then SPost else SIdle)
    case SPost =>
      m.(kernel := m.kernel + 1, s := SIdle)
  }

  function Grant(m: Sema): Sema {
    m.(granted := m.granted + 1, w := WIdle(Granted))
  }

  function WaiterNext(m: Sema, kernelGrants: bool): Sema
    requires !m.w.WIdle? && (m.w.WKernel? && kernelGrants ==> m.kernel > 0)
  {
    match m.w
    case WLoad(call) =>
      if m.count > 0 then m.(w := WTake)
      else if call.TryWait? then m.(w := WIdle(Denied))
      else m.(w := WSpin(call.timeout, SPINS))
    case WSpin(timeout, spin) =>
      if spin == 0 then m.(w := WRegister(timeout))
      else if m.count > 0 then m.(w := WTake)
      else m.(w := WSpin(timeout, spin - 1))
    case WTake =>
      Grant(m.(count := m.count - 1))
    case WRegister(timeout) =>
      var m' := m.(count := m.count - 1, atRegister := m.signalled);
      if m.count > 0 then Grant(m')
      else m'.(w := if timeout == 0 then WReadd else WKernel(timeout))
    case WKernel(timeout) =>
      if kernelGrants then Grant(m.(kernel := m.kernel - 1)) else m.(w := WReadd)
    case WReadd =>
      m.(count := m.count + 1, w := if m.count < 0 then WIdle(Denied) else WRetract)
    case WRetract =>
      m.(count := m.count - 1, w := if m.count > 0 then WTryKernel else WReadd)
    case WTryKernel =>
      if m.kernel > 0 then Grant(m.(kernel := m.kernel - 1)) else m.(w := WReadd)
  }

  predicate Can(m: Sema, act: Action) {
    match act
    case Signal(_) => m.s.SIdle?
    case SignalerStep => !m.s.SIdle?
    case StartWait(_) => m.w.WIdle?
    case WaiterStep(kernelGrants) => !m.w.WIdle? && (m.w.WKernel? && kernelGrants ==> m.kernel > 0)
  }

  function Do(m: Sema, act: Action): Sema
    requires Can(m, act)
  {
    match act
    case Signal(count) => m.(s := SAdd(count))
    case SignalerStep => SignalerNext(m)
    case StartWait(call) => m.(w := WLoad(call))
    case WaiterStep(kernelGrants) => WaiterNext(m, kernelGrants)
  }

  function InitialSema(initial: nat): Sema {
    Sema(initial, 0, SIdle, WIdle(NeverWaited), initial, 0, 0, 0)
  }

  /** A run in which every signal adds at least `least` permits. */
  predicate IsRun(tr: seq<Sema>, acts: seq<Action>, initial: nat, least: nat) {
    && |tr| == |acts| + 1 && tr[0] == InitialSema(initial)
    && forall i :: 0 <= i < |acts| ==>
      Can(tr[i], acts[i]) && tr[i + 1] == Do(tr[i], acts[i]) && (acts[i].Signal? ==> acts[i].count >= least)
  }

  function AvailableApprox(m: Sema): nat {
    if m.count > 0 then m.count else 0
  }

  // ------------------------------------------------------------ the invariant

  /** The waiter has taken one from `m_count` that it was not granted. */
  predicate Registered(w: Waiter) {
    w.WKernel? || w.WReadd? || w.WTryKernel?
  }

  /** The waiter is past its registration and has not come back. */
  predicate Waiting(w: Waiter) {
    Registered(w) || w.WRetract?
  }

  /** A signal has been assigned to the waiter's registration. */
  predicate Satisfied(m: Sema) {
    (Registered(m.w) && m.count >= 0) || m.w.WRetract?
  }

  predicate Inv(m: Sema) {
    && (m.s.SAdd? ==> m.s.count >= 1)
    // conservation
    && m.initial + m.signalled == m.granted + m.count + If(Registered(m.w))
    // posts
    && m.kernel + If(m.s.SPost?) == If(Satisfied(m))
    // what each position knows of the count
    && m.count >= (if Registered(m.w) then -1 else 0)
    && (m.w.WTake? || m.w.WRetract? ==> m.count >= 1)
    && (m.w.WTryKernel? ==> m.count >= 0)
    // signals since registration
    && (Registered(m.w) ==> m.signalled - m.atRegister == m.count + 1)
    && (m.w.WRetract? ==> m.signalled - m.atRegister == m.count)
  }

  lemma StepKeeps(m: Sema, act: Action)
    requires Inv(m) && Can(m, act) && (act.Signal? ==> act.count >= 1)
    ensures Inv(Do(m, act))
  {
  }

  lemma {:induction false} Reachable(tr: seq<Sema>, acts: seq<Action>, initial: nat, least: nat, i: nat)
    requires least >= 1 && IsRun(tr, acts, initial, least) && i < |tr|
    ensures Inv(tr[i]) && tr[i].initial == initial
  {
    if i > 0 {
      Reachable(tr, acts, initial, least, i - 1);
      StepKeeps(tr[i - 1], acts[i - 1]);
    }
  }

  // ------------------------------------------------------------ over whole runs

  /** Permits are conserved: those there at first and those signalled have been granted, are
      in `m_count`, or cover the registration of a waiter. */
  lemma PermitsConserved(tr: seq<Sema>, acts: seq<Action>, initial: nat, i: nat)
    requires IsRun(tr, acts, initial, 1) && i < |tr|
    ensures initial + tr[i].signalled == tr[i].granted + tr[i].count + If(Registered(tr[i].w))
    ensures tr[i].granted <= initial + tr[i].signalled
    ensures tr[i].count >= -1
    ensures tr[i].w.WIdle? ==> tr[i].count == initial + tr[i].signalled - tr[i].granted
  {
    Reachable(tr, acts, initial, 1, i);
  }

  /** No post is ever left over: outside its wait the waiter finds the kernel semaphore at
      zero, with no post on its way; inside, there is one, posted or on its way, exactly when
      a signal has been assigned to it. */
  lemma NoPostLeaks(tr: seq<Sema>, acts: seq<Action>, initial: nat, i: nat)
    requires IsRun(tr, acts, initial, 1) && i < |tr|
    ensures !Waiting(tr[i].w) ==> tr[i].kernel == 0 && !tr[i].s.SPost?
    ensures Waiting(tr[i].w) ==> tr[i].kernel + If(tr[i].s.SPost?) == If(tr[i].signalled > tr[i].atRegister)
  {
    Reachable(tr, acts, initial, 1, i);
  }

  /** The re-adjust loop goes round again only while the signaler is between its increment
      and its post. */
  lemma RetryMeansPostPending(tr: seq<Sema>, acts: seq<Action>, initial: nat, i: nat)
    requires IsRun(tr, acts, initial, 1) && i + 1 < |tr|
    requires acts[i].WaiterStep? && tr[i].w in {WRetract, WTryKernel} && tr[i + 1].w == WReadd
    ensures tr[i].w == WTryKernel && tr[i].s == SPost
  {
    Reachable(tr, acts, initial, 1, i);
  }

  /** At most how many steps of its own the waiter is away from its grant, once the post has
      landed. */
  function RoundLeft(w: Waiter): nat {
    match w
    case WReadd => 3
    case WRetract => 2
    case WTryKernel => 1
    case _ => 0
  }

  /** Steps of the waiter among actions i .. j - 1. */
  function WaiterSteps(acts: seq<Action>, i: nat, j: nat): (n: nat)
    requires j <= |acts|
  {
    if i >= j then 0 else WaiterSteps(acts, i, j - 1) + If(acts[j - 1].WaiterStep?)
  }

  /** Once the post has landed, the loop does not go round again: however the signaler goes
      on, the wait that is in progress returns true, after what is left of one round. */
  lemma {:induction false} LandedPostIsTaken(tr: seq<Sema>, acts: seq<Action>, initial: nat, i: nat, j: nat)
    requires IsRun(tr, acts, initial, 1) && i < j < |tr|
    requires tr[i].w in {WReadd, WRetract, WTryKernel} && tr[i].kernel > 0
    requires forall k :: i < k < j ==> !tr[k].w.WIdle?
    ensures tr[j].w.WIdle? ==> tr[j].w == WIdle(Granted)
    ensures !tr[j].w.WIdle? ==> tr[j].kernel > 0 && tr[j].w in {WReadd, WRetract, WTryKernel}
    ensures WaiterSteps(acts, i, j) + RoundLeft(tr[j].w) == RoundLeft(tr[i].w)
    decreases j
  {
    if j > i + 1 {
      LandedPostIsTaken(tr, acts, initial, i, j - 1);
    } else {
      assert WaiterSteps(acts, i, i) == 0;
    }
    Reachable(tr, acts, initial, 1, j - 1);
  }

  lemma {:induction false} RegisteredAt(tr: seq<Sema>, acts: seq<Action>, initial: nat, i: nat, j: nat)
    requires IsRun(tr, acts, initial, 1) && i < j < |tr|
    requires acts[i].WaiterStep? && tr[i].w.WRegister?
    requires forall k :: i < k <= j ==> !tr[k].w.WIdle?
    ensures Waiting(tr[j].w) && tr[j].atRegister == tr[i].signalled && tr[j].granted == tr[i].granted
    decreases j
  {
    if j > i + 1 { RegisteredAt(tr, acts, initial, i, j - 1); }
  }

  /** A wait gives up only on seeing no permit: none in `m_count`, and none for its own
      registration. */
  lemma DeniedMeansNone(m: Sema, kernelGrants: bool)
    requires Inv(m) && Can(m, WaiterStep(kernelGrants)) && Do(m, WaiterStep(kernelGrants)).w == WIdle(Denied)
    ensures m.count + If(Registered(m.w)) == 0
  {
  }

  /** A wait that registers and then returns false was assigned no signal: none was sent from
      its registration until it withdrew, it takes no permit along, and it leaves no post
      behind. */
  lemma DeniedMeansUnsignalled(tr: seq<Sema>, acts: seq<Action>, initial: nat, i: nat, j: nat)
    requires IsRun(tr, acts, initial, 1) && i < j < |tr|
    requires acts[i].WaiterStep? && tr[i].w.WRegister?
    requires forall k :: i < k < j ==> !tr[k].w.WIdle?
    requires tr[j].w == WIdle(Denied)
    ensures tr[j].signalled == tr[i].signalled && tr[j].granted == tr[i].granted
    ensures tr[j].kernel == 0 && !tr[j].s.SPost?
  {
    if j > i + 1 { RegisteredAt(tr, acts, initial, i, j - 1); }
    Reachable(tr, acts, initial, 1, j - 1);
    Reachable(tr, acts, initial, 1, j);
  }

  // ------------------------------------------------------------ one wait

  /** Actions i .. j - 1 belong to the wait that starts with action i, or to the signaler. */
  ghost predicate WaitWindow(tr: seq<Sema>, acts: seq<Action>, i: nat, j: nat) {
    && i < j < |tr| && |tr| == |acts| + 1 && acts[i].StartWait?
    && forall k :: i < k < j ==> !acts[k].StartWait?
  }

  /** A load of `m_count`, before registering. */
  predicate Looks(m: Sema, act: Action) {
    act.WaiterStep? && (m.w.WLoad? || (m.w.WSpin? && m.w.spin > 0))
  }

  function LooksTaken(tr: seq<Sema>, acts: seq<Action>, i: nat, j: nat): (n: nat)
    requires j <= |acts| < |tr|
  {
    if i >= j then 0 else LooksTaken(tr, acts, i, j - 1) + If(Looks(tr[j - 1], acts[j - 1]))
  }

  /** No such load has found a permit. */
  ghost predicate NothingSeen(tr: seq<Sema>, acts: seq<Action>, i: nat, j: nat)
    requires j <= |acts| < |tr|
  {
    forall k :: i <= k < j && Looks(tr[k], acts[k]) ==> tr[k].count <= 0
  }

  /** The kernel has let a wait with this timeout come back empty-handed. */
  ghost predicate KernelRefused(tr: seq<Sema>, acts: seq<Action>, i: nat, j: nat, timeout: int)
    requires j <= |acts| < |tr|
  {
    exists k :: i <= k < j && tr[k].w == WKernel(timeout) && acts[k] == WaiterStep(false)
  }

  /** What a wait has been through when it is at w. */
  ghost predicate WaitSoFar(call: WaitCall, looks: nat, nothing: bool, refused: bool, w: Waiter) {
    match w
    case WIdle(last) =>
      && !last.NeverWaited?
      && (last.Denied? ==> nothing && if call.TryWait? then looks == 1 else looks == 1025 && (call.timeout == 0 || refused))
    case WLoad(c) => c == call && looks == 0 && nothing
    case WSpin(timeout, spin) => call == Wait(timeout) && looks + spin == 1025 && spin <= 1024 && nothing
    case WTake => true
    case WRegister(timeout) => call == Wait(timeout) && looks == 1025 && nothing
    case WKernel(timeout) => call == Wait(timeout) && timeout != 0 && looks == 1025 && nothing
    case _ => call.Wait? && looks == 1025 && nothing && (call.timeout == 0 || refused)
  }

  lemma WaitGoesOn(call: WaitCall, looks: nat, nothing: bool, refused: bool, m: Sema, kernelGrants: bool)
    requires WaitSoFar(call, looks, nothing, refused, m.w) && Can(m, WaiterStep(kernelGrants))
    ensures var act := WaiterStep(kernelGrants);
      WaitSoFar(call, looks + If(Looks(m, act)), nothing && (Looks(m, act) ==> m.count <= 0),
                refused || (call.Wait? && m.w == WKernel(call.timeout) && !kernelGrants), Do(m, act).w)
  {
  }

  lemma {:induction false} WaitIsAt(tr: seq<Sema>, acts: seq<Action>, initial: nat, least: nat, i: nat, j: nat)
    requires IsRun(tr, acts, initial, least) && WaitWindow(tr, acts, i, j)
    ensures var call := acts[i].call;
      WaitSoFar(call, LooksTaken(tr, acts, i, j), NothingSeen(tr, acts, i, j),
                call.Wait? && KernelRefused(tr, acts, i, j, call.timeout), tr[j].w)
    decreases j
  {
    var call, k := acts[i].call, j - 1;
    if k == i {
      assert LooksTaken(tr, acts, i, i) == 0;
    } else {
      WaitIsAt(tr, acts, initial, least, i, k);
      assert tr[j] == Do(tr[k], acts[k]) && Can(tr[k], acts[k]);
      if acts[k].WaiterStep? {
        WaitGoesOn(call, LooksTaken(tr, acts, i, k), NothingSeen(tr, acts, i, k),
                   call.Wait? && KernelRefused(tr, acts, i, k, call.timeout), tr[k], acts[k].kernelGrants);
        hide WaitSoFar, Do, Can, IsRun, WaitWindow;
        assert NothingSeen(tr, acts, i, j) <==> NothingSeen(tr, acts, i, k) && (Looks(tr[k], acts[k]) ==> tr[k].count <= 0);
        if call.Wait? { OneMoreAction(tr, acts, i, k, call.timeout); }
      } else {
        hide WaitSoFar, Can, IsRun;
        assert tr[j].w == tr[k].w;
        assert NothingSeen(tr, acts, i, j) <==> NothingSeen(tr, acts, i, k);
        if call.Wait? { OneMoreAction(tr, acts, i, k, call.timeout); }
      }
    }
  }

  lemma OneMoreAction(tr: seq<Sema>, acts: seq<Action>, i: nat, k: nat, timeout: int)
    requires i <= k < |acts| < |tr|
    ensures KernelRefused(tr, acts, i, k + 1, timeout) <==>
      KernelRefused(tr, acts, i, k, timeout) || (tr[k].w == WKernel(timeout) && acts[k] == WaiterStep(false))
  {
  }

  /** `tryWait` looks once and never registers or sleeps. A wait registers after 1025 looks, all
      in vain; it sleeps with the timeout it was given, and not with a timeout of 0. It returns
      false only if no look found a permit and, but for a timeout of 0, the kernel let it come
      back empty-handed. */
  lemma WaitOutcome(tr: seq<Sema>, acts: seq<Action>, initial: nat, least: nat, i: nat, j: nat)
    requires IsRun(tr, acts, initial, least) && WaitWindow(tr, acts, i, j)
    ensures acts[i].call.TryWait? ==> tr[j].w.WLoad? || tr[j].w.WTake? || tr[j].w.WIdle?
    ensures tr[j].w.WKernel? ==> acts[i].call == Wait(tr[j].w.timeout) && tr[j].w.timeout != 0
    ensures Waiting(tr[j].w) ==> LooksTaken(tr, acts, i, j) == 1025 && NothingSeen(tr, acts, i, j)
    ensures tr[j].w.WIdle? ==> tr[j].w.last.Granted? || tr[j].w.last.Denied?
    ensures tr[j].w == WIdle(Denied) ==>
      && NothingSeen(tr, acts, i, j)
      && match acts[i].call
         case TryWait => LooksTaken(tr, acts, i, j) == 1
         case Wait(timeout) =>
           LooksTaken(tr, acts, i, j) == 1025 && (timeout == 0 || KernelRefused(tr, acts, i, j, timeout))
  {
    WaitIsAt(tr, acts, initial, least, i, j);
  }

  /** What `availableApprox` answers: the permits there that no wait has been granted or has
      registered for. */
  lemma AvailableIs(tr: seq<Sema>, acts: seq<Action>, initial: nat, i: nat)
    requires IsRun(tr, acts, initial, 1) && i < |tr|
    ensures var spoken := tr[i].granted + If(Registered(tr[i].w));
      AvailableApprox(tr[i]) == if initial + tr[i].signalled > spoken then initial + tr[i].signalled - spoken else 0
  {
    Reachable(tr, acts, initial, 1, i);
  }

  // ------------------------------------------------------------ signals of nothing

  ghost predicate NeverOvergrants(least: nat) {
    forall tr: seq<Sema>, acts: seq<Action>, initial: nat :: IsRun(tr, acts, initial, least) ==>
      tr[|tr| - 1].granted <= initial + tr[|tr| - 1].signalled
  }

  lemma Extend(tr: seq<Sema>, acts: seq<Action>, act: Action) returns (tr': seq<Sema>, acts': seq<Action>)
    requires IsRun(tr, acts, 0, 0) && Can(tr[|tr| - 1], act)
    ensures IsRun(tr', acts', 0, 0) && tr'[|tr'| - 1] == Do(tr[|tr| - 1], act)
  {
    tr', acts' := tr + [Do(tr[|tr| - 1], act)], acts + [act];
  }

  /** Spinning out while nothing is signalled. */
  lemma {:induction false} SpinOut(tr0: seq<Sema>, acts0: seq<Action>, timeout: int, spin: nat) returns (tr: seq<Sema>, acts: seq<Action>)
    requires IsRun(tr0, acts0, 0, 0) && tr0[|tr0| - 1] == InitialSema(0).(w := WSpin(timeout, spin))
    ensures IsRun(tr, acts, 0, 0) && tr[|tr| - 1] == InitialSema(0).(w := WRegister(timeout))
    decreases spin
  {
    tr, acts := Extend(tr0, acts0, WaiterStep(false));
    if spin > 0 {
      tr, acts := SpinOut(tr, acts, timeout, spin - 1);
    }
  }

  /** signal(0) posts to a registered waiter without adding a permit. */
  lemma ZeroSignalOvergrants() returns (tr: seq<Sema>, acts: seq<Action>)
    ensures IsRun(tr, acts, 0, 0) && tr[|tr| - 1].granted == 1 && tr[|tr| - 1].signalled == 0
  {
    tr, acts := [InitialSema(0)], [];
    tr, acts := Extend(tr, acts, StartWait(Wait(-1)));
    tr, acts := Extend(tr, acts, WaiterStep(false));
    tr, acts := SpinOut(tr, acts, -1, SPINS);
    tr, acts := Extend(tr, acts, WaiterStep(false));
    tr, acts := Extend(tr, acts, Signal(0));
    tr, acts := Extend(tr, acts, SignalerStep);
    tr, acts := Extend(tr, acts, SignalerStep);
    tr, acts := Extend(tr, acts, WaiterStep(true));
  }

  /** No wait is granted a permit that was not there, whatever the run, exactly when every
      signal adds at least one. */
  lemma GrantsNeedSignals(least: nat)
    ensures NeverOvergrants(least) <==> least >= 1
  {
    if least == 0 {
      var tr, acts := ZeroSignalOvergrants();
    } else {
      forall tr: seq<Sema>, acts: seq<Action>, initial: nat | IsRun(tr, acts, initial, least)
        ensures tr[|tr| - 1].granted <= initial + tr[|tr| - 1].signalled
      {
        Reachable(tr, acts, initial, least, |tr| - 1);
      }
    }
  }
}
