/** src/synthesis/filter.cpp over exact reals: a filter whose state vector is shifted in place
    and carried from chunk to chunk. */
module Filters {
  import opened Signals

  /** A vector passed by reference. */
  class Vector {
    var elems: seq<real>
    constructor (elems: seq<real>)
      ensures this.elems == elems
    {
      this.elems := elems;
    }

    method Resize(n: nat)
      modifies this
      ensures elems == Resized(old(elems), n)
    {
      var z := elems;
      elems := if |z| >= n then z[..n] else z + seq(n - |z|, _ => 0.0);
      assert forall i :: 0 <= i < n ==> elems[i] == Sig(z)(i);
    }
  }

  function Max(a: nat, b: nat): nat {
    if a >= b then a else b
  }

  /** A coefficient list padded to n entries and divided by a0. */
  function Normal(c: seq<real>, n: nat, a0: real): (r: seq<real>)
    requires a0 != 0.0
    ensures |r| == n
  {
    seq(n, i => Sig(c)(i) / a0)
  }

  /** A state vector resized to n entries. */
  function Resized(z: seq<real>, n: nat): (r: seq<real>)
    ensures |r| == n
  {
    seq(n, i => Sig(z)(i))
  }

  // ------------------------------------------------------------ specification

  /** y answers x: sum a[k] y[n-k] = z[n] + sum b[k] x[n-k], for every n of the chunk, with
      nothing before it but what the state z brings along. */
  ghost predicate Solves(b: seq<real>, a: seq<real>, z: seq<real>, x: seq<real>, y: seq<real>) {
    && |y| == |x|
    && forall n :: 0 <= n < |x| ==> Apply(a, Sig(y), n) == Sig(z)(n) + Apply(b, Sig(x), n)
  }

  /** Entry j of the state after i samples: what the inputs and outputs so far contribute to
      the output j samples on. */
  function StateEntry(b: seq<real>, a: seq<real>, z: seq<real>, x: Signal, y: Signal, i: int, j: int): real {
    Sig(z)(i + j) + Tap(Sig(b), j + 1, |b|, x, i - 1) - Tap(Sig(a), j + 1, |a|, y, i - 1)
  }

  ghost predicate StateIs(b: seq<real>, a: seq<real>, z: seq<real>, x: Signal, y: Signal, i: int, zf: seq<real>) {
    |zf| + 1 == |b| == |a| && forall j :: 0 <= j < |zf| ==> zf[j] == StateEntry(b, a, z, x, y, i, j)
  }

  /** One sample moves each entry of the state by its neighbour and the new sample. */
  lemma StateMoves(b: seq<real>, a: seq<real>, z: seq<real>, x: Signal, y: Signal, i: nat, j: nat)
    requires |a| == |b| && j + 1 < |b| && |z| < |b|
    ensures StateEntry(b, a, z, x, y, i + 1, j)
         == (if j + 2 < |b| then StateEntry(b, a, z, x, y, i, j + 1) else 0.0) + b[j + 1] * x(i) - a[j + 1] * y(i)
  {
    assert Tap(Sig(b), j + 1, |b|, x, i) == b[j + 1] * x(i) + Tap(Sig(b), j + 2, |b|, x, i - 1);
    assert Tap(Sig(a), j + 1, |a|, y, i) == a[j + 1] * y(i) + Tap(Sig(a), j + 2, |a|, y, i - 1);
  }

  lemma StateStart(b: seq<real>, a: seq<real>, z: seq<real>, x: Signal, y: Signal, j: nat)
    requires forall m :: m < 0 ==> x(m) == 0.0 && y(m) == 0.0
    ensures StateEntry(b, a, z, x, y, 0, j) == Sig(z)(j)
  {
    BeforeZero(Sig(b), j + 1, |b|, x, -1);
    BeforeZero(Sig(a), j + 1, |a|, y, -1);
  }

  lemma StateCausal(b: seq<real>, a: seq<real>, z: seq<real>, x: Signal, y: Signal, y': Signal, i: int, j: nat)
    requires forall m :: m < i ==> y(m) == y'(m)
    ensures StateEntry(b, a, z, x, y, i, j) == StateEntry(b, a, z, x, y', i, j)
  {
    Causal(Sig(a), j + 1, |a|, y, y', i - 1);
  }

  /** The output that goes with a state: a0 is 1 after normalisation. */
  lemma OutputSolves(b: seq<real>, a: seq<real>, z: seq<real>, x: Signal, y: Signal, n: nat)
    requires |a| == |b| >= 1 && a[0] == 1.0
    ensures y(n) == StateEntry(b, a, z, x, y, n, 0) + b[0] * x(n)
       <==> Apply(a, y, n) == Sig(z)(n) + Apply(b, x, n)
  {
    assert Tap(Sig(a), 0, |a|, y, n) == a[0] * y(n) + Tap(Sig(a), 1, |a|, y, n - 1);
    assert Tap(Sig(b), 0, |b|, x, n) == b[0] * x(n) + Tap(Sig(b), 1, |b|, x, n - 1);
  }

  // ------------------------------------------------------------ the loops

  /** What one sample x in and y out does to the state: each entry moves up by one place and
      takes in the new sample. */
  ghost predicate Moved(b: seq<real>, a: seq<real>, x: real, y: real, zi: seq<real>, zi': seq<real>)
    requires |b| == |a| == |zi| + 1
  {
    && |zi'| == |zi|
    && forall j :: 0 <= j < |zi| ==> zi'[j] == (if j + 1 < |zi| then zi[j + 1] else 0.0) + b[j + 1] * x - a[j + 1] * y
  }

  /** The inner loop: one sample x in, one y out, the state shifted in place. The entries are
      overwritten front to back, each from the one after it. */
  method ShiftState(zf: Vector, bp: seq<real>, ap: seq<real>, xi: real, yi: real)
    requires |bp| == |ap| == |zf.elems| + 1 >= 2
    modifies zf
    ensures Moved(bp, ap, xi, yi, old(zf.elems), zf.elems)
  {
    var lz := |zf.elems|;
    for j := 0 to lz - 1
      invariant |zf.elems| == lz
      invariant forall k :: 0 <= k < j ==> zf.elems[k] == old(zf.elems)[k + 1] + bp[k + 1] * xi - ap[k + 1] * yi
      invariant forall k :: j <= k < lz ==> zf.elems[k] == old(zf.elems)[k]
    {
      zf.elems := zf.elems[j := zf.elems[j + 1] + bp[j + 1] * xi - ap[j + 1] * yi];
    }
    zf.elems := zf.elems[lz - 1 := bp[lz] * xi - ap[lz] * yi];
  }

  /** The outer loop: as many outputs as inputs, each from the head of the state. */
  method Run(bp: seq<real>, ap: seq<real>, x: seq<real>, zf: Vector) returns (y: array<real>)
    requires |bp| == |ap| == |zf.elems| + 1 >= 2 && ap[0] == 1.0
    modifies zf
    ensures fresh(y) && Solves(bp, ap, old(zf.elems), x, y[..])
    ensures StateIs(bp, ap, old(zf.elems), Sig(x), Sig(y[..]), |x|, zf.elems)
  {
    hide StateIs, Solves, Moved, MovedFir, Sig;
    ghost var z := zf.elems;
    var lx := |x|;
    y := new real[lx];
    Begins(bp, ap, z, x);
    assert y[..0] == [];
    for i := 0 to lx
      invariant y.Length == lx && |zf.elems| == |z|
      invariant StateIs(bp, ap, z, Sig(x), Sig(y[..i]), i, zf.elems)
      invariant Solves(bp, ap, z, x[..i], y[..i])
    {
      ghost var before, zi := y[..i], zf.elems;
      y[i] := zf.elems[0] + bp[0] * x[i];
      ShiftState(zf, bp, ap, x[i], y[i]);
      assert y[..i + 1] == before + [y[i]];
      Advanced(bp, ap, z, x, before, y[i], i, zi, zf.elems);
    }
    assert y[..lx] == y[..] && x[..lx] == x;
  }

  lemma Begins(b: seq<real>, a: seq<real>, z: seq<real>, x: seq<real>)
    requires |z| + 1 == |b| == |a|
    ensures StateIs(b, a, z, Sig(x), Sig([]), 0, z) && Solves(b, a, z, x[..0], [])
  {
    forall j | 0 <= j < |z| ensures StateEntry(b, a, z, Sig(x), Sig([]), 0, j) == z[j] {
      StateStart(b, a, z, Sig(x), Sig([]), j);
    }
  }

  ghost predicate MovedFir(b: seq<real>, x: real, zi: seq<real>, zi': seq<real>)
    requires |b| == |zi| + 1
  {
    && |zi'| == |zi|
    && forall j :: 0 <= j < |zi| ==> zi'[j] == (if j + 1 < |zi| then zi[j + 1] else 0.0) + b[j + 1] * x
  }

  /** Without feedback the output does not come back. */
  lemma FirMoves(b: seq<real>, a: seq<real>, x: real, y: real, zi: seq<real>, zi': seq<real>)
    requires |b| == |a| == |zi| + 1 && MovedFir(b, x, zi, zi') && forall k :: 1 <= k < |a| ==> a[k] == 0.0
    ensures Moved(b, a, x, y, zi, zi')
  {
    forall k | 1 <= k < |a| ensures a[k] * y == 0.0 { ZeroProduct(a[k], y); }
  }

  /** The inner loop of the branch for a single denominator coefficient. */
  method ShiftStateFir(zf: Vector, bp: seq<real>, xi: real)
    requires |bp| == |zf.elems| + 1 >= 2
    modifies zf
    ensures MovedFir(bp, xi, old(zf.elems), zf.elems)
  {
    var lz := |zf.elems|;
    for j := 0 to lz - 1
      invariant |zf.elems| == lz
      invariant forall k :: 0 <= k < j ==> zf.elems[k] == old(zf.elems)[k + 1] + bp[k + 1] * xi
      invariant forall k :: j <= k < lz ==> zf.elems[k] == old(zf.elems)[k]
    {
      zf.elems := zf.elems[j := zf.elems[j + 1] + bp[j + 1] * xi];
    }
    zf.elems := zf.elems[lz - 1 := bp[lz] * xi];
  }

  method RunFir(bp: seq<real>, ghost ap: seq<real>, x: seq<real>, zf: Vector) returns (y: array<real>)
    requires |bp| == |ap| == |zf.elems| + 1 >= 2 && ap[0] == 1.0
    requires forall k :: 1 <= k < |ap| ==> ap[k] == 0.0
    modifies zf
    ensures fresh(y) && Solves(bp, ap, old(zf.elems), x, y[..])
    ensures StateIs(bp, ap, old(zf.elems), Sig(x), Sig(y[..]), |x|, zf.elems)
  {
    hide StateIs, Solves, Moved, MovedFir, Sig;
    ghost var z := zf.elems;
    var lx := |x|;
    y := new real[lx];
    Begins(bp, ap, z, x);
    assert y[..0] == [];
    for i := 0 to lx
      invariant y.Length == lx && |zf.elems| == |z|
      invariant StateIs(bp, ap, z, Sig(x), Sig(y[..i]), i, zf.elems)
      invariant Solves(bp, ap, z, x[..i], y[..i])
    {
      ghost var before, zi := y[..i], zf.elems;
      y[i] := zf.elems[0] + bp[0] * x[i];
      ShiftStateFir(zf, bp, x[i]);
      FirMoves(bp, ap, x[i], y[i], zi, zf.elems);
      assert y[..i + 1] == before + [y[i]];
      Advanced(bp, ap, z, x, before, y[i], i, zi, zf.elems);
    }
    assert y[..lx] == y[..] && x[..lx] == x;
  }

  /** One round of the outer loop. */
  lemma Advanced(b: seq<real>, a: seq<real>, z: seq<real>, x: seq<real>, y: seq<real>, yi: real, i: nat, zi: seq<real>, zi': seq<real>)
    requires |y| == i < |x| && |a| == |b| == |zi| + 1 == |zi'| + 1 >= 2 && a[0] == 1.0 && |z| == |zi|
    requires StateIs(b, a, z, Sig(x), Sig(y), i, zi) && Solves(b, a, z, x[..i], y)
    requires yi == zi[0] + b[0] * x[i]
    requires Moved(b, a, x[i], yi, zi, zi')
    ensures StateIs(b, a, z, Sig(x), Sig(y + [yi]), i + 1, zi') && Solves(b, a, z, x[..i + 1], y + [yi])
  {
    var y' := y + [yi];
    forall j | 0 <= j < |zi| ensures zi'[j] == StateEntry(b, a, z, Sig(x), Sig(y'), i + 1, j) {
      StateMoves(b, a, z, Sig(x), Sig(y'), i, j);
      if j + 1 < |zi| { StateCausal(b, a, z, Sig(x), Sig(y), Sig(y'), i, j + 1); }
    }
    forall n | 0 <= n < i + 1 ensures Apply(a, Sig(y'), n) == Sig(z)(n) + Apply(b, Sig(x[..i + 1]), n) {
      Causal(Sig(b), 0, |b|, Sig(x[..i + 1]), Sig(x), n);
      if n < i {
        Causal(Sig(a), 0, |a|, Sig(y'), Sig(y), n);
        Causal(Sig(b), 0, |b|, Sig(x[..i]), Sig(x), n);
      } else {
        StateCausal(b, a, z, Sig(x), Sig(y), Sig(y'), i, 0);
        OutputSolves(b, a, z, Sig(x), Sig(y'), i);
      }
    }
  }

  /** `bp.resize(lab, 0.0)` and the division by `a[0]`. */
  method Normalise(c: seq<real>, n: nat, a0: real) returns (r: seq<real>)
    requires a0 != 0.0 && |c| <= n
    ensures r == Normal(c, n, a0)
  {
    r := c + seq(n - |c|, _ => 0.0);
    for i := 0 to n
      invariant |r| == n
      invariant forall k :: 0 <= k < i ==> r[k] == Sig(c)(k) / a0
      invariant forall k :: i <= k < n ==> r[k] == Sig(c)(k)
    {
      r := r[i := r[i] / a0];
    }
  }

  /** What `filter` answers: the solution of the difference equation; but zeros when both
      coefficient lists have a single entry, since then neither branch runs. */
  ghost predicate Answers(b: seq<real>, a: seq<real>, z: seq<real>, x: seq<real>, y: seq<real>)
    requires |a| >= 1 && a[0] != 0.0
  {
    var lab := Max(|a|, |b|);
    if lab >= 2 then Solves(Normal(b, lab, a[0]), Normal(a, lab, a[0]), Resized(z, lab - 1), x, y)
    else y == seq(|x|, _ => 0.0)
  }

  /** The state `filter` leaves behind. */
  ghost predicate Leaves(b: seq<real>, a: seq<real>, z: seq<real>, x: seq<real>, y: seq<real>, z': seq<real>)
    requires |a| >= 1 && a[0] != 0.0
  {
    var lab := Max(|a|, |b|);
    StateIs(Normal(b, lab, a[0]), Normal(a, lab, a[0]), Resized(z, lab - 1), Sig(x), Sig(y), |x|, z')
  }

  /** Synthesis::filter. The state vector may have any length: it is resized first. */
  method Filter(b: seq<real>, a: seq<real>, x: seq<real>, zf: Vector) returns (y: seq<real>)
    requires |a| >= 1 && a[0] != 0.0
    modifies zf
    ensures |y| == |x| && |zf.elems| == (if |a| >= |b| then |a| else |b|) - 1
    ensures Answers(b, a, old(zf.elems), x, y)
    ensures |a| == 1 && |b| <= 1 ==> forall n :: 0 <= n < |x| ==> y[n] == 0.0
    ensures Leaves(b, a, old(zf.elems), x, y, zf.elems)
  {
    var la, lb := |a|, |b|;
    var lab := Max(la, lb);
    var bp := Normalise(b, lab, a[0]);
    var ap := Normalise(a, lab, a[0]);
    var lz := lab - 1;
    ghost var z := zf.elems;
    zf.Resize(lz);
    LeadingOne(a, lab);
    hide Solves, StateIs, Normal, Resized;
    if la > 1 {
      var out := Run(bp, ap, x, zf);
      y := out[..];
    } else if lz > 0 {
      PaddingIsZero(a, lab);
      var out := RunFir(bp, ap, x, zf);
      y := out[..];
    } else {
      y := seq(|x|, _ => 0.0);
      NoState(bp, ap, Resized(z, 0), x, y);
    }
    SolvesLength(bp, ap, Resized(z, lz), x, y);
  }

  lemma PaddingIsZero(a: seq<real>, n: nat)
    requires |a| == 1 && a[0] != 0.0
    ensures forall k :: 1 <= k < n ==> Normal(a, n, a[0])[k] == 0.0
  {
    forall k | 1 <= k < n ensures Normal(a, n, a[0])[k] == 0.0 {
      assert Normal(a, n, a[0])[k] == Sig(a)(k) / a[0];
      Quotient(0.0, a[0]);
    }
  }

  lemma LeadingOne(a: seq<real>, n: nat)
    requires 1 <= |a| <= n && a[0] != 0.0
    ensures Normal(a, n, a[0])[0] == 1.0
  {
    assert Normal(a, n, a[0])[0] == Sig(a)(0) / a[0];
    Quotient(a[0], a[0]);
  }

  lemma Quotient(x: real, a0: real)
    requires a0 != 0.0
    ensures (x / a0) * a0 == x
    ensures x == 0.0 ==> x / a0 == 0.0
    ensures x == a0 ==> x / a0 == 1.0
  {
  }

  lemma NoState(b: seq<real>, a: seq<real>, z: seq<real>, x: seq<real>, y: seq<real>)
    requires |a| == |b| == 1
    ensures StateIs(b, a, z, Sig(x), Sig(y), |x|, [])
  {
  }

  lemma SolvesLength(b: seq<real>, a: seq<real>, z: seq<real>, x: seq<real>, y: seq<real>)
    ensures Solves(b, a, z, x, y) ==> |y| == |x|
  {
  }

  /** An incoming state of another length stands for its first entries, or for itself followed
      by zeros; the first output shows what its first entry does. */
  lemma StateOfAnyLength(b: seq<real>, a: seq<real>, z: seq<real>, x: seq<real>, y: seq<real>)
    requires |a| >= 1 && a[0] != 0.0
    ensures var n := (if |a| >= |b| then |a| else |b|) - 1;
      Answers(b, a, z, x, y) <==> Answers(b, a, if |z| >= n then z[..n] else z + seq(n - |z|, _ => 0.0), x, y)
    ensures (|a| >= 2 || |b| >= 2) && Answers(b, a, z, x, y) && |x| >= 1 ==>
      a[0] * y[0] == (if |z| >= 1 then a[0] * z[0] else 0.0) + (if |b| >= 1 then b[0] * x[0] else 0.0)
  {
    var n := Max(|a|, |b|) - 1;
    var z' := if |z| >= n then z[..n] else z + seq(n - |z|, _ => 0.0);
    SameState(z, z', n);
    if n >= 1 && Answers(b, a, z, x, y) && |x| >= 1 {
      FirstOutput(b, a, z, x, y);
    }
  }

  lemma SameState(z: seq<real>, z': seq<real>, n: nat)
    requires z' == if |z| >= n then z[..n] else z + seq(n - |z|, _ => 0.0)
    ensures Resized(z, n) == Resized(z', n)
  {
    forall i | 0 <= i < n ensures Resized(z, n)[i] == Resized(z', n)[i] {
      assert Resized(z, n)[i] == Sig(z)(i) && Resized(z', n)[i] == Sig(z')(i);
    }
  }

  lemma FirstOutput(b: seq<real>, a: seq<real>, z: seq<real>, x: seq<real>, y: seq<real>)
    requires |a| >= 1 && a[0] != 0.0 && Max(|a|, |b|) >= 2 && Answers(b, a, z, x, y) && |x| >= 1
    ensures a[0] * y[0] == (if |z| >= 1 then a[0] * z[0] else 0.0) + (if |b| >= 1 then b[0] * x[0] else 0.0)
  {
    var lab := Max(|a|, |b|);
    NormalScales(a, lab, a[0], Sig(y), 0);
    NormalScales(b, lab, a[0], Sig(x), 0);
    assert Resized(z, lab - 1)[0] == Sig(z)(0);
    OnlyFirst(a, Sig(y));
    OnlyFirst(b, Sig(x));
    Distribute(1.0, a[0], Sig(z)(0), 0.0, Apply(Normal(b, lab, a[0]), Sig(x), 0));
  }

  lemma OnlyFirst(c: seq<real>, s: Signal)
    requires forall m :: m < 0 ==> s(m) == 0.0
    ensures Apply(c, s, 0) == if |c| >= 1 then c[0] * s(0) else 0.0
  {
    if |c| >= 1 { BeforeZero(Sig(c), 1, |c|, s, -1); }
  }

  // ------------------------------------------------------------ what the answer is

  /** The answer is the only one: an output is fixed by those before it. */
  lemma {:induction false} AnswersUnique(b: seq<real>, a: seq<real>, z: seq<real>, x: seq<real>, y: seq<real>, y': seq<real>, n: nat)
    requires |a| >= 1 && a[0] == 1.0 && Solves(b, a, z, x, y) && Solves(b, a, z, x, y') && n <= |x|
    ensures y[..n] == y'[..n]
  {
    if n > 0 {
      AnswersUnique(b, a, z, x, y, y', n - 1);
      var k := n - 1;
      forall m | 0 <= m < k ensures y[m] == y'[m] { assert y[..k][m] == y'[..k][m]; }
      Causal(Sig(a), 1, |a|, Sig(y), Sig(y'), k - 1);
      assert Apply(a, Sig(y), k) == y[k] + Tap(Sig(a), 1, |a|, Sig(y), k - 1);
      assert Apply(a, Sig(y'), k) == y'[k] + Tap(Sig(a), 1, |a|, Sig(y'), k - 1);
      assert y[..n] == y[..k] + [y[k]] && y'[..n] == y'[..k] + [y'[k]];
    }
  }

  /** `filter` solves its difference equation exactly when some coefficient list has two
      entries, or the one numerator coefficient is zero, or the input is silent. */
  lemma SolvesExactlyWhen(b: seq<real>, a: seq<real>, z: seq<real>, x: seq<real>, y: seq<real>)
    requires |a| >= 1 && a[0] != 0.0 && Answers(b, a, z, x, y)
    ensures var lab := Max(|a|, |b|);
      Solves(Normal(b, lab, a[0]), Normal(a, lab, a[0]), Resized(z, lab - 1), x, y)
      <==> lab >= 2 || Sig(b)(0) == 0.0 || forall n :: 0 <= n < |x| ==> x[n] == 0.0
  {
    var lab := Max(|a|, |b|);
    if lab == 1 {
      var b', a' := Normal(b, 1, a[0]), Normal(a, 1, a[0]);
      forall n | 0 <= n < |x|
        ensures Apply(a', Sig(y), n) == 0.0 && Apply(b', Sig(x), n) == b'[0] * x[n] && Sig(Resized(z, 0))(n) == 0.0
      {
        Silent(Sig(a'), 0, 1, Sig(y), n);
        assert Tap(Sig(b'), 0, 1, Sig(x), n) == b'[0] * x[n] + Tap(Sig(b'), 1, 1, Sig(x), n - 1);
      }
      Quotient(Sig(b)(0), a[0]);
      assert b'[0] == Sig(b)(0) / a[0];
      forall n | 0 <= n < |x| ensures b'[0] * x[n] == 0.0 <==> Sig(b)(0) == 0.0 || x[n] == 0.0 { ZeroProduct(b'[0], x[n]); }
    }
  }

  lemma ZeroProduct(x: real, y: real)
    ensures x * y == 0.0 <==> x == 0.0 || y == 0.0
  {
  }

  // ------------------------------------------------------------ chunk after chunk

  /** Past the seam, a filter sees the second chunk directly and the first one through the
      rest of its coefficients. */
  lemma {:induction false} AcrossSeam(c: seq<real>, k: nat, u: seq<real>, v: seq<real>, n: int)
    requires n >= -1
    ensures Tap(Sig(c), k, |c|, Sig(u + v), |u| + n)
         == Tap(Sig(c), k, |c|, Sig(v), n) + Tap(Sig(c), k + n + 1, |c|, Sig(u), |u| - 1)
    decreases |c| - k
  {
    if k < |c| {
      if n >= 0 {
        AcrossSeam(c, k + 1, u, v, n - 1);
      } else {
        Causal(Sig(c), k, |c|, Sig(u + v), Sig(u), |u| - 1);
        BeforeZero(Sig(c), k, |c|, Sig(v), -1);
      }
    }
  }

  lemma StateAcrossSeam(b: seq<real>, a: seq<real>, z: seq<real>, x1: seq<real>, y1: seq<real>, z1: seq<real>,
                        x2: seq<real>, y2: seq<real>, i: nat, j: nat)
    requires |x1| == |y1| && StateIs(b, a, z, Sig(x1), Sig(y1), |x1|, z1) && |z| == |z1|
    ensures StateEntry(b, a, z1, Sig(x2), Sig(y2), i, j) == StateEntry(b, a, z, Sig(x1 + x2), Sig(y1 + y2), |x1| + i, j)
  {
    hide Tap;
    var n := |x1|;
    AcrossSeam(b, j + 1, x1, x2, i - 1);
    AcrossSeam(a, j + 1, y1, y2, i - 1);
    if i + j < |z1| {
      assert z1[i + j] == StateEntry(b, a, z, Sig(x1), Sig(y1), n, i + j);
    } else {
      ZeroCoefficients(Sig(b), j + 1 + i, |b|, Sig(x1), n - 1);
      ZeroCoefficients(Sig(a), j + 1 + i, |a|, Sig(y1), n - 1);
    }
  }

  /** Two chunks filtered one after the other, the state carried over, give what the whole
      signal gives, and leave the same state. */
  lemma ChunksJoin(b: seq<real>, a: seq<real>, z: seq<real>, x1: seq<real>, y1: seq<real>, z1: seq<real>,
                   x2: seq<real>, y2: seq<real>, z2: seq<real>)
    requires |b| == |a| == |z| + 1
    requires Solves(b, a, z, x1, y1) && StateIs(b, a, z, Sig(x1), Sig(y1), |x1|, z1)
    requires Solves(b, a, z1, x2, y2) && StateIs(b, a, z1, Sig(x2), Sig(y2), |x2|, z2)
    ensures Solves(b, a, z, x1 + x2, y1 + y2)
    ensures StateIs(b, a, z, Sig(x1 + x2), Sig(y1 + y2), |x1 + x2|, z2)
  {
    hide Tap;
    var x, y, n := x1 + x2, y1 + y2, |x1|;
    forall i | 0 <= i < |x| ensures Apply(a, Sig(y), i) == Sig(z)(i) + Apply(b, Sig(x), i) {
      if i < n {
        Causal(Sig(a), 0, |a|, Sig(y), Sig(y1), i);
        Causal(Sig(b), 0, |b|, Sig(x), Sig(x1), i);
      } else {
        AcrossSeam(a, 0, y1, y2, i - n);
        AcrossSeam(b, 0, x1, x2, i - n);
        SeamState(b, a, z, x1, y1, z1, i - n);
      }
    }
    forall j | 0 <= j < |z2| ensures z2[j] == StateEntry(b, a, z, Sig(x), Sig(y), |x|, j) {
      StateAcrossSeam(b, a, z, x1, y1, z1, x2, y2, |x2|, j);
    }
  }

  lemma SeamState(b: seq<real>, a: seq<real>, z: seq<real>, x1: seq<real>, y1: seq<real>, z1: seq<real>, m: nat)
    requires |x1| == |y1| && |z| == |z1| && StateIs(b, a, z, Sig(x1), Sig(y1), |x1|, z1)
    ensures Sig(z1)(m) == Sig(z)(|x1| + m) + Tap(Sig(b), m + 1, |b|, Sig(x1), |x1| - 1) - Tap(Sig(a), m + 1, |a|, Sig(y1), |x1| - 1)
  {
    hide Tap;
    if m < |z1| {
      assert z1[m] == StateEntry(b, a, z, Sig(x1), Sig(y1), |x1|, m);
    } else {
      ZeroCoefficients(Sig(b), m + 1, |b|, Sig(x1), |x1| - 1);
      ZeroCoefficients(Sig(a), m + 1, |a|, Sig(y1), |x1| - 1);
    }
  }

  /** The same for `filter` itself, whatever the coefficient lists and the incoming state. */
  lemma FilterChunksJoin(b: seq<real>, a: seq<real>, z: seq<real>, x1: seq<real>, y1: seq<real>, z1: seq<real>,
                         x2: seq<real>, y2: seq<real>, z2: seq<real>)
    requires |a| >= 1 && a[0] != 0.0
    requires Answers(b, a, z, x1, y1) && |y1| == |x1| && Leaves(b, a, z, x1, y1, z1)
    requires Answers(b, a, z1, x2, y2) && |y2| == |x2| && Leaves(b, a, z1, x2, y2, z2)
    ensures Answers(b, a, z, x1 + x2, y1 + y2) && Leaves(b, a, z, x1 + x2, y1 + y2, z2)
  {
    var lab := Max(|a|, |b|);
    ResizedSame(z1, lab - 1);
    hide Solves, StateIs, Normal, Resized;
    if lab >= 2 {
      ChunksJoin(Normal(b, lab, a[0]), Normal(a, lab, a[0]), Resized(z, lab - 1), x1, y1, z1, x2, y2, z2);
    } else {
      NoState(Normal(b, 1, a[0]), Normal(a, 1, a[0]), Resized(z, 0), x1 + x2, y1 + y2);
      StateLength(Normal(b, 1, a[0]), Normal(a, 1, a[0]), Resized(z1, 0), Sig(x2), Sig(y2), |x2|, z2);
    }
  }

  lemma ResizedSame(z: seq<real>, n: nat)
    requires |z| == n
    ensures Resized(z, n) == z
  {
    forall i | 0 <= i < n ensures Resized(z, n)[i] == z[i] { assert Resized(z, n)[i] == Sig(z)(i); }
  }

  lemma ResizedAtRest(z: seq<real>, n: nat, m: int)
    requires forall j :: 0 <= j < |z| ==> z[j] == 0.0
    ensures Sig(Resized(z, n))(m) == 0.0
  {
    if 0 <= m < n { assert Resized(z, n)[m] == Sig(z)(m); }
  }

  lemma StateLength(b: seq<real>, a: seq<real>, z: seq<real>, x: Signal, y: Signal, i: int, zf: seq<real>)
    ensures StateIs(b, a, z, x, y, i, zf) && |b| == 1 ==> zf == []
  {
  }

  /** Coefficients, state and input determine what `filter` answers ... */
  lemma OneAnswer(b: seq<real>, a: seq<real>, z: seq<real>, x: seq<real>, y: seq<real>, y': seq<real>)
    requires |a| >= 1 && a[0] != 0.0 && Answers(b, a, z, x, y) && Answers(b, a, z, x, y') && |y| == |y'| == |x|
    ensures y == y'
  {
    var lab := Max(|a|, |b|);
    LeadingOne(a, lab);
    hide Solves, Normal, Resized;
    if lab >= 2 {
      AnswersUnique(Normal(b, lab, a[0]), Normal(a, lab, a[0]), Resized(z, lab - 1), x, y, y', |x|);
      assert y[..|x|] == y && y'[..|x|] == y';
    }
  }

  /** ... and what state it leaves. */
  lemma OneState(b: seq<real>, a: seq<real>, z: seq<real>, x: seq<real>, y: seq<real>, z': seq<real>, z'': seq<real>)
    requires |a| >= 1 && a[0] != 0.0 && Leaves(b, a, z, x, y, z') && Leaves(b, a, z, x, y, z'')
    ensures z' == z''
  {
    hide StateEntry, Normal, Resized;
  }

  // ------------------------------------------------------------ from rest

  lemma {:induction false} Scaled(c: Signal, d: Signal, x: real, k: int, hi: int, s: Signal, n: int)
    requires forall i :: k <= i < hi ==> c(i) == x * d(i)
    ensures Tap(c, k, hi, s, n) == x * Tap(d, k, hi, s, n)
    decreases hi - k
  {
    if k < hi {
      Scaled(c, d, x, k + 1, hi, s, n - 1);
      Distribute(1.0, x, d(k) * s(n), 0.0, Tap(d, k + 1, hi, s, n - 1));
      assert c(k) * s(n) == x * (d(k) * s(n));
    }
  }

  lemma NormalEntry(c: seq<real>, lab: nat, a0: real, i: nat)
    requires a0 != 0.0 && i < lab
    ensures Sig(c)(i) == a0 * Sig(Normal(c, lab, a0))(i)
  {
    assert Normal(c, lab, a0)[i] == Sig(c)(i) / a0;
    Quotient(Sig(c)(i), a0);
  }

  lemma NormalScales(c: seq<real>, lab: nat, a0: real, s: Signal, n: int)
    requires a0 != 0.0 && |c| <= lab
    ensures Apply(c, s, n) == a0 * Apply(Normal(c, lab, a0), s, n)
  {
    hide Tap;
    MoreCoefficients(Sig(c), 0, |c|, lab, s, n);
    var d := Normal(c, lab, a0);
    forall i | 0 <= i < lab ensures Sig(c)(i) == a0 * Sig(d)(i) { NormalEntry(c, lab, a0, i); }
    hide Normal;
    Scaled(Sig(c), Sig(d), a0, 0, lab, s, n);
  }

  /** From rest, the coefficients as given: sum a[k] y[n-k] = sum b[k] x[n-k]. */
  lemma FromRest(b: seq<real>, a: seq<real>, z: seq<real>, x: seq<real>, y: seq<real>, n: nat)
    requires |a| >= 1 && a[0] != 0.0 && Max(|a|, |b|) >= 2 && Answers(b, a, z, x, y)
    requires (forall j :: 0 <= j < |z| ==> z[j] == 0.0) && n < |x|
    ensures Apply(a, Sig(y), n) == Apply(b, Sig(x), n)
  {
    var lab := Max(|a|, |b|);
    NormalScales(a, lab, a[0], Sig(y), n);
    NormalScales(b, lab, a[0], Sig(x), n);
    ResizedAtRest(z, lab - 1, n);
  }
}
