/** src/synthesis/polyFromRoots.cpp over exact complex numbers: expanding the product of
    (x - z_j) in place, and what projecting to real parts loses. */
module PolyFromRoots {

  datatype Complex = Complex(re: real, im: real)

  const ZERO := Complex(0.0, 0.0)
  const ONE := Complex(1.0, 0.0)

  function Add(a: Complex, b: Complex): Complex {
    Complex(a.re + b.re, a.im + b.im)
  }

  function Sub(a: Complex, b: Complex): Complex {
    Complex(a.re - b.re, a.im - b.im)
  }

  function Mul(a: Complex, b: Complex): Complex {
    Complex(a.re * b.re - a.im * b.im, a.re * b.im + a.im * b.re)
  }

  function Conj(a: Complex): Complex {
    Complex(a.re, -a.im)
  }

  // ------------------------------------------------------------ specification

  /** Entry i of a coefficient list, zero outside. */
  function Entry(p: seq<Complex>, i: int): Complex {
    if 0 <= i < |p| then p[i] else ZERO
  }

  /** A polynomial times (x - z); coefficients run from the leading one down. */
  function TimesRoot(p: seq<Complex>, z: Complex): (q: seq<Complex>)
    ensures |q| == |p| + 1
  {
    seq(|p| + 1, i => Sub(Entry(p, i), Mul(z, Entry(p, i - 1))))
  }

  /** The coefficients of the product of (x - z) over the roots z. */
  function Expand(z: seq<Complex>): (p: seq<Complex>)
    ensures |p| == |z| + 1
  {
    if |z| == 0 then [ONE] else TimesRoot(Expand(z[..|z| - 1]), z[|z| - 1])
  }

  /** The value of a coefficient list at x. */
  function Eval(p: seq<Complex>, x: Complex): Complex {
    if |p| == 0 then ZERO else Add(Mul(Eval(p[..|p| - 1], x), x), p[|p| - 1])
  }

  /** The product of (x - z) over the roots z. */
  function RootProduct(z: seq<Complex>, x: Complex): Complex {
    if |z| == 0 then ONE else Mul(RootProduct(z[..|z| - 1], x), Sub(x, z[|z| - 1]))
  }

  // ------------------------------------------------------------ the code

  /** The inner loop, back to front: each entry is used before it is overwritten. */
  method MultiplyRoot(poly: array<Complex>, j: nat, zj: Complex)
    requires j + 1 < poly.Length
    requires forall k :: j + 1 <= k < poly.Length ==> poly[k] == ZERO
    modifies poly
    ensures poly[..j + 2] == TimesRoot(old(poly[..j + 1]), zj)
    ensures forall k :: j + 2 <= k < poly.Length ==> poly[k] == ZERO
  {
    ghost var p := poly[..j + 1];
    hide Mul, Sub, TimesRoot;
    var i := j;
    while i >= 0
      invariant -1 <= i <= j
      invariant forall k :: 0 <= k <= i + 1 ==> poly[k] == Entry(p, k)
      invariant forall k :: i + 2 <= k <= j + 1 ==> poly[k] == Sub(Entry(p, k), Mul(zj, Entry(p, k - 1)))
      invariant forall k :: j + 2 <= k < poly.Length ==> poly[k] == ZERO
    {
      poly[i + 1] := Sub(poly[i + 1], Mul(zj, poly[i]));
      i := i - 1;
    }
    Multiplied(p, zj, poly[..j + 2]);
  }

  lemma Multiplied(p: seq<Complex>, z: Complex, q: seq<Complex>)
    requires |q| == |p| + 1 && q[0] == Entry(p, 0)
    requires forall k :: 1 <= k < |q| ==> q[k] == Sub(Entry(p, k), Mul(z, Entry(p, k - 1)))
    ensures q == TimesRoot(p, z)
  {
    hide Sub, Mul, TimesRoot;
    FirstEntry(p, z);
    forall k | 1 <= k < |q| ensures q[k] == TimesRoot(p, z)[k] { TimesRootAt(p, z, k); }
  }

  /** Synthesis::createPolynomialFromRoots: the real parts of the product's coefficients. */
  method CreatePolynomialFromRoots(z: seq<Complex>) returns (polyr: seq<real>)
    ensures polyr == RealParts(Expand(z))
  {
    hide TimesRoot;
    var poly := new Complex[|z| + 1](_ => ZERO);
    poly[0] := ONE;
    for j := 0 to |z|
      invariant poly[..j + 1] == Expand(z[..j])
      invariant forall k :: j + 1 <= k < poly.Length ==> poly[k] == ZERO
    {
      MultiplyRoot(poly, j, z[j]);
      assert z[..j + 1][..j] == z[..j];
    }
    assert poly[..] == poly[..|z| + 1] && z[..|z|] == z;
    polyr := seq(poly.Length, _ => 0.0);
    for i := 0 to poly.Length
      invariant |polyr| == poly.Length
      invariant forall k :: 0 <= k < i ==> polyr[k] == poly[k].re
    {
      polyr := polyr[i := poly[i].re];
    }
  }

  // ------------------------------------------------------------ arithmetic

  lemma TimesZero(z: Complex)
    ensures Mul(z, ZERO) == ZERO == Mul(ZERO, z) && Sub(z, ZERO) == z
  {
  }

  lemma FirstEntry(p: seq<Complex>, z: Complex)
    ensures TimesRoot(p, z)[0] == Entry(p, 0)
  {
    TimesZero(z);
    TimesZero(Entry(p, 0));
  }

  lemma SwapFactors(a: Complex, b: Complex, c: Complex, y: Complex, z: Complex)
    ensures Sub(Sub(a, Mul(y, b)), Mul(z, Sub(b, Mul(y, c)))) == Sub(Sub(a, Mul(z, b)), Mul(y, Sub(b, Mul(z, c))))
  {
    MulSub(z, b, Mul(y, c));
    MulSub(y, b, Mul(z, c));
    MulSwap(z, y, c);
  }

  lemma MulSub(z: Complex, a: Complex, b: Complex)
    ensures Mul(z, Sub(a, b)) == Sub(Mul(z, a), Mul(z, b))
  {
  }

  lemma MulSwap(y: Complex, z: Complex, c: Complex)
    ensures Mul(y, Mul(z, c)) == Mul(z, Mul(y, c))
  {
    assert Mul(y, Mul(z, c)).re == y.re * z.re * c.re - y.re * z.im * c.im - y.im * z.re * c.im - y.im * z.im * c.re;
    assert Mul(y, Mul(z, c)).im == y.re * z.re * c.im + y.re * z.im * c.re + y.im * z.re * c.re - y.im * z.im * c.im;
    assert Mul(z, Mul(y, c)).re == y.re * z.re * c.re - z.re * y.im * c.im - z.im * y.re * c.im - y.im * z.im * c.re;
    assert Mul(z, Mul(y, c)).im == y.re * z.re * c.im + z.re * y.im * c.re + z.im * y.re * c.re - y.im * z.im * c.im;
  }

  lemma MulCommutes(a: Complex, b: Complex)
    ensures Mul(a, b) == Mul(b, a)
  {
  }

  /** ((e (x - z)) + c) x - z c == (e x + c) (x - z) */
  lemma HornerStep(e: Complex, c: Complex, x: Complex, z: Complex)
    ensures Add(Mul(Add(Mul(e, Sub(x, z)), c), x), Sub(ZERO, Mul(z, c))) == Mul(Add(Mul(e, x), c), Sub(x, z))
  {
    var d := Sub(x, z);
    MulAdd(x, Mul(e, d), c);
    MulAdd(d, Mul(e, x), c);
    MulCommutes(Add(Mul(e, d), c), x);
    MulCommutes(Add(Mul(e, x), c), d);
    MulCommutes(e, d);
    MulCommutes(e, x);
    MulSwap(x, d, e);
    MulCommutes(d, c);
    MulSub(c, x, z);
    MulCommutes(c, x);
    MulCommutes(c, z);
  }

  lemma MulAdd(z: Complex, a: Complex, b: Complex)
    ensures Mul(z, Add(a, b)) == Add(Mul(z, a), Mul(z, b))
  {
  }

  /** Complex numbers have no zero divisors. */
  lemma NoZeroDivisors(a: Complex, b: Complex)
    ensures Mul(a, b) == ZERO <==> a == ZERO || b == ZERO
  {
    hide Mul, SquaredNorm;
    TimesZero(a);
    TimesZero(b);
    if Mul(a, b) == ZERO && a != ZERO {
      TimesConjugate(a, b);
      Nothing(a);
      NormPositive(a.re, a.im);
      Cancel(SquaredNorm(a.re, a.im), b.re);
      Cancel(SquaredNorm(a.re, a.im), b.im);
    }
  }

  function Times(x: real, y: real): real {
    x * y
  }

  function SquaredNorm(x: real, y: real): real {
    Times(x, x) + Times(y, y)
  }

  /** conj(a) (a b) == |a|^2 b */
  lemma TimesConjugate(a: Complex, b: Complex)
    ensures SquaredNorm(a.re, a.im) * b.re == a.re * Mul(a, b).re + a.im * Mul(a, b).im
    ensures SquaredNorm(a.re, a.im) * b.im == a.re * Mul(a, b).im - a.im * Mul(a, b).re
  {
  }

  lemma Nothing(a: Complex)
    ensures a.re * 0.0 + a.im * 0.0 == 0.0 == a.re * 0.0 - a.im * 0.0
  {
  }

  lemma NormPositive(x: real, y: real)
    requires x != 0.0 || y != 0.0
    ensures SquaredNorm(x, y) > 0.0
  {
    hide Times;
    SameSigns(x, x);
    SameSigns(y, y);
  }

  lemma SameSigns(x: real, y: real)
    ensures (x > 0.0 && y > 0.0) || (x < 0.0 && y < 0.0) ==> Times(x, y) > 0.0
    ensures x == 0.0 || y == 0.0 ==> Times(x, y) == 0.0
  {
    if x > 0.0 && y > 0.0 { assert x * y > 0.0; }
    if x < 0.0 && y < 0.0 { assert x * y > 0.0; }
  }

  lemma Cancel(n: real, x: real)
    requires n > 0.0 && n * x == 0.0
    ensures x == 0.0
  {
  }

  // ------------------------------------------------------------ the product of (x - z)

  /** The coefficient of x to the number of roots is 1, and nothing stands below the last. */
  lemma {:induction false} LeadingOne(z: seq<Complex>)
    ensures Expand(z)[0] == Complex(1.0, 0.0)
  {
    if |z| > 0 {
      LeadingOne(z[..|z| - 1]);
      TimesZero(z[|z| - 1]);
    }
  }

  lemma TimesRootAt(p: seq<Complex>, z: Complex, i: int)
    ensures Entry(TimesRoot(p, z), i) == Sub(Entry(p, i), Mul(z, Entry(p, i - 1)))
  {
    TimesZero(z);
  }

  lemma LastRaised(q: seq<Complex>, c: Complex, x: Complex)
    requires |q| > 0
    ensures Eval(q[|q| - 1 := Add(q[|q| - 1], c)], x) == Add(Eval(q, x), c)
  {
    assert q[|q| - 1 := Add(q[|q| - 1], c)][..|q| - 1] == q[..|q| - 1];
  }

  lemma AddInto(c: Complex, d: Complex)
    ensures Sub(c, d) == Add(Sub(ZERO, d), c)
  {
  }

  lemma TimesRootOf(p: seq<Complex>, c: Complex, z: Complex)
    ensures var q := TimesRoot(p, z);
      TimesRoot(p + [c], z) == q[|p| := Add(q[|p|], c)] + [Sub(ZERO, Mul(z, c))]
  {
    hide Mul, Sub, Add;
    var q, r := TimesRoot(p, z), TimesRoot(p + [c], z);
    forall i | 0 <= i < |r| ensures r[i] == (q[|p| := Add(q[|p|], c)] + [Sub(ZERO, Mul(z, c))])[i] {
      if i == |p| { AddInto(c, Mul(z, Entry(p, i - 1))); }
    }
  }

  lemma NothingTimesRoot(p: seq<Complex>, z: Complex, x: Complex)
    requires |p| == 0
    ensures Eval(TimesRoot(p, z), x) == Mul(Eval(p, x), Sub(x, z))
  {
    hide Mul, Sub, TimesRoot;
    FirstEntry(p, z);
    TimesZero(x);
    TimesZero(Sub(x, z));
    TimesZero(ZERO);
    var q := TimesRoot(p, z);
    assert q == [ZERO];
    assert q[..0] == [] && Eval([], x) == ZERO;
    assert Eval(q, x) == Add(Mul(ZERO, x), ZERO);
  }

  lemma {:induction false} EvalTimesRoot(p: seq<Complex>, z: Complex, x: Complex)
    ensures Eval(TimesRoot(p, z), x) == Mul(Eval(p, x), Sub(x, z))
  {
    if |p| == 0 {
      NothingTimesRoot(p, z, x);
    } else {
      hide Mul, Sub, Add, TimesRoot;
      var p', c := p[..|p| - 1], p[|p| - 1];
      assert p == p' + [c];
      var q := TimesRoot(p', z);
      var r := q[|p'| := Add(q[|p'|], c)];
      EvalTimesRoot(p', z, x);
      TimesRootOf(p', c, z);
      LastRaised(q, c, x);
      assert (r + [Sub(ZERO, Mul(z, c))])[..|r|] == r;
      HornerStep(Eval(p', x), c, x, z);
    }
  }

  /** The expansion is the product, as a function of x. */
  lemma {:induction false} ExpandIsProduct(z: seq<Complex>, x: Complex)
    ensures Eval(Expand(z), x) == RootProduct(z, x)
  {
    if |z| == 0 {
      TimesZero(x);
      assert Eval([ONE], x) == Add(Mul(Eval([], x), x), ONE);
    } else {
      ExpandIsProduct(z[..|z| - 1], x);
      EvalTimesRoot(Expand(z[..|z| - 1]), z[|z| - 1], x);
    }
  }

  lemma SubZero(x: Complex, z: Complex)
    ensures Sub(x, z) == ZERO <==> x == z
  {
  }

  lemma {:induction false} ProductVanishes(z: seq<Complex>, x: Complex)
    ensures RootProduct(z, x) == ZERO <==> x in z
  {
    if |z| > 0 {
      var z', a := z[..|z| - 1], z[|z| - 1];
      assert z == z' + [a];
      ProductVanishes(z', x);
      NoZeroDivisors(RootProduct(z', x), Sub(x, a));
      SubZero(x, a);
    }
  }

  /** The expansion vanishes at the roots and nowhere else. */
  lemma RootsExactly(z: seq<Complex>, x: Complex)
    ensures Eval(Expand(z), x) == ZERO <==> x in z
  {
    ExpandIsProduct(z, x);
    ProductVanishes(z, x);
  }

  // ------------------------------------------------------------ order, and what fixes the roots

  lemma RootsSwap(p: seq<Complex>, y: Complex, z: Complex)
    ensures TimesRoot(TimesRoot(p, y), z) == TimesRoot(TimesRoot(p, z), y)
  {
    var l, r := TimesRoot(TimesRoot(p, y), z), TimesRoot(TimesRoot(p, z), y);
    hide Mul, Sub, TimesRoot;
    forall i | 0 <= i < |l| ensures l[i] == r[i] {
      TimesRootAt(p, y, i);
      TimesRootAt(p, z, i);
      TimesRootAt(p, y, i - 1);
      TimesRootAt(p, z, i - 1);
      TimesRootAt(TimesRoot(p, y), z, i);
      TimesRootAt(TimesRoot(p, z), y, i);
      SwapFactors(Entry(p, i), Entry(p, i - 1), Entry(p, i - 2), y, z);
    }
  }

  function Without(z: seq<Complex>, k: nat): (w: seq<Complex>)
    requires k < |z|
    ensures |w| == |z| - 1
  {
    z[..k] + z[k + 1..]
  }

  lemma WithoutCounts(z: seq<Complex>, k: nat)
    requires k < |z|
    ensures multiset(z) == multiset(Without(z, k)) + multiset{z[k]}
  {
    assert z == z[..k] + [z[k]] + z[k + 1..];
  }

  /** Any root may come last. */
  lemma {:induction false} MoveToEnd(z: seq<Complex>, k: nat)
    requires k < |z|
    ensures Expand(z) == TimesRoot(Expand(Without(z, k)), z[k])
    decreases |z|
  {
    hide TimesRoot;
    var n := |z| - 1;
    var z' := z[..n];
    if k == n {
      assert Without(z, k) == z';
    } else {
      MoveToEnd(z', k);
      var w := Without(z, k);
      assert w[..n - 1] == Without(z', k) && w[n - 1] == z[n];
      RootsSwap(Expand(Without(z', k)), z[k], z[n]);
    }
  }

  lemma {:induction false} CancelRoot(p: seq<Complex>, q: seq<Complex>, z: Complex, n: nat)
    requires TimesRoot(p, z) == TimesRoot(q, z) && n <= |p|
    ensures |p| == |q| && p[..n] == q[..n]
  {
    hide Mul, Sub, TimesRoot;
    assert |TimesRoot(p, z)| == |TimesRoot(q, z)|;
    if n > 0 {
      CancelRoot(p, q, z, n - 1);
      var k := n - 1;
      assert Entry(p, k - 1) == Entry(q, k - 1) by {
        if k > 0 { assert p[..k][k - 1] == q[..k][k - 1]; }
      }
      TimesRootAt(p, z, k);
      TimesRootAt(q, z, k);
      SubCancels(p[k], q[k], Mul(z, Entry(p, k - 1)));
      assert p[..n] == p[..k] + [p[k]] && q[..n] == q[..k] + [q[k]];
    }
  }

  lemma SubCancels(a: Complex, b: Complex, c: Complex)
    requires Sub(a, c) == Sub(b, c)
    ensures a == b
  {
  }

  /** The same roots in any order expand to the same coefficients. */
  lemma {:induction false} OrderIrrelevant(z: seq<Complex>, w: seq<Complex>)
    requires multiset(z) == multiset(w)
    ensures Expand(z) == Expand(w)
    decreases |z|
  {
    hide TimesRoot;
    assert |multiset(z)| == |z| && |multiset(w)| == |w|;
    if |z| > 0 {
      var n := |z| - 1;
      assert z[n] in multiset(w);
      var k :| 0 <= k < |w| && w[k] == z[n];
      MoveToEnd(w, k);
      SameWithout(z, n, w, k);
      assert Without(z, n) == z[..n];
      OrderIrrelevant(z[..n], Without(w, k));
    }
  }

  lemma SameWithout(z: seq<Complex>, i: nat, w: seq<Complex>, k: nat)
    requires i < |z| && k < |w| && z[i] == w[k]
    ensures multiset(z) == multiset(w) <==> multiset(Without(z, i)) == multiset(Without(w, k))
  {
    WithoutCounts(z, i);
    WithoutCounts(w, k);
    assert multiset(Without(z, i)) == multiset(z) - multiset{z[i]};
    assert multiset(Without(w, k)) == multiset(w) - multiset{w[k]};
  }

  /** The coefficients determine the roots and how often each comes. */
  lemma {:induction false} RootsDetermined(z: seq<Complex>, w: seq<Complex>)
    requires Expand(z) == Expand(w)
    ensures multiset(z) == multiset(w)
    decreases |z|
  {
    hide TimesRoot, Eval;
    assert |Expand(z)| == |Expand(w)|;
    if |z| > 0 {
      var n := |z| - 1;
      RootsExactly(z, z[n]);
      RootsExactly(w, z[n]);
      var k :| 0 <= k < |w| && w[k] == z[n];
      MoveToEnd(w, k);
      CancelRoot(Expand(z[..n]), Expand(Without(w, k)), z[n], |z|);
      assert Expand(z[..n])[..|z|] == Expand(z[..n]) && Expand(Without(w, k))[..|z|] == Expand(Without(w, k));
      RootsDetermined(z[..n], Without(w, k));
      assert Without(z, n) == z[..n];
      SameWithout(z, n, w, k);
    }
  }

  /** Two root lists expand to the same coefficients exactly when one is a reordering of the
      other. */
  lemma SameRoots(z: seq<Complex>, w: seq<Complex>)
    ensures Expand(z) == Expand(w) <==> multiset(z) == multiset(w)
  {
    if Expand(z) == Expand(w) { RootsDetermined(z, w); }
    if multiset(z) == multiset(w) { OrderIrrelevant(z, w); }
  }

  // ------------------------------------------------------------ conjugation and the projection

  function Conjugates(z: seq<Complex>): (w: seq<Complex>)
    ensures |w| == |z| && forall i :: 0 <= i < |z| ==> w[i] == Conj(z[i])
  {
    seq(|z|, i requires 0 <= i < |z| => Conj(z[i]))
  }

  function RealParts(p: seq<Complex>): (r: seq<real>)
    ensures |r| == |p| && forall i :: 0 <= i < |p| ==> r[i] == p[i].re
  {
    seq(|p|, i requires 0 <= i < |p| => p[i].re)
  }

  /** A list of real numbers as coefficients. */
  function Embed(r: seq<real>): (p: seq<Complex>)
    ensures |p| == |r| && forall i :: 0 <= i < |r| ==> p[i] == Complex(r[i], 0.0)
  {
    seq(|r|, i requires 0 <= i < |r| => Complex(r[i], 0.0))
  }

  ghost predicate AllReal(p: seq<Complex>) {
    Embed(RealParts(p)) == p
  }

  /** Every root comes as often as its conjugate. */
  ghost predicate ConjugateClosed(z: seq<Complex>) {
    multiset(Conjugates(z)) == multiset(z)
  }

  lemma ConjugatesTimesRoot(p: seq<Complex>, z: Complex)
    ensures TimesRoot(Conjugates(p), Conj(z)) == Conjugates(TimesRoot(p, z))
  {
    var l, r := TimesRoot(Conjugates(p), Conj(z)), Conjugates(TimesRoot(p, z));
    hide Mul, Sub, Conj, TimesRoot;
    forall i | 0 <= i < |l| ensures l[i] == r[i] {
      TimesRootAt(p, z, i);
      TimesRootAt(Conjugates(p), Conj(z), i);
      ConjEntry(p, i);
      ConjEntry(p, i - 1);
      ConjStep(Entry(p, i), z, Entry(p, i - 1));
    }
  }

  lemma ConjEntry(p: seq<Complex>, i: int)
    ensures Entry(Conjugates(p), i) == Conj(Entry(p, i))
  {
  }

  lemma ConjStep(a: Complex, z: Complex, b: Complex)
    ensures Conj(Sub(a, Mul(z, b))) == Sub(Conj(a), Mul(Conj(z), Conj(b)))
  {
  }

  /** Conjugating the roots conjugates the coefficients. */
  lemma {:induction false} ConjugateRoots(z: seq<Complex>)
    ensures Expand(Conjugates(z)) == Conjugates(Expand(z))
  {
    hide TimesRoot;
    if |z| == 0 {
      assert Conjugates([ONE]) == [ONE];
    } else {
      var n := |z| - 1;
      ConjugateRoots(z[..n]);
      assert Conjugates(z)[..n] == Conjugates(z[..n]);
      ConjugatesTimesRoot(Expand(z[..n]), z[n]);
    }
  }

  lemma RealIsSelfConjugate(p: seq<Complex>)
    ensures AllReal(p) <==> Conjugates(p) == p
  {
    if Conjugates(p) == p {
      forall i | 0 <= i < |p| ensures p[i] == Complex(RealParts(p)[i], 0.0) { assert Conjugates(p)[i] == Conj(p[i]); }
    }
  }

  /** Taking real parts loses nothing exactly when the roots are closed under conjugation. */
  lemma ProjectionLossless(z: seq<Complex>)
    ensures AllReal(Expand(z)) <==> ConjugateClosed(z)
  {
    ConjugateRoots(z);
    RealIsSelfConjugate(Expand(z));
    SameRoots(Conjugates(z), z);
  }

  /** A list followed by the conjugates of its members, as the formant shifter builds them. */
  method AppendConjugates(roots: seq<Complex>) returns (all: seq<Complex>)
    ensures all == roots + Conjugates(roots)
  {
    all := roots;
    for i := 0 to |roots|
      invariant all == roots + Conjugates(roots)[..i]
    {
      all := all + [Conj(all[i])];
    }
  }

  lemma PairsAreClosed(w: seq<Complex>)
    ensures ConjugateClosed(w + Conjugates(w))
  {
    var c := Conjugates(w);
    assert Conjugates(w + c) == c + w by {
      forall i | 0 <= i < |w| ensures Conjugates(c)[i] == w[i] { ConjTwice(w[i]); }
      assert Conjugates(w + c) == Conjugates(w) + Conjugates(c);
      assert Conjugates(c) == w;
    }
  }

  lemma ConjTwice(a: Complex)
    ensures Conj(Conj(a)) == a
  {
  }

  /** So for conjugate pairs the real coefficients are the product's own, and the real
      polynomial has those roots and no others. */
  lemma PairsExact(w: seq<Complex>, x: Complex)
    ensures var z := w + Conjugates(w);
      var p := Embed(RealParts(Expand(z)));
      p == Expand(z) && (Eval(p, x) == ZERO <==> x in z)
  {
    hide Expand, Eval;
    var z := w + Conjugates(w);
    PairsAreClosed(w);
    ProjectionLossless(z);
    RootsExactly(z, x);
    assert Embed(RealParts(Expand(z))) == Expand(z);
  }

  // ------------------------------------------------------------ whatever the roots

  lemma {:induction false} EvalRealParts(p: seq<Complex>, x: real)
    ensures Eval(Embed(RealParts(p)), Complex(x, 0.0)) == Complex(Eval(p, Complex(x, 0.0)).re, 0.0)
  {
    if |p| > 0 {
      var n := |p| - 1;
      var q := Embed(RealParts(p));
      EvalRealParts(p[..n], x);
      assert q[..n] == Embed(RealParts(p[..n]));
      hide Mul, Add, Eval;
      RealStep(Eval(p[..n], Complex(x, 0.0)), p[n], x);
      EvalLast(p, Complex(x, 0.0));
      EvalLast(q, Complex(x, 0.0));
    }
  }

  lemma EvalLast(p: seq<Complex>, x: Complex)
    requires |p| > 0
    ensures Eval(p, x) == Add(Mul(Eval(p[..|p| - 1], x), x), p[|p| - 1])
  {
  }

  lemma RealStep(e: Complex, c: Complex, x: real)
    ensures Add(Mul(Complex(e.re, 0.0), Complex(x, 0.0)), Complex(c.re, 0.0))
         == Complex(Add(Mul(e, Complex(x, 0.0)), c).re, 0.0)
  {
  }

  /** For any roots at all, the real polynomial takes at every real x the real part of the
      product. */
  lemma RealPoints(z: seq<Complex>, x: real)
    ensures Eval(Embed(RealParts(Expand(z))), Complex(x, 0.0)) == Complex(RootProduct(z, Complex(x, 0.0)).re, 0.0)
  {
    EvalRealParts(Expand(z), x);
    ExpandIsProduct(z, Complex(x, 0.0));
  }
}
