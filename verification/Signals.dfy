/** Sums of products over exact reals: what a digital filter computes. */
module Signals {

  type Signal = int -> real

  /** A finite sequence as a signal, zero outside. */
  function Sig(s: seq<real>): Signal {
    n => if 0 <= n < |s| then s[n] else 0.0
  }

  /** c(k) s(n) + c(k+1) s(n-1) + ... + c(hi-1) s(n-(hi-1-k)) */
  function Tap(c: Signal, k: int, hi: int, s: Signal, n: int): real
    decreases hi - k
  {
    if k >= hi then 0.0 else c(k) * s(n) + Tap(c, k + 1, hi, s, n - 1)
  }

  /** The coefficients of a list, applied to a signal at n. */
  function Apply(c: seq<real>, s: Signal, n: int): real {
    Tap(Sig(c), 0, |c|, s, n)
  }

  /** The signal that comes out when c(k), ..., c(hi-1) are applied to s. */
  function Filtered(c: Signal, k: int, hi: int, s: Signal): Signal {
    n => Tap(c, k, hi, s, n)
  }

  function Shifted(s: Signal): Signal {
    n => s(n - 1)
  }

  function Combined(x: real, s: Signal, t: Signal): Signal {
    n => x * s(n) + t(n)
  }

  // ------------------------------------------------------------ in the signal

  /** Only the values up to n matter. */
  lemma {:induction false} Causal(c: Signal, k: int, hi: int, s: Signal, t: Signal, n: int)
    requires forall m :: n - (hi - 1 - k) <= m <= n ==> s(m) == t(m)
    ensures Tap(c, k, hi, s, n) == Tap(c, k, hi, t, n)
    decreases hi - k
  {
    if k < hi { Causal(c, k + 1, hi, s, t, n - 1); }
  }

  lemma {:induction false} Linear(c: Signal, k: int, hi: int, x: real, s: Signal, t: Signal, n: int)
    ensures Tap(c, k, hi, Combined(x, s, t), n) == x * Tap(c, k, hi, s, n) + Tap(c, k, hi, t, n)
    decreases hi - k
  {
    if k < hi {
      Linear(c, k + 1, hi, x, s, t, n - 1);
      Distribute(c(k), x, s(n), t(n), Tap(c, k + 1, hi, s, n - 1));
    }
  }

  lemma Distribute(c: real, x: real, s: real, t: real, rest: real)
    ensures c * (x * s + t) + x * rest == x * (c * s + rest) + c * t
  {
  }

  lemma {:induction false} ShiftThrough(c: Signal, k: int, hi: int, s: Signal, n: int)
    ensures Tap(c, k, hi, Shifted(s), n) == Tap(c, k, hi, s, n - 1)
    decreases hi - k
  {
    if k < hi { ShiftThrough(c, k + 1, hi, s, n - 1); }
  }

  // ------------------------------------------------------------ in the coefficients

  lemma {:induction false} SameCoefficients(c: Signal, d: Signal, k: int, hi: int, s: Signal, n: int)
    requires forall i :: k <= i < hi ==> c(i) == d(i)
    ensures Tap(c, k, hi, s, n) == Tap(d, k, hi, s, n)
    decreases hi - k
  {
    if k < hi { SameCoefficients(c, d, k + 1, hi, s, n - 1); }
  }

  lemma {:induction false} ZeroCoefficients(c: Signal, k: int, hi: int, s: Signal, n: int)
    requires forall i :: k <= i < hi ==> c(i) == 0.0
    ensures Tap(c, k, hi, s, n) == 0.0
    decreases hi - k
  {
    if k < hi { ZeroCoefficients(c, k + 1, hi, s, n - 1); }
  }

  lemma {:induction false} MoreCoefficients(c: Signal, k: int, lo: int, hi: int, s: Signal, n: int)
    requires k <= lo <= hi && forall i :: lo <= i < hi ==> c(i) == 0.0
    ensures Tap(c, k, hi, s, n) == Tap(c, k, lo, s, n)
    decreases lo - k
  {
    if k < lo { MoreCoefficients(c, k + 1, lo, hi, s, n - 1); }
    else { ZeroCoefficients(c, k, hi, s, n); }
  }

  lemma {:induction false} LinearCoefficients(x: real, c: Signal, d: Signal, k: int, hi: int, s: Signal, n: int)
    ensures Tap(Combined(x, c, d), k, hi, s, n) == x * Tap(c, k, hi, s, n) + Tap(d, k, hi, s, n)
    decreases hi - k
  {
    if k < hi {
      LinearCoefficients(x, c, d, k + 1, hi, s, n - 1);
      Distribute(s(n), x, c(k), d(k), Tap(c, k + 1, hi, s, n - 1));
    }
  }

  lemma {:induction false} ShiftedCoefficients(c: Signal, k: int, hi: int, s: Signal, n: int)
    ensures Tap(Shifted(c), k + 1, hi + 1, s, n) == Tap(c, k, hi, s, n)
    decreases hi - k
  {
    if k < hi { ShiftedCoefficients(c, k + 1, hi, s, n - 1); }
  }

  // ------------------------------------------------------------ one filter after another

  /** Filters can be applied in either order. */
  lemma {:induction false} Commute(f: Signal, k: int, hf: int, g: Signal, hg: int, s: Signal, n: int)
    ensures Tap(f, k, hf, Filtered(g, 0, hg, s), n) == Tap(g, 0, hg, Filtered(f, k, hf, s), n)
    decreases hf - k
  {
    if k < hf {
      Commute(f, k + 1, hf, g, hg, s, n - 1);
      var rest := Filtered(f, k + 1, hf, s);
      forall m ensures Filtered(f, k, hf, s)(m) == Combined(f(k), s, Shifted(rest))(m) {
        assert Tap(f, k, hf, s, m) == f(k) * s(m) + Tap(f, k + 1, hf, s, m - 1);
      }
      Causal(g, 0, hg, Filtered(f, k, hf, s), Combined(f(k), s, Shifted(rest)), n);
      Linear(g, 0, hg, f(k), s, Shifted(rest), n);
      ShiftThrough(g, 0, hg, rest, n);
    } else {
      Causal(g, 0, hg, Filtered(f, k, hf, s), Sig([]), n);
      Silent(g, 0, hg, Sig([]), n);
    }
  }

  lemma {:induction false} Silent(c: Signal, k: int, hi: int, s: Signal, n: int)
    requires forall m :: s(m) == 0.0
    ensures Tap(c, k, hi, s, n) == 0.0
    decreases hi - k
  {
    if k < hi { Silent(c, k + 1, hi, s, n - 1); }
  }

  /** Coefficient i of the product is the sum of f(j) g(i-j). */
  lemma {:induction false} ProductActs(f: Signal, k: int, hf: int, g: Signal, hg: int, s: Signal, n: int)
    requires k <= hf && hg >= 1 && forall m :: m < 0 || m >= hg ==> g(m) == 0.0
    ensures Tap(Filtered(f, k, hf, g), 0, hf - k + hg - 1, s, n) == Tap(f, k, hf, Filtered(g, 0, hg, s), n)
    decreases hf - k
  {
    var p, hi := Filtered(f, k, hf, g), hf - k + hg - 1;
    if k < hf {
      var rest := Filtered(f, k + 1, hf, g);
      SameCoefficients(p, Combined(f(k), g, Shifted(rest)), 0, hi, s, n);
      LinearCoefficients(f(k), g, Shifted(rest), 0, hi, s, n);
      MoreCoefficients(g, 0, hg, hi, s, n);
      BeforeZero(f, k + 1, hf, g, -1);
      ShiftedCoefficients(rest, 0, hi - 1, s, n - 1);
      ProductActs(f, k + 1, hf, g, hg, s, n - 1);
    } else {
      ZeroCoefficients(p, 0, hi, s, n);
    }
  }

  lemma {:induction false} BeforeZero(c: Signal, k: int, hi: int, s: Signal, n: int)
    requires n < 0 && forall m :: m < 0 ==> s(m) == 0.0
    ensures Tap(c, k, hi, s, n) == 0.0
    decreases hi - k
  {
    if k < hi { BeforeZero(c, k + 1, hi, s, n - 1); }
  }

  /** The product of two polynomials, as coefficient lists. */
  function Product(f: seq<real>, g: seq<real>): (p: seq<real>)
    requires |f| >= 1 && |g| >= 1
    ensures |p| == |f| + |g| - 1
  {
    seq(|f| + |g| - 1, i => Apply(f, Sig(g), i))
  }

  /** Applying a product is applying one factor after the other. */
  lemma ProductIsCascade(f: seq<real>, g: seq<real>, s: Signal, n: int)
    requires |f| >= 1 && |g| >= 1
    ensures Apply(Product(f, g), s, n) == Apply(f, Filtered(Sig(g), 0, |g|, s), n)
  {
    SameCoefficients(Sig(Product(f, g)), Filtered(Sig(f), 0, |f|, Sig(g)), 0, |f| + |g| - 1, s, n);
    ProductActs(Sig(f), 0, |f|, Sig(g), |g|, s, n);
  }
}
