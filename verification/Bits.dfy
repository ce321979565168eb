/** Bit-level arithmetic on `size_t`, as the queue uses it: masking an index with a
    power-of-two block size, and rounding a size up to a power of two.
    Machine words are naturals below WORD; wrap-around is written out. */
module Bits {

  const WORD: nat := 0x1_0000_0000_0000_0000
  const HALF_WORD: nat := 0x8000_0000_0000_0000

  function Pow2(k: nat): (p: nat)
    ensures p >= 1
  {
    if k == 0 then 1 else 2 * Pow2(k - 1)
  }

  predicate IsPow2(n: nat) {
    n == 1 || (n > 0 && n % 2 == 0 && IsPow2(n / 2))
  }

  /** The `&` operator. */
  function And(x: nat, y: nat): nat {
    if x == 0 || y == 0 then 0 else (x % 2) * (y % 2) + 2 * And(x / 2, y / 2)
  }

  /** The `|` operator. */
  function Or(x: nat, y: nat): nat
    decreases x + y
  {
    if x == 0 then y else if y == 0 then x
    else (if x % 2 + y % 2 > 0 then 1 else 0) + 2 * Or(x / 2, y / 2)
  }

  /** The `>>` operator. */
  function Shr(x: nat, k: nat): nat {
    if k == 0 then x else Shr(x / 2, k - 1)
  }

  /** Bit i of x. */
  predicate Bit(x: nat, i: nat) {
    if i == 0 then x % 2 == 1 else Bit(x / 2, i - 1)
  }

  /** A condition counted as a number. */
  function If(c: bool): nat {
    if c then 1 else 0
  }

  /** Where the unbounded counter k falls in a ring of n cells. */
  function Slot(k: nat, n: nat): (r: nat)
    requires n > 0
    ensures r < n
  {
    if k < n then k else Slot(k - n, n)
  }

  /** `(i + 1) & sizeMask` */
  function Advance(i: nat, sizeMask: nat): nat {
    And(i + 1, sizeMask)
  }

  /** A number as a 64-bit word. */
  function Wrap(x: int): (w: nat)
    ensures w < WORD && (0 <= x < WORD ==> w == x)
  {
    x % WORD
  }

  /** `x / y` on 64-bit words. */
  function Div(x: nat, y: nat): nat
    requires y > 0
  {
    x / y
  }

  /** `x - y` on 64-bit words. */
  function Sub64(x: nat, y: nat): nat
    requires x < WORD && y < WORD
  {
    if x >= y then x - y else x + WORD - y
  }

  // ---------------------------------------------------------------- masks

  lemma {:induction false} Doubling(x: nat, n: nat)
    requires n > 0
    ensures Slot(x, 2 * n) == x % 2 + 2 * Slot(x / 2, n)
    decreases x
  {
    if x >= 2 * n {
      Doubling(x - 2 * n, n);
      assert (x - 2 * n) / 2 == x / 2 - n;
    }
  }

  /** Masking with a power-of-two size is reduction modulo that size. */
  lemma {:induction false} MaskIsSlot(x: nat, n: nat)
    requires IsPow2(n)
    ensures And(x, n - 1) == Slot(x, n)
    decreases n
  {
    if n == 1 {
      SlotOne(x);
    } else {
      MaskIsSlot(x / 2, n / 2);
      Doubling(x, n / 2);
      assert (n - 1) % 2 == 1 && (n - 1) / 2 == n / 2 - 1;
      if x == 0 {
      } else {
        assert And(x, n - 1) == x % 2 + 2 * And(x / 2, n / 2 - 1);
      }
    }
  }

  lemma {:induction false} SlotOne(x: nat)
    ensures Slot(x, 1) == 0
    decreases x
  {
    if x > 0 { SlotOne(x - 1); }
  }

  lemma {:induction false} SlotIsModulo(x: nat, n: nat)
    requires n > 0
    ensures Slot(x, n) == x % n
    decreases x
  {
    if x >= n {
      SlotIsModulo(x - n, n);
      assert x / n == (x - n) / n + 1 && x % n == (x - n) % n by { ModuloShift(x, n); }
    }
  }

  lemma ModuloShift(x: nat, n: nat)
    requires 0 < n <= x
    ensures x % n == (x - n) % n && x / n == (x - n) / n + 1
  {
    var q, r := (x - n) / n, (x - n) % n;
    assert x == (q + 1) * n + r;
    QuotientUnique(x, n, q + 1, r);
  }

  lemma QuotientUnique(x: nat, n: nat, q: nat, r: nat)
    requires n > 0 && r < n && x == q * n + r
    ensures x / n == q && x % n == r
  {
    var q', r' := x / n, x % n;
    MultipleInRange(q - q', n, r' - r) by {
      assert (q - q') * n == q * n - q' * n;
    }
  }

  lemma MultipleInRange(d: int, n: int, e: int)
    requires d * n == e && -n < e < n
    ensures d == 0
  {
    MultipleAtLeast(d, n);
  }

  lemma MultipleAtLeast(d: int, n: int)
    requires n >= 0
    ensures d >= 1 ==> d * n >= n
    ensures d <= -1 ==> d * n <= -n
  {
  }

  /** The masked increment of an in-range index steps to the next cell, wrapping at the end. */
  lemma AdvanceWraps(i: nat, sizeMask: nat)
    requires IsPow2(sizeMask + 1) && i <= sizeMask
    ensures Advance(i, sizeMask) == if i == sizeMask then 0 else i + 1
  {
    MaskIsSlot(i + 1, sizeMask + 1);
  }

  /** The masked increment follows the unbounded counter. */
  lemma {:induction false} SlotNext(k: nat, n: nat)
    requires IsPow2(n)
    ensures Slot(k + 1, n) == Advance(Slot(k, n), n - 1)
    decreases k
  {
    if k < n {
      AdvanceWraps(k, n - 1);
    } else {
      SlotNext(k - n, n);
    }
  }

  /** Counters less than one lap apart fall in different cells. */
  lemma {:induction false} SlotInjective(a: nat, b: nat, n: nat)
    requires n > 0 && a <= b < a + n && Slot(a, n) == Slot(b, n)
    ensures a == b
    decreases a
  {
    if a >= n {
      SlotInjective(a - n, b - n, n);
    }
  }

  lemma SlotPeriod(k: nat, n: nat)
    requires n > 0
    ensures Slot(k + n, n) == Slot(k, n)
  {
  }

  lemma {:induction false} SlotLaps(k: nat, q: nat, n: nat)
    requires n > 0
    ensures Slot(k + q * n, n) == Slot(k, n)
  {
    if q > 0 {
      SlotLaps(k, q - 1, n);
      assert k + q * n == k + (q - 1) * n + n;
      SlotPeriod(k + (q - 1) * n, n);
    }
  }

  lemma {:induction false} WordIsMultiple(n: nat, k: nat) returns (q: nat)
    requires IsPow2(n) && n <= Pow2(k)
    ensures Pow2(k) == q * n
    decreases k
  {
    if n == 1 {
      q := Pow2(k);
    } else {
      assert n >= 2;
      q := WordIsMultiple(n / 2, k - 1);
      assert 2 * (q * (n / 2)) == q * n;
    }
  }

  lemma WordIsPow2()
    ensures Pow2(64) == WORD && Pow2(63) == HALF_WORD
  {
    assert Pow2(8) == 256;
    assert Pow2(16) == 0x1_0000;
    assert Pow2(24) == 0x100_0000;
    assert Pow2(32) == 0x1_0000_0000;
    assert Pow2(40) == 0x100_0000_0000;
    assert Pow2(48) == 0x1_0000_0000_0000;
    assert Pow2(56) == 0x100_0000_0000_0000;
    assert Pow2(63) == HALF_WORD;
  }

  lemma {:induction false} Pow2IsPow2(k: nat)
    ensures IsPow2(Pow2(k))
  {
    if k > 0 { Pow2IsPow2(k - 1); }
  }

  lemma DoubleIsPow2(n: nat)
    requires IsPow2(n)
    ensures IsPow2(2 * n)
  {
    assert 2 * n / 2 == n;
  }

  lemma HalfWordIsPow2()
    ensures IsPow2(HALF_WORD)
  {
    WordIsPow2();
    hide Pow2;
    Pow2IsPow2(63);
  }

  /** `(tail - front) & sizeMask` counts the cells from front to tail, although the
      subtraction wraps at 64 bits. */
  lemma {:induction false} MaskedDistance(f: nat, t: nat, n: nat)
    requires IsPow2(n) && n <= HALF_WORD && f <= t < f + n
    ensures Slot(f, n) < WORD && Slot(t, n) < WORD
    ensures And(Sub64(Slot(t, n), Slot(f, n)), n - 1) == t - f
    decreases f
  {
    hide And, IsPow2, Slot;
    if f >= n {
      SlotPeriod(f - n, n);
      SlotPeriod(t - n, n);
      MaskedDistance(f - n, t - n, n);
    } else if t < n {
      Small(f, n);
      Small(t, n);
      Small(t - f, n);
      MaskIsSlot(t - f, n);
    } else {
      Small(f, n);
      Small(t - n, n);
      SlotPeriod(t - n, n);
      WrappedDistance(f, t, n);
    }
  }

  lemma WrappedDistance(f: nat, t: nat, n: nat)
    requires IsPow2(n) && n <= HALF_WORD && f < n <= t < f + n
    ensures And(t - f - n + WORD, n - 1) == t - f
  {
    hide And, Pow2, IsPow2;
    WordIsPow2();
    var q := WordIsMultiple(n, 64);
    WrappedMultiple(t - f, q, n);
  }

  lemma WrappedMultiple(d: nat, q: nat, n: nat)
    requires IsPow2(n) && d < n && WORD == q * n
    ensures d - n + WORD >= 0 && And(d - n + WORD, n - 1) == d
  {
    hide And, IsPow2;
    assert q >= 1 by { assert 0 * n == 0; }
    assert d - n + WORD == d + (q - 1) * n;
    MaskIsSlot(d + (q - 1) * n, n);
    SlotLaps(d, q - 1, n);
    Small(d, n);
  }

  lemma Small(k: nat, n: nat)
    requires k < n
    ensures Slot(k, n) == k
  {
  }
}
