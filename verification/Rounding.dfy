/** src/readerwriterqueue.h, ceilToPow2: rounding up to a power of two by smearing the
    top set bit to the right. */
module Rounding {
  import opened Bits

  /** x has no bit at L or above, and its m bits below L are all set. */
  predicate TopBits(x: nat, L: nat, m: nat) {
    x < Pow2(L) && forall i :: 0 <= i < L && i >= L - m ==> Bit(x, i)
  }

  lemma {:induction false} BitOr(x: nat, y: nat, i: nat)
    ensures Bit(Or(x, y), i) == (Bit(x, i) || Bit(y, i))
    decreases i
  {
    if x == 0 { ZeroBits(i); }
    else if y == 0 { ZeroBits(i); }
    else {
      var head := if x % 2 + y % 2 > 0 then 1 else 0;
      assert Or(x, y) == head + 2 * Or(x / 2, y / 2);
      if i > 0 { BitOr(x / 2, y / 2, i - 1); }
    }
  }

  lemma {:induction false} ZeroBits(i: nat)
    ensures !Bit(0, i)
  {
    if i > 0 { ZeroBits(i - 1); }
  }

  lemma {:induction false} BitShr(x: nat, k: nat, i: nat)
    ensures Bit(Shr(x, k), i) == Bit(x, i + k)
    decreases k
  {
    if k > 0 { BitShr(x / 2, k - 1, i); }
  }

  lemma {:induction false} OrBound(x: nat, y: nat, L: nat)
    requires x < Pow2(L) && y < Pow2(L)
    ensures Or(x, y) < Pow2(L)
    decreases L
  {
    if x != 0 && y != 0 { OrBound(x / 2, y / 2, L - 1); }
  }

  lemma {:induction false} ShrBound(x: nat, k: nat)
    ensures Shr(x, k) <= x
    decreases k
  {
    if k > 0 { ShrBound(x / 2, k - 1); }
  }

  /** `x |= x >> m` doubles the run of set bits at the top. */
  lemma SmearDoubles(x: nat, L: nat, m: nat)
    requires TopBits(x, L, m)
    ensures TopBits(Or(x, Shr(x, m)), L, 2 * m)
  {
    ShrBound(x, m);
    OrBound(x, Shr(x, m), L);
    forall i | 0 <= i < L && i >= L - 2 * m ensures Bit(Or(x, Shr(x, m)), i) {
      BitOr(x, Shr(x, m), i);
      if i < L - m { BitShr(x, m, i); }
    }
  }

  /** Once the run reaches bit 0, x is one less than a power of two. */
  lemma {:induction false} AllBits(x: nat, L: nat, m: nat)
    requires TopBits(x, L, m) && m >= L
    ensures x == Pow2(L) - 1
    decreases L
  {
    if L > 0 {
      assert Bit(x, 0);
      forall i | 0 <= i < L - 1 ensures Bit(x / 2, i) { assert Bit(x, i + 1); }
      AllBits(x / 2, L - 1, m);
    }
  }

  /** The number of significant bits. */
  function Length(x: nat): (L: nat)
    ensures x < Pow2(L)
    ensures L > 0 ==> Pow2(L - 1) <= x && Bit(x, L - 1)
  {
    if x == 0 then 0 else
      var L := Length(x / 2);
      L + 1
  }

  lemma {:induction false} LengthBelow(x: nat, k: nat)
    requires x < Pow2(k)
    ensures Length(x) <= k
    decreases k
  {
    if x > 0 { LengthBelow(x / 2, k - 1); }
  }

  /** Powers of two above Pow2(k) are at least Pow2(k + 1). */
  lemma {:induction false} NextPow2(p: nat, k: nat)
    requires IsPow2(p) && p > Pow2(k)
    ensures p >= Pow2(k + 1)
    decreases p
  {
    if k > 0 { NextPow2(p / 2, k - 1); }
  }

  /** No power of two lies in [x, r) and r is one itself. */
  ghost predicate IsLeastPow2AtLeast(r: nat, x: nat) {
    IsPow2(r) && r >= x && forall p: nat :: IsPow2(p) && p >= x ==> p >= r
  }

  /** x rounded up to a power of two. */
  function LeastPow2(x: nat): nat
    requires x >= 1
  {
    Pow2(Length(x - 1))
  }

  /** What `ceilToPow2` makes of a machine word: x rounded up where the result fits in a word,
      and 0 (the wrapped 2^64) otherwise. */
  function RoundUp(x: nat): nat {
    if 1 <= x <= HALF_WORD then LeastPow2(x) else 0
  }

  /** Powers of two are at least a factor of two apart. */
  lemma {:induction false} PowersApart(a: nat, b: nat)
    requires IsPow2(a) && IsPow2(b) && a < b
    ensures 2 * a <= b
    decreases b
  {
    if a > 1 { PowersApart(a / 2, b / 2); }
  }

  lemma LeastPow2IsLeast(x: nat)
    requires x >= 1
    ensures IsLeastPow2AtLeast(LeastPow2(x), x)
  {
    var L := Length(x - 1);
    Pow2IsPow2(L);
    forall p: nat | IsPow2(p) && p >= x ensures p >= Pow2(L) {
      if L > 0 { NextPow2(p, L - 1); }
    }
  }

  /** For every machine word: x rounded up where the result fits in a word, and 0 (the
      wrapped 2^64) for x == 0 and for x above 2^63. */
  method CeilToPow2(x0: nat) returns (x: nat)
    requires x0 < WORD
    ensures x == RoundUp(x0) <= HALF_WORD
    ensures 1 <= x0 <= HALF_WORD ==> IsLeastPow2AtLeast(x, x0)
    ensures x0 == 0 || x0 > HALF_WORD ==> x == 0
  {
    x := if x0 == 0 then WORD - 1 else x0 - 1;
    ghost var start := x;
    ghost var L := Length(x);
    WordIsPow2();
    LengthBelow(x, 64);
    assert TopBits(x, L, 1);
    SmearDoubles(x, L, 1);
    x := Or(x, Shr(x, 1));
    SmearDoubles(x, L, 2);
    x := Or(x, Shr(x, 2));
    SmearDoubles(x, L, 4);
    x := Or(x, Shr(x, 4));
    var i := 1;
    while i < 8
      invariant i in {1, 2, 4, 8}
      invariant TopBits(x, L, 8 * i)
      decreases 8 - i
    {
      SmearDoubles(x, L, i * 8);
      x := Or(x, Shr(x, i * 8));
      i := i * 2;
    }
    AllBits(x, L, 64);
    x := if x + 1 == WORD then 0 else x + 1;
    if 1 <= x0 <= HALF_WORD {
      LeastPow2IsLeast(x0);
      LengthBelow(start, 63);
      Pow2Monotone(L, 63);
    } else {
      if L < 64 { Pow2Monotone(L, 63); }
    }
  }

  lemma {:induction false} Pow2Monotone(a: nat, b: nat)
    requires a <= b
    ensures Pow2(a) <= Pow2(b)
  {
    if a < b { Pow2Monotone(a, b - 1); }
  }
}
