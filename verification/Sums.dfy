/** Sums of amounts per block along a path of blocks. */
module Sums {
  import opened Bits

  function Get(a: seq<nat>, b: int): nat {
    if 0 <= b < |a| then a[b] else 0
  }

  function Sum(a: seq<nat>, path: seq<int>): nat {
    if |path| == 0 then 0 else Sum(a, path[..|path| - 1]) + Get(a, path[|path| - 1])
  }

  lemma SumStep(a: seq<nat>, path: seq<int>, n: nat)
    requires n < |path|
    ensures Sum(a, path[..n + 1]) == Sum(a, path[..n]) + Get(a, path[n])
  {
    assert path[..n + 1][..n] == path[..n];
  }

  lemma {:induction false} SumConcat(a: seq<nat>, x: seq<int>, y: seq<int>)
    ensures Sum(a, x + y) == Sum(a, x) + Sum(a, y)
  {
    if |y| == 0 {
      assert x + y == x;
    } else {
      assert (x + y)[..|x + y| - 1] == x + y[..|y| - 1];
      SumConcat(a, x, y[..|y| - 1]);
    }
  }

  lemma SumOne(a: seq<nat>, b: int)
    ensures Sum(a, [b]) == Get(a, b)
  {
    assert [b][..0] == [];
  }

  /** A walk along a path that counts each block with an amount between two bounds. */
  lemma CountsBlock(a: seq<nat>, a': seq<nat>, path: seq<int>, n: nat, result: nat, amount: nat)
    requires n < |path| && Sum(a, path[..n]) <= result <= Sum(a', path[..n])
    requires Get(a, path[n]) <= amount <= Get(a', path[n])
    ensures Sum(a, path[..n + 1]) <= result + amount <= Sum(a', path[..n + 1])
  {
    SumStep(a, path, n);
    SumStep(a', path, n);
  }

  /** One more block on the way. */
  lemma SumInserted(a: seq<nat>, x: seq<int>, b: int, y: seq<int>)
    ensures Sum(a, x + [b] + y) == Sum(a, x + y) + Get(a, b)
  {
    SumConcat(a, x + [b], y);
    SumConcat(a, x, [b]);
    SumConcat(a, x, y);
    SumOne(a, b);
  }

  lemma {:induction false} SumMonotone(a: seq<nat>, a': seq<nat>, path: seq<int>)
    requires forall k :: 0 <= k < |path| ==> Get(a, path[k]) <= Get(a', path[k])
    ensures Sum(a, path) <= Sum(a', path)
  {
    if |path| > 0 { SumMonotone(a, a', path[..|path| - 1]); }
  }

  lemma SumSame(a: seq<nat>, a': seq<nat>, path: seq<int>)
    requires forall k :: 0 <= k < |path| ==> Get(a, path[k]) == Get(a', path[k])
    ensures Sum(a, path) == Sum(a', path)
  {
    SumMonotone(a, a', path);
    SumMonotone(a', a, path);
  }

  ghost predicate Distinct(path: seq<int>) {
    forall i, j :: 0 <= i < j < |path| ==> path[i] != path[j]
  }

  /** One block has one less. */
  lemma {:induction false} SumDrops(a: seq<nat>, a': seq<nat>, path: seq<int>, x: int)
    requires Distinct(path) && Get(a', x) + 1 == Get(a, x)
    requires forall b :: b in path && b != x ==> Get(a', b) == Get(a, b)
    ensures Sum(a', path) + If(x in path) == Sum(a, path)
  {
    if |path| > 0 {
      var n := |path| - 1;
      var rest := path[..n];
      assert path == rest + [path[n]];
      if path[n] == x {
        assert x !in rest;
      }
      SumDrops(a, a', rest, x);
    }
  }

  function Range(n: nat): (r: seq<int>)
    ensures |r| == n && forall i :: 0 <= i < n ==> r[i] == i
  {
    seq(n, i => i)
  }

  lemma SumRange(a: seq<nat>, n: nat)
    ensures Sum(a, Range(n + 1)) == Sum(a, Range(n)) + Get(a, n)
  {
    assert Range(n + 1)[..n] == Range(n);
  }

  /** The path meets each of the first n blocks once. */
  ghost predicate Covers(path: seq<int>, n: nat) {
    && Distinct(path) && |path| == n
    && (forall k :: 0 <= k < n ==> 0 <= path[k] < n)
    && (forall b :: 0 <= b < n ==> b in path)
  }

  /** Such a path adds up to the total. */
  lemma {:induction false} SumAll(a: seq<nat>, path: seq<int>, n: nat)
    requires Covers(path, n)
    ensures Sum(a, path) == Sum(a, Range(n))
    decreases n
  {
    hide Sum, Covers;
    if n == 0 {
      NothingCovered(path);
    } else {
      var k := PlaceOf(path, n, n - 1);
      var x, y := path[..k], path[k + 1..];
      assert path == x + [n - 1] + y;
      Removed(path, k, n);
      SumInserted(a, x, n - 1, y);
      SumAll(a, x + y, n - 1);
      SumRange(a, n - 1);
    }
  }

  lemma Within(path: seq<int>, n: nat, k: nat)
    requires Covers(path, n) && k < |path|
    ensures |path| == n && 0 <= path[k] < n
  {
  }

  lemma NothingCovered(path: seq<int>)
    requires Covers(path, 0)
    ensures path == Range(0)
  {
  }

  lemma PlaceOf(path: seq<int>, n: nat, b: nat) returns (k: nat)
    requires Covers(path, n) && b < n
    ensures k < |path| == n && path[k] == b
  {
    assert b in path;
    k :| 0 <= k < n && path[k] == b;
  }

  lemma Removed(path: seq<int>, k: nat, n: nat)
    requires Covers(path, n) && k < n && path[k] == n - 1
    ensures Covers(path[..k] + path[k + 1..], n - 1)
  {
    var rest := path[..k] + path[k + 1..];
    forall j | 0 <= j < n - 1 ensures rest[j] == path[if j < k then j else j + 1] {}
    forall b | 0 <= b < n - 1 ensures b in rest {
      var j := PlaceOf(path, n, b);
      assert b == rest[if j < k then j else j - 1];
    }
  }
}
