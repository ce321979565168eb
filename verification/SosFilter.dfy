/** src/synthesis/sosfilter.cpp over exact reals: a cascade of second-order sections, each
    with its own state. */
module SosFilters {
  import opened Signals
  import opened Filters

  datatype Section = Section(b0: real, b1: real, b2: real, a0: real, a1: real, a2: real)

  function Num(s: Section): (r: seq<real>)
    ensures |r| == 3
  {
    [s.b0, s.b1, s.b2]
  }

  function Den(s: Section): (r: seq<real>)
    ensures |r| == 3
  {
    [s.a0, s.a1, s.a2]
  }

  /** The products of the first n numerators and denominators. */
  function Numerator(sos: seq<Section>, n: nat): (p: seq<real>)
    requires n <= |sos|
    ensures |p| == 2 * n + 1
  {
    if n == 0 then [1.0] else Product(Numerator(sos, n - 1), Num(sos[n - 1]))
  }

  function Denominator(sos: seq<Section>, n: nat): (p: seq<real>)
    requires n <= |sos|
    ensures |p| == 2 * n + 1
  {
    if n == 0 then [1.0] else Product(Denominator(sos, n - 1), Den(sos[n - 1]))
  }

  /** Stage by stage: what goes into section i is stages[i], and stages[i + 1] comes out. */
  ghost predicate Stages(sos: seq<Section>, states: seq<seq<real>>, stages: seq<seq<real>>) {
    && |states| == |sos| && |stages| == |sos| + 1
    && forall i :: 0 <= i < |sos| ==>
      sos[i].a0 != 0.0 && |stages[i + 1]| == |stages[i]| && Answers(Num(sos[i]), Den(sos[i]), states[i], stages[i], stages[i + 1])
  }

  /** Synthesis::sosfilter. The states are distinct vectors, one a section. */
  method SosFilter(sos: seq<Section>, x: seq<real>, zf: seq<Vector>) returns (y: seq<real>, ghost stages: seq<seq<real>>)
    requires |zf| >= |sos| && (forall i, j :: 0 <= i < j < |zf| ==> zf[i] != zf[j])
    requires forall i :: 0 <= i < |sos| ==> sos[i].a0 != 0.0
    modifies zf
    ensures |y| == |x| && |stages| == |sos| + 1 && stages[0] == x && stages[|sos|] == y
    ensures Stages(sos, old(seq(|sos|, i requires 0 <= i < |zf| reads zf => zf[i].elems)), stages)
    ensures forall i :: 0 <= i < |sos| ==>
      Leaves(Num(sos[i]), Den(sos[i]), old(zf[i].elems), stages[i], stages[i + 1], zf[i].elems)
  {
    hide Answers, Leaves;
    y := x;
    stages := [x];
    var i := 0;
    while i < |sos|
      invariant 0 <= i <= |sos| && |stages| == i + 1 && stages[0] == x && stages[i] == y && |y| == |x|
      invariant forall k :: i <= k < |zf| ==> zf[k].elems == old(zf[k].elems)
      invariant forall k :: 0 <= k < i ==> |stages[k + 1]| == |stages[k]|
      invariant forall k :: 0 <= k < i ==> Answers(Num(sos[k]), Den(sos[k]), old(zf[k].elems), stages[k], stages[k + 1])
      invariant forall k :: 0 <= k < i ==> Leaves(Num(sos[k]), Den(sos[k]), old(zf[k].elems), stages[k], stages[k + 1], zf[k].elems)
    {
      var sec := sos[i];
      var b := [sec.b0, sec.b1, sec.b2];
      var a := [sec.a0, sec.a1, sec.a2];
      y := Filter(b, a, y, zf[i]);
      stages := stages + [y];
      i := i + 1;
    }
  }

  lemma ThreeTaps(c: seq<real>, s: Signal, n: int)
    requires |c| == 3
    ensures Apply(c, s, n) == c[0] * s(n) + c[1] * s(n - 1) + c[2] * s(n - 2)
  {
    assert Tap(Sig(c), 3, 3, s, n - 3) == 0.0;
    assert Tap(Sig(c), 2, 3, s, n - 2) == c[2] * s(n - 2);
    assert Tap(Sig(c), 1, 3, s, n - 1) == c[1] * s(n - 1) + Tap(Sig(c), 2, 3, s, n - 2);
  }

  /** What each section does, in its own six numbers, from rest. */
  lemma SectionFromRest(sos: seq<Section>, states: seq<seq<real>>, stages: seq<seq<real>>, i: nat, n: nat)
    requires Stages(sos, states, stages) && i < |sos| && n < |stages[i]|
    requires forall j :: 0 <= j < |states[i]| ==> states[i][j] == 0.0
    ensures var u, y := Sig(stages[i]), Sig(stages[i + 1]);
      sos[i].a0 * y(n) + sos[i].a1 * y(n - 1) + sos[i].a2 * y(n - 2)
      == sos[i].b0 * u(n) + sos[i].b1 * u(n - 1) + sos[i].b2 * u(n - 2)
  {
    FromRest(Num(sos[i]), Den(sos[i]), states[i], stages[i], stages[i + 1], n);
    ThreeTaps(Num(sos[i]), Sig(stages[i]), n);
    ThreeTaps(Den(sos[i]), Sig(stages[i + 1]), n);
  }

  /** The first n sections, from rest, satisfy the one difference equation with the product
      coefficients. */
  lemma {:induction false} CascadeUpTo(sos: seq<Section>, states: seq<seq<real>>, stages: seq<seq<real>>, n: nat, m: int)
    requires Stages(sos, states, stages) && n <= |sos| && m < |stages[0]|
    requires forall i :: 0 <= i < |sos| ==> forall j :: 0 <= j < |states[i]| ==> states[i][j] == 0.0
    ensures |stages[n]| == |stages[0]|
    ensures Apply(Denominator(sos, n), Sig(stages[n]), m) == Apply(Numerator(sos, n), Sig(stages[0]), m)
    decreases n
  {
    if n == 0 {
    } else {
      var k := n - 1;
      CascadeUpTo(sos, states, stages, k, m);
      var p, q := Denominator(sos, k), Numerator(sos, k);
      var a, b := Den(sos[k]), Num(sos[k]);
      var x, u, y := Sig(stages[0]), Sig(stages[k]), Sig(stages[n]);
      ProductIsCascade(p, a, y, m);
      ProductIsCascade(q, b, x, m);
      forall i | i <= m ensures Filtered(Sig(a), 0, 3, y)(i) == Filtered(Sig(b), 0, 3, u)(i) {
        if i >= 0 {
          FromRest(b, a, states[k], stages[k], stages[n], i);
        } else {
          BeforeZero(Sig(a), 0, 3, y, i);
          BeforeZero(Sig(b), 0, 3, u, i);
        }
      }
      Causal(Sig(p), 0, |p|, Filtered(Sig(a), 0, 3, y), Filtered(Sig(b), 0, 3, u), m);
      Commute(Sig(p), 0, |p|, Sig(b), 3, u, m);
      forall i | i <= m ensures Filtered(Sig(p), 0, |p|, u)(i) == Filtered(Sig(q), 0, |q|, x)(i) {
        CascadeUpTo(sos, states, stages, k, i);
      }
      Causal(Sig(b), 0, 3, Filtered(Sig(p), 0, |p|, u), Filtered(Sig(q), 0, |q|, x), m);
      Commute(Sig(q), 0, |q|, Sig(b), 3, x, m);
    }
  }

  /** A cascade run from rest: its output and its input satisfy the difference equation whose
      coefficients are the products over all sections, sample by sample. */
  lemma CascadeIsOneFilter(sos: seq<Section>, states: seq<seq<real>>, stages: seq<seq<real>>, m: nat)
    requires Stages(sos, states, stages) && m < |stages[0]|
    requires forall i :: 0 <= i < |sos| ==> forall j :: 0 <= j < |states[i]| ==> states[i][j] == 0.0
    ensures Apply(Denominator(sos, |sos|), Sig(stages[|sos|]), m) == Apply(Numerator(sos, |sos|), Sig(stages[0]), m)
  {
    CascadeUpTo(sos, states, stages, |sos|, m);
  }

  // ------------------------------------------------------------ chunk after chunk

  /** The states that the sections leave behind. */
  ghost predicate StatesLeft(sos: seq<Section>, states: seq<seq<real>>, stages: seq<seq<real>>, states': seq<seq<real>>)
    requires Stages(sos, states, stages)
  {
    && |states'| == |sos|
    && forall i :: 0 <= i < |sos| ==> Leaves(Num(sos[i]), Den(sos[i]), states[i], stages[i], stages[i + 1], states'[i])
  }

  function Joined(first: seq<seq<real>>, second: seq<seq<real>>): (r: seq<seq<real>>)
    requires |first| == |second|
    ensures |r| == |first| && forall i :: 0 <= i < |r| ==> r[i] == first[i] + second[i]
  {
    seq(|first|, i requires 0 <= i < |first| => first[i] + second[i])
  }

  /** Two chunks through the whole cascade, every section's state carried over, pass through
      the stages of the joined signal and leave its states. */
  lemma CascadeChunksJoin(sos: seq<Section>, z: seq<seq<real>>, stages1: seq<seq<real>>, z1: seq<seq<real>>,
                          stages2: seq<seq<real>>, z2: seq<seq<real>>)
    requires Stages(sos, z, stages1) && StatesLeft(sos, z, stages1, z1)
    requires Stages(sos, z1, stages2) && StatesLeft(sos, z1, stages2, z2)
    ensures Stages(sos, z, Joined(stages1, stages2)) && StatesLeft(sos, z, Joined(stages1, stages2), z2)
  {
    hide Answers, Leaves;
    var stages := Joined(stages1, stages2);
    forall i | 0 <= i < |sos|
      ensures Answers(Num(sos[i]), Den(sos[i]), z[i], stages[i], stages[i + 1])
      ensures Leaves(Num(sos[i]), Den(sos[i]), z[i], stages[i], stages[i + 1], z2[i])
    {
      FilterChunksJoin(Num(sos[i]), Den(sos[i]), z[i], stages1[i], stages1[i + 1], z1[i], stages2[i], stages2[i + 1], z2[i]);
    }
  }

  /** States and input determine every stage. */
  lemma {:induction false} StagesDetermined(sos: seq<Section>, z: seq<seq<real>>, stages: seq<seq<real>>, stages': seq<seq<real>>, n: nat)
    requires Stages(sos, z, stages) && Stages(sos, z, stages') && stages[0] == stages'[0] && n <= |sos|
    ensures stages[n] == stages'[n]
  {
    hide Answers;
    if n > 0 {
      StagesDetermined(sos, z, stages, stages', n - 1);
      OneAnswer(Num(sos[n - 1]), Den(sos[n - 1]), z[n - 1], stages[n - 1], stages[n], stages'[n]);
    }
  }

  /** So running the cascade on the joined signal gives the outputs of the two chunks one
      after the other, and the states that the second chunk left. */
  lemma ChunkedRunIsWholeRun(sos: seq<Section>, z: seq<seq<real>>, stages1: seq<seq<real>>, z1: seq<seq<real>>,
                             stages2: seq<seq<real>>, z2: seq<seq<real>>, whole: seq<seq<real>>, z': seq<seq<real>>)
    requires Stages(sos, z, stages1) && StatesLeft(sos, z, stages1, z1)
    requires Stages(sos, z1, stages2) && StatesLeft(sos, z1, stages2, z2)
    requires Stages(sos, z, whole) && StatesLeft(sos, z, whole, z') && whole[0] == stages1[0] + stages2[0]
    ensures whole[|sos|] == stages1[|sos|] + stages2[|sos|] && z' == z2
  {
    hide Answers, Leaves;
    var stages := Joined(stages1, stages2);
    CascadeChunksJoin(sos, z, stages1, z1, stages2, z2);
    StagesDetermined(sos, z, whole, stages, |sos|);
    forall i | 0 <= i < |sos| ensures z'[i] == z2[i] {
      StagesDetermined(sos, z, whole, stages, i);
      StagesDetermined(sos, z, whole, stages, i + 1);
      OneState(Num(sos[i]), Den(sos[i]), z[i], stages[i], stages[i + 1], z'[i], z2[i]);
    }
  }
}
