/**
 Softmax of one row, as the attention kernels compute it: the softmax along an axis with all
 positions in one group.
 */
module SoftmaxRules {
  import opened Floats
  import opened Sums
  import opened IndexMaps
  import opened Duals
  import G = GroupSoftmax

  function ExpAt(e: ExpFn, s: Fn, m: real, j: int): real {
    e(s(j) - m)
  }

  function ExpTotal(e: ExpFn, n: nat, s: Fn, m: real): real {
    Sum(n, ExpRow(e, s, m))
  }

  function ExpRow(e: ExpFn, s: Fn, m: real): Fn {
    j => ExpAt(e, s, m, j)
  }

  /** Softmax of a row of `n` scores, with reference point `m` as the kernels compute it. */
  function Softmax(e: ExpFn, n: nat, s: Fn, m: real, j: int): real
    requires n > 0
  {
    TotalPositive(e, n, s, m);
    ExpAt(e, s, m, j) / ExpTotal(e, n, s, m)
  }

  /** The whole row of probabilities. */
  function SoftmaxRow(e: ExpFn, n: nat, s: Fn, m: real): Fn
    requires n > 0
  {
    j => Softmax(e, n, s, m, j)
  }

  lemma TotalPositive(e: ExpFn, n: nat, s: Fn, m: real)
    requires n > 0
    ensures ExpTotal(e, n, s, m) > 0.0
  {
    SumPositive(n, ExpRow(e, s, m));
  }

  lemma ExchangeQuotients(a: real, b: real, z: real, u: real, v: real)
    requires z > 0.0 && a * v == b * u
    ensures (a / z) * v == (b / z) * u
  {
    assert (a / z) * v == (a * v) / z;
    assert (b / z) * u == (b * u) / z;
  }

  /** Probabilities are in the ratio of the exponentials of the scores; together with the sum of one this determines them. */
  lemma SoftmaxRatio(e: ExpFn, n: nat, s: Fn, m: real, j: int, k: int)
    requires n > 0
    ensures Softmax(e, n, s, m, j) * e(s(k)) == Softmax(e, n, s, m, k) * e(s(j))
  {
    TotalPositive(e, n, s, m);
    ExpAdds(e, s(j) - m, s(k));
    ExpAdds(e, s(k) - m, s(j));
    assert s(j) - m + s(k) == s(k) - m + s(j);
    ExchangeQuotients(ExpAt(e, s, m, j), ExpAt(e, s, m, k), ExpTotal(e, n, s, m), e(s(j)), e(s(k)));
  }

  lemma SumQuotient(n: nat, f: Fn, z: real, h: Fn)
    requires z != 0.0 && forall j :: 0 <= j < n ==> h(j) == f(j) / z
    ensures Sum(n, h) == Sum(n, f) / z
  {
    forall j | 0 <= j < n ensures h(j) == (1.0 / z) * f(j) {
    }
    SumScale(n, 1.0 / z, f, h);
  }

  lemma RatioShift(a: real, b: real, c: real, a': real, b': real)
    requires b > 0.0 && c > 0.0 && a * c == a' && b * c == b' && b' > 0.0
    ensures a / b == a' / b'
  {
    var q := a / b;
    assert a == q * b;
    ScaleBoth(q, b, c);
    CancelDivision(q, a', b');
  }

  lemma ScaleBoth(q: real, b: real, c: real)
    ensures (q * b) * c == q * (b * c)
  {
  }

  lemma TotalShift(e: ExpFn, n: nat, s: Fn, m: real, k: real)
    ensures ExpTotal(e, n, s, m) * e(m - k) == ExpTotal(e, n, s, k)
  {
    forall i: int ensures ExpRow(e, s, k)(i) == e(m - k) * ExpRow(e, s, m)(i) {
      ExpShift(e, s(i), m, k);
      Swap(e(s(i) - m), e(m - k));
    }
    SumScale(n, e(m - k), ExpRow(e, s, m), ExpRow(e, s, k));
    Swap(e(m - k), ExpTotal(e, n, s, m));
  }

  /** The reference point does not matter. */
  lemma SoftmaxShift(e: ExpFn, n: nat, s: Fn, m: real, k: real, j: int)
    requires n > 0
    ensures Softmax(e, n, s, m, j) == Softmax(e, n, s, k, j)
  {
    TotalPositive(e, n, s, m);
    TotalPositive(e, n, s, k);
    TotalShift(e, n, s, m, k);
    ExpShift(e, s(j), m, k);
    RatioShift(ExpAt(e, s, m, j), ExpTotal(e, n, s, m), e(m - k), ExpAt(e, s, k, j), ExpTotal(e, n, s, k));
  }

  // ---- One group ----

  /** All positions belong to group 0. */
  function Together(): Index {
    _ => 0
  }

  function Constant(m: real): Fn {
    _ => m
  }

  lemma OneGroup(n: nat, f: Fn)
    ensures PushAt(n, Together(), f, 0) == Sum(n, f)
  {
    SumCongruence(n, Hits(Together(), f, 0), f);
  }

  lemma TotalIsGroup(e: ExpFn, n: nat, s: Fn, m: real)
    ensures G.Total(e, n, Together(), s, Constant(m), 0) == ExpTotal(e, n, s, m)
  {
    OneGroup(n, G.Exps(e, Together(), s, Constant(m)));
    SumCongruence(n, G.Exps(e, Together(), s, Constant(m)), ExpRow(e, s, m));
  }

  lemma RowIsGroup(e: ExpFn, n: nat, s: Fn, m: real, j: int)
    requires n > 0
    ensures G.Softmaxes(e, n, Together(), s, Constant(m))(j) == SoftmaxRow(e, n, s, m)(j)
  {
    TotalIsGroup(e, n, s, m);
    TotalPositive(e, n, s, m);
  }

  /** The probabilities of a row sum to one. */
  lemma SoftmaxSumsToOne(e: ExpFn, n: nat, s: Fn, m: real)
    requires n > 0
    ensures Sum(n, SoftmaxRow(e, n, s, m)) == 1.0
  {
    var y := G.Softmaxes(e, n, Together(), s, Constant(m));
    G.GroupSumsToOne(e, n, Together(), s, Constant(m), 0);
    OneGroup(n, y);
    forall j: int ensures y(j) == SoftmaxRow(e, n, s, m)(j) {
      RowIsGroup(e, n, s, m, j);
    }
    SumCongruence(n, y, SoftmaxRow(e, n, s, m));
  }

  /** Pairing of two rows. */
  function DotRow(n: nat, a: Fn, b: Fn): real {
    Sum(n, Times(a, b))
  }

  /** Forward-mode tangent of softmax with output `y` in direction `ds`. */
  function SoftmaxTangent(n: nat, y: Fn, ds: Fn, j: int): real {
    y(j) * (ds(j) - DotRow(n, y, ds))
  }

  function SoftmaxTangents(n: nat, y: Fn, ds: Fn): Fn {
    j => SoftmaxTangent(n, y, ds, j)
  }

  /** The backward rule: `y * (g - sum(g * y))`. */
  function SoftmaxGrad(n: nat, y: Fn, g: Fn, j: int): real {
    y(j) * (g(j) - DotRow(n, g, y))
  }

  function SoftmaxGrads(n: nat, y: Fn, g: Fn): Fn {
    j => SoftmaxGrad(n, y, g, j)
  }

  lemma RulesAreGroup(n: nat, y: Fn, g: Fn, j: int)
    ensures G.TangentAt(n, Together(), y, g, j) == SoftmaxTangent(n, y, g, j)
    ensures G.GradAt(n, Together(), y, g, j) == SoftmaxGrad(n, y, g, j)
  {
    OneGroup(n, Times(y, g));
    OneGroup(n, Times(g, y));
  }

  /** The softmax Jacobian is self-adjoint: pairing `g` with the tangent equals pairing the gradient with the direction. */
  lemma SoftmaxAdjoint(n: nat, y: Fn, g: Fn, ds: Fn)
    ensures Sum(n, Times(g, SoftmaxTangents(n, y, ds))) == Sum(n, Times(SoftmaxGrads(n, y, g), ds))
  {
    G.SoftmaxGradIsAdjoint(n, 1, Together(), y, g, ds);
    SameTangents(n, y, ds, g);
    SameGrads(n, y, g, ds);
  }

  lemma SameTangents(n: nat, y: Fn, ds: Fn, g: Fn)
    ensures Sum(n, Times(g, G.Tangents(n, Together(), y, ds))) == Sum(n, Times(g, SoftmaxTangents(n, y, ds)))
  {
    forall j: int ensures G.Tangents(n, Together(), y, ds)(j) == SoftmaxTangents(n, y, ds)(j) {
      RulesAreGroup(n, y, ds, j);
    }
    SameSecond(n, g, G.Tangents(n, Together(), y, ds), SoftmaxTangents(n, y, ds));
  }

  lemma SameGrads(n: nat, y: Fn, g: Fn, ds: Fn)
    ensures Sum(n, Times(G.Grads(n, Together(), y, g), ds)) == Sum(n, Times(SoftmaxGrads(n, y, g), ds))
  {
    forall j: int ensures G.Grads(n, Together(), y, g)(j) == SoftmaxGrads(n, y, g)(j) {
      RulesAreGroup(n, y, g, j);
    }
    SamePairing(n, G.Grads(n, Together(), y, g), SoftmaxGrads(n, y, g), ds);
  }

  /** Since probabilities sum to one, the gradient of a row sums to zero. */
  lemma SoftmaxGradSumsToZero(n: nat, y: Fn, g: Fn)
    requires Sum(n, y) == 1.0
    ensures Sum(n, SoftmaxGrads(n, y, g)) == 0.0
  {
    var a := DotRow(n, g, y);
    forall j: int ensures SoftmaxGrads(n, y, g)(j) == Times(g, y)(j) + (0.0 - a) * y(j) {
      SplitGrad(g(j), y(j), a);
    }
    SumLinear(n, 0.0 - a, Times(g, y), y, SoftmaxGrads(n, y, g));
    TimesOneAt(0.0 - a, Sum(n, y));
  }

  lemma SplitGrad(g: real, y: real, a: real)
    ensures y * (g - a) == g * y + (0.0 - a) * y
  {
  }

  // ---- The derivative of the kernel ----

  /** The softmax kernel evaluated on dual scores, whatever tangent the reference point carries. */
  ghost function RowDual(e: ExpFn, n: nat, s: int -> Dual, m: Dual, j: int): Dual
    requires DualSum(n, RowExps(e, s, m)).v != 0.0
  {
    DualDiv(RowExps(e, s, m)(j), DualSum(n, RowExps(e, s, m)))
  }

  function RowExps(e: ExpFn, s: int -> Dual, m: Dual): int -> Dual {
    k => DualExp(e, DualSub(s(k), m))
  }

  lemma RowExpsAreGroup(e: ExpFn, n: nat, f: int -> Dual, s: Fn, ds: Fn, m: Dual)
    requires forall k :: f(k) == Dual(s(k), ds(k))
    ensures DualSum(n, RowExps(e, f, m)) == G.DualTotal(e, n, Together(), s, ds, Constant(m.v), Constant(m.t), 0)
    ensures forall j :: RowExps(e, f, m)(j) == G.DualExps(e, Together(), s, ds, Constant(m.v), Constant(m.t), j)
  {
    var hits := G.DualHits(e, Together(), s, ds, Constant(m.v), Constant(m.t), 0);
    forall k: int ensures RowExps(e, f, m)(k) == hits(k) {
    }
    DualSumCongruence(n, RowExps(e, f, m), hits);
  }

  /** Differentiating the kernel gives `SoftmaxTangent`; the tangent of the reference point cancels. */
  lemma SoftmaxTangentIsDerivative(e: ExpFn, n: nat, f: int -> Dual, s: Fn, ds: Fn, m: Dual, j: nat)
    requires j < n && forall k :: f(k) == Dual(s(k), ds(k))
    ensures DualSum(n, RowExps(e, f, m)).v != 0.0
    ensures RowDual(e, n, f, m, j) == Dual(SoftmaxRow(e, n, s, m.v)(j), SoftmaxTangent(n, SoftmaxRow(e, n, s, m.v), ds, j))
  {
    var y, row := G.Softmaxes(e, n, Together(), s, Constant(m.v)), SoftmaxRow(e, n, s, m.v);
    RowExpsAreGroup(e, n, f, s, ds, m);
    G.SoftmaxDualIs(e, n, Together(), s, ds, Constant(m.v), Constant(m.t), j);
    forall k: int ensures y(k) == row(k) {
      RowIsGroup(e, n, s, m.v, k);
    }
    RulesAreGroup(n, y, ds, j);
    SameTangent(n, y, row, ds, j);
  }

  lemma SameTangent(n: nat, y: Fn, z: Fn, ds: Fn, j: int)
    requires (forall k :: 0 <= k < n ==> y(k) == z(k)) && y(j) == z(j)
    ensures SoftmaxTangent(n, y, ds, j) == SoftmaxTangent(n, z, ds, j)
  {
    SamePairing(n, y, z, ds);
  }
}
