/**
 Softmax and log-softmax along an arbitrary axis. The index map `p` sends a position to its
 group, the positions that differ from it only along the axis.
 */
module GroupSoftmax {
  import opened Floats
  import opened Sums
  import opened IndexMaps
  import opened Vectors
  import opened Strides
  import opened Duals
  import opened Broadcasting
  import U = Unbroadcasting

  /** Exponentials relative to the reference point `m` of each group. */
  function Exps(e: ExpFn, p: Index, x: Fn, m: Fn): Fn {
    l => e(x(l) - m(p(l)))
  }

  function Total(e: ExpFn, n: nat, p: Index, x: Fn, m: Fn, c: int): real {
    PushAt(n, p, Exps(e, p, x, m), c)
  }

  /** Softmax along the axis, as the forward kernel computes it. */
  function SoftmaxAt(e: ExpFn, n: nat, p: Index, x: Fn, m: Fn, l: int): real {
    var z := Total(e, n, p, x, m, p(l));
    if z == 0.0 then 0.0 else Exps(e, p, x, m)(l) / z
  }

  function Softmaxes(e: ExpFn, n: nat, p: Index, x: Fn, m: Fn): Fn {
    l => SoftmaxAt(e, n, p, x, m, l)
  }

  function TangentAt(n: nat, p: Index, y: Fn, dx: Fn, l: int): real {
    WeightedAt(y(l), dx(l), PushAt(n, p, Times(y, dx), p(l)))
  }

  function WeightedAt(y: real, d: real, a: real): real {
    y * (d - a)
  }

  /** `softmax_grad`: `output * (grad - sum(grad * output, dim))`. */
  function GradAt(n: nat, p: Index, y: Fn, g: Fn, l: int): real {
    WeightedAt(y(l), g(l), PushAt(n, p, Times(g, y), p(l)))
  }

  function Tangents(n: nat, p: Index, y: Fn, dx: Fn): Fn {
    l => TangentAt(n, p, y, dx, l)
  }

  function Grads(n: nat, p: Index, y: Fn, g: Fn): Fn {
    l => GradAt(n, p, y, g, l)
  }

  // ---- The tangent is the derivative of the forward kernel ----

  lemma {:induction false} HitsPositive(n: nat, p: Index, f: Fn, l: nat)
    requires l < n && forall k :: 0 <= k < n ==> f(k) > 0.0
    ensures PushAt(n, p, f, p(l)) > 0.0
  {
    PushOne(n - 1, p, f, p(l));
    if l < n - 1 {
      HitsPositive(n - 1, p, f, l);
    } else {
      HitsNonNegative(n - 1, p, f, p(l));
    }
  }

  lemma {:induction false} HitsNonNegative(n: nat, p: Index, f: Fn, c: int)
    requires forall k :: 0 <= k < n ==> f(k) > 0.0
    ensures PushAt(n, p, f, c) >= 0.0
  {
    if n > 0 {
      PushOne(n - 1, p, f, c);
      HitsNonNegative(n - 1, p, f, c);
    }
  }

  lemma ScaledHit(x: real, y: real, z: real)
    requires z != 0.0 && y == x / z
    ensures x == z * y
  {
  }

  /** Within group `c`, the exponentials are the outputs scaled by the total. */
  lemma ExpsScaled(e: ExpFn, n: nat, p: Index, x: Fn, m: Fn, c: int, k: int)
    requires Total(e, n, p, x, m, c) != 0.0 && p(k) == c
    ensures Exps(e, p, x, m)(k) == Total(e, n, p, x, m, c) * Softmaxes(e, n, p, x, m)(k)
  {
    ScaledHit(Exps(e, p, x, m)(k), Softmaxes(e, n, p, x, m)(k), Total(e, n, p, x, m, c));
  }

  /** On group `c`, `h` is `z` times `f`. */
  ghost predicate Proportional(p: Index, z: real, f: Fn, h: Fn, c: int) {
    forall k :: p(k) == c ==> h(k) == z * f(k)
  }

  /** Functions that are proportional on a group have proportional sums over it. */
  lemma PushScaled(n: nat, p: Index, z: real, f: Fn, h: Fn, c: int)
    requires Proportional(p, z, f, h, c)
    ensures PushAt(n, p, h, c) == z * PushAt(n, p, f, c)
  {
    forall k: int ensures Hits(p, h, c)(k) == z * Hits(p, f, c)(k) {
      TimesZero(z, 0.0);
    }
    SumScale(n, z, Hits(p, f, c), Hits(p, h, c));
  }

  lemma ExpsProportional(e: ExpFn, n: nat, p: Index, x: Fn, m: Fn, c: int)
    requires Total(e, n, p, x, m, c) != 0.0
    ensures Proportional(p, Total(e, n, p, x, m, c), Softmaxes(e, n, p, x, m), Exps(e, p, x, m), c)
  {
    forall k | p(k) == c ensures Exps(e, p, x, m)(k) == Total(e, n, p, x, m, c) * Softmaxes(e, n, p, x, m)(k) {
      ExpsScaled(e, n, p, x, m, c, k);
    }
  }

  lemma NormalisedSum(n: nat, p: Index, z: real, y: Fn, f: Fn, c: int)
    requires z > 0.0 && z == PushAt(n, p, f, c) && Proportional(p, z, y, f, c)
    ensures PushAt(n, p, y, c) == 1.0
  {
    PushScaled(n, p, z, y, f, c);
    UnitFactor(z, PushAt(n, p, y, c));
  }

  /** The outputs of one group sum to one. */
  lemma GroupSumsToOne(e: ExpFn, n: nat, p: Index, x: Fn, m: Fn, l: nat)
    requires l < n
    ensures Total(e, n, p, x, m, p(l)) > 0.0
    ensures PushAt(n, p, Softmaxes(e, n, p, x, m), p(l)) == 1.0
  {
    HitsPositive(n, p, Exps(e, p, x, m), l);
    ExpsProportional(e, n, p, x, m, p(l));
    NormalisedSum(n, p, Total(e, n, p, x, m, p(l)), Softmaxes(e, n, p, x, m), Exps(e, p, x, m), p(l));
  }

  lemma UnitFactor(z: real, s: real)
    requires z > 0.0 && z == z * s
    ensures s == 1.0
  {
    CancelDivision(s, z, z);
    assert z / z == 1.0;
  }

  /** Exponential of a dual score relative to a dual reference point. */
  function DualExps(e: ExpFn, p: Index, x: Fn, dx: Fn, m: Fn, dm: Fn, l: int): Dual {
    DualExp(e, DualSub(Dual(x(l), dx(l)), Dual(m(p(l)), dm(p(l)))))
  }

  function ExpTangents(e: ExpFn, p: Index, x: Fn, dx: Fn, m: Fn, dm: Fn): Fn {
    l => Exps(e, p, x, m)(l) * (dx(l) - dm(p(l)))
  }

  function DualHit(e: ExpFn, p: Index, x: Fn, dx: Fn, m: Fn, dm: Fn, c: int, l: int): Dual {
    if p(l) == c then DualExps(e, p, x, dx, m, dm, l) else Dual(0.0, 0.0)
  }

  function DualTotal(e: ExpFn, n: nat, p: Index, x: Fn, dx: Fn, m: Fn, dm: Fn, c: int): Dual {
    DualSum(n, DualHits(e, p, x, dx, m, dm, c))
  }

  function DualHits(e: ExpFn, p: Index, x: Fn, dx: Fn, m: Fn, dm: Fn, c: int): int -> Dual {
    l => DualHit(e, p, x, dx, m, dm, c, l)
  }

  /** The forward kernel on dual numbers, whatever tangent the reference points carry. */
  ghost function SoftmaxDual(e: ExpFn, n: nat, p: Index, x: Fn, dx: Fn, m: Fn, dm: Fn, l: int): Dual
    requires DualTotal(e, n, p, x, dx, m, dm, p(l)).v != 0.0
  {
    DualDiv(DualExps(e, p, x, dx, m, dm, l), DualTotal(e, n, p, x, dx, m, dm, p(l)))
  }

  lemma DualHitIs(e: ExpFn, p: Index, x: Fn, dx: Fn, m: Fn, dm: Fn, c: int, l: int)
    ensures DualHit(e, p, x, dx, m, dm, c, l)
         == Dual(Hit(p, Exps(e, p, x, m), c, l), Hit(p, ExpTangents(e, p, x, dx, m, dm), c, l))
  {
    DualExpsIs(e, p, x, dx, m, dm, l);
  }

  lemma DualTotalIs(e: ExpFn, n: nat, p: Index, x: Fn, dx: Fn, m: Fn, dm: Fn, c: int)
    ensures DualTotal(e, n, p, x, dx, m, dm, c)
         == Dual(Total(e, n, p, x, m, c), PushAt(n, p, ExpTangents(e, p, x, dx, m, dm), c))
  {
    var terms := DualHits(e, p, x, dx, m, dm, c);
    var v, t := Hits(p, Exps(e, p, x, m), c), Hits(p, ExpTangents(e, p, x, dx, m, dm), c);
    forall l: int ensures terms(l).v == v(l) && terms(l).t == t(l) {
      DualHitIs(e, p, x, dx, m, dm, c, l);
    }
    DualSumParts(n, terms, v, t);
  }

  lemma TangentTerm(x: real, y: real, z: real, d: real, t: real)
    requires x == z * y
    ensures x * (d - t) == z * (y * d - t * y)
  {
  }

  /** What a group's tangents are relative to its total. */
  function Centred(y: Fn, dx: Fn, t: real): Fn {
    l => CentredAt(y(l), dx(l), t)
  }

  function CentredAt(y: real, d: real, t: real): real {
    y * d - t * y
  }

  lemma CentredPush(n: nat, p: Index, y: Fn, dx: Fn, t: real, c: int)
    ensures PushAt(n, p, Centred(y, dx, t), c) == PushAt(n, p, Times(y, dx), c) - t * PushAt(n, p, y, c)
  {
    var all, products, outputs := Hits(p, Centred(y, dx, t), c), Hits(p, Times(y, dx), c), Hits(p, y, c);
    forall k: int ensures all(k) == products(k) + (0.0 - t) * outputs(k) {
      CentredSplit(y(k), dx(k), t);
      TimesZero(0.0 - t, 0.0);
    }
    SumLinear(n, 0.0 - t, products, outputs, all);
  }

  lemma CentredSplit(y: real, d: real, t: real)
    ensures CentredAt(y, d, t) == y * d + (0.0 - t) * y
  {
  }

  /** On group `c`, `h` is `f` times the distance of `d` from `t`. */
  ghost predicate Distances(p: Index, f: Fn, d: Fn, t: real, h: Fn, c: int) {
    forall k :: p(k) == c ==> h(k) == f(k) * (d(k) - t)
  }

  lemma TangentsProportional(p: Index, z: real, y: Fn, f: Fn, dx: Fn, t: real, h: Fn, c: int)
    requires Proportional(p, z, y, f, c) && Distances(p, f, dx, t, h, c)
    ensures Proportional(p, z, Centred(y, dx, t), h, c)
  {
    forall k | p(k) == c ensures h(k) == z * Centred(y, dx, t)(k) {
      TangentTerm(f(k), y(k), z, dx(k), t);
    }
  }

  lemma TangentTotalOf(n: nat, p: Index, z: real, y: Fn, f: Fn, dx: Fn, t: real, h: Fn, c: int)
    requires Proportional(p, z, y, f, c) && Distances(p, f, dx, t, h, c) && PushAt(n, p, y, c) == 1.0
    ensures PushAt(n, p, h, c) == z * (PushAt(n, p, Times(y, dx), c) - t)
  {
    TangentsProportional(p, z, y, f, dx, t, h, c);
    PushScaled(n, p, z, Centred(y, dx, t), h, c);
    CentredIs(n, p, y, dx, t, c);
    ProductCongruence(z, PushAt(n, p, Centred(y, dx, t), c), PushAt(n, p, Times(y, dx), c) - t);
  }

  lemma CentredIs(n: nat, p: Index, y: Fn, dx: Fn, t: real, c: int)
    requires PushAt(n, p, y, c) == 1.0
    ensures PushAt(n, p, Centred(y, dx, t), c) == PushAt(n, p, Times(y, dx), c) - t
  {
    CentredPush(n, p, y, dx, t, c);
    TimesOneAt(t, PushAt(n, p, y, c));
  }

  lemma ExpDistances(e: ExpFn, p: Index, x: Fn, dx: Fn, m: Fn, dm: Fn, c: int)
    ensures Distances(p, Exps(e, p, x, m), dx, dm(c), ExpTangents(e, p, x, dx, m, dm), c)
  {
  }

  lemma QuotientOf(n: nat, p: Index, z: real, y: Fn, f: Fn, dx: Fn, t: real, h: Fn, l: int, num: Dual, den: Dual)
    requires z > 0.0 && Proportional(p, z, y, f, p(l)) && Distances(p, f, dx, t, h, p(l)) && PushAt(n, p, y, p(l)) == 1.0
    requires num == Dual(f(l), h(l)) && den == Dual(z, PushAt(n, p, h, p(l)))
    ensures DualDiv(num, den) == Dual(y(l), TangentAt(n, p, y, dx, l))
  {
    TangentTotalOf(n, p, z, y, f, dx, t, h, p(l));
    CancelDivision(y(l), f(l), z);
    FinishQuotient(num, den, f(l), z, dx(l), PushAt(n, p, Times(y, dx), p(l)), t, y(l));
  }

  lemma DualExpsIs(e: ExpFn, p: Index, x: Fn, dx: Fn, m: Fn, dm: Fn, l: int)
    ensures DualExps(e, p, x, dx, m, dm, l) == Dual(Exps(e, p, x, m)(l), ExpTangents(e, p, x, dx, m, dm)(l))
  {
  }

  /** Differentiating softmax along the axis gives `Tangents`; the tangents of the reference points cancel. */
  lemma SoftmaxDualIs(e: ExpFn, n: nat, p: Index, x: Fn, dx: Fn, m: Fn, dm: Fn, l: nat)
    requires l < n
    ensures DualTotal(e, n, p, x, dx, m, dm, p(l)).v != 0.0
    ensures var y := Softmaxes(e, n, p, x, m);
            SoftmaxDual(e, n, p, x, dx, m, dm, l) == Dual(y(l), TangentAt(n, p, y, dx, l))
  {
    GroupSumsToOne(e, n, p, x, m, l);
    ExpsProportional(e, n, p, x, m, p(l));
    ExpDistances(e, p, x, dx, m, dm, p(l));
    DualTotalIs(e, n, p, x, dx, m, dm, p(l));
    DualExpsIs(e, p, x, dx, m, dm, l);
    QuotientOf(n, p, Total(e, n, p, x, m, p(l)), Softmaxes(e, n, p, x, m), Exps(e, p, x, m),
               dx, dm(p(l)), ExpTangents(e, p, x, dx, m, dm), l,
               DualExps(e, p, x, dx, m, dm, l), DualTotal(e, n, p, x, dx, m, dm, p(l)));
  }

  // ---- The adjoint rule ----

  lemma SumSub(n: nat, f: Fn, g: Fn, h: Fn)
    requires forall i :: 0 <= i < n ==> h(i) == f(i) - g(i)
    ensures Sum(n, h) == Sum(n, f) - Sum(n, g)
  {
    SumAdd(n, h, g, f);
  }

  lemma SplitTangent(g: real, y: real, d: real, a: real)
    ensures g * WeightedAt(y, d, a) == (g * y) * d - (g * y) * a
  {
  }

  lemma SplitGrad(g: real, y: real, d: real, b: real)
    ensures WeightedAt(y, g, b) * d == (g * y) * d - (y * d) * b
  {
  }

  /** `t` is `y * (d - a)`. */
  ghost predicate Weighted(n: nat, y: Fn, d: Fn, a: Fn, t: Fn) {
    forall l :: 0 <= l < n ==> t(l) == WeightedAt(y(l), d(l), a(l))
  }

  lemma PairTangent(n: nat, g: Fn, y: Fn, d: Fn, a: Fn, t: Fn)
    requires Weighted(n, y, d, a, t)
    ensures Sum(n, Times(g, t)) == Sum(n, Times(Times(g, y), d)) - Sum(n, Times(Times(g, y), a))
  {
    forall l | 0 <= l < n ensures Times(g, t)(l) == Times(Times(g, y), d)(l) - Times(Times(g, y), a)(l) {
      SplitTangent(g(l), y(l), d(l), a(l));
    }
    SumSub(n, Times(Times(g, y), d), Times(Times(g, y), a), Times(g, t));
  }

  lemma PairGrad(n: nat, g: Fn, y: Fn, d: Fn, b: Fn, t: Fn)
    requires Weighted(n, y, g, b, t)
    ensures Sum(n, Times(t, d)) == Sum(n, Times(Times(g, y), d)) - Sum(n, Times(Times(y, d), b))
  {
    forall l | 0 <= l < n ensures Times(t, d)(l) == Times(Times(g, y), d)(l) - Times(Times(y, d), b)(l) {
      SplitGrad(g(l), y(l), d(l), b(l));
    }
    SumSub(n, Times(Times(g, y), d), Times(Times(y, d), b), Times(t, d));
  }

  lemma WeightedForms(n: nat, p: Index, y: Fn, g: Fn, dx: Fn)
    ensures Weighted(n, y, dx, Pull(p, Push(n, p, Times(y, dx))), Tangents(n, p, y, dx))
    ensures Weighted(n, y, g, Pull(p, Push(n, p, Times(g, y))), Grads(n, p, y, g))
  {
  }

  /** `softmax_grad` is the adjoint of the derivative of softmax along any axis. */
  lemma SoftmaxGradIsAdjoint(n: nat, c: nat, p: Index, y: Fn, g: Fn, dx: Fn)
    requires Into(p, n, c)
    ensures Sum(n, Times(g, Tangents(n, p, y, dx))) == Sum(n, Times(Grads(n, p, y, g), dx))
  {
    var a, b := Push(n, p, Times(y, dx)), Push(n, p, Times(g, y));
    WeightedForms(n, p, y, g, dx);
    PairTangent(n, g, y, dx, Pull(p, a), Tangents(n, p, y, dx));
    PairGrad(n, g, y, dx, Pull(p, b), Grads(n, p, y, g));
    PushAdjoint(n, c, p, Times(g, y), a);
    PushAdjoint(n, c, p, Times(y, dx), b);
    TimesCommute(c, Push(n, p, Times(g, y)), Push(n, p, Times(y, dx)));
  }

  // ---- Log-softmax ----

  /** `x - m - log(sum(exp(x - m)))`. */
  function LogSoftmaxes(e: ExpFn, log: real -> real, n: nat, p: Index, x: Fn, m: Fn): Fn {
    l => x(l) - m(p(l)) - log(Total(e, n, p, x, m, p(l)))
  }

  ghost function LogSoftmaxDual(e: ExpFn, log: real -> real, n: nat, p: Index, x: Fn, dx: Fn, m: Fn, dm: Fn, l: int): Dual
    requires DualTotal(e, n, p, x, dx, m, dm, p(l)).v != 0.0
  {
    DualSub(DualSub(Dual(x(l), dx(l)), Dual(m(p(l)), dm(p(l)))), DualLog(log, DualTotal(e, n, p, x, dx, m, dm, p(l))))
  }

  function LogTangents(n: nat, p: Index, y: Fn, dx: Fn): Fn {
    l => dx(l) - PushAt(n, p, Times(y, dx), p(l))
  }

  lemma TotalTangent(e: ExpFn, n: nat, p: Index, x: Fn, dx: Fn, m: Fn, dm: Fn, l: nat, z: real, h: real)
    requires l < n && z == Total(e, n, p, x, m, p(l)) && h == PushAt(n, p, ExpTangents(e, p, x, dx, m, dm), p(l))
    ensures z > 0.0 && h / z == PushAt(n, p, Times(Softmaxes(e, n, p, x, m), dx), p(l)) - dm(p(l))
  {
    GroupSumsToOne(e, n, p, x, m, l);
    ExpsProportional(e, n, p, x, m, p(l));
    ExpDistances(e, p, x, dx, m, dm, p(l));
    RatioOf(n, p, z, Softmaxes(e, n, p, x, m), Exps(e, p, x, m), dx, dm(p(l)), ExpTangents(e, p, x, dx, m, dm), p(l));
  }

  lemma RatioOf(n: nat, p: Index, z: real, y: Fn, f: Fn, dx: Fn, t: real, h: Fn, c: int)
    requires z > 0.0 && Proportional(p, z, y, f, c) && Distances(p, f, dx, t, h, c) && PushAt(n, p, y, c) == 1.0
    ensures PushAt(n, p, h, c) / z == PushAt(n, p, Times(y, dx), c) - t
  {
    TangentTotalOf(n, p, z, y, f, dx, t, h, c);
    CancelDivision(PushAt(n, p, Times(y, dx), c) - t, PushAt(n, p, h, c), z);
  }

  /** Differentiating log-softmax gives `LogTangents`. */
  lemma LogSoftmaxDualIs(e: ExpFn, log: real -> real, n: nat, p: Index, x: Fn, dx: Fn, m: Fn, dm: Fn, l: nat)
    requires l < n
    ensures DualTotal(e, n, p, x, dx, m, dm, p(l)).v != 0.0
    ensures LogSoftmaxDual(e, log, n, p, x, dx, m, dm, l)
         == Dual(LogSoftmaxes(e, log, n, p, x, m)(l), LogTangents(n, p, Softmaxes(e, n, p, x, m), dx)(l))
  {
    DualTotalIs(e, n, p, x, dx, m, dm, p(l));
    TotalTangent(e, n, p, x, dx, m, dm, l,
                 Total(e, n, p, x, m, p(l)), PushAt(n, p, ExpTangents(e, p, x, dx, m, dm), p(l)));
  }

  /** `exp` of the saved output is the softmax. */
  lemma ExpOfLogSoftmax(e: ExpFn, log: real -> real, n: nat, p: Index, x: Fn, m: Fn, l: nat)
    requires l < n && forall z :: z > 0.0 ==> e(log(z)) == z
    ensures e(LogSoftmaxes(e, log, n, p, x, m)(l)) == Softmaxes(e, n, p, x, m)(l)
  {
    var z, d := Total(e, n, p, x, m, p(l)), x(l) - m(p(l));
    GroupSumsToOne(e, n, p, x, m, l);
    ExpDifference(e, d, log(z));
  }

  lemma ExpDifference(e: ExpFn, a: real, b: real)
    ensures e(b) > 0.0 && e(a - b) == e(a) / e(b)
  {
    ExpAdds(e, a - b, b);
    assert a - b + b == a;
    CancelDivision(e(a - b), e(a), e(b));
  }

  /** `grad - exp(output) * sum(grad, dim)`. */
  function LogGrads(n: nat, p: Index, y: Fn, g: Fn): Fn {
    l => Reduction(g(l), y(l), PushAt(n, p, g, p(l)))
  }

  function Reduction(g: real, y: real, total: real): real {
    g - y * total
  }

  lemma SplitLogTangent(g: real, d: real, a: real)
    ensures g * (d - a) == g * d - g * a
  {
  }

  lemma SplitLogGrad(g: real, y: real, d: real, b: real)
    ensures (g - y * b) * d == g * d - (y * d) * b
  {
  }

  ghost predicate Shifted(n: nat, d: Fn, a: Fn, t: Fn) {
    forall l :: 0 <= l < n ==> t(l) == d(l) - a(l)
  }

  ghost predicate Reduced(n: nat, g: Fn, y: Fn, b: Fn, t: Fn) {
    forall l :: 0 <= l < n ==> t(l) == Reduction(g(l), y(l), b(l))
  }

  lemma LogTangentForm(n: nat, p: Index, y: Fn, dx: Fn)
    ensures Shifted(n, dx, Pull(p, Push(n, p, Times(y, dx))), LogTangents(n, p, y, dx))
  {
  }

  lemma LogGradForm(n: nat, p: Index, y: Fn, g: Fn)
    ensures Reduced(n, g, y, Pull(p, Push(n, p, g)), LogGrads(n, p, y, g))
  {
  }

  lemma PairLogTangent(n: nat, g: Fn, d: Fn, a: Fn, t: Fn)
    requires Shifted(n, d, a, t)
    ensures Sum(n, Times(g, t)) == Sum(n, Times(g, d)) - Sum(n, Times(g, a))
  {
    forall l | 0 <= l < n ensures Times(g, t)(l) == Times(g, d)(l) - Times(g, a)(l) {
      SplitLogTangent(g(l), d(l), a(l));
    }
    SumSub(n, Times(g, d), Times(g, a), Times(g, t));
  }

  lemma PairLogGrad(n: nat, g: Fn, y: Fn, d: Fn, b: Fn, t: Fn)
    requires Reduced(n, g, y, b, t)
    ensures Sum(n, Times(t, d)) == Sum(n, Times(g, d)) - Sum(n, Times(Times(y, d), b))
  {
    forall l | 0 <= l < n ensures Times(t, d)(l) == Times(g, d)(l) - Times(Times(y, d), b)(l) {
      SplitLogGrad(g(l), y(l), d(l), b(l));
    }
    SumSub(n, Times(g, d), Times(Times(y, d), b), Times(t, d));
  }

  lemma LogGradIsAdjoint(n: nat, c: nat, p: Index, y: Fn, g: Fn, dx: Fn)
    requires Into(p, n, c)
    ensures Sum(n, Times(g, LogTangents(n, p, y, dx))) == Sum(n, Times(LogGrads(n, p, y, g), dx))
  {
    var a, b := Push(n, p, Times(y, dx)), Push(n, p, g);
    LogTangentForm(n, p, y, dx);
    LogGradForm(n, p, y, g);
    PairLogTangent(n, g, dx, Pull(p, a), LogTangents(n, p, y, dx));
    PairLogGrad(n, g, y, dx, Pull(p, b), LogGrads(n, p, y, g));
    PushAdjoint(n, c, p, g, a);
    PushAdjoint(n, c, p, Times(y, dx), b);
    TimesCommute(c, Push(n, p, g), Push(n, p, Times(y, dx)));
  }

  // ---- The group of a position ----

  /** Broadcasting the reduced tensor back reads, at each position, the sum of its own group. */
  lemma GroupIsBroadcast(shape: Shape, dim: nat, l: nat)
    requires dim < |shape| && l < Numel(shape)
    ensures Compatible(U.KeepShape(shape, {dim}), shape)
    ensures OriginAt(U.KeepShape(shape, {dim}), shape, l) == U.KeepAt(shape, {dim}, l)
  {
    NumelPositive(shape);
    DecodeInShape(l, shape);
    var c, kept := Decode(l, shape), U.KeepShape(shape, {dim});
    var k := U.KeepCoords(c, {dim});
    forall i | 0 <= i < |shape| ensures Collapse(c, kept)[i] == k[i] {
      assert c[i] < shape[i];
    }
    assert Collapse(c, kept) == k;
    DotIsEncode(k, kept);
  }
}
