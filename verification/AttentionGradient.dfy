/**
 The gradient of attention for one (batch, head) slab, as matrix expressions, and the proof
 that it is the adjoint of the forward-mode derivative.
 */
module AttentionGradient {
  import opened Floats
  import opened Sums
  import opened Matrices
  import opened Duals
  import opened OpRules
  import opened SoftmaxRules

  /** Query, key and value matrices of a slab, `n` by `dim`. */
  datatype Slab = Slab(e: ExpFn, n: nat, dim: nat, scale: real, q: Fn2, k: Fn2, v: Fn2) {
    /** Scaled scores. */
    function S(i: int, j: int): real {
      scale * Entry(dim, q, Transpose(k), i, j)
    }

    function ScoreRow(i: int): Fn {
      j => S(i, j)
    }

    /** Row `i` of the probabilities. */
    function ProbRow(i: int): Fn
      requires n > 0
    {
      SoftmaxRow(e, n, ScoreRow(i), 0.0)
    }

    function P(): Fn2
      requires n > 0
    {
      (i, j) => ProbRow(i)(j)
    }

    /** Attention output. */
    function O(): Fn2
      requires n > 0
    {
      Product(n, P(), v)
    }

    // ---- Backward ----

    function DV(dO: Fn2): Fn2
      requires n > 0
    {
      Product(n, Transpose(P()), dO)
    }

    function DP(dO: Fn2): Fn2 {
      Product(dim, dO, Transpose(v))
    }

    function DPRow(dO: Fn2, i: int): Fn {
      j => Entry(dim, dO, Transpose(v), i, j)
    }

    function DS(dO: Fn2): Fn2
      requires n > 0
    {
      (i, j) => SoftmaxGrad(n, ProbRow(i), DPRow(dO, i), j)
    }

    function DQ(dO: Fn2): Fn2
      requires n > 0
    {
      Scaled(scale, Product(n, DS(dO), k))
    }

    function DK(dO: Fn2): Fn2
      requires n > 0
    {
      Scaled(scale, Product(n, Transpose(DS(dO)), q))
    }

    // ---- Forward mode, by dual numbers ----

    /** A scaled score. */
    function ScoreDual(dq: Fn2, dk: Fn2, i: int, j: int): Dual {
      DualMul(Dual(scale, 0.0), ProductDual(dim, q, dq, Transpose(k), Transpose(dk), i, j))
    }

    function ScoreDuals(dq: Fn2, dk: Fn2, i: int): int -> Dual {
      j => ScoreDual(dq, dk, i, j)
    }

    /** A probability, with any reference point for its row. */
    ghost function ProbDual(dq: Fn2, dk: Fn2, m: Dual, i: int, j: nat): Dual
      requires j < n
    {
      ScoreRowDual(this, dq, dk, i);
      SoftmaxTangentIsDerivative(e, n, ScoreDuals(dq, dk, i), ScoreRow(i), TangentSRow(dq, dk, i), m, j);
      RowDual(e, n, ScoreDuals(dq, dk, i), m, j)
    }

    ghost function OutputDualTerm(dq: Fn2, dk: Fn2, dv: Fn2, m: Dual, i: int, d: int, j: int): Dual {
      if 0 <= j < n then DualMul(ProbDual(dq, dk, m, i, j), Dual(v(j, d), dv(j, d))) else Dual(0.0, 0.0)
    }

    ghost function OutputDualTerms(dq: Fn2, dk: Fn2, dv: Fn2, m: Dual, i: int, d: int): int -> Dual {
      j => OutputDualTerm(dq, dk, dv, m, i, d, j)
    }

    /** An entry of the output: the slab evaluated on dual numbers. */
    ghost function OutputDual(dq: Fn2, dk: Fn2, dv: Fn2, m: Dual, i: int, d: int): Dual {
      DualSum(n, OutputDualTerms(dq, dk, dv, m, i, d))
    }

    /** The forward-mode derivative of attention, whatever reference points the rows use. */
    ghost function OutputTangent(dq: Fn2, dk: Fn2, dv: Fn2, m: int -> Dual): Fn2 {
      (i, d) => OutputDual(dq, dk, dv, m(i), i, d).t
    }

    // ---- The tangents, as matrix expressions ----

    function TangentS(dq: Fn2, dk: Fn2): Fn2 {
      Scaled(scale, ProductTangent(dim, q, dq, Transpose(k), Transpose(dk)))
    }

    function TangentSRow(dq: Fn2, dk: Fn2, i: int): Fn {
      j => TangentS(dq, dk)(i, j)
    }

    function TangentP(dq: Fn2, dk: Fn2): Fn2
      requires n > 0
    {
      (i, j) => SoftmaxTangent(n, ProbRow(i), TangentSRow(dq, dk, i), j)
    }

    function TangentO(dq: Fn2, dk: Fn2, dv: Fn2): Fn2
      requires n > 0
    {
      ProductTangent(n, P(), TangentP(dq, dk), v, dv)
    }
  }

  // ---- The matrix expressions are the tangents ----

  lemma ScoreDualIs(s: Slab, dq: Fn2, dk: Fn2, i: int, j: int)
    ensures s.ScoreDual(dq, dk, i, j) == Dual(s.S(i, j), s.TangentS(dq, dk)(i, j))
  {
    var p := ProductDual(s.dim, s.q, dq, Transpose(s.k), Transpose(dk), i, j);
    ProductDualIs(s.dim, s.q, dq, Transpose(s.k), Transpose(dk), i, j);
    ConstantTimes(s.scale, p.v, p.t);
  }

  lemma ConstantTimes(c: real, v: real, t: real)
    ensures DualMul(Dual(c, 0.0), Dual(v, t)) == Dual(c * v, c * t)
  {
    DualMulIs(c, 0.0, v, t);
    assert 0.0 * v == 0.0;
  }

  lemma ScoreRowDual(s: Slab, dq: Fn2, dk: Fn2, i: int)
    ensures forall j :: s.ScoreDuals(dq, dk, i)(j) == Dual(s.ScoreRow(i)(j), s.TangentSRow(dq, dk, i)(j))
  {
    forall j: int ensures s.ScoreDuals(dq, dk, i)(j) == Dual(s.ScoreRow(i)(j), s.TangentSRow(dq, dk, i)(j)) {
      ScoreDualIs(s, dq, dk, i, j);
    }
  }

  lemma ProbDualIs(s: Slab, dq: Fn2, dk: Fn2, m: Dual, i: int, j: nat)
    requires j < s.n
    ensures s.ProbDual(dq, dk, m, i, j) == Dual(s.P()(i, j), s.TangentP(dq, dk)(i, j))
  {
    var row, ds := s.ScoreRow(i), s.TangentSRow(dq, dk, i);
    ScoreRowDual(s, dq, dk, i);
    SoftmaxTangentIsDerivative(s.e, s.n, s.ScoreDuals(dq, dk, i), row, ds, m, j);
    forall k: int ensures SoftmaxRow(s.e, s.n, row, m.v)(k) == s.ProbRow(i)(k) {
      SoftmaxShift(s.e, s.n, row, m.v, 0.0, k);
    }
    SoftmaxRules.SameTangent(s.n, SoftmaxRow(s.e, s.n, row, m.v), s.ProbRow(i), ds, j);
  }

  lemma OutputTermIs(s: Slab, dq: Fn2, dk: Fn2, dv: Fn2, m: Dual, i: int, d: int, j: nat)
    requires j < s.n
    ensures s.OutputDualTerm(dq, dk, dv, m, i, d, j) == ProductDualTerm(s.P(), s.TangentP(dq, dk), s.v, dv, i, d, j)
  {
    ProbDualIs(s, dq, dk, m, i, j);
  }

  /** Evaluating the slab on dual numbers gives the output and `TangentO`. */
  lemma OutputDualIs(s: Slab, dq: Fn2, dk: Fn2, dv: Fn2, m: Dual, i: int, d: int)
    requires s.n > 0
    ensures s.OutputDual(dq, dk, dv, m, i, d) == Dual(s.O()(i, d), s.TangentO(dq, dk, dv)(i, d))
  {
    var terms := ProductDualTerms(s.P(), s.TangentP(dq, dk), s.v, dv, i, d);
    forall j | 0 <= j < s.n ensures s.OutputDualTerms(dq, dk, dv, m, i, d)(j) == terms(j) {
      OutputTermIs(s, dq, dk, dv, m, i, d, j);
    }
    DualSumCongruence(s.n, s.OutputDualTerms(dq, dk, dv, m, i, d), terms);
    ProductDualIs(s.n, s.P(), s.TangentP(dq, dk), s.v, dv, i, d);
  }

  // ---- Adjoint ----

  lemma SoftmaxStep(s: Slab, dO: Fn2, dq: Fn2, dk: Fn2)
    requires s.n > 0
    ensures Inner(s.n, s.n, s.DP(dO), s.TangentP(dq, dk)) == Inner(s.n, s.n, s.DS(dO), s.TangentS(dq, dk))
  {
    forall i | 0 <= i < s.n
      ensures RowInner(s.n, s.DP(dO), s.TangentP(dq, dk), i) == RowInner(s.n, s.DS(dO), s.TangentS(dq, dk), i)
    {
      SoftmaxRowStep(s, dO, dq, dk, i);
    }
    InnerRows(s.n, s.n, s.DP(dO), s.TangentP(dq, dk), s.n, s.DS(dO), s.TangentS(dq, dk));
  }

  lemma SoftmaxRowStep(s: Slab, dO: Fn2, dq: Fn2, dk: Fn2, i: int)
    requires s.n > 0
    ensures RowInner(s.n, s.DP(dO), s.TangentP(dq, dk), i) == RowInner(s.n, s.DS(dO), s.TangentS(dq, dk), i)
  {
    SoftmaxAdjoint(s.n, s.ProbRow(i), s.DPRow(dO, i), s.TangentSRow(dq, dk, i));
    SoftmaxRowForward(s, dO, dq, dk, i);
    SoftmaxRowBackward(s, dO, dq, dk, i);
  }

  lemma SoftmaxRowForward(s: Slab, dO: Fn2, dq: Fn2, dk: Fn2, i: int)
    requires s.n > 0
    ensures RowInner(s.n, s.DP(dO), s.TangentP(dq, dk), i)
         == Sum(s.n, Times(s.DPRow(dO, i), SoftmaxTangents(s.n, s.ProbRow(i), s.TangentSRow(dq, dk, i))))
  {
    var tangents := SoftmaxTangents(s.n, s.ProbRow(i), s.TangentSRow(dq, dk, i));
    forall j: int ensures RowFn(s.DP(dO), i)(j) == s.DPRow(dO, i)(j) && RowFn(s.TangentP(dq, dk), i)(j) == tangents(j) {
    }
    SameFactors(s.n, RowFn(s.DP(dO), i), s.DPRow(dO, i), RowFn(s.TangentP(dq, dk), i), tangents);
  }

  lemma SoftmaxRowBackward(s: Slab, dO: Fn2, dq: Fn2, dk: Fn2, i: int)
    requires s.n > 0
    ensures RowInner(s.n, s.DS(dO), s.TangentS(dq, dk), i)
         == Sum(s.n, Times(SoftmaxGrads(s.n, s.ProbRow(i), s.DPRow(dO, i)), s.TangentSRow(dq, dk, i)))
  {
    var grads := SoftmaxGrads(s.n, s.ProbRow(i), s.DPRow(dO, i));
    forall j: int ensures RowFn(s.DS(dO), i)(j) == grads(j) && RowFn(s.TangentS(dq, dk), i)(j) == s.TangentSRow(dq, dk, i)(j) {
    }
    SameFactors(s.n, RowFn(s.DS(dO), i), grads, RowFn(s.TangentS(dq, dk), i), s.TangentSRow(dq, dk, i));
  }

  lemma SameFactors(n: nat, a: Fn, b: Fn, c: Fn, d: Fn)
    requires forall j :: 0 <= j < n ==> a(j) == b(j) && c(j) == d(j)
    ensures Sum(n, Times(a, c)) == Sum(n, Times(b, d))
  {
    SumCongruence(n, Times(a, c), Times(b, d));
  }

  lemma QueryStep(s: Slab, ds: Fn2, dq: Fn2)
    ensures Inner(s.n, s.n, ds, Product(s.dim, dq, Transpose(s.k))) == Inner(s.n, s.dim, Product(s.n, ds, s.k), dq)
  {
    LeftAdjoint(s.n, s.dim, s.n, ds, dq, Transpose(s.k));
    var left, right := Product(s.n, ds, Transpose(Transpose(s.k))), Product(s.n, ds, s.k);
    forall i, j | 0 <= i < s.n && 0 <= j < s.dim ensures left(i, j) == right(i, j) {
      TransposeTwice(s.n, s.k, ds, i, j);
    }
    InnerCongruence(s.n, s.dim, left, dq, right, dq);
  }

  lemma KeyStep(s: Slab, ds: Fn2, dk: Fn2)
    ensures Inner(s.n, s.n, ds, Product(s.dim, s.q, Transpose(dk))) == Inner(s.n, s.dim, Product(s.n, Transpose(ds), s.q), dk)
  {
    RightAdjoint(s.n, s.dim, s.n, ds, s.q, Transpose(dk));
    InnerTranspose(s.dim, s.n, Product(s.n, Transpose(s.q), ds), Transpose(dk));
    KeyReshape(s, ds, dk);
  }

  lemma KeyReshape(s: Slab, ds: Fn2, dk: Fn2)
    ensures Inner(s.n, s.dim, Transpose(Product(s.n, Transpose(s.q), ds)), Transpose(Transpose(dk)))
         == Inner(s.n, s.dim, Product(s.n, Transpose(ds), s.q), dk)
  {
    var left, right := Transpose(Product(s.n, Transpose(s.q), ds)), Product(s.n, Transpose(ds), s.q);
    forall i, j | 0 <= i < s.n && 0 <= j < s.dim ensures left(i, j) == right(i, j) {
      EntryTranspose(s.n, Transpose(s.q), ds, j, i);
      TransposeTwice(s.n, s.q, Transpose(ds), i, j);
    }
    InnerCongruence(s.n, s.dim, left, Transpose(Transpose(dk)), right, dk);
  }

  lemma ScoreStep(s: Slab, ds: Fn2, dq: Fn2, dk: Fn2)
    ensures Inner(s.n, s.n, ds, s.TangentS(dq, dk))
         == Inner(s.n, s.dim, Scaled(s.scale, Product(s.n, ds, s.k)), dq)
            + Inner(s.n, s.dim, Scaled(s.scale, Product(s.n, Transpose(ds), s.q)), dk)
  {
    var a, b := Product(s.dim, dq, Transpose(s.k)), Product(s.dim, s.q, Transpose(dk));
    InnerScaled(s.n, s.n, s.scale, ds, Plus(a, b));
    InnerPlus(s.n, s.n, ds, a, b);
    QueryStep(s, ds, dq);
    KeyStep(s, ds, dk);
    ScaledLeft(s.n, s.dim, s.scale, Product(s.n, ds, s.k), dq);
    ScaledLeft(s.n, s.dim, s.scale, Product(s.n, Transpose(ds), s.q), dk);
  }

  lemma ScaledLeft(n: nat, m: nat, c: real, g: Fn2, a: Fn2)
    ensures Inner(n, m, Scaled(c, g), a) == c * Inner(n, m, g, a)
  {
    InnerCommutes(n, m, Scaled(c, g), a);
    InnerScaled(n, m, c, a, g);
    InnerCommutes(n, m, g, a);
  }

  lemma BackwardPairsTangents(s: Slab, dO: Fn2, dq: Fn2, dk: Fn2, dv: Fn2)
    requires s.n > 0
    ensures Inner(s.n, s.dim, dO, s.TangentO(dq, dk, dv))
         == Inner(s.n, s.dim, s.DQ(dO), dq) + Inner(s.n, s.dim, s.DK(dO), dk) + Inner(s.n, s.dim, s.DV(dO), dv)
  {
    InnerPlus(s.n, s.dim, dO, Product(s.n, s.TangentP(dq, dk), s.v), Product(s.n, s.P(), dv));
    LeftAdjoint(s.n, s.n, s.dim, dO, s.TangentP(dq, dk), s.v);
    RightAdjoint(s.n, s.n, s.dim, dO, s.P(), dv);
    SoftmaxStep(s, dO, dq, dk);
    ScoreStep(s, s.DS(dO), dq, dk);
  }

  /**
   The backward formulas are the adjoint of the derivative of attention: for every upstream gradient
   and every direction of the three inputs, both pairings are equal.
   */
  lemma BackwardIsAdjoint(s: Slab, dO: Fn2, dq: Fn2, dk: Fn2, dv: Fn2, m: int -> Dual)
    requires s.n > 0
    ensures Inner(s.n, s.dim, dO, s.OutputTangent(dq, dk, dv, m))
         == Inner(s.n, s.dim, s.DQ(dO), dq) + Inner(s.n, s.dim, s.DK(dO), dk) + Inner(s.n, s.dim, s.DV(dO), dv)
  {
    var tangent := s.OutputTangent(dq, dk, dv, m);
    forall i, d | 0 <= i < s.n && 0 <= d < s.dim ensures tangent(i, d) == s.TangentO(dq, dk, dv)(i, d) {
      OutputDualIs(s, dq, dk, dv, m(i), i, d);
    }
    InnerCongruence(s.n, s.dim, dO, tangent, dO, s.TangentO(dq, dk, dv));
    BackwardPairsTangents(s, dO, dq, dk, dv);
  }

  /** Each row of the score gradient sums to zero. */
  lemma ScoreGradientRowsVanish(s: Slab, dO: Fn2, i: int)
    requires s.n > 0
    ensures RowSum(s.n, s.DS(dO), i) == 0.0
  {
    SoftmaxSumsToOne(s.e, s.n, s.ScoreRow(i), 0.0);
    SoftmaxGradSumsToZero(s.n, s.ProbRow(i), s.DPRow(dO, i));
    SumCongruence(s.n, RowFn(s.DS(dO), i), SoftmaxGrads(s.n, s.ProbRow(i), s.DPRow(dO, i)));
  }

  /** Summed over the keys, the key gradient vanishes in every feature: shifting all keys changes no probability. */
  lemma KeyGradientVanishes(s: Slab, dO: Fn2, d: int)
    requires s.n > 0
    ensures ColSum(s.n, s.DK(dO), d) == 0.0
  {
    var ds := s.DS(dO);
    forall i ensures RowSum(s.n, ds, i) == 0.0 {
      ScoreGradientRowsVanish(s, dO, i);
    }
    KeySumVanishes(s, ds, d);
  }

  function KeyTerms(s: Slab, ds: Fn2, d: int): Fn2 {
    (j, i) => s.scale * s.q(i, d) * ds(i, j)
  }

  lemma KeyEntry(s: Slab, ds: Fn2, d: int, j: int)
    ensures Scaled(s.scale, Product(s.n, Transpose(ds), s.q))(j, d) == RowSum(s.n, KeyTerms(s, ds, d), j)
  {
    var terms := EntryTerms(Transpose(ds), s.q, j, d);
    forall i: int ensures RowFn(KeyTerms(s, ds, d), j)(i) == s.scale * terms(i) {
      EntryTermAt(Transpose(ds), s.q, j, d, i);
      KeyTerm(s.scale, s.q(i, d), ds(i, j));
    }
    SumScale(s.n, s.scale, terms, RowFn(KeyTerms(s, ds, d), j));
  }

  lemma KeyTerm(c: real, q: real, x: real)
    ensures c * q * x == c * (x * q)
  {
  }

  lemma KeyColumn(s: Slab, ds: Fn2, d: int, i: int)
    requires RowSum(s.n, ds, i) == 0.0
    ensures ColSum(s.n, KeyTerms(s, ds, d), i) == 0.0
  {
    var c, column := s.scale * s.q(i, d), ColumnFn(KeyTerms(s, ds, d), i);
    forall j: int ensures column(j) == c * RowFn(ds, i)(j) {
    }
    SumScale(s.n, c, RowFn(ds, i), column);
  }

  lemma KeySumVanishes(s: Slab, ds: Fn2, d: int)
    requires forall i :: RowSum(s.n, ds, i) == 0.0
    ensures ColSum(s.n, Scaled(s.scale, Product(s.n, Transpose(ds), s.q)), d) == 0.0
  {
    var h, dk := KeyTerms(s, ds, d), Scaled(s.scale, Product(s.n, Transpose(ds), s.q));
    forall j: int ensures ColumnFn(dk, d)(j) == RowSums(s.n, h)(j) {
      KeyEntry(s, ds, d, j);
    }
    SumCongruence(s.n, ColumnFn(dk, d), RowSums(s.n, h));
    SumSwap(s.n, s.n, h);
    forall i: int ensures ColSums(s.n, h)(i) == 0.0 {
      KeyColumn(s, ds, d, i);
    }
    SumZero(s.n, ColSums(s.n, h));
  }
}
