/**
 The adjoint rule of each differentiable operation, on index functions. Tangents are not written
 down by hand: each is the tangent part of the operation's own forward formula evaluated on
 dual numbers.
 */
module OpRules {
  import opened Sums
  import opened IndexMaps
  import opened Vectors
  import opened Strides
  import opened Duals
  import M = Matrices

  // ---- Elementwise operations with broadcasting ----

  /** The tangents of the two operands reach position `l` with factors `a(l)` and `b(l)`. */
  ghost predicate FactorsAt(a: Fn, b: Fn, dx: Fn, dy: Fn, tangent: Fn, l: int) {
    tangent(l) == TimesAt(a, dx, l) + TimesAt(b, dy, l)
  }

  ghost predicate Factors(n: nat, a: Fn, b: Fn, dx: Fn, dy: Fn, tangent: Fn) {
    forall l :: 0 <= l < n ==> FactorsAt(a, b, dx, dy, tangent, l)
  }

  lemma TwoFactors(g: real, t: real, a: real, x: real, b: real, y: real)
    requires t == a * x + b * y
    ensures g * t == (g * a) * x + (g * b) * y
  {
  }

  /** At one position, the gradient goes to both operands with their factors. */
  lemma SplitAt(a: Fn, b: Fn, g: Fn, x: Fn, y: Fn, tangent: Fn, l: int)
    requires FactorsAt(a, b, x, y, tangent, l)
    ensures Times(g, tangent)(l) == Times(Times(g, a), x)(l) + Times(Times(g, b), y)(l)
  {
    TwoFactors(g(l), tangent(l), a(l), x(l), b(l), y(l));
  }

  lemma SplitFactors(n: nat, a: Fn, b: Fn, g: Fn, x: Fn, y: Fn, tangent: Fn, left: Fn, right: Fn, both: Fn)
    requires Factors(n, a, b, x, y, tangent)
    requires both == Times(g, tangent) && left == Times(Times(g, a), x) && right == Times(Times(g, b), y)
    ensures Sum(n, both) == Sum(n, left) + Sum(n, right)
  {
    forall l | 0 <= l < n ensures both(l) == left(l) + right(l) {
      SplitAt(a, b, g, x, y, tangent, l);
    }
    SumAdd(n, left, right, both);
  }

  /** Broadcasting reads through `p` and `q`; the gradients are summed back through them. */
  lemma ElementwiseAdjoint(n: nat, nl: nat, nr: nat, p: Index, q: Index, a: Fn, b: Fn, g: Fn, dx: Fn, dy: Fn, tangent: Fn)
    requires Into(p, n, nl) && Into(q, n, nr) && Factors(n, a, b, Pull(p, dx), Pull(q, dy), tangent)
    ensures Sum(n, Times(g, tangent))
         == Sum(nl, Times(Push(n, p, Times(g, a)), dx)) + Sum(nr, Times(Push(n, q, Times(g, b)), dy))
  {
    SplitFactors(n, a, b, g, Pull(p, dx), Pull(q, dy), tangent,
                 Times(Times(g, a), Pull(p, dx)), Times(Times(g, b), Pull(q, dy)), Times(g, tangent));
    PushAdjoint(n, nl, p, Times(g, a), dx);
    PushAdjoint(n, nr, q, Times(g, b), dy);
  }

  /** The product of two operands, already broadcast to the output shape. */
  function MulDual(x: Fn, dx: Fn, y: Fn, dy: Fn, l: int): Dual {
    DualMul(Dual(x(l), dx(l)), Dual(y(l), dy(l)))
  }

  function MulTangents(x: Fn, dx: Fn, y: Fn, dy: Fn): Fn {
    l => MulDual(x, dx, y, dy, l).t
  }

  lemma MulFactorsAt(x: Fn, dx: Fn, y: Fn, dy: Fn, l: int)
    ensures FactorsAt(y, x, dx, dy, MulTangents(x, dx, y, dy), l)
  {
    DualMulIs(x(l), dx(l), y(l), dy(l));
    Swap(dx(l), y(l));
  }

  lemma MulFactors(n: nat, x: Fn, dx: Fn, y: Fn, dy: Fn)
    ensures Factors(n, y, x, dx, dy, MulTangents(x, dx, y, dy))
  {
    forall l | 0 <= l < n ensures FactorsAt(y, x, dx, dy, MulTangents(x, dx, y, dy), l) {
      MulFactorsAt(x, dx, y, dy, l);
    }
  }

  function DivDual(x: Fn, dx: Fn, y: Fn, dy: Fn, l: int): Dual
    requires y(l) != 0.0
  {
    DualDiv(Dual(x(l), dx(l)), Dual(y(l), dy(l)))
  }

  /** `1 / y`, as in `div(grad, rhs)`. */
  function DivLeft(y: real): real {
    if y == 0.0 then 0.0 else 1.0 / y
  }

  /** `-x / (y * y)`. */
  function DivRight(x: real, y: real): real {
    if y * y == 0.0 then 0.0 else 0.0 - x / (y * y)
  }

  function DivLefts(y: Fn): Fn {
    l => DivLeft(y(l))
  }

  function DivRights(x: Fn, y: Fn): Fn {
    l => DivRight(x(l), y(l))
  }

  lemma PositiveProduct(a: real, b: real)
    requires a > 0.0 && b > 0.0
    ensures a * b > 0.0
  {
  }

  lemma NegatedSquare(y: real)
    ensures (0.0 - y) * (0.0 - y) == y * y
  {
  }

  lemma SquareNonZero(y: real)
    requires y != 0.0
    ensures y * y != 0.0
  {
    if y > 0.0 {
      PositiveProduct(y, y);
    } else {
      PositiveProduct(0.0 - y, 0.0 - y);
      NegatedSquare(y);
    }
  }

  lemma CancelTwice(x: real, r: real, y: real)
    requires r * y == 1.0
    ensures x * r * r * (y * y) == x
  {
    var w := r * y;
    assert x * r * r * (y * y) == (x * w) * w;
    TimesOneAt(x, w);
    TimesOneAt(x * w, w);
  }

  lemma QuotientBySquare(x: real, r: real, y: real)
    requires y != 0.0 && r * y == 1.0
    ensures y * y != 0.0 && x / (y * y) == x * r * r
  {
    SquareNonZero(y);
    CancelTwice(x, r, y);
    CancelDivision(x * r * r, x, y * y);
  }

  lemma QuotientBy(x: real, r: real, y: real)
    requires y != 0.0 && r * y == 1.0
    ensures x / y == x * r
  {
    assert x * r * y == x * (r * y);
    CancelDivision(x * r, x, y);
  }

  /** The quotient rule as the kernel arranges it. */
  lemma QuotientTangent(x: real, dx: real, y: real, dy: real)
    requires y != 0.0
    ensures y * y != 0.0
    ensures (dx - (x / y) * dy) / y == (1.0 / y) * dx + (0.0 - x / (y * y)) * dy
  {
    var r := 1.0 / y;
    QuotientBySquare(x, r, y);
    QuotientBy(x, r, y);
    QuotientBy(dx - (x * r) * dy, r, y);
    Expand(x * r, dx, dy, r);
  }

  lemma Expand(xr: real, dx: real, dy: real, r: real)
    ensures (dx - xr * dy) * r == r * dx + (0.0 - xr * r) * dy
  {
  }

  /** The divisor is not zero where the output is defined, and `tangent` is the tangent of the quotient. */
  ghost predicate IsDivTangent(n: nat, x: Fn, dx: Fn, y: Fn, dy: Fn, tangent: Fn) {
    forall l :: 0 <= l < n ==> IsDivTangentAt(x, dx, y, dy, tangent, l)
  }

  ghost predicate IsDivTangentAt(x: Fn, dx: Fn, y: Fn, dy: Fn, tangent: Fn, l: int) {
    y(l) != 0.0 && tangent(l) == DivDual(x, dx, y, dy, l).t
  }

  lemma DivTangentIs(x: real, dx: real, y: real, dy: real)
    requires y != 0.0
    ensures DualDiv(Dual(x, dx), Dual(y, dy)).t == DivLeft(y) * dx + DivRight(x, y) * dy
  {
    QuotientTangent(x, dx, y, dy);
  }

  lemma DivFactorsAt(x: Fn, dx: Fn, y: Fn, dy: Fn, tangent: Fn, l: int)
    requires IsDivTangentAt(x, dx, y, dy, tangent, l)
    ensures FactorsAt(DivLefts(y), DivRights(x, y), dx, dy, tangent, l)
  {
    DivTangentIs(x(l), dx(l), y(l), dy(l));
  }

  lemma DivFactors(n: nat, x: Fn, dx: Fn, y: Fn, dy: Fn, tangent: Fn)
    requires IsDivTangent(n, x, dx, y, dy, tangent)
    ensures Factors(n, DivLefts(y), DivRights(x, y), dx, dy, tangent)
  {
    forall l | 0 <= l < n ensures FactorsAt(DivLefts(y), DivRights(x, y), dx, dy, tangent, l) {
      DivFactorsAt(x, dx, y, dy, tangent, l);
    }
  }

  // ---- Matrix product ----

  function ProductDualTerm(a: Fn2, da: Fn2, b: Fn2, db: Fn2, i: int, j: int, t: int): Dual {
    DualMul(Dual(a(i, t), da(i, t)), Dual(b(t, j), db(t, j)))
  }

  function ProductDualTerms(a: Fn2, da: Fn2, b: Fn2, db: Fn2, i: int, j: int): int -> Dual {
    t => ProductDualTerm(a, da, b, db, i, j, t)
  }

  /** The product on dual numbers. */
  function ProductDual(k: nat, a: Fn2, da: Fn2, b: Fn2, db: Fn2, i: int, j: int): Dual {
    DualSum(k, ProductDualTerms(a, da, b, db, i, j))
  }

  function ProductTangent(k: nat, a: Fn2, da: Fn2, b: Fn2, db: Fn2): Fn2 {
    M.Plus(M.Product(k, da, b), M.Product(k, a, db))
  }

  function BothTerms(a: Fn2, da: Fn2, b: Fn2, db: Fn2, i: int, j: int): Fn {
    t => M.EntryTerms(da, b, i, j)(t) + M.EntryTerms(a, db, i, j)(t)
  }

  lemma ProductTermIs(a: Fn2, da: Fn2, b: Fn2, db: Fn2, i: int, j: int, t: int)
    ensures ProductDualTerm(a, da, b, db, i, j, t) == Dual(M.EntryTerms(a, b, i, j)(t), BothTerms(a, da, b, db, i, j)(t))
  {
    DualMulIs(a(i, t), da(i, t), b(t, j), db(t, j));
    M.EntryTermAt(a, b, i, j, t);
    M.EntryTermAt(da, b, i, j, t);
    M.EntryTermAt(a, db, i, j, t);
  }

  lemma ProductDualIs(k: nat, a: Fn2, da: Fn2, b: Fn2, db: Fn2, i: int, j: int)
    ensures ProductDual(k, a, da, b, db, i, j) == Dual(M.Entry(k, a, b, i, j), ProductTangent(k, a, da, b, db)(i, j))
  {
    var terms, both := ProductDualTerms(a, da, b, db, i, j), BothTerms(a, da, b, db, i, j);
    forall t: int ensures terms(t).v == M.EntryTerms(a, b, i, j)(t) && terms(t).t == both(t) {
      ProductTermIs(a, da, b, db, i, j, t);
    }
    DualSumParts(k, terms, M.EntryTerms(a, b, i, j), both);
    SumAdd(k, M.EntryTerms(da, b, i, j), M.EntryTerms(a, db, i, j), both);
  }

  /** `dA = G Bᵀ` and `dB = Aᵀ G` are adjoint to the tangent of `A B`. */
  lemma ProductAdjoint(m: nat, k: nat, n: nat, g: Fn2, a: Fn2, da: Fn2, b: Fn2, db: Fn2)
    ensures M.Inner(m, n, g, ProductTangent(k, a, da, b, db))
         == M.Inner(m, k, M.Product(n, g, M.Transpose(b)), da) + M.Inner(k, n, M.Product(m, M.Transpose(a), g), db)
  {
    M.InnerPlus(m, n, g, M.Product(k, da, b), M.Product(k, a, db));
    M.LeftAdjoint(m, k, n, g, da, b);
    M.RightAdjoint(m, k, n, g, a, db);
  }

  // ---- Matrices in flat buffers ----

  /** The matrix with rows of `n` that a flat buffer holds. */
  function Mat(f: Fn, n: nat): Fn2 {
    (i, j) => f(i * n + j)
  }

  /** The flat buffer that holds a matrix. */
  function Flat(a: Fn2, n: nat): Fn {
    l => if n > 0 && l >= 0 then a(l / n, l % n) else 0.0
  }

  lemma MatOfFlat(a: Fn2, m: nat, n: nat)
    ensures M.SameOn(m, n, Mat(Flat(a, n), n), a)
  {
    forall i, j | 0 <= i < m && 0 <= j < n ensures Mat(Flat(a, n), n)(i, j) == a(i, j) {
      DivMod(i, n, j);
      MulNonNegative(i, n);
    }
  }

  lemma MulNonNegative(a: nat, b: nat)
    ensures a * b >= 0
  {
  }

  /** Pairing flat buffers is pairing the matrices they hold. */
  lemma FlatInner(m: nat, n: nat, f: Fn, h: Fn)
    ensures Sum(m * n, Times(f, h)) == M.Inner(m, n, Mat(f, n), Mat(h, n))
  {
    FlatSum(m, n, Times(f, h));
    forall i: int ensures RowTotals(n, Times(f, h))(i) == M.RowInners(n, Mat(f, n), Mat(h, n))(i) {
      FlatRow(n, f, h, i);
    }
    SumCongruence(m, RowTotals(n, Times(f, h)), M.RowInners(n, Mat(f, n), Mat(h, n)));
  }

  lemma FlatRow(n: nat, f: Fn, h: Fn, i: int)
    ensures RowTotal(n, Times(f, h), i) == M.RowInner(n, Mat(f, n), Mat(h, n), i)
  {
    SumCongruence(n, Slice(Times(f, h), n, i), Times(RowFn(Mat(f, n), i), RowFn(Mat(h, n), i)));
  }

  lemma FlatInnerLeft(m: nat, n: nat, a: Fn2, h: Fn)
    ensures Sum(m * n, Times(Flat(a, n), h)) == M.Inner(m, n, a, Mat(h, n))
  {
    FlatInner(m, n, Flat(a, n), h);
    MatOfFlat(a, m, n);
    M.InnerCongruence(m, n, Mat(Flat(a, n), n), Mat(h, n), a, Mat(h, n));
  }

  lemma FlatInnerRight(m: nat, n: nat, f: Fn, a: Fn2)
    ensures Sum(m * n, Times(f, Flat(a, n))) == M.Inner(m, n, Mat(f, n), a)
  {
    FlatInner(m, n, f, Flat(a, n));
    MatOfFlat(a, m, n);
    M.InnerCongruence(m, n, Mat(f, n), Mat(Flat(a, n), n), Mat(f, n), a);
  }

  /** The left gradient of a flat product: `grad @ rhsᵀ`. */
  function LeftGrad(m: nat, k: nat, n: nat, g: Fn, b: Fn): Fn {
    Flat(M.Product(n, Mat(g, n), M.Transpose(Mat(b, n))), k)
  }

  /** The right gradient: `lhsᵀ @ grad`. */
  function RightGrad(m: nat, k: nat, n: nat, g: Fn, a: Fn): Fn {
    Flat(M.Product(m, M.Transpose(Mat(a, k)), Mat(g, n)), n)
  }

  function FlatTangent(k: nat, n: nat, a: Fn, da: Fn, b: Fn, db: Fn): Fn {
    Flat(ProductTangent(k, Mat(a, k), Mat(da, k), Mat(b, n), Mat(db, n)), n)
  }

  lemma FlatProductAdjoint(m: nat, k: nat, n: nat, g: Fn, a: Fn, da: Fn, b: Fn, db: Fn)
    ensures Sum(m * n, Times(g, FlatTangent(k, n, a, da, b, db)))
         == Sum(m * k, Times(LeftGrad(m, k, n, g, b), da)) + Sum(k * n, Times(RightGrad(m, k, n, g, a), db))
  {
    FlatInnerRight(m, n, g, ProductTangent(k, Mat(a, k), Mat(da, k), Mat(b, n), Mat(db, n)));
    ProductAdjoint(m, k, n, Mat(g, n), Mat(a, k), Mat(da, k), Mat(b, n), Mat(db, n));
    FlatInnerLeft(m, k, M.Product(n, Mat(g, n), M.Transpose(Mat(b, n))), da);
    FlatInnerLeft(k, n, M.Product(m, M.Transpose(Mat(a, k)), Mat(g, n)), db);
  }

  // ---- Bias ----

  /** The bias entry added at each position of an `m` by `n` output. */
  function BiasMap(n: nat): Index {
    l => if n > 0 then l % n else 0
  }

  lemma BiasInto(m: nat, n: nat)
    ensures Into(BiasMap(n), m * n, n)
  {
    if n == 0 {
      assert m * n == 0;
    }
  }

  /** Summing over the batch axis is adjoint to adding the bias to every row. */
  lemma BiasAdjoint(m: nat, n: nat, g: Fn, db: Fn)
    ensures Sum(m * n, Times(g, Pull(BiasMap(n), db))) == Sum(n, Times(Push(m * n, BiasMap(n), g), db))
  {
    BiasInto(m, n);
    PushAdjoint(m * n, n, BiasMap(n), g, db);
  }

  // ---- Batched product ----

  /** The buffer made of one function per batch element. */
  function Stack(n: nat, f: int -> Fn): Fn {
    l => if n > 0 && l >= 0 then f(l / n)(l % n) else 0.0
  }

  function PairSlice(n: nat, f: int -> Fn, h: Fn, i: int): real {
    Sum(n, Times(f(i), Slice(h, n, i)))
  }

  function PairSlices(n: nat, f: int -> Fn, h: Fn): Fn {
    i => PairSlice(n, f, h, i)
  }

  lemma StackedSum(b: nat, n: nat, f: int -> Fn, h: Fn)
    ensures Sum(b * n, Times(Stack(n, f), h)) == Sum(b, PairSlices(n, f, h))
  {
    FlatSum(b, n, Times(Stack(n, f), h));
    forall i | 0 <= i < b ensures RowTotals(n, Times(Stack(n, f), h))(i) == PairSlices(n, f, h)(i) {
      StackedRow(n, f, h, i);
    }
    SumCongruence(b, RowTotals(n, Times(Stack(n, f), h)), PairSlices(n, f, h));
  }

  lemma StackedRow(n: nat, f: int -> Fn, h: Fn, i: nat)
    ensures RowTotal(n, Times(Stack(n, f), h), i) == PairSlice(n, f, h, i)
  {
    var row, pair := Slice(Times(Stack(n, f), h), n, i), Times(f(i), Slice(h, n, i));
    forall j | 0 <= j < n ensures row(j) == pair(j) {
      StackAt(n, f, i, j);
    }
    SumCongruence(n, row, pair);
  }

  lemma StackAt(n: nat, f: int -> Fn, i: nat, j: nat)
    requires j < n
    ensures Stack(n, f)(i * n + j) == f(i)(j)
  {
    DivMod(i, n, j);
    MulNonNegative(i, n);
  }

  function LeftGrads(m: nat, k: nat, n: nat, g: Fn, r: Fn): int -> Fn {
    i => LeftGrad(m, k, n, Slice(g, m * n, i), Slice(r, k * n, i))
  }

  function RightGrads(m: nat, k: nat, n: nat, g: Fn, a: Fn): int -> Fn {
    i => RightGrad(m, k, n, Slice(g, m * n, i), Slice(a, m * k, i))
  }

  function FlatTangents(m: nat, k: nat, n: nat, a: Fn, da: Fn, r: Fn, dr: Fn): int -> Fn {
    i => FlatTangent(k, n, Slice(a, m * k, i), Slice(da, m * k, i), Slice(r, k * n, i), Slice(dr, k * n, i))
  }

  function BmmLeft(m: nat, k: nat, n: nat, g: Fn, r: Fn): Fn {
    Stack(m * k, LeftGrads(m, k, n, g, r))
  }

  function BmmRight(m: nat, k: nat, n: nat, g: Fn, a: Fn): Fn {
    Stack(k * n, RightGrads(m, k, n, g, a))
  }

  function BmmTangent(m: nat, k: nat, n: nat, a: Fn, da: Fn, r: Fn, dr: Fn): Fn {
    Stack(m * n, FlatTangents(m, k, n, a, da, r, dr))
  }

  lemma FlatAdjoint(m: nat, k: nat, n: nat, g: Fn, a: Fn, da: Fn, r: Fn, dr: Fn)
    ensures Sum(m * n, Times(FlatTangent(k, n, a, da, r, dr), g))
         == Sum(m * k, Times(LeftGrad(m, k, n, g, r), da)) + Sum(k * n, Times(RightGrad(m, k, n, g, a), dr))
  {
    TimesCommute(m * n, FlatTangent(k, n, a, da, r, dr), g);
    FlatProductAdjoint(m, k, n, g, a, da, r, dr);
  }

  lemma SliceAdjoint(m: nat, k: nat, n: nat, g: Fn, a: Fn, da: Fn, r: Fn, dr: Fn, i: int)
    ensures PairSlice(m * n, FlatTangents(m, k, n, a, da, r, dr), g, i)
         == PairSlice(m * k, LeftGrads(m, k, n, g, r), da, i) + PairSlice(k * n, RightGrads(m, k, n, g, a), dr, i)
  {
    FlatAdjoint(m, k, n, Slice(g, m * n, i), Slice(a, m * k, i), Slice(da, m * k, i), Slice(r, k * n, i), Slice(dr, k * n, i));
  }

  ghost predicate PairsAdd(s: nat, f: int -> Fn, g: Fn, t: nat, l: int -> Fn, da: Fn, u: nat, r: int -> Fn, dr: Fn) {
    forall i: int :: PairSlice(s, f, g, i) == PairSlice(t, l, da, i) + PairSlice(u, r, dr, i)
  }

  /** What holds for every batch element holds for the stack. */
  lemma StackAdjoint(b: nat, s: nat, f: int -> Fn, g: Fn, t: nat, l: int -> Fn, da: Fn, u: nat, r: int -> Fn, dr: Fn)
    requires PairsAdd(s, f, g, t, l, da, u, r, dr)
    ensures Sum(b * s, Times(g, Stack(s, f))) == Sum(b * t, Times(Stack(t, l), da)) + Sum(b * u, Times(Stack(u, r), dr))
  {
    TimesCommute(b * s, g, Stack(s, f));
    StackedSum(b, s, f, g);
    StackedSum(b, t, l, da);
    StackedSum(b, u, r, dr);
    SumAdd(b, PairSlices(t, l, da), PairSlices(u, r, dr), PairSlices(s, f, g));
  }

  /** The batched product: every batch element by itself. */
  lemma BmmAdjoint(b: nat, m: nat, k: nat, n: nat, g: Fn, a: Fn, da: Fn, r: Fn, dr: Fn)
    ensures Sum(b * (m * n), Times(g, BmmTangent(m, k, n, a, da, r, dr)))
         == Sum(b * (m * k), Times(BmmLeft(m, k, n, g, r), da)) + Sum(b * (k * n), Times(BmmRight(m, k, n, g, a), dr))
  {
    var tangents, lefts, rights := FlatTangents(m, k, n, a, da, r, dr), LeftGrads(m, k, n, g, r), RightGrads(m, k, n, g, a);
    forall i: int
      ensures PairSlice(m * n, tangents, g, i) == PairSlice(m * k, lefts, da, i) + PairSlice(k * n, rights, dr, i)
    {
      SliceAdjoint(m, k, n, g, a, da, r, dr, i);
    }
    StackAdjoint(b, m * n, tangents, g, m * k, lefts, da, k * n, rights, dr);
  }
}
