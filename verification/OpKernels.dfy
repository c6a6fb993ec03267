/**
 The forward formulas that `Ops` differentiates are the ones the kernels compute: the value part
 of every operation is the element that the forward kernel writes.
 */
module OpKernels {
  import opened Options
  import opened Sums
  import opened IndexMaps
  import opened Vectors
  import opened Strides
  import opened OpRules
  import opened GroupSoftmax
  import opened Axes
  import opened AxisSoftmax
  import opened Ops
  import S = Duals
  import M = Matrices
  import E = Elementwise
  import B = Broadcasting
  import G = GatherScatter
  import K = MatrixKernels
  import T = Tensors

  lemma FlatValue(k: nat, n: nat, x: Fn, dx: Fn, y: Fn, dy: Fn, l: nat)
    requires n > 0
    ensures FlatProductDual(k, n, x, dx, y, dy, l).v == Flat(M.Product(k, Mat(x, k), Mat(y, n)), n)(l)
  {
    ProductDualIs(k, Mat(x, k), Mat(dx, k), Mat(y, n), Mat(dy, n), l / n, l % n);
  }

  lemma Columns(m: nat, n: nat, l: nat)
    requires l < m * n
    ensures n > 0
  {
    K.RowOf(l, m, n);
  }

  /** `matmul`. */
  lemma MatMulValue(fs: Functions, op: Op, ds: seq<Option<Vec>>, out: seq<real>, l: nat)
    requires Defined(op) && op.kind.MatMul? && l < OutSize(op.kind)
    requires var MatMul(m, k, n) := op.kind;
             out == Build(m * n, Flat(M.Product(k, Mat(Buffer(op.args[0]), k), Mat(Buffer(op.args[1]), n)), n))
    ensures Forward(fs, op, ds, l).v == out[l]
  {
    var MatMul(m, k, n) := op.kind;
    Columns(m, n, l);
    FlatValue(k, n, Arg(op.args, 0), Direction(ds, 0), Arg(op.args, 1), Direction(ds, 1), l);
  }

  /** `linear`: `matmul_with_bias`. */
  lemma LinearValue(fs: Functions, op: Op, ds: seq<Option<Vec>>, out: seq<real>, l: nat)
    requires Defined(op) && op.kind.Linear? && l < OutSize(op.kind)
    requires var Linear(m, k, n) := op.kind;
             out == Build(m * n, K.Biased(Flat(M.Product(k, Mat(Buffer(op.args[0]), k), Mat(Buffer(op.args[1]), n)), n), n, op.args[2]))
    ensures Forward(fs, op, ds, l).v == out[l]
  {
    var Linear(m, k, n) := op.kind;
    Columns(m, n, l);
    FlatValue(k, n, Arg(op.args, 0), Direction(ds, 0), Arg(op.args, 1), Direction(ds, 1), l);
  }

  lemma BatchValue(b: nat, m: nat, k: nat, n: nat, x: Fn, dx: Fn, y: Fn, dy: Fn, l: nat)
    requires l < b * (m * n)
    ensures BatchDual(m, k, n, x, dx, y, dy, l).v == K.BatchedProduct(m, k, n, x, y)(l)
  {
    Columns(b, m * n, l);
    var i, r := l / (m * n), l % (m * n);
    Columns(m, n, r);
    FlatValue(k, n, Slice(x, m * k, i), Slice(dx, m * k, i), Slice(y, k * n, i), Slice(dy, k * n, i), r);
  }

  /** `bmm`. */
  lemma BmmValue(fs: Functions, op: Op, ds: seq<Option<Vec>>, out: seq<real>, l: nat)
    requires Defined(op) && op.kind.Bmm? && l < OutSize(op.kind)
    requires var Bmm(b, m, k, n) := op.kind;
             out == Build(b * (m * n), K.BatchedProduct(m, k, n, Buffer(op.args[0]), Buffer(op.args[1])))
    ensures Forward(fs, op, ds, l).v == out[l]
  {
    var Bmm(b, m, k, n) := op.kind;
    BatchValue(b, m, k, n, Arg(op.args, 0), Direction(ds, 0), Arg(op.args, 1), Direction(ds, 1), l);
  }

  /** The operand of an elementwise operation, as a row-major view of its own storage. */
  function Whole(v: Vec, shape: Shape): E.View {
    E.View(v, shape, RowMajor(shape), 0)
  }

  function MulReal(a: real, b: real): real {
    a * b
  }

  lemma MappedAt(a: E.View, b: E.View, o: Shape, f: (real, real) -> real, out: seq<real>, l: nat)
    requires E.Mapped(a, b, o, f, out) && l < Numel(o)
    ensures l < |out| && out[l] == f(E.PlanRead(a, o, l), E.PlanRead(b, o, l))
  {
  }

  lemma TimesOf(f: Fn, g: Fn, l: int, x: real, y: real)
    requires x == f(l) && y == g(l)
    ensures MulReal(x, y) == Times(f, g)(l)
  {
  }

  lemma MappedTimes(x: Vec, y: Vec, ls: Shape, rs: Shape, o: Shape, out: seq<real>, l: nat, f: Fn, g: Fn)
    requires E.Mapped(Whole(x, ls), Whole(y, rs), o, MulReal, out) && l < Numel(o)
    requires f == Spread(ls, o, Buffer(x)) && g == Spread(rs, o, Buffer(y))
    ensures l < |out| && out[l] == Times(f, g)(l)
  {
    ReadIsArg(x, ls, o, l);
    ReadIsArg(y, rs, o, l);
    MappedAt(Whole(x, ls), Whole(y, rs), o, MulReal, out, l);
    TimesOf(f, g, l, E.PlanRead(Whole(x, ls), o, l), E.PlanRead(Whole(y, rs), o, l));
  }

  lemma MulDualValue(x: Fn, dx: Fn, y: Fn, dy: Fn, l: int, out: S.Dual)
    requires out == MulDual(x, dx, y, dy, l)
    ensures out.v == Times(x, y)(l)
  {
  }

  /** `mul` through `map_binary`. */
  lemma MulValue(fs: Functions, op: Op, ds: seq<Option<Vec>>, out: seq<real>, l: nat)
    requires Defined(op) && op.kind.Mul? && l < OutSize(op.kind)
    requires E.Mapped(Whole(op.args[0], op.kind.ls), Whole(op.args[1], op.kind.rs), op.kind.o, MulReal, out)
    ensures Forward(fs, op, ds, l).v == out[l]
  {
    var Mul(ls, rs, o) := op.kind;
    MappedTimes(op.args[0], op.args[1], ls, rs, o, out, l, Spread(ls, o, Arg(op.args, 0)), Spread(rs, o, Arg(op.args, 1)));
    MulForward(fs, op, ds, l);
    MulDualValue(Spread(ls, o, Arg(op.args, 0)), Spread(ls, o, Direction(ds, 0)), Spread(rs, o, Arg(op.args, 1)),
                 Spread(rs, o, Direction(ds, 1)), l, Forward(fs, op, ds, l));
  }

  lemma ReadIsArg(v: Vec, s: Shape, o: Shape, l: nat)
    ensures E.PlanRead(Whole(v, s), o, l) == Spread(s, o, Buffer(v))(l)
  {
    assert Spread(s, o, Buffer(v))(l) == Buffer(v)(B.OriginAt(s, o, l));
  }

  /** `div` through `map_binary`; the divisor is not zero where the operation is defined. */
  lemma DivValue(fs: Functions, op: Op, ds: seq<Option<Vec>>, f: (real, real) -> real, out: seq<real>, l: nat)
    requires Defined(op) && op.kind.Div? && l < OutSize(op.kind)
    requires forall x, y :: y != 0.0 ==> f(x, y) == x / y
    requires E.Mapped(Whole(op.args[0], op.kind.ls), Whole(op.args[1], op.kind.rs), op.kind.o, f, out)
    ensures Forward(fs, op, ds, l).v == out[l]
  {
    var Div(ls, rs, o) := op.kind;
    ReadIsArg(op.args[0], ls, o, l);
    ReadIsArg(op.args[1], rs, o, l);
    DivForward(fs, op, ds, l);
  }

  /** `add_bias`. */
  lemma AddBiasValue(fs: Functions, op: Op, ds: seq<Option<Vec>>, out: seq<real>, l: nat)
    requires Defined(op) && op.kind.AddBias? && l < OutSize(op.kind)
    requires out == Build(op.kind.m * op.kind.n, K.Biased(Buffer(op.args[0]), op.kind.n, op.args[1]))
    ensures Forward(fs, op, ds, l).v == out[l]
  {
  }

  function Exponentials(e: real -> real, f: Fn): Fn {
    l => e(f(l))
  }

  lemma LogSoftmaxAt(fs: Functions, op: Op, ds: seq<Option<Vec>>, l: nat)
    requires Defined(op) && op.kind.LogSoftmax? && fs.Inverse() && l < OutSize(op.kind)
    ensures var LogSoftmax(shape, dim, reference) := op.kind;
            && fs.exp(OutValues(fs, op, ds)(l)) == SavedSoftmax(fs, shape, dim, reference, Arg(op.args, 0))(l)
            && OutValues(fs, op, ds)(l) == LogSoftmaxes(fs.exp, fs.log, Numel(shape), Groups(shape, dim), Arg(op.args, 0), Buffer(reference))(l)
  {
    var LogSoftmax(shape, dim, reference) := op.kind;
    LogSoftmaxForward(fs, op, ds, l);
    ExpOfLogSoftmax(fs.exp, fs.log, Numel(shape), Groups(shape, dim), Arg(op.args, 0), Buffer(reference), l);
    assert OutValues(fs, op, ds)(l) == ValueAt(fs, op, ds, l);
  }

  lemma LogSoftmaxAll(fs: Functions, op: Op, ds: seq<Option<Vec>>, exps: Fn, y: Fn)
    requires Defined(op) && op.kind.LogSoftmax? && fs.Inverse()
    requires exps == Exponentials(fs.exp, OutValues(fs, op, ds))
    requires y == SavedSoftmax(fs, op.kind.shape, op.kind.dim, op.kind.reference, Arg(op.args, 0))
    ensures AgreeBelow(OutSize(op.kind), exps, y)
  {
    forall l | 0 <= l < OutSize(op.kind) ensures exps(l) == y(l) {
      LogSoftmaxAt(fs, op, ds, l);
    }
  }

  /** `log_softmax` along an axis: on every line its exponential is the softmax of the input. */
  lemma LogSoftmaxValue(fs: Functions, op: Op, ds: seq<Option<Vec>>, c: seq<nat>)
    requires Defined(op) && op.kind.LogSoftmax? && fs.Inverse() && InShape(c, op.kind.shape)
    ensures SoftmaxOnLine(fs.exp, op.kind.shape, op.kind.dim, c, Arg(op.args, 0), Exponentials(fs.exp, OutValues(fs, op, ds)))
  {
    var LogSoftmax(shape, dim, reference) := op.kind;
    var exps, y := Exponentials(fs.exp, OutValues(fs, op, ds)), SavedSoftmax(fs, shape, dim, reference, Arg(op.args, 0));
    LogSoftmaxAll(fs, op, ds, exps, y);
    SoftmaxLine(fs.exp, shape, dim, Arg(op.args, 0), Buffer(reference), c, exps);
  }

  /** Along a line the outputs differ as the inputs do, and what the node exponentiates is its output. */
  lemma LogSoftmaxDifference(fs: Functions, op: Op, ds: seq<Option<Vec>>, c: seq<nat>, s: nat, t: nat, l: nat, k: nat)
    requires Defined(op) && op.kind.LogSoftmax? && fs.Inverse() && InShape(c, op.kind.shape)
    requires s < op.kind.shape[op.kind.dim] && t < op.kind.shape[op.kind.dim]
    requires l == Encode(c[op.kind.dim := s], op.kind.shape) && k == Encode(c[op.kind.dim := t], op.kind.shape)
    ensures OutValues(fs, op, ds)(l) - OutValues(fs, op, ds)(k) == Arg(op.args, 0)(l) - Arg(op.args, 0)(k)
    ensures fs.exp(OutValues(fs, op, ds)(l)) == SavedExp(fs, op.kind.shape, op.kind.dim, op.kind.reference, Arg(op.args, 0))(l)
  {
    var LogSoftmax(shape, dim, reference) := op.kind;
    LineInShape(shape, dim, c, s);
    LineInShape(shape, dim, c, t);
    LogSoftmaxAt(fs, op, ds, l);
    LogSoftmaxAt(fs, op, ds, k);
    GroupDifference(fs.exp, fs.log, Numel(shape), Groups(shape, dim), Arg(op.args, 0), Buffer(reference), l, k);
    SavedExpAt(fs, shape, dim, reference, Arg(op.args, 0), l);
  }

  /** `index_select`. */
  lemma IndexSelectValue(fs: Functions, op: Op, ds: seq<Option<Vec>>, out: seq<real>, l: nat)
    requires Defined(op) && op.kind.IndexSelect? && l < OutSize(op.kind)
    requires var IndexSelect(shape, idx) := op.kind;
             var s := shape[0 := |idx|];
             G.Gathered(out, Numel(s), T.Tensor(shape, op.args[0]), s, 0, G.Spread(idx, s, 0))
    ensures Forward(fs, op, ds, l).v == out[l]
  {
  }

  lemma SoftmaxOut(fs: Functions, op: Op, ds: seq<Option<Vec>>, l: nat)
    requires Defined(op) && op.kind.Softmax? && l < OutSize(op.kind)
    ensures var Softmax(shape, dim, reference) := op.kind;
            OutValues(fs, op, ds)(l) == SavedSoftmax(fs, shape, dim, reference, Arg(op.args, 0))(l)
  {
    SoftmaxForward(fs, op, ds, l);
    assert OutValues(fs, op, ds)(l) == ValueAt(fs, op, ds, l);
  }

  lemma SoftmaxAll(fs: Functions, op: Op, ds: seq<Option<Vec>>, out: Fn, y: Fn)
    requires Defined(op) && op.kind.Softmax? && out == OutValues(fs, op, ds)
    requires y == SavedSoftmax(fs, op.kind.shape, op.kind.dim, op.kind.reference, Arg(op.args, 0))
    ensures AgreeBelow(OutSize(op.kind), out, y)
  {
    forall l | 0 <= l < OutSize(op.kind) ensures out(l) == y(l) {
      SoftmaxOut(fs, op, ds, l);
    }
  }

  /**
   `softmax` along an axis: on every line along it the outputs sum to one, in the ratio of the
   exponentials of the inputs; they are what the node saves.
   */
  lemma SoftmaxValue(fs: Functions, op: Op, ds: seq<Option<Vec>>, c: seq<nat>, line: Index, out: Fn)
    requires Defined(op) && op.kind.Softmax? && InShape(c, op.kind.shape)
    requires out == OutValues(fs, op, ds)
    requires forall t :: 0 <= t < op.kind.shape[op.kind.dim] ==> line(t) == Encode(c[op.kind.dim := t], op.kind.shape)
    ensures Sum(op.kind.shape[op.kind.dim], Pull(line, out)) == 1.0
    ensures SoftmaxOnLine(fs.exp, op.kind.shape, op.kind.dim, c, Arg(op.args, 0), out)
    ensures AgreeBelow(Numel(op.kind.shape), out, SavedSoftmax(fs, op.kind.shape, op.kind.dim, op.kind.reference, Arg(op.args, 0)))
  {
    var Softmax(shape, dim, reference) := op.kind;
    SoftmaxAll(fs, op, ds, out, SavedSoftmax(fs, shape, dim, reference, Arg(op.args, 0)));
    SoftmaxLine(fs.exp, shape, dim, Arg(op.args, 0), Buffer(reference), c, out);
    SameIndices(shape[dim], line, Line(shape, dim, c), out);
  }

  lemma SameIndices(n: nat, p: Index, q: Index, f: Fn)
    requires forall t :: 0 <= t < n ==> p(t) == q(t)
    ensures Sum(n, Pull(p, f)) == Sum(n, Pull(q, f))
  {
    SumCongruence(n, Pull(p, f), Pull(q, f));
  }

  lemma SoftmaxGradientIs(fs: Functions, op: Op, g: Fn, shape: Shape, dim: nat, y: Fn)
    requires op.kind.Softmax? && shape == op.kind.shape && dim == op.kind.dim
    requires y == SavedSoftmax(fs, shape, dim, op.kind.reference, Arg(op.args, 0))
    ensures Gradient(fs, op, g, 0) == Grads(Numel(shape), Groups(shape, dim), y, g)
  {
  }

  lemma LogSoftmaxGradientIs(fs: Functions, op: Op, g: Fn, shape: Shape, dim: nat, y: Fn)
    requires op.kind.LogSoftmax? && shape == op.kind.shape && dim == op.kind.dim
    requires y == SavedExp(fs, shape, dim, op.kind.reference, Arg(op.args, 0))
    ensures Gradient(fs, op, g, 0) == LogGrads(Numel(shape), Groups(shape, dim), y, g)
  {
  }

  /** `SoftmaxBackward` in coordinates: output times gradient minus their pairing along the line. */
  lemma SoftmaxGradient(fs: Functions, op: Op, g: Fn, shape: Shape, dim: nat, c: seq<nat>, y: Fn)
    requires op.kind.Softmax? && shape == op.kind.shape && dim == op.kind.dim && InShape(c, shape) && dim < |shape|
    requires y == SavedSoftmax(fs, shape, dim, op.kind.reference, Arg(op.args, 0))
    ensures var l := Encode(c, shape);
            Gradient(fs, op, g, 0)(l) == y(l) * (g(l) - Sum(shape[dim], Pull(Line(shape, dim, c), Times(g, y))))
  {
    SoftmaxGradientIs(fs, op, g, shape, dim, y);
    GradAlongLine(shape, dim, y, g, c, Grads(Numel(shape), Groups(shape, dim), y, g));
  }

  /** `LogSoftmaxBackward` in coordinates: gradient minus softmax times the sum of the gradient along the line. */
  lemma LogSoftmaxGradient(fs: Functions, op: Op, g: Fn, shape: Shape, dim: nat, c: seq<nat>, y: Fn)
    requires op.kind.LogSoftmax? && shape == op.kind.shape && dim == op.kind.dim && InShape(c, shape) && dim < |shape|
    requires y == SavedExp(fs, shape, dim, op.kind.reference, Arg(op.args, 0))
    ensures var l := Encode(c, shape);
            Gradient(fs, op, g, 0)(l) == g(l) - y(l) * Sum(shape[dim], Pull(Line(shape, dim, c), g))
  {
    LogSoftmaxGradientIs(fs, op, g, shape, dim, y);
    LogGradAlongLine(shape, dim, y, g, c, LogGrads(Numel(shape), Groups(shape, dim), y, g));
  }
}
