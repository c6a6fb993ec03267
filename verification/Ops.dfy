/**
 The differentiable operations. `Derivative` is the tangent part of the forward formula on dual
 numbers; `Apply` is the backward rule of the node. `OpAdjoint` connects the two for every operation.
 */
module Ops {
  import opened Options
  import opened Floats
  import opened Sums
  import opened IndexMaps
  import opened Vectors
  import opened Strides
  import opened Broadcasting
  import opened Axes
  import opened OpRules
  import opened GroupSoftmax
  import S = Duals
  import U = Unbroadcasting
  import G = GatherScatter

  datatype Kind =
    | Mul(ls: Shape, rs: Shape, o: Shape)
    | Div(ls: Shape, rs: Shape, o: Shape)
    | MatMul(m: nat, k: nat, n: nat)
    | Linear(m: nat, k: nat, n: nat)
    | AddBias(m: nat, n: nat)
    | Bmm(b: nat, m: nat, k: nat, n: nat)
    | Softmax(shape: Shape, dim: nat, reference: Vec)
    | LogSoftmax(shape: Shape, dim: nat, reference: Vec)
    | IndexSelect(shape: Shape, idx: seq<int>)

  /** Exponential and logarithm. */
  datatype Functions = Functions(exp: ExpFn, log: real -> real) {
    ghost predicate Inverse() {
      forall z :: z > 0.0 ==> exp(log(z)) == z
    }
  }

  /** An operation and the values of its inputs, which the node saves. */
  datatype Op = Op(kind: Kind, args: seq<Vec>)

  function InSizes(kind: Kind): seq<nat> {
    match kind
    case Mul(ls, rs, _) => [Numel(ls), Numel(rs)]
    case Div(ls, rs, _) => [Numel(ls), Numel(rs)]
    case MatMul(m, k, n) => [m * k, k * n]
    case Linear(m, k, n) => [m * k, k * n, n]
    case AddBias(m, n) => [m * n, n]
    case Bmm(b, m, k, n) => [b * (m * k), b * (k * n)]
    case Softmax(shape, _, _) => [Numel(shape)]
    case LogSoftmax(shape, _, _) => [Numel(shape)]
    case IndexSelect(shape, _) => [Numel(shape)]
  }

  function OutSize(kind: Kind): nat {
    match kind
    case Mul(_, _, o) => Numel(o)
    case Div(_, _, o) => Numel(o)
    case MatMul(m, _, n) => m * n
    case Linear(m, _, n) => m * n
    case AddBias(m, n) => m * n
    case Bmm(b, m, _, n) => b * (m * n)
    case Softmax(shape, _, _) => Numel(shape)
    case LogSoftmax(shape, _, _) => Numel(shape)
    case IndexSelect(shape, idx) => if shape == [] then 0 else Numel(shape[0 := |idx|])
  }

  function Arg(args: seq<Vec>, i: nat): Fn {
    Buffer(if i < |args| then args[i] else [])
  }

  /** The forward operation accepts its inputs. */
  ghost predicate Defined(op: Op) {
    && |op.args| == |InSizes(op.kind)|
    && match op.kind
       case Mul(ls, rs, o) => Compatible(ls, o) && Compatible(rs, o)
       case Div(ls, rs, o) =>
         && Compatible(ls, o) && Compatible(rs, o)
         && forall l :: 0 <= l < Numel(o) ==> Arg(op.args, 1)(OriginAt(rs, o, l)) != 0.0
       case Softmax(shape, dim, _) => dim < |shape|
       case LogSoftmax(shape, dim, _) => dim < |shape|
       case IndexSelect(shape, idx) => shape != [] && G.AllInRange(idx, shape[0])
       case _ => true
  }

  /** Direction of an input; a detached input does not move. */
  function Direction(ds: seq<Option<Vec>>, i: nat): Fn {
    Buffer(if i < |ds| && ds[i].Some? then ds[i].value else [])
  }

  /** The position that output `l` of a row selection reads. */
  function Selected(shape: Shape, idx: seq<int>): Index
    requires shape != []
  {
    G.Cell(shape, shape[0 := |idx|], 0, G.Spread(idx, shape[0 := |idx|], 0))
  }

  // ---- Forward, on dual numbers ----

  ghost function Forward(fs: Functions, op: Op, ds: seq<Option<Vec>>, l: int): S.Dual
    requires Defined(op) && 0 <= l < OutSize(op.kind)
  {
    var x, y, dx, dy := Arg(op.args, 0), Arg(op.args, 1), Direction(ds, 0), Direction(ds, 1);
    match op.kind
    case Mul(ls, rs, o) => MulDual(Spread(ls, o, x), Spread(ls, o, dx), Spread(rs, o, y), Spread(rs, o, dy), l)
    case Div(ls, rs, o) => DivDual(Spread(ls, o, x), Spread(ls, o, dx), Spread(rs, o, y), Spread(rs, o, dy), l)
    case MatMul(m, k, n) => FlatProductDual(k, n, x, dx, y, dy, l)
    case Linear(m, k, n) =>
      S.DualAdd(FlatProductDual(k, n, x, dx, y, dy, l), DualAt(Arg(op.args, 2), Direction(ds, 2), BiasMap(n)(l)))
    case AddBias(m, n) => S.DualAdd(DualAt(x, dx, l), DualAt(y, dy, BiasMap(n)(l)))
    case Bmm(b, m, k, n) => BatchDual(m, k, n, x, dx, y, dy, l)
    case Softmax(shape, dim, reference) =>
      SoftmaxDualIs(fs.exp, Numel(shape), Groups(shape, dim), x, dx, Buffer(reference), Zero(), l);
      SoftmaxDual(fs.exp, Numel(shape), Groups(shape, dim), x, dx, Buffer(reference), Zero(), l)
    case LogSoftmax(shape, dim, reference) =>
      LogSoftmaxDualIs(fs.exp, fs.log, Numel(shape), Groups(shape, dim), x, dx, Buffer(reference), Zero(), l);
      LogSoftmaxDual(fs.exp, fs.log, Numel(shape), Groups(shape, dim), x, dx, Buffer(reference), Zero(), l)
    case IndexSelect(shape, idx) => DualAt(x, dx, Selected(shape, idx)(l))
  }

  function DualAt(x: Fn, dx: Fn, i: int): S.Dual {
    S.Dual(x(i), dx(i))
  }

  /** An operand of shape `s`, broadcast to shape `o`. */
  function Spread(s: Shape, o: Shape, x: Fn): Fn {
    Pull(Origin(s, o), x)
  }

  function Zero(): Fn {
    _ => 0.0
  }

  /** Entry `l` of a flat matrix product with rows of `n`. */
  function FlatProductDual(k: nat, n: nat, x: Fn, dx: Fn, y: Fn, dy: Fn, l: int): S.Dual {
    if n == 0 || l < 0 then S.Dual(0.0, 0.0)
    else ProductDual(k, Mat(x, k), Mat(dx, k), Mat(y, n), Mat(dy, n), l / n, l % n)
  }

  /** Entry `l` of a batched product: entry `l % (m * n)` of batch element `l / (m * n)`. */
  function BatchDual(m: nat, k: nat, n: nat, x: Fn, dx: Fn, y: Fn, dy: Fn, l: int): S.Dual {
    if m * n == 0 || l < 0 then S.Dual(0.0, 0.0)
    else
      var i := l / (m * n);
      FlatProductDual(k, n, Slice(x, m * k, i), Slice(dx, m * k, i), Slice(y, k * n, i), Slice(dy, k * n, i), l % (m * n))
  }

  ghost function TangentAt(fs: Functions, op: Op, ds: seq<Option<Vec>>, l: int): real
    requires Defined(op)
  {
    if 0 <= l < OutSize(op.kind) then Forward(fs, op, ds, l).t else 0.0
  }

  ghost function TangentOf(fs: Functions, op: Op, ds: seq<Option<Vec>>): Fn
    requires Defined(op)
  {
    l => TangentAt(fs, op, ds, l)
  }

  /** The elements of the output. */
  ghost function ValueAt(fs: Functions, op: Op, ds: seq<Option<Vec>>, l: int): real
    requires Defined(op)
  {
    if 0 <= l < OutSize(op.kind) then Forward(fs, op, ds, l).v else 0.0
  }

  ghost function OutValues(fs: Functions, op: Op, ds: seq<Option<Vec>>): Fn
    requires Defined(op)
  {
    l => ValueAt(fs, op, ds, l)
  }

  /** Forward mode of the node. */
  ghost function Derivative(fs: Functions, op: Op, ds: seq<Option<Vec>>): Option<Vec>
    requires Defined(op)
  {
    Some(Build(OutSize(op.kind), TangentOf(fs, op, ds)))
  }

  // ---- Backward rules ----

  /** `div(grad, rhs)`. */
  function DivGradLeft(y: Fn, g: Fn): Fn {
    l => if y(l) == 0.0 then 0.0 else g(l) / y(l)
  }

  /** `neg(div(mul(lhs, grad), mul(rhs, rhs)))`. */
  function DivGradRight(x: Fn, y: Fn, g: Fn): Fn {
    l => if y(l) * y(l) == 0.0 then 0.0 else 0.0 - (x(l) * g(l)) / (y(l) * y(l))
  }

  /** The saved softmax output, and `exp` of the saved log-softmax output. */
  function SavedSoftmax(fs: Functions, shape: Shape, dim: nat, reference: Vec, x: Fn): Fn {
    Softmaxes(fs.exp, Numel(shape), Groups(shape, dim), x, Buffer(reference))
  }

  function SavedExp(fs: Functions, shape: Shape, dim: nat, reference: Vec, x: Fn): Fn {
    l => fs.exp(LogSoftmaxes(fs.exp, fs.log, Numel(shape), Groups(shape, dim), x, Buffer(reference))(l))
  }

  /** The gradient of input `i`, for output gradient `g`. */
  function Gradient(fs: Functions, op: Op, g: Fn, i: nat): Fn
    requires i < |InSizes(op.kind)|
    requires op.kind.IndexSelect? ==> op.kind.shape != []
  {
    var x, y := Arg(op.args, 0), Arg(op.args, 1);
    match op.kind
    case Mul(ls, rs, o) =>
      if i == 0 then Unbroadcast(ls, o, Times(g, Spread(rs, o, y)))
      else Unbroadcast(rs, o, Times(g, Spread(ls, o, x)))
    case Div(ls, rs, o) =>
      if i == 0 then Unbroadcast(ls, o, DivGradLeft(Spread(rs, o, y), g))
      else Unbroadcast(rs, o, DivGradRight(Spread(ls, o, x), Spread(rs, o, y), g))
    case MatMul(m, k, n) => if i == 0 then LeftGrad(m, k, n, g, y) else RightGrad(m, k, n, g, x)
    case Linear(m, k, n) =>
      if i == 0 then LeftGrad(m, k, n, g, y)
      else if i == 1 then RightGrad(m, k, n, g, x)
      else Push(m * n, BiasMap(n), g)
    case AddBias(m, n) => if i == 0 then g else Push(m * n, BiasMap(n), g)
    case Bmm(b, m, k, n) => if i == 0 then BmmLeft(m, k, n, g, y) else BmmRight(m, k, n, g, x)
    case Softmax(shape, dim, reference) => Grads(Numel(shape), Groups(shape, dim), SavedSoftmax(fs, shape, dim, reference, x), g)
    case LogSoftmax(shape, dim, reference) => LogGrads(Numel(shape), Groups(shape, dim), SavedExp(fs, shape, dim, reference, x), g)
    case IndexSelect(shape, idx) => Push(OutSize(op.kind), Selected(shape, idx), g)
  }

  /** `Node::apply`. */
  function Apply(fs: Functions, op: Op, g: Vec): (r: seq<Option<Vec>>)
    requires op.kind.IndexSelect? ==> op.kind.shape != []
    ensures |r| == |InSizes(op.kind)|
  {
    seq(|InSizes(op.kind)|, i requires 0 <= i < |InSizes(op.kind)| =>
      Some(Build(InSizes(op.kind)[i], Gradient(fs, op, Buffer(g), i))))
  }

  // ---- Every operation's backward rule is its adjoint ----

  function InputPairing(fs: Functions, op: Op, g: Fn, ds: seq<Option<Vec>>, i: nat): real
    requires i < |InSizes(op.kind)|
    requires op.kind.IndexSelect? ==> op.kind.shape != []
  {
    Sum(InSizes(op.kind)[i], Times(Gradient(fs, op, g, i), Direction(ds, i)))
  }

  function InputPairings(fs: Functions, op: Op, g: Fn, ds: seq<Option<Vec>>): real
    requires op.kind.IndexSelect? ==> op.kind.shape != []
  {
    InputPairing(fs, op, g, ds, 0)
      + (if |InSizes(op.kind)| > 1 then InputPairing(fs, op, g, ds, 1) else 0.0)
      + (if |InSizes(op.kind)| > 2 then InputPairing(fs, op, g, ds, 2) else 0.0)
  }

  lemma MulTangentAt(fs: Functions, op: Op, ds: seq<Option<Vec>>, l: nat)
    requires Defined(op) && op.kind.Mul? && l < OutSize(op.kind)
    ensures var Mul(ls, rs, o) := op.kind;
            TangentOf(fs, op, ds)(l) == MulTangents(Spread(ls, o, Arg(op.args, 0)), Spread(ls, o, Direction(ds, 0)),
                                                    Spread(rs, o, Arg(op.args, 1)), Spread(rs, o, Direction(ds, 1)))(l)
  {
    MulForward(fs, op, ds, l);
    TangentIsForward(fs, op, ds, l, Forward(fs, op, ds, l).t);
  }

  lemma MulTangent(fs: Functions, op: Op, ds: seq<Option<Vec>>)
    requires Defined(op) && op.kind.Mul?
    ensures var Mul(ls, rs, o) := op.kind;
            Agree(Numel(o), TangentOf(fs, op, ds),
                  MulTangents(Spread(ls, o, Arg(op.args, 0)), Spread(ls, o, Direction(ds, 0)),
                              Spread(rs, o, Arg(op.args, 1)), Spread(rs, o, Direction(ds, 1))))
  {
    var Mul(ls, rs, o) := op.kind;
    var s, t := TangentOf(fs, op, ds), MulTangents(Spread(ls, o, Arg(op.args, 0)), Spread(ls, o, Direction(ds, 0)),
                                                   Spread(rs, o, Arg(op.args, 1)), Spread(rs, o, Direction(ds, 1)));
    forall l | 0 <= l < Numel(o) ensures s(l) == t(l) {
      MulTangentAt(fs, op, ds, l);
    }
  }

  lemma MulForward(fs: Functions, op: Op, ds: seq<Option<Vec>>, l: nat)
    requires Defined(op) && op.kind.Mul? && l < OutSize(op.kind)
    ensures var Mul(ls, rs, o) := op.kind;
            Forward(fs, op, ds, l) == MulDual(Spread(ls, o, Arg(op.args, 0)), Spread(ls, o, Direction(ds, 0)),
                                              Spread(rs, o, Arg(op.args, 1)), Spread(rs, o, Direction(ds, 1)), l)
  {
  }

  lemma MulPairings(fs: Functions, op: Op, g: Fn, ds: seq<Option<Vec>>)
    requires Defined(op) && op.kind.Mul?
    ensures var Mul(ls, rs, o) := op.kind;
            InputPairings(fs, op, g, ds) ==
              Sum(Numel(ls), Times(Unbroadcast(ls, o, Times(g, Spread(rs, o, Arg(op.args, 1)))), Direction(ds, 0))) +
              Sum(Numel(rs), Times(Unbroadcast(rs, o, Times(g, Spread(ls, o, Arg(op.args, 0)))), Direction(ds, 1)))
  {
  }

  lemma MulAdjoint(fs: Functions, op: Op, g: Fn, ds: seq<Option<Vec>>)
    requires Defined(op) && op.kind.Mul?
    ensures Sum(OutSize(op.kind), Times(g, TangentOf(fs, op, ds))) == InputPairings(fs, op, g, ds)
  {
    var Mul(ls, rs, o) := op.kind;
    MulTangent(fs, op, ds);
    MulRule(ls, rs, o, g, Arg(op.args, 0), Direction(ds, 0), Arg(op.args, 1), Direction(ds, 1), TangentOf(fs, op, ds));
    MulPairings(fs, op, g, ds);
  }

  lemma MulRule(ls: Shape, rs: Shape, o: Shape, g: Fn, x: Fn, dx: Fn, y: Fn, dy: Fn, tangent: Fn)
    requires Compatible(ls, o) && Compatible(rs, o)
    requires Agree(Numel(o), tangent, MulTangents(Spread(ls, o, x), Spread(ls, o, dx), Spread(rs, o, y), Spread(rs, o, dy)))
    ensures Sum(Numel(o), Times(g, tangent))
         == Sum(Numel(ls), Times(Unbroadcast(ls, o, Times(g, Spread(rs, o, y))), dx))
          + Sum(Numel(rs), Times(Unbroadcast(rs, o, Times(g, Spread(ls, o, x))), dy))
  {
    var t := MulTangents(Spread(ls, o, x), Spread(ls, o, dx), Spread(rs, o, y), Spread(rs, o, dy));
    OriginInto(ls, o);
    OriginInto(rs, o);
    MulFactors(Numel(o), Spread(ls, o, x), Spread(ls, o, dx), Spread(rs, o, y), Spread(rs, o, dy));
    ElementwiseAdjoint(Numel(o), Numel(ls), Numel(rs), Origin(ls, o), Origin(rs, o), Spread(rs, o, y), Spread(ls, o, x), g, dx, dy, t);
    SameTangent(Numel(o), g, tangent, t);
  }

  ghost predicate Agree(n: nat, s: Fn, t: Fn) {
    forall l :: 0 <= l < n ==> s(l) == t(l)
  }

  lemma SameTangent(n: nat, g: Fn, s: Fn, t: Fn)
    requires Agree(n, s, t)
    ensures Sum(n, Times(g, s)) == Sum(n, Times(g, t))
  {
    SumCongruence(n, Times(g, s), Times(g, t));
  }

  lemma DivRulesAt(x: Fn, y: Fn, g: Fn, l: int)
    requires y(l) != 0.0
    ensures DivGradLeft(y, g)(l) == Times(g, DivLefts(y))(l)
    ensures DivGradRight(x, y, g)(l) == Times(g, DivRights(x, y))(l)
  {
    SquareNonZero(y(l));
    DivideProduct(g(l), 1.0, y(l));
    DivideProduct(g(l), x(l), y(l) * y(l));
  }

  /** The kernel's gradients are the upstream gradient times the factors of the quotient rule. */
  lemma DivRules(n: nat, x: Fn, y: Fn, g: Fn)
    requires NonZero(n, y)
    ensures Agree(n, DivGradLeft(y, g), Times(g, DivLefts(y)))
    ensures Agree(n, DivGradRight(x, y, g), Times(g, DivRights(x, y)))
  {
    forall l | 0 <= l < n
      ensures DivGradLeft(y, g)(l) == Times(g, DivLefts(y))(l)
      ensures DivGradRight(x, y, g)(l) == Times(g, DivRights(x, y))(l)
    {
      DivRulesAt(x, y, g, l);
    }
  }

  lemma DivideProduct(g: real, x: real, w: real)
    requires w != 0.0
    ensures (x * g) / w == g * (x / w)
    ensures 0.0 - (x * g) / w == g * (0.0 - x / w)
  {
    var u := x / w;
    assert x == u * w;
    assert x * g == (g * u) * w;
    S.CancelDivision(g * u, x * g, w);
  }

  lemma DivRule(ls: Shape, rs: Shape, o: Shape, g: Fn, x: Fn, dx: Fn, y: Fn, dy: Fn, tangent: Fn)
    requires Compatible(ls, o) && Compatible(rs, o)
    requires IsDivTangent(Numel(o), Spread(ls, o, x), Spread(ls, o, dx), Spread(rs, o, y), Spread(rs, o, dy), tangent)
    ensures Sum(Numel(o), Times(g, tangent))
         == Sum(Numel(ls), Times(Unbroadcast(ls, o, DivGradLeft(Spread(rs, o, y), g)), dx))
          + Sum(Numel(rs), Times(Unbroadcast(rs, o, DivGradRight(Spread(ls, o, x), Spread(rs, o, y), g)), dy))
  {
    OriginInto(ls, o);
    OriginInto(rs, o);
    DivFactors(Numel(o), Spread(ls, o, x), Spread(ls, o, dx), Spread(rs, o, y), Spread(rs, o, dy), tangent);
    ElementwiseAdjoint(Numel(o), Numel(ls), Numel(rs), Origin(ls, o), Origin(rs, o),
                       DivLefts(Spread(rs, o, y)), DivRights(Spread(ls, o, x), Spread(rs, o, y)), g, dx, dy, tangent);
    DivisorsNonZero(Numel(o), Spread(ls, o, x), Spread(ls, o, dx), Spread(rs, o, y), Spread(rs, o, dy), tangent);
    DivGradients(ls, rs, o, g, x, y, dx, dy);
  }

  ghost predicate NonZero(n: nat, y: Fn) {
    forall l :: 0 <= l < n ==> y(l) != 0.0
  }

  lemma DivisorsNonZero(n: nat, x: Fn, dx: Fn, y: Fn, dy: Fn, tangent: Fn)
    requires IsDivTangent(n, x, dx, y, dy, tangent)
    ensures NonZero(n, y)
  {
    forall l | 0 <= l < n ensures y(l) != 0.0 {
      assert IsDivTangentAt(x, dx, y, dy, tangent, l);
    }
  }

  lemma DivGradients(ls: Shape, rs: Shape, o: Shape, g: Fn, x: Fn, y: Fn, dx: Fn, dy: Fn)
    requires NonZero(Numel(o), Spread(rs, o, y))
    ensures Sum(Numel(ls), Times(Unbroadcast(ls, o, DivGradLeft(Spread(rs, o, y), g)), dx))
         == Sum(Numel(ls), Times(Push(Numel(o), Origin(ls, o), Times(g, DivLefts(Spread(rs, o, y)))), dx))
    ensures Sum(Numel(rs), Times(Unbroadcast(rs, o, DivGradRight(Spread(ls, o, x), Spread(rs, o, y), g)), dy))
         == Sum(Numel(rs), Times(Push(Numel(o), Origin(rs, o), Times(g, DivRights(Spread(ls, o, x), Spread(rs, o, y)))), dy))
  {
    DivRules(Numel(o), Spread(ls, o, x), Spread(rs, o, y), g);
    SamePush(Numel(o), Numel(ls), Origin(ls, o), DivGradLeft(Spread(rs, o, y), g), Times(g, DivLefts(Spread(rs, o, y))), dx);
    SamePush(Numel(o), Numel(rs), Origin(rs, o), DivGradRight(Spread(ls, o, x), Spread(rs, o, y), g),
             Times(g, DivRights(Spread(ls, o, x), Spread(rs, o, y))), dy);
  }

  lemma DivTangent(fs: Functions, op: Op, ds: seq<Option<Vec>>)
    requires Defined(op) && op.kind.Div?
    ensures var Div(ls, rs, o) := op.kind;
            IsDivTangent(Numel(o), Spread(ls, o, Arg(op.args, 0)), Spread(ls, o, Direction(ds, 0)),
                         Spread(rs, o, Arg(op.args, 1)), Spread(rs, o, Direction(ds, 1)), TangentOf(fs, op, ds))
  {
    var Div(ls, rs, o) := op.kind;
    forall l | 0 <= l < Numel(o)
      ensures IsDivTangentAt(Spread(ls, o, Arg(op.args, 0)), Spread(ls, o, Direction(ds, 0)),
                             Spread(rs, o, Arg(op.args, 1)), Spread(rs, o, Direction(ds, 1)), TangentOf(fs, op, ds), l)
    {
      DivTangentAt(fs, op, ds, l);
    }
  }

  lemma DivisorNonZero(op: Op, l: nat)
    requires Defined(op) && op.kind.Div? && l < OutSize(op.kind)
    ensures Spread(op.kind.rs, op.kind.o, Arg(op.args, 1))(l) != 0.0
  {
    assert Arg(op.args, 1)(OriginAt(op.kind.rs, op.kind.o, l)) != 0.0;
  }

  lemma DivForward(fs: Functions, op: Op, ds: seq<Option<Vec>>, l: nat)
    requires Defined(op) && op.kind.Div? && l < OutSize(op.kind)
    ensures var Div(ls, rs, o) := op.kind;
            && Spread(rs, o, Arg(op.args, 1))(l) != 0.0
            && Forward(fs, op, ds, l) == DivDual(Spread(ls, o, Arg(op.args, 0)), Spread(ls, o, Direction(ds, 0)),
                                                 Spread(rs, o, Arg(op.args, 1)), Spread(rs, o, Direction(ds, 1)), l)
  {
    DivisorNonZero(op, l);
  }

  lemma DivTangentAt(fs: Functions, op: Op, ds: seq<Option<Vec>>, l: nat)
    requires Defined(op) && op.kind.Div? && l < OutSize(op.kind)
    ensures var Div(ls, rs, o) := op.kind;
            IsDivTangentAt(Spread(ls, o, Arg(op.args, 0)), Spread(ls, o, Direction(ds, 0)),
                           Spread(rs, o, Arg(op.args, 1)), Spread(rs, o, Direction(ds, 1)), TangentOf(fs, op, ds), l)
  {
    var Div(ls, rs, o) := op.kind;
    DivForward(fs, op, ds, l);
    TangentIsForward(fs, op, ds, l, Forward(fs, op, ds, l).t);
    MakeDivTangent(Spread(ls, o, Arg(op.args, 0)), Spread(ls, o, Direction(ds, 0)),
                   Spread(rs, o, Arg(op.args, 1)), Spread(rs, o, Direction(ds, 1)), TangentOf(fs, op, ds), l, Forward(fs, op, ds, l));
  }

  lemma MakeDivTangent(x: Fn, dx: Fn, y: Fn, dy: Fn, tangent: Fn, l: int, out: S.Dual)
    requires y(l) != 0.0 && out == DivDual(x, dx, y, dy, l) && tangent(l) == out.t
    ensures IsDivTangentAt(x, dx, y, dy, tangent, l)
  {
  }

  lemma TangentIsForward(fs: Functions, op: Op, ds: seq<Option<Vec>>, l: nat, t: real)
    requires Defined(op) && l < OutSize(op.kind) && t == Forward(fs, op, ds, l).t
    ensures TangentOf(fs, op, ds)(l) == t
  {
    assert TangentAt(fs, op, ds, l) == t;
  }

  lemma DivPairings(fs: Functions, op: Op, g: Fn, ds: seq<Option<Vec>>)
    requires Defined(op) && op.kind.Div?
    ensures var Div(ls, rs, o) := op.kind;
            var x, y := Spread(ls, o, Arg(op.args, 0)), Spread(rs, o, Arg(op.args, 1));
            InputPairings(fs, op, g, ds) ==
              Sum(Numel(ls), Times(Unbroadcast(ls, o, DivGradLeft(y, g)), Direction(ds, 0))) +
              Sum(Numel(rs), Times(Unbroadcast(rs, o, DivGradRight(x, y, g)), Direction(ds, 1)))
  {
  }

  lemma DivAdjoint(fs: Functions, op: Op, g: Fn, ds: seq<Option<Vec>>)
    requires Defined(op) && op.kind.Div?
    ensures Sum(OutSize(op.kind), Times(g, TangentOf(fs, op, ds))) == InputPairings(fs, op, g, ds)
  {
    var Div(ls, rs, o) := op.kind;
    DivTangent(fs, op, ds);
    DivRule(ls, rs, o, g, Arg(op.args, 0), Direction(ds, 0), Arg(op.args, 1), Direction(ds, 1), TangentOf(fs, op, ds));
    DivPairings(fs, op, g, ds);
  }

  lemma SamePush(n: nat, m: nat, p: Index, g: Fn, h: Fn, d: Fn)
    requires Agree(n, g, h)
    ensures Sum(m, Times(Push(n, p, g), d)) == Sum(m, Times(Push(n, p, h), d))
  {
    forall k: int ensures Push(n, p, g)(k) == Push(n, p, h)(k) {
      PushCongruence(n, p, p, g, h, k);
    }
    SamePairing(m, Push(n, p, g), Push(n, p, h), d);
  }

  lemma FlatProductTangent(k: nat, n: nat, x: Fn, dx: Fn, y: Fn, dy: Fn, l: int)
    ensures FlatProductDual(k, n, x, dx, y, dy, l).t == FlatTangent(k, n, x, dx, y, dy)(l)
  {
    if n > 0 && l >= 0 {
      ProductDualIs(k, Mat(x, k), Mat(dx, k), Mat(y, n), Mat(dy, n), l / n, l % n);
    }
  }

  lemma MatMulTangent(fs: Functions, op: Op, ds: seq<Option<Vec>>)
    requires Defined(op) && op.kind.MatMul?
    ensures var MatMul(m, k, n) := op.kind;
            Agree(m * n, TangentOf(fs, op, ds), FlatTangent(k, n, Arg(op.args, 0), Direction(ds, 0), Arg(op.args, 1), Direction(ds, 1)))
  {
    var MatMul(m, k, n) := op.kind;
    forall l | 0 <= l < m * n
      ensures TangentOf(fs, op, ds)(l) == FlatTangent(k, n, Arg(op.args, 0), Direction(ds, 0), Arg(op.args, 1), Direction(ds, 1))(l)
    {
      FlatProductTangent(k, n, Arg(op.args, 0), Direction(ds, 0), Arg(op.args, 1), Direction(ds, 1), l);
    }
  }

  lemma MatMulPairings(fs: Functions, op: Op, g: Fn, ds: seq<Option<Vec>>)
    requires Defined(op) && op.kind.MatMul?
    ensures var MatMul(m, k, n) := op.kind;
            InputPairings(fs, op, g, ds) ==
              Sum(m * k, Times(LeftGrad(m, k, n, g, Arg(op.args, 1)), Direction(ds, 0))) +
              Sum(k * n, Times(RightGrad(m, k, n, g, Arg(op.args, 0)), Direction(ds, 1)))
  {
  }

  lemma MatMulAdjoint(fs: Functions, op: Op, g: Fn, ds: seq<Option<Vec>>)
    requires Defined(op) && op.kind.MatMul?
    ensures Sum(OutSize(op.kind), Times(g, TangentOf(fs, op, ds))) == InputPairings(fs, op, g, ds)
  {
    var MatMul(m, k, n) := op.kind;
    var x, y, dx, dy := Arg(op.args, 0), Arg(op.args, 1), Direction(ds, 0), Direction(ds, 1);
    MatMulTangent(fs, op, ds);
    SameTangent(m * n, g, TangentOf(fs, op, ds), FlatTangent(k, n, x, dx, y, dy));
    FlatProductAdjoint(m, k, n, g, x, dx, y, dy);
    MatMulPairings(fs, op, g, ds);
  }

  lemma TimesAdd(n: nat, g: Fn, a: Fn, b: Fn, t: Fn)
    requires forall l :: 0 <= l < n ==> t(l) == a(l) + b(l)
    ensures Sum(n, Times(g, t)) == Sum(n, Times(g, a)) + Sum(n, Times(g, b))
  {
    forall l | 0 <= l < n ensures Times(g, t)(l) == Times(g, a)(l) + Times(g, b)(l) {
      Distribute(g(l), a(l), b(l));
    }
    SumAdd(n, Times(g, a), Times(g, b), Times(g, t));
  }

  lemma Distribute(g: real, a: real, b: real)
    ensures g * (a + b) == g * a + g * b
  {
  }

  lemma LinearTangent(fs: Functions, op: Op, ds: seq<Option<Vec>>, l: nat)
    requires Defined(op) && op.kind.Linear? && l < OutSize(op.kind)
    ensures var Linear(m, k, n) := op.kind;
            TangentOf(fs, op, ds)(l) == FlatTangent(k, n, Arg(op.args, 0), Direction(ds, 0), Arg(op.args, 1), Direction(ds, 1))(l)
                                      + Pull(BiasMap(n), Direction(ds, 2))(l)
  {
    FlatProductTangent(op.kind.k, op.kind.n, Arg(op.args, 0), Direction(ds, 0), Arg(op.args, 1), Direction(ds, 1), l);
  }

  lemma LinearPairings(fs: Functions, op: Op, g: Fn, ds: seq<Option<Vec>>)
    requires Defined(op) && op.kind.Linear?
    ensures var Linear(m, k, n) := op.kind;
            InputPairings(fs, op, g, ds) ==
              Sum(m * k, Times(LeftGrad(m, k, n, g, Arg(op.args, 1)), Direction(ds, 0))) +
              Sum(k * n, Times(RightGrad(m, k, n, g, Arg(op.args, 0)), Direction(ds, 1))) +
              Sum(n, Times(Push(m * n, BiasMap(n), g), Direction(ds, 2)))
  {
  }

  lemma LinearTangents(fs: Functions, op: Op, ds: seq<Option<Vec>>, t: Fn, b: Fn)
    requires Defined(op) && op.kind.Linear?
    requires t == FlatTangent(op.kind.k, op.kind.n, Arg(op.args, 0), Direction(ds, 0), Arg(op.args, 1), Direction(ds, 1))
    requires b == Pull(BiasMap(op.kind.n), Direction(ds, 2))
    ensures forall l :: 0 <= l < OutSize(op.kind) ==> TangentOf(fs, op, ds)(l) == t(l) + b(l)
  {
    forall l | 0 <= l < OutSize(op.kind) ensures TangentOf(fs, op, ds)(l) == t(l) + b(l) {
      LinearTangent(fs, op, ds, l);
    }
  }

  lemma LinearRule(m: nat, k: nat, n: nat, g: Fn, x: Fn, dx: Fn, y: Fn, dy: Fn, db: Fn, tangent: Fn)
    requires forall l :: 0 <= l < m * n ==> tangent(l) == FlatTangent(k, n, x, dx, y, dy)(l) + Pull(BiasMap(n), db)(l)
    ensures Sum(m * n, Times(g, tangent))
         == Sum(m * k, Times(LeftGrad(m, k, n, g, y), dx)) + Sum(k * n, Times(RightGrad(m, k, n, g, x), dy))
          + Sum(n, Times(Push(m * n, BiasMap(n), g), db))
  {
    TimesAdd(m * n, g, FlatTangent(k, n, x, dx, y, dy), Pull(BiasMap(n), db), tangent);
    FlatProductAdjoint(m, k, n, g, x, dx, y, dy);
    BiasAdjoint(m, n, g, db);
  }

  lemma LinearAdjoint(fs: Functions, op: Op, g: Fn, ds: seq<Option<Vec>>)
    requires Defined(op) && op.kind.Linear?
    ensures Sum(OutSize(op.kind), Times(g, TangentOf(fs, op, ds))) == InputPairings(fs, op, g, ds)
  {
    var Linear(m, k, n) := op.kind;
    var x, y, dx, dy := Arg(op.args, 0), Arg(op.args, 1), Direction(ds, 0), Direction(ds, 1);
    LinearTangents(fs, op, ds, FlatTangent(k, n, x, dx, y, dy), Pull(BiasMap(n), Direction(ds, 2)));
    LinearRule(m, k, n, g, x, dx, y, dy, Direction(ds, 2), TangentOf(fs, op, ds));
    LinearPairings(fs, op, g, ds);
  }

  lemma AddBiasPairings(fs: Functions, op: Op, g: Fn, ds: seq<Option<Vec>>)
    requires Defined(op) && op.kind.AddBias?
    ensures var AddBias(m, n) := op.kind;
            InputPairings(fs, op, g, ds) ==
              Sum(m * n, Times(g, Direction(ds, 0))) + Sum(n, Times(Push(m * n, BiasMap(n), g), Direction(ds, 1)))
  {
  }

  lemma AddBiasTangent(fs: Functions, op: Op, ds: seq<Option<Vec>>)
    requires Defined(op) && op.kind.AddBias?
    ensures var AddBias(m, n) := op.kind;
            forall l :: 0 <= l < m * n ==> TangentOf(fs, op, ds)(l) == Direction(ds, 0)(l) + Pull(BiasMap(n), Direction(ds, 1))(l)
  {
  }

  lemma AddBiasAdjoint(fs: Functions, op: Op, g: Fn, ds: seq<Option<Vec>>)
    requires Defined(op) && op.kind.AddBias?
    ensures Sum(OutSize(op.kind), Times(g, TangentOf(fs, op, ds))) == InputPairings(fs, op, g, ds)
  {
    var AddBias(m, n) := op.kind;
    AddBiasTangent(fs, op, ds);
    TimesAdd(m * n, g, Direction(ds, 0), Pull(BiasMap(n), Direction(ds, 1)), TangentOf(fs, op, ds));
    BiasAdjoint(m, n, g, Direction(ds, 1));
    AddBiasPairings(fs, op, g, ds);
  }

  lemma BatchTangent(b: nat, m: nat, k: nat, n: nat, x: Fn, dx: Fn, y: Fn, dy: Fn, l: nat)
    ensures BatchDual(m, k, n, x, dx, y, dy, l).t == BmmTangent(m, k, n, x, dx, y, dy)(l)
  {
    if m * n > 0 {
      var i := l / (m * n);
      FlatProductTangent(k, n, Slice(x, m * k, i), Slice(dx, m * k, i), Slice(y, k * n, i), Slice(dy, k * n, i), l % (m * n));
    }
  }

  lemma BatchPairings(fs: Functions, op: Op, g: Fn, ds: seq<Option<Vec>>)
    requires Defined(op) && op.kind.Bmm?
    ensures var Bmm(b, m, k, n) := op.kind;
            InputPairings(fs, op, g, ds) ==
              Sum(b * (m * k), Times(BmmLeft(m, k, n, g, Arg(op.args, 1)), Direction(ds, 0))) +
              Sum(b * (k * n), Times(BmmRight(m, k, n, g, Arg(op.args, 0)), Direction(ds, 1)))
  {
  }

  lemma BatchForward(fs: Functions, op: Op, ds: seq<Option<Vec>>, l: nat)
    requires Defined(op) && op.kind.Bmm? && l < OutSize(op.kind)
    ensures var Bmm(b, m, k, n) := op.kind;
            TangentOf(fs, op, ds)(l) == BatchDual(m, k, n, Arg(op.args, 0), Direction(ds, 0), Arg(op.args, 1), Direction(ds, 1), l).t
  {
  }

  lemma BatchTangents(fs: Functions, op: Op, ds: seq<Option<Vec>>)
    requires Defined(op) && op.kind.Bmm?
    ensures var Bmm(b, m, k, n) := op.kind;
            Agree(b * (m * n), TangentOf(fs, op, ds),
                  BmmTangent(m, k, n, Arg(op.args, 0), Direction(ds, 0), Arg(op.args, 1), Direction(ds, 1)))
  {
    var Bmm(b, m, k, n) := op.kind;
    var t := BmmTangent(m, k, n, Arg(op.args, 0), Direction(ds, 0), Arg(op.args, 1), Direction(ds, 1));
    forall l | 0 <= l < b * (m * n) ensures TangentOf(fs, op, ds)(l) == t(l) {
      BatchForward(fs, op, ds, l);
      BatchTangent(b, m, k, n, Arg(op.args, 0), Direction(ds, 0), Arg(op.args, 1), Direction(ds, 1), l);
    }
  }

  lemma BatchAdjoint(fs: Functions, op: Op, g: Fn, ds: seq<Option<Vec>>)
    requires Defined(op) && op.kind.Bmm?
    ensures Sum(OutSize(op.kind), Times(g, TangentOf(fs, op, ds))) == InputPairings(fs, op, g, ds)
  {
    var Bmm(b, m, k, n) := op.kind;
    var x, y, dx, dy := Arg(op.args, 0), Arg(op.args, 1), Direction(ds, 0), Direction(ds, 1);
    BatchTangents(fs, op, ds);
    SameTangent(b * (m * n), g, TangentOf(fs, op, ds), BmmTangent(m, k, n, x, dx, y, dy));
    BmmAdjoint(b, m, k, n, g, x, dx, y, dy);
    BatchPairings(fs, op, g, ds);
  }

  lemma SoftmaxForward(fs: Functions, op: Op, ds: seq<Option<Vec>>, l: nat)
    requires Defined(op) && op.kind.Softmax? && l < OutSize(op.kind)
    ensures var Softmax(shape, dim, reference) := op.kind;
            var y := SavedSoftmax(fs, shape, dim, reference, Arg(op.args, 0));
            Forward(fs, op, ds, l) == S.Dual(y(l), Tangents(Numel(shape), Groups(shape, dim), y, Direction(ds, 0))(l))
  {
    var Softmax(shape, dim, reference) := op.kind;
    SoftmaxDualIs(fs.exp, Numel(shape), Groups(shape, dim), Arg(op.args, 0), Direction(ds, 0), Buffer(reference), Zero(), l);
  }

  lemma SoftmaxTangent(fs: Functions, op: Op, ds: seq<Option<Vec>>)
    requires Defined(op) && op.kind.Softmax?
    ensures var Softmax(shape, dim, reference) := op.kind;
            Agree(Numel(shape), TangentOf(fs, op, ds),
                  Tangents(Numel(shape), Groups(shape, dim), SavedSoftmax(fs, shape, dim, reference, Arg(op.args, 0)), Direction(ds, 0)))
  {
    var Softmax(shape, dim, reference) := op.kind;
    var y := SavedSoftmax(fs, shape, dim, reference, Arg(op.args, 0));
    forall l | 0 <= l < Numel(shape)
      ensures TangentOf(fs, op, ds)(l) == Tangents(Numel(shape), Groups(shape, dim), y, Direction(ds, 0))(l)
    {
      SoftmaxForward(fs, op, ds, l);
    }
  }

  lemma SoftmaxPairings(fs: Functions, op: Op, g: Fn, ds: seq<Option<Vec>>)
    requires Defined(op) && op.kind.Softmax?
    ensures var Softmax(shape, dim, reference) := op.kind;
            InputPairings(fs, op, g, ds)
            == Sum(Numel(shape), Times(Grads(Numel(shape), Groups(shape, dim), SavedSoftmax(fs, shape, dim, reference, Arg(op.args, 0)), g), Direction(ds, 0)))
  {
  }

  lemma SoftmaxAdjoint(fs: Functions, op: Op, g: Fn, ds: seq<Option<Vec>>)
    requires Defined(op) && op.kind.Softmax?
    ensures Sum(OutSize(op.kind), Times(g, TangentOf(fs, op, ds))) == InputPairings(fs, op, g, ds)
  {
    var Softmax(shape, dim, reference) := op.kind;
    var n, p := Numel(shape), Groups(shape, dim);
    var dx := Direction(ds, 0);
    var y := SavedSoftmax(fs, shape, dim, reference, Arg(op.args, 0));
    SoftmaxTangent(fs, op, ds);
    SameTangent(n, g, TangentOf(fs, op, ds), Tangents(n, p, y, dx));
    U.KeepInto(shape, {dim});
    SoftmaxGradIsAdjoint(n, Numel(U.KeepShape(shape, {dim})), p, y, g, dx);
    SoftmaxPairings(fs, op, g, ds);
  }

  /** The rule only looks at the saved output inside the tensor. */
  lemma SameLogGrads(n: nat, p: Index, y: Fn, s: Fn, g: Fn)
    requires Agree(n, y, s)
    ensures Agree(n, LogGrads(n, p, y, g), LogGrads(n, p, s, g))
  {
    forall l | 0 <= l < n ensures LogGrads(n, p, y, g)(l) == LogGrads(n, p, s, g)(l) {
      assert y(l) == s(l);
    }
  }

  lemma LogSoftmaxForward(fs: Functions, op: Op, ds: seq<Option<Vec>>, l: nat)
    requires Defined(op) && op.kind.LogSoftmax? && l < OutSize(op.kind)
    ensures var LogSoftmax(shape, dim, reference) := op.kind;
            var n, p, x := Numel(shape), Groups(shape, dim), Arg(op.args, 0);
            Forward(fs, op, ds, l) == S.Dual(LogSoftmaxes(fs.exp, fs.log, n, p, x, Buffer(reference))(l),
                                             LogTangents(n, p, SavedSoftmax(fs, shape, dim, reference, x), Direction(ds, 0))(l))
  {
    var LogSoftmax(shape, dim, reference) := op.kind;
    LogSoftmaxDualIs(fs.exp, fs.log, Numel(shape), Groups(shape, dim), Arg(op.args, 0), Direction(ds, 0), Buffer(reference), Zero(), l);
  }

  lemma LogSoftmaxTangent(fs: Functions, op: Op, ds: seq<Option<Vec>>)
    requires Defined(op) && op.kind.LogSoftmax?
    ensures var LogSoftmax(shape, dim, reference) := op.kind;
            Agree(Numel(shape), TangentOf(fs, op, ds),
                  LogTangents(Numel(shape), Groups(shape, dim), SavedSoftmax(fs, shape, dim, reference, Arg(op.args, 0)), Direction(ds, 0)))
  {
    var LogSoftmax(shape, dim, reference) := op.kind;
    var y := SavedSoftmax(fs, shape, dim, reference, Arg(op.args, 0));
    forall l | 0 <= l < Numel(shape)
      ensures TangentOf(fs, op, ds)(l) == LogTangents(Numel(shape), Groups(shape, dim), y, Direction(ds, 0))(l)
    {
      LogSoftmaxForward(fs, op, ds, l);
    }
  }

  lemma SavedExpAt(fs: Functions, shape: Shape, dim: nat, reference: Vec, x: Fn, l: nat)
    requires fs.Inverse() && l < Numel(shape)
    ensures SavedSoftmax(fs, shape, dim, reference, x)(l) == SavedExp(fs, shape, dim, reference, x)(l)
  {
    ExpOfLogSoftmax(fs.exp, fs.log, Numel(shape), Groups(shape, dim), x, Buffer(reference), l);
  }

  lemma SavedExpIsSoftmax(fs: Functions, shape: Shape, dim: nat, reference: Vec, x: Fn)
    requires fs.Inverse()
    ensures Agree(Numel(shape), SavedSoftmax(fs, shape, dim, reference, x), SavedExp(fs, shape, dim, reference, x))
  {
    var y, z := SavedSoftmax(fs, shape, dim, reference, x), SavedExp(fs, shape, dim, reference, x);
    forall l | 0 <= l < Numel(shape) ensures y(l) == z(l) {
      SavedExpAt(fs, shape, dim, reference, x, l);
    }
  }

  lemma LogSoftmaxRule(n: nat, c: nat, p: Index, y: Fn, s: Fn, g: Fn, dx: Fn, tangent: Fn)
    requires Into(p, n, c) && Agree(n, y, s) && Agree(n, tangent, LogTangents(n, p, y, dx))
    ensures Sum(n, Times(g, tangent)) == Sum(n, Times(LogGrads(n, p, s, g), dx))
  {
    SameTangent(n, g, tangent, LogTangents(n, p, y, dx));
    LogGradIsAdjoint(n, c, p, y, g, dx);
    SameLogGrads(n, p, y, s, g);
    SamePairing(n, LogGrads(n, p, y, g), LogGrads(n, p, s, g), dx);
  }

  lemma LogSoftmaxPairings(fs: Functions, op: Op, g: Fn, ds: seq<Option<Vec>>)
    requires Defined(op) && op.kind.LogSoftmax?
    ensures var LogSoftmax(shape, dim, reference) := op.kind;
            InputPairings(fs, op, g, ds)
            == Sum(Numel(shape), Times(LogGrads(Numel(shape), Groups(shape, dim), SavedExp(fs, shape, dim, reference, Arg(op.args, 0)), g), Direction(ds, 0)))
  {
  }

  lemma LogSoftmaxAdjoint(fs: Functions, op: Op, g: Fn, ds: seq<Option<Vec>>)
    requires Defined(op) && op.kind.LogSoftmax? && fs.Inverse()
    ensures Sum(OutSize(op.kind), Times(g, TangentOf(fs, op, ds))) == InputPairings(fs, op, g, ds)
  {
    var LogSoftmax(shape, dim, reference) := op.kind;
    var x := Arg(op.args, 0);
    LogSoftmaxTangent(fs, op, ds);
    SavedExpIsSoftmax(fs, shape, dim, reference, x);
    U.KeepInto(shape, {dim});
    LogSoftmaxRule(Numel(shape), Numel(U.KeepShape(shape, {dim})), Groups(shape, dim), SavedSoftmax(fs, shape, dim, reference, x),
                   SavedExp(fs, shape, dim, reference, x), g, Direction(ds, 0), TangentOf(fs, op, ds));
    LogSoftmaxPairings(fs, op, g, ds);
  }

  lemma SelectTangent(fs: Functions, op: Op, ds: seq<Option<Vec>>)
    requires Defined(op) && op.kind.IndexSelect?
    ensures Agree(OutSize(op.kind), TangentOf(fs, op, ds), Pull(Selected(op.kind.shape, op.kind.idx), Direction(ds, 0)))
  {
  }

  lemma SelectPairings(fs: Functions, op: Op, g: Fn, ds: seq<Option<Vec>>)
    requires Defined(op) && op.kind.IndexSelect?
    ensures InputPairings(fs, op, g, ds)
         == Sum(Numel(op.kind.shape), Times(Push(OutSize(op.kind), Selected(op.kind.shape, op.kind.idx), g), Direction(ds, 0)))
  {
  }

  lemma SelectedInto(shape: Shape, idx: seq<int>)
    requires shape != [] && G.AllInRange(idx, shape[0])
    ensures Into(Selected(shape, idx), Numel(shape[0 := |idx|]), Numel(shape))
  {
    var out := shape[0 := |idx|];
    G.SpreadInRange(shape, idx);
    G.CellsInto(shape, out, 0, G.Spread(idx, out, 0));
  }

  lemma IndexSelectAdjoint(fs: Functions, op: Op, g: Fn, ds: seq<Option<Vec>>)
    requires Defined(op) && op.kind.IndexSelect?
    ensures Sum(OutSize(op.kind), Times(g, TangentOf(fs, op, ds))) == InputPairings(fs, op, g, ds)
  {
    var IndexSelect(shape, idx) := op.kind;
    var p, dx := Selected(shape, idx), Direction(ds, 0);
    SelectedInto(shape, idx);
    SelectTangent(fs, op, ds);
    SameTangent(OutSize(op.kind), g, TangentOf(fs, op, ds), Pull(p, dx));
    PushAdjoint(OutSize(op.kind), Numel(shape), p, g, dx);
    SelectPairings(fs, op, g, ds);
  }

  /** The backward rule of every operation is the adjoint of its derivative. */
  lemma OpAdjoint(fs: Functions, op: Op, g: Fn, ds: seq<Option<Vec>>)
    requires Defined(op) && fs.Inverse()
    ensures Sum(OutSize(op.kind), Times(g, TangentOf(fs, op, ds))) == InputPairings(fs, op, g, ds)
  {
    match op.kind
    case Mul(_, _, _) => MulAdjoint(fs, op, g, ds);
    case Div(_, _, _) => DivAdjoint(fs, op, g, ds);
    case MatMul(_, _, _) => MatMulAdjoint(fs, op, g, ds);
    case Linear(_, _, _) => LinearAdjoint(fs, op, g, ds);
    case AddBias(_, _) => AddBiasAdjoint(fs, op, g, ds);
    case Bmm(_, _, _, _) => BatchAdjoint(fs, op, g, ds);
    case Softmax(_, _, _) => SoftmaxAdjoint(fs, op, g, ds);
    case LogSoftmax(_, _, _) => LogSoftmaxAdjoint(fs, op, g, ds);
    case IndexSelect(_, _) => IndexSelectAdjoint(fs, op, g, ds);
  }
}
