/**
 Operations as nodes of a tape, and whole graphs of them, checkpoints included. Forward mode is
 the evaluation of the graph on dual numbers; the backward pass is its transpose.
 */
module OpGraphs {
  import opened Options
  import opened Sequences
  import opened Vectors
  import opened IndexMaps
  import opened Strides
  import opened Sums
  import opened Ops
  import opened OpRules
  import opened GroupSoftmax
  import S = Duals
  import T = Tapes
  import W = Sending
  import R = Transposition

  // ---- Nodes of a tape ----

  lemma PairUpToThree(f: R.Forward<Vec>, xs: seq<Option<Vec>>, ds: seq<Option<Vec>>)
    requires 1 <= |xs| == |ds| <= 3
    ensures R.PairAll(f, xs, ds) == R.Pair(f, xs[0], ds[0])
              + (if |xs| > 1 then R.Pair(f, xs[1], ds[1]) else 0.0)
              + (if |xs| > 2 then R.Pair(f, xs[2], ds[2]) else 0.0)
  {
    if |xs| == 1 {
      assert R.PairAll(f, xs[1..], ds[1..]) == 0.0;
    } else if |xs| == 2 {
      assert xs == [xs[0], xs[1]] && ds == [ds[0], ds[1]];
      assert R.PairAll(f, [xs[1]], [ds[1]]) == R.Pair(f, xs[1], ds[1]);
    } else {
      assert xs[1..][1..] == [xs[2]] && ds[1..][1..] == [ds[2]];
      assert R.PairAll(f, [xs[2]], [ds[2]]) == R.Pair(f, xs[2], ds[2]);
      assert R.PairAll(f, xs[1..], ds[1..]) == R.Pair(f, xs[1], ds[1]) + R.PairAll(f, [xs[2]], [ds[2]]);
    }
  }

  /** Pairing the gradients that `apply` returns with the directions of the inputs. */
  lemma ApplyPairing(fs: Functions, op: Op, f: R.Forward<Vec>, g: Vec, ds: seq<Option<Vec>>)
    requires Defined(op) && |ds| == |InSizes(op.kind)| && f.ip == Dot
    ensures R.PairAll(f, Apply(fs, op, g), ds) == InputPairings(fs, op, Buffer(g), ds)
  {
    PairUpToThree(f, Apply(fs, op, g), ds);
    InputPair(fs, op, f, g, ds, 0);
    if |ds| > 1 {
      InputPair(fs, op, f, g, ds, 1);
    }
    if |ds| > 2 {
      InputPair(fs, op, f, g, ds, 2);
    }
  }

  lemma InputPair(fs: Functions, op: Op, f: R.Forward<Vec>, g: Vec, ds: seq<Option<Vec>>, i: nat)
    requires Defined(op) && |ds| == |InSizes(op.kind)| && f.ip == Dot && i < |ds|
    ensures R.Pair(f, Apply(fs, op, g)[i], ds[i]) == InputPairing(fs, op, Buffer(g), ds, i)
  {
    var n, h := InSizes(op.kind)[i], Gradient(fs, op, Buffer(g), i);
    BuildDot(n, h, if ds[i].Some? then ds[i].value else []);
    if ds[i].None? {
      assert Dot(Build(n, h), []) == 0.0;
    }
  }

  /** The adjoint identity, for gradient and direction buffers. */
  lemma ApplyIsAdjoint(fs: Functions, op: Op, f: R.Forward<Vec>, g: Vec, ds: seq<Option<Vec>>)
    requires Defined(op) && fs.Inverse() && |ds| == |InSizes(op.kind)| && f.ip == Dot
    ensures R.Pair(f, Some(g), Derivative(fs, op, ds)) == R.PairAll(f, Apply(fs, op, g), ds)
  {
    DotBuild(g, OutSize(op.kind), TangentOf(fs, op, ds));
    OpAdjoint(fs, op, Buffer(g), ds);
    ApplyPairing(fs, op, f, g, ds);
  }

  /** Only input `i` moves, along its unit direction `k`. */
  function UnitDirections(n: nat, i: nat, d: Vec): (ds: seq<Option<Vec>>)
    requires i < n
    ensures |ds| == n
  {
    seq(n, j => if j == i then Some(d) else None)
  }

  lemma {:induction false} PairUnit(f: R.Forward<Vec>, xs: seq<Option<Vec>>, i: nat, d: Vec)
    requires i < |xs| && xs[i].Some?
    ensures R.PairAll(f, xs, UnitDirections(|xs|, i, d)) == f.ip(xs[i].value, d)
  {
    var ds := UnitDirections(|xs|, i, d);
    if i == 0 {
      NoDirections(f, xs[1..], ds[1..]);
    } else {
      assert ds[1..] == UnitDirections(|xs| - 1, i - 1, d);
      PairUnit(f, xs[1..], i - 1, d);
    }
  }

  lemma {:induction false} NoDirections(f: R.Forward<Vec>, xs: seq<Option<Vec>>, ds: seq<Option<Vec>>)
    requires |xs| == |ds| && forall j :: 0 <= j < |ds| ==> ds[j] == None
    ensures R.PairAll(f, xs, ds) == 0.0
  {
    if xs != [] {
      NoDirections(f, xs[1..], ds[1..]);
    }
  }

  /** One entry of a returned gradient, read off by a unit direction. */
  lemma EntryByDirection(fs: Functions, op: Op, f: R.Forward<Vec>, g: Vec, i: nat, k: nat)
    requires Defined(op) && fs.Inverse() && f.ip == Dot && i < |InSizes(op.kind)| && k < InSizes(op.kind)[i]
    ensures var ds := UnitDirections(|InSizes(op.kind)|, i, UnitVec(InSizes(op.kind)[i], k));
            R.Pair(f, Some(g), Derivative(fs, op, ds)) == At(Apply(fs, op, g)[i].value, k)
  {
    var d := UnitVec(InSizes(op.kind)[i], k);
    var ds := UnitDirections(|InSizes(op.kind)|, i, d);
    ApplyIsAdjoint(fs, op, f, g, ds);
    PairUnit(f, Apply(fs, op, g), i, d);
    DotUnit(Apply(fs, op, g)[i].value, InSizes(op.kind)[i], k);
  }

  lemma EntryAdds(fs: Functions, op: Op, f: R.Forward<Vec>, g: Vec, h: Vec, i: nat, k: nat)
    requires Defined(op) && fs.Inverse() && f.ip == Dot && i < |InSizes(op.kind)| && k < InSizes(op.kind)[i]
    ensures At(Apply(fs, op, PlusVec(g, h))[i].value, k) == At(Apply(fs, op, g)[i].value, k) + At(Apply(fs, op, h)[i].value, k)
  {
    var ds := UnitDirections(|InSizes(op.kind)|, i, UnitVec(InSizes(op.kind)[i], k));
    EntryByDirection(fs, op, f, PlusVec(g, h), i, k);
    EntryByDirection(fs, op, f, g, i, k);
    EntryByDirection(fs, op, f, h, i, k);
    DotAdditive(g, h, Derivative(fs, op, ds).value);
  }

  lemma SameEntries(a: Vec, b: Vec, c: Vec)
    requires |a| == |b| == |c| && forall k :: 0 <= k < |c| ==> At(c, k) == At(a, k) + At(b, k)
    ensures c == PlusVec(a, b)
  {
    forall k | 0 <= k < |c| ensures c[k] == PlusVec(a, b)[k] {
      assert At(c, k) == c[k] && At(PlusVec(a, b), k) == PlusVec(a, b)[k];
    }
  }

  /** An adjoint is additive: the gradients of a sum are the sums of the gradients. */
  lemma ApplyAdditive(fs: Functions, op: Op, f: R.Forward<Vec>, g: Vec, h: Vec, i: nat)
    requires Defined(op) && fs.Inverse() && f.ip == Dot && i < |InSizes(op.kind)|
    ensures Apply(fs, op, PlusVec(g, h))[i] == Some(PlusVec(Apply(fs, op, g)[i].value, Apply(fs, op, h)[i].value))
  {
    var sum, a, b := Apply(fs, op, PlusVec(g, h))[i].value, Apply(fs, op, g)[i].value, Apply(fs, op, h)[i].value;
    forall k | 0 <= k < |sum| ensures At(sum, k) == At(a, k) + At(b, k) {
      EntryAdds(fs, op, f, g, h, i, k);
    }
    SameEntries(a, b, sum);
  }

  // ---- Graphs of operations ----

  /**
   Node `i` of the tape is the backward node of `ops[i]`, or a checkpoint that keeps its contract and
   saves the values of its inputs in `ops[i].args`.
   */
  ghost predicate NodeOf(t: T.Tape<Vec>, fs: Functions, op: Op, i: nat)
    requires t.Acyclic() && i < |t.nodes|
  {
    && |op.args| == |t.nodes[i].edges|
    && (if t.nodes[i].Op? then
          && Defined(op) && |t.nodes[i].edges| == |InSizes(op.kind)|
          && forall g: Vec :: t.nodes[i].apply(g) == Apply(fs, op, g)
        else t.Tracked(i))
  }

  ghost predicate BuiltFrom(t: T.Tape<Vec>, fs: Functions, ops: seq<Op>) {
    && fs.Inverse() && t.WellFormed() && |ops| == |t.nodes| && t.add == PlusVec
    && forall i: nat :: i < |ops| ==> NodeOf(t, fs, ops[i], i)
  }

  /** The derivative of every operation at its saved inputs. */
  ghost function ForwardOf(fs: Functions, ops: seq<Op>): R.Forward<Vec> {
    R.Forward(Dot, (i: nat, ds: seq<Option<Vec>>) => if i < |ops| && Defined(ops[i]) then Derivative(fs, ops[i], ds) else None)
  }

  lemma NodeLawful(t: T.Tape<Vec>, fs: Functions, ops: seq<Op>, f: R.Forward<Vec>, i: nat)
    requires BuiltFrom(t, fs, ops) && i < |ops| && f.ip == Dot
    ensures t.LawfulNode(i)
  {
    assert NodeOf(t, fs, ops[i], i);
    if t.nodes[i].Op? {
      forall g: Vec, h: Vec ensures t.AdditiveAt(i, g, h) {
        var sum, a, b := Apply(fs, ops[i], PlusVec(g, h)), Apply(fs, ops[i], g), Apply(fs, ops[i], h);
        forall j | 0 <= j < |sum| ensures sum[j] == t.Plus(a[j], b[j]) {
          ApplyAdditive(fs, ops[i], f, g, h, j);
        }
        assert sum == t.Pointwise(a, b);
      }
    }
  }

  /** Every operation returns a gradient for each of its inputs, whatever the incoming one. */
  lemma BuiltUniform(t: T.Tape<Vec>, fs: Functions, ops: seq<Op>, n: nat)
    requires BuiltFrom(t, fs, ops)
    ensures W.Uniform(t, n)
  {
    forall i: nat, g: Vec, h: Vec, k: nat | i <= n && i < |t.nodes| && t.nodes[i].Op? && W.Returns(t, i, g, k)
      ensures W.Returns(t, i, h, k)
    {
      assert NodeOf(t, fs, ops[i], i);
      assert |Apply(fs, ops[i], h)| == |Apply(fs, ops[i], g)|;
    }
  }

  lemma NodeAdjoint(t: T.Tape<Vec>, fs: Functions, ops: seq<Op>, i: nat)
    requires BuiltFrom(t, fs, ops) && i < |ops| && t.nodes[i].Op?
    ensures R.AdjointNode(t, ForwardOf(fs, ops), i)
  {
    var f := ForwardOf(fs, ops);
    assert NodeOf(t, fs, ops[i], i);
    forall g: Vec, ds: seq<Option<Vec>> | |ds| == |t.nodes[i].edges|
      ensures R.Pair(f, Some(g), f.derivative(i, ds)) == R.PairAll(f, Apply(fs, ops[i], g), ds)
    {
      ApplyIsAdjoint(fs, ops[i], f, g, ds);
    }
  }

  lemma PlusVecLawful(t: T.Tape<Vec>)
    requires t.add == PlusVec
    ensures t.LawfulAdd()
  {
    forall a, b, c ensures t.AssociativeAt(a, b, c) {
      PlusVecAssociates(a, b, c);
    }
    forall a, b ensures t.CommutativeAt(a, b) {
      PlusVecCommutes(a, b);
    }
  }

  lemma DotAdditiveIn(t: T.Tape<Vec>, f: R.Forward<Vec>)
    requires t.add == PlusVec && f.ip == Dot
    ensures R.Additive(t, f)
  {
    forall a, b, d ensures R.AdditiveIn(t, f, a, b, d) {
      DotAdditive(a, b, d);
    }
  }

  ghost predicate SlotsBelow(t: T.Tape<Vec>, slots: nat) {
    forall i: nat :: i < |t.nodes| ==>
      && R.SlotsBelow(t.nodes[i].edges, slots)
      && (t.nodes[i].Checkpoint? ==> forall j :: 0 <= j < |t.nodes[i].leaves| ==> t.nodes[i].leaves[j] < slots)
  }

  // ---- The graph on dual numbers ----

  /** A value and its tangent; no tangent when nothing it depends on moves. */
  datatype Flow = Flow(value: Vec, tangent: Option<Vec>)

  /** The values of the leaf slots. */
  type Values = nat -> Vec

  /** The value of an operation: the value part of its forward formula. */
  ghost function OutValue(fs: Functions, op: Op, ds: seq<Option<Vec>>): Vec
    requires Defined(op)
  {
    Build(OutSize(op.kind), OutValues(fs, op, ds))
  }

  function Assign(vals: Values, leaves: seq<nat>, xs: seq<Vec>): Values
    requires |leaves| == |xs|
  {
    (s: nat) => if s in leaves then xs[Position(leaves, s)] else vals(s)
  }

  function FlowValues(flows: seq<Flow>): (r: seq<Vec>)
    ensures |r| == |flows| && forall i :: 0 <= i < |r| ==> r[i] == flows[i].value
  {
    seq(|flows|, i requires 0 <= i < |flows| => flows[i].value)
  }

  function FlowTangents(flows: seq<Flow>): (r: seq<Option<Vec>>)
    ensures |r| == |flows| && forall i :: 0 <= i < |r| ==> r[i] == flows[i].tangent
  {
    seq(|flows|, i requires 0 <= i < |flows| => flows[i].tangent)
  }

  /**
   The forward pass from leaf values `vals` moving in directions `env`. A checkpoint evaluates its
   function with the fresh leaves at its inputs. An input that is not tracked keeps its saved value.
   */
  ghost function Evaluate(t: T.Tape<Vec>, fs: Functions, ops: seq<Op>, vals: Values, env: R.Directions<Vec>, n: nat): Flow
    requires t.Acyclic() && |ops| == |t.nodes| && n < |t.nodes|
    decreases n, 1, 0
  {
    assert t.NodeBelow(n);
    var ins := EvaluateEdges(t, fs, ops, vals, env, n, t.nodes[n].edges, ops[n].args);
    match t.nodes[n]
    case Op(_, _) =>
      var op := Op(ops[n].kind, FlowValues(ins));
      if Defined(op) then Flow(OutValue(fs, op, FlowTangents(ins)), Derivative(fs, op, FlowTangents(ins))) else Flow([], None)
    case Checkpoint(_, body, leaves, _) =>
      if body.None? then Flow([], None)
      else Evaluate(t, fs, ops, Assign(vals, leaves, FlowValues(ins)), R.Extend(env, leaves, FlowTangents(ins)), body.value)
  }

  ghost function EvaluateEdges(t: T.Tape<Vec>, fs: Functions, ops: seq<Op>, vals: Values, env: R.Directions<Vec>,
                               bound: nat, edges: seq<T.Edge>, saved: seq<Vec>): (r: seq<Flow>)
    requires t.Acyclic() && |ops| == |t.nodes| && bound <= |t.nodes| && t.EdgesBelow(edges, bound)
    ensures |r| == |edges|
    decreases bound, 0, |edges|
  {
    if edges == [] then []
    else
      var first := match edges[0]
                   case ToNode(m) => Evaluate(t, fs, ops, vals, env, m)
                   case Leaf(l) => Flow(vals(l), env(l))
                   case Detached => Flow(if saved == [] then [] else saved[0], None);
      [first] + EvaluateEdges(t, fs, ops, vals, env, bound, edges[1..], if saved == [] then [] else saved[1..])
  }

  /** The value that a node saved: its operation applied to the saved inputs. */
  ghost function NodeValue(t: T.Tape<Vec>, fs: Functions, ops: seq<Op>, n: nat): Vec
    requires t.Acyclic() && |ops| == |t.nodes| && n < |t.nodes|
    decreases n
  {
    assert t.NodeBelow(n);
    if t.nodes[n].Op? then (if Defined(ops[n]) then OutValue(fs, ops[n], []) else [])
    else if t.nodes[n].body.None? then []
    else NodeValue(t, fs, ops, t.nodes[n].body.value)
  }

  /** The saved inputs of every node are the values of what its edges point to. */
  ghost predicate SavedAt(t: T.Tape<Vec>, fs: Functions, ops: seq<Op>, vals: Values, i: nat, j: nat)
    requires t.Acyclic() && |ops| == |t.nodes| && i < |t.nodes| && j < |t.nodes[i].edges| == |ops[i].args|
  {
    assert t.NodeBelow(i);
    match t.nodes[i].edges[j]
    case ToNode(m) => ops[i].args[j] == NodeValue(t, fs, ops, m)
    case Leaf(l) => ops[i].args[j] == vals(l)
    case Detached => true
  }

  /** The nodes were recorded by a forward pass from the leaf values `vals`; fresh leaves hold the saved inputs. */
  ghost predicate Recorded(t: T.Tape<Vec>, fs: Functions, ops: seq<Op>, vals: Values)
    requires BuiltFrom(t, fs, ops)
  {
    forall i: nat, j: nat {:trigger SavedAt(t, fs, ops, vals, i, j)} :: i < |t.nodes| && j < |t.nodes[i].edges| ==>
      && NodeOf(t, fs, ops[i], i)
      && SavedAt(t, fs, ops, vals, i, j)
      && (t.nodes[i].Checkpoint? ==> t.NodeBelow(i) && vals(t.nodes[i].leaves[j]) == ops[i].args[j])
  }

  lemma FlatFixed(k: nat, n: nat, x: Fn, dx: Fn, y: Fn, dy: Fn, dx': Fn, dy': Fn, l: int)
    ensures FlatProductDual(k, n, x, dx, y, dy, l).v == FlatProductDual(k, n, x, dx', y, dy', l).v
  {
    if n > 0 && l >= 0 {
      ProductDualIs(k, Mat(x, k), Mat(dx, k), Mat(y, n), Mat(dy, n), l / n, l % n);
      ProductDualIs(k, Mat(x, k), Mat(dx', k), Mat(y, n), Mat(dy', n), l / n, l % n);
    }
  }

  lemma FlatValueFixed(k: nat, n: nat, op: Op, ds: seq<Option<Vec>>, l: int)
    ensures FlatProductDual(k, n, Arg(op.args, 0), Direction(ds, 0), Arg(op.args, 1), Direction(ds, 1), l).v
         == FlatProductDual(k, n, Arg(op.args, 0), Direction([], 0), Arg(op.args, 1), Direction([], 1), l).v
  {
    FlatFixed(k, n, Arg(op.args, 0), Direction(ds, 0), Arg(op.args, 1), Direction(ds, 1), Direction([], 0), Direction([], 1), l);
  }

  lemma BatchFixed(m: nat, k: nat, n: nat, x: Fn, dx: Fn, y: Fn, dy: Fn, dx': Fn, dy': Fn, l: int)
    ensures BatchDual(m, k, n, x, dx, y, dy, l).v == BatchDual(m, k, n, x, dx', y, dy', l).v
  {
    if m * n != 0 && l >= 0 {
      var i := l / (m * n);
      FlatFixed(k, n, Slice(x, m * k, i), Slice(dx, m * k, i), Slice(y, k * n, i), Slice(dy, k * n, i),
                Slice(dx', m * k, i), Slice(dy', k * n, i), l % (m * n));
    }
  }

  lemma BatchValueFixed(m: nat, k: nat, n: nat, op: Op, ds: seq<Option<Vec>>, l: int)
    ensures BatchDual(m, k, n, Arg(op.args, 0), Direction(ds, 0), Arg(op.args, 1), Direction(ds, 1), l).v
         == BatchDual(m, k, n, Arg(op.args, 0), Direction([], 0), Arg(op.args, 1), Direction([], 1), l).v
  {
    BatchFixed(m, k, n, Arg(op.args, 0), Direction(ds, 0), Arg(op.args, 1), Direction(ds, 1), Direction([], 0), Direction([], 1), l);
  }

  lemma MulFixed(x: Fn, dx: Fn, y: Fn, dy: Fn, dx': Fn, dy': Fn, l: int, a: S.Dual, b: S.Dual)
    requires a == MulDual(x, dx, y, dy, l) && b == MulDual(x, dx', y, dy', l)
    ensures a.v == b.v
  {
  }

  lemma MulValueFixed(fs: Functions, op: Op, ds: seq<Option<Vec>>, l: nat)
    requires Defined(op) && op.kind.Mul? && l < OutSize(op.kind)
    ensures Forward(fs, op, ds, l).v == Forward(fs, op, [], l).v
  {
    var Mul(ls, rs, o) := op.kind;
    MulForward(fs, op, ds, l);
    MulForward(fs, op, [], l);
    MulFixed(Spread(ls, o, Arg(op.args, 0)), Spread(ls, o, Direction(ds, 0)), Spread(rs, o, Arg(op.args, 1)), Spread(rs, o, Direction(ds, 1)),
             Spread(ls, o, Direction([], 0)), Spread(rs, o, Direction([], 1)), l, Forward(fs, op, ds, l), Forward(fs, op, [], l));
  }

  lemma DivValueFixed(fs: Functions, op: Op, ds: seq<Option<Vec>>, l: nat)
    requires Defined(op) && op.kind.Div? && l < OutSize(op.kind)
    ensures Forward(fs, op, ds, l).v == Forward(fs, op, [], l).v
  {
    DivForward(fs, op, ds, l);
    DivForward(fs, op, [], l);
  }

  lemma MatMulValueFixed(fs: Functions, op: Op, ds: seq<Option<Vec>>, l: nat)
    requires Defined(op) && op.kind.MatMul? && l < OutSize(op.kind)
    ensures Forward(fs, op, ds, l).v == Forward(fs, op, [], l).v
  {
    FlatValueFixed(op.kind.k, op.kind.n, op, ds, l);
  }

  lemma LinearValueFixed(fs: Functions, op: Op, ds: seq<Option<Vec>>, l: nat)
    requires Defined(op) && op.kind.Linear? && l < OutSize(op.kind)
    ensures Forward(fs, op, ds, l).v == Forward(fs, op, [], l).v
  {
    FlatValueFixed(op.kind.k, op.kind.n, op, ds, l);
  }

  lemma BmmValueFixed(fs: Functions, op: Op, ds: seq<Option<Vec>>, l: nat)
    requires Defined(op) && op.kind.Bmm? && l < OutSize(op.kind)
    ensures Forward(fs, op, ds, l).v == Forward(fs, op, [], l).v
  {
    BatchValueFixed(op.kind.m, op.kind.k, op.kind.n, op, ds, l);
  }

  lemma SoftmaxValueFixed(fs: Functions, op: Op, ds: seq<Option<Vec>>, l: nat)
    requires Defined(op) && op.kind.Softmax? && l < OutSize(op.kind)
    ensures Forward(fs, op, ds, l).v == Forward(fs, op, [], l).v
  {
    SoftmaxForward(fs, op, ds, l);
    SoftmaxForward(fs, op, [], l);
  }

  lemma LogSoftmaxValueFixed(fs: Functions, op: Op, ds: seq<Option<Vec>>, l: nat)
    requires Defined(op) && op.kind.LogSoftmax? && l < OutSize(op.kind)
    ensures Forward(fs, op, ds, l).v == Forward(fs, op, [], l).v
  {
    LogSoftmaxForward(fs, op, ds, l);
    LogSoftmaxForward(fs, op, [], l);
  }

  /** Bias addition and row selection. */
  lemma ReadValueFixed(fs: Functions, op: Op, ds: seq<Option<Vec>>, l: nat)
    requires Defined(op) && (op.kind.AddBias? || op.kind.IndexSelect?) && l < OutSize(op.kind)
    ensures Forward(fs, op, ds, l).v == Forward(fs, op, [], l).v
  {
  }

  /** The value of an operation does not depend on how its inputs move. */
  lemma ForwardValue(fs: Functions, op: Op, ds: seq<Option<Vec>>, l: nat)
    requires Defined(op) && l < OutSize(op.kind)
    ensures Forward(fs, op, ds, l).v == Forward(fs, op, [], l).v
  {
    match op.kind
    case Mul(_, _, _) => MulValueFixed(fs, op, ds, l);
    case Div(_, _, _) => DivValueFixed(fs, op, ds, l);
    case MatMul(_, _, _) => MatMulValueFixed(fs, op, ds, l);
    case Linear(_, _, _) => LinearValueFixed(fs, op, ds, l);
    case AddBias(_, _) => ReadValueFixed(fs, op, ds, l);
    case Bmm(_, _, _, _) => BmmValueFixed(fs, op, ds, l);
    case Softmax(_, _, _) => SoftmaxValueFixed(fs, op, ds, l);
    case LogSoftmax(_, _, _) => LogSoftmaxValueFixed(fs, op, ds, l);
    case IndexSelect(_, _) => ReadValueFixed(fs, op, ds, l);
  }

  lemma ValueFixed(fs: Functions, op: Op, ds: seq<Option<Vec>>, l: int)
    requires Defined(op)
    ensures ValueAt(fs, op, ds, l) == ValueAt(fs, op, [], l)
  {
    if 0 <= l < OutSize(op.kind) {
      ForwardValue(fs, op, ds, l);
    }
  }

  lemma SameBuild(n: nat, f: Fn, g: Fn)
    requires forall l :: f(l) == g(l)
    ensures Build(n, f) == Build(n, g)
  {
  }

  lemma OutValueFixed(fs: Functions, op: Op, ds: seq<Option<Vec>>)
    requires Defined(op)
    ensures OutValue(fs, op, ds) == OutValue(fs, op, [])
  {
    var f, g := OutValues(fs, op, ds), OutValues(fs, op, []);
    forall l: int ensures f(l) == g(l) {
      ValueFixed(fs, op, ds, l);
    }
    SameBuild(OutSize(op.kind), f, g);
  }

  ghost predicate SameValues(a: Values, b: Values) {
    forall s: nat :: a(s) == b(s)
  }

  /** Fresh leaves already hold the saved inputs. */
  lemma AssignSaved(vals: Values, leaves: seq<nat>, xs: seq<Vec>, vals': Values)
    requires |leaves| == |xs| && SameValues(vals', vals) && forall j :: 0 <= j < |leaves| ==> vals(leaves[j]) == xs[j]
    ensures SameValues(Assign(vals', leaves, xs), vals)
  {
  }

  ghost predicate Gives(flows: seq<Flow>, values: seq<Vec>, tangents: seq<Option<Vec>>) {
    && |flows| == |values| == |tangents|
    && forall i :: 0 <= i < |flows| ==> flows[i] == Flow(values[i], tangents[i])
  }

  lemma GivesMore(f: Flow, flows: seq<Flow>, values: seq<Vec>, tangents: seq<Option<Vec>>)
    requires Gives(flows, values, tangents)
    ensures Gives([f] + flows, [f.value] + values, [f.tangent] + tangents)
  {
  }

  lemma GivesAll(flows: seq<Flow>, values: seq<Vec>, tangents: seq<Option<Vec>>)
    requires Gives(flows, values, tangents)
    ensures FlowValues(flows) == values && FlowTangents(flows) == tangents
  {
  }

  /** Evaluating the inputs of node `n` from edge `k` on gives the saved inputs and their tangents. */
  lemma {:induction false} EvaluateInputs(t: T.Tape<Vec>, fs: Functions, ops: seq<Op>, vals: Values, vals': Values, env: R.Directions<Vec>, n: nat, k: nat)
    requires BuiltFrom(t, fs, ops) && Recorded(t, fs, ops, vals) && SameValues(vals', vals)
    requires n < |t.nodes| && t.NodeBelow(n) && k <= |t.nodes[n].edges| == |ops[n].args|
    ensures Gives(EvaluateEdges(t, fs, ops, vals', env, n, t.nodes[n].edges[k..], ops[n].args[k..]), ops[n].args[k..],
                  R.EdgeTangents(t, ForwardOf(fs, ops), env, n, t.nodes[n].edges[k..]))
    decreases n, 0, |t.nodes[n].edges| - k
  {
    var edges, saved := t.nodes[n].edges[k..], ops[n].args[k..];
    if edges != [] {
      assert edges[1..] == t.nodes[n].edges[k + 1..] && saved[1..] == ops[n].args[k + 1..];
      EvaluateInputs(t, fs, ops, vals, vals', env, n, k + 1);
      var rest := EvaluateEdges(t, fs, ops, vals', env, n, edges[1..], saved[1..]);
      var first := Flow(saved[0], R.EdgeTangents(t, ForwardOf(fs, ops), env, n, edges)[0]);
      EvaluateInput(t, fs, ops, vals, vals', env, n, k);
      GivesMore(first, rest, saved[1..], R.EdgeTangents(t, ForwardOf(fs, ops), env, n, edges[1..]));
      assert saved == [saved[0]] + saved[1..];
    }
  }

  lemma {:induction false} EvaluateInput(t: T.Tape<Vec>, fs: Functions, ops: seq<Op>, vals: Values, vals': Values, env: R.Directions<Vec>, n: nat, k: nat)
    requires BuiltFrom(t, fs, ops) && Recorded(t, fs, ops, vals) && SameValues(vals', vals)
    requires n < |t.nodes| && t.NodeBelow(n) && k < |t.nodes[n].edges| == |ops[n].args|
    ensures var edges, saved := t.nodes[n].edges[k..], ops[n].args[k..];
            EvaluateEdges(t, fs, ops, vals', env, n, edges, saved)
              == [Flow(saved[0], R.EdgeTangents(t, ForwardOf(fs, ops), env, n, edges)[0])]
                 + EvaluateEdges(t, fs, ops, vals', env, n, edges[1..], saved[1..])
    decreases n, 0, 0
  {
    var edge := t.nodes[n].edges[k];
    assert SavedAt(t, fs, ops, vals, n, k);
    if edge.ToNode? {
      EvaluateIs(t, fs, ops, vals, vals', env, edge.node);
    }
  }

  /** The forward pass on dual numbers gives, at every node, its recorded value and its forward-mode tangent. */
  lemma {:induction false} EvaluateIs(t: T.Tape<Vec>, fs: Functions, ops: seq<Op>, vals: Values, vals': Values, env: R.Directions<Vec>, n: nat)
    requires BuiltFrom(t, fs, ops) && Recorded(t, fs, ops, vals) && SameValues(vals', vals) && n < |t.nodes|
    ensures Evaluate(t, fs, ops, vals', env, n) == Flow(NodeValue(t, fs, ops, n), R.Tangent(t, ForwardOf(fs, ops), env, n))
    decreases n, 1, 0
  {
    assert t.NodeBelow(n) && NodeOf(t, fs, ops[n], n);
    var edges := t.nodes[n].edges;
    assert edges[0..] == edges && ops[n].args[0..] == ops[n].args;
    EvaluateInputs(t, fs, ops, vals, vals', env, n, 0);
    var ins := EvaluateEdges(t, fs, ops, vals', env, n, edges, ops[n].args);
    GivesAll(ins, ops[n].args, R.EdgeTangents(t, ForwardOf(fs, ops), env, n, edges));
    if t.nodes[n].Op? {
      OutValueFixed(fs, ops[n], FlowTangents(ins));
    } else {
      var leaves := t.nodes[n].leaves;
      forall j: nat | j < |leaves| ensures vals(leaves[j]) == ops[n].args[j] {
        assert SavedAt(t, fs, ops, vals, n, j);
      }
      AssignSaved(vals, leaves, ops[n].args, vals');
      EvaluateIs(t, fs, ops, vals, Assign(vals', leaves, ops[n].args), R.Extend(env, leaves, FlowTangents(ins)), t.nodes[n].body.value);
    }
  }

  /**
   For every graph of operations and checkpoints that was recorded by a forward pass, every seed `g`
   and all directions of the leaves: pairing the seed with the tangent that the forward pass on dual
   numbers gives the output equals pairing the gradients that `backward` accumulates with the directions.
   */
  lemma BackwardIsTranspose(t: T.Tape<Vec>, fs: Functions, ops: seq<Op>, vals: Values, env: R.Directions<Vec>, n: nat, g: Vec, slots: nat)
    requires BuiltFrom(t, fs, ops) && Recorded(t, fs, ops, vals) && SlotsBelow(t, slots) && R.Outer(t, env, n) && n < |t.nodes|
    ensures Evaluate(t, fs, ops, vals, env, n).value == NodeValue(t, fs, ops, n)
    ensures R.Pair(ForwardOf(fs, ops), Some(g), Evaluate(t, fs, ops, vals, env, n).tangent)
         == R.GradientPairing(t, ForwardOf(fs, ops), env, n, g, slots)
  {
    var f := ForwardOf(fs, ops);
    EvaluateIs(t, fs, ops, vals, vals, env, n);
    PlusVecLawful(t);
    DotAdditiveIn(t, f);
    forall i: nat | i < |t.nodes| ensures t.LawfulNode(i) && R.TransposableNode(t, f, i, slots) {
      NodeLawful(t, fs, ops, f, i);
      if t.nodes[i].Op? {
        NodeAdjoint(t, fs, ops, i);
      }
    }
    R.ReverseIsTranspose(t, f, env, n, g, slots);
  }
}
