/** Concrete inputs: the smallest cases on which the two documented promises of the kernels are lost, and a checkpoint that keeps its own. */
module Examples {
  import opened Options
  import opened Floats
  import opened Attention
  import T = Tapes
  import E = Engines
  import I = Inlining
  import C = Checkpointing
  import G = OpGraphs
  import O = Ops
  import R = OpRules
  import V = Vectors
  import M = IndexMaps
  import B = Broadcasting
  import opened Strides

  // ---- A masked first tile ----

  /** Two keys of which the first is padding, one key per tile. */
  function PaddedProblem(fp: Arithmetic): Problem {
    Problem(fp, [1.0, 1.0], [1.0, 1.0], [5.0, 7.0], Padding([false, true]), 1.0, 1, 1, 2, 1, 1, 1)
  }

  /** The tiled kernel returns NaN for every query although the second key is visible and the reference form is finite. */
  lemma MaskedFirstTile(fp: Arithmetic, i: nat)
    requires i < 2
    ensures var pb := PaddedProblem(fp);
            var row := pb.RowAt(0, i);
            && Validate(pb, 2) == Ok
            && FlashOutput(fp, row, pb.First(), pb.n, 0) == NaN
            && Attend(fp, row, pb.n, 0).Fin?
  {
    var pb := PaddedProblem(fp);
    var row := pb.RowAt(0, i);
    assert row.masked(0) && !row.masked(1);
    assert VisibleIn(row, pb.First(), pb.n) && AnyVisible(row, pb.n);
    DenominatorPositive(fp, row, pb.n, 0.0);
    FlashMatchesExactly(fp, row, pb.First(), pb.n, 0);
  }

  // ---- Checkpoints over the reals ----

  /** The backward rule of `v * v` at `x`. */
  function SquareGrad(x: real, g: real): seq<Option<real>> {
    [Some(x * g), Some(x * g)]
  }

  /** `square(v) = v * v` at `x`, re-run on the fresh leaf 1 by a checkpoint of leaf 0. */
  function SquareTape(x: real): T.Tape<real> {
    T.Tape((a: real, b: real) => a + b,
           [T.Op([T.Leaf(1), T.Leaf(1)], (g: real) => SquareGrad(x, g)),
            T.Checkpoint([T.Leaf(0)], Some(0), [1], true)])
  }

  lemma RealAddLawful(t: T.Tape<real>)
    requires forall a, b :: t.add(a, b) == a + b
    ensures t.LawfulAdd()
  {
    forall a, b, c ensures t.AssociativeAt(a, b, c) {
    }
    forall a, b ensures t.CommutativeAt(a, b) {
    }
  }

  lemma Linear(x: real, g: real, h: real)
    ensures x * (g + h) == x * g + x * h
  {
  }

  lemma SquareBody(x: real, g: real, s: nat)
    ensures var t := SquareTape(x);
            t.Acyclic() && t.PathSum(0, g, s) == if s == 1 then Some(x * g + x * g) else None
  {
    var t := SquareTape(x);
    assert t.NodeBelow(0) && t.NodeBelow(1);
    var edges, xs, y := t.nodes[0].edges, SquareGrad(x, g), x * g;
    assert t.nodes[0].apply(g) == xs;
    assert edges[1..] == [T.Leaf(1)] && xs[1..] == [Some(y)];
    assert t.EdgeSum(0, [T.Leaf(1)], [Some(y)], s) == if s == 1 then Some(y) else None;
  }

  lemma SquareAdditive(t: T.Tape<real>, x: real, g: real, h: real)
    requires forall a, b :: t.add(a, b) == a + b
    ensures SquareGrad(x, t.add(g, h)) == t.Pointwise(SquareGrad(x, g), SquareGrad(x, h))
  {
    Linear(x, g, h);
    var a, b, c := x * g, x * h, x * (g + h);
    var r := t.Pointwise(SquareGrad(x, g), SquareGrad(x, h));
    assert t.add(g, h) == g + h && t.add(a, b) == c;
    assert r[0] == t.Plus(Some(a), Some(b)) && r[1] == t.Plus(Some(a), Some(b));
    assert t.Plus(Some(a), Some(b)) == Some(c);
    assert SquareGrad(x, g + h) == [Some(c), Some(c)];
  }

  lemma SquareLawful(x: real)
    ensures SquareTape(x).WellFormed() && SquareTape(x).Lawful(2)
  {
    var t := SquareTape(x);
    assert t.NodeBelow(0) && t.NodeBelow(1);
    assert t.FreshLeaves() by {
      assert forall c, s :: t.Owns(c, s) ==> c == 1;
    }
    RealAddLawful(t);
    forall g: real, h: real ensures t.AdditiveAt(0, g, h) {
      SquareAdditive(t, x, g, h);
    }
    forall g: real ensures t.PathSum(0, g, 1).Some? {
      SquareBody(x, g, 1);
    }
    assert t.LawfulNode(0) && t.LawfulNode(1);
  }

  lemma SquareUntouched(x: real)
    ensures SquareTape(x).Acyclic()
    ensures !I.Touches(SquareTape(x), 1, 1)
  {
    var t := SquareTape(x);
    assert t.NodeBelow(0) && t.NodeBelow(1);
    assert !I.EdgeTouches(t, 1, T.Leaf(0), 1);
  }

  /** The checkpointed square sends `2 x g` to its input, as the direct call does. */
  lemma CheckpointedSquare(x: real, g: real)
    ensures var t := SquareTape(x);
            && I.Setting(t, 1, 0) && C.Outside(t, 1, 1)
            && t.PathSum(1, g, 0) == Some(x * g + x * g)
  {
    var t := SquareTape(x);
    SquareLawful(x);
    SquareUntouched(x);
    SquareBody(x, g, 0);
    SquareBody(x, g, 1);
    assert t.LeafGrads(0, g, [1]) == [Some(x * g + x * g)] by {
      t.LeafGradAt(0, g, [1], 0);
    }
    assert t.EdgeSum(1, [T.Leaf(0)], [Some(x * g + x * g)], 0) == Some(x * g + x * g);
  }

  /** The function squares a captured leaf, slot 1, and ignores its argument. */
  function CapturedTape(x: real): T.Tape<real> {
    T.Tape((a: real, b: real) => a + b, [T.Op([T.Leaf(1), T.Leaf(1)], (g: real) => SquareGrad(x, g))])
  }

  /**
   A checkpoint none of whose explicit inputs is tracked has no backward node. The direct call
   sends the captured leaf a gradient; the checkpoint sends it nothing.
   */
  lemma CapturedLost(x: real, g: real)
    ensures CapturedTape(x).Acyclic()
    ensures C.Added(CapturedTape(x), C.CheckpointGradFn([E.Variable(None, 0, false)], 1), g, 1) == None
    ensures C.Added(CapturedTape(x), Some(0), g, 1) == Some(x * g + x * g)
  {
    var t := CapturedTape(x);
    assert t.NodeBelow(0);
    var edges, xs, y := t.nodes[0].edges, SquareGrad(x, g), x * g;
    assert t.nodes[0].apply(g) == xs;
    assert edges[1..] == [T.Leaf(1)] && xs[1..] == [Some(y)];
    assert t.EdgeSum(0, [T.Leaf(1)], [Some(y)], 1) == Some(y);
  }

  // ---- A recorded graph of operations ----

  /** `v * v` on one element: the multiplication, and its checkpoint. */
  function SquareOps(x: real): seq<O.Op> {
    [O.Op(O.Mul([1], [1], [1]), [[x], [x]]), O.Op(O.Mul([1], [1], [1]), [[x]])]
  }

  function RecordedSquare(fs: O.Functions, x: real): T.Tape<V.Vec> {
    T.Tape(V.PlusVec,
           [T.Op([T.Leaf(1), T.Leaf(1)], (g: V.Vec) => O.Apply(fs, SquareOps(x)[0], g)),
            T.Checkpoint([T.Leaf(0)], Some(0), [1], false)])
  }

  lemma SquareDefined(x: real)
    ensures O.Defined(SquareOps(x)[0]) && Numel([1]) == 1
  {
    assert Numel([1]) == Numel([]) * 1;
  }

  lemma SquareBuilt(fs: O.Functions, x: real)
    requires fs.Inverse()
    ensures G.BuiltFrom(RecordedSquare(fs, x), fs, SquareOps(x))
  {
    var t, ops := RecordedSquare(fs, x), SquareOps(x);
    SquareDefined(x);
    assert t.NodeBelow(0) && t.NodeBelow(1);
    forall i: nat | i < |ops| ensures G.NodeOf(t, fs, ops[i], i) {
    }
  }

  /** The checkpointed square, recorded at `x`, meets the assumptions of the transposition theorem; its output is the square. */
  lemma SquareRecorded(fs: O.Functions, x: real)
    requires fs.Inverse()
    ensures var t, ops, vals := RecordedSquare(fs, x), SquareOps(x), (_: nat) => [x];
            && G.BuiltFrom(t, fs, ops) && G.Recorded(t, fs, ops, vals) && G.SlotsBelow(t, 2)
            && G.NodeValue(t, fs, ops, 1) == [x * x]
  {
    var t, ops, vals := RecordedSquare(fs, x), SquareOps(x), (_: nat) => [x];
    SquareBuilt(fs, x);
    SquareDefined(x);
    assert t.NodeBelow(0) && t.NodeBelow(1);
    forall i: nat, j: nat | i < |t.nodes| && j < |t.nodes[i].edges|
      ensures G.NodeOf(t, fs, ops[i], i) && G.SavedAt(t, fs, ops, vals, i, j)
      ensures t.nodes[i].Checkpoint? ==> t.NodeBelow(i) && vals(t.nodes[i].leaves[j]) == ops[i].args[j]
    {
    }
    SquareValue(fs, x);
  }

  lemma SquareValue(fs: O.Functions, x: real)
    ensures O.Defined(SquareOps(x)[0]) && G.OutValue(fs, SquareOps(x)[0], []) == [x * x]
  {
    var op := SquareOps(x)[0];
    SquareDefined(x);
    OneElement(x);
    O.MulForward(fs, op, [], 0);
    var y := O.Spread([1], [1], M.Buffer([x]));
    SquareOf(y, O.Spread([1], [1], O.Direction([], 0)), O.Spread([1], [1], O.Direction([], 1)));
    assert O.Arg(op.args, 0) == O.Arg(op.args, 1) == M.Buffer([x]);
    assert O.OutValues(fs, op, [])(0) == O.ValueAt(fs, op, [], 0) == x * x;
  }

  lemma SquareOf(y: int -> real, dx: int -> real, dy: int -> real)
    ensures R.MulDual(y, dx, y, dy, 0).v == y(0) * y(0)
  {
  }

  lemma OneElement(x: real)
    ensures O.Spread([1], [1], M.Buffer([x]))(0) == x
  {
    B.OriginIdentity([1], 0);
  }
}
