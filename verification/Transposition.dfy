/**
 Reverse mode is the transpose of forward mode, checkpoints included. `ip` pairs a gradient with
 a tangent. If the `apply` of every operation is the adjoint of its derivative, then for every
 direction of the leaves, pairing the seed with the forward-mode tangent of the output equals
 pairing the accumulated gradients with the direction. Forward mode through a checkpoint is
 forward mode through its function, whose fresh leaves move as the inputs do.
 */
module Transposition {
  import opened Options
  import opened Sequences
  import opened Tapes

  /** The direction in which each leaf slot moves. */
  type Directions<!T> = nat -> Option<T>

  /** The pairing, and the derivative of each operation. */
  datatype Forward<!T(!new)> = Forward(ip: (T, T) -> real, derivative: (nat, seq<Option<T>>) -> Option<T>)

  ghost predicate AdditiveIn<T(!new)>(t: Tape<T>, f: Forward<T>, a: T, b: T, d: T) {
    f.ip(t.add(a, b), d) == f.ip(a, d) + f.ip(b, d)
  }

  ghost predicate Additive<T(!new)>(t: Tape<T>, f: Forward<T>) {
    forall a, b, d {:trigger AdditiveIn(t, f, a, b, d)} :: AdditiveIn(t, f, a, b, d)
  }

  function Pair<T(!new)>(f: Forward<T>, x: Option<T>, d: Option<T>): real {
    if x.Some? && d.Some? then f.ip(x.value, d.value) else 0.0
  }

  function PairAll<T(!new)>(f: Forward<T>, xs: seq<Option<T>>, ds: seq<Option<T>>): real
    requires |xs| == |ds|
  {
    if xs == [] then 0.0 else Pair(f, xs[0], ds[0]) + PairAll(f, xs[1..], ds[1..])
  }

  /** `apply` of node `n` is the adjoint of its derivative; a detached input has no tangent. */
  ghost predicate AdjointNode<T(!new)>(t: Tape<T>, f: Forward<T>, n: nat)
    requires n < |t.nodes| && t.nodes[n].Op?
  {
    var edges, apply := t.nodes[n].edges, t.nodes[n].apply;
    forall g: T, ds: seq<Option<T>> {:trigger apply(g), f.derivative(n, ds)} ::
      && |ds| == |edges|
      && (forall i :: 0 <= i < |edges| && edges[i].Detached? ==> ds[i] == None)
      && |apply(g)| == |edges|
      ==> Pair(f, Some(g), f.derivative(n, ds)) == PairAll(f, apply(g), ds)
  }

  /** The directions inside a recompute: fresh leaf `j` moves as input `j`. */
  function Extend<T(!new)>(env: Directions<T>, leaves: seq<nat>, ds: seq<Option<T>>): Directions<T>
    requires |leaves| == |ds|
  {
    if leaves == [] then env
    else
      var k := |leaves| - 1;
      Moved(Extend(env, leaves[..k], ds[..k]), leaves[k], ds[k])
  }

  function Moved<T(!new)>(env: Directions<T>, l: nat, d: Option<T>): Directions<T> {
    (s: nat) => if s == l then d else env(s)
  }

  /** Forward mode: the tangent of node `n`. */
  ghost function Tangent<T(!new)>(t: Tape<T>, f: Forward<T>, env: Directions<T>, n: nat): Option<T>
    requires t.Acyclic() && n < |t.nodes|
    decreases n, 1, 0
  {
    assert t.NodeBelow(n);
    match t.nodes[n]
    case Op(edges, _) => f.derivative(n, EdgeTangents(t, f, env, n, edges))
    case Checkpoint(edges, body, leaves, _) =>
      if body.None? then None
      else Tangent(t, f, Extend(env, leaves, EdgeTangents(t, f, env, n, edges)), body.value)
  }

  ghost function EdgeTangents<T(!new)>(t: Tape<T>, f: Forward<T>, env: Directions<T>, bound: nat, edges: seq<Edge>): (r: seq<Option<T>>)
    requires t.Acyclic() && bound <= |t.nodes| && t.EdgesBelow(edges, bound)
    ensures |r| == |edges|
    ensures forall i :: 0 <= i < |edges| && edges[i].Detached? ==> r[i] == None
    decreases bound, 0, |edges|
  {
    if edges == [] then []
    else
      var d := match edges[0]
               case ToNode(m) => Tangent(t, f, env, m)
               case Leaf(l) => env(l)
               case Detached => None;
      [d] + EdgeTangents(t, f, env, bound, edges[1..])
  }

  /** The pairing of all leaf slots below `k` with the directions, for the gradients sent along `edges`. */
  ghost function SlotPairing<T(!new)>(t: Tape<T>, f: Forward<T>, env: Directions<T>, bound: nat, edges: seq<Edge>, xs: seq<Option<T>>, k: nat): real
    requires t.Acyclic() && bound <= |t.nodes| && t.EdgesBelow(edges, bound)
  {
    if k == 0 then 0.0
    else SlotPairing(t, f, env, bound, edges, xs, k - 1) + Pair(f, t.EdgeSum(bound, edges, xs, k - 1), env(k - 1))
  }

  /** The pairing of the gradients accumulated by `backward` from node `n` with the directions. */
  ghost function GradientPairing<T(!new)>(t: Tape<T>, f: Forward<T>, env: Directions<T>, n: nat, g: T, k: nat): real
    requires t.Acyclic() && n < |t.nodes|
  {
    if k == 0 then 0.0
    else GradientPairing(t, f, env, n, g, k - 1) + Pair(f, t.PathSum(n, g, k - 1), env(k - 1))
  }

  ghost predicate SlotsBelow(edges: seq<Edge>, k: nat) {
    forall i :: 0 <= i < |edges| && edges[i].Leaf? ==> edges[i].slot < k
  }

  /** All slots that node `i` mentions are below `k`, and its operation, if it is one, has an adjoint. */
  ghost predicate TransposableNode<T(!new)>(t: Tape<T>, f: Forward<T>, i: nat, k: nat)
    requires i < |t.nodes|
  {
    && SlotsBelow(t.nodes[i].edges, k)
    && (if t.nodes[i].Op? then AdjointNode(t, f, i)
        else forall j :: 0 <= j < |t.nodes[i].leaves| ==> t.nodes[i].leaves[j] < k)
  }

  ghost predicate Transposable<T(!new)>(t: Tape<T>, f: Forward<T>, n: nat, k: nat) {
    && t.WellFormed() && t.Lawful(n) && Additive(t, f)
    && forall i: nat :: i <= n && i < |t.nodes| ==> TransposableNode(t, f, i, k)
  }

  /** Only slots that outlive the run, or fresh leaves of an enclosing recompute, have a direction. */
  ghost predicate Outer<T(!new)>(t: Tape<T>, env: Directions<T>, n: nat) {
    forall s: nat :: !t.Lasting(n, s) ==> env(s) == None
  }

  lemma {:induction false} NoEdges<T(!new)>(t: Tape<T>, f: Forward<T>, env: Directions<T>, bound: nat, xs: seq<Option<T>>, k: nat)
    requires t.Acyclic() && bound <= |t.nodes|
    ensures SlotPairing(t, f, env, bound, [], xs, k) == 0.0
  {
    if k > 0 {
      NoEdges(t, f, env, bound, xs, k - 1);
    }
  }

  /** Pairing is additive in an optional gradient. */
  lemma PairPlus<T(!new)>(t: Tape<T>, f: Forward<T>, a: Option<T>, b: Option<T>, d: Option<T>)
    requires Additive(t, f)
    ensures Pair(f, t.Plus(a, b), d) == Pair(f, a, d) + Pair(f, b, d)
  {
    if a.Some? && b.Some? && d.Some? {
      assert AdditiveIn(t, f, a.value, b.value, d.value);
    }
  }

  lemma {:induction false} SplitFirst<T(!new)>(t: Tape<T>, f: Forward<T>, env: Directions<T>, bound: nat, edges: seq<Edge>, xs: seq<Option<T>>, k: nat)
    requires t.Acyclic() && bound <= |t.nodes| && t.EdgesBelow(edges, bound) && Additive(t, f)
    requires edges != [] && xs != []
    ensures SlotPairing(t, f, env, bound, edges, xs, k)
         == SlotPairing(t, f, env, bound, edges[..1], xs[..1], k) + SlotPairing(t, f, env, bound, edges[1..], xs[1..], k)
  {
    if k > 0 {
      SplitFirst(t, f, env, bound, edges, xs, k - 1);
      var a, b := t.EdgeTerm(bound, edges[0], xs[0], k - 1), t.EdgeSum(bound, edges[1..], xs[1..], k - 1);
      assert edges[..1][1..] == [];
      assert t.EdgeSum(bound, edges[..1], xs[..1], k - 1) == a;
      PairPlus(t, f, a, b, env(k - 1));
    }
  }

  /** An edge to a node passes the gradient on to that node. */
  lemma {:induction false} ThroughNode<T(!new)>(t: Tape<T>, f: Forward<T>, env: Directions<T>, bound: nat, e: Edge, x: Option<T>, k: nat)
    requires t.Acyclic() && bound <= |t.nodes| && e.ToNode? && e.node < bound
    ensures SlotPairing(t, f, env, bound, [e], [x], k) == if x.Some? then GradientPairing(t, f, env, e.node, x.value, k) else 0.0
  {
    if k > 0 {
      ThroughNode(t, f, env, bound, e, x, k - 1);
      assert [e][1..] == [];
      assert t.EdgeSum(bound, [e], [x], k - 1) == t.EdgeTerm(bound, e, x, k - 1);
    }
  }

  lemma {:induction false} IntoLeaf<T(!new)>(t: Tape<T>, f: Forward<T>, env: Directions<T>, bound: nat, e: Edge, x: Option<T>, k: nat)
    requires t.Acyclic() && bound <= |t.nodes| && !e.ToNode?
    ensures SlotPairing(t, f, env, bound, [e], [x], k) == if e.Leaf? && e.slot < k then Pair(f, x, env(e.slot)) else 0.0
  {
    if k > 0 {
      IntoLeaf(t, f, env, bound, e, x, k - 1);
      assert [e][1..] == [];
      assert t.EdgeSum(bound, [e], [x], k - 1) == t.EdgeTerm(bound, e, x, k - 1);
    }
  }

  lemma {:induction false} EdgesTranspose<T(!new)>(t: Tape<T>, f: Forward<T>, env: Directions<T>, bound: nat, edges: seq<Edge>, xs: seq<Option<T>>, k: nat)
    requires bound < |t.nodes| && Transposable(t, f, bound, k) && t.EdgesBelow(edges, bound) && Outer(t, env, bound)
    requires |xs| == |edges| && SlotsBelow(edges, k)
    ensures PairAll(f, xs, EdgeTangents(t, f, env, bound, edges)) == SlotPairing(t, f, env, bound, edges, xs, k)
    decreases bound, 0, |edges|
  {
    if edges == [] {
      NoEdges(t, f, env, bound, xs, k);
    } else {
      var e, x := edges[0], xs[0];
      SplitFirst(t, f, env, bound, edges, xs, k);
      assert edges[..1] == [e] && xs[..1] == [x];
      EdgesTranspose(t, f, env, bound, edges[1..], xs[1..], k);
      if e.ToNode? {
        ThroughNode(t, f, env, bound, e, x, k);
        if x.Some? {
          OuterBelow(t, env, bound, e.node);
          ReverseIsTranspose(t, f, env, e.node, x.value, k);
        }
      } else {
        IntoLeaf(t, f, env, bound, e, x, k);
      }
    }
  }

  lemma OuterBelow<T(!new)>(t: Tape<T>, env: Directions<T>, n: nat, m: nat)
    requires Outer(t, env, n) && m <= n
    ensures Outer(t, env, m)
  {
    forall s: nat | !t.Lasting(m, s) ensures env(s) == None {
      assert !t.Lasting(n, s);
    }
  }

  lemma {:induction false} PairingsAgree<T(!new)>(t: Tape<T>, f: Forward<T>, env: Directions<T>, n: nat, g: T, k: nat)
    requires t.Acyclic() && n < |t.nodes| && t.nodes[n].Op? && t.NodeBelow(n)
    ensures GradientPairing(t, f, env, n, g, k) == SlotPairing(t, f, env, n, t.nodes[n].edges, t.nodes[n].apply(g), k)
  {
    if k > 0 {
      PairingsAgree(t, f, env, n, g, k - 1);
    }
  }

  // ---- Checkpoints ----

  /** Giving one more slot a direction adds its pairing. */
  lemma {:induction false} MovedPairing<T(!new)>(t: Tape<T>, f: Forward<T>, env: Directions<T>, n: nat, g: T, k: nat, l: nat, d: Option<T>)
    requires t.Acyclic() && n < |t.nodes| && env(l) == None
    ensures GradientPairing(t, f, Moved(env, l, d), n, g, k)
         == GradientPairing(t, f, env, n, g, k) + (if l < k then Pair(f, t.PathSum(n, g, l), d) else 0.0)
  {
    if k > 0 {
      MovedPairing(t, f, env, n, g, k - 1, l, d);
    }
  }

  lemma ExtendElsewhere<T(!new)>(env: Directions<T>, leaves: seq<nat>, ds: seq<Option<T>>, s: nat)
    requires |leaves| == |ds| && s !in leaves
    ensures Extend(env, leaves, ds)(s) == env(s)
    decreases |leaves|
  {
    if leaves != [] {
      var k := |leaves| - 1;
      assert leaves[k] in leaves;
      assert forall x :: x in leaves[..k] ==> x in leaves;
      ExtendElsewhere(env, leaves[..k], ds[..k], s);
    }
  }

  lemma {:induction false} PairAllAppend<T(!new)>(f: Forward<T>, xs: seq<Option<T>>, ds: seq<Option<T>>, x: Option<T>, d: Option<T>)
    requires |xs| == |ds|
    ensures PairAll(f, xs + [x], ds + [d]) == PairAll(f, xs, ds) + Pair(f, x, d)
  {
    if xs == [] {
      assert xs + [x] == [x] && ds + [d] == [d];
      assert PairAll(f, [x][1..], [d][1..]) == 0.0;
    } else {
      assert (xs + [x])[1..] == xs[1..] + [x] && (ds + [d])[1..] == ds[1..] + [d];
      PairAllAppend(f, xs[1..], ds[1..], x, d);
    }
  }

  /** Moving the fresh leaves adds the pairing of their gradients with the directions of the inputs. */
  lemma {:induction false} ExtendPairing<T(!new)>(t: Tape<T>, f: Forward<T>, env: Directions<T>, n: nat, g: T, k: nat, leaves: seq<nat>, ds: seq<Option<T>>)
    requires t.Acyclic() && n < |t.nodes| && |leaves| == |ds| && Distinct(leaves)
    requires forall j :: 0 <= j < |leaves| ==> leaves[j] < k && env(leaves[j]) == None
    ensures GradientPairing(t, f, Extend(env, leaves, ds), n, g, k)
         == GradientPairing(t, f, env, n, g, k) + PairAll(f, t.LeafGrads(n, g, leaves), ds)
    decreases |leaves|
  {
    if leaves != [] {
      var m := |leaves| - 1;
      var init, dinit := leaves[..m], ds[..m];
      ExtendPairing(t, f, env, n, g, k, init, dinit);
      ExtendElsewhere(env, init, dinit, leaves[m]);
      MovedPairing(t, f, Extend(env, init, dinit), n, g, k, leaves[m], ds[m]);
      PairAllAppend(f, t.LeafGrads(n, g, init), dinit, t.PathSum(n, g, leaves[m]), ds[m]);
      assert ds == dinit + [ds[m]];
    }
  }

  /** What a checkpoint sends to the slots is what its body sends, and what its inputs pass on. */
  lemma {:induction false} CheckpointPairing<T(!new)>(t: Tape<T>, f: Forward<T>, env: Directions<T>, n: nat, g: T, k: nat)
    requires t.Acyclic() && n < |t.nodes| && t.NodeBelow(n) && Additive(t, f)
    requires t.nodes[n].Checkpoint? && t.nodes[n].body.Some?
    requires forall j :: 0 <= j < |t.nodes[n].leaves| ==> env(t.nodes[n].leaves[j]) == None
    ensures GradientPairing(t, f, env, n, g, k)
         == GradientPairing(t, f, env, t.nodes[n].body.value, g, k)
            + SlotPairing(t, f, env, n, t.nodes[n].edges, t.LeafGrads(t.nodes[n].body.value, g, t.nodes[n].leaves), k)
  {
    if k > 0 {
      CheckpointPairing(t, f, env, n, g, k - 1);
      var b, s := t.nodes[n].body.value, k - 1;
      if s !in t.nodes[n].leaves {
        PairPlus(t, f, t.PathSum(b, g, s), t.EdgeSum(n, t.nodes[n].edges, t.LeafGrads(b, g, t.nodes[n].leaves), s), env(s));
      }
    }
  }

  /** Inside the recompute, only fresh leaves of enclosing recomputes have gained a direction. */
  lemma ExtendOuter<T(!new)>(t: Tape<T>, env: Directions<T>, n: nat, b: nat, ds: seq<Option<T>>)
    requires t.WellFormed() && b < n < |t.nodes| && t.nodes[n].Checkpoint? && |ds| == |t.nodes[n].leaves| && Outer(t, env, n)
    ensures Outer(t, Extend(env, t.nodes[n].leaves, ds), b)
  {
    forall s: nat | !t.Lasting(b, s) ensures Extend(env, t.nodes[n].leaves, ds)(s) == None {
      var d: nat :| d <= b && t.Owns(d, s);
      assert !t.Owns(n, s);
      ExtendElsewhere(env, t.nodes[n].leaves, ds, s);
      assert !t.Lasting(n, s);
    }
  }

  /** For every seed and all directions of the leaves, `<seed, forward tangent> = <gradients, directions>`. */
  lemma {:induction false} ReverseIsTranspose<T(!new)>(t: Tape<T>, f: Forward<T>, env: Directions<T>, n: nat, g: T, k: nat)
    requires n < |t.nodes| && Transposable(t, f, n, k) && Outer(t, env, n)
    ensures Pair(f, Some(g), Tangent(t, f, env, n)) == GradientPairing(t, f, env, n, g, k)
    decreases n, 1, 0
  {
    assert t.NodeBelow(n) && t.LawfulNode(n) && TransposableNode(t, f, n, k);
    var edges := t.nodes[n].edges;
    var ds := EdgeTangents(t, f, env, n, edges);
    if t.nodes[n].Op? {
      var apply := t.nodes[n].apply;
      assert Pair(f, Some(g), f.derivative(n, ds)) == PairAll(f, apply(g), ds);
      EdgesTranspose(t, f, env, n, edges, apply(g), k);
      PairingsAgree(t, f, env, n, g, k);
    } else {
      var leaves, b := t.nodes[n].leaves, t.nodes[n].body.value;
      forall j | 0 <= j < |leaves| ensures env(leaves[j]) == None {
        assert t.Owns(n, leaves[j]);
      }
      ExtendOuter(t, env, n, b, ds);
      ReverseIsTranspose(t, f, Extend(env, leaves, ds), b, g, k);
      ExtendPairing(t, f, env, b, g, k, leaves, ds);
      EdgesTranspose(t, f, env, n, edges, t.LeafGrads(b, g, leaves), k);
      CheckpointPairing(t, f, env, n, g, k);
    }
  }
}
