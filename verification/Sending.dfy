/**
 Which nodes send a gradient to which slots, as a property of the graph alone. Operations decide by
 their inputs, not by the incoming gradient, whether they return a gradient for an input.
 */
module Sending {
  import opened Options
  import opened Tapes

  /** `apply` returns a gradient for input `k`. */
  ghost predicate Returns<T(!new)>(t: Tape<T>, n: nat, g: T, k: nat)
    requires n < |t.nodes| && t.nodes[n].Op?
  {
    k < |t.nodes[n].apply(g)| && t.nodes[n].apply(g)[k].Some?
  }

  /** Input `k` gets a gradient, whatever the incoming one. */
  ghost predicate Fires<T(!new)>(t: Tape<T>, n: nat, k: nat)
    requires n < |t.nodes| && t.nodes[n].Op?
  {
    exists g: T :: Returns(t, n, g, k)
  }

  /** No operation up to `n` looks at the incoming gradient to decide which inputs get one. */
  ghost predicate Uniform<T(!new)>(t: Tape<T>, n: nat) {
    forall i: nat, g: T, h: T, k: nat {:trigger Returns(t, i, g, k), Returns(t, i, h, k)} ::
      i <= n && i < |t.nodes| && t.nodes[i].Op? && Returns(t, i, g, k) ==> Returns(t, i, h, k)
  }

  /** Some path of edges that carry gradients leads from node `n` to slot `s`, through edges or a recompute. */
  ghost predicate Sends<T(!new)>(t: Tape<T>, n: nat, s: nat)
    requires t.Acyclic() && n < |t.nodes|
    decreases n, 1
  {
    assert t.NodeBelow(n);
    match t.nodes[n]
    case Op(edges, _) => exists k :: 0 <= k < |edges| && Fires(t, n, k) && EdgeSends(t, n, edges[k], s)
    case Checkpoint(edges, body, leaves, _) =>
      && body.Some? && s !in leaves
      && (Sends(t, body.value, s)
          || exists k :: 0 <= k < |edges| && Sends(t, body.value, leaves[k]) && EdgeSends(t, n, edges[k], s))
  }

  ghost predicate EdgeSends<T(!new)>(t: Tape<T>, bound: nat, e: Edge, s: nat)
    requires t.Acyclic() && bound <= |t.nodes| && (e.ToNode? ==> e.node < bound)
    decreases bound, 0
  {
    match e
    case ToNode(m) => Sends(t, m, s)
    case Leaf(l) => l == s
    case Detached => false
  }

  ghost predicate CarriesAt<T(!new)>(t: Tape<T>, bound: nat, edges: seq<Edge>, xs: seq<Option<T>>, s: nat, k: nat)
    requires t.Acyclic() && bound <= |t.nodes| && t.EdgesBelow(edges, bound) && k < |edges| && k < |xs|
  {
    xs[k].Some? && EdgeSends(t, bound, edges[k], s)
  }

  ghost predicate Carries<T(!new)>(t: Tape<T>, bound: nat, edges: seq<Edge>, xs: seq<Option<T>>, s: nat)
    requires t.Acyclic() && bound <= |t.nodes| && t.EdgesBelow(edges, bound)
  {
    exists k :: 0 <= k < |edges| && k < |xs| && CarriesAt(t, bound, edges, xs, s, k)
  }

  lemma CarriesHead<T(!new)>(t: Tape<T>, bound: nat, edges: seq<Edge>, xs: seq<Option<T>>, s: nat)
    requires t.Acyclic() && bound <= |t.nodes| && t.EdgesBelow(edges, bound) && edges != [] && xs != []
    ensures Carries(t, bound, edges, xs, s) <==> CarriesAt(t, bound, edges, xs, s, 0) || Carries(t, bound, edges[1..], xs[1..], s)
  {
    if Carries(t, bound, edges, xs, s) {
      var k :| 0 <= k < |edges| && k < |xs| && CarriesAt(t, bound, edges, xs, s, k);
      if k > 0 {
        assert CarriesAt(t, bound, edges[1..], xs[1..], s, k - 1);
      }
    }
    if Carries(t, bound, edges[1..], xs[1..], s) {
      var k :| 0 <= k < |edges| - 1 && k < |xs| - 1 && CarriesAt(t, bound, edges[1..], xs[1..], s, k);
      assert CarriesAt(t, bound, edges, xs, s, k + 1);
    }
  }

  lemma {:induction false} CarriesExactly<T(!new)>(t: Tape<T>, bound: nat, edges: seq<Edge>, xs: seq<Option<T>>, s: nat)
    requires t.Acyclic() && bound <= |t.nodes| && t.EdgesBelow(edges, bound) && (bound > 0 ==> Uniform(t, bound - 1))
    ensures t.EdgeSum(bound, edges, xs, s).Some? <==> Carries(t, bound, edges, xs, s)
    decreases bound, 0, |edges|
  {
    if edges != [] && xs != [] {
      CarriesExactly(t, bound, edges[1..], xs[1..], s);
      CarriesHead(t, bound, edges, xs, s);
      if xs[0].Some? && edges[0].ToNode? {
        SendsExactly(t, edges[0].node, xs[0].value, s);
      }
    }
  }

  /** A slot receives a gradient if and only if the graph sends it one, whatever the gradient. */
  lemma {:induction false} SendsExactly<T(!new)>(t: Tape<T>, n: nat, g: T, s: nat)
    requires t.Acyclic() && n < |t.nodes| && Uniform(t, n)
    ensures t.PathSum(n, g, s).Some? <==> Sends(t, n, s)
    decreases n, 1, 0
  {
    assert t.NodeBelow(n);
    match t.nodes[n]
    case Op(edges, apply) =>
      CarriesExactly(t, n, edges, apply(g), s);
      OpCarries(t, n, g, s);
    case Checkpoint(edges, body, leaves, _) =>
      if body.Some? && s !in leaves {
        SendsExactly(t, body.value, g, s);
        CarriesExactly(t, n, edges, t.LeafGrads(body.value, g, leaves), s);
        CheckpointCarries(t, n, g, s);
      }
  }

  lemma OpCarries<T(!new)>(t: Tape<T>, n: nat, g: T, s: nat)
    requires t.Acyclic() && n < |t.nodes| && Uniform(t, n) && t.NodeBelow(n) && t.nodes[n].Op?
    ensures Carries(t, n, t.nodes[n].edges, t.nodes[n].apply(g), s) <==> Sends(t, n, s)
  {
    var edges, xs := t.nodes[n].edges, t.nodes[n].apply(g);
    if Carries(t, n, edges, xs, s) {
      var k :| 0 <= k < |edges| && k < |xs| && CarriesAt(t, n, edges, xs, s, k);
      assert Returns(t, n, g, k);
    }
    if Sends(t, n, s) {
      var k :| 0 <= k < |edges| && Fires(t, n, k) && EdgeSends(t, n, edges[k], s);
      var h: T :| Returns(t, n, h, k);
      assert Returns(t, n, g, k);
      assert CarriesAt(t, n, edges, xs, s, k);
    }
  }

  lemma {:induction false} CheckpointCarries<T(!new)>(t: Tape<T>, n: nat, g: T, s: nat)
    requires t.Acyclic() && n < |t.nodes| && Uniform(t, n) && t.NodeBelow(n) && t.nodes[n].Checkpoint? && t.nodes[n].body.Some?
    ensures var Checkpoint(edges, body, leaves, _) := t.nodes[n];
            Carries(t, n, edges, t.LeafGrads(body.value, g, leaves), s)
            <==> exists k :: 0 <= k < |edges| && Sends(t, body.value, leaves[k]) && EdgeSends(t, n, edges[k], s)
    decreases n, 0, 0
  {
    var Checkpoint(edges, body, leaves, _) := t.nodes[n];
    var xs := t.LeafGrads(body.value, g, leaves);
    forall k: nat | k < |edges| ensures xs[k].Some? <==> Sends(t, body.value, leaves[k]) {
      t.LeafGradAt(body.value, g, leaves, k);
      SendsExactly(t, body.value, g, leaves[k]);
    }
    if k :| 0 <= k < |edges| && Sends(t, body.value, leaves[k]) && EdgeSends(t, n, edges[k], s) {
      assert CarriesAt(t, n, edges, xs, s, k);
    }
    if Carries(t, n, edges, xs, s) {
      var k :| 0 <= k < |edges| && k < |xs| && CarriesAt(t, n, edges, xs, s, k);
      assert Sends(t, body.value, leaves[k]) && EdgeSends(t, n, edges[k], s);
    }
  }

  /**
   When a recompute fails: its function returns an untracked variable, or the single-input form finds
   that the leaf got no gradient.
   */
  ghost predicate RecomputeFails<T(!new)>(t: Tape<T>, n: nat, g: T)
    requires t.Acyclic() && n < |t.nodes| && t.nodes[n].Checkpoint?
  {
    assert t.NodeBelow(n);
    t.nodes[n].body.None?
    || (t.nodes[n].strict && (t.nodes[n].leaves == [] || t.PathSum(t.nodes[n].body.value, g, t.nodes[n].leaves[0]).None?))
  }

  /** That is decided by the graph: a function that ignores its argument fails on every gradient. */
  lemma RecomputeFailsExactly<T(!new)>(t: Tape<T>, n: nat, g: T)
    requires t.Acyclic() && n < |t.nodes| && t.nodes[n].Checkpoint? && Uniform(t, n)
    ensures t.NodeBelow(n)
    ensures RecomputeFails(t, n, g) <==>
              || t.nodes[n].body.None?
              || (t.nodes[n].strict && (t.nodes[n].leaves == [] || !Sends(t, t.nodes[n].body.value, t.nodes[n].leaves[0])))
    ensures !RecomputeFails(t, n, g) ==> t.Tracked(n)
  {
    assert t.NodeBelow(n);
    if t.nodes[n].body.Some? && t.nodes[n].leaves != [] {
      forall h: T
        ensures t.PathSum(t.nodes[n].body.value, h, t.nodes[n].leaves[0]).Some? <==> Sends(t, t.nodes[n].body.value, t.nodes[n].leaves[0])
      {
        SendsExactly(t, t.nodes[n].body.value, h, t.nodes[n].leaves[0]);
      }
    }
  }
}
