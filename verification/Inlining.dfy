/**
 Gradient checkpointing is transparent. `Inlined(t, c)` is the tape a direct call of the
 checkpointed function would have built: consumers of checkpoint `c` are wired to the node
 that computes its output, and every use of a fresh leaf to the corresponding input of `c`.
 The checkpoint's own place is taken by a node without inputs that nothing points to.
 Every node then sends the same gradient to every slot as before.
 */
module Inlining {
  import opened Options
  import opened Sequences
  import opened Tapes

  function Redirect<T(!new)>(t: Tape<T>, c: nat, e: Edge): Edge
    requires c < |t.nodes| && t.nodes[c].Checkpoint? && |t.nodes[c].leaves| == |t.nodes[c].edges| && t.nodes[c].body.Some?
  {
    match e
    case ToNode(m) => if m == c then ToNode(t.nodes[c].body.value) else e
    case Leaf(l) => if l in t.nodes[c].leaves then t.nodes[c].edges[Position(t.nodes[c].leaves, l)] else e
    case Detached => e
  }

  function RedirectAll<T(!new)>(t: Tape<T>, c: nat, edges: seq<Edge>): (r: seq<Edge>)
    requires c < |t.nodes| && t.nodes[c].Checkpoint? && |t.nodes[c].leaves| == |t.nodes[c].edges| && t.nodes[c].body.Some?
    ensures |r| == |edges|
    ensures forall i :: 0 <= i < |r| ==> r[i] == Redirect(t, c, edges[i])
  {
    if edges == [] then [] else [Redirect(t, c, edges[0])] + RedirectAll(t, c, edges[1..])
  }

  function RedirectNode<T(!new)>(t: Tape<T>, c: nat, n: Node<T>): Node<T>
    requires c < |t.nodes| && t.nodes[c].Checkpoint? && |t.nodes[c].leaves| == |t.nodes[c].edges| && t.nodes[c].body.Some?
  {
    match n
    case Op(edges, apply) => Op(RedirectAll(t, c, edges), apply)
    case Checkpoint(edges, body, leaves, strict) =>
      Checkpoint(RedirectAll(t, c, edges),
                 if body == Some(c) then t.nodes[c].body else body, leaves, strict)
  }

  function Inlined<T(!new)>(t: Tape<T>, c: nat): (r: Tape<T>)
    requires c < |t.nodes| && t.nodes[c].Checkpoint? && |t.nodes[c].leaves| == |t.nodes[c].edges| && t.nodes[c].body.Some?
    ensures |r.nodes| == |t.nodes|
  {
    Tape(t.add, seq(|t.nodes|, i requires 0 <= i < |t.nodes| =>
      if i == c then Op([], _ => []) else RedirectNode(t, c, t.nodes[i])))
  }

  // ---- Scoping ----

  /** A gradient at node `n` may reach slot `s`, through edges or through a checkpoint's body. */
  ghost predicate Touches<T(!new)>(t: Tape<T>, n: nat, s: nat)
    requires t.Acyclic() && n < |t.nodes|
    decreases n, 1
  {
    assert t.NodeBelow(n);
    || (exists i :: 0 <= i < |t.nodes[n].edges| && EdgeTouches(t, n, t.nodes[n].edges[i], s))
    || (t.nodes[n].Checkpoint? && t.nodes[n].body.Some? && s !in t.nodes[n].leaves && Touches(t, t.nodes[n].body.value, s))
  }

  ghost predicate EdgeTouches<T(!new)>(t: Tape<T>, bound: nat, e: Edge, s: nat)
    requires t.Acyclic() && bound <= |t.nodes| && (e.ToNode? ==> e.node < bound)
    decreases bound, 0
  {
    match e
    case ToNode(m) => Touches(t, m, s)
    case Leaf(l) => l == s
    case Detached => false
  }

  /**
   Lexical scoping of the recompute of `c`. Its fresh leaves are visible only inside its body:
   its inputs do not touch them, and exist before any node that uses them. Another checkpoint that
   can see a fresh leaf of `c` was created inside the body, so the inputs of `c` do not see its leaves.
   */
  ghost predicate Scoped<T(!new)>(t: Tape<T>, c: nat)
    requires t.Acyclic() && c < |t.nodes|
  {
    && t.nodes[c].Checkpoint? && t.NodeBelow(c) && t.nodes[c].body.Some?
    && var leaves, edges := t.nodes[c].leaves, t.nodes[c].edges;
       && (forall i, j :: 0 <= i < |edges| && 0 <= j < |leaves| ==> !EdgeTouches(t, c, edges[i], leaves[j]))
       && (forall n: nat, k, j |
             n < |t.nodes| && 0 <= k < |t.nodes[n].edges| && 0 <= j < |leaves| && t.nodes[n].edges[k] == Leaf(leaves[j])
             :: edges[j].ToNode? ==> edges[j].node < n)
       && (forall d: nat, i, j, k |
             d < |t.nodes| && d != c && t.nodes[d].Checkpoint? && t.nodes[d].body.Some?
             && 0 <= i < |edges| && 0 <= j < |leaves| && 0 <= k < |t.nodes[d].leaves|
             :: Sees(t, d, leaves[j]) ==> !EdgeTouches(t, c, edges[i], t.nodes[d].leaves[k]))
  }

  /** Checkpoint `d`, or the body it re-runs, touches slot `s`. */
  ghost predicate Sees<T(!new)>(t: Tape<T>, d: nat, s: nat)
    requires t.Acyclic() && d < |t.nodes|
  {
    assert t.NodeBelow(d);
    t.nodes[d].Checkpoint? && t.nodes[d].body.Some? && (Touches(t, d, s) || Touches(t, t.nodes[d].body.value, s))
  }

  lemma InlinedAcyclic<T(!new)>(t: Tape<T>, c: nat)
    requires t.Acyclic() && c < |t.nodes| && Scoped(t, c)
    ensures Inlined(t, c).Acyclic()
  {
    var u := Inlined(t, c);
    assert t.NodeBelow(c);
    forall n: nat | n < |u.nodes|
      ensures u.NodeBelow(n)
    {
      assert t.NodeBelow(n);
    }
  }

  // ---- A slot that is not touched receives nothing ----

  lemma {:induction false} UntouchedTerm<T(!new)>(t: Tape<T>, bound: nat, e: Edge, x: Option<T>, s: nat)
    requires t.Acyclic() && bound <= |t.nodes| && (e.ToNode? ==> e.node < bound) && !EdgeTouches(t, bound, e, s)
    ensures t.EdgeTerm(bound, e, x, s) == None
    decreases bound, 0, 0
  {
    if x.Some? && e.ToNode? {
      UntouchedSum(t, e.node, x.value, s);
    }
  }

  lemma {:induction false} UntouchedEdges<T(!new)>(t: Tape<T>, bound: nat, edges: seq<Edge>, xs: seq<Option<T>>, s: nat)
    requires t.Acyclic() && bound <= |t.nodes| && t.EdgesBelow(edges, bound)
    requires forall i :: 0 <= i < |edges| ==> !EdgeTouches(t, bound, edges[i], s)
    ensures t.EdgeSum(bound, edges, xs, s) == None
    decreases bound, 0, |edges| + 1
  {
    if edges != [] && xs != [] {
      UntouchedTerm(t, bound, edges[0], xs[0], s);
      UntouchedEdges(t, bound, edges[1..], xs[1..], s);
    }
  }

  lemma {:induction false} UntouchedSum<T(!new)>(t: Tape<T>, n: nat, g: T, s: nat)
    requires t.Acyclic() && n < |t.nodes| && !Touches(t, n, s)
    ensures t.PathSum(n, g, s) == None
    decreases n, 1, 0
  {
    assert t.NodeBelow(n);
    match t.nodes[n]
    case Op(edges, apply) => UntouchedEdges(t, n, edges, apply(g), s);
    case Checkpoint(edges, body, leaves, _) =>
      if body.Some? && s !in leaves {
        UntouchedSum(t, body.value, g, s);
        UntouchedEdges(t, n, edges, t.LeafGrads(body.value, g, leaves), s);
      }
  }

  // ---- Substitution ----

  /** What the gradients `ys` of the fresh leaves of `c` send to `s` through the inputs of `c`. */
  ghost function Through<T(!new)>(t: Tape<T>, c: nat, ys: seq<Option<T>>, s: nat): Option<T>
    requires t.Acyclic() && c < |t.nodes|
  {
    assert t.NodeBelow(c);
    t.EdgeSum(c, t.nodes[c].edges, ys, s)
  }

  lemma {:induction false} NothingThrough<T(!new)>(t: Tape<T>, bound: nat, edges: seq<Edge>, xs: seq<Option<T>>, s: nat)
    requires t.Acyclic() && bound <= |t.nodes| && t.EdgesBelow(edges, bound)
    requires forall i :: 0 <= i < |xs| ==> xs[i] == None
    ensures t.EdgeSum(bound, edges, xs, s) == None
    decreases |edges|
  {
    if edges != [] && xs != [] {
      NothingThrough(t, bound, edges[1..], xs[1..], s);
    }
  }

  /** A gradient on one leaf alone is sent through that leaf's input alone. */
  lemma {:induction false} SingleThrough<T(!new)>(t: Tape<T>, bound: nat, edges: seq<Edge>, xs: seq<Option<T>>, j: nat, s: nat)
    requires t.Acyclic() && bound <= |t.nodes| && t.EdgesBelow(edges, bound)
    requires |xs| == |edges| && j < |edges|
    requires forall i :: 0 <= i < |xs| && i != j ==> xs[i] == None
    ensures t.EdgeSum(bound, edges, xs, s) == t.EdgeTerm(bound, edges[j], xs[j], s)
    decreases |edges|
  {
    if j == 0 {
      NothingThrough(t, bound, edges[1..], xs[1..], s);
    } else {
      SingleThrough(t, bound, edges[1..], xs[1..], j - 1, s);
    }
  }

  // ---- The main induction ----

  ghost predicate Setting<T(!new)>(t: Tape<T>, c: nat, s: nat) {
    && t.WellFormed() && c < |t.nodes| && t.Lawful(|t.nodes|) && Scoped(t, c)
    && s !in t.nodes[c].leaves
  }

  function Target<T(!new)>(t: Tape<T>, c: nat, n: nat): nat
    requires c < |t.nodes| && t.nodes[c].Checkpoint? && t.nodes[c].body.Some?
  {
    if n == c then t.nodes[c].body.value else n
  }

  ghost function TermLeaves<T(!new)>(t: Tape<T>, c: nat, bound: nat, e: Edge, x: Option<T>): (r: seq<Option<T>>)
    requires t.Acyclic() && c < |t.nodes| && t.nodes[c].Checkpoint?
    requires bound <= |t.nodes| && (e.ToNode? ==> e.node < bound)
    ensures |r| == |t.nodes[c].leaves|
    ensures forall j :: 0 <= j < |r| ==> r[j] == t.EdgeTerm(bound, e, x, t.nodes[c].leaves[j])
  {
    seq(|t.nodes[c].leaves|, j requires 0 <= j < |t.nodes[c].leaves| => t.EdgeTerm(bound, e, x, t.nodes[c].leaves[j]))
  }

  ghost function SumLeaves<T(!new)>(t: Tape<T>, c: nat, bound: nat, edges: seq<Edge>, xs: seq<Option<T>>): (r: seq<Option<T>>)
    requires t.Acyclic() && c < |t.nodes| && t.nodes[c].Checkpoint?
    requires bound <= |t.nodes| && t.EdgesBelow(edges, bound)
    ensures |r| == |t.nodes[c].leaves|
    ensures forall j :: 0 <= j < |r| ==> r[j] == t.EdgeSum(bound, edges, xs, t.nodes[c].leaves[j])
  {
    seq(|t.nodes[c].leaves|, j requires 0 <= j < |t.nodes[c].leaves| => t.EdgeSum(bound, edges, xs, t.nodes[c].leaves[j]))
  }

  /** The inputs of `c` may be used by a node that uses its fresh leaves. */
  ghost predicate InputsBefore<T(!new)>(t: Tape<T>, c: nat, bound: nat, e: Edge)
    requires c < |t.nodes| && t.nodes[c].Checkpoint? && |t.nodes[c].leaves| == |t.nodes[c].edges|
  {
    forall j :: 0 <= j < |t.nodes[c].leaves| && e == Leaf(t.nodes[c].leaves[j]) && t.nodes[c].edges[j].ToNode? ==>
      t.nodes[c].edges[j].node < bound
  }

  lemma {:induction false} InlineEdge<T(!new)>(t: Tape<T>, c: nat, bound: nat, e: Edge, x: Option<T>, s: nat)
    requires Setting(t, c, s) && Inlined(t, c).Acyclic() && t.NodeBelow(c)
    requires bound <= |t.nodes| && (e.ToNode? ==> e.node < bound) && InputsBefore(t, c, bound, e)
    ensures var e' := Redirect(t, c, e);
            && (e'.ToNode? ==> e'.node < bound)
            && Inlined(t, c).EdgeTerm(bound, e', x, s)
               == t.Plus(t.EdgeTerm(bound, e, x, s), Through(t, c, TermLeaves(t, c, bound, e, x), s))
    decreases bound, 0, 0
  {
    var leaves, edges := t.nodes[c].leaves, t.nodes[c].edges;
    var ys := TermLeaves(t, c, bound, e, x);
    if x.None? || e.Detached? || (e.Leaf? && e.slot !in leaves) {
      NothingThrough(t, c, edges, ys, s);
    } else if e.Leaf? {
      var j := Position(leaves, e.slot);
      SingleThrough(t, c, edges, ys, j, s);
      if edges[j].ToNode? {
        var m := edges[j].node;
        InlineNode(t, c, m, x.value, s);
        NoLeaves(t, c, m, x.value, s, j);
      }
    } else {
      InlineNode(t, c, e.node, x.value, s);
      forall j: nat | j < |leaves|
        ensures ys[j] == t.LeafGrads(e.node, x.value, leaves)[j]
      {
        t.LeafGradAt(e.node, x.value, leaves, j);
      }
      assert ys == t.LeafGrads(e.node, x.value, leaves);
    }
  }

  /** An input of `c` sends nothing to the fresh leaves of `c`. */
  lemma NoLeaves<T(!new)>(t: Tape<T>, c: nat, m: nat, g: T, s: nat, i: nat)
    requires t.Acyclic() && c < |t.nodes| && Scoped(t, c)
    requires i < |t.nodes[c].edges| && t.nodes[c].edges[i] == ToNode(m)
    ensures m < c && Through(t, c, t.LeafGrads(m, g, t.nodes[c].leaves), s) == None
  {
    var leaves := t.nodes[c].leaves;
    forall j: nat | j < |leaves|
      ensures t.LeafGrads(m, g, leaves)[j] == None
    {
      assert !EdgeTouches(t, c, t.nodes[c].edges[i], leaves[j]);
      UntouchedSum(t, m, g, leaves[j]);
      t.LeafGradAt(m, g, leaves, j);
    }
    NothingThrough(t, c, t.nodes[c].edges, t.LeafGrads(m, g, leaves), s);
  }

  lemma {:induction false} InlineEdges<T(!new)>(t: Tape<T>, c: nat, bound: nat, edges: seq<Edge>, xs: seq<Option<T>>, s: nat)
    requires Setting(t, c, s) && Inlined(t, c).Acyclic() && t.NodeBelow(c)
    requires bound <= |t.nodes| && t.EdgesBelow(edges, bound) && |xs| == |edges|
    requires forall k :: 0 <= k < |edges| ==> InputsBefore(t, c, bound, edges[k])
    ensures var edges' := RedirectAll(t, c, edges);
            && Inlined(t, c).EdgesBelow(edges', bound)
            && Inlined(t, c).EdgeSum(bound, edges', xs, s)
               == t.Plus(t.EdgeSum(bound, edges, xs, s), Through(t, c, SumLeaves(t, c, bound, edges, xs), s))
    decreases bound, 0, |edges| + 1
  {
    var u := Inlined(t, c);
    var all := SumLeaves(t, c, bound, edges, xs);
    if edges == [] {
      NothingThrough(t, c, t.nodes[c].edges, all, s);
    } else {
      var first, rest := TermLeaves(t, c, bound, edges[0], xs[0]), SumLeaves(t, c, bound, edges[1..], xs[1..]);
      InlineEdge(t, c, bound, edges[0], xs[0], s);
      InlineEdges(t, c, bound, edges[1..], xs[1..], s);
      assert all == t.Pointwise(first, rest);
      t.EdgeSumAdditive(c, t.nodes[c].edges, first, rest, s);
      t.PlusExchange(t.EdgeTerm(bound, edges[0], xs[0], s), Through(t, c, first, s),
                     t.EdgeSum(bound, edges[1..], xs[1..], s), Through(t, c, rest, s));
      assert RedirectAll(t, c, edges)[1..] == RedirectAll(t, c, edges[1..]);
    }
  }

  /**
   Substitution: in the inlined tape a node sends to `s` what it did before, and whatever it
   sent to a fresh leaf now continues through the corresponding input of the checkpoint.
   */
  lemma {:induction false} InlineNode<T(!new)>(t: Tape<T>, c: nat, n: nat, g: T, s: nat)
    requires Setting(t, c, s) && Inlined(t, c).Acyclic() && t.NodeBelow(c) && n < |t.nodes|
    ensures Inlined(t, c).PathSum(Target(t, c, n), g, s)
         == t.Plus(t.PathSum(n, g, s), Through(t, c, t.LeafGrads(n, g, t.nodes[c].leaves), s))
    decreases n, 1, 0
  {
    var leaves := t.nodes[c].leaves;
    assert t.NodeBelow(n) && t.LawfulNode(n);
    forall k | 0 <= k < |t.nodes[n].edges| ensures InputsBefore(t, c, n, t.nodes[n].edges[k]) {
    }
    if n == c {
      InlineNode(t, c, t.nodes[c].body.value, g, s);
      OwnLeaves(t, c, g, s);
    } else if t.nodes[n].Op? {
      var edges, xs := t.nodes[n].edges, t.nodes[n].apply(g);
      InlineEdges(t, c, n, edges, xs, s);
      forall j: nat | j < |leaves|
        ensures t.LeafGrads(n, g, leaves)[j] == SumLeaves(t, c, n, edges, xs)[j]
      {
        t.LeafGradAt(n, g, leaves, j);
      }
      assert t.LeafGrads(n, g, leaves) == SumLeaves(t, c, n, edges, xs);
    } else {
      InlineCheckpoint(t, c, n, g, s);
    }
  }

  lemma OwnLeaves<T(!new)>(t: Tape<T>, c: nat, g: T, s: nat)
    requires t.Acyclic() && c < |t.nodes| && t.nodes[c].Checkpoint?
    ensures Through(t, c, t.LeafGrads(c, g, t.nodes[c].leaves), s) == None
  {
    var leaves := t.nodes[c].leaves;
    assert t.NodeBelow(c);
    forall j: nat | j < |leaves|
      ensures t.LeafGrads(c, g, leaves)[j] == None
    {
      t.LeafGradAt(c, g, leaves, j);
    }
    NothingThrough(t, c, t.nodes[c].edges, t.LeafGrads(c, g, leaves), s);
  }

  /** Whatever `n` sends to fresh leaves of `c` does not come back to a fresh leaf of another checkpoint that sees them. */
  lemma NoReturn<T(!new)>(t: Tape<T>, c: nat, d: nat, n: nat, g: T, k: nat)
    requires t.Acyclic() && c < |t.nodes| && Scoped(t, c) && t.NodeBelow(c)
    requires d < |t.nodes| && d != c && t.nodes[d].Checkpoint? && t.nodes[d].body.Some? && k < |t.nodes[d].leaves|
    requires n == d || (t.NodeBelow(d) && n == t.nodes[d].body.value)
    ensures Through(t, c, t.LeafGrads(n, g, t.nodes[c].leaves), t.nodes[d].leaves[k]) == None
  {
    var leaves, edges := t.nodes[c].leaves, t.nodes[c].edges;
    assert t.NodeBelow(d);
    if j: nat :| j < |leaves| && Touches(t, n, leaves[j]) {
      assert Sees(t, d, leaves[j]);
      UntouchedEdges(t, c, edges, t.LeafGrads(n, g, leaves), t.nodes[d].leaves[k]);
    } else {
      forall j: nat | j < |leaves|
        ensures t.LeafGrads(n, g, leaves)[j] == None
      {
        UntouchedSum(t, n, g, leaves[j]);
        t.LeafGradAt(n, g, leaves, j);
      }
      NothingThrough(t, c, edges, t.LeafGrads(n, g, leaves), t.nodes[d].leaves[k]);
    }
  }

  /** Inlining `c` does not change what the recompute of another checkpoint returns. */
  lemma {:induction false} InlineLeafGrads<T(!new)>(t: Tape<T>, c: nat, d: nat, g: T)
    requires t.WellFormed() && c < |t.nodes| && t.Lawful(|t.nodes|) && Scoped(t, c)
    requires Inlined(t, c).Acyclic() && t.NodeBelow(c)
    requires d < |t.nodes| && d != c && t.nodes[d].Checkpoint? && t.nodes[d].body.Some? && t.NodeBelow(d)
    ensures Inlined(t, c).LeafGrads(Target(t, c, t.nodes[d].body.value), g, t.nodes[d].leaves)
         == t.LeafGrads(t.nodes[d].body.value, g, t.nodes[d].leaves)
    decreases d, 0, 0
  {
    var b, ls := t.nodes[d].body.value, t.nodes[d].leaves;
    forall k: nat | k < |ls|
      ensures Inlined(t, c).LeafGrads(Target(t, c, b), g, ls)[k] == t.LeafGrads(b, g, ls)[k]
    {
      assert t.Owns(d, ls[k]) && !t.Owns(c, ls[k]);
      InlineNode(t, c, b, g, ls[k]);
      NoReturn(t, c, d, b, g, k);
      t.LeafGradAt(b, g, ls, k);
      Inlined(t, c).LeafGradAt(Target(t, c, b), g, ls, k);
    }
  }

  lemma {:induction false} InlineCheckpoint<T(!new)>(t: Tape<T>, c: nat, d: nat, g: T, s: nat)
    requires Setting(t, c, s) && Inlined(t, c).Acyclic() && t.NodeBelow(c)
    requires d < |t.nodes| && d != c && t.nodes[d].Checkpoint? && t.NodeBelow(d) && t.LawfulNode(d)
    requires forall k :: 0 <= k < |t.nodes[d].edges| ==> InputsBefore(t, c, d, t.nodes[d].edges[k])
    ensures Inlined(t, c).PathSum(d, g, s)
         == t.Plus(t.PathSum(d, g, s), Through(t, c, t.LeafGrads(d, g, t.nodes[c].leaves), s))
    decreases d, 0, |t.nodes[d].edges| + 2
  {
    var u := Inlined(t, c);
    var leaves := t.nodes[c].leaves;
    var b, ls, edges := t.nodes[d].body.value, t.nodes[d].leaves, t.nodes[d].edges;
    var xs := t.LeafGrads(b, g, ls);
    if s in ls {
      NoReturn(t, c, d, d, g, Position(ls, s));
    } else {
      InlineNode(t, c, b, g, s);
      InlineLeafGrads(t, c, d, g);
      InlineEdges(t, c, d, edges, xs, s);
      var viaBody, viaEdges := t.LeafGrads(b, g, leaves), SumLeaves(t, c, d, edges, xs);
      forall j: nat | j < |leaves|
        ensures t.LeafGrads(d, g, leaves)[j] == t.Plus(viaBody[j], viaEdges[j])
      {
        assert t.Owns(c, leaves[j]) && !t.Owns(d, leaves[j]);
        t.LeafGradAt(b, g, leaves, j);
        t.LeafGradAt(d, g, leaves, j);
      }
      assert t.LeafGrads(d, g, leaves) == t.Pointwise(viaBody, viaEdges);
      t.EdgeSumAdditive(c, t.nodes[c].edges, viaBody, viaEdges, s);
      t.PlusExchange(t.PathSum(b, g, s), Through(t, c, viaBody, s), t.EdgeSum(d, edges, xs, s), Through(t, c, viaEdges, s));
    }
  }
}
