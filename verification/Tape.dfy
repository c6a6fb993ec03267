/**
 The autograd graph. A tape lists its nodes in creation order, so a node is
 identified by its index (the source uses the address of its `Arc`), and an
 edge can only point to a node that was created earlier.

 A gradient is a value of an arbitrary type `T` with an associative and
 commutative `add`. The source has no zero gradient: a missing gradient is
 `None`, so `Option<T>` with `Plus` is the commutative monoid in which
 gradients are accumulated.
 */
module Tapes {
  import opened Options
  import opened Sequences

  datatype Edge = ToNode(node: nat) | Leaf(slot: nat) | Detached

  /**
   A backward node. `Op` has a pure `apply`. A checkpoint's `apply` re-runs its
   function: `body` is the node that produced the recomputed output (`None` when
   the function returns a variable without a backward node) and `leaves` are the
   grad slots of the fresh leaf variables it is re-run on, one per input edge.
   `strict` marks the single-input form, which requires its leaf to get a gradient.
   */
  datatype Node<!T> =
    | Op(edges: seq<Edge>, apply: T -> seq<Option<T>>)
    | Checkpoint(edges: seq<Edge>, body: Option<nat>, leaves: seq<nat>, strict: bool)

  datatype Tape<!T(!new)> = Tape(add: (T, T) -> T, nodes: seq<Node<T>>) {

    // ---- Well-formedness ----

    ghost predicate EdgesBelow(edges: seq<Edge>, bound: nat) {
      forall i :: 0 <= i < |edges| && edges[i].ToNode? ==> edges[i].node < bound
    }

    ghost predicate NodeBelow(n: nat)
      requires n < |nodes|
    {
      && EdgesBelow(nodes[n].edges, n)
      && (nodes[n].Checkpoint? ==>
            && |nodes[n].leaves| == |nodes[n].edges|
            && (nodes[n].body.Some? ==> nodes[n].body.value < n))
    }

    ghost predicate Acyclic() {
      forall n: nat :: n < |nodes| ==> NodeBelow(n)
    }

    /** Slot `s` is a fresh leaf of checkpoint `c`. */
    ghost predicate Owns(c: nat, s: nat) {
      c < |nodes| && nodes[c].Checkpoint? && s in nodes[c].leaves
    }

    /** Each fresh leaf belongs to one recompute, and one input position of it. */
    ghost predicate FreshLeaves() {
      && (forall c, d, s :: Owns(c, s) && Owns(d, s) ==> c == d)
      && (forall c: nat :: c < |nodes| && nodes[c].Checkpoint? ==> Distinct(nodes[c].leaves))
    }

    ghost predicate WellFormed() {
      Acyclic() && FreshLeaves()
    }

    /** Slot `s` outlives the run: no checkpoint up to `n` uses it as a fresh leaf. */
    ghost predicate Lasting(n: nat, s: nat) {
      forall c: nat {:trigger Owns(c, s)} :: c <= n ==> !Owns(c, s)
    }

    // ---- The gradient monoid ----

    ghost predicate AssociativeAt(a: T, b: T, c: T) {
      add(add(a, b), c) == add(a, add(b, c))
    }

    ghost predicate CommutativeAt(a: T, b: T) {
      add(a, b) == add(b, a)
    }

    ghost predicate LawfulAdd() {
      && (forall a, b, c {:trigger AssociativeAt(a, b, c)} :: AssociativeAt(a, b, c))
      && (forall a, b {:trigger CommutativeAt(a, b)} :: CommutativeAt(a, b))
    }

    function Plus(x: Option<T>, y: Option<T>): Option<T> {
      match (x, y)
      case (None, _) => y
      case (_, None) => x
      case (Some(a), Some(b)) => Some(add(a, b))
    }

    lemma PlusAssociates(x: Option<T>, y: Option<T>, z: Option<T>)
      requires LawfulAdd()
      ensures Plus(Plus(x, y), z) == Plus(x, Plus(y, z))
    {
      if x.Some? && y.Some? && z.Some? {
        assert AssociativeAt(x.value, y.value, z.value);
      }
    }

    lemma PlusCommutes(x: Option<T>, y: Option<T>)
      requires LawfulAdd()
      ensures Plus(x, y) == Plus(y, x)
    {
      if x.Some? && y.Some? {
        assert CommutativeAt(x.value, y.value);
      }
    }

    lemma PlusExchange(a: Option<T>, b: Option<T>, c: Option<T>, d: Option<T>)
      requires LawfulAdd()
      ensures Plus(Plus(a, b), Plus(c, d)) == Plus(Plus(a, c), Plus(b, d))
    {
      PlusAssociates(a, b, Plus(c, d));
      PlusAssociates(b, c, d);
      PlusCommutes(b, c);
      PlusAssociates(c, b, d);
      PlusAssociates(a, c, Plus(b, d));
    }

    // ---- The gradient that reaches a slot ----

    /**
     The total gradient that slot `s` receives when node `n` is applied to `g`:
     the sum, over the input edges, of what each edge's gradient contributes.
     A checkpoint contributes what its body sends to captured variables, plus what
     the gradients of its fresh leaves send through its own input edges.
     */
    ghost function PathSum(n: nat, g: T, s: nat): Option<T>
      requires Acyclic() && n < |nodes|
      decreases n, 1, 0
    {
      assert NodeBelow(n);
      match nodes[n]
      case Op(edges, apply) => EdgeSum(n, edges, apply(g), s)
      case Checkpoint(edges, body, leaves, _) =>
        if body.None? || s in leaves then None
        else Plus(PathSum(body.value, g, s), EdgeSum(n, edges, LeafGrads(body.value, g, leaves), s))
    }

    ghost function LeafGrads(n: nat, g: T, leaves: seq<nat>): (r: seq<Option<T>>)
      requires Acyclic() && n < |nodes|
      ensures |r| == |leaves|
      decreases n, 2, |leaves|
    {
      if leaves == [] then [] else LeafGrads(n, g, leaves[..|leaves| - 1]) + [PathSum(n, g, leaves[|leaves| - 1])]
    }

    ghost function EdgeTerm(bound: nat, e: Edge, x: Option<T>, s: nat): Option<T>
      requires Acyclic() && bound <= |nodes|
      requires e.ToNode? ==> e.node < bound
      decreases bound, 0, 0
    {
      if x.None? then None
      else match e
        case ToNode(m) => PathSum(m, x.value, s)
        case Leaf(l) => if l == s then x else None
        case Detached => None
    }

    /** Pairs edges with gradients as `zip` does, up to the shorter length. */
    ghost function EdgeSum(bound: nat, edges: seq<Edge>, xs: seq<Option<T>>, s: nat): Option<T>
      requires Acyclic() && bound <= |nodes|
      requires EdgesBelow(edges, bound)
      decreases bound, 0, |edges| + 1
    {
      if edges == [] || xs == [] then None
      else Plus(EdgeTerm(bound, edges[0], xs[0], s), EdgeSum(bound, edges[1..], xs[1..], s))
    }

    // ---- Lawful nodes ----

    /** `apply` distributes over `add`, slot by slot, and returns one gradient per edge. */
    ghost predicate Additive(n: nat)
      requires n < |nodes| && nodes[n].Op?
    {
      && (forall g: T :: |nodes[n].apply(g)| == |nodes[n].edges|)
      && (forall g: T, h: T {:trigger AdditiveAt(n, g, h)} :: AdditiveAt(n, g, h))
    }

    ghost predicate AdditiveAt(n: nat, g: T, h: T)
      requires n < |nodes| && nodes[n].Op?
    {
      var f := nodes[n].apply;
      && |f(add(g, h))| == |f(g)| == |f(h)|
      && f(add(g, h)) == Pointwise(f(g), f(h))
    }

    ghost function Pointwise(xs: seq<Option<T>>, ys: seq<Option<T>>): (r: seq<Option<T>>)
      requires |xs| == |ys|
      ensures |r| == |xs|
      ensures forall i :: 0 <= i < |xs| ==> r[i] == Plus(xs[i], ys[i])
    {
      if xs == [] then [] else [Plus(xs[0], ys[0])] + Pointwise(xs[1..], ys[1..])
    }

    /** A checkpoint's function returns a tracked variable; the single-input form depends on its input. */
    ghost predicate Tracked(n: nat)
      requires Acyclic() && n < |nodes| && nodes[n].Checkpoint?
    {
      && nodes[n].body.Some?
      && (nodes[n].strict ==>
            NodeBelow(n) && nodes[n].leaves != [] &&
            forall g: T :: PathSum(nodes[n].body.value, g, nodes[n].leaves[0]).Some?)
    }

    ghost predicate LawfulNode(n: nat)
      requires Acyclic() && n < |nodes|
    {
      if nodes[n].Op? then Additive(n) else Tracked(n)
    }

    /** Every node up to `n` keeps the contract of the `Node` trait. */
    ghost predicate Lawful(n: nat)
      requires Acyclic()
    {
      LawfulAdd() && forall i: nat :: i <= n && i < |nodes| ==> LawfulNode(i)
    }

    lemma LeafGradAt(n: nat, g: T, leaves: seq<nat>, i: nat)
      requires Acyclic() && n < |nodes| && i < |leaves|
      ensures LeafGrads(n, g, leaves)[i] == PathSum(n, g, leaves[i])
    {
      if i < |leaves| - 1 {
        LeafGradAt(n, g, leaves[..|leaves| - 1], i);
      }
    }

    // ---- Additivity of the whole backward pass ----

    lemma {:induction false} EdgeTermAdditive(bound: nat, e: Edge, x: Option<T>, y: Option<T>, s: nat)
      requires Acyclic() && bound <= |nodes| && (bound > 0 ==> Lawful(bound - 1)) && LawfulAdd()
      requires e.ToNode? ==> e.node < bound
      ensures EdgeTerm(bound, e, Plus(x, y), s) == Plus(EdgeTerm(bound, e, x, s), EdgeTerm(bound, e, y, s))
      decreases bound, 0, 0
    {
      if x.Some? && y.Some? && e.ToNode? {
        PathSumAdditive(e.node, x.value, y.value, s);
      }
    }

    lemma {:induction false} EdgeSumAdditive(bound: nat, edges: seq<Edge>, xs: seq<Option<T>>, ys: seq<Option<T>>, s: nat)
      requires Acyclic() && bound <= |nodes| && (bound > 0 ==> Lawful(bound - 1)) && LawfulAdd()
      requires EdgesBelow(edges, bound) && |xs| == |ys|
      ensures EdgeSum(bound, edges, Pointwise(xs, ys), s) == Plus(EdgeSum(bound, edges, xs, s), EdgeSum(bound, edges, ys, s))
      decreases bound, 0, |edges| + 1
    {
      if edges != [] && xs != [] {
        var zs := Pointwise(xs, ys);
        assert zs[1..] == Pointwise(xs[1..], ys[1..]);
        EdgeTermAdditive(bound, edges[0], xs[0], ys[0], s);
        EdgeSumAdditive(bound, edges[1..], xs[1..], ys[1..], s);
        PlusExchange(EdgeTerm(bound, edges[0], xs[0], s), EdgeTerm(bound, edges[0], ys[0], s),
                     EdgeSum(bound, edges[1..], xs[1..], s), EdgeSum(bound, edges[1..], ys[1..], s));
      }
    }

    lemma {:induction false} LeafGradsAdditive(n: nat, g: T, h: T, leaves: seq<nat>)
      requires Acyclic() && n < |nodes| && Lawful(n)
      ensures LeafGrads(n, add(g, h), leaves) == Pointwise(LeafGrads(n, g, leaves), LeafGrads(n, h, leaves))
      decreases n, 2, |leaves|
    {
      forall i: nat | i < |leaves|
        ensures LeafGrads(n, add(g, h), leaves)[i] == Plus(LeafGrads(n, g, leaves)[i], LeafGrads(n, h, leaves)[i])
      {
        LeafGradAt(n, add(g, h), leaves, i);
        LeafGradAt(n, g, leaves, i);
        LeafGradAt(n, h, leaves, i);
        PathSumAdditive(n, g, h, leaves[i]);
      }
    }

    /** Applying the backward pass to a sum of seeds gives the sum of the two passes. */
    lemma {:induction false} PathSumAdditive(n: nat, g: T, h: T, s: nat)
      requires Acyclic() && n < |nodes| && Lawful(n)
      ensures PathSum(n, add(g, h), s) == Plus(PathSum(n, g, s), PathSum(n, h, s))
      decreases n, 1, 0
    {
      assert NodeBelow(n) && LawfulNode(n);
      match nodes[n]
      case Op(edges, apply) =>
        assert AdditiveAt(n, g, h);
        EdgeSumAdditive(n, edges, apply(g), apply(h), s);
      case Checkpoint(edges, body, leaves, _) =>
        var b := body.value;
        if s !in leaves {
          PathSumAdditive(b, g, h, s);
          LeafGradsAdditive(b, g, h, leaves);
          EdgeSumAdditive(n, edges, LeafGrads(b, g, leaves), LeafGrads(b, h, leaves), s);
          PlusExchange(PathSum(b, g, s), PathSum(b, h, s),
                       EdgeSum(n, edges, LeafGrads(b, g, leaves), s), EdgeSum(n, edges, LeafGrads(b, h, leaves), s));
        }
    }
  }
}
