/**
 What the backward pass means: a sum over explicit root-to-leaf paths. A path lists the input
 positions taken at each operation, so a shared node or a repeated input is counted once for
 every way of reaching it. Through a checkpoint a path runs inside the recomputed function,
 either to a captured variable or to a fresh leaf, and from there on along the input that the
 leaf stands for.
 */
module Paths {
  import opened Options
  import opened Sequences
  import opened Tapes

  datatype Path =
    | End
    | Step(input: nat, rest: Path)
    | Inside(inside: Path)
    | Through(inside: Path, input: nat, rest: Path)

  /** `p` leads from node `n` along its edges to leaf slot `s`. */
  ghost predicate IsPath<T(!new)>(t: Tape<T>, n: nat, p: Path, s: nat)
    requires t.Acyclic() && n < |t.nodes|
    decreases p, 0
  {
    assert t.NodeBelow(n);
    match t.nodes[n]
    case Op(edges, _) => p.Step? && p.input < |edges| && IsEdgePath(t, n, edges[p.input], p.rest, s)
    case Checkpoint(edges, body, leaves, _) =>
      && body.Some? && s !in leaves
      && match p
         case Inside(q) => IsPath(t, body.value, q, s)
         case Through(q, i, rest) => i < |edges| && IsPath(t, body.value, q, leaves[i]) && IsEdgePath(t, n, edges[i], rest, s)
         case _ => false
  }

  ghost predicate IsEdgePath<T(!new)>(t: Tape<T>, bound: nat, e: Edge, p: Path, s: nat)
    requires t.Acyclic() && bound <= |t.nodes| && (e.ToNode? ==> e.node < bound)
    decreases p, 1
  {
    match e
    case ToNode(m) => IsPath(t, m, p, s)
    case Leaf(l) => l == s && p.End?
    case Detached => false
  }

  /** The composition of the edge maps along one path. */
  ghost function Along<T(!new)>(t: Tape<T>, n: nat, p: Path, x: Option<T>): Option<T>
    requires t.Acyclic() && n < |t.nodes|
    decreases p, 0
  {
    assert t.NodeBelow(n);
    if x.None? then None
    else match t.nodes[n]
      case Op(edges, apply) =>
        if p.Step? && p.input < |edges| && p.input < |apply(x.value)|
        then AlongEdge(t, n, edges[p.input], p.rest, apply(x.value)[p.input])
        else None
      case Checkpoint(edges, body, _, _) =>
        if body.None? then None
        else match p
          case Inside(q) => Along(t, body.value, q, x)
          case Through(q, i, rest) => if i < |edges| then AlongEdge(t, n, edges[i], rest, Along(t, body.value, q, x)) else None
          case _ => None
  }

  ghost function AlongEdge<T(!new)>(t: Tape<T>, bound: nat, e: Edge, p: Path, x: Option<T>): Option<T>
    requires t.Acyclic() && bound <= |t.nodes| && (e.ToNode? ==> e.node < bound)
    decreases p, 1
  {
    match e
    case ToNode(m) => Along(t, m, p, x)
    case Leaf(_) => x
    case Detached => None
  }

  // ---- Enumeration ----

  function Steps(i: nat, ps: seq<Path>): (r: seq<Path>)
    ensures |r| == |ps| && forall k :: 0 <= k < |ps| ==> r[k] == Step(i, ps[k])
  {
    seq(|ps|, k requires 0 <= k < |ps| => Step(i, ps[k]))
  }

  function Insides(ps: seq<Path>): (r: seq<Path>)
    ensures |r| == |ps| && forall k :: 0 <= k < |ps| ==> r[k] == Inside(ps[k])
  {
    seq(|ps|, k requires 0 <= k < |ps| => Inside(ps[k]))
  }

  function Throughs(q: Path, i: nat, ps: seq<Path>): (r: seq<Path>)
    ensures |r| == |ps| && forall k :: 0 <= k < |ps| ==> r[k] == Through(q, i, ps[k])
  {
    seq(|ps|, k requires 0 <= k < |ps| => Through(q, i, ps[k]))
  }

  /** Every way through the recompute, followed by every way on from input `i`. */
  function Products(qs: seq<Path>, i: nat, ps: seq<Path>): seq<Path> {
    if qs == [] then [] else Products(qs[..|qs| - 1], i, ps) + Throughs(qs[|qs| - 1], i, ps)
  }

  /** All paths from `n` to `s`. */
  ghost function AllPaths<T(!new)>(t: Tape<T>, n: nat, s: nat): seq<Path>
    requires t.Acyclic() && n < |t.nodes|
    decreases n, 2, 0
  {
    assert t.NodeBelow(n);
    match t.nodes[n]
    case Op(edges, _) => PathsFrom(t, n, |edges|, s)
    case Checkpoint(edges, body, leaves, _) =>
      if body.None? || s in leaves then []
      else Insides(AllPaths(t, body.value, s)) + PathsFrom(t, n, |edges|, s)
  }

  /** The paths that leave through one of the first `k` inputs. */
  ghost function PathsFrom<T(!new)>(t: Tape<T>, n: nat, k: nat, s: nat): seq<Path>
    requires t.Acyclic() && n < |t.nodes| && k <= |t.nodes[n].edges|
    decreases n, 1, k
  {
    if k == 0 then [] else PathsFrom(t, n, k - 1, s) + PathsVia(t, n, k - 1, s)
  }

  ghost function PathsVia<T(!new)>(t: Tape<T>, n: nat, i: nat, s: nat): seq<Path>
    requires t.Acyclic() && n < |t.nodes| && i < |t.nodes[n].edges|
    decreases n, 1, 0
  {
    assert t.NodeBelow(n);
    match t.nodes[n]
    case Op(edges, _) => Steps(i, EdgePaths(t, n, edges[i], s))
    case Checkpoint(edges, body, leaves, _) =>
      if body.None? then [] else Products(AllPaths(t, body.value, leaves[i]), i, EdgePaths(t, n, edges[i], s))
  }

  ghost function EdgePaths<T(!new)>(t: Tape<T>, bound: nat, e: Edge, s: nat): seq<Path>
    requires t.Acyclic() && bound <= |t.nodes| && (e.ToNode? ==> e.node < bound)
    decreases bound, 0, 0
  {
    match e
    case ToNode(m) => AllPaths(t, m, s)
    case Leaf(l) => if l == s then [End] else []
    case Detached => []
  }

  // ---- The enumeration is exact ----

  lemma StepsElements(i: nat, ps: seq<Path>, p: Path)
    ensures p in Steps(i, ps) <==> p.Step? && p.input == i && p.rest in ps
  {
    if p.Step? && p.input == i && p.rest in ps {
      var k :| 0 <= k < |ps| && ps[k] == p.rest;
      assert Steps(i, ps)[k] == p;
    }
  }

  lemma InsidesElements(ps: seq<Path>, p: Path)
    ensures p in Insides(ps) <==> p.Inside? && p.inside in ps
  {
    if p.Inside? && p.inside in ps {
      var k :| 0 <= k < |ps| && ps[k] == p.inside;
      assert Insides(ps)[k] == p;
    }
  }

  lemma ThroughsElements(q: Path, i: nat, ps: seq<Path>, p: Path)
    ensures p in Throughs(q, i, ps) <==> p.Through? && p.inside == q && p.input == i && p.rest in ps
  {
    if p.Through? && p.inside == q && p.input == i && p.rest in ps {
      var k :| 0 <= k < |ps| && ps[k] == p.rest;
      assert Throughs(q, i, ps)[k] == p;
    }
  }

  lemma {:induction false} ProductsElements(qs: seq<Path>, i: nat, ps: seq<Path>, p: Path)
    ensures p in Products(qs, i, ps) <==> p.Through? && p.inside in qs && p.input == i && p.rest in ps
  {
    if qs != [] {
      var init, last := qs[..|qs| - 1], qs[|qs| - 1];
      ProductsElements(init, i, ps, p);
      ThroughsElements(last, i, ps, p);
      assert p.Through? ==> (p.inside in qs <==> p.inside in init || p.inside == last);
    }
  }

  /** `p` is a path from `n` whose first node is left through input `i`. */
  ghost predicate IsPathVia<T(!new)>(t: Tape<T>, n: nat, i: nat, p: Path, s: nat)
    requires t.Acyclic() && n < |t.nodes| && i < |t.nodes[n].edges|
  {
    assert t.NodeBelow(n);
    match t.nodes[n]
    case Op(edges, _) => p.Step? && p.input == i && IsEdgePath(t, n, edges[i], p.rest, s)
    case Checkpoint(edges, body, leaves, _) =>
      body.Some? && p.Through? && p.input == i && IsPath(t, body.value, p.inside, leaves[i]) && IsEdgePath(t, n, edges[i], p.rest, s)
  }

  lemma {:induction false} EdgePathsExact<T(!new)>(t: Tape<T>, bound: nat, e: Edge, s: nat, p: Path)
    requires t.Acyclic() && bound <= |t.nodes| && (e.ToNode? ==> e.node < bound)
    ensures p in EdgePaths(t, bound, e, s) <==> IsEdgePath(t, bound, e, p, s)
    decreases bound, 0, 0
  {
    if e.ToNode? {
      AllPathsExact(t, e.node, s, p);
    }
  }

  lemma {:induction false} PathsViaExact<T(!new)>(t: Tape<T>, n: nat, i: nat, s: nat, p: Path)
    requires t.Acyclic() && n < |t.nodes| && i < |t.nodes[n].edges|
    ensures p in PathsVia(t, n, i, s) <==> IsPathVia(t, n, i, p, s)
    decreases n, 1, 0
  {
    assert t.NodeBelow(n);
    var ps := EdgePaths(t, n, t.nodes[n].edges[i], s);
    match t.nodes[n]
    case Op(edges, _) =>
      StepsElements(i, ps, p);
      if p.Step? {
        EdgePathsExact(t, n, edges[i], s, p.rest);
      }
    case Checkpoint(edges, body, leaves, _) =>
      if body.Some? {
        ProductsElements(AllPaths(t, body.value, leaves[i]), i, ps, p);
        if p.Through? {
          AllPathsExact(t, body.value, leaves[i], p.inside);
          EdgePathsExact(t, n, edges[i], s, p.rest);
        }
      }
  }

  lemma {:induction false} PathsFromExact<T(!new)>(t: Tape<T>, n: nat, k: nat, s: nat, p: Path)
    requires t.Acyclic() && n < |t.nodes| && k <= |t.nodes[n].edges|
    ensures p in PathsFrom(t, n, k, s) <==> (p.Step? || p.Through?) && p.input < k && IsPathVia(t, n, p.input, p, s)
    decreases n, 1, k + 1
  {
    if k > 0 {
      PathsFromExact(t, n, k - 1, s, p);
      PathsViaExact(t, n, k - 1, s, p);
    }
  }

  /** Every path is listed, and nothing else. */
  lemma {:induction false} AllPathsExact<T(!new)>(t: Tape<T>, n: nat, s: nat, p: Path)
    requires t.Acyclic() && n < |t.nodes|
    ensures p in AllPaths(t, n, s) <==> IsPath(t, n, p, s)
    decreases n, 2, 0
  {
    assert t.NodeBelow(n);
    PathsFromExact(t, n, |t.nodes[n].edges|, s, p);
    if t.nodes[n].Checkpoint? && t.nodes[n].body.Some? {
      var body := t.nodes[n].body.value;
      InsidesElements(AllPaths(t, body, s), p);
      if p.Inside? {
        AllPathsExact(t, body, s, p.inside);
      }
    }
  }

  lemma DistinctAppend(a: seq<Path>, b: seq<Path>)
    requires Distinct(a) && Distinct(b) && forall p :: !(p in a && p in b)
    ensures Distinct(a + b)
  {
    var c := a + b;
    forall i, j | 0 <= i < j < |c| ensures c[i] != c[j] {
      if i < |a| <= j {
        assert c[i] in a && c[j] in b;
      }
    }
  }

  lemma {:induction false} ProductsDistinct(qs: seq<Path>, i: nat, ps: seq<Path>)
    requires Distinct(qs) && Distinct(ps)
    ensures Distinct(Products(qs, i, ps))
  {
    if qs != [] {
      var init, last := qs[..|qs| - 1], qs[|qs| - 1];
      ProductsDistinct(init, i, ps);
      forall p ensures !(p in Products(init, i, ps) && p in Throughs(last, i, ps)) {
        ProductsElements(init, i, ps, p);
        ThroughsElements(last, i, ps, p);
      }
      DistinctAppend(Products(init, i, ps), Throughs(last, i, ps));
    }
  }

  lemma {:induction false} PathsViaDistinct<T(!new)>(t: Tape<T>, n: nat, i: nat, s: nat)
    requires t.Acyclic() && n < |t.nodes| && i < |t.nodes[n].edges|
    ensures Distinct(PathsVia(t, n, i, s))
    decreases n, 1, 0
  {
    assert t.NodeBelow(n);
    var e := t.nodes[n].edges[i];
    if e.ToNode? {
      AllPathsDistinct(t, e.node, s);
    }
    if t.nodes[n].Checkpoint? && t.nodes[n].body.Some? {
      AllPathsDistinct(t, t.nodes[n].body.value, t.nodes[n].leaves[i]);
      ProductsDistinct(AllPaths(t, t.nodes[n].body.value, t.nodes[n].leaves[i]), i, EdgePaths(t, n, e, s));
    }
  }

  lemma {:induction false} PathsFromDistinct<T(!new)>(t: Tape<T>, n: nat, k: nat, s: nat)
    requires t.Acyclic() && n < |t.nodes| && k <= |t.nodes[n].edges|
    ensures Distinct(PathsFrom(t, n, k, s))
    decreases n, 1, k + 1
  {
    if k > 0 {
      PathsFromDistinct(t, n, k - 1, s);
      PathsViaDistinct(t, n, k - 1, s);
      var before, via := PathsFrom(t, n, k - 1, s), PathsVia(t, n, k - 1, s);
      forall p ensures !(p in before && p in via) {
        PathsFromExact(t, n, k - 1, s, p);
        PathsViaExact(t, n, k - 1, s, p);
      }
      DistinctAppend(before, via);
    }
  }

  /** No path is listed twice. */
  lemma {:induction false} AllPathsDistinct<T(!new)>(t: Tape<T>, n: nat, s: nat)
    requires t.Acyclic() && n < |t.nodes|
    ensures Distinct(AllPaths(t, n, s))
    decreases n, 2, 0
  {
    assert t.NodeBelow(n);
    var from := PathsFrom(t, n, |t.nodes[n].edges|, s);
    PathsFromDistinct(t, n, |t.nodes[n].edges|, s);
    if t.nodes[n].Checkpoint? && t.nodes[n].body.Some? && s !in t.nodes[n].leaves {
      var inside := AllPaths(t, t.nodes[n].body.value, s);
      AllPathsDistinct(t, t.nodes[n].body.value, s);
      forall p ensures !(p in Insides(inside) && p in from) {
        InsidesElements(inside, p);
        PathsFromExact(t, n, |t.nodes[n].edges|, s, p);
      }
      DistinctAppend(Insides(inside), from);
    }
  }

  // ---- The sum ----

  ghost function SumAlong<T(!new)>(t: Tape<T>, n: nat, ps: seq<Path>, x: Option<T>): Option<T>
    requires t.Acyclic() && n < |t.nodes|
  {
    if ps == [] then None else t.Plus(SumAlong(t, n, ps[..|ps| - 1], x), Along(t, n, ps[|ps| - 1], x))
  }

  ghost function SumEdge<T(!new)>(t: Tape<T>, bound: nat, e: Edge, ps: seq<Path>, x: Option<T>): Option<T>
    requires t.Acyclic() && bound <= |t.nodes| && (e.ToNode? ==> e.node < bound)
  {
    if ps == [] then None else t.Plus(SumEdge(t, bound, e, ps[..|ps| - 1], x), AlongEdge(t, bound, e, ps[|ps| - 1], x))
  }

  lemma {:induction false} SumAlongAppend<T(!new)>(t: Tape<T>, n: nat, ps: seq<Path>, qs: seq<Path>, x: Option<T>)
    requires t.Acyclic() && n < |t.nodes| && t.LawfulAdd()
    ensures SumAlong(t, n, ps + qs, x) == t.Plus(SumAlong(t, n, ps, x), SumAlong(t, n, qs, x))
  {
    if qs == [] {
      assert ps + qs == ps;
    } else {
      var init, last := qs[..|qs| - 1], qs[|qs| - 1];
      assert (ps + qs)[..|ps + qs| - 1] == ps + init;
      SumAlongAppend(t, n, ps, init, x);
      t.PlusAssociates(SumAlong(t, n, ps, x), SumAlong(t, n, init, x), Along(t, n, last, x));
    }
  }

  lemma {:induction false} SumEdgeIs<T(!new)>(t: Tape<T>, bound: nat, e: Edge, ps: seq<Path>, x: Option<T>)
    requires t.Acyclic() && bound <= |t.nodes| && e.ToNode? && e.node < bound
    ensures SumEdge(t, bound, e, ps, x) == SumAlong(t, e.node, ps, x)
  {
    if ps != [] {
      SumEdgeIs(t, bound, e, ps[..|ps| - 1], x);
    }
  }

  lemma {:induction false} SumNone<T(!new)>(t: Tape<T>, n: nat, ps: seq<Path>)
    requires t.Acyclic() && n < |t.nodes|
    ensures SumAlong(t, n, ps, None) == None
  {
    if ps != [] {
      SumNone(t, n, ps[..|ps| - 1]);
    }
  }

  lemma {:induction false} SumSteps<T(!new)>(t: Tape<T>, n: nat, i: nat, ps: seq<Path>, g: T)
    requires t.Acyclic() && n < |t.nodes| && t.NodeBelow(n) && t.nodes[n].Op?
    requires i < |t.nodes[n].edges| == |t.nodes[n].apply(g)|
    ensures SumAlong(t, n, Steps(i, ps), Some(g)) == SumEdge(t, n, t.nodes[n].edges[i], ps, t.nodes[n].apply(g)[i])
  {
    if ps != [] {
      SumSteps(t, n, i, ps[..|ps| - 1], g);
      assert Steps(i, ps)[..|ps| - 1] == Steps(i, ps[..|ps| - 1]);
    }
  }

  lemma {:induction false} SumInsides<T(!new)>(t: Tape<T>, n: nat, ps: seq<Path>, x: Option<T>)
    requires t.Acyclic() && n < |t.nodes| && t.NodeBelow(n) && t.nodes[n].Checkpoint? && t.nodes[n].body.Some? && x.Some?
    ensures SumAlong(t, n, Insides(ps), x) == SumAlong(t, t.nodes[n].body.value, ps, x)
  {
    if ps != [] {
      SumInsides(t, n, ps[..|ps| - 1], x);
      assert Insides(ps)[..|ps| - 1] == Insides(ps[..|ps| - 1]);
    }
  }

  lemma {:induction false} SumThroughs<T(!new)>(t: Tape<T>, n: nat, q: Path, i: nat, ps: seq<Path>, x: Option<T>)
    requires t.Acyclic() && n < |t.nodes| && t.NodeBelow(n) && t.nodes[n].Checkpoint? && t.nodes[n].body.Some? && x.Some?
    requires i < |t.nodes[n].edges|
    ensures SumAlong(t, n, Throughs(q, i, ps), x)
         == SumEdge(t, n, t.nodes[n].edges[i], ps, Along(t, t.nodes[n].body.value, q, x))
  {
    if ps != [] {
      SumThroughs(t, n, q, i, ps[..|ps| - 1], x);
      assert Throughs(q, i, ps)[..|ps| - 1] == Throughs(q, i, ps[..|ps| - 1]);
    }
  }

  /** The paths along one edge carry what the edge sends. */
  lemma {:induction false} EdgePathsSum<T(!new)>(t: Tape<T>, bound: nat, e: Edge, x: Option<T>, s: nat)
    requires t.Acyclic() && bound <= |t.nodes| && (e.ToNode? ==> e.node < bound) && (bound > 0 ==> t.Lawful(bound - 1))
    ensures SumEdge(t, bound, e, EdgePaths(t, bound, e, s), x) == t.EdgeTerm(bound, e, x, s)
    decreases bound, 0, 0
  {
    match e
    case ToNode(m) =>
      SumEdgeIs(t, bound, e, AllPaths(t, m, s), x);
      if x.None? {
        SumNone(t, m, AllPaths(t, m, s));
      } else {
        PathSumIsSumOverPaths(t, m, x.value, s);
      }
    case Leaf(l) =>
      if l == s {
        assert [End][..0] == [];
        assert SumEdge(t, bound, e, [End], x) == t.Plus(SumEdge(t, bound, e, [], x), AlongEdge(t, bound, e, End, x));
      }
    case Detached =>
  }

  /** All ways into the recompute and on from input `i` carry what that input's edge sends of their sum. */
  lemma {:induction false} SumProducts<T(!new)>(t: Tape<T>, n: nat, qs: seq<Path>, i: nat, g: T, s: nat)
    requires t.Acyclic() && n < |t.nodes| && t.NodeBelow(n) && t.nodes[n].Checkpoint? && t.nodes[n].body.Some?
    requires i < |t.nodes[n].edges| && t.Lawful(n)
    ensures SumAlong(t, n, Products(qs, i, EdgePaths(t, n, t.nodes[n].edges[i], s)), Some(g))
         == t.EdgeTerm(n, t.nodes[n].edges[i], SumAlong(t, t.nodes[n].body.value, qs, Some(g)), s)
    decreases n, 1, |qs|
  {
    if qs != [] {
      var e, body, init, last := t.nodes[n].edges[i], t.nodes[n].body.value, qs[..|qs| - 1], qs[|qs| - 1];
      var ps := EdgePaths(t, n, e, s);
      SumProducts(t, n, init, i, g, s);
      SumAlongAppend(t, n, Products(init, i, ps), Throughs(last, i, ps), Some(g));
      SumThroughs(t, n, last, i, ps, Some(g));
      EdgePathsSum(t, n, e, Along(t, body, last, Some(g)), s);
      t.EdgeTermAdditive(n, e, SumAlong(t, body, init, Some(g)), Along(t, body, last, Some(g)), s);
    }
  }

  /** The gradients that a node sends along its edges. */
  ghost function InputGrads<T(!new)>(t: Tape<T>, n: nat, g: T): seq<Option<T>>
    requires t.Acyclic() && n < |t.nodes|
  {
    assert t.NodeBelow(n);
    match t.nodes[n]
    case Op(_, apply) => apply(g)
    case Checkpoint(_, body, leaves, _) => if body.None? then [] else t.LeafGrads(body.value, g, leaves)
  }

  lemma {:induction false} ViaIsEdgeTerm<T(!new)>(t: Tape<T>, n: nat, i: nat, g: T, s: nat)
    requires t.Acyclic() && n < |t.nodes| && t.Lawful(n) && i < |t.nodes[n].edges|
    requires t.NodeBelow(n) && t.LawfulNode(n) && |InputGrads(t, n, g)| == |t.nodes[n].edges|
    ensures SumAlong(t, n, PathsVia(t, n, i, s), Some(g)) == t.EdgeTerm(n, t.nodes[n].edges[i], InputGrads(t, n, g)[i], s)
    decreases n, 2, 0
  {
    match t.nodes[n]
    case Op(edges, apply) =>
      SumSteps(t, n, i, EdgePaths(t, n, edges[i], s), g);
      EdgePathsSum(t, n, edges[i], apply(g)[i], s);
    case Checkpoint(_, body, leaves, _) =>
      var qs := AllPaths(t, body.value, leaves[i]);
      SumProducts(t, n, qs, i, g, s);
      PathSumIsSumOverPaths(t, body.value, g, leaves[i]);
      t.LeafGradAt(body.value, g, leaves, i);
  }

  lemma EdgeSumFrom<T(!new)>(t: Tape<T>, bound: nat, edges: seq<Edge>, xs: seq<Option<T>>, k: nat, s: nat)
    requires t.Acyclic() && bound <= |t.nodes| && t.EdgesBelow(edges, bound) && k < |edges| == |xs|
    ensures t.EdgeSum(bound, edges[k..], xs[k..], s)
         == t.Plus(t.EdgeTerm(bound, edges[k], xs[k], s), t.EdgeSum(bound, edges[k + 1..], xs[k + 1..], s))
  {
    assert edges[k..][1..] == edges[k + 1..] && xs[k..][1..] == xs[k + 1..];
  }

  /** What the paths through the first `k` inputs carry, plus what the other edges carry, is what all edges carry. */
  ghost predicate Accounted<T(!new)>(t: Tape<T>, n: nat, k: nat, g: T, s: nat)
    requires t.Acyclic() && n < |t.nodes| && t.NodeBelow(n) && k <= |t.nodes[n].edges| == |InputGrads(t, n, g)|
  {
    t.Plus(SumAlong(t, n, PathsFrom(t, n, k, s), Some(g)), t.EdgeSum(n, t.nodes[n].edges[k..], InputGrads(t, n, g)[k..], s))
    == t.EdgeSum(n, t.nodes[n].edges, InputGrads(t, n, g), s)
  }

  lemma FromStart<T(!new)>(t: Tape<T>, n: nat, g: T, s: nat)
    requires t.Acyclic() && n < |t.nodes| && t.NodeBelow(n) && |t.nodes[n].edges| == |InputGrads(t, n, g)|
    ensures Accounted(t, n, 0, g, s)
  {
    var edges, xs := t.nodes[n].edges, InputGrads(t, n, g);
    assert edges[0..] == edges && xs[0..] == xs;
  }

  lemma FromStep<T(!new)>(t: Tape<T>, n: nat, k: nat, g: T, s: nat)
    requires t.Acyclic() && n < |t.nodes| && t.LawfulAdd() && t.NodeBelow(n) && k < |t.nodes[n].edges| == |InputGrads(t, n, g)|
    requires SumAlong(t, n, PathsVia(t, n, k, s), Some(g)) == t.EdgeTerm(n, t.nodes[n].edges[k], InputGrads(t, n, g)[k], s)
    requires Accounted(t, n, k, g, s)
    ensures Accounted(t, n, k + 1, g, s)
  {
    var before, via := PathsFrom(t, n, k, s), PathsVia(t, n, k, s);
    SumAlongAppend(t, n, before, via, Some(g));
    EdgeSumFrom(t, n, t.nodes[n].edges, InputGrads(t, n, g), k, s);
    t.PlusAssociates(SumAlong(t, n, before, Some(g)), SumAlong(t, n, via, Some(g)),
                     t.EdgeSum(n, t.nodes[n].edges[k + 1..], InputGrads(t, n, g)[k + 1..], s));
  }

  lemma {:induction false} FromIsEdgeSum<T(!new)>(t: Tape<T>, n: nat, k: nat, g: T, s: nat)
    requires t.Acyclic() && n < |t.nodes| && t.Lawful(n) && k <= |t.nodes[n].edges|
    requires t.NodeBelow(n) && t.LawfulNode(n) && |InputGrads(t, n, g)| == |t.nodes[n].edges|
    ensures Accounted(t, n, k, g, s)
    decreases n, 3, k
  {
    if k == 0 {
      FromStart(t, n, g, s);
    } else {
      FromIsEdgeSum(t, n, k - 1, g, s);
      ViaIsEdgeTerm(t, n, k - 1, g, s);
      FromStep(t, n, k - 1, g, s);
    }
  }

  /** The gradient that reaches a slot is the sum over all paths of the composed edge maps. */
  lemma {:induction false} PathSumIsSumOverPaths<T(!new)>(t: Tape<T>, n: nat, g: T, s: nat)
    requires t.Acyclic() && n < |t.nodes| && t.Lawful(n)
    ensures t.PathSum(n, g, s) == SumAlong(t, n, AllPaths(t, n, s), Some(g))
    decreases n, 4, 0
  {
    assert t.NodeBelow(n) && t.LawfulNode(n);
    var edges := t.nodes[n].edges;
    FromIsEdgeSum(t, n, |edges|, g, s);
    if t.nodes[n].Checkpoint? && s !in t.nodes[n].leaves {
      var inside := AllPaths(t, t.nodes[n].body.value, s);
      PathSumIsSumOverPaths(t, t.nodes[n].body.value, g, s);
      SumInsides(t, n, inside, Some(g));
      SumAlongAppend(t, n, Insides(inside), PathsFrom(t, n, |edges|, s), Some(g));
    }
  }
}
