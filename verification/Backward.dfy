/**
 The backward engine: depth-first topological sort, then the reverse walk that
 accumulates pending gradients and leaf slots, with checkpoints recomputed by a
 nested run.
 */
module Backwards {
  import opened Options
  import opened Sequences
  import opened Tapes

  // ---- Topological order ----

  ghost predicate HasEdge<T(!new)>(t: Tape<T>, n: nat, m: nat)
    requires n < |t.nodes|
  {
    ToNode(m) in t.nodes[n].edges
  }

  /** `m` can be reached from `n` along input edges. */
  ghost predicate Reachable<T(!new)>(t: Tape<T>, n: nat, m: nat)
    requires t.Acyclic() && n < |t.nodes|
    decreases n
  {
    assert t.NodeBelow(n);
    m == n || exists k: nat :: k < n && HasEdge(t, n, k) && Reachable(t, k, m)
  }

  /** Every input of a listed node is listed, and listed earlier. */
  ghost predicate InputsFirst<T(!new)>(t: Tape<T>, order: seq<nat>) {
    forall i, m: nat :: 0 <= i < |order| && order[i] < |t.nodes| && HasEdge(t, order[i], m) ==> m in order[..i]
  }

  ghost predicate PostOrder<T(!new)>(t: Tape<T>, order: seq<nat>) {
    && Distinct(order)
    && (forall i :: 0 <= i < |order| ==> order[i] < |t.nodes|)
    && InputsFirst(t, order)
  }

  lemma {:induction false} PostOrderClosed<T(!new)>(t: Tape<T>, order: seq<nat>, n: nat, m: nat)
    requires t.Acyclic() && n < |t.nodes| && PostOrder(t, order)
    requires n in order && Reachable(t, n, m)
    ensures m in order
    decreases n
  {
    if m != n {
      var k: nat :| k < n && HasEdge(t, n, k) && Reachable(t, k, m);
      var i :| 0 <= i < |order| && order[i] == n;
      assert k in order[..i];
      PostOrderClosed(t, order, k, m);
    }
  }

  lemma {:induction false} ReachableTransitive<T(!new)>(t: Tape<T>, a: nat, b: nat, c: nat)
    requires t.Acyclic() && a < |t.nodes| && b < |t.nodes|
    requires Reachable(t, a, b) && Reachable(t, b, c)
    ensures Reachable(t, a, c)
    decreases a
  {
    if a != b {
      var k: nat :| k < a && HasEdge(t, a, k) && Reachable(t, k, b);
      ReachableTransitive(t, k, b, c);
    }
  }

  lemma AppendPostOrder<T(!new)>(t: Tape<T>, order: seq<nat>, n: nat)
    requires PostOrder(t, order) && n < |t.nodes| && n !in order
    requires forall m: nat :: HasEdge(t, n, m) ==> m in order
    ensures PostOrder(t, order + [n])
  {
    var next := order + [n];
    forall i, m: nat | 0 <= i < |next| && HasEdge(t, next[i], m)
      ensures m in next[..i]
    {
      if i < |order| {
        assert next[..i] == order[..i];
      } else {
        assert next[..i] == order;
      }
    }
  }

  /**
   A post-order of the nodes reached from `root` lists exactly the reachable nodes, each once,
   and every node after everything it can reach: walked backwards, a node is applied once, when
   all its consumers have been applied.
   */
  lemma TopologicalOrder<T(!new)>(t: Tape<T>, order: seq<nat>, root: nat)
    requires t.Acyclic() && root < |t.nodes| && PostOrder(t, order) && root in order
    requires forall v :: v in order ==> Reachable(t, root, v)
    ensures forall v: nat :: v in order <==> Reachable(t, root, v)
    ensures forall i, j :: 0 <= i < |order| && 0 <= j < |order| && i != j && Reachable(t, order[i], order[j]) ==> j < i
  {
    forall v: nat | Reachable(t, root, v) ensures v in order {
      PostOrderClosed(t, order, root, v);
    }
    forall i, j | 0 <= i < |order| && 0 <= j < |order| && i != j && Reachable(t, order[i], order[j])
      ensures j < i
    {
      PrefixPostOrder(t, order, i + 1);
      assert order[..i + 1][i] == order[i];
      PostOrderClosed(t, order[..i + 1], order[i], order[j]);
    }
  }

  lemma PrefixPostOrder<T(!new)>(t: Tape<T>, order: seq<nat>, k: nat)
    requires PostOrder(t, order) && k <= |order|
    ensures PostOrder(t, order[..k])
  {
    forall i, m: nat | 0 <= i < k && HasEdge(t, order[i], m)
      ensures m in order[..k][..i]
    {
      assert order[..k][..i] == order[..i];
    }
  }

  /** While node `n` is open: what was listed since its visit began is new, reachable from it, and visited. */
  ghost predicate Grown<T(!new)>(t: Tape<T>, start: seq<nat>, seen: set<nat>, topo: seq<nat>, visited: set<nat>, n: nat)
    requires t.Acyclic() && n < |t.nodes|
  {
    && start <= topo
    && (forall v :: v in visited <==> v in seen || v == n || v in topo[|start|..])
    && (forall v :: v in topo[|start|..] ==> v !in seen && v != n && Reachable(t, n, v))
  }

  lemma GrownByInput<T(!new)>(t: Tape<T>, start: seq<nat>, seen: set<nat>, mid: seq<nat>, midSeen: set<nat>,
                              topo: seq<nat>, visited: set<nat>, n: nat, m: nat)
    requires t.Acyclic() && n < |t.nodes| && HasEdge(t, n, m) && m < n
    requires Grown(t, start, seen, mid, midSeen, n) && mid <= topo
    requires forall v :: v in visited <==> v in midSeen || v in topo[|mid|..]
    requires forall v :: v in topo[|mid|..] ==> v !in midSeen && Reachable(t, m, v)
    ensures Grown(t, start, seen, topo, visited, n)
    ensures n !in mid ==> n !in topo
  {
    assert topo == mid + topo[|mid|..];
    assert topo[|start|..] == mid[|start|..] + topo[|mid|..];
    assert n in midSeen;
  }

  lemma GrownListed<T(!new)>(t: Tape<T>, start: seq<nat>, seen: set<nat>, topo: seq<nat>, visited: set<nat>, n: nat)
    requires t.Acyclic() && n < |t.nodes| && n !in seen && Grown(t, start, seen, topo, visited, n)
    ensures forall v :: v in visited <==> v in seen || v in (topo + [n])[|start|..]
    ensures forall v :: v in (topo + [n])[|start|..] ==> v !in seen && Reachable(t, n, v)
  {
    assert (topo + [n])[|start|..] == topo[|start|..] + [n];
  }

  /** The `topo` list and the `visited` map that `visit` extends. */
  class TopoSort<T(!new)> {
    const tape: Tape<T>
    var topo: seq<nat>
    var visited: set<nat>

    constructor (tape: Tape<T>)
      ensures this.tape == tape && topo == [] && visited == {}
    {
      this.tape := tape;
      topo := [];
      visited := {};
    }

    /** Nodes below `n` are visited exactly when they are listed; the others may still be open. */
    ghost predicate Valid(n: nat)
      reads this
    {
      && tape.Acyclic()
      && PostOrder(tape, topo)
      && (forall v :: v in topo ==> v in visited)
      && (forall v :: v in visited && v < n ==> v in topo)
    }

    method Visit(n: nat)
      requires n < |tape.nodes| && Valid(n + 1)
      modifies this
      ensures Valid(n + 1)
      ensures n in topo && old(topo) <= topo
      ensures forall v :: v in visited <==> v in old(visited) || v in topo[|old(topo)|..]
      ensures forall v :: v in topo[|old(topo)|..] ==> v !in old(visited) && Reachable(tape, n, v)
      decreases n
    {
      if n in visited {
        return;
      }
      visited := visited + {n};
      assert tape.NodeBelow(n);
      var edges := tape.nodes[n].edges;
      var k := 0;
      while k < |edges|
        invariant 0 <= k <= |edges|
        invariant Valid(n) && n !in topo
        invariant forall j :: 0 <= j < k && edges[j].ToNode? ==> edges[j].node in topo
        invariant Grown(tape, old(topo), old(visited), topo, visited, n)
      {
        if edges[k].ToNode? {
          ghost var before, seen := topo, visited;
          Visit(edges[k].node);
          GrownByInput(tape, old(topo), old(visited), before, seen, topo, visited, n, edges[k].node);
        }
        k := k + 1;
      }
      AppendPostOrder(tape, topo, n);
      GrownListed(tape, old(topo), old(visited), topo, visited, n);
      topo := topo + [n];
    }
  }
}
