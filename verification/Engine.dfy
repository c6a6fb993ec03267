/**
 The reverse walk over a tape and the leaf slots it fills.
 */
module Engines {
  import opened Options
  import opened Sequences
  import opened Tapes
  import opened Backwards
  import opened Sending

  /** `ArityMismatch` is the error of `backward`; `Panicked` stands for an `expect` that fails in a recompute. */
  datatype Outcome = Done | ArityMismatch(node: nat) | NoGradFn | Panicked

  /** The part of a variable that matters to autograd; `slot` names its shared grad slot. */
  datatype Variable = Variable(gradFn: Option<nat>, slot: nat, requiresGrad: bool) {
    function InputEdge(): Edge {
      if !requiresGrad then Detached
      else match gradFn
        case Some(n) => ToNode(n)
        case None => Leaf(slot)
    }
  }

  /**
   What a gradient `x` for an input variable sends to slot `s`: nothing when the variable is untracked,
   the path sum of its node when it has one, and `x` itself when it is the leaf of that slot.
   */
  lemma InputReceives<T(!new)>(t: Tape<T>, v: Variable, x: T, s: nat)
    requires t.Acyclic() && (v.gradFn.Some? ==> v.gradFn.value < |t.nodes|)
    ensures v.InputEdge().ToNode? ==> v.InputEdge().node < |t.nodes|
    ensures t.EdgeTerm(|t.nodes|, v.InputEdge(), Some(x), s)
         == if !v.requiresGrad then None
            else if v.gradFn.Some? then t.PathSum(v.gradFn.value, x, s)
            else if v.slot == s then Some(x)
            else None
  {
  }

  function Lookup<T>(m: map<nat, T>, k: nat): Option<T> {
    if k in m then Some(m[k]) else None
  }

  // ---- Pending gradients ----

  ghost function PendingAt<T(!new)>(t: Tape<T>, grads: map<nat, T>, n: nat, s: nat): Option<T>
    requires t.Acyclic() && n < |t.nodes|
  {
    if n in grads then t.PathSum(n, grads[n], s) else None
  }

  /** What the pending gradients of the listed nodes will still send to slot `s`. */
  ghost function Pending<T(!new)>(t: Tape<T>, order: seq<nat>, grads: map<nat, T>, s: nat): Option<T>
    requires t.Acyclic() && forall i :: 0 <= i < |order| ==> order[i] < |t.nodes|
  {
    if order == [] then None
    else t.Plus(Pending(t, order[..|order| - 1], grads, s), PendingAt(t, grads, order[|order| - 1], s))
  }

  lemma {:induction false} PendingSame<T(!new)>(t: Tape<T>, order: seq<nat>, a: map<nat, T>, b: map<nat, T>, s: nat)
    requires t.Acyclic() && forall i :: 0 <= i < |order| ==> order[i] < |t.nodes|
    requires forall i :: 0 <= i < |order| ==> Lookup(a, order[i]) == Lookup(b, order[i])
    ensures Pending(t, order, a, s) == Pending(t, order, b, s)
  {
    if order != [] {
      var n := order[|order| - 1];
      PendingSame(t, order[..|order| - 1], a, b, s);
      assert Lookup(a, n) == Lookup(b, n);
    }
  }

  /** Adding `x` to the pending gradient of one listed node adds what `x` sends to the slot. */
  lemma {:induction false} PendingAdd<T(!new)>(t: Tape<T>, order: seq<nat>, grads: map<nat, T>, m: nat, x: T, s: nat)
    requires t.Acyclic() && forall i :: 0 <= i < |order| ==> order[i] < |t.nodes|
    requires m < |t.nodes| && t.Lawful(m) && Distinct(order) && m in order
    ensures Pending(t, order, grads[m := t.Plus(Lookup(grads, m), Some(x)).value], s)
         == t.Plus(Pending(t, order, grads, s), t.PathSum(m, x, s))
  {
    var next := grads[m := t.Plus(Lookup(grads, m), Some(x)).value];
    var init, n := order[..|order| - 1], order[|order| - 1];
    var rest, here, sent := Pending(t, init, grads, s), PendingAt(t, grads, n, s), t.PathSum(m, x, s);
    if n == m {
      PendingSame(t, init, grads, next, s);
      if m in grads {
        t.PathSumAdditive(m, grads[m], x, s);
      }
      t.PlusAssociates(rest, here, sent);
    } else {
      PendingAdd(t, init, grads, m, x, s);
      assert Lookup(next, n) == Lookup(grads, n);
      t.PlusAssociates(rest, sent, here);
      t.PlusCommutes(sent, here);
      t.PlusAssociates(rest, here, sent);
    }
  }

  lemma {:induction false} PendingNone<T(!new)>(t: Tape<T>, order: seq<nat>, grads: map<nat, T>, s: nat)
    requires t.Acyclic() && forall i :: 0 <= i < |order| ==> order[i] < |t.nodes|
    requires forall i :: 0 <= i < |order| ==> order[i] !in grads
    ensures Pending(t, order, grads, s) == None
  {
    if order != [] {
      PendingNone(t, order[..|order| - 1], grads, s);
    }
  }

  /** The first entry of the walk: only the root, listed last, has a gradient. */
  lemma PendingRoot<T(!new)>(t: Tape<T>, order: seq<nat>, root: nat, g: T, s: nat)
    requires t.Acyclic() && PostOrder(t, order) && root in order
    requires forall v :: v in order ==> Reachable(t, root, v)
    ensures Pending(t, order, map[root := g], s) == t.PathSum(root, g, s)
  {
    var last := order[|order| - 1];
    RootIsLast(t, order, root);
    PendingNone(t, order[..|order| - 1], map[root := g], s);
  }

  lemma RootIsLast<T(!new)>(t: Tape<T>, order: seq<nat>, root: nat)
    requires t.Acyclic() && PostOrder(t, order) && root in order
    requires forall v :: v in order ==> Reachable(t, root, v)
    ensures order[|order| - 1] == root && root !in order[..|order| - 1]
  {
    var i :| 0 <= i < |order| && order[i] == root;
    if i < |order| - 1 {
      var last := order[|order| - 1];
      PrefixPostOrder(t, order, i + 1);
      assert order[..i + 1][i] == root;
      PostOrderClosed(t, order[..i + 1], root, last);
    }
  }

  // ---- One accumulation step ----

  function Accumulate<T(!new)>(t: Tape<T>, m: map<nat, T>, k: nat, x: T): map<nat, T> {
    if k in m then m[k := t.add(m[k], x)] else m[k := x]
  }

  function GradsAfter<T(!new)>(t: Tape<T>, e: Edge, x: T, grads: map<nat, T>): map<nat, T> {
    if e.ToNode? then Accumulate(t, grads, e.node, x) else grads
  }

  function SlotsAfter<T(!new)>(t: Tape<T>, e: Edge, x: T, slots: map<nat, T>): map<nat, T> {
    if e.Leaf? then Accumulate(t, slots, e.slot, x) else slots
  }

  /** What slot `s` holds, plus what pending gradients and unprocessed edges will still send to it. */
  ghost function Balance<T(!new)>(t: Tape<T>, slots: map<nat, T>, order: seq<nat>, grads: map<nat, T>,
                                  bound: nat, edges: seq<Edge>, xs: seq<Option<T>>, s: nat): Option<T>
    requires t.Acyclic() && forall i :: 0 <= i < |order| ==> order[i] < |t.nodes|
    requires bound <= |t.nodes| && t.EdgesBelow(edges, bound)
  {
    t.Plus(t.Plus(Lookup(slots, s), Pending(t, order, grads, s)), t.EdgeSum(bound, edges, xs, s))
  }

  lemma EdgeStep<T(!new)>(t: Tape<T>, slots: map<nat, T>, order: seq<nat>, grads: map<nat, T>,
                          bound: nat, edges: seq<Edge>, xs: seq<Option<T>>, s: nat)
    requires t.Acyclic() && PostOrder(t, order) && bound < |t.nodes| && t.EdgesBelow(edges, bound) && t.Lawful(bound)
    requires edges != [] && xs != [] && (edges[0].ToNode? ==> edges[0].node in order)
    ensures Balance(t, slots, order, grads, bound, edges, xs, s)
         == (if xs[0].None? then Balance(t, slots, order, grads, bound, edges[1..], xs[1..], s)
             else Balance(t, SlotsAfter(t, edges[0], xs[0].value, slots), order,
                          GradsAfter(t, edges[0], xs[0].value, grads), bound, edges[1..], xs[1..], s))
  {
    var e, held, pending := edges[0], Lookup(slots, s), Pending(t, order, grads, s);
    var term, rest := t.EdgeTerm(bound, e, xs[0], s), t.EdgeSum(bound, edges[1..], xs[1..], s);
    t.PlusAssociates(t.Plus(held, pending), term, rest);
    if xs[0].Some? {
      if e.ToNode? {
        PendingAdd(t, order, grads, e.node, xs[0].value, s);
        t.PlusAssociates(held, pending, term);
      } else if e.Leaf? {
        t.PlusAssociates(held, pending, term);
        t.PlusCommutes(pending, term);
        t.PlusAssociates(held, term, pending);
      }
    }
  }

  lemma EdgeSteps<T(!new)>(t: Tape<T>, slots: map<nat, T>, order: seq<nat>, grads: map<nat, T>,
                           bound: nat, edges: seq<Edge>, xs: seq<Option<T>>)
    requires t.Acyclic() && PostOrder(t, order) && bound < |t.nodes| && t.EdgesBelow(edges, bound) && t.Lawful(bound)
    requires edges != [] && xs != [] && (edges[0].ToNode? ==> edges[0].node in order)
    ensures forall s: nat ::
              Balance(t, slots, order, grads, bound, edges, xs, s)
              == (if xs[0].None? then Balance(t, slots, order, grads, bound, edges[1..], xs[1..], s)
                  else Balance(t, SlotsAfter(t, edges[0], xs[0].value, slots), order,
                               GradsAfter(t, edges[0], xs[0].value, grads), bound, edges[1..], xs[1..], s))
  {
    forall s: nat { EdgeStep(t, slots, order, grads, bound, edges, xs, s); }
  }

  /** What slot `s` holds plus what the listed nodes and `n` still owe it. */
  ghost function Due<T(!new)>(t: Tape<T>, slots: map<nat, T>, order: seq<nat>, grads: map<nat, T>, n: nat, s: nat): Option<T>
    requires t.Acyclic() && n < |t.nodes| && forall i :: 0 <= i < |order| ==> order[i] < |t.nodes|
  {
    t.Plus(Lookup(slots, s), Pending(t, order + [n], grads, s))
  }

  lemma ApplySteps<T(!new)>(t: Tape<T>, before: map<nat, T>, after: map<nat, T>, order: seq<nat>, grads: map<nat, T>,
                            n: nat, xs: seq<Option<T>>)
    requires t.Acyclic() && PostOrder(t, order) && PostOrder(t, order + [n]) && n < |t.nodes| && t.Lawful(n)
    requires n in grads && t.EdgesBelow(t.nodes[n].edges, n) && Applied(t, before, after, n, grads[n], xs)
    requires forall s: nat :: t.Lasting(n, s) ==> AppliedTo(t, before, after, n, grads[n], s)
    ensures forall s: nat :: t.Lasting(n, s) ==>
              Balance(t, after, order, grads - {n}, n, t.nodes[n].edges, xs, s) == Due(t, before, order, grads, n, s)
  {
    forall s: nat | t.Lasting(n, s)
      ensures Balance(t, after, order, grads - {n}, n, t.nodes[n].edges, xs, s) == Due(t, before, order, grads, n, s)
    {
      ApplyStep(t, before, after, order, grads, n, xs, s);
    }
  }

  /** The inputs of a listed node are listed before it. */
  lemma InputsListed<T(!new)>(t: Tape<T>, order: seq<nat>, n: nat)
    requires t.Acyclic() && PostOrder(t, order + [n]) && n < |t.nodes| && t.NodeBelow(n)
    ensures forall j :: 0 <= j < |t.nodes[n].edges| && t.nodes[n].edges[j].ToNode? ==> t.nodes[n].edges[j].node in order
  {
    var edges := t.nodes[n].edges;
    forall j | 0 <= j < |edges| && edges[j].ToNode? ensures edges[j].node in order {
      assert (order + [n])[|order|] == n && HasEdge(t, n, edges[j].node);
      assert (order + [n])[..|order|] == order;
    }
  }

  /** Taking a node's pending gradient `h` and applying the node leaves the balance unchanged. */
  lemma ApplyStep<T(!new)>(t: Tape<T>, before: map<nat, T>, after: map<nat, T>, order: seq<nat>, grads: map<nat, T>,
                           n: nat, xs: seq<Option<T>>, s: nat)
    requires t.Acyclic() && PostOrder(t, order + [n]) && n < |t.nodes| && t.Lawful(n) && t.EdgesBelow(t.nodes[n].edges, n)
    requires n in grads && t.Lasting(n, s)
    requires Applied(t, before, after, n, grads[n], xs) && AppliedTo(t, before, after, n, grads[n], s)
    ensures t.Plus(Lookup(before, s), Pending(t, order + [n], grads, s))
         == Balance(t, after, order, grads - {n}, n, t.nodes[n].edges, xs, s)
  {
    var h, held := grads[n], Lookup(before, s);
    assert (order + [n])[..|order|] == order;
    var pending := Pending(t, order, grads, s);
    forall i | 0 <= i < |order|
      ensures Lookup(grads, order[i]) == Lookup(grads - {n}, order[i])
    {
      assert order[i] == (order + [n])[i] && (order + [n])[|order|] == n;
    }
    PendingSame(t, order, grads, grads - {n}, s);
    assert t.NodeBelow(n) && t.LawfulNode(n);
    match t.nodes[n] {
      case Op(edges, apply) =>
        t.PlusAssociates(held, pending, t.EdgeSum(n, edges, xs, s));
      case Checkpoint(edges, body, leaves, _) =>
        assert !t.Owns(n, s);
        var captured, sent := t.PathSum(body.value, h, s), t.EdgeSum(n, edges, xs, s);
        assert t.PathSum(n, h, s) == t.Plus(captured, sent);
        t.PlusAssociates(held, pending, t.Plus(captured, sent));
        t.PlusAssociates(pending, captured, sent);
        t.PlusCommutes(pending, captured);
        t.PlusAssociates(held, t.Plus(captured, pending), sent);
        t.PlusAssociates(held, captured, pending);
    }
  }

  /** What the checkpoint re-runs keeps the contract, if it is tracked at all. */
  ghost predicate BodyLawful<T(!new)>(t: Tape<T>, n: nat)
    requires t.Acyclic() && n < |t.nodes| && t.nodes[n].Checkpoint?
  {
    t.nodes[n].body.Some? ==> t.Lawful(t.nodes[n].body.value)
  }

  /** The gradients that `apply` returns. */
  ghost predicate Applied<T(!new)>(t: Tape<T>, before: map<nat, T>, after: map<nat, T>, n: nat, h: T, xs: seq<Option<T>>)
    requires t.Acyclic() && n < |t.nodes|
  {
    assert t.NodeBelow(n);
    match t.nodes[n]
    case Op(_, apply) => xs == apply(h) && after == before
    case Checkpoint(_, body, leaves, _) => body.Some? && xs == t.LeafGrads(body.value, h, leaves)
  }

  /** The side effect of `apply` on slot `s`: a recompute also feeds captured variables. */
  ghost predicate AppliedTo<T(!new)>(t: Tape<T>, before: map<nat, T>, after: map<nat, T>, n: nat, h: T, s: nat)
    requires t.Acyclic() && n < |t.nodes|
  {
    assert t.NodeBelow(n);
    t.nodes[n].Checkpoint? && t.nodes[n].body.Some? ==> Received(t, before, after, t.nodes[n].body.value, h, s)
  }

  /** Slot `s` gained exactly the sum over all paths from `n`. */
  ghost predicate Received<T(!new)>(t: Tape<T>, before: map<nat, T>, after: map<nat, T>, n: nat, g: T, s: nat)
    requires t.Acyclic() && n < |t.nodes|
  {
    Lookup(after, s) == t.Plus(Lookup(before, s), t.PathSum(n, g, s))
  }

  lemma {:induction false} ReachableBelow<T(!new)>(t: Tape<T>, n: nat, m: nat)
    requires t.Acyclic() && n < |t.nodes| && Reachable(t, n, m)
    ensures m <= n
    decreases n
  {
    if m != n {
      var k: nat :| k < n && HasEdge(t, n, k) && Reachable(t, k, m);
      ReachableBelow(t, k, m);
    }
  }

  lemma FreshLeafLasts<T(!new)>(t: Tape<T>, n: nat, b: nat, s: nat)
    requires t.WellFormed() && b < n && t.Owns(n, s)
    ensures t.Lasting(b, s)
  {
  }

  /** After the nested run the fresh leaves, empty before it, hold their path sums. */
  lemma RecomputedLeaves<T(!new)>(t: Tape<T>, n: nat, start: map<nat, T>, slots: map<nat, T>, h: T, xs: seq<Option<T>>)
    requires t.WellFormed() && n < |t.nodes| && t.nodes[n].Checkpoint? && t.NodeBelow(n) && t.nodes[n].body.Some?
    requires var leaves := t.nodes[n].leaves;
             |xs| == |leaves| && forall i :: 0 <= i < |leaves| ==> xs[i] == Lookup(slots, leaves[i]) && leaves[i] !in start
    requires forall s: nat :: t.Lasting(t.nodes[n].body.value, s) ==> Received(t, start, slots, t.nodes[n].body.value, h, s)
    ensures xs == t.LeafGrads(t.nodes[n].body.value, h, t.nodes[n].leaves)
    ensures forall i :: 0 <= i < |xs| ==> xs[i] == t.PathSum(t.nodes[n].body.value, h, t.nodes[n].leaves[i])
  {
    var b, leaves := t.nodes[n].body.value, t.nodes[n].leaves;
    forall i: nat | i < |leaves|
      ensures xs[i] == t.LeafGrads(b, h, leaves)[i] == t.PathSum(b, h, leaves[i])
    {
      assert t.Owns(n, leaves[i]);
      FreshLeafLasts(t, n, b, leaves[i]);
      assert Received(t, start, slots, b, h, leaves[i]);
      t.LeafGradAt(b, h, leaves, i);
    }
  }

  // ---- Which nodes were applied ----

  /** Applying node `n` to `h` goes through: the arity is right, and a recompute does not fail. */
  ghost predicate GoesThrough<T(!new)>(t: Tape<T>, n: nat, h: T)
    requires t.Acyclic() && n < |t.nodes|
  {
    && (t.nodes[n].Op? ==> |t.nodes[n].apply(h)| == |t.nodes[n].edges|)
    && (t.nodes[n].Checkpoint? && BodyLawful(t, n) ==> !RecomputeFails(t, n, h))
  }

  /** Input `k` of node `n`, applied to `h`, gets a gradient. */
  ghost predicate Feeds<T(!new)>(t: Tape<T>, n: nat, h: T, k: nat)
    requires t.Acyclic() && n < |t.nodes| && k < |t.nodes[n].edges|
  {
    assert t.NodeBelow(n);
    match t.nodes[n]
    case Op(_, apply) => k < |apply(h)| && apply(h)[k].Some?
    case Checkpoint(_, body, leaves, _) => body.Some? && t.Lawful(body.value) && t.PathSum(body.value, h, leaves[k]).Some?
  }

  /** Everything that an applied node feeds is applied, or still in `grads`. */
  ghost predicate Followed<T(!new)>(t: Tape<T>, applied: map<nat, T>, grads: map<nat, T>, n: nat)
    requires t.Acyclic() && n < |t.nodes| && n in applied
  {
    forall k: nat :: k < |t.nodes[n].edges| && Feeds(t, n, applied[n], k) && t.nodes[n].edges[k].ToNode? ==>
      t.nodes[n].edges[k].node in applied || t.nodes[n].edges[k].node in grads
  }

  /** The applied nodes went through, and so did everything they feed. */
  ghost predicate AppliedSoundly<T(!new)>(t: Tape<T>, applied: map<nat, T>, grads: map<nat, T>)
    requires t.Acyclic()
  {
    forall n: nat :: n in applied ==> n < |t.nodes| && GoesThrough(t, n, applied[n]) && Followed(t, applied, grads, n)
  }

  /** Other pending gradients stay pending. */
  ghost predicate Keeps<T>(grads: map<nat, T>, n: nat, next: map<nat, T>) {
    forall m :: m in grads && m != n ==> m in next
  }

  /** Every node that `n` feeds has a pending gradient. */
  ghost predicate FedIn<T(!new)>(t: Tape<T>, n: nat, h: T, next: map<nat, T>)
    requires t.Acyclic() && n < |t.nodes|
  {
    forall k: nat :: k < |t.nodes[n].edges| && Feeds(t, n, h, k) && t.nodes[n].edges[k].ToNode? ==> t.nodes[n].edges[k].node in next
  }

  lemma WithoutLast<T>(grads: map<nat, T>, order: seq<nat>, n: nat)
    requires PendingIn(grads, order + [n])
    ensures PendingIn(grads - {n}, order)
  {
    forall m | m in grads - {n} ensures m in order {
      assert m in order + [n];
    }
  }

  lemma AppliedMore<T(!new)>(t: Tape<T>, applied: map<nat, T>, grads: map<nat, T>, n: nat, next: map<nat, T>)
    requires t.Acyclic() && AppliedSoundly(t, applied, grads) && n < |t.nodes| && n in grads && GoesThrough(t, n, grads[n])
    requires Keeps(grads, n, next) && FedIn(t, n, grads[n], next) && n !in applied
    ensures AppliedSoundly(t, applied[n := grads[n]], next)
  {
    var more := applied[n := grads[n]];
    forall i: nat | i in more ensures i < |t.nodes| && GoesThrough(t, i, more[i]) && Followed(t, more, next, i) {
      if i != n {
        assert Followed(t, applied, grads, i) && more[i] == applied[i];
      }
    }
  }

  /** The walk has come down to position `i`: the applied nodes are among the later ones, the root is the first of them. */
  ghost predicate Progress<T(!new)>(t: Tape<T>, topo: seq<nat>, i: nat, grads: map<nat, T>, applied: map<nat, T>, root: nat, seed: T)
    requires t.Acyclic() && i <= |topo|
  {
    && AppliedSoundly(t, applied, grads)
    && (forall m :: m in applied ==> m !in topo[..i])
    && (if i == |topo| then grads == map[root := seed] else root in applied && applied[root] == seed)
  }

  lemma ProgressApplied<T(!new)>(t: Tape<T>, topo: seq<nat>, i: nat, grads: map<nat, T>, applied: map<nat, T>, root: nat, seed: T, next: map<nat, T>)
    requires t.Acyclic() && PostOrder(t, topo) && root in topo && forall v :: v in topo ==> Reachable(t, root, v)
    requires i < |topo| && topo[i] < |t.nodes| && topo[i] in grads && Progress(t, topo, i + 1, grads, applied, root, seed)
    requires GoesThrough(t, topo[i], grads[topo[i]]) && Keeps(grads, topo[i], next) && FedIn(t, topo[i], grads[topo[i]], next)
    ensures Progress(t, topo, i, next, applied[topo[i] := grads[topo[i]]], root, seed)
  {
    var n := topo[i];
    assert topo[..i + 1] == topo[..i] + [n] && topo[..i + 1][i] == n;
    AppliedMore(t, applied, grads, n, next);
    if i + 1 == |topo| {
      RootIsLast(t, topo, root);
    }
  }

  lemma ProgressSkipped<T(!new)>(t: Tape<T>, topo: seq<nat>, i: nat, grads: map<nat, T>, applied: map<nat, T>, root: nat, seed: T)
    requires t.Acyclic() && PostOrder(t, topo) && root in topo && forall v :: v in topo ==> Reachable(t, root, v)
    requires i < |topo| && topo[i] !in grads && Progress(t, topo, i + 1, grads, applied, root, seed)
    ensures Progress(t, topo, i, grads, applied, root, seed)
  {
    assert topo[..i + 1] == topo[..i] + [topo[i]];
    if i + 1 == |topo| {
      RootIsLast(t, topo, root);
    }
  }

  lemma WalkEnd<T(!new)>(t: Tape<T>, topo: seq<nat>, grads: map<nat, T>, applied: map<nat, T>, root: nat, seed: T)
    requires t.Acyclic() && topo != [] && grads == map[] && Progress(t, topo, 0, grads, applied, root, seed)
    ensures exists a: map<nat, T> :: root in a && a[root] == seed && AppliedSoundly(t, a, map[])
  {
  }

  // ---- The walk as a whole ----

  /** Only listed nodes have a pending gradient. */
  ghost predicate PendingIn<T>(grads: map<nat, T>, order: seq<nat>) {
    forall m :: m in grads ==> m in order
  }

  /** For every lasting slot: held plus still pending equals the old value plus the sum over all paths. */
  ghost predicate WalkInvariant<T(!new)>(t: Tape<T>, start: map<nat, T>, slots: map<nat, T>, order: seq<nat>,
                                         grads: map<nat, T>, root: nat, seed: T)
    requires t.Acyclic() && root < |t.nodes| && forall i :: 0 <= i < |order| ==> order[i] < |t.nodes|
  {
    forall s: nat :: t.Lasting(root, s) ==>
      t.Plus(Lookup(slots, s), Pending(t, order, grads, s)) == t.Plus(Lookup(start, s), t.PathSum(root, seed, s))
  }

  lemma WalkStart<T(!new)>(t: Tape<T>, slots: map<nat, T>, topo: seq<nat>, root: nat, seed: T)
    requires t.Acyclic() && root < |t.nodes| && PostOrder(t, topo) && root in topo
    requires forall v :: v in topo ==> Reachable(t, root, v)
    ensures WalkInvariant(t, slots, slots, topo, map[root := seed], root, seed)
  {
    forall s: nat ensures Pending(t, topo, map[root := seed], s) == t.PathSum(root, seed, s) {
      PendingRoot(t, topo, root, seed, s);
    }
  }

  lemma WalkNode<T(!new)>(t: Tape<T>, topo: seq<nat>, i: nat, root: nat)
    requires t.Acyclic() && root < |t.nodes| && PostOrder(t, topo) && i < |topo|
    requires forall v :: v in topo ==> Reachable(t, root, v)
    ensures Reachable(t, root, topo[i]) && topo[i] <= root
    ensures PostOrder(t, topo[..i]) && PostOrder(t, topo[..i] + [topo[i]])
  {
    assert topo[i] in topo;
    ReachableBelow(t, root, topo[i]);
    PrefixPostOrder(t, topo, i);
    PrefixPostOrder(t, topo, i + 1);
    assert topo[..i + 1] == topo[..i] + [topo[i]];
  }

  lemma WalkApplied<T(!new)>(t: Tape<T>, start: map<nat, T>, held: map<nat, T>, slots: map<nat, T>, order: seq<nat>,
                             pending: map<nat, T>, grads: map<nat, T>, n: nat, root: nat, seed: T)
    requires t.Acyclic() && n <= root < |t.nodes| && forall i :: 0 <= i < |order| ==> order[i] < |t.nodes|
    requires WalkInvariant(t, start, held, order + [n], pending, root, seed)
    requires forall s: nat :: t.Lasting(n, s) ==>
               t.Plus(Lookup(slots, s), Pending(t, order, grads, s)) == t.Plus(Lookup(held, s), Pending(t, order + [n], pending, s))
    ensures WalkInvariant(t, start, slots, order, grads, root, seed)
  {
    forall s: nat | t.Lasting(root, s)
      ensures t.Plus(Lookup(slots, s), Pending(t, order, grads, s)) == t.Plus(Lookup(start, s), t.PathSum(root, seed, s))
    {
      assert t.Lasting(n, s);
    }
  }

  lemma WalkSkipped<T(!new)>(t: Tape<T>, start: map<nat, T>, slots: map<nat, T>, order: seq<nat>,
                             grads: map<nat, T>, n: nat, root: nat, seed: T)
    requires t.Acyclic() && n <= root < |t.nodes| && forall i :: 0 <= i < |order| ==> order[i] < |t.nodes|
    requires n !in grads && WalkInvariant(t, start, slots, order + [n], grads, root, seed)
    ensures WalkInvariant(t, start, slots, order, grads, root, seed)
  {
    assert (order + [n])[..|order|] == order;
    forall s: nat ensures Pending(t, order + [n], grads, s) == Pending(t, order, grads, s) {
    }
  }

  // ---- Engine ----

  class Engine<T(!new)> {
    const tape: Tape<T>
    /** Grad slots of the leaf variables; a slot without an entry holds no gradient. */
    var slots: map<nat, T>
    /** Counts re-runs of checkpointed functions. */
    var recomputes: nat

    constructor (tape: Tape<T>)
      ensures this.tape == tape && slots == map[] && recomputes == 0
    {
      this.tape := tape;
      slots := map[];
      recomputes := 0;
    }

    /**
     `backward` on an output variable. When every node keeps its contract, each slot that
     outlives the run ends with its old value plus the sum over all paths from the output.
     */
    method Run(output: Variable, seed: T) returns (r: Outcome)
      requires tape.WellFormed() && (output.gradFn.Some? ==> output.gradFn.value < |tape.nodes|)
      modifies this
      ensures output.gradFn.None? ==> r == NoGradFn && slots == old(slots)
      ensures output.gradFn.Some? && tape.Lawful(output.gradFn.value) ==>
                && r == Done
                && forall s: nat :: tape.Lasting(output.gradFn.value, s) ==>
                     Received(tape, old(slots), slots, output.gradFn.value, seed, s)
    {
      match output.gradFn
      case None => r := NoGradFn;
      case Some(root) => r := Backward(root, seed);
    }

    /** The sort and the reverse walk. Success means that every node that was given a gradient went through. */
    method Backward(root: nat, seed: T) returns (r: Outcome)
      requires tape.WellFormed() && root < |tape.nodes|
      modifies this
      ensures tape.Lawful(root) ==>
                r == Done && forall s: nat :: tape.Lasting(root, s) ==> Received(tape, old(slots), slots, root, seed, s)
      ensures r.ArityMismatch? ==>
                && r.node < |tape.nodes| && Reachable(tape, root, r.node) && tape.nodes[r.node].Op?
                && exists h: T :: |tape.nodes[r.node].apply(h)| != |tape.nodes[r.node].edges|
      ensures r == Done ==> exists applied: map<nat, T> ::
                root in applied && applied[root] == seed && AppliedSoundly(tape, applied, map[])
      ensures recomputes >= old(recomputes)
      decreases root, 2, 0
    {
      var sort := new TopoSort(tape);
      sort.Visit(root);
      assert sort.topo[0..] == sort.topo;
      r := Walk(sort.topo, root, seed);
    }

    /** The reverse walk over a sorted list of the nodes that the root reaches. */
    method Walk(topo: seq<nat>, root: nat, seed: T) returns (r: Outcome)
      requires tape.WellFormed() && root < |tape.nodes| && PostOrder(tape, topo) && root in topo
      requires forall v :: v in topo ==> Reachable(tape, root, v)
      modifies this
      ensures tape.Lawful(root) ==>
                r == Done && forall s: nat :: tape.Lasting(root, s) ==> Received(tape, old(slots), slots, root, seed, s)
      ensures r.ArityMismatch? ==>
                && r.node < |tape.nodes| && Reachable(tape, root, r.node) && tape.nodes[r.node].Op?
                && exists h: T :: |tape.nodes[r.node].apply(h)| != |tape.nodes[r.node].edges|
      ensures r == Done ==> exists applied: map<nat, T> ::
                root in applied && applied[root] == seed && AppliedSoundly(tape, applied, map[])
      ensures recomputes >= old(recomputes)
      decreases root, 1, 2
    {
      var grads: map<nat, T> := map[root := seed];
      ghost var lawful := tape.Lawful(root);
      WalkStart(tape, slots, topo, root, seed);
      ghost var applied: map<nat, T> := map[];
      var i := |topo|;
      assert topo[..i] == topo;
      while i > 0
        invariant 0 <= i <= |topo|
        invariant PendingIn(grads, topo[..i])
        invariant lawful ==> WalkInvariant(tape, old(slots), slots, topo[..i], grads, root, seed)
        invariant Progress(tape, topo, i, grads, applied, root, seed)
        invariant recomputes >= old(recomputes)
      {
        i := i - 1;
        var n := topo[i];
        assert topo[..i + 1] == topo[..i] + [n];
        WalkNode(tape, topo, i, root);
        if n in grads {
          ghost var held, pending := slots, grads;
          r, grads := ApplyNode(grads, n, topo[..i]);
          if r != Done {
            return;
          }
          ProgressApplied(tape, topo, i, pending, applied, root, seed, grads);
          applied := applied[n := pending[n]];
          if lawful {
            WalkApplied(tape, old(slots), held, slots, topo[..i], pending, grads, n, root, seed);
          }
        } else {
          ProgressSkipped(tape, topo, i, grads, applied, root, seed);
          if lawful {
            WalkSkipped(tape, old(slots), slots, topo[..i], grads, n, root, seed);
          }
        }
      }
      assert topo[..0] == [];
      // No pending gradient is left behind.
      assert forall m: nat :: m !in grads;
      assert grads == map[];
      WalkEnd(tape, topo, grads, applied, root, seed);
      r := Done;
    }

    /** One round of the reverse walk: take the pending gradient of `n`, apply the node, accumulate into its edges. */
    method ApplyNode(grads: map<nat, T>, n: nat, ghost order: seq<nat>) returns (r: Outcome, next: map<nat, T>)
      requires tape.WellFormed() && n < |tape.nodes| && n in grads
      requires PostOrder(tape, order + [n]) && PostOrder(tape, order)
      requires PendingIn(grads, order + [n])
      modifies this
      ensures tape.Lawful(n) ==>
                r == Done && forall s: nat :: tape.Lasting(n, s) ==>
                  tape.Plus(Lookup(slots, s), Pending(tape, order, next, s)) == Due(tape, old(slots), order, grads, n, s)
      ensures r == Done ==> PendingIn(next, order)
      ensures r.ArityMismatch? ==>
                && r.node == n && tape.nodes[n].Op?
                && exists h: T :: |tape.nodes[n].apply(h)| != |tape.nodes[n].edges|
      ensures r == Done ==> GoesThrough(tape, n, grads[n]) && Keeps(grads, n, next) && FedIn(tape, n, grads[n], next)
      ensures recomputes >= old(recomputes)
      decreases n, 1, 1
    {
      var h := grads[n];
      next := grads - {n};
      assert tape.NodeBelow(n);
      var xs;
      r, xs := Apply(n, h);
      if r != Done {
        return;
      }
      if |xs| != |tape.nodes[n].edges| {
        r := ArityMismatch(n);
        return;
      }
      if tape.Lawful(n) {
        ApplySteps(tape, old(slots), slots, order, grads, n, xs);
      }
      InputsListed(tape, order, n);
      assert PendingIn(next, order) by {
        WithoutLast(grads, order, n);
      }
      next := PassOn(n, xs, next, order);
    }

    /** Accumulates the gradients that node `n` returned into its edges. */
    method PassOn(n: nat, xs: seq<Option<T>>, grads: map<nat, T>, ghost order: seq<nat>) returns (next: map<nat, T>)
      requires tape.WellFormed() && n < |tape.nodes| && tape.NodeBelow(n) && PostOrder(tape, order)
      requires |xs| == |tape.nodes[n].edges| && PendingIn(grads, order)
      requires forall j :: 0 <= j < |xs| && tape.nodes[n].edges[j].ToNode? ==> tape.nodes[n].edges[j].node in order
      modifies `slots
      ensures PendingIn(next, order)
      ensures forall m :: m in grads ==> m in next
      ensures forall j :: 0 <= j < |xs| && xs[j].Some? && tape.nodes[n].edges[j].ToNode? ==> tape.nodes[n].edges[j].node in next
      ensures tape.Lawful(n) ==> forall s: nat ::
                tape.Plus(Lookup(slots, s), Pending(tape, order, next, s)) == Balance(tape, old(slots), order, grads, n, tape.nodes[n].edges, xs, s)
    {
      next := grads;
      var edges := tape.nodes[n].edges;
      ghost var lawful := tape.Lawful(n);
      assert edges[0..] == edges && xs[0..] == xs;
      var k := 0;
      while k < |edges|
        invariant 0 <= k <= |edges|
        invariant PendingIn(next, order) && forall m :: m in grads ==> m in next
        invariant forall j :: 0 <= j < k && xs[j].Some? && edges[j].ToNode? ==> edges[j].node in next
        invariant lawful ==> forall s: nat ::
                    Balance(tape, slots, order, next, n, edges[k..], xs[k..], s) == Balance(tape, old(slots), order, grads, n, edges, xs, s)
      {
        assert edges[k..][1..] == edges[k + 1..] && xs[k..][1..] == xs[k + 1..];
        if lawful {
          EdgeSteps(tape, slots, order, next, n, edges[k..], xs[k..]);
        }
        if xs[k].Some? {
          next := AccumulateIntoEdge(edges[k], xs[k].value, next);
        }
        k := k + 1;
      }
    }

    method AccumulateIntoEdge(e: Edge, x: T, grads: map<nat, T>) returns (next: map<nat, T>)
      modifies `slots
      ensures next == GradsAfter(tape, e, x, grads) && slots == SlotsAfter(tape, e, x, old(slots))
    {
      next := grads;
      match e
      case ToNode(m) =>
        if m in grads {
          next := grads[m := tape.add(grads[m], x)];
        } else {
          next := grads[m := x];
        }
      case Leaf(l) =>
        if l in slots {
          slots := slots[l := tape.add(slots[l], x)];
        } else {
          slots := slots[l := x];
        }
      case Detached =>
    }

    /**
     `Node::apply`. A checkpoint starts from empty leaves, re-runs its function, runs a nested
     `backward` on the recomputed output, and returns what its leaves received.
     */
    method Apply(n: nat, h: T) returns (r: Outcome, xs: seq<Option<T>>)
      requires tape.WellFormed() && n < |tape.nodes|
      modifies this
      ensures tape.nodes[n].Op? ==> r == Done && xs == tape.nodes[n].apply(h) && slots == old(slots)
      ensures tape.nodes[n].Checkpoint? && r == Done ==> |xs| == |tape.nodes[n].edges|
      ensures r == Done || r == Panicked
      ensures tape.Lawful(n) ==>
                && r == Done && |xs| == |tape.nodes[n].edges|
                && Applied(tape, old(slots), slots, n, h, xs)
                && forall s: nat :: tape.Lasting(n, s) ==> AppliedTo(tape, old(slots), slots, n, h, s)
      ensures tape.nodes[n].Checkpoint? && BodyLawful(tape, n) ==> (r == Panicked <==> RecomputeFails(tape, n, h))
      ensures r == Done ==> forall k: nat :: k < |tape.nodes[n].edges| && Feeds(tape, n, h, k) ==> k < |xs| && xs[k].Some?
      ensures recomputes >= old(recomputes) + if tape.nodes[n].Checkpoint? then 1 else 0
      decreases n, 1, 0
    {
      assert tape.NodeBelow(n);
      assert tape.Lawful(n) ==> tape.LawfulNode(n);
      xs := [];
      match tape.nodes[n]
      case Op(edges, apply) =>
        r, xs := Done, apply(h);
      case Checkpoint(edges, body, leaves, strict) =>
        slots := slots - set l | l in leaves;
        ghost var start := slots;
        recomputes := recomputes + 1;
        if body.None? {
          r := Panicked;
          return;
        }
        r := Backward(body.value, h);
        if r != Done {
          r := Panicked;
          return;
        }
        var held := slots;
        xs := seq(|leaves|, i requires 0 <= i < |leaves| => Lookup(held, leaves[i]));
        if tape.Lawful(body.value) {
          RecomputedLeaves(tape, n, start, slots, h, xs);
        }
        if tape.Lawful(n) {
          forall s: nat | tape.Lasting(n, s)
            ensures Received(tape, old(slots), slots, body.value, h, s)
          {
            assert !tape.Owns(n, s);
            assert tape.Lasting(body.value, s);
            assert Received(tape, start, slots, body.value, h, s);
          }
        }
        if strict && (leaves == [] || xs[0].None?) {
          r := Panicked;
        }
    }
  }
}
