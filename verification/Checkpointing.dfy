/**
 `checkpoint` and `checkpoint_n` against a direct call of the same function.
 */
module Checkpointing {
  import opened Options
  import opened Sequences
  import opened Tapes
  import opened Engines
  import opened Inlining
  import opened Sending

  /** The backward node that `checkpoint_n` gives its output: only a tracked explicit input creates one. */
  function CheckpointGradFn(inputs: seq<Variable>, c: nat): Option<nat> {
    if exists i :: 0 <= i < |inputs| && inputs[i].requiresGrad then Some(c) else None
  }

  /** What `backward` from a variable with this backward node adds to slot `s`. */
  ghost function Added<T(!new)>(t: Tape<T>, gradFn: Option<nat>, g: T, s: nat): Option<T>
    requires t.Acyclic() && (gradFn.Some? ==> gradFn.value < |t.nodes|)
  {
    if gradFn.Some? then t.PathSum(gradFn.value, g, s) else None
  }

  ghost predicate Outside<T(!new)>(t: Tape<T>, c: nat, n: nat)
    requires t.Acyclic() && n < |t.nodes| && c < |t.nodes| && t.nodes[c].Checkpoint?
  {
    forall j :: 0 <= j < |t.nodes[c].leaves| ==> !Touches(t, n, t.nodes[c].leaves[j])
  }

  /**
   For every node outside the recompute, and the checkpoint itself, the tape with the checkpoint
   and the tape of the direct call send every slot the same gradient.
   */
  lemma CheckpointTransparent<T(!new)>(t: Tape<T>, c: nat, n: nat, g: T, s: nat)
    requires Setting(t, c, s) && n < |t.nodes| && Outside(t, c, n)
    ensures Inlined(t, c).Acyclic()
    ensures Inlined(t, c).PathSum(Target(t, c, n), g, s) == t.PathSum(n, g, s)
  {
    var leaves := t.nodes[c].leaves;
    InlinedAcyclic(t, c);
    assert t.NodeBelow(c);
    InlineNode(t, c, n, g, s);
    forall j: nat | j < |leaves|
      ensures t.LeafGrads(n, g, leaves)[j] == None
    {
      UntouchedSum(t, n, g, leaves[j]);
      t.LeafGradAt(n, g, leaves, j);
    }
    NothingThrough(t, c, t.nodes[c].edges, t.LeafGrads(n, g, leaves), s);
  }

  lemma CheckpointOutside<T(!new)>(t: Tape<T>, c: nat)
    requires t.WellFormed() && c < |t.nodes| && Scoped(t, c)
    ensures Outside(t, c, c)
  {
    assert t.NodeBelow(c);
  }

  /** The inlined tape is a tape `backward` accepts, under the same contract. */
  lemma InlinedLawful<T(!new)>(t: Tape<T>, c: nat)
    requires t.WellFormed() && c < |t.nodes| && t.Lawful(|t.nodes|) && Scoped(t, c)
    ensures Inlined(t, c).WellFormed() && Inlined(t, c).Lawful(|t.nodes|)
  {
    var u := Inlined(t, c);
    InlinedAcyclic(t, c);
    assert forall d, s :: u.Owns(d, s) ==> t.Owns(d, s);
    InlinedAddLawful(t, u);
    forall n: nat | n < |u.nodes|
      ensures u.LawfulNode(n)
    {
      if n != c {
        assert t.LawfulNode(n) && t.NodeBelow(n) && t.NodeBelow(c) && u.NodeBelow(n);
        if t.nodes[n].Op? {
          forall g: T, h: T ensures u.AdditiveAt(n, g, h) {
            assert t.AdditiveAt(n, g, h);
            SamePointwise(t, u, t.nodes[n].apply(g), t.nodes[n].apply(h));
          }
        } else if t.nodes[n].strict {
          forall g: T
            ensures u.PathSum(u.nodes[n].body.value, g, u.nodes[n].leaves[0]).Some?
          {
            InlineLeafGrads(t, c, n, g);
            t.LeafGradAt(t.nodes[n].body.value, g, t.nodes[n].leaves, 0);
            u.LeafGradAt(u.nodes[n].body.value, g, t.nodes[n].leaves, 0);
          }
        }
      } else {
        assert u.nodes[c] == Op(u.nodes[c].edges, u.nodes[c].apply) && u.nodes[c].edges == [];
        forall g: T, h: T ensures u.AdditiveAt(n, g, h) {
        }
      }
    }
  }

  lemma InlinedAddLawful<T(!new)>(t: Tape<T>, u: Tape<T>)
    requires t.LawfulAdd() && u.add == t.add
    ensures u.LawfulAdd()
  {
    forall a, b, c ensures u.AssociativeAt(a, b, c) {
      assert t.AssociativeAt(a, b, c);
    }
    forall a, b ensures u.CommutativeAt(a, b) {
      assert t.CommutativeAt(a, b);
    }
  }

  lemma SamePointwise<T(!new)>(t: Tape<T>, u: Tape<T>, xs: seq<Option<T>>, ys: seq<Option<T>>)
    requires u.add == t.add && |xs| == |ys|
    ensures t.Pointwise(xs, ys) == u.Pointwise(xs, ys)
  {
    forall i | 0 <= i < |xs| ensures t.Pointwise(xs, ys)[i] == u.Pointwise(xs, ys)[i] {
    }
  }

  /**
   Two runs of `backward` from the same slots, one over the checkpointed graph and one over the graph of
   the direct call, leave every lasting slot with the same gradient.
   */
  method CheckpointedEqualsDirect<T(!new)>(checkpointed: Engine<T>, direct: Engine<T>, c: nat, root: nat, seed: T)
    returns (r: Outcome, q: Outcome)
    requires checkpointed != direct && checkpointed.slots == direct.slots
    requires var t := checkpointed.tape;
             && t.WellFormed() && c <= root < |t.nodes| && t.Lawful(|t.nodes|) && Scoped(t, c)
             && Outside(t, c, root) && direct.tape == Inlined(t, c)
    modifies checkpointed, direct
    ensures r == Done && q == Done
    ensures forall s: nat :: checkpointed.tape.Lasting(root, s) ==> Lookup(checkpointed.slots, s) == Lookup(direct.slots, s)
  {
    ghost var t, u := checkpointed.tape, direct.tape;
    InlinedLawful(t, c);
    assert t.NodeBelow(c);
    ghost var start := direct.slots;
    r := checkpointed.Backward(root, seed);
    var start' := if root == c then checkpointed.tape.nodes[c].body.value else root;
    q := direct.Backward(start', seed);
    forall s: nat | t.Lasting(root, s)
      ensures Lookup(checkpointed.slots, s) == Lookup(direct.slots, s)
    {
      assert !t.Owns(c, s);
      CheckpointTransparent(t, c, root, seed, s);
      assert forall d: nat :: u.Owns(d, s) ==> t.Owns(d, s);
      assert u.Lasting(start', s);
      assert Received(t, start, checkpointed.slots, root, seed, s);
      assert Received(u, start, direct.slots, start', seed, s);
    }
  }

  /**
   Exactly when checkpointing a call is transparent for a slot: some explicit input is tracked, or no path
   leads from the checkpoint to the slot. Otherwise the gradients of captured variables are lost.
   */
  lemma TransparentExactly<T(!new)>(t: Tape<T>, c: nat, inputs: seq<Variable>, g: T, s: nat)
    requires Setting(t, c, s) && |t.nodes[c].edges| == |inputs|
    requires forall i :: 0 <= i < |inputs| ==> t.nodes[c].edges[i] == inputs[i].InputEdge()
    ensures Inlined(t, c).Acyclic()
    ensures Added(t, CheckpointGradFn(inputs, c), g, s) == Added(Inlined(t, c), t.nodes[c].body, g, s)
       <==> (exists i :: 0 <= i < |inputs| && inputs[i].requiresGrad) || t.PathSum(c, g, s).None?
    ensures Uniform(t, c) ==> (t.PathSum(c, g, s).None? <==> !Sends(t, c, s))
  {
    CheckpointOutside(t, c);
    CheckpointTransparent(t, c, c, g, s);
    if Uniform(t, c) {
      SendsExactly(t, c, g, s);
    }
  }
}
