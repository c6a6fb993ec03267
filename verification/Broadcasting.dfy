/**
 Broadcasting and its adjoint. `Origin(s, o)` is the reference definition: the element of a
 tensor of shape `s` that appears at each position of the broadcast shape `o`.
 */
module Broadcasting {
  import opened Options
  import opened Sums
  import opened Strides
  import opened IndexMaps
  import opened Tensors

  /** A tensor of shape `s` can be broadcast to shape `o`; axes are aligned on the right. */
  predicate Compatible(s: Shape, o: Shape) {
    |s| <= |o| && forall i :: 0 <= i < |s| ==> s[i] == 1 || s[i] == o[|o| - |s| + i]
  }

  /** Coordinates in `s` of the element that is seen at `coords`. */
  function Collapse(coords: seq<nat>, s: Shape): (c: seq<nat>)
    requires |s| <= |coords|
    ensures |c| == |s|
    ensures forall i :: 0 <= i < |s| ==> c[i] == if s[i] == 1 then 0 else coords[|coords| - |s| + i]
  {
    seq(|s|, i requires 0 <= i < |s| => if s[i] == 1 then 0 else coords[|coords| - |s| + i])
  }

  function OriginAt(s: Shape, o: Shape, l: int): int {
    if Compatible(s, o) && Positive(o) && l >= 0 then Encode(Collapse(Decode(l, o), s), s) else 0
  }

  function Origin(s: Shape, o: Shape): Index {
    l => OriginAt(s, o, l)
  }

  lemma CollapseInShape(coords: seq<nat>, s: Shape, o: Shape)
    requires Compatible(s, o) && InShape(coords, o)
    ensures InShape(Collapse(coords, s), s)
  {
    forall i | 0 <= i < |s| ensures Collapse(coords, s)[i] < s[i] {
      assert coords[|o| - |s| + i] < o[|o| - |s| + i];
    }
  }

  lemma OriginInto(s: Shape, o: Shape)
    requires Compatible(s, o)
    ensures Into(Origin(s, o), Numel(o), Numel(s))
  {
    NumelPositive(o);
    forall l | 0 <= l < Numel(o) ensures 0 <= OriginAt(s, o, l) < Numel(s) {
      DecodeInShape(l, o);
      CollapseInShape(Decode(l, o), s, o);
      EncodeBound(Collapse(Decode(l, o), s), s);
    }
  }

  /** Broadcasting to the same shape moves nothing. */
  lemma OriginIdentity(s: Shape, l: nat)
    requires l < Numel(s)
    ensures OriginAt(s, s, l) == l
  {
    NumelPositive(s);
    DecodeInShape(l, s);
    var c := Decode(l, s);
    forall i | 0 <= i < |s| ensures Collapse(c, s)[i] == c[i] {
      assert c[i] < s[i];
    }
    assert Collapse(c, s) == c;
    EncodeDecode(l, s);
  }

  /** Broadcasting through an intermediate shape. */
  lemma OriginComposes(s: Shape, m: Shape, o: Shape, l: nat)
    requires Compatible(s, m) && Compatible(m, o) && l < Numel(o)
    ensures Compatible(s, o)
    ensures OriginAt(s, o, l) == OriginAt(s, m, OriginAt(m, o, l))
  {
    NumelPositive(o);
    DecodeInShape(l, o);
    CompatibleComposes(s, m, o);
    var c := Decode(l, o);
    CollapseInShape(c, m, o);
    CollapseComposes(c, s, m, o);
    forall i | 0 <= i < |m| ensures m[i] > 0 {
      assert Collapse(c, m)[i] < m[i];
    }
    DecodeEncode(Collapse(c, m), m);
  }

  lemma CompatibleComposes(s: Shape, m: Shape, o: Shape)
    requires Compatible(s, m) && Compatible(m, o)
    ensures Compatible(s, o)
  {
    forall i | 0 <= i < |s| ensures s[i] == 1 || s[i] == o[|o| - |s| + i] {
      var j := |m| - |s| + i;
      assert s[i] == 1 || s[i] == m[j];
      assert m[j] == 1 || m[j] == o[|o| - |m| + j];
    }
  }

  lemma CollapseComposes(c: seq<nat>, s: Shape, m: Shape, o: Shape)
    requires Compatible(s, m) && Compatible(m, o) && |c| == |o|
    ensures Collapse(Collapse(c, m), s) == Collapse(c, s)
  {
    var d := Collapse(c, m);
    forall i | 0 <= i < |s| ensures Collapse(d, s)[i] == Collapse(c, s)[i] {
      var j := |m| - |s| + i;
      assert s[i] == 1 || s[i] == m[j];
      assert d[j] == if m[j] == 1 then 0 else c[|c| - |m| + j];
    }
  }

  // ---- Unbroadcasting, as a function ----

  /** Entry `k` of the gradient of shape `o` summed back to shape `s`. */
  function Unbroadcast(s: Shape, o: Shape, g: Fn): Fn {
    Push(Numel(o), Origin(s, o), g)
  }

  /** Summing back is the adjoint of broadcasting: pairing `g` with a broadcast `x` pairs the sum with `x`. */
  lemma UnbroadcastIsAdjoint(s: Shape, o: Shape, g: Fn, x: Fn)
    requires Compatible(s, o)
    ensures Sum(Numel(o), Times(g, Pull(Origin(s, o), x))) == Sum(Numel(s), Times(Unbroadcast(s, o, g), x))
  {
    OriginInto(s, o);
    PushAdjoint(Numel(o), Numel(s), Origin(s, o), g, x);
  }

  lemma UnbroadcastConserves(s: Shape, o: Shape, g: Fn)
    requires Compatible(s, o)
    ensures Sum(Numel(s), Unbroadcast(s, o, g)) == Sum(Numel(o), g)
  {
    OriginInto(s, o);
    PushConserves(Numel(o), Numel(s), Origin(s, o), g);
  }

  /** Summing back in two steps, through any intermediate shape, is summing back at once. */
  lemma UnbroadcastComposes(s: Shape, m: Shape, o: Shape, g: Fn, k: int)
    requires Compatible(s, m) && Compatible(m, o)
    ensures Unbroadcast(s, m, Unbroadcast(m, o, g))(k) == Unbroadcast(s, o, g)(k)
  {
    OriginInto(m, o);
    PushComposes(Numel(o), Numel(m), Origin(m, o), Origin(s, m), g, k);
    forall l | 0 <= l < Numel(o) ensures OriginAt(s, o, l) == OriginAt(s, m, OriginAt(m, o, l)) {
      OriginComposes(s, m, o, l);
    }
    PushCongruence(Numel(o), l => Origin(s, m)(Origin(m, o)(l)), Origin(s, o), g, g, k);
  }

  // ---- The output shape of a binary operation ----

  /** `o` is the least shape that `a` and `b` both broadcast to. */
  ghost predicate IsJoin(a: Shape, b: Shape, o: Shape) {
    && Compatible(a, o) && Compatible(b, o)
    && forall p :: Compatible(a, p) && Compatible(b, p) ==> Compatible(o, p)
  }

  lemma JoinUnique(a: Shape, b: Shape, o: Shape, p: Shape)
    requires IsJoin(a, b, o) && IsJoin(a, b, p)
    ensures o == p
  {
    assert Compatible(o, p) && Compatible(p, o);
  }

  /** Axis `k` counted from the right; missing axes have size one. */
  function FromRight(s: Shape, k: nat): nat {
    if k < |s| then s[|s| - 1 - k] else 1
  }

  lemma CompatibleFromRight(s: Shape, o: Shape)
    ensures Compatible(s, o)
       <==> |s| <= |o| && forall k: nat :: k < |s| ==> FromRight(s, k) == 1 || FromRight(s, k) == FromRight(o, k)
  {
    if Compatible(s, o) {
      forall k: nat | k < |s| ensures FromRight(s, k) == 1 || FromRight(s, k) == FromRight(o, k) {
        assert s[|s| - 1 - k] == 1 || s[|s| - 1 - k] == o[|o| - |s| + (|s| - 1 - k)];
      }
    }
    if |s| <= |o| && forall k: nat :: k < |s| ==> FromRight(s, k) == 1 || FromRight(s, k) == FromRight(o, k) {
      forall i | 0 <= i < |s| ensures s[i] == 1 || s[i] == o[|o| - |s| + i] {
        var k := |s| - 1 - i;
        assert FromRight(s, k) == 1 || FromRight(s, k) == FromRight(o, k);
      }
    }
  }

  /** The rule for one axis, counted from the right: equal sizes, or one of them is one and the other is taken. */
  predicate AxisJoins(a: Shape, b: Shape, k: nat) {
    FromRight(a, k) == FromRight(b, k) || FromRight(a, k) == 1 || FromRight(b, k) == 1
  }

  /** `Shape::broadcast_with`. */
  method BroadcastWith(a: Shape, b: Shape) returns (r: Option<Shape>)
    ensures r.Some? ==> IsJoin(a, b, r.value)
    ensures r.None? ==> forall p :: !(Compatible(a, p) && Compatible(b, p))
    ensures r.Some? <==> forall k: nat :: k < |a| && k < |b| ==> AxisJoins(a, b, k)
    ensures r.Some? ==> |r.value| == if |a| >= |b| then |a| else |b|
    ensures r.Some? ==> forall k: nat :: k < |r.value| ==>
              FromRight(r.value, k) == if FromRight(a, k) == 1 then FromRight(b, k) else FromRight(a, k)
  {
    var n := if |a| >= |b| then |a| else |b|;
    var out: Shape := [];
    for i := 0 to n
      invariant |out| == i
      invariant forall k: nat :: k < i ==> AxisJoins(a, b, k)
      invariant forall k: nat :: k < i ==> FromRight(out, k) == if FromRight(a, k) == 1 then FromRight(b, k) else FromRight(a, k)
      invariant forall k: nat :: k < i ==> FromRight(a, k) == 1 || FromRight(a, k) == FromRight(out, k)
      invariant forall k: nat :: k < i ==> FromRight(b, k) == 1 || FromRight(b, k) == FromRight(out, k)
    {
      var l, m := FromRight(a, i), FromRight(b, i);
      if l != m && l != 1 && m != 1 {
        forall p ensures !(Compatible(a, p) && Compatible(b, p)) {
          CompatibleFromRight(a, p);
          CompatibleFromRight(b, p);
        }
        assert !AxisJoins(a, b, i);
        return None;
      }
      ghost var before := out;
      out := [if l == m then l else if l == 1 then m else l] + out;
      assert forall k: nat :: k < i ==> FromRight(out, k) == FromRight(before, k);
    }
    CompatibleFromRight(a, out);
    CompatibleFromRight(b, out);
    forall p | Compatible(a, p) && Compatible(b, p) ensures Compatible(out, p) {
      CompatibleFromRight(a, p);
      CompatibleFromRight(b, p);
      CompatibleFromRight(out, p);
      forall k: nat | k < |out| ensures FromRight(out, k) == 1 || FromRight(out, k) == FromRight(p, k) {
        assert FromRight(out, k) == if FromRight(a, k) == 1 then FromRight(b, k) else FromRight(a, k);
      }
    }
    return Some(out);
  }

  // ---- Broadcast strides ----

  function ExpandedAt(s: Shape, o: Shape, j: nat): int
    requires |s| <= |o| && j < |o|
  {
    var offset := |o| - |s|;
    if j >= offset && s[j - offset] == o[j] then RowMajor(s)[j - offset] else 0
  }

  /** Strides of shape `s` seen as shape `o`: zero on the broadcast axes. */
  function Expanded(s: Shape, o: Shape): (r: seq<int>)
    requires |s| <= |o|
    ensures |r| == |o| && forall j :: 0 <= j < |o| ==> r[j] == ExpandedAt(s, o, j)
  {
    seq(|o|, j requires 0 <= j < |o| => ExpandedAt(s, o, j))
  }

  lemma RowMajorFront(s: Shape, i: nat)
    requires i < |s| - 1
    ensures RowMajor(s)[i] == RowMajor(s[..|s| - 1])[i] * s[|s| - 1]
  {
  }

  lemma ExpandedFrontAt(s: Shape, o: Shape, front: Shape, out: Shape, j: nat)
    requires 0 < |s| <= |o| && j < |o| - 1 && front == s[..|s| - 1] && out == o[..|o| - 1]
    ensures ExpandedAt(s, o, j) == ExpandedAt(front, out, j) * s[|s| - 1]
  {
    var offset := |o| - |s|;
    if j >= offset {
      assert front[j - offset] == s[j - offset] && out[j] == o[j];
      RowMajorFront(s, j - offset);
    } else {
      assert ExpandedAt(s, o, j) == ExpandedAt(front, out, j) == 0;
    }
  }

  lemma ExpandedFront(s: Shape, o: Shape)
    requires 0 < |s| <= |o|
    ensures Expanded(s, o)[..|o| - 1] == Scale(Expanded(s[..|s| - 1], o[..|o| - 1]), s[|s| - 1])
  {
    var front, scaled := Expanded(s, o)[..|o| - 1], Scale(Expanded(s[..|s| - 1], o[..|o| - 1]), s[|s| - 1]);
    forall j | 0 <= j < |o| - 1 ensures front[j] == scaled[j] {
      ExpandedFrontAt(s, o, s[..|s| - 1], o[..|o| - 1], j);
    }
  }

  lemma {:induction false} DotZero(coords: seq<nat>, strides: seq<int>)
    requires |coords| == |strides| && forall i :: 0 <= i < |strides| ==> strides[i] == 0
    ensures DotStrides(coords, strides) == 0
  {
    if coords != [] {
      DotZero(coords[..|coords| - 1], strides[..|coords| - 1]);
    }
  }

  lemma ExpandedLast(c: nat, s: Shape, o: Shape)
    requires Compatible(s, o) && s != [] && c < o[|o| - 1]
    ensures c * Expanded(s, o)[|o| - 1] == if s[|s| - 1] == 1 then 0 else c
  {
    assert s[|s| - 1] == 1 || s[|s| - 1] == o[|o| - |s| + (|s| - 1)];
    LastStride(s, o);
    TimesUnit(c, Expanded(s, o)[|o| - 1]);
  }

  lemma LastStride(s: Shape, o: Shape)
    requires s != [] && |s| <= |o|
    ensures Expanded(s, o)[|o| - 1] == if s[|s| - 1] == o[|o| - 1] then 1 else 0
  {
    LastIsOne(s);
    assert Expanded(s, o)[|o| - 1] == ExpandedAt(s, o, |o| - 1);
  }

  lemma LastIsOne(s: Shape)
    requires s != []
    ensures RowMajor(s)[|s| - 1] == 1
  {
  }

  lemma TimesUnit(c: int, x: int)
    requires x == 0 || x == 1
    ensures c * x == if x == 1 then c else 0
  {
  }

  lemma CompatibleFront(s: Shape, o: Shape)
    requires Compatible(s, o) && s != []
    ensures Compatible(s[..|s| - 1], o[..|o| - 1])
  {
    var k, n := |s| - 1, |o| - 1;
    forall i | 0 <= i < k ensures s[..k][i] == 1 || s[..k][i] == o[..n][n - k + i] {
      assert s[i] == 1 || s[i] == o[|o| - |s| + i];
    }
  }

  lemma LastStep(coords: seq<nat>, strides: seq<int>, c: seq<nat>, s: Shape, front: int)
    requires 0 < |coords| == |strides| && 0 < |c| == |s|
    requires DotStrides(coords[..|coords| - 1], strides[..|coords| - 1]) == front
    requires Encode(c[..|s| - 1], s[..|s| - 1]) * s[|s| - 1] == front
    requires coords[|coords| - 1] * strides[|coords| - 1] == c[|s| - 1]
    ensures DotStrides(coords, strides) == Encode(c, s)
  {
  }

  lemma ScaledFront(coords: seq<nat>, s: Shape, o: Shape, e: nat)
    requires s != [] && |s| <= |o| == |coords|
    requires DotStrides(coords[..|o| - 1], Expanded(s[..|s| - 1], o[..|o| - 1])) == e
    ensures DotStrides(coords[..|o| - 1], Expanded(s, o)[..|o| - 1]) == e * s[|s| - 1]
  {
    ExpandedFront(s, o);
    DotScale(coords[..|o| - 1], Expanded(s[..|s| - 1], o[..|o| - 1]), s[|s| - 1]);
  }

  lemma ReadsScalar(coords: seq<nat>, o: Shape)
    requires |coords| == |o|
    ensures DotStrides(coords, Expanded([], o)) == Encode(Collapse(coords, []), [])
  {
    DotZero(coords, Expanded([], o));
  }

  lemma CollapseFront(coords: seq<nat>, s: Shape)
    requires 0 < |s| <= |coords|
    ensures Collapse(coords, s)[..|s| - 1] == Collapse(coords[..|coords| - 1], s[..|s| - 1])
  {
  }

  lemma ReadsStep(coords: seq<nat>, s: Shape, o: Shape, c: seq<nat>, e: nat, strides: seq<int>, origin: seq<nat>)
    requires Compatible(s, o) && InShape(coords, o) && s != []
    requires strides == Expanded(s, o) && origin == Collapse(coords, s)
    requires c == Collapse(coords[..|o| - 1], s[..|s| - 1]) && Encode(c, s[..|s| - 1]) == e
    requires DotStrides(coords[..|o| - 1], Expanded(s[..|s| - 1], o[..|o| - 1])) == e
    ensures DotStrides(coords, strides) == Encode(origin, s)
  {
    CollapseFront(coords, s);
    ScaledFront(coords, s, o, e);
    ExpandedLast(coords[|o| - 1], s, o);
    LastStep(coords, strides, origin, s, e * s[|s| - 1]);
  }

  /** Stride zero on the broadcast axes reads exactly the element that broadcasting shows. */
  lemma {:induction false} ExpandedReadsOrigin(coords: seq<nat>, s: Shape, o: Shape)
    requires Compatible(s, o) && InShape(coords, o)
    ensures DotStrides(coords, Expanded(s, o)) == Encode(Collapse(coords, s), s)
    decreases |s|
  {
    if s == [] {
      ReadsScalar(coords, o);
    } else {
      var k, n := |s| - 1, |o| - 1;
      CompatibleFront(s, o);
      ExpandedReadsOrigin(coords[..n], s[..k], o[..n]);
      var c := Collapse(coords[..n], s[..k]);
      ReadsStep(coords, s, o, c, Encode(c, s[..k]), Expanded(s, o), Collapse(coords, s));
    }
  }
}
