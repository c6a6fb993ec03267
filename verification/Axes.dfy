/**
 Lines of a tensor along one axis. The positions of a line differ in one coordinate only; summing
 over the group of a position is summing over its line.
 */
module Axes {
  import opened Sums
  import opened IndexMaps
  import opened Strides
  import U = Unbroadcasting

  /** The group of a position: its index in the tensor that is reduced along `dim` to size one. */
  function Groups(shape: Shape, dim: nat): Index {
    U.Keep(shape, {dim})
  }

  function LineAt(shape: Shape, dim: nat, c: seq<nat>, t: int): int
    requires |c| == |shape|
  {
    if 0 <= t && dim < |c| then Encode(c[dim := t], shape) else 0
  }

  /** The positions of the line through coordinates `c` along axis `dim`. */
  function Line(shape: Shape, dim: nat, c: seq<nat>): Index
    requires |c| == |shape|
  {
    t => LineAt(shape, dim, c, t)
  }

  /** Coordinates that agree off the axis. */
  ghost predicate AgreeOff(c: seq<nat>, d: seq<nat>, dim: nat) {
    |c| == |d| && forall a :: 0 <= a < |c| && a != dim ==> c[a] == d[a]
  }

  lemma KeptIndex(shape: Shape, dim: nat, c: seq<nat>)
    requires InShape(c, shape) && dim < |shape|
    ensures var s := U.KeepShape(shape, {dim});
            && Encode(c, shape) < Numel(shape) && InShape(U.KeepCoords(c, {dim}), s)
            && Groups(shape, dim)(Encode(c, shape)) == Encode(U.KeepCoords(c, {dim}), s)
  {
    forall i | 0 <= i < |shape| ensures shape[i] > 0 {
      assert c[i] < shape[i];
    }
    EncodeBound(c, shape);
    DecodeEncode(c, shape);
    DotIsEncode(U.KeepCoords(c, {dim}), U.KeepShape(shape, {dim}));
  }

  lemma KeepAgrees(c: seq<nat>, d: seq<nat>, dim: nat)
    requires |c| == |d|
    ensures U.KeepCoords(c, {dim}) == U.KeepCoords(d, {dim}) <==> AgreeOff(c, d, dim)
  {
    var kc, kd := U.KeepCoords(c, {dim}), U.KeepCoords(d, {dim});
    if kc == kd {
      forall a | 0 <= a < |c| && a != dim ensures c[a] == d[a] {
        assert kc[a] == kd[a];
      }
    }
  }

  lemma EncodeInjective(c: seq<nat>, d: seq<nat>, shape: Shape)
    requires InShape(c, shape) && InShape(d, shape) && Encode(c, shape) == Encode(d, shape)
    ensures c == d
  {
    forall i | 0 <= i < |shape| ensures shape[i] > 0 {
      assert c[i] < shape[i];
    }
    DecodeEncode(c, shape);
    DecodeEncode(d, shape);
  }

  lemma CoordsGroup(shape: Shape, dim: nat, c: seq<nat>, d: seq<nat>)
    requires InShape(c, shape) && InShape(d, shape) && dim < |shape|
    ensures Groups(shape, dim)(Encode(c, shape)) == Groups(shape, dim)(Encode(d, shape)) <==> AgreeOff(c, d, dim)
  {
    KeptIndex(shape, dim, c);
    KeptIndex(shape, dim, d);
    KeepAgrees(c, d, dim);
    var s, kc, kd := U.KeepShape(shape, {dim}), U.KeepCoords(c, {dim}), U.KeepCoords(d, {dim});
    if Encode(kc, s) == Encode(kd, s) {
      EncodeInjective(kc, kd, s);
    }
  }

  /** Two positions are in one group if and only if their coordinates agree on every other axis. */
  lemma SameGroup(shape: Shape, dim: nat, l: nat, k: nat)
    requires dim < |shape| && l < Numel(shape) && k < Numel(shape)
    ensures Positive(shape)
    ensures Groups(shape, dim)(l) == Groups(shape, dim)(k)
       <==> forall a :: 0 <= a < |shape| && a != dim ==> Decode(l, shape)[a] == Decode(k, shape)[a]
  {
    NumelPositive(shape);
    DecodeInShape(l, shape);
    DecodeInShape(k, shape);
    EncodeDecode(l, shape);
    EncodeDecode(k, shape);
    CoordsGroup(shape, dim, Decode(l, shape), Decode(k, shape));
  }

  lemma LineInShape(shape: Shape, dim: nat, c: seq<nat>, t: nat)
    requires InShape(c, shape) && dim < |shape| && t < shape[dim]
    ensures InShape(c[dim := t], shape) && 0 <= Line(shape, dim, c)(t) < Numel(shape)
    ensures Groups(shape, dim)(Line(shape, dim, c)(t)) == Groups(shape, dim)(Encode(c, shape))
  {
    EncodeBound(c[dim := t], shape);
    CoordsGroup(shape, dim, c[dim := t], c);
  }

  lemma LineInjective(shape: Shape, dim: nat, c: seq<nat>, s: nat, t: nat)
    requires InShape(c, shape) && dim < |shape| && s < shape[dim] && t < shape[dim]
    requires Line(shape, dim, c)(s) == Line(shape, dim, c)(t)
    ensures s == t
  {
    LineInShape(shape, dim, c, s);
    LineInShape(shape, dim, c, t);
    EncodeInjective(c[dim := s], c[dim := t], shape);
    assert c[dim := s][dim] == c[dim := t][dim];
  }

  /** Every position of the group lies on the line. */
  lemma LineCovers(shape: Shape, dim: nat, c: seq<nat>, k: nat) returns (t: nat)
    requires InShape(c, shape) && dim < |shape| && k < Numel(shape)
    requires Groups(shape, dim)(k) == Groups(shape, dim)(Encode(c, shape))
    ensures t < shape[dim] && Line(shape, dim, c)(t) == k
  {
    NumelPositive(shape);
    DecodeInShape(k, shape);
    EncodeDecode(k, shape);
    var d := Decode(k, shape);
    CoordsGroup(shape, dim, d, c);
    t := d[dim];
    assert c[dim := t] == d;
  }

  /** How often a line meets a position: once if the position is in the group, else not at all. */
  lemma LineMeets(shape: Shape, dim: nat, c: seq<nat>, k: nat)
    requires InShape(c, shape) && dim < |shape| && k < Numel(shape)
    ensures PushAt(shape[dim], Line(shape, dim, c), One(), k)
         == if Groups(shape, dim)(k) == Groups(shape, dim)(Encode(c, shape)) then 1.0 else 0.0
  {
    var hits := Hits(Line(shape, dim, c), One(), k);
    if Groups(shape, dim)(k) == Groups(shape, dim)(Encode(c, shape)) {
      var t := LineCovers(shape, dim, c, k);
      forall s | 0 <= s < shape[dim] && s != t ensures hits(s) == 0.0 {
        if Line(shape, dim, c)(s) == k {
          LineInjective(shape, dim, c, s, t);
        }
      }
      SumSingle(shape[dim], hits, t);
    } else {
      forall s | 0 <= s < shape[dim] ensures hits(s) == 0.0 {
        LineInShape(shape, dim, c, s);
      }
      SumZero(shape[dim], hits);
    }
  }

  /** `line` meets every position where `f` is not zero exactly once. */
  ghost predicate Enumerates(m: nat, line: Index, n: nat, f: Fn) {
    Into(line, m, n) && forall k :: 0 <= k < n && f(k) != 0.0 ==> Push(m, line, One())(k) == 1.0
  }

  lemma OnceEach(w: real, f: real)
    requires f == 0.0 || w == 1.0
    ensures w * f == f && 1.0 * f == f
  {
  }

  /** Then the sum over the line is the sum over everything. */
  lemma SumEnumerated(m: nat, line: Index, n: nat, f: Fn)
    requires Enumerates(m, line, n, f)
    ensures Sum(m, Pull(line, f)) == Sum(n, f)
  {
    PushAdjoint(m, n, line, One(), f);
    forall t: int ensures Times(One(), Pull(line, f))(t) == Pull(line, f)(t) {
      OnceEach(1.0, Pull(line, f)(t));
    }
    SumCongruence(m, Times(One(), Pull(line, f)), Pull(line, f));
    var w := Push(m, line, One());
    forall k | 0 <= k < n ensures Times(w, f)(k) == f(k) {
      OnceEach(w(k), f(k));
    }
    SumCongruence(n, Times(w, f), f);
  }

  lemma LineEnumerates(shape: Shape, dim: nat, c: seq<nat>, f: Fn)
    requires InShape(c, shape) && dim < |shape|
    ensures Enumerates(shape[dim], Line(shape, dim, c), Numel(shape), Hits(Groups(shape, dim), f, Groups(shape, dim)(Encode(c, shape))))
  {
    var line, n := Line(shape, dim, c), Numel(shape);
    var hits := Hits(Groups(shape, dim), f, Groups(shape, dim)(Encode(c, shape)));
    forall t | 0 <= t < shape[dim] ensures 0 <= line(t) < n {
      LineInShape(shape, dim, c, t);
    }
    forall k | 0 <= k < n && hits(k) != 0.0 ensures Push(shape[dim], line, One())(k) == 1.0 {
      LineMeets(shape, dim, c, k);
    }
  }

  lemma LineHits(shape: Shape, dim: nat, c: seq<nat>, f: Fn, t: nat)
    requires InShape(c, shape) && dim < |shape| && t < shape[dim]
    ensures Hits(Groups(shape, dim), f, Groups(shape, dim)(Encode(c, shape)))(Line(shape, dim, c)(t)) == f(Line(shape, dim, c)(t))
  {
    LineInShape(shape, dim, c, t);
  }

  lemma LineHitsSum(shape: Shape, dim: nat, c: seq<nat>, f: Fn, hits: Fn)
    requires InShape(c, shape) && dim < |shape| && hits == Hits(Groups(shape, dim), f, Groups(shape, dim)(Encode(c, shape)))
    ensures Sum(shape[dim], Pull(Line(shape, dim, c), hits)) == Sum(shape[dim], Pull(Line(shape, dim, c), f))
  {
    var a, b := Pull(Line(shape, dim, c), hits), Pull(Line(shape, dim, c), f);
    forall t | 0 <= t < shape[dim] ensures a(t) == b(t) {
      LineHits(shape, dim, c, f, t);
    }
    SumCongruence(shape[dim], a, b);
  }

  /** Summing over a group is summing over the line. */
  lemma LineSum(shape: Shape, dim: nat, c: seq<nat>, f: Fn)
    requires InShape(c, shape) && dim < |shape|
    ensures PushAt(Numel(shape), Groups(shape, dim), f, Groups(shape, dim)(Encode(c, shape)))
         == Sum(shape[dim], Pull(Line(shape, dim, c), f))
  {
    var hits := Hits(Groups(shape, dim), f, Groups(shape, dim)(Encode(c, shape)));
    LineEnumerates(shape, dim, c, f);
    SumEnumerated(shape[dim], Line(shape, dim, c), Numel(shape), hits);
    LineHitsSum(shape, dim, c, f, hits);
  }
}
