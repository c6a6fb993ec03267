/**
 Softmax and log-softmax along an axis, line by line: what the group formulas mean in coordinates.
 */
module AxisSoftmax {
  import opened Floats
  import opened Sums
  import opened IndexMaps
  import opened Vectors
  import opened Strides
  import opened Axes
  import opened GroupSoftmax

  /** Outputs of one line sum to one. */
  ghost predicate SumsToOne(shape: Shape, dim: nat, c: seq<nat>, y: Fn)
    requires |c| == |shape| && dim < |shape|
  {
    Sum(shape[dim], Pull(Line(shape, dim, c), y)) == 1.0
  }

  lemma LineSumsToOne(e: ExpFn, shape: Shape, dim: nat, x: Fn, m: Fn, c: seq<nat>)
    requires InShape(c, shape) && dim < |shape|
    ensures SumsToOne(shape, dim, c, Softmaxes(e, Numel(shape), Groups(shape, dim), x, m))
  {
    EncodeBound(c, shape);
    GroupSumsToOne(e, Numel(shape), Groups(shape, dim), x, m, Encode(c, shape));
    LineSum(shape, dim, c, Softmaxes(e, Numel(shape), Groups(shape, dim), x, m));
  }

  lemma QuotientsProportional(a: real, b: real, z: real, u: real, v: real)
    requires z > 0.0 && a * v == b * u
    ensures (a / z) * v == (b / z) * u
  {
    assert (a / z) * v == (a * v) / z;
    assert (b / z) * u == (b * u) / z;
  }

  lemma ExpsExchange(e: ExpFn, x: real, y: real, m: real)
    ensures e(x - m) * e(y) == e(y - m) * e(x)
  {
    ExpAdds(e, x - m, y);
    ExpAdds(e, y - m, x);
    assert x - m + y == y - m + x;
  }

  /** Outputs `y` in the ratio of the exponentials of the inputs `x`. */
  ghost predicate RatioAt(e: ExpFn, x: Fn, y: Fn, l: int, k: int) {
    y(l) * e(x(k)) == y(k) * e(x(l))
  }

  lemma SameRatio(e: ExpFn, x: Fn, y: Fn, z: Fn, l: int, k: int)
    requires y(l) == z(l) && y(k) == z(k) && RatioAt(e, x, z, l, k)
    ensures RatioAt(e, x, y, l, k)
  {
  }

  lemma OutputIs(e: ExpFn, n: nat, p: Index, x: Fn, m: Fn, l: int, z: real)
    requires z == Total(e, n, p, x, m, p(l)) && z > 0.0
    ensures Softmaxes(e, n, p, x, m)(l) == e(x(l) - m(p(l))) / z
  {
  }

  lemma QuotientRatio(e: ExpFn, x: Fn, y: Fn, l: int, k: int, a: real, b: real, z: real)
    requires z > 0.0 && y(l) == a / z && y(k) == b / z && a * e(x(k)) == b * e(x(l))
    ensures RatioAt(e, x, y, l, k)
  {
    QuotientsProportional(a, b, z, e(x(l)), e(x(k)));
  }

  /** Within a group the outputs are in the ratio of the exponentials of the inputs. */
  lemma GroupRatio(e: ExpFn, n: nat, p: Index, x: Fn, m: Fn, l: nat, k: nat)
    requires l < n && k < n && p(l) == p(k)
    ensures RatioAt(e, x, Softmaxes(e, n, p, x, m), l, k)
  {
    var z := Total(e, n, p, x, m, p(l));
    GroupSumsToOne(e, n, p, x, m, l);
    OutputIs(e, n, p, x, m, l, z);
    OutputIs(e, n, p, x, m, k, z);
    ExpsExchange(e, x(l), x(k), m(p(l)));
    QuotientRatio(e, x, Softmaxes(e, n, p, x, m), l, k, e(x(l) - m(p(l))), e(x(k) - m(p(k))), z);
  }

  /** Within a group the log-softmax differs as the inputs do. */
  lemma GroupDifference(e: ExpFn, log: real -> real, n: nat, p: Index, x: Fn, m: Fn, l: nat, k: nat)
    requires p(l) == p(k)
    ensures LogSoftmaxes(e, log, n, p, x, m)(l) - LogSoftmaxes(e, log, n, p, x, m)(k) == x(l) - x(k)
  {
  }

  /** The softmax gradient at a position, from the line through it. */
  lemma GradAlongLine(shape: Shape, dim: nat, y: Fn, g: Fn, c: seq<nat>, h: Fn)
    requires InShape(c, shape) && dim < |shape| && h == Grads(Numel(shape), Groups(shape, dim), y, g)
    ensures var l := Encode(c, shape);
            h(l) == y(l) * (g(l) - Sum(shape[dim], Pull(Line(shape, dim, c), Times(g, y))))
  {
    LineSum(shape, dim, c, Times(g, y));
  }

  /** The log-softmax gradient at a position, from the line through it. */
  lemma LogGradAlongLine(shape: Shape, dim: nat, y: Fn, g: Fn, c: seq<nat>, h: Fn)
    requires InShape(c, shape) && dim < |shape| && h == LogGrads(Numel(shape), Groups(shape, dim), y, g)
    ensures var l := Encode(c, shape);
            h(l) == g(l) - y(l) * Sum(shape[dim], Pull(Line(shape, dim, c), g))
  {
    LineSum(shape, dim, c, g);
  }

  ghost predicate AgreeBelow(n: nat, y: Fn, z: Fn) {
    forall l :: 0 <= l < n ==> y(l) == z(l)
  }

  lemma SameOnLine(shape: Shape, dim: nat, c: seq<nat>, y: Fn, z: Fn, t: nat)
    requires InShape(c, shape) && dim < |shape| && t < shape[dim] && AgreeBelow(Numel(shape), y, z)
    ensures Pull(Line(shape, dim, c), y)(t) == Pull(Line(shape, dim, c), z)(t)
  {
    LineInShape(shape, dim, c, t);
  }

  /** Sums along a line only look inside the tensor. */
  lemma SameLine(shape: Shape, dim: nat, c: seq<nat>, y: Fn, z: Fn, a: Fn, b: Fn)
    requires InShape(c, shape) && dim < |shape| && AgreeBelow(Numel(shape), y, z)
    requires a == Pull(Line(shape, dim, c), y) && b == Pull(Line(shape, dim, c), z)
    ensures Sum(shape[dim], a) == Sum(shape[dim], b)
  {
    forall t | 0 <= t < shape[dim] ensures a(t) == b(t) {
      SameOnLine(shape, dim, c, y, z, t);
    }
    SumCongruence(shape[dim], a, b);
  }

  ghost predicate LineRatio(e: ExpFn, shape: Shape, dim: nat, c: seq<nat>, x: Fn, y: Fn, s: nat, t: nat)
    requires |c| == |shape| && dim < |shape|
  {
    RatioAt(e, x, y, Encode(c[dim := s], shape), Encode(c[dim := t], shape))
  }

  /**
   `y` is the softmax of `x` on the line through `c` along axis `dim`: it sums to one, in the ratio of
   the exponentials.
   */
  ghost predicate SoftmaxOnLine(e: ExpFn, shape: Shape, dim: nat, c: seq<nat>, x: Fn, y: Fn)
    requires |c| == |shape| && dim < |shape|
  {
    && Sum(shape[dim], Pull(Line(shape, dim, c), y)) == 1.0
    && forall s: nat, t: nat :: s < shape[dim] && t < shape[dim] ==> LineRatio(e, shape, dim, c, x, y, s, t)
  }

  lemma LineInRatio(e: ExpFn, shape: Shape, dim: nat, x: Fn, m: Fn, c: seq<nat>, y: Fn, z: Fn, s: nat, t: nat)
    requires InShape(c, shape) && dim < |shape| && s < shape[dim] && t < shape[dim]
    requires z == Softmaxes(e, Numel(shape), Groups(shape, dim), x, m) && AgreeBelow(Numel(shape), y, z)
    ensures LineRatio(e, shape, dim, c, x, y, s, t)
  {
    var l, k := Encode(c[dim := s], shape), Encode(c[dim := t], shape);
    LineInShape(shape, dim, c, s);
    LineInShape(shape, dim, c, t);
    GroupRatio(e, Numel(shape), Groups(shape, dim), x, m, l, k);
    SameRatio(e, x, y, z, l, k);
  }

  lemma SoftmaxLine(e: ExpFn, shape: Shape, dim: nat, x: Fn, m: Fn, c: seq<nat>, y: Fn)
    requires InShape(c, shape) && dim < |shape|
    requires AgreeBelow(Numel(shape), y, Softmaxes(e, Numel(shape), Groups(shape, dim), x, m))
    ensures SoftmaxOnLine(e, shape, dim, c, x, y)
  {
    var z := Softmaxes(e, Numel(shape), Groups(shape, dim), x, m);
    LineSumsToOne(e, shape, dim, x, m, c);
    SameLine(shape, dim, c, y, z, Pull(Line(shape, dim, c), y), Pull(Line(shape, dim, c), z));
    forall s: nat, t: nat | s < shape[dim] && t < shape[dim] ensures LineRatio(e, shape, dim, c, x, y, s, t) {
      LineInRatio(e, shape, dim, x, m, c, y, z, s, t);
    }
  }
}
