/**
 The backward kernel: recompute the probabilities, then accumulate the three gradients in
 place. Each gradient buffer ends with the matrix expressions of `AttentionGradient`.
 */
module FlashBackward {
  import opened Floats
  import opened Sums
  import opened Matrices
  import opened Duals
  import opened SoftmaxRules
  import opened AttentionGradient
  import opened Attention

  /** Buffers of one backward call; `scale` stands for `1 / sqrt(dim)`. */
  datatype Call = Call(e: ExpFn, q: seq<real>, k: seq<real>, v: seq<real>, dO: seq<real>,
                       batch: nat, heads: nat, n: nat, dim: nat, scale: real) {
    function SlabLen(): nat {
      n * dim
    }

    function BufferLen(): nat {
      batch * heads * n * dim
    }

    ghost predicate Fits(base: nat) {
      base + SlabLen() <= |q| == |k| == |v| == |dO|
    }

    /** The (batch, head) slab that starts at `base`, as matrices. */
    function At(base: nat): Slab {
      Slab(e, n, dim, scale, View(q, base, dim), View(k, base, dim), View(v, base, dim))
    }

    function Upstream(base: nat): Fn2 {
      View(dO, base, dim)
    }
  }

  /** A row-major buffer region as a matrix. */
  function View(s: seq<real>, base: nat, dim: nat): Fn2 {
    (i, d) => Sums.At(s, base + i * dim + d)
  }

  lemma ViewAt(s: seq<real>, base: nat, n: nat, dim: nat, i: nat, d: nat)
    requires i < n && d < dim && base + n * dim <= |s|
    ensures base + i * dim + d < |s| && View(s, base, dim)(i, d) == s[base + i * dim + d]
  {
    RowBounds(i, n, dim);
    var t := base + i * dim + d;
    assert 0 <= t < |s|;
    assert Sums.At(s, t) == s[t];
  }

  // ---- In-place accumulation ----

  /** Row `i` of the region at `base` holds row `i` of `target`. */
  ghost predicate RowIs(out: seq<real>, base: nat, dim: nat, i: nat, target: Fn2) {
    && base + (i + 1) * dim <= |out|
    && forall d: nat :: d < dim && Cell(base, dim, i, d) < |out| ==> out[Cell(base, dim, i, d)] == target(i, d)
  }

  function Cell(base: nat, dim: nat, i: nat, d: nat): nat {
    base + i * dim + d
  }

  const ZERO: Fn2 := (_, _) => 0.0

  lemma RowIsKept(before: seq<real>, after: seq<real>, base: nat, dim: nat, i: nat, target: Fn2, lo: nat, hi: nat)
    requires RowIs(before, base, dim, i, target) && lo <= hi <= |before| == |after|
    requires before[..lo] == after[..lo] && before[hi..] == after[hi..]
    requires base + (i + 1) * dim <= lo || hi <= base + i * dim
    ensures RowIs(after, base, dim, i, target)
  {
    RowBounds(i, i + 1, dim);
    forall d: nat | d < dim
      ensures after[Cell(base, dim, i, d)] == target(i, d)
    {
      var t := Cell(base, dim, i, d);
      if t < lo {
        assert before[..lo][t] == after[..lo][t];
      } else {
        assert before[hi..][t - hi] == after[hi..][t - hi];
      }
    }
  }

  lemma RowIsSame(out: seq<real>, base: nat, dim: nat, i: nat, a: Fn2, b: Fn2)
    requires RowIs(out, base, dim, i, a) && forall d: nat :: d < dim ==> a(i, d) == b(i, d)
    ensures RowIs(out, base, dim, i, b)
  {
  }

  /** `out[lo..lo + dim] += c * src[from..from + dim]`. */
  method AddScaledRow(out: array<real>, lo: nat, dim: nat, c: real, src: seq<real>, from: nat)
    requires lo + dim <= out.Length && from + dim <= |src|
    modifies out
    ensures forall t :: lo <= t < lo + dim ==> out[t] == old(out[t]) + c * src[t - lo + from]
    ensures out[..lo] == old(out[..lo]) && out[lo + dim..] == old(out[lo + dim..])
  {
    var d := 0;
    while d < dim
      invariant 0 <= d <= dim
      invariant forall t :: lo <= t < lo + d ==> out[t] == old(out[t]) + c * src[t - lo + from]
      invariant forall t :: lo + d <= t < lo + dim ==> out[t] == old(out[t])
      invariant out[..lo] == old(out[..lo]) && out[lo + dim..] == old(out[lo + dim..])
    {
      out[lo + d] := out[lo + d] + c * src[from + d];
      d := d + 1;
    }
  }

  function Weights(w: Fn2, transposed: bool): Fn2 {
    if transposed then Transpose(w) else w
  }

  lemma PartialStep(c: real, k: nat, w: Fn2, m: Fn2, i: int, d: int, x: real, y: real)
    requires x == Scaled(c, Product(k, w, m))(i, d) && y == x + c * w(i, k) * m(k, d)
    ensures y == Scaled(c, Product(k + 1, w, m))(i, d)
  {
    var p, q := Entry(k, w, m, i, d), Entry(k + 1, w, m, i, d);
    assert q == p + w(i, k) * m(k, d);
    DistributeLeft(c, p, w(i, k), m(k, d));
  }

  lemma DistributeLeft(c: real, p: real, a: real, b: real)
    ensures c * (p + a * b) == c * p + c * a * b
  {
  }

  /** The contribution of row `t` of `src` to row `i` of `out`. */
  method AddTerm(out: array<real>, base: nat, n: nat, dim: nat, i: nat, c: real,
                 x: real, ghost weights: Fn2, src: seq<real>, t: nat)
    requires i < n && t < n && base + n * dim <= out.Length && base + n * dim <= |src| && x == weights(i, t)
    requires RowIs(out[..], base, dim, i, Scaled(c, Product(t, weights, View(src, base, dim))))
    modifies out
    ensures RowIs(out[..], base, dim, i, Scaled(c, Product(t + 1, weights, View(src, base, dim))))
    ensures base + (i + 1) * dim <= out.Length
    ensures out[..base + i * dim] == old(out[..base + i * dim])
    ensures out[base + (i + 1) * dim..] == old(out[base + (i + 1) * dim..])
  {
    ghost var before := out[..];
    RowBounds(i, n, dim);
    RowBounds(t, n, dim);
    AddScaledRow(out, base + i * dim, dim, c * x, src, base + t * dim);
    RowGained(before, out[..], base, dim, i, c * x, src, t);
    RowAdvanced(before, out[..], base, n, dim, i, c, weights, src, t);
  }

  /** One row of `out` becomes `c` times the row of the product of `w` (or its transpose) with `src`. */
  method AccumulateRow(out: array<real>, base: nat, n: nat, dim: nat, i: nat, c: real,
                       w: array2<real>, ghost wm: Fn2, transposed: bool, src: seq<real>)
    requires i < n && w.Length0 == w.Length1 == n && base + n * dim <= out.Length && base + n * dim <= |src|
    requires forall a: nat, b: nat :: a < n && b < n ==> w[a, b] == wm(a, b)
    requires RowIs(out[..], base, dim, i, ZERO)
    modifies out
    ensures RowIs(out[..], base, dim, i, Scaled(c, Product(n, Weights(wm, transposed), View(src, base, dim))))
    ensures base + (i + 1) * dim <= out.Length
    ensures out[..base + i * dim] == old(out[..base + i * dim])
    ensures out[base + (i + 1) * dim..] == old(out[base + (i + 1) * dim..])
  {
    ghost var weights, m := Weights(wm, transposed), View(src, base, dim);
    NoTerms(out[..], base, dim, i, c, weights, m);
    var t := 0;
    while t < n
      invariant 0 <= t <= n
      invariant RowIs(out[..], base, dim, i, Scaled(c, Product(t, weights, m)))
      invariant base + (i + 1) * dim <= out.Length && 0 <= base + i * dim <= out.Length
      invariant out[..base + i * dim] == old(out[..base + i * dim])
      invariant out[base + (i + 1) * dim..] == old(out[base + (i + 1) * dim..])
    {
      var x := if transposed then w[t, i] else w[i, t];
      assert x == weights(i, t);
      AddTerm(out, base, n, dim, i, c, x, weights, src, t);
      t := t + 1;
    }
  }

  lemma RowGained(before: seq<real>, after: seq<real>, base: nat, dim: nat, i: nat, c: real, src: seq<real>, t: nat)
    requires 0 <= i * dim && 0 <= t * dim && base + i * dim + dim <= |before| == |after| && base + t * dim + dim <= |src|
    requires forall k :: base + i * dim <= k < base + i * dim + dim ==>
               after[k] == before[k] + c * src[k - (base + i * dim) + (base + t * dim)]
    ensures forall d: nat :: d < dim && Cell(base, dim, i, d) < |before| ==>
              after[Cell(base, dim, i, d)] == before[Cell(base, dim, i, d)] + c * ValueAt(src, base, dim, t, d)
  {
    forall d: nat | d < dim && Cell(base, dim, i, d) < |before|
      ensures after[Cell(base, dim, i, d)] == before[Cell(base, dim, i, d)] + c * ValueAt(src, base, dim, t, d)
    {
      assert Sums.At(src, base + t * dim + d) == src[base + t * dim + d];
    }
  }

  lemma NoTerms(out: seq<real>, base: nat, dim: nat, i: nat, c: real, w: Fn2, m: Fn2)
    requires RowIs(out, base, dim, i, ZERO)
    ensures RowIs(out, base, dim, i, Scaled(c, Product(0, w, m)))
    ensures 0 <= base + i * dim <= base + (i + 1) * dim
  {
    RowBounds(i, i + 1, dim);
    forall d: nat ensures Scaled(c, Product(0, w, m))(i, d) == ZERO(i, d) {
    }
  }

  lemma RowAdvanced(before: seq<real>, after: seq<real>, base: nat, n: nat, dim: nat, i: nat, c: real,
                    weights: Fn2, src: seq<real>, t: nat)
    requires i < n && t < n && |before| == |after| && base + n * dim <= |src|
    requires RowIs(before, base, dim, i, Scaled(c, Product(t, weights, View(src, base, dim))))
    requires forall d: nat :: d < dim && Cell(base, dim, i, d) < |before| ==>
               after[Cell(base, dim, i, d)] == before[Cell(base, dim, i, d)] + (c * weights(i, t)) * ValueAt(src, base, dim, t, d)
    ensures RowIs(after, base, dim, i, Scaled(c, Product(t + 1, weights, View(src, base, dim))))
  {
    forall d: nat | d < dim && Cell(base, dim, i, d) < |after|
      ensures after[Cell(base, dim, i, d)] == Scaled(c, Product(t + 1, weights, View(src, base, dim)))(i, d)
    {
      var cell := Cell(base, dim, i, d);
      ViewAt(src, base, n, dim, t, d);
      PartialStep(c, t, weights, View(src, base, dim), i, d, before[cell], after[cell]);
    }
  }

  function ValueAt(src: seq<real>, base: nat, dim: nat, t: nat, d: nat): real {
    Sums.At(src, base + t * dim + d)
  }

  /** All rows of one slab; `target` names the product, entry by entry. */
  method AccumulateSlab(out: array<real>, base: nat, n: nat, dim: nat, c: real,
                        w: array2<real>, ghost wm: Fn2, transposed: bool, src: seq<real>, ghost target: Fn2)
    requires w.Length0 == w.Length1 == n && base + n * dim <= out.Length && base + n * dim <= |src|
    requires forall a: nat, b: nat :: a < n && b < n ==> w[a, b] == wm(a, b)
    requires forall i: nat :: i < n ==> RowIs(out[..], base, dim, i, ZERO)
    requires SameOn(n, dim, Scaled(c, Product(n, Weights(wm, transposed), View(src, base, dim))), target)
    modifies out
    ensures forall i: nat :: i < n ==> RowIs(out[..], base, dim, i, target)
    ensures out[..base] == old(out[..base]) && out[base + n * dim..] == old(out[base + n * dim..])
  {
    ghost var product := Scaled(c, Product(n, Weights(wm, transposed), View(src, base, dim)));
    var i := 0;
    while i < n
      invariant 0 <= i <= n
      invariant forall a: nat :: a < i ==> RowIs(out[..], base, dim, a, target)
      invariant forall a: nat :: i <= a < n ==> RowIs(out[..], base, dim, a, ZERO)
      invariant out[..base] == old(out[..base]) && out[base + n * dim..] == old(out[base + n * dim..])
    {
      ghost var before := out[..];
      AccumulateRow(out, base, n, dim, i, c, w, wm, transposed, src);
      RowIsSame(out[..], base, dim, i, product, target);
      SlabRowWritten(before, out[..], base, n, dim, i, target);
      i := i + 1;
    }
  }

  lemma SlabRowWritten(before: seq<real>, after: seq<real>, base: nat, n: nat, dim: nat, i: nat, target: Fn2)
    requires i < n && base + n * dim <= |before| == |after| && base + (i + 1) * dim <= |before|
    requires before[..base + i * dim] == after[..base + i * dim]
    requires before[base + (i + 1) * dim..] == after[base + (i + 1) * dim..]
    requires forall a: nat :: a < i ==> RowIs(before, base, dim, a, target)
    requires forall a: nat :: i < a < n ==> RowIs(before, base, dim, a, ZERO)
    ensures forall a: nat :: a < i ==> RowIs(after, base, dim, a, target)
    ensures forall a: nat :: i < a < n ==> RowIs(after, base, dim, a, ZERO)
    ensures before[..base] == after[..base] && before[base + n * dim..] == after[base + n * dim..]
  {
    RowBounds(i, n, dim);
    var lo, hi := base + i * dim, base + (i + 1) * dim;
    assert after[..base] == after[..lo][..base] && before[..base] == before[..lo][..base];
    assert after[base + n * dim..] == after[hi..][base + n * dim - hi..];
    assert before[base + n * dim..] == before[hi..][base + n * dim - hi..];
    forall a: nat | a < i ensures RowIs(after, base, dim, a, target) {
      RowsOrdered(a + 1, i, dim);
      RowIsKept(before, after, base, dim, a, target, lo, hi);
    }
    forall a: nat | i < a < n ensures RowIs(after, base, dim, a, ZERO) {
      RowsOrdered(i + 1, a, dim);
      RowIsKept(before, after, base, dim, a, ZERO, lo, hi);
    }
  }

  // ---- Recomputing the probabilities ----

  /** Product of row `i` of `a` with row `j` of `b`. */
  method RowTimesRow(a: seq<real>, b: seq<real>, base: nat, n: nat, dim: nat, i: nat, j: nat) returns (x: real)
    requires i < n && j < n && base + n * dim <= |a| && base + n * dim <= |b|
    ensures x == Entry(dim, View(a, base, dim), Transpose(View(b, base, dim)), i, j)
  {
    ghost var am, bt := View(a, base, dim), Transpose(View(b, base, dim));
    RowBounds(i, n, dim);
    RowBounds(j, n, dim);
    x := 0.0;
    var d := 0;
    while d < dim
      invariant 0 <= d <= dim && x == Entry(d, am, bt, i, j)
    {
      ViewAt(a, base, n, dim, i, d);
      ViewAt(b, base, n, dim, j, d);
      x := x + a[base + i * dim + d] * b[base + j * dim + d];
      d := d + 1;
    }
  }

  /** Scores of row `i`, and their maximum. */
  method ScoreRow(c: Call, base: nat, i: nat, p: array2<real>) returns (top: Float)
    requires c.Fits(base) && i < c.n && p.Length0 == p.Length1 == c.n
    modifies p
    ensures forall j: nat :: j < c.n ==> p[i, j] == c.At(base).S(i, j)
    ensures forall a: nat, b: nat :: a < c.n && b < c.n && a != i ==> p[a, b] == old(p[a, b])
    ensures c.n > 0 ==> top.Fin?
  {
    var fp := Arithmetic(c.e);
    top := NegInf;
    var j := 0;
    while j < c.n
      invariant 0 <= j <= c.n && (j > 0 ==> top.Fin?) && (top.Fin? || top == NegInf)
      invariant forall b: nat :: b < j ==> p[i, b] == c.At(base).S(i, b)
      invariant forall a: nat, b: nat :: a < c.n && b < c.n && a != i ==> p[a, b] == old(p[a, b])
    {
      var x := RowTimesRow(c.q, c.k, base, c.n, c.dim, i, j);
      var scaled := x * c.scale;
      p[i, j] := scaled;
      if fp.Gt(Fin(scaled), top) {
        top := Fin(scaled);
      }
      j := j + 1;
    }
  }

  /** Exponentials of row `i` relative to `m`, and their sum. */
  method ExpRow(e: ExpFn, n: nat, i: nat, m: real, p: array2<real>, ghost s: Fn) returns (sum: real)
    requires i < n && p.Length0 == p.Length1 == n && forall j: nat :: j < n ==> p[i, j] == s(j)
    modifies p
    ensures sum == ExpTotal(e, n, s, m)
    ensures forall j: nat :: j < n ==> p[i, j] == ExpAt(e, s, m, j)
    ensures forall a: nat, b: nat :: a < n && b < n && a != i ==> p[a, b] == old(p[a, b])
  {
    sum := MapRow(e, n, i, m, p, s, j => ExpAt(e, s, m, j));
  }

  ghost predicate Exponentials(e: ExpFn, s: Fn, m: real, f: Fn) {
    forall j: int :: f(j) == ExpAt(e, s, m, j)
  }

  method MapRow(e: ExpFn, n: nat, i: nat, m: real, p: array2<real>, ghost s: Fn, ghost f: Fn) returns (sum: real)
    requires i < n && p.Length0 == p.Length1 == n && forall j: nat :: j < n ==> p[i, j] == s(j)
    requires Exponentials(e, s, m, f)
    modifies p
    ensures sum == Sum(n, f)
    ensures forall j: nat :: j < n ==> p[i, j] == f(j)
    ensures forall a: nat, b: nat :: a < n && b < n && a != i ==> p[a, b] == old(p[a, b])
  {
    sum := 0.0;
    var j := 0;
    while j < n
      invariant 0 <= j <= n && sum == Sum(j, f)
      invariant forall b: nat :: b < j ==> p[i, b] == f(b)
      invariant forall b: nat :: j <= b < n ==> p[i, b] == s(b)
      invariant forall a: nat, b: nat :: a < n && b < n && a != i ==> p[a, b] == old(p[a, b])
    {
      var x := ExpOf(e, p[i, j], m, s, f, j);
      p[i, j] := x;
      sum := sum + x;
      j := j + 1;
    }
  }

  method ExpOf(e: ExpFn, x: real, m: real, ghost s: Fn, ghost f: Fn, ghost j: int) returns (y: real)
    requires x == s(j) && Exponentials(e, s, m, f)
    ensures y == f(j)
  {
    y := e(x - m);
    assert f(j) == ExpAt(e, s, m, j);
  }

  method DivideRow(n: nat, i: nat, sum: real, p: array2<real>)
    requires i < n && p.Length0 == p.Length1 == n && sum != 0.0
    modifies p
    ensures forall j: nat :: j < n ==> p[i, j] == old(p[i, j]) / sum
    ensures forall a: nat, b: nat :: a < n && b < n && a != i ==> p[a, b] == old(p[a, b])
  {
    var j := 0;
    while j < n
      invariant 0 <= j <= n
      invariant forall b: nat :: b < j ==> p[i, b] == old(p[i, b]) / sum
      invariant forall b: nat :: j <= b < n ==> p[i, b] == old(p[i, b])
      invariant forall a: nat, b: nat :: a < n && b < n && a != i ==> p[a, b] == old(p[a, b])
    {
      p[i, j] := p[i, j] / sum;
      j := j + 1;
    }
  }

  /** Softmax of row `i`; the row sum is always positive, so the division always happens. */
  method ProbRow(c: Call, base: nat, i: nat, p: array2<real>)
    requires c.Fits(base) && i < c.n && p.Length0 == p.Length1 == c.n
    modifies p
    ensures forall j: nat :: j < c.n ==> p[i, j] == c.At(base).P()(i, j)
    ensures forall a: nat, b: nat :: a < c.n && b < c.n && a != i ==> p[a, b] == old(p[a, b])
  {
    ghost var s := c.At(base);
    ghost var row := s.ScoreRow(i);
    var top := ScoreRow(c, base, i, p);
    var sum := ExpRow(c.e, c.n, i, top.r, p, row);
    TotalPositive(c.e, c.n, row, top.r);
    DivideRow(c.n, i, sum, p);
    forall j: nat | j < c.n ensures p[i, j] == s.P()(i, j) {
      SoftmaxShift(c.e, c.n, row, top.r, 0.0, j);
      assert s.P()(i, j) == s.ProbRow(i)(j) == Softmax(c.e, c.n, row, 0.0, j);
    }
  }

  method Probabilities(c: Call, base: nat, p: array2<real>)
    requires c.Fits(base) && c.n > 0 && p.Length0 == p.Length1 == c.n
    modifies p
    ensures forall i: nat, j: nat :: i < c.n && j < c.n ==> p[i, j] == c.At(base).P()(i, j)
  {
    var i := 0;
    while i < c.n
      invariant 0 <= i <= c.n
      invariant forall a: nat, j: nat :: a < i && j < c.n ==> p[a, j] == c.At(base).P()(a, j)
    {
      ProbRow(c, base, i, p);
      i := i + 1;
    }
  }

  // ---- Gradient of the scores ----

  method ProbGradient(c: Call, base: nat, dp: array2<real>)
    requires c.Fits(base) && dp.Length0 == dp.Length1 == c.n
    modifies dp
    ensures forall i: nat, j: nat :: i < c.n && j < c.n ==> dp[i, j] == c.At(base).DP(c.Upstream(base))(i, j)
  {
    var i := 0;
    while i < c.n
      invariant 0 <= i <= c.n
      invariant forall a: nat, j: nat :: a < i && j < c.n ==> dp[a, j] == c.At(base).DP(c.Upstream(base))(a, j)
    {
      ProbGradientRow(c, base, i, dp);
      i := i + 1;
    }
  }

  method ProbGradientRow(c: Call, base: nat, i: nat, dp: array2<real>)
    requires c.Fits(base) && dp.Length0 == dp.Length1 == c.n && i < c.n
    modifies dp
    ensures forall j: nat :: j < c.n ==> dp[i, j] == c.At(base).DP(c.Upstream(base))(i, j)
    ensures forall a: nat, j: nat :: a < c.n && j < c.n && a != i ==> dp[a, j] == old(dp[a, j])
  {
    var j := 0;
    while j < c.n
      invariant 0 <= j <= c.n
      invariant forall b: nat :: b < j ==> dp[i, b] == c.At(base).DP(c.Upstream(base))(i, b)
      invariant forall a: nat, b: nat :: a < c.n && b < c.n && a != i ==> dp[a, b] == old(dp[a, b])
    {
      var x := RowTimesRow(c.dO, c.v, base, c.n, c.dim, i, j);
      dp[i, j] := x;
      j := j + 1;
    }
  }

  /** `ds[i][j] = p[i][j] * (dp[i][j] - sum of p[i] * dp[i])`. */
  method ScoreGradientRow(n: nat, i: nat, p: array2<real>, dp: array2<real>, ds: array2<real>, ghost y: Fn, ghost g: Fn)
    requires i < n && p.Length0 == p.Length1 == dp.Length0 == dp.Length1 == ds.Length0 == ds.Length1 == n
    requires ds != p && ds != dp
    requires forall j: nat :: j < n ==> p[i, j] == y(j) && dp[i, j] == g(j)
    modifies ds
    ensures forall j: nat :: j < n ==> ds[i, j] == SoftmaxGrad(n, y, g, j)
    ensures forall a: nat, b: nat :: a < n && b < n && a != i ==> ds[a, b] == old(ds[a, b])
  {
    var dot := 0.0;
    var j := 0;
    while j < n
      invariant 0 <= j <= n && dot == DotRow(j, g, y)
    {
      dot := dot + p[i, j] * dp[i, j];
      j := j + 1;
    }
    j := 0;
    while j < n
      invariant 0 <= j <= n
      invariant forall b: nat :: b < j ==> ds[i, b] == SoftmaxGrad(n, y, g, b)
      invariant forall a: nat, b: nat :: a < n && b < n && a != i ==> ds[a, b] == old(ds[a, b])
    {
      ds[i, j] := p[i, j] * (dp[i, j] - dot);
      j := j + 1;
    }
  }

  method ScoreGradient(c: Call, base: nat, p: array2<real>, dp: array2<real>, ds: array2<real>)
    requires c.n > 0 && p.Length0 == p.Length1 == dp.Length0 == dp.Length1 == ds.Length0 == ds.Length1 == c.n
    requires ds != p && ds != dp
    requires forall i: nat, j: nat :: i < c.n && j < c.n ==> p[i, j] == c.At(base).P()(i, j)
    requires forall i: nat, j: nat :: i < c.n && j < c.n ==> dp[i, j] == c.At(base).DP(c.Upstream(base))(i, j)
    modifies ds
    ensures forall i: nat, j: nat :: i < c.n && j < c.n ==> ds[i, j] == c.At(base).DS(c.Upstream(base))(i, j)
  {
    ghost var s, u := c.At(base), c.Upstream(base);
    var i := 0;
    while i < c.n
      invariant 0 <= i <= c.n
      invariant forall a: nat, j: nat :: a < i && j < c.n ==> ds[a, j] == s.DS(u)(a, j)
    {
      forall j: nat | j < c.n ensures p[i, j] == s.ProbRow(i)(j) && dp[i, j] == s.DPRow(u, i)(j) {
        assert s.P()(i, j) == s.ProbRow(i)(j) && s.DP(u)(i, j) == s.DPRow(u, i)(j);
      }
      ScoreGradientRow(c.n, i, p, dp, ds, s.ProbRow(i), s.DPRow(u, i));
      i := i + 1;
    }
  }

  // ---- One slab, and the whole call ----

  datatype Input = Query | Key | Value

  /** The gradient of one input of the slab at `base`. */
  function Target(c: Call, w: Input, base: nat): Fn2
    requires c.n > 0
  {
    match w
    case Query => c.At(base).DQ(c.Upstream(base))
    case Key => c.At(base).DK(c.Upstream(base))
    case Value => c.At(base).DV(c.Upstream(base))
  }

  ghost predicate Region(c: Call, base: nat, out: seq<real>, target: Fn2) {
    forall i: nat :: i < c.n ==> RowIs(out, base, c.dim, i, target)
  }

  lemma ValueTarget(c: Call, base: nat)
    requires c.n > 0
    ensures SameOn(c.n, c.dim, Scaled(1.0, Product(c.n, Weights(c.At(base).P(), true), View(c.dO, base, c.dim))), Target(c, Value, base))
  {
  }

  lemma QueryTarget(c: Call, base: nat)
    requires c.n > 0
    ensures SameOn(c.n, c.dim, Scaled(c.scale, Product(c.n, Weights(c.At(base).DS(c.Upstream(base)), false), View(c.k, base, c.dim))),
                   Target(c, Query, base))
  {
  }

  lemma KeyTarget(c: Call, base: nat)
    requires c.n > 0
    ensures SameOn(c.n, c.dim, Scaled(c.scale, Product(c.n, Weights(c.At(base).DS(c.Upstream(base)), true), View(c.q, base, c.dim))),
                   Target(c, Key, base))
  {
  }

  /** The scratch matrices of one slab: probabilities and the gradient of the scores. */
  method SlabMatrices(c: Call, base: nat) returns (p: array2<real>, ds: array2<real>)
    requires c.Fits(base) && c.n > 0
    ensures fresh(p) && fresh(ds) && p.Length0 == p.Length1 == ds.Length0 == ds.Length1 == c.n
    ensures forall i: nat, j: nat :: i < c.n && j < c.n ==> p[i, j] == c.At(base).P()(i, j)
    ensures forall i: nat, j: nat :: i < c.n && j < c.n ==> ds[i, j] == c.At(base).DS(c.Upstream(base))(i, j)
  {
    p := new real[c.n, c.n]((_, _) => 0.0);
    Probabilities(c, base, p);
    var dp := new real[c.n, c.n]((_, _) => 0.0);
    ProbGradient(c, base, dp);
    ds := new real[c.n, c.n]((_, _) => 0.0);
    ScoreGradient(c, base, p, dp, ds);
  }

  method BackwardSlab(c: Call, base: nat, dq: array<real>, dk: array<real>, dv: array<real>)
    requires c.Fits(base) && c.n > 0 && dq != dk && dq != dv && dk != dv
    requires base + c.SlabLen() <= dq.Length && base + c.SlabLen() <= dk.Length && base + c.SlabLen() <= dv.Length
    requires Region(c, base, dq[..], ZERO) && Region(c, base, dk[..], ZERO) && Region(c, base, dv[..], ZERO)
    modifies dq, dk, dv
    ensures Wrote(c, base, old(dq[..]), dq[..], Query)
    ensures Wrote(c, base, old(dk[..]), dk[..], Key)
    ensures Wrote(c, base, old(dv[..]), dv[..], Value)
  {
    var p, ds := SlabMatrices(c, base);
    ValueTarget(c, base);
    QueryTarget(c, base);
    KeyTarget(c, base);
    ghost var pm, dsm := c.At(base).P(), c.At(base).DS(c.Upstream(base));
    AccumulateSlab(dv, base, c.n, c.dim, 1.0, p, pm, true, c.dO, Target(c, Value, base));
    AccumulateSlab(dq, base, c.n, c.dim, c.scale, ds, dsm, false, c.k, Target(c, Query, base));
    AccumulateSlab(dk, base, c.n, c.dim, c.scale, ds, dsm, true, c.q, Target(c, Key, base));
  }

  /** The slab at `base` now holds its gradient, and nothing else changed. */
  ghost predicate Wrote(c: Call, base: nat, before: seq<real>, after: seq<real>, w: Input)
    requires c.n > 0
  {
    && |before| == |after| && base + c.SlabLen() <= |after|
    && Region(c, base, after, Target(c, w, base))
    && before[..base] == after[..base] && before[base + c.SlabLen()..] == after[base + c.SlabLen()..]
  }

  // ---- The whole call ----

  function ValidateBackward(c: Call, dqLen: nat, dkLen: nat, dvLen: nat): Result {
    var expected := c.BufferLen();
    if |c.q| != expected then Err(BufferShapeMismatch("q", expected, |c.q|))
    else if |c.k| != expected then Err(BufferShapeMismatch("k", expected, |c.k|))
    else if |c.v| != expected then Err(BufferShapeMismatch("v", expected, |c.v|))
    else if |c.dO| != expected then Err(BufferShapeMismatch("do", expected, |c.dO|))
    else if dqLen != expected || dkLen != expected || dvLen != expected then
      Err(OutputShapeMismatch(expected, Largest(Largest(dqLen, dkLen), dvLen)))
    else Ok
  }

  /** What is refused, and why: the first input that does not fit, else the outputs; accepted if and only if all seven buffers fit. */
  lemma BackwardRefuses(c: Call, dqLen: nat, dkLen: nat, dvLen: nat, length: nat)
    requires length == c.batch * c.heads * c.n * c.dim
    ensures ValidateBackward(c, dqLen, dkLen, dvLen) == Ok <==>
              |c.q| == |c.k| == |c.v| == |c.dO| == length && dqLen == dkLen == dvLen == length
    ensures |c.q| != length ==> ValidateBackward(c, dqLen, dkLen, dvLen) == Err(BufferShapeMismatch("q", length, |c.q|))
    ensures |c.q| == length && |c.k| != length ==>
              ValidateBackward(c, dqLen, dkLen, dvLen) == Err(BufferShapeMismatch("k", length, |c.k|))
    ensures |c.q| == |c.k| == length && |c.v| != length ==>
              ValidateBackward(c, dqLen, dkLen, dvLen) == Err(BufferShapeMismatch("v", length, |c.v|))
    ensures |c.q| == |c.k| == |c.v| == length && |c.dO| != length ==>
              ValidateBackward(c, dqLen, dkLen, dvLen) == Err(BufferShapeMismatch("do", length, |c.dO|))
    ensures |c.q| == |c.k| == |c.v| == |c.dO| == length && !(dqLen == dkLen == dvLen == length) ==>
              exists got :: got in {dqLen, dkLen, dvLen} && got >= dqLen && got >= dkLen && got >= dvLen
                && ValidateBackward(c, dqLen, dkLen, dvLen) == Err(OutputShapeMismatch(length, got))
  {
    var got := Largest(Largest(dqLen, dkLen), dvLen);
    assert got in {dqLen, dkLen, dvLen};
  }

  function Largest(a: nat, b: nat): nat {
    if a > b then a else b
  }

  method Zero(out: array<real>)
    modifies out
    ensures forall t :: 0 <= t < out.Length ==> out[t] == 0.0
  {
    var t := 0;
    while t < out.Length
      invariant 0 <= t <= out.Length
      invariant forall u :: 0 <= u < t ==> out[u] == 0.0
    {
      out[t] := 0.0;
      t := t + 1;
    }
  }

  /** Slabs below `done` hold their gradient, the others are still zero. */
  ghost predicate Progress(c: Call, w: Input, out: seq<real>, done: nat)
    requires c.n > 0
  {
    && (forall bh: nat :: bh < done ==> Region(c, Base(c, bh), out, Target(c, w, Base(c, bh))))
    && (forall bh: nat :: done <= bh < c.batch * c.heads ==> Region(c, Base(c, bh), out, ZERO))
  }

  function Base(c: Call, bh: nat): nat {
    bh * c.SlabLen()
  }

  lemma SlabFits(c: Call, bh: nat)
    requires bh < c.batch * c.heads
    ensures Base(c, bh) + c.SlabLen() == Base(c, bh + 1) <= c.BufferLen()
  {
    RowsOrdered(bh + 1, c.batch * c.heads, c.SlabLen());
    assert c.batch * c.heads * c.n * c.dim == (c.batch * c.heads) * (c.n * c.dim);
  }

  lemma ZeroRegion(c: Call, out: seq<real>, bh: nat)
    requires |out| == c.BufferLen() && bh < c.batch * c.heads && forall t :: 0 <= t < |out| ==> out[t] == 0.0
    ensures Region(c, Base(c, bh), out, ZERO)
  {
    SlabFits(c, bh);
    forall i: nat | i < c.n
      ensures RowIs(out, Base(c, bh), c.dim, i, ZERO)
    {
      RowBounds(i, c.n, c.dim);
    }
  }

  lemma RegionKept(c: Call, before: seq<real>, after: seq<real>, a: nat, bh: nat, target: Fn2)
    requires a < c.batch * c.heads && bh < c.batch * c.heads && a != bh && |before| == |after| == c.BufferLen()
    requires Base(c, bh) + c.SlabLen() <= |before| && Region(c, Base(c, a), before, target)
    requires before[..Base(c, bh)] == after[..Base(c, bh)]
    requires before[Base(c, bh) + c.SlabLen()..] == after[Base(c, bh) + c.SlabLen()..]
    ensures Region(c, Base(c, a), after, target)
  {
    SlabFits(c, a);
    SlabFits(c, bh);
    forall i: nat | i < c.n
      ensures RowIs(after, Base(c, a), c.dim, i, target)
    {
      RowBounds(i, c.n, c.dim);
      if a < bh {
        RowsOrdered(a + 1, bh, c.SlabLen());
      } else {
        RowsOrdered(bh + 1, a, c.SlabLen());
      }
      RowIsKept(before, after, Base(c, a), c.dim, i, target, Base(c, bh), Base(c, bh) + c.SlabLen());
    }
  }

  lemma SlabFinished(c: Call, w: Input, before: seq<real>, after: seq<real>, bh: nat)
    requires c.n > 0 && bh < c.batch * c.heads && |before| == c.BufferLen()
    requires Progress(c, w, before, bh) && Wrote(c, Base(c, bh), before, after, w)
    ensures Progress(c, w, after, bh + 1)
  {
    forall a: nat | a < bh ensures Region(c, Base(c, a), after, Target(c, w, Base(c, a))) {
      RegionKept(c, before, after, a, bh, Target(c, w, Base(c, a)));
    }
    forall a: nat | bh < a < c.batch * c.heads ensures Region(c, Base(c, a), after, ZERO) {
      RegionKept(c, before, after, a, bh, ZERO);
    }
  }

  /** `flash_backward`: every slab of the three outputs holds the gradient of that slab's attention. */
  method Backward(c: Call, dq: array<real>, dk: array<real>, dv: array<real>) returns (r: Result)
    requires dq != dk && dq != dv && dk != dv
    modifies dq, dk, dv
    ensures r == ValidateBackward(c, dq.Length, dk.Length, dv.Length)
    ensures r != Ok ==> dq[..] == old(dq[..]) && dk[..] == old(dk[..]) && dv[..] == old(dv[..])
    ensures r == Ok && c.n > 0 ==> forall bh: nat :: bh < c.batch * c.heads ==>
              && Region(c, Base(c, bh), dq[..], Target(c, Query, Base(c, bh)))
              && Region(c, Base(c, bh), dk[..], Target(c, Key, Base(c, bh)))
              && Region(c, Base(c, bh), dv[..], Target(c, Value, Base(c, bh)))
  {
    r := ValidateBackward(c, dq.Length, dk.Length, dv.Length);
    if r != Ok || c.n == 0 {
      return;
    }
    Zero(dq);
    Zero(dk);
    Zero(dv);
    forall bh: nat | bh < c.batch * c.heads
      ensures Region(c, Base(c, bh), dq[..], ZERO) && Region(c, Base(c, bh), dk[..], ZERO) && Region(c, Base(c, bh), dv[..], ZERO)
    {
      ZeroRegion(c, dq[..], bh);
      ZeroRegion(c, dk[..], bh);
      ZeroRegion(c, dv[..], bh);
    }
    var bh := 0;
    while bh < c.batch * c.heads
      invariant 0 <= bh <= c.batch * c.heads
      invariant Progress(c, Query, dq[..], bh) && Progress(c, Key, dk[..], bh) && Progress(c, Value, dv[..], bh)
    {
      ghost var q0, k0, v0 := dq[..], dk[..], dv[..];
      SlabFits(c, bh);
      BackwardSlab(c, bh * c.SlabLen(), dq, dk, dv);
      SlabFinished(c, Query, q0, dq[..], bh);
      SlabFinished(c, Key, k0, dk[..], bh);
      SlabFinished(c, Value, v0, dv[..], bh);
      bh := bh + 1;
    }
  }

  // ---- What the outputs mean ----

  lemma RegionView(c: Call, base: nat, out: seq<real>, target: Fn2)
    requires Region(c, base, out, target) && base + c.SlabLen() <= |out|
    ensures SameOn(c.n, c.dim, target, View(out, base, c.dim))
  {
    forall i, d | 0 <= i < c.n && 0 <= d < c.dim
      ensures target(i, d) == View(out, base, c.dim)(i, d)
    {
      ViewAt(out, base, c.n, c.dim, i, d);
      assert RowIs(out, base, c.dim, i, target);
      assert out[Cell(base, c.dim, i, d)] == target(i, d);
    }
  }

  /** The buffers written for a slab pair with any direction of the inputs as the upstream gradient does with the derivative. */
  lemma KernelIsAdjoint(c: Call, base: nat, dq: seq<real>, dk: seq<real>, dv: seq<real>, tq: Fn2, tk: Fn2, tv: Fn2, m: int -> Dual)
    requires c.n > 0 && base + c.SlabLen() <= |dq| == |dk| == |dv|
    requires Region(c, base, dq, Target(c, Query, base)) && Region(c, base, dk, Target(c, Key, base))
    requires Region(c, base, dv, Target(c, Value, base))
    ensures Inner(c.n, c.dim, c.Upstream(base), c.At(base).OutputTangent(tq, tk, tv, m))
         == Inner(c.n, c.dim, View(dq, base, c.dim), tq)
            + Inner(c.n, c.dim, View(dk, base, c.dim), tk) + Inner(c.n, c.dim, View(dv, base, c.dim), tv)
  {
    BackwardIsAdjoint(c.At(base), c.Upstream(base), tq, tk, tv, m);
    RegionView(c, base, dq, Target(c, Query, base));
    RegionView(c, base, dk, Target(c, Key, base));
    RegionView(c, base, dv, Target(c, Value, base));
    InnerCongruence(c.n, c.dim, Target(c, Query, base), tq, View(dq, base, c.dim), tq);
    InnerCongruence(c.n, c.dim, Target(c, Key, base), tk, View(dk, base, c.dim), tk);
    InnerCongruence(c.n, c.dim, Target(c, Value, base), tv, View(dv, base, c.dim), tv);
  }

  lemma {:induction false} DotIsEntry(a: seq<real>, b: seq<real>, base: nat, dim: nat, i: nat, j: nat, k: nat)
    ensures Dot(a, base + i * dim, b, base + j * dim, k)
         == Entry(k, View(a, base, dim), Transpose(View(b, base, dim)), i, j)
  {
    if k > 0 {
      DotIsEntry(a, b, base, dim, i, j, k - 1);
    }
  }

  lemma {:induction false} DenominatorIsTotal(fp: Arithmetic, row: Row, s: Fn, n: nat)
    requires forall j :: 0 <= j < n ==> !row.masked(j) && row.score(j) == s(j)
    ensures Denominator(fp, row, n, 0.0) == ExpTotal(fp.exp, n, s, 0.0)
  {
    if n > 0 {
      DenominatorIsTotal(fp, row, s, n - 1);
    }
  }

  lemma {:induction false} NumeratorIsSum(fp: Arithmetic, row: Row, s: Fn, v: Fn2, n: nat, d: int)
    requires forall j :: 0 <= j < n ==> !row.masked(j) && row.score(j) == s(j) && row.value(j, d) == v(j, d)
    ensures Numerator(fp, row, n, d, 0.0) == Sum(n, Times(SoftmaxRules.ExpRow(fp.exp, s, 0.0), ColumnFn(v, d)))
  {
    if n > 0 {
      NumeratorIsSum(fp, row, s, v, n - 1, d);
    }
  }

  /** A weighted average with softmax weights is the quotient of the weighted sum by the normaliser. */
  lemma AverageIsQuotient(e: ExpFn, n: nat, s: Fn, w: Fn, y: Fn)
    requires n > 0 && y == SoftmaxRow(e, n, s, 0.0)
    ensures ExpTotal(e, n, s, 0.0) > 0.0
    ensures Sum(n, Times(y, w)) == Sum(n, Times(SoftmaxRules.ExpRow(e, s, 0.0), w)) / ExpTotal(e, n, s, 0.0)
  {
    TotalPositive(e, n, s, 0.0);
    forall j: int ensures Times(y, w)(j) == Times(SoftmaxRules.ExpRow(e, s, 0.0), w)(j) / ExpTotal(e, n, s, 0.0) {
      WeightIsQuotient(e, n, s, w, y, j);
    }
    SumQuotient(n, Times(SoftmaxRules.ExpRow(e, s, 0.0), w), ExpTotal(e, n, s, 0.0), Times(y, w));
  }

  lemma WeightIsQuotient(e: ExpFn, n: nat, s: Fn, w: Fn, y: Fn, j: int)
    requires n > 0 && y == SoftmaxRow(e, n, s, 0.0)
    ensures ExpTotal(e, n, s, 0.0) > 0.0
    ensures Times(y, w)(j) == Times(SoftmaxRules.ExpRow(e, s, 0.0), w)(j) / ExpTotal(e, n, s, 0.0)
  {
    TotalPositive(e, n, s, 0.0);
    DivideProduct(ExpAt(e, s, 0.0, j), w(j), ExpTotal(e, n, s, 0.0));
  }

  lemma DivideProduct(x: real, v: real, z: real)
    requires z > 0.0
    ensures (x / z) * v == (x * v) / z
  {
  }

  /** Without a mask, the output the forward kernels write is the matrix product that is differentiated here. */
  lemma ForwardAgrees(c: Call, pb: Problem, base: nat, i: nat, d: nat)
    requires c.n > 0 && pb.mask == NoMask && pb.fp == Arithmetic(c.e)
    requires pb.q == c.q && pb.k == c.k && pb.v == c.v && pb.n == c.n && pb.dim == c.dim && pb.scale == c.scale
    ensures Attend(pb.fp, pb.RowAt(base, i), pb.n, d) == Fin(c.At(base).O()(i, d))
  {
    var s, row := c.At(base), pb.RowAt(base, i);
    var scores, y := s.ScoreRow(i), s.ProbRow(i);
    forall j | 0 <= j < c.n ensures !row.masked(j) && row.score(j) == scores(j) && row.value(j, d) == s.v(j, d) {
      DotIsEntry(c.q, c.k, base, c.dim, i, j, c.dim);
    }
    DenominatorIsTotal(pb.fp, row, scores, c.n);
    NumeratorIsSum(pb.fp, row, scores, s.v, c.n, d);
    AverageIsQuotient(c.e, c.n, scores, ColumnFn(s.v, d), y);
    OutputEntry(s, i, d);
  }

  lemma OutputEntry(s: Slab, i: nat, d: nat)
    requires s.n > 0
    ensures s.O()(i, d) == Sum(s.n, Times(s.ProbRow(i), ColumnFn(s.v, d)))
  {
    forall j: int ensures RowFn(s.P(), i)(j) == s.ProbRow(i)(j) {
    }
    SamePairing(s.n, RowFn(s.P(), i), s.ProbRow(i), ColumnFn(s.v, d));
  }
}
