/**
 The reference kernel: the full score matrix of each slab, a row softmax in place, then the
 product with the values; and its comparison with the tiled kernel.
 */
module NaiveForward {
  import opened Floats
  import opened Sums
  import opened Attention
  import opened FlashForward

  ghost predicate NaiveDone(pb: Problem, out: seq<Float>, base: nat, i: nat) {
    && base + (i + 1) * pb.dim <= |out|
    && forall d: nat :: d < pb.dim && InRow(base, i, pb.dim, d) < |out| ==>
         out[InRow(base, i, pb.dim, d)] == Attend(pb.fp, pb.RowAt(base, i), pb.n, d)
  }

  method Scores(pb: Problem, base: nat, s: array2<Float>)
    requires pb.Fits(base) && s.Length0 == s.Length1 == pb.n
    modifies s
    ensures forall i: nat, j: nat :: i < pb.n && j < pb.n ==> s[i, j] == pb.RowAt(base, i).Score(j)
  {
    var i := 0;
    while i < pb.n
      invariant 0 <= i <= pb.n
      invariant forall a: nat, j: nat :: a < i && j < pb.n ==> s[a, j] == pb.RowAt(base, a).Score(j)
    {
      var j := 0;
      while j < pb.n
        invariant 0 <= j <= pb.n
        invariant forall a: nat, b: nat :: a < i && b < pb.n ==> s[a, b] == pb.RowAt(base, a).Score(b)
        invariant forall b: nat :: b < j ==> s[i, b] == pb.RowAt(base, i).Score(b)
      {
        if pb.mask.IsMasked(i, j) {
          s[i, j] := NegInf;
        } else {
          var x := RowProduct(pb, base, i, j);
          s[i, j] := Fin(pb.scale * x);
        }
        j := j + 1;
      }
      i := i + 1;
    }
  }

  lemma {:induction false} SumPoisoned(fp: Arithmetic, row: Row, n: nat)
    requires n > 0 && !AnyVisible(row, n)
    ensures TileSum(fp, row, 0, n, NegInf) == NaN
  {
    TilePoisoned(fp, row, 0, n, 0, NegInf, NaN);
  }

  /** Row `i` of the score matrix becomes `exp(x - max)`; returns its sum. */
  method ExpRow(pb: Problem, ghost row: Row, i: nat, s: array2<Float>) returns (sum: Float, ghost m: Float)
    requires i < s.Length0 && s.Length1 == pb.n
    requires forall j: nat :: j < pb.n ==> s[i, j] == row.Score(j)
    modifies s
    ensures m == RangeMax(pb.fp, row, 0, pb.n) && sum == TileSum(pb.fp, row, 0, pb.n, m)
    ensures forall j: nat :: j < pb.n ==> s[i, j] == Prob(pb.fp, row, j, m)
    ensures forall a: nat, j: nat :: a < s.Length0 && j < pb.n && a != i ==> s[a, j] == old(s[a, j])
  {
    var top := NegInf;
    var j := 0;
    while j < pb.n
      invariant 0 <= j <= pb.n && top == RangeMax(pb.fp, row, 0, j)
      invariant forall b: nat :: b < pb.n ==> s[i, b] == row.Score(b)
    {
      top := if pb.fp.Gt(s[i, j], top) then s[i, j] else top;
      j := j + 1;
    }
    m := top;
    sum := Fin(0.0);
    j := 0;
    while j < pb.n
      modifies s
      invariant 0 <= j <= pb.n && sum == TileSum(pb.fp, row, 0, j, m)
      invariant forall b: nat :: b < j ==> s[i, b] == Prob(pb.fp, row, b, m)
      invariant forall b: nat :: j <= b < pb.n ==> s[i, b] == row.Score(b)
      invariant forall a: nat, b: nat :: a < s.Length0 && b < pb.n && a != i ==> s[a, b] == old(s[a, b])
    {
      s[i, j] := pb.fp.Exp(pb.fp.Sub(s[i, j], top));
      sum := pb.fp.Add(sum, s[i, j]);
      j := j + 1;
    }
  }

  method DivideRow(fp: Arithmetic, i: nat, s: array2<Float>, sum: Float)
    requires i < s.Length0
    modifies s
    ensures forall j: nat :: j < s.Length1 ==> s[i, j] == fp.Div(old(s[i, j]), sum)
    ensures forall a: nat, j: nat :: a < s.Length0 && j < s.Length1 && a != i ==> s[a, j] == old(s[a, j])
  {
    var j := 0;
    while j < s.Length1
      invariant 0 <= j <= s.Length1
      invariant forall b: nat :: b < j ==> s[i, b] == fp.Div(old(s[i, b]), sum)
      invariant forall b: nat :: j <= b < s.Length1 ==> s[i, b] == old(s[i, b])
      invariant forall a: nat, b: nat :: a < s.Length0 && b < s.Length1 && a != i ==> s[a, b] == old(s[a, b])
    {
      s[i, j] := fp.Div(s[i, j], sum);
      j := j + 1;
    }
  }

  lemma WeightedStep(fp: Arithmetic, num: real, w: real, v: real, sum: real, acc: Float)
    requires sum > 0.0 && acc.Fin? && acc.r * sum == num
    ensures var next := fp.Add(acc, fp.Mul(Fin(w / sum), Fin(v)));
            next.Fin? && next.r * sum == num + w * v
  {
    ProductOverSum(w, v, sum);
    var next := fp.Add(acc, fp.Mul(Fin(w / sum), Fin(v)));
    assert next.r == acc.r + (w / sum) * v;
  }

  lemma ProductOverSum(w: real, v: real, sum: real)
    requires sum > 0.0
    ensures (w / sum) * v * sum == w * v
  {
    assert (w / sum) * sum == w;
    assert (w / sum) * v * sum == ((w / sum) * sum) * v;
  }

  /** The product of the first `n` normalised weights with column `d` of the values, in order. */
  ghost function NormalisedDot(fp: Arithmetic, row: Row, n: nat, d: int, m: real, sum: real): Float
    requires sum > 0.0
  {
    if n == 0 then Fin(0.0)
    else fp.Add(NormalisedDot(fp, row, n - 1, d, m, sum), fp.Mul(Fin(Weight(fp, row, n - 1, m) / sum), Fin(row.value(n - 1, d))))
  }

  lemma {:induction false} NormalisedDotIs(fp: Arithmetic, row: Row, n: nat, d: int, m: real, sum: real)
    requires sum > 0.0
    ensures NormalisedDot(fp, row, n, d, m, sum).Fin?
    ensures NormalisedDot(fp, row, n, d, m, sum).r * sum == Numerator(fp, row, n, d, m)
  {
    if n > 0 {
      NormalisedDotIs(fp, row, n - 1, d, m, sum);
      WeightedStep(fp, Numerator(fp, row, n - 1, d, m), Weight(fp, row, n - 1, m), row.value(n - 1, d), sum,
                   NormalisedDot(fp, row, n - 1, d, m, sum));
    }
  }

  lemma NormalisedDotAttends(fp: Arithmetic, row: Row, n: nat, d: int, m: real, sum: real)
    requires sum > 0.0 && sum == Denominator(fp, row, n, m) && AnyVisible(row, n)
    ensures NormalisedDot(fp, row, n, d, m, sum) == Attend(fp, row, n, d)
  {
    NormalisedDotIs(fp, row, n, d, m, sum);
    AttendAt(fp, row, n, d, m);
    var x := NormalisedDot(fp, row, n, d, m, sum).r;
    assert x == Numerator(fp, row, n, d, m) / sum;
  }

  /** One entry of the product of the normalised row with the values. */
  method WeightedValue(pb: Problem, base: nat, i: nat, d: nat, s: array2<Float>, sum: real, ghost m: real) returns (o: Float)
    requires pb.Fits(base) && i < pb.n && d < pb.dim && s.Length0 == s.Length1 == pb.n && sum > 0.0
    requires forall j: nat :: j < pb.n ==> s[i, j] == Fin(Weight(pb.fp, pb.RowAt(base, i), j, m) / sum)
    ensures o == NormalisedDot(pb.fp, pb.RowAt(base, i), pb.n, d, m, sum)
  {
    ghost var row := pb.RowAt(base, i);
    o := Fin(0.0);
    var j := 0;
    while j < pb.n
      invariant 0 <= j <= pb.n
      invariant o == NormalisedDot(pb.fp, row, j, d, m, sum)
    {
      RowBounds(j, pb.n, pb.dim);
      var x := pb.v[base + j * pb.dim + d];
      assert row.value(j, d) == At(pb.v, base + j * pb.dim + d);
      o := pb.fp.Add(o, pb.fp.Mul(s[i, j], Fin(x)));
      j := j + 1;
    }
  }

  /** The softmax of row `i` and the output row. */
  method NaiveRow(pb: Problem, base: nat, i: nat, s: array2<Float>, out: array<Float>)
    requires pb.Fits(base) && i < pb.n && s.Length0 == s.Length1 == pb.n && base + pb.Slab() <= out.Length
    requires forall a: nat, j: nat :: i <= a < pb.n && j < pb.n ==> s[a, j] == pb.RowAt(base, a).Score(j)
    modifies s, out
    ensures forall a: nat, j: nat :: i < a < pb.n && j < pb.n ==> s[a, j] == pb.RowAt(base, a).Score(j)
    ensures NaiveDone(pb, out[..], base, i)
    ensures base + (i + 1) * pb.dim <= out.Length
    ensures out[..base + i * pb.dim] == old(out[..base + i * pb.dim])
  {
    ghost var row := pb.RowAt(base, i);
    RowBounds(i, pb.n, pb.dim);
    var sum, m := ExpRow(pb, row, i, s);
    RangeMaxKind(pb.fp, row, 0, pb.n);
    var usable := sum.Fin? && sum.r > 0.0;
    RowSum(pb.fp, row, pb.n, m);
    if usable {
      ghost var probs := seq(pb.n, j requires 0 <= j < pb.n reads s => s[i, j]);
      DivideRow(pb.fp, i, s, sum);
      forall j: nat | j < pb.n ensures s[i, j] == Fin(Weight(pb.fp, row, j, m.r) / sum.r) {
        assert probs[j] == Prob(pb.fp, row, j, m);
        ProbFinite(pb.fp, row, j, m);
      }
    }
    NaiveOutput(pb, base, i, s, out, usable, if usable then sum.r else 0.0, if usable then m.r else 0.0);
  }

  /** The output row: weighted values, or NaN when the row sum is not usable. */
  method NaiveOutput(pb: Problem, base: nat, i: nat, s: array2<Float>, out: array<Float>, usable: bool, sum: real, ghost m: real)
    requires pb.Fits(base) && i < pb.n && s.Length0 == s.Length1 == pb.n && base + pb.Slab() <= out.Length
    requires usable ==> sum > 0.0 && sum == Denominator(pb.fp, pb.RowAt(base, i), pb.n, m) && AnyVisible(pb.RowAt(base, i), pb.n)
    requires usable ==> forall j: nat :: j < pb.n ==> s[i, j] == Fin(Weight(pb.fp, pb.RowAt(base, i), j, m) / sum)
    requires !usable ==> forall d :: Attend(pb.fp, pb.RowAt(base, i), pb.n, d) == NaN
    modifies out
    ensures NaiveDone(pb, out[..], base, i)
    ensures base + (i + 1) * pb.dim <= out.Length
    ensures out[..base + i * pb.dim] == old(out[..base + i * pb.dim])
  {
    ghost var row := pb.RowAt(base, i);
    RowBounds(i, pb.n, pb.dim);
    var lo := base + i * pb.dim;
    var d := 0;
    while d < pb.dim
      invariant 0 <= d <= pb.dim
      invariant forall b: nat :: b < d ==> out[lo + b] == Attend(pb.fp, row, pb.n, b)
      invariant out[..lo] == old(out[..lo])
    {
      if usable {
        var o := WeightedValue(pb, base, i, d, s, sum, m);
        NormalisedDotAttends(pb.fp, row, pb.n, d, m, sum);
        out[lo + d] := o;
      } else {
        out[lo + d] := NaN;
      }
      d := d + 1;
    }
  }

  /** The row sum is positive and finite exactly when some key is visible. */
  lemma RowSum(fp: Arithmetic, row: Row, n: nat, m: Float)
    requires n > 0 && m == RangeMax(fp, row, 0, n)
    ensures var sum := TileSum(fp, row, 0, n, m);
            && (AnyVisible(row, n) ==> m.Fin? && sum.Fin? && sum.r > 0.0 && sum.r == Denominator(fp, row, n, m.r))
            && (!AnyVisible(row, n) ==> sum == NaN && forall d :: Attend(fp, row, n, d) == NaN)
  {
    RangeMaxKind(fp, row, 0, n);
    DenominatorPositive(fp, row, n, 0.0);
    if AnyVisible(row, n) {
      var j :| 0 <= j < n && !row.masked(j);
      assert VisibleIn(row, 0, n);
      TileSumFinite(fp, row, 0, n, m);
      DenominatorPositive(fp, row, n, m.r);
    } else {
      assert !VisibleIn(row, 0, n);
      SumPoisoned(fp, row, n);
    }
  }

  lemma NaiveKept(pb: Problem, before: seq<Float>, after: seq<Float>, base: nat, i: nat, lo: nat)
    requires NaiveDone(pb, before, base, i) && base + (i + 1) * pb.dim <= lo <= |before| == |after|
    requires before[..lo] == after[..lo]
    ensures NaiveDone(pb, after, base, i)
  {
    forall d: nat | d < pb.dim
      ensures after[InRow(base, i, pb.dim, d)] == Attend(pb.fp, pb.RowAt(base, i), pb.n, d)
    {
      RowBounds(i, i + 1, pb.dim);
      var t := InRow(base, i, pb.dim, d);
      assert before[..lo][t] == after[..lo][t];
    }
  }

  method NaiveSlab(pb: Problem, base: nat, out: array<Float>)
    requires pb.Fits(base) && base + pb.Slab() <= out.Length
    modifies out
    ensures forall i: nat :: i < pb.n ==> NaiveDone(pb, out[..], base, i)
    ensures out[..base] == old(out[..base])
  {
    var s := new Float[pb.n, pb.n]((_, _) => Fin(0.0));
    Scores(pb, base, s);
    var i := 0;
    while i < pb.n
      invariant 0 <= i <= pb.n && out[..base] == old(out[..base])
      invariant forall a: nat, j: nat :: i <= a < pb.n && j < pb.n ==> s[a, j] == pb.RowAt(base, a).Score(j)
      invariant forall a: nat :: a < i ==> NaiveDone(pb, out[..], base, a)
    {
      ghost var before, lo := out[..], base + i * pb.dim;
      RowBounds(i, pb.n, pb.dim);
      NaiveRow(pb, base, i, s, out);
      assert before[..lo] == out[..][..lo];
      assert out[..base] == out[..lo][..base] && before[..base] == before[..lo][..base];
      forall a: nat | a < i ensures NaiveDone(pb, out[..], base, a) {
        RowsOrdered(a + 1, i, pb.dim);
        NaiveKept(pb, before, out[..], base, a, lo);
      }
      i := i + 1;
    }
  }

  /** `naive_forward_masked`. */
  method NaiveForwardMasked(pb: Problem, out: array<Float>) returns (r: Result)
    modifies out
    ensures r == Validate(pb, out.Length)
    ensures r == Ok ==> forall bh: nat, i: nat :: bh < pb.batch * pb.heads && i < pb.n ==>
              NaiveDone(pb, out[..], bh * pb.Slab(), i)
    ensures r != Ok ==> out[..] == old(out[..])
  {
    r := Validate(pb, out.Length);
    if r != Ok {
      return;
    }
    var bh := 0;
    while bh < pb.batch * pb.heads
      invariant 0 <= bh <= pb.batch * pb.heads
      invariant forall a: nat, i: nat :: a < bh && i < pb.n ==> NaiveDone(pb, out[..], a * pb.Slab(), i)
    {
      ghost var before := out[..];
      SlabBounds(pb, bh);
      NaiveSlab(pb, bh * pb.Slab(), out);
      SlabsKept(pb, before, out[..], bh);
      bh := bh + 1;
    }
  }

  lemma SlabsKept(pb: Problem, before: seq<Float>, after: seq<Float>, bh: nat)
    requires bh < pb.batch * pb.heads && |before| == |after| == pb.BufferLen() && bh * pb.Slab() <= |before|
    requires before[..bh * pb.Slab()] == after[..bh * pb.Slab()]
    requires forall a: nat, i: nat :: a < bh && i < pb.n ==> NaiveDone(pb, before, a * pb.Slab(), i)
    ensures forall a: nat, i: nat :: a < bh && i < pb.n ==> NaiveDone(pb, after, a * pb.Slab(), i)
  {
    forall a: nat, i: nat | a < bh && i < pb.n
      ensures NaiveDone(pb, after, a * pb.Slab(), i)
    {
      RowsOrdered(a + 1, bh, pb.Slab());
      RowBounds(i, pb.n, pb.dim);
      SlabBounds(pb, a);
      NaiveKept(pb, before, after, a * pb.Slab(), i, bh * pb.Slab());
    }
  }

  // ---- The two kernels compared ----

  /**
   For a query row of any slab, the outputs of the two kernels agree exactly when the first key tile
   shows the query a key, or no tile does; without a padding mask they always agree and are never NaN.
   */
  lemma KernelsAgreeExactly(pb: Problem, flash: seq<Float>, naive: seq<Float>, base: nat, i: nat, d: nat)
    requires pb.n > 0 && pb.bc > 0 && d < pb.dim
    requires RowDone(pb, flash, base, i) && NaiveDone(pb, naive, base, i)
    requires InRow(base, i, pb.dim, d) < |flash| == |naive|
    ensures var t, row := InRow(base, i, pb.dim, d), pb.RowAt(base, i);
            && (flash[t] == naive[t] <==> VisibleIn(row, 0, pb.First()) || !VisibleIn(row, pb.First(), pb.n))
            && (flash[t] == NaN <==> !VisibleIn(row, 0, pb.First()))
            && (!pb.mask.Padding? ==> flash[t] == naive[t] && flash[t].Fin?)
  {
    var row := pb.RowAt(base, i);
    FlashMatchesExactly(pb.fp, row, pb.First(), pb.n, d);
    if !pb.mask.Padding? {
      FirstKeyVisible(pb, base, i);
    }
  }
}
