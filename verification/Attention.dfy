/**
 Masked scaled dot-product attention, one query row at a time: masks, the meaning of a
 row, and the row state that the tiled kernel maintains.
 */
module Attention {
  import opened Floats
  import opened Sums

  // ---- Masks ----

  datatype Mask = NoMask | Causal | Padding(keep: seq<bool>) {
    /** True when the pair (query, key) is excluded. */
    predicate IsMasked(qi: int, kj: int) {
      match this
      case NoMask => false
      case Causal => kj > qi
      case Padding(keep) => 0 <= kj < |keep| && !keep[kj]
    }

    predicate ValidFor(n: nat) {
      Padding? ==> |keep| == n
    }
  }

  // ---- One query row ----

  /** A query row: its score against each key, which keys it cannot see, and the value rows. */
  datatype Row = Row(score: int -> real, masked: int -> bool, value: (int, int) -> real) {
    /** The score as the kernels store it: -inf when masked. */
    function Score(j: int): Float {
      if masked(j) then NegInf else Fin(score(j))
    }
  }

  function Weight(fp: Arithmetic, row: Row, j: int, m: real): real {
    if row.masked(j) then 0.0 else fp.exp(row.score(j) - m)
  }

  function Denominator(fp: Arithmetic, row: Row, n: nat, m: real): real {
    if n == 0 then 0.0 else Denominator(fp, row, n - 1, m) + Weight(fp, row, n - 1, m)
  }

  function Numerator(fp: Arithmetic, row: Row, n: nat, d: int, m: real): real {
    if n == 0 then 0.0 else Numerator(fp, row, n - 1, d, m) + Weight(fp, row, n - 1, m) * row.value(n - 1, d)
  }

  predicate AnyVisible(row: Row, n: nat) {
    exists j :: 0 <= j < n && !row.masked(j)
  }

  /** The softmax-weighted average of the visible values; undefined when nothing is visible. */
  function Attend(fp: Arithmetic, row: Row, n: nat, d: int): Float {
    if Denominator(fp, row, n, 0.0) > 0.0
    then Fin(Numerator(fp, row, n, d, 0.0) / Denominator(fp, row, n, 0.0))
    else NaN
  }

  lemma {:induction false} DenominatorPositive(fp: Arithmetic, row: Row, n: nat, m: real)
    ensures Denominator(fp, row, n, m) >= 0.0
    ensures AnyVisible(row, n) <==> Denominator(fp, row, n, m) > 0.0
  {
    if n > 0 {
      DenominatorPositive(fp, row, n - 1, m);
    }
  }

  lemma WeightShift(fp: Arithmetic, row: Row, j: int, m: real, k: real)
    ensures Weight(fp, row, j, m) * fp.exp(m - k) == Weight(fp, row, j, k)
  {
    ExpShift(fp.exp, row.score(j), m, k);
  }

  lemma {:induction false} DenominatorShift(fp: Arithmetic, row: Row, n: nat, m: real, k: real)
    ensures Denominator(fp, row, n, m) * fp.exp(m - k) == Denominator(fp, row, n, k)
  {
    if n > 0 {
      DenominatorShift(fp, row, n - 1, m, k);
      WeightShift(fp, row, n - 1, m, k);
    }
  }

  lemma {:induction false} NumeratorShift(fp: Arithmetic, row: Row, n: nat, d: int, m: real, k: real)
    ensures Numerator(fp, row, n, d, m) * fp.exp(m - k) == Numerator(fp, row, n, d, k)
  {
    if n > 0 {
      NumeratorShift(fp, row, n - 1, d, m, k);
      WeightShift(fp, row, n - 1, m, k);
      Rescale(Weight(fp, row, n - 1, m), row.value(n - 1, d), fp.exp(m - k), Weight(fp, row, n - 1, k));
    }
  }

  lemma Rescale(w: real, v: real, c: real, w': real)
    requires w * c == w'
    ensures w * v * c == w' * v
  {
  }

  lemma QuotientShift(a: real, b: real, c: real, a': real, b': real)
    requires b != 0.0 && c != 0.0 && a * c == a' && b * c == b'
    ensures b' != 0.0 && a' / b' == a / b
  {
    assert b * c != 0.0;
    assert (a / b) * b' == a';
  }

  /** The quotient does not depend on the reference point the exponentials are taken at. */
  lemma AttendAt(fp: Arithmetic, row: Row, n: nat, d: int, m: real)
    requires AnyVisible(row, n)
    ensures Denominator(fp, row, n, m) > 0.0
    ensures Attend(fp, row, n, d) == Fin(Numerator(fp, row, n, d, m) / Denominator(fp, row, n, m))
  {
    DenominatorPositive(fp, row, n, m);
    DenominatorPositive(fp, row, n, 0.0);
    DenominatorShift(fp, row, n, m, 0.0);
    NumeratorShift(fp, row, n, d, m, 0.0);
    SameQuotient(Numerator(fp, row, n, d, m), Denominator(fp, row, n, m), fp.exp(m - 0.0),
                 Numerator(fp, row, n, d, 0.0), Denominator(fp, row, n, 0.0), Attend(fp, row, n, d));
  }

  lemma SameQuotient(a: real, b: real, c: real, a': real, b': real, x: Float)
    requires b > 0.0 && b' > 0.0 && c != 0.0 && a * c == a' && b * c == b' && x == Fin(a' / b')
    ensures x == Fin(a / b)
  {
    QuotientShift(a, b, c, a', b');
  }

  // ---- What a mask hides ----

  /** The rows look alike wherever a key is visible. */
  ghost predicate SameVisible(a: Row, b: Row, n: nat) {
    forall j :: 0 <= j < n ==>
      a.masked(j) == b.masked(j) && (!a.masked(j) ==> a.score(j) == b.score(j) && forall d :: a.value(j, d) == b.value(j, d))
  }

  lemma {:induction false} SameSums(fp: Arithmetic, a: Row, b: Row, n: nat, d: int)
    requires SameVisible(a, b, n)
    ensures Denominator(fp, a, n, 0.0) == Denominator(fp, b, n, 0.0)
    ensures Numerator(fp, a, n, d, 0.0) == Numerator(fp, b, n, d, 0.0)
  {
    if n > 0 {
      SameSums(fp, a, b, n - 1, d);
      SameTerm(Weight(fp, a, n - 1, 0.0), a.value(n - 1, d), b.value(n - 1, d), a.masked(n - 1));
    }
  }

  lemma SameTerm(w: real, x: real, y: real, masked: bool)
    requires if masked then w == 0.0 else x == y
    ensures w * x == w * y
  {
  }

  /** Masked keys have no influence: neither their scores nor their values reach the output. */
  lemma MaskedIgnored(fp: Arithmetic, a: Row, b: Row, n: nat, d: int)
    requires SameVisible(a, b, n)
    ensures Attend(fp, a, n, d) == Attend(fp, b, n, d)
  {
    SameSums(fp, a, b, n, d);
  }

  lemma {:induction false} MaskedTail(fp: Arithmetic, row: Row, k: nat, n: nat, d: int)
    requires k <= n && forall j :: k <= j < n ==> row.masked(j)
    ensures Denominator(fp, row, n, 0.0) == Denominator(fp, row, k, 0.0)
    ensures Numerator(fp, row, n, d, 0.0) == Numerator(fp, row, k, d, 0.0)
  {
    if k < n {
      MaskedTail(fp, row, k, n - 1, d);
    }
  }

  // ---- Running maximum ----

  function Larger(fp: Arithmetic, a: Float, b: Float): Float {
    if fp.Gt(b, a) then b else a
  }

  /** Left-to-right maximum of the scores of keys `lo` to `hi`, starting from -inf. */
  function RangeMax(fp: Arithmetic, row: Row, lo: nat, hi: nat): Float
    requires lo <= hi
    decreases hi
  {
    if lo == hi then NegInf else Larger(fp, RangeMax(fp, row, lo, hi - 1), row.Score(hi - 1))
  }

  predicate VisibleIn(row: Row, lo: nat, hi: nat) {
    exists j :: lo <= j < hi && !row.masked(j)
  }

  lemma {:induction false} RangeMaxKind(fp: Arithmetic, row: Row, lo: nat, hi: nat)
    requires lo <= hi
    ensures RangeMax(fp, row, lo, hi).Fin? || RangeMax(fp, row, lo, hi) == NegInf
    ensures RangeMax(fp, row, lo, hi).Fin? <==> VisibleIn(row, lo, hi)
    ensures forall j :: lo <= j < hi && !row.masked(j) ==> row.score(j) <= RangeMax(fp, row, lo, hi).r
    decreases hi
  {
    if lo < hi {
      RangeMaxKind(fp, row, lo, hi - 1);
    }
  }

  /** The maximum of a prefix and a tile is the maximum of the longer prefix. */
  lemma {:induction false} RangeMaxJoin(fp: Arithmetic, row: Row, lo: nat, hi: nat)
    requires lo <= hi
    ensures Larger(fp, RangeMax(fp, row, 0, lo), RangeMax(fp, row, lo, hi)) == RangeMax(fp, row, 0, hi)
    decreases hi
  {
    RangeMaxKind(fp, row, 0, lo);
    if lo < hi {
      RangeMaxJoin(fp, row, lo, hi - 1);
      RangeMaxKind(fp, row, lo, hi - 1);
    }
  }

  // ---- The state of a row between tiles ----

  /**
   `(m, l, o)` after keys `0..n`, when the first tile ends at key `first`: the running maximum, and the
   sum and weighted values relative to it. If no key of the first tile is visible, sum and values are NaN.
   */
  ghost predicate RowState(fp: Arithmetic, row: Row, first: nat, n: nat, m: Float, l: Float, o: seq<Float>) {
    && m == RangeMax(fp, row, 0, n)
    && (n == 0 ==> l == Fin(0.0) && forall d :: 0 <= d < |o| ==> o[d] == Fin(0.0))
    && (n > 0 && VisibleIn(row, 0, first) ==>
          && m.Fin? && l.Fin? && l.r == Denominator(fp, row, n, m.r)
          && forall d :: 0 <= d < |o| ==> o[d].Fin? && o[d].r == Numerator(fp, row, n, d, m.r))
    && (n > 0 && !VisibleIn(row, 0, first) ==>
          l == NaN && forall d :: 0 <= d < |o| ==> o[d] == NaN)
  }

  /** The factor by which earlier contributions are rescaled when the maximum moves from `m` to `m'`. */
  function Alpha(fp: Arithmetic, m: Float, m': Float): Float {
    if m == NegInf then Fin(0.0) else fp.Exp(fp.Sub(m, m'))
  }

  function Prob(fp: Arithmetic, row: Row, j: int, m: Float): Float {
    fp.Exp(fp.Sub(row.Score(j), m))
  }

  /** Sum of the unnormalised probabilities of keys `lo..hi`, in order. */
  function TileSum(fp: Arithmetic, row: Row, lo: nat, hi: nat, m: Float): Float
    requires lo <= hi
    decreases hi
  {
    if lo == hi then Fin(0.0) else fp.Add(TileSum(fp, row, lo, hi - 1, m), Prob(fp, row, hi - 1, m))
  }

  /** Probability-weighted values of keys `lo..hi`, added to `start` in order. */
  function TileDot(fp: Arithmetic, row: Row, lo: nat, hi: nat, d: int, m: Float, start: Float): Float
    requires lo <= hi
    decreases hi
  {
    if lo == hi then start
    else fp.Add(TileDot(fp, row, lo, hi - 1, d, m, start), fp.Mul(Prob(fp, row, hi - 1, m), Fin(row.value(hi - 1, d))))
  }

  lemma ProbFinite(fp: Arithmetic, row: Row, j: int, m: Float)
    requires m.Fin?
    ensures Prob(fp, row, j, m) == Fin(Weight(fp, row, j, m.r))
  {
  }

  lemma {:induction false} TileSumFinite(fp: Arithmetic, row: Row, lo: nat, hi: nat, m: Float)
    requires lo <= hi && m.Fin?
    ensures TileSum(fp, row, lo, hi, m).Fin?
    ensures Denominator(fp, row, lo, m.r) + TileSum(fp, row, lo, hi, m).r == Denominator(fp, row, hi, m.r)
    decreases hi
  {
    if lo < hi {
      TileSumFinite(fp, row, lo, hi - 1, m);
      ProbFinite(fp, row, hi - 1, m);
    }
  }

  /** One key adds the same to the accumulator as to the numerator. */
  lemma TileDotStep(fp: Arithmetic, row: Row, j: nat, d: int, m: Float, acc: Float) returns (y: real)
    requires m.Fin? && acc.Fin?
    ensures fp.Add(acc, fp.Mul(Prob(fp, row, j, m), Fin(row.value(j, d)))) == Fin(acc.r + y)
    ensures Numerator(fp, row, j + 1, d, m.r) == Numerator(fp, row, j, d, m.r) + y
  {
    ProbFinite(fp, row, j, m);
    y := Weight(fp, row, j, m.r) * row.value(j, d);
  }

  lemma {:induction false} TileDotFinite(fp: Arithmetic, row: Row, lo: nat, hi: nat, d: int, m: Float, start: Float)
    requires lo <= hi && m.Fin? && start.Fin?
    ensures TileDot(fp, row, lo, hi, d, m, start).Fin?
    ensures TileDot(fp, row, lo, hi, d, m, start).r - start.r
         == Numerator(fp, row, hi, d, m.r) - Numerator(fp, row, lo, d, m.r)
    decreases hi
  {
    if lo < hi {
      TileDotFinite(fp, row, lo, hi - 1, d, m, start);
      var y := TileDotStep(fp, row, hi - 1, d, m, TileDot(fp, row, lo, hi - 1, d, m, start));
    }
  }

  /** `exp(-inf - -inf)`: a tile without visible keys, met before any visible key, is NaN. */
  lemma {:induction false} TilePoisoned(fp: Arithmetic, row: Row, lo: nat, hi: nat, d: int, m: Float, start: Float)
    requires lo < hi && m == NegInf && !VisibleIn(row, lo, hi)
    ensures TileSum(fp, row, lo, hi, m) == NaN && TileDot(fp, row, lo, hi, d, m, start) == NaN
    decreases hi
  {
    assert row.masked(hi - 1);
  }

  lemma {:induction false} NaNStays(fp: Arithmetic, row: Row, lo: nat, hi: nat, d: int, m: Float)
    requires lo <= hi
    ensures TileDot(fp, row, lo, hi, d, m, NaN) == NaN
    decreases hi
  {
    if lo < hi {
      NaNStays(fp, row, lo, hi - 1, d, m);
    }
  }

  /** The maximum and sum of a row after the softmax step of keys `kj..hi`. */
  ghost predicate RowStepped(fp: Arithmetic, row: Row, kj: nat, hi: nat, m0: Float, l0: Float, m: Float, l: Float)
    requires kj <= hi
  {
    && m == Larger(fp, m0, RangeMax(fp, row, kj, hi))
    && l == fp.Add(fp.Mul(l0, Alpha(fp, m0, m)), TileSum(fp, row, kj, hi, m))
  }

  /** The row state after one more tile, in the form the kernels compute it. */
  ghost predicate TileUpdate(fp: Arithmetic, row: Row, lo: nat, hi: nat, m: Float, l: Float, o: seq<Float>,
                             m': Float, l': Float, o': seq<Float>)
    requires lo <= hi
  {
    && |o'| == |o|
    && RowStepped(fp, row, lo, hi, m, l, m', l')
    && forall d :: 0 <= d < |o| ==> o'[d] == TileDot(fp, row, lo, hi, d, m', fp.Mul(o[d], Alpha(fp, m, m')))
  }

  /** `lo..hi` is the next tile: the first one ends at `first`. */
  ghost predicate NextTile(first: nat, lo: nat, hi: nat) {
    lo < hi && (if lo == 0 then hi == first else first <= lo)
  }

  lemma TileStepFirst(fp: Arithmetic, row: Row, first: nat, hi: nat, m: Float, l: Float, o: seq<Float>,
                      m': Float, l': Float, o': seq<Float>)
    requires NextTile(first, 0, hi) && RowState(fp, row, first, 0, m, l, o)
    requires TileUpdate(fp, row, 0, hi, m, l, o, m', l', o')
    ensures RowState(fp, row, first, hi, m', l', o')
  {
    RangeMaxJoin(fp, row, 0, hi);
    RangeMaxKind(fp, row, 0, hi);
    if VisibleIn(row, 0, first) {
      TileSumFinite(fp, row, 0, hi, m');
      forall d | 0 <= d < |o| ensures o'[d].Fin? && o'[d].r == Numerator(fp, row, hi, d, m'.r) {
        TileDotFinite(fp, row, 0, hi, d, m', fp.Mul(o[d], Alpha(fp, m, m')));
      }
    } else {
      TilePoisoned(fp, row, 0, hi, 0, m', NaN);
      forall d | 0 <= d < |o| ensures o'[d] == NaN {
        TilePoisoned(fp, row, 0, hi, d, m', fp.Mul(o[d], Alpha(fp, m, m')));
      }
    }
  }

  lemma TileStepLater(fp: Arithmetic, row: Row, first: nat, lo: nat, hi: nat, m: Float, l: Float, o: seq<Float>,
                      m': Float, l': Float, o': seq<Float>)
    requires lo > 0 && NextTile(first, lo, hi) && RowState(fp, row, first, lo, m, l, o) && VisibleIn(row, 0, first)
    requires TileUpdate(fp, row, lo, hi, m, l, o, m', l', o')
    ensures RowState(fp, row, first, hi, m', l', o')
  {
    RangeMaxJoin(fp, row, lo, hi);
    RangeMaxKind(fp, row, lo, hi);
    RangeMaxKind(fp, row, 0, hi);
    LaterSum(fp, row, lo, hi, m, m', l);
    forall d | 0 <= d < |o| ensures o'[d].Fin? && o'[d].r == Numerator(fp, row, hi, d, m'.r) {
      LaterValue(fp, row, lo, hi, d, m, m', o[d]);
    }
  }

  lemma LaterSum(fp: Arithmetic, row: Row, lo: nat, hi: nat, m: Float, m': Float, l: Float)
    requires lo <= hi && m.Fin? && m'.Fin? && l.Fin? && l.r == Denominator(fp, row, lo, m.r)
    ensures var r := fp.Add(fp.Mul(l, Alpha(fp, m, m')), TileSum(fp, row, lo, hi, m'));
            r.Fin? && r.r == Denominator(fp, row, hi, m'.r)
  {
    LaterRescaled(fp, row, lo, m, m', l);
    TileSumFinite(fp, row, lo, hi, m');
  }

  lemma LaterRescaled(fp: Arithmetic, row: Row, lo: nat, m: Float, m': Float, l: Float)
    requires m.Fin? && m'.Fin? && l.Fin? && l.r == Denominator(fp, row, lo, m.r)
    ensures fp.Mul(l, Alpha(fp, m, m')) == Fin(Denominator(fp, row, lo, m'.r))
  {
    DenominatorShift(fp, row, lo, m.r, m'.r);
    RescaledProduct(fp, l, m, m', Denominator(fp, row, lo, m'.r));
  }

  /** Rescaling a finite accumulator from reference point `m` to `m'`. */
  lemma RescaledProduct(fp: Arithmetic, x: Float, m: Float, m': Float, y: real)
    requires m.Fin? && m'.Fin? && x.Fin? && x.r * fp.exp(m.r - m'.r) == y
    ensures fp.Mul(x, Alpha(fp, m, m')) == Fin(y)
  {
  }

  lemma LaterValue(fp: Arithmetic, row: Row, lo: nat, hi: nat, d: int, m: Float, m': Float, x: Float)
    requires lo <= hi && m.Fin? && m'.Fin? && x.Fin? && x.r == Numerator(fp, row, lo, d, m.r)
    ensures var r := TileDot(fp, row, lo, hi, d, m', fp.Mul(x, Alpha(fp, m, m')));
            r.Fin? && r.r == Numerator(fp, row, hi, d, m'.r)
  {
    NumeratorShift(fp, row, lo, d, m.r, m'.r);
    RescaledProduct(fp, x, m, m', Numerator(fp, row, lo, d, m'.r));
    TileDotFinite(fp, row, lo, hi, d, m', fp.Mul(x, Alpha(fp, m, m')));
  }

  lemma TileStepPoisoned(fp: Arithmetic, row: Row, first: nat, lo: nat, hi: nat, m: Float, l: Float, o: seq<Float>,
                         m': Float, l': Float, o': seq<Float>)
    requires lo > 0 && NextTile(first, lo, hi) && RowState(fp, row, first, lo, m, l, o) && !VisibleIn(row, 0, first)
    requires TileUpdate(fp, row, lo, hi, m, l, o, m', l', o')
    ensures RowState(fp, row, first, hi, m', l', o')
  {
    RangeMaxJoin(fp, row, lo, hi);
    forall d | 0 <= d < |o| ensures o'[d] == NaN {
      NaNStays(fp, row, lo, hi, d, m');
    }
  }

  /** Every tile keeps the row state, whether or not it holds visible keys. */
  lemma TileStep(fp: Arithmetic, row: Row, first: nat, lo: nat, hi: nat, m: Float, l: Float, o: seq<Float>,
                 m': Float, l': Float, o': seq<Float>)
    requires NextTile(first, lo, hi) && RowState(fp, row, first, lo, m, l, o)
    requires TileUpdate(fp, row, lo, hi, m, l, o, m', l', o')
    ensures RowState(fp, row, first, hi, m', l', o')
  {
    if lo == 0 {
      TileStepFirst(fp, row, first, hi, m, l, o, m', l', o');
    } else if VisibleIn(row, 0, first) {
      TileStepLater(fp, row, first, lo, hi, m, l, o, m', l', o');
    } else {
      TileStepPoisoned(fp, row, first, lo, hi, m, l, o, m', l', o');
    }
  }

  /** What the tiled kernel writes: NaN when the first tile shows no key, else the attention output. */
  function FlashOutput(fp: Arithmetic, row: Row, first: nat, n: nat, d: int): Float {
    if VisibleIn(row, 0, first) then Attend(fp, row, n, d) else NaN
  }

  /** The final normalisation: divide by `l` when it is positive and finite, else NaN. */
  function Normalised(fp: Arithmetic, l: Float, x: Float): Float {
    if l.Fin? && l.r > 0.0 then fp.Div(x, l) else NaN
  }

  lemma RowFinish(fp: Arithmetic, row: Row, first: nat, n: nat, m: Float, l: Float, o: seq<Float>, d: nat)
    requires 0 < first <= n && d < |o| && RowState(fp, row, first, n, m, l, o)
    ensures Normalised(fp, l, o[d]) == FlashOutput(fp, row, first, n, d)
  {
    if VisibleIn(row, 0, first) {
      assert AnyVisible(row, n) by {
        var j :| 0 <= j < first && !row.masked(j);
      }
      AttendAt(fp, row, n, d, m.r);
    }
  }

  /** The tiled output of a row is the attention output exactly when its first tile shows a key, or no tile does. */
  lemma FlashMatchesExactly(fp: Arithmetic, row: Row, first: nat, n: nat, d: int)
    requires first <= n
    ensures FlashOutput(fp, row, first, n, d) == Attend(fp, row, n, d)
       <==> VisibleIn(row, 0, first) || !VisibleIn(row, first, n)
    ensures FlashOutput(fp, row, first, n, d) == NaN <==> !VisibleIn(row, 0, first)
  {
    DenominatorPositive(fp, row, n, 0.0);
    if VisibleIn(row, 0, first) {
      var j :| 0 <= j < first && !row.masked(j);
      assert AnyVisible(row, n);
    } else if VisibleIn(row, first, n) {
      var j :| first <= j < n && !row.masked(j);
      assert AnyVisible(row, n);
    } else {
      assert !AnyVisible(row, n);
    }
  }

  // ---- A whole problem ----

  /**
   Inputs of one attention call, laid out as (batch, head, position, feature) in row-major order, with
   tile sizes `br` and `bc`. `scale` stands for `1 / sqrt(dim)`.
   */
  datatype Problem = Problem(fp: Arithmetic, q: seq<real>, k: seq<real>, v: seq<real>, mask: Mask, scale: real,
                             batch: nat, heads: nat, n: nat, dim: nat, br: nat, bc: nat) {
    function Slab(): nat {
      n * dim
    }

    function BufferLen(): nat {
      batch * heads * n * dim
    }

    ghost predicate Fits(base: nat) {
      base + Slab() <= |q| == |k| == |v|
    }

    /** Query row `i` of the (batch, head) slab that starts at `base`. */
    function RowAt(base: nat, i: nat): Row {
      Row(j => scale * Dot(q, base + i * dim, k, base + j * dim, dim),
          j => mask.IsMasked(i, j),
          (j, d) => At(v, base + j * dim + d))
    }

    function First(): nat {
      if bc < n then bc else n
    }
  }

  function Dot(a: seq<real>, x: int, b: seq<real>, y: int, n: nat): real {
    if n == 0 then 0.0 else Dot(a, x, b, y, n - 1) + At(a, x + (n - 1)) * At(b, y + (n - 1))
  }

  lemma RowBounds(i: nat, n: nat, dim: nat)
    requires i < n
    ensures 0 <= i * dim && i * dim + dim == (i + 1) * dim <= n * dim
  {
    RowsOrdered(i + 1, n, dim);
  }

  lemma RowsOrdered(i: nat, j: nat, dim: nat)
    requires i <= j
    ensures 0 <= i * dim <= j * dim
  {
    var gap := j - i;
    assert j * dim == i * dim + gap * dim;
    assert gap * dim >= 0;
  }

  /** Without a padding mask the first key is visible to every query, so no output is NaN. */
  lemma FirstKeyVisible(pb: Problem, base: nat, i: nat)
    requires !pb.mask.Padding? && pb.n > 0 && pb.bc > 0
    ensures VisibleIn(pb.RowAt(base, i), 0, pb.First())
  {
    assert !pb.RowAt(base, i).masked(0);
  }

  /** Under the causal mask, query `i` attends to exactly the keys `0..i`, as unmasked attention over them would. */
  lemma CausalPrefix(pb: Problem, base: nat, i: nat, d: int)
    requires pb.mask == Causal && i < pb.n
    ensures Attend(pb.fp, pb.RowAt(base, i), pb.n, d) == Attend(pb.fp, pb.(mask := NoMask).RowAt(base, i), i + 1, d)
  {
    var row, plain := pb.RowAt(base, i), pb.(mask := NoMask).RowAt(base, i);
    MaskedTail(pb.fp, row, i + 1, pb.n, d);
    MaskedIgnored(pb.fp, row, plain, i + 1, d);
  }

  // ---- What a padding mask leaves ----

  function Count(keep: seq<bool>): nat {
    if keep == [] then 0 else Count(keep[..|keep| - 1]) + (if keep[|keep| - 1] then 1 else 0)
  }

  /** The rows of length `dim` from `base` on that are kept, one after the other. */
  function KeptRows(s: seq<real>, base: nat, keep: seq<bool>, dim: nat): seq<real>
    requires base + |keep| * dim <= |s|
  {
    if keep == [] then []
    else
      var j := |keep| - 1;
      RowBounds(j, |keep|, dim);
      KeptRows(s, base, keep[..j], dim) + (if keep[j] then s[base + j * dim..base + j * dim + dim] else [])
  }

  lemma {:induction false} KeptLength(s: seq<real>, base: nat, keep: seq<bool>, dim: nat)
    requires base + |keep| * dim <= |s|
    ensures |KeptRows(s, base, keep, dim)| == Count(keep) * dim
  {
    if keep != [] {
      var j := |keep| - 1;
      RowBounds(j, |keep|, dim);
      KeptLength(s, base, keep[..j], dim);
      OneMoreRow(Count(keep[..j]), dim);
    }
  }

  lemma OneMoreRow(r: nat, dim: nat)
    ensures (r + 1) * dim == r * dim + dim
  {
  }

  /** A kept row lies after the kept rows before it. */
  lemma {:induction false} KeptAt(s: seq<real>, base: nat, keep: seq<bool>, dim: nat, j: nat, t: nat)
    requires base + |keep| * dim <= |s| && j < |keep| && keep[j] && t < dim
    ensures At(KeptRows(s, base, keep, dim), Count(keep[..j]) * dim + t) == At(s, base + j * dim + t)
    ensures 0 <= Count(keep[..j]) * dim + t < |KeptRows(s, base, keep, dim)|
  {
    var last := |keep| - 1;
    RowBounds(last, |keep|, dim);
    KeptLength(s, base, keep[..last], dim);
    if j < last {
      assert keep[..last][..j] == keep[..j];
      KeptAt(s, base, keep[..last], dim, j, t);
    } else {
      RowsOrdered(0, Count(keep[..j]), dim);
    }
  }

  ghost predicate SameEntry(a: seq<real>, x: int, b: seq<real>, y: int, t: int) {
    At(a, x + t) == At(b, y + t)
  }

  ghost predicate SameRange(a: seq<real>, x: int, b: seq<real>, y: int, n: nat) {
    forall t :: 0 <= t < n ==> SameEntry(a, x, b, y, t)
  }

  lemma {:induction false} SameDot(a: seq<real>, x: int, b: seq<real>, y: int, a': seq<real>, x': int, b': seq<real>, y': int, n: nat)
    requires SameRange(a, x, a', x', n) && SameRange(b, y, b', y', n)
    ensures Dot(a, x, b, y, n) == Dot(a', x', b', y', n)
  {
    if n > 0 {
      SameDot(a, x, b, y, a', x', b', y', n - 1);
      assert SameEntry(a, x, a', x', n - 1) && SameEntry(b, y, b', y', n - 1);
    }
  }

  /** The (batch, head) slab at `base` without a mask, its key and value rows only those that `keep` keeps. */
  function Compacted(pb: Problem, base: nat, keep: seq<bool>): Problem
    requires pb.Fits(base) && |keep| == pb.n
  {
    pb.(q := pb.q[base..base + pb.n * pb.dim], k := KeptRows(pb.k, base, keep, pb.dim), v := KeptRows(pb.v, base, keep, pb.dim),
        mask := NoMask, batch := 1, heads := 1)
  }

  lemma QueryRow(pb: Problem, base: nat, i: nat, x: nat)
    requires pb.Fits(base) && i < pb.n && x == i * pb.dim
    ensures SameRange(pb.q[base..base + pb.n * pb.dim], x, pb.q, base + x, pb.dim)
  {
    RowBounds(i, pb.n, pb.dim);
    var part, z := pb.q[base..base + pb.n * pb.dim], base + x;
    forall t: int | 0 <= t < pb.dim ensures SameEntry(part, x, pb.q, z, t) {
      assert part[x + t] == pb.q[base + x + t];
    }
  }

  lemma ScoreAt(pb: Problem, base: nat, i: nat, j: nat, x: int, y: int)
    requires x == base + i * pb.dim && y == base + j * pb.dim
    ensures pb.RowAt(base, i).score(j) == pb.scale * Dot(pb.q, x, pb.k, y, pb.dim)
  {
  }

  lemma KeptRow(s: seq<real>, base: nat, keep: seq<bool>, dim: nat, j: nat, x: nat, y: nat)
    requires base + |keep| * dim <= |s| && j < |keep| && keep[j] && x == Count(keep[..j]) * dim && y == base + j * dim
    ensures SameRange(KeptRows(s, base, keep, dim), x, s, y, dim)
  {
    forall t: int | 0 <= t < dim ensures SameEntry(KeptRows(s, base, keep, dim), x, s, y, t) {
      KeptAt(s, base, keep, dim, j, t);
    }
  }

  lemma CompactedDot(pb: Problem, base: nat, keep: seq<bool>, i: nat, j: nat, x: nat, y: nat, z: nat)
    requires pb.Fits(base) && |keep| == pb.n && i < pb.n && j < pb.n && keep[j]
    requires x == i * pb.dim && y == Count(keep[..j]) * pb.dim && z == base + j * pb.dim
    ensures Dot(Compacted(pb, base, keep).q, x, Compacted(pb, base, keep).k, y, pb.dim) == Dot(pb.q, base + x, pb.k, z, pb.dim)
  {
    QueryRow(pb, base, i, x);
    KeptRow(pb.k, base, keep, pb.dim, j, y, z);
    SameDot(Compacted(pb, base, keep).q, x, Compacted(pb, base, keep).k, y, pb.q, base + x, pb.k, z, pb.dim);
  }

  lemma SameScore(a: Problem, b: Problem, i: nat, r: nat, base: nat, j: nat, x: nat, y: nat, z: nat)
    requires a.scale == b.scale && a.dim == b.dim && x == i * b.dim && y == r * b.dim && z == base + j * b.dim
    requires Dot(a.q, x, a.k, y, b.dim) == Dot(b.q, base + x, b.k, z, b.dim)
    ensures a.RowAt(0, i).score(r) == b.RowAt(base, i).score(j)
  {
    ScoreAt(a, 0, i, r, x, y);
    ScoreAt(b, base, i, j, base + x, z);
  }

  /** Key `j` of the problem is key `r` of the compacted one. */
  lemma CompactedKey(pb: Problem, base: nat, keep: seq<bool>, i: nat, j: nat, r: nat)
    requires pb.Fits(base) && |keep| == pb.n && i < pb.n && j < pb.n && keep[j] && r == Count(keep[..j])
    ensures Compacted(pb, base, keep).RowAt(0, i).score(r) == pb.RowAt(base, i).score(j)
  {
    var x, y, z := i * pb.dim, r * pb.dim, base + j * pb.dim;
    assert x >= 0 && y >= 0 && z >= 0 by {
      RowsOrdered(0, i, pb.dim);
      RowsOrdered(0, r, pb.dim);
      RowsOrdered(0, j, pb.dim);
    }
    CompactedDot(pb, base, keep, i, j, x, y, z);
    SameScore(Compacted(pb, base, keep), pb, i, r, base, j, x, y, z);
  }

  lemma CompactedValue(pb: Problem, base: nat, keep: seq<bool>, i: nat, j: nat, r: nat, d: nat)
    requires pb.Fits(base) && |keep| == pb.n && i < pb.n && j < pb.n && keep[j] && r == Count(keep[..j]) && d < pb.dim
    ensures Compacted(pb, base, keep).RowAt(0, i).value(r, d) == pb.RowAt(base, i).value(j, d)
  {
    var y, z := r * pb.dim, base + j * pb.dim;
    KeptRow(pb.v, base, keep, pb.dim, j, y, z);
    assert SameEntry(KeptRows(pb.v, base, keep, pb.dim), y, pb.v, z, d);
  }

  /** The sums over the first `n` keys of one row and the first `r` of another agree. */
  ghost predicate SumsAgree(fp: Arithmetic, a: Row, n: nat, b: Row, r: nat, d: int) {
    Denominator(fp, a, n, 0.0) == Denominator(fp, b, r, 0.0) && Numerator(fp, a, n, d, 0.0) == Numerator(fp, b, r, d, 0.0)
  }

  lemma SumsExtend(fp: Arithmetic, a: Row, n: nat, b: Row, r: nat, d: int)
    requires SumsAgree(fp, a, n, b, r, d)
    requires !a.masked(n) && !b.masked(r) && a.score(n) == b.score(r) && a.value(n, d) == b.value(r, d)
    ensures SumsAgree(fp, a, n + 1, b, r + 1, d)
  {
    assert Weight(fp, a, n, 0.0) == Weight(fp, b, r, 0.0);
  }

  /** The sums over the first `n` keys are those over the kept ones among them. */
  lemma {:induction false} PaddedSums(pb: Problem, base: nat, keep: seq<bool>, i: nat, n: nat, d: nat)
    requires pb.mask == Padding(keep) && pb.Fits(base) && |keep| == pb.n && i < pb.n && n <= pb.n && d < pb.dim
    ensures SumsAgree(pb.fp, pb.RowAt(base, i), n, Compacted(pb, base, keep).RowAt(0, i), Count(keep[..n]), d)
  {
    if n > 0 {
      var row, kept, r := pb.RowAt(base, i), Compacted(pb, base, keep).RowAt(0, i), Count(keep[..n - 1]);
      PaddedSums(pb, base, keep, i, n - 1, d);
      assert keep[..n][..n - 1] == keep[..n - 1];
      if keep[n - 1] {
        CompactedKey(pb, base, keep, i, n - 1, r);
        CompactedValue(pb, base, keep, i, n - 1, r, d);
        SumsExtend(pb.fp, row, n - 1, kept, r, d);
      } else {
        MaskedTail(pb.fp, row, n - 1, n, d);
      }
    }
  }

  /**
   Under a padding mask, attention is unmasked attention over the kept key and value rows, and undefined
   if and only if none is kept.
   */
  lemma PaddingKeeps(pb: Problem, base: nat, keep: seq<bool>, i: nat, d: nat)
    requires pb.mask == Padding(keep) && pb.Fits(base) && |keep| == pb.n && i < pb.n && d < pb.dim
    ensures Attend(pb.fp, pb.RowAt(base, i), pb.n, d) == Attend(pb.fp, Compacted(pb, base, keep).RowAt(0, i), Count(keep), d)
    ensures Attend(pb.fp, pb.RowAt(base, i), pb.n, d) == NaN <==> forall j :: 0 <= j < |keep| ==> !keep[j]
  {
    assert keep[..pb.n] == keep;
    PaddedSums(pb, base, keep, i, pb.n, d);
    DenominatorPositive(pb.fp, pb.RowAt(base, i), pb.n, 0.0);
    PaddingShows(pb, base, keep, i, 0, pb.n);
  }

  /** Which keys a range of positions shows. */
  lemma PaddingShows(pb: Problem, base: nat, keep: seq<bool>, i: nat, lo: nat, hi: nat)
    requires pb.mask == Padding(keep) && lo <= hi <= |keep|
    ensures VisibleIn(pb.RowAt(base, i), lo, hi) <==> exists j :: lo <= j < hi && keep[j]
  {
    if j :| lo <= j < hi && keep[j] {
      assert !pb.RowAt(base, i).masked(j);
    }
  }

  datatype AttentionError =
    | BufferShapeMismatch(which: string, expected: nat, got: nat)
    | OutputShapeMismatch(expected: nat, got: nat)
    | ZeroDim
    | PaddingLengthMismatch(expected: nat, got: nat)

  datatype Result = Ok | Err(error: AttentionError)

  /** The checks both kernels make before any work, in order. */
  function Validate(pb: Problem, outLen: nat): Result {
    var expected := pb.BufferLen();
    if pb.dim == 0 then Err(ZeroDim)
    else if |pb.q| != expected then Err(BufferShapeMismatch("q", expected, |pb.q|))
    else if |pb.k| != expected then Err(BufferShapeMismatch("k", expected, |pb.k|))
    else if |pb.v| != expected then Err(BufferShapeMismatch("v", expected, |pb.v|))
    else if outLen != expected then Err(OutputShapeMismatch(expected, outLen))
    else if !pb.mask.ValidFor(pb.n) then Err(PaddingLengthMismatch(pb.n, |pb.mask.keep|))
    else Ok
  }

  /** A call is accepted if and only if every buffer has `batch * heads * n * dim` elements, of at least one feature, and a padding mask one flag per key. */
  lemma AcceptsExactly(pb: Problem, outLen: nat)
    ensures Validate(pb, outLen) == Ok <==>
              && pb.dim > 0 && |pb.q| == |pb.k| == |pb.v| == outLen == pb.batch * pb.heads * pb.n * pb.dim
              && forall keep :: pb.mask == Padding(keep) ==> |keep| == pb.n
  {
  }

  /** What is refused, and why: the first buffer that does not fit, else the mask. */
  lemma RefusesExactly(pb: Problem, outLen: nat, length: nat)
    requires length == pb.batch * pb.heads * pb.n * pb.dim
    ensures Validate(pb, outLen) == Err(ZeroDim) <==> pb.dim == 0
    ensures pb.dim > 0 && |pb.q| != length ==> Validate(pb, outLen) == Err(BufferShapeMismatch("q", length, |pb.q|))
    ensures pb.dim > 0 && |pb.q| == length && |pb.k| != length ==> Validate(pb, outLen) == Err(BufferShapeMismatch("k", length, |pb.k|))
    ensures pb.dim > 0 && |pb.q| == |pb.k| == length && |pb.v| != length ==> Validate(pb, outLen) == Err(BufferShapeMismatch("v", length, |pb.v|))
    ensures pb.dim > 0 && |pb.q| == |pb.k| == |pb.v| == length && outLen != length ==> Validate(pb, outLen) == Err(OutputShapeMismatch(length, outLen))
    ensures pb.dim > 0 && |pb.q| == |pb.k| == |pb.v| == outLen == length && pb.mask.Padding? && |pb.mask.keep| != pb.n ==>
              Validate(pb, outLen) == Err(PaddingLengthMismatch(pb.n, |pb.mask.keep|))
  {
  }

  lemma SlabBounds(pb: Problem, bh: nat)
    requires bh < pb.batch * pb.heads
    ensures bh * pb.Slab() + pb.Slab() == (bh + 1) * pb.Slab() <= pb.BufferLen()
  {
    RowsOrdered(bh + 1, pb.batch * pb.heads, pb.Slab());
    assert pb.batch * pb.heads * pb.n * pb.dim == (pb.batch * pb.heads) * (pb.n * pb.dim);
  }
}
