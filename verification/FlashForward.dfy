/**
 The tiled kernel: score tile, mask, online softmax per row, value accumulation, and the
 final normalisation, with the running statistics in scratch buffers.
 */
module FlashForward {
  import opened Floats
  import opened Sums
  import opened Attention

  // ---- Output bookkeeping ----

  /** Output row `i` of the slab at `base` holds what the tiled kernel should write. */
  ghost predicate RowDone(pb: Problem, out: seq<Float>, base: nat, i: nat) {
    && base + (i + 1) * pb.dim <= |out|
    && forall d: nat :: d < pb.dim && InRow(base, i, pb.dim, d) < |out| ==>
         out[InRow(base, i, pb.dim, d)] == FlashOutput(pb.fp, pb.RowAt(base, i), pb.First(), pb.n, d)
  }

  function InRow(base: nat, i: nat, dim: nat, d: nat): nat {
    base + i * dim + d
  }

  lemma RowKept(pb: Problem, before: seq<Float>, after: seq<Float>, base: nat, i: nat, lo: nat)
    requires RowDone(pb, before, base, i) && base + (i + 1) * pb.dim <= lo <= |before| == |after|
    requires before[..lo] == after[..lo]
    ensures RowDone(pb, after, base, i)
  {
    forall d: nat | d < pb.dim
      ensures after[InRow(base, i, pb.dim, d)] == FlashOutput(pb.fp, pb.RowAt(base, i), pb.First(), pb.n, d)
    {
      RowBounds(i, i + 1, pb.dim);
      var t := InRow(base, i, pb.dim, d);
      assert before[..lo][t] == after[..lo][t];
    }
  }

  // ---- Matrix products ----

  /** Scaled products of query rows `qi..` and key rows `kj..`. */
  method ScoreTile(pb: Problem, base: nat, qi: nat, rows: nat, kj: nat, cols: nat, s: array2<Float>)
    requires pb.Fits(base) && qi + rows <= pb.n && kj + cols <= pb.n
    requires rows <= s.Length0 && cols <= s.Length1
    modifies s
    ensures forall r: nat, c: nat :: r < rows && c < cols ==> s[r, c] == Fin(pb.RowAt(base, qi + r).score(kj + c))
  {
    var r := 0;
    while r < rows
      invariant 0 <= r <= rows
      invariant forall a: nat, c: nat :: a < r && c < cols ==> s[a, c] == Fin(pb.RowAt(base, qi + a).score(kj + c))
    {
      var c := 0;
      while c < cols
        invariant 0 <= c <= cols
        invariant forall a: nat, b: nat :: a < r && b < cols ==> s[a, b] == Fin(pb.RowAt(base, qi + a).score(kj + b))
        invariant forall b: nat :: b < c ==> s[r, b] == Fin(pb.RowAt(base, qi + r).score(kj + b))
      {
        var x := RowProduct(pb, base, qi + r, kj + c);
        s[r, c] := Fin(pb.scale * x);
        c := c + 1;
      }
      r := r + 1;
    }
  }

  method RowProduct(pb: Problem, base: nat, i: nat, j: nat) returns (x: real)
    requires pb.Fits(base) && i < pb.n && j < pb.n
    ensures x == Dot(pb.q, base + i * pb.dim, pb.k, base + j * pb.dim, pb.dim)
  {
    RowBounds(i, pb.n, pb.dim);
    RowBounds(j, pb.n, pb.dim);
    x := 0.0;
    var d := 0;
    while d < pb.dim
      invariant 0 <= d <= pb.dim
      invariant x == Dot(pb.q, base + i * pb.dim, pb.k, base + j * pb.dim, d)
    {
      x := x + pb.q[base + i * pb.dim + d] * pb.k[base + j * pb.dim + d];
      d := d + 1;
    }
  }

  method MaskTile(pb: Problem, base: nat, qi: nat, rows: nat, kj: nat, cols: nat, s: array2<Float>)
    requires rows <= s.Length0 && cols <= s.Length1
    requires forall r: nat, c: nat :: r < rows && c < cols ==> s[r, c] == Fin(pb.RowAt(base, qi + r).score(kj + c))
    modifies s
    ensures forall r: nat, c: nat :: r < rows && c < cols ==> s[r, c] == pb.RowAt(base, qi + r).Score(kj + c)
  {
    if pb.mask.NoMask? {
      return;
    }
    var r := 0;
    while r < rows
      invariant 0 <= r <= rows
      invariant forall a: nat, c: nat :: a < r && c < cols ==> s[a, c] == pb.RowAt(base, qi + a).Score(kj + c)
      invariant forall a: nat, c: nat :: r <= a < rows && c < cols ==> s[a, c] == Fin(pb.RowAt(base, qi + a).score(kj + c))
    {
      var c := 0;
      while c < cols
        invariant 0 <= c <= cols
        invariant forall a: nat, b: nat :: a < r && b < cols ==> s[a, b] == pb.RowAt(base, qi + a).Score(kj + b)
        invariant forall b: nat :: b < c ==> s[r, b] == pb.RowAt(base, qi + r).Score(kj + b)
        invariant forall b: nat :: c <= b < cols ==> s[r, b] == Fin(pb.RowAt(base, qi + r).score(kj + b))
        invariant forall a: nat, b: nat :: r < a < rows && b < cols ==> s[a, b] == Fin(pb.RowAt(base, qi + a).score(kj + b))
      {
        if pb.mask.IsMasked(qi + r, kj + c) {
          s[r, c] := NegInf;
        }
        c := c + 1;
      }
      r := r + 1;
    }
  }

  // ---- Online softmax of one row of the tile ----

  lemma MulOne(fp: Arithmetic, x: Float)
    ensures fp.Mul(x, Fin(1.0)) == x
  {
  }

  /** Updates `m[r]` and `l[r]`, rescales row `r` of `o`, and fills row `r` of `p`. */
  method SoftmaxRow(pb: Problem, ghost row: Row, kj: nat, cols: nat, r: nat,
                    s: array2<Float>, p: array2<Float>, o: array2<Float>, m: array<Float>, l: array<Float>)
    requires r < s.Length0 && r < p.Length0 && r < o.Length0 && r < m.Length && r < l.Length
    requires cols <= s.Length1 && cols <= p.Length1 && s != p && s != o && p != o && m != l
    requires forall c: nat :: c < cols ==> s[r, c] == row.Score(kj + c)
    modifies p, o, m, l
    ensures RowStepped(pb.fp, row, kj, kj + cols, old(m[r]), old(l[r]), m[r], l[r])
    ensures forall d: nat :: d < o.Length1 ==> o[r, d] == pb.fp.Mul(old(o[r, d]), Alpha(pb.fp, old(m[r]), m[r]))
    ensures forall c: nat :: c < cols ==> p[r, c] == Prob(pb.fp, row, kj + c, m[r])
    ensures forall a: nat :: a < m.Length && a != r ==> m[a] == old(m[a])
    ensures forall a: nat :: a < l.Length && a != r ==> l[a] == old(l[a])
    ensures forall a: nat, d: nat :: a < o.Length0 && d < o.Length1 && a != r ==> o[a, d] == old(o[a, d])
    ensures forall a: nat, c: nat :: a < p.Length0 && c < p.Length1 && a != r ==> p[a, c] == old(p[a, c])
  {
    var mTile := NegInf;
    var c := 0;
    while c < cols
      invariant 0 <= c <= cols
      invariant mTile == RangeMax(pb.fp, row, kj, kj + c)
    {
      if pb.fp.Gt(s[r, c], mTile) {
        mTile := s[r, c];
      }
      c := c + 1;
    }
    var mPrev := m[r];
    var mNew := if pb.fp.Gt(mTile, mPrev) then mTile else mPrev;
    var alpha := if mPrev == NegInf then Fin(0.0) else pb.fp.Exp(pb.fp.Sub(mPrev, mNew));
    RescaleRow(pb.fp, alpha, r, o, l);
    var tileL := FillProbs(pb, row, kj, cols, r, s, p, mNew);
    l[r] := pb.fp.Add(l[r], tileL);
    m[r] := mNew;
  }

  /** Row `r` of the unnormalised probabilities, and their sum. */
  method FillProbs(pb: Problem, ghost row: Row, kj: nat, cols: nat, r: nat, s: array2<Float>, p: array2<Float>, mNew: Float)
    returns (tileL: Float)
    requires r < s.Length0 && r < p.Length0 && cols <= s.Length1 && cols <= p.Length1 && s != p
    requires forall c: nat :: c < cols ==> s[r, c] == row.Score(kj + c)
    modifies p
    ensures tileL == TileSum(pb.fp, row, kj, kj + cols, mNew)
    ensures forall c: nat :: c < cols ==> p[r, c] == Prob(pb.fp, row, kj + c, mNew)
    ensures forall a: nat, c: nat :: a < p.Length0 && c < p.Length1 && a != r ==> p[a, c] == old(p[a, c])
  {
    tileL := Fin(0.0);
    var c := 0;
    while c < cols
      invariant 0 <= c <= cols
      invariant tileL == TileSum(pb.fp, row, kj, kj + c, mNew)
      invariant forall b: nat :: b < c ==> p[r, b] == Prob(pb.fp, row, kj + b, mNew)
      invariant forall a: nat, b: nat :: a < p.Length0 && b < p.Length1 && a != r ==> p[a, b] == old(p[a, b])
    {
      var x := pb.fp.Exp(pb.fp.Sub(s[r, c], mNew));
      p[r, c] := x;
      tileL := pb.fp.Add(tileL, x);
      c := c + 1;
    }
  }

  method RescaleRow(fp: Arithmetic, alpha: Float, r: nat, o: array2<Float>, l: array<Float>)
    requires r < o.Length0 && r < l.Length
    modifies o, l
    ensures l[r] == fp.Mul(old(l[r]), alpha)
    ensures forall d: nat :: d < o.Length1 ==> o[r, d] == fp.Mul(old(o[r, d]), alpha)
    ensures forall a: nat :: a < l.Length && a != r ==> l[a] == old(l[a])
    ensures forall a: nat, d: nat :: a < o.Length0 && d < o.Length1 && a != r ==> o[a, d] == old(o[a, d])
  {
    if alpha != Fin(1.0) {
      l[r] := fp.Mul(l[r], alpha);
      var d := 0;
      while d < o.Length1
        modifies o
        invariant 0 <= d <= o.Length1
        invariant forall b: nat :: b < d ==> o[r, b] == fp.Mul(old(o[r, b]), alpha)
        invariant forall b: nat :: d <= b < o.Length1 ==> o[r, b] == old(o[r, b])
        invariant forall a: nat, b: nat :: a < o.Length0 && b < o.Length1 && a != r ==> o[a, b] == old(o[a, b])
      {
        o[r, d] := fp.Mul(o[r, d], alpha);
        d := d + 1;
      }
    } else {
      MulOne(fp, l[r]);
      forall d: nat | d < o.Length1 ensures fp.Mul(o[r, d], alpha) == o[r, d] {
        MulOne(fp, o[r, d]);
      }
    }
  }

  /** Adds the probability-weighted values of keys `kj..` to every row of `o`. */
  method ValueAccumulate(pb: Problem, base: nat, qi: nat, rows: nat, kj: nat, cols: nat,
                         p: array2<Float>, o: array2<Float>, m: array<Float>)
    requires pb.Fits(base) && kj + cols <= pb.n
    requires rows <= p.Length0 && rows <= o.Length0 && rows <= m.Length && cols <= p.Length1 && o.Length1 == pb.dim && p != o
    requires forall r: nat, c: nat :: r < rows && c < cols ==> p[r, c] == Prob(pb.fp, pb.RowAt(base, qi + r), kj + c, m[r])
    modifies o
    ensures forall r: nat, d: nat :: r < rows && d < pb.dim ==>
              o[r, d] == TileDot(pb.fp, pb.RowAt(base, qi + r), kj, kj + cols, d, m[r], old(o[r, d]))
  {
    var r := 0;
    while r < rows
      invariant 0 <= r <= rows
      invariant forall a: nat, d: nat :: a < r && d < pb.dim ==>
                  o[a, d] == TileDot(pb.fp, pb.RowAt(base, qi + a), kj, kj + cols, d, m[a], old(o[a, d]))
      invariant forall a: nat, d: nat :: r <= a < rows && d < pb.dim ==> o[a, d] == old(o[a, d])
    {
      ValueRow(pb, base, qi + r, kj, cols, r, p, o, m[r]);
      r := r + 1;
    }
  }

  /** Adds the weighted values to row `r` of `o`. */
  method ValueRow(pb: Problem, base: nat, ghost i: nat, kj: nat, cols: nat, r: nat,
                  p: array2<Float>, o: array2<Float>, ghost mr: Float)
    requires pb.Fits(base) && kj + cols <= pb.n
    requires r < p.Length0 && r < o.Length0 && cols <= p.Length1 && o.Length1 == pb.dim && p != o
    requires forall c: nat :: c < cols ==> p[r, c] == Prob(pb.fp, pb.RowAt(base, i), kj + c, mr)
    modifies o
    ensures forall d: nat :: d < pb.dim ==> o[r, d] == TileDot(pb.fp, pb.RowAt(base, i), kj, kj + cols, d, mr, old(o[r, d]))
    ensures forall a: nat, d: nat :: a < o.Length0 && d < pb.dim && a != r ==> o[a, d] == old(o[a, d])
  {
    var d := 0;
    while d < pb.dim
      invariant 0 <= d <= pb.dim
      invariant forall b: nat :: b < d ==>
                  o[r, b] == TileDot(pb.fp, pb.RowAt(base, i), kj, kj + cols, b, mr, old(o[r, b]))
      invariant forall b: nat :: d <= b < pb.dim ==> o[r, b] == old(o[r, b])
      invariant forall a: nat, b: nat :: a < o.Length0 && b < pb.dim && a != r ==> o[a, b] == old(o[a, b])
    {
      var x := ValueDot(pb, base, i, kj, cols, d, r, p, mr, o[r, d]);
      o[r, d] := x;
      d := d + 1;
    }
  }

  method ValueDot(pb: Problem, base: nat, ghost i: nat, kj: nat, cols: nat, d: nat, r: nat,
                  p: array2<Float>, ghost mr: Float, start: Float) returns (x: Float)
    requires pb.Fits(base) && kj + cols <= pb.n && d < pb.dim && r < p.Length0 && cols <= p.Length1
    requires forall c: nat :: c < cols ==> p[r, c] == Prob(pb.fp, pb.RowAt(base, i), kj + c, mr)
    ensures x == TileDot(pb.fp, pb.RowAt(base, i), kj, kj + cols, d, mr, start)
  {
    x := start;
    var c := 0;
    while c < cols
      invariant 0 <= c <= cols
      invariant x == TileDot(pb.fp, pb.RowAt(base, i), kj, kj + c, d, mr, start)
    {
      var j := kj + c;
      RowBounds(j, pb.n, pb.dim);
      assert base + j * pb.dim + d < |pb.v|;
      assert pb.RowAt(base, i).value(j, d) == At(pb.v, base + j * pb.dim + d);
      assert At(pb.v, base + j * pb.dim + d) == pb.v[base + j * pb.dim + d];
      x := pb.fp.Add(x, pb.fp.Mul(p[r, c], Fin(pb.v[base + j * pb.dim + d])));
      c := c + 1;
    }
  }

  // ---- One query tile ----

  ghost function OutRow(o: array2<Float>, r: nat, dim: nat): (x: seq<Float>)
    requires r < o.Length0 && dim <= o.Length1
    reads o
    ensures |x| == dim && forall d: nat :: d < dim ==> x[d] == o[r, d]
  {
    seq(dim, d requires 0 <= d < dim reads o => o[r, d])
  }

  class Scratch {
    const s: array2<Float>
    const p: array2<Float>
    const o: array2<Float>
    const m: array<Float>
    const l: array<Float>
    ghost const Repr: set<object>

    constructor (br: nat, bc: nat, dim: nat)
      ensures Valid(br, bc, dim) && fresh(Repr)
    {
      s := new Float[br, bc]((_, _) => Fin(0.0));
      p := new Float[br, bc]((_, _) => Fin(0.0));
      o := new Float[br, dim]((_, _) => Fin(0.0));
      m := new Float[br](_ => NegInf);
      l := new Float[br](_ => Fin(0.0));
      Repr := {s, p, o, m, l};
    }

    ghost predicate Valid(br: nat, bc: nat, dim: nat) {
      && Repr == {s, p, o, m, l} && s != p && s != o && p != o && m != l
      && s.Length0 == p.Length0 == o.Length0 == m.Length == l.Length == br
      && s.Length1 == p.Length1 == bc && o.Length1 == dim
    }

    /** Every row of the query tile at `qi` is in the state it should have after keys `0..kj`. */
    ghost predicate Holds(pb: Problem, base: nat, qi: nat, rows: nat, kj: nat)
      requires Valid(pb.br, pb.bc, pb.dim) && rows <= pb.br
      reads o, m, l
    {
      forall r: nat :: r < rows ==>
        RowState(pb.fp, pb.RowAt(base, qi + r), pb.First(), kj, m[r], l[r], OutRow(o, r, pb.dim))
    }

    method Reset(pb: Problem, base: nat, qi: nat, rows: nat)
      requires Valid(pb.br, pb.bc, pb.dim) && rows <= pb.br
      modifies o, m, l
      ensures Holds(pb, base, qi, rows, 0)
    {
      var r := 0;
      while r < rows
        invariant 0 <= r <= rows
        invariant forall a: nat :: a < r ==> m[a] == NegInf && l[a] == Fin(0.0)
        invariant forall a: nat, d: nat :: a < r && d < pb.dim ==> o[a, d] == Fin(0.0)
      {
        m[r] := NegInf;
        l[r] := Fin(0.0);
        var d := 0;
        while d < pb.dim
          invariant 0 <= d <= pb.dim
          invariant forall a: nat :: a <= r ==> m[a] == NegInf && l[a] == Fin(0.0)
          invariant forall a: nat, b: nat :: a < r && b < pb.dim ==> o[a, b] == Fin(0.0)
          invariant forall b: nat :: b < d ==> o[r, b] == Fin(0.0)
        {
          o[r, d] := Fin(0.0);
          d := d + 1;
        }
        r := r + 1;
      }
    }

    /** Keys `kj..kj + cols`: scores, mask, softmax update of each row, value accumulation. */
    method KeyTile(pb: Problem, base: nat, qi: nat, rows: nat, kj: nat, cols: nat)
      requires Valid(pb.br, pb.bc, pb.dim) && rows <= pb.br && cols <= pb.bc
      requires pb.Fits(base) && qi + rows <= pb.n && kj + cols <= pb.n
      requires NextTile(pb.First(), kj, kj + cols) && Holds(pb, base, qi, rows, kj)
      modifies Repr
      ensures Holds(pb, base, qi, rows, kj + cols)
    {
      ghost var m0, l0 := m[..], l[..];
      ghost var o0 := seq(rows, r requires 0 <= r < rows reads o => OutRow(o, r, pb.dim));
      ScoreTile(pb, base, qi, rows, kj, cols, s);
      MaskTile(pb, base, qi, rows, kj, cols, s);
      SoftmaxRows(pb, base, qi, rows, kj, cols);
      label Accumulating:
      ValueAccumulate(pb, base, qi, rows, kj, cols, p, o, m);
      forall r: nat | r < rows
        ensures RowState(pb.fp, pb.RowAt(base, qi + r), pb.First(), kj + cols, m[r], l[r], OutRow(o, r, pb.dim))
      {
        TileStep(pb.fp, pb.RowAt(base, qi + r), pb.First(), kj, kj + cols, m0[r], l0[r], o0[r],
                 m[r], l[r], OutRow(o, r, pb.dim));
      }
    }

    method SoftmaxRows(pb: Problem, base: nat, qi: nat, rows: nat, kj: nat, cols: nat)
      requires Valid(pb.br, pb.bc, pb.dim) && rows <= pb.br && cols <= pb.bc
      requires forall r: nat, c: nat :: r < rows && c < cols ==> s[r, c] == pb.RowAt(base, qi + r).Score(kj + c)
      modifies p, o, m, l
      ensures forall r: nat :: r < rows ==> RowStepped(pb.fp, pb.RowAt(base, qi + r), kj, kj + cols, old(m[r]), old(l[r]), m[r], l[r])
      ensures forall r: nat, d: nat :: r < rows && d < pb.dim ==>
                o[r, d] == pb.fp.Mul(old(o[r, d]), Alpha(pb.fp, old(m[r]), m[r]))
      ensures forall r: nat, c: nat :: r < rows && c < cols ==> p[r, c] == Prob(pb.fp, pb.RowAt(base, qi + r), kj + c, m[r])
    {
      var r := 0;
      while r < rows
        invariant 0 <= r <= rows
        invariant forall a: nat :: a < r ==> RowStepped(pb.fp, pb.RowAt(base, qi + a), kj, kj + cols, old(m[a]), old(l[a]), m[a], l[a])
        invariant forall a: nat :: r <= a < rows ==> m[a] == old(m[a]) && l[a] == old(l[a])
        invariant forall a: nat, d: nat :: a < r && d < pb.dim ==>
                    o[a, d] == pb.fp.Mul(old(o[a, d]), Alpha(pb.fp, old(m[a]), m[a]))
        invariant forall a: nat, d: nat :: r <= a < rows && d < pb.dim ==> o[a, d] == old(o[a, d])
        invariant forall a: nat, c: nat :: a < r && c < cols ==> p[a, c] == Prob(pb.fp, pb.RowAt(base, qi + a), kj + c, m[a])
      {
        SoftmaxRow(pb, pb.RowAt(base, qi + r), kj, cols, r, s, p, o, m, l);
        r := r + 1;
      }
    }

    /** All keys for the query rows `qi..qi + rows`, tile by tile. */
    method QueryTile(pb: Problem, base: nat, qi: nat, rows: nat)
      requires Valid(pb.br, pb.bc, pb.dim) && 0 < pb.bc && 0 < rows <= pb.br
      requires pb.Fits(base) && qi + rows <= pb.n
      modifies Repr
      ensures Holds(pb, base, qi, rows, pb.n)
    {
      Reset(pb, base, qi, rows);
      var kj := 0;
      while kj < pb.n
        invariant 0 <= kj <= pb.n && (kj > 0 ==> pb.First() <= kj)
        invariant Holds(pb, base, qi, rows, kj)
      {
        var kjEnd := if kj + pb.bc < pb.n then kj + pb.bc else pb.n;
        KeyTile(pb, base, qi, rows, kj, kjEnd - kj);
        kj := kjEnd;
      }
    }

    /** Writes the normalised output row `i`. */
    method WriteRow(pb: Problem, base: nat, i: nat, r: nat, out: array<Float>)
      requires Valid(pb.br, pb.bc, pb.dim) && r < pb.br && i < pb.n && 0 < pb.bc
      requires base + pb.Slab() <= out.Length && out !in Repr
      requires RowState(pb.fp, pb.RowAt(base, i), pb.First(), pb.n, m[r], l[r], OutRow(o, r, pb.dim))
      modifies out
      ensures RowDone(pb, out[..], base, i)
      ensures out[..base + i * pb.dim] == old(out[..base + i * pb.dim])
      ensures base + (i + 1) * pb.dim <= out.Length
      ensures out[base + (i + 1) * pb.dim..] == old(out[base + (i + 1) * pb.dim..])
    {
      RowBounds(i, pb.n, pb.dim);
      var lo := base + i * pb.dim;
      ghost var row := OutRow(o, r, pb.dim);
      var usable := l[r].Fin? && l[r].r > 0.0;
      var inv := if usable then pb.fp.Div(Fin(1.0), l[r]) else NaN;
      var d := 0;
      while d < pb.dim
        modifies out
        invariant 0 <= d <= pb.dim
        invariant forall b: nat :: b < d ==> out[lo + b] == FlashOutput(pb.fp, pb.RowAt(base, i), pb.First(), pb.n, b)
        invariant out[..lo] == old(out[..lo]) && out[lo + pb.dim..] == old(out[lo + pb.dim..])
      {
        RowFinish(pb.fp, pb.RowAt(base, i), pb.First(), pb.n, m[r], l[r], row, d);
        if usable {
          RowKind(pb.fp, pb.RowAt(base, i), pb.First(), pb.n, m[r], l[r], row, d);
          MulInverse(pb.fp, o[r, d], l[r]);
          out[lo + d] := pb.fp.Mul(o[r, d], inv);
        } else {
          out[lo + d] := NaN;
        }
        d := d + 1;
      }
    }
  }

  lemma RowKind(fp: Arithmetic, row: Row, first: nat, n: nat, m: Float, l: Float, o: seq<Float>, d: nat)
    requires 0 < n && d < |o| && RowState(fp, row, first, n, m, l, o) && l.Fin?
    ensures o[d].Fin?
  {
  }

  lemma MulInverse(fp: Arithmetic, x: Float, l: Float)
    requires x.Fin? && l.Fin? && l.r > 0.0
    ensures fp.Mul(x, fp.Div(Fin(1.0), l)) == fp.Div(x, l)
  {
    assert x.r * (1.0 / l.r) == x.r / l.r;
  }

  // ---- One (batch, head) slab, and the whole call ----

  /** `flash_forward_bh_blas`: all query tiles of the slab at `base`. */
  method FlashSlab(pb: Problem, base: nat, out: array<Float>)
    requires 0 < pb.br && 0 < pb.bc && pb.Fits(base) && base + pb.Slab() <= out.Length
    modifies out
    ensures forall i: nat :: i < pb.n ==> RowDone(pb, out[..], base, i)
    ensures out[..base] == old(out[..base]) && out[base + pb.Slab()..] == old(out[base + pb.Slab()..])
  {
    var scratch := new Scratch(pb.br, pb.bc, pb.dim);
    var qi := 0;
    while qi < pb.n
      invariant 0 <= qi <= pb.n
      invariant forall i: nat :: i < qi ==> RowDone(pb, out[..], base, i)
      invariant out[..base] == old(out[..base]) && out[base + pb.Slab()..] == old(out[base + pb.Slab()..])
    {
      var qiEnd := if qi + pb.br < pb.n then qi + pb.br else pb.n;
      label Tile:
      scratch.QueryTile(pb, base, qi, qiEnd - qi);
      assert out[..] == old@Tile(out[..]);
      WriteTile(pb, base, qi, qiEnd - qi, scratch, out);
      qi := qiEnd;
    }
  }

  method WriteTile(pb: Problem, base: nat, qi: nat, rows: nat, scratch: Scratch, out: array<Float>)
    requires scratch.Valid(pb.br, pb.bc, pb.dim) && rows <= pb.br && 0 < pb.bc && qi + rows <= pb.n
    requires base + pb.Slab() <= out.Length && out !in scratch.Repr
    requires scratch.Holds(pb, base, qi, rows, pb.n)
    requires forall i: nat :: i < qi ==> RowDone(pb, out[..], base, i)
    modifies out
    ensures forall i: nat :: i < qi + rows ==> RowDone(pb, out[..], base, i)
    ensures out[..base] == old(out[..base]) && out[base + pb.Slab()..] == old(out[base + pb.Slab()..])
  {
    var r := 0;
    while r < rows
      modifies out
      invariant 0 <= r <= rows
      invariant forall i: nat :: i < qi + r ==> RowDone(pb, out[..], base, i)
      invariant out[..base] == old(out[..base]) && out[base + pb.Slab()..] == old(out[base + pb.Slab()..])
    {
      ghost var before := out[..];
      ghost var lo := base + (qi + r) * pb.dim;
      RowBounds(qi + r, pb.n, pb.dim);
      scratch.WriteRow(pb, base, qi + r, r, out);
      assert before[..lo] == out[..][..lo];
      assert out[..base] == out[..lo][..base] && before[..base] == before[..lo][..base];
      assert out[base + pb.Slab()..] == out[lo + pb.dim..][base + pb.Slab() - (lo + pb.dim)..];
      assert before[base + pb.Slab()..] == before[lo + pb.dim..][base + pb.Slab() - (lo + pb.dim)..];
      forall i: nat | i < qi + r ensures RowDone(pb, out[..], base, i) {
        RowsOrdered(i + 1, qi + r, pb.dim);
        RowKept(pb, before, out[..], base, i, lo);
      }
      r := r + 1;
    }
  }

  /**
   `flash_forward_masked`. On success every output row of every (batch, head) slab is the masked softmax
   attention of its query, or NaN when the first key tile shows that query no key.
   */
  method FlashForwardMasked(pb: Problem, out: array<Float>) returns (r: Result)
    requires 0 < pb.br && 0 < pb.bc
    modifies out
    ensures r == Validate(pb, out.Length)
    ensures r == Ok ==> forall bh: nat, i: nat :: bh < pb.batch * pb.heads && i < pb.n ==>
              RowDone(pb, out[..], bh * pb.Slab(), i)
    ensures r != Ok ==> out[..] == old(out[..])
  {
    r := Validate(pb, out.Length);
    if r != Ok {
      return;
    }
    if pb.n == 0 {
      return;
    }
    var bh := 0;
    while bh < pb.batch * pb.heads
      invariant 0 <= bh <= pb.batch * pb.heads
      invariant forall a: nat, i: nat :: a < bh && i < pb.n ==> RowDone(pb, out[..], a * pb.Slab(), i)
    {
      ghost var before := out[..];
      SlabBounds(pb, bh);
      FlashSlab(pb, bh * pb.Slab(), out);
      SlabsKept(pb, before, out[..], bh);
      bh := bh + 1;
    }
  }

  lemma SlabsKept(pb: Problem, before: seq<Float>, after: seq<Float>, bh: nat)
    requires bh < pb.batch * pb.heads && |before| == |after| == pb.BufferLen() && bh * pb.Slab() <= |before|
    requires before[..bh * pb.Slab()] == after[..bh * pb.Slab()]
    requires forall a: nat, i: nat :: a < bh && i < pb.n ==> RowDone(pb, before, a * pb.Slab(), i)
    ensures forall a: nat, i: nat :: a < bh && i < pb.n ==> RowDone(pb, after, a * pb.Slab(), i)
  {
    forall a: nat, i: nat | a < bh && i < pb.n
      ensures RowDone(pb, after, a * pb.Slab(), i)
    {
      RowsOrdered(a + 1, bh, pb.Slab());
      RowBounds(i, pb.n, pb.dim);
      SlabBounds(pb, a);
      RowKept(pb, before, after, a * pb.Slab(), i, bh * pb.Slab());
    }
  }
}
