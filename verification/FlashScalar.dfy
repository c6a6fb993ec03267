/**
 The row-at-a-time form of the tiled kernel, used where no matrix-product library is available.
 */
module FlashScalar {
  import opened Floats
  import opened Sums
  import opened Attention
  import opened FlashForward

  /** One key tile for one query row: scores, running maximum, rescaling, then accumulation key by key. */
  method ScalarTile(pb: Problem, base: nat, i: nat, kj: nat, kjEnd: nat, m: Float, l: Float, o: array<Float>)
    returns (m': Float, l': Float)
    requires pb.Fits(base) && i < pb.n && kjEnd <= pb.n && o.Length == pb.dim
    requires NextTile(pb.First(), kj, kjEnd) && RowState(pb.fp, pb.RowAt(base, i), pb.First(), kj, m, l, o[..])
    modifies o
    ensures RowState(pb.fp, pb.RowAt(base, i), pb.First(), kjEnd, m', l', o[..])
  {
    ghost var row, o0 := pb.RowAt(base, i), o[..];
    var scores := TileScores(pb, base, i, kj, kjEnd);
    var mTile := NegInf;
    var c := 0;
    while c < |scores|
      invariant 0 <= c <= |scores| && mTile == RangeMax(pb.fp, row, kj, kj + c)
    {
      mTile := if pb.fp.Gt(scores[c], mTile) then scores[c] else mTile;
      c := c + 1;
    }
    m' := if pb.fp.Gt(mTile, m) then mTile else m;
    var alpha := if m == NegInf then Fin(0.0) else pb.fp.Exp(pb.fp.Sub(m, m'));
    l' := RescaleAll(pb.fp, alpha, l, o);
    var tileL := AccumulateKeys(pb, base, i, kj, scores, m', o);
    l' := pb.fp.Add(l', tileL);
    TileStep(pb.fp, row, pb.First(), kj, kjEnd, m, l, o0, m', l', o[..]);
  }

  method TileScores(pb: Problem, base: nat, i: nat, kj: nat, kjEnd: nat) returns (scores: seq<Float>)
    requires pb.Fits(base) && i < pb.n && kj <= kjEnd <= pb.n
    ensures |scores| == kjEnd - kj && forall c: nat :: c < |scores| ==> scores[c] == pb.RowAt(base, i).Score(kj + c)
  {
    scores := [];
    var kk := kj;
    while kk < kjEnd
      invariant kj <= kk <= kjEnd && |scores| == kk - kj
      invariant forall c: nat :: c < |scores| ==> scores[c] == pb.RowAt(base, i).Score(kj + c)
    {
      var x := RowProduct(pb, base, i, kk);
      var score := if pb.mask.IsMasked(i, kk) then NegInf else Fin(pb.scale * x);
      scores := scores + [score];
      kk := kk + 1;
    }
  }

  method RescaleAll(fp: Arithmetic, alpha: Float, l: Float, o: array<Float>) returns (l': Float)
    modifies o
    ensures l' == fp.Mul(l, alpha)
    ensures forall d: nat :: d < o.Length ==> o[d] == fp.Mul(old(o[d]), alpha)
  {
    l' := l;
    if alpha != Fin(1.0) {
      l' := fp.Mul(l, alpha);
      var d := 0;
      while d < o.Length
        invariant 0 <= d <= o.Length
        invariant forall b: nat :: b < d ==> o[b] == fp.Mul(old(o[b]), alpha)
        invariant forall b: nat :: d <= b < o.Length ==> o[b] == old(o[b])
      {
        o[d] := fp.Mul(o[d], alpha);
        d := d + 1;
      }
    } else {
      MulOne(fp, l);
      forall d: nat | d < o.Length ensures fp.Mul(o[d], alpha) == o[d] {
        MulOne(fp, o[d]);
      }
    }
  }

  method AccumulateKeys(pb: Problem, base: nat, i: nat, kj: nat, scores: seq<Float>, m: Float, o: array<Float>)
    returns (tileL: Float)
    requires pb.Fits(base) && i < pb.n && kj + |scores| <= pb.n && o.Length == pb.dim
    requires forall c: nat :: c < |scores| ==> scores[c] == pb.RowAt(base, i).Score(kj + c)
    modifies o
    ensures tileL == TileSum(pb.fp, pb.RowAt(base, i), kj, kj + |scores|, m)
    ensures forall d: nat :: d < pb.dim ==>
              o[d] == TileDot(pb.fp, pb.RowAt(base, i), kj, kj + |scores|, d, m, old(o[d]))
  {
    ghost var row := pb.RowAt(base, i);
    tileL := Fin(0.0);
    var c := 0;
    while c < |scores|
      invariant 0 <= c <= |scores|
      invariant tileL == TileSum(pb.fp, row, kj, kj + c, m)
      invariant forall d: nat :: d < pb.dim ==> o[d] == TileDot(pb.fp, row, kj, kj + c, d, m, old(o[d]))
    {
      var p := pb.fp.Exp(pb.fp.Sub(scores[c], m));
      tileL := pb.fp.Add(tileL, p);
      AddKey(pb, base, i, kj + c, p, o);
      assert p == Prob(pb.fp, row, kj + c, m);
      c := c + 1;
    }
  }

  method AddKey(pb: Problem, base: nat, ghost i: nat, j: nat, p: Float, o: array<Float>)
    requires pb.Fits(base) && j < pb.n && o.Length == pb.dim
    modifies o
    ensures forall d: nat :: d < pb.dim ==>
              o[d] == pb.fp.Add(old(o[d]), pb.fp.Mul(p, Fin(pb.RowAt(base, i).value(j, d))))
  {
    RowBounds(j, pb.n, pb.dim);
    var d := 0;
    while d < pb.dim
      invariant 0 <= d <= pb.dim
      invariant forall b: nat :: b < d ==>
                  o[b] == pb.fp.Add(old(o[b]), pb.fp.Mul(p, Fin(pb.RowAt(base, i).value(j, b))))
      invariant forall b: nat :: d <= b < pb.dim ==> o[b] == old(o[b])
    {
      assert pb.RowAt(base, i).value(j, d) == At(pb.v, base + j * pb.dim + d);
      assert At(pb.v, base + j * pb.dim + d) == pb.v[base + j * pb.dim + d];
      o[d] := pb.fp.Add(o[d], pb.fp.Mul(p, Fin(pb.v[base + j * pb.dim + d])));
      d := d + 1;
    }
  }

  /** All key tiles for one query row, and the final division. */
  method ScalarRow(pb: Problem, base: nat, i: nat, out: array<Float>)
    requires 0 < pb.bc && pb.Fits(base) && i < pb.n && base + pb.Slab() <= out.Length
    modifies out
    ensures RowDone(pb, out[..], base, i)
    ensures base + (i + 1) * pb.dim <= out.Length
    ensures out[..base + i * pb.dim] == old(out[..base + i * pb.dim])
    ensures out[base + (i + 1) * pb.dim..] == old(out[base + (i + 1) * pb.dim..])
  {
    RowBounds(i, pb.n, pb.dim);
    var o := new Float[pb.dim](_ => Fin(0.0));
    var m, l := NegInf, Fin(0.0);
    var kj := 0;
    while kj < pb.n
      invariant 0 <= kj <= pb.n && (kj > 0 ==> pb.First() <= kj)
      invariant RowState(pb.fp, pb.RowAt(base, i), pb.First(), kj, m, l, o[..])
      invariant out[..] == old(out[..])
    {
      var kjEnd := if kj + pb.bc < pb.n then kj + pb.bc else pb.n;
      m, l := ScalarTile(pb, base, i, kj, kjEnd, m, l, o);
      kj := kjEnd;
    }
    var lo := base + i * pb.dim;
    var d := 0;
    while d < pb.dim
      modifies out
      invariant 0 <= d <= pb.dim
      invariant forall b: nat :: b < d ==> out[lo + b] == FlashOutput(pb.fp, pb.RowAt(base, i), pb.First(), pb.n, b)
      invariant out[..lo] == old(out[..lo]) && out[lo + pb.dim..] == old(out[lo + pb.dim..])
    {
      RowFinish(pb.fp, pb.RowAt(base, i), pb.First(), pb.n, m, l, o[..], d);
      out[lo + d] := if l.Fin? && l.r > 0.0 then pb.fp.Div(o[d], l) else NaN;
      d := d + 1;
    }
  }

  /** `flash_forward_bh_scalar`: the same slab of outputs as the tile kernel, row by row. */
  method ScalarSlab(pb: Problem, base: nat, out: array<Float>)
    requires 0 < pb.br && 0 < pb.bc && pb.Fits(base) && base + pb.Slab() <= out.Length
    modifies out
    ensures forall i: nat :: i < pb.n ==> RowDone(pb, out[..], base, i)
    ensures out[..base] == old(out[..base]) && out[base + pb.Slab()..] == old(out[base + pb.Slab()..])
  {
    var qi := 0;
    while qi < pb.n
      invariant 0 <= qi <= pb.n
      invariant forall i: nat :: i < qi ==> RowDone(pb, out[..], base, i)
      invariant out[..base] == old(out[..base]) && out[base + pb.Slab()..] == old(out[base + pb.Slab()..])
    {
      var qiEnd := if qi + pb.br < pb.n then qi + pb.br else pb.n;
      var row := qi;
      while row < qiEnd
        modifies out
        invariant qi <= row <= qiEnd
        invariant forall i: nat :: i < row ==> RowDone(pb, out[..], base, i)
        invariant out[..base] == old(out[..base]) && out[base + pb.Slab()..] == old(out[base + pb.Slab()..])
      {
        ghost var before := out[..];
        RowBounds(row, pb.n, pb.dim);
        ScalarRow(pb, base, row, out);
        RowWritten(pb, before, out[..], base, row);
        row := row + 1;
      }
      qi := qiEnd;
    }
  }

  /** Writing one row keeps the earlier rows of the slab and everything outside the slab. */
  lemma RowWritten(pb: Problem, before: seq<Float>, after: seq<Float>, base: nat, i: nat)
    requires i < pb.n && base + pb.Slab() <= |before| == |after| && base + (i + 1) * pb.dim <= |before|
    requires before[..base + i * pb.dim] == after[..base + i * pb.dim]
    requires before[base + (i + 1) * pb.dim..] == after[base + (i + 1) * pb.dim..]
    requires forall a: nat :: a < i ==> RowDone(pb, before, base, a)
    ensures forall a: nat :: a < i ==> RowDone(pb, after, base, a)
    ensures before[..base] == after[..base] && before[base + pb.Slab()..] == after[base + pb.Slab()..]
  {
    RowBounds(i, pb.n, pb.dim);
    var lo, hi := base + i * pb.dim, base + (i + 1) * pb.dim;
    assert after[..base] == after[..lo][..base] && before[..base] == before[..lo][..base];
    assert after[base + pb.Slab()..] == after[hi..][base + pb.Slab() - hi..];
    assert before[base + pb.Slab()..] == before[hi..][base + pb.Slab() - hi..];
    forall a: nat | a < i ensures RowDone(pb, after, base, a) {
      RowsOrdered(a + 1, i, pb.dim);
      RowKept(pb, before, after, base, a, lo);
    }
  }
}
