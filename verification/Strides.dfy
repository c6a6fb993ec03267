/**
 Shapes, row-major strides and coordinates.
 */
module Strides {
  type Shape = seq<nat>

  function Numel(shape: Shape): nat {
    if shape == [] then 1 else Numel(shape[..|shape| - 1]) * shape[|shape| - 1]
  }

  /** No zero-size axis. */
  predicate Positive(shape: Shape) {
    forall i :: 0 <= i < |shape| ==> shape[i] > 0
  }

  predicate InShape(coords: seq<nat>, shape: Shape) {
    |coords| == |shape| && forall i :: 0 <= i < |shape| ==> coords[i] < shape[i]
  }

  /** Row-major coordinates of a linear index, by repeated division from the last axis. */
  function Decode(linear: nat, shape: Shape): (coords: seq<nat>)
    requires Positive(shape)
    ensures |coords| == |shape|
    decreases |shape|
  {
    if shape == [] then []
    else
      var last := shape[|shape| - 1];
      Decode(linear / last, shape[..|shape| - 1]) + [linear % last]
  }

  /** Row-major linear index of coordinates. */
  function Encode(coords: seq<nat>, shape: Shape): nat
    requires |coords| == |shape|
  {
    if shape == [] then 0
    else Encode(coords[..|shape| - 1], shape[..|shape| - 1]) * shape[|shape| - 1] + coords[|shape| - 1]
  }

  /** Sum of the products of coordinates and strides. */
  function DotStrides(coords: seq<nat>, strides: seq<int>): int
    requires |coords| == |strides|
  {
    if coords == [] then 0
    else DotStrides(coords[..|coords| - 1], strides[..|coords| - 1]) + coords[|coords| - 1] * strides[|coords| - 1]
  }

  /** Stride of each axis in row-major layout. */
  function RowMajor(shape: Shape): (s: seq<int>)
    ensures |s| == |shape|
  {
    if shape == [] then []
    else Scale(RowMajor(shape[..|shape| - 1]), shape[|shape| - 1]) + [1]
  }

  function Scale(s: seq<int>, c: int): (r: seq<int>)
    ensures |r| == |s| && forall i :: 0 <= i < |s| ==> r[i] == s[i] * c
  {
    if s == [] then [] else Scale(s[..|s| - 1], c) + [s[|s| - 1] * c]
  }

  // ---- Round trips ----

  lemma NumelPair(shape: Shape)
    requires |shape| == 2
    ensures Numel(shape) == shape[0] * shape[1]
  {
    assert shape[..1] == [shape[0]];
    assert shape[..1][..0] == [];
    assert Numel(shape[..1]) == Numel(shape[..1][..0]) * shape[0];
  }

  lemma EncodePair(r: nat, c: nat, shape: Shape)
    requires |shape| == 2
    ensures Encode([r, c], shape) == r * shape[1] + c
  {
    assert [r, c][..1] == [r] && shape[..1] == [shape[0]];
    assert Encode([r], [shape[0]]) == Encode([r][..0], [shape[0]][..0]) * shape[0] + r;
  }

  lemma MulPositive(a: nat, b: nat)
    requires a > 0 && b > 0
    ensures a * b > 0
  {
  }

  lemma MulBound(a: nat, b: nat, n: nat, c: nat)
    requires a < n && c < b
    ensures a * b + c < n * b
  {
    Gap(a, b, n - a - 1);
  }

  lemma Gap(a: nat, b: nat, d: nat)
    ensures (a + 1 + d) * b == a * b + b + d * b && d * b >= 0
  {
  }

  lemma {:induction false} EncodeBound(coords: seq<nat>, shape: Shape)
    requires InShape(coords, shape)
    ensures Encode(coords, shape) < Numel(shape)
  {
    if shape != [] {
      var k := |shape| - 1;
      EncodeBound(coords[..k], shape[..k]);
      MulBound(Encode(coords[..k], shape[..k]), shape[k], Numel(shape[..k]), coords[k]);
    }
  }

  lemma QuotientUnique(p: nat, r: nat, q: nat, t: nat, b: nat)
    requires r < b && t < b && p * b + r == q * b + t
    ensures p == q && r == t
  {
    if p < q {
      MulBound(p, b, q, r);
    } else if q < p {
      MulBound(q, b, p, t);
    }
  }

  lemma Division(x: nat, b: nat)
    requires b > 0
    ensures x == x / b * b + x % b
  {
  }

  lemma DivMod(a: nat, b: nat, r: nat)
    requires r < b
    ensures (a * b + r) / b == a && (a * b + r) % b == r
  {
    var x := a * b + r;
    Division(x, b);
    QuotientUnique(x / b, x % b, a, r, b);
  }

  lemma {:induction false} DecodeInShape(linear: nat, shape: Shape)
    requires Positive(shape) && linear < Numel(shape)
    ensures InShape(Decode(linear, shape), shape)
    decreases |shape|
  {
    if shape != [] {
      var k := |shape| - 1;
      DivBound(linear, Numel(shape[..k]), shape[k]);
      DecodeInShape(linear / shape[k], shape[..k]);
      var front := Decode(linear / shape[k], shape[..k]);
      assert Decode(linear, shape)[..k] == front;
      forall i | 0 <= i < k ensures Decode(linear, shape)[i] < shape[i] {
        assert front[i] < shape[..k][i];
      }
    }
  }

  /** A shape with elements has no zero-size axis. */
  lemma {:induction false} NumelPositive(shape: Shape)
    ensures Numel(shape) > 0 <==> Positive(shape)
  {
    if shape != [] {
      var k := |shape| - 1;
      NumelPositive(shape[..k]);
      if Positive(shape) {
        MulPositive(Numel(shape[..k]), shape[k]);
      } else if shape[k] == 0 {
        assert Numel(shape) == 0;
      } else {
        var i :| 0 <= i < |shape| && shape[i] == 0;
        assert shape[..k][i] == 0;
      }
    }
  }

  /** Decoding the linear index of coordinates gives the coordinates back. */
  lemma {:induction false} DecodeEncode(coords: seq<nat>, shape: Shape)
    requires InShape(coords, shape) && Positive(shape)
    ensures Decode(Encode(coords, shape), shape) == coords
  {
    if shape != [] {
      var k := |shape| - 1;
      DecodeEncode(coords[..k], shape[..k]);
      DivMod(Encode(coords[..k], shape[..k]), shape[k], coords[k]);
      assert coords == coords[..k] + [coords[k]];
    }
  }

  lemma NextRow(k: nat, row: nat)
    ensures (k + 1) * row == k * row + row
  {
  }

  lemma MulMonotone(a: nat, c: nat, b: nat)
    requires a <= c
    ensures a * b <= c * b
  {
  }

  lemma DivBound(l: nat, n: nat, b: nat)
    requires b > 0 && l < n * b
    ensures l / b < n
  {
    Division(l, b);
    if l / b >= n {
      MulMonotone(n, l / b, b);
    }
  }

  /** Encoding the coordinates of a linear index gives the index back. */
  lemma {:induction false} EncodeDecode(linear: nat, shape: Shape)
    requires Positive(shape) && linear < Numel(shape)
    ensures Encode(Decode(linear, shape), shape) == linear
    decreases |shape|
  {
    if shape != [] {
      var k := |shape| - 1;
      DivBound(linear, Numel(shape[..k]), shape[k]);
      EncodeDecode(linear / shape[k], shape[..k]);
      var coords := Decode(linear, shape);
      assert coords[..k] == Decode(linear / shape[k], shape[..k]);
      Division(linear, shape[k]);
    }
  }

  lemma {:induction false} DotScale(coords: seq<nat>, s: seq<int>, c: int)
    requires |coords| == |s|
    ensures DotStrides(coords, Scale(s, c)) == DotStrides(coords, s) * c
  {
    if coords != [] {
      var k := |coords| - 1;
      DotScale(coords[..k], s[..k], c);
      assert Scale(s, c)[..k] == Scale(s[..k], c);
      DistributeTimes(DotStrides(coords[..k], s[..k]), coords[k], s[k], c);
    }
  }

  lemma DistributeTimes(a: int, x: int, y: int, c: int)
    ensures a * c + x * (y * c) == (a + x * y) * c
  {
  }

  /** The dot product with row-major strides is the linear index. */
  lemma {:induction false} DotIsEncode(coords: seq<nat>, shape: Shape)
    requires |coords| == |shape|
    ensures DotStrides(coords, RowMajor(shape)) == Encode(coords, shape)
  {
    if shape != [] {
      var k := |shape| - 1;
      var s := RowMajor(shape);
      assert s[..k] == Scale(RowMajor(shape[..k]), shape[k]);
      DotScale(coords[..k], RowMajor(shape[..k]), shape[k]);
      DotIsEncode(coords[..k], shape[..k]);
    }
  }

  /** `decode_coords` and the dot product with `contiguous_strides` are inverse to each other. */
  lemma StridesRoundTrip(shape: Shape, linear: nat, coords: seq<nat>)
    requires Positive(shape) && linear < Numel(shape) && InShape(coords, shape)
    ensures DotStrides(Decode(linear, shape), RowMajor(shape)) == linear
    ensures var l := DotStrides(coords, RowMajor(shape));
            0 <= l < Numel(shape) && Decode(l, shape) == coords
  {
    EncodeDecode(linear, shape);
    DotIsEncode(Decode(linear, shape), shape);
    DotIsEncode(coords, shape);
    EncodeBound(coords, shape);
    DecodeEncode(coords, shape);
  }

  // ---- The kernels ----

  lemma {:induction false} RowMajorStep(shape: Shape, i: nat)
    requires i < |shape|
    ensures RowMajor(shape)[i] == (if i == |shape| - 1 then 1 else RowMajor(shape)[i + 1] * shape[i + 1])
  {
    if i < |shape| - 1 {
      var k := |shape| - 1;
      RowMajorStep(shape[..k], i);
      if i + 1 < k {
        Reassociate(RowMajor(shape[..k])[i + 1], shape[i + 1], shape[k]);
      } else {
        assert RowMajor(shape[..k])[i] == 1;
      }
    }
  }

  lemma Reassociate(a: int, b: int, c: int)
    ensures a * b * c == a * c * b
  {
  }

  /** The strides from axis `i` on are filled in. */
  ghost predicate FilledFrom(s: seq<int>, shape: Shape, i: nat) {
    |s| == |shape| && forall k :: i <= k < |shape| ==> s[k] == RowMajor(shape)[k]
  }

  lemma FillStride(s: seq<int>, shape: Shape, i: nat)
    requires i + 1 < |shape| && FilledFrom(s, shape, i + 1)
    ensures FilledFrom(s[i := s[i + 1] * shape[i + 1]], shape, i)
  {
    RowMajorStep(shape, i);
  }

  /** `contiguous_strides`: filled from the last axis backwards. */
  method ContiguousStrides(shape: Shape) returns (s: seq<int>)
    ensures s == RowMajor(shape)
  {
    if shape == [] {
      return [];
    }
    s := seq(|shape|, _ => 1);
    var i := |shape| - 1;
    RowMajorStep(shape, i);
    while i > 0
      invariant 0 <= i < |shape| && FilledFrom(s, shape, i)
    {
      i := i - 1;
      FillStride(s, shape, i);
      s := s[i := s[i + 1] * shape[i + 1]];
    }
  }

  /** What remains to be decoded before axis `k`. */
  function Rest(linear: nat, shape: Shape, k: nat): nat
    requires Positive(shape) && k <= |shape|
    decreases |shape| - k
  {
    if k == |shape| then linear else Rest(linear, shape, k + 1) / shape[k]
  }

  lemma {:induction false} RestInit(linear: nat, shape: Shape, k: nat)
    requires Positive(shape) && shape != [] && k < |shape|
    ensures Rest(linear, shape, k) == Rest(linear / shape[|shape| - 1], shape[..|shape| - 1], k)
    decreases |shape| - k
  {
    if k < |shape| - 1 {
      RestInit(linear, shape, k + 1);
    }
  }

  lemma {:induction false} DecodeAt(linear: nat, shape: Shape, k: nat)
    requires Positive(shape) && k < |shape|
    ensures Decode(linear, shape)[k] == Rest(linear, shape, k + 1) % shape[k]
    decreases |shape|
  {
    if k < |shape| - 1 {
      DecodeAt(linear / shape[|shape| - 1], shape[..|shape| - 1], k);
      RestInit(linear, shape, k + 1);
    }
  }

  /** `decode_coords`. */
  method DecodeCoords(linear: nat, shape: Shape) returns (coords: seq<nat>)
    requires Positive(shape)
    ensures coords == Decode(linear, shape)
  {
    if shape == [] {
      return [];
    }
    var idx := linear;
    coords := seq(|shape|, _ => 0);
    var axis := |shape|;
    while axis > 0
      invariant 0 <= axis <= |shape| == |coords| && idx == Rest(linear, shape, axis)
      invariant forall k :: axis <= k < |shape| ==> coords[k] == Decode(linear, shape)[k]
    {
      axis := axis - 1;
      DecodeAt(linear, shape, axis);
      coords := coords[axis := idx % shape[axis]];
      idx := idx / shape[axis];
    }
  }

  lemma {:induction false} DotFrom(coords: seq<nat>, strides: seq<int>, k: nat)
    requires |coords| == |strides| && k <= |coords|
    ensures DotStrides(coords, strides) == DotStrides(coords[..k], strides[..k]) + DotStrides(coords[k..], strides[k..])
    decreases |coords|
  {
    if k < |coords| {
      var n := |coords| - 1;
      DotFrom(coords[..n], strides[..n], k);
      assert coords[..n][..k] == coords[..k] && strides[..n][..k] == strides[..k];
      assert coords[k..][..n - k] == coords[..n][k..] && strides[k..][..n - k] == strides[..n][k..];
    } else {
      assert coords[..k] == coords && strides[..k] == strides && coords[k..] == [];
    }
  }

  /** `linear_to_offset`: the storage position of output element `linear` under arbitrary strides. */
  method LinearToOffset(linear: nat, shape: Shape, strides: seq<int>, base: int) returns (offset: int)
    requires Positive(shape) && |strides| == |shape|
    ensures offset == base + DotStrides(Decode(linear, shape), strides)
  {
    var idx := linear;
    offset := base;
    var axis := |shape|;
    ghost var coords := Decode(linear, shape);
    while axis > 0
      invariant 0 <= axis <= |shape| && idx == Rest(linear, shape, axis)
      invariant offset == base + DotStrides(coords[axis..], strides[axis..])
    {
      axis := axis - 1;
      DecodeAt(linear, shape, axis);
      DotHead(coords[axis..], strides[axis..]);
      assert coords[axis..][1..] == coords[axis + 1..] && strides[axis..][1..] == strides[axis + 1..];
      var coord := idx % shape[axis];
      idx := idx / shape[axis];
      offset := offset + coord * strides[axis];
    }
    assert coords[0..] == coords && strides[0..] == strides;
  }

  lemma DotHead(coords: seq<nat>, strides: seq<int>)
    requires |coords| == |strides| > 0
    ensures DotStrides(coords, strides) == coords[0] * strides[0] + DotStrides(coords[1..], strides[1..])
  {
    DotFrom(coords, strides, 1);
    assert coords[..1] == [coords[0]] && strides[..1] == [strides[0]];
    assert DotStrides([coords[0]], [strides[0]]) == DotStrides([], []) + coords[0] * strides[0];
  }
}
