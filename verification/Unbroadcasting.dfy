/**
 `unbroadcast_to`: pad the target shape, sum the broadcast axes, reshape. On shapes without
 zero-size axes it computes `Unbroadcast`, the adjoint of broadcasting.
 */
module Unbroadcasting {
  import opened Sums
  import opened Strides
  import opened IndexMaps
  import opened Tensors
  import opened Broadcasting

  /** The output shape of a reduction that keeps the reduced axes. */
  function KeepShape(shape: Shape, dims: set<nat>): (r: Shape)
    ensures |r| == |shape|
  {
    seq(|shape|, i requires 0 <= i < |shape| => if i in dims then 1 else shape[i])
  }

  /** The output coordinates of a source position. */
  function KeepCoords(coords: seq<nat>, dims: set<nat>): (r: seq<nat>)
    ensures |r| == |coords|
  {
    seq(|coords|, i requires 0 <= i < |coords| => if i in dims then 0 else coords[i])
  }

  function KeepAt(shape: Shape, dims: set<nat>, l: int): int {
    if Positive(shape) && l >= 0
    then DotStrides(KeepCoords(Decode(l, shape), dims), RowMajor(KeepShape(shape, dims)))
    else 0
  }

  function Keep(shape: Shape, dims: set<nat>): Index {
    l => KeepAt(shape, dims, l)
  }

  lemma KeepInto(shape: Shape, dims: set<nat>)
    ensures Into(Keep(shape, dims), Numel(shape), Numel(KeepShape(shape, dims)))
  {
    NumelPositive(shape);
    forall l | 0 <= l < Numel(shape) ensures 0 <= KeepAt(shape, dims, l) < Numel(KeepShape(shape, dims)) {
      DecodeInShape(l, shape);
      var c, s := KeepCoords(Decode(l, shape), dims), KeepShape(shape, dims);
      assert InShape(c, s);
      DotIsEncode(c, s);
      EncodeBound(c, s);
    }
  }

  /** The output index of a source position. */
  method KeepIndex(shape: Shape, dims: set<nat>, kept: Shape, l: nat) returns (i: int)
    requires l < Numel(shape) && kept == KeepShape(shape, dims)
    ensures i == KeepAt(shape, dims, l)
  {
    NumelPositive(shape);
    var coords := DecodeCoords(l, shape);
    var strides := ContiguousStrides(kept);
    i := DotStrides(KeepCoords(coords, dims), strides);
  }

  /** The special case of `sum_dim`: a two-dimensional f32 tensor, dense in its storage, summed along one axis. */
  predicate TwoDimensional(shape: Shape, dims: set<nat>, dense: bool) {
    dense && |shape| == 2 && |dims| == 1
  }

  /** What `sum_dim` accepts: the generic loop cannot return an empty tensor, the two-dimensional one can. */
  predicate Summable(shape: Shape, dims: set<nat>, dense: bool) {
    Positive(KeepShape(shape, dims)) || TwoDimensional(shape, dims, dense)
  }

  /** `sum_dim` with kept axes. `dense` tells whether the tensor is f32 and contiguous from the start of its storage. */
  method SumDimKeep(src: Tensor, dims: set<nat>, dense: bool) returns (r: Result<Tensor>)
    requires src.Valid() && forall d :: d in dims ==> d < |src.shape|
    ensures r.Ok? <==> Summable(src.shape, dims, dense)
    ensures r.Ok? ==> r.value.Valid() && r.value.shape == KeepShape(src.shape, dims)
    ensures r.Ok? ==> forall k :: 0 <= k < |r.value.data| ==>
              r.value.data[k] == PushAt(|src.data|, Keep(src.shape, dims), Buffer(src.data), k)
    ensures r.Err? ==> r.error == OutOfMemory
  {
    var shape := KeepShape(src.shape, dims);
    if TwoDimensional(src.shape, dims, dense) {
      var sums := SumTwoDimensional(src, dims);
      return Ok(Tensor(shape, sums));
    }
    NumelPositive(shape);
    var n := if Numel(shape) == 0 then 1 else Numel(shape);
    var out := SumLoop(src, dims, n);
    if Numel(shape) != n {
      return Err(OutOfMemory);
    }
    return Ok(Tensor(shape, out));
  }

  lemma OneAxis(dims: set<nat>, n: nat)
    requires |dims| == 1 && n == 2 && forall d :: d in dims ==> d < n
    ensures dims == {0} || dims == {1}
  {
    var d :| d in dims;
    assert |dims - {d}| == 0;
    assert dims == {d};
  }

  /** Position `l` is column `c` of row `r`. */
  ghost predicate IsEntry(shape: Shape, r: nat, c: nat, l: nat) {
    |shape| == 2 && r < shape[0] && c < shape[1] && l == r * shape[1] + c
  }

  lemma KeptColumn(shape: Shape, r: nat, c: nat, l: nat)
    requires IsEntry(shape, r, c, l)
    ensures l < Numel(shape) && KeepAt(shape, {0}, l) == c
  {
    EntryDecodes(shape, r, c, l);
    TwoAxesShape(shape);
    assert KeepCoords([r, c], {0}) == [0, c];
    EncodePair(0, c, [1, shape[1]]);
    DotIsEncode([0, c], [1, shape[1]]);
  }

  lemma KeptRow(shape: Shape, r: nat, c: nat, l: nat)
    requires IsEntry(shape, r, c, l)
    ensures l < Numel(shape) && KeepAt(shape, {1}, l) == r
  {
    EntryDecodes(shape, r, c, l);
    TwoAxesShape(shape);
    assert KeepCoords([r, c], {1}) == [r, 0];
    EncodePair(r, 0, [shape[0], 1]);
    DotIsEncode([r, 0], [shape[0], 1]);
  }

  lemma EntryDecodes(shape: Shape, r: nat, c: nat, l: nat)
    requires IsEntry(shape, r, c, l)
    ensures Positive(shape) && l < Numel(shape) && Decode(l, shape) == [r, c]
  {
    EncodePair(r, c, shape);
    EncodeBound([r, c], shape);
    DecodeEncode([r, c], shape);
  }

  lemma ColumnStep(src: Tensor, out: seq<real>, r: nat, c: nat, l: nat)
    requires src.Valid() && IsEntry(src.shape, r, c, l) && |out| == src.shape[1]
    requires Summed(out, l, Keep(src.shape, {0}), Buffer(src.data))
    ensures l < |src.data| && Summed(out[c := out[c] + src.data[l]], l + 1, Keep(src.shape, {0}), Buffer(src.data))
  {
    KeptColumn(src.shape, r, c, l);
    SummedStep(out, l, Keep(src.shape, {0}), Buffer(src.data));
  }

  lemma RowStep(src: Tensor, was: seq<real>, acc: real, r: nat, c: nat, l: nat)
    requires src.Valid() && IsEntry(src.shape, r, c, l) && |was| == src.shape[0]
    requires Summed(was[r := acc], l, Keep(src.shape, {1}), Buffer(src.data))
    ensures l < |src.data| && Summed(was[r := acc + src.data[l]], l + 1, Keep(src.shape, {1}), Buffer(src.data))
  {
    KeptRow(src.shape, r, c, l);
    SummedStep(was[r := acc], l, Keep(src.shape, {1}), Buffer(src.data));
    assert was[r := acc][r := acc + src.data[l]] == was[r := acc + src.data[l]];
  }

  lemma TwoAxesShape(shape: Shape)
    requires |shape| == 2
    ensures KeepShape(shape, {0}) == [1, shape[1]] && KeepShape(shape, {1}) == [shape[0], 1]
    ensures Numel(shape) == shape[0] * shape[1] && Numel([1, shape[1]]) == shape[1] && Numel([shape[0], 1]) == shape[0]
  {
    NumelPair(shape);
    NumelPair([1, shape[1]]);
    NumelPair([shape[0], 1]);
  }

  /** `sum_dim_2d_f32`: rows are added up, or each row is summed. */
  method SumTwoDimensional(src: Tensor, dims: set<nat>) returns (out: seq<real>)
    requires src.Valid() && |src.shape| == 2 && |dims| == 1 && forall d :: d in dims ==> d < 2
    ensures |out| == Numel(KeepShape(src.shape, dims)) && Summed(out, |src.data|, Keep(src.shape, dims), Buffer(src.data))
  {
    OneAxis(dims, 2);
    TwoAxesShape(src.shape);
    if 0 in dims {
      out := SumColumns(src, src.shape[0], src.shape[1]);
    } else {
      out := SumRows(src, src.shape[0], src.shape[1]);
    }
  }

  method SumColumns(src: Tensor, rows: nat, cols: nat) returns (out: seq<real>)
    requires src.Valid() && src.shape == [rows, cols]
    ensures |out| == cols && Summed(out, rows * cols, Keep(src.shape, {0}), Buffer(src.data))
  {
    out := seq(cols, _ => 0.0);
    for r := 0 to rows
      invariant |out| == cols && Summed(out, r * cols, Keep(src.shape, {0}), Buffer(src.data))
    {
      out := AddToColumns(src, out, r, cols, r * cols);
      NextRow(r, cols);
    }
  }

  method SumRows(src: Tensor, rows: nat, cols: nat) returns (out: seq<real>)
    requires src.Valid() && src.shape == [rows, cols]
    ensures |out| == rows && Summed(out, rows * cols, Keep(src.shape, {1}), Buffer(src.data))
  {
    out := seq(rows, _ => 0.0);
    for r := 0 to rows
      invariant |out| == rows && Summed(out, r * cols, Keep(src.shape, {1}), Buffer(src.data))
      invariant forall i :: r <= i < rows ==> out[i] == 0.0
    {
      out := SumRow(src, out, r, cols, r * cols);
      NextRow(r, cols);
    }
  }

  /** Adds row `r`, which starts at position `row`, to the column sums. */
  method AddToColumns(src: Tensor, was: seq<real>, r: nat, cols: nat, row: nat) returns (out: seq<real>)
    requires src.Valid() && |src.shape| == 2 && r < src.shape[0] && |was| == src.shape[1] == cols && row == r * cols
    requires Summed(was, row, Keep(src.shape, {0}), Buffer(src.data))
    ensures |out| == |was| && Summed(out, row + cols, Keep(src.shape, {0}), Buffer(src.data))
  {
    out := was;
    for c := 0 to cols
      invariant |out| == |was| && Summed(out, row + c, Keep(src.shape, {0}), Buffer(src.data))
    {
      ColumnStep(src, out, r, c, row + c);
      out := out[c := out[c] + src.data[row + c]];
    }
  }

  /** Sums row `r`, which starts at position `row`, in an accumulator and stores it. */
  method SumRow(src: Tensor, was: seq<real>, r: nat, cols: nat, row: nat) returns (out: seq<real>)
    requires src.Valid() && |src.shape| == 2 && r < src.shape[0] == |was| && was[r] == 0.0 && src.shape[1] == cols && row == r * cols
    requires Summed(was, row, Keep(src.shape, {1}), Buffer(src.data))
    ensures |out| == |was| && out == was[r := out[r]]
    ensures Summed(out, row + cols, Keep(src.shape, {1}), Buffer(src.data))
  {
    var acc := 0.0;
    assert was[r := acc] == was;
    for c := 0 to cols
      invariant Summed(was[r := acc], row + c, Keep(src.shape, {1}), Buffer(src.data))
    {
      RowStep(src, was, acc, r, c, row + c);
      acc := acc + src.data[row + c];
    }
    out := was[r := acc];
  }

  /** The accumulation loop of `reduce_dim` over a zeroed buffer of `n` elements. */
  method SumLoop(src: Tensor, dims: set<nat>, n: nat) returns (out: seq<real>)
    requires src.Valid() && Numel(KeepShape(src.shape, dims)) <= n
    ensures |out| == n && Summed(out, |src.data|, Keep(src.shape, dims), Buffer(src.data))
  {
    KeepInto(src.shape, dims);
    var shape := KeepShape(src.shape, dims);
    out := seq(n, _ => 0.0);
    for l := 0 to |src.data|
      invariant |out| == n && Summed(out, l, Keep(src.shape, dims), Buffer(src.data))
    {
      var i := KeepIndex(src.shape, dims, shape, l);
      SummedStep(out, l, Keep(src.shape, dims), Buffer(src.data));
      out := out[i := out[i] + src.data[l]];
    }
  }

  /** `target` padded on the left with ones to rank `n`. */
  function Padded(target: Shape, n: nat): (r: Shape)
    requires |target| <= n
    ensures |r| == n
  {
    seq(n - |target|, _ => 1) + target
  }

  function ReduceAxes(g: Shape, padded: Shape): set<nat>
    requires |g| == |padded|
  {
    set i: nat | i < |g| && padded[i] == 1 && g[i] > 1
  }

  lemma {:induction false} NumelPadded(target: Shape, n: nat)
    requires |target| <= n
    ensures Numel(Padded(target, n)) == Numel(target)
    decreases n
  {
    if n > 0 {
      var p := Padded(target, n);
      if target == [] {
        assert p[..n - 1] == Padded([], n - 1) && p[n - 1] == 1;
        NumelPadded([], n - 1);
      } else {
        var k := |target| - 1;
        assert p[..n - 1] == Padded(target[..k], n - 1) && p[n - 1] == target[k];
        NumelPadded(target[..k], n - 1);
      }
    } else {
      assert Padded(target, n) == target;
    }
  }

  /** Leading axes of size one do not move the linear index. */
  lemma {:induction false} EncodePadded(c: seq<nat>, target: Shape)
    requires |target| <= |c|
    requires forall i :: 0 <= i < |c| - |target| ==> c[i] == 0
    ensures Encode(c, Padded(target, |c|)) == Encode(c[|c| - |target|..], target)
    decreases |c|
  {
    if c != [] {
      var n := |c|;
      var p := Padded(target, n);
      if target == [] {
        assert p[..n - 1] == Padded([], n - 1) && p[n - 1] == 1 && c[n - 1] == 0;
        EncodePadded(c[..n - 1], []);
        assert c[n - 0..] == [];
      } else {
        var k := |target| - 1;
        assert p[..n - 1] == Padded(target[..k], n - 1) && p[n - 1] == target[k];
        EncodePadded(c[..n - 1], target[..k]);
        assert c[..n - 1][n - 1 - k..] == c[n - |target|..][..k];
      }
    }
  }

  /** Reducing the broadcast axes leaves the padded target shape. */
  lemma KeepIsPadded(g: Shape, target: Shape)
    requires Compatible(target, g) && Positive(g)
    ensures KeepShape(g, ReduceAxes(g, Padded(target, |g|))) == Padded(target, |g|)
  {
    var pad, padded := |g| - |target|, Padded(target, |g|);
    var dims := ReduceAxes(g, padded);
    forall i | 0 <= i < |g| ensures (if i in dims then 1 else g[i]) == padded[i] {
      if i >= pad {
        assert target[i - pad] == 1 || target[i - pad] == g[pad + (i - pad)];
      }
    }
  }

  /** The coordinates kept by the reduction are those of the broadcast element. */
  lemma KeptCoords(g: Shape, target: Shape, c: seq<nat>)
    requires Compatible(target, g) && InShape(c, g)
    ensures var kept := KeepCoords(c, ReduceAxes(g, Padded(target, |g|)));
            && (forall i :: 0 <= i < |g| - |target| ==> kept[i] == 0)
            && kept[|g| - |target|..] == Collapse(c, target)
  {
    var pad, padded := |g| - |target|, Padded(target, |g|);
    var kept := KeepCoords(c, ReduceAxes(g, padded));
    forall i | 0 <= i < |g| ensures kept[i] == if padded[i] == 1 then 0 else c[i] {
      assert c[i] < g[i];
    }
  }

  /** The sum over the reduced axes goes where broadcasting came from. */
  lemma KeepIsOrigin(g: Shape, target: Shape, l: nat)
    requires Compatible(target, g) && Positive(g) && l < Numel(g)
    ensures var dims := ReduceAxes(g, Padded(target, |g|));
            KeepShape(g, dims) == Padded(target, |g|) && KeepAt(g, dims, l) == OriginAt(target, g, l)
  {
    var c := Decode(l, g);
    var kept := KeepCoords(c, ReduceAxes(g, Padded(target, |g|)));
    DecodeInShape(l, g);
    KeepIsPadded(g, target);
    KeptCoords(g, target, c);
    KeptIndex(kept, target, Collapse(c, target));
  }

  lemma KeptIndex(kept: seq<nat>, target: Shape, c: seq<nat>)
    requires |target| <= |kept| && |c| == |target| && kept[|kept| - |target|..] == c
    requires forall i :: 0 <= i < |kept| - |target| ==> kept[i] == 0
    ensures DotStrides(kept, RowMajor(Padded(target, |kept|))) == Encode(c, target)
  {
    DotIsEncode(kept, Padded(target, |kept|));
    EncodePadded(kept, target);
  }

  /** When summing back succeeds; the zero-size cases are those that the reduction or the reshape refuses. */
  predicate Unbroadcastable(g: Shape, target: Shape, dense: bool) {
    || g == target
    || (Compatible(target, g) && (Positive(g) || (!Positive(target) && Reducible(g, ReduceAxes(g, Padded(target, |g|)), dense))))
  }

  /** Nothing is reduced, or the two-dimensional sum reduces it. */
  predicate Reducible(g: Shape, axes: set<nat>, dense: bool) {
    axes == {} || TwoDimensional(g, axes, dense)
  }

  lemma KeepNothing(g: Shape)
    ensures KeepShape(g, {}) == g
  {
  }

  /** Reducing cannot remove a zero-size axis. */
  lemma KeepPositive(g: Shape, target: Shape)
    requires Compatible(target, g)
    ensures Positive(KeepShape(g, ReduceAxes(g, Padded(target, |g|)))) <==> Positive(g)
  {
    var dims := ReduceAxes(g, Padded(target, |g|));
    var kept := KeepShape(g, dims);
    forall i | 0 <= i < |g| ensures kept[i] > 0 <==> g[i] > 0 {
    }
  }

  /** `unbroadcast_to`. */
  method UnbroadcastTo(grad: Tensor, target: Shape, dense: bool) returns (r: Result<Tensor>)
    requires grad.Valid()
    ensures r.Ok? <==> Unbroadcastable(grad.shape, target, dense)
    ensures Compatible(target, grad.shape) && Positive(grad.shape) ==> r.Ok?
    ensures r.Ok? ==> r.value.Valid() && r.value.shape == target
    ensures r.Ok? ==> forall k :: 0 <= k < Numel(target) ==>
              r.value.data[k] == Unbroadcast(target, grad.shape, Buffer(grad.data))(k)
    ensures !Compatible(target, grad.shape) && grad.shape != target ==> r == Err(ShapeMismatch)
  {
    var g := grad.shape;
    if g == target {
      assert Compatible(target, g);
      forall k | 0 <= k < Numel(target) ensures Unbroadcast(target, g, Buffer(grad.data))(k) == grad.data[k] {
        SameShape(g, grad.data, k);
      }
      return Ok(grad);
    }
    if |target| > |g| {
      return Err(ShapeMismatch);
    }
    var compatible := CompatibleAxes(g, target);
    if !compatible {
      return Err(ShapeMismatch);
    }
    r := SumBroadcastAxes(grad, target, dense);
    ReducedNumel(g, target);
    if r.Ok? && r.value.shape != target {
      r := Reshape(r.value, target);
    }
  }

  /** The reduced tensor has as many elements as the target, except that it is empty when the gradient is. */
  lemma ReducedNumel(g: Shape, target: Shape)
    requires Compatible(target, g)
    ensures var reduced := KeepShape(g, ReduceAxes(g, Padded(target, |g|)));
            && (Positive(g) ==> Numel(reduced) == Numel(target) > 0)
            && (!Positive(g) ==> Numel(reduced) == 0 && (Numel(target) == 0 <==> !Positive(target)))
            && (reduced == target && !Positive(g) ==> !Positive(target))
  {
    var reduced := KeepShape(g, ReduceAxes(g, Padded(target, |g|)));
    KeepPositive(g, target);
    NumelPositive(reduced);
    NumelPositive(target);
    if Positive(g) {
      KeepIsPadded(g, target);
      NumelPadded(target, |g|);
    }
  }

  /** The validation loop: the padded target has one or the gradient's size on every axis. */
  method CompatibleAxes(g: Shape, target: Shape) returns (ok: bool)
    requires |target| <= |g|
    ensures ok <==> Compatible(target, g)
  {
    var padded := Padded(target, |g|);
    for i := 0 to |g|
      invariant forall j :: 0 <= j < i ==> padded[j] == 1 || padded[j] == g[j]
    {
      if padded[i] != 1 && padded[i] != g[i] {
        var j := i - (|g| - |target|);
        assert target[j] != 1 && target[j] != g[|g| - |target| + j];
        return false;
      }
    }
    forall j | 0 <= j < |target| ensures target[j] == 1 || target[j] == g[|g| - |target| + j] {
      assert padded[|g| - |target| + j] == target[j];
    }
    return true;
  }

  /** The reduction step: nothing to do when no axis was broadcast. */
  method SumBroadcastAxes(grad: Tensor, target: Shape, dense: bool) returns (r: Result<Tensor>)
    requires grad.Valid() && Compatible(target, grad.shape)
    ensures var g := grad.shape;
            var axes := ReduceAxes(g, Padded(target, |g|));
            && (r.Ok? <==> Positive(g) || Reducible(g, axes, dense))
            && (r.Ok? ==> r.value.Valid() && r.value.shape == KeepShape(g, axes))
            && (r.Ok? && Positive(g) ==> Numel(target) == |r.value.data| && forall k :: 0 <= k < Numel(target) ==>
                  r.value.data[k] == Unbroadcast(target, g, Buffer(grad.data))(k))
  {
    var g := grad.shape;
    var axes := ReduceAxes(g, Padded(target, |g|));
    KeepPositive(g, target);
    KeepNothing(g);
    NumelPadded(target, |g|);
    if axes == {} {
      r := Ok(grad);
    } else {
      r := SumDimKeep(grad, axes, dense);
    }
    if Positive(g) {
      KeepIsPadded(g, target);
      forall k | 0 <= k < Numel(target) ensures r.value.data[k] == Unbroadcast(target, g, Buffer(grad.data))(k) {
        SameSums(g, target, grad.data, k);
      }
    }
  }

  /** `reshape`. */
  method Reshape(src: Tensor, shape: Shape) returns (r: Result<Tensor>)
    requires src.Valid()
    ensures r == if Numel(shape) == Numel(src.shape) then Ok(Tensor(shape, src.data)) else Err(ShapeMismatch)
  {
    if Numel(shape) != Numel(src.shape) {
      return Err(ShapeMismatch);
    }
    return Ok(Tensor(shape, src.data));
  }

  lemma SameShape(g: Shape, data: seq<real>, k: nat)
    requires |data| == Numel(g) && k < |data|
    ensures Unbroadcast(g, g, Buffer(data))(k) == data[k]
  {
    forall l | 0 <= l < Numel(g) ensures OriginAt(g, g, l) == l {
      OriginIdentity(g, l);
    }
    SumSingle(Numel(g), l => Hit(Origin(g, g), Buffer(data), k, l), k);
  }

  lemma SameSums(g: Shape, target: Shape, data: seq<real>, k: nat)
    requires Compatible(target, g) && Positive(g) && |data| == Numel(g) && k < Numel(target)
    ensures var dims := ReduceAxes(g, Padded(target, |g|));
            && PushAt(|data|, Keep(g, dims), Buffer(data), k) == Unbroadcast(target, g, Buffer(data))(k)
            && (dims == {} ==> k < |data| && data[k] == Unbroadcast(target, g, Buffer(data))(k))
  {
    var dims := ReduceAxes(g, Padded(target, |g|));
    forall l | 0 <= l < Numel(g) ensures KeepAt(g, dims, l) == OriginAt(target, g, l) {
      KeepIsOrigin(g, target, l);
    }
    PushCongruence(|data|, Keep(g, dims), Origin(target, g), Buffer(data), Buffer(data), k);
    if dims == {} {
      NothingReduced(g, target, data, k);
    }
  }

  lemma NothingReduced(g: Shape, target: Shape, data: seq<real>, k: nat)
    requires Compatible(target, g) && Positive(g) && |data| == Numel(g) && k < Numel(target)
    requires ReduceAxes(g, Padded(target, |g|)) == {}
    ensures k < |data| && data[k] == Unbroadcast(target, g, Buffer(data))(k)
  {
    NumelPositive(g);
    KeepNothing(g);
    KeepIsOrigin(g, target, 0);
    NumelPadded(target, |g|);
    forall l | 0 <= l < Numel(g) ensures OriginAt(target, g, l) == l {
      KeepIsOrigin(g, target, l);
      DecodeInShape(l, g);
      var c := Decode(l, g);
      assert KeepCoords(c, {}) == c;
      DotIsEncode(c, g);
      EncodeDecode(l, g);
    }
    SumSingle(Numel(g), l => Hit(Origin(target, g), Buffer(data), k, l), k);
  }
}
