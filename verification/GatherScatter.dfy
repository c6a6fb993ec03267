/**
 `gather`, `scatter`, `scatter_add` and `index_select`, and the row scatter of
 `IndexSelectBackward`. `Cell` is the reference definition: the element of the indexed tensor
 that position `l` of the index tensor addresses.
 */
module GatherScatter {
  import opened Sums
  import opened Strides
  import opened IndexMaps
  import opened Tensors

  /** The index tensor stays inside the addressed tensor on every other axis. */
  predicate Inside(idxShape: Shape, shape: Shape, dim: nat) {
    |idxShape| == |shape| && dim < |shape| && forall a :: 0 <= a < |shape| && a != dim ==> idxShape[a] <= shape[a]
  }

  predicate InRange(i: int, bound: nat) {
    0 <= i < bound
  }

  predicate AllInRange(idx: seq<int>, bound: nat) {
    forall l :: 0 <= l < |idx| ==> InRange(idx[l], bound)
  }

  function CellAt(shape: Shape, idxShape: Shape, dim: nat, idx: seq<int>, l: int): int {
    if Positive(idxShape) && 0 <= l < |idx| && idx[l] >= 0 && |idxShape| == |shape| && dim < |shape|
    then Encode(Decode(l, idxShape)[dim := idx[l]], shape)
    else 0
  }

  function Cell(shape: Shape, idxShape: Shape, dim: nat, idx: seq<int>): Index {
    l => CellAt(shape, idxShape, dim, idx, l)
  }

  lemma CellInto(shape: Shape, idxShape: Shape, dim: nat, idx: seq<int>, l: nat)
    requires Inside(idxShape, shape, dim) && |idx| == Numel(idxShape)
    requires l < |idx| && InRange(idx[l], shape[dim])
    ensures Positive(idxShape) && InShape(Decode(l, idxShape)[dim := idx[l]], shape)
    ensures 0 <= CellAt(shape, idxShape, dim, idx, l) < Numel(shape)
    ensures CellAt(shape, idxShape, dim, idx, l) == DotStrides(Decode(l, idxShape)[dim := idx[l]], RowMajor(shape))
  {
    NumelPositive(idxShape);
    DecodeInShape(l, idxShape);
    var c := Decode(l, idxShape);
    var d := c[dim := idx[l]];
    forall a | 0 <= a < |shape| ensures d[a] < shape[a] {
      assert c[a] < idxShape[a];
    }
    EncodeBound(d, shape);
    DotIsEncode(d, shape);
  }

  lemma CellsInto(shape: Shape, idxShape: Shape, dim: nat, idx: seq<int>)
    requires Inside(idxShape, shape, dim) && |idx| == Numel(idxShape) && AllInRange(idx, shape[dim])
    ensures Into(Cell(shape, idxShape, dim, idx), |idx|, Numel(shape))
  {
    forall l | 0 <= l < |idx| ensures 0 <= CellAt(shape, idxShape, dim, idx, l) < Numel(shape) {
      CellInto(shape, idxShape, dim, idx, l);
    }
  }

  // ---- What an index tensor of any shape addresses ----

  /** Position `l` addresses an element: its index is in range and the flat offset lies in the buffer. */
  predicate Addressed(shape: Shape, idxShape: Shape, dim: nat, idx: seq<int>, l: nat)
    requires dim < |shape| && l < |idx|
  {
    InRange(idx[l], shape[dim]) && CellAt(shape, idxShape, dim, idx, l) < Numel(shape)
  }

  predicate AllAddressed(shape: Shape, idxShape: Shape, dim: nat, idx: seq<int>, n: nat)
    requires dim < |shape|
  {
    forall l :: 0 <= l < |idx| && l < n ==> Addressed(shape, idxShape, dim, idx, l)
  }

  /** What happens at a position that addresses no element: the index is refused, or the buffer access panics. */
  function Fault(shape: Shape, dim: nat, i: int): Error
    requires dim < |shape|
  {
    if InRange(i, shape[dim]) then Panicked else IndexOutOfBounds(i, shape[dim])
  }

  ghost predicate FaultAt(error: Error, shape: Shape, idxShape: Shape, dim: nat, idx: seq<int>, l: nat)
    requires dim < |shape| && l < |idx|
  {
    && AllAddressed(shape, idxShape, dim, idx, l) && !Addressed(shape, idxShape, dim, idx, l)
    && error == Fault(shape, dim, idx[l])
  }

  /** The first position that addresses no element decides. */
  ghost predicate FirstFault(error: Error, shape: Shape, idxShape: Shape, dim: nat, idx: seq<int>)
    requires dim < |shape|
  {
    exists l :: 0 <= l < |idx| && FaultAt(error, shape, idxShape, dim, idx, l)
  }

  /** The flat offset that the kernel computes. */
  lemma OffsetIsCell(shape: Shape, idxShape: Shape, dim: nat, idx: seq<int>, l: nat)
    requires |idxShape| == |shape| && dim < |shape| && |idx| == Numel(idxShape) && l < |idx| && idx[l] >= 0
    ensures Positive(idxShape)
    ensures DotStrides(Decode(l, idxShape)[dim := idx[l]], RowMajor(shape)) == CellAt(shape, idxShape, dim, idx, l) >= 0
  {
    NumelPositive(idxShape);
    DotIsEncode(Decode(l, idxShape)[dim := idx[l]], shape);
  }

  /** Where the index tensor is no longer than the tensor on the other axes, only the indices decide. */
  lemma InsideAddressed(shape: Shape, idxShape: Shape, dim: nat, idx: seq<int>, l: nat)
    requires Inside(idxShape, shape, dim) && |idx| == Numel(idxShape) && l < |idx|
    ensures Addressed(shape, idxShape, dim, idx, l) <==> InRange(idx[l], shape[dim])
  {
    if InRange(idx[l], shape[dim]) {
      CellInto(shape, idxShape, dim, idx, l);
    }
  }

  /** Only the indices decide, and the first one out of range is the error. */
  lemma InsideFaults(shape: Shape, idxShape: Shape, dim: nat, idx: seq<int>, error: Error)
    requires Inside(idxShape, shape, dim) && |idx| == Numel(idxShape)
    ensures AllAddressed(shape, idxShape, dim, idx, |idx|) <==> AllInRange(idx, shape[dim])
    ensures FirstFault(error, shape, idxShape, dim, idx) <==> Refused(error, idx, shape[dim])
  {
    forall l: nat | l < |idx| ensures Addressed(shape, idxShape, dim, idx, l) <==> InRange(idx[l], shape[dim]) {
      InsideAddressed(shape, idxShape, dim, idx, l);
    }
    if FirstFault(error, shape, idxShape, dim, idx) {
      var l: nat :| l < |idx| && FaultAt(error, shape, idxShape, dim, idx, l);
      assert RangeUpTo(idx, l, shape[dim]);
    }
    if Refused(error, idx, shape[dim]) {
      var l: nat :| l < |idx| && idx[l] == error.index && !InRange(error.index, shape[dim]) && RangeUpTo(idx, l, shape[dim]);
      assert FaultAt(error, shape, idxShape, dim, idx, l);
    }
  }

  /** The coordinates that position `l` addresses exist in the tensor. */
  ghost predicate Intended(shape: Shape, idxShape: Shape, dim: nat, idx: seq<int>, l: nat)
    requires Positive(idxShape) && |idxShape| == |shape| && dim < |shape| && l < |idx| && idx[l] >= 0
  {
    InShape(Decode(l, idxShape)[dim := idx[l]], shape)
  }

  /** The last position along axis `a`, at the origin of the others. */
  function Corner(idxShape: Shape, a: nat): seq<nat>
    requires Positive(idxShape) && a < |idxShape|
  {
    seq(|idxShape|, i requires 0 <= i < |idxShape| => if i == a then idxShape[a] - 1 else 0)
  }

  lemma CornerTooLong(shape: Shape, idxShape: Shape, dim: nat, idx: seq<int>, a: nat)
    requires Positive(idxShape) && |idxShape| == |shape| && dim < |shape| && a < |shape| && a != dim
    requires |idx| == Numel(idxShape) && AllInRange(idx, shape[dim]) && idxShape[a] > shape[a]
    ensures exists l :: 0 <= l < |idx| && !Intended(shape, idxShape, dim, idx, l)
  {
    var c := Corner(idxShape, a);
    var l := Encode(c, idxShape);
    EncodeBound(c, idxShape);
    DecodeEncode(c, idxShape);
    assert InRange(idx[l], shape[dim]);
    assert Decode(l, idxShape)[dim := idx[l]][a] >= shape[a];
    assert !Intended(shape, idxShape, dim, idx, l);
  }

  /** Every addressed coordinate exists if and only if the index tensor is no longer than the tensor on the other axes. */
  lemma IntendedExactly(shape: Shape, idxShape: Shape, dim: nat, idx: seq<int>)
    requires Positive(idxShape) && |idxShape| == |shape| && dim < |shape|
    requires |idx| == Numel(idxShape) && AllInRange(idx, shape[dim])
    ensures (forall l :: 0 <= l < |idx| ==> InRange(idx[l], shape[dim]) && Intended(shape, idxShape, dim, idx, l))
       <==> Inside(idxShape, shape, dim)
  {
    if Inside(idxShape, shape, dim) {
      forall l | 0 <= l < |idx| ensures InRange(idx[l], shape[dim]) && Intended(shape, idxShape, dim, idx, l) {
        CellInto(shape, idxShape, dim, idx, l);
      }
    } else {
      var a :| 0 <= a < |shape| && a != dim && idxShape[a] > shape[a];
      CornerTooLong(shape, idxShape, dim, idx, a);
    }
  }

  /** With three columns of indices into two columns, the last one wraps into the next row, or panics after the last row. */
  lemma TooLongExample()
    ensures var shape, idxShape := [2, 2], [1, 3];
            && !Inside(idxShape, shape, 0)
            && AllAddressed(shape, idxShape, 0, [0, 0, 0], 3)
            && CellAt(shape, idxShape, 0, [0, 0, 0], 2) == Encode([1, 0], shape)
            && FirstFault(Panicked, shape, idxShape, 0, [0, 0, 1])
  {
    assert Encode([1, 0], [2, 2]) == 2;
    ThreeColumns(0);
    ThreeColumns(1);
    assert FaultAt(Panicked, [2, 2], [1, 3], 0, [0, 0, 1], 2);
  }

  lemma ThreeColumns(i: nat)
    requires i < 2
    ensures Numel([2, 2]) == 4
    ensures forall l :: 0 <= l < 3 ==> CellAt([2, 2], [1, 3], 0, [0, 0, i], l) == if l == 2 then 2 * i + 2 else l
  {
    forall l: nat | l < 3 ensures CellAt([2, 2], [1, 3], 0, [0, 0, i], l) == if l == 2 then 2 * i + 2 else l {
      var j := [0, 0, i][l];
      Columns(j, l);
      assert Decode(l, [1, 3])[0 := j] == [j, l];
    }
    assert Numel([2]) == 2;
  }

  lemma Columns(i: nat, c: nat)
    requires c < 3
    ensures Decode(c, [1, 3]) == [0, c] && Encode([i, c], [2, 2]) == 2 * i + c
  {
    assert Decode(0, [1]) == [0];
    assert Encode([i], [2]) == i;
  }

  /** The first `n` indices are in range. */
  predicate RangeUpTo(idx: seq<int>, n: nat, bound: nat) {
    forall l :: 0 <= l < |idx| && l < n ==> InRange(idx[l], bound)
  }

  /** The first index that is out of range. */
  ghost predicate FirstBad(idx: seq<int>, bound: nat, i: int) {
    exists l :: 0 <= l < |idx| && idx[l] == i && !InRange(i, bound) && RangeUpTo(idx, l, bound)
  }

  ghost predicate Refused(error: Error, idx: seq<int>, bound: nat) {
    error.IndexOutOfBounds? && error.bound == bound && FirstBad(idx, bound, error.index)
  }

  lemma RefusedAt(idx: seq<int>, bound: nat, l: nat)
    requires l < |idx| && RangeUpTo(idx, l, bound) && !InRange(idx[l], bound)
    ensures Refused(IndexOutOfBounds(idx[l], bound), idx, bound) && !AllInRange(idx, bound)
  {
  }

  // ---- Gather ----

  /** The first `n` gathered elements. */
  ghost predicate Gathered(out: seq<real>, n: nat, src: Tensor, shape: Shape, dim: nat, idx: seq<int>) {
    |out| == n && forall l :: 0 <= l < n ==> out[l] == At(src.data, CellAt(src.shape, shape, dim, idx, l))
  }

  lemma GatheredStep(out: seq<real>, n: nat, src: Tensor, shape: Shape, dim: nat, idx: seq<int>, x: real)
    requires Gathered(out, n, src, shape, dim, idx) && x == At(src.data, CellAt(src.shape, shape, dim, idx, n))
    ensures Gathered(out + [x], n + 1, src, shape, dim, idx)
  {
  }

  /** One element: the index is checked, then the offset is read. */
  method GatherElement(src: Tensor, dim: nat, idxShape: Shape, idx: seq<int>, strides: seq<int>, l: nat) returns (r: Result<real>)
    requires src.Valid() && |idx| == Numel(idxShape) && |idxShape| == |src.shape| && dim < |src.shape| && l < |idx|
    requires strides == RowMajor(src.shape)
    ensures r == if Addressed(src.shape, idxShape, dim, idx, l) then Ok(At(src.data, CellAt(src.shape, idxShape, dim, idx, l)))
                 else Err(Fault(src.shape, dim, idx[l]))
  {
    NumelPositive(idxShape);
    var coords := DecodeCoords(l, idxShape);
    if idx[l] < 0 || idx[l] >= src.shape[dim] {
      return Err(IndexOutOfBounds(idx[l], src.shape[dim]));
    }
    OffsetIsCell(src.shape, idxShape, dim, idx, l);
    var i := DotStrides(coords[dim := idx[l]], strides);
    if i >= |src.data| {
      return Err(Panicked);
    }
    return Ok(src.data[i]);
  }

  /** `gather`. */
  method Gather(src: Tensor, dim: nat, idxShape: Shape, idx: seq<int>) returns (r: Result<Tensor>)
    requires src.Valid() && |idx| == Numel(idxShape)
    ensures |idxShape| != |src.shape| ==> r == Err(ShapeMismatch)
    ensures |idxShape| == |src.shape| && dim >= |src.shape| ==> r == Err(DimOutOfBounds(dim, |src.shape|))
    ensures |idxShape| == |src.shape| && dim < |src.shape| ==>
              if AllAddressed(src.shape, idxShape, dim, idx, |idx|)
              then r.Ok? && r.value.shape == idxShape && Gathered(r.value.data, |idx|, src, idxShape, dim, idx)
              else r.Err? && FirstFault(r.error, src.shape, idxShape, dim, idx)
  {
    if |src.shape| != |idxShape| {
      return Err(ShapeMismatch);
    }
    if dim >= |src.shape| {
      return Err(DimOutOfBounds(dim, |src.shape|));
    }
    var strides := ContiguousStrides(src.shape);
    var out: seq<real> := [];
    for l := 0 to |idx|
      invariant AllAddressed(src.shape, idxShape, dim, idx, l) && Gathered(out, l, src, idxShape, dim, idx)
    {
      var element := GatherElement(src, dim, idxShape, idx, strides, l);
      if element.Err? {
        assert FaultAt(element.error, src.shape, idxShape, dim, idx, l);
        return Err(element.error);
      }
      GatheredStep(out, l, src, idxShape, dim, idx, element.value);
      out := out + [element.value];
    }
    return Ok(Tensor(idxShape, out));
  }

  // ---- Scatter ----

  /** The value left at `k` by the first `n` writes over `base`. */
  function LastWrite(n: nat, p: Index, g: Fn, base: real, k: int): real {
    if n == 0 then base else if p(n - 1) == k then g(n - 1) else LastWrite(n - 1, p, g, base, k)
  }

  /** What `scatter` or `scatter_add` leaves at `k`. */
  function Scattered(accumulate: bool, n: nat, p: Index, g: Fn, base: real, k: int): real {
    if accumulate then base + PushAt(n, p, g, k) else LastWrite(n, p, g, base, k)
  }

  lemma ScatteredStep(accumulate: bool, n: nat, p: Index, g: Fn, base: real, k: int)
    ensures Scattered(accumulate, n + 1, p, g, base, k)
         == if p(n) != k then Scattered(accumulate, n, p, g, base, k)
            else if accumulate then Scattered(accumulate, n, p, g, base, k) + g(n)
            else g(n)
  {
    PushOne(n, p, g, k);
  }

  /** `out` holds what the first `n` writes leave over `base`. */
  ghost predicate Written(out: seq<real>, accumulate: bool, n: nat, p: Index, g: Fn, base: seq<real>) {
    |out| == |base| && forall k :: 0 <= k < |out| ==> out[k] == Scattered(accumulate, n, p, g, base[k], k)
  }

  lemma WrittenStep(out: seq<real>, accumulate: bool, n: nat, p: Index, g: Fn, base: seq<real>)
    requires Written(out, accumulate, n, p, g, base) && 0 <= p(n) < |out|
    ensures Written(out[p(n) := if accumulate then out[p(n)] + g(n) else g(n)], accumulate, n + 1, p, g, base)
  {
    forall k | 0 <= k < |out|
      ensures Scattered(accumulate, n + 1, p, g, base[k], k)
           == if p(n) != k then out[k] else if accumulate then out[k] + g(n) else g(n)
    {
      ScatteredStep(accumulate, n, p, g, base[k], k);
    }
  }

  /** One write: the index is checked, then the offset is written. */
  method ScatterElement(was: seq<real>, dst: Tensor, dim: nat, idxShape: Shape, idx: seq<int>, src: seq<real>, accumulate: bool,
                        strides: seq<int>, l: nat) returns (r: Result<seq<real>>)
    requires dst.Valid() && |src| == |idx| == Numel(idxShape) && |idxShape| == |dst.shape| && dim < |dst.shape| && l < |idx|
    requires strides == RowMajor(dst.shape)
    requires Written(was, accumulate, l, Cell(dst.shape, idxShape, dim, idx), Buffer(src), dst.data)
    ensures if Addressed(dst.shape, idxShape, dim, idx, l)
            then r.Ok? && Written(r.value, accumulate, l + 1, Cell(dst.shape, idxShape, dim, idx), Buffer(src), dst.data)
            else r == Err(Fault(dst.shape, dim, idx[l]))
  {
    NumelPositive(idxShape);
    var coords := DecodeCoords(l, idxShape);
    if idx[l] < 0 || idx[l] >= dst.shape[dim] {
      return Err(IndexOutOfBounds(idx[l], dst.shape[dim]));
    }
    OffsetIsCell(dst.shape, idxShape, dim, idx, l);
    var i := DotStrides(coords[dim := idx[l]], strides);
    if i >= |was| {
      return Err(Panicked);
    }
    WrittenAt(was, accumulate, l, Cell(dst.shape, idxShape, dim, idx), src, dst.data, i);
    return Ok(was[i := if accumulate then was[i] + src[l] else src[l]]);
  }

  lemma WrittenAt(was: seq<real>, accumulate: bool, l: nat, p: Index, src: seq<real>, base: seq<real>, i: int)
    requires Written(was, accumulate, l, p, Buffer(src), base) && l < |src| && p(l) == i && 0 <= i < |was|
    ensures Written(was[i := if accumulate then was[i] + src[l] else src[l]], accumulate, l + 1, p, Buffer(src), base)
  {
    WrittenStep(was, accumulate, l, p, Buffer(src), base);
    assert Buffer(src)(l) == src[l];
  }

  /** What `scatter_typed` gives: all writes in order, or the first fault. */
  ghost predicate ScatterResult(r: Result<Tensor>, dst: Tensor, dim: nat, idxShape: Shape, idx: seq<int>, src: seq<real>, accumulate: bool)
    requires dim < |dst.shape|
  {
    if AllAddressed(dst.shape, idxShape, dim, idx, |idx|)
    then r.Ok? && r.value.shape == dst.shape
         && Written(r.value.data, accumulate, |idx|, Cell(dst.shape, idxShape, dim, idx), Buffer(src), dst.data)
    else r.Err? && FirstFault(r.error, dst.shape, idxShape, dim, idx)
  }

  /** `scatter_typed`. */
  method ScatterTyped(dst: Tensor, dim: nat, idxShape: Shape, idx: seq<int>, src: seq<real>, accumulate: bool) returns (r: Result<Tensor>)
    requires dst.Valid() && |src| == |idx| == Numel(idxShape) && |idxShape| == |dst.shape| && dim < |dst.shape|
    ensures ScatterResult(r, dst, dim, idxShape, idx, src, accumulate)
  {
    var out := dst.data;
    var strides := ContiguousStrides(dst.shape);
    for l := 0 to |idx|
      invariant AllAddressed(dst.shape, idxShape, dim, idx, l)
      invariant Written(out, accumulate, l, Cell(dst.shape, idxShape, dim, idx), Buffer(src), dst.data)
    {
      var written := ScatterElement(out, dst, dim, idxShape, idx, src, accumulate, strides, l);
      if written.Err? {
        assert FaultAt(written.error, dst.shape, idxShape, dim, idx, l);
        return Err(written.error);
      }
      out := written.value;
    }
    return Ok(Tensor(dst.shape, out));
  }

  /** `scatter` and `scatter_add`. */
  method Scatter(dst: Tensor, dim: nat, idxShape: Shape, idx: seq<int>, src: Tensor, accumulate: bool) returns (r: Result<Tensor>)
    requires dst.Valid() && src.Valid() && |idx| == Numel(idxShape)
    ensures |dst.shape| != |idxShape| || |dst.shape| != |src.shape| ==> r == Err(ShapeMismatch)
    ensures |dst.shape| == |idxShape| == |src.shape| && dim >= |dst.shape| ==> r == Err(DimOutOfBounds(dim, |dst.shape|))
    ensures |dst.shape| == |idxShape| == |src.shape| && dim < |dst.shape| ==>
              if idxShape != src.shape then r == Err(ShapeMismatch)
              else ScatterResult(r, dst, dim, idxShape, idx, src.data, accumulate)
    ensures r.Ok? ==> |r.value.data| == |dst.data|
    ensures r.Ok? ==> forall k :: 0 <= k < |dst.data| && NeverWritten(|idx|, Cell(dst.shape, idxShape, dim, idx), k) ==>
              r.value.data[k] == dst.data[k]
    ensures r.Ok? && accumulate ==> forall x: Fn ::
              Sum(|dst.data|, Times(Difference(Buffer(r.value.data), Buffer(dst.data)), x))
              == Sum(|idx|, Times(Buffer(src.data), Pull(Cell(dst.shape, idxShape, dim, idx), x)))
    ensures r.Ok? && accumulate ==>
              Sum(|dst.data|, Buffer(r.value.data)) == Sum(|dst.data|, Buffer(dst.data)) + Sum(|idx|, Buffer(src.data))
    ensures r.Ok? && !accumulate ==> forall l: nat :: LastAt(|idx|, Cell(dst.shape, idxShape, dim, idx), l) ==>
              At(r.value.data, CellAt(dst.shape, idxShape, dim, idx, l)) == src.data[l]
  {
    if |dst.shape| != |idxShape| || |dst.shape| != |src.shape| {
      return Err(ShapeMismatch);
    }
    if dim >= |dst.shape| {
      return Err(DimOutOfBounds(dim, |dst.shape|));
    }
    if idxShape != src.shape {
      return Err(ShapeMismatch);
    }
    r := ScatterTyped(dst, dim, idxShape, idx, src.data, accumulate);
    if r.Ok? {
      ScatterMeans(dst, dim, idxShape, idx, src.data, accumulate, r.value.data, Cell(dst.shape, idxShape, dim, idx));
    }
  }

  /** What the writes leave, element by element. */
  lemma ScatterMeans(dst: Tensor, dim: nat, idxShape: Shape, idx: seq<int>, src: seq<real>, accumulate: bool, out: seq<real>, p: Index)
    requires dst.Valid() && dim < |dst.shape| && |src| == |idx| && p == Cell(dst.shape, idxShape, dim, idx)
    requires AllAddressed(dst.shape, idxShape, dim, idx, |idx|) && Written(out, accumulate, |idx|, p, Buffer(src), dst.data)
    ensures forall k :: 0 <= k < |dst.data| && NeverWritten(|idx|, p, k) ==> out[k] == dst.data[k]
    ensures accumulate ==> forall x: Fn ::
              Sum(|dst.data|, Times(Difference(Buffer(out), Buffer(dst.data)), x)) == Sum(|idx|, Times(Buffer(src), Pull(p, x)))
    ensures accumulate ==> Sum(|dst.data|, Buffer(out)) == Sum(|dst.data|, Buffer(dst.data)) + Sum(|idx|, Buffer(src))
    ensures !accumulate ==> forall l: nat :: LastAt(|idx|, p, l) ==> At(out, p(l)) == src[l]
  {
    AddressedInto(dst.shape, idxShape, dim, idx);
    forall k | 0 <= k < |dst.data| && NeverWritten(|idx|, p, k) ensures out[k] == dst.data[k] {
      UntouchedAt(out, accumulate, |idx|, p, Buffer(src), dst.data, k);
    }
    if accumulate {
      forall x: Fn
        ensures Sum(|dst.data|, Times(Difference(Buffer(out), Buffer(dst.data)), x)) == Sum(|idx|, Times(Buffer(src), Pull(p, x)))
      {
        AddedIsAdjoint(out, |idx|, p, Buffer(src), dst.data, x);
      }
      AddedConserves(out, |idx|, p, Buffer(src), dst.data);
    } else {
      forall l: nat | LastAt(|idx|, p, l) ensures At(out, p(l)) == src[l] {
        LastKept(out, |idx|, p, Buffer(src), dst.data, l);
      }
    }
  }

  // ---- What a scatter means ----

  /** No position below `n` addresses element `k`. */
  ghost predicate NeverWritten(n: nat, p: Index, k: int) {
    forall l :: 0 <= l < n ==> p(l) != k
  }

  /** Position `l` is the last one below `n` that addresses its element. */
  ghost predicate LastAt(n: nat, p: Index, l: nat) {
    l < n && forall m :: l < m < n ==> p(m) != p(l)
  }

  function Difference(f: Fn, g: Fn): Fn {
    k => f(k) - g(k)
  }

  lemma UntouchedAt(out: seq<real>, accumulate: bool, n: nat, p: Index, g: Fn, base: seq<real>, k: nat)
    requires Written(out, accumulate, n, p, g, base) && k < |base| && NeverWritten(n, p, k)
    ensures out[k] == base[k]
  {
    if accumulate {
      SumZero(n, Hits(p, g, k));
    } else {
      UnwrittenKept(n, p, g, base[k], k);
    }
  }

  lemma AddedDifference(out: seq<real>, n: nat, p: Index, g: Fn, base: seq<real>, k: int)
    requires Written(out, true, n, p, g, base) && 0 <= k < |base|
    ensures Difference(Buffer(out), Buffer(base))(k) == Push(n, p, g)(k)
  {
    assert out[k] == Scattered(true, n, p, g, base[k], k);
  }

  /** What accumulating adds to `base` is the adjoint of reading, whatever `base` holds. */
  lemma AddedIsAdjoint(out: seq<real>, n: nat, p: Index, g: Fn, base: seq<real>, x: Fn)
    requires Written(out, true, n, p, g, base) && Into(p, n, |base|)
    ensures Sum(|base|, Times(Difference(Buffer(out), Buffer(base)), x)) == Sum(n, Times(g, Pull(p, x)))
  {
    PushAdjoint(n, |base|, p, g, x);
    forall k | 0 <= k < |base| ensures Difference(Buffer(out), Buffer(base))(k) == Push(n, p, g)(k) {
      AddedDifference(out, n, p, g, base, k);
    }
    PairedAlike(|base|, Difference(Buffer(out), Buffer(base)), Push(n, p, g), x);
  }

  lemma PairedAlike(n: nat, f: Fn, h: Fn, x: Fn)
    requires forall k :: 0 <= k < n ==> f(k) == h(k)
    ensures Sum(n, Times(f, x)) == Sum(n, Times(h, x))
  {
    forall k | 0 <= k < n ensures Times(f, x)(k) == Times(h, x)(k) {
    }
    SumCongruence(n, Times(f, x), Times(h, x));
  }

  /** Accumulating adds the total of the source to the total of `base`. */
  lemma AddedConserves(out: seq<real>, n: nat, p: Index, g: Fn, base: seq<real>)
    requires Written(out, true, n, p, g, base) && Into(p, n, |base|)
    ensures Sum(|base|, Buffer(out)) == Sum(|base|, Buffer(base)) + Sum(n, g)
  {
    PushConserves(n, |base|, p, g);
    forall k | 0 <= k < |base| ensures Buffer(out)(k) == Buffer(base)(k) + Push(n, p, g)(k) {
      AddedDifference(out, n, p, g, base, k);
    }
    SumAdd(|base|, Buffer(base), Push(n, p, g), Buffer(out));
  }

  /** A plain scatter leaves the last value written. */
  lemma LastKept(out: seq<real>, n: nat, p: Index, g: Fn, base: seq<real>, l: nat)
    requires Written(out, false, n, p, g, base) && LastAt(n, p, l) && 0 <= p(l) < |base|
    ensures out[p(l)] == g(l)
  {
    LastWriteWins(n, p, g, base[p(l)], p(l), l);
  }

  lemma AddressedInto(shape: Shape, idxShape: Shape, dim: nat, idx: seq<int>)
    requires dim < |shape| && AllAddressed(shape, idxShape, dim, idx, |idx|)
    ensures Into(Cell(shape, idxShape, dim, idx), |idx|, Numel(shape))
  {
    forall l | 0 <= l < |idx| ensures 0 <= CellAt(shape, idxShape, dim, idx, l) < Numel(shape) {
      assert Addressed(shape, idxShape, dim, idx, l);
    }
  }

  /** The element that position `l` at coordinates `c` addresses: the same coordinates, the index in place of axis `dim`. */
  lemma CellCoords(shape: Shape, idxShape: Shape, dim: nat, idx: seq<int>, c: seq<nat>)
    requires |idxShape| == |shape| && dim < |shape| && |idx| == Numel(idxShape) && InShape(c, idxShape)
    ensures Encode(c, idxShape) < |idx|
    ensures idx[Encode(c, idxShape)] >= 0 ==>
              CellAt(shape, idxShape, dim, idx, Encode(c, idxShape)) == Encode(c[dim := idx[Encode(c, idxShape)]], shape)
  {
    EncodeBound(c, idxShape);
    NumelPositive(idxShape);
    DecodeEncode(c, idxShape);
  }

  /** `scatter_add` into zeros is the adjoint of `gather`: pairing `g` with gathered elements pairs the sums with the source. */
  lemma ScatterAddIsAdjoint(shape: Shape, idxShape: Shape, dim: nat, idx: seq<int>, g: Fn, x: Fn)
    requires Inside(idxShape, shape, dim) && |idx| == Numel(idxShape) && AllInRange(idx, shape[dim])
    ensures var p := Cell(shape, idxShape, dim, idx);
            && Sum(|idx|, Times(g, Pull(p, x))) == Sum(Numel(shape), Times(Push(|idx|, p, g), x))
            && Sum(Numel(shape), Push(|idx|, p, g)) == Sum(|idx|, g)
            && forall k :: Scattered(true, |idx|, p, g, 0.0, k) == Push(|idx|, p, g)(k)
  {
    var p := Cell(shape, idxShape, dim, idx);
    CellsInto(shape, idxShape, dim, idx);
    PushAdjoint(|idx|, Numel(shape), p, g, x);
    PushConserves(|idx|, Numel(shape), p, g);
  }

  /** A plain scatter keeps the last write to each element, and the old value where there is none. */
  lemma {:induction false} LastWriteWins(n: nat, p: Index, g: Fn, base: real, k: int, l: nat)
    requires l < n && p(l) == k && forall m :: l < m < n ==> p(m) != k
    ensures LastWrite(n, p, g, base, k) == g(l)
  {
    if l < n - 1 {
      LastWriteWins(n - 1, p, g, base, k, l);
    }
  }

  lemma {:induction false} UnwrittenKept(n: nat, p: Index, g: Fn, base: real, k: int)
    requires forall m :: 0 <= m < n ==> p(m) != k
    ensures LastWrite(n, p, g, base, k) == base
  {
    if n > 0 {
      UnwrittenKept(n - 1, p, g, base, k);
    }
  }

  /** Gathering what was scattered gives, at `l`, the value written by the last position that addresses the same element. */
  lemma {:induction false} GatherAfterScatter(n: nat, p: Index, g: Fn, base: Fn, l: nat)
    requires l < n
    ensures exists m :: l <= m < n && p(m) == p(l) && LastWrite(n, p, g, base(p(l)), p(l)) == g(m)
                        && forall i :: m < i < n ==> p(i) != p(l)
  {
    if p(n - 1) != p(l) {
      GatherAfterScatter(n - 1, p, g, base, l);
    }
  }

  // ---- index_select ----

  /** The index of every output element, along axis `dim` of the output shape. */
  function Spread(idx: seq<int>, out: Shape, dim: nat): (r: seq<int>)
    requires dim < |out| && out[dim] == |idx|
    ensures |r| == Numel(out)
  {
    seq(Numel(out), l requires 0 <= l < Numel(out) => SpreadAt(idx, out, dim, l))
  }

  function SpreadAt(idx: seq<int>, out: Shape, dim: nat, l: nat): int
    requires dim < |out| && out[dim] == |idx| && l < Numel(out)
  {
    NumelPositive(out);
    DecodeInShape(l, out);
    idx[Decode(l, out)[dim]]
  }

  /** `index_select`: a gather whose index tensor repeats `idx` along the other axes. */
  method IndexSelect(src: Tensor, dim: nat, idx: seq<int>) returns (r: Result<Tensor>)
    requires src.Valid()
    ensures dim >= |src.shape| ==> r == Err(DimOutOfBounds(dim, |src.shape|))
    ensures dim < |src.shape| ==>
              var shape := src.shape[dim := |idx|];
              var spread := Spread(idx, shape, dim);
              if AllInRange(spread, src.shape[dim])
              then r.Ok? && r.value.shape == shape && Gathered(r.value.data, |spread|, src, shape, dim, spread)
              else r.Err? && Refused(r.error, spread, src.shape[dim])
  {
    if dim >= |src.shape| {
      return Err(DimOutOfBounds(dim, |src.shape|));
    }
    var shape := src.shape[dim := |idx|];
    r := IndexSelectTyped(src, dim, idx, shape, Spread(idx, shape, dim));
  }

  /** The index that output coordinates `c` use is the one at their coordinate along the axis. */
  lemma SpreadCoords(idx: seq<int>, out: Shape, dim: nat, c: seq<nat>)
    requires dim < |out| && out[dim] == |idx| && InShape(c, out)
    ensures Encode(c, out) < Numel(out) && Spread(idx, out, dim)[Encode(c, out)] == idx[c[dim]]
  {
    EncodeBound(c, out);
    NumelPositive(out);
    DecodeEncode(c, out);
  }

  /** Row selection in coordinates: the output at `c` is the source at `c` with the index in place of axis `dim`. */
  lemma SelectedCoords(data: seq<real>, src: Tensor, dim: nat, idx: seq<int>, c: seq<nat>)
    requires src.Valid() && dim < |src.shape| && InShape(c, src.shape[dim := |idx|]) && InRange(idx[c[dim]], src.shape[dim])
    requires var shape := src.shape[dim := |idx|];
             Gathered(data, Numel(shape), src, shape, dim, Spread(idx, shape, dim))
    ensures var l := Encode(c, src.shape[dim := |idx|]);
            l < |data| && InShape(c[dim := idx[c[dim]]], src.shape) && data[l] == At(src.data, Encode(c[dim := idx[c[dim]]], src.shape))
  {
    var shape := src.shape[dim := |idx|];
    SpreadCoords(idx, shape, dim, c);
    CellCoords(src.shape, shape, dim, Spread(idx, shape, dim), c);
    forall a | 0 <= a < |src.shape| ensures c[dim := idx[c[dim]]][a] < src.shape[a] {
      assert c[a] < shape[a];
    }
  }

  method SelectedIndex(idx: seq<int>, shape: Shape, dim: nat, l: nat, coords: seq<nat>) returns (j: int)
    requires dim < |shape| && shape[dim] == |idx| && l < Numel(shape) && Positive(shape) && coords == Decode(l, shape)
    ensures j == Spread(idx, shape, dim)[l]
  {
    DecodeInShape(l, shape);
    j := idx[coords[dim]];
  }

  ghost predicate IsSpread(spread: seq<int>, idx: seq<int>, shape: Shape, dim: nat) {
    dim < |shape| && shape[dim] == |idx| && spread == Spread(idx, shape, dim)
  }

  /** One output element: its index is checked when it is reached. */
  method SelectElement(src: Tensor, dim: nat, idx: seq<int>, shape: Shape, strides: seq<int>, l: nat, ghost spread: seq<int>)
    returns (r: Result<real>)
    requires src.Valid() && Inside(shape, src.shape, dim) && IsSpread(spread, idx, shape, dim)
    requires strides == RowMajor(src.shape) && l < Numel(shape)
    ensures r == if InRange(spread[l], src.shape[dim]) then Ok(At(src.data, CellAt(src.shape, shape, dim, spread, l)))
                 else Err(IndexOutOfBounds(spread[l], src.shape[dim]))
  {
    NumelPositive(shape);
    var coords := DecodeCoords(l, shape);
    var j := SelectedIndex(idx, shape, dim, l, coords);
    if j < 0 || j >= src.shape[dim] {
      return Err(IndexOutOfBounds(j, src.shape[dim]));
    }
    CellInto(src.shape, shape, dim, spread, l);
    var i := DotStrides(coords[dim := j], strides);
    return Ok(src.data[i]);
  }

  /** `index_select_typed`. */
  method IndexSelectTyped(src: Tensor, dim: nat, idx: seq<int>, shape: Shape, ghost spread: seq<int>) returns (r: Result<Tensor>)
    requires src.Valid() && Inside(shape, src.shape, dim) && IsSpread(spread, idx, shape, dim)
    ensures if AllInRange(spread, src.shape[dim])
            then r.Ok? && r.value.shape == shape && Gathered(r.value.data, |spread|, src, shape, dim, spread)
            else r.Err? && Refused(r.error, spread, src.shape[dim])
  {
    var strides := ContiguousStrides(src.shape);
    var out: seq<real> := [];
    NumelPositive(shape);
    for l := 0 to Numel(shape)
      invariant RangeUpTo(spread, l, src.shape[dim]) && Gathered(out, l, src, shape, dim, spread)
    {
      var element := SelectElement(src, dim, idx, shape, strides, l, spread);
      if element.Err? {
        RefusedAt(spread, src.shape[dim], l);
        return Err(element.error);
      }
      GatheredStep(out, l, src, shape, dim, spread, element.value);
      out := out + [element.value];
    }
    return Ok(Tensor(shape, out));
  }

  // ---- The gradient of row selection ----

  lemma {:induction false} EncodeHead(c: seq<nat>, s: Shape)
    requires |c| == |s| > 0
    ensures Encode(c, s) == c[0] * Numel(s[1..]) + Encode(c[1..], s[1..])
    decreases |s|
  {
    var k := |s| - 1;
    if k == 0 {
      assert s[1..] == [] && c[..0] == [];
      assert Encode(c, s) == Encode(c[..0], s[..0]) * s[0] + c[0];
    } else {
      EncodeHead(c[..k], s[..k]);
      assert c[..k][1..] == c[1..][..k - 1] && s[..k][1..] == s[1..][..k - 1];
      FactorHead(c[0], Numel(s[1..][..k - 1]), Encode(c[1..][..k - 1], s[1..][..k - 1]), s[k]);
    }
  }

  lemma FactorHead(a: nat, n: nat, e: nat, b: nat)
    ensures (a * n + e) * b == a * (n * b) + e * b
  {
  }

  lemma HeadQuotient(c: seq<nat>, s: Shape)
    requires s != [] && InShape(c, s)
    ensures Numel(s[1..]) > 0 && InShape(c[1..], s[1..])
    ensures Encode(c, s) / Numel(s[1..]) == c[0] && Encode(c, s) % Numel(s[1..]) == Encode(c[1..], s[1..])
  {
    forall i | 0 <= i < |s| - 1 ensures c[1..][i] < s[1..][i] {
      assert c[i + 1] < s[i + 1];
    }
    EncodeHead(c, s);
    EncodeBound(c[1..], s[1..]);
    DivMod(c[0], Numel(s[1..]), Encode(c[1..], s[1..]));
  }

  /** The first coordinate is the quotient by the row size, the others decode the remainder. */
  lemma DecodeHead(l: nat, s: Shape)
    requires s != [] && Positive(s) && l < Numel(s)
    ensures Numel(s[1..]) > 0
    ensures Decode(l, s)[0] == l / Numel(s[1..]) && Decode(l, s)[1..] == Decode(l % Numel(s[1..]), s[1..])
  {
    DecodeInShape(l, s);
    EncodeDecode(l, s);
    HeadQuotient(Decode(l, s), s);
    DecodeEncode(Decode(l, s)[1..], s[1..]);
  }

  /** Where the row scatter adds position `l` of the gradient. */
  function RowCellAt(row: nat, idx: seq<int>, l: int): int {
    if row > 0 && 0 <= l && l / row < |idx| then idx[l / row] * row + l % row else 0
  }

  function RowCell(row: nat, idx: seq<int>): Index {
    l => RowCellAt(row, idx, l)
  }

  /** The row scatter addresses the cells that `index_select` read. */
  lemma RowCellIsCell(shape: Shape, idx: seq<int>, l: nat)
    requires shape != [] && l < Numel(shape[0 := |idx|]) && AllInRange(idx, shape[0])
    ensures var out := shape[0 := |idx|];
            RowCellAt(Numel(shape[1..]), idx, l) == CellAt(shape, out, 0, Spread(idx, out, 0), l)
  {
    var out := shape[0 := |idx|];
    var row := Numel(shape[1..]);
    assert out[1..] == shape[1..];
    NumelPositive(out);
    DecodeHead(l, out);
    DecodeInShape(l, out);
    var c := Decode(l, out);
    assert Spread(idx, out, 0)[l] == idx[l / row];
    var d := c[0 := idx[l / row]];
    EncodeHead(d, shape);
    assert d[1..] == c[1..];
    var rest := Decode(l % row, shape[1..]);
    NumelPositive(shape[1..]);
    EncodeDecode(l % row, shape[1..]);
  }

  lemma RowCellsAreCells(shape: Shape, idx: seq<int>, g: Fn, k: int)
    requires shape != [] && AllInRange(idx, shape[0])
    ensures var s := shape[0 := |idx|];
            PushAt(Numel(s), RowCell(Numel(shape[1..]), idx), g, k) == PushAt(Numel(s), Cell(shape, s, 0, Spread(idx, s, 0)), g, k)
  {
    var s, row := shape[0 := |idx|], Numel(shape[1..]);
    forall l | 0 <= l < Numel(s) ensures RowCellAt(row, idx, l) == CellAt(shape, s, 0, Spread(idx, s, 0), l) {
      RowCellIsCell(shape, idx, l);
    }
    PushCongruence(Numel(s), RowCell(row, idx), Cell(shape, s, 0, Spread(idx, s, 0)), g, g, k);
  }

  lemma SummedRows(out: seq<real>, shape: Shape, idx: seq<int>, grad: seq<real>)
    requires shape != [] && AllInRange(idx, shape[0]) && |grad| == Numel(shape[0 := |idx|])
    requires Summed(out, |grad|, RowCell(Numel(shape[1..]), idx), Buffer(grad))
    ensures Summed(out, |grad|, Cell(shape, shape[0 := |idx|], 0, Spread(idx, shape[0 := |idx|], 0)), Buffer(grad))
  {
    var s := shape[0 := |idx|];
    forall k | 0 <= k < |out|
      ensures PushAt(|grad|, RowCell(Numel(shape[1..]), idx), Buffer(grad), k) == PushAt(|grad|, Cell(shape, s, 0, Spread(idx, s, 0)), Buffer(grad), k)
    {
      RowCellsAreCells(shape, idx, Buffer(grad), k);
    }
  }

  lemma SelectedRows(shape: Shape, n: nat)
    requires shape != []
    ensures Numel(shape) == shape[0] * Numel(shape[1..]) && Numel(shape[0 := n]) == n * Numel(shape[1..])
  {
    NumelHead(shape);
    NumelHead(shape[0 := n]);
    assert shape[0 := n][1..] == shape[1..];
  }

  /** `IndexSelectBackward::apply`: `src_grad[idx[k]] += grad[k]`, row by row. */
  method RowScatter(shape: Shape, idx: seq<int>, grad: seq<real>) returns (out: seq<real>)
    requires shape != [] && AllInRange(idx, shape[0]) && |grad| == Numel(shape[0 := |idx|])
    ensures |out| == Numel(shape)
    ensures var s := shape[0 := |idx|];
            Summed(out, |grad|, Cell(shape, s, 0, Spread(idx, s, 0)), Buffer(grad))
  {
    SelectedRows(shape, |idx|);
    out := AddRows(shape[0], Numel(shape[1..]), idx, grad);
    SummedRows(out, shape, idx, grad);
  }

  /** The loop over the rows of the gradient. */
  method AddRows(rows: nat, row: nat, idx: seq<int>, grad: seq<real>) returns (out: seq<real>)
    requires AllInRange(idx, rows) && |grad| == |idx| * row
    ensures |out| == rows * row && Summed(out, |grad|, RowCell(row, idx), Buffer(grad))
  {
    out := seq(rows * row, _ => 0.0);
    for k := 0 to |idx|
      invariant |out| == rows * row && Summed(out, k * row, RowCell(row, idx), Buffer(grad))
    {
      RowBounds(k, |idx|, row);
      out := AddRow(out, rows, row, idx, k, grad);
      NextRow(k, row);
    }
  }

  /** Adds gradient row `k` to the row that it was selected from. */
  method AddRow(was: seq<real>, rows: nat, row: nat, idx: seq<int>, k: nat, grad: seq<real>) returns (out: seq<real>)
    requires |was| == rows * row && AllInRange(idx, rows) && k < |idx| && k * row + row <= |grad|
    requires Summed(was, k * row, RowCell(row, idx), Buffer(grad))
    ensures |out| == |was| && Summed(out, k * row + row, RowCell(row, idx), Buffer(grad))
  {
    out := was;
    var to, from := idx[k] * row, k * row;
    RowBounds(idx[k], rows, row);
    for j := 0 to row
      invariant |out| == |was| && Summed(out, from + j, RowCell(row, idx), Buffer(grad))
    {
      DivMod(k, row, j);
      assert RowCellAt(row, idx, from + j) == to + j;
      SummedStep(out, from + j, RowCell(row, idx), Buffer(grad));
      out := out[to + j := out[to + j] + grad[from + j]];
    }
  }

  lemma RowBounds(k: nat, n: nat, row: nat)
    requires k < n
    ensures k * row + row <= n * row
  {
    MulMonotone(k + 1, n, row);
    NextRow(k, row);
  }

  lemma {:induction false} NumelHead(s: Shape)
    requires s != []
    ensures Numel(s) == s[0] * Numel(s[1..])
    decreases |s|
  {
    var k := |s| - 1;
    if k == 0 {
      assert s[1..] == [] && s[..0] == [];
      assert Numel(s) == Numel(s[..0]) * s[0];
    } else {
      NumelHead(s[..k]);
      assert s[..k][1..] == s[1..][..k - 1];
      MulAssociates(s[0], Numel(s[1..][..k - 1]), s[k]);
    }
  }

  lemma MulAssociates(a: nat, b: nat, c: nat)
    ensures (a * b) * c == a * (b * c)
  {
  }

  lemma SpreadInRange(shape: Shape, idx: seq<int>)
    requires shape != [] && AllInRange(idx, shape[0])
    ensures var out := shape[0 := |idx|];
            Inside(out, shape, 0) && AllInRange(Spread(idx, out, 0), shape[0])
  {
    var out := shape[0 := |idx|];
    forall l | 0 <= l < Numel(out) ensures InRange(Spread(idx, out, 0)[l], shape[0]) {
      NumelPositive(out);
      DecodeInShape(l, out);
    }
  }

  /** What `RowScatter` returns is adjoint to selecting the rows, and loses nothing. */
  lemma RowScatterIsAdjoint(shape: Shape, idx: seq<int>, grad: seq<real>, out: seq<real>, p: Index, x: Fn)
    requires shape != [] && AllInRange(idx, shape[0]) && |grad| == Numel(shape[0 := |idx|]) && |out| == Numel(shape)
    requires p == Cell(shape, shape[0 := |idx|], 0, Spread(idx, shape[0 := |idx|], 0)) && Summed(out, |grad|, p, Buffer(grad))
    ensures Sum(|grad|, Times(Buffer(grad), Pull(p, x))) == Sum(|out|, Times(Buffer(out), x))
    ensures Sum(|out|, Buffer(out)) == Sum(|grad|, Buffer(grad))
  {
    SpreadInRange(shape, idx);
    CellsInto(shape, shape[0 := |idx|], 0, Spread(idx, shape[0 := |idx|], 0));
    SummedIsAdjoint(out, |grad|, p, Buffer(grad), x);
  }
}
