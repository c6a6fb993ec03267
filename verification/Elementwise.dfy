/**
 Elementwise kernels with broadcasting: the stride-zero path, the chunked contiguous path, and
 what the plan reads for operands that are not row-major.
 */
module Elementwise {
  import opened Options
  import opened Strides
  import opened Tensors
  import opened Broadcasting
  import opened Parallel

  const PARALLEL_THRESHOLD: nat := 16384
  const CHUNK: nat := 8192

  /** A tensor over shared storage. */
  datatype View = View(storage: seq<real>, shape: Shape, strides: seq<int>, offset: nat) {
    /** Every coordinate addresses the storage. */
    predicate Valid() {
      |strides| == |shape|
    }

    ghost predicate Addressable() {
      Valid() && forall c: seq<nat> :: InShape(c, shape) ==> 0 <= offset + DotStrides(c, strides) < |storage|
    }

    /** The storage holds `numel` elements from the offset on. */
    predicate Covered() {
      Valid() && offset + Numel(shape) <= |storage|
    }

    predicate Contiguous() {
      Valid() && strides == RowMajor(shape) && offset == 0
    }

    /** The element at coordinates `c`. */
    function Logical(c: seq<nat>): real
      requires Valid() && |c| == |shape|
    {
      var i := offset + DotStrides(c, strides);
      if 0 <= i < |storage| then storage[i] else 0.0
    }
  }

  /** What the plan reads from an operand for output element `l` of shape `o`. */
  function PlanRead(v: View, o: Shape, l: int): real {
    var i := v.offset + OriginAt(v.shape, o, l);
    if 0 <= i < |v.storage| then v.storage[i] else 0.0
  }

  /** The plan's offset for output element `l` lies in the operand's storage. */
  predicate Stored(v: View, o: Shape, l: nat) {
    0 <= v.offset + OriginAt(v.shape, o, l) < |v.storage|
  }

  function LastCoords(s: Shape): (c: seq<nat>)
    requires Positive(s)
    ensures InShape(c, s)
  {
    seq(|s|, i requires 0 <= i < |s| => s[i] - 1)
  }

  lemma {:induction false} EncodeLast(s: Shape, c: seq<nat>)
    requires Positive(s) && |c| == |s| && forall i :: 0 <= i < |s| ==> c[i] == s[i] - 1
    ensures Encode(c, s) == Numel(s) - 1
  {
    if s != [] {
      var k := |s| - 1;
      EncodeLast(s[..k], c[..k]);
      LastProduct(Numel(s[..k]), s[k], Encode(c[..k], s[..k]));
    }
  }

  lemma LastProduct(n: nat, b: nat, e: int)
    requires e == n - 1
    ensures e * b + b - 1 == n * b - 1
  {
  }

  /** The last output element reads the last element of every operand. */
  lemma LastOrigin(s: Shape, o: Shape)
    requires Compatible(s, o) && Positive(o)
    ensures Numel(o) > 0 && OriginAt(s, o, Numel(o) - 1) == Numel(s) - 1
  {
    NumelPositive(o);
    var c := LastCoords(o);
    EncodeLast(o, c);
    DecodeEncode(c, o);
    CollapseInShape(c, s, o);
    var d := Collapse(c, s);
    forall i | 0 <= i < |s| ensures s[i] > 0 && d[i] == s[i] - 1 {
      assert d[i] < s[i];
    }
    EncodeLast(s, d);
  }

  /** An operand has an element for every output if and only if its storage covers its shape. */
  lemma StoredExactly(v: View, o: Shape)
    requires v.Valid() && Compatible(v.shape, o) && Positive(o)
    ensures Numel(o) > 0
    ensures v.Covered() <==> Stored(v, o, Numel(o) - 1)
    ensures v.Covered() <==> forall l :: 0 <= l < Numel(o) ==> Stored(v, o, l)
  {
    LastOrigin(v.shape, o);
    OriginInto(v.shape, o);
    assert Stored(v, o, Numel(o) - 1) <==> v.Covered();
    if v.Covered() {
      forall l | 0 <= l < Numel(o) ensures Stored(v, o, l) {
        assert 0 <= Origin(v.shape, o)(l) < Numel(v.shape);
      }
    }
  }

  /** The element strides of a shape, accumulated from the last axis. */
  method ElementStrides(s: Shape) returns (elem: seq<int>)
    ensures elem == RowMajor(s)
  {
    elem := seq(|s|, _ => 0);
    var acc := 1;
    var i := |s|;
    while i > 0
      invariant 0 <= i <= |s| && FilledFrom(elem, s, i)
      invariant i > 0 ==> acc == RowMajor(s)[i - 1]
      invariant i == |s| ==> acc == 1
    {
      i := i - 1;
      RowMajorStep(s, i);
      elem := elem[i := acc];
      acc := acc * s[i];
      if i > 0 {
        RowMajorStep(s, i - 1);
      }
    }
  }

  /** The strides of the axes before `n` are expanded. */
  ghost predicate ExpandedUpTo(out: seq<int>, s: Shape, o: Shape, n: nat)
    requires |s| <= |o|
  {
    && |out| == |o| && n <= |o|
    && (forall j :: 0 <= j < n ==> out[j] == ExpandedAt(s, o, j))
    && (forall j :: n <= j < |o| ==> out[j] == 0)
  }

  /** `Shape::expand_strides_to`. */
  method ExpandStrides(s: Shape, o: Shape) returns (r: Option<seq<int>>)
    ensures r == if Compatible(s, o) then Some(Expanded(s, o)) else None
  {
    if |s| > |o| {
      return None;
    }
    var elem := ElementStrides(s);
    var out := seq(|o|, _ => 0);
    var offset := |o| - |s|;
    for k := 0 to |s|
      invariant forall j :: 0 <= j < k ==> s[j] == 1 || s[j] == o[offset + j]
      invariant ExpandedUpTo(out, s, o, offset + k)
    {
      if s[k] == o[offset + k] {
        out := out[offset + k := elem[k]];
      } else if s[k] == 1 {
        out := out[offset + k := 0];
      } else {
        return None;
      }
    }
    assert out == Expanded(s, o);
    return Some(out);
  }

  /** `linear_to_offset` with broadcast strides addresses exactly the broadcast element; the access panics outside the storage. */
  method ReadBroadcast(v: View, o: Shape, strides: seq<int>, l: nat) returns (r: Result<real>)
    requires v.Valid() && Compatible(v.shape, o) && strides == Expanded(v.shape, o) && l < Numel(o)
    ensures r == if Stored(v, o, l) then Ok(PlanRead(v, o, l)) else Err(Panicked)
  {
    NumelPositive(o);
    DecodeInShape(l, o);
    ExpandedReadsOrigin(Decode(l, o), v.shape, o);
    var i := LinearToOffset(l, o, strides, v.offset);
    if i >= |v.storage| {
      return Err(Panicked);
    }
    return Ok(v.storage[i]);
  }

  /** Every output element is `f` of the two elements that the plan reads. */
  ghost predicate Mapped(a: View, b: View, o: Shape, f: (real, real) -> real, data: seq<real>) {
    |data| == Numel(o) && forall l :: 0 <= l < |data| ==> data[l] == f(PlanRead(a, o, l), PlanRead(b, o, l))
  }

  /** Some element that the plan needs is missing from an operand's storage. */
  ghost predicate Short(a: View, b: View, o: Shape) {
    Positive(o) && !(a.Covered() && b.Covered())
  }

  /** `map_binary`: same-shape contiguous operands take the chunked path, all others the strided one. */
  method MapBinary(a: View, b: View, f: (real, real) -> real, order: seq<nat>) returns (r: Result<Tensor>)
    requires a.Valid() && b.Valid()
    requires Numel(a.shape) >= PARALLEL_THRESHOLD ==> Schedule(order, DivCeil(Numel(a.shape), CHUNK))
    ensures r.Ok? ==> IsJoin(a.shape, b.shape, r.value.shape) && Mapped(a, b, r.value.shape, f, r.value.data) && !Short(a, b, r.value.shape)
    ensures r.Err? ==> r.error == ShapeMismatch || r.error == Panicked
    ensures r == Err(ShapeMismatch) ==> forall o :: !(Compatible(a.shape, o) && Compatible(b.shape, o))
    ensures r == Err(Panicked) ==> exists o :: IsJoin(a.shape, b.shape, o) && Short(a, b, o)
  {
    if a.shape == b.shape && a.Contiguous() && b.Contiguous() {
      assert Compatible(a.shape, a.shape) && IsJoin(a.shape, b.shape, a.shape);
      if Numel(a.shape) > |a.storage| || Numel(b.shape) > |b.storage| {
        NumelPositive(a.shape);
        assert Short(a, b, a.shape);
        return Err(Panicked);
      }
      var data := MapContiguous(a, b, f, order);
      return Ok(Tensor(a.shape, data));
    }
    var joined := BroadcastWith(a.shape, b.shape);
    if joined.None? {
      return Err(ShapeMismatch);
    }
    r := MapStrided(a, b, joined.value, f);
    assert r.Err? ==> Short(a, b, joined.value);
  }

  /** The first `n` outputs, which needed no missing element. */
  ghost predicate MappedUpTo(a: View, b: View, o: Shape, f: (real, real) -> real, data: seq<real>, n: nat) {
    && |data| == n
    && forall k :: 0 <= k < n ==> Stored(a, o, k) && Stored(b, o, k) && data[k] == f(PlanRead(a, o, k), PlanRead(b, o, k))
  }

  /** All outputs were written if and only if no operand is short. */
  lemma ShortExactly(a: View, b: View, o: Shape)
    requires a.Valid() && b.Valid() && Compatible(a.shape, o) && Compatible(b.shape, o)
    ensures Short(a, b, o) <==> exists l :: 0 <= l < Numel(o) && !(Stored(a, o, l) && Stored(b, o, l))
  {
    NumelPositive(o);
    if Positive(o) {
      StoredExactly(a, o);
      StoredExactly(b, o);
    }
  }

  /** The strided path: offsets of both operands, element by element. */
  method MapStrided(a: View, b: View, o: Shape, f: (real, real) -> real) returns (r: Result<Tensor>)
    requires a.Valid() && b.Valid() && Compatible(a.shape, o) && Compatible(b.shape, o)
    ensures r.Ok? <==> !Short(a, b, o)
    ensures r.Ok? ==> r.value.shape == o && Mapped(a, b, o, f, r.value.data)
    ensures r.Err? ==> r.error == Panicked
  {
    var sa := ExpandStrides(a.shape, o);
    var sb := ExpandStrides(b.shape, o);
    var out: seq<real> := [];
    ShortExactly(a, b, o);
    for l := 0 to Numel(o)
      invariant MappedUpTo(a, b, o, f, out, l)
    {
      var x := ReadBroadcast(a, o, sa.value, l);
      var y := ReadBroadcast(b, o, sb.value, l);
      if x.Err? || y.Err? {
        return Err(Panicked);
      }
      out := out + [f(x.value, y.value)];
    }
    return Ok(Tensor(o, out));
  }

  /** `map_binary_contiguous_parallel`: direct indexing, in chunks above the threshold. */
  method MapContiguous(a: View, b: View, f: (real, real) -> real, order: seq<nat>) returns (data: seq<real>)
    requires a.Covered() && b.Covered() && a.shape == b.shape && a.offset == 0 && b.offset == 0
    requires Numel(a.shape) >= PARALLEL_THRESHOLD ==> Schedule(order, DivCeil(Numel(a.shape), CHUNK))
    ensures Mapped(a, b, a.shape, f, data)
  {
    var n := Numel(a.shape);
    var out := new real[n](_ => 0.0);
    var g := (i: nat, _: real) => f(if i < |a.storage| then a.storage[i] else 0.0, if i < |b.storage| then b.storage[i] else 0.0);
    if n < PARALLEL_THRESHOLD {
      for i := 0 to n
        invariant forall k :: 0 <= k < i ==> out[k] == f(a.storage[k], b.storage[k])
      {
        out[i] := f(a.storage[i], b.storage[i]);
      }
    } else {
      RunChunks(out, 0, n, CHUNK, order, g);
    }
    data := out[..];
    forall l | 0 <= l < n ensures data[l] == f(PlanRead(a, a.shape, l), PlanRead(b, a.shape, l)) {
      OriginIdentity(a.shape, l);
    }
  }

  /** Every output element is `f` of the view's logical element. */
  ghost predicate MappedOne(v: View, f: real -> real, data: seq<real>, n: nat)
    requires v.Valid() && (Positive(v.shape) || n == 0)
  {
    |data| == n && forall l :: 0 <= l < n ==> data[l] == f(v.Logical(Decode(l, v.shape)))
  }

  /** `map_unary` on any layout: elements are read through the view's own strides. */
  method MapUnary(v: View, f: real -> real, order: seq<nat>) returns (t: Tensor)
    requires v.Addressable()
    requires Numel(v.shape) >= PARALLEL_THRESHOLD ==> Schedule(order, DivCeil(Numel(v.shape), CHUNK))
    ensures t.shape == v.shape && t.Valid()
    ensures Positive(v.shape) ==> forall l :: 0 <= l < |t.data| ==> t.data[l] == f(v.Logical(Decode(l, v.shape)))
  {
    var n := Numel(v.shape);
    NumelPositive(v.shape);
    if v.Contiguous() {
      var data := MapSlice(v, f, order);
      return Tensor(v.shape, data);
    }
    var out: seq<real> := [];
    for l := 0 to n
      invariant MappedOne(v, f, out, l)
    {
      var x := ReadElement(v, l);
      out := out + [f(x)];
    }
    return Tensor(v.shape, out);
  }

  /** `linear_to_offset` with the view's own strides. */
  method ReadElement(v: View, l: nat) returns (x: real)
    requires v.Addressable() && Positive(v.shape) && l < Numel(v.shape)
    ensures x == v.Logical(Decode(l, v.shape))
  {
    DecodeInShape(l, v.shape);
    var i := LinearToOffset(l, v.shape, v.strides, v.offset);
    assert InShape(Decode(l, v.shape), v.shape);
    x := v.storage[i];
  }

  /** The contiguous path: direct indexing, in chunks above the threshold. */
  method MapSlice(v: View, f: real -> real, order: seq<nat>) returns (data: seq<real>)
    requires v.Addressable() && v.Contiguous()
    requires Numel(v.shape) >= PARALLEL_THRESHOLD ==> Schedule(order, DivCeil(Numel(v.shape), CHUNK))
    ensures Positive(v.shape) || Numel(v.shape) == 0
    ensures MappedOne(v, f, data, Numel(v.shape))
  {
    var n := Numel(v.shape);
    NumelPositive(v.shape);
    var out := new real[n](_ => 0.0);
    var g := (i: nat, _: real) => f(if i < |v.storage| then v.storage[i] else 0.0);
    if n < PARALLEL_THRESHOLD {
      for i := 0 to n
        invariant forall k :: 0 <= k < i ==> out[k] == g(k, 0.0)
      {
        LogicalContiguous(v, i);
        out[i] := f(v.storage[i]);
      }
    } else {
      RunChunks(out, 0, n, CHUNK, order, g);
    }
    data := out[..];
    forall l | 0 <= l < n ensures data[l] == f(v.Logical(Decode(l, v.shape))) {
      LogicalContiguous(v, l);
    }
  }

  lemma LogicalContiguous(v: View, l: nat)
    requires v.Addressable() && v.Contiguous() && l < Numel(v.shape) && Positive(v.shape)
    ensures l < |v.storage| && v.Logical(Decode(l, v.shape)) == v.storage[l]
  {
    var c := Decode(l, v.shape);
    DecodeInShape(l, v.shape);
    EncodeDecode(l, v.shape);
    DotIsEncode(c, v.shape);
    assert InShape(c, v.shape);
  }

  // ---- When the plan reads the right element ----

  /** The plan reads the element of the view itself, for every output shape. */
  ghost predicate PlanIsRight(shape: Shape, strides: seq<int>)
    requires |strides| == |shape|
  {
    forall c: seq<nat> :: InShape(c, shape) ==> DotStrides(c, strides) == Encode(c, shape)
  }

  /** Strides agree with row-major ones wherever they matter. */
  predicate RowMajorWhereUsed(shape: Shape, strides: seq<int>)
    requires |strides| == |shape|
  {
    forall i :: 0 <= i < |shape| && shape[i] > 1 ==> strides[i] == RowMajor(shape)[i]
  }

  function Unit(n: nat, i: nat): (c: seq<nat>)
    ensures |c| == n
  {
    seq(n, j => if j == i then 1 else 0)
  }

  lemma {:induction false} DotUnit(n: nat, i: nat, strides: seq<int>)
    requires i < n == |strides|
    ensures DotStrides(Unit(n, i), strides) == strides[i]
  {
    assert Unit(n, i)[n - 1] == if n - 1 == i then 1 else 0;
    if i == n - 1 {
      DotOfZeros(Unit(n, i)[..n - 1], strides[..n - 1]);
    } else {
      assert Unit(n, i)[..n - 1] == Unit(n - 1, i);
      DotUnit(n - 1, i, strides[..n - 1]);
    }
  }

  lemma {:induction false} DotOfZeros(coords: seq<nat>, strides: seq<int>)
    requires |coords| == |strides| && forall i :: 0 <= i < |coords| ==> coords[i] == 0
    ensures DotStrides(coords, strides) == 0
  {
    if coords != [] {
      DotOfZeros(coords[..|coords| - 1], strides[..|coords| - 1]);
    }
  }

  lemma {:induction false} DotCongruence(coords: seq<nat>, a: seq<int>, b: seq<int>)
    requires |coords| == |a| == |b| && forall i :: 0 <= i < |coords| ==> coords[i] == 0 || a[i] == b[i]
    ensures DotStrides(coords, a) == DotStrides(coords, b)
  {
    if coords != [] {
      var k := |coords| - 1;
      DotCongruence(coords[..k], a[..k], b[..k]);
    }
  }

  /**
   The plan takes strides from the shape alone. It addresses every element of an operand correctly
   if and only if the operand's strides are row-major on all axes longer than one.
   */
  lemma PlanRightExactly(shape: Shape, strides: seq<int>)
    requires |strides| == |shape| && Positive(shape)
    ensures PlanIsRight(shape, strides) <==> RowMajorWhereUsed(shape, strides)
  {
    if PlanIsRight(shape, strides) {
      forall i | 0 <= i < |shape| && shape[i] > 1 ensures strides[i] == RowMajor(shape)[i] {
        var c := Unit(|shape|, i);
        assert InShape(c, shape);
        DotUnit(|shape|, i, strides);
        DotUnit(|shape|, i, RowMajor(shape));
        DotIsEncode(c, shape);
      }
    }
    if RowMajorWhereUsed(shape, strides) {
      forall c: seq<nat> | InShape(c, shape) ensures DotStrides(c, strides) == Encode(c, shape) {
        forall i | 0 <= i < |c| ensures c[i] == 0 || strides[i] == RowMajor(shape)[i] {
          assert c[i] < shape[i];
        }
        DotCongruence(c, strides, RowMajor(shape));
        DotIsEncode(c, shape);
      }
    }
  }

  /** For such operands every output element combines the two broadcast elements. */
  lemma MappedIsElementwise(a: View, b: View, o: Shape, f: (real, real) -> real, data: seq<real>, l: nat)
    requires a.Valid() && b.Valid() && RowMajorWhereUsed(a.shape, a.strides) && RowMajorWhereUsed(b.shape, b.strides)
    requires Compatible(a.shape, o) && Compatible(b.shape, o) && Mapped(a, b, o, f, data) && l < |data|
    ensures Positive(o)
    ensures var c := Decode(l, o); data[l] == f(a.Logical(Collapse(c, a.shape)), b.Logical(Collapse(c, b.shape)))
  {
    NumelPositive(o);
    DecodeInShape(l, o);
    ReadIsLogical(a, o, l);
    ReadIsLogical(b, o, l);
  }

  lemma RightOffset(shape: Shape, strides: seq<int>, c: seq<nat>)
    requires |strides| == |shape| && RowMajorWhereUsed(shape, strides) && InShape(c, shape)
    ensures DotStrides(c, strides) == Encode(c, shape)
  {
    forall i | 0 <= i < |shape| ensures shape[i] > 0 {
      assert c[i] < shape[i];
    }
    PlanRightExactly(shape, strides);
  }

  lemma ReadIsLogical(v: View, o: Shape, l: nat)
    requires v.Valid() && RowMajorWhereUsed(v.shape, v.strides) && Compatible(v.shape, o) && Positive(o) && l < Numel(o)
    ensures PlanRead(v, o, l) == v.Logical(Collapse(Decode(l, o), v.shape))
  {
    DecodeInShape(l, o);
    CollapseInShape(Decode(l, o), v.shape, o);
    RightOffset(v.shape, v.strides, Collapse(Decode(l, o), v.shape));
  }

  /** A transposed 2 by 2 operand is read in storage order, not in its own. */
  lemma TransposedIsMisread()
    ensures var v := View([1.0, 2.0, 3.0, 4.0], [2, 2], [1, 2], 0);
            v.Covered() && v.Logical([0, 1]) == 3.0 && PlanRead(v, [2, 2], 1) == 2.0
  {
    var v := View([1.0, 2.0, 3.0, 4.0], [2, 2], [1, 2], 0);
    var s: Shape := [2, 2];
    assert s[..1] == [2] && s[..1][..0] == [];
    assert Numel([2, 2]) == 4;
    OriginIdentity(s, 1);
    assert DotStrides([0, 1], [1, 2]) == 2 by {
      assert [0, 1][..1] == [0] && [1, 2][..1] == [1];
      assert DotStrides([0], [1]) == 0;
    }
  }
}
