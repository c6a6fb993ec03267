/**
 The matrix kernels: the strided triple loop, its transposing and biased compositions, and the
 batched product with its gradients. Each is proved to compute the product that the backward
 rules of the operations are stated with.
 */
module MatrixKernels {
  import opened Sums
  import opened IndexMaps
  import opened Vectors
  import opened Strides
  import opened Tensors
  import opened OpRules
  import M = Matrices
  import B = Broadcasting
  import E = Elementwise
  import P = Parallel

  /** A rank-2 view of shared storage. */
  datatype Matrix = Matrix(storage: seq<real>, rows: nat, cols: nat, rowStride: int, colStride: int, offset: nat) {
    function Position(i: int, j: int): int {
      offset + i * rowStride + j * colStride
    }

    ghost predicate Addressable() {
      forall i, j :: 0 <= i < rows && 0 <= j < cols ==> 0 <= Position(i, j) < |storage|
    }

    function Entries(): Fn2 {
      (i, j) => At(storage, Position(i, j))
    }

    /** Swapping shape and strides. */
    function Transposed(): Matrix {
      Matrix(storage, cols, rows, colStride, rowStride, offset)
    }
  }

  /** A row-major buffer. */
  function Dense(data: seq<real>, rows: nat, cols: nat): Matrix {
    Matrix(data, rows, cols, cols, 1, 0)
  }

  lemma DenseAddressable(data: seq<real>, rows: nat, cols: nat)
    requires |data| == rows * cols
    ensures Dense(data, rows, cols).Addressable()
    ensures M.SameOn(rows, cols, Dense(data, rows, cols).Entries(), Mat(Buffer(data), cols))
  {
    forall i, j | 0 <= i < rows && 0 <= j < cols
      ensures 0 <= Dense(data, rows, cols).Position(i, j) < |data|
    {
      MulBound(i, cols, rows, j);
      MulNonNegative(i, cols);
    }
  }

  lemma TransposedEntries(a: Matrix)
    ensures a.Addressable() ==> a.Transposed().Addressable()
    ensures forall i, j :: a.Transposed().Entries()(i, j) == M.Transpose(a.Entries())(i, j)
  {
    forall i, j ensures a.Transposed().Position(i, j) == a.Position(j, i) {
    }
  }

  /** One entry of the product: the innermost loop. */
  method DotEntry(a: Matrix, b: Matrix, i: nat, j: nat) returns (acc: real)
    requires a.Addressable() && b.Addressable() && a.cols == b.rows && i < a.rows && j < b.cols
    ensures acc == M.Entry(a.cols, a.Entries(), b.Entries(), i, j)
  {
    acc := 0.0;
    for t := 0 to a.cols
      invariant acc == Sum(t, M.EntryTerms(a.Entries(), b.Entries(), i, j))
    {
      var x, y := a.storage[a.Position(i, t)], b.storage[b.Position(t, j)];
      assert x == a.Entries()(i, t) && y == b.Entries()(t, j);
      M.EntryTermAt(a.Entries(), b.Entries(), i, j, t);
      acc := acc + x * y;
    }
  }

  /** `matmul_naive`, on operands of any layout. */
  method MatmulNaive(a: Matrix, b: Matrix) returns (out: seq<real>)
    requires a.Addressable() && b.Addressable() && a.cols == b.rows
    ensures out == Build(a.rows * b.cols, Flat(M.Product(a.cols, a.Entries(), b.Entries()), b.cols))
  {
    var m, n := a.rows, b.cols;
    ghost var f := Flat(M.Product(a.cols, a.Entries(), b.Entries()), n);
    out := seq(m * n, _ => 0.0);
    for i := 0 to m
      invariant |out| == m * n && Filled(out, i * n, f)
    {
      out := FillRow(a, b, i, out);
      NextRow(i, n);
    }
  }

  ghost predicate Filled(out: seq<real>, n: nat, f: Fn) {
    forall l :: 0 <= l < n && l < |out| ==> out[l] == f(l)
  }

  method FillRow(a: Matrix, b: Matrix, i: nat, was: seq<real>) returns (out: seq<real>)
    requires a.Addressable() && b.Addressable() && a.cols == b.rows && i < a.rows && |was| == a.rows * b.cols
    requires Filled(was, i * b.cols, Flat(M.Product(a.cols, a.Entries(), b.Entries()), b.cols))
    ensures |out| == |was| && Filled(out, i * b.cols + b.cols, Flat(M.Product(a.cols, a.Entries(), b.Entries()), b.cols))
  {
    var n, base := b.cols, i * b.cols;
    ghost var f := Flat(M.Product(a.cols, a.Entries(), b.Entries()), n);
    out := was;
    for j := 0 to n
      invariant |out| == |was| && Filled(out, base + j, f)
    {
      MulBound(i, n, a.rows, j);
      var acc := DotEntry(a, b, i, j);
      FlatAt(M.Product(a.cols, a.Entries(), b.Entries()), n, i, j);
      out := out[base + j := acc];
    }
  }

  lemma FlatAt(c: Fn2, n: nat, i: nat, j: nat)
    requires j < n
    ensures i * n + j >= 0 && Flat(c, n)(i * n + j) == c(i, j)
  {
    DivMod(i, n, j);
    MulNonNegative(i, n);
  }

  // ---- Compositions ----

  lemma FlatSame(m: nat, k: nat, n: nat, a: Fn2, b: Fn2, c: Fn2, d: Fn2, l: nat)
    requires M.SameOn(m, k, a, c) && M.SameOn(k, n, b, d) && l < m * n
    ensures Flat(M.Product(k, a, b), n)(l) == Flat(M.Product(k, c, d), n)(l)
  {
    RowOf(l, m, n);
    M.EntryCongruence(k, a, b, l / n, l % n, c, d, l / n, l % n);
  }

  /** The flat product only depends on the entries. */
  lemma FlatCongruence(m: nat, k: nat, n: nat, a: Fn2, b: Fn2, c: Fn2, d: Fn2)
    requires M.SameOn(m, k, a, c) && M.SameOn(k, n, b, d)
    ensures Build(m * n, Flat(M.Product(k, a, b), n)) == Build(m * n, Flat(M.Product(k, c, d), n))
  {
    var f, g := Flat(M.Product(k, a, b), n), Flat(M.Product(k, c, d), n);
    forall l | 0 <= l < m * n ensures f(l) == g(l) {
      FlatSame(m, k, n, a, b, c, d, l);
    }
  }

  lemma RowOf(l: nat, m: nat, n: nat)
    requires l < m * n
    ensures n > 0 && l / n < m && l % n < n
  {
    if n == 0 {
      MulZero(m, n);
    }
    DivBound(l, m, n);
  }

  lemma MulZero(m: nat, n: nat)
    ensures n == 0 ==> m * n == 0
  {
  }

  /** `transpose` of two axes, materialised row-major. */
  method TransposeDense(data: seq<real>, rows: nat, cols: nat) returns (out: seq<real>)
    requires |data| == rows * cols
    ensures out == Build(cols * rows, Flat(M.Transpose(Mat(Buffer(data), cols)), rows))
  {
    var t := Dense(data, rows, cols).Transposed();
    DenseAddressable(data, rows, cols);
    TransposedEntries(Dense(data, rows, cols));
    out := Materialise(t);
    forall l | 0 <= l < cols * rows ensures Flat(t.Entries(), rows)(l) == Flat(M.Transpose(Mat(Buffer(data), cols)), rows)(l) {
      RowOf(l, cols, rows);
      assert t.Entries()(l / rows, l % rows) == Mat(Buffer(data), cols)(l % rows, l / rows);
    }
  }

  /** `contiguous`: the elements of a view in row-major order. */
  method Materialise(v: Matrix) returns (out: seq<real>)
    requires v.Addressable()
    ensures out == Build(v.rows * v.cols, Flat(v.Entries(), v.cols))
  {
    out := [];
    for l := 0 to v.rows * v.cols
      invariant |out| == l && Filled(out, l, Flat(v.Entries(), v.cols))
    {
      RowOf(l, v.rows, v.cols);
      var i, j := l / v.cols, l % v.cols;
      assert Flat(v.Entries(), v.cols)(l) == v.Entries()(i, j);
      out := out + [v.storage[v.Position(i, j)]];
    }
  }

  /** The matrix that an operand contributes, transposed or not. */
  function Effective(data: seq<real>, cols: nat, transposed: bool): Fn2 {
    if transposed then M.Transpose(Mat(Buffer(data), cols)) else Mat(Buffer(data), cols)
  }

  method EffectiveOperand(data: seq<real>, rows: nat, cols: nat, transposed: bool) returns (out: Matrix)
    requires |data| == rows * cols
    ensures out.Addressable() && out.rows == (if transposed then cols else rows) && out.cols == (if transposed then rows else cols)
    ensures M.SameOn(out.rows, out.cols, out.Entries(), Effective(data, cols, transposed))
  {
    if transposed {
      var t := TransposeDense(data, rows, cols);
      out := Dense(t, cols, rows);
      DenseAddressable(t, cols, rows);
      forall i, j | 0 <= i < cols && 0 <= j < rows ensures out.Entries()(i, j) == Effective(data, cols, true)(i, j) {
        MulBound(i, rows, cols, j);
        FlatAt(M.Transpose(Mat(Buffer(data), cols)), rows, i, j);
      }
    } else {
      out := Dense(data, rows, cols);
      DenseAddressable(data, rows, cols);
    }
  }

  /** `matmul_with_transposes`: `op(a) @ op(b)`, refused when the inner dimensions differ. */
  method MatmulWithTransposes(a: seq<real>, ar: nat, ac: nat, b: seq<real>, br: nat, bc: nat, ta: bool, tb: bool) returns (r: Result<Tensor>)
    requires |a| == ar * ac && |b| == br * bc
    ensures var (m, k) := if ta then (ac, ar) else (ar, ac);
            var (k2, n) := if tb then (bc, br) else (br, bc);
            r == if k != k2 then Err(ShapeMismatch)
                 else Ok(Tensor([m, n], Build(m * n, Flat(M.Product(k, Effective(a, ac, ta), Effective(b, bc, tb)), n))))
  {
    var x := EffectiveOperand(a, ar, ac, ta);
    var y := EffectiveOperand(b, br, bc, tb);
    if x.cols != y.rows {
      return Err(ShapeMismatch);
    }
    var out := MatmulNaive(x, y);
    FlatCongruence(x.rows, x.cols, y.cols, x.Entries(), y.Entries(), Effective(a, ac, ta), Effective(b, bc, tb));
    return Ok(Tensor([x.rows, y.cols], out));
  }

  /** `MatMulBackward::apply`: the two transposing products are the gradients of the adjoint rule. */
  method MatMulBackward(m: nat, k: nat, n: nat, g: seq<real>, lhs: seq<real>, rhs: seq<real>) returns (dl: seq<real>, dr: seq<real>)
    requires |g| == m * n && |lhs| == m * k && |rhs| == k * n
    ensures dl == Build(m * k, LeftGrad(m, k, n, Buffer(g), Buffer(rhs)))
    ensures dr == Build(k * n, RightGrad(m, k, n, Buffer(g), Buffer(lhs)))
  {
    var l := MatmulWithTransposes(g, m, n, rhs, k, n, false, true);
    var r := MatmulWithTransposes(lhs, m, k, g, m, n, true, false);
    dl, dr := l.value.data, r.value.data;
  }

  /** Every row of `n` with the bias added. */
  function Biased(x: Fn, n: nat, bias: seq<real>): Fn {
    l => x(l) + At(bias, BiasMap(n)(l))
  }

  lemma BiasedAt(x: seq<real>, m: nat, n: nat, bias: seq<real>, b: nat, j: nat)
    requires |x| == m * n && |bias| == n && b < m && j < n
    ensures 0 <= b * n + j < |x| && Biased(Buffer(x), n, bias)(b * n + j) == x[b * n + j] + bias[j]
  {
    MulBound(b, n, m, j);
    MulNonNegative(b, n);
    BiasIndex(n, b * n + j, b, j);
  }

  lemma BiasIndex(n: nat, l: nat, b: nat, j: nat)
    requires j < n && l == b * n + j
    ensures BiasMap(n)(l) == j
  {
    DivMod(b, n, j);
  }

  /** `add_bias`: the bias is added to every row. */
  method AddBias(x: seq<real>, m: nat, n: nat, bias: seq<real>) returns (out: seq<real>)
    requires |x| == m * n && |bias| == n
    ensures out == Build(m * n, Biased(Buffer(x), n, bias))
  {
    out := seq(|x|, _ => 0.0);
    for b := 0 to m
      invariant |out| == |x| && Filled(out, b * n, Biased(Buffer(x), n, bias))
    {
      out := AddBiasRow(x, m, n, bias, b, out);
    }
    FilledIsBuild(out, |x|, Biased(Buffer(x), n, bias));
  }

  lemma FilledIsBuild(out: seq<real>, n: nat, f: Fn)
    requires |out| == n && Filled(out, n, f)
    ensures out == Build(n, f)
  {
  }

  /** Row `b`. */
  method AddBiasRow(x: seq<real>, m: nat, n: nat, bias: seq<real>, b: nat, was: seq<real>) returns (out: seq<real>)
    requires |x| == m * n && |bias| == n && b < m && |was| == |x| && Filled(was, b * n, Biased(Buffer(x), n, bias))
    ensures |out| == |x| && Filled(out, (b + 1) * n, Biased(Buffer(x), n, bias))
  {
    out := was;
    var base := b * n;
    for j := 0 to n
      invariant |out| == |x| && Filled(out, base + j, Biased(Buffer(x), n, bias))
    {
      BiasedAt(x, m, n, bias, b, j);
      out := out[base + j := x[base + j] + bias[j]];
    }
    NextRow(b, n);
  }

  // ---- Bias addition on any layout ----

  /** `m` copies of the bias row, for the fallback. */
  method Widen(bias: seq<real>, m: nat) returns (wide: seq<real>)
    ensures wide == Build(m * |bias|, Wide(|bias|, bias))
  {
    wide := [];
    for b := 0 to m
      invariant |wide| == b * |bias| && Filled(wide, |wide|, Wide(|bias|, bias))
    {
      NextRow(b, |bias|);
      WideRow(wide, b, bias);
      wide := wide + bias;
    }
  }

  function Wide(n: nat, bias: seq<real>): Fn {
    l => At(bias, BiasMap(n)(l))
  }

  lemma WideRow(wide: seq<real>, b: nat, bias: seq<real>)
    requires |wide| == b * |bias| && Filled(wide, |wide|, Wide(|bias|, bias))
    ensures Filled(wide + bias, |wide| + |bias|, Wide(|bias|, bias))
  {
    forall l: nat | l < |wide| + |bias| ensures (wide + bias)[l] == Wide(|bias|, bias)(l) {
      if l >= |wide| {
        BiasIndex(|bias|, l, b, l - |wide|);
      }
    }
  }

  /** What `add_bias` reads of its operand for element `l`: the storage from the offset on, in order. */
  function StoredAt(x: E.View, l: int): real {
    At(x.storage, x.offset + l)
  }

  function Stored(x: E.View): Fn {
    l => StoredAt(x, l)
  }

  function AddReal(a: real, b: real): real {
    a + b
  }

  lemma BiasedTerm(x: Fn, n: nat, bias: seq<real>, l: int)
    ensures Biased(x, n, bias)(l) == x(l) + Wide(n, bias)(l)
  {
  }

  lemma SliceIsStored(x: E.View, k: nat, l: nat)
    requires x.offset == 0 && l < k <= |x.storage|
    ensures Buffer(x.storage[..k])(l) == Stored(x)(l)
  {
    assert Stored(x)(l) == StoredAt(x, l);
  }

  lemma SameBiased(x: E.View, k: nat, bias: seq<real>)
    requires x.offset == 0 && k <= |x.storage|
    ensures Build(k, Biased(Buffer(x.storage[..k]), |bias|, bias)) == Build(k, Biased(Stored(x), |bias|, bias))
  {
    var f, g := Biased(Buffer(x.storage[..k]), |bias|, bias), Biased(Stored(x), |bias|, bias);
    forall l | 0 <= l < k ensures f(l) == g(l) {
      BiasedTerm(Buffer(x.storage[..k]), |bias|, bias, l);
      BiasedTerm(Stored(x), |bias|, bias, l);
      SliceIsStored(x, k, l);
    }
  }

  /** A shape is its own join. */
  lemma OwnJoin(s: Shape)
    ensures B.Compatible(s, s)
    ensures forall o :: B.IsJoin(s, s, o) ==> o == s
  {
    assert B.IsJoin(s, s, s);
    forall o | B.IsJoin(s, s, o) ensures o == s {
      B.JoinUnique(s, s, o, s);
    }
  }

  lemma OwnRead(v: E.View, l: nat)
    requires l < Numel(v.shape)
    ensures E.PlanRead(v, v.shape, l) == StoredAt(v, l)
  {
    B.OriginIdentity(v.shape, l);
  }

  /** The widened bias, read in order. */
  predicate IsWidened(w: E.View, shape: Shape, bias: seq<real>) {
    w.shape == shape && w.offset == 0 && w.storage == Build(Numel(shape), Wide(|bias|, bias))
  }

  lemma MappedAt(x: E.View, w: E.View, bias: seq<real>, l: nat)
    requires IsWidened(w, x.shape, bias) && l < Numel(x.shape)
    ensures AddReal(E.PlanRead(x, x.shape, l), E.PlanRead(w, x.shape, l)) == Biased(Stored(x), |bias|, bias)(l)
  {
    OwnRead(x, l);
    OwnRead(w, l);
    BiasedTerm(Stored(x), |bias|, bias, l);
    assert StoredAt(w, l) == w.storage[l];
  }

  lemma MappedIsBiased(x: E.View, w: E.View, bias: seq<real>, data: seq<real>)
    requires IsWidened(w, x.shape, bias) && E.Mapped(x, w, x.shape, AddReal, data)
    ensures data == Build(Numel(x.shape), Biased(Stored(x), |bias|, bias))
  {
    var f := Biased(Stored(x), |bias|, bias);
    forall l | 0 <= l < |data| ensures data[l] == f(l) {
      MappedAt(x, w, bias, l);
    }
  }

  /** The fallback adds the bias to the tensor's own elements when its strides are row-major wherever they matter. */
  lemma BiasedIsLogical(x: E.View, bias: seq<real>, r: nat, c: nat, l: nat)
    requires x.Valid() && |x.shape| == 2 && x.shape[1] == |bias| && r < x.shape[0] && c < x.shape[1]
    requires E.RowMajorWhereUsed(x.shape, x.strides) && l == r * x.shape[1] + c
    ensures Biased(Stored(x), |bias|, bias)(l) == x.Logical([r, c]) + bias[c]
  {
    EncodePair(r, c, x.shape);
    assert InShape([r, c], x.shape);
    E.RightOffset(x.shape, x.strides, [r, c]);
    BiasIndex(|bias|, l, r, c);
    BiasedTerm(Stored(x), |bias|, bias, l);
    assert x.Logical([r, c]) == StoredAt(x, l);
  }

  /** `add_bias` on any layout: a contiguous tensor is read as a slice, any other goes through `add` with a widened bias. */
  method AddBiasView(x: E.View, bias: seq<real>, order: seq<nat>) returns (r: Result<Tensor>)
    requires x.Valid()
    requires Numel(x.shape) >= E.PARALLEL_THRESHOLD ==> P.Schedule(order, P.DivCeil(Numel(x.shape), E.CHUNK))
    ensures |x.shape| != 2 || x.shape[1] != |bias| ==> r == Err(ShapeMismatch)
    ensures |x.shape| == 2 && x.shape[1] == |bias| ==>
              if !Positive(x.shape) || x.Covered()
              then r == Ok(Tensor(x.shape, Build(Numel(x.shape), Biased(Stored(x), |bias|, bias))))
              else r == Err(Panicked)
  {
    if |x.shape| != 2 || x.shape[1] != |bias| {
      return Err(ShapeMismatch);
    }
    var m, n := x.shape[0], x.shape[1];
    NumelPair(x.shape);
    NumelPositive(x.shape);
    if x.Contiguous() {
      if m * n > |x.storage| {
        return Err(Panicked);
      }
      var out := AddBias(x.storage[..m * n], m, n, bias);
      SameBiased(x, m * n, bias);
      return Ok(Tensor(x.shape, out));
    }
    var wide := Widen(bias, m);
    var w := E.View(wide, x.shape, RowMajor(x.shape), 0);
    r := E.MapBinary(x, w, AddReal, order);
    OwnJoin(x.shape);
    if r.Ok? {
      MappedIsBiased(x, w, bias, r.value.data);
    }
  }

  /** `matmul_with_bias`: `matmul` then `add_bias`. */
  method MatmulWithBias(a: seq<real>, m: nat, k: nat, b: seq<real>, n: nat, bias: seq<real>) returns (out: seq<real>)
    requires |a| == m * k && |b| == k * n && |bias| == n
    ensures out == Build(m * n, Biased(Flat(M.Product(k, Mat(Buffer(a), k), Mat(Buffer(b), n)), n), n, bias))
  {
    var mm := MatmulWithTransposes(a, m, k, b, k, n, false, false);
    out := AddBias(mm.value.data, m, n, bias);
  }

  // ---- Batched products ----

  /** Batch element `i` of a buffer of `rows` by `cols` matrices, addressed in place. */
  function Block(data: seq<real>, rows: nat, cols: nat, i: nat): Matrix {
    Matrix(data, rows, cols, cols, 1, i * (rows * cols))
  }

  lemma BlockIs(data: seq<real>, b: nat, rows: nat, cols: nat, i: nat)
    requires |data| == b * (rows * cols) && i < b
    ensures Block(data, rows, cols, i).Addressable()
    ensures M.SameOn(rows, cols, Block(data, rows, cols, i).Entries(), Mat(Slice(Buffer(data), rows * cols, i), cols))
  {
    var size := rows * cols;
    NextRow(i, size);
    MulMonotone(i + 1, b, size);
    forall r, c | 0 <= r < rows && 0 <= c < cols
      ensures 0 <= Block(data, rows, cols, i).Position(r, c) < |data|
      ensures Block(data, rows, cols, i).Position(r, c) == i * size + (r * cols + c)
    {
      MulBound(r, cols, rows, c);
      MulNonNegative(r, cols);
    }
  }

  lemma StackFilled(out: seq<real>, size: nat, i: nat, f: int -> Fn, part: seq<real>)
    requires Filled(out, i * size, Stack(size, f)) && |out| == i * size
    requires |part| == size && Filled(part, size, f(i))
    ensures |out + part| == (i + 1) * size && Filled(out + part, (i + 1) * size, Stack(size, f))
  {
    NextRow(i, size);
    forall l | 0 <= l < (i + 1) * size ensures (out + part)[l] == Stack(size, f)(l) {
      if l >= i * size {
        StackAt(size, f, i, l - i * size);
      }
    }
  }

  /** The forward product of every batch element. */
  function BatchedProduct(m: nat, k: nat, n: nat, a: Fn, b: Fn): Fn {
    Stack(m * n, FlatProducts(m, k, n, a, b))
  }

  function FlatProduct(k: nat, n: nat, a: Fn, b: Fn): Fn {
    Flat(M.Product(k, Mat(a, k), Mat(b, n)), n)
  }

  function FlatProducts(m: nat, k: nat, n: nat, a: Fn, b: Fn): int -> Fn {
    i => FlatProduct(k, n, Slice(a, m * k, i), Slice(b, k * n, i))
  }

  /** Element `(r, c)` of a flat product: row `r` of the left operand times column `c` of the right one. */
  lemma FlatEntry(k: nat, n: nat, a: Fn, b: Fn, r: nat, c: nat, f: Fn)
    requires c < n && forall t :: 0 <= t < k ==> f(t) == a(r * k + t) * b(t * n + c)
    ensures FlatProduct(k, n, a, b)(r * n + c) == Sum(k, f)
  {
    FlatAt(M.Product(k, Mat(a, k), Mat(b, n)), n, r, c);
    M.EntryIsSum(k, Mat(a, k), Mat(b, n), r, c, f);
  }

  /** Element `(r, c)` of batch element `i`: its own left operand times its own right operand. */
  lemma BatchedEntry(m: nat, k: nat, n: nat, a: Fn, b: Fn, i: nat, r: nat, c: nat, f: Fn)
    requires r < m && c < n
    requires forall t :: 0 <= t < k ==> f(t) == Slice(a, m * k, i)(r * k + t) * Slice(b, k * n, i)(t * n + c)
    ensures BatchedProduct(m, k, n, a, b)(i * (m * n) + (r * n + c)) == Sum(k, f)
  {
    MulBound(r, n, m, c);
    StackAt(m * n, FlatProducts(m, k, n, a, b), i, r * n + c);
    FlatEntry(k, n, Slice(a, m * k, i), Slice(b, k * n, i), r, c, f);
  }

  /** Batch element `i` of a buffer starts after the `i` elements of size `size` before it. */
  lemma SliceStarts(f: Fn, size: nat, i: int, l: int)
    ensures Slice(f, size, i)(l) == f(i * size + l)
  {
  }

  /** `bmm_impl`. */
  method Bmm(b: nat, m: nat, k: nat, n: nat, lhs: seq<real>, rhs: seq<real>) returns (out: seq<real>)
    requires |lhs| == b * (m * k) && |rhs| == b * (k * n)
    ensures out == Build(b * (m * n), BatchedProduct(m, k, n, Buffer(lhs), Buffer(rhs)))
  {
    ghost var f := FlatProducts(m, k, n, Buffer(lhs), Buffer(rhs));
    out := [];
    for i := 0 to b
      invariant |out| == i * (m * n) && Filled(out, i * (m * n), Stack(m * n, f))
    {
      BlockIs(lhs, b, m, k, i);
      BlockIs(rhs, b, k, n, i);
      var x, y := Block(lhs, m, k, i), Block(rhs, k, n, i);
      var part := MatmulNaive(x, y);
      FlatCongruence(m, k, n, x.Entries(), y.Entries(), Mat(Slice(Buffer(lhs), m * k, i), k), Mat(Slice(Buffer(rhs), k * n, i), n));
      StackFilled(out, m * n, i, f, part);
      out := out + part;
    }
  }

  /** `bmm_grad_inputs`: per batch element, `grad @ rhsᵀ` and `lhsᵀ @ grad`, read through swapped strides. */
  method BmmGradInputs(b: nat, m: nat, k: nat, n: nat, g: seq<real>, lhs: seq<real>, rhs: seq<real>) returns (da: seq<real>, db: seq<real>)
    requires |g| == b * (m * n) && |lhs| == b * (m * k) && |rhs| == b * (k * n)
    ensures da == Build(b * (m * k), BmmLeft(m, k, n, Buffer(g), Buffer(rhs)))
    ensures db == Build(b * (k * n), BmmRight(m, k, n, Buffer(g), Buffer(lhs)))
  {
    ghost var lefts := LeftGrads(m, k, n, Buffer(g), Buffer(rhs));
    ghost var rights := RightGrads(m, k, n, Buffer(g), Buffer(lhs));
    da, db := [], [];
    for i := 0 to b
      invariant |da| == i * (m * k) && Filled(da, i * (m * k), Stack(m * k, lefts))
      invariant |db| == i * (k * n) && Filled(db, i * (k * n), Stack(k * n, rights))
    {
      BlockIs(g, b, m, n, i);
      BlockIs(lhs, b, m, k, i);
      BlockIs(rhs, b, k, n, i);
      var dl, dr := BlockGrads(m, k, n, Block(g, m, n, i), Block(lhs, m, k, i), Block(rhs, k, n, i),
                               Slice(Buffer(g), m * n, i), Slice(Buffer(lhs), m * k, i), Slice(Buffer(rhs), k * n, i));
      StackFilled(da, m * k, i, lefts, dl);
      StackFilled(db, k * n, i, rights, dr);
      da, db := da + dl, db + dr;
    }
  }

  /** The two gradients of one batch element. */
  method BlockGrads(m: nat, k: nat, n: nat, g: Matrix, x: Matrix, y: Matrix, ghost gf: Fn, ghost xf: Fn, ghost yf: Fn)
    returns (dl: seq<real>, dr: seq<real>)
    requires g.Addressable() && g.rows == m && g.cols == n && M.SameOn(m, n, g.Entries(), Mat(gf, n))
    requires x.Addressable() && x.rows == m && x.cols == k && M.SameOn(m, k, x.Entries(), Mat(xf, k))
    requires y.Addressable() && y.rows == k && y.cols == n && M.SameOn(k, n, y.Entries(), Mat(yf, n))
    ensures dl == Build(m * k, LeftGrad(m, k, n, gf, yf)) && dr == Build(k * n, RightGrad(m, k, n, gf, xf))
  {
    TransposedEntries(x);
    TransposedEntries(y);
    dl := MatmulNaive(g, y.Transposed());
    FlatCongruence(m, n, k, g.Entries(), y.Transposed().Entries(), Mat(gf, n), M.Transpose(Mat(yf, n)));
    dr := MatmulNaive(x.Transposed(), g);
    FlatCongruence(k, m, n, x.Transposed().Entries(), g.Entries(), M.Transpose(Mat(xf, k)), Mat(gf, n));
  }
}
