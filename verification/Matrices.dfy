/**
 Matrices as index functions, the pairing `Inner`, and the adjoints of the matrix products.
 These are the identities behind every matrix-valued backward rule.
 */
module Matrices {
  import opened Sums

  /** Entry `(i, j)` of the product of `a` and `b` over inner length `k`. */
  function Entry(k: nat, a: Fn2, b: Fn2, i: int, j: int): real {
    Sum(k, EntryTerms(a, b, i, j))
  }

  function EntryTerms(a: Fn2, b: Fn2, i: int, j: int): Fn {
    Times(RowFn(a, i), ColumnFn(b, j))
  }

  lemma EntryTermAt(a: Fn2, b: Fn2, i: int, j: int, t: int)
    ensures EntryTerms(a, b, i, j)(t) == a(i, t) * b(t, j)
  {
    assert RowFn(a, i)(t) == a(i, t) && ColumnFn(b, j)(t) == b(t, j);
  }

  /** An entry of the product is the sum of the products along the inner axis. */
  lemma EntryIsSum(k: nat, a: Fn2, b: Fn2, i: int, j: int, f: Fn)
    requires forall t :: 0 <= t < k ==> f(t) == a(i, t) * b(t, j)
    ensures Entry(k, a, b, i, j) == Sum(k, f)
  {
    forall t | 0 <= t < k ensures EntryTerms(a, b, i, j)(t) == f(t) {
      EntryTermAt(a, b, i, j, t);
    }
    SumCongruence(k, EntryTerms(a, b, i, j), f);
  }

  function Product(k: nat, a: Fn2, b: Fn2): Fn2 {
    (i, j) => Entry(k, a, b, i, j)
  }

  function Transpose(a: Fn2): Fn2 {
    (i, j) => a(j, i)
  }

  function Plus(a: Fn2, b: Fn2): Fn2 {
    (i, j) => a(i, j) + b(i, j)
  }

  function Scaled(c: real, a: Fn2): Fn2 {
    (i, j) => c * a(i, j)
  }

  function RowInner(m: nat, a: Fn2, b: Fn2, i: int): real {
    Sum(m, Times(RowFn(a, i), RowFn(b, i)))
  }

  function RowInners(m: nat, a: Fn2, b: Fn2): Fn {
    i => RowInner(m, a, b, i)
  }

  /** Sum of the entrywise products of two `n` by `m` matrices. */
  function Inner(n: nat, m: nat, a: Fn2, b: Fn2): real {
    Sum(n, RowInners(m, a, b))
  }

  ghost predicate SameOn(n: nat, m: nat, a: Fn2, b: Fn2) {
    forall i, j :: 0 <= i < n && 0 <= j < m ==> a(i, j) == b(i, j)
  }

  lemma InnerRows(n: nat, m: nat, a: Fn2, b: Fn2, k: nat, c: Fn2, d: Fn2)
    requires forall i :: 0 <= i < n ==> RowInner(m, a, b, i) == RowInner(k, c, d, i)
    ensures Inner(n, m, a, b) == Inner(n, k, c, d)
  {
    SumCongruence(n, RowInners(m, a, b), RowInners(k, c, d));
  }

  lemma EntryCongruence(k: nat, a: Fn2, b: Fn2, i: int, j: int, c: Fn2, d: Fn2, x: int, y: int)
    requires forall t :: 0 <= t < k ==> a(i, t) == c(x, t) && b(t, j) == d(t, y)
    ensures Entry(k, a, b, i, j) == Entry(k, c, d, x, y)
  {
    SumCongruence(k, EntryTerms(a, b, i, j), EntryTerms(c, d, x, y));
  }

  lemma InnerCongruence(n: nat, m: nat, a: Fn2, b: Fn2, c: Fn2, d: Fn2)
    requires SameOn(n, m, a, c) && SameOn(n, m, b, d)
    ensures Inner(n, m, a, b) == Inner(n, m, c, d)
  {
    forall i | 0 <= i < n ensures RowInner(m, a, b, i) == RowInner(m, c, d, i) {
      SumCongruence(m, Times(RowFn(a, i), RowFn(b, i)), Times(RowFn(c, i), RowFn(d, i)));
    }
    InnerRows(n, m, a, b, m, c, d);
  }

  lemma Distribute(g: real, a: real, b: real)
    ensures g * (a + b) == g * a + g * b
  {
  }

  lemma RowPlus(m: nat, g: Fn2, a: Fn2, b: Fn2, i: int)
    ensures RowInner(m, g, Plus(a, b), i) == RowInner(m, g, a, i) + RowInner(m, g, b, i)
  {
    var both := Times(RowFn(g, i), RowFn(Plus(a, b), i));
    forall j: int ensures both(j) == Times(RowFn(g, i), RowFn(a, i))(j) + Times(RowFn(g, i), RowFn(b, i))(j) {
      Distribute(g(i, j), a(i, j), b(i, j));
    }
    SumAdd(m, Times(RowFn(g, i), RowFn(a, i)), Times(RowFn(g, i), RowFn(b, i)), both);
  }

  lemma InnerPlus(n: nat, m: nat, g: Fn2, a: Fn2, b: Fn2)
    ensures Inner(n, m, g, Plus(a, b)) == Inner(n, m, g, a) + Inner(n, m, g, b)
  {
    forall i: int ensures RowInners(m, g, Plus(a, b))(i) == RowInners(m, g, a)(i) + RowInners(m, g, b)(i) {
      RowPlus(m, g, a, b, i);
    }
    SumAdd(n, RowInners(m, g, a), RowInners(m, g, b), RowInners(m, g, Plus(a, b)));
  }

  lemma InnerCommutes(n: nat, m: nat, a: Fn2, b: Fn2)
    ensures Inner(n, m, a, b) == Inner(n, m, b, a)
  {
    forall i | 0 <= i < n ensures RowInner(m, a, b, i) == RowInner(m, b, a, i) {
      TimesCommute(m, RowFn(a, i), RowFn(b, i));
    }
    InnerRows(n, m, a, b, m, b, a);
  }

  lemma Regroup(g: real, c: real, a: real)
    ensures g * (c * a) == c * (g * a)
  {
  }

  lemma RowScaled(m: nat, c: real, g: Fn2, a: Fn2, i: int)
    ensures RowInner(m, g, Scaled(c, a), i) == c * RowInner(m, g, a, i)
  {
    var scaled, plain := Times(RowFn(g, i), RowFn(Scaled(c, a), i)), Times(RowFn(g, i), RowFn(a, i));
    forall j: int ensures scaled(j) == c * plain(j) {
      Regroup(g(i, j), c, a(i, j));
    }
    SumScale(m, c, plain, scaled);
  }

  lemma InnerScaled(n: nat, m: nat, c: real, g: Fn2, a: Fn2)
    ensures Inner(n, m, g, Scaled(c, a)) == c * Inner(n, m, g, a)
  {
    var scaled, plain := RowInners(m, g, Scaled(c, a)), RowInners(m, g, a);
    forall i: int ensures scaled(i) == c * plain(i) {
      RowScaled(m, c, g, a, i);
    }
    SumScale(n, c, plain, scaled);
  }

  /** Entrywise product. */
  function Hadamard(a: Fn2, b: Fn2): Fn2 {
    (i, j) => a(i, j) * b(i, j)
  }

  lemma HadamardRow(m: nat, a: Fn2, b: Fn2, i: int)
    ensures RowInner(m, a, b, i) == RowSum(m, Hadamard(a, b), i)
  {
    SumCongruence(m, Times(RowFn(a, i), RowFn(b, i)), RowFn(Hadamard(a, b), i));
  }

  lemma HadamardColumn(n: nat, a: Fn2, b: Fn2, j: int)
    ensures RowInner(n, Transpose(a), Transpose(b), j) == ColSum(n, Hadamard(a, b), j)
  {
    SumCongruence(n, Times(RowFn(Transpose(a), j), RowFn(Transpose(b), j)), ColumnFn(Hadamard(a, b), j));
  }

  lemma InnerTranspose(n: nat, m: nat, a: Fn2, b: Fn2)
    ensures Inner(n, m, a, b) == Inner(m, n, Transpose(a), Transpose(b))
  {
    var h := Hadamard(a, b);
    SumSwap(n, m, h);
    forall i: int ensures RowInners(m, a, b)(i) == RowSums(m, h)(i) {
      HadamardRow(m, a, b, i);
    }
    SumCongruence(n, RowInners(m, a, b), RowSums(m, h));
    forall j: int ensures RowInners(n, Transpose(a), Transpose(b))(j) == ColSums(n, h)(j) {
      HadamardColumn(n, a, b, j);
    }
    SumCongruence(m, RowInners(n, Transpose(a), Transpose(b)), ColSums(n, h));
  }

  /** The terms that both sides of the adjoint identity sum, over `j` and `t`. */
  function Triple(g: Fn2, a: Fn2, b: Fn2, i: int): Fn2 {
    (j, t) => TripleAt(g(i, j), a(i, t), b(t, j))
  }

  function TripleAt(x: real, y: real, z: real): real {
    x * y * z
  }

  lemma TripleForms(x: real, y: real, z: real)
    ensures TripleAt(x, y, z) == x * (y * z)
    ensures TripleAt(x, y, z) == y * (x * z)
  {
  }

  lemma ForwardTerm(k: nat, g: Fn2, a: Fn2, b: Fn2, i: int, j: int)
    ensures g(i, j) * Entry(k, a, b, i, j) == RowSum(k, Triple(g, a, b, i), j)
  {
    var terms, triples := EntryTerms(a, b, i, j), RowFn(Triple(g, a, b, i), j);
    forall t: int ensures triples(t) == g(i, j) * terms(t) {
      TripleForms(g(i, j), a(i, t), b(t, j));
    }
    SumScale(k, g(i, j), terms, triples);
  }

  lemma BackwardTerm(m: nat, g: Fn2, a: Fn2, b: Fn2, i: int, t: int)
    ensures Entry(m, g, Transpose(b), i, t) * a(i, t) == ColSum(m, Triple(g, a, b, i), t)
  {
    var terms, triples := EntryTerms(g, Transpose(b), i, t), ColumnFn(Triple(g, a, b, i), t);
    forall j: int ensures triples(j) == a(i, t) * terms(j) {
      TripleForms(g(i, j), a(i, t), b(t, j));
    }
    SumScale(m, a(i, t), terms, triples);
    Swap(a(i, t), Entry(m, g, Transpose(b), i, t));
  }

  lemma RowAdjoint(m: nat, k: nat, g: Fn2, a: Fn2, b: Fn2, i: int)
    ensures RowInner(m, g, Product(k, a, b), i) == RowInner(k, Product(m, g, Transpose(b)), a, i)
  {
    var h := Triple(g, a, b, i);
    var forward, backward := Times(RowFn(g, i), RowFn(Product(k, a, b), i)), Times(RowFn(Product(m, g, Transpose(b)), i), RowFn(a, i));
    forall j: int ensures forward(j) == RowSums(k, h)(j) {
      ForwardTerm(k, g, a, b, i, j);
    }
    SumCongruence(m, forward, RowSums(k, h));
    forall t: int ensures backward(t) == ColSums(m, h)(t) {
      BackwardTerm(m, g, a, b, i, t);
    }
    SumCongruence(k, backward, ColSums(m, h));
    SumSwap(m, k, h);
  }

  /** `<G, A B> = <G Bᵀ, A>`. */
  lemma LeftAdjoint(n: nat, k: nat, m: nat, g: Fn2, a: Fn2, b: Fn2)
    ensures Inner(n, m, g, Product(k, a, b)) == Inner(n, k, Product(m, g, Transpose(b)), a)
  {
    forall i | 0 <= i < n
      ensures RowInner(m, g, Product(k, a, b), i) == RowInner(k, Product(m, g, Transpose(b)), a, i)
    {
      RowAdjoint(m, k, g, a, b, i);
    }
    InnerRows(n, m, g, Product(k, a, b), k, Product(m, g, Transpose(b)), a);
  }

  /** `(A B)ᵀ = Bᵀ Aᵀ`, entry by entry. */
  lemma EntryTranspose(k: nat, a: Fn2, b: Fn2, i: int, j: int)
    ensures Entry(k, a, b, i, j) == Entry(k, Transpose(b), Transpose(a), j, i)
  {
    TimesCommute(k, RowFn(a, i), ColumnFn(b, j));
    SumCongruence(k, Times(ColumnFn(b, j), RowFn(a, i)), EntryTerms(Transpose(b), Transpose(a), j, i));
  }

  lemma TransposeTwice(n: nat, a: Fn2, g: Fn2, i: int, j: int)
    ensures Entry(n, g, Transpose(Transpose(a)), i, j) == Entry(n, g, a, i, j)
  {
    EntryCongruence(n, g, Transpose(Transpose(a)), i, j, g, a, i, j);
  }

  /** `<G, A B> = <Aᵀ G, B>`. */
  lemma RightAdjoint(n: nat, k: nat, m: nat, g: Fn2, a: Fn2, b: Fn2)
    ensures Inner(n, m, g, Product(k, a, b)) == Inner(k, m, Product(n, Transpose(a), g), b)
  {
    var at, bt, gt := Transpose(a), Transpose(b), Transpose(g);
    var ab, btat := Product(k, a, b), Product(k, bt, at);
    InnerTranspose(n, m, g, ab);
    forall i, j | 0 <= i < m && 0 <= j < n ensures Transpose(ab)(i, j) == btat(i, j) {
      EntryTranspose(k, a, b, j, i);
    }
    InnerCongruence(m, n, gt, Transpose(ab), gt, btat);
    LeftAdjoint(m, k, n, gt, bt, at);
    RightReshape(n, k, m, g, a, b);
  }

  lemma RightReshape(n: nat, k: nat, m: nat, g: Fn2, a: Fn2, b: Fn2)
    ensures Inner(m, k, Product(n, Transpose(g), Transpose(Transpose(a))), Transpose(b))
         == Inner(k, m, Product(n, Transpose(a), g), b)
  {
    var left, right := Product(n, Transpose(g), Transpose(Transpose(a))), Product(n, Transpose(a), g);
    InnerTranspose(k, m, right, b);
    forall i, j | 0 <= i < m && 0 <= j < k ensures left(i, j) == Transpose(right)(i, j) {
      EntryTranspose(n, Transpose(a), g, j, i);
    }
    InnerCongruence(m, k, left, Transpose(b), Transpose(right), Transpose(b));
  }
}
