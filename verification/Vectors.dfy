/**
 Flat gradients. A gradient is a buffer; reading past its end gives zero, so that addition and
 the dot product are total and gradients form a commutative monoid.
 */
module Vectors {
  import opened Sums
  import opened IndexMaps

  type Vec = seq<real>

  function Max(a: nat, b: nat): nat {
    if a >= b then a else b
  }

  function PlusVec(a: Vec, b: Vec): (r: Vec)
    ensures |r| == Max(|a|, |b|) && forall i: int :: At(r, i) == At(a, i) + At(b, i)
  {
    seq(Max(|a|, |b|), i => At(a, i) + At(b, i))
  }

  function Build(n: nat, f: Fn): (r: Vec)
    ensures |r| == n && forall i :: 0 <= i < n ==> r[i] == f(i)
  {
    seq(n, i => f(i))
  }

  function Dot(a: Vec, b: Vec): real {
    Sum(|b|, Times(Buffer(a), Buffer(b)))
  }

  lemma PlusVecCommutes(a: Vec, b: Vec)
    ensures PlusVec(a, b) == PlusVec(b, a)
  {
  }

  lemma PlusVecAssociates(a: Vec, b: Vec, c: Vec)
    ensures PlusVec(PlusVec(a, b), c) == PlusVec(a, PlusVec(b, c))
  {
    var l, r := PlusVec(PlusVec(a, b), c), PlusVec(a, PlusVec(b, c));
    forall i | 0 <= i < |l| ensures l[i] == r[i] {
      assert l[i] == At(l, i) == At(PlusVec(a, b), i) + At(c, i);
      assert r[i] == At(r, i) == At(a, i) + At(PlusVec(b, c), i);
    }
  }

  lemma SplitLeft(a: real, b: real, c: real)
    ensures (a + b) * c == a * c + b * c
  {
  }

  lemma DotAdditive(a: Vec, b: Vec, d: Vec)
    ensures Dot(PlusVec(a, b), d) == Dot(a, d) + Dot(b, d)
  {
    var s := PlusVec(a, b);
    forall i: int ensures Times(Buffer(s), Buffer(d))(i) == Times(Buffer(a), Buffer(d))(i) + Times(Buffer(b), Buffer(d))(i) {
      assert At(s, i) == At(a, i) + At(b, i);
      SplitLeft(At(a, i), At(b, i), At(d, i));
    }
    SumAdd(|d|, Times(Buffer(a), Buffer(d)), Times(Buffer(b), Buffer(d)), Times(Buffer(s), Buffer(d)));
  }

  lemma {:induction false} SumTail(n: nat, m: nat, f: Fn)
    requires n <= m && forall i :: n <= i < m ==> f(i) == 0.0
    ensures Sum(m, f) == Sum(n, f)
  {
    if n < m {
      SumTail(n, m - 1, f);
    }
  }

  lemma TimesZero(a: real, b: real)
    ensures a == 0.0 ==> a * b == 0.0
    ensures b == 0.0 ==> a * b == 0.0
  {
  }

  /** A dot product with a built vector. */
  lemma DotBuild(a: Vec, n: nat, f: Fn)
    ensures Dot(a, Build(n, f)) == Sum(n, Times(Buffer(a), f))
  {
    var b := Build(n, f);
    forall i | 0 <= i < n ensures Times(Buffer(a), Buffer(b))(i) == Times(Buffer(a), f)(i) {
      assert At(b, i) == f(i);
    }
    SumCongruence(n, Times(Buffer(a), Buffer(b)), Times(Buffer(a), f));
  }

  lemma BuildDot(n: nat, f: Fn, d: Vec)
    ensures Dot(Build(n, f), d) == Sum(n, Times(f, Buffer(d)))
  {
    var b := Build(n, f);
    var t := Times(Buffer(b), Buffer(d));
    forall i | 0 <= i && (i >= n || i >= |d|) ensures t(i) == 0.0 {
      TimesZero(At(b, i), At(d, i));
    }
    if n <= |d| {
      SumTail(n, |d|, t);
    } else {
      SumTail(|d|, n, t);
    }
    forall i | 0 <= i < n ensures t(i) == Times(f, Buffer(d))(i) {
      assert At(b, i) == f(i);
    }
    SumCongruence(n, t, Times(f, Buffer(d)));
  }

  function UnitVec(n: nat, k: nat): Vec
    requires k < n
  {
    Build(n, Indicator(Self(), k))
  }

  function Self(): Index {
    i => i
  }

  /** Pairing with a unit vector reads one entry. */
  lemma DotUnit(a: Vec, n: nat, k: nat)
    requires k < n
    ensures Dot(a, UnitVec(n, k)) == At(a, k)
  {
    var u := UnitVec(n, k);
    var t := Times(Buffer(a), Buffer(u));
    forall i | 0 <= i < n && i != k ensures t(i) == 0.0 {
      assert At(u, i) == 0.0;
      TimesZero(At(a, i), At(u, i));
    }
    SumSingle(n, t, k);
    assert At(u, k) == 1.0;
    TimesOneAt(At(a, k), At(u, k));
  }

  // ---- Rows of a flat buffer ----

  lemma {:induction false} SumAppend(n: nat, m: nat, f: Fn, tail: Fn)
    requires forall j :: 0 <= j < m ==> tail(j) == f(n + j)
    ensures Sum(n + m, f) == Sum(n, f) + Sum(m, tail)
  {
    if m > 0 {
      SumAppend(n, m - 1, f, tail);
    }
  }

  function RowAt(n: nat, f: Fn, i: int, j: int): real {
    f(i * n + j)
  }

  /** Row `i` of a flat buffer with rows of `n`. */
  function Slice(f: Fn, n: nat, i: int): Fn {
    j => RowAt(n, f, i, j)
  }

  function RowTotal(n: nat, f: Fn, i: int): real {
    Sum(n, Slice(f, n, i))
  }

  function RowTotals(n: nat, f: Fn): Fn {
    i => RowTotal(n, f, i)
  }

  lemma NextRows(m: nat, n: nat)
    ensures (m + 1) * n == m * n + n
  {
  }

  /** A sum over `m * n` positions is a sum over rows of `n`. */
  lemma {:induction false} FlatSum(m: nat, n: nat, f: Fn)
    ensures Sum(m * n, f) == Sum(m, RowTotals(n, f))
  {
    if m == 0 {
      assert m * n == 0;
    } else {
      FlatSum(m - 1, n, f);
      NextRows(m - 1, n);
      SumAppend((m - 1) * n, n, f, Slice(f, n, m - 1));
    }
  }
}
