/** Finite sums of reals over an index range, and total access to buffers. */
module Sums {
  type Fn = int -> real
  type Fn2 = (int, int) -> real

  function Sum(n: nat, f: Fn): real {
    if n == 0 then 0.0 else Sum(n - 1, f) + f(n - 1)
  }

  /** Buffer access that is zero out of range. */
  function At(s: seq<real>, i: int): real {
    if 0 <= i < |s| then s[i] else 0.0
  }

  lemma {:induction false} SumCongruence(n: nat, f: Fn, g: Fn)
    requires forall i :: 0 <= i < n ==> f(i) == g(i)
    ensures Sum(n, f) == Sum(n, g)
  {
    if n > 0 {
      SumCongruence(n - 1, f, g);
    }
  }

  lemma {:induction false} SumAdd(n: nat, f: Fn, g: Fn, h: Fn)
    requires forall i :: 0 <= i < n ==> h(i) == f(i) + g(i)
    ensures Sum(n, h) == Sum(n, f) + Sum(n, g)
  {
    if n > 0 {
      SumAdd(n - 1, f, g, h);
    }
  }

  lemma {:induction false} SumScale(n: nat, c: real, f: Fn, h: Fn)
    requires forall i :: 0 <= i < n ==> h(i) == c * f(i)
    ensures Sum(n, h) == c * Sum(n, f)
  {
    if n > 0 {
      SumScale(n - 1, c, f, h);
    }
  }

  lemma {:induction false} SumLinear(n: nat, c: real, f: Fn, g: Fn, h: Fn)
    requires forall i :: 0 <= i < n ==> h(i) == f(i) + c * g(i)
    ensures Sum(n, h) == Sum(n, f) + c * Sum(n, g)
  {
    if n > 0 {
      SumLinear(n - 1, c, f, g, h);
      assert c * Sum(n, g) == c * Sum(n - 1, g) + c * g(n - 1);
    }
  }

  lemma {:induction false} SumZero(n: nat, f: Fn)
    requires forall i :: 0 <= i < n ==> f(i) == 0.0
    ensures Sum(n, f) == 0.0
  {
    if n > 0 {
      SumZero(n - 1, f);
    }
  }

  lemma {:induction false} SumPositive(n: nat, f: Fn)
    requires n > 0 && forall i :: 0 <= i < n ==> f(i) > 0.0
    ensures Sum(n, f) > 0.0
  {
    if n > 1 {
      SumPositive(n - 1, f);
    }
  }

  /** Only one term is not zero. */
  lemma {:induction false} SumSingle(n: nat, f: Fn, k: nat)
    requires k < n && forall i :: 0 <= i < n && i != k ==> f(i) == 0.0
    ensures Sum(n, f) == f(k)
  {
    if k == n - 1 {
      SumZero(n - 1, f);
    } else {
      SumSingle(n - 1, f, k);
    }
  }

  // ---- Products of functions ----

  function TimesAt(g: Fn, x: Fn, l: int): real {
    g(l) * x(l)
  }

  function Times(g: Fn, x: Fn): Fn {
    l => TimesAt(g, x, l)
  }

  lemma SamePairing(n: nat, a: Fn, b: Fn, x: Fn)
    requires forall k :: 0 <= k < n ==> a(k) == b(k)
    ensures Sum(n, Times(a, x)) == Sum(n, Times(b, x))
  {
    SumCongruence(n, Times(a, x), Times(b, x));
  }

  lemma SameSecond(n: nat, x: Fn, a: Fn, b: Fn)
    requires forall k :: 0 <= k < n ==> a(k) == b(k)
    ensures Sum(n, Times(x, a)) == Sum(n, Times(x, b))
  {
    SumCongruence(n, Times(x, a), Times(x, b));
  }

  lemma TimesCommute(n: nat, f: Fn, h: Fn)
    ensures Sum(n, Times(f, h)) == Sum(n, Times(h, f))
  {
    forall l: int ensures Times(f, h)(l) == Times(h, f)(l) {
      Swap(f(l), h(l));
    }
    SumCongruence(n, Times(f, h), Times(h, f));
  }

  lemma Swap(a: real, b: real)
    ensures a * b == b * a
  {
  }

  // ---- Rows and columns ----

  function RowFn(a: Fn2, i: int): Fn {
    j => a(i, j)
  }

  function ColumnFn(a: Fn2, j: int): Fn {
    i => a(i, j)
  }

  function RowSum(m: nat, a: Fn2, i: int): real {
    Sum(m, RowFn(a, i))
  }

  function RowSums(m: nat, a: Fn2): Fn {
    i => RowSum(m, a, i)
  }

  function ColSum(n: nat, a: Fn2, j: int): real {
    Sum(n, ColumnFn(a, j))
  }

  function ColSums(n: nat, a: Fn2): Fn {
    j => ColSum(n, a, j)
  }

  /** Summing rows first or columns first gives the same total. */
  lemma {:induction false} SumSwap(n: nat, m: nat, a: Fn2)
    ensures Sum(n, RowSums(m, a)) == Sum(m, ColSums(n, a))
  {
    if n == 0 {
      SumZero(m, ColSums(0, a));
    } else {
      SumSwap(n - 1, m, a);
      forall j: int ensures ColSums(n, a)(j) == ColSums(n - 1, a)(j) + RowFn(a, n - 1)(j) {
        assert ColumnFn(a, j)(n - 1) == a(n - 1, j);
      }
      SumAdd(m, ColSums(n - 1, a), RowFn(a, n - 1), ColSums(n, a));
    }
  }
}
