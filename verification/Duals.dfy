/** Dual numbers: a value and its tangent. */
module Duals {
  import opened Floats
  import opened Sums

  datatype Dual = Dual(v: real, t: real)

  function DualSub(a: Dual, b: Dual): Dual {
    Dual(a.v - b.v, a.t - b.t)
  }

  function DualAdd(a: Dual, b: Dual): Dual {
    Dual(a.v + b.v, a.t + b.t)
  }

  function DualMul(a: Dual, b: Dual): Dual {
    Dual(a.v * b.v, a.t * b.v + a.v * b.t)
  }

  function DualDiv(a: Dual, b: Dual): Dual
    requires b.v != 0.0
  {
    Dual(a.v / b.v, (a.t - (a.v / b.v) * b.t) / b.v)
  }

  function DualExp(e: ExpFn, a: Dual): Dual {
    Dual(e(a.v), e(a.v) * a.t)
  }

  function DualSum(n: nat, f: int -> Dual): Dual {
    if n == 0 then Dual(0.0, 0.0) else DualAdd(DualSum(n - 1, f), f(n - 1))
  }

  lemma {:induction false} DualSumParts(n: nat, f: int -> Dual, v: Fn, t: Fn)
    requires forall i :: 0 <= i < n ==> f(i).v == v(i) && f(i).t == t(i)
    ensures DualSum(n, f) == Dual(Sum(n, v), Sum(n, t))
  {
    if n > 0 {
      DualSumParts(n - 1, f, v, t);
    }
  }

  function DualLog(log: real -> real, a: Dual): Dual
    requires a.v != 0.0
  {
    Dual(log(a.v), a.t / a.v)
  }

  lemma DualMulIs(a: real, da: real, b: real, db: real)
    ensures DualMul(Dual(a, da), Dual(b, db)) == Dual(a * b, da * b + a * db)
  {
  }

  lemma {:induction false} DualSumCongruence(n: nat, f: int -> Dual, g: int -> Dual)
    requires forall i :: 0 <= i < n ==> f(i) == g(i)
    ensures DualSum(n, f) == DualSum(n, g)
  {
    if n > 0 {
      DualSumCongruence(n - 1, f, g);
    }
  }

  // ---- Quotients ----

  lemma ProductCongruence(a: real, b: real, c: real)
    requires b == c
    ensures a * b == a * c
  {
  }

  lemma CancelDivision(x: real, y: real, w: real)
    requires w != 0.0 && y == x * w
    ensures y / w == x
  {
  }

  lemma QuotientNumerator(ej: real, z: real, q: real, a: real, b: real, c: real)
    requires ej == q * z && c == a - b
    ensures ej * a - q * (z * b) == (q * c) * z
  {
    calc {
      ej * a - q * (z * b);
      q * z * a - q * (z * b);
      (q * c) * z;
    }
  }

  lemma QuotientRule(ej: real, z: real, a: real, b: real, c: real)
    requires z != 0.0 && c == a - b
    ensures DualDiv(Dual(ej, ej * a), Dual(z, z * b)) == Dual(ej / z, (ej / z) * c)
  {
    var q := ej / z;
    assert ej == q * z;
    QuotientNumerator(ej, z, q, a, b, c);
    CancelDivision(q * c, ej * a - q * (z * b), z);
  }

  lemma FinishQuotient(num: Dual, den: Dual, ej: real, z: real, d: real, b: real, t: real, yj: real)
    requires z != 0.0 && num == Dual(ej, ej * (d - t)) && den == Dual(z, z * (b - t)) && yj == ej / z
    ensures DualDiv(num, den) == Dual(yj, yj * (d - b))
  {
    QuotientRule(ej, z, d - t, b - t, d - b);
  }
}
