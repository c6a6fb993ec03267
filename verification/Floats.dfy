/**
 Exact arithmetic with the special values of IEEE-754 that the attention kernels can meet:
 finite values are reals (no rounding, no overflow), plus infinities and NaN.
 */
module Floats {
  datatype Float = NegInf | Fin(r: real) | PosInf | NaN

  // ---- Exponential ----

  ghost predicate ExpSumLaw(f: real -> real, a: real, b: real) {
    f(a + b) == f(a) * f(b)
  }

  /** What the kernels rely on of `exp`: positive, one at zero, sums become products. */
  ghost predicate IsExp(f: real -> real) {
    && (forall a :: f(a) > 0.0)
    && f(0.0) == 1.0
    && (forall a, b {:trigger ExpSumLaw(f, a, b)} :: ExpSumLaw(f, a, b))
  }

  type ExpFn = f: real -> real | IsExp(f) witness (_ => 1.0)

  lemma ExpZero(e: ExpFn, x: real)
    requires x == 0.0
    ensures e(x) == 1.0
  {
  }

  lemma ExpAdds(e: ExpFn, a: real, b: real)
    ensures e(a + b) == e(a) * e(b)
  {
    assert ExpSumLaw(e, a, b);
  }

  /** Moving the reference point from `m` to `n` scales by `e(m - n)`. */
  lemma ExpShift(e: ExpFn, x: real, m: real, n: real)
    ensures e(x - m) * e(m - n) == e(x - n)
  {
    ExpAdds(e, x - m, m - n);
    assert (x - m) + (m - n) == x - n;
  }

  // ---- Float operations ----

  /** The arithmetic of the kernels, over a given exponential. */
  datatype Arithmetic = Arithmetic(exp: ExpFn) {
    function Add(a: Float, b: Float): Float {
      if a.Fin? && b.Fin? then Fin(a.r + b.r)
      else if a.NaN? || b.NaN? then NaN
      else if a.Fin? then b
      else if b.Fin? || a == b then a
      else NaN
    }

    function Sub(a: Float, b: Float): Float {
      if a.Fin? && b.Fin? then Fin(a.r - b.r)
      else if a.NaN? || b.NaN? || a == b then NaN
      else if a.Fin? then (if b.PosInf? then NegInf else PosInf)
      else a
    }

    function Mul(a: Float, b: Float): Float {
      if a.Fin? && b.Fin? then Fin(a.r * b.r)
      else if a.NaN? || b.NaN? || IsZero(a) || IsZero(b) then NaN
      else if Positive(a) == Positive(b) then PosInf
      else NegInf
    }

    function Div(a: Float, b: Float): Float {
      if a.NaN? || b.NaN? || (IsZero(a) && IsZero(b)) || (!a.Fin? && !b.Fin?) then NaN
      else if !b.Fin? then Fin(0.0)
      else if b.r == 0.0 || !a.Fin? then (if Positive(a) == (b.r >= 0.0) then PosInf else NegInf)
      else Fin(a.r / b.r)
    }

    predicate IsZero(a: Float) {
      a.Fin? && a.r == 0.0
    }

    predicate Positive(a: Float) {
      a.PosInf? || (a.Fin? && a.r > 0.0)
    }

    /** `a > b`; every comparison with NaN is false. */
    predicate Gt(a: Float, b: Float) {
      if a.Fin? && b.Fin? then a.r > b.r
      else !a.NaN? && !b.NaN? && a != b && (b.NegInf? || a.PosInf?)
    }

    function Exp(a: Float): Float {
      if a.Fin? then Fin(exp(a.r)) else if a.NegInf? then Fin(0.0) else a
    }
  }
}
