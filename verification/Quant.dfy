/**
 Affine int8 quantisation over the reals, with the integer conversions of the source: `round`
 is half away from zero, `as i32` saturates, and the sum with the zero point wraps to 32 bits.
 */
module Quant {
  import opened Sums
  import opened Floats
  import opened IndexMaps
  import opened Vectors
  import opened Strides
  import opened OpRules
  import opened MatrixKernels
  import M = Matrices

  const I32_MIN: int := -0x8000_0000
  const I32_MAX: int := 0x7fff_ffff
  const MIN_SCALE: real := 0.000000000001

  /** An eight-bit code. */
  type Code = q: int | -128 <= q <= 127

  /** `f32::round`: to the nearest integer, ties away from zero. */
  function Round(x: real): int {
    if x >= 0.0 then (x + 0.5).Floor else -((0.5 - x).Floor)
  }

  /** `as i32`. */
  function Saturate32(i: int): int {
    if i < I32_MIN then I32_MIN else if i > I32_MAX then I32_MAX else i
  }

  /** 32-bit addition. */
  function Wrap32(i: int): int {
    (i - I32_MIN) % 0x1_0000_0000 + I32_MIN
  }

  function ClampCode(i: int): Code {
    if i < -128 then -128 else if i > 127 then 127 else i
  }

  function MaxReal(a: real, b: real): real {
    if a >= b then a else b
  }

  function MinReal(a: real, b: real): real {
    if a <= b then a else b
  }

  function Abs(x: real): real {
    if x >= 0.0 then x else 0.0 - x
  }

  datatype QParams = QParams(scale: real, zeroPoint: Code) {
    /** The scale factor is always positive. */
    predicate Valid() {
      scale > 0.0
    }

    /** `QParams::quantize`. */
    function Quantize(x: real): Code
      requires Valid()
    {
      ClampCode(Wrap32(Saturate32(Round(x / scale)) + zeroPoint))
    }

    /** `QParams::dequantize`. */
    function Dequantize(q: Code): real {
      scale * (q - zeroPoint) as real
    }

    /** The documented formula, in unbounded integers. */
    function Documented(x: real): Code
      requires Valid()
    {
      ClampCode(Round(x / scale) + zeroPoint)
    }
  }

  /** `QParams::symmetric`. */
  function Symmetric(absmax: real): (qp: QParams)
    ensures qp.Valid() && qp.zeroPoint == 0
    ensures 127.0 * qp.scale >= absmax
  {
    QParams(MaxReal(absmax / 127.0, MIN_SCALE), 0)
  }

  /** `QParams::asymmetric`. */
  function Asymmetric(min: real, max: real): (qp: QParams)
    ensures qp.Valid()
    ensures MaxReal(max, 0.0) - MinReal(min, 0.0) <= qp.scale * 255.0
  {
    var lo, hi := MinReal(min, 0.0), MaxReal(max, 0.0);
    var scale := MaxReal((hi - lo) / 255.0, MIN_SCALE);
    QParams(scale, ClampCode(Round(-128.0 - lo / scale)))
  }

  // ---- Rounding ----

  lemma RoundNear(x: real)
    ensures -0.5 <= Round(x) as real - x <= 0.5
  {
  }

  /** Ties go away from zero, and rounding is odd. */
  lemma RoundTies(k: nat, x: real)
    ensures Round(k as real + 0.5) == k + 1
    ensures Round(0.0 - x) == -Round(x)
  {
  }

  lemma RoundInteger(x: real, i: int)
    requires x == i as real
    ensures Round(x) == i
  {
  }

  lemma WrapInRange(i: int)
    requires I32_MIN <= i <= I32_MAX
    ensures Wrap32(i) == i
  {
  }

  lemma Quotient(x: real, y: real, s: real)
    requires s > 0.0 && x == s * y
    ensures x / s == y
  {
  }

  lemma Monotone(s: real, x: real, y: real)
    requires s > 0.0 && x <= y
    ensures s * x <= s * y
  {
  }

  lemma MonotoneStrict(s: real, x: real, y: real)
    requires s > 0.0 && x < y
    ensures s * x < s * y
  {
  }

  /** Comparing after division by a positive scale. */
  lemma DivideCompare(s: real, x: real, y: real)
    requires s > 0.0
    ensures x <= s * y ==> x / s <= y
    ensures s * y <= x ==> y <= x / s
  {
    var q := x / s;
    assert x == s * q;
    if x <= s * y && q > y {
      MonotoneStrict(s, y, q);
    }
    if s * y <= x && q < y {
      MonotoneStrict(s, q, y);
    }
  }

  /** No conversion overflows for moderate quotients. */
  lemma QuantizeModerate(qp: QParams, x: real)
    requires qp.Valid() && -1000.0 <= x / qp.scale <= 1000.0
    ensures qp.Quantize(x) == qp.Documented(x)
  {
    RoundNear(x / qp.scale);
    WrapInRange(Round(x / qp.scale) + qp.zeroPoint);
  }

  /** Every code is a fixed point of dequantise-then-quantise. */
  lemma CodesRoundTrip(qp: QParams, q: Code)
    requires qp.Valid()
    ensures qp.Quantize(qp.Dequantize(q)) == q
  {
    var d := (q - qp.zeroPoint) as real;
    Quotient(qp.Dequantize(q), d, qp.scale);
    RoundInteger(d, q - qp.zeroPoint);
    QuantizeModerate(qp, qp.Dequantize(q));
  }

  /** Zero is represented exactly. */
  lemma ZeroExact(qp: QParams)
    requires qp.Valid()
    ensures qp.Quantize(0.0) == qp.zeroPoint && qp.Dequantize(qp.Quantize(0.0)) == 0.0
  {
    Quotient(0.0, 0.0, qp.scale);
    QuantizeModerate(qp, 0.0);
  }

  // ---- Error of one element ----

  /** A code whose distance from the quotient is at most one half dequantises within half a step. */
  lemma HalfStep(qp: QParams, x: real, q: Code)
    requires qp.Valid() && -0.5 <= (q - qp.zeroPoint) as real - x / qp.scale <= 0.5
    ensures Abs(qp.Dequantize(q) - x) <= qp.scale / 2.0
  {
    var s, u, d := qp.scale, x / qp.scale, (q - qp.zeroPoint) as real;
    assert x == s * u;
    Monotone(s, d - u, 0.5);
    Monotone(s, -0.5, d - u);
    assert s * d - s * u == s * (d - u);
  }

  lemma SymmetricError(absmax: real, x: real)
    requires Abs(x) <= absmax
    ensures var qp := Symmetric(absmax); Abs(qp.Dequantize(qp.Quantize(x)) - x) <= qp.scale / 2.0
  {
    var qp := Symmetric(absmax);
    DivideCompare(qp.scale, x, 127.0);
    DivideCompare(qp.scale, x, -127.0);
    RoundNear(x / qp.scale);
    QuantizeModerate(qp, x);
    HalfStep(qp, x, qp.Quantize(x));
  }

  /**
   The zero point is rounded too. When both roundings err by a half in the same direction the
   sum leaves the range by one; the clamp then brings the error back to one half.
   */
  lemma ClampRepairsTies(u: real, v: real, zp: int)
    requires 0.0 <= u + v <= 255.0 && zp == Round(-128.0 + v)
    ensures -0.5 <= (ClampCode(Round(u) + zp) - zp) as real - u <= 0.5
  {
    RoundNear(u);
    RoundNear(-128.0 + v);
  }

  lemma Scaled(x: real, s: real)
    requires s > 0.0
    ensures x == s * (x / s)
  {
  }

  lemma Distribute(s: real, u: real, w: real)
    ensures s * u - s * w == s * (u - w)
  {
  }

  /** Quotients of a range that spans at most 255 steps. */
  lemma RangeQuotients(s: real, lo: real, hi: real, x: real)
    requires s > 0.0 && lo <= 0.0 <= hi && lo <= x <= hi && hi - lo <= s * 255.0
    ensures 0.0 <= x / s - lo / s <= 255.0 && -255.0 <= x / s <= 255.0 && -255.0 <= lo / s <= 0.0
  {
    Scaled(x, s);
    Scaled(lo, s);
    Distribute(s, x / s, lo / s);
    Quotient(x - lo, x / s - lo / s, s);
    DivideCompare(s, x - lo, 255.0);
    DivideCompare(s, x - lo, 0.0);
    DivideCompare(s, lo, 0.0);
    DivideCompare(s, lo, -255.0);
  }

  /** The zero point of a calibrated range needs no clamp. */
  lemma AsymmetricQuotients(min: real, max: real, x: real)
    requires MinReal(min, 0.0) <= x <= MaxReal(max, 0.0)
    ensures var qp := Asymmetric(min, max);
            var u, v := x / qp.scale, -(MinReal(min, 0.0) / qp.scale);
            && 0.0 <= u + v <= 255.0 && -255.0 <= u <= 255.0
            && qp.zeroPoint == Round(-128.0 + v)
  {
    var qp := Asymmetric(min, max);
    var lo := MinReal(min, 0.0);
    RangeQuotients(qp.scale, lo, MaxReal(max, 0.0), x);
    ZeroPointInRange(lo / qp.scale);
  }

  lemma ZeroPointInRange(w: real)
    requires -255.0 <= w <= 0.0
    ensures -128 <= Round(-128.0 - w) <= 127
  {
    RoundNear(-128.0 - w);
  }

  lemma AsymmetricError(min: real, max: real, x: real)
    requires MinReal(min, 0.0) <= x <= MaxReal(max, 0.0)
    ensures var qp := Asymmetric(min, max); Abs(qp.Dequantize(qp.Quantize(x)) - x) <= qp.scale / 2.0
  {
    var qp := Asymmetric(min, max);
    AsymmetricQuotients(min, max, x);
    var u, v := x / qp.scale, -(MinReal(min, 0.0) / qp.scale);
    ClampRepairsTies(u, v, qp.zeroPoint);
    QuantizeModerate(qp, x);
    HalfStep(qp, x, qp.Quantize(x));
  }

  // ---- The ends of the range ----

  /** Without ties both roundings agree; with ties the clamp absorbs the difference. */
  lemma EndsOfRange(v: real)
    requires 0.0 <= v <= 255.0
    ensures ClampCode(Round(0.0 - v) + Round(-128.0 + v)) == -128
    ensures ClampCode(Round(255.0 - v) + Round(-128.0 + v)) == 127
  {
  }

  lemma FullSpan(s: real, lo: real, hi: real)
    requires s > 0.0 && s * 255.0 == hi - lo
    ensures hi / s == 255.0 + lo / s
  {
    Scaled(lo, s);
    Quotient(hi, 255.0 + lo / s, s);
  }

  lemma EndCode(qp: QParams, x: real, u: real)
    requires qp.Valid() && x / qp.scale == u && -255.0 <= u <= 255.0
    ensures qp.Quantize(x) == ClampCode(Round(u) + qp.zeroPoint)
  {
    QuantizeModerate(qp, x);
  }

  /** The range, extended to contain zero, spans all 256 codes: its ends map to -128 and 127. */
  lemma AsymmetricEnds(min: real, max: real)
    requires MaxReal(max, 0.0) - MinReal(min, 0.0) >= 255.0 * MIN_SCALE
    ensures var qp := Asymmetric(min, max);
            qp.Quantize(MinReal(min, 0.0)) == -128 && qp.Quantize(MaxReal(max, 0.0)) == 127
  {
    var qp, lo, hi := Asymmetric(min, max), MinReal(min, 0.0), MaxReal(max, 0.0);
    AsymmetricQuotients(min, max, lo);
    AsymmetricQuotients(min, max, hi);
    FullSpan(qp.scale, lo, hi);
    EndCodes(qp, lo, hi, -(lo / qp.scale));
  }

  lemma EndCodes(qp: QParams, lo: real, hi: real, v: real)
    requires qp.Valid() && 0.0 <= v <= 255.0 && qp.zeroPoint == Round(-128.0 + v)
    requires lo / qp.scale == 0.0 - v && hi / qp.scale == 255.0 - v
    ensures qp.Quantize(lo) == -128 && qp.Quantize(hi) == 127
  {
    EndCode(qp, lo, 0.0 - v);
    EndCode(qp, hi, 255.0 - v);
    EndsOfRange(v);
  }

  /** Where rounding reaches an integer: ties go away from zero. */
  lemma RoundAtLeast(u: real, k: int)
    ensures Round(u) >= k <==> if k > 0 then u >= k as real - 0.5 else u > k as real - 0.5
    ensures Round(u) <= k <==> if k < 0 then u <= k as real + 0.5 else u < k as real + 0.5
  {
  }

  lemma QuotientOrder(s: real, x: real, y: real)
    requires s > 0.0
    ensures x / s < y <==> x < s * y
    ensures x / s > y <==> x > s * y
  {
    Scaled(x, s);
    if x / s < y {
      MonotoneStrict(s, x / s, y);
    } else if x / s > y {
      MonotoneStrict(s, y, x / s);
    }
  }

  /** Half a step, as a bound on the value. */
  lemma HalfSteps(s: real)
    ensures s * 0.5 == s / 2.0 && s * -0.5 == 0.0 - s / 2.0
  {
  }

  /** What calibration provides: at most 255 steps, and a zero point that needs no clamp. */
  ghost predicate Calibrates(qp: QParams, lo: real, hi: real) {
    && qp.Valid() && lo <= 0.0 <= hi && hi - lo <= qp.scale * 255.0
    && -255.0 <= lo / qp.scale <= 0.0 && qp.zeroPoint == Round(-128.0 - lo / qp.scale)
  }

  lemma AsymmetricCalibrates(min: real, max: real)
    ensures Calibrates(Asymmetric(min, max), MinReal(min, 0.0), MaxReal(max, 0.0))
  {
    var qp, lo, hi := Asymmetric(min, max), MinReal(min, 0.0), MaxReal(max, 0.0);
    RangeQuotients(qp.scale, lo, hi, lo);
    ZeroPointInRange(lo / qp.scale);
  }

  lemma LowestCode(qp: QParams, min: real, hi: real)
    requires Calibrates(qp, MinReal(min, 0.0), hi) && min <= hi
    ensures qp.Quantize(min) == -128 <==> min < qp.scale / 2.0
  {
    RangeQuotients(qp.scale, MinReal(min, 0.0), hi, min);
    EndCode(qp, min, min / qp.scale);
    HalfSteps(qp.scale);
    QuotientOrder(qp.scale, min, 0.5);
    if min <= 0.0 {
      EndsOfRange(-(min / qp.scale));
    } else {
      Quotient(0.0, 0.0, qp.scale);
      RoundInteger(-128.0, -128);
      RoundAtLeast(min / qp.scale, 0);
    }
  }

  lemma TopCode(qp: QParams, x: real, y: real)
    requires qp.Valid() && -255.0 <= x / qp.scale <= 255.0 && y == 126.5 - qp.zeroPoint as real
    ensures qp.Quantize(x) == 127 <==> if qp.zeroPoint == 127 then x / qp.scale > -0.5 else x / qp.scale >= y
  {
    EndCode(qp, x, x / qp.scale);
    RoundAtLeast(x / qp.scale, 127 - qp.zeroPoint);
  }

  lemma HighestCode(qp: QParams, lo: real, max: real, y: real)
    requires Calibrates(qp, lo, MaxReal(max, 0.0)) && lo <= max && y == 126.5 - qp.zeroPoint as real
    ensures qp.Quantize(max) == 127 <==> if qp.zeroPoint == 127 then max > 0.0 - qp.scale / 2.0 else max >= qp.scale * y
  {
    RangeQuotients(qp.scale, lo, MaxReal(max, 0.0), max);
    TopBound(qp, max, y);
  }

  lemma TopBound(qp: QParams, x: real, y: real)
    requires qp.Valid() && -255.0 <= x / qp.scale <= 255.0 && y == 126.5 - qp.zeroPoint as real
    ensures qp.Quantize(x) == 127 <==> if qp.zeroPoint == 127 then x > 0.0 - qp.scale / 2.0 else x >= qp.scale * y
  {
    TopCode(qp, x, y);
    Thresholds(qp.scale, x, y);
  }

  lemma Thresholds(s: real, x: real, y: real)
    requires s > 0.0
    ensures x / s >= y <==> x >= s * y
    ensures x / s > -0.5 <==> x > 0.0 - s / 2.0
  {
    QuotientOrder(s, x, y);
    HalfThreshold(s, x);
  }

  lemma HalfThreshold(s: real, x: real)
    requires s > 0.0
    ensures x / s > -0.5 <==> x > 0.0 - s / 2.0
  {
    QuotientOrder(s, x, -0.5);
    HalfSteps(s);
  }

  lemma FullRangeHighest(qp: QParams, lo: real, max: real)
    requires Calibrates(qp, lo, MaxReal(max, 0.0)) && lo <= max && MaxReal(max, 0.0) - lo == qp.scale * 255.0
    ensures qp.Quantize(max) == 127 <==> max > 0.0 - qp.scale / 2.0
  {
    var hi := MaxReal(max, 0.0);
    RangeQuotients(qp.scale, lo, hi, hi);
    FullSpan(qp.scale, lo, hi);
    EndCodes(qp, lo, hi, -(lo / qp.scale));
    HalfSteps(qp.scale);
    if max < 0.0 {
      Quotient(0.0, 0.0, qp.scale);
      RoundInteger(127.0, 127);
      HighestCode(qp, lo, max, 126.5 - qp.zeroPoint as real);
    }
  }

  /** Above the floor of the scale the range spans exactly 255 steps. */
  lemma FullScale(min: real, max: real)
    requires MaxReal(max, 0.0) - MinReal(min, 0.0) >= 255.0 * MIN_SCALE
    ensures MaxReal(max, 0.0) - MinReal(min, 0.0) == Asymmetric(min, max).scale * 255.0
  {
  }

  /**
   The documented ends, for every range. `min` maps to -128 exactly when it is below half a step.
   `max` maps to 127 exactly when it is above minus half a step, unless the scale is at its floor;
   there, exactly when it reaches the last half step above the zero point.
   */
  lemma AsymmetricEndsExactly(min: real, max: real, qp: QParams, y: real)
    requires min <= max && qp == Asymmetric(min, max) && y == 126.5 - qp.zeroPoint as real
    ensures qp.Quantize(min) == -128 <==> min < qp.scale / 2.0
    ensures MaxReal(max, 0.0) - MinReal(min, 0.0) >= 255.0 * MIN_SCALE ==>
              (qp.Quantize(max) == 127 <==> max > 0.0 - qp.scale / 2.0)
    ensures qp.Quantize(max) == 127 <==> if qp.zeroPoint == 127 then max > 0.0 - qp.scale / 2.0 else max >= qp.scale * y
  {
    AsymmetricCalibrates(min, max);
    LowestCode(qp, min, MaxReal(max, 0.0));
    HighestCode(qp, MinReal(min, 0.0), max, y);
    if MaxReal(max, 0.0) - MinReal(min, 0.0) >= 255.0 * MIN_SCALE {
      FullScale(min, max);
      FullRangeHighest(qp, MinReal(min, 0.0), max);
    }
  }

  /** A range on one side of zero: the documented -128 for `min` is not what `min` gets. */
  lemma OneSidedRange()
    ensures Asymmetric(1.0, 2.0).Quantize(1.0) == 0
  {
    var qp := Asymmetric(1.0, 2.0);
    assert qp.scale == 2.0 / 255.0;
    RoundInteger(-128.0, -128);
    AsymmetricQuotients(1.0, 2.0, 1.0);
    assert 1.0 / qp.scale == 127.5;
    RoundTies(127, 127.5);
    EndCode(qp, 1.0, 127.5);
  }

  /**
   Symmetric parameters map the bound to 127 and its negation to -127 exactly when the bound is
   at least 126.5 times the scale floor.
   */
  lemma SymmetricEnds(absmax: real)
    ensures var qp := Symmetric(absmax);
            qp.Quantize(absmax) == 127 && qp.Quantize(0.0 - absmax) == -127 <==> absmax >= 126.5 * MIN_SCALE
  {
    SymmetricSteps(absmax);
    SymmetricCodes(Symmetric(absmax), absmax, absmax / Symmetric(absmax).scale);
  }

  /** The bound is 127 steps, or less at the floor of the scale. */
  lemma SymmetricSteps(absmax: real)
    ensures var u := absmax / Symmetric(absmax).scale; u <= 127.0 && (u >= 126.5 <==> absmax >= 126.5 * MIN_SCALE)
  {
    var s := Symmetric(absmax).scale;
    if absmax >= 127.0 * MIN_SCALE {
      Quotient(absmax, 127.0, s);
    } else {
      QuotientOrder(MIN_SCALE, absmax, 126.5);
      QuotientOrder(MIN_SCALE, absmax, 127.0);
    }
  }

  lemma SymmetricCodes(qp: QParams, x: real, u: real)
    requires qp.Valid() && qp.zeroPoint == 0 && u == x / qp.scale && u <= 127.0
    ensures qp.Quantize(x) == 127 && qp.Quantize(0.0 - x) == -127 <==> u >= 126.5
  {
    Scaled(x, qp.scale);
    NegatedProduct(qp.scale, u);
    Quotient(0.0 - x, 0.0 - u, qp.scale);
    UnshiftedCode(qp, x);
    UnshiftedCode(qp, 0.0 - x);
    RoundTies(0, u);
    RoundAtLeast(u, 127);
    RoundAtLeast(u, 128);
  }

  /** Without a zero point the conversions never overflow. */
  lemma UnshiftedCode(qp: QParams, x: real)
    requires qp.Valid() && qp.zeroPoint == 0
    ensures qp.Quantize(x) == ClampCode(Round(x / qp.scale))
  {
    WrapInRange(Saturate32(Round(x / qp.scale)));
  }

  lemma NegatedProduct(s: real, u: real)
    ensures 0.0 - s * u == s * (0.0 - u)
  {
  }

  // ---- Where the code leaves the documented formula ----

  /** The sum with the zero point overflows 32 bits. */
  predicate Overflows(qp: QParams, x: real)
    requires qp.Valid()
  {
    var r := Round(x / qp.scale);
    (qp.zeroPoint > 0 && r > I32_MAX - qp.zeroPoint) || (qp.zeroPoint < 0 && r < I32_MIN - qp.zeroPoint)
  }

  /** `quantize` follows the documented formula exactly when the sum does not overflow. */
  lemma QuantizeAsDocumented(qp: QParams, x: real)
    requires qp.Valid()
    ensures qp.Quantize(x) == qp.Documented(x) <==> !Overflows(qp, x)
  {
    var r, zp := Round(x / qp.scale), qp.zeroPoint;
    var sum := Saturate32(r) + zp;
    if sum > I32_MAX {
      assert Wrap32(sum) == sum - 0x1_0000_0000;
    } else if sum < I32_MIN {
      assert Wrap32(sum) == sum + 0x1_0000_0000;
    } else {
      WrapInRange(sum);
    }
  }

  /** A post-ReLU range has zero point -128; a hugely negative input then gets the largest code. */
  lemma OverflowExample()
    ensures var qp := QParams(1.0, -128); qp.Documented(-3000000000.0) == -128 && qp.Quantize(-3000000000.0) == 127
  {
    RoundInteger(-3000000000.0, -3000000000);
  }

  // ---- Calibration ----

  /** Least and greatest of the recorded elements. */
  ghost predicate Extremes(history: seq<real>, min: Float, max: Float) {
    if history == [] then min == PosInf && max == NegInf
    else
      && min.Fin? && max.Fin? && min.r in history && max.r in history
      && forall i :: 0 <= i < |history| ==> min.r <= history[i] <= max.r
  }

  function Below(x: real, f: Float): bool {
    f.PosInf? || (f.Fin? && x < f.r)
  }

  function Above(x: real, f: Float): bool {
    f.NegInf? || (f.Fin? && x > f.r)
  }

  lemma ExtremesStep(history: seq<real>, min: Float, max: Float, x: real)
    requires Extremes(history, min, max)
    ensures Extremes(history + [x], if Below(x, min) then Fin(x) else min, if Above(x, max) then Fin(x) else max)
  {
    var h := history + [x];
    assert x == h[|history|];
    if history != [] {
      assert forall i :: 0 <= i < |history| ==> h[i] == history[i];
      assert min.r in h && max.r in h;
    }
  }

  /**
   Element `i` is the largest of the history in absolute value. It is 127 steps, and gets code 127 or -127;
   below the scale floor the scale is the floor.
   */
  ghost predicate FitsSymmetrically(qp: QParams, history: seq<real>, i: nat)
    requires i < |history| && qp.Valid()
  {
    var largest := if history[i] >= 0.0 then history[i] else 0.0 - history[i];
    && (forall j :: 0 <= j < |history| ==> history[j] <= largest && 0.0 - history[j] <= largest)
    && qp.zeroPoint == 0
    && (if largest >= 127.0 * 0.000000000001 then 127.0 * qp.scale == largest else qp.scale == 0.000000000001)
    && (largest >= 126.5 * 0.000000000001 ==> qp.Quantize(history[i]) == if history[i] >= 0.0 then 127 else -127)
  }

  /**
   Elements `i` and `j` are the least and the largest of the history. Together with zero they span 255
   steps, from code -128 to code 127; below the scale floor the scale is the floor.
   */
  ghost predicate FitsAsymmetrically(qp: QParams, history: seq<real>, i: nat, j: nat)
    requires i < |history| && j < |history| && qp.Valid()
  {
    var lo := if history[i] <= 0.0 then history[i] else 0.0;
    var hi := if history[j] >= 0.0 then history[j] else 0.0;
    && (forall k :: 0 <= k < |history| ==> history[i] <= history[k] <= history[j])
    && (if hi - lo >= 255.0 * 0.000000000001 then 255.0 * qp.scale == hi - lo else qp.scale == 0.000000000001)
    && (hi - lo >= 255.0 * 0.000000000001 ==> qp.Quantize(lo) == -128 && qp.Quantize(hi) == 127)
  }

  lemma Attained(history: seq<real>, min: Float, max: Float) returns (i: nat, j: nat)
    requires history != [] && Extremes(history, min, max)
    ensures i < |history| && j < |history| && min == Fin(history[i]) && max == Fin(history[j])
    ensures forall k :: 0 <= k < |history| ==> history[i] <= history[k] <= history[j]
  {
    i :| 0 <= i < |history| && history[i] == min.r;
    j :| 0 <= j < |history| && history[j] == max.r;
  }

  lemma ScaleOf(a: real, b: real, s: real)
    requires b > 0.0 && s == MaxReal(a / b, MIN_SCALE)
    ensures if a >= b * MIN_SCALE then b * s == a else s == MIN_SCALE
  {
    var q := a / b;
    assert a == b * q;
    if a >= b * MIN_SCALE && q < MIN_SCALE {
      MonotoneStrict(b, q, MIN_SCALE);
    }
    if a < b * MIN_SCALE && q >= MIN_SCALE {
      Monotone(b, MIN_SCALE, q);
    }
  }

  lemma SymmetricTight(largest: real, x: real, qp: QParams)
    requires largest == Abs(x) && qp == Symmetric(MaxReal(largest, MIN_SCALE))
    ensures if largest >= 127.0 * MIN_SCALE then 127.0 * qp.scale == largest else qp.scale == MIN_SCALE
    ensures largest >= 126.5 * MIN_SCALE ==> qp.Quantize(x) == if x >= 0.0 then 127 else -127
  {
    ScaleOf(MaxReal(largest, MIN_SCALE), 127.0, qp.scale);
    SymmetricEnds(MaxReal(largest, MIN_SCALE));
  }

  lemma LargestIs(history: seq<real>, i: nat, j: nat, k: nat)
    requires i < |history| && j < |history| && forall t :: 0 <= t < |history| ==> history[i] <= history[t] <= history[j]
    requires k == if Abs(history[i]) >= Abs(history[j]) then i else j
    ensures Abs(history[k]) == MaxReal(Abs(history[i]), Abs(history[j]))
    ensures forall t :: 0 <= t < |history| ==> history[t] <= Abs(history[k]) && 0.0 - history[t] <= Abs(history[k])
  {
  }

  lemma SymmetricFits(history: seq<real>, i: nat, j: nat, qp: QParams) returns (k: nat)
    requires i < |history| && j < |history| && forall k :: 0 <= k < |history| ==> history[i] <= history[k] <= history[j]
    requires qp == Symmetric(MaxReal(MaxReal(Abs(history[i]), Abs(history[j])), MIN_SCALE))
    ensures k < |history| && FitsSymmetrically(qp, history, k)
  {
    k := if Abs(history[i]) >= Abs(history[j]) then i else j;
    LargestIs(history, i, j, k);
    SymmetricTight(Abs(history[k]), history[k], qp);
  }

  lemma AsymmetricFits(history: seq<real>, i: nat, j: nat)
    requires i < |history| && j < |history| && forall k :: 0 <= k < |history| ==> history[i] <= history[k] <= history[j]
    ensures FitsAsymmetrically(Asymmetric(history[i], history[j]), history, i, j)
  {
    var lo, hi := MinReal(history[i], 0.0), MaxReal(history[j], 0.0);
    ScaleOf(hi - lo, 255.0, Asymmetric(history[i], history[j]).scale);
    if hi - lo >= 255.0 * MIN_SCALE {
      AsymmetricEnds(history[i], history[j]);
    }
  }

  class Observer {
    var min: Float
    var max: Float
    var count: nat
    ghost var history: seq<real>

    ghost predicate Valid()
      reads this
    {
      count == |history| && Extremes(history, min, max)
    }

    constructor ()
      ensures Valid() && history == []
    {
      min, max, count := PosInf, NegInf, 0;
      history := [];
    }

    /** `Observer::record`. */
    method Record(slice: seq<real>)
      requires Valid()
      modifies this
      ensures Valid() && history == old(history) + slice
    {
      for i := 0 to |slice|
        invariant history == old(history) + slice[..i] && count == old(count)
        invariant Extremes(history, min, max)
      {
        var x := slice[i];
        ExtremesStep(history, min, max, x);
        if Below(x, min) {
          min := Fin(x);
        }
        if Above(x, max) {
          max := Fin(x);
        }
        history := history + [x];
      }
      count := count + |slice|;
    }

    /** `Observer::compute_qparams_symmetric`. */
    method SymmetricParams() returns (qp: QParams)
      requires Valid()
      ensures qp.Valid()
      ensures history == [] ==> qp == QParams(1.0, 0)
      ensures Calibrated(qp, history)
      ensures history != [] ==> exists i :: 0 <= i < |history| && FitsSymmetrically(qp, history, i)
    {
      if count == 0 {
        return QParams(1.0, 0);
      }
      var absmax := MaxReal(MaxReal(Abs(min.r), Abs(max.r)), MIN_SCALE);
      qp := Symmetric(absmax);
      ghost var least, most := Attained(history, min, max);
      ghost var largest := SymmetricFits(history, least, most, qp);
      forall i | 0 <= i < |history| ensures Abs(qp.Dequantize(qp.Quantize(history[i])) - history[i]) <= qp.scale / 2.0 {
        assert min.r <= history[i] <= max.r;
        SymmetricError(absmax, history[i]);
      }
    }

    /** `Observer::compute_qparams_asymmetric`. */
    method AsymmetricParams() returns (qp: QParams)
      requires Valid()
      ensures qp.Valid()
      ensures history == [] ==> qp == QParams(1.0, 0)
      ensures Calibrated(qp, history)
      ensures history != [] ==> exists i, j :: 0 <= i < |history| && 0 <= j < |history| && FitsAsymmetrically(qp, history, i, j)
    {
      if count == 0 {
        return QParams(1.0, 0);
      }
      qp := Asymmetric(min.r, max.r);
      ghost var least, most := Attained(history, min, max);
      AsymmetricFits(history, least, most);
      forall i | 0 <= i < |history| ensures Abs(qp.Dequantize(qp.Quantize(history[i])) - history[i]) <= qp.scale / 2.0 {
        assert min.r <= history[i] <= max.r;
        AsymmetricError(min.r, max.r, history[i]);
      }
    }
  }

  /** Every recorded element is represented within half a step. */
  ghost predicate Calibrated(qp: QParams, history: seq<real>) {
    qp.Valid() && forall i :: 0 <= i < |history| ==> Abs(qp.Dequantize(qp.Quantize(history[i])) - history[i]) <= qp.scale / 2.0
  }

  // ---- Quantised matrix product ----

  /** A buffer of codes, dequantised. */
  function Dequantised(codes: seq<Code>, qp: QParams): Fn {
    l => if 0 <= l < |codes| then qp.Dequantize(codes[l]) else 0.0
  }

  /** `int8_matmul` is the product of the dequantised operands. */
  method Int8Matmul(a: seq<Code>, ap: QParams, b: seq<Code>, bp: QParams, m: nat, k: nat, n: nat) returns (out: seq<real>)
    requires |a| == m * k && |b| == k * n
    ensures out == Build(m * n, Flat(M.Product(k, Mat(Dequantised(a, ap), k), Mat(Dequantised(b, bp), n)), n))
  {
    ghost var f := Flat(M.Product(k, Mat(Dequantised(a, ap), k), Mat(Dequantised(b, bp), n)), n);
    out := seq(m * n, _ => 0.0);
    for i := 0 to m
      invariant |out| == m * n && Filled(out, i * n, f)
    {
      var base := i * n;
      for j := 0 to n
        invariant |out| == m * n && Filled(out, base + j, f)
      {
        MulBound(i, n, m, j);
        var acc := CodeEntry(a, ap, b, bp, m, k, n, i, j, Mat(Dequantised(a, ap), k), Mat(Dequantised(b, bp), n));
        FlatAt(M.Product(k, Mat(Dequantised(a, ap), k), Mat(Dequantised(b, bp), n)), n, i, j);
        out := out[base + j := acc];
      }
      NextRow(i, n);
    }
  }

  /** The innermost loop. */
  method CodeEntry(a: seq<Code>, ap: QParams, b: seq<Code>, bp: QParams, m: nat, k: nat, n: nat, i: nat, j: nat, ghost x: Fn2, ghost y: Fn2) returns (acc: real)
    requires |a| == m * k && |b| == k * n && i < m && j < n
    requires x == Mat(Dequantised(a, ap), k) && y == Mat(Dequantised(b, bp), n)
    ensures acc == M.Entry(k, x, y, i, j)
  {
    acc := 0.0;
    for t := 0 to k
      invariant acc == Sum(t, M.EntryTerms(x, y, i, j))
    {
      var term := CodeTerm(a, ap, b, bp, m, k, n, i, j, t, x, y);
      acc := acc + term;
    }
  }

  /** The product of two dequantised codes. */
  method CodeTerm(a: seq<Code>, ap: QParams, b: seq<Code>, bp: QParams, m: nat, k: nat, n: nat, i: nat, j: nat, t: nat, ghost x: Fn2, ghost y: Fn2) returns (term: real)
    requires |a| == m * k && |b| == k * n && i < m && j < n && t < k
    requires x == Mat(Dequantised(a, ap), k) && y == Mat(Dequantised(b, bp), n)
    ensures term == M.EntryTerms(x, y, i, j)(t)
  {
    CodePositions(i, j, t, m, k, n);
    var p, q := ap.Dequantize(a[i * k + t]), bp.Dequantize(b[t * n + j]);
    CodeValues(a, ap, k, i, t);
    CodeValues(b, bp, n, t, j);
    term := p * q;
    EntryTermIs(x, y, i, j, t, p, q);
  }

  lemma EntryTermIs(x: Fn2, y: Fn2, i: int, j: int, t: int, p: real, q: real)
    requires x(i, t) == p && y(t, j) == q
    ensures M.EntryTerms(x, y, i, j)(t) == p * q
  {
    M.EntryTermAt(x, y, i, j, t);
  }

  lemma CodePositions(i: nat, j: nat, t: nat, m: nat, k: nat, n: nat)
    requires i < m && j < n && t < k
    ensures 0 <= i * k + t < m * k && 0 <= t * n + j < k * n
  {
    MulBound(i, k, m, t);
    MulNonNegative(i, k);
    MulBound(t, n, k, j);
    MulNonNegative(t, n);
  }

  lemma CodeValues(codes: seq<Code>, qp: QParams, cols: nat, i: nat, j: nat)
    requires 0 <= i * cols + j < |codes|
    ensures Mat(Dequantised(codes, qp), cols)(i, j) == qp.Dequantize(codes[i * cols + j])
  {
  }

  lemma NonNegative(a: real, b: real)
    requires a >= 0.0 && b >= 0.0
    ensures a * b >= 0.0
  {
  }

  lemma ProductBound(x: real, y: real, c: real, d: real)
    requires 0.0 <= x <= c && 0.0 <= y <= d
    ensures x * y <= c * d
  {
    NonNegative(c - x, y);
    NonNegative(c, d - y);
    assert c * d - x * y == (c - x) * y + c * (d - y);
  }

  lemma AbsProduct(a: real, b: real)
    ensures Abs(a * b) == Abs(a) * Abs(b)
  {
    var x, y := Abs(a), Abs(b);
    NonNegative(x, y);
    if a >= 0.0 && b < 0.0 {
      assert a * b == 0.0 - x * y;
    } else if a < 0.0 && b >= 0.0 {
      assert a * b == 0.0 - x * y;
    } else {
      assert a * b == x * y;
    }
  }

  lemma AbsBound(a: real, b: real, c: real, d: real)
    requires Abs(a) <= c && Abs(b) <= d
    ensures Abs(a * b) <= c * d
  {
    AbsProduct(a, b);
    ProductBound(Abs(a), Abs(b), c, d);
  }

  /** What one product of entries can be off by. */
  function ErrorBound(e: real, f: real, ma: real, mb: real): real {
    e * mb + ma * f + e * f
  }

  lemma ProductDifference(a: real, d: real, b: real, c: real)
    ensures (a + d) * (b + c) - a * b == d * b + a * c + d * c
  {
  }

  /** One product: both factors are off by at most `e` and `f`. */
  lemma DeviationError(a: real, d: real, b: real, c: real, e: real, f: real, ma: real, mb: real)
    requires Abs(d) <= e && Abs(c) <= f && Abs(a) <= ma && Abs(b) <= mb
    ensures Abs((a + d) * (b + c) - a * b) <= ErrorBound(e, f, ma, mb)
  {
    AbsBound(d, b, e, mb);
    AbsBound(a, c, ma, f);
    AbsBound(d, c, e, f);
    ProductDifference(a, d, b, c);
    Triangle(d * b, a * c, d * c);
  }

  lemma TermError(a: real, a': real, b: real, b': real, e: real, f: real, ma: real, mb: real)
    requires Abs(a' - a) <= e && Abs(b' - b) <= f && Abs(a) <= ma && Abs(b) <= mb
    ensures Abs(a' * b' - a * b) <= ErrorBound(e, f, ma, mb)
  {
    DeviationError(a, a' - a, b, b' - b, e, f, ma, mb);
    assert a + (a' - a) == a' && b + (b' - b) == b';
  }

  lemma Triangle(x: real, y: real, z: real)
    ensures Abs(x + y + z) <= Abs(x) + Abs(y) + Abs(z)
  {
  }

  /** `k` times `bound`. */
  function Repeated(k: nat, bound: real): real {
    if k == 0 then 0.0 else Repeated(k - 1, bound) + bound
  }

  lemma OneMore(k: nat, bound: real)
    ensures (k + 1) as real * bound == k as real * bound + bound
  {
  }

  lemma {:induction false} RepeatedIs(k: nat, bound: real)
    ensures Repeated(k, bound) == k as real * bound
  {
    if k > 0 {
      RepeatedIs(k - 1, bound);
      OneMore(k - 1, bound);
    }
  }

  lemma {:induction false} SumError(k: nat, f: Fn, h: Fn, bound: real)
    requires forall t :: 0 <= t < k ==> Abs(f(t) - h(t)) <= bound
    ensures Abs(Sum(k, f) - Sum(k, h)) <= Repeated(k, bound)
  {
    if k > 0 {
      SumError(k - 1, f, h, bound);
    }
  }

  /** `x` is `y` up to `e`, and `y` is bounded by `b`. */
  ghost predicate Close(rows: nat, cols: nat, x: Fn2, y: Fn2, e: real, b: real) {
    forall i, j :: 0 <= i < rows && 0 <= j < cols ==> Abs(x(i, j) - y(i, j)) <= e && Abs(y(i, j)) <= b
  }

  ghost predicate TermsClose(k: nat, x': Fn2, y': Fn2, x: Fn2, y: Fn2, i: int, j: int, bound: real) {
    forall t :: 0 <= t < k ==> Abs(M.EntryTerms(x', y', i, j)(t) - M.EntryTerms(x, y, i, j)(t)) <= bound
  }

  lemma OneTermClose(x': Fn2, y': Fn2, x: Fn2, y: Fn2, i: int, j: int, t: int, e: real, f: real, mx: real, my: real, bound: real)
    requires Abs(x'(i, t) - x(i, t)) <= e && Abs(y'(t, j) - y(t, j)) <= f && Abs(x(i, t)) <= mx && Abs(y(t, j)) <= my
    requires bound == ErrorBound(e, f, mx, my)
    ensures Abs(M.EntryTerms(x', y', i, j)(t) - M.EntryTerms(x, y, i, j)(t)) <= bound
  {
    M.EntryTermAt(x', y', i, j, t);
    M.EntryTermAt(x, y, i, j, t);
    TermError(x(i, t), x'(i, t), y(t, j), y'(t, j), e, f, mx, my);
  }

  lemma AllTermsClose(m: nat, k: nat, n: nat, x': Fn2, x: Fn2, y': Fn2, y: Fn2, e: real, f: real, mx: real, my: real, i: nat, j: nat, bound: real)
    requires Close(m, k, x', x, e, mx) && Close(k, n, y', y, f, my) && i < m && j < n
    requires bound == ErrorBound(e, f, mx, my)
    ensures TermsClose(k, x', y', x, y, i, j, bound)
  {
    forall t | 0 <= t < k ensures Abs(M.EntryTerms(x', y', i, j)(t) - M.EntryTerms(x, y, i, j)(t)) <= bound {
      OneTermClose(x', y', x, y, i, j, t, e, f, mx, my, bound);
    }
  }

  lemma EntryError(k: nat, x': Fn2, y': Fn2, x: Fn2, y: Fn2, i: int, j: int, bound: real)
    requires TermsClose(k, x', y', x, y, i, j, bound)
    ensures Abs(M.Entry(k, x', y', i, j) - M.Entry(k, x, y, i, j)) <= Repeated(k, bound)
  {
    SumError(k, M.EntryTerms(x', y', i, j), M.EntryTerms(x, y, i, j), bound);
  }

  /** `codes` quantises `xs` with parameters from an observer that recorded all of them. */
  ghost predicate QuantisedFrom(xs: seq<real>, codes: seq<Code>, qp: QParams) {
    && |codes| == |xs| && Calibrated(qp, xs)
    && forall i :: 0 <= i < |xs| ==> codes[i] == qp.Quantize(xs[i])
  }

  ghost predicate BoundedBy(xs: seq<real>, bound: real) {
    forall i :: 0 <= i < |xs| ==> Abs(xs[i]) <= bound
  }

  lemma QuantisedClose(xs: seq<real>, codes: seq<Code>, qp: QParams, rows: nat, cols: nat, bound: real)
    requires QuantisedFrom(xs, codes, qp) && BoundedBy(xs, bound) && |xs| == rows * cols
    ensures Close(rows, cols, Mat(Dequantised(codes, qp), cols), Mat(Buffer(xs), cols), qp.scale / 2.0, bound)
  {
    forall i, j | 0 <= i < rows && 0 <= j < cols
      ensures Abs(Mat(Dequantised(codes, qp), cols)(i, j) - Mat(Buffer(xs), cols)(i, j)) <= qp.scale / 2.0
      ensures Abs(Mat(Buffer(xs), cols)(i, j)) <= bound
    {
      MulBound(i, cols, rows, j);
      MulNonNegative(i, cols);
      var l := i * cols + j;
      assert codes[l] == qp.Quantize(xs[l]);
    }
  }

  lemma HalvedBound(sa: real, sb: real, mx: real, my: real)
    ensures ErrorBound(sa / 2.0, sb / 2.0, mx, my) == sa / 2.0 * my + sb / 2.0 * mx + sa * sb / 4.0
  {
  }

  /** `k * (sa/2 * maxY + sb/2 * maxX + sa*sb/4)`. */
  function MatmulBound(k: nat, sa: real, sb: real, mx: real, my: real): real {
    k as real * (sa / 2.0 * my + sb / 2.0 * mx + sa * sb / 4.0)
  }

  lemma BoundIs(k: nat, sa: real, sb: real, mx: real, my: real)
    ensures Repeated(k, ErrorBound(sa / 2.0, sb / 2.0, mx, my)) == MatmulBound(k, sa, sb, mx, my)
  {
    HalvedBound(sa, sb, mx, my);
    RepeatedIs(k, ErrorBound(sa / 2.0, sb / 2.0, mx, my));
  }

  /** How far entry `(i, j)` of the quantised product is from the exact one. */
  function Deviation(x: seq<real>, a: seq<Code>, ap: QParams, y: seq<real>, b: seq<Code>, bp: QParams, k: nat, n: nat, i: nat, j: nat): real {
    Abs(M.Entry(k, Mat(Dequantised(a, ap), k), Mat(Dequantised(b, bp), n), i, j) - M.Entry(k, Mat(Buffer(x), k), Mat(Buffer(y), n), i, j))
  }

  lemma DeviationBound(x: seq<real>, a: seq<Code>, ap: QParams, y: seq<real>, b: seq<Code>, bp: QParams,
                       m: nat, k: nat, n: nat, i: nat, j: nat, maxX: real, maxY: real, bound: real, total: real)
    requires QuantisedFrom(x, a, ap) && QuantisedFrom(y, b, bp) && BoundedBy(x, maxX) && BoundedBy(y, maxY)
    requires |x| == m * k && |y| == k * n && i < m && j < n
    requires bound == ErrorBound(ap.scale / 2.0, bp.scale / 2.0, maxX, maxY) && Repeated(k, bound) == total
    ensures Deviation(x, a, ap, y, b, bp, k, n, i, j) <= total
  {
    QuantisedClose(x, a, ap, m, k, maxX);
    QuantisedClose(y, b, bp, k, n, maxY);
    AllTermsClose(m, k, n, Mat(Dequantised(a, ap), k), Mat(Buffer(x), k), Mat(Dequantised(b, bp), n), Mat(Buffer(y), n),
                  ap.scale / 2.0, bp.scale / 2.0, maxX, maxY, i, j, bound);
    EntryError(k, Mat(Dequantised(a, ap), k), Mat(Dequantised(b, bp), n), Mat(Buffer(x), k), Mat(Buffer(y), n), i, j, bound);
  }

  lemma MatmulDeviation(x: seq<real>, a: seq<Code>, ap: QParams, y: seq<real>, b: seq<Code>, bp: QParams,
                        m: nat, k: nat, n: nat, i: nat, j: nat, maxX: real, maxY: real, bound: real)
    requires QuantisedFrom(x, a, ap) && QuantisedFrom(y, b, bp) && BoundedBy(x, maxX) && BoundedBy(y, maxY)
    requires |x| == m * k && |y| == k * n && i < m && j < n && bound == MatmulBound(k, ap.scale, bp.scale, maxX, maxY)
    ensures Deviation(x, a, ap, y, b, bp, k, n, i, j) <= bound
  {
    BoundIs(k, ap.scale, bp.scale, maxX, maxY);
    DeviationBound(x, a, ap, y, b, bp, m, k, n, i, j, maxX, maxY, ErrorBound(ap.scale / 2.0, bp.scale / 2.0, maxX, maxY), bound);
  }

  lemma WithinBound(d: real, got: real, exact: real, bound: real)
    requires d == Abs(got - exact) && d <= bound
    ensures exact - bound <= got <= exact + bound
  {
  }

  /**
   Calibrate, quantise, multiply: every entry of the quantised product of `x` and `y` is within
   `k (sa/2 maxY + sb/2 maxX + sa sb/4)` of the exact one.
   */
  lemma MatmulError(x: seq<real>, a: seq<Code>, ap: QParams, y: seq<real>, b: seq<Code>, bp: QParams,
                    m: nat, k: nat, n: nat, i: nat, j: nat, maxX: real, maxY: real, bound: real)
    requires QuantisedFrom(x, a, ap) && QuantisedFrom(y, b, bp) && BoundedBy(x, maxX) && BoundedBy(y, maxY)
    requires |x| == m * k && |y| == k * n && i < m && j < n
    requires bound == MatmulBound(k, ap.scale, bp.scale, maxX, maxY)
    ensures var exact := M.Entry(k, Mat(Buffer(x), k), Mat(Buffer(y), n), i, j);
            exact - bound <= M.Entry(k, Mat(Dequantised(a, ap), k), Mat(Dequantised(b, bp), n), i, j) <= exact + bound
  {
    MatmulDeviation(x, a, ap, y, b, bp, m, k, n, i, j, maxX, maxY, bound);
    WithinBound(Deviation(x, a, ap, y, b, bp, k, n, i, j), M.Entry(k, Mat(Dequantised(a, ap), k), Mat(Dequantised(b, bp), n), i, j),
                M.Entry(k, Mat(Buffer(x), k), Mat(Buffer(y), n), i, j), bound);
  }

  /** The bound, written out. */
  lemma BoundWrittenOut(k: nat, sa: real, sb: real, maxX: real, maxY: real, perTerm: real)
    requires perTerm == sa / 2.0 * maxY + sb / 2.0 * maxX + sa * sb / 4.0
    ensures MatmulBound(k, sa, sb, maxX, maxY) == k as real * perTerm
  {
  }
}
