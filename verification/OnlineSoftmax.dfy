/**
 The streaming softmax state `(m, l)`: running maximum and sum of `exp(x - m)`.
 */
module OnlineSoftmax {
  import opened Floats

  datatype State = State(m: Float, l: Float) {
    predicate IsEmpty() {
      m == NegInf && l == Fin(0.0)
    }
  }

  const EMPTY := State(NegInf, Fin(0.0))

  function FromScalar(x: Float): State {
    State(x, Fin(1.0))
  }

  /** The state after `absorb(x)`. */
  function Absorbed(fp: Arithmetic, st: State, x: Float): State {
    if fp.Gt(x, st.m) then State(x, fp.Add(fp.Mul(st.l, fp.Exp(fp.Sub(st.m, x))), Fin(1.0)))
    else State(st.m, fp.Add(st.l, fp.Exp(fp.Sub(x, st.m))))
  }

  function CombineTiles(fp: Arithmetic, a: State, b: State): State {
    if a.IsEmpty() then b
    else if b.IsEmpty() then a
    else
      var m := if fp.Gt(a.m, b.m) then a.m else b.m;
      if a.m == m && b.m == m then State(m, fp.Add(a.l, b.l))
      else if a.m == m then State(m, fp.Add(a.l, fp.Mul(b.l, fp.Exp(fp.Sub(b.m, m)))))
      else State(m, fp.Add(fp.Mul(a.l, fp.Exp(fp.Sub(a.m, m))), b.l))
  }

  // ---- What a state stands for ----

  function Max(a: real, b: real): real {
    if a > b then a else b
  }

  function MaxOf(xs: seq<real>): (m: real)
    requires xs != []
    ensures m in xs && forall i :: 0 <= i < |xs| ==> xs[i] <= m
  {
    if |xs| == 1 then xs[0] else Max(MaxOf(xs[..|xs| - 1]), xs[|xs| - 1])
  }

  function ExpSum(fp: Arithmetic, xs: seq<real>, m: real): real {
    if xs == [] then 0.0 else ExpSum(fp, xs[..|xs| - 1], m) + fp.exp(xs[|xs| - 1] - m)
  }

  /** The two-pass softmax statistics of a list: its maximum and the sum of `exp(x - max)`. */
  function Summary(fp: Arithmetic, xs: seq<real>): State {
    if xs == [] then EMPTY else State(Fin(MaxOf(xs)), Fin(ExpSum(fp, xs, MaxOf(xs))))
  }

  lemma {:induction false} ExpSumShift(fp: Arithmetic, xs: seq<real>, m: real, n: real)
    ensures ExpSum(fp, xs, m) * fp.exp(m - n) == ExpSum(fp, xs, n)
  {
    if xs != [] {
      ExpSumShift(fp, xs[..|xs| - 1], m, n);
      ExpShift(fp.exp, xs[|xs| - 1], m, n);
    }
  }

  lemma {:induction false} ExpSumAppend(fp: Arithmetic, xs: seq<real>, ys: seq<real>, m: real)
    ensures ExpSum(fp, xs + ys, m) == ExpSum(fp, xs, m) + ExpSum(fp, ys, m)
  {
    if ys == [] {
      assert xs + ys == xs;
    } else {
      ExpSumAppend(fp, xs, ys[..|ys| - 1], m);
      assert (xs + ys)[..|xs + ys| - 1] == xs + ys[..|ys| - 1];
    }
  }

  lemma MaxOfUnique(xs: seq<real>, m: real)
    requires xs != [] && m in xs && forall i :: 0 <= i < |xs| ==> xs[i] <= m
    ensures MaxOf(xs) == m
  {
  }

  lemma MaxOfAppend(xs: seq<real>, ys: seq<real>)
    requires xs != [] && ys != []
    ensures MaxOf(xs + ys) == Max(MaxOf(xs), MaxOf(ys))
  {
    var m := Max(MaxOf(xs), MaxOf(ys));
    assert m in xs + ys;
    MaxOfUnique(xs + ys, m);
  }

  // ---- Homomorphism: concatenation becomes combination ----

  lemma CombineFinite(fp: Arithmetic, s: State, t: State, u: State)
    requires s.m.Fin? && s.l.Fin? && t.m.Fin? && t.l.Fin? && u.m.Fin? && u.l.Fin?
    requires u.m.r == Max(s.m.r, t.m.r) && IsCombined(fp, s.m.r, s.l.r, t.m.r, t.l.r, u.m.r, u.l.r)
    ensures CombineTiles(fp, s, t) == u
  {
    ExpZero(fp.exp, u.m.r - u.m.r);
    var r := CombineTiles(fp, s, t);
    assert r.m.Fin? && r.l.Fin? && r.m.r == u.m.r && r.l.r == u.l.r;
  }

  /** Sums `p` relative to `a` and `q` relative to `b`, together relative to `m`. */
  ghost predicate IsCombined(fp: Arithmetic, a: real, p: real, b: real, q: real, m: real, r: real) {
    r == p * fp.exp(a - m) + q * fp.exp(b - m)
  }

  lemma ExpSumOfParts(fp: Arithmetic, xs: seq<real>, ys: seq<real>, a: real, b: real, m: real)
    ensures IsCombined(fp, a, ExpSum(fp, xs, a), b, ExpSum(fp, ys, b), m, ExpSum(fp, xs + ys, m))
  {
    ExpSumAppend(fp, xs, ys, m);
    ExpSumShift(fp, xs, a, m);
    ExpSumShift(fp, ys, b, m);
  }

  /** Summarising a concatenation equals combining the summaries of its parts. */
  lemma SummaryCombines(fp: Arithmetic, xs: seq<real>, ys: seq<real>)
    ensures CombineTiles(fp, Summary(fp, xs), Summary(fp, ys)) == Summary(fp, xs + ys)
  {
    if xs == [] {
      assert xs + ys == ys;
    } else if ys == [] {
      assert xs + ys == xs;
    } else {
      MaxOfAppend(xs, ys);
      CombineSums(fp, xs, ys, MaxOf(xs), MaxOf(ys), MaxOf(xs + ys), Summary(fp, xs), Summary(fp, ys), Summary(fp, xs + ys));
    }
  }

  lemma CombineSums(fp: Arithmetic, xs: seq<real>, ys: seq<real>, a: real, b: real, m: real, s: State, t: State, u: State)
    requires m == Max(a, b) && s == State(Fin(a), Fin(ExpSum(fp, xs, a))) && t == State(Fin(b), Fin(ExpSum(fp, ys, b)))
    requires u == State(Fin(m), Fin(ExpSum(fp, xs + ys, m)))
    ensures CombineTiles(fp, s, t) == u
  {
    ExpSumOfParts(fp, xs, ys, a, b, m);
    CombineFinite(fp, s, t, u);
  }

  lemma SummarySingle(fp: Arithmetic, x: real)
    ensures Summary(fp, [x]) == State(Fin(x), Fin(1.0))
  {
    assert [x][..0] == [];
    assert ExpSum(fp, [x], x) == ExpSum(fp, [], x) + fp.exp(x - x);
    assert x - x == 0.0;
  }

  /** `absorb` equals combining with the state of a single score. */
  lemma AbsorbIsCombine(fp: Arithmetic, st: State, x: real)
    requires Proper(st) && (st.m.Fin? || st == EMPTY)
    ensures Absorbed(fp, st, Fin(x)) == CombineTiles(fp, st, FromScalar(Fin(x)))
  {
    if st.m.Fin? {
      assert st.m.r - st.m.r == 0.0;
      assert 1.0 * fp.exp(x - st.m.r) == fp.exp(x - st.m.r);
    }
  }

  lemma SummaryAbsorbs(fp: Arithmetic, xs: seq<real>, x: real)
    ensures Absorbed(fp, Summary(fp, xs), Fin(x)) == Summary(fp, xs + [x])
  {
    AbsorbIsCombine(fp, Summary(fp, xs), x);
    SummarySingle(fp, x);
    SummaryCombines(fp, xs, [x]);
  }

  /** How a list of scores is cut into tiles and the order in which the tiles are combined. */
  datatype Tiling = Tile(xs: seq<real>) | Join(left: Tiling, right: Tiling) {
    function Flatten(): seq<real> {
      match this
      case Tile(xs) => xs
      case Join(l, r) => l.Flatten() + r.Flatten()
    }

    function Eval(fp: Arithmetic): State {
      match this
      case Tile(xs) => Summary(fp, xs)
      case Join(l, r) => CombineTiles(fp, l.Eval(fp), r.Eval(fp))
    }
  }

  lemma {:induction false} TilingEval(fp: Arithmetic, t: Tiling)
    ensures t.Eval(fp) == Summary(fp, t.Flatten())
  {
    match t
    case Tile(_) =>
    case Join(l, r) =>
      TilingEval(fp, l);
      TilingEval(fp, r);
      SummaryCombines(fp, l.Flatten(), r.Flatten());
  }

  lemma {:induction false} ExpSumRemove(fp: Arithmetic, xs: seq<real>, k: nat, m: real)
    requires k < |xs|
    ensures ExpSum(fp, xs, m) == ExpSum(fp, xs[..k] + xs[k + 1..], m) + fp.exp(xs[k] - m)
  {
    assert xs == (xs[..k] + [xs[k]]) + xs[k + 1..];
    ExpSumAppend(fp, xs[..k] + [xs[k]], xs[k + 1..], m);
    ExpSumAppend(fp, xs[..k], xs[k + 1..], m);
    assert (xs[..k] + [xs[k]])[..k] == xs[..k];
  }

  lemma RemoveMultiset(xs: seq<real>, k: nat)
    requires k < |xs|
    ensures multiset(xs[..k] + xs[k + 1..]) == multiset(xs) - multiset{xs[k]}
  {
    assert xs == xs[..k] + [xs[k]] + xs[k + 1..];
  }

  /** Taking the last element of one list out of the other leaves the same elements. */
  lemma RemoveLast(xs: seq<real>, ys: seq<real>) returns (k: nat)
    requires multiset(xs) == multiset(ys) && xs != []
    ensures k < |ys| && ys[k] == xs[|xs| - 1]
    ensures multiset(xs[..|xs| - 1]) == multiset(ys[..k] + ys[k + 1..])
  {
    var n := |xs| - 1;
    assert xs[n] in multiset(ys);
    k :| 0 <= k < |ys| && ys[k] == xs[n];
    RemoveMultiset(xs, n);
    RemoveMultiset(ys, k);
    assert xs[..n] + xs[n + 1..] == xs[..n];
  }

  /** The sum does not depend on the order of the elements. */
  lemma {:induction false} ExpSumPermutes(fp: Arithmetic, xs: seq<real>, ys: seq<real>, m: real)
    requires multiset(xs) == multiset(ys)
    ensures ExpSum(fp, xs, m) == ExpSum(fp, ys, m)
    decreases |xs|
  {
    assert |xs| == |multiset(xs)| == |ys|;
    if xs != [] {
      var k := RemoveLast(xs, ys);
      ExpSumPermutes(fp, xs[..|xs| - 1], ys[..k] + ys[k + 1..], m);
      ExpSumRemove(fp, ys, k, m);
    }
  }

  lemma MaxOfPermutes(xs: seq<real>, ys: seq<real>)
    requires multiset(xs) == multiset(ys) && xs != [] && ys != []
    ensures MaxOf(xs) == MaxOf(ys)
  {
    assert MaxOf(ys) in multiset(xs) && MaxOf(xs) in multiset(ys);
  }

  /**
   Any two ways of cutting the same scores into tiles, permuting and bracketing them give the
   same state, which is the two-pass one.
   */
  lemma TilingsAgree(fp: Arithmetic, s: Tiling, t: Tiling)
    requires multiset(s.Flatten()) == multiset(t.Flatten())
    ensures s.Eval(fp) == t.Eval(fp) == Summary(fp, s.Flatten())
  {
    var xs, ys := s.Flatten(), t.Flatten();
    TilingEval(fp, s);
    TilingEval(fp, t);
    assert |xs| == |multiset(xs)| == |ys|;
    if xs != [] {
      MaxOfPermutes(xs, ys);
      ExpSumPermutes(fp, xs, ys, MaxOf(xs));
    }
  }

  // ---- The combinator as a commutative monoid ----

  /** EMPTY, or a finite maximum with a finite sum. */
  predicate Proper(st: State) {
    st == EMPTY || (st.m.Fin? && st.l.Fin?)
  }

  lemma CombineIdentity(fp: Arithmetic, a: State)
    requires Proper(a)
    ensures CombineTiles(fp, EMPTY, a) == a == CombineTiles(fp, a, EMPTY)
  {
  }

  lemma CombineCommutes(fp: Arithmetic, a: State, b: State)
    requires Proper(a) && Proper(b)
    ensures CombineTiles(fp, a, b) == CombineTiles(fp, b, a)
  {
  }

  /** A proper state, relative to a fixed reference point: its sum is `l * exp(m - k)`. */
  function MassAt(fp: Arithmetic, st: State, k: real): real {
    if st.m.Fin? && st.l.Fin? then st.l.r * fp.exp(st.m.r - k) else 0.0
  }

  lemma CombineMass(fp: Arithmetic, a: State, b: State, k: real)
    requires Proper(a) && Proper(b)
    ensures Proper(CombineTiles(fp, a, b))
    ensures MassAt(fp, CombineTiles(fp, a, b), k) == MassAt(fp, a, k) + MassAt(fp, b, k)
    ensures CombineTiles(fp, a, b).m
         == if a.m.Fin? && b.m.Fin? then Fin(Max(a.m.r, b.m.r)) else if a.m.Fin? then a.m else b.m
  {
    if a.m.Fin? && b.m.Fin? {
      var m := Max(a.m.r, b.m.r);
      ExpShift(fp.exp, a.m.r, m, k);
      ExpShift(fp.exp, b.m.r, m, k);
      if a.m.r == m && b.m.r == m {
        assert (a.l.r + b.l.r) * fp.exp(m - k) == a.l.r * fp.exp(m - k) + b.l.r * fp.exp(m - k);
      } else if a.m.r == m {
        Distribute(a.l.r, b.l.r, fp.exp(b.m.r - m), fp.exp(m - k));
      } else {
        Distribute(b.l.r, a.l.r, fp.exp(a.m.r - m), fp.exp(m - k));
      }
    }
  }

  lemma Distribute(x: real, y: real, p: real, q: real)
    ensures (x + y * p) * q == x * q + y * (p * q)
  {
  }

  lemma MassDetermines(fp: Arithmetic, a: State, b: State)
    requires Proper(a) && Proper(b) && a.m == b.m
    requires forall k :: MassAt(fp, a, k) == MassAt(fp, b, k)
    ensures a == b
  {
    if a.m.Fin? {
      var k := a.m.r;
      assert MassAt(fp, a, k) == a.l.r * fp.exp(k - k);
      assert MassAt(fp, b, k) == b.l.r * fp.exp(k - k);
      assert k - k == 0.0;
    }
  }

  lemma CombineAssociates(fp: Arithmetic, a: State, b: State, c: State)
    requires Proper(a) && Proper(b) && Proper(c)
    ensures CombineTiles(fp, CombineTiles(fp, a, b), c) == CombineTiles(fp, a, CombineTiles(fp, b, c))
  {
    var ab, bc := CombineTiles(fp, a, b), CombineTiles(fp, b, c);
    CombineMass(fp, a, b, 0.0);
    CombineMass(fp, b, c, 0.0);
    var left, right := CombineTiles(fp, ab, c), CombineTiles(fp, a, bc);
    CombineMass(fp, ab, c, 0.0);
    CombineMass(fp, a, bc, 0.0);
    forall k ensures MassAt(fp, left, k) == MassAt(fp, right, k) {
      CombineMass(fp, a, b, k);
      CombineMass(fp, b, c, k);
      CombineMass(fp, ab, c, k);
      CombineMass(fp, a, bc, k);
    }
    MassDetermines(fp, left, right);
  }

  // ---- Streaming ----

  /** The finite scores, in order. */
  function Visible(xs: seq<Float>): seq<real> {
    if xs == [] then []
    else Visible(xs[..|xs| - 1]) + (if xs[|xs| - 1].Fin? then [xs[|xs| - 1].r] else [])
  }

  /** The number of scores +inf. */
  function Infinite(xs: seq<Float>): nat {
    if xs == [] then 0 else Infinite(xs[..|xs| - 1]) + (if xs[|xs| - 1].PosInf? then 1 else 0)
  }

  /** The largest score; NaN is passed over. */
  function MaxScore(xs: seq<Float>): Float {
    if Infinite(xs) > 0 then PosInf else if Visible(xs) == [] then NegInf else Fin(MaxOf(Visible(xs)))
  }

  /** The sum is NaN for good: a leading -inf, a NaN, or two scores of +inf. */
  ghost predicate Spoiled(xs: seq<Float>) {
    FirstMasked(xs) || NaN in xs || Infinite(xs) > 1
  }

  predicate FirstMasked(xs: seq<Float>) {
    xs != [] && xs[0].NegInf?
  }

  /** The documented statistics: those of two passes over the visible scores, or all mass on a single +inf. */
  function Documented(fp: Arithmetic, xs: seq<Float>): State {
    if Infinite(xs) > 0 then State(PosInf, Fin(1.0)) else Summary(fp, Visible(xs))
  }

  /** The state after streaming the scores. */
  ghost function Streamed(fp: Arithmetic, xs: seq<Float>): State {
    if Spoiled(xs) then State(MaxScore(xs), NaN) else Documented(fp, xs)
  }

  lemma VisibleAppend(xs: seq<Float>, x: Float)
    ensures Visible(xs + [x]) == if x.Fin? then Visible(xs) + [x.r] else Visible(xs)
    ensures Infinite(xs + [x]) == Infinite(xs) + (if x.PosInf? then 1 else 0)
  {
    assert (xs + [x])[..|xs|] == xs;
  }

  lemma {:induction false} FirstCounts(xs: seq<Float>)
    ensures xs != [] && xs[0].Fin? ==> Visible(xs) != []
    ensures xs != [] && xs[0].PosInf? ==> Infinite(xs) > 0
  {
    if |xs| > 1 {
      FirstCounts(xs[..|xs| - 1]);
    } else if xs != [] {
      assert xs == [] + [xs[0]];
      VisibleAppend([], xs[0]);
    }
  }

  lemma StreamedStep(fp: Arithmetic, xs: seq<Float>, x: Float)
    ensures Absorbed(fp, Streamed(fp, xs), x) == Streamed(fp, xs + [x])
  {
    MaxScoreAppend(fp, xs, x);
    SpoiledAppend(xs, x);
    if Spoiled(xs) {
      SpoiledStep(fp, MaxScore(xs), x);
    } else {
      NotMasked(xs);
      SoundStep(fp, xs, x);
      if Spoils(xs, x) {
        SpoilingKeepsMax(fp, xs, x);
      }
    }
  }

  lemma NotMasked(xs: seq<Float>)
    requires !Spoiled(xs)
    ensures xs != [] ==> Visible(xs) != [] || Infinite(xs) > 0
  {
    FirstCounts(xs);
    if xs != [] {
      assert xs[0] in xs;
    }
  }

  lemma SpoiledStep(fp: Arithmetic, m: Float, x: Float)
    ensures Absorbed(fp, State(m, NaN), x) == State(if fp.Gt(x, m) then x else m, NaN)
  {
  }

  lemma SpoilingKeepsMax(fp: Arithmetic, xs: seq<Float>, x: Float)
    requires Spoils(xs, x)
    ensures !fp.Gt(x, MaxScore(xs))
  {
  }

  lemma FirstAppend(xs: seq<Float>, x: Float)
    ensures FirstMasked(xs + [x]) <==> FirstMasked(xs) || (xs == [] && x.NegInf?)
    ensures NaN in xs + [x] <==> NaN in xs || x.NaN?
  {
  }

  lemma SpoiledAppend(xs: seq<Float>, x: Float)
    ensures Spoiled(xs + [x]) <==> Spoiled(xs) || Spoils(xs, x)
  {
    VisibleAppend(xs, x);
    FirstAppend(xs, x);
  }

  /** A score that makes the sum NaN. */
  predicate Spoils(xs: seq<Float>, x: Float) {
    x.NaN? || (xs == [] && x.NegInf?) || (x.PosInf? && Infinite(xs) > 0)
  }

  /** A score that meets a sound state. */
  lemma SoundStep(fp: Arithmetic, xs: seq<Float>, x: Float)
    requires xs != [] ==> Visible(xs) != [] || Infinite(xs) > 0
    ensures Absorbed(fp, Documented(fp, xs), x) == if Spoils(xs, x) then State(MaxScore(xs), NaN) else Documented(fp, xs + [x])
  {
    VisibleAppend(xs, x);
    if Infinite(xs) > 0 {
      AfterInfinite(fp, x);
    } else if x.Fin? {
      SummaryAbsorbs(fp, Visible(xs), x.r);
    } else if Visible(xs) == [] {
      assert Documented(fp, xs) == EMPTY;
    } else {
      AfterVisible(fp, Summary(fp, Visible(xs)), x);
    }
  }

  lemma AfterInfinite(fp: Arithmetic, x: Float)
    ensures Absorbed(fp, State(PosInf, Fin(1.0)), x) == State(PosInf, if x.NaN? || x.PosInf? then NaN else Fin(1.0))
  {
  }

  lemma AfterVisible(fp: Arithmetic, st: State, x: Float)
    requires st.m.Fin? && st.l.Fin? && !x.Fin?
    ensures Absorbed(fp, st, x) == if x.PosInf? then State(PosInf, Fin(1.0)) else if x.NaN? then State(st.m, NaN) else st
  {
  }

  lemma MaxScoreAppend(fp: Arithmetic, xs: seq<Float>, x: Float)
    ensures MaxScore(xs + [x]) == if fp.Gt(x, MaxScore(xs)) then x else MaxScore(xs)
  {
    VisibleAppend(xs, x);
    if x.Fin? {
      MaxOfSingle(Visible(xs), x.r);
    }
  }

  lemma MaxOfSingle(vs: seq<real>, x: real)
    ensures vs == [] ==> vs + [x] == [x]
    ensures MaxOf(vs + [x]) == if vs == [] then x else Max(MaxOf(vs), x)
  {
    if vs == [] {
      assert vs + [x] == [x];
    } else {
      assert MaxOf([x]) == x;
      MaxOfAppend(vs, [x]);
    }
  }

  class OnlineSoftmaxState {
    const fp: Arithmetic
    var m: Float
    var l: Float

    constructor (fp: Arithmetic)
      ensures this.fp == fp && View() == EMPTY
    {
      this.fp := fp;
      m, l := NegInf, Fin(0.0);
    }

    function View(): State
      reads this
    {
      State(m, l)
    }

    method Absorb(x: Float)
      modifies this
      ensures View() == Absorbed(fp, old(View()), x)
    {
      if fp.Gt(x, m) {
        l := fp.Add(fp.Mul(l, fp.Exp(fp.Sub(m, x))), Fin(1.0));
        m := x;
      } else {
        l := fp.Add(l, fp.Exp(fp.Sub(x, m)));
      }
    }
  }

  /** `online_softmax_full`, on every list of scores. */
  method OnlineSoftmaxFull(fp: Arithmetic, xs: seq<Float>) returns (st: State)
    ensures st == Streamed(fp, xs)
    ensures xs == [] ==> st == EMPTY
    ensures st == if Spoiled(xs) then State(MaxScore(xs), NaN) else Documented(fp, xs)
  {
    var state := new OnlineSoftmaxState(fp);
    var i := 0;
    while i < |xs|
      invariant 0 <= i <= |xs| && state.fp == fp
      invariant state.View() == Streamed(fp, xs[..i])
    {
      StreamedStep(fp, xs[..i], xs[i]);
      assert xs[..i + 1] == xs[..i] + [xs[i]];
      state.Absorb(xs[i]);
      i := i + 1;
    }
    assert xs[..i] == xs;
    st := state.View();
  }

  /**
   The documented result is what streaming returns if and only if the first score is not -inf, no score
   is NaN and at most one is +inf; otherwise the sum is NaN.
   */
  lemma StreamedAsDocumented(fp: Arithmetic, xs: seq<Float>)
    ensures Streamed(fp, xs) == Documented(fp, xs) <==> !FirstMasked(xs) && NaN !in xs && Infinite(xs) <= 1
    ensures Streamed(fp, xs).l == NaN <==> Streamed(fp, xs) != Documented(fp, xs)
    ensures Streamed(fp, xs).m == MaxScore(xs)
  {
    assert Documented(fp, xs).l.Fin? && Documented(fp, xs).m == MaxScore(xs);
  }

  /** A single masked score: documented as `(-inf, 0)`, computed as `(-inf, NaN)`. */
  lemma MaskedScoreIsNaN(fp: Arithmetic)
    ensures Absorbed(fp, EMPTY, NegInf) == State(NegInf, NaN) == Streamed(fp, [NegInf])
    ensures Documented(fp, [NegInf]) == State(NegInf, Fin(0.0))
  {
    VisibleAppend([], NegInf);
    assert [] + [NegInf] == [NegInf];
  }

  /** A +inf anywhere among finite scores takes all the mass. */
  lemma SingleInfinite(fp: Arithmetic, xs: seq<Float>, ys: seq<Float>)
    requires AllFinite(xs) && AllFinite(ys)
    ensures Streamed(fp, xs + [PosInf] + ys) == State(PosInf, Fin(1.0))
  {
    NoneInfinite(xs, []);
    VisibleAppend(xs, PosInf);
    NoneInfinite(ys, xs + [PosInf]);
    assert xs + [] == xs;
    AllSound(xs + [PosInf] + ys);
  }

  lemma AllSound(xs: seq<Float>)
    requires forall x :: x in xs ==> x.Fin? || x.PosInf?
    ensures !FirstMasked(xs) && NaN !in xs
  {
    if xs != [] {
      assert xs[0] in xs;
    }
  }

  ghost predicate AllFinite(xs: seq<Float>) {
    forall x :: x in xs ==> x.Fin?
  }

  lemma {:induction false} NoneInfinite(ys: seq<Float>, xs: seq<Float>)
    requires AllFinite(ys)
    ensures Infinite(xs + ys) == Infinite(xs) && Infinite(ys) == 0
  {
    if ys == [] {
      assert xs + ys == xs;
    } else {
      var init, last := ys[..|ys| - 1], ys[|ys| - 1];
      NoneInfinite(init, xs);
      assert ys == init + [last] && xs + ys == xs + init + [last];
      VisibleAppend(xs + init, last);
    }
  }
}
