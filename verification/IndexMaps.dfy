/**
 Reading through an index map and adding back through it. Gather and scatter-add,
 broadcasting and unbroadcasting, row selection and its gradient are all instances: the
 second of each pair is the adjoint of the first.
 */
module IndexMaps {
  import opened Sums

  type Index = int -> int

  /** `p` sends `0..n` into `0..m`. */
  ghost predicate Into(p: Index, n: nat, m: nat) {
    forall l :: 0 <= l < n ==> 0 <= p(l) < m
  }

  function Pull(p: Index, x: Fn): Fn {
    l => x(p(l))
  }

  /** The term that position `l` adds at `k`. */
  function Hit(p: Index, g: Fn, k: int, l: int): real {
    if p(l) == k then g(l) else 0.0
  }

  /** Entry `k` collects `g(l)` for every `l < n` that is sent to `k`. */
  function PushAt(n: nat, p: Index, g: Fn, k: int): real {
    Sum(n, Hits(p, g, k))
  }

  function Hits(p: Index, g: Fn, k: int): Fn {
    l => Hit(p, g, k, l)
  }

  function Push(n: nat, p: Index, g: Fn): Fn {
    k => PushAt(n, p, g, k)
  }

  /** What position `l` adds to the pairing of `Push` with `x`, at entry `k`. */
  function HitTimes(p: Index, g: Fn, x: Fn): Fn2 {
    (l, k) => Hit(p, g, k, l) * x(k)
  }

  lemma ZeroTimes(c: real)
    ensures 0.0 * c == 0.0
  {
  }

  /** Position `l` meets `x` once, at the entry it is sent to. */
  lemma HitOnce(m: nat, p: Index, g: Fn, x: Fn, l: int)
    requires 0 <= p(l) < m
    ensures RowSum(m, HitTimes(p, g, x), l) == Times(g, Pull(p, x))(l)
  {
    var hits := RowFn(HitTimes(p, g, x), l);
    forall k | 0 <= k < m && k != p(l) ensures hits(k) == 0.0 {
      ZeroTimes(x(k));
    }
    SumSingle(m, hits, p(l));
  }

  lemma EntryTimes(n: nat, p: Index, g: Fn, x: Fn, k: int)
    ensures ColSum(n, HitTimes(p, g, x), k) == Times(Push(n, p, g), x)(k)
  {
    var hits := ColumnFn(HitTimes(p, g, x), k);
    forall l: int ensures hits(l) == x(k) * Hits(p, g, k)(l) {
      Swap(Hit(p, g, k, l), x(k));
    }
    SumScale(n, x(k), Hits(p, g, k), hits);
    Swap(x(k), PushAt(n, p, g, k));
  }

  /** `Push` is the adjoint of `Pull`. */
  lemma PushAdjoint(n: nat, m: nat, p: Index, g: Fn, x: Fn)
    requires Into(p, n, m)
    ensures Sum(n, Times(g, Pull(p, x))) == Sum(m, Times(Push(n, p, g), x))
  {
    var h := HitTimes(p, g, x);
    SumSwap(n, m, h);
    forall l | 0 <= l < n ensures RowSums(m, h)(l) == Times(g, Pull(p, x))(l) {
      HitOnce(m, p, g, x, l);
    }
    SumCongruence(n, RowSums(m, h), Times(g, Pull(p, x)));
    forall k: int ensures ColSums(n, h)(k) == Times(Push(n, p, g), x)(k) {
      EntryTimes(n, p, g, x, k);
    }
    SumCongruence(m, ColSums(n, h), Times(Push(n, p, g), x));
  }

  /** Nothing is lost: the total is conserved whatever positions coincide. */
  lemma PushConserves(n: nat, m: nat, p: Index, g: Fn)
    requires Into(p, n, m)
    ensures Sum(m, Push(n, p, g)) == Sum(n, g)
  {
    PushAdjoint(n, m, p, g, One());
    TimesOne(n, g, Pull(p, One()));
    TimesOne(m, Push(n, p, g), One());
  }

  function One(): Fn {
    _ => 1.0
  }

  lemma TimesOne(n: nat, g: Fn, one: Fn)
    requires forall l :: one(l) == 1.0
    ensures Sum(n, Times(g, one)) == Sum(n, g)
  {
    forall l: int ensures Times(g, one)(l) == g(l) {
      TimesOneAt(g(l), one(l));
    }
    SumCongruence(n, Times(g, one), g);
  }

  lemma TimesOneAt(a: real, b: real)
    requires b == 1.0
    ensures a * b == a
  {
  }

  /** Adding back in two steps equals adding back through the composed map. */
  lemma PushComposes(n: nat, m: nat, p: Index, q: Index, g: Fn, k: int)
    requires Into(p, n, m)
    ensures PushAt(m, q, Push(n, p, g), k) == PushAt(n, Composed(q, p), g, k)
  {
    PushAdjoint(n, m, p, g, Indicator(q, k));
    IndicatedSum(m, q, Push(n, p, g), Indicator(q, k), k);
    IndicatedSum(n, Composed(q, p), g, Pull(p, Indicator(q, k)), k);
  }

  function Composed(q: Index, p: Index): Index {
    l => q(p(l))
  }

  function Indicator(q: Index, k: int): Fn {
    j => if q(j) == k then 1.0 else 0.0
  }

  /** Pairing with an indicator collects what is sent to `k`. */
  lemma IndicatedSum(n: nat, q: Index, g: Fn, one: Fn, k: int)
    requires forall l :: one(l) == if q(l) == k then 1.0 else 0.0
    ensures Sum(n, Times(g, one)) == PushAt(n, q, g, k)
  {
    forall l: int ensures Times(g, one)(l) == Hits(q, g, k)(l) {
      IndicatedTerm(g(l), one(l));
    }
    SumCongruence(n, Times(g, one), Hits(q, g, k));
  }

  lemma IndicatedTerm(a: real, b: real)
    requires b == 0.0 || b == 1.0
    ensures a * b == if b == 1.0 then a else 0.0
  {
  }

  lemma PushCongruence(n: nat, p: Index, q: Index, g: Fn, h: Fn, k: int)
    requires forall l :: 0 <= l < n ==> p(l) == q(l) && g(l) == h(l)
    ensures PushAt(n, p, g, k) == PushAt(n, q, h, k)
  {
    SumCongruence(n, Hits(p, g, k), Hits(q, h, k));
  }

  // ---- Accumulating loops ----

  function Buffer(data: seq<real>): Fn {
    l => At(data, l)
  }

  /** One accumulation moves the sum from `l` positions to `l + 1`. */
  lemma PushOne(n: nat, p: Index, g: Fn, k: int)
    ensures PushAt(n + 1, p, g, k) == PushAt(n, p, g, k) + (if p(n) == k then g(n) else 0.0)
  {
    assert Sum(n + 1, Hits(p, g, k)) == Sum(n, Hits(p, g, k)) + Hits(p, g, k)(n);
  }

  /** The buffer holds the sums of the first `l` positions. */
  ghost predicate Summed(out: seq<real>, l: nat, p: Index, g: Fn) {
    forall k :: 0 <= k < |out| ==> out[k] == PushAt(l, p, g, k)
  }

  lemma SummedStep(out: seq<real>, l: nat, p: Index, g: Fn)
    requires Summed(out, l, p, g) && 0 <= p(l) < |out|
    ensures Summed(out[p(l) := out[p(l)] + g(l)], l + 1, p, g)
  {
    forall k | 0 <= k < |out| ensures PushAt(l + 1, p, g, k) == out[k] + (if p(l) == k then g(l) else 0.0) {
      PushOne(l, p, g, k);
    }
  }

  /** A buffer of accumulated sums pairs as the adjoint requires, and keeps the total. */
  lemma SummedIsAdjoint(out: seq<real>, n: nat, p: Index, g: Fn, x: Fn)
    requires Into(p, n, |out|) && Summed(out, n, p, g)
    ensures Sum(n, Times(g, Pull(p, x))) == Sum(|out|, Times(Buffer(out), x))
    ensures Sum(|out|, Buffer(out)) == Sum(n, g)
  {
    PushAdjoint(n, |out|, p, g, x);
    PushConserves(n, |out|, p, g);
    SumCongruence(|out|, Push(n, p, g), Buffer(out));
    SamePairing(|out|, Push(n, p, g), Buffer(out), x);
  }
}
