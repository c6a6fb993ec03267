/**
 Splitting a range into chunks. Worker scheduling is a parameter: chunks may run in any order,
 and `AnyInterleaving` covers element-by-element interleavings of the chunks as well.
 */
module Parallel {
  import opened Sequences
  import opened Strides

  function DivCeil(a: nat, b: nat): nat
    requires b > 0
  {
    if a % b == 0 then a / b else a / b + 1
  }

  function Clamp(x: nat, lo: nat, hi: nat): nat
    requires lo <= hi
  {
    if x < lo then lo else if x > hi then hi else x
  }

  /** `effective_chunk_size`. */
  function EffectiveChunkSize(total: nat, hint: nat, threads: nat): (chunk: nat)
    ensures chunk >= 1 && (total >= 1 ==> chunk <= total)
    ensures total >= 8 ==> chunk >= 8
    ensures 8 <= hint <= total ==> chunk == hint
  {
    var n := if threads == 0 then 1 else threads;
    var raw := if hint == 0 then DivCeil(total, n) else hint;
    var floor := if total < 8 then total else 8;
    Clamp(raw, if floor == 0 then 1 else floor, if total == 0 then 1 else total)
  }

  function ChunkLo(start: nat, chunk: nat, i: nat): nat {
    start + i * chunk
  }

  function ChunkHi(start: nat, end: nat, chunk: nat, i: nat): nat {
    if ChunkLo(start, chunk, i) + chunk < end then ChunkLo(start, chunk, i) + chunk else end
  }

  lemma DivCeilBounds(a: nat, b: nat)
    requires b > 0
    ensures DivCeil(a, b) * b >= a
    ensures a > 0 ==> DivCeil(a, b) > 0 && (DivCeil(a, b) - 1) * b < a
  {
    Division(a, b);
    if a > 0 && a % b == 0 {
      QuotientPositive(a, b);
      assert (a / b - 1) * b == a / b * b - b;
    }
  }

  lemma MulZero(q: nat, b: nat)
    ensures q == 0 ==> q * b == 0
  {
  }

  lemma QuotientPositive(a: nat, b: nat)
    requires b > 0 && a > 0 && a % b == 0
    ensures a / b > 0
  {
    Division(a, b);
    MulZero(a / b, b);
  }

  /** Without a hint there is at most one chunk per worker thread, and the work is balanced unless the floor of eight merges chunks. */
  lemma ChunksPerThread(total: nat, threads: nat, n: nat, chunk: nat)
    requires total > 0 && n == (if threads == 0 then 1 else threads) && chunk == EffectiveChunkSize(total, 0, threads)
    ensures DivCeil(total, chunk) <= n
    ensures chunk > 8 ==> (chunk - 1) * n < total
  {
    DivCeilBounds(total, n);
    DivCeilAtMost(total, n);
    MulMonotone(DivCeil(total, n), chunk, n);
    DivCeilBounds(total, chunk);
    if DivCeil(total, chunk) > n {
      MulMonotone(n, DivCeil(total, chunk) - 1, chunk);
    }
  }

  lemma DivCeilAtMost(a: nat, b: nat)
    requires b > 0
    ensures DivCeil(a, b) <= a
  {
    DivCeilBounds(a, b);
    if DivCeil(a, b) > a {
      MulMonotone(a, DivCeil(a, b) - 1, b);
      MulMonotone(1, b, a);
    }
  }

  /** `x` lies in chunk `i`. */
  predicate InChunk(x: nat, start: nat, end: nat, chunk: nat, i: nat) {
    ChunkLo(start, chunk, i) <= x < ChunkHi(start, end, chunk, i)
  }

  /** No chunk is empty, and every chunk stays in the range. */
  lemma ChunkNonEmpty(start: nat, end: nat, chunk: nat, i: nat)
    requires chunk > 0 && start < end && i < DivCeil(end - start, chunk)
    ensures start <= ChunkLo(start, chunk, i) < ChunkHi(start, end, chunk, i) <= end
  {
    DivCeilBounds(end - start, chunk);
    MulMonotone(i, DivCeil(end - start, chunk) - 1, chunk);
  }

  /** Every position of the range lies in exactly one chunk. */
  lemma ChunksPartition(start: nat, end: nat, chunk: nat, x: nat)
    requires chunk > 0 && start <= x < end
    ensures exists i :: i == (x - start) / chunk && i < DivCeil(end - start, chunk) && InChunk(x, start, end, chunk, i)
    ensures forall i: nat, j: nat :: InChunk(x, start, end, chunk, i) && InChunk(x, start, end, chunk, j) ==> i == j
  {
    var i := (x - start) / chunk;
    Division(x - start, chunk);
    DivCeilBounds(end - start, chunk);
    DivBound(x - start, DivCeil(end - start, chunk), chunk);
    assert InChunk(x, start, end, chunk, i);
    forall a: nat, b: nat | InChunk(x, start, end, chunk, a) && InChunk(x, start, end, chunk, b) ensures a == b {
      QuotientUnique(a, x - start - a * chunk, b, x - start - b * chunk, chunk);
    }
  }

  // ---- Runs ----

  predicate Within(trace: seq<nat>, n: nat) {
    forall i :: 0 <= i < |trace| ==> trace[i] < n
  }

  /** Updates of single positions, in the order given. */
  function Updates<T>(trace: seq<nat>, s: seq<T>, f: (nat, T) -> T): (r: seq<T>)
    requires Within(trace, |s|)
    ensures |r| == |s|
  {
    if trace == [] then s
    else Updates(trace[1..], s[trace[0] := f(trace[0], s[trace[0]])], f)
  }

  /** What the plain loop over the range computes. */
  function Serial<T>(s: seq<T>, start: nat, end: nat, f: (nat, T) -> T): (r: seq<T>)
    requires end <= |s|
    ensures |r| == |s|
  {
    seq(|s|, x requires 0 <= x < |s| => if start <= x < end then f(x, s[x]) else s[x])
  }

  lemma {:induction false} UpdatesAt<T>(trace: seq<nat>, s: seq<T>, f: (nat, T) -> T, x: nat)
    requires Within(trace, |s|)
    requires Distinct(trace) && x < |s|
    ensures Updates(trace, s, f)[x] == if x in trace then f(x, s[x]) else s[x]
  {
    if trace != [] {
      UpdatesAt(trace[1..], s[trace[0] := f(trace[0], s[trace[0]])], f, x);
    }
  }

  /** Any order of the updates, interleaved at will, gives the serial result. */
  lemma AnyInterleaving<T>(trace: seq<nat>, s: seq<T>, start: nat, end: nat, f: (nat, T) -> T)
    requires end <= |s| && Within(trace, |s|) && Distinct(trace) && forall x: nat :: x in trace <==> start <= x < end
    ensures Updates(trace, s, f) == Serial(s, start, end, f)
  {
    forall x | 0 <= x < |s| ensures Updates(trace, s, f)[x] == Serial(s, start, end, f)[x] {
      UpdatesAt(trace, s, f, x);
    }
  }

  lemma {:induction false} UpdatesAppend<T>(a: seq<nat>, x: nat, s: seq<T>, f: (nat, T) -> T)
    requires Within(a, |s|) && x < |s|
    ensures Within(a + [x], |s|)
    ensures var r := Updates(a, s, f); Updates(a + [x], s, f) == r[x := f(x, r[x])]
  {
    if a == [] {
      assert a + [x] == [x] && [x][1..] == [];
    } else {
      UpdatesAppend(a[1..], x, s[a[0] := f(a[0], s[a[0]])], f);
      assert (a + [x])[1..] == a[1..] + [x];
    }
  }

  /** Every chunk runs once. */
  ghost predicate Schedule(order: seq<nat>, count: nat) {
    Distinct(order) && forall i: nat :: i in order <==> i < count
  }

  /** The closure on one chunk. */
  method RunChunk<T>(out: array<T>, lo: nat, hi: nat, f: (nat, T) -> T, ghost trace: seq<nat>, ghost was: seq<T>) returns (ghost after: seq<nat>)
    requires lo <= hi <= out.Length == |was|
    requires Within(trace, |was|) && out[..] == Updates(trace, was, f)
    requires Distinct(trace) && forall y: nat :: y in trace ==> !(lo <= y < hi)
    modifies out
    ensures Distinct(after) && Within(after, |was|) && forall y: nat :: y in after <==> y in trace || lo <= y < hi
    ensures out[..] == Updates(after, was, f)
  {
    after := trace;
    for x := lo to hi
      invariant Distinct(after) && Within(after, |was|) && forall y: nat :: y in after <==> y in trace || lo <= y < x
      invariant out[..] == Updates(after, was, f)
    {
      UpdatesAppend(after, x, was, f);
      assert forall i :: 0 <= i < |after| ==> after[i] in after;
      ghost var r := out[..];
      out[x] := f(x, out[x]);
      assert out[..] == r[x := f(x, r[x])];
      after := after + [x];
    }
  }

  ghost predicate Covered(y: nat, start: nat, end: nat, chunk: nat, order: seq<nat>) {
    exists c :: c in order && InChunk(y, start, end, chunk, c)
  }

  /** Runs the chunks of `start..end` in the order the scheduler picks. */
  method RunChunks<T>(out: array<T>, start: nat, end: nat, chunk: nat, order: seq<nat>, f: (nat, T) -> T)
    requires chunk > 0 && start < end <= out.Length && Schedule(order, DivCeil(end - start, chunk))
    modifies out
    ensures out[..] == Serial(old(out[..]), start, end, f)
  {
    ghost var was := out[..];
    ghost var trace: seq<nat> := [];
    for j := 0 to |order|
      invariant Distinct(trace) && Within(trace, |was|)
      invariant forall y: nat :: y in trace <==> Covered(y, start, end, chunk, order[..j])
      invariant out[..] == Updates(trace, was, f)
    {
      var c := order[j];
      assert c in order;
      ChunkNonEmpty(start, end, chunk, c);
      CoveredStep(start, end, chunk, order, j);
      ghost var before := trace;
      trace := RunChunk(out, ChunkLo(start, chunk, c), ChunkHi(start, end, chunk, c), f, trace, was);
      forall y: nat ensures y in trace <==> Covered(y, start, end, chunk, order[..j + 1]) {
        assert y in trace <==> y in before || InChunk(y, start, end, chunk, c);
      }
    }
    assert order[..|order|] == order;
    AllCovered(start, end, chunk, order);
    AnyInterleaving(trace, was, start, end, f);
  }

  lemma CoveredStep(start: nat, end: nat, chunk: nat, order: seq<nat>, j: nat)
    requires chunk > 0 && start < end && j < |order| && Distinct(order)
    requires forall c :: c in order ==> c < DivCeil(end - start, chunk)
    ensures forall y: nat :: Covered(y, start, end, chunk, order[..j]) ==> !InChunk(y, start, end, chunk, order[j])
    ensures forall y: nat :: Covered(y, start, end, chunk, order[..j + 1]) <==>
              Covered(y, start, end, chunk, order[..j]) || InChunk(y, start, end, chunk, order[j])
  {
    assert order[..j + 1] == order[..j] + [order[j]];
    forall y: nat | Covered(y, start, end, chunk, order[..j]) ensures !InChunk(y, start, end, chunk, order[j]) {
      var c :| c in order[..j] && InChunk(y, start, end, chunk, c);
      var i :| 0 <= i < j && order[i] == c;
      assert c in order;
      ChunkNonEmpty(start, end, chunk, c);
      ChunksPartition(start, end, chunk, y);
    }
    forall y: nat
      ensures Covered(y, start, end, chunk, order[..j + 1]) <==>
              Covered(y, start, end, chunk, order[..j]) || InChunk(y, start, end, chunk, order[j])
    {
      if InChunk(y, start, end, chunk, order[j]) {
        assert order[j] in order[..j + 1];
      }
    }
  }

  lemma AllCovered(start: nat, end: nat, chunk: nat, order: seq<nat>)
    requires chunk > 0 && start < end && Schedule(order, DivCeil(end - start, chunk))
    ensures forall y: nat :: Covered(y, start, end, chunk, order) <==> start <= y < end
  {
    forall y: nat ensures Covered(y, start, end, chunk, order) <==> start <= y < end {
      if start <= y < end {
        ChunkIndex(start, end, chunk, y, order);
      } else if c :| c in order && InChunk(y, start, end, chunk, c) {
        ChunkNonEmpty(start, end, chunk, c);
      }
    }
  }

  lemma ChunkIndex(start: nat, end: nat, chunk: nat, y: nat, order: seq<nat>)
    requires chunk > 0 && start <= y < end && Schedule(order, DivCeil(end - start, chunk))
    ensures Covered(y, start, end, chunk, order)
  {
    ChunksPartition(start, end, chunk, y);
    var i: nat :| i < DivCeil(end - start, chunk) && InChunk(y, start, end, chunk, i);
    assert i in order;
  }

  /** `parallel_for` with a closure that updates each position of its chunk from its own value. */
  method ParallelFor<T>(out: array<T>, start: nat, end: nat, hint: nat, threads: nat, order: seq<nat>, f: (nat, T) -> T)
    requires end <= out.Length
    requires start < end ==> Schedule(order, DivCeil(end - start, EffectiveChunkSize(end - start, hint, threads)))
    modifies out
    ensures out[..] == Serial(old(out[..]), start, end, f)
  {
    if end <= start {
      return;
    }
    var chunk := EffectiveChunkSize(end - start, hint, threads);
    RunChunks(out, start, end, chunk, order, f);
  }
}
