/**
 The event hub: per-topic ids, a replay ring bounded by age and count, and live receivers
 that drop their oldest events when they fall behind.
 */
module Hubs {
  import opened Options

  const BROADCAST_CAPACITY: nat := 1024
  const RING_CAPACITY: nat := 4096
  /** Thirty seconds, in nanoseconds. */
  const RING_RETENTION: int := 30_000_000_000

  datatype Event<+P> = Event(id: nat, kind: string, payload: P)

  datatype Entry<+P> = Entry(ts: int, ev: Event<P>)

  /** A live receiver: events not yet taken, and how many were dropped since the last report. */
  datatype Receiver<+P> = Receiver(pending: seq<Event<P>>, missed: nat)

  function Sent<P>(q: Receiver<P>, ev: Event<P>): Receiver<P> {
    if |q.pending| < BROADCAST_CAPACITY then q.(pending := q.pending + [ev])
    else Receiver(q.pending[1..] + [ev], q.missed + 1)
  }

  datatype TopicState<+P> = TopicState(nextId: nat, ring: seq<Entry<P>>, receivers: seq<Receiver<P>>)

  function EmptyTopic<P>(): TopicState<P> {
    TopicState(1, [], [])
  }

  // ---- Eviction ----

  /** Entries not older than `cutoff`, in order. */
  function Recent<P>(ring: seq<Entry<P>>, cutoff: int): seq<Entry<P>> {
    if ring == [] then []
    else (if ring[0].ts < cutoff then [] else [ring[0]]) + Recent(ring[1..], cutoff)
  }

  /** The last `k` entries. */
  function Newest<P>(ring: seq<Entry<P>>, k: nat): seq<Entry<P>> {
    if |ring| <= k then ring else ring[|ring| - k..]
  }

  function Evicted<P>(ring: seq<Entry<P>>, now: int): seq<Entry<P>> {
    Newest(Recent(ring, now - RING_RETENTION), RING_CAPACITY)
  }

  ghost predicate SortedByTime<P>(ring: seq<Entry<P>>) {
    forall i, j :: 0 <= i < j < |ring| ==> ring[i].ts <= ring[j].ts
  }

  /** Sorted, and stamped no later than `now`. */
  ghost predicate Timed<P>(ring: seq<Entry<P>>, now: int) {
    SortedByTime(ring) && forall k :: 0 <= k < |ring| ==> ring[k].ts <= now
  }

  lemma {:induction false} RecentAll<P>(ring: seq<Entry<P>>, cutoff: int)
    requires SortedByTime(ring) && (ring == [] || ring[0].ts >= cutoff)
    ensures Recent(ring, cutoff) == ring
  {
    if ring != [] {
      assert SortedByTime(ring[1..]);
      RecentAll(ring[1..], cutoff);
    }
  }

  /** `r` is the suffix of the entries not older than `cutoff`. */
  ghost predicate IsRecentSuffix<P>(ring: seq<Entry<P>>, r: seq<Entry<P>>, cutoff: int) {
    && |r| <= |ring| && r == ring[|ring| - |r|..]
    && (forall k :: 0 <= k < |ring| - |r| ==> ring[k].ts < cutoff)
    && (forall k :: |ring| - |r| <= k < |ring| ==> ring[k].ts >= cutoff)
  }

  lemma OlderFirst<P>(ring: seq<Entry<P>>, r: seq<Entry<P>>, cutoff: int)
    requires ring != [] && ring[0].ts < cutoff && IsRecentSuffix(ring[1..], r, cutoff)
    ensures IsRecentSuffix(ring, r, cutoff)
  {
    var tail := ring[1..];
    assert ring[|ring| - |r|..] == tail[|tail| - |r|..];
    forall k | 1 <= k < |ring| ensures ring[k] == tail[k - 1] {
    }
  }

  lemma RecentDrops<P>(ring: seq<Entry<P>>, cutoff: int)
    requires ring != [] && ring[0].ts < cutoff
    ensures Recent(ring, cutoff) == Recent(ring[1..], cutoff)
  {
  }

  lemma AllRecent<P>(ring: seq<Entry<P>>, cutoff: int)
    requires SortedByTime(ring) && (ring == [] || ring[0].ts >= cutoff)
    ensures IsRecentSuffix(ring, Recent(ring, cutoff), cutoff)
  {
    RecentAll(ring, cutoff);
    assert ring[0..] == ring;
  }

  /** On a time-sorted ring, dropping old entries leaves a suffix. */
  lemma {:induction false} RecentIsSuffix<P>(ring: seq<Entry<P>>, cutoff: int)
    requires SortedByTime(ring)
    ensures IsRecentSuffix(ring, Recent(ring, cutoff), cutoff)
  {
    if ring == [] || ring[0].ts >= cutoff {
      AllRecent(ring, cutoff);
    } else {
      assert SortedByTime(ring[1..]);
      RecentIsSuffix(ring[1..], cutoff);
      OlderFirst(ring, Recent(ring[1..], cutoff), cutoff);
      RecentDrops(ring, cutoff);
    }
  }

  // ---- Operations on values ----

  /** `publish`: stamp at `t1`, evict at `t2`, fan out. */
  function Published<P>(t: TopicState<P>, t1: int, t2: int, kind: string, payload: P): TopicState<P> {
    var ev := Event(t.nextId, kind, payload);
    TopicState(t.nextId + 1, Evicted(t.ring + [Entry(t1, ev)], t2), FanOut(t.receivers, ev))
  }

  function FanOut<P>(rs: seq<Receiver<P>>, ev: Event<P>): (r: seq<Receiver<P>>)
    ensures |r| == |rs| && forall i :: 0 <= i < |rs| ==> r[i] == Sent(rs[i], ev)
  {
    if rs == [] then [] else [Sent(rs[0], ev)] + FanOut(rs[1..], ev)
  }

  /** `subscribe`: evict, then open a receiver. */
  function Subscribed<P>(t: TopicState<P>, now: int): TopicState<P> {
    t.(ring := Evicted(t.ring, now), receivers := t.receivers + [Receiver([], 0)])
  }

  /** Events of the ring with an id after `lastId`, in order; nothing without a last id. */
  function Replay<P>(ring: seq<Entry<P>>, lastId: Option<nat>): seq<Event<P>> {
    if lastId.None? || ring == [] then []
    else (if ring[0].ev.id > lastId.value then [ring[0].ev] else []) + Replay(ring[1..], lastId)
  }

  /** Nothing older than thirty seconds, at most 4096 entries. */
  ghost predicate Fresh<P>(ring: seq<Entry<P>>, now: int) {
    |ring| <= 4096 && forall k :: 0 <= k < |ring| ==> ring[k].ts >= now - 30_000_000_000
  }

  lemma EvictedFresh<P>(ring: seq<Entry<P>>, now: int)
    requires SortedByTime(ring)
    ensures Fresh(Evicted(ring, now), now)
  {
    RecentIsSuffix(ring, now - RING_RETENTION);
  }

  /** `at` lists, in order, the ring positions of all events with an id after `lastId`. */
  ghost predicate Selects<P>(at: seq<nat>, ring: seq<Entry<P>>, lastId: nat) {
    && (forall i, j :: 0 <= i < j < |at| ==> at[i] < at[j])
    && (forall k: nat :: k in at <==> k < |ring| && ring[k].ev.id > lastId)
  }

  /**
   What a new client is sent first: nothing without a last id; otherwise exactly the events of the ring
   with a later id, in ring order.
   */
  ghost predicate IsReplay<P>(replay: seq<Event<P>>, ring: seq<Entry<P>>, lastId: Option<nat>) {
    match lastId
    case None => replay == []
    case Some(id) =>
      exists at: seq<nat> :: Selects(at, ring, id) && ReadsAt(replay, ring, at)
  }

  function Shifted(at: seq<nat>): (r: seq<nat>)
    ensures |r| == |at| && forall i :: 0 <= i < |at| ==> r[i] == at[i] + 1
  {
    seq(|at|, i requires 0 <= i < |at| => at[i] + 1)
  }

  lemma ShiftedElements(at: seq<nat>, k: nat)
    ensures k in Shifted(at) <==> k > 0 && k - 1 in at
  {
    if k > 0 && k - 1 in at {
      var i :| 0 <= i < |at| && at[i] == k - 1;
      assert Shifted(at)[i] == k;
    }
  }

  lemma SelectsMore<P>(at: seq<nat>, ring: seq<Entry<P>>, lastId: nat)
    requires ring != [] && Selects(at, ring[1..], lastId)
    ensures Selects((if ring[0].ev.id > lastId then [0] else []) + Shifted(at), ring, lastId)
  {
    var more := (if ring[0].ev.id > lastId then [0] else []) + Shifted(at);
    forall k: nat ensures k in more <==> k < |ring| && ring[k].ev.id > lastId {
      ShiftedElements(at, k);
      if k > 0 {
        assert k - 1 in at <==> k - 1 < |ring| - 1 && ring[1..][k - 1].ev.id > lastId;
      }
    }
  }

  lemma {:induction false} ReplayIs<P>(ring: seq<Entry<P>>, lastId: Option<nat>)
    ensures IsReplay(Replay(ring, lastId), ring, lastId)
  {
    if lastId.Some? {
      var at := ReplayPositions(ring, lastId.value);
    }
  }

  /** `r` holds the events at positions `at`. */
  ghost predicate ReadsAt<P>(r: seq<Event<P>>, ring: seq<Entry<P>>, at: seq<nat>) {
    |at| == |r| && forall i :: 0 <= i < |at| ==> at[i] < |ring| && r[i] == ring[at[i]].ev
  }

  lemma ReadsMore<P>(r: seq<Event<P>>, ring: seq<Entry<P>>, at: seq<nat>)
    requires ring != [] && ReadsAt(r, ring[1..], at)
    ensures ReadsAt(r, ring, Shifted(at)) && ReadsAt([ring[0].ev] + r, ring, [0] + Shifted(at))
  {
    forall i | 0 <= i < |at| ensures ring[at[i] + 1] == ring[1..][at[i]] {
    }
  }

  lemma {:induction false} ReplayPositions<P>(ring: seq<Entry<P>>, lastId: nat) returns (at: seq<nat>)
    ensures Selects(at, ring, lastId) && ReadsAt(Replay(ring, Some(lastId)), ring, at)
  {
    if ring == [] {
      return [];
    }
    var rest := ReplayPositions(ring[1..], lastId);
    SelectsMore(rest, ring, lastId);
    ReadsMore(Replay(ring[1..], Some(lastId)), ring, rest);
    at := (if ring[0].ev.id > lastId then [0] else []) + Shifted(rest);
    assert [] + Shifted(rest) == Shifted(rest);
    assert [] + Replay(ring[1..], Some(lastId)) == Replay(ring[1..], Some(lastId));
  }

  // ---- The topic object ----

  class Topic<P> {
    var nextId: nat
    var ring: seq<Entry<P>>
    var receivers: seq<Receiver<P>>

    constructor ()
      ensures View() == EmptyTopic()
    {
      nextId, ring, receivers := 1, [], [];
    }

    ghost function View(): TopicState<P>
      reads this
    {
      TopicState(nextId, ring, receivers)
    }

    /** Pops from the front: first by age, then by count. On a time-sorted ring this is filtering. */
    method EvictOld(now: int)
      requires SortedByTime(ring)
      modifies `ring
      ensures ring == Evicted(old(ring), now)
    {
      var cutoff := now - RING_RETENTION;
      ghost var whole := ring;
      while ring != [] && ring[0].ts < cutoff
        invariant SortedByTime(ring) && Recent(ring, cutoff) == Recent(whole, cutoff)
        decreases |ring|
      {
        ring := ring[1..];
      }
      RecentAll(ring, cutoff);
      ghost var recent := ring;
      while |ring| > RING_CAPACITY
        invariant Newest(ring, RING_CAPACITY) == Newest(recent, RING_CAPACITY)
        decreases |ring|
      {
        ring := ring[1..];
      }
    }

    method Publish(t1: int, t2: int, kind: string, payload: P) returns (id: nat)
      requires Timed(ring, t1) && t1 <= t2
      modifies this
      ensures id == old(nextId) && View() == Published(old(View()), t1, t2, kind, payload)
      ensures Timed(ring, t2) && Fresh(ring, t2)
    {
      id := nextId;
      nextId := nextId + 1;
      var ev := Event(id, kind, payload);
      ring := ring + [Entry(t1, ev)];
      EvictedKeeps(ring, t2, t2);
      EvictedFresh(ring, t2);
      EvictOld(t2);
      Send(ev);
    }

    method Send(ev: Event<P>)
      modifies `receivers
      ensures receivers == FanOut(old(receivers), ev)
    {
      var i := 0;
      while i < |receivers|
        invariant 0 <= i <= |receivers| == |old(receivers)|
        invariant forall k :: 0 <= k < i ==> receivers[k] == Sent(old(receivers)[k], ev)
        invariant forall k :: i <= k < |receivers| ==> receivers[k] == old(receivers)[k]
      {
        receivers := receivers[i := Sent(receivers[i], ev)];
        i := i + 1;
      }
    }

    /** Returns the replay and the index of the new receiver. */
    method Subscribe(now: int, lastId: Option<nat>) returns (replay: seq<Event<P>>, rx: nat)
      requires Timed(ring, now)
      modifies this
      ensures View() == Subscribed(old(View()), now) && rx == |old(receivers)|
      ensures replay == Replay(ring, lastId) && Timed(ring, now)
      ensures IsReplay(replay, ring, lastId)
      ensures Fresh(ring, now)
    {
      EvictedKeeps(ring, now, now);
      EvictedFresh(ring, now);
      EvictOld(now);
      replay := Missed(ring, lastId);
      ReplayIs(ring, lastId);
      rx := |receivers|;
      receivers := receivers + [Receiver([], 0)];
    }
  }

  lemma ReplayFrom<P>(ring: seq<Entry<P>>, i: nat, lastId: nat)
    requires i < |ring|
    ensures Replay(ring[i..], Some(lastId))
         == (if ring[i].ev.id > lastId then [ring[i].ev] else []) + Replay(ring[i + 1..], Some(lastId))
  {
    assert ring[i..][1..] == ring[i + 1..];
  }

  /** Collects the buffered events after the client's last id. */
  method Missed<P>(ring: seq<Entry<P>>, lastId: Option<nat>) returns (replay: seq<Event<P>>)
    ensures replay == Replay(ring, lastId)
  {
    replay := [];
    if lastId.None? {
      return;
    }
    var i := 0;
    while i < |ring|
      invariant 0 <= i <= |ring|
      invariant replay + Replay(ring[i..], lastId) == Replay(ring, lastId)
    {
      ReplayFrom(ring, i, lastId.value);
      if ring[i].ev.id > lastId.value {
        replay := replay + [ring[i].ev];
      }
      i := i + 1;
    }
  }

  // ---- The registry ----

  class Hub<P> {
    var topics: map<string, Topic<P>>

    constructor ()
      ensures topics == map[]
    {
      topics := map[];
    }

    /** Topics are distinct objects, each with a time-sorted ring stamped no later than `now`. */
    ghost predicate Valid(now: int)
      reads this, topics.Values
    {
      && (forall a, b :: a in topics && b in topics && a != b ==> topics[a] != topics[b])
      && (forall a :: a in topics ==> Timed(topics[a].ring, now))
    }

    /** A topic that nobody used yet behaves as an empty one. */
    ghost function At(name: string): TopicState<P>
      reads this, topics.Values
    {
      if name in topics then topics[name].View() else EmptyTopic()
    }

    method GetOrInsert(name: string, ghost now: int) returns (t: Topic<P>)
      requires Valid(now)
      modifies `topics
      ensures Valid(now) && name in topics && topics[name] == t && t.View() == old(At(name))
      ensures name in old(topics) ==> topics == old(topics)
      ensures name !in old(topics) ==> fresh(t) && topics == old(topics)[name := t]
      ensures forall other :: other != name ==> At(other) == old(At(other))
    {
      if name !in topics {
        t := new Topic();
        topics := topics[name := t];
      } else {
        t := topics[name];
      }
    }

    /** An unserialisable payload is dropped and reported as id 0. */
    method Publish(name: string, ghost now: int, t1: int, t2: int, kind: string, payload: Option<P>) returns (id: nat)
      requires Valid(now) && now <= t1 <= t2
      modifies this, topics.Values
      ensures payload.None? ==> id == 0 && topics == old(topics) && forall other :: At(other) == old(At(other))
      ensures payload.Some? ==>
                && id == old(At(name)).nextId
                && At(name) == Published(old(At(name)), t1, t2, kind, payload.value)
                && forall other :: other != name ==> At(other) == old(At(other))
      ensures Valid(t2)
    {
      if payload.None? {
        return 0;
      }
      var t := GetOrInsert(name, now);
      assert Timed(t.ring, t1);
      id := t.Publish(t1, t2, kind, payload.value);
    }

    method Subscribe(name: string, ghost before: int, now: int, lastId: Option<nat>) returns (replay: seq<Event<P>>, rx: nat)
      requires Valid(before) && before <= now
      modifies this, topics.Values
      ensures At(name) == Subscribed(old(At(name)), now) && rx == |old(At(name)).receivers|
      ensures replay == Replay(At(name).ring, lastId) && IsReplay(replay, At(name).ring, lastId)
      ensures forall other :: other != name ==> At(other) == old(At(other))
      ensures Valid(now)
    {
      var t := GetOrInsert(name, before);
      assert Timed(t.ring, now);
      replay, rx := t.Subscribe(now, lastId);
    }
  }

  lemma SuffixTimed<P>(ring: seq<Entry<P>>, r: seq<Entry<P>>, now: int)
    requires Timed(ring, now) && |r| <= |ring| && r == ring[|ring| - |r|..]
    ensures Timed(r, now)
  {
    forall k | 0 <= k < |r| ensures r[k] == ring[|ring| - |r| + k] {
    }
  }

  lemma NewestIsSuffix<P>(ring: seq<Entry<P>>, r: seq<Entry<P>>, k: nat)
    requires |r| <= |ring| && r == ring[|ring| - |r|..]
    ensures var n := Newest(r, k); |n| <= |ring| && |n| <= k && n == ring[|ring| - |n|..]
  {
  }

  /** Eviction leaves a suffix, so it keeps order and time bounds. */
  lemma EvictedKeeps<P>(ring: seq<Entry<P>>, cutAt: int, now: int)
    requires Timed(ring, now)
    ensures var r := Evicted(ring, cutAt);
            |r| <= |ring| && r == ring[|ring| - |r|..] && Timed(r, now) && |r| <= RING_CAPACITY
  {
    RecentIsSuffix(ring, cutAt - RING_RETENTION);
    NewestIsSuffix(ring, Recent(ring, cutAt - RING_RETENTION), RING_CAPACITY);
    SuffixTimed(ring, Evicted(ring, cutAt), now);
  }
}
