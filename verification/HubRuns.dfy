/**
 Runs of one topic: any interleaving of publish, subscribe and client reads under a clock
 that never goes back. `log` and `stamps` record everything published so far.
 */
module HubRuns {
  import opened Options
  import opened Hubs

  /** What a client's stream emits; `Lag` stands for the events a slow receiver lost. */
  datatype Item<+P> = Deliver(ev: Event<P>) | Lag(skipped: nat)

  /** The stream of one client: replay first, then its live receiver (the receiver is kept by the topic). */
  datatype Client<+P> = Client(replay: seq<Event<P>>, emitted: seq<Item<P>>, first: int)

  datatype World<+P> = World(clock: int, topic: TopicState<P>, clients: seq<Client<P>>, log: seq<Event<P>>, stamps: seq<int>)

  datatype Action<+P> =
    | Publish(t1: int, t2: int, kind: string, payload: P)
    | Subscribe(now: int, lastId: Option<nat>)
    | Poll(client: nat)

  function Start<P>(clock: int): World<P> {
    World(clock, EmptyTopic(), [], [], [])
  }

  predicate Enabled<P>(w: World<P>, a: Action<P>) {
    match a
    case Publish(t1, t2, _, _) => w.clock <= t1 <= t2
    case Subscribe(now, _) => w.clock <= now
    case Poll(i) => i < |w.clients| == |w.topic.receivers|
  }

  function Step<P>(w: World<P>, a: Action<P>): World<P>
    requires Enabled(w, a)
  {
    match a
    case Publish(t1, t2, kind, payload) =>
      World(t2, Published(w.topic, t1, t2, kind, payload), w.clients,
            w.log + [Event(w.topic.nextId, kind, payload)], w.stamps + [t1])
    case Subscribe(now, lastId) =>
      var t := Subscribed(w.topic, now);
      var replay := Replay(t.ring, lastId);
      World(now, t, w.clients + [Client(replay, [], t.nextId - |replay|)], w.log, w.stamps)
    case Poll(i) =>
      var c, q := w.clients[i], w.topic.receivers[i];
      if c.replay != [] then
        w.(clients := w.clients[i := Client(c.replay[1..], c.emitted + [Deliver(c.replay[0])], c.first)])
      else if q.missed > 0 then
        w.(clients := w.clients[i := c.(emitted := c.emitted + [Lag(q.missed)])],
           topic := w.topic.(receivers := w.topic.receivers[i := q.(missed := 0)]))
      else if q.pending != [] then
        w.(clients := w.clients[i := c.(emitted := c.emitted + [Deliver(q.pending[0])])],
           topic := w.topic.(receivers := w.topic.receivers[i := q.(pending := q.pending[1..])]))
      else w
  }

  ghost predicate Run<P>(trace: seq<World<P>>, actions: seq<Action<P>>) {
    && |trace| == |actions| + 1
    && trace[0] == Start(trace[0].clock)
    && forall i :: 0 <= i < |actions| ==> Enabled(trace[i], actions[i]) && trace[i + 1] == Step(trace[i], actions[i])
  }

  // ---- What a stream may emit ----

  /** The id that follows the emitted items when each delivery takes one id and a lag skips `skipped` of them. */
  function NextOf<P>(items: seq<Item<P>>, first: int): (next: int)
    ensures next >= first
  {
    if items == [] then first
    else
      var last := items[|items| - 1];
      NextOf(items[..|items| - 1], first) + (if last.Deliver? then 1 else last.skipped)
  }

  /**
   Deliveries carry exactly the published events, with consecutive ids from `first` on; the only
   gaps are at lag items, which stand for at least one event.
   */
  ghost predicate Faithful<P>(items: seq<Item<P>>, first: int, log: seq<Event<P>>) {
    if items == [] then true
    else
      var init, last := items[..|items| - 1], items[|items| - 1];
      var next := NextOf(init, first);
      && Faithful(init, first, log)
      && (last.Deliver? ==> 1 <= next <= |log| && last.ev == log[next - 1] && last.ev.id == next)
      && (last.Lag? ==> last.skipped > 0)
  }

  // ---- The invariant ----

  ghost predicate LogOk<P>(w: World<P>) {
    && |w.stamps| == |w.log| && w.topic.nextId == |w.log| + 1
    && (forall k :: 0 <= k < |w.log| ==> w.log[k].id == k + 1)
    && (forall i, j :: 0 <= i < j < |w.stamps| ==> w.stamps[i] <= w.stamps[j])
    && (forall k :: 0 <= k < |w.stamps| ==> w.stamps[k] <= w.clock)
  }

  /** The ring is the tail of the log with its stamps. */
  ghost predicate IsTail<P>(ring: seq<Entry<P>>, log: seq<Event<P>>, stamps: seq<int>) {
    && |ring| <= |log| == |stamps|
    && forall k :: 0 <= k < |ring| ==> ring[k] == Entry(stamps[|log| - |ring| + k], log[|log| - |ring| + k])
  }

  /** The first `lost` events were too old, or pushed out by count, at time `now`. */
  ghost predicate RightlyLost(lost: int, stamps: seq<int>, now: int) {
    && lost <= |stamps|
    && forall k :: 0 <= k < lost ==> stamps[k] < now - RING_RETENTION || k + RING_CAPACITY < |stamps|
  }

  ghost predicate RingOk<P>(w: World<P>) {
    && |w.topic.ring| <= RING_CAPACITY
    && IsTail(w.topic.ring, w.log, w.stamps)
    && RightlyLost(|w.log| - |w.topic.ring|, w.stamps, w.clock)
  }

  /** A receiver holds the end of the log, and has lost events only if it is full. */
  ghost predicate ReceiverOk<P>(q: Receiver<P>, log: seq<Event<P>>) {
    && |q.pending| <= BROADCAST_CAPACITY && (q.missed > 0 ==> |q.pending| == BROADCAST_CAPACITY)
    && |q.pending| <= |log| && q.pending == log[|log| - |q.pending|..]
  }

  /** Emitted, to be replayed, lost and pending events make up all ids from `first` to the newest, each once. */
  ghost predicate ClientOk<P>(c: Client<P>, q: Receiver<P>, log: seq<Event<P>>) {
    var next := NextOf(c.emitted, c.first);
    && 1 <= c.first && Faithful(c.emitted, c.first, log)
    && ReceiverOk(q, log)
    && next + |c.replay| + q.missed + |q.pending| == |log| + 1
    && c.replay == log[next - 1..next - 1 + |c.replay|]
  }

  ghost predicate Invariant<P>(w: World<P>) {
    && LogOk(w) && RingOk(w)
    && |w.clients| == |w.topic.receivers|
    && forall i :: 0 <= i < |w.clients| ==> ClientOk(w.clients[i], w.topic.receivers[i], w.log)
  }

  lemma {:induction false} FaithfulExtends<P>(items: seq<Item<P>>, first: int, log: seq<Event<P>>, ev: Event<P>)
    requires Faithful(items, first, log)
    ensures Faithful(items, first, log + [ev])
  {
    if items != [] {
      FaithfulExtends(items[..|items| - 1], first, log, ev);
    }
  }

  // ---- Publish ----

  ghost predicate Stamped(stamps: seq<int>, clock: int) {
    && (forall i, j :: 0 <= i < j < |stamps| ==> stamps[i] <= stamps[j])
    && (forall k :: 0 <= k < |stamps| ==> stamps[k] <= clock)
  }

  lemma TailTimed<P>(ring: seq<Entry<P>>, log: seq<Event<P>>, stamps: seq<int>, clock: int)
    requires IsTail(ring, log, stamps) && Stamped(stamps, clock)
    ensures Timed(ring, clock)
  {
  }

  /** Evicting at `now` keeps the ring a tail of the log, and loses only what is old or pushed out. */
  lemma RingEvicts<P>(ring: seq<Entry<P>>, log: seq<Event<P>>, stamps: seq<int>, clock: int, now: int)
    requires IsTail(ring, log, stamps) && Stamped(stamps, clock) && clock <= now
    requires RightlyLost(|log| - |ring|, stamps, now)
    ensures var r := Evicted(ring, now);
            |r| <= RING_CAPACITY && IsTail(r, log, stamps) && RightlyLost(|log| - |r|, stamps, now)
  {
    TailTimed(ring, log, stamps, clock);
    EvictedKeeps(ring, now, clock);
    TailOfTail(ring, Evicted(ring, now), log, stamps);
    EvictedLost(ring, log, stamps, now);
  }

  lemma TailOfTail<P>(ring: seq<Entry<P>>, r: seq<Entry<P>>, log: seq<Event<P>>, stamps: seq<int>)
    requires IsTail(ring, log, stamps) && |r| <= |ring| && r == ring[|ring| - |r|..]
    ensures IsTail(r, log, stamps)
  {
    forall k | 0 <= k < |r| ensures r[k] == Entry(stamps[|log| - |r| + k], log[|log| - |r| + k]) {
      assert r[k] == ring[|ring| - |r| + k];
    }
  }

  lemma EvictedLost<P>(ring: seq<Entry<P>>, log: seq<Event<P>>, stamps: seq<int>, now: int)
    requires IsTail(ring, log, stamps) && SortedByTime(ring) && RightlyLost(|log| - |ring|, stamps, now)
    ensures RightlyLost(|log| - |Evicted(ring, now)|, stamps, now)
  {
    RecentIsSuffix(ring, now - RING_RETENTION);
    var recent, r, base := Recent(ring, now - RING_RETENTION), Evicted(ring, now), |log| - |ring|;
    forall k | base <= k < |log| - |r|
      ensures stamps[k] < now - RING_RETENTION || k + RING_CAPACITY < |stamps|
    {
      assert ring[k - base].ts == stamps[k];
      if k - base >= |ring| - |recent| {
        assert |recent| > RING_CAPACITY && |r| == RING_CAPACITY;
      }
    }
  }

  /** What waits in a receiver is still the end of the log; a full one gives up its oldest event. */
  lemma SentPending<P>(q: Receiver<P>, log: seq<Event<P>>, ev: Event<P>)
    requires ReceiverOk(q, log)
    ensures ReceiverOk(Sent(q, ev), log + [ev])
    ensures Sent(q, ev).missed + |Sent(q, ev).pending| == q.missed + |q.pending| + 1
  {
    if |q.pending| == BROADCAST_CAPACITY {
      assert q.pending[1..] == log[|log| - |q.pending| + 1..];
    }
  }

  lemma SentOk<P>(c: Client<P>, q: Receiver<P>, log: seq<Event<P>>, ev: Event<P>)
    requires ClientOk(c, q, log)
    ensures ClientOk(c, Sent(q, ev), log + [ev])
  {
    var next := NextOf(c.emitted, c.first);
    FaithfulExtends(c.emitted, c.first, log, ev);
    SentPending(q, log, ev);
    SliceKept(log, ev, next - 1, next - 1 + |c.replay|);
  }

  lemma SliceKept<P>(log: seq<Event<P>>, ev: Event<P>, lo: int, hi: int)
    requires 0 <= lo <= hi <= |log|
    ensures (log + [ev])[lo..hi] == log[lo..hi]
  {
  }

  lemma PublishKeeps<P>(w: World<P>, a: Action<P>)
    requires Invariant(w) && a.Publish? && Enabled(w, a)
    ensures Invariant(Step(w, a))
  {
    var v := Step(w, a);
    PublishedLog(w, a);
    forall i | 0 <= i < |v.clients| ensures ClientOk(v.clients[i], v.topic.receivers[i], v.log) {
      SentOk(w.clients[i], w.topic.receivers[i], w.log, Event(w.topic.nextId, a.kind, a.payload));
    }
  }

  lemma PublishedLog<P>(w: World<P>, a: Action<P>)
    requires LogOk(w) && RingOk(w) && a.Publish? && Enabled(w, a)
    ensures LogOk(Step(w, a)) && RingOk(Step(w, a))
  {
    var ev := Event(w.topic.nextId, a.kind, a.payload);
    var log, stamps := w.log + [ev], w.stamps + [a.t1];
    assert Stamped(stamps, a.t1);
    PushedTail(w.topic.ring, w.log, w.stamps, ev, a.t1);
    assert RightlyLost(|log| - |w.topic.ring| - 1, stamps, a.t2);
    RingEvicts(w.topic.ring + [Entry(a.t1, ev)], log, stamps, a.t1, a.t2);
  }

  lemma PushedTail<P>(ring: seq<Entry<P>>, log: seq<Event<P>>, stamps: seq<int>, ev: Event<P>, t: int)
    requires IsTail(ring, log, stamps)
    ensures IsTail(ring + [Entry(t, ev)], log + [ev], stamps + [t])
  {
  }

  // ---- Subscribe ----

  /** On a ring of consecutive ids, the replay is the part of the log after the last id. */
  lemma {:induction false} ReplayIsTail<P>(ring: seq<Entry<P>>, lastId: nat, last: nat)
    requires forall k :: 0 <= k < |ring| ==> ring[k].ev.id == last - |ring| + 1 + k
    ensures var r := Replay(ring, Some(lastId));
            && |r| == (if lastId >= last then 0 else if last - lastId < |ring| then last - lastId else |ring|)
            && forall k :: 0 <= k < |r| ==> r[k] == ring[|ring| - |r| + k].ev
    decreases |ring|
  {
    if ring != [] {
      ReplayIsTail(ring[1..], lastId, last);
    }
  }

  lemma SubscribeKeeps<P>(w: World<P>, a: Action<P>)
    requires Invariant(w) && a.Subscribe? && Enabled(w, a)
    ensures Invariant(Step(w, a))
  {
    var v := Step(w, a);
    SubscribedLog(w, a);
    JoinedOk(v.topic.ring, w.log, w.stamps, a.lastId);
    OneMoreClient(w.clients, w.topic.receivers, v.clients, v.topic.receivers, w.log);
  }

  lemma SubscribedLog<P>(w: World<P>, a: Action<P>)
    requires LogOk(w) && RingOk(w) && a.Subscribe? && Enabled(w, a)
    ensures LogOk(Step(w, a)) && RingOk(Step(w, a))
  {
    RingEvicts(w.topic.ring, w.log, w.stamps, w.clock, a.now);
  }

  lemma OneMoreClient<P>(clients: seq<Client<P>>, receivers: seq<Receiver<P>>,
                         clients': seq<Client<P>>, receivers': seq<Receiver<P>>, log: seq<Event<P>>)
    requires |clients| == |receivers| && |clients'| == |receivers'| == |clients| + 1
    requires clients <= clients' && receivers <= receivers'
    requires forall i :: 0 <= i < |clients| ==> ClientOk(clients[i], receivers[i], log)
    requires ClientOk(clients'[|clients|], receivers'[|clients|], log)
    ensures forall i :: 0 <= i < |clients'| ==> ClientOk(clients'[i], receivers'[i], log)
  {
    forall i | 0 <= i < |clients'| ensures ClientOk(clients'[i], receivers'[i], log) {
      if i < |clients| {
        assert clients'[i] == clients[i] && receivers'[i] == receivers[i];
      }
    }
  }

  /** A new client starts right after what it is replayed, at the seam to its live receiver. */
  lemma JoinedOk<P>(ring: seq<Entry<P>>, log: seq<Event<P>>, stamps: seq<int>, lastId: Option<nat>)
    requires IsTail(ring, log, stamps) && forall k :: 0 <= k < |log| ==> log[k].id == k + 1
    ensures var replay := Replay(ring, lastId);
            |replay| <= |log| && ClientOk(Client(replay, [], |log| + 1 - |replay|), Receiver([], 0), log)
  {
    var replay := Replay(ring, lastId);
    if lastId.Some? {
      ReplayIsTail(ring, lastId.value, |log|);
    }
    forall k | 0 <= k < |replay| ensures replay[k] == log[|log| - |replay| + k] {
      assert replay[k] == ring[|ring| - |replay| + k].ev;
    }
    assert replay == log[|log| - |replay|..];
    assert log[|log|..] == [];
  }

  // ---- Poll ----

  lemma EmitDeliver<P>(items: seq<Item<P>>, first: int, log: seq<Event<P>>, next: int)
    requires Faithful(items, first, log) && next == NextOf(items, first) && 1 <= next <= |log| && log[next - 1].id == next
    ensures Faithful(items + [Deliver(log[next - 1])], first, log)
    ensures NextOf(items + [Deliver(log[next - 1])], first) == next + 1
  {
    assert (items + [Deliver(log[next - 1])])[..|items|] == items;
  }

  lemma EmitLag<P>(items: seq<Item<P>>, first: int, log: seq<Event<P>>, skipped: nat)
    requires Faithful(items, first, log) && skipped > 0
    ensures Faithful(items + [Lag(skipped)], first, log)
    ensures NextOf(items + [Lag(skipped)], first) == NextOf(items, first) + skipped
  {
    assert (items + [Lag(skipped)])[..|items|] == items;
  }

  lemma ReplayPolled<P>(c: Client<P>, q: Receiver<P>, log: seq<Event<P>>)
    requires ClientOk(c, q, log) && c.replay != [] && forall k :: 0 <= k < |log| ==> log[k].id == k + 1
    ensures ClientOk(Client(c.replay[1..], c.emitted + [Deliver(c.replay[0])], c.first), q, log)
  {
    var next := NextOf(c.emitted, c.first);
    assert c.replay[0] == log[next - 1];
    EmitDeliver(c.emitted, c.first, log, next);
    assert c.replay[1..] == log[next..next + |c.replay| - 1];
  }

  lemma LagPolled<P>(c: Client<P>, q: Receiver<P>, log: seq<Event<P>>)
    requires ClientOk(c, q, log) && c.replay == [] && q.missed > 0
    ensures ClientOk(c.(emitted := c.emitted + [Lag(q.missed)]), q.(missed := 0), log)
  {
    EmitLag(c.emitted, c.first, log, q.missed);
  }

  lemma LivePolled<P>(c: Client<P>, q: Receiver<P>, log: seq<Event<P>>)
    requires ClientOk(c, q, log) && c.replay == [] && q.missed == 0 && q.pending != []
    requires forall k :: 0 <= k < |log| ==> log[k].id == k + 1
    ensures ClientOk(c.(emitted := c.emitted + [Deliver(q.pending[0])]), q.(pending := q.pending[1..]), log)
  {
    var next := NextOf(c.emitted, c.first);
    assert q.pending[0] == log[next - 1];
    EmitDeliver(c.emitted, c.first, log, next);
    assert q.pending[1..] == log[|log| - |q.pending| + 1..];
  }

  lemma PollKeeps<P>(w: World<P>, a: Action<P>)
    requires Invariant(w) && a.Poll? && Enabled(w, a)
    ensures Invariant(Step(w, a))
  {
    var c, q := w.clients[a.client], w.topic.receivers[a.client];
    assert ClientOk(c, q, w.log);
    if c.replay != [] {
      ReplayPolled(c, q, w.log);
    } else if q.missed > 0 {
      LagPolled(c, q, w.log);
    } else if q.pending != [] {
      LivePolled(c, q, w.log);
    }
    OthersKeep(w, a);
  }

  /** A poll leaves the log, the ring and the other clients alone. */
  lemma PollTouches<P>(w: World<P>, a: Action<P>)
    requires a.Poll? && Enabled(w, a)
    ensures var v := Step(w, a);
            && v.clock == w.clock && v.log == w.log && v.stamps == w.stamps
            && v.topic.ring == w.topic.ring && v.topic.nextId == w.topic.nextId
            && |v.clients| == |w.clients| == |v.topic.receivers|
            && forall i :: 0 <= i < |v.clients| && i != a.client ==>
                 v.clients[i] == w.clients[i] && v.topic.receivers[i] == w.topic.receivers[i]
  {
  }

  lemma OthersKeep<P>(w: World<P>, a: Action<P>)
    requires Invariant(w) && a.Poll? && Enabled(w, a)
    requires var v := Step(w, a); ClientOk(v.clients[a.client], v.topic.receivers[a.client], w.log)
    ensures Invariant(Step(w, a))
  {
    var v := Step(w, a);
    PollTouches(w, a);
    forall i | 0 <= i < |v.clients| ensures ClientOk(v.clients[i], v.topic.receivers[i], v.log) {
      if i != a.client {
        assert ClientOk(w.clients[i], w.topic.receivers[i], w.log);
      }
    }
  }

  // ---- Every run ----

  lemma StepKeeps<P>(w: World<P>, a: Action<P>)
    requires Invariant(w) && Enabled(w, a)
    ensures Invariant(Step(w, a))
  {
    match a
    case Publish(_, _, _, _) => PublishKeeps(w, a);
    case Subscribe(_, _) => SubscribeKeeps(w, a);
    case Poll(_) => PollKeeps(w, a);
  }

  /** Every state of every run satisfies the invariant. */
  lemma {:induction false} RunKeeps<P>(trace: seq<World<P>>, actions: seq<Action<P>>, k: nat)
    requires Run(trace, actions) && k < |trace|
    ensures Invariant(trace[k])
  {
    if k > 0 {
      RunKeeps(trace, actions, k - 1);
      StepKeeps(trace[k - 1], actions[k - 1]);
    }
  }

  // ---- Consequences ----

  /**
   What one client sees between two adjacent deliveries without a lag item between them: consecutive ids,
   whether both come from the replay, both live, or one from each side of the seam.
   */
  lemma {:induction false} AdjacentDeliveries<P>(items: seq<Item<P>>, first: int, log: seq<Event<P>>, k: nat)
    requires Faithful(items, first, log) && k + 1 < |items| && items[k].Deliver?
    ensures items[k + 1].Deliver? ==> items[k + 1].ev.id == items[k].ev.id + 1
    decreases |items|
  {
    var init := items[..|items| - 1];
    if k + 2 < |items| {
      AdjacentDeliveries(init, first, log, k);
    } else {
      assert init[..|init| - 1] == items[..k];
      assert init[|init| - 1] == items[k];
    }
  }

  lemma {:induction false} DeliveredBelowNext<P>(items: seq<Item<P>>, first: int, log: seq<Event<P>>, k: nat)
    requires Faithful(items, first, log) && k < |items| && items[k].Deliver?
    ensures first <= items[k].ev.id < NextOf(items, first)
    decreases |items|
  {
    var init := items[..|items| - 1];
    if k < |items| - 1 {
      DeliveredBelowNext(init, first, log, k);
    }
  }

  /** Ids strictly increase over the whole stream, lag items or not: nothing is delivered twice. */
  lemma {:induction false} NoDuplicates<P>(items: seq<Item<P>>, first: int, log: seq<Event<P>>, j: nat, k: nat)
    requires Faithful(items, first, log) && j < k < |items| && items[j].Deliver? && items[k].Deliver?
    ensures items[j].ev.id < items[k].ev.id
    decreases |items|
  {
    var init := items[..|items| - 1];
    if k < |items| - 1 {
      NoDuplicates(init, first, log, j, k);
    } else {
      DeliveredBelowNext(init, first, log, j);
    }
  }

  /** A gap appears only after a lag item: until then the stream holds exactly the ids from `first` on. */
  lemma {:induction false} NoGapBeforeLag<P>(items: seq<Item<P>>, first: int, log: seq<Event<P>>, k: nat)
    requires Faithful(items, first, log) && k < |items| && forall i :: 0 <= i <= k ==> items[i].Deliver?
    ensures items[k].ev.id == first + k
    ensures NextOf(items[..k + 1], first) == first + k + 1
    decreases |items|
  {
    var init := items[..|items| - 1];
    if k < |items| - 1 {
      NoGapBeforeLag(init, first, log, k);
      assert init[..k + 1] == items[..k + 1];
    } else {
      assert items[..k + 1] == items;
      if k > 0 {
        NoGapBeforeLag(init, first, log, k - 1);
        assert init[..k] == init;
      }
    }
  }

  /** Stream safety over every run and every client. */
  lemma StreamSafety<P>(trace: seq<World<P>>, actions: seq<Action<P>>, n: nat, i: nat, j: nat, k: nat)
    requires Run(trace, actions) && n < |trace| && i < |trace[n].clients|
    requires var items := trace[n].clients[i].emitted; j < k < |items| && items[j].Deliver? && items[k].Deliver?
    ensures var c, log := trace[n].clients[i], trace[n].log;
            && c.emitted[j].ev.id < c.emitted[k].ev.id
            && 1 <= c.emitted[k].ev.id <= |log| && c.emitted[k].ev == log[c.emitted[k].ev.id - 1]
            && (k == j + 1 ==> c.emitted[k].ev.id == c.emitted[j].ev.id + 1)
            && ((forall x :: 0 <= x <= k ==> c.emitted[x].Deliver?) ==> c.emitted[k].ev.id == c.first + k)
  {
    RunKeeps(trace, actions, n);
    var c, log := trace[n].clients[i], trace[n].log;
    assert ClientOk(c, trace[n].topic.receivers[i], log);
    NoDuplicates(c.emitted, c.first, log, j, k);
    DeliveredFromLog(c.emitted, c.first, log, k);
    if k == j + 1 {
      AdjacentDeliveries(c.emitted, c.first, log, j);
    }
    if forall x :: 0 <= x <= k ==> c.emitted[x].Deliver? {
      NoGapBeforeLag(c.emitted, c.first, log, k);
    }
  }

  lemma {:induction false} DeliveredFromLog<P>(items: seq<Item<P>>, first: int, log: seq<Event<P>>, k: nat)
    requires Faithful(items, first, log) && k < |items| && items[k].Deliver?
    ensures 1 <= items[k].ev.id <= |log| && items[k].ev == log[items[k].ev.id - 1]
    decreases |items|
  {
    if k < |items| - 1 {
      DeliveredFromLog(items[..|items| - 1], first, log, k);
    }
  }

  ghost predicate Replayed<P>(ring: seq<Entry<P>>, lastId: nat, id: nat) {
    exists k :: 0 <= k < |Replay(ring, Some(lastId))| && Replay(ring, Some(lastId))[k].id == id
  }

  lemma ReplayedIds<P>(ring: seq<Entry<P>>, log: seq<Event<P>>, stamps: seq<int>, lastId: nat, id: nat)
    requires IsTail(ring, log, stamps) && (forall k :: 0 <= k < |log| ==> log[k].id == k + 1) && 1 <= id <= |log|
    ensures Replayed(ring, lastId, id) <==> id > lastId && id > |log| - |ring|
  {
    var r := Replay(ring, Some(lastId));
    ReplayIsTail(ring, lastId, |log|);
    forall k | 0 <= k < |r| ensures r[k].id == |log| - |r| + 1 + k {
      assert r[k] == ring[|ring| - |r| + k].ev;
    }
    if id > lastId && id > |log| - |ring| {
      assert r[id - (|log| - |r| + 1)].id == id;
    }
  }

  /** Event `id` is at most thirty seconds old and among the newest 4096. */
  ghost predicate Kept<P>(w: World<P>, now: int, id: nat)
    requires 1 <= id <= |w.log| == |w.stamps|
  {
    w.stamps[id - 1] >= now - 30_000_000_000 && |w.log| - id < 4096
  }

  /** After eviction the ring holds exactly the kept events. */
  lemma RingHoldsKept<P>(w: World<P>, now: int, id: nat)
    requires Invariant(w) && w.clock <= now && 1 <= id <= |w.log|
    ensures Kept(w, now, id) <==> id > |w.log| - |Evicted(w.topic.ring, now)|
  {
    var ring := Evicted(w.topic.ring, now);
    RingEvicts(w.topic.ring, w.log, w.stamps, w.clock, now);
    EvictedRecent(w, now);
    var lost := |w.log| - |ring|;
    if id > lost {
      assert ring[id - 1 - lost] == Entry(w.stamps[id - 1], w.log[id - 1]);
    }
  }

  /**
   Exactly which events a reconnecting client is replayed: those after its last id that are at most thirty
   seconds old and among the newest 4096.
   */
  lemma ReplayExactly<P>(trace: seq<World<P>>, actions: seq<Action<P>>, n: nat, now: int, lastId: nat, id: nat)
    requires Run(trace, actions) && n < |trace| && trace[n].clock <= now
    requires 1 <= id <= |trace[n].log| == |trace[n].stamps|
    ensures Replayed(Subscribed(trace[n].topic, now).ring, lastId, id) <==> id > lastId && Kept(trace[n], now, id)
  {
    RunKeeps(trace, actions, n);
    var w := trace[n];
    RingEvicts(w.topic.ring, w.log, w.stamps, w.clock, now);
    ReplayedIds(Evicted(w.topic.ring, now), w.log, w.stamps, lastId, id);
    RingHoldsKept(w, now, id);
  }

  /** A reconnecting client misses nothing if and only if its last id was published and every later event is still kept. */
  lemma ResumesExactly<P>(trace: seq<World<P>>, actions: seq<Action<P>>, n: nat, now: int, lastId: nat)
    requires Run(trace, actions) && n < |trace| && trace[n].clock <= now
    ensures var w := trace[n];
            var v := Step(w, Subscribe(now, Some(lastId)));
            && |v.clients| == |w.clients| + 1 && |w.log| == |w.stamps|
            && (v.clients[|w.clients|].first == lastId + 1
                <==> lastId <= |w.log| && forall id :: lastId < id <= |w.log| ==> Kept(w, now, id))
  {
    RunKeeps(trace, actions, n);
    var w := trace[n];
    var ring := Evicted(w.topic.ring, now);
    RingEvicts(w.topic.ring, w.log, w.stamps, w.clock, now);
    ReplayIsTail(ring, lastId, |w.log|);
    forall id | lastId < id <= |w.log| ensures Kept(w, now, id) <==> id > |w.log| - |ring| {
      RingHoldsKept(w, now, id);
    }
    if lastId < |w.log| - |ring| {
      assert !Kept(w, now, lastId + 1);
    }
  }

  /** A client without a last id is sent nothing old: it starts at the seam, with the next event to be published. */
  lemma FirstTimeStartsAtSeam<P>(trace: seq<World<P>>, actions: seq<Action<P>>, n: nat, now: int)
    requires Run(trace, actions) && n < |trace| && trace[n].clock <= now
    ensures var w := trace[n];
            var v := Step(w, Subscribe(now, None));
            && |v.clients| == |w.clients| + 1
            && v.clients[|w.clients|] == Client([], [], |w.log| + 1)
            && v.topic.receivers == w.topic.receivers + [Receiver([], 0)]
  {
    RunKeeps(trace, actions, n);
  }

  /**
   What a poll emits, from the next id and the number of events the client has not seen: nothing when there is
   none; a lag marker exactly when the replay is drained and more than 1024 are waiting, for all but the newest
   1024 of them; the next event otherwise.
   */
  lemma PollExactly<P>(trace: seq<World<P>>, actions: seq<Action<P>>, n: nat, i: nat)
    requires Run(trace, actions) && n < |trace| && i < |trace[n].clients|
    ensures var w := trace[n];
            var c := w.clients[i];
            var next := NextOf(c.emitted, c.first);
            var unseen := |w.log| + 1 - next;
            && Enabled(w, Poll(i)) && 1 <= next <= |w.log| + 1
            && Step(w, Poll(i)).clients[i].emitted ==
                 if unseen == 0 then c.emitted
                 else if c.replay == [] && unseen > 1024 then c.emitted + [Lag(unseen - 1024)]
                 else c.emitted + [Deliver(w.log[next - 1])]
  {
    RunKeeps(trace, actions, n);
    var w := trace[n];
    assert ClientOk(w.clients[i], w.topic.receivers[i], w.log);
  }

  /** What stays in the ring after eviction is recent. */
  lemma EvictedRecent<P>(w: World<P>, now: int)
    requires LogOk(w) && RingOk(w) && w.clock <= now
    ensures forall k :: 0 <= k < |Evicted(w.topic.ring, now)| ==> Evicted(w.topic.ring, now)[k].ts >= now - RING_RETENTION
  {
    TailTimed(w.topic.ring, w.log, w.stamps, w.clock);
    RecentIsSuffix(w.topic.ring, now - RING_RETENTION);
  }
}
