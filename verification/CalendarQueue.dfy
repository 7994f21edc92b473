/** The calendar queue of queue/queue.c without speculation: per object a circle of slots, one
    epoch wide each, and per thread a fallback list for events beyond the circle.  Times are integers. */
module CalendarQueue {

  /** LOOKAHEAD (the slot length), NUM_SLOTS, OBJECTS and THREADS. */
  datatype Config = Config(look: nat, slots: nat, objects: nat, threads: nat) {
    ghost predicate Valid() { 0 < look && 2 <= slots && 0 < threads }
  }

  /** An event with its epoch number and slot.  `stamp` counts the insertions into the queues, and
      `deferred` tells that the event went through the fallback list of its sender. */
  datatype Event = Event(destination: nat, ts: nat, epoch: nat, slot: nat, sender: nat, stamp: nat, deferred: bool)

  ghost predicate Timed(cfg: Config, e: Event)
    requires cfg.Valid()
  {
    e.epoch == e.ts / cfg.look && e.slot == e.epoch % cfg.slots
  }

  ghost predicate AllTimed(cfg: Config, l: seq<Event>)
    requires cfg.Valid()
  {
    forall i | 0 <= i < |l| :: Timed(cfg, l[i])
  }

  /** Among events with the same time: the order of insertion, except that nothing is known of two
      events that waited in the fallback lists of different threads. */
  predicate Before(x: Event, y: Event) {
    x.stamp < y.stamp || (x.deferred && y.deferred && x.sender != y.sender)
  }

  predicate Precedes(x: Event, y: Event) {
    x.ts < y.ts || (x.ts == y.ts && Before(x, y))
  }

  ghost predicate Ordered(l: seq<Event>) {
    forall i, k | 0 <= i < k < |l| :: Precedes(l[i], l[k])
  }

  /** The insertion of `queue_insert`: behind every event with the same time. */
  function Insert(l: seq<Event>, e: Event): (r: seq<Event>)
    ensures |r| == |l| + 1
  {
    if l == [] || l[0].ts > e.ts then [e] + l else [l[0]] + Insert(l[1..], e)
  }

  lemma {:induction false} InsertMembers(l: seq<Event>, e: Event, x: Event)
    ensures x in Insert(l, e) <==> x == e || x in l
  {
    if l != [] && l[0].ts <= e.ts {
      InsertMembers(l[1..], e, x);
      assert l == [l[0]] + l[1..];
    }
  }

  /** The list stays ordered if the newcomer belongs behind its equals. */
  lemma {:induction false} InsertOrdered(l: seq<Event>, e: Event)
    requires Ordered(l)
    requires forall i | 0 <= i < |l| && l[i].ts == e.ts :: Before(l[i], e)
    ensures Ordered(Insert(l, e))
  {
    if l != [] && l[0].ts <= e.ts {
      InsertOrdered(l[1..], e);
      var r := Insert(l[1..], e);
      forall k | 0 <= k < |r| ensures Precedes(l[0], r[k]) {
        InsertMembers(l[1..], e, r[k]);
        assert r[k] in r;
        if r[k] != e {
          var m :| 0 <= m < |l[1..]| && l[1..][m] == r[k];
          assert Precedes(l[0], l[m + 1]);
        }
      }
    } else if l != [] {
      forall k | 0 <= k < |l| ensures Precedes(e, l[k]) {
        assert k > 0 ==> Precedes(l[0], l[k]);
      }
    }
  }

  /** Where the scan for the insertion place stops. */
  lemma {:induction false} InsertAt(l: seq<Event>, e: Event, i: nat)
    requires i <= |l| && (forall k | 0 <= k < i :: l[k].ts <= e.ts) && (i < |l| ==> l[i].ts > e.ts)
    ensures Insert(l, e) == l[..i] + [e] + l[i..]
  {
    if i > 0 {
      assert l[1..][..i - 1] == l[..i][1..];
      InsertAt(l[1..], e, i - 1);
    }
  }

  /** Of two events with one time, the one inserted first comes right before the other. */
  lemma {:induction false} InsertTwice(l: seq<Event>, x: Event, y: Event) returns (i: nat)
    requires x.ts == y.ts
    ensures i <= |l| && Insert(Insert(l, x), y) == l[..i] + [x, y] + l[i..]
  {
    if l == [] || l[0].ts > x.ts {
      i := 0;
      assert Insert(l, x)[1..] == l;
    } else {
      var k := InsertTwice(l[1..], x, y);
      i := k + 1;
      assert Insert(l, x)[1..] == Insert(l[1..], x);
      assert l[..i] == [l[0]] + l[1..][..k];
    }
  }

  // ---- time ----

  lemma DivMul(a: nat, b: nat, d: nat)
    requires 0 < d
    ensures a < b * d <==> a / d < b
  {
    var q, r := a / d, a % d;
    assert a == q * d + r;
    if q < b {
      assert (q + 1) * d <= b * d;
    } else {
      assert b * d <= q * d;
    }
  }

  lemma EpochMonotonic(x: nat, y: nat, look: nat)
    requires 0 < look && x / look < y / look
    ensures x < y
  {
    DivMul(x, y / look, look);
    DivMul(y, y / look, look);
  }

  /** An event scheduled a lookahead ahead lies in a later epoch. */
  lemma LaterEpoch(now: nat, ts: nat, look: nat)
    requires 0 < look && now + look <= ts
    ensures now / look < ts / look
  {
    DivMul(now, now / look + 1, look);
    DivMul(ts, now / look + 1, look);
    DivMul(now, now / look, look);
    assert (now / look + 1) * look == now / look * look + look;
  }

  /** Two epochs less than a whole circle apart have different slots. */
  lemma SlotsDiffer(a: nat, b: nat, slots: nat)
    requires 0 < slots && a < b < a + slots
    ensures a % slots != b % slots
  {
    if a % slots == b % slots {
      WholeCircles(a / slots, b / slots, a % slots, slots);
    }
  }

  lemma WholeCircles(q: nat, q': nat, r: nat, slots: nat)
    ensures q * slots + r < q' * slots + r ==> q * slots + r + slots <= q' * slots + r
  {
    if q < q' {
      assert (q + 1) * slots <= q' * slots;
    } else {
      assert q' * slots <= q * slots;
    }
  }

  lemma NextSlot(e: nat, slots: nat)
    requires 0 < slots
    ensures (e % slots + 1) % slots == (e + 1) % slots
  {
    NextSlotOf(e, e / slots, e % slots, slots);
  }

  lemma NextSlotOf(e: nat, q: nat, r: nat, slots: nat)
    requires r < slots && e == q * slots + r
    ensures (r + 1) % slots == (e + 1) % slots
  {
    if r + 1 == slots {
      assert e + 1 == (q + 1) * slots + 0;
      ModOf(q + 1, 0, slots);
      ModOf(1, 0, slots);
    } else {
      ModOf(q, r + 1, slots);
      ModOf(0, r + 1, slots);
    }
  }

  lemma ModOf(q: nat, r: nat, slots: nat)
    requires r < slots
    ensures (q * slots + r) % slots == r
  {
    var x := q * slots + r;
    DivMul(x, q + 1, slots);
    DivMul(x, q, slots);
    assert (q + 1) * slots == q * slots + slots;
    assert x / slots == q;
  }

  // ---- the queue ----

  /** `epoch` counts the calls of `update_timing`; `cursor[t]` is how far thread t's pass over its
      fallback list has come since the last one; `log[o]` lists what object o has extracted. */
  datatype Calendar = Calendar(
    epoch: nat, minLimit: nat, maxLimit: nat, index: nat,
    queues: seq<seq<seq<Event>>>, fallback: seq<seq<Event>>, cursor: seq<nat>,
    log: seq<seq<Event>>, stamp: nat, pending: int)

  function Initial(cfg: Config): Calendar
    requires cfg.Valid()
  {
    Calendar(0, 0, cfg.slots * cfg.look, 0,
             seq(cfg.objects, _ => seq(cfg.slots, _ => [])), seq(cfg.threads, _ => []), seq(cfg.threads, _ => 0),
             seq(cfg.objects, _ => []), 0, 0)
  }

  ghost predicate Shape(cfg: Config, c: Calendar) {
    && |c.queues| == |c.log| == cfg.objects && |c.fallback| == |c.cursor| == cfg.threads
    && forall o | 0 <= o < cfg.objects :: |c.queues[o]| == cfg.slots
  }

  function MakeEvent(cfg: Config, c: Calendar, t: nat, destination: nat, ts: nat): Event
    requires cfg.Valid()
  {
    Event(destination, ts, ts / cfg.look, ts / cfg.look % cfg.slots, t, c.stamp, ts >= c.maxLimit)
  }

  function PutInSlot(c: Calendar, e: Event): seq<seq<seq<Event>>>
    requires e.destination < |c.queues| && e.slot < |c.queues[e.destination]|
  {
    c.queues[e.destination := c.queues[e.destination][e.slot := Insert(c.queues[e.destination][e.slot], e)]]
  }

  /** `queue_insert` by thread t: refused below the window, deferred beyond it. */
  function Put(cfg: Config, c: Calendar, t: nat, destination: nat, ts: nat): Calendar
    requires cfg.Valid() && Shape(cfg, c) && t < cfg.threads && destination < cfg.objects
  {
    var e := MakeEvent(cfg, c, t, destination, ts);
    if ts < c.minLimit then c
    else if ts >= c.maxLimit then
      c.(fallback := c.fallback[t := c.fallback[t] + [e]], cursor := c.cursor[t := c.cursor[t] + 1],
         stamp := c.stamp + 1, pending := c.pending + 1)
    else c.(queues := PutInSlot(c, e), stamp := c.stamp + 1, pending := c.pending + 1)
  }

  /** `queue_extract` of the head of an object's current slot. */
  function Take(cfg: Config, c: Calendar, o: nat): Calendar
    requires Shape(cfg, c) && o < cfg.objects && c.index < cfg.slots && c.queues[o][c.index] != []
  {
    var l := c.queues[o][c.index];
    c.(queues := c.queues[o := c.queues[o][c.index := l[1..]]], log := c.log[o := c.log[o] + [l[0]]],
       pending := c.pending - 1)
  }

  /** `update_timing`; every thread then starts its pass over its fallback list. */
  function Advance(cfg: Config, c: Calendar): Calendar
    requires cfg.Valid()
  {
    c.(epoch := c.epoch + 1, minLimit := c.minLimit + cfg.look, maxLimit := c.maxLimit + cfg.look,
       index := (c.index + 1) % cfg.slots, cursor := seq(|c.cursor|, _ => 0))
  }

  /** One iteration of `fallback_check`: the element under the cursor is moved to its slot, or passed. */
  function Refill(cfg: Config, c: Calendar, t: nat): Calendar
    requires cfg.Valid() && Shape(cfg, c) && t < cfg.threads && c.cursor[t] < |c.fallback[t]|
    requires c.fallback[t][c.cursor[t]].destination < cfg.objects && c.fallback[t][c.cursor[t]].slot < cfg.slots
  {
    var k := c.cursor[t];
    var e := c.fallback[t][k];
    if e.ts < c.maxLimit then
      c.(queues := PutInSlot(c, e), fallback := c.fallback[t := c.fallback[t][..k] + c.fallback[t][k + 1..]])
    else c.(cursor := c.cursor[t := k + 1])
  }
}
