/** Which events the calendar queue holds for an object, by their times: each operation of the queue
    delivers what it is given to the object that it is for. */
module CalendarDelivery {
  import opened CalendarQueue
  import Keeps = CalendarInvariant

  // ---- the times of an object's events ----

  function Times(l: seq<Event>): multiset<nat> {
    if l == [] then multiset{} else multiset{l[0].ts} + Times(l[1..])
  }

  /** Of the events in a fallback list, those for object o. */
  function TimesFor(l: seq<Event>, o: nat): multiset<nat> {
    if l == [] then multiset{} else (if l[0].destination == o then multiset{l[0].ts} else multiset{}) + TimesFor(l[1..], o)
  }

  function SlotTimes(slots: seq<seq<Event>>): multiset<nat> {
    if slots == [] then multiset{} else Times(slots[0]) + SlotTimes(slots[1..])
  }

  function WaitingTimes(fallback: seq<seq<Event>>, o: nat): multiset<nat> {
    if fallback == [] then multiset{} else TimesFor(fallback[0], o) + WaitingTimes(fallback[1..], o)
  }

  /** What object o has extracted, what its slots hold, and what waits for it. */
  function HeldTimes(c: Calendar, o: nat): multiset<nat>
    requires o < |c.log| && o < |c.queues|
  {
    Times(c.log[o]) + SlotTimes(c.queues[o]) + WaitingTimes(c.fallback, o)
  }

  function One(b: bool): nat {
    if b then 1 else 0
  }

  lemma {:induction false} TimesInsert(l: seq<Event>, e: Event, x: nat)
    ensures Times(Insert(l, e))[x] == Times(l)[x] + One(e.ts == x)
  {
    if l != [] && l[0].ts <= e.ts {
      TimesInsert(l[1..], e, x);
    }
  }

  lemma {:induction false} TimesAppend(l: seq<Event>, e: Event, x: nat)
    ensures Times(l + [e])[x] == Times(l)[x] + One(e.ts == x)
  {
    if l != [] {
      assert (l + [e])[1..] == l[1..] + [e];
      TimesAppend(l[1..], e, x);
    }
  }

  lemma {:induction false} TimesForConcat(a: seq<Event>, b: seq<Event>, o: nat, x: nat)
    ensures TimesFor(a + b, o)[x] == TimesFor(a, o)[x] + TimesFor(b, o)[x]
  {
    if a == [] {
      assert a + b == b;
    } else {
      assert (a + b)[1..] == a[1..] + b;
      TimesForConcat(a[1..], b, o, x);
    }
  }

  lemma {:induction false} SlotTimesUpdate(slots: seq<seq<Event>>, s: nat, l: seq<Event>, x: nat)
    requires s < |slots|
    ensures SlotTimes(slots[s := l])[x] + Times(slots[s])[x] == SlotTimes(slots)[x] + Times(l)[x]
  {
    if s == 0 {
      assert slots[s := l][1..] == slots[1..];
    } else {
      assert slots[s := l][1..] == slots[1..][s - 1 := l];
      SlotTimesUpdate(slots[1..], s - 1, l, x);
    }
  }

  lemma {:induction false} WaitingTimesUpdate(fallback: seq<seq<Event>>, t: nat, l: seq<Event>, o: nat, x: nat)
    requires t < |fallback|
    ensures WaitingTimes(fallback[t := l], o)[x] + TimesFor(fallback[t], o)[x] == WaitingTimes(fallback, o)[x] + TimesFor(l, o)[x]
  {
    if t == 0 {
      assert fallback[t := l][1..] == fallback[1..];
    } else {
      assert fallback[t := l][1..] == fallback[1..][t - 1 := l];
      WaitingTimesUpdate(fallback[1..], t - 1, l, o, x);
    }
  }

  // ---- what the operations do to them ----

  lemma TakeDelivers(cfg: Config, c: Calendar, p: nat, o: nat, x: nat)
    requires Shape(cfg, c) && p < cfg.objects && o < cfg.objects && c.index < cfg.slots && c.queues[p][c.index] != []
    ensures |Take(cfg, c, p).log| == |Take(cfg, c, p).queues| == cfg.objects
    ensures HeldTimes(Take(cfg, c, p), o)[x] == HeldTimes(c, o)[x]
  {
    var l := c.queues[p][c.index];
    if o == p {
      SlotTimesUpdate(c.queues[p], c.index, l[1..], x);
      TimesAppend(c.log[p], l[0], x);
    }
  }

  lemma SlotDelivers(c: Calendar, e: Event, o: nat, x: nat)
    requires e.destination < |c.queues| && e.slot < |c.queues[e.destination]| && o < |c.queues|
    ensures SlotTimes(PutInSlot(c, e)[o])[x] == SlotTimes(c.queues[o])[x] + One(e.destination == o && e.ts == x)
  {
    if e.destination == o {
      var l := c.queues[o][e.slot];
      SlotTimesUpdate(c.queues[o], e.slot, Insert(l, e), x);
      TimesInsert(l, e, x);
    }
  }

  lemma AppendDelivers(fallback: seq<seq<Event>>, t: nat, e: Event, o: nat, x: nat)
    requires t < |fallback|
    ensures WaitingTimes(fallback[t := fallback[t] + [e]], o)[x] ==
            WaitingTimes(fallback, o)[x] + One(e.destination == o && e.ts == x)
  {
    WaitingTimesUpdate(fallback, t, fallback[t] + [e], o, x);
    TimesForConcat(fallback[t], [e], o, x);
    assert TimesFor([e], o)[x] == One(e.destination == o && e.ts == x);
  }

  /** An insertion is accepted unless it lies before the window, and goes to the object it is for. */
  lemma PutDelivers(cfg: Config, c: Calendar, t: nat, destination: nat, ts: nat, o: nat, x: nat)
    requires cfg.Valid() && Shape(cfg, c) && t < cfg.threads && destination < cfg.objects && o < cfg.objects
    requires c.minLimit <= ts
    ensures var c' := Put(cfg, c, t, destination, ts);
            && |c'.log| == |c'.queues| == cfg.objects
            && HeldTimes(c', o)[x] == HeldTimes(c, o)[x] + One(destination == o && ts == x)
  {
    var e := MakeEvent(cfg, c, t, destination, ts);
    if ts >= c.maxLimit {
      AppendDelivers(c.fallback, t, e, o, x);
    } else {
      SlotDelivers(c, e, o, x);
    }
  }

  lemma UnlinkDelivers(fallback: seq<seq<Event>>, t: nat, k: nat, o: nat, x: nat)
    requires t < |fallback| && k < |fallback[t]|
    ensures var l := fallback[t];
            WaitingTimes(fallback[t := l[..k] + l[k + 1..]], o)[x] + One(l[k].destination == o && l[k].ts == x) ==
            WaitingTimes(fallback, o)[x]
  {
    var l := fallback[t];
    assert l == l[..k] + ([l[k]] + l[k + 1..]);
    TimesForConcat(l[..k], [l[k]] + l[k + 1..], o, x);
    TimesForConcat([l[k]], l[k + 1..], o, x);
    TimesForConcat(l[..k], l[k + 1..], o, x);
    assert TimesFor([l[k]], o)[x] == One(l[k].destination == o && l[k].ts == x);
    WaitingTimesUpdate(fallback, t, l[..k] + l[k + 1..], o, x);
  }

  lemma MoveDelivers(c: Calendar, t: nat, o: nat, x: nat)
    requires t < |c.cursor| == |c.fallback| && c.cursor[t] < |c.fallback[t]| && o < |c.log| == |c.queues|
    requires var e := c.fallback[t][c.cursor[t]]; e.destination < |c.queues| && e.slot < |c.queues[e.destination]|
    ensures HeldTimes(Keeps.Move(c, t), o)[x] == HeldTimes(c, o)[x]
  {
    SlotDelivers(c, c.fallback[t][c.cursor[t]], o, x);
    UnlinkDelivers(c.fallback, t, c.cursor[t], o, x);
  }

  lemma RefillDelivers(cfg: Config, c: Calendar, t: nat, o: nat, x: nat)
    requires cfg.Valid() && Shape(cfg, c) && t < cfg.threads && c.cursor[t] < |c.fallback[t]| && o < cfg.objects
    requires c.fallback[t][c.cursor[t]].destination < cfg.objects && c.fallback[t][c.cursor[t]].slot < cfg.slots
    ensures var c' := Refill(cfg, c, t);
            |c'.log| == |c'.queues| == cfg.objects && HeldTimes(c', o)[x] == HeldTimes(c, o)[x]
  {
    if c.fallback[t][c.cursor[t]].ts < c.maxLimit {
      MoveDelivers(c, t, o, x);
    }
  }

  /** What object o holds and has extracted has grown by the time ts if the event was accepted and for it. */
  ghost predicate Grown(c: Calendar, c': Calendar, o: nat, accepted: bool, destination: nat, ts: nat) {
    && o < |c.log| && o < |c.queues| && o < |c'.log| && o < |c'.queues|
    && HeldTimes(c', o) == HeldTimes(c, o) + if accepted && o == destination then multiset{ts} else multiset{}
  }

  ghost predicate DeliversTo(cfg: Config, c: Calendar, c': Calendar, accepted: bool, destination: nat, ts: nat) {
    forall o | 0 <= o < cfg.objects :: Grown(c, c', o, accepted, destination, ts)
  }

  lemma PutGrows(cfg: Config, c: Calendar, t: nat, destination: nat, ts: nat, o: nat)
    requires cfg.Valid() && Shape(cfg, c) && t < cfg.threads && destination < cfg.objects && o < cfg.objects
    ensures Grown(c, Put(cfg, c, t, destination, ts), o, c.minLimit <= ts, destination, ts)
  {
    var c' := Put(cfg, c, t, destination, ts);
    if c.minLimit <= ts {
      PutDelivers(cfg, c, t, destination, ts, o, ts);
      forall x: nat ensures HeldTimes(c', o)[x] == HeldTimes(c, o)[x] + One(destination == o && ts == x) {
        PutDelivers(cfg, c, t, destination, ts, o, x);
      }
    }
  }

  /** An insertion adds its event to what its object holds, and nothing to what any other does. */
  lemma PutDeliversTo(cfg: Config, c: Calendar, t: nat, destination: nat, ts: nat)
    requires cfg.Valid() && Shape(cfg, c) && t < cfg.threads && destination < cfg.objects
    ensures DeliversTo(cfg, c, Put(cfg, c, t, destination, ts), c.minLimit <= ts, destination, ts)
  {
    var c', accepted := Put(cfg, c, t, destination, ts), c.minLimit <= ts;
    forall o | 0 <= o < cfg.objects ensures Grown(c, c', o, accepted, destination, ts) {
      PutGrows(cfg, c, t, destination, ts, o);
    }
  }

  lemma {:induction false} NoSlotTimes(slots: seq<seq<Event>>)
    requires forall s | 0 <= s < |slots| :: slots[s] == []
    ensures SlotTimes(slots) == multiset{}
  {
    if slots != [] {
      NoSlotTimes(slots[1..]);
    }
  }

  lemma {:induction false} NoWaitingTimes(fallback: seq<seq<Event>>, o: nat)
    requires forall t | 0 <= t < |fallback| :: fallback[t] == []
    ensures WaitingTimes(fallback, o) == multiset{}
  {
    if fallback != [] {
      NoWaitingTimes(fallback[1..], o);
    }
  }
}
