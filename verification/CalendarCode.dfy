/** The functions of queue/queue.c without speculation as they change the shared variables, with their
    loops; each does to the calendar what module CalendarQueue says.  The lists are sequences here; what module SlotList
    proves of linked nodes carries over, by the lemmas about `Plain`. */
module CalendarCode {
  import opened CalendarQueue
  import CalendarDelivery
  import Keeps = CalendarInvariant
  import Rollback
  import SlotList

  /** The scan and link common to `queue_insert` and `queue_insert_from_fallback`. */
  method InsertInSlot(l: seq<Event>, e: Event) returns (r: seq<Event>)
    ensures r == Insert(l, e)
  {
    var i := 0;
    while i < |l| && l[i].ts <= e.ts
      invariant i <= |l| && forall k | 0 <= k < i :: l[k].ts <= e.ts
    {
      i := i + 1;
    }
    InsertAt(l, e, i);
    r := l[..i] + [e] + l[i..];
  }

  /** A thread's whole pass over its fallback list. */
  ghost function RefillPass(cfg: Config, c: Calendar, t: nat): Calendar
    requires Keeps.Inv(cfg, c) && t < cfg.threads
    decreases |c.fallback[t]| - c.cursor[t]
  {
    if c.cursor[t] >= |c.fallback[t]| then c
    else
      Keeps.RefillInv(cfg, c, t);
      RefillPass(cfg, Refill(cfg, c, t), t)
  }

  lemma PassStep(cfg: Config, c: Calendar, t: nat)
    requires Keeps.Inv(cfg, c) && t < cfg.threads && c.cursor[t] < |c.fallback[t]|
    ensures Shape(cfg, c) && c.fallback[t][c.cursor[t]].destination < cfg.objects && c.fallback[t][c.cursor[t]].slot < cfg.slots
    ensures Keeps.Inv(cfg, Refill(cfg, c, t)) && RefillPass(cfg, c, t) == RefillPass(cfg, Refill(cfg, c, t), t)
    ensures var c' := Refill(cfg, c, t); |c'.fallback[t]| - c'.cursor[t] < |c.fallback[t]| - c.cursor[t]
  {
    Keeps.RefillInv(cfg, c, t);
  }

  lemma PassEnd(cfg: Config, c: Calendar, t: nat)
    requires Keeps.Inv(cfg, c) && t < cfg.threads && c.cursor[t] >= |c.fallback[t]|
    ensures c.cursor[t] == |c.fallback[t]| && RefillPass(cfg, c, t) == c
  {
    assert Keeps.FallbackInv(cfg, c.fallback[t], t, c.cursor[t], c.epoch, c.stamp);
  }

  // ---- what a pass leaves ----

  /** The events at or beyond `limit`, and those before it. */
  function Kept(l: seq<Event>, limit: nat): seq<Event> {
    if l == [] then [] else (if l[0].ts >= limit then [l[0]] else []) + Kept(l[1..], limit)
  }

  function Moved(l: seq<Event>, limit: nat): seq<Event> {
    if l == [] then [] else (if l[0].ts < limit then [l[0]] else []) + Moved(l[1..], limit)
  }

  function ForSlot(l: seq<Event>, o: nat, s: nat): seq<Event> {
    if l == [] then []
    else (if l[0].destination == o && l[0].slot == s then [l[0]] else []) + ForSlot(l[1..], o, s)
  }

  function InsertEach(slot: seq<Event>, l: seq<Event>): seq<Event>
    decreases |l|
  {
    if l == [] then slot else InsertEach(Insert(slot, l[0]), l[1..])
  }

  lemma {:induction false} KeptAll(l: seq<Event>, rest: seq<Event>, limit: nat)
    requires forall i | 0 <= i < |l| :: l[i].ts >= limit
    ensures Kept(l + rest, limit) == l + Kept(rest, limit)
  {
    if l == [] {
      assert [] + rest == rest;
    } else {
      KeptAll(l[1..], rest, limit);
      assert (l + rest)[1..] == l[1..] + rest;
    }
  }

  /** The part of thread t's list under and behind the cursor has been divided by the end of the window,
      and nothing but this list, its cursor and the slots has changed. */
  ghost predicate Divided(c: Calendar, c': Calendar, t: nat) {
    && t < |c.fallback| == |c.cursor| && c.cursor[t] <= |c.fallback[t]|
    && var kept := c.fallback[t][..c.cursor[t]] + Kept(c.fallback[t][c.cursor[t]..], c.maxLimit);
       c' == c.(queues := c'.queues, fallback := c.fallback[t := kept], cursor := c.cursor[t := |kept|])
  }

  /** The events of that part that leave for a slot have been inserted into it, one after the other. */
  ghost predicate Inserted(c: Calendar, c': Calendar, t: nat, o: nat, s: nat) {
    && t < |c.fallback| == |c.cursor| && c.cursor[t] <= |c.fallback[t]|
    && o < |c.queues| == |c'.queues| && s < |c.queues[o]| == |c'.queues[o]|
    && c'.queues[o][s] == InsertEach(c.queues[o][s], ForSlot(Moved(c.fallback[t][c.cursor[t]..], c.maxLimit), o, s))
  }

  ghost predicate MayRefill(cfg: Config, c: Calendar, t: nat) {
    && cfg.Valid() && Shape(cfg, c) && t < cfg.threads && c.cursor[t] < |c.fallback[t]|
    && c.fallback[t][c.cursor[t]].destination < cfg.objects && c.fallback[t][c.cursor[t]].slot < cfg.slots
  }

  lemma DividedStep(cfg: Config, c: Calendar, c': Calendar, t: nat)
    requires MayRefill(cfg, c, t) && Divided(Refill(cfg, c, t), c', t)
    ensures Divided(c, c', t)
  {
    var l, k, kept := c.fallback[t], c.cursor[t], c'.fallback[t];
    assert l[k..][1..] == l[k + 1..];
    assert c.cursor[t := k + 1][t := |kept|] == c.cursor[t := |kept|];
    if l[k].ts < c.maxLimit {
      var l1 := l[..k] + l[k + 1..];
      assert l1[..k] == l[..k] && l1[k..] == l[k + 1..];
      assert c.fallback[t := l1][t := kept] == c.fallback[t := kept];
      assert [] + Kept(l[k + 1..], c.maxLimit) == Kept(l[k + 1..], c.maxLimit);
    } else {
      assert l[..k + 1] + Kept(l[k + 1..], c.maxLimit) == l[..k] + ([l[k]] + Kept(l[k + 1..], c.maxLimit));
    }
  }

  lemma InsertedStep(cfg: Config, c: Calendar, c': Calendar, t: nat, o: nat, s: nat)
    requires MayRefill(cfg, c, t) && Inserted(Refill(cfg, c, t), c', t, o, s)
    ensures Inserted(c, c', t, o, s)
  {
    var l, k := c.fallback[t], c.cursor[t];
    var rest := Moved(l[k + 1..], c.maxLimit);
    assert l[k..][1..] == l[k + 1..];
    if l[k].ts < c.maxLimit {
      var l1 := l[..k] + l[k + 1..];
      assert l1[k..] == l[k + 1..];
      InsertFirst(c.queues[o][s], l[k], rest, o, s);
    } else {
      assert [] + rest == rest;
    }
  }

  lemma {:induction false} PassDivides(cfg: Config, c: Calendar, t: nat)
    requires Keeps.Inv(cfg, c) && t < cfg.threads
    ensures Divided(c, RefillPass(cfg, c, t), t)
    decreases |c.fallback[t]| - c.cursor[t]
  {
    if c.cursor[t] >= |c.fallback[t]| {
      PassEnd(cfg, c, t);
      assert c.fallback[t][..c.cursor[t]] + Kept([], c.maxLimit) == c.fallback[t];
    } else {
      PassStep(cfg, c, t);
      PassDivides(cfg, Refill(cfg, c, t), t);
      DividedStep(cfg, c, RefillPass(cfg, c, t), t);
    }
  }

  lemma {:induction false} PassInserts(cfg: Config, c: Calendar, t: nat, o: nat, s: nat)
    requires Keeps.Inv(cfg, c) && t < cfg.threads && o < cfg.objects && s < cfg.slots
    ensures Inserted(c, RefillPass(cfg, c, t), t, o, s)
    decreases |c.fallback[t]| - c.cursor[t]
  {
    if c.cursor[t] >= |c.fallback[t]| {
      PassEnd(cfg, c, t);
    } else {
      PassStep(cfg, c, t);
      PassInserts(cfg, Refill(cfg, c, t), t, o, s);
      InsertedStep(cfg, c, RefillPass(cfg, c, t), t, o, s);
    }
  }

  lemma InsertFirst(slot: seq<Event>, e: Event, rest: seq<Event>, o: nat, s: nat)
    ensures InsertEach(slot, ForSlot([e] + rest, o, s)) ==
            InsertEach(if e.destination == o && e.slot == s then Insert(slot, e) else slot, ForSlot(rest, o, s))
  {
    assert ([e] + rest)[1..] == rest;
    assert [] + ForSlot(rest, o, s) == ForSlot(rest, o, s);
    assert ([e] + ForSlot(rest, o, s))[1..] == ForSlot(rest, o, s);
  }

  /** After a pass, the list is the events that were in it at or beyond the end of the window, in their
      order. */
  lemma PassKeeps(cfg: Config, c: Calendar, t: nat)
    requires Keeps.Inv(cfg, c) && t < cfg.threads
    ensures t < |c.fallback| == |RefillPass(cfg, c, t).fallback|
    ensures RefillPass(cfg, c, t).fallback[t] == Kept(c.fallback[t], c.maxLimit)
  {
    PassDivides(cfg, c, t);
    var l, k := c.fallback[t], c.cursor[t];
    forall i | 0 <= i < k ensures l[..k][i].ts >= c.maxLimit {
      Keeps.WindowOfTime(cfg, c, l[i].ts);
      assert Timed(cfg, l[i]);
    }
    KeptAll(l[..k], l[k..], c.maxLimit);
    assert l[..k] + l[k..] == l;
  }

  // ---- the same lists on linked nodes ----

  /** The list as the nodes of module SlotList hold it, each event named by its stamp. */
  function Plain(l: seq<Event>): (r: seq<Rollback.Event>)
    ensures |r| == |l|
  {
    seq(|l|, i requires 0 <= i < |l| => Rollback.Event(l[i].ts, l[i].stamp, Rollback.Outside))
  }

  lemma PlainCons(x: Event, l: seq<Event>)
    ensures Plain([x] + l) == [Rollback.Event(x.ts, x.stamp, Rollback.Outside)] + Plain(l)
  {
  }

  lemma {:induction false} PlainInsert(l: seq<Event>, e: Event)
    ensures Plain(Insert(l, e)) == Rollback.Insert(Plain(l), Rollback.Event(e.ts, e.stamp, Rollback.Outside))
  {
    if l == [] || l[0].ts > e.ts {
      PlainCons(e, l);
    } else {
      PlainInsert(l[1..], e);
      PlainCons(l[0], Insert(l[1..], e));
      assert Plain(l)[1..] == Plain(l[1..]);
    }
  }

  lemma {:induction false} PlainDivided(l: seq<Event>, limit: nat)
    ensures Plain(Moved(l, limit)) == Rollback.Below(Plain(l), limit)
    ensures Plain(Kept(l, limit)) == SlotList.Beyond(Plain(l), limit)
  {
    if l != [] {
      PlainDivided(l[1..], limit);
      PlainCons(l[0], Moved(l[1..], limit));
      PlainCons(l[0], Kept(l[1..], limit));
      assert Plain(l)[1..] == Plain(l[1..]);
      assert [] + Moved(l[1..], limit) == Moved(l[1..], limit);
      assert [] + Kept(l[1..], limit) == Kept(l[1..], limit);
      assert [] + Rollback.Below(Plain(l[1..]), limit) == Rollback.Below(Plain(l[1..]), limit);
      assert [] + SlotList.Beyond(Plain(l[1..]), limit) == SlotList.Beyond(Plain(l[1..]), limit);
    }
  }

  class Queues {
    const cfg: Config
    var epoch: nat
    var minLimit: nat
    var maxLimit: nat
    var index: nat
    var queues: seq<seq<seq<Event>>>
    var fallback: seq<seq<Event>>
    var cursor: seq<nat>
    ghost var log: seq<seq<Event>>
    var stamp: nat
    var pending: int
    var end: bool

    ghost function View(): Calendar
      reads this
    {
      Calendar(epoch, minLimit, maxLimit, index, queues, fallback, cursor, log, stamp, pending)
    }

    ghost predicate Valid()
      reads this
    {
      Keeps.Inv(cfg, View())
    }

    constructor (cfg: Config)
      requires cfg.Valid()
      ensures this.cfg == cfg && View() == Initial(cfg) && Valid() && !end
    {
      Keeps.InitialInv(cfg);
      this.cfg := cfg;
      epoch, minLimit, maxLimit, index := 0, 0, cfg.slots * cfg.look, 0;
      queues := seq(cfg.objects, _ => seq(cfg.slots, _ => []));
      fallback, cursor := seq(cfg.threads, _ => []), seq(cfg.threads, _ => 0);
      log := seq(cfg.objects, _ => []);
      stamp, pending, end := 0, 0, false;
    }

    /** `update_timing`. */
    method UpdateTiming()
      requires Valid() && Keeps.CurrentSlotsEmpty(View()) && Keeps.PassesDone(View())
      modifies this
      ensures Valid() && View() == Advance(cfg, old(View()))
      ensures end <==> old(end) || old(pending) == 0
    {
      Keeps.AdvanceInv(cfg, View());
      ShiftWindow();
    }

    method ShiftWindow()
      requires cfg.Valid()
      modifies this
      ensures View() == Advance(cfg, old(View()))
      ensures end <==> old(end) || old(pending) == 0
    {
      minLimit := minLimit + cfg.look;
      maxLimit := maxLimit + cfg.look;
      index := (index + 1) % cfg.slots;
      epoch := epoch + 1;
      cursor := seq(|cursor|, _ => 0);
      if pending == 0 {
        end := true;
      }
    }

    method InsertElement(t: nat, destination: nat, ts: nat) returns (ret: int)
      requires cfg.Valid() && Shape(cfg, View()) && t < cfg.threads && destination < cfg.objects
      modifies this
      ensures View() == Put(cfg, old(View()), t, destination, ts) && end == old(end)
      ensures ret == if ts < old(minLimit) then -1 else 0
    {
      if ts < minLimit {
        return -1;
      }
      var slot := ts / cfg.look % cfg.slots;
      var e := Event(destination, ts, ts / cfg.look, slot, t, stamp, ts >= maxLimit);
      if ts >= maxLimit {
        fallback := fallback[t := fallback[t] + [e]];
        cursor := cursor[t := cursor[t] + 1];
      } else {
        var l := InsertInSlot(queues[destination][slot], e);
        queues := queues[destination := queues[destination][slot := l]];
      }
      stamp := stamp + 1;
      pending := pending + 1;
      return 0;
    }

    /** `queue_insert` by thread t; -1 is the refusal of an event before the window. */
    method QueueInsert(t: nat, destination: nat, ts: nat) returns (ret: int)
      requires Valid() && Keeps.PassesDone(View()) && t < cfg.threads && destination < cfg.objects
      requires Keeps.Ahead(cfg, View(), ts)
      modifies this
      ensures Valid() && View() == Put(cfg, old(View()), t, destination, ts) && end == old(end)
      ensures ret == if ts < old(minLimit) then -1 else 0
      ensures CalendarDelivery.DeliversTo(cfg, old(View()), View(), ret == 0, destination, ts)
    {
      Keeps.PutInv(cfg, View(), t, destination, ts);
      CalendarDelivery.PutDeliversTo(cfg, View(), t, destination, ts);
      ret := InsertElement(t, destination, ts);
    }

    /** The regular end of `queue_extract`. */
    method Extract(o: nat) returns (e: Event)
      requires Valid() && o < cfg.objects && index < cfg.slots && queues[o][index] != []
      modifies this
      ensures Valid() && View() == Take(cfg, old(View()), o) && end == old(end)
      ensures e == old(queues[o][index][0])
    {
      Keeps.TakeInv(cfg, View(), o);
      e := queues[o][index][0];
      queues := queues[o := queues[o][index := queues[o][index][1..]]];
      log := log[o := log[o] + [e]];
      pending := pending - 1;
    }

    /** One turn of the loop of `fallback_check`. */
    method RefillOne(t: nat)
      requires cfg.Valid() && Shape(cfg, View()) && t < cfg.threads && cursor[t] < |fallback[t]|
      requires fallback[t][cursor[t]].destination < cfg.objects && fallback[t][cursor[t]].slot < cfg.slots
      modifies this
      ensures View() == Refill(cfg, old(View()), t) && end == old(end)
    {
      var k := cursor[t];
      var e := fallback[t][k];
      if e.ts < maxLimit {
        fallback := fallback[t := fallback[t][..k] + fallback[t][k + 1..]];
        var l := InsertInSlot(queues[e.destination][e.slot], e);
        queues := queues[e.destination := queues[e.destination][e.slot := l]];
      } else {
        cursor := cursor[t := k + 1];
      }
    }

    /** `fallback_check` by thread t: the list keeps its events at or beyond the end of the window, in
        their order, and each slot gets its share of the others, in theirs. */
    method FallbackCheck(t: nat)
      requires Valid() && t < cfg.threads
      modifies this
      ensures Valid() && View() == RefillPass(cfg, old(View()), t) && cursor[t] == |fallback[t]| && end == old(end)
      ensures Divided(old(View()), View(), t) && fallback[t] == Kept(old(fallback[t]), maxLimit)
      ensures forall o, s | 0 <= o < cfg.objects && 0 <= s < cfg.slots :: Inserted(old(View()), View(), t, o, s)
    {
      ghost var was := View();
      while cursor[t] < |fallback[t]|
        invariant Valid() && end == old(end)
        invariant RefillPass(cfg, View(), t) == RefillPass(cfg, old(View()), t)
        decreases |fallback[t]| - cursor[t]
      {
        PassStep(cfg, View(), t);
        RefillOne(t);
      }
      PassEnd(cfg, View(), t);
      PassDivides(cfg, was, t);
      PassKeeps(cfg, was, t);
      forall o, s | 0 <= o < cfg.objects && 0 <= s < cfg.slots ensures Inserted(was, View(), t, o, s) {
        PassInserts(cfg, was, t, o, s);
      }
    }
  }
}
