/** What every operation on the calendar queue keeps. */
module CalendarInvariant {
  import opened CalendarQueue

  /** The clock variables all follow from the number of epochs. */
  ghost predicate ClockInv(cfg: Config, c: Calendar)
    requires cfg.Valid()
  {
    && c.minLimit == c.epoch * cfg.look
    && c.maxLimit == (c.epoch + cfg.slots) * cfg.look
    && c.index == c.epoch % cfg.slots
  }

  /** The events of one slot: ordered, and of epochs inside the window. */
  ghost predicate SlotInv(l: seq<Event>, o: nat, s: nat, epoch: nat, slots: nat, stamp: nat) {
    && Ordered(l)
    && forall i | 0 <= i < |l| ::
         l[i].destination == o && l[i].slot == s && epoch <= l[i].epoch < epoch + slots && l[i].stamp < stamp
  }

  /** A fallback list: in order of insertion; behind the cursor everything lies beyond the window. */
  ghost predicate FallbackInv(cfg: Config, l: seq<Event>, t: nat, cursor: nat, epoch: nat, stamp: nat) {
    && cursor <= |l|
    && (forall j | 0 <= j < |l| ::
          && l[j].sender == t && l[j].deferred && l[j].destination < cfg.objects && l[j].slot < cfg.slots
          && l[j].stamp < stamp
          && epoch + cfg.slots <= l[j].epoch + (if j < cursor then 0 else 1))
    && forall j, k | 0 <= j < k < |l| :: l[j].stamp < l[k].stamp
  }

  /** An event still waiting in thread t's fallback list belongs behind its equals in a slot. */
  ghost predicate Behind(slot: seq<Event>, waiting: seq<Event>, o: nat, t: nat) {
    forall i, j | 0 <= i < |slot| && 0 <= j < |waiting| && waiting[j].destination == o && waiting[j].ts == slot[i].ts ::
      slot[i].deferred && (slot[i].sender == t ==> slot[i].stamp < waiting[j].stamp)
  }

  /** What object o has extracted, followed by its current slot, is in order. */
  ghost predicate LogInv(log: seq<Event>, current: seq<Event>, epoch: nat) {
    && Ordered(log + current)
    && forall i | 0 <= i < |log| :: log[i].epoch <= epoch
  }

  ghost predicate QueuesInv(cfg: Config, qs: seq<seq<seq<Event>>>, epoch: nat, stamp: nat)
    requires cfg.Valid()
  {
    && |qs| == cfg.objects && (forall o | 0 <= o < |qs| :: |qs[o]| == cfg.slots)
    && forall o, s | 0 <= o < |qs| && 0 <= s < |qs[o]| ::
         SlotInv(qs[o][s], o, s, epoch, cfg.slots, stamp) && AllTimed(cfg, qs[o][s])
  }

  ghost predicate FallbacksInv(cfg: Config, fallback: seq<seq<Event>>, cursor: seq<nat>, epoch: nat, stamp: nat)
    requires cfg.Valid()
  {
    && |fallback| == |cursor| == cfg.threads
    && forall t | 0 <= t < |fallback| ::
         FallbackInv(cfg, fallback[t], t, cursor[t], epoch, stamp) && AllTimed(cfg, fallback[t])
  }

  ghost predicate SlotsBehind(qs: seq<seq<seq<Event>>>, waiting: seq<Event>, t: nat) {
    forall o, s | 0 <= o < |qs| && 0 <= s < |qs[o]| :: Behind(qs[o][s], waiting, o, t)
  }

  ghost predicate LogsInv(cfg: Config, log: seq<seq<Event>>, qs: seq<seq<seq<Event>>>, index: nat, epoch: nat)
    requires cfg.Valid()
  {
    && |log| == |qs| == cfg.objects
    && forall o | 0 <= o < |qs| ::
         index < |qs[o]| && LogInv(log[o], qs[o][index], epoch) && AllTimed(cfg, log[o])
  }

  ghost predicate Inv(cfg: Config, c: Calendar) {
    && cfg.Valid() && ClockInv(cfg, c)
    && QueuesInv(cfg, c.queues, c.epoch, c.stamp)
    && FallbacksInv(cfg, c.fallback, c.cursor, c.epoch, c.stamp)
    && (forall t | 0 <= t < |c.fallback| :: SlotsBehind(c.queues, c.fallback[t], t))
    && LogsInv(cfg, c.log, c.queues, c.index, c.epoch)
    && c.pending == Total(c.queues) + Sum(c.fallback)
  }

  /** Every thread has finished its pass over its fallback list. */
  ghost predicate PassesDone(c: Calendar) {
    |c.cursor| == |c.fallback| && forall t | 0 <= t < |c.cursor| :: c.cursor[t] == |c.fallback[t]|
  }

  ghost predicate CurrentSlotsEmpty(c: Calendar) {
    forall o | 0 <= o < |c.queues| :: c.index < |c.queues[o]| && c.queues[o][c.index] == []
  }

  // ---- number of events held ----

  function Sum(ls: seq<seq<Event>>): nat {
    if ls == [] then 0 else |ls[0]| + Sum(ls[1..])
  }

  function Total(qs: seq<seq<seq<Event>>>): nat {
    if qs == [] then 0 else Sum(qs[0]) + Total(qs[1..])
  }

  lemma {:induction false} SumUpdate(ls: seq<seq<Event>>, i: nat, l: seq<Event>)
    requires i < |ls|
    ensures Sum(ls[i := l]) == Sum(ls) - |ls[i]| + |l|
  {
    if i == 0 {
      assert ls[i := l][1..] == ls[1..];
    } else {
      assert ls[i := l][1..] == ls[1..][i - 1 := l];
      SumUpdate(ls[1..], i - 1, l);
    }
  }

  lemma {:induction false} TotalUpdate(qs: seq<seq<seq<Event>>>, o: nat, ls: seq<seq<Event>>)
    requires o < |qs|
    ensures Total(qs[o := ls]) == Total(qs) - Sum(qs[o]) + Sum(ls)
  {
    if o == 0 {
      assert qs[o := ls][1..] == qs[1..];
    } else {
      assert qs[o := ls][1..] == qs[1..][o - 1 := ls];
      TotalUpdate(qs[1..], o - 1, ls);
    }
  }

  lemma {:induction false} SumZero(ls: seq<seq<Event>>)
    ensures Sum(ls) == 0 <==> forall i | 0 <= i < |ls| :: ls[i] == []
  {
    if ls != [] {
      SumZero(ls[1..]);
      assert forall i | 1 <= i < |ls| :: ls[i] == ls[1..][i - 1];
    }
  }

  lemma {:induction false} TotalZero(qs: seq<seq<seq<Event>>>)
    ensures Total(qs) == 0 <==> forall o | 0 <= o < |qs| :: Sum(qs[o]) == 0
  {
    if qs != [] {
      TotalZero(qs[1..]);
      assert forall i | 1 <= i < |qs| :: qs[i] == qs[1..][i - 1];
    }
  }

  /** The count of pending events is 0 exactly when no slot and no fallback list holds an event. */
  lemma PendingZero(cfg: Config, c: Calendar)
    requires Inv(cfg, c)
    ensures c.pending == 0 <==>
            && (forall o, s | 0 <= o < cfg.objects && 0 <= s < cfg.slots :: c.queues[o][s] == [])
            && (forall t | 0 <= t < cfg.threads :: c.fallback[t] == [])
  {
    SumZero(c.fallback);
    TotalZero(c.queues);
    forall o | 0 <= o < cfg.objects
      ensures Sum(c.queues[o]) == 0 <==> forall s | 0 <= s < cfg.slots :: c.queues[o][s] == []
    {
      SumZero(c.queues[o]);
    }
  }

  lemma InitialTotals(cfg: Config)
    requires cfg.Valid()
    ensures Total(Initial(cfg).queues) == 0 && Sum(Initial(cfg).fallback) == 0
  {
    var c := Initial(cfg);
    forall o | 0 <= o < cfg.objects ensures Sum(c.queues[o]) == 0 {
      SumZero(c.queues[o]);
    }
    TotalZero(c.queues);
    SumZero(c.fallback);
  }

  lemma InitialLists(cfg: Config)
    requires cfg.Valid()
    ensures QueuesInv(cfg, Initial(cfg).queues, 0, 0)
    ensures FallbacksInv(cfg, Initial(cfg).fallback, Initial(cfg).cursor, 0, 0)
  {
  }

  lemma InitialLogs(cfg: Config)
    requires cfg.Valid()
    ensures LogsInv(cfg, Initial(cfg).log, Initial(cfg).queues, 0, 0)
  {
    var c := Initial(cfg);
    forall o | 0 <= o < cfg.objects ensures LogInv(c.log[o], c.queues[o][0], 0) {
      assert c.log[o] + c.queues[o][0] == [];
    }
  }

  lemma InitialClock(cfg: Config)
    requires cfg.Valid()
    ensures ClockInv(cfg, Initial(cfg))
  {
    ModOf(0, 0, cfg.slots);
  }

  lemma InitialInv(cfg: Config)
    requires cfg.Valid()
    ensures Inv(cfg, Initial(cfg)) && PassesDone(Initial(cfg))
  {
    InitialClock(cfg);
    InitialTotals(cfg);
    InitialLists(cfg);
    InitialLogs(cfg);
    assert forall t | 0 <= t < cfg.threads :: SlotsBehind(Initial(cfg).queues, [], t);
  }

  // ---- update_timing ----

  /** With an empty current slot, no event of the ending epoch is left. */
  lemma NoneOfThisEpoch(cfg: Config, c: Calendar, o: nat, s: nat, i: nat)
    requires cfg.Valid() && ClockInv(cfg, c) && QueuesInv(cfg, c.queues, c.epoch, c.stamp)
    requires CurrentSlotsEmpty(c) && o < cfg.objects && s < cfg.slots && i < |c.queues[o][s]|
    ensures c.epoch < c.queues[o][s][i].epoch
  {
    var e := c.queues[o][s][i];
    assert Timed(cfg, e);
    assert SlotInv(c.queues[o][s], o, s, c.epoch, cfg.slots, c.stamp);
  }

  lemma AdvanceClock(cfg: Config, c: Calendar)
    requires cfg.Valid() && ClockInv(cfg, c)
    ensures ClockInv(cfg, Advance(cfg, c)) && Advance(cfg, c).index < cfg.slots
  {
    NextSlot(c.epoch, cfg.slots);
    assert (c.epoch + 1) * cfg.look == c.epoch * cfg.look + cfg.look;
    assert (c.epoch + 1 + cfg.slots) * cfg.look == (c.epoch + cfg.slots) * cfg.look + cfg.look;
  }

  /** Events of later epochs follow everything extracted so far. */
  lemma LaterFollows(cfg: Config, log: seq<Event>, current: seq<Event>, epoch: nat)
    requires cfg.Valid() && AllTimed(cfg, log) && AllTimed(cfg, current) && Ordered(log) && Ordered(current)
    requires forall i | 0 <= i < |log| :: log[i].epoch <= epoch
    requires forall i | 0 <= i < |current| :: epoch < current[i].epoch
    ensures LogInv(log, current, epoch)
  {
    forall i, k | 0 <= i < |log| && 0 <= k < |current| ensures log[i].ts < current[k].ts {
      EpochMonotonic(log[i].ts, current[k].ts, cfg.look);
    }
  }

  lemma AdvanceQueues(cfg: Config, c: Calendar)
    requires cfg.Valid() && ClockInv(cfg, c) && QueuesInv(cfg, c.queues, c.epoch, c.stamp) && CurrentSlotsEmpty(c)
    ensures QueuesInv(cfg, c.queues, c.epoch + 1, c.stamp)
  {
    forall o, s | 0 <= o < |c.queues| && 0 <= s < |c.queues[o]|
      ensures SlotInv(c.queues[o][s], o, s, c.epoch + 1, cfg.slots, c.stamp)
    {
      assert SlotInv(c.queues[o][s], o, s, c.epoch, cfg.slots, c.stamp);
      forall i | 0 <= i < |c.queues[o][s]| ensures c.epoch < c.queues[o][s][i].epoch {
        NoneOfThisEpoch(cfg, c, o, s, i);
      }
    }
  }

  lemma AdvanceLogs(cfg: Config, c: Calendar, index: nat)
    requires cfg.Valid() && QueuesInv(cfg, c.queues, c.epoch + 1, c.stamp) && CurrentSlotsEmpty(c)
    requires LogsInv(cfg, c.log, c.queues, c.index, c.epoch) && index < cfg.slots
    ensures LogsInv(cfg, c.log, c.queues, index, c.epoch + 1)
  {
    forall o | 0 <= o < |c.queues| ensures LogInv(c.log[o], c.queues[o][index], c.epoch + 1) {
      assert LogInv(c.log[o], c.queues[o][c.index], c.epoch);
      assert c.log[o] + [] == c.log[o];
      assert SlotInv(c.queues[o][index], o, index, c.epoch + 1, cfg.slots, c.stamp);
      LaterFollows(cfg, c.log[o], c.queues[o][index], c.epoch);
    }
  }

  lemma AdvanceInv(cfg: Config, c: Calendar)
    requires Inv(cfg, c) && CurrentSlotsEmpty(c) && PassesDone(c)
    ensures Inv(cfg, Advance(cfg, c))
  {
    var c' := Advance(cfg, c);
    AdvanceClock(cfg, c);
    AdvanceQueues(cfg, c);
    AdvanceLogs(cfg, c, c'.index);
    assert FallbacksInv(cfg, c'.fallback, c'.cursor, c'.epoch, c'.stamp);
  }

  // ---- insertion into a slot ----

  lemma InsertSlotInv(l: seq<Event>, e: Event, o: nat, s: nat, epoch: nat, slots: nat, stamp: nat)
    requires SlotInv(l, o, s, epoch, slots, stamp)
    requires e.destination == o && e.slot == s && epoch <= e.epoch < epoch + slots && e.stamp < stamp
    requires forall i | 0 <= i < |l| && l[i].ts == e.ts :: Before(l[i], e)
    ensures SlotInv(Insert(l, e), o, s, epoch, slots, stamp)
  {
    InsertOrdered(l, e);
    var r := Insert(l, e);
    forall i | 0 <= i < |r|
      ensures r[i].destination == o && r[i].slot == s && epoch <= r[i].epoch < epoch + slots && r[i].stamp < stamp
    {
      InsertMembers(l, e, r[i]);
      assert r[i] in r;
    }
  }

  lemma InsertTimed(cfg: Config, l: seq<Event>, e: Event)
    requires cfg.Valid() && AllTimed(cfg, l) && Timed(cfg, e)
    ensures AllTimed(cfg, Insert(l, e))
  {
    var r := Insert(l, e);
    forall i | 0 <= i < |r| ensures Timed(cfg, r[i]) {
      InsertMembers(l, e, r[i]);
      assert r[i] in r;
    }
  }

  lemma InsertBehind(l: seq<Event>, e: Event, waiting: seq<Event>, o: nat, t: nat)
    requires Behind(l, waiting, o, t) && Behind([e], waiting, o, t)
    ensures Behind(Insert(l, e), waiting, o, t)
  {
    var r := Insert(l, e);
    forall i, j | 0 <= i < |r| && 0 <= j < |waiting| && waiting[j].destination == o && waiting[j].ts == r[i].ts
      ensures r[i].deferred && (r[i].sender == t ==> r[i].stamp < waiting[j].stamp)
    {
      InsertMembers(l, e, r[i]);
      assert r[i] in r;
      if r[i] == e {
        assert [e][0] == e;
      }
    }
  }

  /** An event whose slot and time are right, and whose equals in the slot are before it. */
  ghost predicate Fits(cfg: Config, c: Calendar, e: Event)
    requires cfg.Valid()
  {
    && e.destination < cfg.objects == |c.queues| && e.slot < cfg.slots == |c.queues[e.destination]| && Timed(cfg, e)
    && c.epoch <= e.epoch < c.epoch + cfg.slots
    && var l := c.queues[e.destination][e.slot];
       forall i | 0 <= i < |l| && l[i].ts == e.ts :: Before(l[i], e)
  }

  lemma PutQueues(cfg: Config, c: Calendar, e: Event, stamp: nat)
    requires cfg.Valid() && QueuesInv(cfg, c.queues, c.epoch, c.stamp) && Fits(cfg, c, e)
    requires c.stamp <= stamp && e.stamp < stamp
    ensures QueuesInv(cfg, PutInSlot(c, e), c.epoch, stamp) && Total(PutInSlot(c, e)) == Total(c.queues) + 1
  {
    var qs, o', s' := PutInSlot(c, e), e.destination, e.slot;
    var l := c.queues[o'][s'];
    SumUpdate(c.queues[o'], s', Insert(l, e));
    TotalUpdate(c.queues, o', c.queues[o'][s' := Insert(l, e)]);
    forall o, s | 0 <= o < |qs| && 0 <= s < |qs[o]|
      ensures SlotInv(qs[o][s], o, s, c.epoch, cfg.slots, stamp) && AllTimed(cfg, qs[o][s])
    {
      assert SlotInv(c.queues[o][s], o, s, c.epoch, cfg.slots, c.stamp) && AllTimed(cfg, c.queues[o][s]);
      if o == o' && s == s' {
        InsertSlotInv(l, e, o, s, c.epoch, cfg.slots, stamp);
        InsertTimed(cfg, l, e);
      }
    }
  }

  lemma PutBehind(cfg: Config, c: Calendar, e: Event, waiting: seq<Event>, t: nat)
    requires cfg.Valid() && Fits(cfg, c, e)
    requires SlotsBehind(c.queues, waiting, t) && Behind([e], waiting, e.destination, t)
    ensures SlotsBehind(PutInSlot(c, e), waiting, t)
  {
    InsertBehind(c.queues[e.destination][e.slot], e, waiting, e.destination, t);
  }

  /** An insertion leaves the current slots alone, unless nothing has been extracted yet. */
  lemma PutLogs(cfg: Config, c: Calendar, e: Event, stamp: nat)
    requires cfg.Valid() && ClockInv(cfg, c) && Fits(cfg, c, e)
    requires LogsInv(cfg, c.log, c.queues, c.index, c.epoch) && QueuesInv(cfg, PutInSlot(c, e), c.epoch, stamp)
    requires e.epoch > c.epoch || forall o | 0 <= o < |c.log| :: c.log[o] == []
    ensures LogsInv(cfg, c.log, PutInSlot(c, e), c.index, c.epoch)
  {
    var qs := PutInSlot(c, e);
    if e.epoch > c.epoch {
      SlotsDiffer(c.epoch, e.epoch, cfg.slots);
    }
    forall o | 0 <= o < |qs| ensures c.index < |qs[o]| && LogInv(c.log[o], qs[o][c.index], c.epoch) {
      assert LogInv(c.log[o], c.queues[o][c.index], c.epoch);
      assert SlotInv(qs[o][c.index], o, c.index, c.epoch, cfg.slots, stamp);
      assert [] + qs[o][c.index] == qs[o][c.index];
    }
  }

  // ---- queue_insert ----

  /** The comparisons of a time with the limits compare its epoch with the window. */
  lemma WindowOfTime(cfg: Config, c: Calendar, ts: nat)
    requires cfg.Valid() && ClockInv(cfg, c)
    ensures ts < c.minLimit <==> ts / cfg.look < c.epoch
    ensures ts >= c.maxLimit <==> ts / cfg.look >= c.epoch + cfg.slots
    ensures ts / cfg.look % cfg.slots < cfg.slots
  {
    DivMul(ts, c.epoch, cfg.look);
    DivMul(ts, c.epoch + cfg.slots, cfg.look);
  }

  /** Slots inside a bound lie before everything waiting beyond it. */
  lemma BehindBeyond(cfg: Config, slot: seq<Event>, waiting: seq<Event>, o: nat, t: nat, bound: nat)
    requires cfg.Valid() && AllTimed(cfg, slot) && AllTimed(cfg, waiting)
    requires forall i | 0 <= i < |slot| :: slot[i].epoch < bound
    requires forall j | 0 <= j < |waiting| :: bound <= waiting[j].epoch
    ensures Behind(slot, waiting, o, t)
  {
    forall i, j | 0 <= i < |slot| && 0 <= j < |waiting| ensures slot[i].ts != waiting[j].ts {
      assert Timed(cfg, slot[i]) && Timed(cfg, waiting[j]);
    }
  }

  /** With the pass over the list done, the whole window lies before everything that still waits. */
  lemma WindowBehind(cfg: Config, qs: seq<seq<seq<Event>>>, waiting: seq<Event>, t: nat, epoch: nat, stamp: nat)
    requires cfg.Valid() && QueuesInv(cfg, qs, epoch, stamp)
    requires FallbackInv(cfg, waiting, t, |waiting|, epoch, stamp) && AllTimed(cfg, waiting)
    ensures SlotsBehind(qs, waiting, t)
  {
    forall o, s | 0 <= o < |qs| && 0 <= s < |qs[o]| ensures Behind(qs[o][s], waiting, o, t) {
      assert SlotInv(qs[o][s], o, s, epoch, cfg.slots, stamp);
      BehindBeyond(cfg, qs[o][s], waiting, o, t, epoch + cfg.slots);
    }
  }

  /** An event may be scheduled for a later epoch, or for any before extraction has begun. */
  ghost predicate Ahead(cfg: Config, c: Calendar, ts: nat)
    requires cfg.Valid()
  {
    ts / cfg.look > c.epoch || forall o | 0 <= o < |c.log| :: c.log[o] == []
  }

  lemma MoreStamps(cfg: Config, c: Calendar, stamp: nat)
    requires cfg.Valid() && c.stamp <= stamp
    ensures QueuesInv(cfg, c.queues, c.epoch, c.stamp) ==> QueuesInv(cfg, c.queues, c.epoch, stamp)
    ensures FallbacksInv(cfg, c.fallback, c.cursor, c.epoch, c.stamp) ==>
              FallbacksInv(cfg, c.fallback, c.cursor, c.epoch, stamp)
  {
    if QueuesInv(cfg, c.queues, c.epoch, c.stamp) {
      forall o, s | 0 <= o < |c.queues| && 0 <= s < |c.queues[o]|
        ensures SlotInv(c.queues[o][s], o, s, c.epoch, cfg.slots, stamp)
      {
        assert SlotInv(c.queues[o][s], o, s, c.epoch, cfg.slots, c.stamp);
      }
    }
  }

  lemma DeferFallback(cfg: Config, c: Calendar, e: Event)
    requires cfg.Valid() && FallbacksInv(cfg, c.fallback, c.cursor, c.epoch, c.stamp) && PassesDone(c)
    requires e.sender < cfg.threads && e.deferred && e.destination < cfg.objects && e.slot < cfg.slots
    requires e.stamp == c.stamp && c.epoch + cfg.slots <= e.epoch && Timed(cfg, e)
    ensures var t := e.sender;
            FallbacksInv(cfg, c.fallback[t := c.fallback[t] + [e]], c.cursor[t := c.cursor[t] + 1], c.epoch, c.stamp + 1)
  {
    MoreStamps(cfg, c, c.stamp + 1);
    assert FallbackInv(cfg, c.fallback[e.sender], e.sender, c.cursor[e.sender], c.epoch, c.stamp);
  }

  function Defer(c: Calendar, e: Event): Calendar
    requires e.sender < |c.fallback| && e.sender < |c.cursor|
  {
    var t := e.sender;
    c.(fallback := c.fallback[t := c.fallback[t] + [e]], cursor := c.cursor[t := c.cursor[t] + 1],
       stamp := c.stamp + 1, pending := c.pending + 1)
  }

  lemma DeferInv(cfg: Config, c: Calendar, e: Event)
    requires Inv(cfg, c) && PassesDone(c)
    requires e.sender < cfg.threads && e.deferred && e.destination < cfg.objects && e.slot < cfg.slots
    requires e.stamp == c.stamp && c.epoch + cfg.slots <= e.epoch && Timed(cfg, e)
    ensures Inv(cfg, Defer(c, e)) && PassesDone(Defer(c, e))
  {
    var c' := Defer(c, e);
    MoreStamps(cfg, c, c'.stamp);
    DeferFallback(cfg, c, e);
    SumUpdate(c.fallback, e.sender, c.fallback[e.sender] + [e]);
    AllWindowBehind(cfg, c');
  }

  lemma AllWindowBehind(cfg: Config, c: Calendar)
    requires cfg.Valid() && QueuesInv(cfg, c.queues, c.epoch, c.stamp)
    requires FallbacksInv(cfg, c.fallback, c.cursor, c.epoch, c.stamp) && PassesDone(c)
    ensures forall t | 0 <= t < |c.fallback| :: SlotsBehind(c.queues, c.fallback[t], t)
  {
    forall t | 0 <= t < |c.fallback| ensures SlotsBehind(c.queues, c.fallback[t], t) {
      assert FallbackInv(cfg, c.fallback[t], t, c.cursor[t], c.epoch, c.stamp);
      WindowBehind(cfg, c.queues, c.fallback[t], t, c.epoch, c.stamp);
    }
  }

  lemma PutDirectInv(cfg: Config, c: Calendar, t: nat, destination: nat, ts: nat)
    requires Inv(cfg, c) && PassesDone(c) && t < cfg.threads && destination < cfg.objects
    requires c.minLimit <= ts < c.maxLimit && Ahead(cfg, c, ts)
    ensures Inv(cfg, Put(cfg, c, t, destination, ts)) && PassesDone(Put(cfg, c, t, destination, ts))
  {
    var c' := Put(cfg, c, t, destination, ts);
    var e := MakeEvent(cfg, c, t, destination, ts);
    WindowOfTime(cfg, c, ts);
    assert SlotInv(c.queues[destination][e.slot], destination, e.slot, c.epoch, cfg.slots, c.stamp);
    PutQueues(cfg, c, e, c'.stamp);
    PutLogs(cfg, c, e, c'.stamp);
    MoreStamps(cfg, c, c'.stamp);
    AllWindowBehind(cfg, c');
  }

  lemma PutInv(cfg: Config, c: Calendar, t: nat, destination: nat, ts: nat)
    requires Inv(cfg, c) && PassesDone(c) && t < cfg.threads && destination < cfg.objects && Ahead(cfg, c, ts)
    ensures Inv(cfg, Put(cfg, c, t, destination, ts)) && PassesDone(Put(cfg, c, t, destination, ts))
  {
    if ts >= c.minLimit {
      if ts >= c.maxLimit {
        WindowOfTime(cfg, c, ts);
        DeferInv(cfg, c, MakeEvent(cfg, c, t, destination, ts));
      } else {
        PutDirectInv(cfg, c, t, destination, ts);
      }
    }
  }

  // ---- queue_extract ----

  lemma TakeQueues(cfg: Config, c: Calendar, o: nat)
    requires cfg.Valid() && Shape(cfg, c) && QueuesInv(cfg, c.queues, c.epoch, c.stamp)
    requires o < cfg.objects && c.index < cfg.slots && c.queues[o][c.index] != []
    ensures QueuesInv(cfg, Take(cfg, c, o).queues, c.epoch, c.stamp)
    ensures Total(Take(cfg, c, o).queues) == Total(c.queues) - 1
  {
    var qs, l := Take(cfg, c, o).queues, c.queues[o][c.index];
    SumUpdate(c.queues[o], c.index, l[1..]);
    TotalUpdate(c.queues, o, c.queues[o][c.index := l[1..]]);
    forall p, s | 0 <= p < |qs| && 0 <= s < |qs[p]|
      ensures SlotInv(qs[p][s], p, s, c.epoch, cfg.slots, c.stamp) && AllTimed(cfg, qs[p][s])
    {
      assert SlotInv(c.queues[p][s], p, s, c.epoch, cfg.slots, c.stamp) && AllTimed(cfg, c.queues[p][s]);
    }
  }

  /** An event in the current slot belongs to the current epoch. */
  lemma HeadIsCurrent(cfg: Config, e: Event, epoch: nat)
    requires cfg.Valid() && Timed(cfg, e) && epoch <= e.epoch < epoch + cfg.slots && e.slot == epoch % cfg.slots
    ensures e.epoch == epoch
  {
    if epoch < e.epoch {
      SlotsDiffer(epoch, e.epoch, cfg.slots);
    }
  }

  lemma TakeLogs(cfg: Config, c: Calendar, o: nat)
    requires cfg.Valid() && Shape(cfg, c) && ClockInv(cfg, c) && QueuesInv(cfg, c.queues, c.epoch, c.stamp)
    requires LogsInv(cfg, c.log, c.queues, c.index, c.epoch)
    requires o < cfg.objects && c.index < cfg.slots && c.queues[o][c.index] != []
    ensures LogsInv(cfg, Take(cfg, c, o).log, Take(cfg, c, o).queues, c.index, c.epoch)
  {
    var l := c.queues[o][c.index];
    assert SlotInv(l, o, c.index, c.epoch, cfg.slots, c.stamp) && AllTimed(cfg, l);
    HeadIsCurrent(cfg, l[0], c.epoch);
    assert LogInv(c.log[o], l, c.epoch);
    assert c.log[o] + [l[0]] + l[1..] == c.log[o] + l;
    assert LogInv(c.log[o] + [l[0]], l[1..], c.epoch);
  }

  lemma TakeInv(cfg: Config, c: Calendar, o: nat)
    requires Inv(cfg, c) && o < cfg.objects && c.queues[o][c.index] != []
    ensures Inv(cfg, Take(cfg, c, o))
  {
    var c' := Take(cfg, c, o);
    TakeQueues(cfg, c, o);
    TakeLogs(cfg, c, o);
    forall t | 0 <= t < |c.fallback| ensures SlotsBehind(c'.queues, c'.fallback[t], t) {
      TakeBehind(cfg, c, o, c.fallback[t], t);
    }
  }

  lemma TakeBehind(cfg: Config, c: Calendar, o: nat, waiting: seq<Event>, t: nat)
    requires Shape(cfg, c) && o < cfg.objects && c.index < cfg.slots && c.queues[o][c.index] != []
    requires SlotsBehind(c.queues, waiting, t)
    ensures SlotsBehind(Take(cfg, c, o).queues, waiting, t)
  {
    assert Behind(c.queues[o][c.index], waiting, o, t);
  }

  // ---- fallback_check ----

  /** What is left of the list after the element under the cursor has been unlinked. */
  lemma UnlinkInv(cfg: Config, l: seq<Event>, t: nat, k: nat, epoch: nat, stamp: nat)
    requires cfg.Valid() && FallbackInv(cfg, l, t, k, epoch, stamp) && AllTimed(cfg, l)
    requires k < |l| && l[k].epoch < epoch + cfg.slots
    ensures var rest := l[..k] + l[k + 1..];
            && FallbackInv(cfg, rest, t, k, epoch, stamp) && AllTimed(cfg, rest)
            && Behind([l[k]], rest, l[k].destination, t)
  {
    var rest := l[..k] + l[k + 1..];
    forall j | 0 <= j < |rest| && rest[j].ts == l[k].ts ensures l[k].stamp < rest[j].stamp {
      assert Timed(cfg, l[k]) && Timed(cfg, rest[j]);
    }
  }

  /** The element under the cursor, when it is inside the window, fits into its slot. */
  lemma MovedFits(cfg: Config, c: Calendar, t: nat)
    requires Inv(cfg, c) && t < cfg.threads && c.cursor[t] < |c.fallback[t]|
    requires c.fallback[t][c.cursor[t]].ts < c.maxLimit
    ensures var e := c.fallback[t][c.cursor[t]];
            && Fits(cfg, c, e) && c.epoch < e.epoch && e.stamp < c.stamp && e.sender == t && e.deferred
  {
    var e := c.fallback[t][c.cursor[t]];
    assert FallbackInv(cfg, c.fallback[t], t, c.cursor[t], c.epoch, c.stamp) && Timed(cfg, e);
    WindowOfTime(cfg, c, e.ts);
    assert Behind(c.queues[e.destination][e.slot], c.fallback[t], e.destination, t);
  }

  /** The unlinked list still has every slot before it. */
  lemma UnlinkBehind(qs: seq<seq<seq<Event>>>, l: seq<Event>, k: nat, t: nat)
    requires k < |l| && SlotsBehind(qs, l, t)
    ensures SlotsBehind(qs, l[..k] + l[k + 1..], t)
  {
    var rest := l[..k] + l[k + 1..];
    forall o, s | 0 <= o < |qs| && 0 <= s < |qs[o]| ensures Behind(qs[o][s], rest, o, t) {
      assert Behind(qs[o][s], l, o, t);
      assert forall j | 0 <= j < |rest| :: rest[j] == l[if j < k then j else j + 1];
    }
  }

  /** After the move, every slot still lies before every waiting list. */
  lemma RefillMoveBehind(cfg: Config, c: Calendar, t: nat, u: nat)
    requires Inv(cfg, c) && t < cfg.threads && u < cfg.threads && c.cursor[t] < |c.fallback[t]|
    requires Fits(cfg, c, c.fallback[t][c.cursor[t]])
    ensures var k, l := c.cursor[t], c.fallback[t];
            SlotsBehind(PutInSlot(c, l[k]), c.fallback[t := l[..k] + l[k + 1..]][u], u)
  {
    var k, l := c.cursor[t], c.fallback[t];
    var e, rest := l[k], l[..k] + l[k + 1..];
    if u == t {
      assert FallbackInv(cfg, l, t, k, c.epoch, c.stamp);
      UnlinkInv(cfg, l, t, k, c.epoch, c.stamp);
      UnlinkBehind(c.queues, l, k, t);
      PutBehind(cfg, c, e, rest, t);
    } else {
      MovedBehindOthers(cfg, c, t, u);
      PutBehind(cfg, c, e, c.fallback[u], u);
    }
  }

  function Move(c: Calendar, t: nat): Calendar
    requires t < |c.cursor| && t < |c.fallback| && c.cursor[t] < |c.fallback[t]|
    requires var e := c.fallback[t][c.cursor[t]];
             e.destination < |c.queues| && e.slot < |c.queues[e.destination]|
  {
    var k, l := c.cursor[t], c.fallback[t];
    c.(queues := PutInSlot(c, l[k]), fallback := c.fallback[t := l[..k] + l[k + 1..]])
  }

  lemma MoveBehindAll(cfg: Config, c: Calendar, t: nat)
    requires Inv(cfg, c) && t < cfg.threads && c.cursor[t] < |c.fallback[t]|
    requires Fits(cfg, c, c.fallback[t][c.cursor[t]])
    ensures forall u | 0 <= u < |c.fallback| :: SlotsBehind(Move(c, t).queues, Move(c, t).fallback[u], u)
  {
    forall u | 0 <= u < |c.fallback| ensures SlotsBehind(Move(c, t).queues, Move(c, t).fallback[u], u) {
      RefillMoveBehind(cfg, c, t, u);
    }
  }

  lemma MoveLists(cfg: Config, c: Calendar, t: nat)
    requires Inv(cfg, c) && t < cfg.threads && c.cursor[t] < |c.fallback[t]|
    requires var e := c.fallback[t][c.cursor[t]];
             Fits(cfg, c, e) && c.epoch < e.epoch && e.stamp < c.stamp
    ensures QueuesInv(cfg, Move(c, t).queues, c.epoch, c.stamp)
    ensures FallbacksInv(cfg, Move(c, t).fallback, c.cursor, c.epoch, c.stamp)
    ensures LogsInv(cfg, c.log, Move(c, t).queues, c.index, c.epoch)
  {
    var e := c.fallback[t][c.cursor[t]];
    PutQueues(cfg, c, e, c.stamp);
    PutLogs(cfg, c, e, c.stamp);
    UnlinkFallbacks(cfg, c, t);
  }

  lemma MoveTotals(cfg: Config, c: Calendar, t: nat)
    requires Inv(cfg, c) && t < cfg.threads && c.cursor[t] < |c.fallback[t]|
    requires Fits(cfg, c, c.fallback[t][c.cursor[t]]) && c.fallback[t][c.cursor[t]].stamp < c.stamp
    ensures Total(Move(c, t).queues) + Sum(Move(c, t).fallback) == Total(c.queues) + Sum(c.fallback)
  {
    var k, l := c.cursor[t], c.fallback[t];
    PutQueues(cfg, c, l[k], c.stamp);
    SumUpdate(c.fallback, t, l[..k] + l[k + 1..]);
  }

  lemma MoveInv(cfg: Config, c: Calendar, t: nat)
    requires Inv(cfg, c) && t < cfg.threads && c.cursor[t] < |c.fallback[t]|
    requires var e := c.fallback[t][c.cursor[t]];
             Fits(cfg, c, e) && c.epoch < e.epoch && e.stamp < c.stamp
    ensures Inv(cfg, Move(c, t))
  {
    MoveLists(cfg, c, t);
    MoveTotals(cfg, c, t);
    MoveBehindAll(cfg, c, t);
  }

  lemma UnlinkFallbacks(cfg: Config, c: Calendar, t: nat)
    requires cfg.Valid() && FallbacksInv(cfg, c.fallback, c.cursor, c.epoch, c.stamp)
    requires t < cfg.threads && c.cursor[t] < |c.fallback[t]| && c.fallback[t][c.cursor[t]].epoch < c.epoch + cfg.slots
    ensures var rest := c.fallback[t][..c.cursor[t]] + c.fallback[t][c.cursor[t] + 1..];
            FallbacksInv(cfg, c.fallback[t := rest], c.cursor, c.epoch, c.stamp)
  {
    UnlinkInv(cfg, c.fallback[t], t, c.cursor[t], c.epoch, c.stamp);
  }

  /** Nothing is known about an equal that waits in another thread's list. */
  lemma MovedBehindOthers(cfg: Config, c: Calendar, t: nat, u: nat)
    requires Inv(cfg, c) && t < cfg.threads && u < cfg.threads && u != t && c.cursor[t] < |c.fallback[t]|
    ensures Behind([c.fallback[t][c.cursor[t]]], c.fallback[u], c.fallback[t][c.cursor[t]].destination, u)
  {
    assert FallbackInv(cfg, c.fallback[t], t, c.cursor[t], c.epoch, c.stamp);
  }

  lemma RefillMoveInv(cfg: Config, c: Calendar, t: nat)
    requires Inv(cfg, c) && t < cfg.threads && c.cursor[t] < |c.fallback[t]|
    requires c.fallback[t][c.cursor[t]].ts < c.maxLimit && Fits(cfg, c, c.fallback[t][c.cursor[t]])
    ensures Inv(cfg, Refill(cfg, c, t))
  {
    MovedFits(cfg, c, t);
    MoveInv(cfg, c, t);
    assert Refill(cfg, c, t) == Move(c, t);
  }

  lemma RefillInv(cfg: Config, c: Calendar, t: nat)
    requires Inv(cfg, c) && t < cfg.threads && c.cursor[t] < |c.fallback[t]|
    ensures Shape(cfg, c) && c.fallback[t][c.cursor[t]].destination < cfg.objects && c.fallback[t][c.cursor[t]].slot < cfg.slots
    ensures Inv(cfg, Refill(cfg, c, t))
  {
    assert FallbackInv(cfg, c.fallback[t], t, c.cursor[t], c.epoch, c.stamp);
    if c.fallback[t][c.cursor[t]].ts < c.maxLimit {
      MovedFits(cfg, c, t);
      RefillMoveInv(cfg, c, t);
    } else {
      RefillPassInv(cfg, c, t);
    }
  }

  lemma RefillPassInv(cfg: Config, c: Calendar, t: nat)
    requires Inv(cfg, c) && t < cfg.threads && c.cursor[t] < |c.fallback[t]|
    requires c.fallback[t][c.cursor[t]].ts >= c.maxLimit
    ensures FallbacksInv(cfg, c.fallback, c.cursor[t := c.cursor[t] + 1], c.epoch, c.stamp)
  {
    assert FallbackInv(cfg, c.fallback[t], t, c.cursor[t], c.epoch, c.stamp);
    assert Timed(cfg, c.fallback[t][c.cursor[t]]);
    WindowOfTime(cfg, c, c.fallback[t][c.cursor[t]].ts);
  }
}
