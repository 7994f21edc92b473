/** Where speculative replay stops being exact.  An epoch is completed without further arrivals, and the
    messages it leaves are compared with those of a straight run: what the coasting filter can bear is
    exactly what module Speculation calls safe.  Messages that an object sends to itself are part of it:
    a rollback that recalls one calls for a second rollback behind the first, and the events between the
    two are coasted over although their messages have been cut. */
module ReplayLimits {
  import opened Lists
  import opened Rollback
  import opened Speculation
  import opened StraightRun

  // ---- the owner completes the epoch ----

  /** Every rollback that is called for is carried out. */
  function Settle<S>(ep: Epoch<S>, o: Object<S>): (r: Object<S>)
    ensures !r.standing && !r.rolling
    decreases |o.logs.soon|, (if o.standing then 2 else 0) + if o.rolling then 1 else 0
  {
    if o.rolling then
      SettleShrinks(ep, o);
      Settle(ep, Step(ep, o, Finish))
    else if o.standing then Settle(ep, Step(ep, o, Begin))
    else o
  }

  /** A rollback that calls for another one has cut the send log. */
  lemma SettleShrinks<S>(ep: Epoch<S>, o: Object<S>)
    requires o.rolling
    ensures var r := Step(ep, o, Finish);
            && !r.rolling && |r.logs.soon| <= |o.logs.soon|
            && (|r.logs.soon| < |o.logs.soon| || r.standing == o.standing)
  {
    RecallIs(o, Recalled(ep, o.logs.soon, o.target));
    if |Truncate(o.logs.soon, o.target)| == |o.logs.soon| {
      assert o.logs.soon[|o.logs.soon|..] == [];
    }
  }

  /** The state between two extractions of the owner. */
  ghost predicate Idle<S>(ep: Epoch<S>, o: Object<S>) {
    OrderInv(ep, o) && AllAhead(ep, o) && !o.standing && !o.rolling
  }

  function Head<S>(ep: Epoch<S>, o: Object<S>): int {
    if o.queue == [] then ep.end else o.queue[0].ts
  }

  /** The owner extracts until the slot is empty. */
  ghost function Drain<S(!new)>(ep: Epoch<S>, o: Object<S>): (r: Object<S>)
    requires Forward(ep) && Idle(ep, o)
    ensures r.queue == [] && !r.standing && !r.rolling
    decreases ep.end - Head(ep, o), |Below(o.queue, Head(ep, o) + 1)|
  {
    if o.queue == [] then o
    else
      DrainStep(ep, o);
      Drain(ep, Step(ep, o, Extract))
  }

  /** What an extraction leaves in the slot at or before the clock, and ahead of it. */
  lemma ExtractLeaves<S(!new)>(ep: Epoch<S>, o: Object<S>)
    requires Forward(ep) && Idle(ep, o) && Enabled(ep, o, Extract)
    ensures var r := Step(ep, o, Extract);
            && AllAhead(ep, r) && !r.standing && !r.rolling && r.now == o.queue[0].ts
            && Below(r.queue, r.now + 1) == Below(o.queue[1..], r.now + 1)
  {
    ExtractedAhead(o.queue, o.processed);
    if o.filter < o.queue[0].ts {
      ReplayLeaves(ep, o);
      SendAllForward(ep, Extracted(ep, o), ep.handler(o.state, o.queue[0]).1, o.queue[0].ts + 1);
    }
  }

  lemma CanExtract<S(!new)>(ep: Epoch<S>, o: Object<S>)
    requires Forward(ep) && Idle(ep, o) && o.queue != []
    ensures Enabled(ep, o, Extract)
  {
  }

  /** The slot's first time grows, or fewer events have it. */
  lemma HeadMoves<S>(ep: Epoch<S>, o: Object<S>, r: Object<S>)
    requires o.queue != [] && Sorted(o.queue) && AtMost(o.queue, ep.end - 1) && AtMost(r.queue, ep.end - 1)
    requires r.now == o.queue[0].ts && AtLeast(r.queue, r.now) && Below(r.queue, r.now + 1) == Below(o.queue[1..], r.now + 1)
    ensures Head(ep, o) < ep.end && Head(ep, r) >= Head(ep, o)
    ensures Head(ep, r) > Head(ep, o) || |Below(r.queue, Head(ep, r) + 1)| < |Below(o.queue, Head(ep, o) + 1)|
  {
  }

  lemma DrainStep<S(!new)>(ep: Epoch<S>, o: Object<S>)
    requires Forward(ep) && Idle(ep, o) && o.queue != []
    ensures Enabled(ep, o, Extract) && Idle(ep, Step(ep, o, Extract)) && Head(ep, o) < ep.end
    ensures var r := Step(ep, o, Extract);
            && Head(ep, r) >= Head(ep, o)
            && (Head(ep, r) > Head(ep, o) || |Below(r.queue, Head(ep, r) + 1)| < |Below(o.queue, Head(ep, o) + 1)|)
  {
    CanExtract(ep, o);
    StepOrder(ep, o, Extract);
    ExtractLeaves(ep, o);
    HeadMoves(ep, o, Step(ep, o, Extract));
  }

  lemma {:induction false} DrainIdle<S(!new)>(ep: Epoch<S>, o: Object<S>)
    requires Forward(ep) && Idle(ep, o)
    ensures Idle(ep, Drain(ep, o))
    decreases ep.end - Head(ep, o), |Below(o.queue, Head(ep, o) + 1)|
  {
    if o.queue != [] {
      DrainStep(ep, o);
      DrainIdle(ep, Step(ep, o, Extract));
    }
  }

  /** The epoch's end when nothing more arrives. */
  ghost function Completed<S(!new)>(ep: Epoch<S>, o: Object<S>): (r: Object<S>)
    requires Forward(ep) && OrderInv(ep, o) && AllAhead(ep, o)
  {
    SettleIdle(ep, o);
    Drain(ep, Settle(ep, o))
  }

  lemma {:induction false} SettleIdle<S>(ep: Epoch<S>, o: Object<S>)
    requires OrderInv(ep, o) && AllAhead(ep, o)
    ensures Idle(ep, Settle(ep, o))
    decreases |o.logs.soon|, (if o.standing then 2 else 0) + if o.rolling then 1 else 0
  {
    if o.rolling {
      SettleShrinks(ep, o);
      StepOrder(ep, o, Finish);
      FinishAhead(ep, o);
      SettleIdle(ep, Step(ep, o, Finish));
    } else if o.standing {
      StepOrder(ep, o, Begin);
      SettleIdle(ep, Step(ep, o, Begin));
    }
  }

  lemma {:induction false} SettleExact<S>(ep: Epoch<S>, o: Object<S>)
    requires Exact(ep, o)
    ensures Exact(ep, Settle(ep, o))
    decreases |o.logs.soon|, (if o.standing then 2 else 0) + if o.rolling then 1 else 0
  {
    if o.rolling {
      SettleShrinks(ep, o);
      FinishExact(ep, o);
      SettleExact(ep, Step(ep, o, Finish));
    } else if o.standing {
      BeginExact(ep, o);
      SettleExact(ep, Step(ep, o, Begin));
    }
  }

  lemma {:induction false} DrainExact<S(!new)>(ep: Epoch<S>, o: Object<S>)
    requires Forward(ep) && Exact(ep, o) && Idle(ep, o)
    ensures var d := Drain(ep, o); (d.state, d.logs) == Straight(ep, d.processed)
    decreases ep.end - Head(ep, o), |Below(o.queue, Head(ep, o) + 1)|
  {
    if o.queue != [] {
      DrainStep(ep, o);
      ExtractExact(ep, o);
      DrainExact(ep, Step(ep, o, Extract));
    } else {
      assert o.processed + [] == o.processed;
    }
  }

  /** An exact state is completed to a straight run. */
  lemma CompletedExact<S(!new)>(ep: Epoch<S>, o: Object<S>)
    requires Forward(ep) && Exact(ep, o)
    ensures var d := Completed(ep, o); (d.state, d.logs) == Straight(ep, d.processed)
  {
    SettleIdle(ep, o);
    SettleExact(ep, o);
    DrainExact(ep, Settle(ep, o));
  }

  // ---- counting messages ----

  /** The messages of an event that are kept for later epochs. */
  function ToLater<S>(ep: Epoch<S>, at: int, messages: seq<Message>): seq<Sent> {
    For(SentAt(at, messages), ep.end, 0, false)
  }

  lemma RecordLater<S>(ep: Epoch<S>, logs: Logs, at: int, messages: seq<Message>)
    requires ep.start < ep.end
    ensures Record(ep, logs, at, messages).later == logs.later + ToLater(ep, at, messages)
  {
    RecordSays(ep, logs, at, messages);
  }

  /** A model that sends one message to a later epoch for every event, and whatever it likes within the
      epoch, as long as its own messages lie ahead. */
  ghost predicate SendsOne<S(!new)>(ep: Epoch<S>) {
    && ep.start < ep.end && Forward(ep)
    && forall s, e: Event :: |ToLater(ep, e.ts, ep.handler(s, e).1)| == 1
  }

  lemma {:induction false} StraightCount<S(!new)>(ep: Epoch<S>, events: seq<Event>)
    requires SendsOne(ep)
    ensures |Straight(ep, events).1.later| == |events|
    decreases |events|
  {
    if events != [] {
      var front, e := events[..|events| - 1], events[|events| - 1];
      StraightCount(ep, front);
      RecordLater(ep, Straight(ep, front).1, e.ts, ep.handler(Straight(ep, front).0, e).1);
    }
  }

  /** How many events that a cut at c leaves lie before h. */
  function Coasted(l: seq<Event>, c: int, h: int): nat {
    if l == [] then 0 else (if Stays(l[0], c) && l[0].ts < h then 1 else 0) + Coasted(l[1..], c, h)
  }

  /** As many messages for later epochs survive the rollbacks called for as events are processed or will
      be coasted over. */
  ghost predicate Even<S>(ep: Epoch<S>, o: Object<S>) {
    if !o.standing && !o.rolling then |o.logs.later| == |o.processed| + |Below(o.queue, o.filter + 1)|
    else |Truncate(o.logs.later, Cut(o))| == Coasted(o.queue, Cut(o), Horizon(ep, o)) + Coasted(o.processed, Cut(o), Horizon(ep, o))
  }

  lemma {:induction false} InsertCoasted(l: seq<Event>, e: Event, c: int, h: int)
    ensures Coasted(Insert(l, e), c, h) == Coasted(l, c, h) + if Stays(e, c) && e.ts < h then 1 else 0
  {
    if l != [] && l[0].ts <= e.ts {
      InsertCoasted(l[1..], e, c, h);
    }
  }

  lemma {:induction false} RequeueCoasted(queue: seq<Event>, processed: seq<Event>, c: int, h: int)
    ensures Coasted(Requeue(queue, processed), c, h) == Coasted(queue, c, h) + Coasted(processed, c, h)
    decreases |processed|
  {
    if processed != [] {
      InsertCoasted(queue, processed[0], c, h);
      RequeueCoasted(Insert(queue, processed[0]), processed[1..], c, h);
    }
  }

  lemma {:induction false} KeptCoasted(l: seq<Event>, t: int, c: int, h: int)
    ensures Coasted(Kept(l, t), c, h) == Coasted(l, Min(t, c), h)
  {
    if l != [] {
      assert Kept(l, t) == if Stays(l[0], t) then [l[0]] + Kept(l[1..], t) else Kept(l[1..], t);
      KeptCoasted(l[1..], t, c, h);
    }
  }

  lemma {:induction false} AheadCoasted(l: seq<Event>, c: int, t: int)
    requires Ahead(l) && t <= c
    ensures Coasted(l, c, t) == |Below(l, t)|
  {
    if l != [] {
      assert l == [l[0]] + l[1..] && l[0] in l;
      AheadCoasted(l[1..], c, t);
    }
  }

  /** Exactly the events between the cut and the horizon are coasted over without messages. */
  lemma {:induction false} FreeCoasted(l: seq<Event>, c: int, h: int)
    requires c <= h
    ensures Coasted(l, c, c) <= Coasted(l, c, h)
    ensures Coasted(l, c, c) == Coasted(l, c, h) <==> Free(l, c, h)
  {
    if l != [] {
      assert l == [l[0]] + l[1..] && l[0] in l;
      FreeCoasted(l[1..], c, h);
    }
  }

  /** What goes back into the slot when a rollback to t has been carried out. */
  lemma ReturnedCoasted(queue: seq<Event>, processed: seq<Event>, t: int, c: int, h: int)
    ensures Coasted(Requeue(Kept(queue, t), Kept(processed, t)), c, h) ==
            Coasted(queue, Min(t, c), h) + Coasted(processed, Min(t, c), h)
  {
    RequeueCoasted(Kept(queue, t), Kept(processed, t), c, h);
    KeptCoasted(queue, t, c, h);
    KeptCoasted(processed, t, c, h);
  }

  lemma EvenBegin<S>(ep: Epoch<S>, o: Object<S>)
    requires OrderInv(ep, o) && o.standing && !o.rolling
    ensures Even(ep, Step(ep, o, Begin)) <==> Even(ep, o)
  {
  }

  /** The rollback is the last one. */
  lemma EvenQuiet<S>(ep: Epoch<S>, o: Object<S>)
    requires OrderInv(ep, o) && AllAhead(ep, o) && o.rolling && !Step(ep, o, Finish).standing
    ensures Even(ep, Step(ep, o, Finish)) <==> Even(ep, o)
  {
    FinishStands(ep, o);
    FinishAhead(ep, o);
    var r := Step(ep, o, Finish);
    AheadCoasted(r.queue, o.target, o.target);
    ReturnedCoasted(o.queue, o.processed, o.target, o.target, o.target);
  }

  /** Own messages that it recalled call for another one behind it. */
  lemma EvenBehind<S>(ep: Epoch<S>, o: Object<S>)
    requires OrderInv(ep, o) && AllAhead(ep, o) && o.rolling && Step(ep, o, Finish).standing
    requires !(o.standing && o.violation <= o.target)
    ensures Even(ep, Step(ep, o, Finish)) <==> Even(ep, o)
  {
    FinishStands(ep, o);
    var h := Horizon(ep, o);
    CutKeeps(o.logs, o.target, h);
    NothingRecalled(ep, o.logs.soon, o.target, h);
    ReturnedCoasted(o.queue, o.processed, o.target, h, h);
  }

  /** The one that stood already reaches further back. */
  lemma EvenDeeper<S>(ep: Epoch<S>, o: Object<S>)
    requires OrderInv(ep, o) && AllAhead(ep, o) && o.rolling && o.standing && o.violation <= o.target
    ensures Even(ep, Step(ep, o, Finish)) <==> Even(ep, o)
  {
    FinishStands(ep, o);
    CutTwice(o.logs, o.target, o.violation);
    ReturnedCoasted(o.queue, o.processed, o.target, o.violation, Horizon(ep, o));
  }

  lemma EvenFinish<S>(ep: Epoch<S>, o: Object<S>)
    requires OrderInv(ep, o) && AllAhead(ep, o) && o.rolling
    ensures Even(ep, Step(ep, o, Finish)) <==> Even(ep, o)
  {
    FinishStands(ep, o);
    if !Step(ep, o, Finish).standing {
      EvenQuiet(ep, o);
    } else if o.standing && o.violation <= o.target {
      EvenDeeper(ep, o);
    } else {
      EvenBehind(ep, o);
    }
  }

  lemma {:induction false} EvenSettle<S>(ep: Epoch<S>, o: Object<S>)
    requires OrderInv(ep, o) && AllAhead(ep, o)
    ensures Even(ep, Settle(ep, o)) <==> Even(ep, o)
    decreases |o.logs.soon|, (if o.standing then 2 else 0) + if o.rolling then 1 else 0
  {
    if o.rolling {
      SettleShrinks(ep, o);
      StepOrder(ep, o, Finish);
      FinishAhead(ep, o);
      EvenFinish(ep, o);
      EvenSettle(ep, Step(ep, o, Finish));
    } else if o.standing {
      StepOrder(ep, o, Begin);
      EvenBegin(ep, o);
      EvenSettle(ep, Step(ep, o, Begin));
    }
  }

  lemma EvenExtract<S(!new)>(ep: Epoch<S>, o: Object<S>)
    requires SendsOne(ep) && Idle(ep, o) && Enabled(ep, o, Extract) && !Step(ep, o, Extract).standing
    ensures Even(ep, Step(ep, o, Extract)) <==> Even(ep, o)
  {
    var e := o.queue[0];
    if o.filter < e.ts {
      ReplayLeaves(ep, o);
      RecordLater(ep, o.logs, e.ts, ep.handler(o.state, e).1);
    }
  }

  lemma {:induction false} EvenDrain<S(!new)>(ep: Epoch<S>, o: Object<S>)
    requires SendsOne(ep) && Idle(ep, o)
    ensures Even(ep, Drain(ep, o)) <==> Even(ep, o)
    decreases ep.end - Head(ep, o), |Below(o.queue, Head(ep, o) + 1)|
  {
    if o.queue != [] {
      DrainStep(ep, o);
      EvenExtract(ep, o);
      EvenDrain(ep, Step(ep, o, Extract));
    }
  }

  /** Every processed event has its message recorded in the end exactly if as many messages survive the
      cuts as events are coasted over. */
  lemma CompletedCount<S(!new)>(ep: Epoch<S>, o: Object<S>)
    requires SendsOne(ep) && OrderInv(ep, o) && AllAhead(ep, o)
    ensures var d := Completed(ep, o); |d.logs.later| == |d.processed| <==> Even(ep, o)
  {
    SettleIdle(ep, o);
    EvenSettle(ep, o);
    EvenDrain(ep, Settle(ep, o));
  }

  // ---- when a rollback is exact ----

  /** The messages that survive the coming cut. */
  lemma CutCount<S(!new)>(ep: Epoch<S>, o: Object<S>)
    requires SendsOne(ep) && Trusted(ep, o) && (o.standing || o.rolling)
    ensures |Truncate(o.logs.later, Cut(o))| == Coasted(o.queue, Cut(o), Cut(o)) + Coasted(o.processed, Cut(o), Cut(o))
  {
    var c := Cut(o);
    StraightCount(ep, Below(Requeue(o.queue, o.processed), c));
    BelowRequeue(o.queue, o.processed, c);
    RequeueLength(Below(o.queue, c), Below(o.processed, c));
    AheadCoasted(o.queue, c, c);
    AheadCoasted(o.processed, c, c);
  }

  lemma TrustedEven<S(!new)>(ep: Epoch<S>, o: Object<S>)
    requires SendsOne(ep) && Trusted(ep, o) && (o.standing || o.rolling)
    ensures Even(ep, o) <==> Covered(ep, o)
  {
    CutCount(ep, o);
    HorizonAfterCut(ep, o);
    FreeCoasted(o.queue, Cut(o), Horizon(ep, o));
    FreeCoasted(o.processed, Cut(o), Horizon(ep, o));
  }

  /** With a rollback standing or under way and the logs before its cut right, the epoch is completed to a
      straight run exactly if no event that stays lies between the cut and the horizon, which is the
      first own message that is recalled. */
  lemma RollbackLosesSends<S(!new)>(ep: Epoch<S>, o: Object<S>)
    requires SendsOne(ep) && Trusted(ep, o) && (o.standing || o.rolling)
    ensures var d := Completed(ep, o);
            && (|d.logs.later| == |d.processed| <==> Covered(ep, o))
            && ((d.state, d.logs) == Straight(ep, d.processed) <==> Covered(ep, o))
  {
    CompletedCount(ep, o);
    TrustedEven(ep, o);
    StraightCount(ep, Completed(ep, o).processed);
    if Covered(ep, o) {
      CompletedExact(ep, o);
    }
  }

  /** The same, while a rollback to `target` is under way and none stands: it is exact exactly if no held
      event that it leaves lies in [target, t), with t the first own message that it recalls. */
  lemma RollbackExactIff<S(!new)>(ep: Epoch<S>, o: Object<S>)
    requires SendsOne(ep) && Trusted(ep, o) && o.rolling && !o.standing
    ensures var gone := Recalled(ep, o.logs.soon, o.target);
            var d := Completed(ep, o);
            (d.state, d.logs) == Straight(ep, d.processed) <==>
              gone == [] || forall e | e in o.processed + o.queue && Stays(e, o.target) :: !(o.target <= e.ts < Earliest(gone))
  {
    RollbackLosesSends(ep, o);
  }

  // ---- when an arrival or a cancellation is exact ----

  lemma StepAhead<S>(ep: Epoch<S>, o: Object<S>, e: Event)
    requires AllAhead(ep, o) && e.origin == Outside
    ensures AllAhead(ep, Receive(o, e))
  {
    InsertAhead(o.queue, e);
  }

  /** The arrival has moved the cut to its own time. */
  lemma ArrivalAtCut<S(!new)>(ep: Epoch<S>, o: Object<S>, e: Event)
    requires SendsOne(ep) && Trusted(ep, o) && ep.start <= e.ts && e.origin == Outside && (o.standing || o.rolling || e.ts <= o.now)
    requires OrderInv(ep, Receive(o, e)) && AllAhead(ep, Receive(o, e)) && Cut(Receive(o, e)) == e.ts
    ensures Even(ep, Receive(o, e)) <==> e.ts >= Horizon(ep, Receive(o, e))
  {
    var r := Receive(o, e);
    ReceiveCut(ep, o, e);
    ArriveTrusted(ep, o, e);
    RollbackTrusted(ep, r, e.ts);
    TrustedEven(ep, r);
    InsertAhead(o.queue, e);
    assert e in r.queue && Stays(e, e.ts);
  }

  /** It has not, and lies somewhere among the events of a rollback called for before. */
  lemma ArrivalBesideCut<S>(ep: Epoch<S>, o: Object<S>, e: Event)
    requires Even(ep, o) && (o.standing || o.rolling) && e.origin == Outside
    requires Cut(Receive(o, e)) == Cut(o) && Horizon(ep, Receive(o, e)) == Horizon(ep, o)
    ensures Even(ep, Receive(o, e)) <==> e.ts >= Horizon(ep, Receive(o, e))
  {
    InsertCoasted(o.queue, e, Cut(o), Horizon(ep, o));
  }

  lemma ArrivalAhead<S>(ep: Epoch<S>, o: Object<S>, e: Event)
    requires Even(ep, o) && !o.standing && !o.rolling && o.now < e.ts && Sorted(o.queue)
    ensures Even(ep, Receive(o, e)) <==> e.ts >= Horizon(ep, Receive(o, e))
  {
    BelowInsert(o.queue, e, o.filter + 1);
    InsertLength(Below(o.queue, o.filter + 1), e);
  }

  lemma ExactEven<S(!new)>(ep: Epoch<S>, o: Object<S>)
    requires SendsOne(ep) && Exact(ep, o)
    ensures Even(ep, o)
  {
    if o.standing || o.rolling {
      TrustedEven(ep, o);
    } else {
      StraightCount(ep, o.processed + Below(o.queue, o.filter + 1));
    }
  }

  lemma ArrivalEven<S(!new)>(ep: Epoch<S>, o: Object<S>, e: Event)
    requires SendsOne(ep) && Exact(ep, o) && Enabled(ep, o, Arrive(e))
    requires OrderInv(ep, Receive(o, e)) && AllAhead(ep, Receive(o, e))
    ensures Even(ep, Receive(o, e)) <==> e.ts >= Horizon(ep, Receive(o, e))
  {
    ExactEven(ep, o);
    if !o.standing && !o.rolling && o.now < e.ts {
      ArrivalAhead(ep, o, e);
    } else {
      ReceiveCut(ep, o, e);
      if Cut(Receive(o, e)) == e.ts {
        ArrivalAtCut(ep, o, e);
      } else {
        ArrivalBesideCut(ep, o, e);
      }
    }
  }

  /** An event arrives, whether or not a rollback stands or is under way, and the epoch is completed:
      every processed event has its message recorded exactly if the arrival was safe.  Otherwise the
      newcomer is coasted over and its message never sent, or those of events that the rollback it calls
      for leaves between it and an own message are lost. */
  lemma UnsafeArrivalLosesSend<S(!new)>(ep: Epoch<S>, o: Object<S>, e: Event)
    requires SendsOne(ep) && Exact(ep, o) && Enabled(ep, o, Arrive(e))
    ensures var r := Step(ep, o, Arrive(e));
            && OrderInv(ep, r) && AllAhead(ep, r)
            && var d := Completed(ep, r); |d.logs.later| == |d.processed| <==> Safe(ep, o, Arrive(e))
  {
    StepOrder(ep, o, Arrive(e));
    StepAhead(ep, o, e);
    ArrivalEven(ep, o, e);
    CompletedCount(ep, Receive(o, e));
  }

  /** A straggler is safe, and loses no messages, exactly if the object sent itself nothing since its
      time. */
  lemma StragglerLosesSends<S(!new)>(ep: Epoch<S>, o: Object<S>, e: Event)
    requires SendsOne(ep) && Exact(ep, o) && Enabled(ep, o, Arrive(e)) && !o.standing && !o.rolling && e.ts <= o.now
    ensures Safe(ep, o, Arrive(e)) <==> Recalled(ep, o.logs.soon, e.ts) == []
    ensures var r := Step(ep, o, Arrive(e));
            && OrderInv(ep, r) && AllAhead(ep, r)
            && var d := Completed(ep, r);
               |d.logs.later| == |d.processed| <==> Recalled(ep, o.logs.soon, e.ts) == []
  {
    FirstAhead(ep, o.logs.soon, e.ts, e.ts);
    UnsafeArrivalLosesSend(ep, o, e);
  }

  // ---- cancellations ----

  /** What survives a cut of the logs outside a rollback. */
  lemma LogsCut<S>(ep: Epoch<S>, state: S, logs: Logs, processed: seq<Event>, queue: seq<Event>, f: int, now: int, t: int)
    requires Sorted(processed) && Sorted(queue) && AtMost(processed, now) && AtLeast(queue, now)
    requires Replayed(ep, state, logs, processed, Below(queue, f))
    ensures Truncate(logs.later, t) == Straight(ep, Below(processed, t) + Below(Below(queue, f), t)).1.later
  {
    var coast := Below(queue, f);
    BelowSorted(queue, f);
    BelowBounds(queue, f, now);
    SortedConcat(processed, coast, now);
    TruncateStraight(ep, processed + coast, t);
    BelowConcat(processed, coast, t);
  }

  lemma SurvivingCount<S(!new)>(ep: Epoch<S>, o: Object<S>, t: int)
    requires SendsOne(ep) && Trusted(ep, o) && !o.rolling && !o.standing
    ensures |Truncate(o.logs.later, t)| == |Below(o.processed, t)| + |Below(Below(o.queue, o.filter + 1), t)|
  {
    LogsCut(ep, o.state, o.logs, o.processed, o.queue, o.filter + 1, o.now, t);
    StraightCount(ep, Below(o.processed, t) + Below(Below(o.queue, o.filter + 1), t));
  }

  lemma {:induction false} BelowLess(l: seq<Event>, u: int, t: int)
    requires u <= t
    ensures Below(Below(l, u), t) == Below(l, u)
  {
    if l != [] {
      BelowLess(l[1..], u, t);
      BelowConcat(if l[0].ts < u then [l[0]] else [], Below(l[1..], u), t);
    }
  }

  lemma CoastedCount(queue: seq<Event>, f: int, t: int)
    ensures |Below(Below(queue, f), t)| <= |Below(queue, t)|
    ensures |Below(Below(queue, f), t)| == |Below(queue, t)| <==> Clear(queue, f, t)
  {
    if t <= f {
      BelowBelow(queue, f, t);
    } else {
      BelowGap(queue, f, t);
      BelowLess(queue, f, t);
    }
  }

  /** A cancellation outside a rollback, with the lists without the cancelled event. */
  lemma CancelEven<S(!new)>(ep: Epoch<S>, o: Object<S>, queue: seq<Event>, processed: seq<Event>, t: int)
    requires SendsOne(ep) && Trusted(ep, o) && !o.standing && !o.rolling && AllAhead(ep, Cancelled(o, queue, processed, t))
    requires Below(queue, t) == Below(o.queue, t) && Below(processed, t) == Below(o.processed, t)
    ensures Even(ep, Cancelled(o, queue, processed, t)) <==> LosslessCancel(ep, o, queue, processed, t)
  {
    var r := Cancelled(o, queue, processed, t);
    var h := Horizon(ep, r);
    SurvivingCount(ep, o, t);
    CoastedCount(o.queue, o.filter + 1, t);
    HorizonAfterCut(ep, r);
    AheadCoasted(queue, t, t);
    AheadCoasted(processed, t, t);
    FreeCoasted(queue, t, h);
    FreeCoasted(processed, t, h);
  }

  ghost predicate Cancels(a: Action) {
    a.CancelProcessed? || a.CancelQueued?
  }

  /** The time of the cancelled event, and the lists without it. */
  function CancelTime<S>(o: Object<S>, a: Action): int {
    if a.CancelProcessed? && a.k < |o.processed| then o.processed[a.k].ts
    else if a.CancelQueued? && a.k < |o.queue| then o.queue[a.k].ts
    else 0
  }

  function QueueWithout<S>(o: Object<S>, a: Action): seq<Event> {
    if a.CancelQueued? && a.k < |o.queue| then Without(o.queue, a.k) else o.queue
  }

  function ProcessedWithout<S>(o: Object<S>, a: Action): seq<Event> {
    if a.CancelProcessed? && a.k < |o.processed| then Without(o.processed, a.k) else o.processed
  }

  ghost predicate Lossless<S>(ep: Epoch<S>, o: Object<S>, a: Action) {
    LosslessCancel(ep, o, QueueWithout(o, a), ProcessedWithout(o, a), CancelTime(o, a))
  }

  lemma CancelledIs<S>(ep: Epoch<S>, o: Object<S>, a: Action)
    requires Cancels(a) && Enabled(ep, o, a) && AllAhead(ep, o)
    ensures var t := CancelTime(o, a); var r := Cancelled(o, QueueWithout(o, a), ProcessedWithout(o, a), t);
            && Step(ep, o, a) == r && AllAhead(ep, r)
            && Below(r.queue, t) == Below(o.queue, t) && Below(r.processed, t) == Below(o.processed, t)
  {
    var t := CancelTime(o, a);
    if a.CancelQueued? {
      BelowWithout(o.queue, a.k, t);
      WithoutMembers(o.queue, a.k);
    } else {
      BelowWithout(o.processed, a.k, t);
      WithoutMembers(o.processed, a.k);
    }
  }

  lemma CancelInRollback<S(!new)>(ep: Epoch<S>, o: Object<S>, a: Action)
    requires SendsOne(ep) && Exact(ep, o) && Enabled(ep, o, a) && Cancels(a) && (o.standing || o.rolling)
    requires Step(ep, o, a) == Cancelled(o, QueueWithout(o, a), ProcessedWithout(o, a), CancelTime(o, a))
    ensures Even(ep, Step(ep, o, a)) <==> Lossless(ep, o, a)
  {
    if a.CancelQueued? {
      CancelQueuedTrusted(ep, o, a.k);
    } else {
      CancelProcessedTrusted(ep, o, a.k);
    }
    TrustedEven(ep, Step(ep, o, a));
  }

  /** An event is cancelled in either list, the rollbacks that are then called for are carried out, and
      the epoch goes on: every processed event has its message recorded exactly if no event without
      recorded messages came to lie before the horizon. */
  lemma UnsafeCancellationLosesSends<S(!new)>(ep: Epoch<S>, o: Object<S>, a: Action)
    requires SendsOne(ep) && Exact(ep, o) && Enabled(ep, o, a) && Cancels(a)
    ensures var r := Step(ep, o, a);
            && OrderInv(ep, r) && AllAhead(ep, r)
            && var d := Completed(ep, r); |d.logs.later| == |d.processed| <==> Lossless(ep, o, a)
  {
    StepOrder(ep, o, a);
    CancelledIs(ep, o, a);
    if o.standing || o.rolling {
      CancelInRollback(ep, o, a);
    } else {
      CancelEven(ep, o, QueueWithout(o, a), ProcessedWithout(o, a), CancelTime(o, a));
    }
    CompletedCount(ep, Step(ep, o, a));
  }

  // ---- safe is the exact condition ----

  /** A model that tells each event on: its one message for later epochs names the event. */
  ghost predicate TellsEvents<S(!new)>(ep: Epoch<S>) {
    && ep.start < ep.end && Forward(ep)
    && forall s, e: Event :: ToLater(ep, e.ts, ep.handler(s, e).1) == [Tell(ep, e)]
  }

  function Tell<S>(ep: Epoch<S>, e: Event): Sent {
    Sent(e.ts, Message(0, ep.end, e.body))
  }

  function Told<S>(ep: Epoch<S>, l: seq<Event>): (r: seq<Sent>)
    ensures |r| == |l|
  {
    seq(|l|, i requires 0 <= i < |l| => Tell(ep, l[i]))
  }

  lemma TellsOne<S(!new)>(ep: Epoch<S>)
    requires TellsEvents(ep)
    ensures SendsOne(ep)
  {
    forall s, e: Event ensures |ToLater(ep, e.ts, ep.handler(s, e).1)| == 1 {
      assert ToLater(ep, e.ts, ep.handler(s, e).1) == [Tell(ep, e)];
    }
  }

  lemma {:induction false} StraightTold<S(!new)>(ep: Epoch<S>, l: seq<Event>)
    requires TellsEvents(ep)
    ensures Straight(ep, l).1.later == Told(ep, l)
    decreases |l|
  {
    if l != [] {
      var front, e := l[..|l| - 1], l[|l| - 1];
      StraightTold(ep, front);
      RecordLater(ep, Straight(ep, front).1, e.ts, ep.handler(Straight(ep, front).0, e).1);
    }
  }

  /** Where the last time of a sorted list begins. */
  lemma {:induction false} LastTime(l: seq<Event>) returns (m: nat)
    requires Sorted(l) && l != []
    ensures m < |l| && l[m].ts == l[|l| - 1].ts && AtMost(l[..m], l[m].ts - 1) && AtLeast(l[m..], l[m].ts)
  {
    m := |l| - 1;
    while m > 0 && l[m - 1].ts == l[|l| - 1].ts
      invariant m < |l| && l[m].ts == l[|l| - 1].ts
    {
      m := m - 1;
    }
  }

  /** Going back, processed events of the time of the first queued one end up behind it. */
  lemma TieTurns(queue: seq<Event>, processed: seq<Event>, m: nat)
    requires Sorted(queue) && Sorted(processed) && queue != [] && m < |processed|
    requires AtMost(processed[..m], queue[0].ts - 1) && AtLeast(processed[m..], queue[0].ts) && AtLeast(queue, queue[0].ts)
    ensures |Requeue(queue, processed)| == |queue| + |processed| && Requeue(queue, processed)[m] == queue[0]
  {
    var a, b := processed[..m], processed[m..];
    assert processed == a + b;
    RequeueSplit(queue, a, b);
    PutInFront(queue, a, queue[0].ts);
    SortedConcat(a, queue, queue[0].ts);
    RequeueBehind(a + queue, b, m);
  }

  /** The messages that survive the cancellation name every event before t, the processed ones first. */
  lemma SurvivingTold<S(!new)>(ep: Epoch<S>, o: Object<S>, t: int)
    requires TellsEvents(ep) && Trusted(ep, o) && !o.rolling && !o.standing && Clear(o.queue, o.filter + 1, t)
    requires AtMost(o.processed, t - 1)
    ensures Truncate(o.logs.later, t) == Told(ep, o.processed + Below(o.queue, t))
  {
    LogsCut(ep, o.state, o.logs, o.processed, o.queue, o.filter + 1, o.now, t);
    BelowAll(o.processed, t);
    CoastedBelow(o.queue, o.filter + 1, t);
    StraightTold(ep, o.processed + Below(o.queue, t));
  }

  /** Rollbacks that cut the logs at t or later leave what lies before t, and the logs cut at the first
      of them. */
  lemma {:induction false} SettleKeeps<S>(ep: Epoch<S>, o: Object<S>, t: int)
    requires OrderInv(ep, o) && AllAhead(ep, o) && (o.standing || o.rolling) && t <= Cut(o)
    ensures var r := Settle(ep, o);
            && r.processed == [] && t <= r.filter + 1 && r.logs.later == Truncate(o.logs.later, Cut(o))
            && Below(r.queue, t) == Below(Requeue(o.queue, o.processed), t)
    decreases |o.logs.soon|, (if o.standing then 2 else 0) + if o.rolling then 1 else 0
  {
    if o.rolling {
      SettleShrinks(ep, o);
      StepOrder(ep, o, Finish);
      FinishAhead(ep, o);
      FinishStands(ep, o);
      KeptRequeueBelow(o.queue, o.processed, o.target, t);
      if Step(ep, o, Finish).standing {
        FinishCut(ep, o);
        SettleKeeps(ep, Step(ep, o, Finish), t);
      }
    } else {
      StepOrder(ep, o, Begin);
      SettleKeeps(ep, Step(ep, o, Begin), t);
    }
  }

  lemma FinishCut<S>(ep: Epoch<S>, o: Object<S>)
    requires OrderInv(ep, o) && AllAhead(ep, o) && o.rolling && Step(ep, o, Finish).standing
    ensures var r := Step(ep, o, Finish);
            Cut(o) <= Cut(r) && Truncate(r.logs.later, Cut(r)) == Truncate(o.logs.later, Cut(o))
  {
    FinishStands(ep, o);
    HorizonAfterCut(ep, o);
    if o.standing && o.violation <= o.target {
      CutTwice(o.logs, o.target, o.violation);
    } else {
      CutKeeps(o.logs, o.target, Horizon(ep, o));
    }
  }

  /** What is coasted over comes first, and no message is taken back. */
  lemma {:induction false} DrainCoasts<S(!new)>(ep: Epoch<S>, o: Object<S>, t: int)
    requires SendsOne(ep) && Idle(ep, o) && t <= o.filter + 1
    ensures var d := Drain(ep, o); o.processed + Below(o.queue, t) <= d.processed && o.logs.later <= d.logs.later
    decreases ep.end - Head(ep, o), |Below(o.queue, Head(ep, o) + 1)|
  {
    if o.queue != [] {
      DrainStep(ep, o);
      ExtractCoasts(ep, o, t);
      DrainCoasts(ep, Step(ep, o, Extract), t);
    }
  }

  lemma ExtractCoasts<S(!new)>(ep: Epoch<S>, o: Object<S>, t: int)
    requires SendsOne(ep) && Idle(ep, o) && Enabled(ep, o, Extract) && t <= o.filter + 1
    ensures var r := Step(ep, o, Extract);
            && r.filter == o.filter && o.logs.later <= r.logs.later
            && o.processed + Below(o.queue, t) <= r.processed + Below(r.queue, t)
  {
    CoastOrSend(o.processed, o.queue, t);
    if o.filter < o.queue[0].ts {
      ReplayLeaves(ep, o);
      RecordLater(ep, o.logs, o.queue[0].ts, ep.handler(o.state, o.queue[0]).1);
    }
  }

  /** What lies before the cut is processed first, and the messages that survive it stay. */
  lemma CompletedKeeps<S(!new)>(ep: Epoch<S>, o: Object<S>, t: int)
    requires SendsOne(ep) && OrderInv(ep, o) && AllAhead(ep, o) && (o.standing || o.rolling) && t == Cut(o)
    ensures var d := Completed(ep, o);
            Below(Requeue(o.queue, o.processed), t) <= d.processed && Truncate(o.logs.later, t) <= d.logs.later
  {
    SettleIdle(ep, o);
    SettleKeeps(ep, o, t);
    DrainCoasts(ep, Settle(ep, o), t);
    assert [] + Below(Settle(ep, o).queue, t) == Below(Settle(ep, o).queue, t);
  }

  /** After the cancellation of queue[k] the first queued event goes back to position m, in front of the
      processed one with its time. */
  lemma TieReplayed(queue: seq<Event>, processed: seq<Event>, k: nat, m: nat, t: int)
    requires Sorted(queue) && Sorted(processed) && k < |queue| && t == queue[k].ts && m < |processed|
    requires queue[0].ts < t && AtMost(processed, t - 1) && AtMost(processed[..m], queue[0].ts - 1)
    requires AtLeast(processed[m..], queue[0].ts)
    ensures var b := Below(Requeue(Without(queue, k), processed), t); m < |b| && b[m] == queue[0]
  {
    WithoutKeeps(queue, k);
    BelowRequeue(Without(queue, k), processed, t);
    BelowWithout(queue, k, t);
    BelowAll(processed, t);
    BelowSorted(queue, t);
    BelowBounds(queue, t, queue[0].ts);
    TieTurns(Below(queue, t), processed, m);
  }

  /** The cancellation of a queued event behind a tie: what is processed and what the logs say from the
      rollback on. */
  lemma TieCompleted<S(!new)>(ep: Epoch<S>, o: Object<S>, k: nat, m: nat)
    requires TellsEvents(ep) && Trusted(ep, o) && Enabled(ep, o, CancelQueued(k)) && !o.standing && !o.rolling && m < |o.processed|
    requires var t := o.queue[k].ts;
             && Clear(o.queue, o.filter + 1, t) && AtMost(o.processed, t - 1)
             && var b := Below(Requeue(Without(o.queue, k), o.processed), t); m < |b| && b[m] == o.queue[0]
    ensures var r := Step(ep, o, CancelQueued(k));
            && OrderInv(ep, r) && AllAhead(ep, r)
            && var d := Completed(ep, r);
               && m < |d.processed| && d.processed[m] == o.queue[0]
               && m < |d.logs.later| && d.logs.later[m] == Tell(ep, o.processed[m])
  {
    var t := o.queue[k].ts;
    var r := Step(ep, o, CancelQueued(k));
    StepOrder(ep, o, CancelQueued(k));
    CancelledIs(ep, o, CancelQueued(k));
    TellsOne(ep);
    CompletedKeeps(ep, r, t);
    SurvivingTold(ep, o, t);
  }

  lemma TieIsNotExact<S(!new)>(ep: Epoch<S>, o: Object<S>, k: nat)
    requires TellsEvents(ep) && Trusted(ep, o) && Enabled(ep, o, CancelQueued(k)) && !o.standing && !o.rolling
    requires Clear(o.queue, o.filter + 1, o.queue[k].ts) && !NoTie(o, o.queue[k].ts) && Named(o)
    ensures var r := Step(ep, o, CancelQueued(k));
            && OrderInv(ep, r) && AllAhead(ep, r)
            && var d := Completed(ep, r); d.logs.later != Told(ep, d.processed)
  {
    var t := o.queue[k].ts;
    assert o.queue[0].ts == o.processed[|o.processed| - 1].ts == o.now < t;
    var m := LastTime(o.processed);
    TieReplayed(o.queue, o.processed, k, m, t);
    TieCompleted(ep, o, k, m);
    var d := Completed(ep, Step(ep, o, CancelQueued(k)));
    assert Told(ep, d.processed)[m] == Tell(ep, o.queue[0]);
  }

  /** The model can tell the processed events from the queued ones. */
  ghost predicate Named<S>(o: Object<S>) {
    forall i, n | 0 <= i < |o.processed| && 0 <= n < |o.queue| ::
      o.processed[i].ts != o.queue[n].ts || o.processed[i].body != o.queue[n].body
  }

  /** Safe is the exact condition, for every step in every state that is exact, a rollback standing or
      under way or not: with a model whose messages name the events, the recorded sends at the end of
      the epoch are those of a straight run over the processed events exactly if the step was safe. */
  lemma SafeIsExact<S(!new)>(ep: Epoch<S>, o: Object<S>, a: Action)
    requires TellsEvents(ep) && Exact(ep, o) && Enabled(ep, o, a) && Named(o)
    ensures var r := Step(ep, o, a);
            && OrderInv(ep, r) && AllAhead(ep, r)
            && var d := Completed(ep, r); d.logs.later == Straight(ep, d.processed).1.later <==> Safe(ep, o, a)
  {
    TellsOne(ep);
    if Safe(ep, o, a) {
      StepExact(ep, o, a);
      CompletedExact(ep, Step(ep, o, a));
    } else {
      UnsafeIsNotExact(ep, o, a);
    }
  }

  lemma UnsafeIsNotExact<S(!new)>(ep: Epoch<S>, o: Object<S>, a: Action)
    requires TellsEvents(ep) && SendsOne(ep) && Exact(ep, o) && Enabled(ep, o, a) && Named(o) && !Safe(ep, o, a)
    ensures var r := Step(ep, o, a);
            && OrderInv(ep, r) && AllAhead(ep, r)
            && var d := Completed(ep, r); d.logs.later != Straight(ep, d.processed).1.later
  {
    if a.Arrive? {
      UnsafeArrivalLosesSend(ep, o, a.e);
    } else {
      UnsafeCancellationLosesSends(ep, o, a);
      if Lossless(ep, o, a) {
        UnsafeTie(ep, o, a);
        TieIsNotExact(ep, o, a.k);
      }
    }
    StraightTold(ep, Completed(ep, Step(ep, o, a)).processed);
  }

  /** A lossless cancellation is unsafe only if it puts a processed event behind a queued one. */
  lemma UnsafeTie<S>(ep: Epoch<S>, o: Object<S>, a: Action)
    requires OrderInv(ep, o) && Enabled(ep, o, a) && Cancels(a) && Lossless(ep, o, a) && !Safe(ep, o, a)
    ensures a.CancelQueued? && !o.standing && !o.rolling
    ensures Clear(o.queue, o.filter + 1, o.queue[a.k].ts) && !NoTie(o, o.queue[a.k].ts)
  {
  }
}
