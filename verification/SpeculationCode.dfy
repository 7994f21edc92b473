/** The functions of queue/queue.c, speculation/speculation.c and stubs/stubs.c that work on one
    object, with their loops: the steps of module Speculation, and the parts of which they are made.
    The doubly linked lists are sequences here; module SlotList has the links. */
module SpeculationCode {
  import opened Lists
  import opened Rollback
  import opened Speculation
  import opened Replay
  import opened ReplayLimits

  /** The scan and link of `queue_insert_in_epoch` and `queue_insert_in_slot`. */
  method InsertInSlot(l: seq<Event>, e: Event) returns (r: seq<Event>)
    ensures r == Insert(l, e)
  {
    var i := 0;
    while i < |l| && l[i].ts <= e.ts
      invariant i <= |l| && AtMost(l[..i], e.ts)
    {
      i := i + 1;
    }
    InsertAt(l, e, i);
    r := l[..i] + [e] + l[i..];
  }

  /** The backward walk over a send log. */
  method DropFrom(log: seq<Sent>, t: int) returns (r: seq<Sent>)
    ensures r == Truncate(log, t)
  {
    var n := |log|;
    assert log[..n] == log;
    while n > 0 && log[n - 1].at >= t
      invariant 0 <= n <= |log| && Truncate(log[..n], t) == Truncate(log, t)
    {
      assert log[..n][..n - 1] == log[..n - 1];
      n := n - 1;
    }
    r := log[..n];
  }

  /** The backward walk of `log_rollback` comes to the entry in front of n. */
  lemma RecallEntry<S>(ep: Epoch<S>, o: Object<S>, log: seq<Sent>, n: nat)
    requires 0 < n <= |log|
    ensures var s, r := log[n - 1], Recall(o, OwnEvents(ep, log[n..]));
            Recall(o, OwnEvents(ep, log[n - 1..])) == if IsOwn(ep, s.message) then Violate(r, s.message.ts) else r
  {
    var s := log[n - 1];
    var own := OwnEvents(ep, log[n..]);
    assert log[n - 1..] == [s] + log[n..];
    OwnEventsConcat(ep, [s], log[n..]);
    assert [s][..0] == [];
    assert OwnEvents(ep, [s]) == [] + if IsOwn(ep, s.message) then [OwnEvent(s)] else [];
    assert ([OwnEvent(s)] + own)[1..] == own && [] + own == own;
  }

  /** The own events of the log's first n entries that a rollback to t does not leave. */
  ghost predicate HoldsLogged<S>(ep: Epoch<S>, processed: seq<Event>, queue: seq<Event>, log: seq<Sent>, t: int) {
    forall e | !Stays(e, t) :: multiset(processed)[e] + multiset(queue)[e] == multiset(OwnEvents(ep, log))[e]
  }

  lemma KeptWithout(l: seq<Event>, k: nat, t: int)
    requires k < |l| && !Stays(l[k], t)
    ensures Kept(Without(l, k), t) == Kept(l, t)
  {
    var a, b := l[..k], l[k + 1..];
    assert l == a + [l[k]] + b;
    KeptConcat(a, b, t);
    KeptConcat(a, [l[k]], t);
    KeptConcat(a + [l[k]], b, t);
  }

  lemma HeldIsLogged<S>(ep: Epoch<S>, o: Object<S>, t: int)
    requires OwnInv(ep, o)
    ensures HoldsLogged(ep, o.processed, o.queue, o.logs.soon, t) && SortedSent(o.logs.soon)
  {
    forall e | !Stays(e, t)
      ensures multiset(o.processed)[e] + multiset(o.queue)[e] == multiset(OwnEvents(ep, o.logs.soon))[e]
    {
      HeldOnlyCounts(o, true, e);
      assert HeldOnly(o, true)[e] == multiset(OwnEvents(ep, o.logs.soon))[e];
    }
  }

  /** The entry before n: its event is held, and once it is taken out the others are those of the rest. */
  lemma EntryHeld<S>(ep: Epoch<S>, processed: seq<Event>, queue: seq<Event>, log: seq<Sent>, s: Sent, t: int)
    requires HoldsLogged(ep, processed, queue, log + [s], t) && s.at >= t && IsOwn(ep, s.message)
    ensures OwnEvent(s) in processed || OwnEvent(s) in queue
  {
    LogCounts(ep, log, s, OwnEvent(s));
  }

  lemma EntryTaken<S>(ep: Epoch<S>, processed: seq<Event>, queue: seq<Event>, processed': seq<Event>, queue': seq<Event>,
                      log: seq<Sent>, s: Sent, t: int)
    requires HoldsLogged(ep, processed, queue, log + [s], t) && IsOwn(ep, s.message)
    requires (TakenOut(processed, processed', OwnEvent(s)) && queue' == queue)
             || (processed' == processed && TakenOut(queue, queue', OwnEvent(s)))
    ensures HoldsLogged(ep, processed', queue', log, t)
  {
    forall e | !Stays(e, t)
      ensures multiset(processed')[e] + multiset(queue')[e] == multiset(OwnEvents(ep, log))[e]
    {
      LogCounts(ep, log, s, e);
    }
  }

  lemma EntrySkipped<S>(ep: Epoch<S>, processed: seq<Event>, queue: seq<Event>, log: seq<Sent>, s: Sent, t: int)
    requires HoldsLogged(ep, processed, queue, log + [s], t) && !IsOwn(ep, s.message)
    ensures HoldsLogged(ep, processed, queue, log, t)
  {
    assert (log + [s])[..|log|] == log;
  }

  /** What is left of a list without one occurrence of e. */
  ghost predicate TakenOut(l: seq<Event>, r: seq<Event>, e: Event) {
    forall x :: multiset(r)[x] + (if x == e then 1 else 0) == multiset(l)[x]
  }

  lemma NoneHeld<S>(ep: Epoch<S>, processed: seq<Event>, queue: seq<Event>, log: seq<Sent>, t: int, e: Event)
    requires HoldsLogged(ep, processed, queue, log, t) && !Stays(e, t) && forall s | s in log :: s.at < t
    ensures e !in processed && e !in queue
  {
    OwnEventsBefore(ep, log, t);
    assert multiset(OwnEvents(ep, log))[e] == 0;
  }

  /** Nothing is left to take out when the rest of the log was sent before t. */
  lemma NothingLogged<S>(ep: Epoch<S>, processed: seq<Event>, queue: seq<Event>, log: seq<Sent>, t: int)
    requires HoldsLogged(ep, processed, queue, log, t) && forall s | s in log :: s.at < t
    ensures Kept(processed, t) == processed && Kept(queue, t) == queue
  {
    forall e | e in processed || e in queue ensures Stays(e, t) {
      if !Stays(e, t) {
        NoneHeld(ep, processed, queue, log, t, e);
      }
    }
    KeptAll(processed, t);
    KeptAll(queue, t);
  }

  // ---- the walk of log_rollback ----

  /** The rollbacks called for, after the log's entries from n on have been annihilated, from o to v. */
  ghost predicate Calls<S>(ep: Epoch<S>, o: Object<S>, v: Object<S>, log: seq<Sent>, n: int)
    requires 0 <= n <= |log|
  {
    v == Recall(o, OwnEvents(ep, log[n..])).(queue := v.queue, processed := v.processed)
  }

  /** And the lists. */
  ghost predicate TakenFrom<S>(ep: Epoch<S>, o: Object<S>, v: Object<S>, log: seq<Sent>, t: int) {
    && Kept(v.queue, t) == Kept(o.queue, t) && Kept(v.processed, t) == Kept(o.processed, t)
    && HoldsLogged(ep, v.processed, v.queue, log, t)
  }

  ghost predicate Walking<S>(ep: Epoch<S>, o: Object<S>, v: Object<S>, log: seq<Sent>, t: int, n: int) {
    && 0 <= n <= |log| && Truncate(log[..n], t) == Truncate(log, t)
    && v.logs == o.logs && v.target == o.target && Calls(ep, o, v, log, n) && TakenFrom(ep, o, v, log[..n], t)
  }

  lemma WalkStarts<S>(ep: Epoch<S>, o: Object<S>)
    requires HoldsLogged(ep, o.processed, o.queue, o.logs.soon, o.target)
    ensures Walking(ep, o, o, o.logs.soon, o.target, |o.logs.soon|)
  {
    assert o.logs.soon[..|o.logs.soon|] == o.logs.soon && o.logs.soon[|o.logs.soon|..] == [];
  }

  /** The annihilation of the entry s at the end of a log, from v to w. */
  ghost predicate EntryUndone<S>(ep: Epoch<S>, v: Object<S>, w: Object<S>, s: Sent, log: seq<Sent>) {
    && w == (if IsOwn(ep, s.message) then Violate(v, s.message.ts) else v).(queue := w.queue, processed := w.processed)
    && TakenFrom(ep, v, w, log, v.target)
  }

  lemma WalkOn<S>(ep: Epoch<S>, o: Object<S>, v: Object<S>, log: seq<Sent>, t: int, n: int)
    requires 0 < n <= |log| && TakenFrom(ep, o, v, log[..n], t)
    ensures HoldsLogged(ep, v.processed, v.queue, log[..n - 1] + [log[n - 1]], t)
  {
    assert log[..n] == log[..n - 1] + [log[n - 1]];
  }

  lemma CallsStep<S>(ep: Epoch<S>, o: Object<S>, v: Object<S>, w: Object<S>, log: seq<Sent>, n: int)
    requires 0 < n <= |log| && Calls(ep, o, v, log, n) && EntryUndone(ep, v, w, log[n - 1], log[..n - 1])
    ensures Calls(ep, o, w, log, n - 1) && w.logs == v.logs && w.target == v.target
  {
    RecallEntry(ep, o, log, n);
  }

  lemma WalkStep<S>(ep: Epoch<S>, o: Object<S>, v: Object<S>, w: Object<S>, log: seq<Sent>, t: int, n: int)
    requires Walking(ep, o, v, log, t, n) && 0 < n && log[n - 1].at >= t && t == v.target
    requires EntryUndone(ep, v, w, log[n - 1], log[..n - 1])
    ensures Walking(ep, o, w, log, t, n - 1)
  {
    CallsStep(ep, o, v, w, log, n);
    assert log[..n][..n - 1] == log[..n - 1];
  }

  lemma WalkEnds<S>(ep: Epoch<S>, o: Object<S>, v: Object<S>, w: Object<S>, log: seq<Sent>, n: int)
    requires log == o.logs.soon && Walking(ep, o, v, log, o.target, n) && SortedSent(log) && (n > 0 ==> log[n - 1].at < o.target)
    requires w == v.(logs := Logs(o.logs.later, log[..n]))
    ensures LogUndone(ep, o, w)
  {
    SentBeforeAll(log, n, o.target);
    NothingLogged(ep, v.processed, v.queue, log[..n], o.target);
    RecallIs(o, OwnEvents(ep, log[n..]));
  }

  /** Memory, logs and lists after the first three parts of `run_rollback`, from o to w. */
  ghost predicate SendsUndone<S>(ep: Epoch<S>, o: Object<S>, w: Object<S>) {
    && w.state == ep.checkpoint && w.logs == TruncateLogs(o.logs, o.target)
    && w.queue == Kept(o.queue, o.target) && w.processed == Kept(o.processed, o.target)
    && w.now == o.now && w.filter == o.filter && w.rolling == o.rolling && w.target == o.target
    && var r := Recall(o, Recalled(ep, o.logs.soon, o.target)); w.standing == r.standing && w.violation == r.violation
  }

  /** What `log_rollback` changes, from m to w. */
  ghost predicate LogUndone<S>(ep: Epoch<S>, m: Object<S>, w: Object<S>) {
    && w == m.(logs := w.logs, queue := w.queue, processed := w.processed, standing := w.standing, violation := w.violation)
    && w.logs == Logs(m.logs.later, Truncate(m.logs.soon, m.target))
    && w.queue == Kept(m.queue, m.target) && w.processed == Kept(m.processed, m.target)
    && var r := Recall(m, Recalled(ep, m.logs.soon, m.target)); w.standing == r.standing && w.violation == r.violation
  }

  /** The rollbacks called for do not depend on memory and logs. */
  lemma UndoneIs<S>(ep: Epoch<S>, o: Object<S>, m: Object<S>, w: Object<S>)
    requires m == o.(state := ep.checkpoint, logs := Logs(Truncate(o.logs.later, o.target), o.logs.soon)) && LogUndone(ep, m, w)
    ensures SendsUndone(ep, o, w)
  {
    RecallIs(o, Recalled(ep, o.logs.soon, o.target));
    RecallIs(m, Recalled(ep, o.logs.soon, o.target));
  }

  lemma FinishIs<S>(ep: Epoch<S>, o: Object<S>, w: Object<S>)
    requires o.rolling && SendsUndone(ep, o, w)
    ensures Step(ep, o, Finish) == w.(queue := Requeue(w.queue, w.processed), processed := [], rolling := false)
  {
    RecallIs(o, Recalled(ep, o.logs.soon, o.target));
  }

  lemma SentBeforeAll(log: seq<Sent>, n: nat, t: int)
    requires SortedSent(log) && n <= |log| && (n > 0 ==> log[n - 1].at < t)
    ensures forall s | s in log[..n] :: s.at < t
  {
  }

  /** One occurrence of an event is unlinked. */
  method TakeOut(l: seq<Event>, e: Event, ghost t: int) returns (r: seq<Event>)
    requires e in l && !Stays(e, t)
    ensures TakenOut(l, r, e) && Kept(r, t) == Kept(l, t)
  {
    var k: nat :| k < |l| && l[k] == e;
    KeptWithout(l, k, t);
    forall x ensures multiset(Without(l, k))[x] + (if x == e then 1 else 0) == multiset(l)[x] {
      WithoutCounts(l, k, x);
    }
    r := Without(l, k);
  }

  /** The event of a log's last entry is unlinked from whichever list it is in. */
  method Unlink<S>(ep: Epoch<S>, processed: seq<Event>, queue: seq<Event>, s: Sent, ghost log: seq<Sent>, ghost t: int)
    returns (processed': seq<Event>, queue': seq<Event>)
    requires HoldsLogged(ep, processed, queue, log + [s], t) && s.at >= t && IsOwn(ep, s.message)
    ensures HoldsLogged(ep, processed', queue', log, t)
    ensures Kept(processed', t) == Kept(processed, t) && Kept(queue', t) == Kept(queue, t)
  {
    EntryHeld(ep, processed, queue, log, s, t);
    processed', queue' := processed, queue;
    if OwnEvent(s) in processed {
      processed' := TakeOut(processed, OwnEvent(s), t);
    } else {
      queue' := TakeOut(queue, OwnEvent(s), t);
    }
    EntryTaken(ep, processed, queue, processed', queue', log, s, t);
  }

  class SpeculativeObject<S(!new)> {
    const ep: Epoch<S>
    var state: S
    var processed: seq<Event>  // the retractable queue
    var queue: seq<Event>      // the current slot
    var later: seq<Sent>       // the speculation queue
    var soon: seq<Sent>        // the send log
    var now: int               // current_time
    var filter: int            // filter_message
    var standing: bool         // standing_rollback
    var violation: int         // causality_violation_time
    var rolling: bool
    var target: int            // rollback_time

    ghost function View(): Object<S> reads this {
      Object(state, processed, queue, Logs(later, soon), now, filter, standing, violation, rolling, target)
    }

    /** `speculation_queue_flush` has just prepared the epoch, with these events in the slot. */
    constructor (ep: Epoch<S>, events: seq<Event>, clock: int)
      requires 0 <= ep.start < ep.end && clock <= ep.start
      requires Sorted(events) && AtLeast(events, ep.start) && AtMost(events, ep.end - 1)
      requires forall e | e in events :: e.origin == Outside
      ensures this.ep == ep && View().queue == events && Fresh(ep, View())
    {
      this.ep := ep;
      state, processed, queue, later, soon := ep.checkpoint, [], events, [], [];
      now, filter, standing, violation, rolling, target := clock, ep.start - 1, false, 0, false, 0;
    }

    method RaiseRollback(t: int)
      modifies this`standing, this`violation
      ensures View() == Violate(old(View()), t)
    {
      if standing {
        if violation > t {
          violation := t;
        }
      } else {
        standing, violation := true, t;
      }
    }

    /** The destination's part of `speculation_queue_insert`. */
    method Receive(e: Event)
      modifies this`standing, this`violation, this`queue
      ensures View() == Speculation.Receive(old(View()), e)
    {
      if now >= e.ts {
        RaiseRollback(e.ts);
      }
      queue := InsertInSlot(queue, e);
    }

    /** `queue_elem_annihilation` of the k-th processed or queued event, by its sender. */
    method Annihilate(k: nat, inQueue: bool)
      requires Enabled(ep, View(), if inQueue then CancelQueued(k) else CancelProcessed(k))
      modifies this`standing, this`violation, this`queue, this`processed
      ensures View() == Step(ep, old(View()), if inQueue then CancelQueued(k) else CancelProcessed(k))
    {
      if inQueue {
        RaiseRollback(queue[k].ts);
        queue := Without(queue, k);
      } else {
        RaiseRollback(processed[k].ts);
        processed := Without(processed, k);
      }
    }

    /** The first part of `queue_extract`: the owner takes the standing rollback. */
    method TakeRollback()
      requires standing && !rolling
      modifies this`standing, this`now, this`filter, this`rolling, this`target
      ensures View() == Step(ep, old(View()), Begin)
    {
      target := violation;
      standing := false;
      now := ep.start;
      filter := target - 1;
      rolling := target > 0;
    }

    /** `queue_elem_annihilation` of the last entry of a log, which the rollback cuts: if the object sent
        it to itself, a rollback to its time is called for, and it leaves whichever list it is in; one to
        another object is a step of that object's. */
    method AnnihilateEntry(s: Sent, ghost log: seq<Sent>)
      requires s.at >= target && HoldsLogged(ep, processed, queue, log + [s], target)
      modifies this`standing, this`violation, this`queue, this`processed
      ensures EntryUndone(ep, old(View()), View(), s, log)
    {
      if IsOwn(ep, s.message) {
        RaiseRollback(s.message.ts);
        processed, queue := Unlink(ep, processed, queue, s, log, target);
      } else {
        EntrySkipped(ep, processed, queue, log, s, target);
      }
    }

    /** One turn of the walk of `log_rollback`. */
    method AnnihilateLast(n: nat, ghost o: Object<S>)
      requires 0 < n <= |soon| && soon[n - 1].at >= target && Walking(ep, o, View(), soon, target, n)
      modifies this`standing, this`violation, this`queue, this`processed
      ensures Walking(ep, o, View(), soon, target, n - 1)
    {
      ghost var v := View();
      WalkOn(ep, o, v, soon, target, n);
      AnnihilateEntry(soon[n - 1], soon[..n - 1]);
      WalkStep(ep, o, v, View(), soon, target, n);
    }

    /** `log_rollback`: the entries sent at the target or later are taken off the log's tail, and each is
        annihilated. */
    method LogRollback()
      requires SortedSent(soon) && HoldsLogged(ep, processed, queue, soon, target)
      modifies this`soon, this`standing, this`violation, this`queue, this`processed
      ensures LogUndone(ep, old(View()), View())
    {
      var n := |soon|;
      ghost var o := View();
      WalkStarts(ep, o);
      while n > 0 && soon[n - 1].at >= target
        invariant soon == o.logs.soon && Walking(ep, o, View(), soon, target, n)
      {
        AnnihilateLast(n, o);
        n := n - 1;
      }
      ghost var v := View();
      soon := soon[..n];
      WalkEnds(ep, o, v, View(), o.logs.soon, n);
    }

    /** The first three parts of `run_rollback`: the memory, the speculation queue and the send log. */
    method UndoSends()
      requires SortedSent(soon) && HoldsLogged(ep, processed, queue, soon, target)
      modifies this`state, this`later, this`soon, this`standing, this`violation, this`processed, this`queue
      ensures SendsUndone(ep, old(View()), View())
    {
      ghost var o := View();
      state := ep.checkpoint;
      later := DropFrom(later, target);
      ghost var m := View();
      LogRollback();
      UndoneIs(ep, o, m, View());
    }

    /** `restore_retractable_events`. */
    method RestoreRetractable()
      modifies this`processed, this`queue
      ensures processed == [] && queue == Requeue(old(queue), old(processed))
    {
      while processed != []
        invariant Requeue(queue, processed) == Requeue(old(queue), old(processed))
        decreases |processed|
      {
        queue := InsertInSlot(queue, processed[0]);
        processed := processed[1..];
      }
    }

    /** `run_rollback`: the memory, the speculation queue, the send log and the events, in this order. */
    method RunRollback()
      requires rolling && SortedSent(soon) && HoldsLogged(ep, processed, queue, soon, target)
      modifies this`state, this`later, this`soon, this`standing, this`violation, this`processed, this`queue, this`rolling
      ensures View() == Step(ep, old(View()), Finish)
    {
      UndoSends();
      FinishIs(ep, old(View()), View());
      RestoreRetractable();
      rolling := false;
    }

    /** `speculation_queue_insert` of one message that the filter lets pass. */
    method Route(at: int, m: Message)
      modifies this`later, this`soon, this`queue, this`standing, this`violation
      ensures View() == Send(ep, old(View()), at, m)
    {
      if m.ts >= ep.start {
        if m.ts >= ep.end {
          later := later + [Sent(at, m)];
        } else {
          soon := soon + [Sent(at, m)];
          if m.destination == ep.self {
            Receive(OwnEvent(Sent(at, m)));
          }
        }
      }
    }

    /** `ScheduleNewEvent` for each message of an event: the coasting filter, then the routing. */
    method Schedule(at: int, messages: seq<Message>)
      modifies this`later, this`soon, this`queue, this`standing, this`violation
      ensures View() == if filter >= at then old(View()) else SendAll(ep, old(View()), at, messages)
    {
      var i := 0;
      while i < |messages|
        invariant i <= |messages|
        invariant if filter >= at then View() == old(View())
                  else SendAll(ep, View(), at, messages[i..]) == SendAll(ep, old(View()), at, messages)
      {
        assert messages[i..][1..] == messages[i + 1..];
        if filter < at {
          Route(at, messages[i]);
        }
        i := i + 1;
      }
    }

    /** The end of `queue_extract`, and the processing of the event. */
    method ExtractAndProcess()
      requires Enabled(ep, View(), Extract)
      modifies this`state, this`queue, this`processed, this`now, this`later, this`soon, this`standing, this`violation
      ensures View() == Step(ep, old(View()), Extract)
    {
      var e := queue[0];
      var (s, messages) := ep.handler(state, e);
      queue := queue[1..];
      now := e.ts;
      processed := processed + [e];
      state := s;
      Schedule(e.ts, messages);
    }

    /** The owner works until nothing is left to do, without further arrivals: the rollbacks that are
        standing or under way, those that they call for, and an uninterrupted replay. */
    method Complete()
      requires Forward(ep) && OrderInv(ep, View()) && AllAhead(ep, View()) && OwnInv(ep, View())
      modifies this
      ensures View() == Completed(ep, old(View())) && queue == [] && !standing && !rolling && Sorted(processed)
      ensures multiset(Only(processed, false)) == old(HeldOnly(View(), false))
      ensures multiset(Only(processed, true)) == multiset(OwnEvents(ep, soon))
      ensures old(Exact(ep, View())) ==> (state, Logs(later, soon)) == Straight(ep, processed)
      ensures old(Trusted(ep, View()) && (standing || rolling)) && SendsOne(ep) ==>
                ((state, Logs(later, soon)) == Straight(ep, processed) <==> old(Covered(ep, View())))
    {
      CompletedIs(ep, View());
      SettleIdle(ep, View());
      SettleRollbacks();
      DrainKeeps(ep, View());
      DrainSlot();
      DoneHolds(ep, View());
    }

    method DrainSlot()
      requires Forward(ep) && Idle(ep, View())
      modifies this
      ensures View() == Drain(ep, old(View()))
    {
      ghost var v := View();
      ghost var done := Drain(ep, v);
      while queue != []
        invariant v == View() && Idle(ep, v) && Drain(ep, v) == done
        decreases ep.end - Head(ep, v), |Below(v.queue, Head(ep, v) + 1)|
      {
        DrainStep(ep, v);
        ExtractAndProcess();
        v := Step(ep, v, Extract);
      }
    }

    method SettleRollbacks()
      requires OrderInv(ep, View()) && AllAhead(ep, View()) && OwnInv(ep, View())
      modifies this
      ensures View() == Settle(ep, old(View()))
      ensures OwnInv(ep, View()) && HeldOnly(View(), false) == old(HeldOnly(View(), false))
    {
      while rolling || standing
        invariant OrderInv(ep, View()) && AllAhead(ep, View()) && OwnInv(ep, View())
        invariant Settle(ep, View()) == Settle(ep, old(View())) && HeldOnly(View(), false) == old(HeldOnly(View(), false))
        decreases |soon|, (if standing then 2 else 0) + if rolling then 1 else 0
      {
        if rolling {
          SettleShrinks(ep, View());
          FinishAhead(ep, View());
          OwnerKeeps(ep, View(), Finish);
          HeldIsLogged(ep, View(), target);
          RunRollback();
        } else {
          OwnerKeeps(ep, View(), Begin);
          TakeRollback();
        }
      }
    }
  }

  /** The owner's steps keep the own events as they are logged, and those from outside. */
  lemma OwnerKeeps<S>(ep: Epoch<S>, o: Object<S>, a: Action)
    requires OrderInv(ep, o) && OwnInv(ep, o) && Enabled(ep, o, a) && (a.Begin? || a.Finish? || a.Extract?)
    ensures OrderInv(ep, Step(ep, o, a)) && OwnInv(ep, Step(ep, o, a))
    ensures HeldOnly(Step(ep, o, a), false) == HeldOnly(o, false)
  {
    StepOrder(ep, o, a);
    StepOwn(ep, o, a);
    OwnerConserves(ep, o, a);
  }

  lemma {:induction false} DrainKeeps<S(!new)>(ep: Epoch<S>, o: Object<S>)
    requires Forward(ep) && Idle(ep, o) && OwnInv(ep, o)
    ensures OwnInv(ep, Drain(ep, o)) && HeldOnly(Drain(ep, o), false) == HeldOnly(o, false)
    decreases ep.end - Head(ep, o), |Below(o.queue, Head(ep, o) + 1)|
  {
    if o.queue != [] {
      DrainStep(ep, o);
      OwnerKeeps(ep, o, Extract);
      DrainKeeps(ep, Step(ep, o, Extract));
    }
  }

  lemma OwnerConserves<S>(ep: Epoch<S>, o: Object<S>, a: Action)
    requires Enabled(ep, o, a) && (a.Begin? || a.Finish? || a.Extract?)
    ensures HeldOnly(Step(ep, o, a), false) == HeldOnly(o, false)
  {
    StepConserves(ep, o, a);
    NothingMoved(HeldOnly(Step(ep, o, a), false), HeldOnly(o, false), Removed(o, a), Added(a));
  }

  lemma NothingMoved(x: multiset<Event>, y: multiset<Event>, r: multiset<Event>, a: multiset<Event>)
    requires x + r == y + a && r == multiset{} && a == multiset{}
    ensures x == y
  {
    assert x + r == x && y + a == y;
  }

  lemma CompletedIs<S(!new)>(ep: Epoch<S>, o: Object<S>)
    requires Forward(ep) && OrderInv(ep, o) && AllAhead(ep, o)
    ensures var d := Completed(ep, o);
            && Sorted(d.processed)
            && (Exact(ep, o) ==> (d.state, d.logs) == Straight(ep, d.processed))
            && (Trusted(ep, o) && (o.standing || o.rolling) && SendsOne(ep) ==>
                  ((d.state, d.logs) == Straight(ep, d.processed) <==> Covered(ep, o)))
  {
    SettleIdle(ep, o);
    DrainIdle(ep, Settle(ep, o));
    if Exact(ep, o) {
      CompletedExact(ep, o);
    }
    if Trusted(ep, o) && (o.standing || o.rolling) && SendsOne(ep) {
      RollbackLosesSends(ep, o);
    }
  }
}
