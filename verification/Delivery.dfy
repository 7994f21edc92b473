/** What becomes of the events that are scheduled: over every run, an object holds or has extracted
    exactly the times that were scheduled for it, and what the threads handle for it is what it has
    extracted, one event after the other. */
module Delivery {
  import opened CalendarQueue
  import opened CalendarDelivery
  import opened Engine
  import opened EngineInvariant
  import EngineRuns

  // ---- over a run ----

  /** Thread a.thread schedules an event for object o. */
  ghost predicate Schedules(S: Setting, w: World, a: Action, o: nat)
    requires Ready(S, w)
  {
    a.Send? && a.thread < S.cfg.threads && a.destination == o && MaySend(S, w.threads[a.thread], a.ts)
  }

  /** The times that the actions of a run schedule for object o. */
  ghost function Scheduled(S: Setting, w: World, schedule: seq<Action>, o: nat): multiset<nat>
    requires Inv(S, w)
    decreases |schedule|
  {
    if schedule == [] then multiset{}
    else
      NextInv(S, w, schedule[0]);
      (if Schedules(S, w, schedule[0], o) then multiset{schedule[0].ts} else multiset{})
      + Scheduled(S, Next(S, w, schedule[0]), schedule[1..], o)
  }

  ghost predicate MayPut(S: Setting, w: World, a: Action)
    requires Ready(S, w)
  {
    a.Send? && a.thread < S.cfg.threads && a.destination < S.cfg.objects && MaySend(S, w.threads[a.thread], a.ts)
  }

  /** An event that may be scheduled is accepted. */
  lemma MayPutAccepted(S: Setting, w: World, a: Action)
    requires Inv(S, w) && MayPut(S, w, a)
    ensures w.cal.minLimit <= a.ts
  {
    SendAhead(S, w, a.thread, a.ts);
  }

  lemma SendDelivers(S: Setting, w: World, a: Action, o: nat, x: nat)
    requires Ready(S, w) && o < S.cfg.objects && a.Send? && (MayPut(S, w, a) ==> w.cal.minLimit <= a.ts)
    ensures var c' := Next(S, w, a).cal;
            && |c'.log| == |c'.queues| == S.cfg.objects
            && HeldTimes(c', o)[x] == HeldTimes(w.cal, o)[x] + One(Schedules(S, w, a, o) && a.ts == x)
  {
    if MayPut(S, w, a) {
      PutDelivers(S.cfg, w.cal, a.thread, a.destination, a.ts, o, x);
    }
  }

  /** Whether thread t's next step of work extracts an event. */
  ghost predicate Extracts(S: Setting, w: World, t: nat)
    requires Ready(S, w) && t < S.cfg.threads
  {
    && w.threads[t].stage == Working && w.threads[t].mode.Look? && !w.end
    && w.cal.queues[w.threads[t].mode.target][w.cal.index] != []
  }

  lemma WorkCalendar(S: Setting, w: World, t: nat)
    requires Ready(S, w) && t < S.cfg.threads && w.threads[t].stage == Working
    ensures Work(S, w, t).cal == if Extracts(S, w, t) then Take(S.cfg, w.cal, w.threads[t].mode.target) else w.cal
  {
  }

  lemma WorkDelivers(S: Setting, w: World, t: nat, o: nat, x: nat)
    requires Ready(S, w) && t < S.cfg.threads && w.threads[t].stage == Working && o < S.cfg.objects
    ensures var c' := Work(S, w, t).cal;
            |c'.log| == |c'.queues| == S.cfg.objects && HeldTimes(c', o)[x] == HeldTimes(w.cal, o)[x]
  {
    WorkCalendar(S, w, t);
    if Extracts(S, w, t) {
      TakeDelivers(S.cfg, w.cal, w.threads[t].mode.target, o, x);
    }
  }

  lemma GoDelivers(S: Setting, w: World, t: nat, o: nat, x: nat)
    requires Ready(S, w) && t < S.cfg.threads && o < S.cfg.objects
    ensures var c' := Step(S, w, t).cal;
            |c'.log| == |c'.queues| == S.cfg.objects && HeldTimes(c', o)[x] == HeldTimes(w.cal, o)[x]
  {
    match w.threads[t].stage
    case Filling =>
      if w.threads[t].round > 0 && w.cal.cursor[t] < |w.cal.fallback[t]| {
        RefillDelivers(S.cfg, w.cal, t, o, x);
      }
    case Working => WorkDelivers(S, w, t, o, x);
    case _ =>
  }

  lemma ActionDelivers(S: Setting, w: World, a: Action, o: nat, x: nat)
    requires Inv(S, w) && o < S.cfg.objects
    ensures var c' := Next(S, w, a).cal;
            && |c'.log| == |c'.queues| == S.cfg.objects
            && HeldTimes(c', o)[x] == HeldTimes(w.cal, o)[x] + One(Schedules(S, w, a, o) && a.Send? && a.ts == x)
  {
    if a.Send? {
      if MayPut(S, w, a) {
        MayPutAccepted(S, w, a);
      }
      SendDelivers(S, w, a, o, x);
    } else if a.thread < S.cfg.threads {
      GoDelivers(S, w, a.thread, o, x);
    }
  }

  lemma {:induction false} RunDelivers(S: Setting, w: World, schedule: seq<Action>, o: nat, x: nat)
    requires Inv(S, w) && o < S.cfg.objects
    ensures var c' := Run(S, w, schedule).cal;
            && |c'.log| == |c'.queues| == S.cfg.objects
            && HeldTimes(c', o)[x] == HeldTimes(w.cal, o)[x] + Scheduled(S, w, schedule, o)[x]
    decreases |schedule|
  {
    if schedule != [] {
      NextInv(S, w, schedule[0]);
      ActionDelivers(S, w, schedule[0], o, x);
      RunDelivers(S, Next(S, w, schedule[0]), schedule[1..], o, x);
    }
  }

  ghost function ScheduledIn(S: Setting, schedule: seq<Action>, o: nat): multiset<nat>
    requires S.Valid()
  {
    StartInv(S);
    Scheduled(S, Start(S), schedule, o)
  }

  lemma NothingAtStart(S: Setting, o: nat)
    requires S.Valid() && o < S.cfg.objects
    ensures var c := Start(S).cal; |c.log| == |c.queues| == S.cfg.objects && HeldTimes(c, o) == multiset{}
  {
    NoSlotTimes(Start(S).cal.queues[o]);
    NoWaitingTimes(Start(S).cal.fallback, o);
  }

  lemma FromStart(S: Setting, schedule: seq<Action>, o: nat, x: nat)
    requires S.Valid() && o < S.cfg.objects
    ensures var c := EngineRuns.After(S, schedule).cal;
            |c.log| == |c.queues| == S.cfg.objects && HeldTimes(c, o)[x] == ScheduledIn(S, schedule, o)[x]
  {
    StartInv(S);
    NothingAtStart(S, o);
    RunDelivers(S, Start(S), schedule, o, x);
  }

  /** Over every run: the times that were scheduled for an object are those of the events that it has
      extracted, that its slots hold, and that wait for it in the fallback lists, each as often. */
  lemma DeliveredOrHeld(S: Setting, schedule: seq<Action>, o: nat)
    requires S.Valid() && o < S.cfg.objects
    ensures var c := EngineRuns.After(S, schedule).cal;
            |c.log| == |c.queues| == S.cfg.objects && HeldTimes(c, o) == ScheduledIn(S, schedule, o)
  {
    FromStart(S, schedule, o, 0);
    forall x: nat ensures HeldTimes(EngineRuns.After(S, schedule).cal, o)[x] == ScheduledIn(S, schedule, o)[x] {
      FromStart(S, schedule, o, x);
    }
  }

  /** When a thread stops, each object has extracted exactly the times that were scheduled for it. */
  lemma AllDelivered(S: Setting, schedule: seq<Action>, t: nat, o: nat)
    requires S.Valid() && t < S.cfg.threads && o < S.cfg.objects
    ensures var w := EngineRuns.After(S, schedule);
            && t < |w.threads| && o < |w.cal.log|
            && (w.threads[t].mode == Stopped ==> Times(w.cal.log[o]) == ScheduledIn(S, schedule, o))
  {
    EngineRuns.AfterInv(S, schedule);
    var w := EngineRuns.After(S, schedule);
    DeliveredOrHeld(S, schedule, o);
    EngineRuns.StopsWithNothingLeft(S, schedule, t);
    if w.threads[t].mode == Stopped {
      NoSlotTimes(w.cal.queues[o]);
      NoWaitingTimes(w.cal.fallback, o);
    }
  }

  // ---- the events that are handled ----

  /** The event that a thread begins to handle for object o with action a. */
  ghost function Begun(S: Setting, w: World, a: Action, o: nat): seq<Event>
    requires Ready(S, w) && |Next(S, w, a).threads| == S.cfg.threads
  {
    if a.thread < S.cfg.threads && !w.threads[a.thread].mode.Handle? then
      var mode := Next(S, w, a).threads[a.thread].mode;
      if mode.Handle? && mode.target == o then [mode.event] else []
    else []
  }

  /** The events that the threads have handled for object o, or begun to, in this order. */
  ghost function Handled(S: Setting, w: World, schedule: seq<Action>, o: nat): seq<Event>
    requires Inv(S, w)
    decreases |schedule|
  {
    if schedule == [] then []
    else
      NextInv(S, w, schedule[0]);
      Begun(S, w, schedule[0], o) + Handled(S, Next(S, w, schedule[0]), schedule[1..], o)
  }

  /** A thread that handles an event handles what its object has extracted last. */
  ghost predicate HandlesLast(th: Thread, log: seq<seq<Event>>) {
    th.mode.Handle? ==>
      th.mode.target < |log| && log[th.mode.target] != [] && th.mode.event == log[th.mode.target][|log[th.mode.target]| - 1]
  }

  ghost predicate HandlingInv(w: World) {
    forall t | 0 <= t < |w.threads| :: HandlesLast(w.threads[t], w.cal.log)
  }

  lemma SendLogs(S: Setting, w: World, a: Action)
    requires Ready(S, w) && a.Send?
    ensures Next(S, w, a).threads == w.threads && Next(S, w, a).cal.log == w.cal.log
  {
  }

  lemma TakeLogsHead(S: Setting, w: World, t: nat, p: nat, o: nat)
    requires Ready(S, w) && t < S.cfg.threads && Extracts(S, w, t) && w.threads[t].mode == Look(p) && o < S.cfg.objects
    ensures var w' := Step(S, w, t);
            && |w'.threads| == S.cfg.threads && |w'.cal.log| == S.cfg.objects
            && w'.cal.log[o] == w.cal.log[o] + Begun(S, w, Go(t), o)
            && HandlesLast(w'.threads[t], w'.cal.log)
  {
  }

  /** A step that extracts nothing begins to handle nothing. */
  lemma OthersLogNothing(S: Setting, w: World, t: nat, o: nat)
    requires Ready(S, w) && t < S.cfg.threads && o < S.cfg.objects && !Extracts(S, w, t)
    requires w.threads[t].stage != Working ==> !w.threads[t].mode.Handle?
    ensures var w' := Step(S, w, t);
            && |w'.threads| == S.cfg.threads && w'.cal.log == w.cal.log && Begun(S, w, Go(t), o) == []
            && !w'.threads[t].mode.Handle?
  {
  }

  /** A step of thread t extracts exactly what the thread then handles. */
  lemma StepLogs(S: Setting, w: World, t: nat, o: nat)
    requires Inv(S, w) && t < S.cfg.threads && o < S.cfg.objects
    ensures var w' := Step(S, w, t);
            && |w'.threads| == S.cfg.threads && |w'.cal.log| == S.cfg.objects
            && w'.cal.log[o] == w.cal.log[o] + Begun(S, w, Go(t), o)
  {
    OneThread(S, w, t);
    if Extracts(S, w, t) {
      TakeLogsHead(S, w, t, w.threads[t].mode.target, o);
    } else {
      OthersLogNothing(S, w, t, o);
      assert w.cal.log[o] + [] == w.cal.log[o];
    }
  }

  /** What another thread is handling an event of stays as it is. */
  lemma OthersLogKept(S: Setting, w: World, t: nat, u: nat)
    requires Inv(S, w) && t < S.cfg.threads && u < S.cfg.threads && u != t && w.threads[u].mode.Handle?
    ensures var w', o := Step(S, w, t), w.threads[u].mode.target;
            && |w'.threads| == S.cfg.threads && |w'.cal.log| == S.cfg.objects
            && o < S.cfg.objects && w'.cal.log[o] == w.cal.log[o] && w'.threads[u] == w.threads[u]
  {
    var o := w.threads[u].mode.target;
    OneThread(S, w, t);
    OneThread(S, w, u);
    EngineRuns.HolderIs(S, w, t, o);
    EngineRuns.HolderIs(S, w, u, o);
    StepLogs(S, w, t, o);
    StepStands(S, w, t, u);
    NothingBegun(S, w, t, o);
    assert w.cal.log[o] + [] == w.cal.log[o];
  }

  lemma StepStands(S: Setting, w: World, t: nat, u: nat)
    requires Ready(S, w) && t < S.cfg.threads && u < S.cfg.threads && u != t
    ensures |Step(S, w, t).threads| == S.cfg.threads && Step(S, w, t).threads[u] == w.threads[u]
  {
  }

  /** A thread without the object begins to handle nothing for it. */
  lemma NothingBegun(S: Setting, w: World, t: nat, o: nat)
    requires Ready(S, w) && t < S.cfg.threads && |Step(S, w, t).threads| == S.cfg.threads && !Holds(w.threads[t], o)
    requires w.threads[t].stage != Working ==> !w.threads[t].mode.Handle?
    ensures Begun(S, w, Go(t), o) == []
  {
  }

  lemma MoverHandles(S: Setting, w: World, t: nat)
    requires Inv(S, w) && t < S.cfg.threads
    ensures var w' := Step(S, w, t); |w'.threads| == S.cfg.threads && HandlesLast(w'.threads[t], w'.cal.log)
  {
    OneThread(S, w, t);
    if Extracts(S, w, t) {
      TakeLogsHead(S, w, t, w.threads[t].mode.target, w.threads[t].mode.target);
    } else if 0 < S.cfg.objects {
      OthersLogNothing(S, w, t, 0);
    }
  }

  lemma BystanderHandles(S: Setting, w: World, t: nat, u: nat)
    requires Inv(S, w) && t < S.cfg.threads && u < S.cfg.threads && u != t && HandlesLast(w.threads[u], w.cal.log)
    ensures var w' := Step(S, w, t); |w'.threads| == S.cfg.threads && HandlesLast(w'.threads[u], w'.cal.log)
  {
    StepStands(S, w, t, u);
    if w.threads[u].mode.Handle? {
      OthersLogKept(S, w, t, u);
    }
  }

  lemma HandlingStep(S: Setting, w: World, a: Action)
    requires Inv(S, w) && HandlingInv(w)
    ensures HandlingInv(Next(S, w, a))
  {
    if a.Send? {
      SendLogs(S, w, a);
    } else if a.thread < S.cfg.threads {
      MoverHandles(S, w, a.thread);
      forall u | 0 <= u < S.cfg.threads ensures HandlesLast(Step(S, w, a.thread).threads[u], Step(S, w, a.thread).cal.log) {
        if u != a.thread {
          assert HandlesLast(w.threads[u], w.cal.log);
          BystanderHandles(S, w, a.thread, u);
        }
      }
    }
  }

  lemma {:induction false} HandlingRun(S: Setting, w: World, schedule: seq<Action>)
    requires Inv(S, w) && HandlingInv(w)
    ensures HandlingInv(Run(S, w, schedule))
    decreases |schedule|
  {
    if schedule != [] {
      NextInv(S, w, schedule[0]);
      HandlingStep(S, w, schedule[0]);
      HandlingRun(S, Next(S, w, schedule[0]), schedule[1..]);
    }
  }

  lemma ActionLogs(S: Setting, w: World, a: Action, o: nat)
    requires Inv(S, w) && o < S.cfg.objects
    ensures var w' := Next(S, w, a);
            && |w'.threads| == S.cfg.threads && |w'.cal.log| == S.cfg.objects
            && w'.cal.log[o] == w.cal.log[o] + Begun(S, w, a, o)
  {
    if a.Go? && a.thread < S.cfg.threads {
      StepLogs(S, w, a.thread, o);
    } else {
      NothingBegunHere(S, w, a, o);
      assert w.cal.log[o] + [] == w.cal.log[o];
    }
  }

  lemma NothingBegunHere(S: Setting, w: World, a: Action, o: nat)
    requires Ready(S, w) && (a.Send? || a.thread >= S.cfg.threads)
    ensures var w' := Next(S, w, a);
            |w'.threads| == S.cfg.threads && w'.cal.log == w.cal.log && Begun(S, w, a, o) == []
  {
  }

  lemma {:induction false} RunLogs(S: Setting, w: World, schedule: seq<Action>, o: nat)
    requires Inv(S, w) && o < S.cfg.objects
    ensures var w' := Run(S, w, schedule);
            |w'.cal.log| == S.cfg.objects && w'.cal.log[o] == w.cal.log[o] + Handled(S, w, schedule, o)
    decreases |schedule|
  {
    if schedule == [] {
      assert w.cal.log[o] + [] == w.cal.log[o];
    } else {
      NextInv(S, w, schedule[0]);
      var w' := Next(S, w, schedule[0]);
      ActionLogs(S, w, schedule[0], o);
      RunLogs(S, w', schedule[1..], o);
      Grouped(w.cal.log[o], Begun(S, w, schedule[0], o), Handled(S, w', schedule[1..], o));
    }
  }

  lemma Grouped(a: seq<Event>, b: seq<Event>, c: seq<Event>)
    ensures a + b + c == a + (b + c)
  {
  }

  /** In every reachable state a thread that handles an event for an object handles the one extracted
      last from the object's slot. */
  lemma HandlesLastExtracted(S: Setting, schedule: seq<Action>, t: nat)
    requires S.Valid() && t < S.cfg.threads
    ensures var w := EngineRuns.After(S, schedule); t < |w.threads| && HandlesLast(w.threads[t], w.cal.log)
  {
    StartInv(S);
    NobodyHandles(S);
    RunInv(S, Start(S), schedule);
    HandlingRun(S, Start(S), schedule);
    OneHandles(S, Run(S, Start(S), schedule), t);
  }

  lemma NobodyHandles(S: Setting)
    requires S.Valid()
    ensures HandlingInv(Start(S))
  {
  }

  lemma OneHandles(S: Setting, w: World, t: nat)
    requires Ready(S, w) && HandlingInv(w) && t < S.cfg.threads
    ensures t < |w.threads| && HandlesLast(w.threads[t], w.cal.log)
  {
  }

  /** Over every run the events handled for an object, by whatever threads, are those extracted from its
      slots, each once and in the same order. */
  lemma HandledIsExtracted(S: Setting, schedule: seq<Action>, o: nat)
    requires S.Valid() && o < S.cfg.objects
    ensures var w := EngineRuns.After(S, schedule);
            Inv(S, Start(S)) && o < |w.cal.log| && Handled(S, Start(S), schedule, o) == w.cal.log[o]
  {
    StartInv(S);
    RunLogs(S, Start(S), schedule, o);
    assert [] + Handled(S, Start(S), schedule, o) == Handled(S, Start(S), schedule, o);
  }

  /** When a thread stops, what has been handled for an object is what was scheduled for it: the same
      times, each as often, in their order. */
  lemma HandledAsScheduled(S: Setting, schedule: seq<Action>, t: nat, o: nat)
    requires S.Valid() && t < S.cfg.threads && o < S.cfg.objects
    ensures Inv(S, Start(S)) && t < |EngineRuns.After(S, schedule).threads|
    ensures var l := Handled(S, Start(S), schedule, o);
            && Ordered(l)
            && (EngineRuns.After(S, schedule).threads[t].mode == Stopped ==> Times(l) == ScheduledIn(S, schedule, o))
  {
    HandledIsExtracted(S, schedule, o);
    EngineRuns.ExtractedInOrder(S, schedule, o);
    AllDelivered(S, schedule, t, o);
  }
}
