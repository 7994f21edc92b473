/** How a simulation ends: `end` is set by the first `update_timing` that finds nothing pending and by
    nothing else, and then, under every fair schedule, all threads stop. */
module Ending {
  import opened CalendarQueue
  import opened CalendarDelivery
  import Keeps = CalendarInvariant
  import Delivery
  import opened Engine
  import Invariant = EngineInvariant
  import opened EngineBarrier
  import EngineRuns
  import opened EngineProgress
  import opened BarrierProgress

  /** No slot and no fallback list holds an event. */
  ghost predicate NothingHeld(c: Calendar) {
    && (forall o, s | 0 <= o < |c.queues| && 0 <= s < |c.queues[o]| :: c.queues[o][s] == [])
    && forall t | 0 <= t < |c.fallback| :: c.fallback[t] == []
  }

  lemma NothingPending(cfg: Config, c: Calendar)
    requires Keeps.Inv(cfg, c)
    ensures NothingHeld(c) <==> c.pending == 0
  {
    Keeps.PendingZero(cfg, c);
  }

  // ---- with the oracle ----

  /** The action is the call of `update_timing` at the end of an epoch, and finds no event. */
  ghost predicate FindsNothing(S: Setting, w: World, a: Action) {
    && a.Go? && a.thread < S.cfg.threads && a.thread < |w.threads| && w.threads[a.thread].stage == Timing
    && S.elect(w.threads[a.thread].round) == a.thread && NothingHeld(w.cal)
  }

  ghost predicate FoundNothing(S: Setting, w: World, schedule: seq<Action>)
    requires Invariant.Inv(S, w)
    decreases |schedule|
  {
    schedule != [] &&
      (FindsNothing(S, w, schedule[0]) ||
       (Invariant.NextInv(S, w, schedule[0]); FoundNothing(S, Next(S, w, schedule[0]), schedule[1..])))
  }

  lemma EndSet(S: Setting, w: World, a: Action)
    requires Ready(S, w) && (NothingHeld(w.cal) <==> w.cal.pending == 0)
    ensures Next(S, w, a).end <==> w.end || FindsNothing(S, w, a)
  {
  }

  lemma EndStep(S: Setting, w: World, a: Action)
    requires Invariant.Inv(S, w)
    ensures Next(S, w, a).end <==> w.end || FindsNothing(S, w, a)
  {
    NothingPending(S.cfg, w.cal);
    EndSet(S, w, a);
  }

  lemma {:induction false} EndRun(S: Setting, w: World, schedule: seq<Action>)
    requires Invariant.Inv(S, w)
    ensures Invariant.Run(S, w, schedule).end <==> w.end || FoundNothing(S, w, schedule)
    decreases |schedule|
  {
    if schedule != [] {
      Invariant.NextInv(S, w, schedule[0]);
      EndStep(S, w, schedule[0]);
      EndRun(S, Next(S, w, schedule[0]), schedule[1..]);
    }
  }

  /** In every reachable state `end` is set exactly if some `update_timing` of the run has found no event. */
  lemma EndsExactlyWhenEmpty(S: Setting, schedule: seq<Action>)
    requires S.Valid()
    ensures Invariant.Inv(S, Start(S))
    ensures EngineRuns.After(S, schedule).end <==> FoundNothing(S, Start(S), schedule)
  {
    Invariant.StartInv(S);
    EndRun(S, Start(S), schedule);
  }

  // ---- with the real barrier ----

  /** The action is the call of `update_timing` by the thread to which the barrier has returned 1, and finds
      no event. */
  ghost predicate ClosesEmpty(S: Setting, j: Joint, a: Action) {
    && a.Go? && a.thread < S.cfg.threads && a.thread < |j.world.threads| && a.thread < |j.bar.threads|
    && j.world.threads[a.thread].stage == Timing && Won(j.bar.threads[a.thread]) && NothingHeld(j.world.cal)
  }

  lemma JointEndSet(S: Setting, j: Joint, a: Action)
    requires JointReady(S, j) && (NothingHeld(j.world.cal) <==> j.world.cal.pending == 0)
    ensures JointNext(S, j, a).world.end <==> j.world.end || ClosesEmpty(S, j, a)
  {
  }

  ghost predicate ClosesEmptyAt(S: Setting, js: nat -> Joint, f: nat -> Action, n: nat) {
    ClosesEmpty(S, js(n), f(n))
  }

  lemma EndOfStep(S: Setting, js: nat -> Joint, f: nat -> Action, n: nat)
    requires Endless(S, js, f)
    ensures js(n + 1).world.end <==> js(n).world.end || ClosesEmptyAt(S, js, f, n)
  {
    var S' := EngineAt(S, js, f, n);
    assert Follows(S, js, f, n);
    NothingPending(S.cfg, js(n).world.cal);
    JointEndSet(S, js(n), f(n));
  }

  /** In every run with the real barrier `end` is set exactly if some `update_timing` has found no event. */
  lemma {:induction false} EndIsEmptyClose(S: Setting, js: nat -> Joint, f: nat -> Action, n: nat)
    requires Endless(S, js, f)
    ensures js(n).world.end <==> exists k: nat :: k < n && ClosesEmptyAt(S, js, f, k)
  {
    if n > 0 {
      EndIsEmptyClose(S, js, f, n - 1);
      EndOfStep(S, js, f, n - 1);
      if js(n).world.end && !js(n - 1).world.end {
        assert ClosesEmptyAt(S, js, f, n - 1);
      }
    }
  }

  // ---- then all threads stop ----

  lemma {:induction false} EndStays(S: Setting, js: nat -> Joint, f: nat -> Action, n: nat, m: nat)
    requires Endless(S, js, f) && js(n).world.end && n <= m
    ensures js(m).world.end
    decreases m - n
  {
    if n < m {
      EndStays(S, js, f, n, m - 1);
      EndOfStep(S, js, f, m - 1);
    }
  }

  /** Once `end` is set the set-up is over, and no thread gets to `update_timing` any more. */
  ghost predicate PastTiming(S: Setting, w: World, t: nat)
    requires t < |w.threads|
  {
    && !(w.threads[t].stage == Filling && w.threads[t].round == 0)
    && !(w.threads[t].stage == Timing && S.elect(w.threads[t].round) == t)
  }

  lemma EndedThread(S: Setting, w: World, t: nat)
    requires Invariant.Inv(S, w) && w.end && t < S.cfg.threads
    ensures PastTiming(S, w, t)
  {
    Invariant.OneThread(S, w, t);
  }

  lemma EpochKept(S: Setting, w: World, a: Action)
    requires Ready(S, w) && (a.thread < S.cfg.threads ==> PastTiming(S, w, a.thread))
    ensures Next(S, w, a).cal.epoch == w.cal.epoch
  {
  }

  lemma NoMoreTiming(S: Setting, S': Setting, j: Joint, a: Action)
    requires JointInv(S, j) && S' == S.(elect := S'.elect) && Invariant.Inv(S', j.world) && j.world.end
    requires Visible(S, j, a) ==> Next(S', j.world, a) == JointNext(S, j, a).world
    ensures !SetupSend(S, j.world, a) && JointNext(S, j, a).world.cal.epoch == j.world.cal.epoch
  {
    if a.thread < S.cfg.threads {
      EndedThread(S', j.world, a.thread);
    }
    if Visible(S, j, a) {
      EpochKept(S', j.world, a);
    } else {
      HiddenStep(S, j, a);
    }
  }

  lemma EndedStep(S: Setting, js: nat -> Joint, f: nat -> Action, n: nat)
    requires Endless(S, js, f) && js(n).world.end
    ensures NoSetupSend(S, js, f, n) && js(n + 1).world.cal.epoch == js(n).world.cal.epoch
  {
    var S' := EngineAt(S, js, f, n);
    assert Follows(S, js, f, n);
    NoMoreTiming(S, S', js(n), f(n));
  }

  lemma EndedSetup(S: Setting, js: nat -> Joint, f: nat -> Action, n: nat)
    requires Endless(S, js, f) && js(n).world.end
    ensures SetupOver(S, js, f, n)
  {
    forall m: nat | n <= m ensures NoSetupSend(S, js, f, m) {
      EndStays(S, js, f, n, m);
      EndedStep(S, js, f, m);
    }
  }

  lemma {:induction false} EpochStays(S: Setting, js: nat -> Joint, f: nat -> Action, n: nat, m: nat)
    requires Endless(S, js, f) && js(n).world.end && n <= m
    ensures js(m).world.cal.epoch == js(n).world.cal.epoch
    decreases m - n
  {
    if n < m {
      EpochStays(S, js, f, n, m - 1);
      EndStays(S, js, f, n, m - 1);
      EndedStep(S, js, f, m - 1);
    }
  }

  lemma StoppedThread(S: Setting, w: World, t: nat)
    requires Invariant.Inv(S, w) && AllStopped(w) && t < S.cfg.threads
    ensures w.threads[t].stage == Working && w.threads[t].mode == Stopped && w.end
  {
    Invariant.OneThread(S, w, t);
  }

  /** Stopped threads do nothing any more, and nobody schedules. */
  lemma StoppedNext(S: Setting, j: Joint, a: Action)
    requires JointReady(S, j)
    requires a.thread < S.cfg.threads ==> j.world.threads[a.thread].stage == Working && j.world.threads[a.thread].mode == Stopped
    ensures JointNext(S, j, a) == j
  {
  }

  lemma StoppedStep(S: Setting, js: nat -> Joint, f: nat -> Action, n: nat)
    requires Endless(S, js, f) && AllStopped(js(n).world)
    ensures js(n + 1) == js(n)
  {
    var S' := EngineAt(S, js, f, n);
    assert Follows(S, js, f, n);
    if f(n).thread < S.cfg.threads {
      StoppedThread(S', js(n).world, f(n).thread);
    }
    StoppedNext(S, js(n), f(n));
  }

  lemma {:induction false} StoppedStays(S: Setting, js: nat -> Joint, f: nat -> Action, n: nat, m: nat)
    requires Endless(S, js, f) && AllStopped(js(n).world) && n <= m
    ensures js(m) == js(n)
    decreases m - n
  {
    if n < m {
      StoppedStays(S, js, f, n, m - 1);
      StoppedStep(S, js, f, m - 1);
    }
  }

  /** From the m-th action on all threads have stopped. */
  ghost predicate StoppedFrom(js: nat -> Joint, m: nat) {
    forall k: nat | m <= k :: AllStopped(js(k).world)
  }

  /** Once `end` is set all threads stop, under every fair schedule of single accesses. */
  lemma EndStops(S: Setting, js: nat -> Joint, f: nat -> Action, n: nat) returns (m: nat)
    requires Endless(S, js, f) && Fair(S, f) && js(n).world.end
    ensures n <= m && StoppedFrom(js, m)
  {
    EndedSetup(S, js, f, n);
    assert NoSetupSend(S, js, f, n);
    m := EpochEnds(S, js, f, n);
    EpochStays(S, js, f, n, m);
    forall k: nat | m <= k ensures AllStopped(js(k).world) {
      StoppedStays(S, js, f, m, k);
    }
  }

  /** A thread stops only when `end` is set. */
  lemma StopNeedsEnd(S: Setting, js: nat -> Joint, f: nat -> Action, n: nat)
    requires Endless(S, js, f) && AllStopped(js(n).world)
    ensures js(n).world.end
  {
    var S' := EngineAt(S, js, f, n);
    StoppedThread(S', js(n).world, 0);
  }

  /** In every fair endless run all threads have stopped from some action on exactly if some
      `update_timing` has found no event. */
  lemma StopsExactlyWhenEmpty(S: Setting, js: nat -> Joint, f: nat -> Action)
    requires Endless(S, js, f) && Fair(S, f)
    ensures (exists m: nat :: StoppedFrom(js, m)) <==> (exists n: nat :: ClosesEmptyAt(S, js, f, n))
  {
    if m: nat :| StoppedFrom(js, m) {
      assert AllStopped(js(m).world);
      StopNeedsEnd(S, js, f, m);
      EndIsEmptyClose(S, js, f, m);
    }
    if n: nat :| ClosesEmptyAt(S, js, f, n) {
      EndOfStep(S, js, f, n);
      var m := EndStops(S, js, f, n + 1);
    }
  }

  // ---- and everything scheduled has been delivered ----

  /** The times that the first n actions schedule for object o. */
  ghost function ScheduledBy(S: Setting, js: nat -> Joint, f: nat -> Action, n: nat, o: nat): multiset<nat>
    requires Endless(S, js, f)
  {
    if n == 0 then multiset{}
    else
      assert Follows(S, js, f, n - 1);
      ScheduledBy(S, js, f, n - 1, o) +
      if Delivery.Schedules(S, js(n - 1).world, f(n - 1), o) then multiset{f(n - 1).ts} else multiset{}
  }

  lemma SameSchedules(S: Setting, S': Setting, w: World, a: Action, o: nat)
    requires Ready(S, w) && Ready(S', w) && S' == S.(elect := S'.elect)
    ensures Delivery.Schedules(S', w, a, o) == Delivery.Schedules(S, w, a, o)
  {
  }

  lemma DeliversAt(S: Setting, js: nat -> Joint, f: nat -> Action, n: nat, o: nat, x: nat)
    requires Endless(S, js, f) && o < S.cfg.objects
    ensures JointReady(S, js(n)) && JointReady(S, js(n + 1))
    ensures HeldTimes(js(n + 1).world.cal, o)[x] == HeldTimes(js(n).world.cal, o)[x] +
            One(Delivery.Schedules(S, js(n).world, f(n), o) && f(n).Send? && f(n).ts == x)
  {
    var S' := EngineAt(S, js, f, n);
    assert Follows(S, js, f, n) && Follows(S, js, f, n + 1);
    if Visible(S, js(n), f(n)) {
      Delivery.ActionDelivers(S', js(n).world, f(n), o, x);
      SameSchedules(S, S', js(n).world, f(n), o);
    } else {
      HiddenStep(S, js(n), f(n));
    }
  }

  lemma ScheduledMore(S: Setting, js: nat -> Joint, f: nat -> Action, n: nat, o: nat, x: nat)
    requires Endless(S, js, f) && JointReady(S, js(n))
    ensures ScheduledBy(S, js, f, n + 1, o)[x] == ScheduledBy(S, js, f, n, o)[x] +
            One(Delivery.Schedules(S, js(n).world, f(n), o) && f(n).Send? && f(n).ts == x)
  {
  }

  lemma DeliveredAtStart(S: Setting, js: nat -> Joint, f: nat -> Action, o: nat)
    requires Endless(S, js, f) && o < S.cfg.objects
    ensures JointReady(S, js(0)) && HeldTimes(js(0).world.cal, o) == multiset{}
  {
    assert Follows(S, js, f, 0);
    Delivery.NothingAtStart(S, o);
  }

  ghost predicate DeliveredAt(S: Setting, js: nat -> Joint, f: nat -> Action, n: nat, o: nat, x: nat)
    requires Endless(S, js, f) && o < S.cfg.objects
  {
    |js(n).world.cal.log| == |js(n).world.cal.queues| == S.cfg.objects &&
    HeldTimes(js(n).world.cal, o)[x] == ScheduledBy(S, js, f, n, o)[x]
  }

  lemma DeliveredNext(S: Setting, js: nat -> Joint, f: nat -> Action, n: nat, o: nat, x: nat)
    requires Endless(S, js, f) && o < S.cfg.objects && DeliveredAt(S, js, f, n, o, x)
    ensures DeliveredAt(S, js, f, n + 1, o, x)
  {
    DeliversAt(S, js, f, n, o, x);
    ScheduledMore(S, js, f, n, o, x);
  }

  lemma {:induction false} DeliveredBy(S: Setting, js: nat -> Joint, f: nat -> Action, n: nat, o: nat, x: nat)
    requires Endless(S, js, f) && o < S.cfg.objects
    ensures DeliveredAt(S, js, f, n, o, x)
  {
    if n == 0 {
      DeliveredAtStart(S, js, f, o);
    } else {
      DeliveredBy(S, js, f, n - 1, o, x);
      DeliveredNext(S, js, f, n - 1, o, x);
    }
  }

  /** If some epoch of a fair endless run with the real barrier closes with no event left, then from some
      action on all threads have stopped and each object has extracted exactly the times scheduled for it. */
  lemma RunIsComplete(S: Setting, js: nat -> Joint, f: nat -> Action, n: nat, o: nat) returns (m: nat)
    requires Endless(S, js, f) && Fair(S, f) && ClosesEmptyAt(S, js, f, n) && o < S.cfg.objects
    ensures n < m && StoppedFrom(js, m) && o < |js(m).world.cal.log|
    ensures Times(js(m).world.cal.log[o]) == ScheduledBy(S, js, f, m, o)
  {
    EndOfStep(S, js, f, n);
    m := EndStops(S, js, f, n + 1);
    assert AllStopped(js(m).world);
    StopNeedsEnd(S, js, f, m);
    NothingWaits(S, js, f, m, o);
    forall x: nat ensures Times(js(m).world.cal.log[o])[x] == ScheduledBy(S, js, f, m, o)[x] {
      DeliveredBy(S, js, f, m, o, x);
    }
  }

  lemma NothingWaits(S: Setting, js: nat -> Joint, f: nat -> Action, n: nat, o: nat)
    requires Endless(S, js, f) && js(n).world.end && o < S.cfg.objects
    ensures JointReady(S, js(n)) && HeldTimes(js(n).world.cal, o) == Times(js(n).world.cal.log[o])
  {
    var S' := EngineAt(S, js, f, n);
    NothingPending(S.cfg, js(n).world.cal);
    NoSlotTimes(js(n).world.cal.queues[o]);
    NoWaitingTimes(js(n).world.cal.fallback, o);
  }
}
