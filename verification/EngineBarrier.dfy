/** The worker threads with the real barrier: every thread between two stages performs the accesses of
    module Barrier one by one, and the thread to which the barrier has returned 1 runs
    `update_timing`.  Module Engine has a guard and an oracle in their place; here every interleaving of
    the accesses is shown to be a run of module Engine. */
module EngineBarrier {
  import opened CalendarQueue
  import Keeps = CalendarInvariant
  import opened Engine
  import opened EngineInvariant
  import Barrier
  import EngineRuns

  datatype Joint = Joint(world: World, bar: Barrier.State)

  /** How many barriers a thread has left. */
  function Left(th: Thread): nat {
    3 * th.round + if th.stage in {Filling, FillDone} then 0 else if th.stage in {Working, WorkDone} then 1 else 2
  }

  lemma ProgressIsLeft(th: Thread)
    ensures Progress(th) == 2 * Left(th) + if Waiting(th.stage) then 1 else 0
  {
  }

  /** The value of the thread's last call of `barrier`. */
  predicate Won(b: Barrier.Thread) {
    b.returned != [] && b.returned[|b.returned| - 1]
  }

  /** A thread is inside the barrier only where the engine has it waiting, and has left as many calls
      as the engine has it past. */
  predicate InStep(th: Thread, b: Barrier.Thread) {
    |b.returned| == Left(th) && (b.pc != Barrier.Outside ==> Waiting(th.stage))
  }

  ghost predicate JointInv(S: Setting, j: Joint) {
    && Ready(S, j.world) && Barrier.Inv(j.bar) && |j.bar.threads| == S.cfg.threads
    && forall t | 0 <= t < S.cfg.threads :: InStep(j.world.threads[t], j.bar.threads[t])
  }

  ghost function JointStart(S: Setting): Joint
    requires S.Valid()
  {
    Joint(Start(S), Barrier.Initial(S.cfg.threads))
  }

  /** A waiting thread performs its next access to the barrier's counters; the last one lets it out. */
  ghost function JointNext(S: Setting, j: Joint, a: Action): Joint
    requires Ready(S, j.world) && |j.bar.threads| == S.cfg.threads
  {
    if a.thread >= S.cfg.threads then j
    else match a
      case Send(_, _, _) => j.(world := Next(S, j.world, a))
      case Go(t) =>
        var th, b := j.world.threads[t], j.bar.threads[t];
        if Waiting(th.stage) then
          Joint(if b.pc == Barrier.Depart then Leave(S, j.world, t) else j.world, Barrier.Next(j.bar, t))
        else if th.stage == Timing then j.(world := Time(S, j.world, t, Won(b)))
        else j.(world := Step(S, j.world, t))
  }

  /** The choice of the winners in place of the oracle: the barrier at the end of an epoch is every third
      one, from the second on. */
  function Elected(S: Setting, winners: seq<nat>): Setting {
    S.(elect := (r: nat) => if 3 * r + 1 < |winners| && winners[3 * r + 1] < S.cfg.threads then winners[3 * r + 1] else 0)
  }

  /** Whether an action is one that module Engine has: not an access inside the barrier. */
  ghost predicate Visible(S: Setting, j: Joint, a: Action)
    requires Ready(S, j.world) && |j.bar.threads| == S.cfg.threads
  {
    a.Go? && a.thread < S.cfg.threads && Waiting(j.world.threads[a.thread].stage) ==>
      j.bar.threads[a.thread].pc == Barrier.Depart
  }

  // ---- the guard ----

  lemma NotBehind(p: Thread, b: Barrier.Thread, q: Thread, c: Barrier.Thread)
    requires InStep(p, b) && InStep(q, c) && b.pc == Barrier.Depart && |c.returned| >= |b.returned|
    requires |c.returned| == |b.returned| ==> c.pc in {Barrier.AwaitAll, Barrier.Depart}
    ensures Waiting(p.stage) && Progress(q) >= Progress(p)
  {
    ProgressIsLeft(p);
    ProgressIsLeft(q);
  }

  /** A thread that the barrier lets out finds every other thread inside or past this barrier. */
  lemma DepartMayLeave(S: Setting, j: Joint, t: nat)
    requires JointInv(S, j) && t < S.cfg.threads && j.bar.threads[t].pc == Barrier.Depart
    ensures Waiting(j.world.threads[t].stage) && MayLeave(j.world, t)
  {
    forall u | 0 <= u < S.cfg.threads
      ensures Waiting(j.world.threads[t].stage) && Progress(j.world.threads[u]) >= Progress(j.world.threads[t])
    {
      Barrier.OthersInside(j.bar, t, u);
      NotBehind(j.world.threads[t], j.bar.threads[t], j.world.threads[u], j.bar.threads[u]);
    }
  }

  // ---- the oracle ----

  /** Between two barriers, a thread has got 1 from the last one exactly if it opened that round. */
  lemma WonIsElected(S: Setting, j: Joint, t: nat, winners: seq<nat>)
    requires JointInv(S, j) && t < S.cfg.threads && j.world.threads[t].stage == Timing && j.bar.winners <= winners
    ensures Won(j.bar.threads[t]) <==> Elected(S, winners).elect(j.world.threads[t].round) == t
  {
    var b, r := j.bar.threads[t], j.world.threads[t].round;
    assert InStep(j.world.threads[t], b);
    assert |b.returned| == 3 * r + 2;
    assert Barrier.HistoryOk(b.returned, t, j.bar.winners);
    assert j.bar.winners[3 * r + 1] == winners[3 * r + 1];
  }

  // ---- runs ----

  lemma PutReady(S: Setting, w: World, t: nat, destination: nat, ts: nat)
    requires Ready(S, w) && t < S.cfg.threads && destination < S.cfg.objects
    ensures Ready(S, w.(cal := Put(S.cfg, w.cal, t, destination, ts)))
  {
  }

  lemma RefillReady(S: Setting, w: World, t: nat)
    requires Ready(S, w) && t < S.cfg.threads && w.cal.cursor[t] < |w.cal.fallback[t]|
    ensures Ready(S, w.(cal := Refill(S.cfg, w.cal, t)))
  {
  }

  lemma WorkReady(S: Setting, w: World, t: nat)
    requires Ready(S, w) && t < S.cfg.threads && w.threads[t].stage == Working
    ensures Ready(S, Work(S, w, t))
  {
    var th := w.threads[t];
    if th.mode in {Seek, Again} {
      TargetReady(S, th, w.counters[th.node]);
    }
  }

  lemma StepReady(S: Setting, w: World, t: nat)
    requires Ready(S, w) && t < S.cfg.threads && w.threads[t].stage in {Filling, Working}
    ensures Ready(S, Step(S, w, t))
  {
    if w.threads[t].stage == Working {
      WorkReady(S, w, t);
    } else if w.threads[t].round > 0 && w.cal.cursor[t] < |w.cal.fallback[t]| {
      RefillReady(S, w, t);
    }
  }

  lemma BarrierReady(S: Setting, w: World, t: nat, won: bool)
    requires Ready(S, w) && t < S.cfg.threads
    ensures Ready(S, Leave(S, w, t)) && (w.threads[t].stage == Timing ==> Ready(S, Time(S, w, t, won)))
  {
  }

  lemma ActionReady(S: Setting, j: Joint, a: Action)
    requires Ready(S, j.world) && |j.bar.threads| == S.cfg.threads
    ensures Ready(S, JointNext(S, j, a).world)
  {
    if a.thread < S.cfg.threads {
      match a
      case Send(t, destination, ts) =>
        if destination < S.cfg.objects {
          PutReady(S, j.world, t, destination, ts);
        }
      case Go(t) =>
        BarrierReady(S, j.world, t, Won(j.bar.threads[t]));
        if j.world.threads[t].stage in {Filling, Working} {
          StepReady(S, j.world, t);
        }
    }
  }

  lemma OthersStand(S: Setting, w: World, t: nat, u: nat, won: bool)
    requires Ready(S, w) && t < S.cfg.threads && u < S.cfg.threads && u != t
    ensures |Step(S, w, t).threads| == |Leave(S, w, t).threads| == |Time(S, w, t, won).threads| == S.cfg.threads
    ensures Step(S, w, t).threads[u] == Leave(S, w, t).threads[u] == Time(S, w, t, won).threads[u] == w.threads[u]
  {
  }

  /** Outside the barrier a thread stays between the same two barriers. */
  lemma StepStaysBetween(S: Setting, w: World, t: nat)
    requires Ready(S, w) && t < S.cfg.threads && w.threads[t].stage in {Filling, Working}
    ensures |Step(S, w, t).threads| == S.cfg.threads && Left(Step(S, w, t).threads[t]) == Left(w.threads[t])
  {
  }

  lemma AccessInStep(S: Setting, j: Joint, t: nat)
    requires JointInv(S, j) && t < S.cfg.threads && Waiting(j.world.threads[t].stage)
    ensures var j' := JointNext(S, j, Go(t));
            && |j'.world.threads| == |j'.bar.threads| == S.cfg.threads
            && InStep(j'.world.threads[t], j'.bar.threads[t])
  {
    assert InStep(j.world.threads[t], j.bar.threads[t]);
  }

  lemma MoverInStep(S: Setting, j: Joint, t: nat)
    requires JointInv(S, j) && t < S.cfg.threads
    ensures var j' := JointNext(S, j, Go(t));
            && |j'.world.threads| == |j'.bar.threads| == S.cfg.threads
            && InStep(j'.world.threads[t], j'.bar.threads[t])
  {
    assert InStep(j.world.threads[t], j.bar.threads[t]);
    if Waiting(j.world.threads[t].stage) {
      AccessInStep(S, j, t);
    } else if j.world.threads[t].stage != Timing {
      StepStaysBetween(S, j.world, t);
    }
  }

  lemma ThreadsAfter(S: Setting, j: Joint, a: Action, u: nat)
    requires JointInv(S, j) && u < S.cfg.threads
    ensures var j' := JointNext(S, j, a);
            && |j'.world.threads| == |j'.bar.threads| == S.cfg.threads
            && InStep(j'.world.threads[u], j'.bar.threads[u])
  {
    if a.Go? && a.thread == u {
      MoverInStep(S, j, u);
    } else if a.Go? && a.thread < S.cfg.threads {
      OtherInStep(S, j, a.thread, u);
    } else {
      SendStands(S, j, a);
      assert InStep(j.world.threads[u], j.bar.threads[u]);
    }
  }

  lemma OtherInStep(S: Setting, j: Joint, t: nat, u: nat)
    requires JointInv(S, j) && t < S.cfg.threads && u < S.cfg.threads && u != t
    ensures var j' := JointNext(S, j, Go(t));
            && |j'.world.threads| == |j'.bar.threads| == S.cfg.threads
            && InStep(j'.world.threads[u], j'.bar.threads[u])
  {
    OthersStand(S, j.world, t, u, Won(j.bar.threads[t]));
    assert InStep(j.world.threads[u], j.bar.threads[u]);
  }

  lemma SendStands(S: Setting, j: Joint, a: Action)
    requires Ready(S, j.world) && |j.bar.threads| == S.cfg.threads && (a.Send? || a.thread >= S.cfg.threads)
    ensures JointNext(S, j, a).world.threads == j.world.threads && JointNext(S, j, a).bar == j.bar
  {
  }

  lemma BarrierKept(S: Setting, j: Joint, a: Action)
    requires Ready(S, j.world) && Barrier.Inv(j.bar) && |j.bar.threads| == S.cfg.threads
    ensures Barrier.Inv(JointNext(S, j, a).bar) && |JointNext(S, j, a).bar.threads| == S.cfg.threads
  {
    if a.Go? && a.thread < S.cfg.threads && Waiting(j.world.threads[a.thread].stage) {
      Barrier.StepInv(j.bar, a.thread);
    }
  }

  lemma JointNextInv(S: Setting, j: Joint, a: Action)
    requires JointInv(S, j)
    ensures JointInv(S, JointNext(S, j, a))
  {
    ActionReady(S, j, a);
    BarrierKept(S, j, a);
    forall u | 0 <= u < S.cfg.threads
      ensures InStep(JointNext(S, j, a).world.threads[u], JointNext(S, j, a).bar.threads[u])
    {
      ThreadsAfter(S, j, a, u);
    }
  }

  lemma JointStartInv(S: Setting)
    requires S.Valid()
    ensures JointInv(S, JointStart(S))
  {
    StartReady(S);
    Barrier.InitialInv(S.cfg.threads);
  }

  ghost function JointRun(S: Setting, j: Joint, schedule: seq<Action>): Joint
    requires JointInv(S, j)
    decreases |schedule|
  {
    if schedule == [] then j
    else
      JointNextInv(S, j, schedule[0]);
      JointRun(S, JointNext(S, j, schedule[0]), schedule[1..])
  }

  /** The actions of a schedule that module Engine has. */
  ghost function Shown(S: Setting, j: Joint, schedule: seq<Action>): seq<Action>
    requires JointInv(S, j)
    decreases |schedule|
  {
    if schedule == [] then []
    else
      JointNextInv(S, j, schedule[0]);
      (if Visible(S, j, schedule[0]) then [schedule[0]] else []) + Shown(S, JointNext(S, j, schedule[0]), schedule[1..])
  }

  lemma WinnersGrow(S: Setting, j: Joint, a: Action)
    requires JointInv(S, j)
    ensures j.bar.winners <= JointNext(S, j, a).bar.winners
  {
  }

  lemma {:induction false} WinnersStay(S: Setting, j: Joint, schedule: seq<Action>)
    requires JointInv(S, j)
    ensures j.bar.winners <= JointRun(S, j, schedule).bar.winners
    decreases |schedule|
  {
    if schedule != [] {
      JointNextInv(S, j, schedule[0]);
      WinnersGrow(S, j, schedule[0]);
      WinnersStay(S, JointNext(S, j, schedule[0]), schedule[1..]);
    }
  }

  /** Outside the barriers nobody consults the oracle. */
  lemma SameStep(S: Setting, winners: seq<nat>, w: World, t: nat)
    requires Ready(S, w) && Ready(Elected(S, winners), w) && t < S.cfg.threads
    ensures w.threads[t].stage in {Filling, Working} ==> Step(Elected(S, winners), w, t) == Step(S, w, t)
    ensures Leave(Elected(S, winners), w, t) == Leave(S, w, t)
  {
  }

  /** An action that shows is the engine's. */
  lemma ShownStep(S: Setting, j: Joint, a: Action, winners: seq<nat>)
    requires JointInv(S, j) && Ready(Elected(S, winners), j.world) && Visible(S, j, a) && j.bar.winners <= winners
    ensures Next(Elected(S, winners), j.world, a) == JointNext(S, j, a).world
  {
    if a.Go? && a.thread < S.cfg.threads {
      SameStep(S, winners, j.world, a.thread);
      if Waiting(j.world.threads[a.thread].stage) {
        DepartMayLeave(S, j, a.thread);
      } else if j.world.threads[a.thread].stage == Timing {
        WonIsElected(S, j, a.thread, winners);
      }
    }
  }

  lemma HiddenStep(S: Setting, j: Joint, a: Action)
    requires JointInv(S, j) && !Visible(S, j, a)
    ensures JointNext(S, j, a).world == j.world
  {
  }

  lemma RunCons(S: Setting, w: World, a: Action, rest: seq<Action>)
    requires Inv(S, w)
    ensures Inv(S, Next(S, w, a)) && Run(S, w, [a] + rest) == Run(S, Next(S, w, a), rest)
  {
    NextInv(S, w, a);
    assert ([a] + rest)[1..] == rest;
  }

  /** The engine's run for one joint action and what follows. */
  lemma SimulatesOne(S: Setting, j: Joint, a: Action, rest: seq<Action>, winners: seq<nat>)
    requires JointInv(S, j) && Inv(Elected(S, winners), j.world) && j.bar.winners <= winners
    ensures var S', w := Elected(S, winners), JointNext(S, j, a).world;
            Inv(S', w) && Run(S', j.world, (if Visible(S, j, a) then [a] else []) + rest) == Run(S', w, rest)
  {
    if Visible(S, j, a) {
      ShownStep(S, j, a, winners);
      RunCons(Elected(S, winners), j.world, a, rest);
    } else {
      HiddenStep(S, j, a);
      assert [] + rest == rest;
    }
  }

  lemma {:induction false} Simulates(S: Setting, j: Joint, schedule: seq<Action>, winners: seq<nat>)
    requires JointInv(S, j) && Inv(Elected(S, winners), j.world) && JointRun(S, j, schedule).bar.winners <= winners
    ensures Run(Elected(S, winners), j.world, Shown(S, j, schedule)) == JointRun(S, j, schedule).world
    decreases |schedule|
  {
    if schedule != [] {
      JointNextInv(S, j, schedule[0]);
      WinnersStay(S, j, schedule);
      var j' := JointNext(S, j, schedule[0]);
      SimulatesOne(S, j, schedule[0], Shown(S, j', schedule[1..]), winners);
      Simulates(S, j', schedule[1..], winners);
    }
  }

  ghost function JointAfter(S: Setting, schedule: seq<Action>): Joint
    requires S.Valid()
  {
    JointStartInv(S);
    JointRun(S, JointStart(S), schedule)
  }

  lemma {:induction false} JointRunInv(S: Setting, j: Joint, schedule: seq<Action>)
    requires JointInv(S, j)
    ensures JointInv(S, JointRun(S, j, schedule))
    decreases |schedule|
  {
    if schedule != [] {
      JointNextInv(S, j, schedule[0]);
      JointRunInv(S, JointNext(S, j, schedule[0]), schedule[1..]);
    }
  }

  lemma ElectedIsSetting(S: Setting, winners: seq<nat>)
    requires S.Valid()
    ensures Elected(S, winners).Valid() && Elected(S, winners) == S.(elect := Elected(S, winners).elect)
    ensures Start(Elected(S, winners)) == Start(S)
  {
  }

  lemma SimulatesAll(S: Setting, schedule: seq<Action>, winners: seq<nat>)
    requires S.Valid() && winners == JointAfter(S, schedule).bar.winners
    ensures JointInv(S, JointStart(S)) && Elected(S, winners).Valid()
    ensures EngineRuns.After(Elected(S, winners), Shown(S, JointStart(S), schedule)) == JointAfter(S, schedule).world
  {
    JointStartInv(S);
    ElectedIsSetting(S, winners);
    StartInv(Elected(S, winners));
    Simulates(S, JointStart(S), schedule, winners);
  }

  lemma WinnersAreThreads(S: Setting, schedule: seq<Action>, r: nat)
    requires S.Valid()
    ensures var winners := JointAfter(S, schedule).bar.winners;
            3 * r + 1 < |winners| ==> Elected(S, winners).elect(r) == winners[3 * r + 1]
  {
    JointStartInv(S);
    JointRunInv(S, JointStart(S), schedule);
  }

  /** Every run with the real barrier is a run of module Engine, for the oracle that names its winners. */
  lemma BarrierRefinesGuard(S: Setting, schedule: seq<Action>) returns (S': Setting, shown: seq<Action>)
    requires S.Valid()
    ensures S' == S.(elect := S'.elect) && S'.Valid() && EngineRuns.After(S', shown) == JointAfter(S, schedule).world
    ensures forall r: nat | 3 * r + 1 < |JointAfter(S, schedule).bar.winners| ::
              S'.elect(r) == JointAfter(S, schedule).bar.winners[3 * r + 1]
  {
    var winners := JointAfter(S, schedule).bar.winners;
    SimulatesAll(S, schedule, winners);
    ElectedIsSetting(S, winners);
    S', shown := Elected(S, winners), Shown(S, JointStart(S), schedule);
    forall r: nat | 3 * r + 1 < |winners| ensures S'.elect(r) == winners[3 * r + 1] {
      WinnersAreThreads(S, schedule, r);
    }
  }

  /** So what the engine promises holds with the real barrier: events are extracted in order, no object is
      with two threads, and a thread that stops leaves nothing behind. */
  lemma WithRealBarrier(S: Setting, schedule: seq<Action>, t: nat, u: nat, o: nat)
    requires S.Valid() && t < S.cfg.threads && u < S.cfg.threads && o < S.cfg.objects
    ensures var w := JointAfter(S, schedule).world;
            && |w.threads| == S.cfg.threads && o < |w.cal.log| && Ordered(w.cal.log[o])
            && (Holds(w.threads[t], o) && Holds(w.threads[u], o) ==> t == u)
            && (w.threads[t].mode == Stopped ==> w.cal.stamp == Keeps.Sum(w.cal.log))
  {
    var S', shown := BarrierRefinesGuard(S, schedule);
    EngineRuns.ExtractedInOrder(S', shown, o);
    EngineRuns.NobodyShares(S', shown, t, u, o);
    EngineRuns.StopsWithNothingLeft(S', shown, t);
  }
}
