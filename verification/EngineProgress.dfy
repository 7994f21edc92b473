/** A measure for the progress of the worker threads within an epoch: every step that changes anything
    lowers it or ends the epoch, and one can always be made until all threads have stopped.  Module
    BarrierProgress draws the conclusion for fair schedules. */
module EngineProgress {
  import opened CalendarQueue
  import Keeps = CalendarInvariant
  import opened Engine
  import opened EngineInvariant
  import EngineRuns

  // ---- a measure for one epoch ----

  /** In the order of their weight: the stages to go, the events to pass in the fallback lists, the
      objects not given out, the events in the current slots, and the modes to go. */
  datatype Measure = Measure(stages: nat, waiting: nat, ungiven: nat, current: nat, modes: nat)

  predicate Less(m: Measure, n: Measure) {
    || m.stages < n.stages
    || (m.stages == n.stages && m.waiting < n.waiting)
    || (m.stages == n.stages && m.waiting == n.waiting && m.ungiven < n.ungiven)
    || (m.stages == n.stages && m.waiting == n.waiting && m.ungiven == n.ungiven && m.current < n.current)
    || (m.stages == n.stages && m.waiting == n.waiting && m.ungiven == n.ungiven && m.current == n.current && m.modes < n.modes)
  }

  function Total(s: seq<nat>): nat {
    if s == [] then 0 else s[0] + Total(s[1..])
  }

  lemma {:induction false} TotalUpdate(s: seq<nat>, i: nat, x: nat)
    requires i < |s|
    ensures Total(s[i := x]) == Total(s) - s[i] + x
  {
    if i > 0 {
      assert s[i := x][1..] == s[1..][i - 1 := x];
      TotalUpdate(s[1..], i - 1, x);
    } else {
      assert s[i := x][1..] == s[1..];
    }
  }

  function Minus(a: nat, b: nat): nat {
    if b <= a then a - b else 0
  }

  /** No thread gets past the barrier behind `update_timing` before that has run. */
  function StagesToGo(ths: seq<Thread>, epoch: nat): (s: seq<nat>)
    ensures |s| == |ths|
  {
    seq(|ths|, t requires 0 <= t < |ths| => Minus(6 * epoch + 6, Progress(ths[t])))
  }

  function WaitingEvents(fallback: seq<seq<Event>>, cursor: seq<nat>): (s: seq<nat>)
    requires |fallback| == |cursor|
    ensures |s| == |fallback|
  {
    seq(|fallback|, t requires 0 <= t < |fallback| => Minus(|fallback[t]|, cursor[t]))
  }

  function Ungiven(count: seq<nat>, counters: seq<nat>): (s: seq<nat>)
    requires |count| == |counters|
    ensures |s| == |count|
  {
    seq(|count|, v requires 0 <= v < |count| => Minus(count[v], counters[v]))
  }

  function CurrentEvents(queues: seq<seq<seq<Event>>>, index: nat): (s: seq<nat>)
    ensures |s| == |queues|
  {
    seq(|queues|, o requires 0 <= o < |queues| => if index < |queues[o]| then |queues[o][index]| else 0)
  }

  function ModeToGo(th: Thread, nodes: nat): nat {
    match th.mode
    case Idle => 0
    case Stopped => 0
    case Exhausted => 1
    case Seek => 2 + Minus(nodes, th.steals)
    case Again => 3 + Minus(nodes, th.steals)
    case Look(_) => 4 + Minus(nodes, th.steals)
    case Handle(_, _) => 5 + Minus(nodes, th.steals)
  }

  function ModesToGo(ths: seq<Thread>, nodes: nat): (s: seq<nat>)
    ensures |s| == |ths|
  {
    seq(|ths|, t requires 0 <= t < |ths| => ModeToGo(ths[t], nodes))
  }

  ghost function MeasureOf(S: Setting, w: World): Measure
    requires Ready(S, w)
  {
    Measure(Total(StagesToGo(w.threads, w.cal.epoch)), Total(WaitingEvents(w.cal.fallback, w.cal.cursor)),
            Total(Ungiven(S.count, w.counters)), Total(CurrentEvents(w.cal.queues, w.cal.index)),
            Total(ModesToGo(w.threads, |S.count|)))
  }

  // ---- how each part moves ----

  lemma StageMoved(ths: seq<Thread>, t: nat, th: Thread, epoch: nat)
    requires t < |ths| && Progress(ths[t]) < Progress(th) <= 6 * epoch + 6
    ensures Total(StagesToGo(ths[t := th], epoch)) < Total(StagesToGo(ths, epoch))
  {
    TotalUpdate(StagesToGo(ths, epoch), t, 6 * epoch + 6 - Progress(th));
    assert StagesToGo(ths[t := th], epoch) == StagesToGo(ths, epoch)[t := 6 * epoch + 6 - Progress(th)];
  }

  lemma ModeMoved(ths: seq<Thread>, t: nat, th: Thread, epoch: nat, nodes: nat)
    requires t < |ths| && Progress(ths[t]) == Progress(th)
    ensures Total(StagesToGo(ths[t := th], epoch)) == Total(StagesToGo(ths, epoch))
    ensures ModeToGo(th, nodes) < ModeToGo(ths[t], nodes) ==>
              Total(ModesToGo(ths[t := th], nodes)) < Total(ModesToGo(ths, nodes))
  {
    assert StagesToGo(ths[t := th], epoch) == StagesToGo(ths, epoch);
    TotalUpdate(ModesToGo(ths, nodes), t, ModeToGo(th, nodes));
    assert ModesToGo(ths[t := th], nodes) == ModesToGo(ths, nodes)[t := ModeToGo(th, nodes)];
  }

  lemma RefillMeasure(S: Setting, w: World, t: nat)
    requires Ready(S, w) && t < S.cfg.threads && w.cal.cursor[t] < |w.cal.fallback[t]|
    ensures var c, c' := w.cal, Refill(S.cfg, w.cal, t);
            && |c'.fallback| == |c'.cursor| && c'.epoch == c.epoch
            && Total(WaitingEvents(c'.fallback, c'.cursor)) < Total(WaitingEvents(c.fallback, c.cursor))
  {
    var c, c' := w.cal, Refill(S.cfg, w.cal, t);
    var x := |c.fallback[t]| - c.cursor[t] - 1;
    TotalUpdate(WaitingEvents(c.fallback, c.cursor), t, x);
    assert WaitingEvents(c'.fallback, c'.cursor) == WaitingEvents(c.fallback, c.cursor)[t := x];
  }

  lemma TakeMeasure(S: Setting, w: World, o: nat)
    requires Ready(S, w) && o < S.cfg.objects && w.cal.queues[o][w.cal.index] != []
    ensures var c, c' := w.cal, Take(S.cfg, w.cal, o);
            Total(CurrentEvents(c'.queues, c.index)) < Total(CurrentEvents(c.queues, c.index))
  {
    var c, c' := w.cal, Take(S.cfg, w.cal, o);
    var x := |c.queues[o][c.index]| - 1;
    TotalUpdate(CurrentEvents(c.queues, c.index), o, x);
    assert CurrentEvents(c'.queues, c.index) == CurrentEvents(c.queues, c.index)[o := x];
  }

  lemma DrawMeasure(count: seq<nat>, counters: seq<nat>, v: nat)
    requires |count| == |counters| && v < |count|
    ensures var next := Total(Ungiven(count, counters[v := counters[v] + 1]));
            if counters[v] < count[v] then next < Total(Ungiven(count, counters))
            else next == Total(Ungiven(count, counters))
  {
    var x := Minus(count[v], counters[v] + 1);
    TotalUpdate(Ungiven(count, counters), v, x);
    assert Ungiven(count, counters[v := counters[v] + 1]) == Ungiven(count, counters)[v := x];
  }

  // ---- every step counts ----

  /** A thread whose next step changes something; this depends on the threads alone. */
  ghost predicate CanMove(ths: seq<Thread>, t: nat)
    requires t < |ths|
  {
    if Waiting(ths[t].stage) then forall u | 0 <= u < |ths| :: Progress(ths[u]) >= Progress(ths[t])
    else ths[t].mode != Stopped
  }

  /** The step to be judged, from a state in which its thread is not behind the epoch. */
  ghost predicate Judged(S: Setting, w: World, t: nat) {
    Ready(S, w) && t < S.cfg.threads && w.threads[t].round <= w.cal.epoch && Ready(S, Step(S, w, t))
  }

  lemma FillCounts(S: Setting, w: World, t: nat)
    requires Judged(S, w, t) && w.threads[t].stage == Filling
    ensures Less(MeasureOf(S, Step(S, w, t)), MeasureOf(S, w))
  {
    if w.threads[t].round > 0 && w.cal.cursor[t] < |w.cal.fallback[t]| {
      RefillMeasure(S, w, t);
    } else {
      StageMoved(w.threads, t, w.threads[t].(stage := FillDone), w.cal.epoch);
    }
  }

  lemma LeaveCounts(S: Setting, w: World, t: nat)
    requires Judged(S, w, t) && Waiting(w.threads[t].stage) && MayLeave(w, t)
    ensures Less(MeasureOf(S, Step(S, w, t)), MeasureOf(S, w))
  {
    StageMoved(w.threads, t, Step(S, w, t).threads[t], w.cal.epoch);
  }

  lemma TimeCounts(S: Setting, w: World, t: nat)
    requires Judged(S, w, t) && w.threads[t].stage == Timing
    ensures Step(S, w, t).cal.epoch > w.cal.epoch || Less(MeasureOf(S, Step(S, w, t)), MeasureOf(S, w))
  {
    if S.elect(w.threads[t].round) != t {
      StageMoved(w.threads, t, Step(S, w, t).threads[t], w.cal.epoch);
    }
  }

  lemma TicketMode(S: Setting, th: Thread, x: nat)
    requires S.Valid() && th.node < |S.count| && th.mode in {Seek, Again}
    ensures Progress(AfterTicket(S, th, x)) == Progress(th)
    ensures x >= S.count[th.node] ==> ModeToGo(AfterTicket(S, th, x), |S.count|) < ModeToGo(th, |S.count|)
  {
  }

  lemma DrawCounts(S: Setting, w: World, t: nat)
    requires Judged(S, w, t) && w.threads[t].stage == Working && w.threads[t].mode in {Seek, Again}
    ensures Less(MeasureOf(S, Step(S, w, t)), MeasureOf(S, w))
  {
    var th := w.threads[t];
    DrawMeasure(S.count, w.counters, th.node);
    TicketMode(S, th, w.counters[th.node]);
    ModeMoved(w.threads, t, AfterTicket(S, th, w.counters[th.node]), w.cal.epoch, |S.count|);
  }

  lemma LookCounts(S: Setting, w: World, t: nat)
    requires Judged(S, w, t) && w.threads[t].stage == Working && w.threads[t].mode.Look?
    ensures Less(MeasureOf(S, Step(S, w, t)), MeasureOf(S, w))
  {
    var o, w' := w.threads[t].mode.target, Step(S, w, t);
    ModeMoved(w.threads, t, w'.threads[t], w.cal.epoch, |S.count|);
    if !w.end && w.cal.queues[o][w.cal.index] != [] {
      TakeMeasure(S, w, o);
    }
  }

  lemma OtherModesCount(S: Setting, w: World, t: nat)
    requires Judged(S, w, t) && w.threads[t].stage == Working
    requires w.threads[t].mode.Handle? || w.threads[t].mode == Exhausted
    ensures Less(MeasureOf(S, Step(S, w, t)), MeasureOf(S, w))
  {
    var th' := Step(S, w, t).threads[t];
    if th'.stage == Working {
      ModeMoved(w.threads, t, th', w.cal.epoch, |S.count|);
    } else {
      StageMoved(w.threads, t, th', w.cal.epoch);
    }
  }

  lemma WorkCounts(S: Setting, w: World, t: nat)
    requires Judged(S, w, t) && w.threads[t].stage == Working && w.threads[t].mode !in {Stopped, Idle}
    ensures Less(MeasureOf(S, Step(S, w, t)), MeasureOf(S, w))
  {
    if w.threads[t].mode in {Seek, Again} {
      DrawCounts(S, w, t);
    } else if w.threads[t].mode.Look? {
      LookCounts(S, w, t);
    } else {
      OtherModesCount(S, w, t);
    }
  }

  /** A step that can be made ends the epoch or makes the measure smaller; any other changes nothing. */
  lemma GoCounts(S: Setting, w: World, t: nat)
    requires Inv(S, w) && t < S.cfg.threads
    ensures Ready(S, Step(S, w, t))
    ensures if CanMove(w.threads, t) then
              Step(S, w, t).cal.epoch > w.cal.epoch || Less(MeasureOf(S, Step(S, w, t)), MeasureOf(S, w))
            else Step(S, w, t) == w
  {
    NextInv(S, w, Go(t));
    OneThread(S, w, t);
    if !CanMove(w.threads, t) {
      StandsStill(S, w, t);
    } else {
      MoveCounts(S, w, t);
    }
  }

  lemma StandsStill(S: Setting, w: World, t: nat)
    requires Ready(S, w) && t < S.cfg.threads && !CanMove(w.threads, t)
    requires w.threads[t].mode == Stopped ==> w.threads[t].stage == Working
    ensures Step(S, w, t) == w
  {
  }

  lemma MoveCounts(S: Setting, w: World, t: nat)
    requires Judged(S, w, t) && CanMove(w.threads, t) && (w.threads[t].stage == Working ==> w.threads[t].mode != Idle)
    ensures Step(S, w, t).cal.epoch > w.cal.epoch || Less(MeasureOf(S, Step(S, w, t)), MeasureOf(S, w))
  {
    match w.threads[t].stage
    case Filling => FillCounts(S, w, t);
    case Timing => TimeCounts(S, w, t);
    case Working => WorkCounts(S, w, t);
    case _ => LeaveCounts(S, w, t);
  }

  // ---- scheduling ----

  lemma LaterSlot(cfg: Config, c: Calendar, ts: nat)
    requires Keeps.Inv(cfg, c) && ts / cfg.look > c.epoch && ts < c.maxLimit
    ensures ts / cfg.look % cfg.slots != c.index
  {
    Keeps.WindowOfTime(cfg, c, ts);
    SlotsDiffer(c.epoch, ts / cfg.look, cfg.slots);
  }

  lemma PutMeasure(cfg: Config, c: Calendar, t: nat, destination: nat, ts: nat)
    requires cfg.Valid() && Shape(cfg, c) && t < cfg.threads && destination < cfg.objects
    requires ts < c.maxLimit ==> ts / cfg.look % cfg.slots != c.index
    ensures var c' := Put(cfg, c, t, destination, ts);
            && |c'.fallback| == |c'.cursor| && c'.epoch == c.epoch && c'.index == c.index
            && WaitingEvents(c'.fallback, c'.cursor) == WaitingEvents(c.fallback, c.cursor)
            && CurrentEvents(c'.queues, c'.index) == CurrentEvents(c.queues, c.index)
  {
  }

  /** What a handler schedules lies in later epochs. */
  lemma SendCounts(S: Setting, w: World, t: nat, destination: nat, ts: nat)
    requires Inv(S, w) && t < S.cfg.threads && destination < S.cfg.objects
    requires w.threads[t].stage == Working && MaySend(S, w.threads[t], ts)
    ensures var w' := w.(cal := Put(S.cfg, w.cal, t, destination, ts));
            Ready(S, w') && w'.cal.epoch == w.cal.epoch && MeasureOf(S, w') == MeasureOf(S, w)
  {
    NextInv(S, w, Send(t, destination, ts));
    assert HandleOk(S.cfg, w.threads[t], w.cal);
    if ts < w.cal.maxLimit {
      LaterSlot(S.cfg, w.cal, ts);
    }
    PutMeasure(S.cfg, w.cal, t, destination, ts);
  }

  ghost predicate SetupSend(S: Setting, w: World, a: Action)
    requires Ready(S, w)
  {
    a.Send? && a.thread < S.cfg.threads && w.threads[a.thread].stage == Filling && w.threads[a.thread].round == 0
  }

  ghost predicate Moves(S: Setting, w: World, a: Action)
    requires Ready(S, w)
  {
    a.Go? && a.thread < S.cfg.threads && CanMove(w.threads, a.thread)
  }

  lemma ActionCounts(S: Setting, w: World, a: Action)
    requires Inv(S, w) && !SetupSend(S, w, a)
    ensures Ready(S, Next(S, w, a)) && Next(S, w, a).cal.epoch >= w.cal.epoch
    ensures if Moves(S, w, a) then
              Next(S, w, a).cal.epoch > w.cal.epoch || Less(MeasureOf(S, Next(S, w, a)), MeasureOf(S, w))
            else
              && Next(S, w, a).threads == w.threads && Next(S, w, a).cal.epoch == w.cal.epoch
              && MeasureOf(S, Next(S, w, a)) == MeasureOf(S, w)
  {
    NextInv(S, w, a);
    if a.thread < S.cfg.threads {
      match a
      case Send(t, destination, ts) =>
        if destination < S.cfg.objects && MaySend(S, w.threads[t], ts) {
          SendCounts(S, w, t, destination, ts);
        }
      case Go(t) =>
        GoCounts(S, w, t);
        EpochGrows(S, w, t);
    }
  }

  lemma EpochGrows(S: Setting, w: World, t: nat)
    requires Ready(S, w) && t < S.cfg.threads
    ensures Step(S, w, t).cal.epoch >= w.cal.epoch
  {
  }

  // ---- schedules ----

  ghost predicate Comes(f: nat -> Action, n: nat, t: nat) {
    exists m: nat :: n <= m && f(m) == Go(t)
  }

  /** Every thread gets its turn again and again. */
  ghost predicate Fair(S: Setting, f: nat -> Action) {
    forall n: nat, t: nat | t < S.cfg.threads :: Comes(f, n, t)
  }

  ghost predicate AllStopped(w: World) {
    forall t | 0 <= t < |w.threads| :: w.threads[t].mode == Stopped
  }

  ghost predicate Closer(S: Setting, w: World, w': World) {
    && Ready(S, w) && Ready(S, w')
    && (w'.cal.epoch > w.cal.epoch || (w'.cal.epoch == w.cal.epoch && Less(MeasureOf(S, w'), MeasureOf(S, w))))
  }

  ghost predicate Alike(S: Setting, w: World, w': World) {
    && Ready(S, w) && Ready(S, w')
    && w'.threads == w.threads && w'.cal.epoch == w.cal.epoch && MeasureOf(S, w') == MeasureOf(S, w)
  }

  lemma OneMore(S: Setting, w: World, w': World, a: Action)
    requires Inv(S, w') && Alike(S, w, w') && !SetupSend(S, w', a)
    ensures if Moves(S, w', a) then Closer(S, w, Next(S, w', a)) else Alike(S, w, Next(S, w', a))
  {
    ActionCounts(S, w', a);
  }

  /** Unless all threads have stopped, one can move. */
  lemma SomebodyCanMove(S: Setting, w: World) returns (u: nat)
    requires Inv(S, w) && !AllStopped(w)
    ensures u < S.cfg.threads == |w.threads| && CanMove(w.threads, u)
  {
    var t :| 0 <= t < |w.threads| && w.threads[t].mode != Stopped;
    u := EngineRuns.Laggard(w.threads);
    if !CanMove(w.threads, u) {
      OneThread(S, w, t);
      OneThread(S, w, u);
      SameRound(w.threads, u);
      u := t;
    }
  }
}
