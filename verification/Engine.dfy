/** The worker threads of engine/engine.c around `queue_extract` of queue/queue.c, without
    speculation: any number of threads interleave their steps on one calendar queue, draw tickets for
    objects from per-node counters, and meet in the barriers that surround `update_timing`. */
module Engine {
  import opened CalendarQueue

  /** The dispatch set-up: how many objects each NUMA node has and its first one, the node where each
      thread starts to draw, and which thread gets 1 from the barrier that ends an epoch. */
  datatype Setting = Setting(cfg: Config, count: seq<nat>, first: seq<nat>, nodeOf: seq<nat>,
                             home: seq<nat>, elect: nat -> nat)
  {
    ghost predicate Valid() {
      && cfg.Valid() && Tiled(count, first, nodeOf, cfg.objects)
      && |home| == cfg.threads && (forall t | 0 <= t < |home| :: home[t] < |count|)
      && forall r: nat :: elect(r) < cfg.threads
    }
  }

  ghost predicate InNode(count: seq<nat>, first: seq<nat>, v: nat, o: nat) {
    v < |count| && v < |first| && first[v] <= o < first[v] + count[v]
  }

  /** The node ranges tile the objects: each object lies in the range of its node alone. */
  ghost predicate Tiled(count: seq<nat>, first: seq<nat>, nodeOf: seq<nat>, objects: nat) {
    && |count| == |first| > 0 && |nodeOf| == objects
    && (forall o | 0 <= o < objects :: InNode(count, first, nodeOf[o], o))
    && (forall v: nat, o: nat | InNode(count, first, v, o) :: o < objects && nodeOf[o] == v)
  }

  /** Where a thread is in a round.  `...Done` is waiting in the barrier that follows; `Filling` of
      round 0 is the set-up of the objects, later the pass over the fallback list. */
  datatype Stage = Filling | FillDone | Working | WorkDone | Timing | TimingDone

  /** What a working thread does next: draw a ticket (at `retry`, or again after an empty slot), look
      at the current slot of its target, or handle an event. */
  datatype Mode = Idle | Seek | Again | Look(target: nat) | Handle(target: nat, event: Event) | Exhausted | Stopped

  datatype Thread = Thread(round: nat, stage: Stage, node: nat, steals: nat, mode: Mode)

  /** `holder[o]` is the thread that drew object o since the last `update_timing`, or -1. */
  datatype World = World(cal: Calendar, counters: seq<nat>, holder: seq<int>, end: bool, threads: seq<Thread>)

  /** A thread schedules an event, or performs its next step. */
  datatype Action = Send(thread: nat, destination: nat, ts: nat) | Go(thread: nat)

  function Rank(s: Stage): nat {
    match s
    case Filling => 0 case FillDone => 1 case Working => 2
    case WorkDone => 3 case Timing => 4 case TimingDone => 5
  }

  function Progress(th: Thread): nat {
    6 * th.round + Rank(th.stage)
  }

  predicate Waiting(s: Stage) {
    s in {FillDone, WorkDone, TimingDone}
  }

  function Start(S: Setting): World
    requires S.Valid()
  {
    World(Initial(S.cfg), seq(|S.count|, _ => 0), seq(S.cfg.objects, _ => -1), false,
          seq(S.cfg.threads, _ => Thread(0, Filling, 0, 0, Idle)))
  }

  ghost predicate Ready(S: Setting, w: World) {
    && S.Valid() && Shape(S.cfg, w.cal) && w.cal.index < S.cfg.slots
    && |w.counters| == |S.count| && |w.holder| == S.cfg.objects && |w.threads| == S.cfg.threads
    && (forall t | 0 <= t < |w.threads| :: ThreadReady(S, w.threads[t]))
    && (forall t, j | 0 <= t < S.cfg.threads && 0 <= j < |w.cal.fallback[t]| ::
          w.cal.fallback[t][j].destination < S.cfg.objects && w.cal.fallback[t][j].slot < S.cfg.slots)
  }

  ghost predicate ThreadReady(S: Setting, th: Thread) {
    && th.node < |S.count|
    && (th.mode.Look? || th.mode.Handle? ==> th.mode.target < S.cfg.objects)
  }

  /** Whether every thread has entered the barrier thread t waits in. */
  ghost predicate MayLeave(w: World, t: nat)
    requires t < |w.threads|
  {
    forall u | 0 <= u < |w.threads| :: Progress(w.threads[u]) >= Progress(w.threads[t])
  }

  ghost function Next(S: Setting, w: World, a: Action): World
    requires Ready(S, w)
  {
    if a.thread >= S.cfg.threads then w
    else match a
      case Send(t, destination, ts) =>
        if destination < S.cfg.objects && MaySend(S, w.threads[t], ts) then
          w.(cal := Put(S.cfg, w.cal, t, destination, ts))
        else w
      case Go(t) => Step(S, w, t)
  }

  /** Set-up may schedule any time; an event handler sends into a later epoch than its event's.  A send
      a whole lookahead ahead is one of these. */
  predicate MaySend(S: Setting, th: Thread, ts: nat)
    requires 0 < S.cfg.look
  {
    || (th.stage == Filling && th.round == 0)
    || (th.stage == Working && th.mode.Handle? && th.mode.event.ts / S.cfg.look < ts / S.cfg.look)
  }

  ghost function Step(S: Setting, w: World, t: nat): World
    requires Ready(S, w) && t < S.cfg.threads
  {
    var th := w.threads[t];
    match th.stage
    case Filling =>
      if th.round > 0 && w.cal.cursor[t] < |w.cal.fallback[t]| then w.(cal := Refill(S.cfg, w.cal, t))
      else w.(threads := w.threads[t := th.(stage := FillDone)])
    case Working => Work(S, w, t)
    case Timing => Time(S, w, t, S.elect(th.round) == t)
    case _ => if MayLeave(w, t) then Leave(S, w, t) else w
  }

  /** Thread t comes out of the barrier it waits in. */
  ghost function Leave(S: Setting, w: World, t: nat): World
    requires Ready(S, w) && t < S.cfg.threads
  {
    var th := w.threads[t];
    var th' :=
      match th.stage
      case FillDone => th.(stage := Working, mode := Seek, node := S.home[t], steals := 0)
      case WorkDone => th.(stage := Timing)
      case TimingDone => th.(round := th.round + 1, stage := Filling)
      case _ => th;
    w.(threads := w.threads[t := th'])
  }

  /** The thread that the barrier has returned 1 to runs `update_timing`; every thread goes on to the next
      barrier. */
  ghost function Time(S: Setting, w: World, t: nat, won: bool): World
    requires S.cfg.Valid() && t < |w.threads|
  {
    var w' := w.(threads := w.threads[t := w.threads[t].(stage := TimingDone)]);
    if won then UpdateTiming(S, w') else w'
  }

  ghost function UpdateTiming(S: Setting, w: World): World
    requires S.cfg.Valid()
  {
    w.(cal := Advance(S.cfg, w.cal), counters := seq(|w.counters|, _ => 0), holder := seq(|w.holder|, _ => -1),
       end := w.end || w.cal.pending == 0)
  }

  /** One step of `queue_extract`, or of the event loop around it. */
  ghost function Work(S: Setting, w: World, t: nat): World
    requires Ready(S, w) && t < S.cfg.threads
  {
    var th := w.threads[t];
    match th.mode
    case Idle => w
    case Seek => Draw(S, w, t)
    case Again => Draw(S, w, t)
    case Look(o) =>
      if w.end then SetMode(w, t, Stopped)
      else if w.cal.queues[o][w.cal.index] == [] then SetMode(w, t, Again)
      else SetMode(w.(cal := Take(S.cfg, w.cal, o)), t, Handle(o, w.cal.queues[o][w.cal.index][0]))
    case Handle(o, _) => SetMode(w, t, Look(o))
    case Exhausted =>
      if w.end then SetMode(w, t, Stopped)
      else w.(threads := w.threads[t := th.(stage := WorkDone, mode := Idle)])
    case Stopped => w
  }

  function SetMode(w: World, t: nat, mode: Mode): World
    requires t < |w.threads|
  {
    w.(threads := w.threads[t := w.threads[t].(mode := mode)])
  }

  /** What a thread does after ticket x of its node: it has a target, tries again, moves on to the
      next node to steal, or finds every node exhausted. */
  function AfterTicket(S: Setting, th: Thread, x: nat): Thread
    requires |S.count| == |S.first| && th.node < |S.count|
  {
    if x < S.count[th.node] then th.(mode := Look(S.first[th.node] + x))
    else if th.mode == Again then th.(mode := Seek)
    else if th.steals < |S.count| then th.(steals := th.steals + 1, node := (th.node + 1) % |S.count|)
    else th.(mode := Exhausted)
  }

  ghost function Hold(S: Setting, holder: seq<int>, t: nat, v: nat, x: nat): seq<int>
    requires S.Valid() && |holder| == S.cfg.objects && v < |S.count|
  {
    if x < S.count[v] then
      assert InNode(S.count, S.first, v, S.first[v] + x);
      holder[S.first[v] + x := t]
    else holder
  }

  /** The fetch-and-add on a node's counter. */
  ghost function Draw(S: Setting, w: World, t: nat): World
    requires Ready(S, w) && t < S.cfg.threads
  {
    var th := w.threads[t];
    var v := th.node;
    var x := w.counters[v];
    w.(counters := w.counters[v := x + 1], holder := Hold(S, w.holder, t, v, x),
       threads := w.threads[t := AfterTicket(S, th, x)])
  }
}
