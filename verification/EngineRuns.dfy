/** What the worker threads guarantee over every run, for any number of threads, objects, nodes and
    slots and every interleaving. */
module EngineRuns {
  import opened CalendarQueue
  import Keeps = CalendarInvariant
  import opened Engine
  import opened EngineInvariant

  ghost function After(S: Setting, schedule: seq<Action>): World
    requires S.Valid()
  {
    StartInv(S);
    Run(S, Start(S), schedule)
  }

  lemma AfterInv(S: Setting, schedule: seq<Action>)
    requires S.Valid()
    ensures Inv(S, After(S, schedule))
  {
    StartInv(S);
    RunInv(S, Start(S), schedule);
  }

  /** Every object extracts its events in the order of their times; equal times come in the order of
      insertion, except that nothing is known of two events deferred by different threads. */
  lemma ExtractedInOrder(S: Setting, schedule: seq<Action>, o: nat)
    requires S.Valid() && o < S.cfg.objects
    ensures o < |After(S, schedule).cal.log| && Ordered(After(S, schedule).cal.log[o])
  {
    AfterInv(S, schedule);
    var c := After(S, schedule).cal;
    assert Keeps.LogInv(c.log[o], c.queues[o][c.index], c.epoch);
    forall i, k | 0 <= i < k < |c.log[o]| ensures Precedes(c.log[o][i], c.log[o][k]) {
      var all := c.log[o] + c.queues[o][c.index];
      assert Precedes(all[i], all[k]);
    }
  }

  /** Whenever a thread runs `update_timing`, no current slot holds an event any more, and every object
      has been given to a thread in this epoch. */
  lemma NothingLeftBehind(S: Setting, schedule: seq<Action>, t: nat)
    requires S.Valid() && t < S.cfg.threads
    ensures var w := After(S, schedule);
            t < |w.threads| && (w.threads[t].stage == Timing && S.elect(w.threads[t].round) == t ==>
              Keeps.CurrentSlotsEmpty(w.cal) && forall o | 0 <= o < |w.holder| :: 0 <= w.holder[o] < S.cfg.threads)
  {
    AfterInv(S, schedule);
    var w := After(S, schedule);
    if w.threads[t].stage == Timing && S.elect(w.threads[t].round) == t {
      SlotsAreEmpty(S, w, t);
    }
  }

  /** The circle of slots is unambiguous: a queued event's epoch follows from its slot. */
  lemma SlotTellsEpoch(S: Setting, schedule: seq<Action>, o: nat, s: nat, i: nat)
    requires S.Valid() && o < S.cfg.objects && s < S.cfg.slots
    ensures var c := After(S, schedule).cal;
            && o < |c.queues| && s < |c.queues[o]|
            && (i < |c.queues[o][s]| ==>
                  var e := c.queues[o][s][i];
                  && e.destination == o && e.epoch == e.ts / S.cfg.look
                  && c.epoch <= e.epoch < c.epoch + S.cfg.slots && e.epoch % S.cfg.slots == s
                  && forall n: nat | c.epoch <= n < c.epoch + S.cfg.slots && n % S.cfg.slots == s :: n == e.epoch)
  {
    AfterInv(S, schedule);
    var c := After(S, schedule).cal;
    if i < |c.queues[o][s]| {
      var e := c.queues[o][s][i];
      assert Keeps.SlotInv(c.queues[o][s], o, s, c.epoch, S.cfg.slots, c.stamp) && Timed(S.cfg, e);
      forall n: nat | c.epoch <= n < c.epoch + S.cfg.slots && n % S.cfg.slots == s ensures n == e.epoch {
        if n < e.epoch {
          SlotsDiffer(n, e.epoch, S.cfg.slots);
        } else if e.epoch < n {
          SlotsDiffer(e.epoch, n, S.cfg.slots);
        }
      }
    }
  }

  /** While any thread is extracting, every event in a fallback list lies beyond the window. */
  lemma FallbackBeyondWindow(S: Setting, schedule: seq<Action>, t: nat, u: nat, j: nat)
    requires S.Valid() && t < S.cfg.threads && u < S.cfg.threads
    ensures var w := After(S, schedule);
            && t < |w.threads| && u < |w.cal.fallback|
            && (w.threads[t].stage == Working && j < |w.cal.fallback[u]| ==> w.cal.fallback[u][j].ts >= w.cal.maxLimit)
  {
    AfterInv(S, schedule);
    var w := After(S, schedule);
    if w.threads[t].stage == Working && j < |w.cal.fallback[u]| {
      OneThread(S, w, t);
      PassesAreDone(S, w.threads, t, w.cal);
      assert Keeps.FallbackInv(S.cfg, w.cal.fallback[u], u, w.cal.cursor[u], w.cal.epoch, w.cal.stamp);
      assert Timed(S.cfg, w.cal.fallback[u][j]);
      Keeps.WindowOfTime(S.cfg, w.cal, w.cal.fallback[u][j].ts);
    }
  }

  /** No object is ever with two threads. */
  lemma NobodyShares(S: Setting, schedule: seq<Action>, t: nat, u: nat, o: nat)
    requires S.Valid() && t < S.cfg.threads && u < S.cfg.threads && o < S.cfg.objects
    ensures var w := After(S, schedule);
            |w.threads| == S.cfg.threads && (Holds(w.threads[t], o) && Holds(w.threads[u], o) ==> t == u)
  {
    AfterInv(S, schedule);
    HolderIs(S, After(S, schedule), t, o);
    HolderIs(S, After(S, schedule), u, o);
  }

  lemma HolderIs(S: Setting, w: World, t: nat, o: nat)
    requires Ready(S, w) && HolderInv(S, w) && t < S.cfg.threads && o < S.cfg.objects
    ensures Holds(w.threads[t], o) ==> w.holder[o] == t
  {
  }

  /** Only a ticket gives a thread an object. */
  lemma OnlyTicketsGive(S: Setting, w: World, a: Action, o: nat)
    requires Ready(S, w) && a.thread < S.cfg.threads && o < S.cfg.objects
    requires |Next(S, w, a).threads| == S.cfg.threads
    requires Holds(Next(S, w, a).threads[a.thread], o) && !Holds(w.threads[a.thread], o)
    requires w.threads[a.thread].stage != Working ==> w.threads[a.thread].mode == Idle
    ensures a.Go? && Next(S, w, a) == Draw(S, w, a.thread) && w.threads[a.thread].mode in {Seek, Again}
  {
  }

  lemma TicketIsFirst(S: Setting, w: World, t: nat, o: nat)
    requires Ready(S, w) && HolderInv(S, w) && t < S.cfg.threads && o < S.cfg.objects
    requires w.threads[t].mode in {Seek, Again} && Holds(Draw(S, w, t).threads[t], o)
    ensures w.holder[o] == -1 && |Draw(S, w, t).holder| == S.cfg.objects && Draw(S, w, t).holder[o] == t
  {
    assert InNode(S.count, S.first, w.threads[t].node, o);
    assert !Given(S, w.counters, o);
  }

  /** A thread that gets an object is the first to get it since the last `update_timing`. */
  lemma GivenOnce(S: Setting, schedule: seq<Action>, a: Action, o: nat)
    requires S.Valid() && a.thread < S.cfg.threads && o < S.cfg.objects
    ensures var w := After(S, schedule);
            Inv(S, w) && Inv(S, Next(S, w, a)) &&
            var w' := Next(S, w, a);
            (Holds(w'.threads[a.thread], o) && !Holds(w.threads[a.thread], o) ==>
               w.holder[o] == -1 && w'.holder[o] == a.thread)
  {
    AfterInv(S, schedule);
    var w := After(S, schedule);
    NextInv(S, w, a);
    OneThread(S, w, a.thread);
    if Holds(Next(S, w, a).threads[a.thread], o) && !Holds(w.threads[a.thread], o) {
      OnlyTicketsGive(S, w, a, o);
      TicketIsFirst(S, w, a.thread, o);
    }
  }

  /** The node k places behind `home` on the circle of n nodes. */
  function NodeFrom(home: nat, k: nat, n: nat): nat {
    if k == 0 then home
    else if NodeFrom(home, k - 1, n) + 1 == n then 0
    else NodeFrom(home, k - 1, n) + 1
  }

  lemma Below(a: nat, n: nat)
    requires a < n
    ensures a % n == a
  {
  }

  lemma Onward(a: nat, b: nat, n: nat)
    requires a < n && b == (a + 1) % n
    ensures b == if a + 1 == n then 0 else a + 1
  {
    if a + 1 < n {
      Below(a + 1, n);
    }
  }

  lemma OneOn(x: nat, y: nat, z: nat, n: nat)
    requires 0 < n && x == y % n && z == (y + 1) % n
    ensures x < n && z == if x + 1 == n then 0 else x + 1
  {
    NextSlot(y, n);
    Onward(x, z, n);
  }

  lemma {:induction false} CircleIs(home: nat, k: nat, n: nat)
    requires home < n
    ensures NodeFrom(home, k, n) == (home + k) % n
  {
    if k == 0 {
      Below(home, n);
    } else {
      CircleIs(home, k - 1, n);
      OneOn(NodeFrom(home, k - 1, n), home + k - 1, (home + k) % n, n);
    }
  }

  lemma VisitIs(S: Setting, t: nat, k: nat)
    requires S.Valid() && t < |S.home|
    ensures Visit(S, t, k) == NodeFrom(S.home[t], k, |S.count|) < |S.count|
  {
    CircleIs(S.home[t], k, |S.count|);
  }

  /** The objects of node v below `bound` have been given since the last `update_timing`. */
  ghost predicate Gone(S: Setting, holder: seq<int>, v: nat, bound: nat)
    requires |holder| == |S.nodeOf|
  {
    forall u: nat | u < |holder| && u < bound && S.nodeOf[u] == v :: holder[u] != -1
  }

  /** Every object that a thread would take before o, beginning with node `home`, has been given: those of
      the k nodes from there on, and those before o in o's own node, the next one. */
  ghost predicate TakenBefore(S: Setting, holder: seq<int>, home: nat, k: nat, o: nat)
    requires |holder| == |S.nodeOf| && o < |S.nodeOf|
  {
    && S.nodeOf[o] == NodeFrom(home, k, |S.count|) && Gone(S, holder, S.nodeOf[o], o)
    && forall i: nat | i < k :: Gone(S, holder, NodeFrom(home, i, |S.count|), |holder|)
  }

  lemma NodeGiven(S: Setting, w: World, v: nat, bound: nat)
    requires Ready(S, w) && HolderInv(S, w) && v < |S.count|
    requires Drawn(S, w.counters, v) || bound <= S.first[v] + w.counters[v]
    ensures Gone(S, w.holder, v, bound)
  {
    forall u: nat | u < |w.holder| && u < bound && S.nodeOf[u] == v ensures w.holder[u] != -1 {
      assert InNode(S.count, S.first, v, u);
      assert Given(S, w.counters, u);
    }
  }

  lemma TicketIsNearest(S: Setting, w: World, t: nat, o: nat)
    requires Ready(S, w) && HolderInv(S, w) && t < S.cfg.threads && o < S.cfg.objects
    requires VisitOk(S, w.threads[t], t, w.counters)
    requires w.threads[t].mode in {Seek, Again} && Holds(Draw(S, w, t).threads[t], o)
    ensures TakenBefore(S, w.holder, S.home[t], w.threads[t].steals, o)
  {
    var th := w.threads[t];
    assert InNode(S.count, S.first, th.node, o);
    VisitIs(S, t, th.steals);
    NodeGiven(S, w, th.node, o);
    forall i: nat | i < th.steals ensures Gone(S, w.holder, NodeFrom(S.home[t], i, |S.count|), |w.holder|) {
      VisitIs(S, t, i);
      NodeGiven(S, w, Visit(S, t, i), |w.holder|);
    }
  }

  /** A thread serves its own node first, then steals from the following ones in turn: when it gets an
      object, every object of the nodes between has been given, and those of the same node with lower
      numbers. */
  lemma NearestFirst(S: Setting, schedule: seq<Action>, a: Action, o: nat)
    requires S.Valid() && a.thread < S.cfg.threads && o < S.cfg.objects
    ensures var w := After(S, schedule);
            Inv(S, w) && Inv(S, Next(S, w, a)) &&
            var w' := Next(S, w, a);
            (Holds(w'.threads[a.thread], o) && !Holds(w.threads[a.thread], o) ==>
               exists k :: TakenBefore(S, w.holder, S.home[a.thread], k, o))
  {
    AfterInv(S, schedule);
    var w := After(S, schedule);
    NextInv(S, w, a);
    OneThread(S, w, a.thread);
    if Holds(Next(S, w, a).threads[a.thread], o) && !Holds(w.threads[a.thread], o) {
      OnlyTicketsGive(S, w, a, o);
      assert VisitOk(S, w.threads[a.thread], a.thread, w.counters);
      TicketIsNearest(S, w, a.thread, o);
    }
  }

  /** What an event handler schedules for a later epoch than its event's is never refused. */
  lemma NeverRefused(S: Setting, schedule: seq<Action>, t: nat, ts: nat)
    requires S.Valid() && t < S.cfg.threads
    ensures var w := After(S, schedule);
            t < |w.threads| && (MaySend(S, w.threads[t], ts) ==> ts >= w.cal.minLimit)
  {
    AfterInv(S, schedule);
    if MaySend(S, After(S, schedule).threads[t], ts) {
      SendAhead(S, After(S, schedule), t, ts);
    }
  }

  /** The lookahead of the models: a handler that schedules at least a lookahead ahead always may. */
  lemma LookaheadIsEnough(S: Setting, th: Thread, ts: nat)
    requires 0 < S.cfg.look && th.stage == Working && th.mode.Handle? && th.mode.event.ts + S.cfg.look <= ts
    ensures MaySend(S, th, ts)
  {
    LaterEpoch(th.mode.event.ts, ts, S.cfg.look);
  }

  /** When a thread stops, every event ever scheduled has been extracted. */
  lemma StopsWithNothingLeft(S: Setting, schedule: seq<Action>, t: nat)
    requires S.Valid() && t < S.cfg.threads
    ensures var w := After(S, schedule);
            t < |w.threads| && (w.threads[t].mode == Stopped ==>
              && w.cal.stamp == Keeps.Sum(w.cal.log)
              && (forall o, s | 0 <= o < |w.cal.queues| && 0 <= s < |w.cal.queues[o]| :: w.cal.queues[o][s] == [])
              && (forall u | 0 <= u < |w.cal.fallback| :: w.cal.fallback[u] == []))
  {
    AfterInv(S, schedule);
    var w := After(S, schedule);
    if w.threads[t].mode == Stopped {
      OneThread(S, w, t);
      Keeps.PendingZero(S.cfg, w.cal);
    }
  }

  // ---- no deadlock ----

  lemma {:induction false} Laggard(ths: seq<Thread>) returns (t: nat)
    requires ths != []
    ensures t < |ths| && forall u | 0 <= u < |ths| :: Progress(ths[u]) >= Progress(ths[t])
  {
    t := 0;
    for i := 1 to |ths|
      invariant t < |ths| && forall u | 0 <= u < i :: Progress(ths[u]) >= Progress(ths[t])
    {
      if Progress(ths[i]) < Progress(ths[t]) {
        t := i;
      }
    }
  }

  lemma WorkMoves(S: Setting, w: World, t: nat)
    requires Inv(S, w) && t < S.cfg.threads && w.threads[t].stage == Working && w.threads[t].mode != Stopped
    ensures Step(S, w, t) != w
  {
    OneThread(S, w, t);
    var w' := Step(S, w, t);
    if w.threads[t].mode in {Seek, Again} {
      assert w'.counters[w.threads[t].node] != w.counters[w.threads[t].node];
    } else {
      assert w'.threads[t] != w.threads[t];
    }
  }

  /** As long as some thread has not stopped, some thread can make a step. */
  lemma NoDeadlock(S: Setting, schedule: seq<Action>, t: nat) returns (u: nat)
    requires S.Valid() && t < S.cfg.threads
    ensures var w := After(S, schedule);
            && t < |w.threads|
            && (w.threads[t].mode != Stopped ==> u < S.cfg.threads && Ready(S, w) && Next(S, w, Go(u)) != w)
  {
    AfterInv(S, schedule);
    var w := After(S, schedule);
    u := Laggard(w.threads);
    if w.threads[t].mode != Stopped {
      OneThread(S, w, t);
      OneThread(S, w, u);
      if w.threads[u].mode == Stopped {
        SameRound(w.threads, u);
        u := t;
      }
      if w.threads[u].stage == Working {
        WorkMoves(S, w, u);
      } else {
        assert MayLeave(w, u);
        StageMoves(S, w, u);
      }
    }
  }

  lemma StageMoves(S: Setting, w: World, t: nat)
    requires Inv(S, w) && t < S.cfg.threads && w.threads[t].stage != Working && MayLeave(w, t)
    ensures Step(S, w, t) != w
  {
    var w' := Step(S, w, t);
    if w.threads[t].stage == Filling && w.threads[t].round > 0 && w.cal.cursor[t] < |w.cal.fallback[t]| {
      assert w'.cal.cursor[t] != w.cal.cursor[t] || |w'.cal.fallback[t]| != |w.cal.fallback[t]|;
    } else {
      assert w'.threads[t] != w.threads[t];
    }
  }

  // ---- equal times ----

  lemma RefillOthers(cfg: Config, c: Calendar, t: nat, u: nat)
    requires Keeps.Inv(cfg, c) && t < cfg.threads && u < cfg.threads && t != u
    requires c.cursor[t] < |c.fallback[t]| && c.cursor[u] < |c.fallback[u]|
    ensures Shape(cfg, c) && c.fallback[t][c.cursor[t]].destination < cfg.objects && c.fallback[t][c.cursor[t]].slot < cfg.slots
    ensures var c' := Refill(cfg, c, t);
            && Keeps.Inv(cfg, c') && Shape(cfg, c')
            && c'.cursor[u] == c.cursor[u] && c'.fallback[u] == c.fallback[u] && c'.maxLimit == c.maxLimit
            && c'.fallback[u][c'.cursor[u]].destination < cfg.objects && c'.fallback[u][c'.cursor[u]].slot < cfg.slots
  {
    Keeps.RefillInv(cfg, c, t);
    Keeps.RefillInv(cfg, c, u);
  }

  /** The cursors of two threads are at events for one object and one time, inside the window. */
  ghost predicate EqualsWaiting(cfg: Config, c: Calendar, t: nat, u: nat) {
    && Keeps.Inv(cfg, c) && t < cfg.threads && u < cfg.threads && t != u
    && c.cursor[t] < |c.fallback[t]| && c.cursor[u] < |c.fallback[u]|
    && var x, y := c.fallback[t][c.cursor[t]], c.fallback[u][c.cursor[u]];
       x.ts == y.ts < c.maxLimit && x.destination == y.destination && x.slot == y.slot
  }

  /** Thread t takes its turn of the refill loop, then thread u. */
  ghost function AfterBoth(cfg: Config, c: Calendar, t: nat, u: nat): Calendar
    requires EqualsWaiting(cfg, c, t, u)
  {
    RefillOthers(cfg, c, t, u);
    Refill(cfg, Refill(cfg, c, t), u)
  }

  /** Two such events are delivered in the order in which the threads move them, whatever the order in
      which they were scheduled: the first to be moved comes right before the other. */
  lemma RefillOrderDecides(cfg: Config, c: Calendar, t: nat, u: nat) returns (i: nat)
    requires EqualsWaiting(cfg, c, t, u)
    ensures var x, y := c.fallback[t][c.cursor[t]], c.fallback[u][c.cursor[u]];
            && x.destination < |c.queues| == |AfterBoth(cfg, c, t, u).queues|
            && x.slot < |c.queues[x.destination]| == |AfterBoth(cfg, c, t, u).queues[x.destination]|
            && var l := c.queues[x.destination][x.slot];
               i <= |l| && AfterBoth(cfg, c, t, u).queues[x.destination][x.slot] == l[..i] + [x, y] + l[i..]
  {
    RefillOthers(cfg, c, t, u);
    var x, y := c.fallback[t][c.cursor[t]], c.fallback[u][c.cursor[u]];
    var l := c.queues[x.destination][x.slot];
    i := InsertTwice(l, x, y);
    assert Refill(cfg, c, t).queues[x.destination][x.slot] == Insert(l, x);
  }

  /** Two threads, one object, lookahead 1 and two slots: each thread has deferred an event for time 2. */
  function TwoDeferred(): (c: Calendar)
    ensures Shape(PAIR, c) && c.maxLimit == 2 && |c.fallback[0]| == |c.fallback[1]| == 1
    ensures forall t | 0 <= t < 2 :: c.fallback[t][0] == Event(0, 2, 2, 0, t, t, true)
    ensures c.queues[0][0] == c.queues[0][1] == []
  {
    Put(PAIR, Put(PAIR, Initial(PAIR), 0, 0, 2), 1, 0, 2)
  }

  const PAIR := Config(1, 2, 1, 2)

  /** Two events with one time, scheduled by different threads beyond the window, can swap places:
      the thread that scheduled second may be the first to pass its fallback list. */
  lemma EqualsMayOvertake()
    ensures var c := TwoDeferred();
            var x, y := c.fallback[0][0], c.fallback[1][0];
            && x.ts == y.ts && x.stamp < y.stamp
            && Refill(PAIR, Refill(PAIR, Advance(PAIR, c), 1), 0).queues[0][0] == [y, x]
  {
    var c := TwoDeferred();
    var x, y := c.fallback[0][0], c.fallback[1][0];
    var c1 := Refill(PAIR, Advance(PAIR, c), 1);
    assert c1.queues[0][0] == [y] && c1.fallback[0] == [x];
    assert Insert([y], x) == [y] + Insert([], x);
  }
}
