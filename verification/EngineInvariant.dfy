/** What holds in every reachable state of the worker threads, for every interleaving. */
module EngineInvariant {
  import opened CalendarQueue
  import Keeps = CalendarInvariant
  import opened Engine

  // ---- the lock step ----

  /** A thread is at most one barrier ahead: what it has left, the other has entered. */
  predicate Sync(p: Thread, q: Thread) {
    Progress(q) + (if Waiting(p.stage) then 2 else 1) >= Progress(p)
  }

  ghost predicate SyncInv(ths: seq<Thread>) {
    forall t, u | 0 <= t < |ths| && 0 <= u < |ths| :: Sync(ths[t], ths[u])
  }

  /** How a thread's round fits the number of calls of `update_timing`. */
  predicate EpochOk(S: Setting, th: Thread, t: nat, epoch: nat) {
    && th.round <= epoch <= th.round + 1
    && (th.stage in {Filling, FillDone, Working} ==> epoch == th.round)
    && (S.elect(th.round) == t ==> (th.stage == TimingDone <==> epoch == th.round + 1))
  }

  ghost predicate EpochInv(S: Setting, ths: seq<Thread>, epoch: nat) {
    forall t | 0 <= t < |ths| :: EpochOk(S, ths[t], t, epoch)
  }

  // ---- tickets ----

  predicate Drawn(S: Setting, counters: seq<nat>, v: nat)
    requires |counters| == |S.count|
  {
    v < |counters| ==> counters[v] >= S.count[v]
  }

  ghost predicate AllDrawn(S: Setting, counters: seq<nat>)
    requires |counters| == |S.count|
  {
    forall v: nat :: Drawn(S, counters, v)
  }

  predicate Given(S: Setting, counters: seq<nat>, o: nat)
    requires S.Valid() && |counters| == |S.count| && o < S.cfg.objects
  {
    var v := S.nodeOf[o];
    assert InNode(S.count, S.first, v, o);
    o - S.first[v] < counters[v]
  }

  ghost predicate Zeroed(counters: seq<nat>) {
    forall v | 0 <= v < |counters| :: counters[v] == 0
  }

  /** The i-th node a thread visits from its home. */
  function Visit(S: Setting, t: nat, i: nat): nat
    requires S.Valid() && t < |S.home|
  {
    (S.home[t] + i) % |S.count|
  }

  /** The nodes a thread has left behind are exhausted. */
  ghost predicate VisitOk(S: Setting, th: Thread, t: nat, counters: seq<nat>)
    requires S.Valid() && t < |S.home| && |counters| == |S.count|
  {
    && th.steals <= |S.count| && th.node == Visit(S, t, th.steals)
    && forall i: nat | i < th.steals :: Drawn(S, counters, Visit(S, t, i))
  }

  predicate Holds(th: Thread, o: nat) {
    (th.mode.Look? || th.mode.Handle?) && th.mode.target == o
  }

  ghost predicate DrawOk(S: Setting, th: Thread, t: nat, counters: seq<nat>, epoch: nat)
    requires S.Valid() && t < |S.home| && |counters| == |S.count|
  {
    && (th.stage == Working <==> th.mode != Idle)
    && (th.stage == Filling || epoch == th.round + 1 ==> Zeroed(counters))
    && (th.stage in {WorkDone, Timing, TimingDone} && epoch == th.round ==> AllDrawn(S, counters))
    && (th.mode == Exhausted ==> AllDrawn(S, counters))
    && (th.stage == Working ==> VisitOk(S, th, t, counters))
  }

  ghost predicate DrawInv(S: Setting, ths: seq<Thread>, counters: seq<nat>, epoch: nat) {
    && S.Valid() && |ths| == |S.home| && |counters| == |S.count|
    && forall t | 0 <= t < |ths| :: DrawOk(S, ths[t], t, counters, epoch)
  }

  /** A thread holds only what was given to it; what was given is held still, or its current slot is
      empty; what was not given has no holder. */
  ghost predicate HolderInv(S: Setting, w: World)
    requires Ready(S, w)
  {
    && (forall t, o | 0 <= t < |w.threads| && 0 <= o < S.cfg.objects && Holds(w.threads[t], o) ::
          Given(S, w.counters, o) && w.holder[o] == t)
    && (forall o | 0 <= o < S.cfg.objects ::
          if Given(S, w.counters, o) then
            && 0 <= w.holder[o] < |w.threads|
            && (Holds(w.threads[w.holder[o]], o) || w.cal.queues[o][w.cal.index] == [])
          else w.holder[o] == -1)
  }

  // ---- the calendar ----

  /** Outside its pass over the fallback list, a thread's cursor is at the end of the list. */
  predicate PassOk(th: Thread, epoch: nat, cursor: nat, waiting: nat) {
    epoch == th.round && (th.stage == Filling ==> th.round == 0) ==> cursor == waiting
  }

  ghost predicate PassInv(ths: seq<Thread>, cal: Calendar) {
    && |ths| == |cal.cursor| == |cal.fallback|
    && forall t | 0 <= t < |ths| :: PassOk(ths[t], cal.epoch, cal.cursor[t], |cal.fallback[t]|)
  }

  ghost predicate NothingTaken(cal: Calendar) {
    forall o | 0 <= o < |cal.log| :: cal.log[o] == []
  }

  ghost predicate HandleOk(cfg: Config, th: Thread, cal: Calendar)
    requires cfg.Valid()
  {
    && (th.mode.Handle? ==> Timed(cfg, th.mode.event) && th.mode.event.epoch == cal.epoch)
    && (th.stage == Filling && th.round == 0 ==> NothingTaken(cal))
  }

  ghost predicate HandleInv(cfg: Config, ths: seq<Thread>, cal: Calendar)
    requires cfg.Valid()
  {
    forall t | 0 <= t < |ths| :: HandleOk(cfg, ths[t], cal)
  }

  /** Everything ever inserted is extracted or still held. */
  ghost predicate Conserved(cal: Calendar) {
    cal.stamp == Keeps.Sum(cal.log) + cal.pending
  }

  /** Once `end` is set nothing is held, nothing is being handled, and nobody waits for a thread that
      has stopped. */
  predicate EndOk(th: Thread, epoch: nat, end: bool) {
    if end then
      && (th.stage in {WorkDone, Timing, TimingDone} ==> epoch == th.round + 1)
      && !th.mode.Handle? && !(th.stage == Filling && th.round == 0)
    else !th.mode.Stopped?
  }

  ghost predicate EndInv(ths: seq<Thread>, cal: Calendar, end: bool) {
    && (end ==> cal.pending == 0)
    && forall t | 0 <= t < |ths| :: EndOk(ths[t], cal.epoch, end)
  }

  ghost predicate ProtocolInv(S: Setting, w: World) {
    && Ready(S, w) && HolderInv(S, w)
    && SyncInv(w.threads) && EpochInv(S, w.threads, w.cal.epoch)
    && DrawInv(S, w.threads, w.counters, w.cal.epoch)
    && PassInv(w.threads, w.cal) && HandleInv(S.cfg, w.threads, w.cal) && EndInv(w.threads, w.cal, w.end)
  }

  ghost predicate Inv(S: Setting, w: World) {
    Keeps.Inv(S.cfg, w.cal) && Conserved(w.cal) && ProtocolInv(S, w)
  }

  // ---- lock step ----

  /** Two threads in step: where the other can be. */
  lemma Window(p: Thread, q: Thread)
    requires Sync(p, q) && Sync(q, p)
    ensures p.stage == Filling && p.round == 0 ==> q.round == 0 && q.stage in {Filling, FillDone}
    ensures p.stage == Working ==> q.round == p.round && q.stage in {FillDone, Working, WorkDone}
    ensures p.stage == Timing ==> q.round == p.round && q.stage in {WorkDone, Timing, TimingDone}
  {
  }

  /** One thread moves on by one stage. */
  lemma MoveOnSync(ths: seq<Thread>, t: nat, th: Thread)
    requires SyncInv(ths) && t < |ths| && Progress(th) == Progress(ths[t]) + 1
    requires Waiting(ths[t].stage) ==> forall u | 0 <= u < |ths| :: Progress(ths[u]) >= Progress(ths[t])
    ensures SyncInv(ths[t := th])
  {
    var ths' := ths[t := th];
    assert Waiting(th.stage) <==> !Waiting(ths[t].stage);
    forall i, j | 0 <= i < |ths| && 0 <= j < |ths| ensures Sync(ths'[i], ths'[j]) {
      assert Sync(ths[i], ths[j]);
    }
  }

  lemma StaySync(ths: seq<Thread>, t: nat, th: Thread)
    requires SyncInv(ths) && t < |ths| && th.round == ths[t].round && th.stage == ths[t].stage
    ensures SyncInv(ths[t := th])
  {
    var ths' := ths[t := th];
    forall i, j | 0 <= i < |ths| && 0 <= j < |ths| ensures Sync(ths'[i], ths'[j]) {
      assert Sync(ths[i], ths[j]);
    }
  }

  /** Leaving the barrier after `update_timing`, every thread sees the new epoch. */
  lemma TimingSeen(S: Setting, ths: seq<Thread>, t: nat, epoch: nat)
    requires SyncInv(ths) && EpochInv(S, ths, epoch) && t < |ths| && ths[t].stage == TimingDone
    requires forall u | 0 <= u < |ths| :: Progress(ths[u]) >= Progress(ths[t])
    requires S.elect(ths[t].round) < |ths|
    ensures epoch == ths[t].round + 1
  {
    var u := S.elect(ths[t].round);
    assert EpochOk(S, ths[u], u, epoch) && EpochOk(S, ths[t], t, epoch);
    assert Progress(ths[u]) >= Progress(ths[t]);
  }

  /** While one thread works or times, every thread is in the same round. */
  lemma SameRound(ths: seq<Thread>, t: nat)
    requires SyncInv(ths) && t < |ths|
    ensures ths[t].stage == Filling && ths[t].round == 0 ==>
              forall u | 0 <= u < |ths| :: ths[u].round == 0 && ths[u].stage in {Filling, FillDone}
    ensures ths[t].stage == Working ==>
              forall u | 0 <= u < |ths| :: ths[u].round == ths[t].round && ths[u].stage in {FillDone, Working, WorkDone}
    ensures ths[t].stage == Timing ==>
              forall u | 0 <= u < |ths| :: ths[u].round == ths[t].round && ths[u].stage in {WorkDone, Timing, TimingDone}
  {
    forall u | 0 <= u < |ths| ensures Sync(ths[t], ths[u]) && Sync(ths[u], ths[t]) {
    }
    forall u | 0 <= u < |ths|
      ensures ths[t].stage == Filling && ths[t].round == 0 ==> ths[u].round == 0 && ths[u].stage in {Filling, FillDone}
      ensures ths[t].stage == Working ==> ths[u].round == ths[t].round && ths[u].stage in {FillDone, Working, WorkDone}
      ensures ths[t].stage == Timing ==> ths[u].round == ths[t].round && ths[u].stage in {WorkDone, Timing, TimingDone}
    {
      Window(ths[t], ths[u]);
    }
  }

  lemma UpdateEpoch(S: Setting, ths: seq<Thread>, t: nat, epoch: nat)
    requires SyncInv(ths) && EpochInv(S, ths, epoch) && t < |ths| && ths[t].stage == Timing && S.elect(ths[t].round) == t
    ensures epoch == ths[t].round && EpochInv(S, ths[t := ths[t].(stage := TimingDone)], epoch + 1)
  {
    SameRound(ths, t);
    assert EpochOk(S, ths[t], t, epoch);
    var ths' := ths[t := ths[t].(stage := TimingDone)];
    forall u | 0 <= u < |ths| ensures EpochOk(S, ths'[u], u, epoch + 1) {
      assert EpochOk(S, ths[u], u, epoch);
    }
  }

  lemma PassesAreDone(S: Setting, ths: seq<Thread>, t: nat, cal: Calendar)
    requires SyncInv(ths) && EpochInv(S, ths, cal.epoch) && PassInv(ths, cal) && t < |ths|
    requires cal.epoch == ths[t].round
    requires ths[t].stage in {Working, Timing} || (ths[t].stage == Filling && ths[t].round == 0)
    ensures Keeps.PassesDone(cal)
  {
    SameRound(ths, t);
    forall u | 0 <= u < |cal.cursor| ensures cal.cursor[u] == |cal.fallback[u]| {
      assert PassOk(ths[u], cal.epoch, cal.cursor[u], |cal.fallback[u]|);
    }
  }

  /** What the calendar's own invariant says about the shape of the state. */
  lemma ReadyAgain(S: Setting, w: World)
    requires S.Valid() && Keeps.Inv(S.cfg, w.cal)
    requires |w.counters| == |S.count| && |w.holder| == S.cfg.objects && |w.threads| == S.cfg.threads
    requires forall t | 0 <= t < |w.threads| :: ThreadReady(S, w.threads[t])
    ensures Ready(S, w)
  {
    forall t, j | 0 <= t < S.cfg.threads && 0 <= j < |w.cal.fallback[t]|
      ensures w.cal.fallback[t][j].destination < S.cfg.objects && w.cal.fallback[t][j].slot < S.cfg.slots
    {
      assert Keeps.FallbackInv(S.cfg, w.cal.fallback[t], t, w.cal.cursor[t], w.cal.epoch, w.cal.stamp);
    }
  }

  lemma NoneGiven(S: Setting, w: World)
    requires Ready(S, w) && Zeroed(w.counters) && HolderInv(S, w)
    ensures forall o | 0 <= o < S.cfg.objects :: w.holder[o] == -1
  {
    forall o | 0 <= o < S.cfg.objects ensures !Given(S, w.counters, o) {
      assert InNode(S.count, S.first, S.nodeOf[o], o);
    }
  }

  /** A change of the calendar that leaves the given objects' current slots alone. */
  lemma HolderFrame(S: Setting, w: World, cal: Calendar)
    requires Ready(S, w) && HolderInv(S, w) && Ready(S, w.(cal := cal))
    requires cal.index == w.cal.index
    requires Zeroed(w.counters) || forall o | 0 <= o < S.cfg.objects :: cal.queues[o][cal.index] == w.cal.queues[o][cal.index]
    ensures HolderInv(S, w.(cal := cal))
  {
    if Zeroed(w.counters) {
      NoneGiven(S, w);
      forall o | 0 <= o < S.cfg.objects ensures !Given(S, w.counters, o) {
        assert InNode(S.count, S.first, S.nodeOf[o], o);
      }
    }
  }

  // ---- scheduling ----

  lemma PutKeepsCurrent(cfg: Config, c: Calendar, t: nat, destination: nat, ts: nat)
    requires Keeps.Inv(cfg, c) && t < cfg.threads && destination < cfg.objects && ts / cfg.look > c.epoch
    ensures var c' := Put(cfg, c, t, destination, ts);
            |c'.queues| == |c.queues| && forall o | 0 <= o < |c.queues| ::
              |c'.queues[o]| == cfg.slots && c'.queues[o][c.index] == c.queues[o][c.index]
  {
    Keeps.WindowOfTime(cfg, c, ts);
    if ts < c.maxLimit {
      SlotsDiffer(c.epoch, ts / cfg.look, cfg.slots);
    }
  }

  lemma SendAhead(S: Setting, w: World, t: nat, ts: nat)
    requires Inv(S, w) && t < S.cfg.threads && MaySend(S, w.threads[t], ts)
    ensures Keeps.Ahead(S.cfg, w.cal, ts) && Keeps.PassesDone(w.cal) && !w.end
    ensures Zeroed(w.counters) || ts / S.cfg.look > w.cal.epoch
    ensures w.cal.minLimit <= ts
  {
    var th := w.threads[t];
    assert EpochOk(S, th, t, w.cal.epoch) && HandleOk(S.cfg, th, w.cal) && EndOk(th, w.cal.epoch, w.end);
    assert DrawOk(S, th, t, w.counters, w.cal.epoch);
    PassesAreDone(S, w.threads, t, w.cal);
    Keeps.WindowOfTime(S.cfg, w.cal, ts);
  }

  /** What the threads rely on in the calendar survives an insertion. */
  lemma SendThreads(S: Setting, ths: seq<Thread>, c: Calendar, t: nat, destination: nat, ts: nat)
    requires S.cfg.Valid() && Shape(S.cfg, c) && t < S.cfg.threads && destination < S.cfg.objects
    requires ts / S.cfg.look % S.cfg.slots < S.cfg.slots
    requires PassInv(ths, c) && HandleInv(S.cfg, ths, c) && EndInv(ths, c, false) && Conserved(c)
    ensures var c' := Put(S.cfg, c, t, destination, ts);
            PassInv(ths, c') && HandleInv(S.cfg, ths, c') && EndInv(ths, c', false) && Conserved(c')
  {
    var c' := Put(S.cfg, c, t, destination, ts);
    forall u | 0 <= u < |ths| ensures PassOk(ths[u], c'.epoch, c'.cursor[u], |c'.fallback[u]|) {
      assert PassOk(ths[u], c.epoch, c.cursor[u], |c.fallback[u]|);
    }
    forall u | 0 <= u < |ths| ensures HandleOk(S.cfg, ths[u], c') {
      assert HandleOk(S.cfg, ths[u], c);
    }
  }

  lemma SendHolder(S: Setting, w: World, t: nat, destination: nat, ts: nat)
    requires Inv(S, w) && t < S.cfg.threads && destination < S.cfg.objects && MaySend(S, w.threads[t], ts)
    ensures var w' := w.(cal := Put(S.cfg, w.cal, t, destination, ts));
            Keeps.Inv(S.cfg, w'.cal) && Ready(S, w') && HolderInv(S, w')
  {
    SendAhead(S, w, t, ts);
    Keeps.PutInv(S.cfg, w.cal, t, destination, ts);
    var w' := w.(cal := Put(S.cfg, w.cal, t, destination, ts));
    ReadyAgain(S, w');
    if ts / S.cfg.look > w.cal.epoch {
      PutKeepsCurrent(S.cfg, w.cal, t, destination, ts);
    }
    HolderFrame(S, w, w'.cal);
  }

  lemma SendInv(S: Setting, w: World, t: nat, destination: nat, ts: nat)
    requires Inv(S, w) && t < S.cfg.threads && destination < S.cfg.objects && MaySend(S, w.threads[t], ts)
    ensures Inv(S, w.(cal := Put(S.cfg, w.cal, t, destination, ts)))
  {
    SendAhead(S, w, t, ts);
    SendThreads(S, w.threads, w.cal, t, destination, ts);
    SendHolder(S, w, t, destination, ts);
  }

  // ---- refilling ----

  lemma RefillKeepsRest(S: Setting, w: World, t: nat)
    requires Inv(S, w) && t < S.cfg.threads && w.cal.cursor[t] < |w.cal.fallback[t]|
    requires w.threads[t].stage == Filling && w.threads[t].round > 0
    ensures var c' := Refill(S.cfg, w.cal, t);
            Ready(S, w.(cal := c')) && Keeps.Inv(S.cfg, c') && HolderInv(S, w.(cal := c'))
  {
    Keeps.RefillInv(S.cfg, w.cal, t);
    assert DrawOk(S, w.threads[t], t, w.counters, w.cal.epoch);
    ReadyAgain(S, w.(cal := Refill(S.cfg, w.cal, t)));
    HolderFrame(S, w, Refill(S.cfg, w.cal, t));
  }

  lemma RefillThreads(S: Setting, ths: seq<Thread>, c: Calendar, t: nat, end: bool)
    requires S.cfg.Valid() && Shape(S.cfg, c) && t < |ths| && t < S.cfg.threads && c.cursor[t] < |c.fallback[t]|
    requires c.fallback[t][c.cursor[t]].destination < S.cfg.objects && c.fallback[t][c.cursor[t]].slot < S.cfg.slots
    requires ths[t].stage == Filling && ths[t].round > 0
    requires PassInv(ths, c) && HandleInv(S.cfg, ths, c) && EndInv(ths, c, end) && Conserved(c)
    ensures var c' := Refill(S.cfg, c, t);
            PassInv(ths, c') && HandleInv(S.cfg, ths, c') && EndInv(ths, c', end) && Conserved(c')
  {
    var c' := Refill(S.cfg, c, t);
    forall u | 0 <= u < |ths| ensures PassOk(ths[u], c'.epoch, c'.cursor[u], |c'.fallback[u]|) {
      assert PassOk(ths[u], c.epoch, c.cursor[u], |c.fallback[u]|);
    }
    forall u | 0 <= u < |ths| ensures HandleOk(S.cfg, ths[u], c') && EndOk(ths[u], c'.epoch, end) {
      assert HandleOk(S.cfg, ths[u], c) && EndOk(ths[u], c.epoch, end);
    }
  }

  lemma FillInv(S: Setting, w: World, t: nat)
    requires Inv(S, w) && t < S.cfg.threads && w.cal.cursor[t] < |w.cal.fallback[t]|
    requires w.threads[t].stage == Filling && w.threads[t].round > 0
    ensures Inv(S, w.(cal := Refill(S.cfg, w.cal, t)))
  {
    RefillKeepsRest(S, w, t);
    RefillThreads(S, w.threads, w.cal, t, w.end);
  }

  // ---- update_timing ----

  /** At `update_timing` every object has been given out and its holder has found its slot empty. */
  lemma SlotsAreEmpty(S: Setting, w: World, t: nat)
    requires Inv(S, w) && t < S.cfg.threads && w.threads[t].stage == Timing && S.elect(w.threads[t].round) == t
    ensures Keeps.CurrentSlotsEmpty(w.cal) && Keeps.PassesDone(w.cal) && w.cal.epoch == w.threads[t].round
    ensures forall o | 0 <= o < S.cfg.objects :: 0 <= w.holder[o] < S.cfg.threads
  {
    UpdateEpoch(S, w.threads, t, w.cal.epoch);
    SameRound(w.threads, t);
    PassesAreDone(S, w.threads, t, w.cal);
    assert DrawOk(S, w.threads[t], t, w.counters, w.cal.epoch);
    forall o | 0 <= o < S.cfg.objects
      ensures w.cal.queues[o][w.cal.index] == [] && 0 <= w.holder[o] < S.cfg.threads
    {
      assert InNode(S.count, S.first, S.nodeOf[o], o);
      assert Drawn(S, w.counters, S.nodeOf[o]);
      assert Given(S, w.counters, o);
      assert DrawOk(S, w.threads[w.holder[o]], w.holder[o], w.counters, w.cal.epoch);
    }
  }

  lemma UpdateDraw(S: Setting, ths: seq<Thread>, t: nat, counters: seq<nat>, zeros: seq<nat>, epoch: nat)
    requires DrawInv(S, ths, counters, epoch) && SyncInv(ths) && t < |ths| && ths[t].stage == Timing
    requires epoch == ths[t].round && |zeros| == |counters| && Zeroed(zeros)
    ensures DrawInv(S, ths[t := ths[t].(stage := TimingDone)], zeros, epoch + 1)
  {
    SameRound(ths, t);
    var ths' := ths[t := ths[t].(stage := TimingDone)];
    forall u | 0 <= u < |ths| ensures DrawOk(S, ths'[u], u, zeros, epoch + 1) {
      assert DrawOk(S, ths[u], u, counters, epoch);
    }
  }

  lemma UpdateHolder(S: Setting, w: World)
    requires Ready(S, w) && Zeroed(w.counters)
    requires forall t | 0 <= t < |w.threads| :: w.threads[t].mode == Idle
    requires forall o | 0 <= o < S.cfg.objects :: w.holder[o] == -1
    ensures HolderInv(S, w)
  {
    forall o | 0 <= o < S.cfg.objects ensures !Given(S, w.counters, o) {
      assert InNode(S.count, S.first, S.nodeOf[o], o);
    }
  }

  lemma UpdateThreads(S: Setting, ths: seq<Thread>, c: Calendar, t: nat, end: bool, counters: seq<nat>)
    requires S.cfg.Valid() && SyncInv(ths) && t < |ths| && ths[t].stage == Timing && c.epoch == ths[t].round
    requires PassInv(ths, c) && EndInv(ths, c, end) && Conserved(c) && DrawInv(S, ths, counters, c.epoch)
    ensures var c', ths', end' := Advance(S.cfg, c), ths[t := ths[t].(stage := TimingDone)], end || c.pending == 0;
            && PassInv(ths', c') && HandleInv(S.cfg, ths', c') && EndInv(ths', c', end') && Conserved(c')
            && forall u | 0 <= u < |ths'| :: ths'[u].mode == Idle
  {
    SameRound(ths, t);
    var c', ths' := Advance(S.cfg, c), ths[t := ths[t].(stage := TimingDone)];
    forall u | 0 <= u < |ths| ensures ths'[u].mode == Idle && ths'[u].round == ths[t].round && ths'[u].stage != Filling
      ensures EndOk(ths'[u], c'.epoch, end || c.pending == 0)
    {
      assert DrawOk(S, ths[u], u, counters, c.epoch) && EndOk(ths[u], c.epoch, end);
    }
  }

  ghost function Updated(S: Setting, w: World, t: nat): World
    requires S.cfg.Valid() && t < |w.threads|
  {
    UpdateTiming(S, w.(threads := w.threads[t := w.threads[t].(stage := TimingDone)]))
  }

  lemma UpdateProtocol(S: Setting, w: World, t: nat)
    requires Inv(S, w) && t < S.cfg.threads && w.threads[t].stage == Timing && S.elect(w.threads[t].round) == t
    ensures var w' := Updated(S, w, t);
            && Zeroed(w'.counters) && SyncInv(w'.threads) && EpochInv(S, w'.threads, w'.cal.epoch)
            && DrawInv(S, w'.threads, w'.counters, w'.cal.epoch)
  {
    var w' := Updated(S, w, t);
    UpdateEpoch(S, w.threads, t, w.cal.epoch);
    MoveOnSync(w.threads, t, w'.threads[t]);
    UpdateDraw(S, w.threads, t, w.counters, w'.counters, w.cal.epoch);
  }

  lemma UpdateCalendar(S: Setting, w: World, t: nat)
    requires Inv(S, w) && t < S.cfg.threads && w.threads[t].stage == Timing && S.elect(w.threads[t].round) == t
    ensures var w' := Updated(S, w, t);
            && Keeps.Inv(S.cfg, w'.cal) && Ready(S, w') && HolderInv(S, w')
            && PassInv(w'.threads, w'.cal) && HandleInv(S.cfg, w'.threads, w'.cal)
            && EndInv(w'.threads, w'.cal, w'.end) && Conserved(w'.cal)
  {
    var w' := Updated(S, w, t);
    SlotsAreEmpty(S, w, t);
    Keeps.AdvanceInv(S.cfg, w.cal);
    UpdateThreads(S, w.threads, w.cal, t, w.end, w.counters);
    ReadyAgain(S, w');
    UpdateHolder(S, w');
  }

  lemma UpdateInv(S: Setting, w: World, t: nat)
    requires Inv(S, w) && t < S.cfg.threads && w.threads[t].stage == Timing && S.elect(w.threads[t].round) == t
    ensures Inv(S, Updated(S, w, t))
  {
    UpdateProtocol(S, w, t);
    UpdateCalendar(S, w, t);
  }

  // ---- moving on ----

  /** What the invariant says about one thread. */
  ghost predicate ThreadOk(S: Setting, th: Thread, t: nat, w: World) {
    && S.Valid() && t < |S.home| && |w.counters| == |S.count| && t < |w.cal.cursor| && t < |w.cal.fallback|
    && ThreadReady(S, th) && EpochOk(S, th, t, w.cal.epoch) && DrawOk(S, th, t, w.counters, w.cal.epoch)
    && PassOk(th, w.cal.epoch, w.cal.cursor[t], |w.cal.fallback[t]|)
    && HandleOk(S.cfg, th, w.cal) && EndOk(th, w.cal.epoch, w.end)
  }

  lemma OneThread(S: Setting, w: World, t: nat)
    requires ProtocolInv(S, w) && t < S.cfg.threads
    ensures ThreadOk(S, w.threads[t], t, w)
  {
  }

  /** One thread changes and the shared state does not. */
  lemma ThreadInv(S: Setting, w: World, t: nat, th: Thread)
    requires Inv(S, w) && t < S.cfg.threads && SyncInv(w.threads[t := th]) && ThreadOk(S, th, t, w)
    requires forall o | 0 <= o < S.cfg.objects && Holds(th, o) :: Holds(w.threads[t], o)
    requires forall o | 0 <= o < S.cfg.objects && Holds(w.threads[t], o) && !Holds(th, o) ::
               w.cal.queues[o][w.cal.index] == []
    ensures Inv(S, w.(threads := w.threads[t := th]))
  {
    var ths' := w.threads[t := th];
    assert EpochInv(S, ths', w.cal.epoch) && DrawInv(S, ths', w.counters, w.cal.epoch);
    assert PassInv(ths', w.cal) && HandleInv(S.cfg, ths', w.cal) && EndInv(ths', w.cal, w.end);
    ThreadHolder(S, w, t, th);
  }

  lemma ThreadHolder(S: Setting, w: World, t: nat, th: Thread)
    requires Ready(S, w) && HolderInv(S, w) && t < S.cfg.threads && ThreadReady(S, th)
    requires forall o | 0 <= o < S.cfg.objects && Holds(th, o) :: Holds(w.threads[t], o)
    requires forall o | 0 <= o < S.cfg.objects && Holds(w.threads[t], o) && !Holds(th, o) ::
               w.cal.queues[o][w.cal.index] == []
    ensures var w' := w.(threads := w.threads[t := th]); Ready(S, w') && HolderInv(S, w')
  {
  }

  /** A thread enters or leaves a barrier. */
  predicate MovesOn(S: Setting, now: Thread, t: nat, th: Thread)
    requires t < |S.home|
  {
    match now.stage
    case Filling => th == now.(stage := FillDone)
    case FillDone => th == now.(stage := Working, mode := Seek, node := S.home[t], steals := 0)
    case Working => now.mode == Exhausted && th == now.(stage := WorkDone, mode := Idle)
    case WorkDone => th == now.(stage := Timing)
    case Timing => th == now.(stage := TimingDone)
    case TimingDone => th == now.(round := now.round + 1, stage := Filling)
  }

  lemma MovesOnOk(S: Setting, w: World, t: nat, th: Thread)
    requires t < |w.threads| && ThreadOk(S, w.threads[t], t, w) && MovesOn(S, w.threads[t], t, th)
    requires w.threads[t].stage == Filling && w.threads[t].round > 0 ==> w.cal.cursor[t] == |w.cal.fallback[t]|
    requires w.threads[t].stage == Working ==> !w.end
    requires w.threads[t].stage == Timing ==> S.elect(w.threads[t].round) != t
    requires w.threads[t].stage == TimingDone ==> w.cal.epoch == w.threads[t].round + 1
    ensures ThreadOk(S, th, t, w)
    ensures forall o: nat :: !Holds(w.threads[t], o) && !Holds(th, o)
  {
  }

  /** The steps between stages, except the one that runs `update_timing`. */
  lemma MovesOnInv(S: Setting, w: World, t: nat, th: Thread)
    requires Inv(S, w) && t < S.cfg.threads && MovesOn(S, w.threads[t], t, th)
    requires Waiting(w.threads[t].stage) ==> MayLeave(w, t)
    requires w.threads[t].stage == Filling && w.threads[t].round > 0 ==> w.cal.cursor[t] >= |w.cal.fallback[t]|
    requires w.threads[t].stage == Working ==> !w.end
    requires w.threads[t].stage == Timing ==> S.elect(w.threads[t].round) != t
    ensures Inv(S, w.(threads := w.threads[t := th]))
  {
    OneThread(S, w, t);
    assert Keeps.FallbackInv(S.cfg, w.cal.fallback[t], t, w.cal.cursor[t], w.cal.epoch, w.cal.stamp);
    if w.threads[t].stage == TimingDone {
      TimingSeen(S, w.threads, t, w.cal.epoch);
    }
    MovesOnOk(S, w, t, th);
    MoveOnSync(w.threads, t, th);
    ThreadInv(S, w, t, th);
  }

  /** A working thread only changes what it does next. */
  predicate ChangesMode(w: World, now: Thread, mode: Mode)
  {
    match now.mode
    case Look(_) => if w.end then mode == Stopped else mode == Again
    case Handle(o, _) => mode == Look(o)
    case Exhausted => w.end && mode == Stopped
    case _ => false
  }

  lemma ModeOk(S: Setting, th: Thread, t: nat, w: World, mode: Mode)
    requires ThreadOk(S, th, t, w) && th.stage == Working && ChangesMode(w, th, mode)
    ensures ThreadOk(S, th.(mode := mode), t, w)
    ensures forall o | 0 <= o < S.cfg.objects && Holds(th.(mode := mode), o) :: Holds(th, o)
  {
  }

  lemma NothingAtEnd(S: Setting, w: World, o: nat)
    requires Inv(S, w) && w.end && o < S.cfg.objects
    ensures w.cal.queues[o][w.cal.index] == []
  {
    Keeps.PendingZero(S.cfg, w.cal);
  }

  lemma ModeInv(S: Setting, w: World, t: nat, mode: Mode)
    requires Inv(S, w) && t < S.cfg.threads && w.threads[t].stage == Working && ChangesMode(w, w.threads[t], mode)
    requires w.threads[t].mode.Look? ==> w.end || w.cal.queues[w.threads[t].mode.target][w.cal.index] == []
    ensures Inv(S, SetMode(w, t, mode))
  {
    var th := w.threads[t].(mode := mode);
    OneThread(S, w, t);
    ModeOk(S, w.threads[t], t, w, mode);
    StaySync(w.threads, t, th);
    if w.threads[t].mode.Look? && w.end {
      NothingAtEnd(S, w, w.threads[t].mode.target);
    }
    ThreadInv(S, w, t, th);
  }

  // ---- extraction ----

  lemma TakeCalendar(S: Setting, c: Calendar, o: nat)
    requires Keeps.Inv(S.cfg, c) && Conserved(c) && o < S.cfg.objects && c.queues[o][c.index] != []
    ensures var c', e := Take(S.cfg, c, o), c.queues[o][c.index][0];
            Keeps.Inv(S.cfg, c') && Conserved(c') && Timed(S.cfg, e) && e.epoch == c.epoch
  {
    Keeps.TakeInv(S.cfg, c, o);
    Keeps.SumUpdate(c.log, o, c.log[o] + [c.queues[o][c.index][0]]);
    var l := c.queues[o][c.index];
    assert Keeps.SlotInv(l, o, c.index, c.epoch, S.cfg.slots, c.stamp) && AllTimed(S.cfg, l);
    Keeps.HeadIsCurrent(S.cfg, l[0], c.epoch);
  }

  ghost function Taken(S: Setting, w: World, t: nat, o: nat): World
    requires Ready(S, w) && t < S.cfg.threads && o < S.cfg.objects && w.cal.queues[o][w.cal.index] != []
  {
    SetMode(w.(cal := Take(S.cfg, w.cal, o)), t, Handle(o, w.cal.queues[o][w.cal.index][0]))
  }

  lemma TakeHolder(S: Setting, w: World, t: nat, o: nat)
    requires Ready(S, w) && HolderInv(S, w) && t < S.cfg.threads && o < S.cfg.objects
    requires w.cal.queues[o][w.cal.index] != [] && w.threads[t].mode == Look(o)
    ensures Ready(S, Taken(S, w, t, o)) && HolderInv(S, Taken(S, w, t, o))
  {
    var w' := Taken(S, w, t, o);
    assert Holds(w.threads[t], o);
    forall p | 0 <= p < S.cfg.objects
      ensures if Given(S, w.counters, p) then
                && 0 <= w'.holder[p] < |w'.threads|
                && (Holds(w'.threads[w'.holder[p]], p) || w'.cal.queues[p][w'.cal.index] == [])
              else w'.holder[p] == -1
    {
    }
  }

  lemma TakeThreads(S: Setting, w: World, t: nat, o: nat)
    requires ProtocolInv(S, w) && t < S.cfg.threads && o < S.cfg.objects && w.cal.queues[o][w.cal.index] != []
    requires w.threads[t].mode == Look(o) && !w.end
    requires var e := w.cal.queues[o][w.cal.index][0]; Timed(S.cfg, e) && e.epoch == w.cal.epoch
    ensures var w' := Taken(S, w, t, o);
            && SyncInv(w'.threads) && EpochInv(S, w'.threads, w'.cal.epoch)
            && DrawInv(S, w'.threads, w'.counters, w'.cal.epoch) && PassInv(w'.threads, w'.cal)
            && HandleInv(S.cfg, w'.threads, w'.cal) && EndInv(w'.threads, w'.cal, w'.end)
  {
    var w' := Taken(S, w, t, o);
    StaySync(w.threads, t, w'.threads[t]);
    assert DrawOk(S, w.threads[t], t, w.counters, w.cal.epoch);
    SameRound(w.threads, t);
    forall u | 0 <= u < |w.threads| ensures ThreadOk(S, w'.threads[u], u, w') {
      OneThread(S, w, u);
    }
  }

  lemma ExtractInv(S: Setting, w: World, t: nat, o: nat)
    requires Inv(S, w) && t < S.cfg.threads && o < S.cfg.objects && w.cal.queues[o][w.cal.index] != []
    requires w.threads[t].mode == Look(o) && !w.end
    ensures Inv(S, Taken(S, w, t, o))
  {
    TakeCalendar(S, w.cal, o);
    TakeThreads(S, w, t, o);
    TakeHolder(S, w, t, o);
  }

  // ---- drawing a ticket ----

  /** A ticket gives out its object and no other. */
  lemma TicketGives(S: Setting, counters: seq<nat>, v: nat, o: nat)
    requires S.Valid() && |counters| == |S.count| && v < |counters| && o < S.cfg.objects
    ensures Given(S, counters[v := counters[v] + 1], o) <==>
            Given(S, counters, o) || (counters[v] < S.count[v] && o == S.first[v] + counters[v])
  {
    assert InNode(S.count, S.first, S.nodeOf[o], o);
    if counters[v] < S.count[v] && o == S.first[v] + counters[v] {
      assert InNode(S.count, S.first, v, o);
    }
  }

  lemma NextVisit(S: Setting, t: nat, i: nat)
    requires S.Valid() && t < |S.home|
    ensures (Visit(S, t, i) + 1) % |S.count| == Visit(S, t, i + 1)
  {
    NextSlot(S.home[t] + i, |S.count|);
  }

  /** Visiting as many nodes as there are visits them all. */
  lemma VisitsAll(S: Setting, t: nat, v: nat) returns (i: nat)
    requires S.Valid() && t < |S.home| && v < |S.count|
    ensures i < |S.count| && Visit(S, t, i) == v
  {
    var n := |S.count|;
    if v >= S.home[t] {
      i := v - S.home[t];
      ModOf(0, v, n);
    } else {
      i := v + n - S.home[t];
      ModOf(1, v, n);
    }
  }

  lemma ExhaustedAll(S: Setting, th: Thread, t: nat, counters: seq<nat>)
    requires S.Valid() && t < |S.home| && |counters| == |S.count|
    requires VisitOk(S, th, t, counters) && th.steals == |S.count|
    ensures AllDrawn(S, counters)
  {
    forall v: nat ensures Drawn(S, counters, v) {
      if v < |S.count| {
        var i := VisitsAll(S, t, v);
      }
    }
  }

  lemma StolenFrom(S: Setting, th: Thread, t: nat, x: nat)
    requires S.Valid() && t < |S.home| && th.node < |S.count| && th.steals < |S.count| && x >= S.count[th.node]
    requires th.mode == Seek && th.node == Visit(S, t, th.steals)
    ensures AfterTicket(S, th, x).steals == th.steals + 1 && AfterTicket(S, th, x).node == Visit(S, t, th.steals + 1)
  {
    NextVisit(S, t, th.steals);
  }

  lemma StealOk(S: Setting, th: Thread, t: nat, counters: seq<nat>, th': Thread)
    requires S.Valid() && t < |S.home| && |counters| == |S.count| && th.node < |S.count|
    requires VisitOk(S, th, t, counters) && th.steals < |S.count| && Drawn(S, counters, th.node)
    requires th'.steals == th.steals + 1 && th'.node == Visit(S, t, th'.steals)
    ensures VisitOk(S, th', t, counters)
  {
    forall i: nat | i < th'.steals ensures Drawn(S, counters, Visit(S, t, i)) {
      if i == th.steals {
        assert Visit(S, t, i) == th.node;
      }
    }
  }

  /** A thread's claims about the counters survive another ticket. */
  lemma DrawnStill(S: Setting, th: Thread, t: nat, counters: seq<nat>, v: nat, epoch: nat)
    requires S.Valid() && t < |S.home| && |counters| == |S.count| && v < |counters|
    requires DrawOk(S, th, t, counters, epoch) && th.stage != Filling && epoch == th.round
    ensures DrawOk(S, th, t, counters[v := counters[v] + 1], epoch)
  {
    var counters' := counters[v := counters[v] + 1];
    forall u: nat | Drawn(S, counters, u) ensures Drawn(S, counters', u) {
    }
  }

  lemma AfterTicketVisits(S: Setting, th: Thread, t: nat, counters: seq<nat>)
    requires S.Valid() && t < |S.home| && |counters| == |S.count| && th.node < |S.count|
    requires VisitOk(S, th, t, counters) && th.mode in {Seek, Again}
    ensures VisitOk(S, AfterTicket(S, th, counters[th.node]), t, counters)
    ensures AfterTicket(S, th, counters[th.node]).mode == Exhausted ==> AllDrawn(S, counters)
  {
    var x := counters[th.node];
    if x >= S.count[th.node] && th.mode == Seek {
      if th.steals < |S.count| {
        StolenFrom(S, th, t, x);
        StealOk(S, th, t, counters, AfterTicket(S, th, x));
      } else {
        ExhaustedAll(S, th, t, counters);
      }
    }
  }

  /** The thread itself after its ticket, with the new counters. */
  lemma DrawerDraws(S: Setting, th: Thread, t: nat, counters: seq<nat>, epoch: nat)
    requires S.Valid() && t < |S.home| && |counters| == |S.count| && th.node < |S.count|
    requires DrawOk(S, th, t, counters, epoch) && epoch == th.round && th.mode in {Seek, Again}
    ensures var x := counters[th.node];
            DrawOk(S, AfterTicket(S, th, x), t, counters[th.node := x + 1], epoch)
  {
    var x := counters[th.node];
    AfterTicketVisits(S, th, t, counters);
    DrawnStill(S, AfterTicket(S, th, x), t, counters, th.node, epoch);
  }

  lemma TargetReady(S: Setting, th: Thread, x: nat)
    requires S.Valid() && th.node < |S.count| && ThreadReady(S, th)
    ensures ThreadReady(S, AfterTicket(S, th, x))
  {
    if x < S.count[th.node] {
      assert InNode(S.count, S.first, th.node, S.first[th.node] + x);
    }
  }

  lemma DrawRest(S: Setting, ths: seq<Thread>, t: nat, th: Thread, cal: Calendar, end: bool)
    requires S.cfg.Valid() && t < |ths| && th.round == ths[t].round && th.stage == ths[t].stage == Working
    requires !th.mode.Handle? && !th.mode.Stopped?
    requires SyncInv(ths) && EpochInv(S, ths, cal.epoch) && PassInv(ths, cal) && HandleInv(S.cfg, ths, cal)
    requires EndInv(ths, cal, end)
    ensures var ths' := ths[t := th];
            && SyncInv(ths') && EpochInv(S, ths', cal.epoch) && PassInv(ths', cal) && HandleInv(S.cfg, ths', cal)
            && EndInv(ths', cal, end)
  {
    StaySync(ths, t, th);
    var ths' := ths[t := th];
    forall u | 0 <= u < |ths'|
      ensures EpochOk(S, ths'[u], u, cal.epoch) && PassOk(ths'[u], cal.epoch, cal.cursor[u], |cal.fallback[u]|)
      ensures HandleOk(S.cfg, ths'[u], cal) && EndOk(ths'[u], cal.epoch, end)
    {
      assert EpochOk(S, ths[u], u, cal.epoch) && PassOk(ths[u], cal.epoch, cal.cursor[u], |cal.fallback[u]|);
      assert HandleOk(S.cfg, ths[u], cal) && EndOk(ths[u], cal.epoch, end);
    }
  }

  lemma DrawDraws(S: Setting, ths: seq<Thread>, t: nat, counters: seq<nat>, epoch: nat)
    requires DrawInv(S, ths, counters, epoch) && SyncInv(ths) && EpochInv(S, ths, epoch) && t < |ths|
    requires ths[t].mode in {Seek, Again} && ths[t].node < |counters|
    ensures var v := ths[t].node;
            var x := counters[v];
            DrawInv(S, ths[t := AfterTicket(S, ths[t], x)], counters[v := x + 1], epoch)
  {
    var v := ths[t].node;
    var ths' := ths[t := AfterTicket(S, ths[t], counters[v])];
    assert DrawOk(S, ths[t], t, counters, epoch);
    SameRound(ths, t);
    forall u | 0 <= u < |ths| ensures DrawOk(S, ths'[u], u, counters[v := counters[v] + 1], epoch) {
      assert DrawOk(S, ths[u], u, counters, epoch) && EpochOk(S, ths[t], t, epoch);
      if u == t {
        DrawerDraws(S, ths[t], t, counters, epoch);
      } else {
        DrawnStill(S, ths[u], u, counters, v, epoch);
      }
    }
  }

  lemma DrawHolder(S: Setting, w: World, t: nat)
    requires Ready(S, w) && HolderInv(S, w) && t < S.cfg.threads && w.threads[t].mode in {Seek, Again}
    ensures Ready(S, Draw(S, w, t)) && HolderInv(S, Draw(S, w, t))
  {
    var v := w.threads[t].node;
    var x := w.counters[v];
    TargetReady(S, w.threads[t], x);
    var w' := Draw(S, w, t);
    forall o | 0 <= o < S.cfg.objects
      ensures Given(S, w'.counters, o) <==> Given(S, w.counters, o) || (x < S.count[v] && o == S.first[v] + x)
    {
      TicketGives(S, w.counters, v, o);
    }
    if x < S.count[v] {
      assert InNode(S.count, S.first, v, S.first[v] + x);
      assert !Given(S, w.counters, S.first[v] + x);
    }
    HolderOf(S, w, t, v, x, w');
  }

  lemma HolderOf(S: Setting, w: World, t: nat, v: nat, x: nat, w': World)
    requires Ready(S, w) && HolderInv(S, w) && t < S.cfg.threads && v < |S.count| && Ready(S, w')
    requires w'.cal == w.cal && w'.holder == Hold(S, w.holder, t, v, x)
    requires var th := w'.threads[t];
             w'.threads == w.threads[t := th] && w.threads[t].mode in {Seek, Again}
             && if x < S.count[v] then th.mode == Look(S.first[v] + x) else !th.mode.Look? && !th.mode.Handle?
    requires forall o | 0 <= o < S.cfg.objects ::
               Given(S, w'.counters, o) <==> Given(S, w.counters, o) || (x < S.count[v] && o == S.first[v] + x)
    requires x < S.count[v] ==> S.first[v] + x < S.cfg.objects && !Given(S, w.counters, S.first[v] + x)
    ensures HolderInv(S, w')
  {
  }

  lemma DrawProtocol(S: Setting, w: World, t: nat)
    requires ProtocolInv(S, w) && t < S.cfg.threads && w.threads[t].mode in {Seek, Again}
    ensures ProtocolInv(S, Draw(S, w, t))
  {
    var th := w.threads[t];
    assert DrawOk(S, th, t, w.counters, w.cal.epoch);
    DrawHolder(S, w, t);
    DrawDraws(S, w.threads, t, w.counters, w.cal.epoch);
    DrawRest(S, w.threads, t, AfterTicket(S, th, w.counters[th.node]), w.cal, w.end);
  }

  lemma DrawStepInv(S: Setting, w: World, t: nat)
    requires Inv(S, w) && t < S.cfg.threads && w.threads[t].mode in {Seek, Again}
    ensures Inv(S, Draw(S, w, t))
  {
    DrawProtocol(S, w, t);
  }

  // ---- every run ----

  lemma StartThread(S: Setting, t: nat)
    requires S.Valid() && t < S.cfg.threads
    ensures ThreadOk(S, Thread(0, Filling, 0, 0, Idle), t, Start(S))
  {
  }

  lemma StartThreads(S: Setting, w: World)
    requires Ready(S, w) && forall t | 0 <= t < |w.threads| :: w.threads[t] == Thread(0, Filling, 0, 0, Idle)
    requires forall t | 0 <= t < |w.threads| :: ThreadOk(S, w.threads[t], t, w)
    requires HolderInv(S, w) && !w.end
    ensures ProtocolInv(S, w)
  {
    StartSync(w.threads);
  }

  lemma StartSync(ths: seq<Thread>)
    requires forall t | 0 <= t < |ths| :: ths[t] == Thread(0, Filling, 0, 0, Idle)
    ensures SyncInv(ths)
  {
    assert Sync(Thread(0, Filling, 0, 0, Idle), Thread(0, Filling, 0, 0, Idle));
  }

  lemma StartProtocol(S: Setting)
    requires S.Valid() && Ready(S, Start(S))
    ensures ProtocolInv(S, Start(S))
  {
    var w := Start(S);
    UpdateHolder(S, w);
    forall t | 0 <= t < |w.threads| ensures ThreadOk(S, w.threads[t], t, w) {
      StartThread(S, t);
    }
    StartThreads(S, w);
  }

  lemma StartReady(S: Setting)
    requires S.Valid()
    ensures Ready(S, Start(S))
  {
  }

  lemma StartConserved(S: Setting)
    requires S.cfg.Valid()
    ensures Conserved(Initial(S.cfg))
  {
    Keeps.SumZero(Initial(S.cfg).log);
  }

  lemma StartInv(S: Setting)
    requires S.Valid()
    ensures Inv(S, Start(S))
  {
    Keeps.InitialInv(S.cfg);
    StartConserved(S);
    StartReady(S);
    StartProtocol(S);
  }

  lemma LookInv(S: Setting, w: World, t: nat)
    requires Inv(S, w) && t < S.cfg.threads && w.threads[t].stage == Working && w.threads[t].mode.Look?
    ensures Inv(S, Work(S, w, t))
  {
    var o := w.threads[t].mode.target;
    if w.end {
      ModeInv(S, w, t, Stopped);
    } else if w.cal.queues[o][w.cal.index] == [] {
      ModeInv(S, w, t, Again);
    } else {
      ExtractInv(S, w, t, o);
    }
  }

  lemma WorkInv(S: Setting, w: World, t: nat)
    requires Inv(S, w) && t < S.cfg.threads && w.threads[t].stage == Working
    ensures Inv(S, Work(S, w, t))
  {
    var th := w.threads[t];
    match th.mode
    case Idle =>
    case Seek => DrawStepInv(S, w, t);
    case Again => DrawStepInv(S, w, t);
    case Look(_) => LookInv(S, w, t);
    case Handle(o, _) => ModeInv(S, w, t, Look(o));
    case Exhausted =>
      if w.end {
        ModeInv(S, w, t, Stopped);
      } else {
        MovesOnInv(S, w, t, th.(stage := WorkDone, mode := Idle));
      }
    case Stopped =>
  }

  lemma FillStepInv(S: Setting, w: World, t: nat)
    requires Inv(S, w) && t < S.cfg.threads && w.threads[t].stage == Filling
    ensures Inv(S, Step(S, w, t))
  {
    var th := w.threads[t];
    if th.round > 0 && w.cal.cursor[t] < |w.cal.fallback[t]| {
      FillInv(S, w, t);
    } else {
      MovesOnInv(S, w, t, th.(stage := FillDone));
    }
  }

  lemma LeaveInv(S: Setting, w: World, t: nat)
    requires Inv(S, w) && t < S.cfg.threads && Waiting(w.threads[t].stage)
    ensures Inv(S, Step(S, w, t))
  {
    if MayLeave(w, t) {
      MovesOnInv(S, w, t, Step(S, w, t).threads[t]);
    }
  }

  lemma TimingStepInv(S: Setting, w: World, t: nat)
    requires Inv(S, w) && t < S.cfg.threads && w.threads[t].stage == Timing
    ensures Inv(S, Step(S, w, t))
  {
    var th := w.threads[t];
    if S.elect(th.round) == t {
      UpdateInv(S, w, t);
    } else {
      MovesOnInv(S, w, t, th.(stage := TimingDone));
    }
  }

  lemma StepInv(S: Setting, w: World, t: nat)
    requires Inv(S, w) && t < S.cfg.threads
    ensures Inv(S, Step(S, w, t))
  {
    match w.threads[t].stage
    case Filling => FillStepInv(S, w, t);
    case Working => WorkInv(S, w, t);
    case Timing => TimingStepInv(S, w, t);
    case _ => LeaveInv(S, w, t);
  }

  lemma NextInv(S: Setting, w: World, a: Action)
    requires Inv(S, w)
    ensures Inv(S, Next(S, w, a))
  {
    if a.thread < S.cfg.threads {
      match a
      case Send(t, destination, ts) =>
        if destination < S.cfg.objects && MaySend(S, w.threads[t], ts) {
          SendInv(S, w, t, destination, ts);
        }
      case Go(t) => StepInv(S, w, t);
    }
  }

  /** The state after a schedule of actions. */
  ghost function Run(S: Setting, w: World, schedule: seq<Action>): World
    requires Inv(S, w)
    decreases |schedule|
  {
    if schedule == [] then w
    else
      NextInv(S, w, schedule[0]);
      Run(S, Next(S, w, schedule[0]), schedule[1..])
  }

  lemma {:induction false} RunInv(S: Setting, w: World, schedule: seq<Action>)
    requires Inv(S, w)
    ensures Inv(S, Run(S, w, schedule))
    decreases |schedule|
  {
    if schedule != [] {
      NextInv(S, w, schedule[0]);
      RunInv(S, Next(S, w, schedule[0]), schedule[1..]);
    }
  }
}
