/** What a whole epoch of speculation comes to: no step duplicates or loses an event, the object's own
    messages are held exactly as they are logged, and after any number of rollbacks state and sends are
    those of one straight run. */
module Replay {
  import opened Lists
  import opened Rollback
  import opened Speculation
  import opened StraightRun

  ghost function Held<S>(o: Object<S>): multiset<Event> {
    multiset(o.processed) + multiset(o.queue)
  }

  /** The events of one side: the object's own, or those from outside. */
  function Only(l: seq<Event>, own: bool): seq<Event> {
    if l == [] then [] else (if l[0].origin.Own? == own then [l[0]] else []) + Only(l[1..], own)
  }

  lemma {:induction false} OnlyCounts(l: seq<Event>, own: bool, e: Event)
    ensures multiset(Only(l, own))[e] == if e.origin.Own? == own then multiset(l)[e] else 0
  {
    if l != [] {
      assert l == [l[0]] + l[1..];
      OnlyCounts(l[1..], own, e);
    }
  }

  lemma {:induction false} KeptCounts(l: seq<Event>, t: int, e: Event)
    ensures multiset(Kept(l, t))[e] == if Stays(e, t) then multiset(l)[e] else 0
  {
    if l != [] {
      assert l == [l[0]] + l[1..];
      KeptCounts(l[1..], t, e);
    }
  }

  ghost function HeldOnly<S>(o: Object<S>, own: bool): multiset<Event> {
    multiset(Only(o.processed, own)) + multiset(Only(o.queue, own))
  }

  lemma HeldOnlyCounts<S>(o: Object<S>, own: bool, e: Event)
    ensures HeldOnly(o, own)[e] == if e.origin.Own? == own then Held(o)[e] else 0
  {
    OnlyCounts(o.processed, own, e);
    OnlyCounts(o.queue, own, e);
  }

  // ---- what the steps do to the events held ----

  ghost function Logged<S>(ep: Epoch<S>, o: Object<S>, e: Event): nat {
    multiset(OwnEvents(ep, o.logs.soon))[e]
  }

  lemma {:induction false} InsertCounts(l: seq<Event>, x: Event, e: Event)
    ensures multiset(Insert(l, x))[e] == multiset(l)[e] + if x == e then 1 else 0
  {
    InsertContents(l, x);
  }

  lemma LogCounts<S>(ep: Epoch<S>, log: seq<Sent>, s: Sent, e: Event)
    ensures multiset(OwnEvents(ep, log + [s]))[e] ==
            multiset(OwnEvents(ep, log))[e] + if IsOwn(ep, s.message) && OwnEvent(s) == e then 1 else 0
  {
    assert (log + [s])[..|log|] == log;
    AppendCounts(OwnEvents(ep, log), OwnEvent(s), e);
  }

  lemma AppendCounts(l: seq<Event>, x: Event, e: Event)
    ensures multiset(l + [x])[e] == multiset(l)[e] + if x == e then 1 else 0
  {
  }

  /** Own messages are delivered as they are logged. */
  lemma {:induction false} SendAllDelivers<S>(ep: Epoch<S>, o: Object<S>, at: int, messages: seq<Message>, e: Event)
    ensures var r := SendAll(ep, o, at, messages);
            multiset(r.queue)[e] + Logged(ep, o, e) == multiset(o.queue)[e] + Logged(ep, r, e)
    decreases |messages|
  {
    if messages != [] {
      SendDelivers(ep, o, at, messages[0], e);
      SendAllDelivers(ep, Send(ep, o, at, messages[0]), at, messages[1..], e);
    }
  }

  lemma SendDelivers<S>(ep: Epoch<S>, o: Object<S>, at: int, m: Message, e: Event)
    ensures var r := Send(ep, o, at, m);
            multiset(r.queue)[e] + Logged(ep, o, e) == multiset(o.queue)[e] + Logged(ep, r, e)
  {
    var s := Sent(at, m);
    SendIs(ep, o, at, m);
    LogCounts(ep, o.logs.soon, s, e);
    if IsOwn(ep, m) {
      InsertCounts(o.queue, OwnEvent(s), e);
    }
  }

  lemma SendIs<S>(ep: Epoch<S>, o: Object<S>, at: int, m: Message)
    ensures Send(ep, o, at, m).queue == if IsOwn(ep, m) then Insert(o.queue, OwnEvent(Sent(at, m))) else o.queue
    ensures Send(ep, o, at, m).logs.soon == if ep.start <= m.ts < ep.end then o.logs.soon + [Sent(at, m)] else o.logs.soon
  {
  }

  lemma ExtractedHolds<S>(ep: Epoch<S>, o: Object<S>, e: Event)
    requires o.queue != []
    ensures Held(Extracted(ep, o))[e] == Held(o)[e]
  {
    assert o.queue == [o.queue[0]] + o.queue[1..];
    AppendCounts(o.processed, o.queue[0], e);
  }

  lemma ExtractHolds<S>(ep: Epoch<S>, o: Object<S>, e: Event)
    requires Enabled(ep, o, Extract)
    ensures var r := Step(ep, o, Extract); Held(r)[e] + Logged(ep, o, e) == Held(o)[e] + Logged(ep, r, e)
  {
    ExtractedHolds(ep, o, e);
    var at, messages := o.queue[0].ts, ep.handler(o.state, o.queue[0]).1;
    SendAllIs(ep, Extracted(ep, o), at, messages);
    SendAllDelivers(ep, Extracted(ep, o), at, messages, e);
  }

  lemma FinishHolds<S>(ep: Epoch<S>, o: Object<S>, e: Event)
    requires Enabled(ep, o, Finish)
    ensures Held(Step(ep, o, Finish))[e] == if Stays(e, o.target) then Held(o)[e] else 0
  {
    RequeueContents(Kept(o.queue, o.target), Kept(o.processed, o.target));
    KeptCounts(o.queue, o.target, e);
    KeptCounts(o.processed, o.target, e);
  }

  /** The event that a step of another object takes away, and the one it adds. */
  ghost function Removed<S>(o: Object<S>, a: Action): multiset<Event> {
    if a.CancelProcessed? && a.k < |o.processed| then multiset{o.processed[a.k]}
    else if a.CancelQueued? && a.k < |o.queue| then multiset{o.queue[a.k]}
    else multiset{}
  }

  ghost function Added(a: Action): multiset<Event> {
    if a.Arrive? then multiset{a.e} else multiset{}
  }

  lemma WithoutCounts(l: seq<Event>, k: nat, e: Event)
    requires k < |l|
    ensures multiset(Without(l, k))[e] + (if l[k] == e then 1 else 0) == multiset(l)[e]
  {
    WithoutContents(l, k);
  }

  lemma ArriveHolds<S>(o: Object<S>, x: Event, e: Event)
    ensures Held(Receive(o, x))[e] == Held(o)[e] + multiset{x}[e] && Receive(o, x).logs == o.logs
  {
    InsertCounts(o.queue, x, e);
  }

  lemma CancelProcessedHolds<S>(o: Object<S>, k: nat, e: Event)
    requires k < |o.processed|
    ensures var r := Violate(o, o.processed[k].ts).(processed := Without(o.processed, k));
            Held(r)[e] + multiset{o.processed[k]}[e] == Held(o)[e] && r.logs == o.logs
  {
    WithoutCounts(o.processed, k, e);
  }

  lemma CancelQueuedHolds<S>(o: Object<S>, k: nat, e: Event)
    requires k < |o.queue|
    ensures var r := Violate(o, o.queue[k].ts).(queue := Without(o.queue, k));
            Held(r)[e] + multiset{o.queue[k]}[e] == Held(o)[e] && r.logs == o.logs
  {
    WithoutCounts(o.queue, k, e);
  }

  lemma EnvironmentHolds<S>(ep: Epoch<S>, o: Object<S>, a: Action, e: Event)
    requires Enabled(ep, o, a) && !a.Extract? && !a.Finish?
    ensures Held(Step(ep, o, a))[e] + Removed(o, a)[e] == Held(o)[e] + Added(a)[e]
    ensures Step(ep, o, a).logs == o.logs
  {
    match a
    case Arrive(x) => ArriveHolds(o, x, e);
    case CancelProcessed(k) => CancelProcessedHolds(o, k, e);
    case CancelQueued(k) => CancelQueuedHolds(o, k, e);
    case Begin =>
  }

  // ---- events from outside ----

  lemma OwnAreOwn<S>(ep: Epoch<S>, log: seq<Sent>, e: Event)
    requires e.origin == Outside
    ensures multiset(OwnEvents(ep, log))[e] == 0
  {
    if e in OwnEvents(ep, log) {
      AllOwn(ep, log);
      assert false;
    }
  }

  lemma {:induction false} AllOwn<S>(ep: Epoch<S>, log: seq<Sent>)
    ensures forall e | e in OwnEvents(ep, log) :: e.origin.Own?
  {
    if log != [] {
      AllOwn(ep, log[..|log| - 1]);
    }
  }

  /** How many times an event from outside is held changes by arrivals and cancellations alone. */
  lemma OutsideHolds<S>(ep: Epoch<S>, o: Object<S>, a: Action, e: Event)
    requires Enabled(ep, o, a) && e.origin == Outside
    ensures Held(Step(ep, o, a))[e] + Removed(o, a)[e] == Held(o)[e] + Added(a)[e]
  {
    if a.Finish? {
      FinishHolds(ep, o, e);
    } else if a.Extract? {
      ExtractHolds(ep, o, e);
      OwnAreOwn(ep, o.logs.soon, e);
      OwnAreOwn(ep, Step(ep, o, Extract).logs.soon, e);
    } else {
      EnvironmentHolds(ep, o, a, e);
    }
  }

  lemma EventConserved<S>(ep: Epoch<S>, o: Object<S>, a: Action, e: Event)
    requires Enabled(ep, o, a)
    ensures HeldOnly(Step(ep, o, a), false)[e] + Removed(o, a)[e] == HeldOnly(o, false)[e] + Added(a)[e]
  {
    HeldOnlyCounts(o, false, e);
    HeldOnlyCounts(Step(ep, o, a), false, e);
    if e.origin == Outside {
      OutsideHolds(ep, o, a, e);
    }
  }

  lemma Balanced(h': multiset<Event>, r: multiset<Event>, h: multiset<Event>, a: multiset<Event>)
    requires forall e: Event :: h'[e] + r[e] == h[e] + a[e]
    ensures h' + r == h + a
  {
  }

  lemma StepConserves<S>(ep: Epoch<S>, o: Object<S>, a: Action)
    requires Enabled(ep, o, a)
    ensures HeldOnly(Step(ep, o, a), false) + Removed(o, a) == HeldOnly(o, false) + Added(a)
  {
    forall e: Event
      ensures HeldOnly(Step(ep, o, a), false)[e] + Removed(o, a)[e] == HeldOnly(o, false)[e] + Added(a)[e]
    {
      EventConserved(ep, o, a, e);
    }
    Balanced(HeldOnly(Step(ep, o, a), false), Removed(o, a), HeldOnly(o, false), Added(a));
  }

  ghost function AddedBy(actions: seq<Action>): multiset<Event>
    decreases |actions|
  {
    if actions == [] then multiset{} else Added(actions[0]) + AddedBy(actions[1..])
  }

  ghost function RemovedBy<S>(ep: Epoch<S>, o: Object<S>, actions: seq<Action>): multiset<Event>
    requires Runs(ep, o, actions)
    decreases |actions|
  {
    if actions == [] then multiset{}
    else Removed(o, actions[0]) + RemovedBy(ep, Step(ep, o, actions[0]), actions[1..])
  }

  /** No run duplicates or loses an event from outside. */
  lemma {:induction false} RunConserves<S>(ep: Epoch<S>, o: Object<S>, actions: seq<Action>)
    requires Runs(ep, o, actions)
    ensures HeldOnly(After(ep, o, actions), false) + RemovedBy(ep, o, actions) == HeldOnly(o, false) + AddedBy(actions)
    decreases |actions|
  {
    if actions != [] {
      var next := Step(ep, o, actions[0]);
      StepConserves(ep, o, actions[0]);
      RunConserves(ep, next, actions[1..]);
      ChainBalances(HeldOnly(o, false), HeldOnly(next, false), HeldOnly(After(ep, o, actions), false),
                    Removed(o, actions[0]), RemovedBy(ep, next, actions[1..]), Added(actions[0]), AddedBy(actions[1..]));
    }
  }

  lemma ChainBalances(h: multiset<Event>, x: multiset<Event>, z: multiset<Event>,
                      r: multiset<Event>, r': multiset<Event>, a: multiset<Event>, a': multiset<Event>)
    requires x + r == h + a && z + r' == x + a'
    ensures z + (r + r') == h + (a + a')
  {
    forall e: Event
      ensures (z + (r + r'))[e] == (h + (a + a'))[e]
    {
      assert (x + r)[e] == (h + a)[e] && (z + r')[e] == (x + a')[e];
    }
  }

  // ---- the object's own events ----

  ghost predicate SortedSent(log: seq<Sent>) {
    forall i, k | 0 <= i < k < |log| :: log[i].at <= log[k].at
  }

  /** The log is in the order of the sends; outside a rollback, nothing was sent after the clock and the
      filter. */
  ghost predicate LogInv<S>(o: Object<S>) {
    && SortedSent(o.logs.soon)
    && (!o.standing && !o.rolling ==> forall s | s in o.logs.soon :: s.at <= o.now || s.at <= o.filter)
  }

  /** The own events held are those of the log. */
  ghost predicate OwnInv<S>(ep: Epoch<S>, o: Object<S>) {
    LogInv(o) && HeldOnly(o, true) == multiset(OwnEvents(ep, o.logs.soon))
  }

  lemma {:induction false} RecordAppends<S>(ep: Epoch<S>, logs: Logs, at: int, messages: seq<Message>)
    requires SortedSent(logs.soon) && forall s | s in logs.soon :: s.at <= at
    ensures var r := Record(ep, logs, at, messages); SortedSent(r.soon) && forall s | s in r.soon :: s.at <= at
    decreases |messages|
  {
    if messages != [] {
      var m, s := messages[0], Sent(at, messages[0]);
      assert forall i | 0 <= i < |logs.soon| :: logs.soon[i] in logs.soon;
      var next := if m.ts < ep.start then logs
                  else if m.ts >= ep.end then logs.(later := logs.later + [s])
                  else logs.(soon := logs.soon + [s]);
      RecordAppends(ep, next, at, messages[1..]);
    }
  }

  lemma {:induction false} TruncateSorted(log: seq<Sent>, t: int)
    requires SortedSent(log)
    ensures SortedSent(Truncate(log, t)) && forall s | s in Truncate(log, t) :: s.at < t && s in log
  {
    if log != [] && log[|log| - 1].at >= t {
      TruncateSorted(log[..|log| - 1], t);
    }
  }

  lemma {:induction false} OwnEventsBefore<S>(ep: Epoch<S>, log: seq<Sent>, t: int)
    requires forall s | s in log :: s.at < t
    ensures forall e | e in OwnEvents(ep, log) :: Stays(e, t)
  {
    if log != [] {
      OwnEventsBefore(ep, log[..|log| - 1], t);
    }
  }

  /** Of the own events of a log, a cut at t leaves those that stay. */
  lemma CutCounts<S>(ep: Epoch<S>, log: seq<Sent>, t: int, e: Event)
    requires SortedSent(log)
    ensures multiset(OwnEvents(ep, Truncate(log, t)))[e] == if Stays(e, t) then multiset(OwnEvents(ep, log))[e] else 0
  {
    RecalledSplits(ep, log, t);
    RecalledSince(ep, log, t);
    TruncateSorted(log, t);
    OwnEventsBefore(ep, Truncate(log, t), t);
    if Stays(e, t) && e in Recalled(ep, log, t) {
      assert false;
    }
    assert e in multiset(Recalled(ep, log, t)) <==> e in Recalled(ep, log, t);
  }

  lemma ExtractLog<S>(ep: Epoch<S>, o: Object<S>)
    requires OrderInv(ep, o) && LogInv(o) && Enabled(ep, o, Extract)
    ensures LogInv(Step(ep, o, Extract))
  {
    var e := o.queue[0];
    if o.filter < e.ts {
      SendAllIs(ep, Extracted(ep, o), e.ts, ep.handler(o.state, e).1);
      RecordAppends(ep, o.logs, e.ts, ep.handler(o.state, e).1);
    }
  }

  lemma StepLog<S>(ep: Epoch<S>, o: Object<S>, a: Action)
    requires OrderInv(ep, o) && LogInv(o) && Enabled(ep, o, a)
    ensures LogInv(Step(ep, o, a))
  {
    match a
    case Extract => ExtractLog(ep, o);
    case Finish =>
      TruncateSorted(o.logs.soon, o.target);
      RecallIs(o, Recalled(ep, o.logs.soon, o.target));
    case _ =>
  }

  lemma OwnHolds<S>(ep: Epoch<S>, o: Object<S>, a: Action, e: Event)
    requires Enabled(ep, o, a) && SortedSent(o.logs.soon) && e.origin.Own?
    requires Held(o)[e] == multiset(OwnEvents(ep, o.logs.soon))[e]
    ensures Held(Step(ep, o, a))[e] == multiset(OwnEvents(ep, Step(ep, o, a).logs.soon))[e]
  {
    if a.Finish? {
      FinishHolds(ep, o, e);
      CutCounts(ep, o.logs.soon, o.target, e);
    } else if a.Extract? {
      ExtractHolds(ep, o, e);
    } else {
      EnvironmentHolds(ep, o, a, e);
    }
  }

  lemma StepOwn<S>(ep: Epoch<S>, o: Object<S>, a: Action)
    requires OrderInv(ep, o) && OwnInv(ep, o) && Enabled(ep, o, a)
    ensures OwnInv(ep, Step(ep, o, a))
  {
    var o' := Step(ep, o, a);
    StepLog(ep, o, a);
    forall e: Event
      ensures HeldOnly(o', true)[e] == multiset(OwnEvents(ep, o'.logs.soon))[e]
    {
      HeldOnlyCounts(o, true, e);
      HeldOnlyCounts(o', true, e);
      if e.origin.Own? {
        assert HeldOnly(o, true)[e] == multiset(OwnEvents(ep, o.logs.soon))[e];
        OwnHolds(ep, o, a, e);
      } else {
        OwnAreOwn(ep, o'.logs.soon, e);
      }
    }
  }

  /** In every run the own events held are those that the log has. */
  lemma {:induction false} OwnAsLogged<S>(ep: Epoch<S>, o: Object<S>, actions: seq<Action>)
    requires OrderInv(ep, o) && OwnInv(ep, o) && Runs(ep, o, actions)
    ensures OwnInv(ep, After(ep, o, actions))
    decreases |actions|
  {
    if actions != [] {
      StepOrder(ep, o, actions[0]);
      StepOwn(ep, o, actions[0]);
      OwnAsLogged(ep, Step(ep, o, actions[0]), actions[1..]);
    }
  }

  lemma {:induction false} AllOutside(l: seq<Event>)
    requires forall e | e in l :: e.origin == Outside
    ensures Only(l, false) == l && Only(l, true) == []
  {
    if l != [] {
      assert l[0] in l && l == [l[0]] + l[1..];
      AllOutside(l[1..]);
    }
  }

  lemma FreshOwn<S>(ep: Epoch<S>, o: Object<S>)
    requires Fresh(ep, o)
    ensures OrderInv(ep, o) && OwnInv(ep, o) && HeldOnly(o, false) == multiset(o.queue)
  {
    AllOutside(o.queue);
  }

  // ---- the epoch's end ----

  /** However often the object was rolled back: when the epoch's events are used up, its memory and
      its send logs are those of one straight run over the processed events, in timestamp order: the
      events of the epoch and the arrivals, less the cancelled ones, and what the object sent itself.
      So nothing was sent twice and nothing was lost. */
  lemma ReplayIsExact<S(!new)>(ep: Epoch<S>, o: Object<S>, actions: seq<Action>)
    requires Forward(ep) && Fresh(ep, o) && Runs(ep, o, actions) && SafeRun(ep, o, actions)
    requires var last := After(ep, o, actions); last.queue == [] && !last.standing && !last.rolling
    ensures var last := After(ep, o, actions);
            && (last.state, last.logs) == Straight(ep, last.processed) && Sorted(last.processed)
            && last.state == Reached(ep, ep.checkpoint, last.processed)
            && last.logs.later == For(Said(ep, ep.checkpoint, last.processed), ep.end, 0, false)
            && last.logs.soon == For(Said(ep, ep.checkpoint, last.processed), ep.start, ep.end, true)
            && multiset(Only(last.processed, false)) + RemovedBy(ep, o, actions) == multiset(o.queue) + AddedBy(actions)
            && multiset(Only(last.processed, true)) == multiset(OwnEvents(ep, last.logs.soon))
  {
    FreshExact(ep, o);
    RunExact(ep, o, actions);
    DoneIsStraight(ep, After(ep, o, actions));
    FreshOwn(ep, o);
    FreshRun(ep, o, actions);
    DoneHolds(ep, After(ep, o, actions));
    StraightSays(ep, After(ep, o, actions).processed);
  }

  lemma FreshRun<S>(ep: Epoch<S>, o: Object<S>, actions: seq<Action>)
    requires OrderInv(ep, o) && OwnInv(ep, o) && Runs(ep, o, actions)
    ensures HeldOnly(After(ep, o, actions), false) + RemovedBy(ep, o, actions) == HeldOnly(o, false) + AddedBy(actions)
    ensures OwnInv(ep, After(ep, o, actions))
  {
    RunConserves(ep, o, actions);
    OwnAsLogged(ep, o, actions);
  }

  lemma DoneIsStraight<S>(ep: Epoch<S>, o: Object<S>)
    requires Exact(ep, o) && o.queue == [] && !o.standing && !o.rolling
    ensures (o.state, o.logs) == Straight(ep, o.processed) && Sorted(o.processed)
  {
    assert o.processed + [] == o.processed;
  }

  lemma DoneHolds<S>(ep: Epoch<S>, o: Object<S>)
    requires o.queue == []
    ensures HeldOnly(o, false) == multiset(Only(o.processed, false))
    ensures HeldOnly(o, true) == multiset(Only(o.processed, true))
  {
  }
}
