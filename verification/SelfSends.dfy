/** Messages of an object to itself, at single inputs: a straggler that makes the object recall one costs
    the messages of the events in between, and a model that answers without delay keeps its object in
    rollbacks forever. */
module SelfSends {
  import opened Rollback
  import opened Speculation
  import opened StraightRun
  import opened ReplayLimits

  // ---- an input that loses its messages ----

  lemma {:induction false} RunsConcat<S>(ep: Epoch<S>, o: Object<S>, a: seq<Action>, b: seq<Action>)
    requires Runs(ep, o, a) && Runs(ep, After(ep, o, a), b)
    ensures Runs(ep, o, a + b) && After(ep, o, a + b) == After(ep, After(ep, o, a), b)
    decreases |a|
  {
    if a == [] {
      assert a + b == b;
    } else {
      assert (a + b)[1..] == a[1..] + b;
      RunsConcat(ep, Step(ep, o, a[0]), a[1..], b);
    }
  }

  /** Every event tells object 1 in the next epoch; the one at 20 also sends the object itself one at 21. */
  function Relay(s: int, e: Event): (int, seq<Message>) {
    (s + 1, (if e.ts == 20 then [Message(0, 21, 0)] else []) + [Message(1, 100, e.body)])
  }

  function RelayEpoch(): Epoch<int> {
    Epoch(0, 10, 100, 0, Relay)
  }

  /** The object at the beginning of the epoch, with the event at 20. */
  function RelayObject(): Object<int> {
    Object(0, [], [Event(20, 0, Outside)], Logs([], []), 0, 9, false, 0, false, 0)
  }

  /** The object after the events at 20 and 21. */
  function RelayDone(): Object<int> {
    var told, own := Message(1, 100, 0), Message(0, 21, 0);
    Object(2, [Event(20, 0, Outside), Event(21, 0, Own(20))], [],
           Logs([Sent(20, told), Sent(21, told)], [Sent(20, own)]), 21, 9, false, 0, false, 0)
  }

  lemma SendTwo<S>(ep: Epoch<S>, o: Object<S>, at: int, m: Message, n: Message)
    ensures SendAll(ep, o, at, [m, n]) == Send(ep, Send(ep, o, at, m), at, n)
  {
    assert [m, n][1..] == [n];
    SendOne(ep, Send(ep, o, at, m), at, n);
  }

  lemma SendOne<S>(ep: Epoch<S>, o: Object<S>, at: int, m: Message)
    ensures SendAll(ep, o, at, [m]) == Send(ep, o, at, m)
  {
    assert [m][1..] == [];
  }

  /** The object after the event at 20. */
  function RelayHalf(): Object<int> {
    var told, own := Message(1, 100, 0), Message(0, 21, 0);
    Object(1, [Event(20, 0, Outside)], [Event(21, 0, Own(20))], Logs([Sent(20, told)], [Sent(20, own)]),
           20, 9, false, 0, false, 0)
  }

  lemma RelayFirst()
    ensures var ep, o := RelayEpoch(), RelayObject(); Enabled(ep, o, Extract) && Step(ep, o, Extract) == RelayHalf()
  {
    var ep, o, told, own := RelayEpoch(), RelayObject(), Message(1, 100, 0), Message(0, 21, 0);
    assert [own] + [told] == [own, told];
    SendTwo(ep, Extracted(ep, o), 20, own, told);
  }

  lemma RelaySecond()
    ensures var ep, o := RelayEpoch(), RelayHalf(); Enabled(ep, o, Extract) && Step(ep, o, Extract) == RelayDone()
  {
    var ep, o, told := RelayEpoch(), RelayHalf(), Message(1, 100, 0);
    assert [] + [told] == [told];
    SendOne(ep, Extracted(ep, o), 21, told);
  }

  lemma RelayRuns()
    ensures var ep, a := RelayEpoch(), [Extract, Extract];
            Fresh(ep, RelayObject()) && Runs(ep, RelayObject(), a) && After(ep, RelayObject(), a) == RelayDone()
  {
    RelayFirst();
    RelaySecond();
    assert [Extract, Extract][1..] == [Extract] && [Extract][1..] == [];
  }

  function Straggler(): Event {
    Event(15, 0, Outside)
  }

  function RelayQueue(): seq<Event> {
    [Straggler(), Event(20, 0, Outside)]
  }

  /** The straggler at 15 calls for a rollback that recalls the message at 21, and so for another one to
      21: the events at 15 and 20 are coasted over with their messages cut. */
  lemma FirstRollback()
    ensures var ep, o, a := RelayEpoch(), RelayDone(), [Arrive(Straggler()), Begin, Finish];
            && Runs(ep, o, a)
            && After(ep, o, a) == Object(0, [], RelayQueue(), Logs([], []), 10, 14, true, 21, false, 15)
  {
    var ep, o, own := RelayEpoch(), RelayDone(), Event(21, 0, Own(20));
    var o1 := o.(queue := [Straggler()], standing := true, violation := 15);
    var o2 := o1.(standing := false, now := 10, filter := 14, rolling := true, target := 15);
    assert Step(ep, o, Arrive(Straggler())) == o1;
    assert Step(ep, o1, Begin) == o2;
    assert Truncate(o.logs.soon, 15) == [] && Truncate(o.logs.later, 15) == [];
  }

  lemma SecondRollback()
    ensures var ep, o, a := RelayEpoch(), Object(0, [], RelayQueue(), Logs([], []), 10, 14, true, 21, false, 15), [Begin, Finish];
            && Runs(ep, o, a)
            && After(ep, o, a) == Object(0, [], RelayQueue(), Logs([], []), 10, 20, false, 21, false, 21)
  {
    var ep, o := RelayEpoch(), Object(0, [], RelayQueue(), Logs([], []), 10, 14, true, 21, false, 15);
    assert Step(ep, o, Begin) == Object(0, [], RelayQueue(), Logs([], []), 10, 20, false, 21, true, 21);
  }

  lemma CoastedOver()
    ensures var ep, o, a := RelayEpoch(), Object(0, [], RelayQueue(), Logs([], []), 10, 20, false, 21, false, 21), [Extract, Extract];
            && Runs(ep, o, a)
            && After(ep, o, a) == Object(2, RelayQueue(), [], Logs([], []), 20, 20, false, 21, false, 21)
  {
    var ep, o := RelayEpoch(), Object(0, [], RelayQueue(), Logs([], []), 10, 20, false, 21, false, 21);
    assert Step(ep, o, Extract) == Object(1, [Straggler()], [Event(20, 0, Outside)], Logs([], []), 15, 20, false, 21, false, 21);
  }

  lemma RelaySendsOne()
    ensures SendsOne(RelayEpoch())
  {
    var ep := RelayEpoch();
    forall s, e: Event
      ensures |ToLater(ep, e.ts, ep.handler(s, e).1)| == 1
      ensures forall m | m in ep.handler(s, e).1 && IsOwn(ep, m) :: m.ts > e.ts
    {
      var own, told := Message(0, 21, 0), Message(1, 100, e.body);
      assert [own] + [told] == [own, told] && [] + [told] == [told];
      var x, y := Sent(e.ts, own), Sent(e.ts, told);
      SentOne(e.ts, told);
      assert [own, told][1..] == [told] && [y] + [] == [y];
      ForFirst(y, [], ep.end, 0, false);
      ForFirst(x, [y], ep.end, 0, false);
    }
  }

  /** Up to the straggler every step is safe; at the end of the epoch the events at 15 and 20 are
      processed, no message for the next epoch is left, and the one at 21 is gone. */
  lemma SelfSendLosesMessages()
    ensures var ep, o, a := RelayEpoch(), RelayObject(), [Extract, Extract];
            var b := [Arrive(Straggler()), Begin, Finish] + [Begin, Finish] + [Extract, Extract];
            && SendsOne(ep) && Fresh(ep, o) && Runs(ep, o, a) && SafeRun(ep, o, a)
            && Runs(ep, After(ep, o, a), b) && !Safe(ep, After(ep, o, a), b[0])
            && var last := After(ep, After(ep, o, a), b);
               && last.processed == [Event(15, 0, Outside), Event(20, 0, Outside)]
               && last.queue == [] && last.logs == Logs([], []) && !last.standing && !last.rolling
               && |Straight(ep, last.processed).1.later| == 2
  {
    var ep := RelayEpoch();
    RelaySendsOne();
    RelayRuns();
    RelayUnsafe();
    FirstRollback();
    SecondRollback();
    CoastedOver();
    RunsConcat(ep, RelayDone(), [Arrive(Straggler()), Begin, Finish], [Begin, Finish]);
    RunsConcat(ep, RelayDone(), [Arrive(Straggler()), Begin, Finish] + [Begin, Finish], [Extract, Extract]);
    StraightCount(ep, RelayQueue());
  }

  lemma OneRecalled<S>(ep: Epoch<S>, s: Sent, t: int)
    requires IsOwn(ep, s.message) && s.at >= t
    ensures Truncate([s], t) == [] && Recalled(ep, [s], t) == [OwnEvent(s)]
  {
    assert [s][0..] == [s] && [s][..0] == [];
    assert OwnEvents(ep, [s]) == [] + [OwnEvent(s)];
  }

  lemma RelayUnsafe()
    ensures var ep, o := RelayEpoch(), RelayDone(); !Safe(ep, o, Arrive(Straggler()))
  {
    var ep, o := RelayEpoch(), RelayDone();
    OneRecalled(ep, o.logs.soon[0], 15);
  }

  // ---- a message to itself without delay ----

  /** The handler answers e with a message to its own object at the same time. */
  ghost predicate Echoes<S>(ep: Epoch<S>, e: Event) {
    && 0 <= ep.start <= e.ts < ep.end && 0 < e.ts && e.origin == Outside
    && exists body :: ep.handler(ep.checkpoint, e).1 == [Message(ep.self, e.ts, body)]
  }

  /** About to extract e as the first event of the epoch, with nothing to coast over. */
  ghost predicate Before<S>(ep: Epoch<S>, o: Object<S>, e: Event) {
    && o.state == ep.checkpoint && o.processed == [] && o.queue == [e] && o.logs == Logs([], [])
    && o.now <= e.ts && o.filter < e.ts && !o.standing && !o.rolling
  }

  /** The message has been sent and delivered, and a rollback to its time is called for or under way. */
  ghost predicate Sending<S>(ep: Epoch<S>, o: Object<S>, e: Event) {
    && |o.logs.soon| == 1 && o.logs.later == [] && o.processed == [e] && o.queue == [OwnEvent(o.logs.soon[0])]
    && o.logs.soon[0] == Sent(e.ts, Message(ep.self, e.ts, o.logs.soon[0].message.body))
    && Called(ep, o, e)
  }

  ghost predicate Called<S>(ep: Epoch<S>, o: Object<S>, e: Event) {
    if o.rolling then !o.standing && o.target == e.ts && o.now == ep.start && o.filter == e.ts - 1
    else o.standing && o.violation == e.ts
  }

  /** It has been recalled, which called for the rollback once more. */
  ghost predicate Taken<S>(ep: Epoch<S>, o: Object<S>, e: Event) {
    o.processed == [] && o.queue == [e] && o.logs == Logs([], []) && Called(ep, o, e)
  }

  ghost predicate Echoing<S>(ep: Epoch<S>, o: Object<S>, e: Event) {
    Before(ep, o, e) || Sending(ep, o, e) || Taken(ep, o, e)
  }

  lemma EchoSent<S>(ep: Epoch<S>, o: Object<S>, e: Event)
    requires Echoes(ep, e) && Before(ep, o, e)
    ensures Enabled(ep, o, Extract) && Sending(ep, Step(ep, o, Extract), e)
  {
    var body :| ep.handler(ep.checkpoint, e).1 == [Message(ep.self, e.ts, body)];
    SendOne(ep, Extracted(ep, o), e.ts, Message(ep.self, e.ts, body));
  }

  lemma EchoRecalled<S>(ep: Epoch<S>, o: Object<S>, e: Event)
    requires Echoes(ep, e) && Sending(ep, o, e) && o.rolling
    ensures Taken(ep, Step(ep, o, Finish), e)
  {
    var s := o.logs.soon[0];
    OneRecalled(ep, s, e.ts);
    assert o.logs.soon == [s];
    assert Kept([OwnEvent(s)], e.ts) == [] && Kept([e], e.ts) == [e];
    assert Requeue([], [e]) == Requeue([e], []) == [e];
    assert Recall(o, [OwnEvent(s)]) == Violate(o, e.ts);
  }

  lemma EchoTaken<S>(ep: Epoch<S>, o: Object<S>, e: Event)
    requires Echoes(ep, e) && Taken(ep, o, e) && o.rolling
    ensures Before(ep, Step(ep, o, Finish), e)
  {
    assert Kept([e], e.ts) == [e];
    assert Requeue([e], []) == [e];
    assert Recalled(ep, o.logs.soon, e.ts) == [];
  }

  lemma EchoStep<S>(ep: Epoch<S>, o: Object<S>, e: Event, a: Action)
    requires Echoes(ep, e) && Echoing(ep, o, e) && Enabled(ep, o, a) && (a.Begin? || a.Finish? || a.Extract?)
    ensures Echoing(ep, Step(ep, o, a), e)
  {
    if a.Extract? {
      EchoSent(ep, o, e);
    } else if a.Finish? && Sending(ep, o, e) {
      EchoRecalled(ep, o, e);
    } else if a.Finish? {
      EchoTaken(ep, o, e);
    }
  }

  /** However long the owner works, whatever steps it takes, its one event is still to be processed. */
  lemma {:induction false} ZeroDelayNeverEnds<S>(ep: Epoch<S>, o: Object<S>, e: Event, actions: seq<Action>)
    requires Echoes(ep, e) && Echoing(ep, o, e) && Runs(ep, o, actions)
    requires forall a | a in actions :: a.Begin? || a.Finish? || a.Extract?
    ensures var last := After(ep, o, actions);
            && (last.queue != [] || last.standing || last.rolling)
            && (Enabled(ep, last, Begin) || Enabled(ep, last, Finish) || Enabled(ep, last, Extract))
    decreases |actions|
  {
    if actions == [] {
      if Before(ep, o, e) {
        EchoSent(ep, o, e);
      }
    } else {
      assert actions[0] in actions;
      EchoStep(ep, o, e, actions[0]);
      assert forall a | a in actions[1..] :: a in actions;
      ZeroDelayNeverEnds(ep, Step(ep, o, actions[0]), e, actions[1..]);
    }
  }
}
