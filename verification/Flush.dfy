/** `speculation_queue_flush` of queue/queue.c: at the end of an epoch the messages that an object has
    kept for later epochs go to the calendar queue. */
module Flush {
  import opened CalendarQueue
  import Keeps = CalendarInvariant
  import opened CalendarDelivery
  import opened CalendarCode
  import opened StraightRun
  import Rollback
  import Speculation
  import Replay

  type Sent = Rollback.Sent

  /** The messages name objects that exist and times of later epochs. */
  ghost predicate Routable(cfg: Config, epoch: nat, l: seq<Sent>)
    requires cfg.Valid()
  {
    forall i | 0 <= i < |l| :: RoutableOne(cfg, epoch, l[i])
  }

  predicate RoutableOne(cfg: Config, epoch: nat, s: Sent)
    requires cfg.Valid()
  {
    s.message.destination < cfg.objects && 0 <= s.message.ts && s.message.ts / cfg.look > epoch
  }

  /** The times of the messages for object o. */
  function TimesTo(l: seq<Sent>, o: nat): multiset<nat> {
    if l == [] then multiset{}
    else
      var m := l[0].message;
      (if m.destination == o && 0 <= m.ts then multiset{m.ts} else multiset{}) + TimesTo(l[1..], o)
  }

  ghost predicate Flushable(cfg: Config, c: Calendar, t: nat, l: seq<Sent>) {
    Keeps.Inv(cfg, c) && Keeps.PassesDone(c) && t < cfg.threads && Routable(cfg, c.epoch, l)
  }

  ghost function FlushOne(cfg: Config, c: Calendar, t: nat, s: Sent): Calendar
    requires Flushable(cfg, c, t, [s])
  {
    assert RoutableOne(cfg, c.epoch, [s][0]);
    Put(cfg, c, t, s.message.destination, s.message.ts)
  }

  lemma FlushFirst(cfg: Config, c: Calendar, t: nat, l: seq<Sent>)
    requires Flushable(cfg, c, t, l) && l != []
    ensures Flushable(cfg, c, t, [l[0]]) && Flushable(cfg, FlushOne(cfg, c, t, l[0]), t, l[1..])
    ensures c.minLimit <= l[0].message.ts
  {
    var m := l[0].message;
    assert RoutableOne(cfg, c.epoch, l[0]);
    forall i | 0 <= i < |l[1..]| ensures RoutableOne(cfg, c.epoch, l[1..][i]) {
      assert l[1..][i] == l[i + 1];
    }
    Keeps.PutInv(cfg, c, t, m.destination, m.ts);
    DivMul(m.ts, c.epoch, cfg.look);
  }

  /** The messages go into the queue one after the other, by the thread t that flushes. */
  ghost function FlushInto(cfg: Config, c: Calendar, t: nat, l: seq<Sent>): Calendar
    requires Flushable(cfg, c, t, l)
    decreases |l|
  {
    if l == [] then c
    else
      FlushFirst(cfg, c, t, l);
      FlushInto(cfg, FlushOne(cfg, c, t, l[0]), t, l[1..])
  }

  lemma OneDelivered(cfg: Config, c: Calendar, t: nat, l: seq<Sent>, o: nat)
    requires Flushable(cfg, c, t, l) && l != [] && o < cfg.objects
    ensures Flushable(cfg, c, t, [l[0]])
    ensures Grown(c, FlushOne(cfg, c, t, l[0]), o, true, l[0].message.destination, l[0].message.ts)
  {
    FlushFirst(cfg, c, t, l);
    PutGrows(cfg, c, t, l[0].message.destination, l[0].message.ts, o);
  }

  /** Each object gets the messages that are for it, each once, and nothing else; none is refused. */
  lemma {:induction false} Flushed(cfg: Config, c: Calendar, t: nat, l: seq<Sent>, o: nat)
    requires Flushable(cfg, c, t, l) && o < cfg.objects
    ensures var c' := FlushInto(cfg, c, t, l);
            && Keeps.Inv(cfg, c') && Keeps.PassesDone(c')
            && HeldTimes(c', o) == HeldTimes(c, o) + TimesTo(l, o)
    decreases |l|
  {
    if l != [] {
      FlushFirst(cfg, c, t, l);
      OneDelivered(cfg, c, t, l, o);
      Flushed(cfg, FlushOne(cfg, c, t, l[0]), t, l[1..], o);
    }
  }

  /** The loop over the speculation queue of one object. */
  method SpeculationQueueFlush(q: Queues, t: nat, l: seq<Sent>)
    requires Flushable(q.cfg, q.View(), t, l)
    modifies q
    ensures old(Flushable(q.cfg, q.View(), t, l)) && q.View() == old(FlushInto(q.cfg, q.View(), t, l)) && q.Valid()
  {
    ghost var c := q.View();
    var i := 0;
    while i < |l|
      invariant i <= |l| && Flushable(q.cfg, q.View(), t, l[i..])
      invariant FlushInto(q.cfg, q.View(), t, l[i..]) == FlushInto(q.cfg, c, t, l)
    {
      FlushFirst(q.cfg, q.View(), t, l[i..]);
      assert l[i..][1..] == l[i + 1..];
      var ret := q.QueueInsert(t, l[i].message.destination, l[i].message.ts);
      i := i + 1;
    }
  }

  // ---- the epoch's messages ----

  /** The model names objects that exist. */
  ghost predicate Addressed<S(!new)>(ep: Rollback.Epoch<S>, objects: nat) {
    forall s, e, m | m in ep.handler(s, e).1 :: m.destination < objects
  }

  ghost predicate AllFor(l: seq<Sent>, objects: nat) {
    forall i | 0 <= i < |l| :: l[i].message.destination < objects
  }

  lemma {:induction false} SentFor(at: int, messages: seq<Rollback.Message>, objects: nat)
    requires forall m | m in messages :: m.destination < objects
    ensures AllFor(SentAt(at, messages), objects)
  {
    if messages != [] {
      assert messages[0] in messages && forall m | m in messages[1..] :: m in messages;
      SentFor(at, messages[1..], objects);
    }
  }

  lemma {:induction false} SaidFor<S(!new)>(ep: Rollback.Epoch<S>, s: S, events: seq<Rollback.Event>, objects: nat)
    requires Addressed(ep, objects)
    ensures AllFor(Said(ep, s, events), objects)
    decreases |events|
  {
    if events != [] {
      SentFor(events[0].ts, ep.handler(s, events[0]).1, objects);
      SaidFor(ep, ep.handler(s, events[0]).0, events[1..], objects);
    }
  }

  lemma {:induction false} ForLater(l: seq<Sent>, lo: int, cfg: Config, epoch: nat)
    requires cfg.Valid() && AllFor(l, cfg.objects) && lo == (epoch + 1) * cfg.look
    ensures Routable(cfg, epoch, For(l, lo, 0, false))
  {
    if l != [] {
      assert AllFor(l[1..], cfg.objects) by {
        forall i | 0 <= i < |l[1..]| ensures l[1..][i].message.destination < cfg.objects {
          assert l[1..][i] == l[i + 1];
        }
      }
      ForLater(l[1..], lo, cfg, epoch);
      if lo <= l[0].message.ts {
        DivMul(l[0].message.ts, epoch + 1, cfg.look);
      }
    }
  }

  /** What a speculative epoch hands on: when a run as in Replay.ReplayIsExact is done, the flush puts
      exactly the messages for later epochs that one straight run over the epoch's events schedules into
      the calendar, each for its object at its time, however often the object was rolled back. */
  lemma EpochHandsOn<S(!new)>(ep: Rollback.Epoch<S>, o: Speculation.Object<S>, actions: seq<Speculation.Action>,
                              cfg: Config, c: Calendar, t: nat, p: nat)
    requires Speculation.Forward(ep) && Speculation.Fresh(ep, o) && Speculation.Runs(ep, o, actions)
    requires Speculation.SafeRun(ep, o, actions)
    requires var last := Speculation.After(ep, o, actions); last.queue == [] && !last.standing && !last.rolling
    requires Keeps.Inv(cfg, c) && Keeps.PassesDone(c) && t < cfg.threads && p < cfg.objects
    requires Addressed(ep, cfg.objects) && ep.start == c.epoch * cfg.look && ep.end == (c.epoch + 1) * cfg.look
    ensures var last := Speculation.After(ep, o, actions);
            && Flushable(cfg, c, t, last.logs.later)
            && var c' := FlushInto(cfg, c, t, last.logs.later);
            && Keeps.Inv(cfg, c')
            && HeldTimes(c', p)
               == HeldTimes(c, p) + TimesTo(For(Said(ep, ep.checkpoint, last.processed), ep.end, 0, false), p)
  {
    var last := Speculation.After(ep, o, actions);
    Replay.ReplayIsExact(ep, o, actions);
    SaidFor(ep, ep.checkpoint, last.processed, cfg.objects);
    ForLater(Said(ep, ep.checkpoint, last.processed), ep.end, cfg, c.epoch);
    Flushed(cfg, c, t, last.logs.later, p);
  }
}
