/** Speculative execution of one simulation object within one epoch: queue/queue.c,
    speculation/speculation.c and stubs/stubs.c built with SPECULATION.  Events from other objects
    arrive and are cancelled at any moment; the owner thread extracts, processes and rolls back.
    Times are integers, in multiples of `epsilon`. */
module Rollback {

  /** An event that the object sent to itself within the epoch carries the time at which it did. */
  datatype Origin = Outside | Own(at: int)

  datatype Event = Event(ts: int, body: int, origin: Origin)

  datatype Message = Message(destination: nat, ts: int, body: int)

  /** An entry of the send logs: the message and the time at which it was sent. */
  datatype Sent = Sent(at: int, message: Message)

  /** `later` is the speculation queue of messages for coming epochs; `soon` is the log of messages
      already inserted into the current one. */
  datatype Logs = Logs(later: seq<Sent>, soon: seq<Sent>)

  /** The model's callback: the next state, and the messages it schedules. */
  type Handler<!S> = (S, Event) -> (S, seq<Message>)

  /** What stays fixed during the epoch: the object's number, `current_min_limit`, the epoch's end, and
      the checkpoint. */
  datatype Epoch<!S> = Epoch(self: nat, start: int, end: int, checkpoint: S, handler: Handler<S>)

  // ---- lists ----

  ghost predicate Sorted(l: seq<Event>) {
    forall i, k | 0 <= i < k < |l| :: l[i].ts <= l[k].ts
  }

  ghost predicate AtLeast(l: seq<Event>, t: int) {
    forall i | 0 <= i < |l| :: t <= l[i].ts
  }

  ghost predicate AtMost(l: seq<Event>, t: int) {
    forall i | 0 <= i < |l| :: l[i].ts <= t
  }

  /** The insertion of the slot queues: behind every event with the same time. */
  function Insert(l: seq<Event>, e: Event): seq<Event> {
    if l == [] || l[0].ts > e.ts then [e] + l else [l[0]] + Insert(l[1..], e)
  }

  /** Where the scan for the insertion place stops. */
  lemma {:induction false} InsertAt(l: seq<Event>, e: Event, i: nat)
    requires i <= |l| && AtMost(l[..i], e.ts) && (i < |l| ==> l[i].ts > e.ts)
    ensures Insert(l, e) == l[..i] + [e] + l[i..]
  {
    if i > 0 {
      assert l[0] == l[..i][0];
      assert l[1..][..i - 1] == l[..i][1..];
      InsertAt(l[1..], e, i - 1);
    }
  }

  /** `restore_retractable_events`: the processed events go back one by one. */
  function Requeue(queue: seq<Event>, processed: seq<Event>): seq<Event>
    decreases |processed|
  {
    if processed == [] then queue else Requeue(Insert(queue, processed[0]), processed[1..])
  }

  lemma {:induction false} InsertContents(l: seq<Event>, e: Event)
    ensures multiset(Insert(l, e)) == multiset(l) + multiset{e}
  {
    if l != [] && l[0].ts <= e.ts {
      assert l == [l[0]] + l[1..];
      InsertContents(l[1..], e);
    }
  }

  lemma {:induction false} RequeueContents(queue: seq<Event>, processed: seq<Event>)
    ensures multiset(Requeue(queue, processed)) == multiset(queue) + multiset(processed)
    decreases |processed|
  {
    if processed != [] {
      assert processed == [processed[0]] + processed[1..];
      InsertContents(queue, processed[0]);
      RequeueContents(Insert(queue, processed[0]), processed[1..]);
    }
  }

  /** The events before time t. */
  function Below(l: seq<Event>, t: int): seq<Event> {
    if l == [] then [] else (if l[0].ts < t then [l[0]] else []) + Below(l[1..], t)
  }

  lemma {:induction false} InsertBounds(l: seq<Event>, e: Event, lo: int, hi: int)
    requires AtLeast(l, lo) && AtMost(l, hi) && lo <= e.ts <= hi
    ensures AtLeast(Insert(l, e), lo) && AtMost(Insert(l, e), hi)
  {
    if l != [] && l[0].ts <= e.ts {
      InsertBounds(l[1..], e, lo, hi);
    }
  }

  lemma {:induction false} InsertSorted(l: seq<Event>, e: Event)
    requires Sorted(l)
    ensures Sorted(Insert(l, e))
  {
    if l != [] && l[0].ts <= e.ts {
      InsertSorted(l[1..], e);
      var hi := if e.ts >= l[|l| - 1].ts then e.ts else l[|l| - 1].ts;
      InsertBounds(l[1..], e, l[0].ts, hi);
    }
  }

  lemma {:induction false} RequeueSorted(queue: seq<Event>, processed: seq<Event>)
    requires Sorted(queue)
    ensures Sorted(Requeue(queue, processed))
    decreases |processed|
  {
    if processed != [] {
      InsertSorted(queue, processed[0]);
      RequeueSorted(Insert(queue, processed[0]), processed[1..]);
    }
  }

  lemma {:induction false} RequeueBounds(queue: seq<Event>, processed: seq<Event>, lo: int, hi: int)
    requires AtLeast(queue, lo) && AtMost(queue, hi) && AtLeast(processed, lo) && AtMost(processed, hi)
    ensures AtLeast(Requeue(queue, processed), lo) && AtMost(Requeue(queue, processed), hi)
    decreases |processed|
  {
    if processed != [] {
      InsertBounds(queue, processed[0], lo, hi);
      RequeueBounds(Insert(queue, processed[0]), processed[1..], lo, hi);
    }
  }

  lemma {:induction false} BelowBounds(l: seq<Event>, t: int, lo: int)
    requires AtLeast(l, lo)
    ensures AtLeast(Below(l, t), lo) && AtMost(Below(l, t), t - 1)
  {
    if l != [] {
      BelowBounds(l[1..], t, lo);
    }
  }

  lemma {:induction false} BelowConcat(a: seq<Event>, b: seq<Event>, t: int)
    ensures Below(a + b, t) == Below(a, t) + Below(b, t)
  {
    if a == [] {
      assert a + b == b;
    } else {
      assert (a + b)[1..] == a[1..] + b;
      BelowConcat(a[1..], b, t);
    }
  }

  lemma {:induction false} BelowNone(l: seq<Event>, t: int)
    requires AtLeast(l, t)
    ensures Below(l, t) == []
  {
    if l != [] {
      BelowNone(l[1..], t);
    }
  }

  lemma {:induction false} BelowAll(l: seq<Event>, t: int)
    requires AtMost(l, t - 1)
    ensures Below(l, t) == l
  {
    if l != [] {
      BelowAll(l[1..], t);
    }
  }

  lemma {:induction false} BelowBelow(l: seq<Event>, t: int, u: int)
    requires u <= t
    ensures Below(Below(l, t), u) == Below(l, u)
  {
    if l != [] {
      BelowBelow(l[1..], t, u);
      BelowConcat(if l[0].ts < t then [l[0]] else [], Below(l[1..], t), u);
    }
  }

  lemma {:induction false} BelowInsert(l: seq<Event>, e: Event, t: int)
    requires Sorted(l)
    ensures Below(Insert(l, e), t) == if e.ts < t then Insert(Below(l, t), e) else Below(l, t)
  {
    if l == [] {
    } else if l[0].ts > e.ts {
      assert Insert(l, e)[1..] == l;
      if l[0].ts >= t {
        BelowNone(l, t);
      }
    } else {
      BelowInsert(l[1..], e, t);
      assert Insert(l, e)[1..] == Insert(l[1..], e);
    }
  }

  lemma {:induction false} BelowRequeue(queue: seq<Event>, processed: seq<Event>, t: int)
    requires Sorted(queue)
    ensures Below(Requeue(queue, processed), t) == Requeue(Below(queue, t), Below(processed, t))
    decreases |processed|
  {
    if processed != [] {
      var p, rest := processed[0], processed[1..];
      InsertSorted(queue, p);
      BelowInsert(queue, p, t);
      BelowRequeue(Insert(queue, p), rest, t);
      if p.ts < t {
        assert Below(processed, t) == [p] + Below(rest, t);
        assert Requeue(Below(queue, t), [p] + Below(rest, t)) == Requeue(Insert(Below(queue, t), p), Below(rest, t));
      } else {
        assert Below(processed, t) == Below(rest, t);
      }
    }
  }

  lemma {:induction false} InsertLast(l: seq<Event>, e: Event)
    requires AtMost(l, e.ts)
    ensures Insert(l, e) == l + [e]
  {
    if l != [] {
      InsertLast(l[1..], e);
    }
  }

  /** Sorted events behind everything queued go back in their own order. */
  lemma {:induction false} RequeueLast(queue: seq<Event>, processed: seq<Event>)
    requires Sorted(queue + processed)
    ensures Requeue(queue, processed) == queue + processed
    decreases |processed|
  {
    if processed == [] {
      assert queue + processed == queue;
    } else {
      assert forall i | 0 <= i < |queue| :: (queue + processed)[i] == queue[i];
      assert (queue + processed)[|queue|] == processed[0];
      InsertLast(queue, processed[0]);
      assert queue + [processed[0]] + processed[1..] == queue + processed;
      RequeueLast(queue + [processed[0]], processed[1..]);
    }
  }

  lemma RequeueIntoEmpty(l: seq<Event>)
    requires Sorted(l)
    ensures Requeue([], l) == l
  {
    assert [] + l == l;
    RequeueLast([], l);
  }

  lemma {:induction false} BelowSorted(l: seq<Event>, t: int)
    requires Sorted(l)
    ensures Sorted(Below(l, t))
  {
    if l != [] {
      BelowSorted(l[1..], t);
      BelowBounds(l[1..], t, l[0].ts);
    }
  }

  /** No event lies in [u, t). */
  ghost predicate Clear(l: seq<Event>, u: int, t: int) {
    forall i | 0 <= i < |l| :: !(u <= l[i].ts < t)
  }

  /** A gap makes no difference to what lies before its ends; anything inside does. */
  lemma {:induction false} BelowGap(l: seq<Event>, u: int, t: int)
    requires u <= t
    ensures Clear(l, u, t) ==> Below(l, u) == Below(l, t)
    ensures |Below(l, u)| <= |Below(l, t)|
    ensures |Below(l, u)| == |Below(l, t)| <==> Clear(l, u, t)
  {
    if l != [] {
      BelowGap(l[1..], u, t);
      assert forall i | 1 <= i < |l| :: l[i] == l[1..][i - 1];
    }
  }

  lemma {:induction false} InsertClear(l: seq<Event>, e: Event, u: int, t: int)
    requires Clear(l, u, t) && !(u <= e.ts < t)
    ensures Clear(Insert(l, e), u, t)
  {
    if l != [] && l[0].ts <= e.ts {
      InsertClear(l[1..], e, u, t);
    }
  }

  lemma {:induction false} InsertLength(l: seq<Event>, e: Event)
    ensures |Insert(l, e)| == |l| + 1
  {
    if l != [] && l[0].ts <= e.ts {
      InsertLength(l[1..], e);
    }
  }

  lemma {:induction false} RequeueLength(a: seq<Event>, b: seq<Event>)
    ensures |Requeue(a, b)| == |a| + |b|
    decreases |b|
  {
    if b != [] {
      InsertLength(a, b[0]);
      RequeueLength(Insert(a, b[0]), b[1..]);
    }
  }

  /** Sorted events that lie before everything in q go back in their own order, in front of it. */
  lemma {:induction false} RequeueFront(a: seq<Event>, q: seq<Event>, p: seq<Event>, n: int)
    requires Sorted(a + p) && AtMost(p, n - 1) && AtLeast(q, n)
    ensures Requeue(a + q, p) == a + p + q
    decreases |p|
  {
    if p == [] {
      assert a + q == a + p + q;
    } else {
      assert forall i | 0 <= i < |a| :: (a + p)[i] == a[i];
      assert (a + p)[|a|] == p[0];
      InsertBetween(a, q, p[0]);
      assert a + [p[0]] + p[1..] == a + p;
      RequeueFront(a + [p[0]], q, p[1..], n);
      assert a + [p[0]] + p[1..] + q == a + p + q;
    }
  }

  lemma {:induction false} InsertBetween(a: seq<Event>, q: seq<Event>, e: Event)
    requires AtMost(a, e.ts) && AtLeast(q, e.ts + 1)
    ensures Insert(a + q, e) == a + [e] + q
  {
    if a == [] {
      assert a + q == q;
    } else {
      assert (a + q)[1..] == a[1..] + q;
      InsertBetween(a[1..], q, e);
    }
  }

  lemma {:induction false} RequeueSplit(q: seq<Event>, a: seq<Event>, b: seq<Event>)
    ensures Requeue(q, a + b) == Requeue(Requeue(q, a), b)
    decreases |a|
  {
    if a == [] {
      assert a + b == b;
    } else {
      assert (a + b)[1..] == a[1..] + b;
      RequeueSplit(Insert(q, a[0]), a[1..], b);
    }
  }

  /** Nothing that goes back at or behind the time of l[k] moves l[k]. */
  lemma {:induction false} RequeueBehind(l: seq<Event>, p: seq<Event>, k: nat)
    requires Sorted(l) && k < |l| && AtLeast(p, l[k].ts)
    ensures |Requeue(l, p)| == |l| + |p| && Requeue(l, p)[k] == l[k]
    decreases |p|
  {
    if p != [] {
      InsertSorted(l, p[0]);
      InsertAfter(l, p[0], k);
      RequeueBehind(Insert(l, p[0]), p[1..], k);
    }
  }

  lemma {:induction false} InsertAfter(l: seq<Event>, e: Event, k: nat)
    requires Sorted(l) && k < |l| && l[k].ts <= e.ts
    ensures |Insert(l, e)| == |l| + 1 && Insert(l, e)[k] == l[k]
  {
    InsertLength(l, e);
    if k > 0 {
      InsertAfter(l[1..], e, k - 1);
    }
  }

  // ---- processing and the logs ----

  /** `speculation_queue_insert` at the sender: messages before the epoch are refused. */
  function Record<S>(ep: Epoch<S>, logs: Logs, at: int, messages: seq<Message>): Logs
    decreases |messages|
  {
    if messages == [] then logs
    else
      var m, s := messages[0], Sent(at, messages[0]);
      var next := if m.ts < ep.start then logs
                  else if m.ts >= ep.end then logs.(later := logs.later + [s])
                  else logs.(soon := logs.soon + [s]);
      Record(ep, next, at, messages[1..])
  }

  /** The straight run of a list of events from the checkpoint. */
  function Straight<S>(ep: Epoch<S>, events: seq<Event>): (S, Logs)
    decreases |events|
  {
    if events == [] then (ep.checkpoint, Logs([], []))
    else
      var e := events[|events| - 1];
      var (s, logs) := Straight(ep, events[..|events| - 1]);
      var (s', messages) := ep.handler(s, e);
      (s', Record(ep, logs, e.ts, messages))
  }

  lemma StraightAppend<S>(ep: Epoch<S>, events: seq<Event>, e: Event)
    ensures var (s, logs) := Straight(ep, events);
            var (s', messages) := ep.handler(s, e);
            Straight(ep, events + [e]) == (s', Record(ep, logs, e.ts, messages))
  {
    assert (events + [e])[..|events|] == events;
  }

  /** The backward walks of `rollback_speculation_queue` and `log_rollback`. */
  function Truncate(log: seq<Sent>, t: int): (r: seq<Sent>)
    ensures r <= log
  {
    if log == [] || log[|log| - 1].at < t then log else Truncate(log[..|log| - 1], t)
  }

  function TruncateLogs(logs: Logs, t: int): Logs {
    Logs(Truncate(logs.later, t), Truncate(logs.soon, t))
  }

  ghost predicate SentBefore(log: seq<Sent>, t: int) {
    forall i | 0 <= i < |log| :: log[i].at < t
  }

  lemma {:induction false} TruncateTwice(log: seq<Sent>, t: int, u: int)
    requires u <= t
    ensures Truncate(Truncate(log, t), u) == Truncate(log, u)
  {
    if log != [] && log[|log| - 1].at >= t {
      TruncateTwice(log[..|log| - 1], t, u);
    }
  }

  /** What one event sends is cut off again by a truncation at or before its time. */
  lemma {:induction false} TruncateRecord<S>(ep: Epoch<S>, logs: Logs, at: int, messages: seq<Message>, t: int)
    ensures at >= t ==> TruncateLogs(Record(ep, logs, at, messages), t) == TruncateLogs(logs, t)
    ensures at < t && SentBefore(logs.later, t) && SentBefore(logs.soon, t) ==>
              SentBefore(Record(ep, logs, at, messages).later, t) && SentBefore(Record(ep, logs, at, messages).soon, t)
    decreases |messages|
  {
    if messages != [] {
      var m, s := messages[0], Sent(at, messages[0]);
      assert (logs.later + [s])[..|logs.later|] == logs.later;
      assert (logs.soon + [s])[..|logs.soon|] == logs.soon;
      var next := if m.ts < ep.start then logs
                  else if m.ts >= ep.end then logs.(later := logs.later + [s])
                  else logs.(soon := logs.soon + [s]);
      TruncateRecord(ep, next, at, messages[1..], t);
    }
  }

  /** The logs of a sorted run, cut off at t, are the logs of its events before t: the logs are
      ordered by send time, so removing from the tail is enough. */
  lemma {:induction false} TruncateStraight<S>(ep: Epoch<S>, events: seq<Event>, t: int)
    requires Sorted(events)
    ensures TruncateLogs(Straight(ep, events).1, t) == Straight(ep, Below(events, t)).1
    ensures AtMost(events, t - 1) ==>
              SentBefore(Straight(ep, events).1.later, t) && SentBefore(Straight(ep, events).1.soon, t)
    decreases |events|
  {
    if events != [] {
      var n := |events| - 1;
      var e, front := events[n], events[..n];
      assert events == front + [e];
      assert Below([e], t) == if e.ts < t then [e] else [];
      BelowConcat(front, [e], t);
      TruncateStraight(ep, front, t);
      var (s, logs) := Straight(ep, front);
      TruncateRecord(ep, logs, e.ts, ep.handler(s, e).1, t);
      if e.ts >= t {
        assert Below(events, t) == Below(front, t);
      } else {
        BelowAll(events, t);
        TruncateAll(Straight(ep, events).1, t);
      }
    }
  }

  lemma TruncateAll(logs: Logs, t: int)
    requires SentBefore(logs.later, t) && SentBefore(logs.soon, t)
    ensures TruncateLogs(logs, t) == logs
  {
  }

  lemma {:induction false} TruncateKeeps(log: seq<Sent>, t: int, u: int)
    requires t <= u
    ensures Truncate(Truncate(log, t), u) == Truncate(log, t)
  {
    if log != [] && log[|log| - 1].at >= t {
      TruncateKeeps(log[..|log| - 1], t, u);
    }
  }

  // ---- messages of the object to itself ----

  /** A message that comes back to the object within the epoch. */
  predicate IsOwn<S>(ep: Epoch<S>, m: Message) {
    m.destination == ep.self && ep.start <= m.ts < ep.end
  }

  function OwnEvent(s: Sent): Event {
    Event(s.message.ts, s.message.body, Own(s.at))
  }

  /** The events that the log's own messages have become. */
  function OwnEvents<S>(ep: Epoch<S>, log: seq<Sent>): seq<Event> {
    if log == [] then []
    else OwnEvents(ep, log[..|log| - 1]) + (if IsOwn(ep, log[|log| - 1].message) then [OwnEvent(log[|log| - 1])] else [])
  }

  lemma {:induction false} OwnEventsConcat<S>(ep: Epoch<S>, a: seq<Sent>, b: seq<Sent>)
    ensures OwnEvents(ep, a + b) == OwnEvents(ep, a) + OwnEvents(ep, b)
    decreases |b|
  {
    if b == [] {
      assert a + b == a;
    } else {
      assert (a + b)[..|a + b| - 1] == a + b[..|b| - 1];
      OwnEventsConcat(ep, a, b[..|b| - 1]);
    }
  }

  /** The own events that `log_rollback` to time t annihilates. */
  function Recalled<S>(ep: Epoch<S>, log: seq<Sent>, t: int): seq<Event> {
    OwnEvents(ep, log[|Truncate(log, t)|..])
  }

  lemma RecalledSplits<S>(ep: Epoch<S>, log: seq<Sent>, t: int)
    ensures OwnEvents(ep, log) == OwnEvents(ep, Truncate(log, t)) + Recalled(ep, log, t)
  {
    assert log == Truncate(log, t) + log[|Truncate(log, t)|..];
    OwnEventsConcat(ep, Truncate(log, t), log[|Truncate(log, t)|..]);
  }

  /** What is cut was sent at t or later. */
  lemma {:induction false} CutSince(log: seq<Sent>, t: int)
    ensures forall i | |Truncate(log, t)| <= i < |log| :: log[i].at >= t
  {
    if log != [] && log[|log| - 1].at >= t {
      CutSince(log[..|log| - 1], t);
    }
  }

  lemma {:induction false} OwnEventsSince<S>(ep: Epoch<S>, log: seq<Sent>, t: int)
    requires forall i | 0 <= i < |log| :: log[i].at >= t
    ensures forall e | e in OwnEvents(ep, log) :: e.origin.Own? && e.origin.at >= t
  {
    if log != [] {
      OwnEventsSince(ep, log[..|log| - 1], t);
    }
  }

  lemma RecalledSince<S>(ep: Epoch<S>, log: seq<Sent>, t: int)
    ensures forall e | e in Recalled(ep, log, t) :: e.origin.Own? && e.origin.at >= t && e in OwnEvents(ep, log)
  {
    CutSince(log, t);
    OwnEventsSince(ep, log[|Truncate(log, t)|..], t);
    RecalledSplits(ep, log, t);
  }

  /** Nothing is left to recall from a log that was cut before. */
  lemma NothingRecalled<S>(ep: Epoch<S>, log: seq<Sent>, t: int, u: int)
    requires t <= u
    ensures Recalled(ep, Truncate(log, t), u) == []
  {
    TruncateKeeps(log, t, u);
  }

  /** The least time of some events. */
  function Earliest(l: seq<Event>): int
    requires l != []
  {
    if |l| == 1 || l[0].ts < Earliest(l[1..]) then l[0].ts else Earliest(l[1..])
  }

  lemma {:induction false} EarliestIsOne(l: seq<Event>)
    requires l != []
    ensures (exists e | e in l :: e.ts == Earliest(l)) && forall e | e in l :: Earliest(l) <= e.ts
  {
    assert l == [l[0]] + l[1..];
    if |l| == 1 || l[0].ts < Earliest(l[1..]) {
      assert l[0] in l;
      if |l| > 1 {
        EarliestIsOne(l[1..]);
      }
    } else {
      EarliestIsOne(l[1..]);
    }
  }

  /** An event that a rollback to time t leaves: not one of the object's own sent since. */
  predicate Stays(e: Event, t: int) {
    e.origin.Own? ==> e.origin.at < t
  }

  function Kept(l: seq<Event>, t: int): seq<Event> {
    if l == [] then [] else (if Stays(l[0], t) then [l[0]] else []) + Kept(l[1..], t)
  }

  /** Own events lie later than the events that sent them. */
  ghost predicate Ahead(l: seq<Event>) {
    forall e | e in l :: e.origin.Own? ==> e.ts > e.origin.at
  }

  lemma {:induction false} KeptMembers(l: seq<Event>, t: int, e: Event)
    ensures e in Kept(l, t) <==> e in l && Stays(e, t)
  {
    if l != [] {
      KeptMembers(l[1..], t, e);
      assert l == [l[0]] + l[1..];
    }
  }

  lemma {:induction false} KeptAll(l: seq<Event>, t: int)
    requires forall e | e in l :: Stays(e, t)
    ensures Kept(l, t) == l
  {
    if l != [] {
      assert l == [l[0]] + l[1..];
      KeptAll(l[1..], t);
    }
  }

  lemma KeptFirst(e: Event, l: seq<Event>, t: int)
    ensures Kept([e] + l, t) == (if Stays(e, t) then [e] else []) + Kept(l, t)
  {
    assert ([e] + l)[1..] == l;
  }

  lemma Grouped(l: seq<Event>, m: seq<Event>, r: seq<Event>)
    ensures l + (m + r) == l + m + r
  {
  }

  lemma {:induction false} KeptConcat(a: seq<Event>, b: seq<Event>, t: int)
    ensures Kept(a + b, t) == Kept(a, t) + Kept(b, t)
  {
    if a == [] {
      assert a + b == b;
    } else {
      var e, rest := a[0], a[1..];
      assert a == [e] + rest;
      Grouped([e], rest, b);
      KeptFirst(e, rest + b, t);
      KeptFirst(e, rest, t);
      KeptConcat(rest, b, t);
      Grouped(if Stays(e, t) then [e] else [], Kept(rest, t), Kept(b, t));
    }
  }

  lemma {:induction false} KeptSorted(l: seq<Event>, t: int)
    requires Sorted(l)
    ensures Sorted(Kept(l, t))
  {
    if l != [] {
      KeptSorted(l[1..], t);
      forall i | 0 <= i < |Kept(l[1..], t)| ensures l[0].ts <= Kept(l[1..], t)[i].ts {
        KeptMembers(l[1..], t, Kept(l[1..], t)[i]);
      }
    }
  }

  /** Before t, a rollback to t or later takes nothing away. */
  lemma {:induction false} KeptBelow(l: seq<Event>, c: int, t: int)
    requires Ahead(l) && t <= c
    ensures Below(Kept(l, c), t) == Below(l, t)
  {
    if l != [] {
      assert l == [l[0]] + l[1..];
      assert l[0] in l;
      KeptBelow(l[1..], c, t);
      BelowConcat(if Stays(l[0], c) then [l[0]] else [], Kept(l[1..], c), t);
    }
  }
}
