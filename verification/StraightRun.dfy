/** What the straight run, with which rollback and replay are compared, reaches and sends. */
module StraightRun {
  import opened Rollback

  /** Handling the events one after the other: the state reached, and every message scheduled on the way. */
  function Reached<S>(ep: Epoch<S>, s: S, events: seq<Event>): S
    decreases |events|
  {
    if events == [] then s else Reached(ep, ep.handler(s, events[0]).0, events[1..])
  }

  function Said<S>(ep: Epoch<S>, s: S, events: seq<Event>): seq<Sent>
    decreases |events|
  {
    if events == [] then []
    else
      var (s', messages) := ep.handler(s, events[0]);
      SentAt(events[0].ts, messages) + Said(ep, s', events[1..])
  }

  function SentAt(at: int, messages: seq<Message>): seq<Sent> {
    if messages == [] then [] else [Sent(at, messages[0])] + SentAt(at, messages[1..])
  }

  lemma SentOne(at: int, m: Message)
    ensures SentAt(at, [m]) == [Sent(at, m)]
  {
  }

  /** The entries whose message is for a time from lo on and before hi, if there is a hi. */
  function For(l: seq<Sent>, lo: int, hi: int, bounded: bool): seq<Sent> {
    if l == [] then []
    else (if lo <= l[0].message.ts && (bounded ==> l[0].message.ts < hi) then [l[0]] else []) + For(l[1..], lo, hi, bounded)
  }

  lemma ForFirst(s: Sent, l: seq<Sent>, lo: int, hi: int, bounded: bool)
    ensures For([s] + l, lo, hi, bounded)
            == (if lo <= s.message.ts && (bounded ==> s.message.ts < hi) then [s] else []) + For(l, lo, hi, bounded)
  {
    assert ([s] + l)[1..] == l;
  }

  lemma Grouped(l: seq<Sent>, m: seq<Sent>, r: seq<Sent>)
    ensures l + (m + r) == l + m + r
  {
  }

  lemma {:induction false} ForConcat(a: seq<Sent>, b: seq<Sent>, lo: int, hi: int, bounded: bool)
    ensures For(a + b, lo, hi, bounded) == For(a, lo, hi, bounded) + For(b, lo, hi, bounded)
  {
    if a == [] {
      assert a + b == b;
    } else {
      var s, rest := a[0], a[1..];
      assert a == [s] + rest;
      Grouped([s], rest, b);
      ForFirst(s, rest + b, lo, hi, bounded);
      ForFirst(s, rest, lo, hi, bounded);
      ForConcat(rest, b, lo, hi, bounded);
      var first := if lo <= s.message.ts && (bounded ==> s.message.ts < hi) then [s] else [];
      Grouped(first, For(rest, lo, hi, bounded), For(b, lo, hi, bounded));
    }
  }

  lemma {:induction false} RecordSays<S>(ep: Epoch<S>, logs: Logs, at: int, messages: seq<Message>)
    requires ep.start < ep.end
    ensures Record(ep, logs, at, messages)
            == Logs(logs.later + For(SentAt(at, messages), ep.end, 0, false),
                    logs.soon + For(SentAt(at, messages), ep.start, ep.end, true))
    decreases |messages|
  {
    if messages != [] {
      var m, s, rest := messages[0], Sent(at, messages[0]), SentAt(at, messages[1..]);
      ForFirst(s, rest, ep.end, 0, false);
      ForFirst(s, rest, ep.start, ep.end, true);
      if m.ts < ep.start {
        RecordSays(ep, logs, at, messages[1..]);
      } else if m.ts >= ep.end {
        RecordSays(ep, logs.(later := logs.later + [s]), at, messages[1..]);
        Grouped(logs.later, [s], For(rest, ep.end, 0, false));
      } else {
        RecordSays(ep, logs.(soon := logs.soon + [s]), at, messages[1..]);
        Grouped(logs.soon, [s], For(rest, ep.start, ep.end, true));
      }
    }
  }

  lemma {:induction false} SaidLast<S>(ep: Epoch<S>, s: S, events: seq<Event>, e: Event)
    ensures Reached(ep, s, events + [e]) == ep.handler(Reached(ep, s, events), e).0
    ensures Said(ep, s, events + [e]) == Said(ep, s, events) + SentAt(e.ts, ep.handler(Reached(ep, s, events), e).1)
    decreases |events|
  {
    if events == [] {
      assert ([] + [e])[1..] == [];
    } else {
      assert (events + [e])[1..] == events[1..] + [e];
      SaidLast(ep, ep.handler(s, events[0]).0, events[1..], e);
    }
  }

  /** A straight run reaches the state of handling the events one after the other, and records every
      message scheduled on the way, in this order: those for later epochs in the speculation queue, those
      for this epoch, whoever gets them, in the send log. */
  lemma {:induction false} StraightSays<S>(ep: Epoch<S>, events: seq<Event>)
    requires ep.start < ep.end
    ensures var said := Said(ep, ep.checkpoint, events);
            Straight(ep, events) == (Reached(ep, ep.checkpoint, events),
                                     Logs(For(said, ep.end, 0, false), For(said, ep.start, ep.end, true)))
    decreases |events|
  {
    if events != [] {
      var front, e := events[..|events| - 1], events[|events| - 1];
      assert events == front + [e];
      StraightSays(ep, front);
      SaidLast(ep, ep.checkpoint, front, e);
      var new' := SentAt(e.ts, ep.handler(Reached(ep, ep.checkpoint, front), e).1);
      RecordSays(ep, Straight(ep, front).1, e.ts, ep.handler(Reached(ep, ep.checkpoint, front), e).1);
      ForConcat(Said(ep, ep.checkpoint, front), new', ep.end, 0, false);
      ForConcat(Said(ep, ep.checkpoint, front), new', ep.start, ep.end, true);
    }
  }
}
