/** The state of one speculatively executed object, the steps that its lock makes atomic, and what
    every interleaving of them keeps. */
module Speculation {
  import opened Lists
  import opened Rollback

  /** `object_status` with the object's lists and memory; `rolling` lies between the moment the owner
      takes a standing rollback and the end of `run_rollback`, whose target is `target`. */
  datatype Object<S> = Object(
    state: S, processed: seq<Event>, queue: seq<Event>, logs: Logs,
    now: int, filter: int, standing: bool, violation: int, rolling: bool, target: int)

  datatype Action =
    | Arrive(e: Event)        // speculation_queue_insert of another object's message
    | CancelProcessed(k: nat) // queue_elem_annihilation, by its sender, of a processed event
    | CancelQueued(k: nat)    // and of one still in the slot
    | Begin                   // the owner takes the standing rollback
    | Finish                  // run_rollback
    | Extract                 // the owner extracts and processes the next event

  /** A rollback to time t is called for, or the one called for reaches further back. */
  function Violate<S>(o: Object<S>, t: int): Object<S> {
    if o.standing then (if o.violation > t then o.(violation := t) else o)
    else o.(standing := true, violation := t)
  }

  /** The destination's part of `speculation_queue_insert`. */
  function Receive<S>(o: Object<S>, e: Event): Object<S> {
    (if o.now >= e.ts then Violate(o, e.ts) else o).(queue := Insert(o.queue, e))
  }

  /** One message that the filter lets pass: refused before the epoch, kept for a later one, or logged
      and delivered, to the object itself if it is for it. */
  function Send<S>(ep: Epoch<S>, o: Object<S>, at: int, m: Message): Object<S> {
    var s := Sent(at, m);
    if m.ts < ep.start then o
    else if m.ts >= ep.end then o.(logs := o.logs.(later := o.logs.later + [s]))
    else
      var logged := o.(logs := o.logs.(soon := o.logs.soon + [s]));
      if m.destination == ep.self then Receive(logged, OwnEvent(s)) else logged
  }

  function SendAll<S>(ep: Epoch<S>, o: Object<S>, at: int, messages: seq<Message>): Object<S>
    decreases |messages|
  {
    if messages == [] then o else SendAll(ep, Send(ep, o, at, messages[0]), at, messages[1..])
  }

  /** The rollbacks that the annihilation of own events calls for. */
  function Recall<S>(o: Object<S>, gone: seq<Event>): Object<S> {
    if gone == [] then o else Violate(Recall(o, gone[1..]), gone[0].ts)
  }

  ghost predicate Enabled<S>(ep: Epoch<S>, o: Object<S>, a: Action) {
    match a
    case Arrive(e) => ep.start <= e.ts < ep.end && 0 < e.ts && e.origin == Outside
    case CancelProcessed(k) => k < |o.processed| && 0 < o.processed[k].ts && o.processed[k].origin == Outside
    case CancelQueued(k) => k < |o.queue| && 0 < o.queue[k].ts && o.queue[k].origin == Outside
    case Begin => o.standing && !o.rolling
    case Finish => o.rolling
    case Extract =>
      && !o.standing && !o.rolling && o.queue != []
      && forall m | m in ep.handler(o.state, o.queue[0]).1 && IsOwn(ep, m) :: 0 < m.ts
  }

  /** The extraction of the next event, up to the messages. */
  function Extracted<S>(ep: Epoch<S>, o: Object<S>): Object<S>
    requires o.queue != []
  {
    o.(state := ep.handler(o.state, o.queue[0]).0, queue := o.queue[1..],
       processed := o.processed + [o.queue[0]], now := o.queue[0].ts)
  }

  function Step<S>(ep: Epoch<S>, o: Object<S>, a: Action): Object<S>
    requires Enabled(ep, o, a)
  {
    match a
    case Arrive(e) => Receive(o, e)
    case CancelProcessed(k) => Violate(o, o.processed[k].ts).(processed := Without(o.processed, k))
    case CancelQueued(k) => Violate(o, o.queue[k].ts).(queue := Without(o.queue, k))
    case Begin =>
      o.(standing := false, now := ep.start, filter := o.violation - 1,
         rolling := o.violation > 0, target := o.violation)
    case Finish =>
      Recall(o, Recalled(ep, o.logs.soon, o.target))
        .(state := ep.checkpoint, logs := TruncateLogs(o.logs, o.target),
          queue := Requeue(Kept(o.queue, o.target), Kept(o.processed, o.target)), processed := [], rolling := false)
    case Extract =>
      var e := o.queue[0];
      if o.filter >= e.ts then Extracted(ep, o)
      else SendAll(ep, Extracted(ep, o), e.ts, ep.handler(o.state, e).1)
  }

  /** After `speculation_queue_flush`: nothing processed, nothing filtered, the clock of the last epoch. */
  ghost predicate Fresh<S>(ep: Epoch<S>, o: Object<S>) {
    && 0 <= ep.start < ep.end
    && o.state == ep.checkpoint && o.processed == [] && o.logs == Logs([], [])
    && o.now <= ep.start && o.filter == ep.start - 1 && !o.standing && !o.rolling
    && Sorted(o.queue) && AtLeast(o.queue, ep.start) && AtMost(o.queue, ep.end - 1)
    && forall e | e in o.queue :: e.origin == Outside
  }

  /** A run of steps, each enabled when it is taken. */
  ghost predicate Runs<S>(ep: Epoch<S>, o: Object<S>, actions: seq<Action>)
    decreases |actions|
  {
    actions == [] || (Enabled(ep, o, actions[0]) && Runs(ep, Step(ep, o, actions[0]), actions[1..]))
  }

  ghost function After<S>(ep: Epoch<S>, o: Object<S>, actions: seq<Action>): Object<S>
    requires Runs(ep, o, actions)
    decreases |actions|
  {
    if actions == [] then o else After(ep, Step(ep, o, actions[0]), actions[1..])
  }

  // ---- what sending and recalling change ----

  lemma {:induction false} SendAllIs<S>(ep: Epoch<S>, o: Object<S>, at: int, messages: seq<Message>)
    ensures var r := SendAll(ep, o, at, messages);
            && r == o.(queue := r.queue, logs := Record(ep, o.logs, at, messages), standing := r.standing, violation := r.violation)
    decreases |messages|
  {
    if messages != [] {
      SendAllIs(ep, Send(ep, o, at, messages[0]), at, messages[1..]);
    }
  }

  lemma {:induction false} RecallIs<S>(o: Object<S>, gone: seq<Event>)
    ensures var r := Recall(o, gone);
            && r == o.(standing := r.standing, violation := r.violation)
            && if gone == [] then r == o
               else r.standing && r.violation == if o.standing && o.violation < Earliest(gone) then o.violation else Earliest(gone)
  {
    if gone != [] {
      RecallIs(o, gone[1..]);
    }
  }

  // ---- order, under every interleaving ----

  ghost predicate OrderInv<S>(ep: Epoch<S>, o: Object<S>) {
    && 0 <= ep.start < ep.end
    && Sorted(o.processed) && AtLeast(o.processed, ep.start) && AtMost(o.processed, ep.end - 1)
    && Sorted(o.queue) && AtLeast(o.queue, ep.start) && AtMost(o.queue, ep.end - 1)
    && (o.standing ==> 0 < o.violation && ep.start <= o.violation)
    && (o.rolling ==> o.now == ep.start <= o.target && o.filter == o.target - 1)
    && (!o.rolling ==> AtMost(o.processed, o.now))
    && (!o.rolling && !o.standing ==> AtLeast(o.queue, o.now))
    && InEpoch(ep, OwnEvents(ep, o.logs.soon))
  }

  /** Times to which a rollback can be carried out. */
  ghost predicate InEpoch<S>(ep: Epoch<S>, l: seq<Event>) {
    forall e | e in l :: 0 < e.ts && ep.start <= e.ts < ep.end
  }

  lemma ReceiveOrder<S>(ep: Epoch<S>, o: Object<S>, e: Event)
    requires OrderInv(ep, o) && ep.start <= e.ts < ep.end && 0 < e.ts
    ensures OrderInv(ep, Receive(o, e))
  {
    InsertSorted(o.queue, e);
    InsertBounds(o.queue, e, ep.start, ep.end - 1);
    if o.now < e.ts && !o.rolling && !o.standing {
      InsertBounds(o.queue, e, o.now, ep.end - 1);
    }
  }

  lemma LoggedOrder<S>(ep: Epoch<S>, o: Object<S>, s: Sent)
    requires OrderInv(ep, o) && (IsOwn(ep, s.message) ==> 0 < s.message.ts)
    ensures OrderInv(ep, o.(logs := o.logs.(soon := o.logs.soon + [s])))
  {
    assert (o.logs.soon + [s])[..|o.logs.soon|] == o.logs.soon;
  }

  lemma SendOrder<S>(ep: Epoch<S>, o: Object<S>, at: int, m: Message)
    requires OrderInv(ep, o) && (IsOwn(ep, m) ==> 0 < m.ts)
    ensures OrderInv(ep, Send(ep, o, at, m))
  {
    var s := Sent(at, m);
    if ep.start <= m.ts < ep.end {
      LoggedOrder(ep, o, s);
      if m.destination == ep.self {
        ReceiveOrder(ep, o.(logs := o.logs.(soon := o.logs.soon + [s])), OwnEvent(s));
      }
    }
  }

  lemma {:induction false} SendAllOrder<S>(ep: Epoch<S>, o: Object<S>, at: int, messages: seq<Message>)
    requires OrderInv(ep, o) && forall m | m in messages && IsOwn(ep, m) :: 0 < m.ts
    ensures OrderInv(ep, SendAll(ep, o, at, messages))
    decreases |messages|
  {
    if messages != [] {
      assert messages[0] in messages;
      SendOrder(ep, o, at, messages[0]);
      assert forall m | m in messages[1..] :: m in messages;
      SendAllOrder(ep, Send(ep, o, at, messages[0]), at, messages[1..]);
    }
  }

  lemma ExtractedOrder<S>(ep: Epoch<S>, o: Object<S>)
    requires OrderInv(ep, o) && !o.standing && !o.rolling && o.queue != []
    ensures OrderInv(ep, Extracted(ep, o))
  {
    var e := o.queue[0];
    assert AtMost(o.processed, e.ts);
    assert Sorted(o.processed + [e]);
    assert AtLeast(o.queue[1..], e.ts);
  }

  lemma KeptOrder(l: seq<Event>, t: int, lo: int, hi: int)
    requires Sorted(l) && AtLeast(l, lo) && AtMost(l, hi)
    ensures Sorted(Kept(l, t)) && AtLeast(Kept(l, t), lo) && AtMost(Kept(l, t), hi)
  {
    KeptSorted(l, t);
    forall i | 0 <= i < |Kept(l, t)| ensures lo <= Kept(l, t)[i].ts <= hi {
      KeptMembers(l, t, Kept(l, t)[i]);
    }
  }

  lemma RecallOrder<S>(ep: Epoch<S>, o: Object<S>, gone: seq<Event>)
    requires OrderInv(ep, o) && InEpoch(ep, gone) && o.rolling
    ensures OrderInv(ep, Recall(o, gone))
  {
    RecallIs(o, gone);
    if gone != [] {
      EarliestIsOne(gone);
    }
  }

  lemma FinishOrder<S>(ep: Epoch<S>, o: Object<S>)
    requires OrderInv(ep, o) && o.rolling
    ensures OrderInv(ep, Step(ep, o, Finish))
  {
    var q, p := Kept(o.queue, o.target), Kept(o.processed, o.target);
    RecalledSplits(ep, o.logs.soon, o.target);
    RecallOrder(ep, o, Recalled(ep, o.logs.soon, o.target));
    KeptOrder(o.queue, o.target, ep.start, ep.end - 1);
    KeptOrder(o.processed, o.target, ep.start, ep.end - 1);
    RequeueSorted(q, p);
    RequeueBounds(q, p, ep.start, ep.end - 1);
    RecallIs(o, Recalled(ep, o.logs.soon, o.target));
  }

  lemma StepOrder<S>(ep: Epoch<S>, o: Object<S>, a: Action)
    requires OrderInv(ep, o) && Enabled(ep, o, a)
    ensures OrderInv(ep, Step(ep, o, a))
  {
    match a
    case Arrive(e) => ReceiveOrder(ep, o, e);
    case CancelProcessed(k) => WithoutKeeps(o.processed, k);
    case CancelQueued(k) => WithoutKeeps(o.queue, k);
    case Begin =>
    case Finish => FinishOrder(ep, o);
    case Extract =>
      ExtractedOrder(ep, o);
      if o.filter < o.queue[0].ts {
        SendAllOrder(ep, Extracted(ep, o), o.queue[0].ts, ep.handler(o.state, o.queue[0]).1);
      }
  }

  lemma WithoutKeeps(l: seq<Event>, k: nat)
    requires k < |l|
    ensures Sorted(l) ==> Sorted(Without(l, k))
    ensures forall t | AtLeast(l, t) :: AtLeast(Without(l, k), t)
    ensures forall t | AtMost(l, t) :: AtMost(Without(l, k), t)
  {
  }

  /** Extractions never go back in time, and the retractable list is always sorted. */
  lemma {:induction false} NeverBackInTime<S>(ep: Epoch<S>, o: Object<S>, actions: seq<Action>)
    requires OrderInv(ep, o) && Runs(ep, o, actions)
    ensures OrderInv(ep, After(ep, o, actions))
    ensures var last := After(ep, o, actions);
            && Sorted(last.processed)
            && (Enabled(ep, last, Extract) ==> last.now <= last.queue[0].ts)
    decreases |actions|
  {
    if actions != [] {
      StepOrder(ep, o, actions[0]);
      NeverBackInTime(ep, Step(ep, o, actions[0]), actions[1..]);
    }
  }

  // ---- exactness of replay ----

  /** The earliest time at which the logs are still to be cut. */
  function Cut<S>(o: Object<S>): int {
    if o.standing && !(o.rolling && o.target < o.violation) then o.violation else o.target
  }

  /** The first own event that a log, cut at t, recalls; d if there is none. */
  function FirstRecalled<S>(ep: Epoch<S>, log: seq<Sent>, t: int, d: int): int {
    if Recalled(ep, log, t) == [] then d else Earliest(Recalled(ep, log, t))
  }

  function Min(a: int, b: int): int {
    if a < b then a else b
  }

  /** The time before which events will be coasted over once every rollback called for has been
      carried out, those included that the annihilation of own events will call for. */
  function Horizon<S>(ep: Epoch<S>, o: Object<S>): int {
    if !o.standing && !o.rolling then o.filter + 1
    else if o.standing && o.rolling && o.target < o.violation then
      Min(o.violation, FirstRecalled(ep, o.logs.soon, o.target, o.violation))
    else
      FirstRecalled(ep, if o.standing && o.rolling then Truncate(o.logs.soon, o.target) else o.logs.soon, Cut(o), Cut(o))
  }

  /** No event that the cut leaves lies between it and the horizon. */
  ghost predicate Covered<S>(ep: Epoch<S>, o: Object<S>) {
    Free(o.processed, Cut(o), Horizon(ep, o)) && Free(o.queue, Cut(o), Horizon(ep, o))
  }

  ghost predicate Free(l: seq<Event>, c: int, h: int) {
    forall e | e in l && Stays(e, c) :: !(c <= e.ts < h)
  }

  /** What the object sends itself within the epoch lies later than the event that sends it. */
  ghost predicate Forward<S(!new)>(ep: Epoch<S>) {
    forall s, e, m | m in ep.handler(s, e).1 && IsOwn(ep, m) :: m.ts > e.ts
  }

  ghost predicate AllAhead<S>(ep: Epoch<S>, o: Object<S>) {
    Ahead(o.queue) && Ahead(o.processed) && Ahead(OwnEvents(ep, o.logs.soon))
  }

  /** Memory and logs of a straight run: the logs are ahead by the events still to be coasted over. */
  ghost predicate Replayed<S>(ep: Epoch<S>, state: S, logs: Logs, processed: seq<Event>, coast: seq<Event>) {
    state == Straight(ep, processed).0 && logs == Straight(ep, processed + coast).1
  }

  /** Logs that are right when they have been cut at c. */
  ghost predicate CutRight<S>(ep: Epoch<S>, logs: Logs, queue: seq<Event>, processed: seq<Event>, c: int) {
    TruncateLogs(logs, c) == Straight(ep, Below(Requeue(queue, processed), c)).1
  }

  /** Outside a rollback the memory is that of a straight run of the processed events, and the logs
      are those of the processed events and of the queued ones that are coasted over.  With a rollback
      standing or under way, the logs before the coming cut are right. */
  ghost predicate Trusted<S>(ep: Epoch<S>, o: Object<S>) {
    && OrderInv(ep, o) && AllAhead(ep, o)
    && if !o.rolling && !o.standing then Replayed(ep, o.state, o.logs, o.processed, Below(o.queue, o.filter + 1))
       else CutRight(ep, o.logs, o.queue, o.processed, Cut(o))
  }

  /** And nothing will be coasted over whose messages are not in the logs. */
  ghost predicate Exact<S>(ep: Epoch<S>, o: Object<S>) {
    Trusted(ep, o) && (o.rolling || o.standing ==> Covered(ep, o))
  }

  /** The arrivals and cancellations that the coasting filter can bear.  An arriving event must not lie
      before the horizon, which it may itself have moved: a straggler, if it makes the object recall a
      message to itself.  A cancellation must leave the object covered, and outside a rollback it must
      not move the horizon past an event that was neither processed nor coasted over, nor put a
      processed event behind a queued one of the same time. */
  ghost predicate Safe<S>(ep: Epoch<S>, o: Object<S>, a: Action) {
    match a
    case Arrive(e) => e.ts >= Horizon(ep, Receive(o, e))
    case CancelProcessed(k) => k < |o.processed| ==> SafeCancel(ep, o, o.queue, Without(o.processed, k), o.processed[k].ts)
    case CancelQueued(k) => k < |o.queue| ==> SafeCancel(ep, o, Without(o.queue, k), o.processed, o.queue[k].ts)
    case _ => true
  }

  /** What a cancellation at time t leaves, with the lists without the cancelled event. */
  function Cancelled<S>(o: Object<S>, queue: seq<Event>, processed: seq<Event>, t: int): Object<S> {
    Violate(o, t).(queue := queue, processed := processed)
  }

  ghost predicate SafeCancel<S>(ep: Epoch<S>, o: Object<S>, queue: seq<Event>, processed: seq<Event>, t: int) {
    LosslessCancel(ep, o, queue, processed, t) && (!o.standing && !o.rolling ==> NoTie(o, t))
  }

  /** No event without recorded messages comes to lie before the horizon. */
  ghost predicate LosslessCancel<S>(ep: Epoch<S>, o: Object<S>, queue: seq<Event>, processed: seq<Event>, t: int) {
    && (!o.standing && !o.rolling ==> Clear(o.queue, o.filter + 1, t))
    && Covered(ep, Cancelled(o, queue, processed, t))
  }

  /** No queued event before t has the time of the last processed one. */
  ghost predicate NoTie<S>(o: Object<S>, t: int) {
    o.processed == [] ||
    forall i | 0 <= i < |o.queue| && o.queue[i].ts < t :: o.processed[|o.processed| - 1].ts < o.queue[i].ts
  }

  // ---- the horizon ----

  lemma FirstAhead<S>(ep: Epoch<S>, log: seq<Sent>, t: int, d: int)
    requires Ahead(OwnEvents(ep, log))
    ensures Recalled(ep, log, t) != [] ==> FirstRecalled(ep, log, t, d) > t
  {
    RecalledSince(ep, log, t);
    if Recalled(ep, log, t) != [] {
      EarliestIsOne(Recalled(ep, log, t));
    }
  }

  lemma TruncatedAhead<S>(ep: Epoch<S>, log: seq<Sent>, t: int)
    requires Ahead(OwnEvents(ep, log))
    ensures Ahead(OwnEvents(ep, Truncate(log, t)))
  {
    RecalledSplits(ep, log, t);
  }

  lemma HorizonAfterCut<S>(ep: Epoch<S>, o: Object<S>)
    requires Ahead(OwnEvents(ep, o.logs.soon)) && (o.standing || o.rolling)
    ensures Cut(o) <= Horizon(ep, o)
  {
    FirstAhead(ep, o.logs.soon, Cut(o), Cut(o));
    FirstAhead(ep, o.logs.soon, o.target, o.violation);
    TruncatedAhead(ep, o.logs.soon, o.target);
    FirstAhead(ep, Truncate(o.logs.soon, o.target), Cut(o), Cut(o));
  }

  /** What will be coasted over, of the events that the cut leaves, is what lies before the cut. */
  lemma FreeBelow(l: seq<Event>, c: int, h: int)
    requires Ahead(l) && Free(l, c, h) && c <= h
    ensures Below(Kept(l, c), h) == Below(l, c)
  {
    KeptBelow(l, c, c);
    forall i | 0 <= i < |Kept(l, c)| ensures !(c <= Kept(l, c)[i].ts < h) {
      KeptMembers(l, c, Kept(l, c)[i]);
    }
    BelowGap(Kept(l, c), c, h);
  }

  // ---- run_rollback ----

  lemma KeptRequeueBelow(queue: seq<Event>, processed: seq<Event>, c: int, t: int)
    requires Sorted(queue) && Ahead(queue) && Ahead(processed) && t <= c
    ensures Below(Requeue(Kept(queue, c), Kept(processed, c)), t) == Below(Requeue(queue, processed), t)
  {
    KeptSorted(queue, c);
    BelowRequeue(Kept(queue, c), Kept(processed, c), t);
    BelowRequeue(queue, processed, t);
    KeptBelow(queue, c, t);
    KeptBelow(processed, c, t);
  }

  lemma CoveredRequeueBelow(queue: seq<Event>, processed: seq<Event>, c: int, h: int)
    requires Sorted(queue) && Ahead(queue) && Ahead(processed) && c <= h && Free(queue, c, h) && Free(processed, c, h)
    ensures Below(Requeue(Kept(queue, c), Kept(processed, c)), h) == Below(Requeue(queue, processed), c)
  {
    KeptSorted(queue, c);
    BelowRequeue(Kept(queue, c), Kept(processed, c), h);
    BelowRequeue(queue, processed, c);
    FreeBelow(queue, c, h);
    FreeBelow(processed, c, h);
  }

  lemma {:induction false} RequeueMembers(queue: seq<Event>, processed: seq<Event>, e: Event)
    ensures e in Requeue(queue, processed) <==> e in queue || e in processed
  {
    RequeueContents(queue, processed);
    assert e in multiset(Requeue(queue, processed)) <==> e in multiset(queue) || e in multiset(processed);
  }

  lemma FinishAhead<S>(ep: Epoch<S>, o: Object<S>)
    requires AllAhead(ep, o) && o.rolling
    ensures AllAhead(ep, Step(ep, o, Finish))
  {
    TruncatedAhead(ep, o.logs.soon, o.target);
    RecallIs(o, Recalled(ep, o.logs.soon, o.target));
    var q, p := Kept(o.queue, o.target), Kept(o.processed, o.target);
    forall e | e in Requeue(q, p) ensures e.origin.Own? ==> e.ts > e.origin.at {
      RequeueMembers(q, p, e);
      KeptMembers(o.queue, o.target, e);
      KeptMembers(o.processed, o.target, e);
    }
  }

  lemma CutTwice(logs: Logs, t: int, u: int)
    requires u <= t
    ensures TruncateLogs(TruncateLogs(logs, t), u) == TruncateLogs(logs, u)
  {
    TruncateTwice(logs.later, t, u);
    TruncateTwice(logs.soon, t, u);
  }

  lemma CutKeeps(logs: Logs, t: int, u: int)
    requires t <= u
    ensures TruncateLogs(TruncateLogs(logs, t), u) == TruncateLogs(logs, t)
  {
    TruncateKeeps(logs.later, t, u);
    TruncateKeeps(logs.soon, t, u);
  }

  /** What stands after a rollback has been carried out. */
  lemma FinishStands<S>(ep: Epoch<S>, o: Object<S>)
    requires AllAhead(ep, o) && o.rolling
    ensures var o' := Step(ep, o, Finish);
            && o' == o.(state := ep.checkpoint, logs := TruncateLogs(o.logs, o.target), processed := [],
                        queue := Requeue(Kept(o.queue, o.target), Kept(o.processed, o.target)), rolling := false,
                        standing := o'.standing, violation := o'.violation)
            && o'.standing == (o.standing || Recalled(ep, o.logs.soon, o.target) != [])
            && (o'.standing ==> if o.standing && o.violation <= o.target then o'.violation == o.violation
                                else o'.violation == Horizon(ep, o) > o.target)
  {
    var gone := Recalled(ep, o.logs.soon, o.target);
    RecallIs(o, gone);
    FirstAhead(ep, o.logs.soon, o.target, o.violation);
  }

  /** No rollback is called for: the object begins to replay. */
  lemma FinishQuiet<S>(ep: Epoch<S>, o: Object<S>)
    requires Exact(ep, o) && o.rolling && !o.standing && Recalled(ep, o.logs.soon, o.target) == []
    ensures Trusted(ep, Step(ep, o, Finish))
  {
    StepOrder(ep, o, Finish);
    FinishAhead(ep, o);
    FinishStands(ep, o);
    KeptRequeueBelow(o.queue, o.processed, o.target, o.target);
    FromCheckpoint(ep, TruncateLogs(o.logs, o.target), Below(Requeue(o.queue, o.processed), o.target));
  }

  lemma FromCheckpoint<S>(ep: Epoch<S>, logs: Logs, coast: seq<Event>)
    requires logs == Straight(ep, coast).1
    ensures Replayed(ep, ep.checkpoint, logs, [], coast)
  {
    assert [] + coast == coast;
  }

  /** A rollback is called for behind the one that has been carried out. */
  lemma FinishBehind<S>(ep: Epoch<S>, o: Object<S>)
    requires Exact(ep, o) && o.rolling && Step(ep, o, Finish).standing && !(o.standing && o.violation <= o.target)
    ensures Exact(ep, Step(ep, o, Finish))
  {
    StepOrder(ep, o, Finish);
    FinishAhead(ep, o);
    FinishStands(ep, o);
    var h := Horizon(ep, o);
    CoveredRequeueBelow(o.queue, o.processed, o.target, h);
    var all' := Requeue(Kept(o.queue, o.target), Kept(o.processed, o.target));
    assert Requeue(all', []) == all';
    CutKeeps(o.logs, o.target, h);
    NothingRecalled(ep, o.logs.soon, o.target, h);
  }

  /** The rollback that stood already reaches further back. */
  lemma FinishDeeper<S>(ep: Epoch<S>, o: Object<S>)
    requires Exact(ep, o) && o.rolling && o.standing && o.violation <= o.target
    ensures Exact(ep, Step(ep, o, Finish))
  {
    StepOrder(ep, o, Finish);
    FinishAhead(ep, o);
    FinishStands(ep, o);
    var all' := Requeue(Kept(o.queue, o.target), Kept(o.processed, o.target));
    KeptRequeueBelow(o.queue, o.processed, o.target, o.violation);
    assert Requeue(all', []) == all';
    CutTwice(o.logs, o.target, o.violation);
    forall e | e in all' && Stays(e, o.violation) ensures !(o.violation <= e.ts < Horizon(ep, o)) {
      RequeueMembers(Kept(o.queue, o.target), Kept(o.processed, o.target), e);
      KeptMembers(o.queue, o.target, e);
      KeptMembers(o.processed, o.target, e);
    }
  }

  lemma FinishExact<S>(ep: Epoch<S>, o: Object<S>)
    requires Exact(ep, o) && Enabled(ep, o, Finish)
    ensures Exact(ep, Step(ep, o, Finish))
  {
    FinishStands(ep, o);
    if !Step(ep, o, Finish).standing {
      FinishQuiet(ep, o);
    } else if o.standing && o.violation <= o.target {
      FinishDeeper(ep, o);
    } else {
      FinishBehind(ep, o);
    }
  }

  lemma BeginExact<S>(ep: Epoch<S>, o: Object<S>)
    requires Exact(ep, o) && Enabled(ep, o, Begin)
    ensures Exact(ep, Step(ep, o, Begin))
  {
    StepOrder(ep, o, Begin);
  }

  // ---- arrivals and cancellations ----

  /** Cutting the logs at t, with everything queued before t coasted over. */
  lemma CutCoasted<S>(ep: Epoch<S>, state: S, logs: Logs, processed: seq<Event>, queue: seq<Event>, now: int, f: int, t: int)
    requires Sorted(processed) && Sorted(queue) && AtMost(processed, now) && AtLeast(queue, now) && Clear(queue, f, t)
    requires Replayed(ep, state, logs, processed, Below(queue, f))
    ensures TruncateLogs(logs, t) == Straight(ep, Below(processed, t) + Below(queue, t)).1
  {
    var coast := Below(queue, f);
    BelowSorted(queue, f);
    BelowBounds(queue, f, now);
    SortedConcat(processed, coast, now);
    TruncateStraight(ep, processed + coast, t);
    BelowConcat(processed, coast, t);
    CoastedBelow(queue, f, t);
  }

  /** With everything queued before t coasted over and behind the processed events, cutting the logs at
      t leaves those of the events before t, in the order in which they will be replayed. */
  lemma CutAtViolation<S>(ep: Epoch<S>, o: Object<S>, t: int)
    requires Trusted(ep, o) && !o.rolling && !o.standing && Clear(o.queue, o.filter + 1, t) && NoTie(o, t)
    ensures CutRight(ep, o.logs, o.queue, o.processed, t)
  {
    CutCoasted(ep, o.state, o.logs, o.processed, o.queue, o.now, o.filter + 1, t);
    BelowRequeue(o.queue, o.processed, t);
    ReplayOrder(o.queue, o.processed, o.now, t);
  }

  lemma CoastedBelow(queue: seq<Event>, f: int, t: int)
    requires Clear(queue, f, t)
    ensures Below(Below(queue, f), t) == Below(queue, t)
  {
    if t <= f {
      BelowBelow(queue, f, t);
    } else {
      BelowGap(queue, f, t);
      BelowBelow(queue, t, f);
      BelowBelow(queue, t, t);
    }
  }

  /** What lies before t goes back into the slot with the processed events first. */
  lemma ReplayOrder(queue: seq<Event>, processed: seq<Event>, now: int, t: int)
    requires Sorted(queue) && Sorted(processed) && AtMost(processed, now) && AtLeast(queue, now)
    requires processed == [] ||
             forall i | 0 <= i < |queue| && queue[i].ts < t :: processed[|processed| - 1].ts < queue[i].ts
    ensures Requeue(Below(queue, t), Below(processed, t)) == Below(processed, t) + Below(queue, t)
  {
    if queue == [] || queue[0].ts >= t {
      NothingQueued(queue, processed, t);
    } else if processed == [] {
      assert [] + Below(queue, t) == Below(queue, t);
    } else {
      InFront(queue, processed, queue[0].ts, t);
    }
  }

  lemma NothingQueued(queue: seq<Event>, processed: seq<Event>, t: int)
    requires Sorted(queue) && Sorted(processed) && (queue == [] || queue[0].ts >= t)
    ensures Requeue(Below(queue, t), Below(processed, t)) == Below(processed, t) + Below(queue, t)
  {
    BelowSorted(processed, t);
    BelowNone(queue, t);
    RequeueIntoEmpty(Below(processed, t));
    assert Below(processed, t) + [] == Below(processed, t);
  }

  lemma InFront(queue: seq<Event>, processed: seq<Event>, n: int, t: int)
    requires Sorted(queue) && Sorted(processed) && queue != [] && n == queue[0].ts
    requires processed != [] && processed[|processed| - 1].ts < n
    ensures Requeue(Below(queue, t), Below(processed, t)) == Below(processed, t) + Below(queue, t)
  {
    BelowSorted(processed, t);
    BelowBounds(queue, t, n);
    LastBounds(processed, n);
    BelowAtMost(processed, t, n - 1);
    PutInFront(Below(queue, t), Below(processed, t), n);
  }

  lemma LastBounds(l: seq<Event>, n: int)
    requires Sorted(l) && l != [] && l[|l| - 1].ts < n
    ensures AtMost(l, n - 1)
  {
  }

  lemma PutInFront(q: seq<Event>, p: seq<Event>, n: int)
    requires Sorted(p) && AtMost(p, n - 1) && AtLeast(q, n)
    ensures Requeue(q, p) == p + q
  {
    assert [] + p == p && [] + q == q;
    RequeueFront([], q, p, n);
  }

  lemma {:induction false} BelowAtMost(l: seq<Event>, t: int, hi: int)
    requires AtMost(l, hi)
    ensures AtMost(Below(l, t), hi)
  {
    if l != [] {
      BelowAtMost(l[1..], t, hi);
    }
  }

  lemma SortedConcat(a: seq<Event>, b: seq<Event>, t: int)
    requires Sorted(a) && Sorted(b) && AtMost(a, t) && AtLeast(b, t)
    ensures Sorted(a + b)
  {
  }

  /** Logs that are right before t are right before any earlier time. */
  lemma TrustLess<S>(ep: Epoch<S>, logs: Logs, queue: seq<Event>, processed: seq<Event>, t: int, u: int)
    requires u <= t && Sorted(queue) && CutRight(ep, logs, queue, processed, t)
    ensures CutRight(ep, logs, queue, processed, u)
  {
    var all := Requeue(queue, processed);
    RequeueSorted(queue, processed);
    CutTwice(logs, t, u);
    BelowSorted(all, t);
    TruncateStraight(ep, Below(all, t), u);
    BelowBelow(all, t, u);
  }

  /** An arrival ahead of the clock, and behind the filter, is not coasted over. */
  lemma AheadCoast(queue: seq<Event>, e: Event, filter: int)
    requires Sorted(queue) && filter < e.ts
    ensures Below(Insert(queue, e), filter + 1) == Below(queue, filter + 1)
  {
    BelowInsert(queue, e, filter + 1);
  }

  /** An arrival at or behind t changes nothing before t. */
  lemma ArriveBelow<S>(o: Object<S>, e: Event, t: int)
    requires Sorted(o.queue) && t <= e.ts
    ensures Below(Requeue(Insert(o.queue, e), o.processed), t) == Below(Requeue(o.queue, o.processed), t)
  {
    InsertSorted(o.queue, e);
    BelowRequeue(o.queue, o.processed, t);
    BelowRequeue(Insert(o.queue, e), o.processed, t);
    BelowInsert(o.queue, e, t);
  }

  lemma {:induction false} BelowWithout(l: seq<Event>, k: nat, t: int)
    requires k < |l| && t <= l[k].ts
    ensures Below(Without(l, k), t) == Below(l, t)
  {
    if k == 0 {
      assert Without(l, 0) == l[1..];
    } else {
      assert Without(l, k)[1..] == Without(l[1..], k - 1);
      BelowWithout(l[1..], k - 1, t);
    }
  }

  lemma InsertAhead(l: seq<Event>, e: Event)
    requires Ahead(l) && (e.origin.Own? ==> e.ts > e.origin.at)
    ensures Ahead(Insert(l, e)) && forall x :: x in Insert(l, e) <==> x == e || x in l
  {
    forall x ensures x in Insert(l, e) <==> x == e || x in l {
      InsertContents(l, e);
      assert x in multiset(Insert(l, e)) <==> x in multiset(l) + multiset{e};
    }
  }

  /** An arrival leaves the rollbacks that are called for as they are, or moves the cut to its time. */
  lemma ReceiveCut<S>(ep: Epoch<S>, o: Object<S>, e: Event)
    requires OrderInv(ep, o) && ep.start <= e.ts && (o.standing || o.rolling || e.ts <= o.now)
    ensures var o' := Receive(o, e);
            && (o'.standing || o'.rolling)
            && ((Cut(o') == Cut(o) && Horizon(ep, o') == Horizon(ep, o) && (o.standing || o.rolling)) || Cut(o') == e.ts)
            && (o.standing || o.rolling ==> Cut(o') <= Cut(o))
  {
  }

  lemma ArriveExact<S>(ep: Epoch<S>, o: Object<S>, e: Event)
    requires Exact(ep, o) && Enabled(ep, o, Arrive(e)) && Safe(ep, o, Arrive(e))
    ensures Exact(ep, Receive(o, e))
  {
    StepOrder(ep, o, Arrive(e));
    InsertAhead(o.queue, e);
    if !o.rolling && !o.standing && o.now < e.ts {
      AheadCoast(o.queue, e, o.filter);
      IdleExact(ep, Receive(o, e), Below(o.queue, o.filter + 1));
    } else {
      ArriveInRollback(ep, o, e);
    }
  }

  /** A rollback is called for, by this arrival or before. */
  lemma ArriveInRollback<S>(ep: Epoch<S>, o: Object<S>, e: Event)
    requires Exact(ep, o) && OrderInv(ep, Receive(o, e)) && AllAhead(ep, Receive(o, e))
    requires forall x :: x in Insert(o.queue, e) <==> x == e || x in o.queue
    requires ep.start <= e.ts && (o.standing || o.rolling || e.ts <= o.now) && e.ts >= Horizon(ep, Receive(o, e))
    ensures Exact(ep, Receive(o, e))
  {
    ReceiveCut(ep, o, e);
    HorizonAfterCut(ep, Receive(o, e));
    ArriveTrusted(ep, o, e);
    RollbackTrusted(ep, Receive(o, e), Cut(Receive(o, e)));
    ArriveCovered(ep, o, e);
  }

  lemma ArriveCovered<S>(ep: Epoch<S>, o: Object<S>, e: Event)
    requires Exact(ep, o) && e.ts >= Horizon(ep, Receive(o, e))
    requires forall x :: x in Insert(o.queue, e) <==> x == e || x in o.queue
    requires var o' := Receive(o, e);
             (Cut(o') == Cut(o) && Horizon(ep, o') == Horizon(ep, o) && (o.standing || o.rolling)) || Cut(o') == e.ts
    ensures Covered(ep, Receive(o, e))
  {
  }

  lemma ArriveTrusted<S>(ep: Epoch<S>, o: Object<S>, e: Event)
    requires Trusted(ep, o) && ep.start <= e.ts && (o.standing || o.rolling || e.ts <= o.now)
    requires Cut(Receive(o, e)) <= e.ts
    ensures CutRight(ep, o.logs, Insert(o.queue, e), o.processed, Cut(Receive(o, e)))
  {
    var o' := Receive(o, e);
    ReceiveCut(ep, o, e);
    ArriveBelow(o, e, Cut(o'));
    if o.rolling || o.standing {
      TrustLess(ep, o.logs, o.queue, o.processed, Cut(o), Cut(o'));
    } else {
      CutAtViolation(ep, o, e.ts);
    }
  }

  lemma CancelCut<S>(o: Object<S>, queue: seq<Event>, processed: seq<Event>, t: int)
    ensures Cut(Cancelled(o, queue, processed, t)) <= t
    ensures o.standing || o.rolling ==> Cut(Cancelled(o, queue, processed, t)) <= Cut(o)
    ensures !o.standing && !o.rolling ==> Cut(Cancelled(o, queue, processed, t)) == t
  {
  }

  /** Cancelling an event at time t, in either list, leaves logs that are right before the coming cut. */
  lemma CancelTrusted<S>(ep: Epoch<S>, o: Object<S>, queue: seq<Event>, processed: seq<Event>, t: int, u: int)
    requires OrderInv(ep, Cancelled(o, queue, processed, t)) && AllAhead(ep, o) && Ahead(queue) && Ahead(processed)
    requires u == Cut(Cancelled(o, queue, processed, t)) && Sorted(o.queue) && CutRight(ep, o.logs, o.queue, o.processed, u)
    requires Below(queue, u) == Below(o.queue, u) && Below(processed, u) == Below(o.processed, u)
    ensures Trusted(ep, Cancelled(o, queue, processed, t))
  {
    SameBelow(ep, o.logs, o.queue, o.processed, queue, processed, u);
    RollbackTrusted(ep, Cancelled(o, queue, processed, t), u);
  }

  lemma SameBelow<S>(ep: Epoch<S>, logs: Logs, queue: seq<Event>, processed: seq<Event>,
                     queue': seq<Event>, processed': seq<Event>, u: int)
    requires CutRight(ep, logs, queue, processed, u) && Sorted(queue) && Sorted(queue')
    requires Below(queue', u) == Below(queue, u) && Below(processed', u) == Below(processed, u)
    ensures CutRight(ep, logs, queue', processed', u)
  {
    BelowRequeue(queue, processed, u);
    BelowRequeue(queue', processed', u);
  }

  lemma CancelLogs<S>(ep: Epoch<S>, o: Object<S>, t: int, u: int)
    requires Trusted(ep, o)
    requires if o.standing || o.rolling then u <= Cut(o) else u == t && Clear(o.queue, o.filter + 1, t) && NoTie(o, t)
    ensures CutRight(ep, o.logs, o.queue, o.processed, u)
  {
    if !o.rolling && !o.standing {
      CutAtViolation(ep, o, t);
    } else {
      TrustLess(ep, o.logs, o.queue, o.processed, Cut(o), u);
    }
  }

  lemma RollbackTrusted<S>(ep: Epoch<S>, o: Object<S>, c: int)
    requires OrderInv(ep, o) && AllAhead(ep, o) && (o.standing || o.rolling) && c == Cut(o)
    requires CutRight(ep, o.logs, o.queue, o.processed, c)
    ensures Trusted(ep, o)
  {
  }

  lemma WithoutMembers(l: seq<Event>, k: nat)
    requires k < |l|
    ensures forall e | e in Without(l, k) :: e in l
  {
  }

  lemma CancelProcessedTrusted<S>(ep: Epoch<S>, o: Object<S>, k: nat)
    requires Trusted(ep, o) && Enabled(ep, o, CancelProcessed(k))
    requires !o.standing && !o.rolling ==> Clear(o.queue, o.filter + 1, o.processed[k].ts) && NoTie(o, o.processed[k].ts)
    ensures Trusted(ep, Step(ep, o, CancelProcessed(k)))
  {
    StepOrder(ep, o, CancelProcessed(k));
    var t, rest := o.processed[k].ts, Without(o.processed, k);
    var u := Cut(Cancelled(o, o.queue, rest, t));
    CancelCut(o, o.queue, rest, t);
    BelowWithout(o.processed, k, u);
    WithoutMembers(o.processed, k);
    CancelLogs(ep, o, t, u);
    CancelTrusted(ep, o, o.queue, rest, t, u);
  }

  lemma CancelQueuedTrusted<S>(ep: Epoch<S>, o: Object<S>, k: nat)
    requires Trusted(ep, o) && Enabled(ep, o, CancelQueued(k))
    requires !o.standing && !o.rolling ==> Clear(o.queue, o.filter + 1, o.queue[k].ts) && NoTie(o, o.queue[k].ts)
    ensures Trusted(ep, Step(ep, o, CancelQueued(k)))
  {
    StepOrder(ep, o, CancelQueued(k));
    var t, rest := o.queue[k].ts, Without(o.queue, k);
    var u := Cut(Cancelled(o, rest, o.processed, t));
    CancelCut(o, rest, o.processed, t);
    BelowWithout(o.queue, k, u);
    WithoutMembers(o.queue, k);
    CancelLogs(ep, o, t, u);
    CancelTrusted(ep, o, rest, o.processed, t, u);
  }

  // ---- extraction ----

  /** The first queued event is either one of those coasted over, or none is. */
  lemma CoastOrSend(processed: seq<Event>, queue: seq<Event>, t: int)
    requires Sorted(queue) && queue != []
    ensures if queue[0].ts < t then processed + [queue[0]] + Below(queue[1..], t) == processed + Below(queue, t)
            else processed + Below(queue, t) == processed
                 && processed + [queue[0]] + Below(queue[1..], t) == processed + [queue[0]]
  {
    if queue[0].ts >= t {
      BelowNone(queue, t);
      BelowNone(queue[1..], t);
    }
  }

  lemma LoggedAhead<S>(ep: Epoch<S>, log: seq<Sent>, s: Sent)
    requires Ahead(OwnEvents(ep, log)) && (IsOwn(ep, s.message) ==> s.message.ts > s.at)
    ensures Ahead(OwnEvents(ep, log + [s]))
  {
    assert (log + [s])[..|log|] == log;
  }

  lemma SendForward<S>(ep: Epoch<S>, o: Object<S>, m: Message, t: int)
    requires t <= o.now + 1 && Sorted(o.queue) && Ahead(o.queue) && Ahead(OwnEvents(ep, o.logs.soon))
    requires IsOwn(ep, m) ==> m.ts > o.now
    ensures var r := Send(ep, o, o.now, m);
            && r == o.(queue := r.queue, logs := r.logs)
            && Sorted(r.queue) && Ahead(r.queue) && Ahead(OwnEvents(ep, r.logs.soon)) && Below(r.queue, t) == Below(o.queue, t)
  {
    var s := Sent(o.now, m);
    LoggedAhead(ep, o.logs.soon, s);
    if IsOwn(ep, m) {
      InsertSorted(o.queue, OwnEvent(s));
      InsertAhead(o.queue, OwnEvent(s));
      BelowInsert(o.queue, OwnEvent(s), t);
    }
  }

  /** Messages to itself that lie ahead of its clock join the object's queue behind what may be coasted over. */
  lemma {:induction false} SendAllForward<S>(ep: Epoch<S>, o: Object<S>, messages: seq<Message>, t: int)
    requires t <= o.now + 1 && Sorted(o.queue) && Ahead(o.queue) && Ahead(OwnEvents(ep, o.logs.soon))
    requires forall m | m in messages && IsOwn(ep, m) :: m.ts > o.now
    ensures var r := SendAll(ep, o, o.now, messages);
            && r == o.(queue := r.queue, logs := r.logs)
            && Ahead(r.queue) && Ahead(OwnEvents(ep, r.logs.soon)) && Below(r.queue, t) == Below(o.queue, t)
    decreases |messages|
  {
    if messages != [] {
      assert messages[0] in messages;
      SendForward(ep, o, messages[0], t);
      assert forall x | x in messages[1..] :: x in messages;
      SendAllForward(ep, Send(ep, o, o.now, messages[0]), messages[1..], t);
    }
  }

  lemma ExtractExact<S(!new)>(ep: Epoch<S>, o: Object<S>)
    requires Forward(ep) && Exact(ep, o) && Enabled(ep, o, Extract)
    ensures Exact(ep, Step(ep, o, Extract))
  {
    StepOrder(ep, o, Extract);
    if o.filter >= o.queue[0].ts {
      CoastExact(ep, o);
    } else {
      ReplayExact(ep, o);
    }
  }

  /** The extraction of an event that is coasted over, or not, on the side of the straight run. */
  lemma StraightExtract<S>(ep: Epoch<S>, processed: seq<Event>, queue: seq<Event>, f: int, state: S, logs: Logs)
    requires queue != [] && Sorted(queue) && Replayed(ep, state, logs, processed, Below(queue, f))
    ensures var e := queue[0]; var (s, messages) := ep.handler(state, e);
            Replayed(ep, s, if e.ts < f then logs else Record(ep, logs, e.ts, messages), processed + [e], Below(queue[1..], f))
  {
    StraightAppend(ep, processed, queue[0]);
    CoastOrSend(processed, queue, f);
  }

  lemma CoastExact<S>(ep: Epoch<S>, o: Object<S>)
    requires Enabled(ep, o, Extract) && o.filter >= o.queue[0].ts && Sorted(o.queue) && AllAhead(ep, o)
    requires Replayed(ep, o.state, o.logs, o.processed, Below(o.queue, o.filter + 1)) && OrderInv(ep, Extracted(ep, o))
    ensures Exact(ep, Extracted(ep, o))
  {
    StraightExtract(ep, o.processed, o.queue, o.filter + 1, o.state, o.logs);
    ExtractedAhead(o.queue, o.processed);
    IdleExact(ep, Extracted(ep, o), Below(o.queue[1..], o.filter + 1));
  }

  /** What the extraction of an event that is not coasted over leaves. */
  lemma ReplayLeaves<S(!new)>(ep: Epoch<S>, o: Object<S>)
    requires Forward(ep) && Enabled(ep, o, Extract) && o.filter < o.queue[0].ts && Sorted(o.queue) && AllAhead(ep, o)
    ensures var r := Step(ep, o, Extract); var (s, messages) := ep.handler(o.state, o.queue[0]);
            && r == Extracted(ep, o).(queue := r.queue, logs := Record(ep, o.logs, o.queue[0].ts, messages))
            && AllAhead(ep, r) && Below(r.queue, o.filter + 1) == Below(o.queue[1..], o.filter + 1)
  {
    ExtractedAhead(o.queue, o.processed);
    SendAllForward(ep, Extracted(ep, o), ep.handler(o.state, o.queue[0]).1, o.filter + 1);
    SendAllIs(ep, Extracted(ep, o), o.queue[0].ts, ep.handler(o.state, o.queue[0]).1);
  }

  lemma ReplayExact<S(!new)>(ep: Epoch<S>, o: Object<S>)
    requires Forward(ep) && Enabled(ep, o, Extract) && o.filter < o.queue[0].ts && Sorted(o.queue) && AllAhead(ep, o)
    requires Replayed(ep, o.state, o.logs, o.processed, Below(o.queue, o.filter + 1)) && OrderInv(ep, Step(ep, o, Extract))
    ensures Exact(ep, Step(ep, o, Extract))
  {
    StraightExtract(ep, o.processed, o.queue, o.filter + 1, o.state, o.logs);
    ReplayLeaves(ep, o);
    IdleExact(ep, Step(ep, o, Extract), Below(o.queue[1..], o.filter + 1));
  }

  lemma IdleExact<S>(ep: Epoch<S>, o: Object<S>, coast: seq<Event>)
    requires OrderInv(ep, o) && AllAhead(ep, o) && !o.standing && !o.rolling
    requires coast == Below(o.queue, o.filter + 1) && Replayed(ep, o.state, o.logs, o.processed, coast)
    ensures Exact(ep, o)
  {
  }

  lemma ExtractedAhead(queue: seq<Event>, processed: seq<Event>)
    requires Ahead(queue) && Ahead(processed) && queue != []
    ensures Ahead(queue[1..]) && Ahead(processed + [queue[0]])
  {
    assert queue[0] in queue;
  }

  lemma StepExact<S(!new)>(ep: Epoch<S>, o: Object<S>, a: Action)
    requires Forward(ep) && Exact(ep, o) && Enabled(ep, o, a) && Safe(ep, o, a)
    ensures Exact(ep, Step(ep, o, a))
  {
    match a
    case Arrive(e) => ArriveExact(ep, o, e);
    case CancelProcessed(k) => CancelProcessedTrusted(ep, o, k);
    case CancelQueued(k) => CancelQueuedTrusted(ep, o, k);
    case Begin => BeginExact(ep, o);
    case Finish => FinishExact(ep, o);
    case Extract => ExtractExact(ep, o);
  }

  lemma FreshExact<S>(ep: Epoch<S>, o: Object<S>)
    requires Fresh(ep, o)
    ensures Exact(ep, o)
  {
    BelowNone(o.queue, o.filter + 1);
  }

  /** Every arrival and cancellation of the run is safe when it happens. */
  ghost predicate SafeRun<S>(ep: Epoch<S>, o: Object<S>, actions: seq<Action>)
    requires Runs(ep, o, actions)
    decreases |actions|
  {
    actions == [] || (Safe(ep, o, actions[0]) && SafeRun(ep, Step(ep, o, actions[0]), actions[1..]))
  }

  lemma {:induction false} RunExact<S(!new)>(ep: Epoch<S>, o: Object<S>, actions: seq<Action>)
    requires Forward(ep) && Exact(ep, o) && Runs(ep, o, actions) && SafeRun(ep, o, actions)
    ensures Exact(ep, After(ep, o, actions))
    decreases |actions|
  {
    if actions != [] {
      StepExact(ep, o, actions[0]);
      RunExact(ep, Step(ep, o, actions[0]), actions[1..]);
    }
  }
}
