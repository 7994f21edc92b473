/** The reusable thread barrier of queue/barrier-synchronization.c as a state machine:
    two shared counters, and threads that each perform one shared access per step.
    Any schedule of thread indices is a run, so the lemmas hold for every interleaving. */
module Barrier {

  /** The access a thread performs next.  `Outside` is the caller's code between two calls. */
  datatype PC = Outside | ReadEra | ReadControl | TrySwap | ResetEra | Arrive | AwaitAll | Depart

  /** A thread with its local `ret`, and the history of its calls: how many it has begun,
      how often it has incremented `control`, and what each finished call returned. */
  datatype Thread = Thread(pc: PC, ret: bool, calls: nat, arrived: nat, returned: seq<bool>)

  /** `winners[r]` is the thread whose swap opened round r. */
  datatype State = State(control: int, era: int, threads: seq<Thread>, winners: seq<nat>)

  function Initial(n: nat): State {
    State(n, n, seq(n, i => Thread(Outside, false, 0, 0, [])), [])
  }

  /** Thread t performs its next shared access. */
  function Next(s: State, t: nat): State
    requires t < |s.threads|
  {
    var n, th := |s.threads|, s.threads[t];
    match th.pc
    case Outside => s.(threads := s.threads[t := th.(pc := ReadEra, calls := th.calls + 1)])
    case ReadEra => s.(threads := s.threads[t := th.(pc := if s.era != n then ReadControl else TrySwap)])
    case ReadControl => s.(threads := s.threads[t := th.(pc := if s.control == n then ReadEra else TrySwap)])
    case TrySwap =>
      if s.control == n then
        State(0, s.era, s.threads[t := th.(pc := ResetEra, ret := true)], s.winners + [t])
      else
        s.(threads := s.threads[t := th.(pc := Arrive, ret := false)])
    case ResetEra => s.(era := 0, threads := s.threads[t := th.(pc := Arrive)])
    case Arrive =>
      s.(control := s.control + 1,
         threads := s.threads[t := th.(pc := AwaitAll, arrived := th.arrived + 1)])
    case AwaitAll => s.(threads := s.threads[t := th.(pc := if s.control != n then AwaitAll else Depart)])
    case Depart =>
      s.(era := s.era + 1,
         threads := s.threads[t := th.(pc := Outside, returned := th.returned + [th.ret])])
  }

  /** The state after the accesses of a schedule, from any state. */
  function Run(s: State, schedule: seq<nat>): (s': State)
    requires forall i | 0 <= i < |schedule| :: schedule[i] < |s.threads|
    ensures |s'.threads| == |s.threads|
    decreases |schedule|
  {
    if schedule == [] then s else Run(Next(s, schedule[0]), schedule[1..])
  }

  // ---- counting ----

  function ArrivedAt(ts: seq<Thread>, r: nat): nat {
    if ts == [] then 0 else (if ts[0].arrived == r then 1 else 0) + ArrivedAt(ts[1..], r)
  }

  function DepartedAt(ts: seq<Thread>, r: nat): nat {
    if ts == [] then 0 else (if |ts[0].returned| == r then 1 else 0) + DepartedAt(ts[1..], r)
  }

  lemma {:induction false} CountUpdate(ts: seq<Thread>, t: nat, th: Thread, r: nat)
    requires t < |ts|
    ensures ArrivedAt(ts[t := th], r) ==
            ArrivedAt(ts, r) - (if ts[t].arrived == r then 1 else 0) + (if th.arrived == r then 1 else 0)
    ensures DepartedAt(ts[t := th], r) ==
            DepartedAt(ts, r) - (if |ts[t].returned| == r then 1 else 0) + (if |th.returned| == r then 1 else 0)
  {
    if t == 0 {
      assert ts[t := th][1..] == ts[1..];
    } else {
      assert ts[t := th][1..] == ts[1..][t - 1 := th];
      CountUpdate(ts[1..], t - 1, th, r);
    }
  }

  lemma {:induction false} CountBounds(ts: seq<Thread>, r: nat)
    ensures ArrivedAt(ts, r) <= |ts| && DepartedAt(ts, r) <= |ts|
    ensures ArrivedAt(ts, r) == |ts| <==> forall u | 0 <= u < |ts| :: ts[u].arrived == r
    ensures DepartedAt(ts, r) == |ts| <==> forall u | 0 <= u < |ts| :: |ts[u].returned| == r
    ensures (forall u | 0 <= u < |ts| :: ts[u].arrived != r) ==> ArrivedAt(ts, r) == 0
    ensures (forall u | 0 <= u < |ts| :: |ts[u].returned| != r) ==> DepartedAt(ts, r) == 0
  {
    if ts != [] {
      CountBounds(ts[1..], r);
      assert forall u | 1 <= u < |ts| :: ts[u] == ts[1..][u - 1];
    }
  }

  /** One thread's share of the counts. */
  lemma {:induction false} CountShare(ts: seq<Thread>, t: nat, r: nat)
    requires t < |ts|
    ensures if ts[t].arrived == r then 0 < ArrivedAt(ts, r) <= |ts| else ArrivedAt(ts, r) < |ts|
    ensures if |ts[t].returned| == r then 0 < DepartedAt(ts, r) <= |ts| else DepartedAt(ts, r) < |ts|
  {
    CountBounds(ts[1..], r);
    if t > 0 {
      CountShare(ts[1..], t - 1, r);
    }
  }

  // ---- the invariant ----

  /** What holds of a thread in round R, the latest round opened, when `arrived` of n threads
      have incremented `control` in it and `departed` of them have left it. */
  ghost predicate ThreadInv(th: Thread, t: nat, winners: seq<nat>, arrived: nat, departed: nat, n: nat) {
    var R := |winners|;
    && R - 1 <= th.arrived <= R
    && R - 1 <= |th.returned| <= R
    && th.calls == |th.returned| + (if th.pc == Outside then 0 else 1)
    && (th.pc in {Outside, ReadEra, ReadControl, TrySwap} ==> th.arrived == |th.returned|)
    && (th.pc in {ResetEra, Arrive} ==> th.arrived == |th.returned| == R - 1)
    && (th.pc in {AwaitAll, Depart} ==> th.arrived == R && |th.returned| == R - 1)
    && (th.pc == Depart || |th.returned| == R ==> arrived == n)
    && (th.pc == TrySwap && th.arrived == R ==> departed == n)
    && (th.pc == ResetEra ==> th.ret && departed == 0)
    && (th.pc in {ResetEra, Arrive, AwaitAll, Depart} ==> (th.ret <==> winners[R - 1] == t))
    && (R > 0 && winners[R - 1] == t && |th.returned| < R ==> th.pc in {ResetEra, Arrive, AwaitAll, Depart})
    && HistoryOk(th.returned, t, winners)
  }

  /** The r-th call returned 1 exactly if its caller opened round r. */
  ghost predicate HistoryOk(returned: seq<bool>, t: nat, winners: seq<nat>) {
    |returned| <= |winners| && forall r | 0 <= r < |returned| :: returned[r] <==> winners[r] == t
  }

  /** The era counter is stale only between the winner's swap and its reset. */
  ghost predicate Resetting(s: State) {
    && |s.winners| > 0
    && s.winners[|s.winners| - 1] < |s.threads|
    && s.threads[s.winners[|s.winners| - 1]].pc == ResetEra
  }

  ghost predicate Inv(s: State) {
    var n, R := |s.threads|, |s.winners|;
    && 0 < n
    && (forall r | 0 <= r < R :: s.winners[r] < n)
    && s.control == ArrivedAt(s.threads, R)
    && s.era == (if Resetting(s) then n else DepartedAt(s.threads, R))
    && (forall t | 0 <= t < n ::
          ThreadInv(s.threads[t], t, s.winners, ArrivedAt(s.threads, R), DepartedAt(s.threads, R), n))
  }

  lemma InitialInv(n: nat)
    requires 0 < n
    ensures Inv(Initial(n))
  {
    CountBounds(Initial(n).threads, 0);
  }

  /** The threads that do not move keep their part of the invariant. */
  lemma OthersKeep(ts: seq<Thread>, ts': seq<Thread>, t: nat, w: seq<nat>, a: nat, d: nat, a': nat, d': nat)
    requires t < |ts| == |ts'| && ts' == ts[t := ts'[t]]
    requires forall u | 0 <= u < |ts| :: ThreadInv(ts[u], u, w, a, d, |ts|)
    requires ThreadInv(ts'[t], t, w, a', d', |ts|)
    requires (a == |ts| ==> a' == |ts|) && (d == |ts| ==> d' == |ts|)
    requires d' != 0 ==> forall u | 0 <= u < |ts| && u != t :: ts[u].pc != ResetEra
    ensures forall u | 0 <= u < |ts| :: ThreadInv(ts'[u], u, w, a', d', |ts|)
  {
  }

  /** A step inside a spin, or the beginning of a call, moves no counter and opens no round. */
  lemma QuietStep(s: State, t: nat)
    requires Inv(s) && t < |s.threads|
    requires s.threads[t].pc in {Outside, ReadEra, ReadControl, AwaitAll}
    ensures Inv(Next(s, t))
  {
    var th, w, n := Next(s, t).threads[t], s.winners, |s.threads|;
    var a, d := ArrivedAt(s.threads, |w|), DepartedAt(s.threads, |w|);
    CountShare(s.threads, t, |w|);
    CountUpdate(s.threads, t, th, |w|);
    assert ThreadInv(s.threads[t], t, w, a, d, n);
    if d != 0 {
      forall u | 0 <= u < n ensures s.threads[u].pc != ResetEra {
        assert ThreadInv(s.threads[u], u, w, a, d, n);
      }
    }
    OthersKeep(s.threads, Next(s, t).threads, t, w, a, d, a, d);
  }

  lemma SwapStep(s: State, t: nat)
    requires Inv(s) && t < |s.threads| && s.threads[t].pc == TrySwap
    ensures Inv(Next(s, t))
  {
    if s.control == |s.threads| {
      OpenRound(s, t);
    } else {
      CountUpdate(s.threads, t, Next(s, t).threads[t], |s.winners|);
    }
  }

  lemma OpenRound(s: State, t: nat)
    requires Inv(s) && t < |s.threads| && s.threads[t].pc == TrySwap && s.control == |s.threads|
    ensures Inv(Next(s, t))
  {
    var s', R, n := Next(s, t), |s.winners|, |s.threads|;
    CountShare(s.threads, t, R);
    assert DepartedAt(s.threads, R) == n;
    forall u | 0 <= u < n
      ensures ThreadInv(s'.threads[u], u, s'.winners, 0, 0, n)
      ensures s'.threads[u].arrived == |s'.threads[u].returned| == R
    {
      CountShare(s.threads, u, R);
      assert ThreadInv(s.threads[u], u, s.winners, n, n, n);
    }
    CountBounds(s'.threads, R + 1);
  }

  lemma ResetStep(s: State, t: nat)
    requires Inv(s) && t < |s.threads| && s.threads[t].pc == ResetEra
    ensures Inv(Next(s, t))
  {
    CountUpdate(s.threads, t, Next(s, t).threads[t], |s.winners|);
  }

  lemma ArriveStep(s: State, t: nat)
    requires Inv(s) && t < |s.threads| && s.threads[t].pc == Arrive
    ensures Inv(Next(s, t))
  {
    CountShare(s.threads, t, |s.winners|);
    CountUpdate(s.threads, t, Next(s, t).threads[t], |s.winners|);
  }

  lemma DepartStep(s: State, t: nat)
    requires Inv(s) && t < |s.threads| && s.threads[t].pc == Depart
    ensures Inv(Next(s, t))
  {
    var th, w, n := Next(s, t).threads[t], s.winners, |s.threads|;
    var a, d := ArrivedAt(s.threads, |w|), DepartedAt(s.threads, |w|);
    assert ThreadInv(s.threads[t], t, w, a, d, n);
    CountShare(s.threads, t, |w|);
    CountUpdate(s.threads, t, th, |w|);
    NobodyResets(s);
    OthersKeep(s.threads, Next(s, t).threads, t, w, a, d, a, d + 1);
  }

  /** Once all have arrived, the winner's reset is over. */
  lemma NobodyResets(s: State)
    requires Inv(s) && ArrivedAt(s.threads, |s.winners|) == |s.threads|
    ensures forall u | 0 <= u < |s.threads| :: s.threads[u].pc != ResetEra
  {
    var R, n := |s.winners|, |s.threads|;
    CountBounds(s.threads, R);
    forall u | 0 <= u < n ensures s.threads[u].pc != ResetEra {
      assert ThreadInv(s.threads[u], u, s.winners, ArrivedAt(s.threads, R), DepartedAt(s.threads, R), n);
    }
  }

  lemma StepInv(s: State, t: nat)
    requires Inv(s) && t < |s.threads|
    ensures Inv(Next(s, t))
  {
    match s.threads[t].pc
    case TrySwap => SwapStep(s, t);
    case ResetEra => ResetStep(s, t);
    case Arrive => ArriveStep(s, t);
    case Depart => DepartStep(s, t);
    case _ => QuietStep(s, t);
  }

  lemma {:induction false} RunInv(s: State, schedule: seq<nat>)
    requires Inv(s)
    requires forall i | 0 <= i < |schedule| :: schedule[i] < |s.threads|
    ensures Inv(Run(s, schedule))
    decreases |schedule|
  {
    if schedule != [] {
      StepInv(s, schedule[0]);
      RunInv(Next(s, schedule[0]), schedule[1..]);
    }
  }

  ghost predicate Schedule(n: nat, schedule: seq<nat>) {
    0 < n && forall i | 0 <= i < |schedule| :: schedule[i] < n
  }

  // ---- the properties, for every number of threads and every interleaving ----

  /** Nobody has left round r before everybody has entered it (and incremented `control` in it),
      and nobody has begun a call more than one ahead of anybody else. */
  lemma NobodyLeavesEarly(n: nat, schedule: seq<nat>, t: nat, u: nat)
    requires Schedule(n, schedule) && t < n && u < n
    ensures var ts := Run(Initial(n), schedule).threads;
            && |ts[t].returned| <= ts[u].arrived <= ts[u].calls
            && ts[t].calls <= ts[u].calls + 1
  {
    InitialInv(n);
    RunInv(Initial(n), schedule);
    var s := Run(Initial(n), schedule);
    CountBounds(s.threads, |s.winners|);
  }

  /** In every round that all threads have left, exactly one of them got 1; and a round never has two. */
  lemma ExactlyOneWinner(n: nat, schedule: seq<nat>, r: nat)
    requires Schedule(n, schedule)
    ensures var ts := Run(Initial(n), schedule).threads;
            && (forall t, u | 0 <= t < n && 0 <= u < n && r < |ts[t].returned| && r < |ts[u].returned|
                  && ts[t].returned[r] && ts[u].returned[r] :: t == u)
            && ((forall t | 0 <= t < n :: r < |ts[t].returned|) ==>
                  exists w | 0 <= w < n :: ts[w].returned[r])
  {
    InitialInv(n);
    RunInv(Initial(n), schedule);
    var s := Run(Initial(n), schedule);
    if forall t | 0 <= t < n :: r < |s.threads[t].returned| {
      assert r < |s.threads[0].returned| <= |s.winners|;
      assert s.threads[s.winners[r]].returned[r];
    }
  }

  /** When a thread is about to leave a round, every other one is inside it or has left it. */
  lemma OthersInside(s: State, t: nat, u: nat)
    requires Inv(s) && t < |s.threads| && u < |s.threads| && s.threads[t].pc == Depart
    ensures |s.threads[u].returned| >= |s.threads[t].returned|
    ensures |s.threads[u].returned| == |s.threads[t].returned| ==> s.threads[u].pc in {AwaitAll, Depart}
  {
    CountBounds(s.threads, |s.winners|);
  }

  ghost predicate Spinning(s: State, t: nat)
    requires t < |s.threads|
  {
    s.threads[t].pc in {ReadEra, ReadControl, AwaitAll}
  }

  /** Thread t, scheduled alone for at most two steps, is past its spin. */
  ghost predicate GetsPast(s: State, t: nat)
    requires t < |s.threads|
  {
    !Spinning(s, t) || !Spinning(Next(s, t), t) || !Spinning(Next(Next(s, t), t), t)
  }

  /** A thread that has not arrived in the open round is not held by its spin. */
  lemma LatecomerGetsPast(s: State, t: nat)
    requires Inv(s) && t < |s.threads|
    requires s.threads[t].pc != Outside && s.threads[t].arrived != |s.winners|
    ensures GetsPast(s, t)
  {
    CountShare(s.threads, t, |s.winners|);
  }

  /** With every thread inside the barrier, some thread can get past its spin. */
  lemma NoDeadlock(n: nat, schedule: seq<nat>) returns (t: nat)
    requires Schedule(n, schedule)
    requires forall u | 0 <= u < n :: Run(Initial(n), schedule).threads[u].pc != Outside
    ensures t < n && GetsPast(Run(Initial(n), schedule), t)
  {
    InitialInv(n);
    RunInv(Initial(n), schedule);
    t := SomebodyGetsPast(Run(Initial(n), schedule));
  }

  lemma SomebodyGetsPast(s: State) returns (t: nat)
    requires Inv(s)
    requires forall u | 0 <= u < |s.threads| :: s.threads[u].pc != Outside
    ensures t < |s.threads| && GetsPast(s, t)
  {
    if u :| 0 <= u < |s.threads| && s.threads[u].arrived != |s.winners| {
      LatecomerGetsPast(s, u);
      t := u;
    } else {
      CountBounds(s.threads, |s.winners|);
      if u :| 0 <= u < |s.threads| && s.threads[u].pc in {AwaitAll, Depart} {
        t := u;
      } else {
        EverybodyInNextRound(s);
        t := 0;
      }
    }
  }

  /** When all have left the round and called again, nobody can be held. */
  lemma EverybodyInNextRound(s: State)
    requires Inv(s)
    requires forall u | 0 <= u < |s.threads| ::
               s.threads[u].arrived == |s.winners| && s.threads[u].pc !in {Outside, AwaitAll, Depart}
    ensures GetsPast(s, 0)
  {
    var R, n := |s.winners|, |s.threads|;
    forall u | 0 <= u < n ensures |s.threads[u].returned| == R && s.threads[u].pc != ResetEra {
      assert ThreadInv(s.threads[u], u, s.winners, ArrivedAt(s.threads, R), DepartedAt(s.threads, R), n);
    }
    CountBounds(s.threads, R);
  }
}
