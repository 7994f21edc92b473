/** Progress with the real barrier: under every schedule of single accesses that is fair to the threads,
    each epoch ends and so each round of the barrier is completed, until all threads have stopped.  A
    thread may spin in the barrier for as long as it likes; another one then brings the end closer. */
module BarrierProgress {
  import opened Engine
  import Invariant = EngineInvariant
  import opened EngineBarrier
  import opened EngineProgress
  import Barrier

  // ---- a measure of the accesses to go ----

  function AccessesToGo(pc: Barrier.PC): nat {
    match pc
    case Outside => 6
    case ReadEra => 5
    case ReadControl => 5
    case TrySwap => 4
    case ResetEra => 3
    case Arrive => 2
    case AwaitAll => 1
    case Depart => 0
  }

  function ToGo(ths: seq<Barrier.Thread>): (s: seq<nat>)
    ensures |s| == |ths|
  {
    seq(|ths|, t requires 0 <= t < |ths| => AccessesToGo(ths[t].pc))
  }

  /** The next access of thread t leaves it in its spin. */
  predicate Spins(b: Barrier.State, t: nat)
    requires t < |b.threads|
  {
    match b.threads[t].pc
    case ReadEra => b.era != |b.threads|
    case ReadControl => b.control == |b.threads|
    case AwaitAll => b.control != |b.threads|
    case _ => false
  }

  predicate InEntrySpin(pc: Barrier.PC) {
    pc in {Barrier.ReadEra, Barrier.ReadControl}
  }

  /** The same up to where in the entry spin a thread is. */
  predicate SamePlace(p: Barrier.Thread, q: Barrier.Thread) {
    p == q || (InEntrySpin(p.pc) && InEntrySpin(q.pc) && q == p.(pc := q.pc))
  }

  ghost predicate Similar(b: Barrier.State, c: Barrier.State) {
    && c.control == b.control && c.era == b.era && |c.threads| == |b.threads|
    && forall u | 0 <= u < |b.threads| :: SamePlace(b.threads[u], c.threads[u])
  }

  lemma ToGoMoves(ths: seq<Barrier.Thread>, t: nat, th: Barrier.Thread)
    requires t < |ths|
    ensures Total(ToGo(ths[t := th])) == Total(ToGo(ths)) - AccessesToGo(ths[t].pc) + AccessesToGo(th.pc)
  {
    TotalUpdate(ToGo(ths), t, AccessesToGo(th.pc));
    assert ToGo(ths[t := th]) == ToGo(ths)[t := AccessesToGo(th.pc)];
  }

  /** An access spins, or brings the thread closer to its exit. */
  lemma AccessCounts(b: Barrier.State, t: nat)
    requires t < |b.threads| && b.threads[t].pc != Barrier.Depart
    ensures var c := Barrier.Next(b, t);
            if Spins(b, t) then Similar(b, c) && Total(ToGo(c.threads)) == Total(ToGo(b.threads))
            else Total(ToGo(c.threads)) < Total(ToGo(b.threads))
  {
    ToGoMoves(b.threads, t, Barrier.Next(b, t).threads[t]);
  }

  // ---- joint steps ----

  ghost predicate JointReady(S: Setting, j: Joint) {
    Ready(S, j.world) && |j.bar.threads| == S.cfg.threads
  }

  /** The next step of thread t changes something. */
  ghost predicate Certain(S: Setting, j: Joint, t: nat)
    requires JointReady(S, j) && t < S.cfg.threads
  {
    if Waiting(j.world.threads[t].stage) then !Spins(j.bar, t) else j.world.threads[t].mode != Stopped
  }

  ghost predicate JointMoves(S: Setting, j: Joint, a: Action)
    requires JointReady(S, j)
  {
    a.Go? && a.thread < S.cfg.threads && Certain(S, j, a.thread)
  }

  ghost predicate JointCloser(S: Setting, j: Joint, k: Joint) {
    && |j.bar.threads| == |k.bar.threads| == S.cfg.threads
    && (Closer(S, j.world, k.world)
        || (Alike(S, j.world, k.world) && Total(ToGo(k.bar.threads)) < Total(ToGo(j.bar.threads))))
  }

  ghost predicate JointAlike(S: Setting, j: Joint, k: Joint) {
    && |j.bar.threads| == S.cfg.threads
    && Alike(S, j.world, k.world) && Similar(j.bar, k.bar) && Total(ToGo(k.bar.threads)) == Total(ToGo(j.bar.threads))
  }

  lemma SimilarSelf(b: Barrier.State)
    ensures Similar(b, b)
  {
  }

  lemma HiddenCounts(S: Setting, j: Joint, a: Action)
    requires JointInv(S, j) && !Visible(S, j, a)
    ensures var k := JointNext(S, j, a);
            if JointMoves(S, j, a) then JointCloser(S, j, k) else JointAlike(S, j, k)
  {
    HiddenStep(S, j, a);
    AccessCounts(j.bar, a.thread);
  }

  /** The measure does not consult the oracle. */
  lemma SameMeasure(S: Setting, S': Setting, w: World, w': World)
    requires S.Valid() && S' == S.(elect := S'.elect)
    ensures Closer(S', w, w') ==> Closer(S, w, w')
    ensures Alike(S', w, w') ==> Alike(S, w, w')
  {
  }

  lemma WorldCounts(S: Setting, S': Setting, w: World, a: Action)
    requires S' == S.(elect := S'.elect) && Invariant.Inv(S', w) && Ready(S, w) && !SetupSend(S, w, a)
    ensures if Moves(S, w, a) then Closer(S, w, Next(S', w, a)) else Alike(S, w, Next(S', w, a))
  {
    OneMore(S', w, w, a);
    SameMeasure(S, S', w, Next(S', w, a));
  }

  lemma ShownMoves(S: Setting, j: Joint, a: Action)
    requires JointInv(S, j) && Visible(S, j, a)
    ensures JointMoves(S, j, a) <==> Moves(S, j.world, a)
  {
    if a.Go? && a.thread < S.cfg.threads && Waiting(j.world.threads[a.thread].stage) {
      DepartMayLeave(S, j, a.thread);
    }
  }

  lemma ShownBarrier(S: Setting, j: Joint, a: Action)
    requires JointInv(S, j) && Visible(S, j, a)
    ensures !JointMoves(S, j, a) ==> JointNext(S, j, a).bar == j.bar
  {
  }

  lemma ShownCounts(S: Setting, S': Setting, j: Joint, a: Action)
    requires JointInv(S, j) && Visible(S, j, a) && S' == S.(elect := S'.elect) && Invariant.Inv(S', j.world)
    requires Next(S', j.world, a) == JointNext(S, j, a).world && !SetupSend(S, j.world, a)
    ensures var k := JointNext(S, j, a);
            if JointMoves(S, j, a) then JointCloser(S, j, k) else JointAlike(S, j, k)
  {
    SimilarSelf(j.bar);
    WorldCounts(S, S', j.world, a);
    ShownMoves(S, j, a);
    ShownBarrier(S, j, a);
    JointNextInv(S, j, a);
  }

  // ---- endless runs ----

  /** js(n) is the state after n actions of an endless schedule, of which f(n) is the next. */
  ghost predicate Endless(S: Setting, js: nat -> Joint, f: nat -> Action) {
    S.Valid() && js(0) == JointStart(S) && forall n: nat :: Follows(S, js, f, n)
  }

  ghost predicate Follows(S: Setting, js: nat -> Joint, f: nat -> Action, n: nat) {
    JointReady(S, js(n)) && js(n + 1) == JointNext(S, js(n), f(n))
  }

  lemma {:induction false} EndlessInv(S: Setting, js: nat -> Joint, f: nat -> Action, n: nat)
    requires Endless(S, js, f)
    ensures JointInv(S, js(n))
  {
    if n == 0 {
      JointStartInv(S);
    } else {
      EndlessInv(S, js, f, n - 1);
      assert Follows(S, js, f, n - 1);
      JointNextInv(S, js(n - 1), f(n - 1));
    }
  }

  lemma {:induction false} JointRunAppend(S: Setting, j: Joint, schedule: seq<Action>, a: Action)
    requires JointInv(S, j)
    ensures JointInv(S, JointRun(S, j, schedule))
    ensures JointRun(S, j, schedule + [a]) == JointNext(S, JointRun(S, j, schedule), a)
    decreases |schedule|
  {
    JointRunInv(S, j, schedule);
    if schedule == [] {
      assert ([] + [a])[1..] == [];
    } else {
      assert (schedule + [a])[1..] == schedule[1..] + [a];
      JointNextInv(S, j, schedule[0]);
      JointRunAppend(S, JointNext(S, j, schedule[0]), schedule[1..], a);
    }
  }

  /** The first n actions. */
  function Prefix(f: nat -> Action, n: nat): (s: seq<Action>)
    ensures |s| == n
  {
    seq(n, i requires 0 <= i < n => f(i))
  }

  lemma {:induction false} PrefixRun(S: Setting, js: nat -> Joint, f: nat -> Action, n: nat)
    requires Endless(S, js, f) && JointInv(S, JointStart(S))
    ensures JointRun(S, JointStart(S), Prefix(f, n)) == js(n)
  {
    if n > 0 {
      PrefixRun(S, js, f, n - 1);
      assert Prefix(f, n) == Prefix(f, n - 1) + [f(n - 1)];
      JointRunAppend(S, JointStart(S), Prefix(f, n - 1), f(n - 1));
      assert Follows(S, js, f, n - 1);
    }
  }

  /** Each step of an endless run is one of module Engine, with the oracle that names the winners so far. */
  lemma EngineAt(S: Setting, js: nat -> Joint, f: nat -> Action, n: nat) returns (S': Setting)
    requires Endless(S, js, f)
    ensures JointInv(S, js(n)) && S' == S.(elect := S'.elect) && Invariant.Inv(S', js(n).world)
    ensures Visible(S, js(n), f(n)) ==> Next(S', js(n).world, f(n)) == js(n + 1).world
  {
    JointStartInv(S);
    EndlessInv(S, js, f, n);
    assert Follows(S, js, f, n);
    var winners := js(n + 1).bar.winners;
    S' := Elected(S, winners);
    ElectedIsSetting(S, winners);
    Invariant.StartInv(S');
    WinnersGrow(S, js(n), f(n));
    PrefixRun(S, js, f, n);
    Simulates(S, JointStart(S), Prefix(f, n), winners);
    Invariant.RunInv(S', Start(S), Shown(S, JointStart(S), Prefix(f, n)));
    if Visible(S, js(n), f(n)) {
      ShownStep(S, js(n), f(n), winners);
    }
  }

  /** From the n-th action on, nothing is scheduled by the set-up any more. */
  ghost predicate SetupOver(S: Setting, js: nat -> Joint, f: nat -> Action, n: nat) {
    forall m: nat | n <= m :: NoSetupSend(S, js, f, m)
  }

  ghost predicate NoSetupSend(S: Setting, js: nat -> Joint, f: nat -> Action, n: nat) {
    Ready(S, js(n).world) && !SetupSend(S, js(n).world, f(n))
  }

  ghost predicate MovesAt(S: Setting, js: nat -> Joint, f: nat -> Action, i: nat) {
    JointReady(S, js(i)) && JointMoves(S, js(i), f(i))
  }

  lemma StepCounts(S: Setting, js: nat -> Joint, f: nat -> Action, n: nat)
    requires Endless(S, js, f) && NoSetupSend(S, js, f, n)
    ensures if MovesAt(S, js, f, n) then JointCloser(S, js(n), js(n + 1)) else JointAlike(S, js(n), js(n + 1))
  {
    var S' := EngineAt(S, js, f, n);
    assert Follows(S, js, f, n);
    if Visible(S, js(n), f(n)) {
      ShownCounts(S, S', js(n), f(n));
    } else {
      HiddenCounts(S, js(n), f(n));
    }
  }

  // ---- from one move to the next ----

  lemma AlikeSelf(S: Setting, j: Joint)
    requires JointReady(S, j)
    ensures JointAlike(S, j, j)
  {
  }

  lemma AlikeThen(S: Setting, j: Joint, k: Joint, l: Joint)
    requires JointAlike(S, j, k)
    ensures JointCloser(S, k, l) ==> JointCloser(S, j, l)
    ensures JointAlike(S, k, l) ==> JointAlike(S, j, l)
  {
    if JointAlike(S, k, l) {
      forall u | 0 <= u < |j.bar.threads| ensures SamePlace(j.bar.threads[u], l.bar.threads[u]) {
        assert SamePlace(j.bar.threads[u], k.bar.threads[u]) && SamePlace(k.bar.threads[u], l.bar.threads[u]);
      }
    }
  }

  lemma {:induction false} FirstMove(S: Setting, js: nat -> Joint, f: nat -> Action, n: nat, k: nat) returns (m: nat)
    requires n <= k
    ensures n <= m <= k && (m == k || MovesAt(S, js, f, m))
    ensures forall i | n <= i < m :: !MovesAt(S, js, f, i)
    decreases k - n
  {
    m := n;
    if n < k && !MovesAt(S, js, f, n) {
      m := FirstMove(S, js, f, n + 1, k);
    }
  }

  ghost predicate Still(S: Setting, js: nat -> Joint, f: nat -> Action, n: nat, m: nat) {
    n <= m && forall i | n <= i < m :: !MovesAt(S, js, f, i)
  }

  lemma {:induction false} AlikeUntil(S: Setting, js: nat -> Joint, f: nat -> Action, n: nat, m: nat)
    requires Endless(S, js, f) && SetupOver(S, js, f, n) && Still(S, js, f, n, m)
    ensures JointAlike(S, js(n), js(m))
    decreases m - n
  {
    if n == m {
      assert Follows(S, js, f, n);
      AlikeSelf(S, js(n));
    } else {
      AlikeUntil(S, js, f, n, m - 1);
      assert NoSetupSend(S, js, f, m - 1);
      AlikeOn(S, js, f, n, m - 1);
    }
  }

  lemma AlikeOn(S: Setting, js: nat -> Joint, f: nat -> Action, n: nat, i: nat)
    requires Endless(S, js, f) && NoSetupSend(S, js, f, i) && JointAlike(S, js(n), js(i))
    ensures if MovesAt(S, js, f, i) then JointCloser(S, js(n), js(i + 1)) else JointAlike(S, js(n), js(i + 1))
  {
    StepCounts(S, js, f, i);
    AlikeThen(S, js(n), js(i), js(i + 1));
  }

  /** One turn or two are enough for thread t to change something, as long as nothing else does. */
  ghost predicate CanGo(S: Setting, j: Joint, t: nat)
    requires JointReady(S, j) && t < S.cfg.threads
  {
    var n, pc := |j.bar.threads|, j.bar.threads[t].pc;
    if Waiting(j.world.threads[t].stage) then
      && (InEntrySpin(pc) ==> j.bar.era == n || j.bar.control != n)
      && (pc == Barrier.AwaitAll ==> j.bar.control == n)
    else j.world.threads[t].mode != Stopped
  }

  lemma CanGoStill(S: Setting, j: Joint, k: Joint, t: nat)
    requires JointAlike(S, j, k) && t < S.cfg.threads
    ensures CanGo(S, j, t) ==> CanGo(S, k, t)
    ensures Certain(S, j, t) && k.bar.threads[t] == j.bar.threads[t] ==> Certain(S, k, t)
  {
    assert SamePlace(j.bar.threads[t], k.bar.threads[t]);
  }

  /** The turn that only moved thread t on in its entry spin makes its next one count. */
  lemma SecondTurn(S: Setting, j: Joint, t: nat)
    requires JointInv(S, j) && t < S.cfg.threads && CanGo(S, j, t) && !Certain(S, j, t)
    ensures JointReady(S, JointNext(S, j, Go(t))) && Certain(S, JointNext(S, j, Go(t)), t)
  {
    JointNextInv(S, j, Go(t));
  }

  /** As long as nothing moves, a thread that is certain to move has not had its turn, and stays so. */
  lemma {:induction false} CertainUntil(S: Setting, js: nat -> Joint, f: nat -> Action, n: nat, m: nat, t: nat)
    requires Endless(S, js, f) && SetupOver(S, js, f, n) && Still(S, js, f, n, m)
    requires JointReady(S, js(n)) && t < S.cfg.threads && Certain(S, js(n), t)
    ensures JointReady(S, js(m)) && Certain(S, js(m), t)
    decreases m - n
  {
    if n < m {
      CertainUntil(S, js, f, n, m - 1, t);
      assert NoSetupSend(S, js, f, m - 1) && !MovesAt(S, js, f, m - 1);
      CertainOn(S, js, f, m - 1, t);
    }
  }

  lemma CertainOn(S: Setting, js: nat -> Joint, f: nat -> Action, i: nat, t: nat)
    requires Endless(S, js, f) && NoSetupSend(S, js, f, i) && !MovesAt(S, js, f, i)
    requires JointReady(S, js(i)) && t < S.cfg.threads && Certain(S, js(i), t)
    ensures JointReady(S, js(i + 1)) && Certain(S, js(i + 1), t)
  {
    assert Follows(S, js, f, i);
    StepCounts(S, js, f, i);
    OthersKeepPlace(S, js(i), f(i), t);
    CanGoStill(S, js(i), js(i + 1), t);
  }

  lemma OthersKeepPlace(S: Setting, j: Joint, a: Action, t: nat)
    requires JointReady(S, j) && t < S.cfg.threads && a != Go(t)
    ensures |JointNext(S, j, a).bar.threads| == |j.bar.threads| && JointNext(S, j, a).bar.threads[t] == j.bar.threads[t]
  {
  }

  /** The next turn of thread t from the n-th action on. */
  lemma Turn(S: Setting, f: nat -> Action, n: nat, t: nat) returns (k: nat)
    requires Fair(S, f) && t < S.cfg.threads
    ensures n <= k && f(k) == Go(t)
  {
    assert Comes(f, n, t);
    k :| n <= k && f(k) == Go(t);
  }

  lemma MoveBy(S: Setting, js: nat -> Joint, f: nat -> Action, n: nat, i: nat)
    requires Endless(S, js, f) && SetupOver(S, js, f, n) && Still(S, js, f, n, i) && MovesAt(S, js, f, i)
    ensures JointCloser(S, js(n), js(i + 1))
  {
    AlikeUntil(S, js, f, n, i);
    assert NoSetupSend(S, js, f, i);
    AlikeOn(S, js, f, n, i);
  }

  lemma OverLater(S: Setting, js: nat -> Joint, f: nat -> Action, n: nat, m: nat)
    requires SetupOver(S, js, f, n) && n <= m
    ensures SetupOver(S, js, f, m)
  {
  }

  /** A thread that is certain to move has its turn, so something moves. */
  lemma CertainMoves(S: Setting, js: nat -> Joint, f: nat -> Action, n: nat, t: nat) returns (m: nat)
    requires Endless(S, js, f) && Fair(S, f) && SetupOver(S, js, f, n)
    requires JointReady(S, js(n)) && t < S.cfg.threads && Certain(S, js(n), t)
    ensures n < m && JointCloser(S, js(n), js(m))
  {
    var k := Turn(S, f, n, t);
    var i := FirstMove(S, js, f, n, k);
    CertainUntil(S, js, f, n, i, t);
    MoveBy(S, js, f, n, i);
    m := i + 1;
  }

  /** If thread t can move at all, something moves. */
  lemma CanGoMoves(S: Setting, js: nat -> Joint, f: nat -> Action, n: nat, t: nat) returns (m: nat)
    requires Endless(S, js, f) && Fair(S, f) && SetupOver(S, js, f, n)
    requires JointReady(S, js(n)) && t < S.cfg.threads && CanGo(S, js(n), t)
    ensures n < m && JointCloser(S, js(n), js(m))
  {
    var k := Turn(S, f, n, t);
    var i := FirstMove(S, js, f, n, k);
    if MovesAt(S, js, f, i) {
      MoveBy(S, js, f, n, i);
      m := i + 1;
    } else {
      assert Still(S, js, f, n, k + 1);
      m := MovesLater(S, js, f, n, k, t);
    }
  }

  lemma MovesLater(S: Setting, js: nat -> Joint, f: nat -> Action, n: nat, k: nat, t: nat) returns (m: nat)
    requires Endless(S, js, f) && Fair(S, f) && SetupOver(S, js, f, n)
    requires n <= k && f(k) == Go(t) && Still(S, js, f, n, k + 1)
    requires JointReady(S, js(n)) && t < S.cfg.threads && CanGo(S, js(n), t)
    ensures n < m && JointCloser(S, js(n), js(m))
  {
    FirstTurn(S, js, f, n, k, t);
    OverLater(S, js, f, n, k + 1);
    m := CertainMoves(S, js, f, k + 1, t);
    AlikeThen(S, js(n), js(k + 1), js(m));
  }

  /** The first turn of thread t has changed nothing. */
  lemma FirstTurn(S: Setting, js: nat -> Joint, f: nat -> Action, n: nat, k: nat, t: nat)
    requires Endless(S, js, f) && SetupOver(S, js, f, n) && n <= k && f(k) == Go(t) && Still(S, js, f, n, k + 1)
    requires JointReady(S, js(n)) && t < S.cfg.threads && CanGo(S, js(n), t)
    ensures JointAlike(S, js(n), js(k + 1)) && Certain(S, js(k + 1), t)
  {
    AlikeUntil(S, js, f, n, k);
    AlikeUntil(S, js, f, n, k + 1);
    CanGoStill(S, js(n), js(k), t);
    assert !MovesAt(S, js, f, k);
    SecondTurnAt(S, js, f, k, t);
  }

  lemma SecondTurnAt(S: Setting, js: nat -> Joint, f: nat -> Action, k: nat, t: nat)
    requires Endless(S, js, f) && f(k) == Go(t) && !MovesAt(S, js, f, k)
    requires JointReady(S, js(k)) && t < S.cfg.threads && CanGo(S, js(k), t)
    ensures JointReady(S, js(k + 1)) && Certain(S, js(k + 1), t)
  {
    EndlessInv(S, js, f, k);
    assert Follows(S, js, f, k);
    SecondTurn(S, js(k), t);
  }

  // ---- somebody can always go ----

  lemma NotBehindLaggard(S: Setting, j: Joint, u: nat, v: nat)
    requires JointInv(S, j) && u < S.cfg.threads && v < S.cfg.threads && Waiting(j.world.threads[u].stage)
    requires Progress(j.world.threads[v]) >= Progress(j.world.threads[u])
    ensures |j.bar.threads[v].returned| >= |j.bar.threads[u].returned|
    ensures |j.bar.threads[v].returned| == |j.bar.threads[u].returned| ==> Waiting(j.world.threads[v].stage)
  {
    ProgressIsLeft(j.world.threads[u]);
    ProgressIsLeft(j.world.threads[v]);
    assert InStep(j.world.threads[u], j.bar.threads[u]) && InStep(j.world.threads[v], j.bar.threads[v]);
  }

  /** Nobody has left fewer rounds than a thread in the entry spin: the era counter or the control counter
      lets it in. */
  lemma EntryOpens(b: Barrier.State, u: nat)
    requires Barrier.Inv(b) && u < |b.threads| && InEntrySpin(b.threads[u].pc)
    requires forall v | 0 <= v < |b.threads| :: |b.threads[v].returned| >= |b.threads[u].returned|
    ensures b.era == |b.threads| || b.control != |b.threads|
  {
    var R, n := |b.winners|, |b.threads|;
    if b.control == n {
      Barrier.CountBounds(b.threads, R);
      Barrier.NobodyResets(b);
      forall v | 0 <= v < n ensures |b.threads[v].returned| == R {
        ReturnedAll(b, u, v);
      }
    }
  }

  lemma ReturnedAll(b: Barrier.State, u: nat, v: nat)
    requires Barrier.Inv(b) && u < |b.threads| && v < |b.threads| && InEntrySpin(b.threads[u].pc)
    requires b.threads[u].arrived == |b.winners| && |b.threads[v].returned| >= |b.threads[u].returned|
    ensures |b.threads[v].returned| == |b.winners|
  {
    var R, n := |b.winners|, |b.threads|;
    assert Barrier.ThreadInv(b.threads[u], u, b.winners, Barrier.ArrivedAt(b.threads, R), Barrier.DepartedAt(b.threads, R), n);
    assert Barrier.ThreadInv(b.threads[v], v, b.winners, Barrier.ArrivedAt(b.threads, R), Barrier.DepartedAt(b.threads, R), n);
  }

  /** Somebody has not arrived yet in the round that a thread awaits. */
  lemma Latecomer(b: Barrier.State, u: nat) returns (v: nat)
    requires Barrier.Inv(b) && u < |b.threads| && b.threads[u].pc == Barrier.AwaitAll && b.control != |b.threads|
    ensures v < |b.threads| && b.threads[v].pc != Barrier.AwaitAll && |b.threads[v].returned| <= |b.threads[u].returned|
  {
    var R, n := |b.winners|, |b.threads|;
    Barrier.CountBounds(b.threads, R);
    v :| 0 <= v < n && b.threads[v].arrived != R;
    assert Barrier.ThreadInv(b.threads[u], u, b.winners, Barrier.ArrivedAt(b.threads, R), Barrier.DepartedAt(b.threads, R), n);
    assert Barrier.ThreadInv(b.threads[v], v, b.winners, Barrier.ArrivedAt(b.threads, R), Barrier.DepartedAt(b.threads, R), n);
  }

  /** The last thread to come to a barrier can go, or one that it awaits. */
  lemma WaiterCanGo(S: Setting, j: Joint, u: nat) returns (t: nat)
    requires JointInv(S, j) && u < S.cfg.threads && Waiting(j.world.threads[u].stage)
    requires forall v | 0 <= v < S.cfg.threads :: Progress(j.world.threads[v]) >= Progress(j.world.threads[u])
    ensures t < S.cfg.threads && CanGo(S, j, t)
  {
    t := u;
    if InEntrySpin(j.bar.threads[u].pc) {
      forall v | 0 <= v < S.cfg.threads ensures |j.bar.threads[v].returned| >= |j.bar.threads[u].returned| {
        NotBehindLaggard(S, j, u, v);
      }
      EntryOpens(j.bar, u);
    } else if j.bar.threads[u].pc == Barrier.AwaitAll && j.bar.control != S.cfg.threads {
      t := Latecomer(j.bar, u);
      NotBehindLaggard(S, j, u, t);
    }
  }

  lemma SomebodyCanGo(S: Setting, S': Setting, j: Joint) returns (t: nat)
    requires JointInv(S, j) && S' == S.(elect := S'.elect) && Invariant.Inv(S', j.world) && !AllStopped(j.world)
    ensures t < S.cfg.threads && CanGo(S, j, t)
  {
    t := SomebodyCanMove(S', j.world);
    if Waiting(j.world.threads[t].stage) {
      t := WaiterCanGo(S, j, t);
    }
  }

  // ---- every epoch ends ----

  lemma NextMove(S: Setting, js: nat -> Joint, f: nat -> Action, n: nat) returns (m: nat)
    requires Endless(S, js, f) && Fair(S, f) && SetupOver(S, js, f, n) && !AllStopped(js(n).world)
    ensures n < m && JointCloser(S, js(n), js(m))
  {
    var S' := EngineAt(S, js, f, n);
    var t := SomebodyCanGo(S, S', js(n));
    m := CanGoMoves(S, js, f, n, t);
  }

  /** Under a fair schedule of single accesses every epoch ends, or all threads stop. */
  lemma {:induction false} EpochEnds(S: Setting, js: nat -> Joint, f: nat -> Action, n: nat) returns (m: nat)
    requires Endless(S, js, f) && Fair(S, f) && SetupOver(S, js, f, n) && Ready(S, js(n).world)
    ensures n <= m && (js(m).world.cal.epoch > js(n).world.cal.epoch || AllStopped(js(m).world))
    decreases MeasureOf(S, js(n).world).stages, MeasureOf(S, js(n).world).waiting, MeasureOf(S, js(n).world).ungiven,
              MeasureOf(S, js(n).world).current, MeasureOf(S, js(n).world).modes, Total(ToGo(js(n).bar.threads))
  {
    m := n;
    if !AllStopped(js(n).world) {
      m := NextMove(S, js, f, n);
      if js(m).world.cal.epoch <= js(n).world.cal.epoch {
        OverLater(S, js, f, n, m);
        m := EpochEnds(S, js, f, m);
      }
    }
  }

  /** So every epoch is reached, unless all threads stop before. */
  lemma {:induction false} EpochsPass(S: Setting, js: nat -> Joint, f: nat -> Action, n: nat, epoch: nat) returns (m: nat)
    requires Endless(S, js, f) && Fair(S, f) && SetupOver(S, js, f, n)
    ensures n <= m && (js(m).world.cal.epoch >= epoch || AllStopped(js(m).world))
    decreases epoch
  {
    m := n;
    if epoch > 0 {
      m := EpochsPass(S, js, f, n, epoch - 1);
      if js(m).world.cal.epoch < epoch && !AllStopped(js(m).world) {
        OverLater(S, js, f, n, m);
        assert NoSetupSend(S, js, f, m);
        m := EpochEnds(S, js, f, m);
      }
    }
  }

  /** Every call of the barrier returns: each thread leaves as many rounds as one likes, unless all threads
      stop before. */
  lemma RoundsComplete(S: Setting, js: nat -> Joint, f: nat -> Action, n: nat, rounds: nat) returns (m: nat)
    requires Endless(S, js, f) && Fair(S, f) && SetupOver(S, js, f, n)
    ensures n <= m && |js(m).bar.threads| == S.cfg.threads
    ensures AllStopped(js(m).world) || forall t | 0 <= t < S.cfg.threads :: |js(m).bar.threads[t].returned| >= rounds
  {
    m := EpochsPass(S, js, f, n, rounds + 1);
    var S' := EngineAt(S, js, f, m);
    if !AllStopped(js(m).world) {
      forall t | 0 <= t < S.cfg.threads ensures |js(m).bar.threads[t].returned| >= rounds {
        Invariant.OneThread(S', js(m).world, t);
        assert InStep(js(m).world.threads[t], js(m).bar.threads[t]);
      }
    }
  }
}
