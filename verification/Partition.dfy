/** How `main` of engine/engine.c divides the objects among the threads, for set-up, and among the
    NUMA nodes, for dispatch.  The ratios are rounded as floats are. */
module Partition {
  import opened CalendarQueue
  import opened Engine

  /** `startup_info` of one thread; it sets up no object if maxID < minID. */
  datatype Startup = Startup(minID: nat, maxID: int, node: nat)

  predicate StartsUp(info: seq<Startup>, t: nat, o: nat) {
    t < |info| && info[t].minID <= o <= info[t].maxID
  }

  /** Each of the objects below n is set up by exactly one thread, `starter[o]`. */
  ghost predicate ThreadsTile(info: seq<Startup>, starter: seq<nat>, n: nat) {
    && |starter| == n
    && (forall o | 0 <= o < n :: StartsUp(info, starter[o], o))
    && (forall t: nat, o: nat | StartsUp(info, t, o) :: o < n && starter[o] == t)
  }

  /** An object's memory is set up on the node that dispatches it. */
  ghost predicate SamePlace(info: seq<Startup>, starter: seq<nat>, nodeOf: seq<nat>) {
    |starter| == |nodeOf| && forall o | 0 <= o < |starter| :: starter[o] < |info| && info[starter[o]].node == nodeOf[o]
  }

  /** Where thread i begins when each takes `step` objects. */
  function Begin(step: nat, i: nat): nat {
    if i == 0 then 0 else Begin(step, i - 1) + step
  }

  lemma {:induction false} BeginIs(step: nat, i: nat)
    ensures Begin(step, i) == i * step
  {
    if i > 0 {
      BeginIs(step, i - 1);
    }
  }

  lemma RoundUp(q: nat, r: nat, threads: nat, step: nat)
    requires r < threads && step == q + (if r == 0 then 0 else 1)
    ensures Begin(step, threads) >= q * threads + r
    ensures 0 < step ==> Begin(step - 1, threads) < q * threads + r
  {
    BeginIs(q, threads);
    BeginIs(q + 1, threads);
    assert threads * (q + 1) == q * threads + threads;
    if q > 0 {
      BeginIs(q - 1, threads);
      assert threads * (q - 1) == q * threads - threads;
    }
  }

  // ---- rounding ----

  /** 2 to the number of significant bits of float and of double. */
  const SINGLE := 16777216.0
  const DOUBLE := 9007199254740992.0

  /** Rounding to nearest, in the range of the ratios, and of whole numbers that a float holds. */
  ghost predicate Rounds(round: real -> real, precision: real)
    requires precision > 0.0
  {
    && (forall x: real | InRange(x) :: x - x / precision <= round(x) <= x + x / precision)
    && forall x: real | 0.0 <= x <= 16777216.0 && x == x.Floor as real :: round(x) == x
  }

  predicate InRange(x: real) {
    1.0 <= x * 4294967296.0 && x <= 4294967296.0
  }

  lemma Cancel(x: real, y: real, b: real)
    requires 0.0 < b
    ensures x * b < y * b ==> x < y
    ensures x * b <= y * b ==> x <= y
  {
  }

  lemma Product(q: nat, b: nat, r: nat)
    ensures (q * b + r) as real == (q as real) * (b as real) + r as real
  {
  }

  lemma Divided(a: nat, b: nat) returns (q: nat, r: nat)
    requires 0 < b
    ensures q == a / b && r == a % b && r < b && a == q * b + r
    ensures a as real == (q as real) * (b as real) + r as real
  {
    q, r := a / b, a % b;
    Product(q, b, r);
  }

  lemma Quotient(a: real, b: real)
    requires 0.0 < b
    ensures (a / b) * b == a
  {
  }

  lemma RatioInRange(a: real, b: real, x: real)
    requires 1.0 <= a < SINGLE && 1.0 <= b < SINGLE && x * b == a
    ensures InRange(x) && x <= SINGLE
  {
    var y := x * 4294967296.0;
    assert y * b == a * 4294967296.0;
    Scaled(1.0, b, SINGLE);
    var n := SINGLE;
    assert n * b >= n;
    assert x * b <= n * b;
    Cancel(x, n, b);
    assert a * 4294967296.0 >= 4294967296.0 > b;
    Cancel(1.0, y, b);
  }

  lemma SmallError(a: real, b: real, x: real, error: real)
    requires 0.0 < a < SINGLE && 0.0 < b && x * b == a && error == x / SINGLE
    ensures error * b < 1.0
  {
    var e := error * b;
    assert e * 16777216.0 == a;
  }

  /** An error below 1 / b does not reach the next whole number. */
  lemma BetweenWhole(q: real, r: real, b: real, x: real, ratio: real, error: real)
    requires 1.0 <= r <= b - 1.0 && x * b == q * b + r
    requires x - error <= ratio <= x + error && error * b < 1.0
    ensures q < ratio < q + 1.0
  {
    Bounds(x, ratio, error, b);
    NextWhole(q, b);
    Inside(x * b, q * b, r, error * b, ratio * b, b);
    Cancel(q, ratio, b);
    Cancel(ratio, q + 1.0, b);
  }

  lemma Inside(xb: real, qb: real, r: real, eb: real, rb: real, b: real)
    requires xb == qb + r && 1.0 <= r <= b - 1.0 && eb < 1.0 && xb - eb <= rb <= xb + eb
    ensures qb < rb < qb + b
  {
  }

  lemma Bounds(x: real, ratio: real, error: real, b: real)
    requires x - error <= ratio <= x + error && 0.0 < b
    ensures x * b - error * b <= ratio * b <= x * b + error * b
  {
    Scaled(x - error, ratio, b);
    Scaled(ratio, x + error, b);
    assert (x - error) * b == x * b - error * b;
    assert (x + error) * b == x * b + error * b;
  }

  lemma NextWhole(q: real, b: real)
    ensures (q + 1.0) * b == q * b + b
  {
  }

  lemma Scaled(x: real, y: real, b: real)
    requires x <= y && 0.0 < b
    ensures x * b <= y * b
  {
  }

  lemma WholeQuotient(a: real, b: real, q: real, r: real, x: real)
    requires 0.0 < b && x * b == a == q * b + r && r == 0.0
    ensures x == q
  {
    Cancel(x, q, b);
    Cancel(q, x, b);
  }

  /** The float quotient of numbers that floats hold exactly has the right whole part, and is whole
      exactly if the division leaves no remainder. */
  lemma FloatQuotient(a: real, b: real, q: nat, r: nat, single: real -> real)
    requires Rounds(single, SINGLE) && 1.0 <= a < SINGLE && 1.0 <= b < SINGLE
    requires a == (q as real) * b + r as real && r as real <= b - 1.0
    ensures var ratio := single(a / b);
            if r == 0 then ratio == q as real else q as real < ratio < q as real + 1.0
  {
    var x := a / b;
    Quotient(a, b);
    RatioInRange(a, b, x);
    if r == 0 {
      WholeQuotient(a, b, q as real, r as real, x);
    } else {
      Inexact(a, b, q as real, r as real, x, single(x));
    }
  }

  lemma Inexact(a: real, b: real, q: real, r: real, x: real, ratio: real)
    requires 0.0 < a < SINGLE && 1.0 <= r <= b - 1.0 && x * b == a == q * b + r
    requires x - x / SINGLE <= ratio <= x + x / SINGLE
    ensures q < ratio < q + 1.0
  {
    var error := x / SINGLE;
    SmallError(a, b, x, error);
    BetweenWhole(q, r, b, x, ratio, error);
  }

  /** The whole part of the ratio, corrected. */
  function StepOf(ratio: real): int {
    ratio.Floor + if ratio - ratio.Floor as real > 0.0 then 1 else 0
  }

  /** Beyond the numbers that a float holds, objects can be lost: of 16777217, with one thread, the last. */
  lemma LastObjectLost(single: real -> real)
    requires Rounds(single, SINGLE) && single(16777217.0) == 16777216.0
    ensures single(1.0) == 1.0 && StepOf(single(single(16777217.0) / single(1.0))) == 16777216
  {
    Whole(1);
    Whole(16777216);
    assert single(1.0) == 1.0;
    assert 16777216.0 / 1.0 == 16777216.0;
  }

  lemma Whole(n: nat)
    ensures n as real == (n as real).Floor as real
  {
  }

  /** The objects per thread, rounded up: the least step that reaches over all the objects. */
  method PerThread(objects: nat, threads: nat, single: real -> real) returns (step: nat)
    requires 0 < objects < 16777216 && 0 < threads < 16777216 && Rounds(single, SINGLE)
    ensures step == StepOf(single(objects as real / threads as real))
    ensures Begin(step, threads) >= objects
    ensures 0 < step ==> Begin(step - 1, threads) < objects
  {
    var ratio := single(single(objects as real) / single(threads as real));
    ghost var q, r := Divided(objects, threads);
    FloatQuotient(objects as real, threads as real, q, r, single);
    FloorOf(ratio, q, r == 0);
    var corrector := 0;
    if ratio - ratio.Floor as real > 0.0 {
      corrector := 1;
    }
    step := ratio.Floor + corrector;
    RoundUp(q, r, threads, step);
  }

  lemma FloorOf(ratio: real, q: nat, whole: bool)
    requires if whole then ratio == q as real else q as real < ratio < q as real + 1.0
    ensures ratio.Floor == q && (ratio - ratio.Floor as real > 0.0 <==> !whole)
  {
  }

  // ---- the share of a node ----

  /** NUMAratio: objects per node, with the error of a float. */
  ghost predicate IsRatio(objects: nat, nodes: nat, ratio: real) {
    && ratio * nodes as real >= objects as real - objects as real / SINGLE
    && 0.0 < ratio <= 2.0 * SINGLE
  }

  lemma RatioIsRounded(objects: nat, nodes: nat, single: real -> real)
    requires 0 < objects < 16777216 && 0 < nodes < 16777216 && Rounds(single, SINGLE)
    ensures single(objects as real) == objects as real && single(nodes as real) == nodes as real
    ensures IsRatio(objects, nodes, single(objects as real / nodes as real))
  {
    ExactQuotient(objects as real, nodes as real, single);
  }

  lemma ExactQuotient(a: real, b: real, single: real -> real)
    requires 1.0 <= a < SINGLE && 1.0 <= b < SINGLE && Rounds(single, SINGLE)
    ensures single(a / b) * b >= a - a / SINGLE && 0.0 < single(a / b) <= 2.0 * SINGLE
  {
    var x := a / b;
    Quotient(a, b);
    RatioInRange(a, b, x);
    RoundedRatio(a, b, x, x / SINGLE, single(x));
  }

  lemma RoundedRatio(a: real, b: real, x: real, error: real, ratio: real)
    requires 0.0 < a && 0.0 < b && x * b == a && error == x / SINGLE && 0.0 < x <= SINGLE
    requires x - error <= ratio <= x + error
    ensures ratio * b >= a - a / SINGLE && 0.0 < ratio <= 2.0 * SINGLE
  {
    Bounds(x, ratio, error, b);
    assert error * SINGLE == x;
    assert error * b * SINGLE == a;
  }

  method NodeRatio(objects: nat, nodes: nat, single: real -> real) returns (ratio: real)
    requires 0 < objects < 16777216 && 0 < nodes < 16777216 && RoundsToFloat(single)
    ensures ratio == single(objects as real / nodes as real) && IsRatio(objects, nodes, ratio) && IsFloat(ratio)
  {
    RatioIsRounded(objects, nodes, single);
    RatioIsFloat(objects as real, nodes as real, single);
    ratio := single(single(objects as real) / single(nodes as real));
  }

  lemma ShareInRange(b: real, ratio: real, m: real, y: real)
    requires 1.0 <= m < ratio * b && b < SINGLE && y * ratio == m && 0.0 < ratio <= 2.0 * SINGLE
    ensures InRange(y) && 0.0 < y < b
  {
    Cancel(y, b, ratio);
    Cancel(0.0, y, ratio);
    NotTiny(ratio, m, y, y * 4294967296.0);
  }

  lemma NotTiny(ratio: real, m: real, y: real, z: real)
    requires 1.0 <= m && y * ratio == m && 0.0 < ratio <= 33554432.0 && z == y * 4294967296.0
    ensures 1.0 <= z
  {
    assert z * ratio == m * 4294967296.0;
    assert 1.0 * ratio <= z * ratio;
    Cancel(1.0, z, ratio);
  }

  /** Neither the float's nor the double's error reaches the number of nodes. */
  lemma ShareBelow(n: real, b: real, ratio: real, m: real, y: real, error: real, d: real)
    requires 0.0 <= m <= n - 1.0 && n <= SINGLE - 1.0 && ratio * b >= n - n / SINGLE
    requires y * ratio == m && 0.0 < ratio && 0.0 <= y && error == y / DOUBLE && y - error <= d <= y + error
    ensures 0.0 <= d < b
  {
    Bounds(y, d, error, ratio);
    assert error * ratio * DOUBLE == m;
    assert d * ratio < b * ratio;
    Cancel(d, b, ratio);
  }

  /** The node that object maxID would be on if the nodes were filled in proportion: rounded or not, it
      exists. */
  lemma ShareIsNode(objects: nat, nodes: nat, ratio: real, maxID: nat, double: real -> real)
    requires maxID < objects < 16777216 && 0 < nodes < 16777216 && IsRatio(objects, nodes, ratio)
    requires Rounds(double, DOUBLE)
    ensures 0 <= double(maxID as real / ratio).Floor < nodes
  {
    var m, b := maxID as real, nodes as real;
    var y := m / ratio;
    Quotient(m, ratio);
    if maxID == 0 {
      assert y == 0.0 && y == y.Floor as real;
    } else {
      ShareInRange(b, ratio, m, y);
      ShareBelow(objects as real, b, ratio, m, y, y / DOUBLE, double(y));
    }
  }

  // ---- when the next node is begun ----

  /** A float up to 2 to the 24: a whole number of at most 24 bits over another one, a power of two. */
  ghost predicate IsFloat(x: real) {
    exists r: nat, s: nat :: OverWhole(x, r, s)
  }

  ghost predicate OverWhole(x: real, r: nat, s: nat) {
    0 < s && r <= 16777216 && x * s as real == r as real
  }

  /** Rounding to a float. */
  ghost predicate RoundsToFloat(round: real -> real) {
    Rounds(round, SINGLE) && forall x: real | InRange(x) && x <= SINGLE :: IsFloat(round(x))
  }

  lemma WholeTimes(a: nat, b: nat)
    ensures (a * b) as real == (a as real) * (b as real)
  {
    Product(a, b, 0);
  }

  /** Apart by at least 1, or equal. */
  predicate Apart(x: real, y: real) {
    x - y >= 1.0 || x == y || y - x >= 1.0
  }

  lemma WholesApart(x: nat, y: nat)
    ensures Apart(x as real, y as real)
  {
    if x > y {
      WholeMore(y, x);
    } else if y > x {
      WholeMore(x, y);
    }
  }

  lemma WholeMore(x: nat, y: nat)
    requires x < y
    ensures y as real - x as real >= 1.0
  {
    assert (x + 1) as real == x as real + 1.0;
  }

  /** Objects and shares are either equal or apart by what a float's error cannot bridge. */
  lemma Gap(m: nat, k: nat, ratio: real, r: nat, s: nat, y: real)
    requires OverWhole(ratio, r, s) && y * ratio == m as real
    ensures Apart(y * r as real, k as real * r as real)
  {
    WholeTimes(m, s);
    WholeTimes(k, r);
    WholesApart(m * s, k * r);
    Regroup(y, ratio, s as real);
  }

  lemma Regroup(y: real, ratio: real, s: real)
    ensures y * (ratio * s) == y * ratio * s
  {
  }

  lemma ErrorTimes(y: real, r: real, error: real)
    requires 0.0 <= y <= SINGLE && 0.0 <= r <= SINGLE && error == y / DOUBLE
    ensures 0.0 <= error * r < 1.0
  {
    var z, square := error * r, SINGLE * SINGLE;
    LessProduct(y, r, SINGLE);
    assert error * DOUBLE == y;
    assert z * DOUBLE == y * r;
    assert square == 281474976710656.0;
  }

  lemma LessProduct(y: real, r: real, n: real)
    requires 0.0 <= y <= n && 0.0 <= r <= n
    ensures 0.0 <= y * r <= n * n
  {
  }

  /** So rounding does not carry a share across a whole number. */
  lemma RoundedShare(y: real, d: real, k: real, r: real, error: real)
    requires 0.0 < r && y - error <= d <= y + error && 0.0 <= error * r < 1.0
    requires Apart(y * r, k * r) && y * r != k * r
    ensures d >= k <==> y >= k
  {
    Bounds(y, d, error, r);
    Sides(y * r, k * r, d * r, error * r);
    if y >= k {
      Scaled(k, y, r);
      Cancel(k, d, r);
    } else {
      Scaled(y, k, r);
      Cancel(d, k, r);
    }
  }

  lemma Sides(y: real, k: real, d: real, error: real)
    requires Apart(y, k) && y != k && error < 1.0 && y - error <= d <= y + error
    ensures if y >= k then k < d else d < k
  {
  }

  lemma ShareOf(m: real, k: real, ratio: real, y: real)
    requires 0.0 < ratio && y * ratio == m
    ensures y >= k <==> m >= k * ratio
  {
    if y >= k {
      Scaled(k, y, ratio);
    }
    if m >= k * ratio {
      Cancel(k, y, ratio);
    }
  }

  lemma PositiveWhole(ratio: real, r: nat, s: nat)
    requires OverWhole(ratio, r, s) && 0.0 < ratio
    ensures 0 < r
  {
    assert ratio * s as real > 0.0;
  }

  lemma FloorBeyond(x: real, node: nat)
    ensures x.Floor > node <==> x >= (node + 1) as real
  {
  }

  lemma QuotientRange(objects: nat, nodes: nat, ratio: real, maxID: nat, y: real)
    requires 0 < maxID < objects < 16777216 && 0 < nodes < 16777216 && IsRatio(objects, nodes, ratio)
    requires y * ratio == maxID as real
    ensures InRange(y) && 0.0 < y <= SINGLE
  {
    MaxBelow(objects, maxID, nodes, ratio);
    ShareInRange(nodes as real, ratio, maxID as real, y);
  }

  lemma FloatGap(ratio: real, maxID: nat, k: nat, y: real) returns (r: real)
    requires IsFloat(ratio) && 0.0 < ratio && y * ratio == maxID as real
    ensures 0.0 < r <= SINGLE && Apart(y * r, k as real * r)
  {
    var u, s :| OverWhole(ratio, u, s);
    PositiveWhole(ratio, u, s);
    Gap(maxID, k, ratio, u, s, y);
    r := u as real;
  }

  /** What rounding does to one number. */
  lemma RoundsOne(double: real -> real, y: real, k: nat)
    requires Rounds(double, DOUBLE) && InRange(y) && k <= 16777216
    ensures y - y / DOUBLE <= double(y) <= y + y / DOUBLE && (y == k as real ==> double(y) == y)
  {
    Whole(k);
  }

  lemma RoundedQuotient(objects: nat, nodes: nat, ratio: real, maxID: nat, k: nat, double: real -> real, y: real)
    requires 0 < maxID < objects < 16777216 && 0 < nodes < 16777216 && IsRatio(objects, nodes, ratio)
    requires IsFloat(ratio) && Rounds(double, DOUBLE) && k <= 16777216 && y * ratio == maxID as real
    ensures double(y) >= k as real <==> y >= k as real
  {
    QuotientRange(objects, nodes, ratio, maxID, y);
    var r := FloatGap(ratio, maxID, k, y);
    RoundsOne(double, y, k);
    RoundedAt(y, double(y), k as real, r);
  }

  lemma RoundedAt(y: real, d: real, k: real, r: real)
    requires 0.0 < r <= SINGLE && 0.0 < y <= SINGLE && y - y / DOUBLE <= d <= y + y / DOUBLE && (y == k ==> d == y)
    requires Apart(y * r, k * r)
    ensures d >= k <==> y >= k
  {
    if y * r == k * r {
      Cancel(y, k, r);
      Cancel(k, y, r);
    } else {
      var error := y / DOUBLE;
      ErrorTimes(y, r, error);
      RoundedShare(y, d, k, r, error);
    }
  }

  lemma MaxBelow(objects: nat, maxID: nat, nodes: nat, ratio: real)
    requires maxID < objects < 16777216 && IsRatio(objects, nodes, ratio)
    ensures maxID as real < ratio * nodes as real
  {
  }

  /** The last object of a thread lies beyond the shares of the nodes up to the current one: exactly then
      the next node is begun, however quotients are rounded. */
  lemma BeginsNext(objects: nat, nodes: nat, ratio: real, maxID: nat, node: nat, double: real -> real)
    requires maxID < objects < 16777216 && 0 < nodes < 16777216 && IsRatio(objects, nodes, ratio) && IsFloat(ratio)
    requires Rounds(double, DOUBLE) && node < nodes
    ensures double(maxID as real / ratio).Floor > node <==> maxID as real >= (node + 1) as real * ratio
  {
    var y := maxID as real / ratio;
    Quotient(maxID as real, ratio);
    ShareOf(maxID as real, (node + 1) as real, ratio, y);
    FloorBeyond(double(y), node);
    if maxID == 0 {
      assert y == 0.0 && y == y.Floor as real;
    } else {
      RoundedQuotient(objects, nodes, ratio, maxID, node + 1, double, y);
    }
  }

  lemma RatioIsFloat(a: real, b: real, single: real -> real)
    requires 1.0 <= a < SINGLE && 1.0 <= b < SINGLE && RoundsToFloat(single)
    ensures IsFloat(single(a / b))
  {
    Quotient(a, b);
    RatioInRange(a, b, a / b);
  }

  // ---- the split ----

  /** Where the share of node v begins: v times the ratio. */
  function Share(v: nat, ratio: real): real {
    if v == 0 then 0.0 else Share(v - 1, ratio) + ratio
  }

  lemma {:induction false} ShareIs(v: nat, ratio: real)
    ensures Share(v, ratio) == v as real * ratio
  {
    if v > 0 {
      ShareIs(v - 1, ratio);
      NextWhole((v - 1) as real, ratio);
      assert v as real == (v - 1) as real + 1.0;
    }
  }

  /** The thread's last object lies beyond the shares of the nodes up to its own. */
  predicate Beyond(s: Startup, ratio: real) {
    s.minID <= s.maxID && s.maxID as real >= Share(s.node + 1, ratio)
  }

  /** The node after a thread: the next one if the thread's last object lies beyond, else the same. */
  predicate Leads(s: Startup, next: nat, ratio: real) {
    next == s.node + if Beyond(s, ratio) then 1 else 0
  }

  /** Each thread has the next `step` objects, as far as there are any. */
  ghost predicate InSteps(info: seq<Startup>, step: nat, objects: nat) {
    forall t | 0 <= t < |info| :: InStepsAt(info[t], t, step, objects)
  }

  predicate InStepsAt(s: Startup, t: nat, step: nat, objects: nat) {
    && s.minID == Begin(step, t)
    && s.maxID == if Begin(step, t) + step - 1 > objects - 1 then objects - 1 else Begin(step, t) + step - 1
  }

  /** The first thread sets up on node 0 and each thread leads to the node of the next one, the last to `node`. */
  ghost predicate NodesFollow(info: seq<Startup>, node: nat, ratio: real) {
    && (info == [] ==> node == 0) && (info != [] ==> info[0].node == 0 && Leads(info[|info| - 1], node, ratio))
    && forall t | 0 <= t < |info| - 1 :: Leads(info[t], info[t + 1].node, ratio)
  }

  lemma FollowStep(info: seq<Startup>, s: Startup, node: nat, ratio: real)
    requires NodesFollow(info, s.node, ratio) && Leads(s, node, ratio)
    ensures NodesFollow(info + [s], node, ratio)
  {
  }

  lemma StepsOn(info: seq<Startup>, s: Startup, step: nat, objects: nat)
    requires InSteps(info, step, objects) && InStepsAt(s, |info|, step, objects)
    ensures InSteps(info + [s], step, objects)
  {
  }

  /** The object before the n-th lies in the share of the node. */
  predicate Shares(node: nat, n: nat, ratio: real) {
    if n == 0 then node == 0 else Share(node, ratio) <= (n - 1) as real < Share(node + 1, ratio)
  }

  /** A node begins at most one step behind the object with which its share begins. */
  predicate BeginsInShare(v: nat, first: nat, ratio: real, step: nat) {
    Share(v, ratio) + 1.0 <= first as real < Share(v, ratio) + 1.0 + step as real
  }

  /** With no more objects to a thread than to a node, a thread goes on by one node at most. */
  lemma ShareStep(node: nat, n: nat, maxID: nat, next: nat, ratio: real, step: nat)
    requires Shares(node, n, ratio) && n <= maxID < n + step && step as real <= ratio
    requires next == node + if maxID as real >= Share(node + 1, ratio) then 1 else 0
    ensures Shares(next, maxID + 1, ratio)
    ensures next > node ==> BeginsInShare(next, maxID + 1, ratio, step)
  {
    assert (n + step) as real == n as real + step as real;
    assert (maxID + 1) as real == maxID as real + 1.0;
    Less(n, maxID, step);
  }

  lemma Less(n: nat, maxID: nat, step: nat)
    requires n <= maxID < n + step
    ensures n as real <= maxID as real <= n as real + step as real - 1.0
  {
    assert (n + step - 1) as real == n as real + step as real - 1.0;
  }

  /** Each node up to `node` begins in its share, and so would the n-th object. */
  ghost predicate InShares(first: seq<nat>, node: nat, n: nat, ratio: real, step: nat) {
    && node < |first| && Shares(node, n, ratio)
    && forall v | 1 <= v <= node :: BeginsInShare(v, first[v], ratio, step)
  }

  lemma InSharesStep(first: seq<nat>, first': seq<nat>, s: Startup, node: nat, ratio: real, step: nat)
    requires InShares(first, s.node, s.minID, ratio, step) && s.minID <= s.maxID < s.minID + step && step as real <= ratio
    requires Leads(s, node, ratio)
    requires node < |first| && first' == if node > s.node then first[node := s.maxID + 1] else first
    ensures InShares(first', node, s.maxID + 1, ratio, step)
  {
    ShareStep(s.node, s.minID, s.maxID, node, ratio, step);
  }

  /** What the loop over the threads keeps: after threads [0, i) the first n objects are divided;
      `node` is the node being filled. */
  ghost predicate NodesTile(count: seq<nat>, first: seq<nat>, nodeOf: seq<nat>, node: nat, n: nat) {
    && node < |count| == |first| && Tiled(count, first, nodeOf, n)
    && first[node] + count[node] == n && Contiguous(count, first, node)
    && (forall v | node < v < |count| :: count[v] == 0)
  }

  /** Up to the node being filled each range begins where the one before it ends. */
  ghost predicate Contiguous(count: seq<nat>, first: seq<nat>, node: nat) {
    node < |count| == |first| && first[0] == 0 && forall v | 0 <= v < node :: first[v] + count[v] == first[v + 1]
  }

  function Copies(v: nat, k: nat): (copies: seq<nat>)
    ensures |copies| == k && forall j | 0 <= j < k :: copies[j] == v
  {
    seq(k, _ => v)
  }

  lemma GrowNode(count: seq<nat>, first: seq<nat>, nodeOf: seq<nat>, node: nat, n: nat, k: nat)
    requires NodesTile(count, first, nodeOf, node, n)
    ensures NodesTile(count[node := count[node] + k], first, nodeOf + Copies(node, k), node, n + k)
  {
    var count', nodeOf' := count[node := count[node] + k], nodeOf + Copies(node, k);
    forall o: nat | o < n + k ensures InNode(count', first, nodeOf'[o], o) {
      if o < n {
        assert InNode(count, first, nodeOf[o], o);
      }
    }
    forall v: nat, o: nat | InNode(count', first, v, o) ensures o < n + k && nodeOf'[o] == v {
      if o < n || v != node {
        assert InNode(count, first, v, o);
      }
    }
  }

  lemma NextNode(count: seq<nat>, first: seq<nat>, nodeOf: seq<nat>, node: nat, n: nat)
    requires NodesTile(count, first, nodeOf, node, n) && node + 1 < |count|
    ensures NodesTile(count, first[node + 1 := n], nodeOf, node + 1, n)
  {
    var first' := first[node + 1 := n];
    forall o: nat | o < n ensures InNode(count, first', nodeOf[o], o) {
      assert InNode(count, first, nodeOf[o], o);
    }
    forall v: nat, o: nat | InNode(count, first', v, o) ensures o < n && nodeOf[o] == v {
      assert InNode(count, first, v, o);
    }
  }

  /** The objects of one more thread. */
  lemma AddThread(info: seq<Startup>, starter: seq<nat>, n: nat, s: Startup, k: nat)
    requires ThreadsTile(info, starter, n)
    requires if k == 0 then s.maxID < s.minID else s.minID == n && s.maxID == n + k - 1
    ensures ThreadsTile(info + [s], starter + Copies(|info|, k), n + k)
  {
    var info', starter' := info + [s], starter + Copies(|info|, k);
    forall o: nat | o < n + k ensures StartsUp(info', starter'[o], o) {
      if o < n {
        assert StartsUp(info, starter[o], o);
      }
    }
    forall t: nat, o: nat | StartsUp(info', t, o) ensures o < n + k && starter'[o] == t {
      if t < |info| {
        assert StartsUp(info, t, o);
      }
    }
  }

  /** The state of the threads' ranges after the threads of `info`; the first n objects are divided. */
  ghost predicate ThreadsAfter(info: seq<Startup>, starter: seq<nat>, nodeOf: seq<nat>, n: nat, step: nat, objects: nat) {
    && n == Smaller(Begin(step, |info|), objects)
    && ThreadsTile(info, starter, n) && |nodeOf| == n && InSteps(info, step, objects) && SamePlace(info, starter, nodeOf)
  }

  function Smaller(x: int, y: int): int {
    if x < y then x else y
  }

  lemma Cut(objects: nat, currentMin: nat, step: nat, s: Startup, n: nat, k: nat)
    requires 0 < objects && n == Smaller(currentMin, objects)
    requires s.minID == currentMin
    requires s.maxID == if currentMin + step - 1 > objects - 1 then objects - 1 else currentMin + step - 1
    requires k == if currentMin <= s.maxID then s.maxID - currentMin + 1 else 0
    ensures n + k == Smaller(currentMin + step, objects)
    ensures if k == 0 then s.maxID < s.minID else s.minID == n && s.maxID == n + k - 1 && k <= step && s.maxID < objects
  {
  }

  lemma ThreadsStep(info: seq<Startup>, starter: seq<nat>, nodeOf: seq<nat>, n: nat, step: nat, objects: nat, s: Startup, k: nat)
    requires 0 < objects && ThreadsAfter(info, starter, nodeOf, n, step, objects) && InStepsAt(s, |info|, step, objects)
    requires k == if s.minID <= s.maxID then s.maxID - s.minID + 1 else 0
    ensures if k == 0 then s.maxID < s.minID else s.minID == n && s.maxID == n + k - 1 && k <= step && s.maxID < objects
    ensures ThreadsAfter(info + [s], starter + Copies(|info|, k), nodeOf + Copies(s.node, k), n + k, step, objects)
  {
    Cut(objects, s.minID, step, s, n, k);
    AddThread(info, starter, n, s, k);
    StepsOn(info, s, step, objects);
  }

  predicate TellsShare(share: int, id: nat, node: nat, ratio: real) {
    share > node <==> id as real >= Share(node + 1, ratio)
  }

  lemma TellsOne(objects: nat, nodes: nat, ratio: real, id: nat, node: nat, share: int, double: real -> real)
    requires id < objects < 16777216 && 0 < nodes < 16777216 && IsRatio(objects, nodes, ratio) && IsFloat(ratio)
    requires Rounds(double, DOUBLE) && node < nodes && share == double(id as real / ratio).Floor
    ensures TellsShare(share, id, node, ratio) && 0 <= share < nodes
  {
    ShareIsNode(objects, nodes, ratio, id, double);
    BeginsNext(objects, nodes, ratio, id, node, double);
    ShareIs(node + 1, ratio);
  }

  /** The node whose share object `id` lies in. */
  method NodeOfShare(id: nat, ratio: real, double: real -> real, ghost node: nat, ghost objects: nat, ghost nodes: nat)
    returns (share: int)
    requires id < objects < 16777216 && 0 < nodes < 16777216 && IsRatio(objects, nodes, ratio) && IsFloat(ratio)
    requires Rounds(double, DOUBLE) && node < nodes
    ensures TellsShare(share, id, node, ratio) && 0 <= share < nodes
  {
    share := double(id as real / ratio).Floor;
    TellsOne(objects, nodes, ratio, id, node, share, double);
  }

  lemma FillTile(s: Startup, count: seq<nat>, first: seq<nat>, nodeOf: seq<nat>, k: nat, node: nat)
    requires NodesTile(count, first, nodeOf, s.node, s.minID) && s.maxID + 1 == s.minID + k
    requires s.node <= node <= s.node + 1 && node < |count|
    ensures var first' := if node > s.node then first[node := s.maxID + 1] else first;
            NodesTile(count[s.node := count[s.node] + k], first', nodeOf + Copies(s.node, k), node, s.maxID + 1)
  {
    GrowNode(count, first, nodeOf, s.node, s.minID, k);
    if node > s.node {
      NextNode(count[s.node := count[s.node] + k], first, nodeOf + Copies(s.node, k), s.node, s.maxID + 1);
    }
  }

  /** What one thread adds to the node that is being filled; `share` is the node whose share its last
      object lies in. */
  method FillNode(s: Startup, count: seq<nat>, first: seq<nat>, share: int, ghost nodeOf: seq<nat>)
    returns (count': seq<nat>, first': seq<nat>, node': nat)
    requires s.minID <= s.maxID && NodesTile(count, first, nodeOf, s.node, s.minID) && share < |count|
    ensures |count'| == |first'| == |count| && node' < |count| && node' == s.node + if share > s.node then 1 else 0
    ensures NodesTile(count', first', nodeOf + Copies(s.node, s.maxID - s.minID + 1), node', s.maxID + 1)
    ensures first' == if node' > s.node then first[node' := s.maxID + 1] else first
  {
    var k := s.maxID - s.minID + 1;
    count', first', node' := count[s.node := count[s.node] + k], first, s.node;
    if share > s.node {
      node' := s.node + 1;
      first' := first[s.node + 1 := s.maxID + 1];
    }
    FillTile(s, count, first, nodeOf, k, node');
  }

  /** The state of the nodes after the threads of `info`: with one node `main` leaves them alone. */
  ghost predicate NodesAfter(info: seq<Startup>, count: seq<nat>, first: seq<nat>, nodeOf: seq<nat>, node: nat, n: nat,
                             ratio: real, step: nat) {
    if |count| == 1 then node == 0 && count == [0] && first == [0] && forall o | 0 <= o < |nodeOf| :: nodeOf[o] == 0
    else
      && NodesTile(count, first, nodeOf, node, n) && NodesFollow(info, node, ratio)
      && (step as real <= ratio ==> InShares(first, node, n, ratio, step))
  }

  /** One thread's objects, if it has any, go to the node being filled. */
  method PlaceThread(s: Startup, count: seq<nat>, first: seq<nat>, ratio: real, double: real -> real,
                     ghost info: seq<Startup>, ghost nodeOf: seq<nat>, ghost n: nat, ghost k: nat, ghost step: nat,
                     ghost objects: nat)
    returns (count': seq<nat>, first': seq<nat>, node': nat)
    requires NodesAfter(info, count, first, nodeOf, s.node, n, ratio, step) && 0 < |count| == |first| && s.node < |count|
    requires if k == 0 then s.maxID < s.minID else s.minID == n && s.maxID == n + k - 1 && k <= step && s.maxID < objects
    requires IsRatio(objects, |count|, ratio) && IsFloat(ratio) && Rounds(double, DOUBLE)
    requires |count| < 16777216 && objects < 16777216
    ensures |count'| == |first'| == |count| && node' < |count|
    ensures NodesAfter(info + [s], count', first', nodeOf + Copies(s.node, k), node', n + k, ratio, step)
  {
    count', first', node' := count, first, s.node;
    if |count| != 1 {
      if s.maxID >= s.minID {
        var share := NodeOfShare(s.maxID, ratio, double, s.node, objects, |count|);
        count', first', node' := FillNode(s, count, first, share, nodeOf);
        if step as real <= ratio {
          InSharesStep(first, first', s, node', ratio, step);
        }
      }
      FollowStep(info, s, node', ratio);
    }
  }

  method LastObject(currentMin: nat, step: nat, objects: nat) returns (maxID: int)
    ensures maxID == if currentMin + step - 1 > objects - 1 then objects - 1 else currentMin + step - 1
  {
    maxID := currentMin + step - 1;
    if maxID > objects - 1 {
      maxID := objects - 1;
    }
  }

  lemma NothingDivided(nodes: nat, step: nat, objects: nat, ratio: real)
    requires 0 < nodes && 0 < objects
    ensures ThreadsAfter([], [], [], 0, step, objects)
    ensures NodesAfter([], Copies(0, nodes), Copies(0, nodes), [], 0, 0, ratio, step)
  {
  }

  /** What one turn of the loop makes of the ghost state. */
  ghost predicate DividedUp(info: seq<Startup>, count: seq<nat>, first: seq<nat>, starter: seq<nat>, nodeOf: seq<nat>,
                            node: nat, n: nat, ratio: real, step: nat, objects: nat) {
    && ThreadsAfter(info, starter, nodeOf, n, step, objects) && NodesAfter(info, count, first, nodeOf, node, n, ratio, step)
    && 0 < |count| == |first| && node < |count| && forall t | 0 <= t < |info| :: info[t].node < |count|
  }

  /** One turn of the loop. */
  method DivideTurn(currentMin: nat, node: nat, count: seq<nat>, first: seq<nat>, step: nat, ratio: real, double: real -> real,
                    info: seq<Startup>, objects: nat, ghost starter: seq<nat>, ghost nodeOf: seq<nat>, ghost n: nat)
    returns (info': seq<Startup>, count': seq<nat>, first': seq<nat>, node': nat, ghost k: nat)
    requires DividedUp(info, count, first, starter, nodeOf, node, n, ratio, step, objects)
    requires 0 < objects < 16777216 && |count| < 16777216 && currentMin == Begin(step, |info|)
    requires IsRatio(objects, |count|, ratio) && IsFloat(ratio) && Rounds(double, DOUBLE)
    ensures |info'| == |info| + 1 && |count'| == |count|
    ensures DividedUp(info', count', first', starter + Copies(|info|, k), nodeOf + Copies(node, k),
                      node', n + k, ratio, step, objects)
  {
    var maxID := LastObject(currentMin, step, objects);
    k := if currentMin <= maxID then maxID - currentMin + 1 else 0;
    var s := Startup(currentMin, maxID, node);
    ThreadsStep(info, starter, nodeOf, n, step, objects, s, k);
    count', first', node' := PlaceThread(s, count, first, ratio, double, info, nodeOf, n, k, step, objects);
    info' := info + [s];
  }

  /** The loop of `main` over the threads. */
  method DivideObjects(objects: nat, threads: nat, nodes: nat, step: nat, ratio: real, double: real -> real)
    returns (info: seq<Startup>, count: seq<nat>, first: seq<nat>, ghost starter: seq<nat>, ghost nodeOf: seq<nat>,
             ghost last: nat, ghost n: nat)
    requires 0 < objects < 16777216 && 0 < threads && 0 < nodes < 16777216
    requires IsRatio(objects, nodes, ratio) && IsFloat(ratio) && Rounds(double, DOUBLE)
    ensures |info| == threads && |count| == nodes
    ensures DividedUp(info, count, first, starter, nodeOf, last, n, ratio, step, objects)
  {
    var node: nat, currentMin: nat := 0, 0;
    info, count, first := [], Copies(0, nodes), Copies(0, nodes);
    starter, nodeOf, n := [], [], 0;
    NothingDivided(nodes, step, objects, ratio);
    for i := 0 to threads
      invariant |info| == i && |count| == nodes && currentMin == Begin(step, i)
      invariant DividedUp(info, count, first, starter, nodeOf, node, n, ratio, step, objects)
    {
      ghost var k, v := 0, node;
      info, count, first, node, k :=
        DivideTurn(currentMin, node, count, first, step, ratio, double, info, objects, starter, nodeOf, n);
      starter, nodeOf, n := starter + Copies(i, k), nodeOf + Copies(v, k), n + k;
      currentMin := currentMin + step;
    }
    last := node;
  }

  // ---- what the split is ----

  /** What `Assign` promises of the threads of more than one node. */
  ghost predicate SplitOf(info: seq<Startup>, step: nat, objects: nat, nodes: nat, last: nat, ratio: real) {
    && InSteps(info, step, objects) && NodesFollow(info, last, ratio) && (forall t | 0 <= t < |info| :: info[t].node < nodes)
    && 0 < objects
  }

  /** `share` tells the node whose share each object lies in. */
  ghost predicate TellsShares(share: nat -> int, objects: nat, nodes: nat, ratio: real) {
    && (forall id: nat | id < objects :: 0 <= share(id))
    && forall id: nat, node: nat | id < objects && node < nodes :: TellsShare(share(id), id, node, ratio)
  }

  lemma RoundedShares(objects: nat, nodes: nat, ratio: real, double: real -> real) returns (share: nat -> int)
    requires 0 < objects < 16777216 && 0 < nodes < 16777216 && IsRatio(objects, nodes, ratio) && IsFloat(ratio)
    requires Rounds(double, DOUBLE)
    ensures forall id: nat :: share(id) == double(id as real / ratio).Floor
    ensures TellsShares(share, objects, nodes, ratio)
  {
    share := (id: nat) => double(id as real / ratio).Floor;
    forall id: nat, node: nat | id < objects && node < nodes
      ensures 0 <= share(id) && TellsShare(share(id), id, node, ratio)
    {
      TellsOne(objects, nodes, ratio, id, node, share(id), double);
    }
    forall id: nat | id < objects ensures 0 <= share(id) {
      assert TellsShare(share(id), id, 0, ratio);
    }
  }

  /** A thread's node is the one whose share the object before the thread's first lies in, unless the
      thread before is on a node further behind: a thread goes on by one node at most. */
  ghost predicate ThreadsGoOn(info: seq<Startup>, ratio: real, double: real -> real)
    requires ratio > 0.0
  {
    forall t | 0 < t < |info| && info[t].minID <= info[t].maxID ::
      info[t].node == Smaller(info[t - 1].node + 1, double((info[t].minID - 1) as real / ratio).Floor)
  }

  /** Nobody is behind. */
  ghost predicate ThreadsOnShares(info: seq<Startup>, ratio: real, double: real -> real)
    requires ratio > 0.0
  {
    forall t | 0 < t < |info| && info[t].minID <= info[t].maxID ::
      info[t].node == double((info[t].minID - 1) as real / ratio).Floor
  }

  lemma SplitIsExact(info: seq<Startup>, step: nat, objects: nat, nodes: nat, last: nat, ratio: real, double: real -> real)
    requires SplitOf(info, step, objects, nodes, last, ratio)
    requires objects < 16777216 && 0 < nodes < 16777216 && IsRatio(objects, nodes, ratio) && IsFloat(ratio)
    requires Rounds(double, DOUBLE)
    ensures ThreadsGoOn(info, ratio, double) && (step as real <= ratio ==> ThreadsOnShares(info, ratio, double))
  {
    var share := RoundedShares(objects, nodes, ratio, double);
    forall t | 0 < t < |info| && info[t].minID <= info[t].maxID
      ensures 0 < info[t].minID && info[t].node == Smaller(info[t - 1].node + 1, share(info[t].minID - 1))
      ensures step as real <= ratio ==> info[t].node == share(info[t].minID - 1)
    {
      GoesOn(info, step, objects, nodes, last, ratio, share, t);
      if step as real <= ratio {
        NotBehind(info, step, objects, nodes, last, ratio, share, t);
      }
    }
  }

  lemma GoesOn(info: seq<Startup>, step: nat, objects: nat, nodes: nat, last: nat, ratio: real, share: nat -> int, t: nat)
    requires SplitOf(info, step, objects, nodes, last, ratio) && 0 < t < |info| && info[t].minID <= info[t].maxID
    requires TellsShares(share, objects, nodes, ratio)
    ensures 0 < info[t].minID && info[t].node == Smaller(info[t - 1].node + 1, share(info[t].minID - 1))
  {
    var s := info[t - 1];
    FullBefore(info, step, objects, t);
    assert Leads(s, info[t].node, ratio);
    assert TellsShare(share(s.maxID), s.maxID, s.node, ratio);
    if info[t].node == s.node {
      NotAhead(info, step, objects, nodes, last, ratio, t);
      ShareReached(objects, nodes, ratio, s.maxID, s.node, share);
    }
  }

  /** With no more objects to a thread than to a node, nobody is behind. */
  lemma NotBehind(info: seq<Startup>, step: nat, objects: nat, nodes: nat, last: nat, ratio: real, share: nat -> int, t: nat)
    requires SplitOf(info, step, objects, nodes, last, ratio) && 0 < t < |info| && info[t].minID <= info[t].maxID
    requires TellsShares(share, objects, nodes, ratio) && step as real <= ratio
    ensures 0 < info[t].minID && info[t].node == share(info[t].minID - 1)
  {
    FullBefore(info, step, objects, t);
    SharesAt(info, step, objects, nodes, last, ratio, t);
    var id: nat := info[t].minID - 1;
    assert TellsShare(share(id), id, info[t].node, ratio);
    ShareReached(objects, nodes, ratio, id, info[t].node, share);
  }

  /** The threads before one that sets up objects have `step` objects each. */
  lemma FullBefore(info: seq<Startup>, step: nat, objects: nat, t: nat)
    requires InSteps(info, step, objects) && 0 < objects && 0 < t < |info| && info[t].minID <= info[t].maxID
    ensures info[t - 1].minID <= info[t - 1].maxID == info[t].minID - 1 < objects
    ensures info[t - 1].maxID == info[t - 1].minID + step - 1
  {
    assert InStepsAt(info[t], t, step, objects) && InStepsAt(info[t - 1], t - 1, step, objects);
    if step == 0 {
      BeginIs(0, t);
    }
  }

  lemma ShareReached(objects: nat, nodes: nat, ratio: real, id: nat, node: nat, share: nat -> int)
    requires id < objects && node < nodes && TellsShares(share, objects, nodes, ratio)
    requires node == 0 || Share(node, ratio) <= id as real
    ensures share(id) >= node
  {
    if node > 0 {
      assert TellsShare(share(id), id, node - 1, ratio);
    }
  }

  lemma {:induction false} NotAhead(info: seq<Startup>, step: nat, objects: nat, nodes: nat, last: nat, ratio: real, t: nat)
    requires SplitOf(info, step, objects, nodes, last, ratio) && 0 < t < |info| && info[t].minID <= info[t].maxID
    ensures info[t].node == 0 || Share(info[t].node, ratio) <= info[t - 1].maxID as real
  {
    FullBefore(info, step, objects, t);
    var s := info[t - 1];
    assert Leads(s, info[t].node, ratio);
    if info[t].node == s.node && t > 1 {
      NotAhead(info, step, objects, nodes, last, ratio, t - 1);
      FullBefore(info, step, objects, t - 1);
    }
  }

  lemma {:induction false} SharesAt(info: seq<Startup>, step: nat, objects: nat, nodes: nat, last: nat, ratio: real, t: nat)
    requires SplitOf(info, step, objects, nodes, last, ratio) && step as real <= ratio
    requires t < |info| && info[t].minID <= info[t].maxID
    ensures Shares(info[t].node, info[t].minID, ratio)
  {
    assert InStepsAt(info[t], t, step, objects);
    if t > 0 {
      var s := info[t - 1];
      FullBefore(info, step, objects, t);
      SharesAt(info, step, objects, nodes, last, ratio, t - 1);
      assert Leads(s, info[t].node, ratio);
      ShareStep(s.node, s.minID, s.maxID, info[t].node, ratio, step);
    }
  }

  /** So each node before the last one used has its share of the objects, give or take less than one
      thread's; node 0 has one more, and the last one no more than its share. */
  lemma NodesBalanced(count: seq<nat>, first: seq<nat>, nodeOf: seq<nat>, last: nat, objects: nat, ratio: real, step: nat, v: nat)
    requires NodesTile(count, first, nodeOf, last, objects) && InShares(first, last, objects, ratio, step)
    requires v <= last
    ensures 0 < v < last ==> ratio - step as real < count[v] as real < ratio + step as real
    ensures 0 == v < last ==> ratio + 1.0 <= count[v] as real < ratio + 1.0 + step as real
    ensures 0 < v == last ==> count[v] as real < ratio
    ensures 0 == v == last && objects > 0 ==> count[v] as real < ratio + 1.0
  {
    if v < last {
      assert first[v] + count[v] == first[v + 1];
      Sum(first[v], count[v], first[v + 1]);
      assert BeginsInShare(v + 1, first[v + 1], ratio, step);
    } else {
      Sum(first[v], count[v], objects);
    }
    if v > 0 {
      assert BeginsInShare(v, first[v], ratio, step);
    }
  }

  lemma Sum(x: nat, y: nat, z: nat)
    requires x + y == z
    ensures x as real + y as real == z as real && (z > 0 ==> (z - 1) as real == z as real - 1.0)
  {
  }

  /** The division of `main`.  `file` tells that the hardware description was found; without it there is
      one node, whose range `get_hw_config` has already set.  The threads' ranges always tile the
      objects; the nodes' ranges do unless the description names exactly one node.  `last` is the node
      that would be filled next. */
  method Assign(objects: nat, threads: nat, nodes: nat, file: bool, single: real -> real, double: real -> real)
    returns (info: seq<Startup>, count: seq<nat>, first: seq<nat>, ghost starter: seq<nat>, ghost nodeOf: seq<nat>,
             ghost step: nat, ghost ratio: real, ghost last: nat)
    requires 0 < objects < 16777216 && 0 < threads < 16777216 && 0 < nodes < 16777216 && (!file ==> nodes == 1)
    requires RoundsToFloat(single) && Rounds(double, DOUBLE)
    ensures |info| == threads && |count| == |first| == nodes
    ensures Begin(step, threads) >= objects && (0 < step ==> Begin(step - 1, threads) < objects)
    ensures InSteps(info, step, objects)
    ensures ThreadsTile(info, starter, objects) && |nodeOf| == objects
    ensures forall t | 0 <= t < threads :: info[t].node < nodes
    ensures Tiled(count, first, nodeOf, objects) <==> !(file && nodes == 1)
    ensures SamePlace(info, starter, nodeOf)
    ensures file && nodes == 1 ==> count == [0]
    ensures ratio == single(objects as real / nodes as real) > 0.0 && last < nodes
    ensures nodes > 1 ==> NodesFollow(info, last, ratio) && NodesTile(count, first, nodeOf, last, objects)
    ensures nodes > 1 ==> ThreadsGoOn(info, ratio, double) && (step as real <= ratio ==> ThreadsOnShares(info, ratio, double))
    ensures nodes > 1 && step as real <= ratio ==> InShares(first, last, objects, ratio, step)
  {
    var perThread := PerThread(objects, threads, single);
    var perNode := NodeRatio(objects, nodes, single);
    ghost var n: nat;
    info, count, first, starter, nodeOf, last, n := DivideObjects(objects, threads, nodes, perThread, perNode, double);
    step, ratio := perThread, perNode;
    if nodes == 1 {
      OneNode(objects, nodeOf);
      count := if file then count else [objects];
    } else {
      SplitIsExact(info, step, objects, nodes, last, ratio, double);
    }
  }

  lemma OneNode(objects: nat, nodeOf: seq<nat>)
    requires 0 < objects == |nodeOf| && forall o | 0 <= o < objects :: nodeOf[o] == 0
    ensures Tiled([objects], [0], nodeOf, objects) && !Tiled([0], [0], nodeOf, objects)
  {
    assert !InNode([0], [0], nodeOf[0], 0);
    forall o: nat | o < objects ensures InNode([objects], [0], nodeOf[o], o) {
    }
  }

  /** A thread that starts to draw, after it has drawn the tickets xs as long as it has no target. */
  function AfterTickets(S: Setting, th: Thread, xs: seq<nat>): Thread
    requires |S.count| == |S.first| > 0 && th.node < |S.count|
    decreases |xs|
  {
    if xs == [] || th.mode != Seek then th else AfterTickets(S, AfterTicket(S, th, xs[0]), xs[1..])
  }

  /** With a hardware description of exactly one node a thread draws two tickets and finds every node
      exhausted, whatever the numbers on the tickets: no object is ever dispatched. */
  lemma {:induction false} NothingDispatched(S: Setting, th: Thread, xs: seq<nat>)
    requires S.count == [0] && |S.first| == 1 && th.node == 0 && th.steals == 0 && th.mode == Seek
    ensures AfterTickets(S, th, xs).mode == (if |xs| < 2 then Seek else Exhausted)
  {
    if |xs| >= 2 {
      var th1 := AfterTicket(S, th, xs[0]);
      assert th1 == th.(steals := 1);
      assert AfterTicket(S, th1, xs[1]).mode == Exhausted;
      assert AfterTickets(S, th1, xs[1..]) == AfterTickets(S, AfterTicket(S, th1, xs[1]), xs[1..][1..]);
    }
  }
}
