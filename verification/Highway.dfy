/** The highway model of models/highway/application.c: each object is a stretch of road with two lanes,
    a car that enters a lane is due to leave it at a time, and enters the next stretch at the same time.
    The random delays are inputs; the numbers kept in a car's node that never change are left out. */
module Highway {
  import opened Lists

  datatype Direction = Right | Left

  /** A car's contents: when it is due to leave, and its class. */
  datatype Car = Car(residence: int, class': nat)

  /** A lane's list of cars and its load counter. */
  datatype Lane = Lane(load: int, cars: seq<Car>)

  datatype Event = Traverse(dir: Direction, to: nat, at: int, class': nat) | Leave(dir: Direction, to: nat, at: int)

  ghost predicate Sorted(l: seq<Car>) {
    forall i, k | 0 <= i < k < |l| :: l[i].residence <= l[k].residence
  }

  /** The last car moves in front of the cars before it as long as they are due later. */
  function Settle(l: seq<Car>): (r: seq<Car>)
    ensures |r| == |l|
    decreases |l|
  {
    var n := |l|;
    if n >= 2 && l[n - 1].residence < l[n - 2].residence then Settle(l[..n - 2] + [l[n - 1]]) + [l[n - 2]] else l
  }

  lemma {:induction false} SettlePermutes(l: seq<Car>)
    ensures multiset(Settle(l)) == multiset(l)
    decreases |l|
  {
    var n := |l|;
    if n >= 2 && l[n - 1].residence < l[n - 2].residence {
      SettlePermutes(l[..n - 2] + [l[n - 1]]);
      assert l == l[..n - 2] + [l[n - 2]] + [l[n - 1]];
    }
  }

  ghost predicate AtMost(l: seq<Car>, t: int) {
    forall i | 0 <= i < |l| :: l[i].residence <= t
  }

  lemma {:induction false} SettleAtMost(l: seq<Car>, t: int)
    requires AtMost(l, t)
    ensures AtMost(Settle(l), t)
    decreases |l|
  {
    var n := |l|;
    if n >= 2 && l[n - 1].residence < l[n - 2].residence {
      SettleAtMost(l[..n - 2] + [l[n - 1]], t);
    }
  }

  /** A sorted list followed by one more car becomes sorted. */
  lemma {:induction false} SettleSorts(l: seq<Car>, car: Car)
    requires Sorted(l)
    ensures Sorted(Settle(l + [car]))
    decreases |l|
  {
    var n, all := |l|, l + [car];
    if n >= 1 && car.residence < l[n - 1].residence {
      var front := l[..n - 1] + [car];
      assert all[..n - 1] + [all[n]] == front;
      SettleSorts(l[..n - 1], car);
      SettleAtMost(front, l[n - 1].residence);
    } else {
      assert Settle(all) == all;
    }
  }

  /** On a sorted list nothing moves. */
  lemma SettleSorted(l: seq<Car>)
    requires Sorted(l)
    ensures Settle(l) == l
  {
  }

  // ---- one lane ----

  function EnterLane(lane: Lane, car: Car): Lane {
    Lane(lane.load + 1, Settle(lane.cars + [car]))
  }

  function LeaveLane(lane: Lane): Lane
    requires lane.cars != []
  {
    Lane(lane.load - 1, Settle(lane.cars[1..]))
  }

  /** The lists and counters of one object, as the code changes them. */
  class LaneList {
    var load: int
    var cars: seq<Car>

    function View(): Lane
      reads this
    {
      Lane(load, cars)
    }

    constructor ()
      ensures View() == Lane(0, [])
    {
      load, cars := 0, [];
    }

    method AddCar(car: Car)
      modifies this
      ensures load == old(load) && cars == old(cars) + [car]
    {
      cars := cars + [car];
    }

    method DelCar() returns (car: seq<Car>)
      modifies this
      ensures load == old(load)
      ensures if old(cars) == [] then car == [] && cars == [] else car == [old(cars)[0]] && cars == old(cars)[1..]
    {
      if cars == [] {
        return [];
      }
      car, cars := [cars[0]], cars[1..];
    }

    /** The walk from the tail, exchanging the contents of neighbours until one is in place. */
    method Traversal()
      modifies this`cars
      ensures cars == Settle(old(cars))
    {
      if cars == [] {
        return;
      }
      var skip := false;
      var i := |cars| - 1;
      assert cars[..i + 1] == cars && cars[i + 1..] == [];
      while i > 0
        invariant 0 <= i < |cars| == |old(cars)|
        invariant Settle(old(cars)) == if skip then cars else Settle(cars[..i + 1]) + cars[i + 1..]
      {
        if !skip && cars[i].residence < cars[i - 1].residence {
          ghost var before := cars;
          cars := cars[i - 1 := cars[i]][i := cars[i - 1]];
          SettleStep(before, cars, i);
        } else {
          if !skip {
            assert Settle(cars[..i + 1]) + cars[i + 1..] == cars;
          }
          skip := true;
        }
        i := i - 1;
      }
      assert !skip ==> Settle(cars[..1]) + cars[1..] == cars;
    }

    static lemma SettleStep(l: seq<Car>, l': seq<Car>, i: nat)
      requires 0 < i < |l| && l[i].residence < l[i - 1].residence && l' == l[i - 1 := l[i]][i := l[i - 1]]
      ensures Settle(l[..i + 1]) + l[i + 1..] == Settle(l'[..i]) + l'[i..]
    {
      assert l[..i + 1][..i - 1] + [l[i]] == l'[..i];
      assert [l[i - 1]] + l[i + 1..] == l'[i..];
    }

    /** What CAR_TRAVERSAL_RIGHT and CAR_TRAVERSAL_LEFT do to their lane. */
    method Enter(car: Car)
      modifies this
      ensures View() == EnterLane(old(View()), car)
    {
      load := load + 1;
      AddCar(car);
      Traversal();
    }

    /** What CAR_LEAVING_RIGHT and CAR_LEAVING_LEFT do; `found` is false where the code aborts. */
    method Exit() returns (found: bool)
      modifies this
      ensures found <==> old(cars) != []
      ensures found ==> View() == LeaveLane(old(View()))
    {
      load := load - 1;
      var car := DelCar();
      found := car != [];
      if found {
        Traversal();
      }
    }
  }

  // ---- the whole road ----

  datatype World = World(right: seq<Lane>, left: seq<Lane>, pending: seq<Event>)

  function LaneOf(w: World, d: Direction, o: nat): Lane
    requires o < |w.right| && o < |w.left|
  {
    if d == Right then w.right[o] else w.left[o]
  }

  function SetLane(w: World, d: Direction, o: nat, lane: Lane): World
    requires o < |w.right| && o < |w.left|
  {
    if d == Right then w.(right := w.right[o := lane]) else w.(left := w.left[o := lane])
  }

  /** `from` lies one place before `to` on the circle of the n stretches that begins with `first`. */
  predicate OneOn(from: nat, to: nat, first: nat, n: nat) {
    first <= from < first + n && to == if from + 1 < first + n then from + 1 else first
  }

  /** To the left the road is one circle; to the right each of its halves is. */
  predicate Neighbours(d: Direction, from: nat, to: nat, objects: nat) {
    if d == Left then OneOn(to, from, 0, objects)
    else if from < objects / 2 then OneOn(from, to, 0, objects / 2)
    else OneOn(from, to, objects / 2, objects - objects / 2)
  }

  /** Where a car goes next. */
  function NextObject(d: Direction, me: nat, objects: nat): (o: nat)
    requires me < objects
    ensures o < objects && Neighbours(d, me, o, objects)
  {
    if d == Right then
      if me < objects / 2 && me + 1 >= objects / 2 then 0
      else if me + 1 >= objects then objects / 2
      else me + 1
    else if me > 0 then me - 1 else objects - 1
  }

  /** Pending event i may be processed: no pending event of the same object comes before it. */
  ghost predicate InOrder(w: World, i: nat) {
    i < |w.pending| && forall k | 0 <= k < |w.pending| && w.pending[k].to == w.pending[i].to :: w.pending[i].at <= w.pending[k].at
  }

  ghost predicate Enabled(w: World, i: nat, due: int) {
    InOrder(w, i) && (w.pending[i].Traverse? ==> due >= w.pending[i].at)
  }

  /** `ProcessEvent` on pending event i; `due` is the time drawn for a car that enters.  On an empty
      list the code aborts, and nothing changes. */
  function Process(w: World, i: nat, due: int): World
    requires i < |w.pending| && w.pending[i].to < |w.right| == |w.left|
  {
    var e, rest := w.pending[i], Without(w.pending, i);
    var lane := LaneOf(w, e.dir, e.to);
    match e
    case Traverse(d, o, _, c) =>
      SetLane(w, d, o, EnterLane(lane, Car(due, c)))
        .(pending := rest + [Leave(d, o, due), Traverse(d, NextObject(d, o, |w.right|), due, c)])
    case Leave(d, o, _) =>
      if lane.cars == [] then w else SetLane(w, d, o, LeaveLane(lane)).(pending := rest)
  }

  ghost predicate Start(w: World) {
    && |w.right| == |w.left|
    && (forall o | 0 <= o < |w.right| :: w.right[o] == w.left[o] == Lane(0, []))
    && forall i | 0 <= i < |w.pending| :: w.pending[i].Traverse? && w.pending[i].to < |w.right|
  }

  function Run(w: World, steps: seq<(nat, int)>): World
    requires |w.right| == |w.left| && forall i | 0 <= i < |w.pending| :: w.pending[i].to < |w.right|
    decreases |steps|
  {
    if steps == [] || steps[0].0 >= |w.pending| then w
    else Run(Process(w, steps[0].0, steps[0].1), steps[1..])
  }

  /** Every step takes an enabled event. */
  ghost predicate Legal(w: World, steps: seq<(nat, int)>)
    requires |w.right| == |w.left| && forall i | 0 <= i < |w.pending| :: w.pending[i].to < |w.right|
    decreases |steps|
  {
    steps == [] || (Enabled(w, steps[0].0, steps[0].1) && Legal(Process(w, steps[0].0, steps[0].1), steps[1..]))
  }

  // ---- the invariant ----

  function Times(l: seq<Car>): (r: seq<int>)
    ensures |r| == |l|
  {
    seq(|l|, i requires 0 <= i < |l| => l[i].residence)
  }

  /** How many events of a kind are pending. */
  function Count(l: seq<Event>, e: Event): nat {
    multiset(l)[e]
  }

  ghost predicate LaneInv(lane: Lane, d: Direction, o: nat, pending: seq<Event>) {
    && lane.load == |lane.cars| && Sorted(lane.cars)
    && forall x: int :: multiset(Times(lane.cars))[x] == Count(pending, Leave(d, o, x))
  }

  ghost predicate Inv(w: World) {
    && |w.right| == |w.left|
    && (forall i | 0 <= i < |w.pending| :: w.pending[i].to < |w.right|)
    && forall d, o | 0 <= o < |w.right| :: LaneInv(LaneOf(w, d, o), d, o, w.pending)
  }

  lemma TimesConcat(a: seq<Car>, b: seq<Car>)
    ensures Times(a + b) == Times(a) + Times(b)
  {
  }

  lemma {:induction false} SettleTimes(l: seq<Car>)
    ensures multiset(Times(Settle(l))) == multiset(Times(l))
    decreases |l|
  {
    var n := |l|;
    if n >= 2 && l[n - 1].residence < l[n - 2].residence {
      var a, x, y := l[..n - 2], [l[n - 2]], [l[n - 1]];
      SettleTimes(a + y);
      TimesConcat(Settle(a + y), x);
      TimesConcat(a, y);
      TimesConcat(a + x, y);
      TimesConcat(a, x);
      assert l == a + x + y;
    }
  }

  lemma EnterInv(lane: Lane, d: Direction, o: nat, pending: seq<Event>, car: Car, pending': seq<Event>)
    requires LaneInv(lane, d, o, pending)
    requires forall x: int ::
               Count(pending', Leave(d, o, x)) == Count(pending, Leave(d, o, x)) + (if x == car.residence then 1 else 0)
    ensures LaneInv(EnterLane(lane, car), d, o, pending')
  {
    SettleSorts(lane.cars, car);
    SettleTimes(lane.cars + [car]);
    TimesConcat(lane.cars, [car]);
    assert Times([car]) == [car.residence];
    assert forall x: int :: Count(pending, Leave(d, o, x)) == multiset(Times(lane.cars))[x];
  }

  lemma LeaveInv(lane: Lane, d: Direction, o: nat, pending: seq<Event>, pending': seq<Event>)
    requires LaneInv(lane, d, o, pending) && lane.cars != []
    requires forall x: int ::
               Count(pending', Leave(d, o, x)) + (if x == lane.cars[0].residence then 1 else 0)
               == Count(pending, Leave(d, o, x))
    ensures LaneInv(LeaveLane(lane), d, o, pending')
  {
    SettleSorted(lane.cars[1..]);
    assert lane.cars == [lane.cars[0]] + lane.cars[1..];
    TimesConcat([lane.cars[0]], lane.cars[1..]);
    assert Times([lane.cars[0]]) == [lane.cars[0].residence];
    assert forall x: int :: Count(pending, Leave(d, o, x)) == multiset(Times(lane.cars))[x];
  }

  /** The leaving event that is next removes the car that is due exactly then: there is one, and it is
      the first of the list. */
  lemma LeavesOnTime(w: World, i: nat)
    requires Inv(w) && InOrder(w, i) && w.pending[i].Leave?
    ensures var e := w.pending[i];
            var cars := LaneOf(w, e.dir, e.to).cars;
            cars != [] && cars[0].residence == e.at
  {
    var e := w.pending[i];
    var lane := LaneOf(w, e.dir, e.to);
    assert LaneInv(lane, e.dir, e.to, w.pending);
    assert e in multiset(w.pending);
    assert multiset(Times(lane.cars))[e.at] > 0;
    assert e.at in Times(lane.cars);
    var k :| 0 <= k < |lane.cars| && Times(lane.cars)[k] == e.at;
    var first := lane.cars[0].residence;
    assert Times(lane.cars)[0] == first && first in multiset(Times(lane.cars));
    assert Leave(e.dir, e.to, first) in multiset(w.pending);
    var m :| 0 <= m < |w.pending| && w.pending[m] == Leave(e.dir, e.to, first);
  }

  /** What becomes pending when a car enters. */
  function Scheduled(e: Event, due: int, objects: nat): seq<Event>
    requires e.Traverse? && e.to < objects
  {
    [Leave(e.dir, e.to, due), Traverse(e.dir, NextObject(e.dir, e.to, objects), due, e.class')]
  }

  lemma EnterCounts(l: seq<Event>, i: nat, due: int, objects: nat, d: Direction, o: nat, x: int)
    requires i < |l| && l[i].Traverse? && l[i].to < objects
    ensures Count(Without(l, i) + Scheduled(l[i], due, objects), Leave(d, o, x))
            == Count(l, Leave(d, o, x)) + (if d == l[i].dir && o == l[i].to && x == due then 1 else 0)
  {
    WithoutContents(l, i);
  }

  lemma LeaveCounts(l: seq<Event>, i: nat, d: Direction, o: nat, x: int)
    requires i < |l| && l[i].Leave?
    ensures Count(Without(l, i), Leave(d, o, x)) + (if d == l[i].dir && o == l[i].to && x == l[i].at then 1 else 0)
            == Count(l, Leave(d, o, x))
  {
    WithoutContents(l, i);
  }

  lemma OtherLane(lane: Lane, d: Direction, o: nat, pending: seq<Event>, pending': seq<Event>)
    requires LaneInv(lane, d, o, pending)
    requires forall x: int :: Count(pending', Leave(d, o, x)) == Count(pending, Leave(d, o, x))
    ensures LaneInv(lane, d, o, pending')
  {
  }

  lemma EnterStep(w: World, i: nat, due: int, d: Direction, o: nat)
    requires Inv(w) && Enabled(w, i, due) && w.pending[i].Traverse? && o < |w.right|
    ensures LaneInv(LaneOf(Process(w, i, due), d, o), d, o, Process(w, i, due).pending)
  {
    var e, w' := w.pending[i], Process(w, i, due);
    var lane := LaneOf(w, d, o);
    assert LaneInv(lane, d, o, w.pending) && w'.pending == Without(w.pending, i) + Scheduled(e, due, |w.right|);
    forall x: int
      ensures Count(w'.pending, Leave(d, o, x))
              == Count(w.pending, Leave(d, o, x)) + (if d == e.dir && o == e.to && x == due then 1 else 0)
    {
      EnterCounts(w.pending, i, due, |w.right|, d, o, x);
    }
    if d == e.dir && o == e.to {
      EnterInv(lane, d, o, w.pending, Car(due, e.class'), w'.pending);
    } else {
      OtherLane(lane, d, o, w.pending, w'.pending);
    }
  }

  lemma LeaveStep(w: World, i: nat, due: int, d: Direction, o: nat)
    requires Inv(w) && Enabled(w, i, due) && w.pending[i].Leave? && o < |w.right|
    ensures LaneInv(LaneOf(Process(w, i, due), d, o), d, o, Process(w, i, due).pending)
  {
    LeavesOnTime(w, i);
    var e, w' := w.pending[i], Process(w, i, due);
    var lane := LaneOf(w, d, o);
    assert LaneInv(lane, d, o, w.pending) && w'.pending == Without(w.pending, i);
    forall x: int
      ensures Count(w'.pending, Leave(d, o, x)) + (if d == e.dir && o == e.to && x == e.at then 1 else 0)
              == Count(w.pending, Leave(d, o, x))
    {
      LeaveCounts(w.pending, i, d, o, x);
    }
    if d == e.dir && o == e.to {
      LeaveInv(lane, d, o, w.pending, w'.pending);
    } else {
      OtherLane(lane, d, o, w.pending, w'.pending);
    }
  }

  lemma StepInv(w: World, i: nat, due: int)
    requires Inv(w) && Enabled(w, i, due)
    ensures Inv(Process(w, i, due))
  {
    forall d, o | 0 <= o < |w.right| ensures LaneInv(LaneOf(Process(w, i, due), d, o), d, o, Process(w, i, due).pending) {
      if w.pending[i].Traverse? {
        EnterStep(w, i, due, d, o);
      } else {
        LeaveStep(w, i, due, d, o);
      }
    }
  }

  lemma StartInv(w: World)
    requires Start(w)
    ensures Inv(w)
  {
    forall d, o | 0 <= o < |w.right| ensures LaneInv(LaneOf(w, d, o), d, o, w.pending) {
      assert LaneOf(w, d, o) == Lane(0, []);
      forall x: int ensures Leave(d, o, x) !in multiset(w.pending) {
        assert Leave(d, o, x) !in w.pending;
      }
    }
  }

  lemma {:induction false} RunInv(w: World, steps: seq<(nat, int)>)
    requires Inv(w) && Legal(w, steps)
    ensures Inv(Run(w, steps))
    decreases |steps|
  {
    if steps != [] {
      StepInv(w, steps[0].0, steps[0].1);
      RunInv(Process(w, steps[0].0, steps[0].1), steps[1..]);
    }
  }

  // ---- every run ----

  /** In every run that processes each object's events in order, no car is ever missing: the leaving
      event that is next finds the car due then at the head of its list, and the load counters count the
      cars of the lists. */
  lemma NoCarMissing(w: World, steps: seq<(nat, int)>, i: nat)
    requires Start(w) && Legal(w, steps)
    ensures var w' := Run(w, steps);
            && |w'.right| == |w'.left| == |w.right|
            && (forall d, o | 0 <= o < |w'.right| :: LaneOf(w', d, o).load == |LaneOf(w', d, o).cars|)
            && (InOrder(w', i) && w'.pending[i].Leave? ==>
                  var e := w'.pending[i];
                  && e.to < |w'.right| && LaneOf(w', e.dir, e.to).cars != []
                  && LaneOf(w', e.dir, e.to).cars[0].residence == e.at)
  {
    StartInv(w);
    RunInv(w, steps);
    RunSize(w, steps);
    var w' := Run(w, steps);
    forall d, o | 0 <= o < |w'.right| ensures LaneOf(w', d, o).load == |LaneOf(w', d, o).cars| {
      assert LaneInv(LaneOf(w', d, o), d, o, w'.pending);
    }
    if InOrder(w', i) && w'.pending[i].Leave? {
      LeavesOnTime(w', i);
    }
  }

  lemma {:induction false} RunSize(w: World, steps: seq<(nat, int)>)
    requires Inv(w) && Legal(w, steps)
    ensures |Run(w, steps).right| == |w.right| && Travelling(Run(w, steps).pending) == Travelling(w.pending)
    decreases |steps|
  {
    if steps != [] {
      StepInv(w, steps[0].0, steps[0].1);
      StepTravels(w, steps[0].0, steps[0].1);
      RunSize(Process(w, steps[0].0, steps[0].1), steps[1..]);
    }
  }

  /** The cars on their way to a lane. */
  function Travelling(l: seq<Event>): nat {
    if l == [] then 0 else (if l[0].Traverse? then 1 else 0) + Travelling(l[1..])
  }

  lemma {:induction false} TravellingConcat(a: seq<Event>, b: seq<Event>)
    ensures Travelling(a + b) == Travelling(a) + Travelling(b)
  {
    if a == [] {
      assert a + b == b;
    } else {
      assert (a + b)[1..] == a[1..] + b;
      TravellingConcat(a[1..], b);
    }
  }

  lemma WithoutTravels(l: seq<Event>, i: nat)
    requires i < |l|
    ensures Travelling(Without(l, i)) + (if l[i].Traverse? then 1 else 0) == Travelling(l)
  {
    var front, tail := l[..i], l[i..];
    assert l == front + tail && tail[1..] == l[i + 1..];
    TravellingConcat(front, tail);
    TravellingConcat(front, tail[1..]);
  }

  lemma StepTravels(w: World, i: nat, due: int)
    requires Inv(w) && Enabled(w, i, due)
    ensures Travelling(Process(w, i, due).pending) == Travelling(w.pending)
  {
    WithoutTravels(w.pending, i);
    if w.pending[i].Traverse? {
      var new' := Scheduled(w.pending[i], due, |w.right|);
      TravellingConcat(Without(w.pending, i), new');
      assert Travelling(new'[1..][1..]) == 0;
      assert Travelling(new'[1..]) == 1;
      assert Process(w, i, due).pending == Without(w.pending, i) + new';
    }
  }

  /** Cars are neither lost nor made: the number of cars on their way to a lane never changes. */
  lemma CarsCirculate(w: World, steps: seq<(nat, int)>)
    requires Start(w) && Legal(w, steps)
    ensures Travelling(Run(w, steps).pending) == |w.pending|
  {
    StartInv(w);
    RunSize(w, steps);
    AllTravelling(w.pending);
  }

  lemma {:induction false} AllTravelling(l: seq<Event>)
    requires forall i | 0 <= i < |l| :: l[i].Traverse?
    ensures Travelling(l) == |l|
  {
    if l != [] {
      AllTravelling(l[1..]);
    }
  }

  // ---- the way of the cars ----

  /** A stretch is entered from one stretch alone. */
  lemma OneNeighbour(d: Direction, a: nat, b: nat, to: nat, objects: nat)
    requires a < objects && b < objects && Neighbours(d, a, to, objects)
    ensures Neighbours(d, b, to, objects) <==> a == b
  {
  }

  /** A car of class c is to enter stretch o at time x. */
  predicate Comes(e: Event, d: Direction, o: nat, c: nat, x: int) {
    e == Traverse(d, o, x, c)
  }

  /** A car of class c enters stretch o and is to leave it at time x. */
  predicate Enters(e: Event, due: int, d: Direction, o: nat, c: nat, x: int) {
    e.Traverse? && e.dir == d && e.to == o && e.class' == c && due == x
  }

  lemma ScheduledComing(e: Event, due: int, objects: nat, d: Direction, from: nat, o: nat, c: nat, x: int)
    requires e.Traverse? && e.to < objects && from < objects && Neighbours(d, from, o, objects)
    ensures multiset(Scheduled(e, due, objects))[Traverse(d, o, x, c)] == if Enters(e, due, d, from, c, x) then 1 else 0
  {
    OneNeighbour(d, from, e.to, o, objects);
    Onward(d, e.to, objects, o);
  }

  /** And one stretch lies after each. */
  lemma Onward(d: Direction, from: nat, objects: nat, o: nat)
    requires from < objects
    ensures Neighbours(d, from, o, objects) <==> o == NextObject(d, from, objects)
  {
  }

  /** How many cars of class c come to stretch o at time x in the run, and how many enter it that are to
      leave it then. */
  function Came(w: World, steps: seq<(nat, int)>, d: Direction, o: nat, c: nat, x: int): nat
    requires |w.right| == |w.left| && forall i | 0 <= i < |w.pending| :: w.pending[i].to < |w.right|
    decreases |steps|
  {
    if steps == [] || steps[0].0 >= |w.pending| then 0
    else
      var (i, due) := steps[0];
      (if Comes(w.pending[i], d, o, c, x) then 1 else 0) + Came(Process(w, i, due), steps[1..], d, o, c, x)
  }

  function Entered(w: World, steps: seq<(nat, int)>, d: Direction, o: nat, c: nat, x: int): nat
    requires |w.right| == |w.left| && forall i | 0 <= i < |w.pending| :: w.pending[i].to < |w.right|
    decreases |steps|
  {
    if steps == [] || steps[0].0 >= |w.pending| then 0
    else
      var (i, due) := steps[0];
      (if Enters(w.pending[i], due, d, o, c, x) then 1 else 0) + Entered(Process(w, i, due), steps[1..], d, o, c, x)
  }

  lemma StepFlow(w: World, i: nat, due: int, d: Direction, from: nat, o: nat, c: nat, x: int)
    requires Inv(w) && Enabled(w, i, due) && from < |w.right| && Neighbours(d, from, o, |w.right|)
    ensures Count(Process(w, i, due).pending, Traverse(d, o, x, c)) + (if Comes(w.pending[i], d, o, c, x) then 1 else 0)
            == Count(w.pending, Traverse(d, o, x, c)) + (if Enters(w.pending[i], due, d, from, c, x) then 1 else 0)
  {
    var e := w.pending[i];
    WithoutContents(w.pending, i);
    if e.Traverse? {
      ScheduledComing(e, due, |w.right|, d, from, o, c, x);
      assert Process(w, i, due).pending == Without(w.pending, i) + Scheduled(e, due, |w.right|);
    } else {
      LeavesOnTime(w, i);
    }
  }

  lemma {:induction false} RunFlow(w: World, steps: seq<(nat, int)>, d: Direction, from: nat, o: nat, c: nat, x: int)
    requires Inv(w) && Legal(w, steps) && from < |w.right| && Neighbours(d, from, o, |w.right|)
    ensures Count(Run(w, steps).pending, Traverse(d, o, x, c)) + Came(w, steps, d, o, c, x)
            == Count(w.pending, Traverse(d, o, x, c)) + Entered(w, steps, d, from, c, x)
    decreases |steps|
  {
    if steps != [] {
      var (i, due) := steps[0];
      StepInv(w, i, due);
      StepFlow(w, i, due, d, from, o, c, x);
      RunFlow(Process(w, i, due), steps[1..], d, from, o, c, x);
    }
  }

  /** Each car that enters a stretch comes to the neighbour at the time it is due to leave, with its class
      and direction, and no other car comes there: over every run, the cars that have come to stretch o
      at a time, and those still to come then, are those of the start and those that have entered the
      stretch before o with that due time. */
  lemma CarsMoveOn(w: World, steps: seq<(nat, int)>, d: Direction, from: nat, o: nat, c: nat, x: int)
    requires Start(w) && Legal(w, steps) && from < |w.right| && Neighbours(d, from, o, |w.right|)
    ensures Count(Run(w, steps).pending, Traverse(d, o, x, c)) + Came(w, steps, d, o, c, x)
            == Count(w.pending, Traverse(d, o, x, c)) + Entered(w, steps, d, from, c, x)
  {
    StartInv(w);
    RunFlow(w, steps, d, from, o, c, x);
  }
}
