/** The cellular network model of models/pcs/application.c: the channels of a cell, and the events that
    take and release them.  Times and random draws are inputs; any order of events is a run. */
module Pcs {
  import opened Lists

  /** A cell: the counter of free channels, the channel bitmap (one element a bit), and the linked list
      of busy channels from its head. */
  datatype Cell = Cell(counter: int, bits: seq<bool>, busy: seq<nat>)

  datatype Event =
    | StartCall(cell: nat)
    | HandoffIn(cell: nat)
    | EndCall(cell: nat, channel: nat)
    | HandoffLeave(cell: nat, channel: nat)

  // ---- allocation and deallocation ----

  /** The lowest free channel at or above i, or the number of channels. */
  function LowestFree(bits: seq<bool>, i: nat): (r: nat)
    requires i <= |bits|
    decreases |bits| - i
  {
    if i == |bits| || !bits[i] then i else LowestFree(bits, i + 1)
  }

  lemma {:induction false} LowestFreeIsLowest(bits: seq<bool>, i: nat)
    requires i <= |bits|
    ensures i <= LowestFree(bits, i) <= |bits|
    ensures forall k | i <= k < LowestFree(bits, i) :: bits[k]
    ensures LowestFree(bits, i) < |bits| ==> !bits[LowestFree(bits, i)]
    decreases |bits| - i
  {
    if i < |bits| && bits[i] {
      LowestFreeIsLowest(bits, i + 1);
    }
  }

  function Remove(l: seq<nat>, ch: nat): seq<nat> {
    if l == [] then [] else if l[0] == ch then l[1..] else [l[0]] + Remove(l[1..], ch)
  }

  /** The new cell, and the channel; no channel where the code aborts. */
  datatype Allocated = Allocated(cell: Cell, channel: nat) | NoChannel

  function Allocate(c: Cell): Allocated {
    var i := LowestFree(c.bits, 0);
    if i < |c.bits| then Allocated(c.(bits := c.bits[i := true], busy := [i] + c.busy), i) else NoChannel
  }

  datatype Released = Released(cell: Cell) | NotBusy

  function Deallocate(c: Cell, ch: nat): Released {
    if ch in c.busy && ch < |c.bits| then Released(c.(bits := c.bits[ch := false], busy := Remove(c.busy, ch))) else NotBusy
  }

  /** The fields of one object's state, as the code changes them. */
  class CellState {
    var counter: int
    const bits: array<bool>
    var busy: seq<nat>

    function View(): Cell
      reads this, bits
    {
      Cell(counter, bits[..], busy)
    }

    constructor (channels: nat)
      ensures View() == Cell(channels, seq(channels, _ => false), []) && fresh(bits)
    {
      counter, busy := channels, [];
      bits := new bool[channels](_ => false);
    }

    method Allocation() returns (index: int)
      modifies this`busy, bits
      ensures match Allocate(old(View()))
              case Allocated(c, ch) => index == ch && View() == c
              case NoChannel => index == -1 && View() == old(View())
    {
      index := -1;
      var i := 0;
      while i < bits.Length && index == -1
        invariant 0 <= i <= bits.Length && bits[..] == old(bits[..]) && busy == old(busy)
        invariant index == -1 ==> LowestFree(bits[..], 0) == LowestFree(bits[..], i)
        invariant index != -1 ==> 0 <= index < bits.Length && index == LowestFree(bits[..], 0)
        decreases bits.Length - i, index == -1
      {
        if !bits[i] {
          index := i;
        } else {
          i := i + 1;
        }
      }
      if index != -1 {
        bits[index] := true;
        busy := [index] + busy;
      }
    }

    method Deallocation(ch: nat) returns (found: bool)
      requires ch in busy ==> ch < bits.Length
      modifies this`busy, bits
      ensures match Deallocate(old(View()), ch)
              case Released(c) => found && View() == c
              case NotBusy => !found && View() == old(View())
    {
      var k := 0;
      while k < |busy| && busy[k] != ch
        invariant 0 <= k <= |busy| && busy == old(busy) && bits[..] == old(bits[..])
        invariant ch !in busy[..k]
      {
        k := k + 1;
      }
      found := k < |busy|;
      if found {
        RemoveAt(busy, ch, k);
        busy := busy[..k] + busy[k + 1..];
        bits[ch] := false;
      }
    }

    static lemma {:induction false} RemoveAt(l: seq<nat>, ch: nat, k: nat)
      requires k < |l| && l[k] == ch && ch !in l[..k]
      ensures Remove(l, ch) == l[..k] + l[k + 1..]
    {
      if k > 0 {
        assert l[0] in l[..k];
        assert l[1..][..k - 1] == l[..k][1..];
        RemoveAt(l[1..], ch, k - 1);
      }
    }
  }

  // ---- events ----

  datatype World = World(cells: seq<Cell>, pending: seq<Event>, aborted: bool)

  /** What a call that got a channel schedules: its end, or its handoff to the cell `to`. */
  function CallEvents(me: nat, channel: nat, handoff: bool, to: nat): seq<Event> {
    if handoff then [HandoffLeave(me, channel), HandoffIn(to)] else [EndCall(me, channel)]
  }

  function SetCell(w: World, me: nat, c: Cell): World
    requires me < |w.cells|
  {
    w.(cells := w.cells[me := c])
  }

  /** A call arrives, new or handed over; `again` schedules the next new call. */
  function Arrive(w: World, me: nat, handoff: bool, to: nat, again: seq<Event>): World
    requires me < |w.cells|
  {
    var c := w.cells[me];
    if c.counter == 0 then w.(pending := w.pending + again)
    else match Allocate(c.(counter := c.counter - 1))
      case Allocated(c', ch) => SetCell(w, me, c').(pending := w.pending + CallEvents(me, ch, handoff, to) + again)
      case NoChannel => w.(aborted := true)
  }

  function Release(w: World, me: nat, ch: nat): World
    requires me < |w.cells|
  {
    match Deallocate(w.cells[me].(counter := w.cells[me].counter + 1), ch)
    case Released(c) => SetCell(w, me, c)
    case NotBusy => w.(aborted := true)
  }

  /** `ProcessEvent` on pending event i; `handoff` and `to` stand for the random draws. */
  function Process(w: World, i: nat, handoff: bool, to: nat): World
    requires i < |w.pending| && w.pending[i].cell < |w.cells|
  {
    var w' := w.(pending := Without(w.pending, i));
    match w.pending[i]
    case StartCall(me) => Arrive(w', me, handoff, to, [StartCall(me)])
    case HandoffIn(me) => Arrive(w', me, handoff, to, [])
    case EndCall(me, ch) => Release(w', me, ch)
    case HandoffLeave(me, ch) => Release(w', me, ch)
  }

  function Run(w: World, steps: seq<(nat, bool, nat)>): World
    decreases |steps|
  {
    if steps == [] then w
    else
      var (i, handoff, to) := steps[0];
      if i < |w.pending| && w.pending[i].cell < |w.cells| && to < |w.cells|
      then Run(Process(w, i, handoff, to), steps[1..])
      else Run(w, steps[1..])
  }

  // ---- the invariant ----

  function Free(bits: seq<bool>): nat {
    if bits == [] then 0 else (if bits[0] then 0 else 1) + Free(bits[1..])
  }

  lemma {:induction false} FreeUpdate(bits: seq<bool>, i: nat, b: bool)
    requires i < |bits|
    ensures Free(bits[i := b]) == Free(bits) - (if bits[i] then 0 else 1) + (if b then 0 else 1)
  {
    if i == 0 {
      assert bits[i := b][1..] == bits[1..];
    } else {
      assert bits[i := b][1..] == bits[1..][i - 1 := b];
      FreeUpdate(bits[1..], i - 1, b);
    }
  }

  lemma {:induction false} FreeZero(bits: seq<bool>)
    ensures Free(bits) == 0 <==> forall i | 0 <= i < |bits| :: bits[i]
    ensures Free(bits) <= |bits|
    ensures (forall i | 0 <= i < |bits| :: !bits[i]) ==> Free(bits) == |bits|
  {
    if bits != [] {
      FreeZero(bits[1..]);
      assert forall i | 1 <= i < |bits| :: bits[i] == bits[1..][i - 1];
    }
  }

  /** How many pending events will release a channel of a cell. */
  function Releases(l: seq<Event>, me: nat, ch: nat): nat {
    multiset(l)[EndCall(me, ch)] + multiset(l)[HandoffLeave(me, ch)]
  }

  function Bit(bits: seq<bool>, ch: nat): nat {
    if ch < |bits| && bits[ch] then 1 else 0
  }

  function InList(l: seq<nat>, ch: nat): nat {
    multiset(l)[ch]
  }

  /** The counter, the bitmap and the list agree. */
  ghost predicate CellInv(c: Cell) {
    && c.counter == Free(c.bits) && |c.busy| + Free(c.bits) == |c.bits|
    && forall ch: nat :: InList(c.busy, ch) == Bit(c.bits, ch)
  }

  /** Every busy channel has exactly one event that will release it, and no free channel has any. */
  ghost predicate EventsInv(bits: seq<bool>, me: nat, pending: seq<Event>) {
    forall ch: nat :: Releases(pending, me, ch) == Bit(bits, ch)
  }

  ghost predicate Inv(w: World) {
    && !w.aborted
    && (forall me | 0 <= me < |w.cells| :: CellInv(w.cells[me]) && EventsInv(w.cells[me].bits, me, w.pending))
    && InCells(w.pending, |w.cells|)
  }

  lemma {:induction false} RemoveCounts(l: seq<nat>, ch: nat)
    requires ch in l
    ensures multiset(Remove(l, ch)) == multiset(l) - multiset{ch}
    ensures |Remove(l, ch)| == |l| - 1
  {
    assert l == [l[0]] + l[1..];
    if l[0] != ch {
      RemoveCounts(l[1..], ch);
    }
  }

  /** A positive counter always finds a channel, the lowest free one. */
  lemma AllocateInv(c: Cell)
    requires CellInv(c) && c.counter != 0
    ensures var r := Allocate(c.(counter := c.counter - 1));
            && r.Allocated? && CellInv(r.cell) && r.channel < |c.bits| && !c.bits[r.channel]
            && r.cell.bits == c.bits[r.channel := true]
            && forall k | 0 <= k < r.channel :: c.bits[k]
  {
    FreeZero(c.bits);
    LowestFreeIsLowest(c.bits, 0);
    var i := LowestFree(c.bits, 0);
    FreeUpdate(c.bits, i, true);
    var c' := Allocate(c.(counter := c.counter - 1)).cell;
    forall ch: nat ensures InList(c'.busy, ch) == Bit(c'.bits, ch) {
      assert InList(c.busy, ch) == Bit(c.bits, ch);
    }
  }

  lemma DeallocateInv(c: Cell, ch: nat)
    requires CellInv(c) && ch < |c.bits| && c.bits[ch]
    ensures var r := Deallocate(c.(counter := c.counter + 1), ch);
            r.Released? && CellInv(r.cell) && r.cell.bits == c.bits[ch := false]
  {
    assert InList(c.busy, ch) == Bit(c.bits, ch) == 1;
    assert ch in c.busy;
    RemoveCounts(c.busy, ch);
    FreeUpdate(c.bits, ch, false);
    var c' := Deallocate(c.(counter := c.counter + 1), ch).cell;
    forall x: nat ensures InList(c'.busy, x) == Bit(c'.bits, x) {
      assert InList(c.busy, x) == Bit(c.bits, x);
    }
  }

  lemma RestReleases(l: seq<Event>, i: nat, me: nat, ch: nat)
    requires i < |l|
    ensures Releases(Without(l, i), me, ch)
            + (if l[i] == EndCall(me, ch) || l[i] == HandoffLeave(me, ch) then 1 else 0) == Releases(l, me, ch)
  {
    WithoutContents(l, i);
  }

  lemma CallReleases(l: seq<Event>, p: nat, x: nat, handoff: bool, to: nat, again: seq<Event>, me: nat, ch: nat)
    requires again == [] || again == [StartCall(p)]
    ensures Releases(l + CallEvents(p, x, handoff, to) + again, me, ch)
            == Releases(l, me, ch) + (if p == me && x == ch then 1 else 0)
  {
  }

  lemma AgainReleases(l: seq<Event>, p: nat, again: seq<Event>, me: nat, ch: nat)
    requires again == [] || again == [StartCall(p)]
    ensures Releases(l + again, me, ch) == Releases(l, me, ch)
  {
  }

  lemma ArriveEvents(bits: seq<bool>, l: seq<Event>, p: nat, x: nat, handoff: bool, to: nat, again: seq<Event>, me: nat)
    requires (again == [] || again == [StartCall(p)]) && EventsInv(bits, me, l)
    requires p == me ==> x < |bits| && !bits[x]
    ensures EventsInv(if p == me then bits[x := true] else bits, me, l + CallEvents(p, x, handoff, to) + again)
  {
    forall ch: nat
      ensures Releases(l + CallEvents(p, x, handoff, to) + again, me, ch)
              == Bit(if p == me then bits[x := true] else bits, ch)
    {
      CallReleases(l, p, x, handoff, to, again, me, ch);
      assert Releases(l, me, ch) == Bit(bits, ch);
    }
  }

  lemma BlockedEvents(bits: seq<bool>, l: seq<Event>, p: nat, again: seq<Event>, me: nat)
    requires (again == [] || again == [StartCall(p)]) && EventsInv(bits, me, l)
    ensures EventsInv(bits, me, l + again)
  {
    forall ch: nat ensures Releases(l + again, me, ch) == Bit(bits, ch) {
      AgainReleases(l, p, again, me, ch);
      assert Releases(l, me, ch) == Bit(bits, ch);
    }
  }

  ghost predicate InCells(l: seq<Event>, n: nat) {
    forall i | 0 <= i < |l| :: l[i].cell < n
  }

  lemma InCellsConcat(a: seq<Event>, b: seq<Event>, n: nat)
    requires InCells(a, n) && InCells(b, n)
    ensures InCells(a + b, n)
  {
  }

  lemma BlockedInv(w: World, me: nat, again: seq<Event>)
    requires Inv(w) && me < |w.cells| && (again == [] || again == [StartCall(me)])
    ensures Inv(w.(pending := w.pending + again))
  {
    InCellsConcat(w.pending, again, |w.cells|);
    forall p | 0 <= p < |w.cells| ensures EventsInv(w.cells[p].bits, p, w.pending + again) {
      BlockedEvents(w.cells[p].bits, w.pending, me, again, p);
    }
  }

  lemma ServedInv(w: World, me: nat, c: Cell, x: nat, handoff: bool, to: nat, again: seq<Event>)
    requires Inv(w) && me < |w.cells| && to < |w.cells| && (again == [] || again == [StartCall(me)])
    requires CellInv(c) && x < |w.cells[me].bits| && !w.cells[me].bits[x] && c.bits == w.cells[me].bits[x := true]
    ensures Inv(SetCell(w, me, c).(pending := w.pending + CallEvents(me, x, handoff, to) + again))
  {
    var l := w.pending + CallEvents(me, x, handoff, to) + again;
    InCellsConcat(w.pending, CallEvents(me, x, handoff, to), |w.cells|);
    InCellsConcat(w.pending + CallEvents(me, x, handoff, to), again, |w.cells|);
    forall p | 0 <= p < |w.cells| ensures EventsInv(SetCell(w, me, c).cells[p].bits, p, l) {
      ArriveEvents(w.cells[p].bits, w.pending, me, x, handoff, to, again, p);
    }
  }

  lemma ArriveServed(w: World, me: nat, handoff: bool, to: nat, again: seq<Event>)
    requires Inv(w) && me < |w.cells| && to < |w.cells| && (again == [] || again == [StartCall(me)])
    requires w.cells[me].counter != 0
    ensures Inv(Arrive(w, me, handoff, to, again))
  {
    var c := w.cells[me];
    AllocateInv(c);
    var r := Allocate(c.(counter := c.counter - 1));
    ServedInv(w, me, r.cell, r.channel, handoff, to, again);
    assert Arrive(w, me, handoff, to, again)
           == SetCell(w, me, r.cell).(pending := w.pending + CallEvents(me, r.channel, handoff, to) + again);
  }

  lemma ArriveInv(w: World, me: nat, handoff: bool, to: nat, again: seq<Event>)
    requires Inv(w) && me < |w.cells| && to < |w.cells| && (again == [] || again == [StartCall(me)])
    ensures Inv(Arrive(w, me, handoff, to, again))
  {
    if w.cells[me].counter == 0 {
      BlockedInv(w, me, again);
      assert Arrive(w, me, handoff, to, again) == w.(pending := w.pending + again);
    } else {
      ArriveServed(w, me, handoff, to, again);
    }
  }

  /** The event that will release a channel finds it busy. */
  lemma ReleaseIsBusy(w: World, i: nat)
    requires Inv(w) && i < |w.pending| && (w.pending[i].EndCall? || w.pending[i].HandoffLeave?)
    ensures var e := w.pending[i]; e.channel < |w.cells[e.cell].bits| && w.cells[e.cell].bits[e.channel]
  {
    var e := w.pending[i];
    assert e in multiset(w.pending);
    assert Releases(w.pending, e.cell, e.channel) > 0;
    assert EventsInv(w.cells[e.cell].bits, e.cell, w.pending);
  }

  /** Taking event i out: the channel it releases becomes free, and no other changes. */
  lemma RestEvents(bits: seq<bool>, l: seq<Event>, i: nat, me: nat)
    requires i < |l| && EventsInv(bits, me, l)
    ensures var e := l[i];
            EventsInv(if (e.EndCall? || e.HandoffLeave?) && e.cell == me && e.channel < |bits|
                      then bits[e.channel := false] else bits, me, Without(l, i))
  {
    var e := l[i];
    var bits' := if (e.EndCall? || e.HandoffLeave?) && e.cell == me && e.channel < |bits|
                 then bits[e.channel := false] else bits;
    forall ch: nat ensures Releases(Without(l, i), me, ch) == Bit(bits', ch) {
      RestReleases(l, i, me, ch);
      assert Releases(l, me, ch) == Bit(bits, ch);
    }
  }

  lemma ReleaseInv(w: World, i: nat)
    requires Inv(w) && i < |w.pending| && (w.pending[i].EndCall? || w.pending[i].HandoffLeave?)
    ensures Inv(Release(w.(pending := Without(w.pending, i)), w.pending[i].cell, w.pending[i].channel))
  {
    var e := w.pending[i];
    ReleaseIsBusy(w, i);
    DeallocateInv(w.cells[e.cell], e.channel);
    var w' := Release(w.(pending := Without(w.pending, i)), e.cell, e.channel);
    forall p | 0 <= p < |w.cells| ensures EventsInv(w'.cells[p].bits, p, w'.pending) {
      RestEvents(w.cells[p].bits, w.pending, i, p);
    }
  }

  lemma TakenOutInv(w: World, i: nat)
    requires Inv(w) && i < |w.pending| && (w.pending[i].StartCall? || w.pending[i].HandoffIn?)
    ensures Inv(w.(pending := Without(w.pending, i)))
  {
    forall p | 0 <= p < |w.cells| ensures EventsInv(w.cells[p].bits, p, Without(w.pending, i)) {
      RestEvents(w.cells[p].bits, w.pending, i, p);
    }
  }

  lemma StepInv(w: World, i: nat, handoff: bool, to: nat)
    requires Inv(w) && i < |w.pending| && to < |w.cells|
    ensures Inv(Process(w, i, handoff, to))
  {
    match w.pending[i]
    case StartCall(me) =>
      TakenOutInv(w, i);
      ArriveInv(w.(pending := Without(w.pending, i)), me, handoff, to, [StartCall(me)]);
    case HandoffIn(me) =>
      TakenOutInv(w, i);
      ArriveInv(w.(pending := Without(w.pending, i)), me, handoff, to, []);
    case EndCall(_, _) => ReleaseInv(w, i);
    case HandoffLeave(_, _) => ReleaseInv(w, i);
  }

  // ---- every run ----

  /** After INIT: all channels free, and only new calls pending. */
  ghost predicate Start(w: World) {
    && !w.aborted
    && (forall me | 0 <= me < |w.cells| ::
          w.cells[me].busy == [] && w.cells[me].counter == |w.cells[me].bits|
          && forall ch | 0 <= ch < |w.cells[me].bits| :: !w.cells[me].bits[ch])
    && forall i | 0 <= i < |w.pending| :: w.pending[i].StartCall? && w.pending[i].cell < |w.cells|
  }

  lemma StartInv(w: World)
    requires Start(w)
    ensures Inv(w)
  {
    forall me | 0 <= me < |w.cells| ensures CellInv(w.cells[me]) && EventsInv(w.cells[me].bits, me, w.pending) {
      FreeZero(w.cells[me].bits);
      forall ch: nat ensures Releases(w.pending, me, ch) == 0 {
        assert EndCall(me, ch) !in w.pending && HandoffLeave(me, ch) !in w.pending;
      }
    }
  }

  lemma {:induction false} RunInv(w: World, steps: seq<(nat, bool, nat)>)
    requires Inv(w)
    ensures Inv(Run(w, steps))
    decreases |steps|
  {
    if steps != [] {
      var (i, handoff, to) := steps[0];
      if i < |w.pending| && w.pending[i].cell < |w.cells| && to < |w.cells| {
        StepInv(w, i, handoff, to);
        RunInv(Process(w, i, handoff, to), steps[1..]);
      } else {
        RunInv(w, steps[1..]);
      }
    }
  }

  /** Neither abort is ever reached, in any order of events. */
  lemma NeverAborts(w: World, steps: seq<(nat, bool, nat)>)
    requires Start(w)
    ensures !Run(w, steps).aborted
  {
    StartInv(w);
    RunInv(w, steps);
  }

  /** In every run a channel is busy in the bitmap exactly if it is in the list, once, and exactly if one
      pending event will release it; the counter counts the others. */
  lemma ChannelsAgree(w: World, steps: seq<(nat, bool, nat)>, me: nat, ch: nat)
    requires Start(w)
    ensures var w' := Run(w, steps);
            me < |w'.cells| && ch < |w'.cells[me].bits| ==>
              var c := w'.cells[me];
              && c.counter == |c.bits| - |c.busy|
              && (c.bits[ch] <==> ch in c.busy)
              && (c.bits[ch] ==> multiset(c.busy)[ch] == 1 && Releases(w'.pending, me, ch) == 1)
              && (!c.bits[ch] ==> Releases(w'.pending, me, ch) == 0)
  {
    StartInv(w);
    RunInv(w, steps);
    var w' := Run(w, steps);
    if me < |w'.cells| && ch < |w'.cells[me].bits| {
      assert CellInv(w'.cells[me]) && EventsInv(w'.cells[me].bits, me, w'.pending);
      assert InList(w'.cells[me].busy, ch) == Bit(w'.cells[me].bits, ch);
      assert Releases(w'.pending, me, ch) == Bit(w'.cells[me].bits, ch);
      assert ch in w'.cells[me].busy <==> multiset(w'.cells[me].busy)[ch] > 0;
    }
  }

  // ---- the way of the calls ----

  function Pending(l: seq<Event>, e: Event): nat {
    multiset(l)[e]
  }

  /** The call of pending event i gets a channel and is to be handed over to cell c. */
  predicate HandsOver(w: World, i: nat, handoff: bool, to: nat, c: nat)
    requires i < |w.pending| && w.pending[i].cell < |w.cells|
  {
    (w.pending[i].StartCall? || w.pending[i].HandoffIn?) && w.cells[w.pending[i].cell].counter != 0 && handoff && to == c
  }

  /** How many calls are handed over to cell c in the run, and how many arrive there. */
  function HandedOver(w: World, steps: seq<(nat, bool, nat)>, c: nat): nat
    decreases |steps|
  {
    if steps == [] then 0
    else
      var (i, handoff, to) := steps[0];
      if i < |w.pending| && w.pending[i].cell < |w.cells| && to < |w.cells|
      then (if HandsOver(w, i, handoff, to, c) then 1 else 0) + HandedOver(Process(w, i, handoff, to), steps[1..], c)
      else HandedOver(w, steps[1..], c)
  }

  function Arrived(w: World, steps: seq<(nat, bool, nat)>, c: nat): nat
    decreases |steps|
  {
    if steps == [] then 0
    else
      var (i, handoff, to) := steps[0];
      if i < |w.pending| && w.pending[i].cell < |w.cells| && to < |w.cells|
      then (if w.pending[i] == HandoffIn(c) then 1 else 0) + Arrived(Process(w, i, handoff, to), steps[1..], c)
      else Arrived(w, steps[1..], c)
  }

  lemma CallMoves(l: seq<Event>, me: nat, ch: nat, handoff: bool, to: nat, again: seq<Event>, c: nat)
    requires again == [] || again == [StartCall(me)]
    ensures Pending(l + CallEvents(me, ch, handoff, to) + again, HandoffIn(c))
            == Pending(l, HandoffIn(c)) + (if handoff && to == c then 1 else 0)
    ensures Pending(l + CallEvents(me, ch, handoff, to) + again, StartCall(c))
            == Pending(l, StartCall(c)) + Pending(again, StartCall(c))
  {
  }

  lemma ArriveMoves(w: World, me: nat, handoff: bool, to: nat, again: seq<Event>, c: nat)
    requires Inv(w) && me < |w.cells| && (again == [] || again == [StartCall(me)])
    ensures var w' := Arrive(w, me, handoff, to, again);
            && Pending(w'.pending, HandoffIn(c))
               == Pending(w.pending, HandoffIn(c)) + (if w.cells[me].counter != 0 && handoff && to == c then 1 else 0)
            && Pending(w'.pending, StartCall(c)) == Pending(w.pending, StartCall(c)) + Pending(again, StartCall(c))
  {
    if w.cells[me].counter != 0 {
      AllocateInv(w.cells[me]);
      var ch := Allocate(w.cells[me].(counter := w.cells[me].counter - 1)).channel;
      CallMoves(w.pending, me, ch, handoff, to, again, c);
    }
  }

  lemma StepMoves(w: World, i: nat, handoff: bool, to: nat, c: nat)
    requires Inv(w) && i < |w.pending| && to < |w.cells|
    ensures Pending(Process(w, i, handoff, to).pending, HandoffIn(c)) + (if w.pending[i] == HandoffIn(c) then 1 else 0)
            == Pending(w.pending, HandoffIn(c)) + (if HandsOver(w, i, handoff, to, c) then 1 else 0)
    ensures Pending(Process(w, i, handoff, to).pending, StartCall(c)) == Pending(w.pending, StartCall(c))
  {
    WithoutContents(w.pending, i);
    var w' := w.(pending := Without(w.pending, i));
    match w.pending[i]
    case StartCall(me) =>
      TakenOutInv(w, i);
      ArriveMoves(w', me, handoff, to, [StartCall(me)], c);
    case HandoffIn(me) =>
      TakenOutInv(w, i);
      ArriveMoves(w', me, handoff, to, [], c);
    case EndCall(_, _) =>
    case HandoffLeave(_, _) =>
  }

  lemma {:induction false} RunMoves(w: World, steps: seq<(nat, bool, nat)>, c: nat)
    requires Inv(w)
    ensures Pending(Run(w, steps).pending, HandoffIn(c)) + Arrived(w, steps, c)
            == Pending(w.pending, HandoffIn(c)) + HandedOver(w, steps, c)
    ensures Pending(Run(w, steps).pending, StartCall(c)) == Pending(w.pending, StartCall(c))
    decreases |steps|
  {
    if steps != [] {
      var (i, handoff, to) := steps[0];
      if i < |w.pending| && w.pending[i].cell < |w.cells| && to < |w.cells| {
        StepMoves(w, i, handoff, to, c);
        StepInv(w, i, handoff, to);
        RunMoves(Process(w, i, handoff, to), steps[1..], c);
      } else {
        RunMoves(w, steps[1..], c);
      }
    }
  }

  /** Every call handed over to a cell arrives there, once: over every run, the handoffs that have arrived
      at cell c and those still pending are those that some cell has begun towards c.  And each cell always
      has as many new calls to come as at the start. */
  lemma HandoffsArrive(w: World, steps: seq<(nat, bool, nat)>, c: nat)
    requires Start(w)
    ensures Pending(Run(w, steps).pending, HandoffIn(c)) + Arrived(w, steps, c) == HandedOver(w, steps, c)
    ensures Pending(Run(w, steps).pending, StartCall(c)) == Pending(w.pending, StartCall(c))
  {
    StartInv(w);
    RunMoves(w, steps, c);
    assert HandoffIn(c) !in w.pending;
  }
}
