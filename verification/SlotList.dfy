/** The doubly linked lists of queue/queue.c on the heap: the slots and retractable queues with their two
    sentinels, and the fallback lists that end in NULL.  Each operation relinks nodes in place; what it
    does to the sequence of events is stated with the functions of module Rollback. */
module SlotList {
  import opened Rollback

  class Node {
    const event: Event
    var next: Node?
    var prev: Node?

    constructor (event: Event)
      ensures this.event == event && next == null && prev == null
    {
      this.event := event;
      next, prev := null, null;
    }
  }

  function AppendIf(l: seq<Node>, n: Node, b: bool): seq<Node> {
    if b then l + [n] else l
  }

  function Events(l: seq<Node>): (r: seq<Event>)
    ensures |r| == |l|
  {
    seq(|l|, i requires 0 <= i < |l| => l[i].event)
  }

  ghost predicate Distinct(l: seq<Node>) {
    forall i, k | 0 <= i < k < |l| :: l[i] != l[k]
  }

  ghost predicate Linked(l: seq<Node>)
    reads l
  {
    forall i | 0 <= i < |l| - 1 :: l[i].next == l[i + 1] && l[i + 1].prev == l[i]
  }

  lemma EventsConcat(a: seq<Node>, b: seq<Node>)
    ensures Events(a + b) == Events(a) + Events(b)
  {
  }

  /** Links n in front of l[k], as at the end of every insertion. */
  method LinkBefore(n: Node, current: Node, ghost l: seq<Node>, ghost k: nat)
    requires 0 < k < |l| && l[k] == current && Linked(l) && Distinct(l) && n !in l
    modifies n, current, l[k - 1]
    ensures Linked(l[..k] + [n] + l[k..]) && Distinct(l[..k] + [n] + l[k..])
    ensures l[0].prev == old(l[0].prev) && l[|l| - 1].next == old(l[|l| - 1].next)
  {
    assert l[k - 1].next == l[k] && l[k].prev == l[k - 1];
    n.next := current;
    n.prev := current.prev;
    current.prev.next := n;
    current.prev := n;
  }

  /** Unlinks l[k]; its own links stay as they were. */
  method Unlink(n: Node, ghost l: seq<Node>, ghost k: nat)
    requires 0 < k < |l| - 1 && l[k] == n && Linked(l) && Distinct(l)
    modifies l[k - 1], l[k + 1]
    ensures Linked(l[..k] + l[k + 1..]) && Distinct(l[..k] + l[k + 1..])
  {
    assert l[k - 1].next == l[k] && l[k].next == l[k + 1] && l[k].prev == l[k - 1];
    n.prev.next := n.next;
    n.next.prev := n.prev;
  }

  /** The nodes between the two sentinels. */
  ghost function Inner(spine: seq<Node>): seq<Node>
    requires |spine| >= 2
  {
    spine[1..|spine| - 1]
  }

  lemma RemovedInner(spine: seq<Node>, k: nat)
    requires 0 < k < |spine| - 1
    ensures Events(Inner(spine[..k] + spine[k + 1..])) == Events(Inner(spine))[..k - 1] + Events(Inner(spine))[k..]
  {
    var rest := spine[..k] + spine[k + 1..];
    var l := Inner(spine);
    assert |Inner(rest)| == |spine| - 3;
    forall i | 0 <= i < |spine| - 3 ensures Inner(rest)[i] == (l[..k - 1] + l[k..])[i] {
      assert Inner(rest)[i] == rest[i + 1];
    }
    assert Inner(rest) == l[..k - 1] + l[k..];
    EventsConcat(l[..k - 1], l[k..]);
    assert Events(l)[..k - 1] == Events(l[..k - 1]) && Events(l)[k..] == Events(l[k..]);
  }

  lemma InsertedInner(spine: seq<Node>, k: nat, n: Node)
    requires 1 <= k < |spine|
    requires (forall i | 1 <= i < k :: spine[i].event.ts <= n.event.ts) && (k < |spine| - 1 ==> spine[k].event.ts > n.event.ts)
    ensures Events(Inner(spine[..k] + [n] + spine[k..])) == Insert(Events(Inner(spine)), n.event)
  {
    var l, i := Inner(spine), k - 1;
    assert l[..i] == spine[1..k];
    assert Events(l)[..i] == Events(l[..i]);
    InsertAt(Events(l), n.event, i);
    assert Inner(spine[..k] + [n] + spine[k..]) == l[..i] + [n] + l[i..];
    assert Events(l[..i] + [n] + l[i..]) == Events(l)[..i] + [n.event] + Events(l)[i..];
  }

  class Slot {
    const head: Node
    const tail: Node
    ghost var spine: seq<Node>  // head, the queued nodes in order, tail

    ghost predicate Valid()
      reads this, spine
    {
      && |spine| >= 2 && spine[0] == head && spine[|spine| - 1] == tail && Linked(spine) && Distinct(spine)
    }

    ghost function View(): seq<Event>
      reads this
      requires |spine| >= 2
    {
      Events(Inner(spine))
    }

    /** `queue_init` for one slot. */
    constructor ()
      ensures Valid() && View() == [] && fresh(spine)
    {
      var h := new Node(Event(-1, 0, Outside));
      var t := new Node(Event(-1, 0, Outside));
      head, tail, spine := h, t, [h, t];
      new;
      head.next, tail.prev := tail, head;
    }

    /** The scan and link of `queue_insert` and its variants. */
    method Insert(n: Node)
      requires Valid() && n !in spine
      modifies this`spine, spine, n
      ensures Valid() && forall m :: m in spine <==> m in old(spine) || m == n
      ensures View() == Rollback.Insert(old(View()), n.event)
    {
      ghost var k := 1;
      assert spine[0].next == spine[1];
      var current := head.next;
      while current != tail && current.event.ts <= n.event.ts
        invariant 1 <= k < |spine| && current == spine[k]
        invariant forall i | 1 <= i < k :: spine[i].event.ts <= n.event.ts
        decreases |spine| - k
      {
        assert spine[k].next == spine[k + 1];
        current := current.next;
        k := k + 1;
      }
      InsertedInner(spine, k, n);
      LinkBefore(n, current, spine, k);
      spine := spine[..k] + [n] + spine[k..];
    }

    /** The removal of the first event by `queue_extract`; null if the slot is empty. */
    method ExtractHead() returns (n: Node?)
      requires Valid()
      modifies this`spine, spine
      ensures Valid()
      ensures if old(|spine|) == 2 then n == null && spine == old(spine)
              else n == old(spine[1]) && spine == [head] + old(spine[2..]) && View() == old(View())[1..]
    {
      assert spine[0].next == spine[1];
      if head.next == tail {
        assert |spine| == 2;
        return null;
      }
      var m := head.next;
      Unlink(m, spine, 1);
      m.next, m.prev := null, null;
      ghost var rest := spine[..1] + spine[2..];
      assert Inner(rest) == Inner(spine)[1..];
      spine := rest;
      n := m;
    }

    /** `retractable_queue_insert_locked`: behind the last event. */
    method Append(n: Node)
      requires Valid() && n !in spine
      modifies this`spine, spine, n
      ensures Valid() && spine == old(spine[..|spine| - 1]) + [n, tail]
      ensures View() == old(View()) + [n.event]
    {
      ghost var k := |spine| - 1;
      LinkBefore(n, tail, spine, k);
      ghost var spine' := spine[..k] + [n] + spine[k..];
      assert Inner(spine') == Inner(spine) + [n];
      spine := spine';
    }

    /** The unlinking in `queue_elem_annihilation`: the node alone leads to its neighbours. */
    method Remove(n: Node, ghost k: nat)
      requires Valid() && 0 < k < |spine| - 1 && spine[k] == n
      modifies this`spine, spine
      ensures Valid() && spine == old(spine[..k] + spine[k + 1..])
      ensures View() == old(View())[..k - 1] + old(View())[k..]
    {
      RemovedInner(spine, k);
      Unlink(n, spine, k);
      spine := spine[..k] + spine[k + 1..];
    }
  }

  ghost predicate Apart(a: seq<Node>, b: seq<Node>) {
    forall i, k | 0 <= i < |a| && 0 <= k < |b| :: a[i] != b[k]
  }

  ghost predicate From(l: seq<Node>, a: seq<Node>, b: seq<Node>) {
    forall i | 0 <= i < |l| :: l[i] in a || l[i] in b
  }

  /** The first node of one list is inserted into the other. */
  method MoveOne(from: Slot, to: Slot)
    requires from.Valid() && to.Valid() && from != to && Apart(from.spine, to.spine) && |from.spine| > 2
    modifies from`spine, to`spine, from.spine, to.spine
    ensures from.Valid() && to.Valid() && Apart(from.spine, to.spine)
    ensures from.View() == old(from.View())[1..] && |from.spine| < old(|from.spine|)
    ensures to.View() == Insert(old(to.View()), old(from.View())[0])
    ensures From(from.spine, old(from.spine), []) && From(to.spine, old(to.spine), old(from.spine))
  {
    var n := from.ExtractHead();
    ghost var rest, before := from.spine, to.spine;
    to.Insert(n);
    StillApart(old(from.spine), rest, before, to.spine, n);
  }

  lemma StillApart(a: seq<Node>, rest: seq<Node>, b: seq<Node>, b': seq<Node>, n: Node)
    requires Apart(a, b) && Distinct(a) && |a| > 2 && n == a[1] && rest == [a[0]] + a[2..]
    requires forall m :: m in b' <==> m in b || m == n
    ensures Apart(rest, b')
  {
    forall i, k | 0 <= i < |rest| && 0 <= k < |b'| ensures rest[i] != b'[k] {
      assert b'[k] in b';
      assert rest[i] == a[if i == 0 then 0 else i + 1];
    }
  }

  /** `restore_retractable_events`: every processed event goes back into the slot. */
  method RestoreRetractable(retractable: Slot, slot: Slot)
    requires retractable.Valid() && slot.Valid() && retractable != slot && Apart(retractable.spine, slot.spine)
    modifies retractable`spine, slot`spine, retractable.spine, slot.spine
    ensures retractable.Valid() && slot.Valid() && retractable.View() == []
    ensures slot.View() == Requeue(old(slot.View()), old(retractable.View()))
  {
    while retractable.head.next != retractable.tail
      invariant retractable.Valid() && slot.Valid() && Apart(retractable.spine, slot.spine)
      invariant From(retractable.spine, old(retractable.spine), old(slot.spine))
      invariant From(slot.spine, old(retractable.spine), old(slot.spine))
      invariant Requeue(slot.View(), retractable.View()) == Requeue(old(slot.View()), old(retractable.View()))
      decreases |retractable.spine|
    {
      assert retractable.spine[0].next == retractable.spine[1];
      MoveOne(retractable, slot);
    }
    assert retractable.spine[0].next == retractable.spine[1];
  }

  // ---- fallback lists ----

  /** The events at or after time t. */
  function Beyond(l: seq<Event>, t: int): seq<Event> {
    if l == [] then [] else (if l[0].ts < t then [] else [l[0]]) + Beyond(l[1..], t)
  }

  /** The window's end divides a list: nothing is lost. */
  lemma {:induction false} DividedByLimit(l: seq<Event>, t: int)
    ensures multiset(Below(l, t)) + multiset(Beyond(l, t)) == multiset(l)
  {
    if l != [] {
      DividedByLimit(l[1..], t);
      assert l == [l[0]] + l[1..];
    }
  }

  /** What has moved and what is kept, with the rest of the list still to be divided. */
  ghost predicate Dividing(all: seq<Event>, moved: seq<Node>, kept: seq<Node>, rest: seq<Node>, t: int) {
    && Below(all, t) == Events(moved) + Below(Events(rest), t)
    && Beyond(all, t) == Events(kept) + Beyond(Events(rest), t)
  }

  lemma DivideNext(all: seq<Event>, moved: seq<Node>, kept: seq<Node>, rest: seq<Node>, t: int)
    requires rest != [] && Dividing(all, moved, kept, rest, t)
    ensures var n := rest[0];
            var leaves := n.event.ts < t;
            Dividing(all, AppendIf(moved, n, leaves), AppendIf(kept, n, !leaves), rest[1..], t)
  {
    var n := rest[0];
    assert Events(rest)[0] == n.event && Events(rest)[1..] == Events(rest[1..]);
    EventsConcat(moved, [n]);
    EventsConcat(kept, [n]);
    assert Events([n]) == [n.event];
  }

  lemma DivideStart(l: seq<Node>, t: int)
    ensures Dividing(Events(l), [], [], l, t)
  {
    assert Events([]) == [];
  }

  lemma DivideEnd(all: seq<Event>, moved: seq<Node>, kept: seq<Node>, t: int)
    requires Dividing(all, moved, kept, [], t)
    ensures Events(moved) == Below(all, t) && Events(kept) == Beyond(all, t)
  {
    assert Events([]) == [];
  }

  lemma KeptAndRest(kept: seq<Node>, rest: seq<Node>)
    requires rest != []
    ensures var l, k := kept + rest, |kept|;
            l[k] == rest[0] && l[..k] + l[k + 1..] == kept + rest[1..] && l == kept + [rest[0]] + rest[1..]
    ensures |rest| > 1 ==> (kept + rest)[|kept| + 1] == rest[1]
  {
  }

  class FallbackList {
    var head: Node?
    var tail: Node?
    ghost var spine: seq<Node>

    ghost predicate Valid()
      reads this, spine
    {
      && Linked(spine) && Distinct(spine)
      && if spine == [] then head == null && tail == null
         else head == spine[0] && tail == spine[|spine| - 1] && head.prev == null && tail.next == null
    }

    constructor ()
      ensures Valid() && spine == []
    {
      head, tail, spine := null, null, [];
    }

    /** The tail insertion of `queue_insert`. */
    method Append(n: Node)
      requires Valid() && n !in spine
      modifies this, spine, n
      ensures Valid() && spine == old(spine) + [n]
    {
      n.next := null;
      if head == null {
        n.prev := null;
        head := n;
        tail := n;
      } else {
        n.prev := tail;
        tail.next := n;
        tail := n;
      }
      spine := spine + [n];
    }

    /** The unlinking in the loop of `fallback_check`. */
    method Drop(current: Node, ghost k: nat)
      requires Valid() && k < |spine| && current == spine[k]
      modifies this, spine
      ensures Valid() && spine == old(spine[..k] + spine[k + 1..])
    {
      assert k > 0 ==> spine[k - 1].next == spine[k] && spine[k].prev == spine[k - 1];
      assert k + 1 < |spine| ==> spine[k].next == spine[k + 1];
      if current.prev != null {
        current.prev.next := current.next;
      } else {
        head := current.next;
      }
      if current.next != null {
        current.next.prev := current.prev;
      } else {
        tail := current.prev;
      }
      spine := spine[..k] + spine[k + 1..];
    }

    /** The state of the loop of `fallback_check`: the kept nodes and the rest make up the list. */
    ghost predicate Reached(current: Node?, kept: seq<Node>, rest: seq<Node>)
      reads this, spine
    {
      Valid() && spine == kept + rest && current == if rest == [] then null else rest[0]
    }

    /** One turn of that loop: the event leaves the list if it is before the end of the window. */
    method CheckOne(current: Node, ghost kept: seq<Node>, ghost rest: seq<Node>, limit: int) returns (leaves: bool, next: Node?)
      requires rest != [] && Reached(current, kept, rest)
      modifies this, spine
      ensures leaves <==> current.event.ts < limit
      ensures Reached(next, AppendIf(kept, current, !leaves), rest[1..]) && From(spine, old(spine), [])
    {
      KeptAndRest(kept, rest);
      next := current.next;
      assert |kept| + 1 < |spine| ==> spine[|kept|].next == spine[|kept| + 1];
      leaves := current.event.ts < limit;
      if leaves {
        Drop(current, |kept|);
      }
    }

    /** That turn, with the node added to what has moved or to what is kept. */
    method Turn(current: Node, moved: seq<Node>, ghost kept: seq<Node>, ghost rest: seq<Node>, limit: int,
                ghost all: seq<Event>, ghost nodes: seq<Node>)
      returns (next: Node?, moved': seq<Node>, ghost kept': seq<Node>, ghost rest': seq<Node>)
      requires rest != [] && Reached(current, kept, rest) && Dividing(all, moved, kept, rest, limit)
      requires From(spine, nodes, [])
      modifies this, nodes
      ensures Reached(next, kept', rest') && From(spine, nodes, [])
      ensures Dividing(all, moved', kept', rest', limit) && |rest'| < |rest|
    {
      var leaves;
      leaves, next := CheckOne(current, kept, rest, limit);
      DivideNext(all, moved, kept, rest, limit);
      moved', kept', rest' := AppendIf(moved, current, leaves), AppendIf(kept, current, !leaves), rest[1..];
    }

    /** `fallback_check`: the events before the end of the window leave the list, in its order; the
        others stay, in their order. */
    method Check(limit: int) returns (moved: seq<Node>)
      requires Valid()
      modifies this, spine
      ensures Valid()
      ensures Events(moved) == Below(old(Events(spine)), limit)
      ensures Events(spine) == Beyond(old(Events(spine)), limit)
    {
      ghost var all := Events(spine);
      ghost var kept: seq<Node>;
      moved, kept := Divide(limit);
      DivideEnd(all, moved, kept, limit);
    }

    method Divide(limit: int) returns (moved: seq<Node>, ghost kept: seq<Node>)
      requires Valid()
      modifies this, spine
      ensures Valid() && spine == kept
      ensures Dividing(old(Events(spine)), moved, kept, [], limit)
    {
      moved, kept := [], [];
      ghost var all, rest, nodes := Events(spine), spine, spine;
      DivideStart(spine, limit);
      var current := head;
      while current != null
        invariant Reached(current, kept, rest) && From(spine, nodes, [])
        invariant Dividing(all, moved, kept, rest, limit)
        decreases |rest|
      {
        current, moved, kept, rest := Turn(current, moved, kept, rest, limit, all, nodes);
      }
    }
  }
}
