/** The list of pages touched in the current epoch, shared by the page-versioning backends of
    MVM_MMAP_MULTIVERSIONING/patches/patches.c. */
module TouchedPages {

  const NEVER := -1  // UINT64_MAX in the source

  class TouchedList {
    const lastTouched: array<int>  // by page: the last epoch in which it was touched
    const list: array<nat>
    var count: nat
    var ts: int                    // the epoch the list belongs to
    ghost var position: seq<nat>   // by page: its place in the list

    ghost predicate Shape() reads this {
      |position| == lastTouched.Length == list.Length
    }

    /** At epoch `now`, every page touched in it is listed, once. */
    ghost predicate Valid(now: nat) reads this, lastTouched, list {
      && Shape()
      && count <= list.Length && ts <= now
      && (forall k | 0 <= k < count :: list[k] < list.Length && position[list[k]] == k)
      && (ts == now ==> forall k | 0 <= k < count :: lastTouched[list[k]] == now)
      && (forall p | 0 <= p < lastTouched.Length :: lastTouched[p] <= now)
      && (forall p | 0 <= p < lastTouched.Length :: lastTouched[p] == now ==>
            ts == now && position[p] < count && list[position[p]] == p)
    }

    constructor (pages: nat)
      ensures Valid(0) && fresh(lastTouched) && fresh(list)
      ensures list.Length == pages && ts == NEVER
      ensures forall p | 0 <= p < pages :: lastTouched[p] == NEVER
    {
      lastTouched, list := new int[pages](_ => NEVER), new nat[pages];
      count, ts, position := 0, NEVER, seq(pages, _ => 0);
    }

    /** `mvmm_store_rotate_touched` and `mvmm_store_note_page_touch`. */
    method Note(p: nat, now: nat)
      requires Valid(now) && p < list.Length
      modifies this, lastTouched, list
      ensures Valid(now) && ts == now && lastTouched[p] == now
      ensures forall q | 0 <= q < lastTouched.Length && q != p :: lastTouched[q] == old(lastTouched[q])
    {
      if ts != now {
        count, ts := 0, now;
      }
      if lastTouched[p] != now {
        RoomForOneMore(list[..count], position, list.Length, p);
        lastTouched[p] := now;
        list[count] := p;
        position := position[p := count];
        count := count + 1;
      }
    }
  }

  /** Distinct page numbers that leave out one page do not fill the list. */
  lemma RoomForOneMore(list: seq<nat>, position: seq<nat>, n: nat, p: nat)
    requires |position| == n && p < n
    requires forall k | 0 <= k < |list| :: list[k] < n && list[k] != p && position[list[k]] == k
    ensures |list| < n
  {
    DistinctBelow(list + [p], n);
  }

  lemma {:induction false} DistinctBelow(list: seq<nat>, n: nat)
    requires forall k | 0 <= k < |list| :: list[k] < n
    requires forall k, m | 0 <= k < m < |list| :: list[k] != list[m]
    ensures |list| <= n
  {
    if list != [] {
      assert list[0] < n;
      if i :| 0 <= i < |list| && list[i] == n - 1 {
        DistinctBelow(list[..i] + list[i + 1..], n - 1);
      } else {
        DistinctBelow(list, n - 1);
      }
    }
  }
}
