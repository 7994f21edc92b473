/** The default backend of MVM_MMAP_MULTIVERSIONING/patches/patches.c: every page has two slots,
    and the first store to a page in an epoch opens the other slot with a copy. */
module TwoSlotPages {
  import opened CheckpointMemory
  import opened TouchedPages

  /** The byte-by-byte copy of `mmap_mv_memcpy`: each byte is read after the earlier ones are written. */
  ghost function ForwardCopy(s: seq<byte>, dst: nat, src: nat, n: nat): (r: seq<byte>)
    requires dst + n <= |s| && src + n <= |s|
    ensures |r| == |s|
  {
    if n == 0 then s
    else
      var t := ForwardCopy(s, dst, src, n - 1);
      t[dst + n - 1 := t[src + n - 1]]
  }

  /** It moves the original source bytes whenever the destination does not start inside the source
      behind its first byte. */
  lemma {:induction false} ForwardCopyMoves(s: seq<byte>, dst: nat, src: nat, n: nat)
    requires dst + n <= |s| && src + n <= |s|
    requires dst <= src || src + n <= dst
    ensures ForwardCopy(s, dst, src, n) == Splice(s, dst, s[src..src + n])
  {
    if n > 0 {
      ForwardCopyMoves(s, dst, src, n - 1);
      assert s[src..src + n] == s[src..src + (n - 1)] + [s[src + n - 1]];
    }
  }

  /** `mvmm_page_state`, with the slots themselves kept in two buffers. */
  datatype PageState = PageState(lastSeen: int, slot1Published: bool, ts0: int, ts1: int, hasSlot1: bool) {
    function CurTs(): int { if slot1Published then ts1 else ts0 }
    function OtherTs(): int { if slot1Published then ts0 else ts1 }
  }

  /** Page state in epoch `now`: `versioned` pages had a dated slot when the epoch began; an opened
      page has been stored to since, and not rolled back. */
  ghost predicate PageInv(ps: PageState, versioned: bool, touchedNow: bool, now: nat) {
    && ps.lastSeen <= now && ps.OtherTs() < now
    && (ps.slot1Published ==> ps.hasSlot1)
    && if ps.lastSeen == now then
         ps.CurTs() == now && touchedNow && ps.hasSlot1 && versioned == (ps.OtherTs() != NEVER)
       else
         && ps.CurTs() < now && versioned == (ps.CurTs() != NEVER)
         && (touchedNow ==> ps.CurTs() != NEVER && ps.OtherTs() == NEVER)
  }

  /** The bytes the program sees. */
  ghost function Published(s0: seq<byte>, s1: seq<byte>, states: seq<PageState>, page: seq<nat>): (s: seq<byte>)
    requires |s0| == |s1| == |page| && forall j | 0 <= j < |page| :: page[j] < |states|
    ensures |s| == |s0|
    ensures forall j | 0 <= j < |s| :: s[j] == if states[page[j]].slot1Published then s1[j] else s0[j]
  {
    seq(|s0|, j requires 0 <= j < |s0| => if states[page[j]].slot1Published then s1[j] else s0[j])
  }

  /** The bytes at the start of epoch `now`: in the other slot of an opened page, published otherwise. */
  ghost predicate EpochStart(saved: seq<byte>, s0: seq<byte>, s1: seq<byte>, states: seq<PageState>, page: seq<nat>, now: nat)
    requires |s0| == |s1| == |page| == |saved| && forall j | 0 <= j < |page| :: page[j] < |states|
  {
    forall j | 0 <= j < |saved| ::
      saved[j] == if states[page[j]].slot1Published == (states[page[j]].lastSeen == now) then s0[j] else s1[j]
  }

  /** What the write changes in the two slots. */
  ghost predicate Overwrites(s0: seq<byte>, s1: seq<byte>, s0': seq<byte>, s1': seq<byte>, second: bool, at: nat, data: seq<byte>)
    requires |s0| == |s1| && at + |data| <= |s0|
  {
    && s0' == (if second then s0 else Splice(s0, at, data))
    && s1' == (if second then Splice(s1, at, data) else s1)
  }

  lemma OverwrittenByte(s0: seq<byte>, s1: seq<byte>, s0': seq<byte>, s1': seq<byte>, second: bool, at: nat, data: seq<byte>, j: nat)
    requires |s0| == |s1| && at + |data| <= |s0| && Overwrites(s0, s1, s0', s1', second, at, data) && j < |s0|
    ensures s0'[j] == if !second && at <= j < at + |data| then data[j - at] else s0[j]
    ensures s1'[j] == if second && at <= j < at + |data| then data[j - at] else s1[j]
  {
  }

  /** The slot that is not published keeps the bytes of the epoch's start. */
  lemma StartKept(saved: seq<byte>, s0: seq<byte>, s1: seq<byte>, s0': seq<byte>, s1': seq<byte>,
                  states: seq<PageState>, page: seq<nat>, now: nat, p: nat, at: nat, data: seq<byte>)
    requires |s0| == |s1| == |page| == |saved| && forall j | 0 <= j < |page| :: page[j] < |states|
    requires at + |data| <= |page| && p < |states| && states[p].lastSeen == now
    requires forall j | at <= j < at + |data| :: page[j] == p
    requires Overwrites(s0, s1, s0', s1', states[p].slot1Published, at, data)
    requires EpochStart(saved, s0, s1, states, page, now)
    ensures EpochStart(saved, s0', s1', states, page, now)
  {
    forall j | 0 <= j < |saved|
      ensures saved[j] == if states[page[j]].slot1Published == (states[page[j]].lastSeen == now) then s0'[j] else s1'[j]
    {
      OverwrittenByte(s0, s1, s0', s1', states[p].slot1Published, at, data, j);
    }
  }

  lemma WriteShows(s0: seq<byte>, s1: seq<byte>, s0': seq<byte>, s1': seq<byte>,
                   states: seq<PageState>, page: seq<nat>, p: nat, at: nat, data: seq<byte>)
    requires |s0| == |s1| == |page| && forall j | 0 <= j < |page| :: page[j] < |states|
    requires at + |data| <= |page| && p < |states|
    requires forall j | at <= j < at + |data| :: page[j] == p
    requires Overwrites(s0, s1, s0', s1', states[p].slot1Published, at, data)
    ensures Published(s0', s1', states, page) == Splice(Published(s0, s1, states, page), at, data)
  {
    var was, shown := Published(s0, s1, states, page), Published(s0', s1', states, page);
    forall j | 0 <= j < |page| ensures shown[j] == if at <= j < at + |data| then data[j - at] else was[j] {
      OverwrittenByte(s0, s1, s0', s1', states[p].slot1Published, at, data, j);
    }
    SplicedBytes(was, shown, at, data);
  }

  lemma SplicedBytes(was: seq<byte>, shown: seq<byte>, at: nat, data: seq<byte>)
    requires at + |data| <= |was| == |shown|
    requires forall j | 0 <= j < |was| :: shown[j] == if at <= j < at + |data| then data[j - at] else was[j]
    ensures shown == Splice(was, at, data)
  {
  }

  // ---- what the backend promises ----

  datatype PageOp = OnBytes(op: Op) | Copy(dst: nat, src: nat, n: nat)

  /** A region's bytes now and at the start of the epoch; the pages stored to in this epoch, and those
      versioned before it. */
  datatype PageMemory = PageMemory(now: seq<byte>, saved: seq<byte>, stored: seq<bool>, versioned: seq<bool>, epoch: nat)

  ghost predicate MemoryShape(s: PageMemory, page: seq<nat>) {
    && |s.now| == |s.saved| == |page| && |s.stored| == |s.versioned|
    && forall j | 0 <= j < |page| :: page[j] < |s.stored|
  }

  /** A store stays inside one page; a memcpy need not. */
  ghost predicate LegalOp(op: PageOp, page: seq<nat>) {
    match op
    case OnBytes(Store(at, bytes)) =>
      && bytes != [] && at + |bytes| <= |page|
      && forall j | at <= j < at + |bytes| :: page[j] == page[at]
    case OnBytes(_) => true
    case Copy(dst, src, n) => dst + n <= |page| && src + n <= |page|
  }

  ghost predicate LegalOps(ops: seq<PageOp>, page: seq<nat>) {
    forall i | 0 <= i < |ops| :: LegalOp(ops[i], page)
  }

  /** The pages of the n bytes from dst are stored to. */
  ghost function StoredTo(stored: seq<bool>, page: seq<nat>, dst: nat, n: nat): (r: seq<bool>)
    requires dst + n <= |page| && forall j | 0 <= j < |page| :: page[j] < |stored|
    ensures |r| == |stored|
  {
    if n == 0 then stored else StoredTo(stored, page, dst, n - 1)[page[dst + n - 1] := true]
  }

  /** A rollback gives back the versioned pages, and none in epoch 0; a checkpoint versions the pages
      stored to since the last one. */
  ghost function ApplyPages(s: PageMemory, op: PageOp, page: seq<nat>): (s': PageMemory)
    requires MemoryShape(s, page) && LegalOp(op, page)
    ensures MemoryShape(s', page)
  {
    match op
    case OnBytes(Store(at, bytes)) => s.(now := Splice(s.now, at, bytes), stored := s.stored[page[at] := true])
    case OnBytes(Checkpoint) =>
      PageMemory(s.now, s.now, seq(|s.stored|, _ => false),
                 seq(|s.stored|, p requires 0 <= p < |s.stored| => s.versioned[p] || s.stored[p]), s.epoch + 1)
    case OnBytes(Restore) => s.(now := GivenBack(s, page))
    case Copy(dst, src, n) =>
      s.(now := ForwardCopy(s.now, dst, src, n), stored := StoredTo(s.stored, page, dst, n))
  }

  ghost function GivenBack(s: PageMemory, page: seq<nat>): (now: seq<byte>)
    requires MemoryShape(s, page)
    ensures |now| == |page|
  {
    seq(|page|, j requires 0 <= j < |page| => if 1 <= s.epoch && s.versioned[page[j]] then s.saved[j] else s.now[j])
  }

  ghost function RunPages(s: PageMemory, ops: seq<PageOp>, page: seq<nat>): (s': PageMemory)
    requires MemoryShape(s, page) && LegalOps(ops, page)
    ensures MemoryShape(s', page)
    decreases |ops|
  {
    if ops == [] then s else RunPages(ApplyPages(s, ops[0], page), ops[1..], page)
  }

  lemma {:induction false} RunPagesKeeps(s: PageMemory, ops: seq<PageOp>, page: seq<nat>)
    requires MemoryShape(s, page) && LegalOps(ops, page)
    requires forall i | 0 <= i < |ops| :: ops[i] != OnBytes(Checkpoint)
    ensures var s' := RunPages(s, ops, page);
            s'.saved == s.saved && s'.versioned == s.versioned && s'.epoch == s.epoch
    decreases |ops|
  {
    if ops != [] {
      RunPagesKeeps(ApplyPages(s, ops[0], page), ops[1..], page);
    }
  }

  lemma {:induction false} RunPagesAppend(s: PageMemory, ops: seq<PageOp>, op: PageOp, page: seq<nat>)
    requires MemoryShape(s, page) && LegalOps(ops, page) && LegalOp(op, page)
    ensures LegalOps(ops + [op], page)
    ensures RunPages(s, ops + [op], page) == ApplyPages(RunPages(s, ops, page), op, page)
    decreases |ops|
  {
    var all := ops + [op];
    if ops == [] {
      assert all[1..] == [];
    } else {
      assert all[0] == ops[0] && all[1..] == ops[1..] + [op];
      RunPagesAppend(ApplyPages(s, ops[0], page), ops[1..], op, page);
    }
  }

  /** However many stores, copies and earlier rollbacks lie between, a rollback gives the bytes of the
      last checkpoint back on every page that was ever stored to before it. */
  lemma RestoreReturnsVersioned(s: PageMemory, ops: seq<PageOp>, page: seq<nat>, j: nat)
    requires MemoryShape(s, page) && LegalOps(ops, page) && j < |page|
    requires forall i | 0 <= i < |ops| :: ops[i] != OnBytes(Checkpoint)
    requires s.versioned[page[j]] || s.stored[page[j]]
    ensures var s0 := ApplyPages(s, OnBytes(Checkpoint), page);
            && LegalOps(ops + [OnBytes(Restore)], page)
            && RunPages(s0, ops + [OnBytes(Restore)], page).now[j] == s.now[j]
  {
    var s0 := ApplyPages(s, OnBytes(Checkpoint), page);
    RunPagesAppend(s0, ops, OnBytes(Restore), page);
    RunPagesKeeps(s0, ops, page);
  }

  class Region {
    const pageSize: nat
    const pages: nat
    const slot0: array<byte>  // the mapped region itself
    const slot1: array<byte>
    const states: array<PageState>
    const touched: TouchedList
    const previous: array<nat>
    var previousCount: nat
    var previousTs: int
    var epoch: nat

    ghost const page: seq<nat>
    ghost var saved: seq<byte>
    ghost var versioned: seq<bool>

    ghost predicate Shape() reads this {
      && IsGranuleMap(page, pageSize, pages)
      && slot0 != slot1 && previous != touched.list
      && slot0.Length == slot1.Length == |page| == |saved|
      && states.Length == pages == |versioned|
      && touched.list.Length == touched.lastTouched.Length == previous.Length == pages
    }

    /** The list of the previous epoch is older than the current one. */
    ghost predicate ListsInv() reads this, touched, touched.lastTouched, touched.list
      requires Shape()
    {
      && touched.Valid(epoch)
      && NEVER <= previousTs <= touched.ts
      && (previousTs == touched.ts ==> previousTs == NEVER)
    }

    ghost predicate PagesInv() reads this, states, touched, touched.lastTouched
      requires Shape()
    {
      forall p | 0 <= p < pages :: PageInv(states[p], versioned[p], touched.lastTouched[p] == epoch, epoch)
    }

    ghost predicate Valid()
      reads this, slot0, slot1, states, touched, touched.lastTouched, touched.list
    {
      Shape() && ListsInv() && PagesInv() && EpochStart(saved, slot0[..], slot1[..], states[..], page, epoch)
    }

    ghost function Now(): (s: seq<byte>) reads this, slot0, slot1, states
      requires Shape()
      ensures |s| == slot0.Length
    {
      Published(slot0[..], slot1[..], states[..], page)
    }

    /** The pages stored to in this epoch. */
    ghost function Stored(): (s: seq<bool>) reads this, touched, touched.lastTouched
      requires Shape()
      ensures |s| == pages
    {
      seq(pages, p requires 0 <= p < pages reads this, touched, touched.lastTouched => touched.lastTouched[p] == epoch)
    }

    ghost function View(): (s: PageMemory)
      reads this, slot0, slot1, states, touched, touched.lastTouched
      requires Shape()
      ensures MemoryShape(s, page)
    {
      PageMemory(Now(), saved, Stored(), versioned, epoch)
    }

    /** `mvmm_region_register`. */
    constructor (pageSize: nat, pages: nat)
      requires 0 < pageSize
      ensures Valid() && epoch == 0 && slot0.Length == pages * pageSize
      ensures fresh(slot0) && fresh(slot1) && fresh(states)
      ensures fresh(touched) && fresh(touched.lastTouched) && fresh(touched.list) && fresh(previous)
    {
      this.pageSize, this.pages := pageSize, pages;
      var m := new byte[pages * pageSize];
      slot0, slot1 := m, new byte[pages * pageSize];
      states := new PageState[pages](_ => PageState(NEVER, false, NEVER, NEVER, false));
      touched := new TouchedList(pages);
      previous := new nat[pages];
      previousCount, previousTs, epoch := 0, NEVER, 0;
      page := GranuleCells(pageSize, pages);
      saved, versioned := m[..], seq(pages, _ => false);
    }

    /** The touched lists rotate at the first store of an epoch, and the page is noted. */
    method NoteStore(p: nat)
      requires Shape() && ListsInv() && p < pages
      modifies this`previousCount, this`previousTs, previous, touched, touched.lastTouched, touched.list
      ensures ListsInv() && touched.lastTouched[p] == epoch
      ensures forall q | 0 <= q < pages && q != p :: touched.lastTouched[q] == old(touched.lastTouched[q])
    {
      if touched.ts != epoch {
        CopyCurrentToPrevious();
        previousCount, previousTs := touched.count, touched.ts;
      }
      touched.Note(p, epoch);
    }

    method CopyCurrentToPrevious()
      requires Shape() && ListsInv()
      modifies previous
      ensures previous[..touched.count] == touched.list[..touched.count]
    {
      for k := 0 to touched.count
        invariant previous[..k] == touched.list[..k]
      {
        previous[k] := touched.list[k];
      }
    }

    /** Copy-on-write: the other slot gets the page and is published. */
    method OpenOther(p: nat)
      requires Shape() && p < pages && states[p].lastSeen != epoch
      requires EpochStart(saved, slot0[..], slot1[..], states[..], page, epoch)
      modifies slot0, slot1, states
      ensures states[p].lastSeen == epoch == states[p].CurTs() && states[p].OtherTs() == old(states[p].CurTs())
      ensures states[p].hasSlot1 == (old(states[p].hasSlot1) || !old(states[p].slot1Published))
      ensures EpochStart(saved, slot0[..], slot1[..], states[..], page, epoch) && Now() == old(Now())
      ensures forall q | 0 <= q < pages && q != p :: states[q] == old(states[q])
    {
      if states[p].slot1Published {
        CopyGranule(slot0, slot1, pageSize, p, page, pages);
        states[p] := states[p].(lastSeen := epoch, ts0 := epoch, slot1Published := false);
      } else {
        CopyGranule(slot1, slot0, pageSize, p, page, pages);
        states[p] := states[p].(lastSeen := epoch, ts1 := epoch, slot1Published := true, hasSlot1 := true);
      }
      assert Now() == old(Now());
    }

    /** `mvmm_translate_ea` of a store: afterwards the published slot may be written. */
    method TranslateStore(p: nat)
      requires Valid() && p < pages
      modifies this`previousCount, this`previousTs, previous, touched, touched.lastTouched, touched.list
      modifies slot0, slot1, states
      ensures Valid() && states[p].lastSeen == epoch && Now() == old(Now())
      ensures Stored() == old(Stored())[p := true]
    {
      assert PageInv(states[p], versioned[p], touched.lastTouched[p] == epoch, epoch);
      NoteStore(p);
      if states[p].lastSeen != epoch {
        OpenOther(p);
      }
      assert Stored() == old(Stored())[p := true];
    }

    /** An instrumented store inside page p. */
    method Store(p: nat, at: nat, data: seq<byte>)
      requires Valid() && p < pages && at + |data| <= slot0.Length
      requires forall j | at <= j < at + |data| :: page[j] == p
      modifies this`previousCount, this`previousTs, previous, touched, touched.lastTouched, touched.list
      modifies slot0, slot1, states
      ensures Valid() && Now() == Splice(old(Now()), at, data) && Stored() == old(Stored())[p := true]
    {
      TranslateStore(p);
      WritePublished(p, at, data);
    }

    /** The store instruction itself, at the translated address. */
    method WritePublished(p: nat, at: nat, data: seq<byte>)
      requires Shape() && p < pages && states[p].lastSeen == epoch && at + |data| <= slot0.Length
      requires EpochStart(saved, slot0[..], slot1[..], states[..], page, epoch)
      requires forall j | at <= j < at + |data| :: page[j] == p
      modifies slot0, slot1
      ensures EpochStart(saved, slot0[..], slot1[..], states[..], page, epoch)
      ensures Now() == Splice(old(Now()), at, data)
    {
      ghost var s0, s1 := slot0[..], slot1[..];
      if states[p].slot1Published {
        Write(slot1, at, data);
      } else {
        Write(slot0, at, data);
      }
      StartKept(saved, s0, s1, slot0[..], slot1[..], states[..], page, epoch, p, at, data);
      WriteShows(s0, s1, slot0[..], slot1[..], states[..], page, p, at, data);
    }

    /** A translated one-byte load. */
    method Load(at: nat) returns (b: byte)
      requires Valid() && at < slot0.Length
      ensures b == Now()[at]
    {
      var p := at / pageSize;
      assert page[at] == p;
      b := if states[p].slot1Published then slot1[at] else slot0[at];
    }

    /** `mmap_mv_memcpy` inside the region. */
    method Memcpy(dst: nat, src: nat, n: nat)
      requires Valid() && dst + n <= slot0.Length && src + n <= slot0.Length
      modifies this`previousCount, this`previousTs, previous, touched, touched.lastTouched, touched.list
      modifies slot0, slot1, states
      ensures Valid() && Now() == ForwardCopy(old(Now()), dst, src, n)
      ensures Stored() == StoredTo(old(Stored()), page, dst, n)
    {
      ghost var was, stored := Now(), Stored();
      for i := 0 to n
        invariant Valid() && CopiedUpTo(was, stored, dst, src, i)
      {
        MoveNth(was, stored, dst, src, i);
      }
    }

    ghost predicate CopiedUpTo(was: seq<byte>, stored: seq<bool>, dst: nat, src: nat, n: nat)
      reads this, slot0, slot1, states, touched, touched.lastTouched
      requires Shape() && dst + n <= slot0.Length && src + n <= slot0.Length
    {
      && |was| == slot0.Length && |stored| == pages
      && Now() == ForwardCopy(was, dst, src, n) && Stored() == StoredTo(stored, page, dst, n)
    }

    method MoveNth(ghost was: seq<byte>, ghost stored: seq<bool>, dst: nat, src: nat, i: nat)
      requires Valid() && dst + i < slot0.Length && src + i < slot0.Length && CopiedUpTo(was, stored, dst, src, i)
      modifies this`previousCount, this`previousTs, previous, touched, touched.lastTouched, touched.list
      modifies slot0, slot1, states
      ensures Valid() && CopiedUpTo(was, stored, dst, src, i + 1)
    {
      MoveByte(dst + i, src + i);
    }

    method MoveByte(dst: nat, src: nat)
      requires Valid() && dst < slot0.Length && src < slot0.Length
      modifies this`previousCount, this`previousTs, previous, touched, touched.lastTouched, touched.list
      modifies slot0, slot1, states
      ensures Valid() && Now() == old(Now())[dst := old(Now())[src]] && Stored() == old(Stored())[page[dst] := true]
    {
      ghost var before := Now();
      var b := Load(src);
      assert page[dst] == dst / pageSize;
      Store(dst / pageSize, dst, [b]);
      assert Splice(before, dst, [b]) == before[dst := b];
    }

    /** The last object's `set_ckpt` of a round.  A page is versioned from then on if it was before,
        or has been stored to in the epoch that ends. */
    method SetCheckpoint()
      requires Valid()
      modifies this`epoch, this`saved, this`versioned
      ensures Valid() && epoch == old(epoch) + 1
      ensures Now() == saved == old(Now())
      ensures forall p | 0 <= p < pages :: versioned[p] == (old(versioned[p]) || states[p].lastSeen == old(epoch))
    {
      ghost var was := versioned;
      assert forall p | 0 <= p < pages :: PageInv(states[p], was[p], touched.lastTouched[p] == epoch, epoch);
      saved := Now();
      versioned := seq(pages, p requires 0 <= p < states.Length reads states => states[p].CurTs() != NEVER);
      epoch := epoch + 1;
    }

    /** The slot to return to, if any: the dated slot with the latest timestamp up to the target. */
    function BestSlot(ps: PageState, target: nat): int {
      var best := if ps.ts0 != NEVER && ps.ts0 <= target then 0 else NEVER;
      if ps.ts1 != NEVER && ps.ts1 <= target && (best == NEVER || ps.ts1 >= ps.ts0) then 1 else best
    }

    /** One page of `mvmm_region_rollback`. */
    function RolledBack(ps: PageState, target: nat): PageState {
      var best := BestSlot(ps, target);
      if best == NEVER then ps
      else PageState(NEVER, best == 1,
                     if ps.ts0 > target then NEVER else ps.ts0,
                     if ps.ts1 > target then NEVER else ps.ts1, ps.hasSlot1)
    }

    /** An opened page returns to its epoch-start slot if it was versioned, and is left alone otherwise. */
    lemma RolledBackPage(ps: PageState, versionedPage: bool, now: nat)
      requires 1 <= now && PageInv(ps, versionedPage, true, now)
      ensures var ps' := RolledBack(ps, now - 1);
              && PageInv(ps', versionedPage, true, now)
              && (if !versionedPage then ps' == ps
                  else ps'.lastSeen != now
                       && (ps'.slot1Published <==> ps.slot1Published != (ps.lastSeen == now)))
    {
    }

    /** `restore_object` with `mvmm_region_rollback`: every page versioned in an earlier epoch gets its
        epoch-start bytes back, also when the rollback is repeated; a page first stored to in this
        epoch keeps its bytes.  In epoch 0 nothing is undone. */
    method RestoreObject()
      requires Valid()
      modifies states
      ensures Valid()
      ensures forall j | 0 <= j < slot0.Length ::
                Now()[j] == if 1 <= epoch && versioned[page[j]] then saved[j] else old(Now())[j]
      ensures Now() == saved <==>
              forall j | 0 <= j < slot0.Length && !(1 <= epoch && versioned[page[j]]) :: old(Now())[j] == saved[j]
    {
      var target := if epoch >= 1 then epoch - 1 else 0;
      ghost var was := states[..];
      if touched.ts != NEVER && touched.ts > target {
        RollbackTouched(target);
      }
      if previousTs != NEVER && previousTs > target {
        assert false;  // the list of the previous epoch is never a candidate
      }
      forall p | 0 <= p < pages && 1 <= epoch
        ensures states[p].slot1Published ==
                (was[p].slot1Published != (versioned[p] && was[p].lastSeen == epoch))
      {
        if touched.lastTouched[p] == epoch {
          RolledBackPage(was[p], versioned[p], epoch);
        }
      }
    }

    /** The loop over the list of the current epoch. */
    method RollbackTouched(target: nat)
      requires Valid() && epoch == target + 1 == touched.ts
      modifies states
      ensures Valid()
      ensures forall p | 0 <= p < pages ::
                states[p] == if touched.lastTouched[p] == epoch then RolledBack(old(states[p]), target)
                             else old(states[p])
    {
      for k := 0 to touched.count
        invariant PagesInv() && EpochStart(saved, slot0[..], slot1[..], states[..], page, epoch)
        invariant forall p | 0 <= p < pages ::
                    states[p] == if touched.lastTouched[p] == epoch && touched.position[p] < k
                                 then RolledBack(old(states[p]), target) else old(states[p])
      {
        var p := touched.list[k];
        RolledBackPage(states[p], versioned[p], epoch);
        states[p] := RolledBack(states[p], target);
      }
    }

    /** One operation, as the specification has it. */
    method Perform(op: PageOp)
      requires Valid() && LegalOp(op, page)
      modifies this`previousCount, this`previousTs, this`epoch, this`saved, this`versioned
      modifies previous, touched, touched.lastTouched, touched.list, slot0, slot1, states
      ensures Valid() && View() == ApplyPages(old(View()), op, page)
    {
      match op {
        case OnBytes(Store(at, bytes)) => Store(at / pageSize, at, bytes);
        case OnBytes(Checkpoint) => SetCheckpoint();
        case OnBytes(Restore) => RestoreObject();
        case Copy(dst, src, n) => Memcpy(dst, src, n);
      }
    }

    /** Every run of stores, copies, checkpoints and rollbacks refines the page specification. */
    method Execute(ops: seq<PageOp>)
      requires Valid() && LegalOps(ops, page)
      modifies this`previousCount, this`previousTs, this`epoch, this`saved, this`versioned
      modifies previous, touched, touched.lastTouched, touched.list, slot0, slot1, states
      ensures Valid() && View() == RunPages(old(View()), ops, page)
      decreases |ops|
    {
      if ops != [] {
        Perform(ops[0]);
        Execute(ops[1..]);
      }
    }
  }
}
