/** The store-only grid backend of MVM_MMAP_MULTIVERSIONING/patches/patches.c: before a store or
    memcpy, the grid cells it touches are copied once per epoch into the page's second slot. */
module StoreGrid {
  import opened CheckpointMemory
  import opened TouchedPages

  // ---- what the backend promises: a rollback in epoch 0 undoes nothing ----

  datatype EpochMemory = EpochMemory(bytes: Memory, epoch: nat)

  ghost predicate EpochShape(s: EpochMemory) {
    |s.bytes.saved| == |s.bytes.now|
  }

  ghost function ApplyEpoch(s: EpochMemory, op: Op): (s': EpochMemory)
    requires EpochShape(s) && Fits(op, |s.bytes.now|, |s.bytes.now|)
    ensures EpochShape(s') && |s'.bytes.now| == |s.bytes.now|
  {
    match op
    case Store(at, data) => s.(bytes := Apply(s.bytes, op))
    case Checkpoint => EpochMemory(Apply(s.bytes, op), s.epoch + 1)
    case Restore => if s.epoch >= 1 then s.(bytes := Apply(s.bytes, op)) else s
  }

  ghost function RunEpochs(s: EpochMemory, ops: seq<Op>): (s': EpochMemory)
    requires EpochShape(s) && AllFit(ops, |s.bytes.now|, |s.bytes.now|)
    ensures EpochShape(s') && |s'.bytes.now| == |s.bytes.now|
    decreases |ops|
  {
    if ops == [] then s else RunEpochs(ApplyEpoch(s, ops[0]), ops[1..])
  }

  /** The operations that have an effect: no rollback before the first epoch advance. */
  function Effective(epoch: nat, ops: seq<Op>): seq<Op>
    decreases |ops|
  {
    if ops == [] then []
    else if ops[0].Restore? && epoch == 0 then Effective(0, ops[1..])
    else [ops[0]] + Effective(if ops[0].Checkpoint? then epoch + 1 else epoch, ops[1..])
  }

  /** From epoch 1 on, and from the next epoch advance on, these are all. */
  lemma {:induction false} AllEffective(epoch: nat, ops: seq<Op>)
    requires epoch >= 1 || (ops != [] && ops[0].Checkpoint?)
    ensures Effective(epoch, ops) == ops
    decreases |ops|
  {
    if ops != [] {
      AllEffective(if ops[0].Checkpoint? then epoch + 1 else epoch, ops[1..]);
      assert ops == [ops[0]] + ops[1..];
    }
  }

  /** Every run is the flat run of the operations that have an effect. */
  lemma {:induction false} EpochsAreFlat(s: EpochMemory, ops: seq<Op>)
    requires EpochShape(s) && AllFit(ops, |s.bytes.now|, |s.bytes.now|)
    ensures AllFit(Effective(s.epoch, ops), |s.bytes.now|, |s.bytes.now|)
    ensures RunEpochs(s, ops).bytes == Run(s.bytes, Effective(s.epoch, ops))
    decreases |ops|
  {
    if ops != [] {
      var rest := Effective(ApplyEpoch(s, ops[0]).epoch, ops[1..]);
      EpochsAreFlat(ApplyEpoch(s, ops[0]), ops[1..]);
      if !(ops[0].Restore? && s.epoch == 0) {
        assert Effective(s.epoch, ops) == [ops[0]] + rest && ([ops[0]] + rest)[1..] == rest;
      }
    }
  }

  /** So, from any epoch on, a rollback gives back the bytes of the last epoch advance. */
  lemma RestoreReturnsToEpochStart(s: EpochMemory, ops: seq<Op>)
    requires EpochShape(s) && AllFit([Checkpoint] + ops + [Restore], |s.bytes.now|, |s.bytes.now|)
    requires forall i | 0 <= i < |ops| :: !ops[i].Checkpoint?
    ensures RunEpochs(s, [Checkpoint] + ops + [Restore]).bytes.now == s.bytes.now
  {
    EpochsAreFlat(s, [Checkpoint] + ops + [Restore]);
    AllEffective(s.epoch, [Checkpoint] + ops + [Restore]);
    RestoreReturnsToCheckpoint(s.bytes, ops);
  }

  class Region {
    const pageSize: nat
    const gridSize: nat
    const pages: nat
    const cells: nat  // cells per page, the last one possibly short
    const width: nat  // bitmap bits per page, a whole number of bytes

    const mem: array<byte>   // slot 0 of every page: the mapped region itself
    const snap: array<byte>  // slot 1 of every page
    const bits: array<bool>
    const hasSlot1: array<bool>
    const slotTs: array<int>  // epoch of slot 1
    const touched: TouchedList
    var epoch: nat

    ghost const page: seq<nat>  // page of each byte
    ghost const bit: seq<nat>   // bitmap bit of each byte
    ghost var saved: seq<byte>

    ghost predicate Sizes() {
      && 0 < pageSize && 0 < gridSize
      && (cells - 1) * gridSize < pageSize <= cells * gridSize && cells <= width
      && |page| == |bit| == pages * pageSize
      && (forall j | 0 <= j < |page| :: page[j] < pages && bit[j] < pages * width)
      && ByteLayout(page, bit, pageSize, gridSize, width)
    }

    ghost predicate Shape() reads this {
      && Sizes()
      && mem != snap && bits != hasSlot1 && slotTs != touched.lastTouched
      && mem.Length == snap.Length == |saved| == |page|
      && bits.Length == pages * width
      && hasSlot1.Length == slotTs.Length == touched.list.Length == touched.lastTouched.Length == pages
    }

    /** A page with cells copied in this epoch has a second slot and is in the touched list. */
    ghost predicate TouchedInv() reads this, hasSlot1, slotTs, touched, touched.lastTouched, touched.list
      requires Shape()
    {
      && touched.Valid(epoch)
      && (forall p | 0 <= p < pages :: slotTs[p] <= epoch)
      && (forall p | 0 <= p < pages && slotTs[p] == epoch :: touched.lastTouched[p] == epoch && hasSlot1[p])
    }

    /** Byte j has been copied to slot 1 since the epoch began. */
    ghost predicate Copied(j: nat) reads this, bits, slotTs
      requires Shape() && j < mem.Length
    {
      slotTs[page[j]] == epoch && bits[bit[j]]
    }

    /** A copied byte's epoch-start value is in slot 1; any other byte still has it. */
    ghost predicate Coupled() reads this, mem, snap, bits, slotTs
      requires Shape()
    {
      forall j | 0 <= j < mem.Length :: (if Copied(j) then snap[j] else mem[j]) == saved[j]
    }

    ghost predicate Valid() reads this, mem, snap, bits, hasSlot1, slotTs, touched, touched.lastTouched, touched.list {
      Shape() && TouchedInv() && Coupled()
    }

    ghost function View(): Memory reads this, mem {
      Memory(mem[..], saved)
    }

    /** `mvmm_region_register`. */
    constructor (pageSize: nat, gridSize: nat, pages: nat)
      requires 0 < pageSize && 0 < gridSize
      ensures Valid() && fresh(mem) && fresh(snap) && fresh(bits)
      ensures fresh(hasSlot1) && fresh(slotTs) && fresh(touched) && fresh(touched.lastTouched) && fresh(touched.list)
      ensures epoch == 0 && mem.Length == pages * pageSize
    {
      var n, w := CellCount(pageSize, gridSize);
      ghost var pageOf, bitOf := ByteTables(pageSize, gridSize, n, w, pages);
      this.pageSize, this.gridSize, this.pages, cells, width := pageSize, gridSize, pages, n, w;
      var m := new byte[pages * pageSize];
      mem, snap := m, new byte[pages * pageSize];
      bits := new bool[pages * w](_ => false);
      hasSlot1 := new bool[pages](_ => false);
      slotTs := new int[pages](_ => NEVER);
      touched := new TouchedList(pages);
      epoch := 0;
      page, bit := pageOf, bitOf;
      saved := m[..];
    }

    /** `mvmm_store_grid_cell_size`. */
    function CellSize(c: nat): nat {
      if c * gridSize >= pageSize then 0
      else if c * gridSize + gridSize > pageSize then pageSize - c * gridSize
      else gridSize
    }

    /** The bytes that share bit (p, c) are those of the cell, cut off at the end of the page. */
    lemma CellBytes(p: nat, c: nat, j: nat)
      requires Sizes() && p < pages && c < cells && j < |page|
      ensures bit[j] == p * width + c <==>
              p * pageSize + c * gridSize <= j < p * pageSize + c * gridSize + CellSize(c)
      ensures bit[j] == p * width + c ==> page[j] == p
    {
      assert Byte(j);
      CellOfOffset(pageSize, gridSize, cells, j % pageSize);
      CellBytesAt(pageSize, gridSize, width, p, c, j);
    }

    /** A cell lies inside its page, and its bit inside the bitmap. */
    lemma CellFits(p: nat, c: nat)
      requires Sizes() && p < pages && c < cells
      ensures 0 < CellSize(c) && c * gridSize + CellSize(c) <= pageSize
      ensures p * width + c < pages * width
      ensures p * pageSize + c * gridSize + CellSize(c) <= pages * pageSize
    {
      GranuleEnd(width, p, pages);
      GranuleEnd(pageSize, p, pages);
      GranuleEnd(gridSize, c, cells);
      CellStart(gridSize, c, cells);
    }

    lemma BitOfOneByte(j: nat) returns (d: nat)
      requires Sizes() && j < |page|
      ensures d < cells && bit[j] == page[j] * width + d
    {
      d := PageByte(page, bit, pageSize, gridSize, cells, width, j);
    }

    /** The bits of page p's bitmap belong to its own bytes only. */
    lemma BitOfPage(p: nat, j: nat)
      requires Sizes() && p < pages && j < |page|
      ensures p * width <= bit[j] < p * width + width <==> page[j] == p
      ensures page[j] == p ==> bit[j] < p * width + cells
      ensures p * width + width <= pages * width
    {
      var d := BitOfOneByte(j);
      PagesDisjoint(width, page[j], d, p);
      GranuleEnd(width, p, pages);
    }

    /** A byte between two offsets of page p lies in one of the cells between theirs. */
    lemma BitOfOffset(p: nat, lo: nat, hi: nat, j: nat)
      requires Sizes() && p < pages && lo < hi <= pageSize
      requires p * pageSize + lo <= j < p * pageSize + hi && j < |page|
      ensures page[j] == p && p * width + lo / gridSize <= bit[j] <= p * width + (hi - 1) / gridSize
    {
      assert Byte(j);
      GranuleRange(pageSize, p, j);
      DivOrder(gridSize, lo, j % pageSize);
      DivOrder(gridSize, j % pageSize, hi - 1);
    }

    /** The bitmap of a page is cleared when its second slot is taken for a new epoch. */
    method OpenSlot(p: nat)
      requires Shape() && Coupled() && p < pages && slotTs[p] != epoch
      modifies slotTs, bits
      ensures Coupled() && slotTs[p] == epoch
      ensures forall q | 0 <= q < pages && q != p :: slotTs[q] == old(slotTs[q])
      ensures forall j | 0 <= j < mem.Length && old(Copied(j)) :: Copied(j)
    {
      GranuleEnd(width, p, pages);
      ClearBits(bits, p * width, p * width + width);
      slotTs[p] := epoch;
      forall j | 0 <= j < mem.Length
        ensures Copied(j) == old(Copied(j))
      {
        BitOfPage(p, j);
      }
    }

    /** `mvmm_store_prepare_snapshot_slot`, with page allocation succeeding. */
    method PrepareSlot(p: nat)
      requires Valid() && p < pages
      modifies touched, touched.lastTouched, touched.list, hasSlot1, slotTs, bits
      ensures Valid() && slotTs[p] == epoch
      ensures forall j | 0 <= j < mem.Length && old(Copied(j)) :: Copied(j)
    {
      touched.Note(p, epoch);
      hasSlot1[p] := true;
      if slotTs[p] != epoch {
        OpenSlot(p);
      }
    }

    /** One cell of `mvmm_store_snapshot_page_cells`: copied if its bit was clear. */
    method SnapshotCell(p: nat, c: nat)
      requires Shape() && Coupled() && p < pages && c < cells && slotTs[p] == epoch
      requires p * width + c < bits.Length
      modifies snap, bits
      ensures Coupled() && bits[p * width + c]
      ensures forall k | 0 <= k < bits.Length && old(bits[k]) :: bits[k]
    {
      CellFits(p, c);
      if !bits[p * width + c] {
        var at := p * pageSize + c * gridSize;
        CopyRange(snap, mem, at, at + CellSize(c));
        bits[p * width + c] := true;
        forall j | 0 <= j < mem.Length ensures (if Copied(j) then snap[j] else mem[j]) == saved[j] {
          CellBytes(p, c, j);
        }
      }
    }

    /** The cells from first to last of a page, whose bits begin at `base`. */
    method SnapshotCells(p: nat, base: nat, first: nat, last: nat)
      requires Shape() && Coupled() && p < pages && first <= last < cells && slotTs[p] == epoch
      requires base == p * width && base + width <= bits.Length
      modifies snap, bits
      ensures Coupled()
      ensures forall k | 0 <= k < bits.Length && old(bits[k]) :: bits[k]
      ensures forall k | base + first <= k <= base + last :: bits[k]
    {
      for c := first to last + 1
        invariant Coupled()
        invariant forall k | 0 <= k < bits.Length && old(bits[k]) :: bits[k]
        invariant forall k | base + first <= k < base + c :: bits[k]
      {
        SnapshotCell(p, c);
      }
    }

    lemma CellRange(p: nat, lo: nat, hi: nat)
      requires Shape() && p < pages && lo < hi <= pageSize
      ensures lo / gridSize <= (hi - 1) / gridSize < cells && p * width + width <= bits.Length
    {
      DivOrder(gridSize, lo, hi - 1);
      CellOfOffset(pageSize, gridSize, cells, hi - 1);
      GranuleEnd(width, p, pages);
    }

    lemma CellsCover(p: nat, lo: nat, hi: nat, base: nat, first: nat, last: nat)
      requires Shape() && p < pages && lo < hi <= pageSize
      requires base == p * width && first == lo / gridSize && last == (hi - 1) / gridSize
      ensures forall j | p * pageSize + lo <= j < p * pageSize + hi && j < mem.Length ::
                page[j] == p && base + first <= bit[j] <= base + last
    {
      forall j | p * pageSize + lo <= j < p * pageSize + hi && j < mem.Length
        ensures page[j] == p && base + first <= bit[j] <= base + last
      {
        BitOfOffset(p, lo, hi, j);
      }
    }

    /** The cells that bytes lo to hi of a page cover. */
    method CoveredCells(p: nat, lo: nat, hi: nat) returns (base: nat, first: nat, last: nat)
      requires Shape() && p < pages && lo < hi <= pageSize
      ensures first <= last < cells && base == p * width && base + width <= bits.Length
      ensures forall j | p * pageSize + lo <= j < p * pageSize + hi && j < mem.Length ::
                page[j] == p && base + first <= bit[j] <= base + last
    {
      base, first, last := p * width, lo / gridSize, (hi - 1) / gridSize;
      CellRange(p, lo, hi);
      CellsCover(p, lo, hi, base, first, last);
    }

    /** `mvmm_store_snapshot_page_cells`. */
    method SnapshotPageCells(p: nat, lo: nat, hi: nat)
      requires Valid() && p < pages && lo < hi <= pageSize
      modifies touched, touched.lastTouched, touched.list, hasSlot1, slotTs, bits, snap
      ensures Valid()
      ensures forall j | 0 <= j < mem.Length && old(Copied(j)) :: Copied(j)
      ensures forall j | p * pageSize + lo <= j < p * pageSize + hi && j < mem.Length :: Copied(j)
    {
      PrepareSlot(p);
      var base, first, last := CoveredCells(p, lo, hi);
      SnapshotCells(p, base, first, last);
    }

    /** `mvmm_store_snapshot_range`: the pages that a store or memcpy of n bytes at `dst` covers. */
    method SnapshotRange(dst: nat, n: nat)
      requires Valid() && dst + n <= mem.Length
      modifies touched, touched.lastTouched, touched.list, hasSlot1, slotTs, bits, snap
      ensures Valid()
      ensures forall j | dst <= j < dst + n :: Copied(j)
    {
      var cur, end := dst, dst + n;
      while cur < end
        invariant dst <= cur <= end
        invariant Valid()
        invariant forall j | dst <= j < cur :: Copied(j)
        decreases end - cur
      {
        var p := cur / pageSize;
        GranuleRange(pageSize, p, cur);
        GranuleBound(pageSize, pages, cur);
        var pageBase := p * pageSize;
        var next := if pageBase + pageSize > end then end else pageBase + pageSize;
        SnapshotPageCells(p, cur - pageBase, next - pageBase);
        cur := next;
      }
    }

    /** An instrumented store, or a memcpy whose source holds `data`. */
    method Store(dst: nat, data: seq<byte>)
      requires Valid() && dst + |data| <= mem.Length
      modifies this, mem, snap, bits, hasSlot1, slotTs, touched, touched.lastTouched, touched.list
      ensures Valid() && epoch == old(epoch)
      ensures View() == Apply(old(View()), Op.Store(dst, data))
    {
      SnapshotRange(dst, |data|);
      Write(mem, dst, data);
    }

    /** The last object's `set_ckpt` of a round: the epoch advances. */
    method SetCheckpoint()
      requires Valid()
      modifies this
      ensures Valid() && epoch == old(epoch) + 1
      ensures View() == Apply(old(View()), Checkpoint)
    {
      epoch := epoch + 1;
      saved := mem[..];
    }

    lemma BitsOfPage(p: nat)
      requires Sizes() && p < pages
      ensures forall j | 0 <= j < |page| && page[j] == p :: p * width <= bit[j] < p * width + cells
    {
      forall j | 0 <= j < |page| && page[j] == p ensures p * width <= bit[j] < p * width + cells {
        BitOfPage(p, j);
      }
    }

    /** One cell of a touched page, copied back if its bit is set. */
    method RollbackCell(p: nat, c: nat)
      requires Valid() && p < pages && c < cells && slotTs[p] == epoch
      modifies mem
      ensures Valid()
      ensures forall j | 0 <= j < mem.Length ::
                mem[j] == if bit[j] == p * width + c then saved[j] else old(mem[j])
      ensures forall j | 0 <= j < mem.Length && bit[j] == p * width + c :: page[j] == p
    {
      CellFits(p, c);
      forall j | 0 <= j < mem.Length
        ensures bit[j] == p * width + c <==>
                p * pageSize + c * gridSize <= j < p * pageSize + c * gridSize + CellSize(c)
        ensures bit[j] == p * width + c ==> page[j] == p
      {
        CellBytes(p, c, j);
      }
      if bits[p * width + c] {
        var at := p * pageSize + c * gridSize;
        CopyRange(mem, snap, at, at + CellSize(c));
      }
    }

    /** The cells of one touched page copied back. */
    method RollbackPage(p: nat)
      requires Valid() && p < pages && slotTs[p] == epoch
      modifies mem
      ensures Valid()
      ensures forall j | 0 <= j < mem.Length ::
                mem[j] == if page[j] == p then saved[j] else old(mem[j])
    {
      BitsOfPage(p);
      ghost var first := p * width;
      for c := 0 to cells
        invariant Valid()
        invariant forall j | 0 <= j < mem.Length ::
                    mem[j] == if page[j] == p && bit[j] < first + c then saved[j] else old(mem[j])
      {
        RollbackCell(p, c);
      }
    }

    /** `restore_object` with `mvmm_region_rollback`: the target is the epoch before the current one,
        and epoch 0 itself in epoch 0, where nothing is undone. */
    method RestoreObject()
      requires Valid()
      modifies mem
      ensures Valid() && epoch == old(epoch)
      ensures View() == if epoch >= 1 then Apply(old(View()), Restore) else old(View())
    {
      var target := if epoch >= 1 then epoch - 1 else 0;
      if touched.ts == NEVER || touched.ts <= target {
        assert epoch >= 1 ==> mem[..] == saved;
        return;
      }
      for k := 0 to touched.count
        invariant Valid()
        invariant forall j | 0 <= j < mem.Length ::
                    mem[j] == saved[j] || mem[j] == old(mem[j])
        invariant forall m, j | 0 <= m < k && 0 <= j < mem.Length :: page[j] == touched.list[m] ==> mem[j] == saved[j]
      {
        var p := touched.list[k];
        if hasSlot1[p] && slotTs[p] != NEVER && slotTs[p] > target {
          RollbackPage(p);
        }
      }
      assert mem[..] == saved;
    }

    ghost function EpochView(): EpochMemory reads this, mem {
      EpochMemory(View(), epoch)
    }

    /** Every run refines the specification with its epoch. */
    method Execute(ops: seq<Op>)
      requires Valid() && AllFit(ops, mem.Length, mem.Length)
      modifies this, mem, snap, bits, hasSlot1, slotTs, touched, touched.lastTouched, touched.list
      ensures Valid() && EpochView() == RunEpochs(old(EpochView()), ops)
      decreases |ops|
    {
      if ops != [] {
        match ops[0] {
          case Store(at, bytes) => Store(at, bytes);
          case Checkpoint => SetCheckpoint();
          case Restore => RestoreObject();
        }
        Execute(ops[1..]);
      }
    }
  }

  /** Bit c of page p's bitmap, for a byte in cell c of page p. */
  ghost function BitOfByte(pageSize: nat, gridSize: nat, width: nat, j: nat): nat
    requires 0 < pageSize && 0 < gridSize
  {
    NonNegative(j / pageSize, width);
    j / pageSize * width + j % pageSize / gridSize
  }

  lemma NonNegative(a: nat, b: nat)
    ensures 0 <= a * b
  {
  }

  ghost predicate ByteLayout(page: seq<nat>, bit: seq<nat>, pageSize: nat, gridSize: nat, width: nat)
    requires 0 < pageSize && 0 < gridSize && |page| == |bit|
  {
    forall j {:trigger Byte(j)} | 0 <= j < |page| && Byte(j) ::
      page[j] == j / pageSize && bit[j] == BitOfByte(pageSize, gridSize, width, j)
  }

  lemma PageByte(page: seq<nat>, bit: seq<nat>, pageSize: nat, gridSize: nat, cells: nat, width: nat, j: nat) returns (d: nat)
    requires 0 < gridSize && 0 < pageSize <= cells * gridSize
    requires |page| == |bit| && ByteLayout(page, bit, pageSize, gridSize, width) && j < |page|
    ensures d < cells && bit[j] == page[j] * width + d
  {
    assert Byte(j);
    CellOfOffset(pageSize, gridSize, cells, j % pageSize);
    d := j % pageSize / gridSize;
  }

  lemma BytesInRange(pageSize: nat, gridSize: nat, cells: nat, width: nat, pages: nat, j: nat)
    requires 0 < gridSize && 0 < pageSize <= cells * gridSize && cells <= width
    requires j < pages * pageSize
    ensures j / pageSize < pages && BitOfByte(pageSize, gridSize, width, j) < pages * width
  {
    GranuleBound(pageSize, pages, j);
    CellOfOffset(pageSize, gridSize, cells, j % pageSize);
    GranuleEnd(width, j / pageSize, pages);
  }

  lemma ByteTables(pageSize: nat, gridSize: nat, cells: nat, width: nat, pages: nat)
    returns (page: seq<nat>, bit: seq<nat>)
    requires 0 < gridSize && 0 < pageSize <= cells * gridSize && cells <= width
    ensures |page| == |bit| == pages * pageSize && ByteLayout(page, bit, pageSize, gridSize, width)
    ensures forall j | 0 <= j < |page| :: page[j] < pages && bit[j] < pages * width
  {
    page := seq(pages * pageSize, j requires 0 <= j => j / pageSize);
    bit := seq(pages * pageSize, j requires 0 <= j => BitOfByte(pageSize, gridSize, width, j));
    forall j | 0 <= j < |page| ensures page[j] < pages && bit[j] < pages * width {
      BytesInRange(pageSize, gridSize, cells, width, pages, j);
    }
  }

  lemma CellBytesAt(pageSize: nat, gridSize: nat, width: nat, p: nat, c: nat, j: nat)
    requires 0 < pageSize && 0 < gridSize
    requires c < width && j % pageSize / gridSize < width
    ensures BitOfByte(pageSize, gridSize, width, j) == p * width + c <==>
            p * pageSize <= j < p * pageSize + pageSize && p * pageSize + c * gridSize <= j < p * pageSize + c * gridSize + gridSize
    ensures BitOfByte(pageSize, gridSize, width, j) == p * width + c ==> j / pageSize == p
  {
    var q, off := j / pageSize, j % pageSize;
    GranuleRange(pageSize, p, j);
    if q * width + off / gridSize == p * width + c {
      SamePair(width, q, off / gridSize, p, c);
      GranuleRange(gridSize, c, off);
    } else if q == p {
      GranuleRange(gridSize, c, off);
    }
  }

  lemma DivOrder(d: nat, a: nat, b: nat)
    requires 0 < d && a <= b
    ensures a / d <= b / d
  {
    GranuleRange(d, a / d, a);
    GranuleRange(d, b / d, b);
    if b / d < a / d {
      GranuleEnd(d, b / d, a / d);
    }
  }

  lemma CellStart(gridSize: nat, c: nat, cells: nat)
    requires c < cells
    ensures c * gridSize <= (cells - 1) * gridSize
  {
  }

  lemma CellOfOffset(pageSize: nat, gridSize: nat, cells: nat, off: nat)
    requires 0 < gridSize && off < pageSize <= cells * gridSize
    ensures off / gridSize < cells
  {
    GranuleBound(gridSize, cells, off);
  }

  lemma PagesDisjoint(width: nat, q: nat, d: nat, p: nat)
    requires d < width
    ensures p * width <= q * width + d < p * width + width <==> q == p
  {
    GranuleRange(width, q, q * width + d);
    GranuleRange(width, p, q * width + d);
  }

  lemma SamePair(width: nat, q: nat, d: nat, p: nat, c: nat)
    requires d < width && c < width && q * width + d == p * width + c
    ensures q == p && d == c
  {
    GranuleRange(width, q, q * width + d);
    GranuleRange(width, p, p * width + c);
  }

  /** The cells of a page and the bits of its bitmap, a whole number of bytes. */
  method CellCount(pageSize: nat, gridSize: nat) returns (cells: nat, width: nat)
    requires 0 < pageSize && 0 < gridSize
    ensures (cells - 1) * gridSize < pageSize <= cells * gridSize
    ensures cells <= width < cells + 8 && width % 8 == 0
  {
    cells := (pageSize + gridSize - 1) / gridSize;
    width := (cells + 7) / 8 * 8;
    GranuleRange(gridSize, cells, pageSize + gridSize - 1);
    assert (cells - 1) * gridSize == cells * gridSize - gridSize;
  }
}
