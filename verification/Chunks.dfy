/** The two chunk-based backends of memory/memory.c and chunk_ckpt/chunk_ckpt.c: an undo log of the
    chunks stored to since the checkpoint, and a full copy of the chunks in use at it. */
module Chunks {
  import opened CheckpointMemory
  import opened Allocator

  /** Size class and chunk number of every byte: the chunks of the eight segments tile the area. */
  ghost predicate Layout(cls: seq<nat>, chunk: seq<nat>) {
    && |cls| == |chunk| == AREA
    && (forall j | 0 <= j < AREA :: cls[j] < CLASSES && chunk[j] < ChunkCount(cls[j]))
    && (forall j {:trigger Byte(j)} | 0 <= j < AREA && Byte(j) ::
          cls[j] == j / SEGMENT && chunk[j] == j % SEGMENT / ChunkSize(j / SEGMENT))
  }

  /** Byte j lies in chunk c of class i. */
  ghost predicate InChunk(i: nat, c: nat, j: nat) {
    i < CLASSES && c < ChunkCount(i) && ChunkStart(i, c) <= j < ChunkStart(i, c) + ChunkSize(i)
  }

  lemma ChunkInSegment(j: nat)
    requires j < AREA
    ensures j / SEGMENT < CLASSES && j % SEGMENT / ChunkSize(j / SEGMENT) < ChunkCount(j / SEGMENT)
  {
    GranuleBound(ChunkSize(j / SEGMENT), ChunkCount(j / SEGMENT), j % SEGMENT);
  }

  ghost function ClassOfByte(): (cls: seq<nat>)
    ensures |cls| == AREA
  {
    seq(AREA, j requires 0 <= j => j / SEGMENT)
  }

  ghost function ChunkOfByte(): (chunk: seq<nat>)
    ensures |chunk| == AREA
  {
    seq(AREA, j requires 0 <= j < AREA => j % SEGMENT / ChunkSize(j / SEGMENT))
  }

  lemma LayoutExists()
    ensures Layout(ClassOfByte(), ChunkOfByte())
  {
    forall j | 0 <= j < AREA
      ensures ClassOfByte()[j] < CLASSES && ChunkOfByte()[j] < ChunkCount(ClassOfByte()[j])
    {
      ChunkInSegment(j);
    }
  }

  /** The bytes of a chunk. */
  lemma ChunkBytes(cls: seq<nat>, chunk: seq<nat>, i: nat, c: nat, j: nat)
    requires Layout(cls, chunk) && i < CLASSES && c < ChunkCount(i) && j < AREA
    ensures cls[j] == i && chunk[j] == c <==> ChunkStart(i, c) <= j < ChunkStart(i, c) + ChunkSize(i)
  {
    assert Byte(j);
    ChunkEnd(i, c);
    if j / SEGMENT == i {
      GranuleRange(ChunkSize(i), c, j % SEGMENT);
    }
  }

  lemma ChunkEnd(i: nat, c: nat)
    requires i < CLASSES && c < ChunkCount(i)
    ensures ChunkStart(i, c) + ChunkSize(i) <= i * SEGMENT + SEGMENT <= AREA
  {
    GranuleEnd(ChunkSize(i), c, ChunkCount(i));
  }

  method CopyChunk(dst: array<byte>, src: array<byte>, i: nat, c: nat, ghost cls: seq<nat>, ghost chunk: seq<nat>)
    requires dst != src && dst.Length == src.Length == AREA && Layout(cls, chunk)
    requires i < CLASSES && c < ChunkCount(i)
    modifies dst
    ensures forall j | 0 <= j < AREA :: dst[j] == if cls[j] == i && chunk[j] == c then src[j] else old(dst[j])
  {
    ChunkEnd(i, c);
    CopyRange(dst, src, ChunkStart(i, c), ChunkStart(i, c) + ChunkSize(i));
    forall j | 0 <= j < AREA
      ensures dst[j] == if cls[j] == i && chunk[j] == c then src[j] else old(dst[j])
    {
      ChunkBytes(cls, chunk, i, c, j);
    }
  }

  const BITS := 65536  // bits of the largest bitmap: one byte per chunk, of which one bit is used

  /** A bitmap per class; a class of n chunks has n bytes, and all but the first n bits stay 0. */
  ghost predicate BitmapShape(bits: array2<bool>)
    reads bits
  {
    && bits.Length0 == CLASSES && bits.Length1 == BITS
    && forall i, c | 0 <= i < CLASSES && ChunkCount(i) <= c < BITS :: !bits[i, c]
  }

  predicate ByteIsZero(bits: array2<bool>, i: nat, byteIndex: nat)
    requires i < bits.Length0 && byteIndex * 8 + 8 <= bits.Length1
    reads bits
  {
    forall k | byteIndex * 8 <= k < byteIndex * 8 + 8 :: !bits[i, k]
  }

  /** The marked chunks of class i below n, and of all earlier classes. */
  ghost predicate Done(i: nat, n: nat, cls: nat, chunk: nat) {
    cls < i || (cls == i && chunk < n)
  }

  /** `area` after every marked chunk done so far has been copied from `src`. */
  ghost predicate CopiedMarked(area: seq<byte>, was: seq<byte>, src: seq<byte>, marked: array2<bool>,
                               cls: seq<nat>, chunk: seq<nat>, i: nat, n: nat)
    requires Layout(cls, chunk) && |area| == |was| == |src| == AREA
    requires marked.Length0 == CLASSES && marked.Length1 == BITS
    reads marked
  {
    forall j | 0 <= j < AREA ::
      area[j] == if Done(i, n, cls[j], chunk[j]) && marked[cls[j], chunk[j]] then src[j] else was[j]
  }

  /** One byte of a bitmap: its marked chunks are copied. */
  method CopyMarkedByte(dst: array<byte>, src: array<byte>, marked: array2<bool>, i: nat, byteIndex: nat,
                        ghost was: seq<byte>, ghost cls: seq<nat>, ghost chunk: seq<nat>)
    requires dst != src && dst.Length == src.Length == |was| == AREA && Layout(cls, chunk) && BitmapShape(marked)
    requires i < CLASSES && byteIndex < ChunkCount(i)
    requires CopiedMarked(dst[..], was, src[..], marked, cls, chunk, i, byteIndex * 8)
    modifies dst
    ensures CopiedMarked(dst[..], was, src[..], marked, cls, chunk, i, byteIndex * 8 + 8)
  {
    for k := 0 to 8
      invariant CopiedMarked(dst[..], was, src[..], marked, cls, chunk, i, byteIndex * 8 + k)
    {
      if marked[i, byteIndex * 8 + k] {
        CopyChunk(dst, src, i, byteIndex * 8 + k, cls, chunk);
      }
    }
  }

  /** All bytes of the bitmap of class i, the zero ones skipped. */
  method CopyMarkedClass(dst: array<byte>, src: array<byte>, marked: array2<bool>, i: nat,
                         ghost was: seq<byte>, ghost cls: seq<nat>, ghost chunk: seq<nat>)
    requires dst != src && dst.Length == src.Length == |was| == AREA && Layout(cls, chunk) && BitmapShape(marked)
    requires i < CLASSES && CopiedMarked(dst[..], was, src[..], marked, cls, chunk, i, 0)
    modifies dst
    ensures CopiedMarked(dst[..], was, src[..], marked, cls, chunk, i + 1, 0)
  {
    for b := 0 to ChunkCount(i)
      invariant CopiedMarked(dst[..], was, src[..], marked, cls, chunk, i, b * 8)
    {
      if !ByteIsZero(marked, i, b) {
        CopyMarkedByte(dst, src, marked, i, b, was, cls, chunk);
      }
    }
  }

  /** Every marked chunk copied from src to dst: the nested loops of both `restore_chunks` and of
      `set_used_chunks_ckpt`. */
  method CopyMarked(dst: array<byte>, src: array<byte>, marked: array2<bool>, ghost cls: seq<nat>, ghost chunk: seq<nat>)
    requires dst != src && dst.Length == src.Length == AREA && Layout(cls, chunk) && BitmapShape(marked)
    modifies dst
    ensures forall j | 0 <= j < AREA :: dst[j] == if marked[cls[j], chunk[j]] then src[j] else old(dst[j])
  {
    ghost var was := dst[..];
    for i := 0 to CLASSES
      invariant CopiedMarked(dst[..], was, src[..], marked, cls, chunk, i, 0)
    {
      CopyMarkedClass(dst, src, marked, i, was, cls, chunk);
    }
  }

  /** memcpy and memset of bitmaps. */
  method CopyBitmap(dst: array2<bool>, src: array2<bool>)
    requires dst != src && BitmapShape(src) && dst.Length0 == CLASSES && dst.Length1 == BITS
    modifies dst
    ensures BitmapShape(dst)
    ensures forall i, c | 0 <= i < CLASSES && 0 <= c < BITS :: dst[i, c] == src[i, c]
  {
    forall i, c | 0 <= i < CLASSES && 0 <= c < BITS {
      dst[i, c] := src[i, c];
    }
  }

  method ClearBitmap(bits: array2<bool>)
    requires bits.Length0 == CLASSES && bits.Length1 == BITS
    modifies bits
    ensures BitmapShape(bits) && forall i, c | 0 <= i < CLASSES && 0 <= c < BITS :: !bits[i, c]
  {
    forall i, c | 0 <= i < CLASSES && 0 <= c < BITS {
      bits[i, c] := false;
    }
  }

  // ---- an object's area and allocator together ----

  datatype ObjectState = ObjectState(bytes: Memory, heap: Heap, savedHeap: Heap)

  datatype ObjectOp = OnBytes(op: Op) | OnHeap(request: Request)

  /** Stores stay inside one chunk, and frees are legal. */
  ghost predicate LegalOp(s: ObjectState, op: ObjectOp, cls: seq<nat>, chunk: seq<nat>) {
    && |s.bytes.now| == |s.bytes.saved| == AREA == |cls| == |chunk|
    && HeapInv(s.heap) && HeapInv(s.savedHeap)
    && match op
       case OnBytes(Store(at, bytes)) =>
         && at + |bytes| <= AREA
         && forall j | at <= j < at + |bytes| :: cls[j] == cls[at] && chunk[j] == chunk[at]
       case OnBytes(_) => true
       case OnHeap(r) => Legal(s.heap, r)
  }

  ghost function ApplyObject(s: ObjectState, op: ObjectOp, cls: seq<nat>, chunk: seq<nat>): ObjectState
    requires LegalOp(s, op, cls, chunk)
  {
    match op
    case OnBytes(Checkpoint) => ObjectState(Apply(s.bytes, Checkpoint), s.heap, s.heap)
    case OnBytes(Restore) => ObjectState(Apply(s.bytes, Restore), s.savedHeap, s.savedHeap)
    case OnBytes(store) => s.(bytes := Apply(s.bytes, store))
    case OnHeap(r) => s.(heap := Serve(s.heap, r).0)
  }

  ghost predicate LegalOps(s: ObjectState, ops: seq<ObjectOp>, cls: seq<nat>, chunk: seq<nat>)
    decreases |ops|
  {
    ops == [] ||
    (LegalOp(s, ops[0], cls, chunk) && LegalOps(ApplyObject(s, ops[0], cls, chunk), ops[1..], cls, chunk))
  }

  ghost function RunObject(s: ObjectState, ops: seq<ObjectOp>, cls: seq<nat>, chunk: seq<nat>): ObjectState
    requires LegalOps(s, ops, cls, chunk)
    decreases |ops|
  {
    if ops == [] then s else RunObject(ApplyObject(s, ops[0], cls, chunk), ops[1..], cls, chunk)
  }

  // ---- what CHUNK_FULL promises ----

  /** Stores are free to go anywhere in the area. */
  ghost predicate LegalFullOp(s: ObjectState, op: ObjectOp) {
    && |s.bytes.now| == |s.bytes.saved| == AREA && HeapInv(s.heap) && HeapInv(s.savedHeap)
    && match op
       case OnBytes(Store(at, bytes)) => at + |bytes| <= AREA
       case OnBytes(_) => true
       case OnHeap(r) => Legal(s.heap, r)
  }

  /** Byte j lies in a chunk that the heap has handed out. */
  ghost predicate LiveByte(h: Heap, cls: seq<nat>, chunk: seq<nat>, j: nat)
    requires |h| == CLASSES && Layout(cls, chunk) && j < AREA
  {
    ChunkStart(cls[j], chunk[j]) in h[cls[j]].live
  }

  ghost function LiveRestored(s: ObjectState, cls: seq<nat>, chunk: seq<nat>): (now: seq<byte>)
    requires |s.bytes.now| == |s.bytes.saved| == AREA && |s.savedHeap| == CLASSES && Layout(cls, chunk)
    ensures |now| == AREA
  {
    seq(AREA, j requires 0 <= j < AREA => if LiveByte(s.savedHeap, cls, chunk, j) then s.bytes.saved[j] else s.bytes.now[j])
  }

  /** A rollback gives back the chunks in use at the checkpoint, and the free stacks. */
  ghost function ApplyFull(s: ObjectState, op: ObjectOp, cls: seq<nat>, chunk: seq<nat>): (s': ObjectState)
    requires LegalFullOp(s, op) && Layout(cls, chunk)
    ensures |s'.bytes.now| == |s'.bytes.saved| == AREA
  {
    match op
    case OnBytes(Checkpoint) => ObjectState(Apply(s.bytes, Checkpoint), s.heap, s.heap)
    case OnBytes(Restore) => ObjectState(s.bytes.(now := LiveRestored(s, cls, chunk)), s.savedHeap, s.savedHeap)
    case OnBytes(store) => s.(bytes := Apply(s.bytes, store))
    case OnHeap(r) => s.(heap := Serve(s.heap, r).0)
  }

  ghost predicate LegalFullOps(s: ObjectState, ops: seq<ObjectOp>, cls: seq<nat>, chunk: seq<nat>)
    requires Layout(cls, chunk)
    decreases |ops|
  {
    ops == [] || (LegalFullOp(s, ops[0]) && LegalFullOps(ApplyFull(s, ops[0], cls, chunk), ops[1..], cls, chunk))
  }

  ghost function RunFull(s: ObjectState, ops: seq<ObjectOp>, cls: seq<nat>, chunk: seq<nat>): ObjectState
    requires Layout(cls, chunk) && LegalFullOps(s, ops, cls, chunk)
    decreases |ops|
  {
    if ops == [] then s else RunFull(ApplyFull(s, ops[0], cls, chunk), ops[1..], cls, chunk)
  }

  /** Whatever is stored, allocated, freed or restored since the last checkpoint, a rollback gives back
      the heap, and the bytes of every chunk in use then. */
  lemma {:induction false} RestoreReturnsLive(s: ObjectState, s0: ObjectState, ops: seq<ObjectOp>,
                                              cls: seq<nat>, chunk: seq<nat>, j: nat)
    requires Layout(cls, chunk) && j < AREA && |s.bytes.now| == AREA && |s.heap| == CLASSES
    requires s0.bytes.saved == s.bytes.now && s0.savedHeap == s.heap
    requires LegalFullOps(s0, ops + [OnBytes(Restore)], cls, chunk)
    requires forall i | 0 <= i < |ops| :: ops[i] != OnBytes(Checkpoint)
    ensures var s' := RunFull(s0, ops + [OnBytes(Restore)], cls, chunk);
            && s'.heap == s.heap && |s'.bytes.now| == AREA
            && (LiveByte(s.heap, cls, chunk, j) ==> s'.bytes.now[j] == s.bytes.now[j])
    decreases |ops|
  {
    var all := ops + [OnBytes(Restore)];
    var s1 := ApplyFull(s0, all[0], cls, chunk);
    if ops == [] {
      assert all[1..] == [];
      assert RunFull(s0, all, cls, chunk) == s1;
    } else {
      assert all[0] == ops[0] && all[1..] == ops[1..] + [OnBytes(Restore)];
      RestoreReturnsLive(s, s1, ops[1..], cls, chunk, j);
    }
  }

  // ---- CHUNK_BASED_SAVE ----

  class UndoChunks {
    const stacks: Stacks
    const area: array<byte>
    const shadow: array<byte>
    const bits: array2<bool>
    ghost const cls: seq<nat>
    ghost const chunk: seq<nat>
    ghost var saved: seq<byte>

    ghost predicate Shape() reads this, bits {
      && area != shadow && area.Length == shadow.Length == |saved| == AREA
      && Layout(cls, chunk) && BitmapShape(bits)
    }

    /** The checkpoint bytes of a marked chunk are in the shadow; of any other, in place. */
    ghost predicate Coupled() reads this, area, shadow, bits
      requires Shape()
    {
      forall j | 0 <= j < AREA :: (if bits[cls[j], chunk[j]] then shadow[j] else area[j]) == saved[j]
    }

    ghost predicate Valid()
      reads this, area, shadow, bits, stacks, stacks.addresses, stacks.top, stacks.addressesCkpt, stacks.topCkpt
    {
      Shape() && Coupled() && stacks.Valid()
    }

    ghost function View(): Memory reads this, area {
      Memory(area[..], saved)
    }

    constructor (stacks: Stacks)
      requires stacks.Valid()
      ensures Valid() && this.stacks == stacks
      ensures fresh(area) && fresh(shadow) && fresh(bits)
    {
      this.stacks := stacks;
      var a := new byte[AREA];
      area, shadow := a, new byte[AREA];
      bits := new bool[CLASSES, BITS]((_, _) => false);
      cls, chunk, saved := ClassOfByte(), ChunkOfByte(), a[..];
      LayoutExists();
    }

    /** `ckpt_chunk`: false where the source exits for a bad address. */
    method CkptChunk(ptr: nat) returns (ok: bool)
      requires Shape() && Coupled()
      modifies shadow, bits
      ensures Shape() && Coupled()
      ensures ok == (ptr < AREA) && (ok ==> bits[cls[ptr], chunk[ptr]])
    {
      if ptr >= AREA {
        return false;
      }
      var index := ptr / SEGMENT;
      var c := ptr % SEGMENT / ChunkSize(index);
      assert Byte(ptr);
      if !bits[index, c] {
        CopyChunk(shadow, area, index, c, cls, chunk);
        bits[index, c] := true;
      }
      return true;
    }

    /** An instrumented store inside one chunk. */
    method Store(ptr: nat, data: seq<byte>)
      requires Valid() && ptr + |data| <= AREA
      requires forall j | ptr <= j < ptr + |data| :: cls[j] == cls[ptr] && chunk[j] == chunk[ptr]
      modifies area, shadow, bits
      ensures Valid() && View() == Apply(old(View()), Op.Store(ptr, data))
    {
      if data == [] {
        assert Splice(area[..], ptr, data) == area[..];
        return;
      }
      var ok := CkptChunk(ptr);
      Write(area, ptr, data);
    }

    /** `set_ckpt`: the stacks are saved and the bitmaps cleared. */
    method SetCheckpoint()
      requires Valid()
      modifies this`saved, bits, stacks, stacks.addressesCkpt, stacks.topCkpt
      ensures Valid() && View() == Apply(old(View()), Checkpoint)
      ensures stacks.heap == stacks.savedHeap == old(stacks.heap)
    {
      stacks.SetCheckpoint();
      ClearBitmap(bits);
      saved := area[..];
    }

    /** `restore_object`: the stacks, then the marked chunks of the eight segments, are restored.
        Whatever was stored, allocated, freed or restored since, the whole area is as it was. */
    method RestoreObject()
      requires Valid()
      modifies area, bits, stacks, stacks.addresses, stacks.top
      ensures Valid() && View() == Apply(old(View()), Restore)
      ensures stacks.heap == stacks.savedHeap == old(stacks.savedHeap)
    {
      stacks.Restore();
      CopyMarked(area, shadow, bits, cls, chunk);
      ClearBitmap(bits);
      assert area[..] == saved;
    }

    /** Requests change neither the bytes nor what a rollback will restore. */
    method Serve(r: Request) returns (answer: Answer)
      requires Valid() && Legal(stacks.heap, r)
      modifies stacks`heap, stacks.addresses, stacks.top
      ensures Valid() && View() == old(View())
      ensures (stacks.heap, answer) == Allocator.Serve(old(stacks.heap), r) && stacks.savedHeap == old(stacks.savedHeap)
    {
      match r {
        case Malloc(size) => answer := stacks.Allocate(size);
        case Free(a) => answer := stacks.Release(a);
      }
    }

    ghost function State(): ObjectState reads this, area, stacks {
      ObjectState(View(), stacks.heap, stacks.savedHeap)
    }

    /** Every run of guarded stores, mallocs, frees, checkpoints and rollbacks refines the flat
        specification of the area and of the free stacks together. */
    method Execute(ops: seq<ObjectOp>)
      requires Valid() && LegalOps(State(), ops, cls, chunk)
      modifies this`saved, area, shadow, bits
      modifies stacks, stacks.addresses, stacks.top, stacks.addressesCkpt, stacks.topCkpt
      ensures Valid() && State() == RunObject(old(State()), ops, cls, chunk)
      decreases |ops|
    {
      if ops != [] {
        match ops[0] {
          case OnBytes(Store(at, bytes)) => Store(at, bytes);
          case OnBytes(Checkpoint) => SetCheckpoint();
          case OnBytes(Restore) => RestoreObject();
          case OnHeap(r) => var _ := Serve(r);
        }
        Execute(ops[1..]);
      }
    }
  }

  // ---- CHUNK_FULL ----

  class FullChunks {
    const stacks: Stacks
    const area: array<byte>
    const shadow: array<byte>
    const used: array2<bool>
    const usedCkpt: array2<bool>
    ghost const cls: seq<nat>
    ghost const chunk: seq<nat>
    ghost var saved: seq<byte>

    ghost predicate Shape() reads this, used, usedCkpt {
      && area != shadow && area.Length == shadow.Length == |saved| == AREA
      && used != usedCkpt && Layout(cls, chunk) && BitmapShape(used) && BitmapShape(usedCkpt)
    }

    /** A bitmap marks exactly the chunks that a heap has handed out. */
    static ghost predicate Marks(bits: array2<bool>, h: Heap)
      requires bits.Length0 == CLASSES && bits.Length1 == BITS && |h| == CLASSES
      reads bits
    {
      forall i, c | 0 <= i < CLASSES && 0 <= c < ChunkCount(i) :: bits[i, c] <==> ChunkStart(i, c) in h[i].live
    }

    /** The shadow holds the checkpoint bytes of the chunks then in use. */
    ghost predicate Valid()
      reads this, area, shadow, used, usedCkpt
      reads stacks, stacks.addresses, stacks.top, stacks.addressesCkpt, stacks.topCkpt
    {
      && Shape() && stacks.Valid()
      && Marks(used, stacks.heap) && Marks(usedCkpt, stacks.savedHeap)
      && forall j | 0 <= j < AREA && usedCkpt[cls[j], chunk[j]] :: shadow[j] == saved[j]
    }

    constructor (stacks: Stacks)
      requires stacks.Valid() && stacks.heap == stacks.savedHeap == InitialHeap()
      ensures Valid() && this.stacks == stacks
      ensures fresh(area) && fresh(shadow) && fresh(used) && fresh(usedCkpt)
    {
      this.stacks := stacks;
      var a := new byte[AREA];
      area, shadow := a, new byte[AREA];
      used, usedCkpt := new bool[CLASSES, BITS]((_, _) => false), new bool[CLASSES, BITS]((_, _) => false);
      cls, chunk, saved := ClassOfByte(), ChunkOfByte(), a[..];
      LayoutExists();
      new;
      NoneMarked(used, stacks.heap);
      NoneMarked(usedCkpt, stacks.savedHeap);
    }

    static lemma NoneMarked(bits: array2<bool>, h: Heap)
      requires bits.Length0 == CLASSES && bits.Length1 == BITS && h == InitialHeap()
      requires forall i, c | 0 <= i < CLASSES && 0 <= c < BITS :: !bits[i, c]
      ensures Marks(bits, h)
    {
    }

    /** The usage bitmap is the complement of the free stack. */
    lemma UsageIsComplementOfFree(i: nat, c: nat)
      requires Valid() && i < CLASSES && c < ChunkCount(i)
      ensures used[i, c] <==> ChunkStart(i, c) !in stacks.heap[i].free
    {
      assert PoolInv(stacks.heap[i], i) && IsChunk(i, ChunkStart(i, c));
    }

    /** The usage bit of one chunk, set or cleared. */
    method Mark(a: nat, inUse: bool, ghost h: Heap, ghost h': Heap)
      requires Shape() && |h| == |h'| == CLASSES && Segment(a) < CLASSES && IsChunk(Segment(a), a)
      requires Marks(used, h)
      requires forall i, b | 0 <= i < CLASSES && b != a :: b in h[i].live <==> b in h'[i].live
      requires inUse <==> a in h'[Segment(a)].live
      modifies used
      ensures Shape() && Marks(used, h')
    {
      var i := Segment(a);
      var c := a % SEGMENT / ChunkSize(i);
      ghost var c': nat :| c' < ChunkCount(i) && a == ChunkStart(i, c');
      SegmentOfChunk(i, a);
      GranuleRange(ChunkSize(i), c', a % SEGMENT);
      used[i, c] := inUse;
      forall k, d | 0 <= k < CLASSES && 0 <= d < ChunkCount(k)
        ensures used[k, d] <==> ChunkStart(k, d) in h'[k].live
      {
        if ChunkStart(k, d) == a {
          SameChunk(i, c, k, d);
        }
      }
    }

    lemma SameChunk(i: nat, c: nat, k: nat, d: nat)
      requires i < CLASSES && k < CLASSES && c < ChunkCount(i) && d < ChunkCount(k)
      requires ChunkStart(i, c) == ChunkStart(k, d)
      ensures i == k && c == d
    {
      ChunkEnd(i, c);
      ChunkEnd(k, d);
      if c < d { ChunksOrdered(i, c, d); } else if d < c { ChunksOrdered(i, d, c); }
    }

    /** The chunk of an answer, if there is one, is the only address whose use changes. */
    static ghost predicate Handed(h: Heap, h': Heap, answer: Answer) {
      && |h| == |h'| == CLASSES
      && if answer.Chunk? then
           var a := answer.address;
           && Segment(a) < CLASSES && IsChunk(Segment(a), a) && a in h'[Segment(a)].live
           && forall i, b | 0 <= i < CLASSES && b != a :: b in h[i].live <==> b in h'[i].live
         else h' == h
    }

    static lemma ServeHands(h: Heap, size: nat)
      requires HeapInv(h)
      ensures Handed(h, Allocator.Serve(h, Request.Malloc(size)).0, Allocator.Serve(h, Request.Malloc(size)).1)
    {
      if size > 0 {
        TakenChunk(h, size, SizeClass(size, 0));
      }
    }

    method MarkAnswer(answer: Answer, ghost h: Heap, ghost h': Heap)
      requires Shape() && Handed(h, h', answer) && Marks(used, h)
      modifies used
      ensures Shape() && Marks(used, h')
    {
      if answer.Chunk? {
        Mark(answer.address, true, h, h');
      }
    }

    method Malloc(size: nat) returns (answer: Answer)
      requires Valid()
      modifies used, stacks`heap, stacks.addresses, stacks.top
      ensures Valid() && saved == old(saved) && stacks.savedHeap == old(stacks.savedHeap)
      ensures (stacks.heap, answer) == Allocator.Serve(old(stacks.heap), Request.Malloc(size))
    {
      ghost var h := stacks.heap;
      answer := stacks.Allocate(size);
      ServeHands(h, size);
      MarkAnswer(answer, h, stacks.heap);
    }

    method Free(a: nat) returns (answer: Answer)
      requires Valid() && Legal(stacks.heap, Request.Free(a))
      modifies used, stacks`heap, stacks.addresses, stacks.top
      ensures Valid() && saved == old(saved) && stacks.savedHeap == old(stacks.savedHeap)
      ensures (stacks.heap, answer) == Allocator.Serve(old(stacks.heap), Request.Free(a))
    {
      ghost var h := stacks.heap;
      answer := stacks.Release(a);
      if a < AREA {
        assert PoolInv(h[Segment(a)], Segment(a));
        Mark(a, false, h, stacks.heap);
      }
    }

    /** A store needs no instrumentation in this variant. */
    method Store(ptr: nat, data: seq<byte>)
      requires Valid() && ptr + |data| <= AREA
      modifies area
      ensures Valid() && area[..] == Splice(old(area[..]), ptr, data)
    {
      Write(area, ptr, data);
    }

    /** `set_ckpt` with `set_used_chunks_ckpt`. */
    method SetCheckpoint()
      requires Valid()
      modifies this`saved, shadow, usedCkpt, stacks, stacks.addressesCkpt, stacks.topCkpt
      ensures Valid() && saved == area[..] && stacks.heap == stacks.savedHeap == old(stacks.heap)
    {
      stacks.SetCheckpoint();
      CopyBitmap(usedCkpt, used);
      CopyMarked(shadow, area, used, cls, chunk);
      saved := area[..];
    }

    /** `restore_object`: every byte of a chunk in use at the checkpoint is as it was then, and every
        other byte is left as it is.  So the memcmp of the DEBUG build with the whole checkpointed
        area succeeds exactly if no byte that was free at the checkpoint has changed. */
    method RestoreObject()
      requires Valid()
      modifies area, used, stacks, stacks.addresses, stacks.top
      ensures Valid() && stacks.heap == stacks.savedHeap == old(stacks.savedHeap)
      ensures forall i: nat, c: nat, j: nat | InChunk(i, c, j) ::
                j < AREA && area[j] == if ChunkStart(i, c) in stacks.savedHeap[i].live then saved[j] else old(area[j])
      ensures area[..] == saved <==>
              forall j | 0 <= j < AREA && ChunkStart(cls[j], chunk[j]) !in stacks.savedHeap[cls[j]].live ::
                old(area[j]) == saved[j]
      ensures area[..] == LiveRestored(old(State()), cls, chunk)
    {
      stacks.Restore();
      CopyMarked(area, shadow, usedCkpt, cls, chunk);
      CopyBitmap(used, usedCkpt);
      BytesOfChunks(cls, chunk);
    }

    ghost function State(): ObjectState reads this, area, stacks {
      ObjectState(Memory(area[..], saved), stacks.heap, stacks.savedHeap)
    }

    method Perform(op: ObjectOp)
      requires Valid() && LegalFullOp(State(), op)
      modifies this`saved, area, shadow, used, usedCkpt
      modifies stacks, stacks.addresses, stacks.top, stacks.addressesCkpt, stacks.topCkpt
      ensures Valid() && State() == ApplyFull(old(State()), op, cls, chunk)
    {
      match op {
        case OnBytes(Store(at, bytes)) => Store(at, bytes);
        case OnBytes(Checkpoint) => SetCheckpoint();
        case OnBytes(Restore) => RestoreObject();
        case OnHeap(Malloc(size)) => var _ := Malloc(size);
        case OnHeap(Free(a)) => var _ := Free(a);
      }
    }

    /** Every run of stores, mallocs, frees, checkpoints and rollbacks refines that specification. */
    method Execute(ops: seq<ObjectOp>)
      requires Valid() && LegalFullOps(State(), ops, cls, chunk)
      modifies this`saved, area, shadow, used, usedCkpt
      modifies stacks, stacks.addresses, stacks.top, stacks.addressesCkpt, stacks.topCkpt
      ensures Valid() && State() == RunFull(old(State()), ops, cls, chunk)
      decreases |ops|
    {
      if ops != [] {
        Perform(ops[0]);
        Execute(ops[1..]);
      }
    }

    static lemma BytesOfChunks(cls: seq<nat>, chunk: seq<nat>)
      requires Layout(cls, chunk)
      ensures forall i: nat, c: nat, j: nat | InChunk(i, c, j) :: j < AREA && cls[j] == i && chunk[j] == c
    {
      forall i: nat, c: nat, j: nat | InChunk(i, c, j)
        ensures j < AREA && cls[j] == i && chunk[j] == c
      {
        ChunkEnd(i, c);
        ChunkBytes(cls, chunk, i, c, j);
      }
    }
  }
}
