/** The per-object allocator of memory/memory.c: eight size classes, each a stack of free chunk
    addresses in one eighth of the object's 2 MB area, with its own checkpoint.
    Addresses are offsets from the object's base. */
module Allocator {

  const CLASSES := 8
  const SEGMENT := 262144  // MAX_MEMORY >> 3
  const AREA := 2097152    // MAX_MEMORY
  const MAX_CHUNK := 4096

  /** MIN_CHUNK_SIZE << i, and how many such chunks a segment holds. */
  function ChunkSize(i: nat): (c: nat)
    requires i < CLASSES
    ensures 32 <= c <= MAX_CHUNK
  {
    [32, 64, 128, 256, 512, 1024, 2048, 4096][i]
  }

  function ChunkCount(i: nat): (n: nat)
    requires i < CLASSES
    ensures n * ChunkSize(i) == SEGMENT && n <= 8192
  {
    [8192, 4096, 2048, 1024, 512, 256, 128, 64][i]
  }

  function ChunkStart(i: nat, c: nat): nat
    requires i < CLASSES
  {
    i * SEGMENT + c * ChunkSize(i)
  }

  /** The free addresses of one class, next one first, and the addresses handed out. */
  datatype Pool = Pool(free: seq<nat>, live: set<nat>)

  type Heap = seq<Pool>

  ghost predicate IsChunk(i: nat, a: nat)
    requires i < CLASSES
  {
    exists c: nat :: c < ChunkCount(i) && a == ChunkStart(i, c)
  }

  /** Free and live addresses are the chunks of the class, each in exactly one of the two. */
  ghost predicate PoolInv(p: Pool, i: nat)
    requires i < CLASSES
  {
    && (forall k | 0 <= k < |p.free| :: IsChunk(i, p.free[k]) && p.free[k] !in p.live)
    && (forall k, m | 0 <= k < m < |p.free| :: p.free[k] != p.free[m])
    && (forall a | a in p.live :: IsChunk(i, a))
    && (forall a | IsChunk(i, a) :: a in p.live || a in p.free)
    && |p.free| + |p.live| == ChunkCount(i)
  }

  ghost predicate HeapInv(h: Heap) {
    |h| == CLASSES && forall i | 0 <= i < CLASSES :: PoolInv(h[i], i)
  }

  function Segment(a: nat): nat { a / SEGMENT }

  // ---- requests ----

  datatype Answer = Null | Unavailable | Chunk(address: nat)

  /** The class of the smallest chunk that fits, and the last class for larger requests. */
  ghost predicate IsSizeClass(size: nat, i: nat) {
    && i < CLASSES
    && (size <= ChunkSize(i) || i == CLASSES - 1)
    && forall k | 0 <= k < i :: ChunkSize(k) < size
  }

  /** The first class from i on that has a free chunk. */
  function FirstNonEmpty(h: Heap, i: nat): (k: nat)
    requires i <= |h|
    ensures i <= k <= |h|
    ensures k < |h| ==> h[k].free != []
    ensures forall m | i <= m < k :: h[m].free == []
    decreases |h| - i
  {
    if i == |h| || h[i].free != [] then i else FirstNonEmpty(h, i + 1)
  }

  ghost function Take(h: Heap, i: nat): (Heap, Answer)
    requires i <= |h|
  {
    var k := FirstNonEmpty(h, i);
    if k == |h| then (h, Unavailable)
    else
      var a := h[k].free[0];
      (h[k := Pool(h[k].free[1..], h[k].live + {a})], Chunk(a))
  }

  ghost function Give(h: Heap, a: nat): Heap
    requires Segment(a) < |h|
  {
    var i := Segment(a);
    h[i := Pool([a] + h[i].free, h[i].live - {a})]
  }

  lemma SegmentOfChunk(i: nat, a: nat)
    requires i < CLASSES && IsChunk(i, a)
    ensures Segment(a) == i && a + ChunkSize(i) <= i * SEGMENT + SEGMENT <= AREA
  {
    var c: nat :| c < ChunkCount(i) && a == ChunkStart(i, c);
    assert (c + 1) * ChunkSize(i) <= ChunkCount(i) * ChunkSize(i);
  }

  lemma TakeInv(h: Heap, i: nat)
    requires HeapInv(h) && i <= CLASSES
    ensures HeapInv(Take(h, i).0)
  {
    var k := FirstNonEmpty(h, i);
    if k < CLASSES {
      var p, a := h[k], h[k].free[0];
      var q := Pool(p.free[1..], p.live + {a});
      forall b | IsChunk(k, b) ensures b in q.live || b in q.free {
        if b !in p.live && b != a {
          var m :| 0 <= m < |p.free| && p.free[m] == b;
          assert q.free[m - 1] == b;
        }
      }
      assert PoolInv(q, k);
    }
  }

  lemma GiveInv(h: Heap, a: nat)
    requires HeapInv(h) && Segment(a) < CLASSES && a in h[Segment(a)].live
    ensures HeapInv(Give(h, a))
  {
    var i := Segment(a);
    var p := h[i];
    var q := Pool([a] + p.free, p.live - {a});
    forall b | IsChunk(i, b) ensures b in q.live || b in q.free {
      if b !in p.live {
        var m :| 0 <= m < |p.free| && p.free[m] == b;
        assert q.free[m + 1] == b;
      } else if b == a {
        assert q.free[0] == b;
      }
    }
    assert PoolInv(q, i);
  }

  /** A chunk handed out was not live, has room for the request exactly if it is at most 4096 bytes
      (larger requests get the last class), and overlaps no live chunk of any class. */
  lemma TakenChunk(h: Heap, size: nat, i: nat)
    requires HeapInv(h) && IsSizeClass(size, i)
    ensures var answer := Take(h, i).1;
            if answer.Chunk? then
              var a, k := answer.address, Segment(answer.address);
              && i <= k < CLASSES && IsChunk(k, a) && a !in h[k].live && a + ChunkSize(k) <= AREA
              && (size <= ChunkSize(k) <==> size <= MAX_CHUNK)
              && (forall m | i <= m < k :: h[m].free == [])
            else answer == Unavailable && forall m | i <= m < |h| :: h[m].free == []
  {
    var k := FirstNonEmpty(h, i);
    if k < CLASSES {
      var a := h[k].free[0];
      SegmentOfChunk(k, a);
      assert forall m, n | 0 <= m <= n < CLASSES :: ChunkSize(m) <= ChunkSize(n);
    }
  }

  /** Two live chunks, of the same class or not, share no byte. */
  lemma LiveDisjoint(h: Heap, i: nat, k: nat, a: nat, b: nat)
    requires HeapInv(h) && i < CLASSES && k < CLASSES
    requires a in h[i].live && b in h[k].live && a != b
    ensures a + ChunkSize(i) <= b || b + ChunkSize(k) <= a
  {
    SegmentOfChunk(i, a);
    SegmentOfChunk(k, b);
    if i == k {
      var c: nat :| c < ChunkCount(i) && a == ChunkStart(i, c);
      var d: nat :| d < ChunkCount(i) && b == ChunkStart(i, d);
      if c < d { ChunksOrdered(i, c, d); } else { ChunksOrdered(i, d, c); }
    }
  }

  lemma ChunksOrdered(i: nat, c: nat, d: nat)
    requires i < CLASSES && c < d
    ensures ChunkStart(i, c) + ChunkSize(i) <= ChunkStart(i, d)
  {
    assert (c + 1) * ChunkSize(i) <= d * ChunkSize(i);
  }

  datatype Request = Malloc(size: nat) | Free(address: nat)

  /** free() is given the start of a live chunk, or an address outside the area. */
  ghost predicate Legal(h: Heap, r: Request)
    requires HeapInv(h)
  {
    r.Free? && r.address < AREA ==> r.address in h[Segment(r.address)].live
  }

  function SizeClass(size: nat, i: nat): (k: nat)
    requires i < CLASSES && forall m | 0 <= m < i :: ChunkSize(m) < size
    ensures IsSizeClass(size, k)
    decreases CLASSES - i
  {
    if size <= ChunkSize(i) || i == CLASSES - 1 then i else SizeClass(size, i + 1)
  }

  ghost function Serve(h: Heap, r: Request): (Heap, Answer)
    requires HeapInv(h) && Legal(h, r)
  {
    match r
    case Malloc(size) => if size == 0 then (h, Null) else Take(h, SizeClass(size, 0))
    case Free(a) => if a < AREA then (Give(h, a), Null) else (h, Unavailable)
  }

  lemma ServeInv(h: Heap, r: Request)
    requires HeapInv(h) && Legal(h, r)
    ensures HeapInv(Serve(h, r).0)
  {
    match r
    case Malloc(size) => TakeInv(h, SizeClass(size, 0));
    case Free(a) => if a < AREA { GiveInv(h, a); }
  }

  /** A free undoes the malloc that handed the chunk out. */
  lemma FreeUndoesMalloc(h: Heap, size: nat)
    requires HeapInv(h)
    ensures var (h', answer) := Serve(h, Malloc(size));
            answer.Chunk? ==>
              && HeapInv(h') && Legal(h', Free(answer.address)) && answer.address < AREA
              && Serve(h', Free(answer.address)).0 == h
  {
    ServeInv(h, Malloc(size));
    if size > 0 {
      var i := SizeClass(size, 0);
      TakenChunk(h, size, i);
      var k := FirstNonEmpty(h, i);
      if k < CLASSES {
        var p, a := h[k], h[k].free[0];
        SegmentOfChunk(k, a);
        assert p.live + {a} - {a} == p.live && [a] + p.free[1..] == p.free;
        assert h[k := p] == h;
      }
    }
  }

  /** And the next malloc of the class gets the chunk freed last, which undoes the free. */
  lemma MallocUndoesFree(h: Heap, a: nat, size: nat)
    requires HeapInv(h) && Legal(h, Free(a)) && a < AREA && 0 < size && IsSizeClass(size, Segment(a))
    ensures HeapInv(Serve(h, Free(a)).0)
    ensures Serve(Serve(h, Free(a)).0, Malloc(size)) == (h, Chunk(a))
  {
    ServeInv(h, Free(a));
    var i := Segment(a);
    var p, h' := h[i], Give(h, a);
    OneSizeClass(size, i, SizeClass(size, 0));
    assert FirstNonEmpty(h', i) == i;
    assert p.live - {a} + {a} == p.live && ([a] + p.free)[1..] == p.free;
    assert h'[i := p] == h;
  }

  lemma OneSizeClass(size: nat, i: nat, k: nat)
    requires IsSizeClass(size, i) && IsSizeClass(size, k)
    ensures i == k
  {
  }

  ghost predicate LegalRun(h: Heap, rs: seq<Request>)
    requires HeapInv(h)
    decreases |rs|
  {
    rs == [] ||
    (Legal(h, rs[0]) && (ServeInv(h, rs[0]); LegalRun(Serve(h, rs[0]).0, rs[1..])))
  }

  ghost function HeapAfter(h: Heap, rs: seq<Request>): (h': Heap)
    requires HeapInv(h) && LegalRun(h, rs)
    ensures HeapInv(h')
    decreases |rs|
  {
    if rs == [] then h
    else
      ServeInv(h, rs[0]);
      HeapAfter(Serve(h, rs[0]).0, rs[1..])
  }

  ghost function Answers(h: Heap, rs: seq<Request>): (answers: seq<Answer>)
    requires HeapInv(h) && LegalRun(h, rs)
    ensures |answers| == |rs|
    decreases |rs|
  {
    if rs == [] then []
    else
      ServeInv(h, rs[0]);
      [Serve(h, rs[0]).1] + Answers(Serve(h, rs[0]).0, rs[1..])
  }

  function InitialAddress(i: nat, c: nat): nat {
    if i < CLASSES then ChunkStart(i, c) else 0
  }

  ghost function InitialHeap(): (h: Heap)
    ensures |h| == CLASSES
  {
    seq(CLASSES, i requires 0 <= i < CLASSES => Pool(seq(ChunkCount(i), c requires 0 <= c => ChunkStart(i, c)), {}))
  }

  lemma InitialHeapInv()
    ensures HeapInv(InitialHeap())
  {
    forall i | 0 <= i < CLASSES ensures PoolInv(InitialHeap()[i], i) {
      var p := InitialHeap()[i];
      forall k, m | 0 <= k < m < |p.free| ensures p.free[k] != p.free[m] {
        ChunksOrdered(i, k, m);
      }
      forall a | IsChunk(i, a) ensures a in p.free {
        var c: nat :| c < ChunkCount(i) && a == ChunkStart(i, c);
        assert p.free[c] == a;
      }
    }
  }

  /** The arrays of the eight areas, one row per class. */
  class Stacks {
    const addresses: array2<nat>
    const top: array<nat>
    const addressesCkpt: array2<nat>
    const topCkpt: array<nat>
    ghost var heap: Heap       // free and live addresses now
    ghost var savedHeap: Heap  // and at the last checkpoint

    ghost predicate Shape() reads this {
      && addresses != addressesCkpt && top != topCkpt
      && addresses.Length0 == addressesCkpt.Length0 == top.Length == topCkpt.Length == CLASSES
      && addresses.Length1 == addressesCkpt.Length1 == 8192
    }

    /** Row i from its top holds these addresses; what lies below the top is stale. */
    static ghost predicate HoldsRow(rows: array2<nat>, i: nat, top: nat, free: seq<nat>)
      requires i < CLASSES == rows.Length0 && rows.Length1 == 8192
      reads rows
    {
      top + |free| == ChunkCount(i) && forall k | 0 <= k < |free| :: rows[i, top + k] == free[k]
    }

    static ghost predicate Holds(rows: array2<nat>, tops: array<nat>, h: Heap, n: nat)
      requires rows.Length0 == tops.Length == CLASSES == |h| && rows.Length1 == 8192 && n <= CLASSES
      reads rows, tops
    {
      forall i | 0 <= i < n :: HoldsRow(rows, i, tops[i], h[i].free)
    }

    ghost predicate Valid() reads this, addresses, top, addressesCkpt, topCkpt {
      && Shape() && HeapInv(heap) && HeapInv(savedHeap)
      && Holds(addresses, top, heap, CLASSES) && Holds(addressesCkpt, topCkpt, savedHeap, CLASSES)
    }

    /** `object_allocator_setup`: every chunk is free, in address order.  The checkpoint copy, which
        the source leaves unset until the first `set_ckpt`, starts out equal. */
    constructor ()
      ensures Valid() && heap == savedHeap == InitialHeap()
      ensures fresh(addresses) && fresh(top) && fresh(addressesCkpt) && fresh(topCkpt)
    {
      addresses, addressesCkpt := new nat[CLASSES, 8192](InitialAddress), new nat[CLASSES, 8192](InitialAddress);
      top, topCkpt := new nat[CLASSES](_ => 0), new nat[CLASSES](_ => 0);
      heap, savedHeap := InitialHeap(), InitialHeap();
      new;
      InitialHeapInv();
      forall i | 0 <= i < CLASSES
        ensures HoldsRow(addresses, i, 0, heap[i].free) && HoldsRow(addressesCkpt, i, 0, heap[i].free)
      {
      }
    }

    /** Per class, as many chunks are live as `top_elem` says; so a free never underflows. */
    lemma TopIsLiveCount(i: nat)
      requires Valid() && i < CLASSES
      ensures top[i] == |heap[i].live|
    {
      assert PoolInv(heap[i], i);
    }

    /** The class search and the fall-through to larger classes of `__wrap_malloc`. */
    method FindClass(size: nat) returns (index: nat)
      requires Valid()
      ensures index == FirstNonEmpty(heap, SizeClass(size, 0))
    {
      var i, chunkSize := 0, 32;
      index := 0;
      while chunkSize <= MAX_CHUNK
        invariant i <= CLASSES && (i < CLASSES ==> chunkSize == ChunkSize(i)) && (i == CLASSES ==> chunkSize > MAX_CHUNK)
        invariant i > 0 ==> index == i - 1
        invariant forall m | 0 <= m < i :: ChunkSize(m) < size
        invariant i < CLASSES ==> SizeClass(size, 0) == SizeClass(size, i)
        invariant i == CLASSES ==> SizeClass(size, 0) == CLASSES - 1
        decreases CLASSES - i
      {
        if size <= chunkSize {
          index := i;
          break;
        }
        chunkSize := chunkSize * 2;
        index := i;
        i := i + 1;
      }
      assert index == SizeClass(size, 0);
      while index < CLASSES && top[index] == ChunkCount(index)
        invariant index <= CLASSES
        invariant FirstNonEmpty(heap, SizeClass(size, 0)) == FirstNonEmpty(heap, index)
        decreases CLASSES - index
      {
        assert heap[index].free == [];
        index := index + 1;
      }
    }

    /** The next free address of a class. */
    method Pop(index: nat, ghost h: Heap) returns (a: nat)
      requires Shape() && index < CLASSES == |heap| == |h| && heap[index].free != [] && Holds(addresses, top, heap, CLASSES)
      requires h == heap[index := h[index]] && h[index].free == heap[index].free[1..]
      modifies top
      ensures Holds(addresses, top, h, CLASSES) && a == heap[index].free[0]
    {
      assert HoldsRow(addresses, index, top[index], heap[index].free);
      a := addresses[index, top[index] + 0];
      top[index] := top[index] + 1;
      forall i | 0 <= i < CLASSES ensures HoldsRow(addresses, i, top[i], h[i].free) {
        assert old(HoldsRow(addresses, i, top[i], heap[i].free));
        if i == index {
          assert forall k | 0 <= k < |h[i].free| :: h[i].free[k] == heap[i].free[k + 1];
        }
      }
    }

    method Push(index: nat, a: nat, ghost h: Heap)
      requires Shape() && index < CLASSES == |heap| == |h| && 0 < top[index] && Holds(addresses, top, heap, CLASSES)
      requires h == heap[index := h[index]] && h[index].free == [a] + heap[index].free
      modifies top, addresses
      ensures Holds(addresses, top, h, CLASSES)
    {
      assert HoldsRow(addresses, index, top[index], heap[index].free);
      top[index] := top[index] - 1;
      addresses[index, top[index]] := a;
      forall i | 0 <= i < CLASSES ensures HoldsRow(addresses, i, top[i], h[i].free) {
        assert old(HoldsRow(addresses, i, top[i], heap[i].free));
        if i == index {
          assert forall k | 1 <= k < |h[i].free| :: h[i].free[k] == heap[i].free[k - 1];
        }
      }
    }

    /** `__wrap_malloc`. */
    method Allocate(size: nat) returns (answer: Answer)
      requires Valid()
      modifies this`heap, top
      ensures Valid() && (heap, answer) == Serve(old(heap), Malloc(size))
    {
      if size == 0 {
        return Null;
      }
      var index := FindClass(size);
      if index == CLASSES {
        return Unavailable;
      }
      TakeInv(heap, SizeClass(size, 0));
      ghost var h := Take(heap, SizeClass(size, 0)).0;
      var a := Pop(index, h);
      heap := h;
      return Chunk(a);
    }

    /** `__wrap_free`. */
    method Release(ptr: nat) returns (answer: Answer)
      requires Valid() && Legal(heap, Free(ptr))
      modifies this`heap, top, addresses
      ensures Valid() && (heap, answer) == Serve(old(heap), Free(ptr))
    {
      if ptr >= AREA {
        return Unavailable;
      }
      var index := ptr / SEGMENT;
      GiveInv(heap, ptr);
      TopIsLiveCount(index);
      LiveIsPositive(heap[index].live, ptr);
      ghost var h := Give(heap, ptr);
      Push(index, ptr, h);
      heap := h;
      return Null;
    }

    lemma LiveIsPositive(live: set<nat>, a: nat)
      requires a in live
      ensures 0 < |live|
    {
    }

    static method CopyRow(dst: array2<nat>, src: array2<nat>, i: nat, lo: nat, hi: nat)
      requires dst != src && i < dst.Length0 == src.Length0 && lo <= hi <= dst.Length1 == src.Length1
      modifies dst
      ensures forall m, k | 0 <= m < dst.Length0 && 0 <= k < dst.Length1 ::
                dst[m, k] == if m == i && lo <= k < hi then src[i, k] else old(dst[m, k])
    {
      for j := lo to hi
        invariant forall m, k | 0 <= m < dst.Length0 && 0 <= k < dst.Length1 ::
                    dst[m, k] == if m == i && lo <= k < j then src[i, k] else old(dst[m, k])
      {
        dst[i, j] := src[i, j];
      }
    }

    /** The free part of every row of `src` copied to `dst`, with its top: the loops of
        `set_allocator_ckpt` and `restore_allocator`. */
    static method CopyRows(dst: array2<nat>, dstTop: array<nat>, src: array2<nat>, srcTop: array<nat>, ghost h: Heap)
      requires dst != src && dstTop != srcTop && |h| == CLASSES
      requires dst.Length0 == src.Length0 == dstTop.Length == srcTop.Length == CLASSES
      requires dst.Length1 == src.Length1 == 8192
      requires Holds(src, srcTop, h, CLASSES)
      modifies dst, dstTop
      ensures Holds(dst, dstTop, h, CLASSES)
    {
      for i := 0 to CLASSES
        invariant Holds(dst, dstTop, h, i)
      {
        assert HoldsRow(src, i, srcTop[i], h[i].free);
        label before:
        dstTop[i] := srcTop[i];
        CopyRow(dst, src, i, dstTop[i], ChunkCount(i));
        forall m | 0 <= m < i ensures HoldsRow(dst, m, dstTop[m], h[m].free) {
          assert old@before(HoldsRow(dst, m, dstTop[m], h[m].free));
        }
      }
    }

    method SetCheckpoint()
      requires Valid()
      modifies this`savedHeap, addressesCkpt, topCkpt
      ensures Valid() && savedHeap == heap
    {
      CopyRows(addressesCkpt, topCkpt, addresses, top, heap);
      savedHeap := heap;
    }

    method Restore()
      requires Valid()
      modifies this`heap, addresses, top
      ensures Valid() && heap == savedHeap
    {
      CopyRows(addresses, top, addressesCkpt, topCkpt, savedHeap);
      heap := savedHeap;
    }

    method ServeAll(rs: seq<Request>) returns (answers: seq<Answer>)
      requires Valid() && LegalRun(heap, rs)
      modifies this`heap, addresses, top
      ensures Valid() && heap == HeapAfter(old(heap), rs) && answers == Answers(old(heap), rs)
      decreases |rs|
    {
      if rs == [] {
        return [];
      }
      var answer;
      match rs[0] {
        case Malloc(size) => answer := Allocate(size);
        case Free(a) => answer := Release(a);
      }
      var rest := ServeAll(rs[1..]);
      return [answer] + rest;
    }

    /** What rollback replay needs: whatever was requested since the checkpoint, after a restore the
        same requests get the same addresses as they got then. */
    method ReplayGetsSameAddresses(rs: seq<Request>, between: seq<Request>) returns (first: seq<Answer>, again: seq<Answer>)
      requires Valid() && LegalRun(heap, rs) && LegalRun(HeapAfter(heap, rs), between)
      modifies this`heap, this`savedHeap, addresses, top, addressesCkpt, topCkpt
      ensures Valid() && first == again == Answers(old(heap), rs)
    {
      SetCheckpoint();
      first := ServeAll(rs);
      var _ := ServeAll(between);
      Restore();
      again := ServeAll(rs);
    }
  }
}
