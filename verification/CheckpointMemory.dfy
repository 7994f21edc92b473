/** What every checkpoint/rollback backend promises: after `restore_object` an object's bytes
    are what they were at the last `set_ckpt` (the memcmp of chunk_ckpt.c and grid_ckpt.c). */
module CheckpointMemory {

  newtype byte = x: int | 0 <= x < 256

  /** The bytes of an object's area now, and at the last checkpoint. */
  datatype Memory = Memory(now: seq<byte>, saved: seq<byte>)

  datatype Op = Store(at: nat, bytes: seq<byte>) | Checkpoint | Restore

  function Splice(s: seq<byte>, at: nat, bytes: seq<byte>): (r: seq<byte>)
    requires at + |bytes| <= |s|
    ensures |r| == |s|
  {
    s[..at] + bytes + s[at + |bytes|..]
  }

  /** Stores stay inside an area of `size` bytes and are at most `width` bytes wide. */
  ghost predicate Fits(op: Op, size: nat, width: nat) {
    op.Store? ==> op.at + |op.bytes| <= size && |op.bytes| <= width
  }

  ghost predicate AllFit(ops: seq<Op>, size: nat, width: nat) {
    forall i | 0 <= i < |ops| :: Fits(ops[i], size, width)
  }

  ghost function Apply(m: Memory, op: Op): (m': Memory)
    requires Fits(op, |m.now|, |m.now|)
    requires |m.saved| == |m.now|
    ensures |m'.now| == |m'.saved| == |m.now|
  {
    match op
    case Store(at, bytes) => m.(now := Splice(m.now, at, bytes))
    case Checkpoint => m.(saved := m.now)
    case Restore => m.(now := m.saved)
  }

  ghost function Run(m: Memory, ops: seq<Op>): (m': Memory)
    requires |m.saved| == |m.now|
    requires AllFit(ops, |m.now|, |m.now|)
    ensures |m'.now| == |m'.saved| == |m.now|
    decreases |ops|
  {
    if ops == [] then m else Run(Apply(m, ops[0]), ops[1..])
  }

  lemma {:induction false} RunAppend(m: Memory, ops: seq<Op>, op: Op)
    requires |m.saved| == |m.now|
    requires AllFit(ops + [op], |m.now|, |m.now|)
    ensures AllFit(ops, |m.now|, |m.now|) && Fits(op, |m.now|, |m.now|)
    ensures Run(m, ops + [op]) == Apply(Run(m, ops), op)
    decreases |ops|
  {
    assert forall i | 0 <= i < |ops| :: ops[i] == (ops + [op])[i];
    assert (ops + [op])[|ops|] == op;
    if ops == [] {
      assert [op][1..] == [];
      assert Run(m, [op]) == Run(Apply(m, op), []);
      assert ops + [op] == [op];
    } else {
      assert (ops + [op])[1..] == ops[1..] + [op];
      RunAppend(Apply(m, ops[0]), ops[1..], op);
    }
  }

  /** However many stores and earlier rollbacks lie between, a rollback gives back the bytes of
      the last checkpoint. */
  lemma {:induction false} RestoreReturnsToCheckpoint(m: Memory, ops: seq<Op>)
    requires |m.saved| == |m.now|
    requires AllFit([Checkpoint] + ops + [Restore], |m.now|, |m.now|)
    requires forall i | 0 <= i < |ops| :: !ops[i].Checkpoint?
    ensures Run(m, [Checkpoint] + ops + [Restore]).now == m.now
    decreases |ops|
  {
    var all := [Checkpoint] + ops;
    RunAppend(m, all, Restore);
    assert all[1..] == ops;
    assert forall i | 0 <= i < |ops| :: ops[i] == all[i + 1];
    SavedKept(m.(saved := m.now), ops);
  }

  lemma {:induction false} SavedKept(m: Memory, ops: seq<Op>)
    requires |m.saved| == |m.now|
    requires AllFit(ops, |m.now|, |m.now|)
    requires forall i | 0 <= i < |ops| :: !ops[i].Checkpoint?
    ensures Run(m, ops).saved == m.saved
    decreases |ops|
  {
    if ops != [] {
      SavedKept(Apply(m, ops[0]), ops[1..]);
    }
  }

  lemma WidthFits(ops: seq<Op>, size: nat, width: nat)
    requires AllFit(ops, size, width)
    ensures AllFit(ops, size, size)
  {
    forall i | 0 <= i < |ops| ensures Fits(ops[i], size, size) {
      assert Fits(ops[i], size, width);
    }
  }

  // ---- cutting a buffer into equal pieces ----

  /** Names the byte at which a lemma looks the layout up. */
  ghost predicate Byte(j: nat) { true }

  /** Granule (or page) of each byte of the area. */
  ghost predicate IsGranuleMap(cell: seq<nat>, granule: nat, granules: nat) {
    && 0 < granule
    && |cell| == granules * granule
    && forall j | 0 <= j < |cell| :: cell[j] == j / granule < granules
  }

  lemma GranuleRange(granule: nat, g: nat, j: nat)
    requires 0 < granule
    ensures j / granule == g <==> g * granule <= j < g * granule + granule
  {
    var q, r := j / granule, j % granule;
    assert j == q * granule + r;
    if q < g {
      assert (q + 1) * granule <= g * granule;
    } else if g < q {
      assert (g + 1) * granule <= q * granule;
    }
  }

  lemma GranuleEnd(granule: nat, g: nat, granules: nat)
    requires g < granules
    ensures g * granule + granule <= granules * granule
  {
    assert (g + 1) * granule <= granules * granule;
  }

  lemma GranuleBound(granule: nat, granules: nat, j: nat)
    requires 0 < granule && j < granules * granule
    ensures j / granule < granules
  {
    if j / granule >= granules {
      GranuleRange(granule, j / granule, j);
    }
  }

  /** The granule of each byte of an area. */
  ghost function GranuleCells(mod: nat, granules: nat): (cell: seq<nat>)
    requires 0 < mod
    ensures IsGranuleMap(cell, mod, granules)
  {
    var c: seq<nat> := seq(granules * mod, j requires 0 <= j => j / mod);
    CellsBelow(c, mod, granules);
    c
  }

  lemma CellsBelow(cell: seq<nat>, mod: nat, granules: nat)
    requires 0 < mod && |cell| == granules * mod && forall j | 0 <= j < |cell| :: cell[j] == j / mod
    ensures IsGranuleMap(cell, mod, granules)
  {
    forall j | 0 <= j < |cell| ensures cell[j] < granules {
      GranuleBound(mod, granules, j);
    }
  }

  lemma GranuleOrNext(granule: nat, g: nat, lo: nat, j: nat)
    requires 0 < granule && lo == g * granule && lo <= j < lo + granule + granule
    ensures j / granule == if j < lo + granule then g else g + 1
  {
    assert (g + 1) * granule == lo + granule;
    GranuleRange(granule, g, j);
    GranuleRange(granule, g + 1, j);
  }

  lemma DivMod(granule: nat, off: nat)
    requires 0 < granule
    ensures off == off / granule * granule + off % granule && off % granule < granule
  {
  }

  /** A store of at most one granule's width touches its own granule, and the next one only if unaligned. */
  lemma NeighbourGranule(granule: nat, granules: nat, off: nat, j: nat)
    requires 0 < granule && off <= j < off + granule && j < granules * granule
    ensures j / granule == off / granule || (off % granule != 0 && j / granule == off / granule + 1)
    ensures j / granule < granules
    ensures off / granule * granule == granules * granule - granule ==> j / granule == off / granule
  {
    DivMod(granule, off);
    GranuleOrNext(granule, off / granule, off / granule * granule, j);
    GranuleBound(granule, granules, j);
  }

  // ---- memcpy on buffers ----

  /** memcpy of the bytes lo..hi of src to the same place in dst. */
  method CopyRange(dst: array<byte>, src: array<byte>, lo: nat, hi: nat)
    requires dst != src && lo <= hi <= dst.Length && hi <= src.Length
    modifies dst
    ensures forall j | 0 <= j < dst.Length :: dst[j] == if lo <= j < hi then src[j] else old(dst[j])
  {
    for i := lo to hi
      invariant forall j | 0 <= j < dst.Length :: dst[j] == if lo <= j < i then src[j] else old(dst[j])
    {
      dst[i] := src[i];
    }
  }

  /** memcpy of granule g between two buffers. */
  method CopyGranule(dst: array<byte>, src: array<byte>, granule: nat, g: nat, ghost cell: seq<nat>, ghost granules: nat)
    requires dst != src && IsGranuleMap(cell, granule, granules) && g < granules
    requires dst.Length == |cell| == src.Length
    modifies dst
    ensures forall j | 0 <= j < dst.Length :: dst[j] == if cell[j] == g then src[j] else old(dst[j])
  {
    GranuleEnd(granule, g, granules);
    CopyRange(dst, src, g * granule, g * granule + granule);
    forall j | 0 <= j < dst.Length
      ensures dst[j] == if cell[j] == g then src[j] else old(dst[j])
    {
      GranuleRange(granule, g, j);
    }
  }

  /** The store itself. */
  method Write(dst: array<byte>, at: nat, bytes: seq<byte>)
    requires at + |bytes| <= dst.Length
    modifies dst
    ensures dst[..] == Splice(old(dst[..]), at, bytes)
    ensures forall j | 0 <= j < dst.Length :: !(at <= j < at + |bytes|) ==> dst[j] == old(dst[j])
  {
    for i := 0 to |bytes|
      invariant forall j | 0 <= j < dst.Length ::
                  dst[j] == if at <= j < at + i then bytes[j - at] else old(dst[j])
    {
      dst[at + i] := bytes[i];
    }
    assert dst[..] == Splice(old(dst[..]), at, bytes);
  }

  /** memset of a stretch of a bitmap to 0. */
  method ClearBits(bits: array<bool>, lo: nat, hi: nat)
    requires lo <= hi <= bits.Length
    modifies bits
    ensures forall i | 0 <= i < bits.Length :: bits[i] == (old(bits[i]) && !(lo <= i < hi))
  {
    for i := lo to hi
      invariant forall k | 0 <= k < bits.Length :: bits[k] == (old(bits[k]) && !(lo <= k < i))
    {
      bits[i] := false;
    }
  }
}
