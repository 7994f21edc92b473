/** MVM_GRID_CKPT_BS: a full copy of the area at the checkpoint, dirty bits in front of the stores, and
    a rollback of the dirty granules.  The object's memory is one buffer: the area, its copy, and a third
    part of the same size that begins with the bitmap. */
module DirtyGrid {
  import opened CheckpointMemory

  // ---- the bits of a byte ----

  function BitsOf(v: nat, k: nat): (b: seq<bool>)
    ensures |b| == k
  {
    if k == 0 then [] else [v % 2 == 1] + BitsOf(v / 2, k - 1)
  }

  function FromBits(b: seq<bool>): nat {
    if b == [] then 0 else (if b[0] then 1 else 0) + 2 * FromBits(b[1..])
  }

  function Power2(k: nat): nat {
    if k == 0 then 1 else 2 * Power2(k - 1)
  }

  lemma {:induction false} FromBitsBound(b: seq<bool>)
    ensures FromBits(b) < Power2(|b|)
  {
    if b != [] {
      FromBitsBound(b[1..]);
    }
  }

  lemma {:induction false} BitsRoundTrip(b: seq<bool>)
    ensures BitsOf(FromBits(b), |b|) == b
  {
    if b != [] {
      BitsRoundTrip(b[1..]);
      assert FromBits(b) / 2 == FromBits(b[1..]);
      assert b == [b[0]] + b[1..];
    }
  }

  lemma {:induction false} ZeroBits(k: nat)
    ensures forall i | 0 <= i < k :: !BitsOf(0, k)[i]
  {
    if k > 0 {
      ZeroBits(k - 1);
    }
  }

  function Bits(b: byte): (s: seq<bool>)
    ensures |s| == 8
  {
    BitsOf(b as nat, 8)
  }

  function Packed(s: seq<bool>): (b: byte)
    requires |s| == 8
    ensures Bits(b) == s
  {
    FromBitsBound(s);
    BitsRoundTrip(s);
    assert Power2(8) == 4 * Power2(6) == 16 * Power2(4) == 256;
    FromBits(s) as byte
  }

  lemma NothingInZero(k: nat)
    requires k < 8
    ensures !Bits(0)[k]
  {
    ZeroBits(8);
  }

  /** The 8-bit OR with 1 << k. */
  function OrByte(b: byte, k: nat): byte
    requires k < 8
  {
    Packed(Bits(b)[k := true])
  }

  /** The 16-bit OR with 3 << k of the word whose low byte is lo and whose high byte is hi. */
  function OrWord(lo: byte, hi: byte, k: nat): (byte, byte)
    requires k < 8
  {
    var word := (Bits(lo) + Bits(hi))[k := true][k + 1 := true];
    (Packed(word[..8]), Packed(word[8..]))
  }

  lemma OrWordBits(lo: byte, hi: byte, k: nat, i: nat)
    requires k < 8 && i < 8
    ensures Bits(OrWord(lo, hi, k).0)[i] <==> Bits(lo)[i] || i == k || i == k + 1
    ensures Bits(OrWord(lo, hi, k).1)[i] <==> Bits(hi)[i] || i + 8 == k + 1
  {
  }

  // ---- the buffer ----

  /** MOD, the number of granules, the area's size, and the bits that the scan by 64-bit words reads. */
  datatype Geometry = Geometry(granule: nat, granules: nat, size: nat, scanned: nat) {
    ghost predicate Valid() {
      && 0 < granule <= size && 8 <= granules <= size && granules % 8 == 0
      && granules <= scanned < granules + 64 && scanned % 64 == 0
    }
  }

  /** Where the area, and one granule behind it, end among the granules of the bytes. */
  ghost predicate Shape(geo: Geometry, cell: seq<nat>, n: nat) {
    && geo.Valid() && |cell| == n == 3 * geo.size
    && (forall j | 0 <= j < n :: cell[j] < geo.granules <==> j < geo.size)
    && (forall j | 0 <= j < n :: cell[j] <= geo.granules <==> j < geo.size + geo.granule)
  }

  function Area(geo: Geometry, m: seq<byte>): (r: seq<byte>)
    requires |m| == 3 * geo.size
    ensures |r| == geo.size
  {
    m[..geo.size]
  }

  function Copy(geo: Geometry, m: seq<byte>): (r: seq<byte>)
    requires |m| == 3 * geo.size
    ensures |r| == geo.size
  {
    m[geo.size..2 * geo.size]
  }

  /** The third part; the bitmap is its beginning. */
  function Map(geo: Geometry, m: seq<byte>): (r: seq<byte>)
    requires |m| == 3 * geo.size
    ensures |r| == geo.size
  {
    m[2 * geo.size..]
  }

  predicate Marked(map': seq<byte>, g: nat)
    requires g / 8 < |map'|
  {
    Bits(map'[g / 8])[g % 8]
  }

  // ---- what the code does to the three parts ----

  /** `ckpt_assembly` before a store that begins in granule g. */
  function Dirtied(map': seq<byte>, g: nat, aligned: bool): (r: seq<byte>)
    requires g / 8 + 1 < |map'|
    ensures |r| == |map'|
  {
    var at := g / 8;
    if aligned then map'[at := OrByte(map'[at], g % 8)]
    else map'[at := OrWord(map'[at], map'[at + 1], g % 8).0][at + 1 := OrWord(map'[at], map'[at + 1], g % 8).1]
  }

  function Cleared(geo: Geometry, map': seq<byte>): (r: seq<byte>)
    requires geo.granules / 8 + 1 <= |map'|
    ensures |r| == |map'|
  {
    seq(|map'|, j requires 0 <= j < |map'| => if j < geo.granules / 8 + 1 then 0 else map'[j])
  }

  /** The outcome of `_restore_area` before the bitmap is cleared: a byte of the area, or of what lies
      behind it, whose granule the scan finds marked is replaced by the byte one area further on. */
  function Restored(geo: Geometry, cell: seq<nat>, m: seq<byte>): (m': seq<byte>)
    requires geo.Valid() && |cell| == |m| == 3 * geo.size
    ensures |m'| == |m|
  {
    seq(|m|, j requires 0 <= j < |m| =>
      if j < 2 * geo.size && cell[j] < geo.scanned && Marked(Map(geo, m), cell[j]) then m[geo.size + j] else m[j])
  }

  /** The copy is the checkpoint, only marked granules differ from it, and no bit behind the spare one
      is set. */
  ghost predicate BufferInv(geo: Geometry, cell: seq<nat>, area: seq<byte>, copy: seq<byte>, map': seq<byte>, saved: seq<byte>) {
    && Shape(geo, cell, |cell|) && |area| == |map'| == geo.size
    && copy == saved && |saved| == geo.size
    && (forall j | 0 <= j < geo.size && !Marked(map', cell[j]) :: area[j] == saved[j])
    && forall g | geo.granules < g < geo.scanned :: !Marked(map', g)
  }

  ghost predicate Valid(geo: Geometry, cell: seq<nat>, m: seq<byte>, saved: seq<byte>) {
    |m| == |cell| == 3 * geo.size && BufferInv(geo, cell, Area(geo, m), Copy(geo, m), Map(geo, m), saved)
  }

  /** The spare bit is set, and the scan, by whole 64-bit words, takes it for a granule. */
  ghost predicate HitsCopy(geo: Geometry, map': seq<byte>)
    requires geo.Valid() && |map'| == geo.size
  {
    geo.granules % 64 != 0 && Marked(map', geo.granules)
  }

  // ---- the rollback ----

  /** Every rollback gives the area back. */
  lemma RestoreGivesArea(geo: Geometry, cell: seq<nat>, m: seq<byte>, saved: seq<byte>)
    requires Valid(geo, cell, m, saved)
    ensures Area(geo, Restored(geo, cell, m)) == saved
  {
    var m' := Restored(geo, cell, m);
    forall j | 0 <= j < geo.size ensures Area(geo, m')[j] == saved[j] {
      assert Copy(geo, m)[j] == m[geo.size + j];
      assert Area(geo, m)[j] == m[j];
    }
  }

  lemma SpareIsScanned(geo: Geometry)
    requires geo.Valid()
    ensures geo.granules < geo.scanned <==> geo.granules % 64 != 0
  {
  }

  lemma CopyByteAfter(geo: Geometry, cell: seq<nat>, m: seq<byte>, saved: seq<byte>, j: nat)
    requires Valid(geo, cell, m, saved) && j < geo.size
    ensures Restored(geo, cell, m)[geo.size + j] ==
            if HitsCopy(geo, Map(geo, m)) && j < geo.granule then Map(geo, m)[j] else saved[j]
  {
    var g := cell[geo.size + j];
    assert Copy(geo, m)[j] == m[geo.size + j] && Map(geo, m)[j] == m[2 * geo.size + j];
    if g < geo.granules {
    } else if g == geo.granules {
      SpareIsScanned(geo);
    } else if g < geo.scanned {
      assert !Marked(Map(geo, m), g);
    }
  }

  lemma MapRestored(geo: Geometry, cell: seq<nat>, m: seq<byte>)
    requires Shape(geo, cell, |m|)
    ensures Map(geo, Restored(geo, cell, m)) == Map(geo, m)
  {
  }

  /** What a rollback leaves of the copy: all of it, except that a set spare bit makes the scan copy the
      beginning of the bitmap over the first granule, if the bitmap is not a whole number of words. */
  lemma CopyAfter(geo: Geometry, cell: seq<nat>, m: seq<byte>, saved: seq<byte>)
    requires Valid(geo, cell, m, saved)
    ensures Map(geo, Restored(geo, cell, m)) == Map(geo, m)
    ensures Copy(geo, Restored(geo, cell, m)) ==
            if HitsCopy(geo, Map(geo, m)) then Map(geo, m)[..geo.granule] + saved[geo.granule..] else saved
  {
    MapRestored(geo, cell, m);
    forall j | 0 <= j < geo.size
      ensures Restored(geo, cell, m)[geo.size + j] ==
              if HitsCopy(geo, Map(geo, m)) && j < geo.granule then Map(geo, m)[j] else saved[j]
    {
      CopyByteAfter(geo, cell, m, saved, j);
    }
    TwoParts(geo, Restored(geo, cell, m), Map(geo, m), saved, HitsCopy(geo, Map(geo, m)));
  }

  lemma TwoParts(geo: Geometry, m: seq<byte>, map': seq<byte>, saved: seq<byte>, hits: bool)
    requires geo.Valid() && |m| == 3 * geo.size && |map'| == |saved| == geo.size
    requires forall j | 0 <= j < geo.size :: m[geo.size + j] == if hits && j < geo.granule then map'[j] else saved[j]
    ensures Copy(geo, m) == if hits then map'[..geo.granule] + saved[geo.granule..] else saved
  {
    forall j | 0 <= j < geo.size
      ensures Copy(geo, m)[j] == if hits && j < geo.granule then map'[j] else saved[j]
    {
      assert Copy(geo, m)[j] == m[geo.size + j];
    }
  }

  lemma PrefixEqual(map': seq<byte>, saved: seq<byte>, n: nat)
    requires n <= |saved| && n <= |map'|
    ensures map'[..n] + saved[n..] == saved <==> map'[..n] == saved[..n]
  {
    var r := map'[..n] + saved[n..];
    assert r[..n] == map'[..n];
    if map'[..n] == saved[..n] {
      assert saved[..n] + saved[n..] == saved;
    }
  }

  lemma ClearedBits(geo: Geometry, map': seq<byte>, g: nat)
    requires geo.Valid() && |map'| == geo.size && g / 8 < |map'|
    requires geo.granules < g ==> !Marked(map', g)
    ensures !Marked(Cleared(geo, map'), g)
  {
    NothingInZero(g % 8);
  }

  /** The area is always given back; the checkpoint survives, and with it the next rollback, exactly if
      the bitmap is a whole number of 64-bit words, or the spare bit is clear, or, by chance, the first
      granule of the checkpoint is what the bitmap looks like. */
  lemma CopySurvives(geo: Geometry, cell: seq<nat>, m: seq<byte>, saved: seq<byte>)
    requires Valid(geo, cell, m, saved)
    ensures var m' := Restored(geo, cell, m);
            BufferInv(geo, cell, Area(geo, m'), Copy(geo, m'), Cleared(geo, Map(geo, m')), saved) <==> Harmless(geo, Map(geo, m), saved)
  {
    RestoreGivesArea(geo, cell, m, saved);
    CopyAfter(geo, cell, m, saved);
    PrefixEqual(Map(geo, m), saved, geo.granule);
    NothingMarked(geo, Map(geo, m));
  }

  lemma NothingMarked(geo: Geometry, map': seq<byte>)
    requires geo.Valid() && |map'| == geo.size
    requires forall g | geo.granules < g < geo.scanned :: !Marked(map', g)
    ensures forall g | 0 <= g < geo.scanned :: !Marked(Cleared(geo, map'), g)
  {
    forall g | 0 <= g < geo.scanned ensures !Marked(Cleared(geo, map'), g) {
      ClearedBits(geo, map', g);
    }
  }

  ghost predicate Harmless(geo: Geometry, map': seq<byte>, saved: seq<byte>)
    requires geo.Valid() && |map'| == |saved| == geo.size
  {
    geo.granules % 64 == 0 || !Marked(map', geo.granules) || map'[..geo.granule] == saved[..geo.granule]
  }

  // ---- stores and checkpoints ----

  /** The bits in front of a store: the granule's own, and the next one's for an unaligned store. */
  lemma DirtiedBits(map': seq<byte>, g: nat, aligned: bool, x: nat)
    requires g / 8 + 1 < |map'| && x / 8 < |map'|
    ensures Marked(Dirtied(map', g, aligned), x) <==> Marked(map', x) || x == g || (!aligned && x == g + 1)
  {
    if !aligned {
      OrWordBits(map'[g / 8], map'[g / 8 + 1], g % 8, x % 8);
    }
  }

  lemma DirtiedKeeps(geo: Geometry, cell: seq<nat>, area: seq<byte>, copy: seq<byte>, map': seq<byte>, saved: seq<byte>,
                     g: nat, aligned: bool)
    requires BufferInv(geo, cell, area, copy, map', saved) && g < geo.granules
    ensures g / 8 + 1 < |map'| && BufferInv(geo, cell, area, copy, Dirtied(map', g, aligned), saved)
  {
    forall x | 0 <= x < geo.scanned
      ensures Marked(Dirtied(map', g, aligned), x) <==> Marked(map', x) || x == g || (!aligned && x == g + 1)
    {
      DirtiedBits(map', g, aligned, x);
    }
  }

  /** A store into marked granules. */
  lemma StoredKeeps(geo: Geometry, cell: seq<nat>, area: seq<byte>, copy: seq<byte>, map': seq<byte>, saved: seq<byte>,
                    at: nat, bytes: seq<byte>)
    requires BufferInv(geo, cell, area, copy, map', saved) && at + |bytes| <= geo.size
    requires forall j | at <= j < at + |bytes| :: Marked(map', cell[j])
    ensures BufferInv(geo, cell, Splice(area, at, bytes), copy, map', saved)
  {
    assert forall j | 0 <= j < geo.size && !(at <= j < at + |bytes|) :: Splice(area, at, bytes)[j] == area[j];
  }

  lemma CheckpointedKeeps(geo: Geometry, cell: seq<nat>, area: seq<byte>, copy: seq<byte>, map': seq<byte>, saved: seq<byte>)
    requires BufferInv(geo, cell, area, copy, map', saved)
    ensures BufferInv(geo, cell, area, area, Cleared(geo, map'), area)
  {
    NothingMarked(geo, map');
  }

  // ---- runs ----

  /** One operation on the buffer, as the code does it. */
  ghost function Step(geo: Geometry, cell: seq<nat>, m: seq<byte>, op: Op): (m': seq<byte>)
    requires Shape(geo, cell, |m|) && Fits(op, geo.size, geo.granule)
    ensures |m'| == |m|
  {
    match op
    case Store(at, bytes) =>
      if bytes == [] then m
      else Splice(Area(geo, m), at, bytes) + Copy(geo, m) + Dirtied(Map(geo, m), cell[at], at % geo.granule == 0)
    case Checkpoint => Area(geo, m) + Area(geo, m) + Cleared(geo, Map(geo, m))
    case Restore =>
      var r := Restored(geo, cell, m);
      Area(geo, r) + Copy(geo, r) + Cleared(geo, Map(geo, r))
  }

  ghost function Steps(geo: Geometry, cell: seq<nat>, m: seq<byte>, ops: seq<Op>): (m': seq<byte>)
    requires Shape(geo, cell, |m|) && AllFit(ops, geo.size, geo.granule)
    ensures |m'| == |m|
    decreases |ops|
  {
    if ops == [] then m else Steps(geo, cell, Step(geo, cell, m, ops[0]), ops[1..])
  }

  /** Whether the spare bit is set after an operation: an unaligned store that begins in the last granule
      sets it, a checkpoint and a rollback clear it. */
  ghost function SpareAfter(geo: Geometry, spare: bool, op: Op): bool
    requires geo.Valid()
  {
    op.Store? && (spare || (op.bytes != [] && op.at % geo.granule != 0 && op.at / geo.granule + 1 == geo.granules))
  }

  /** No rollback finds the spare bit set. */
  ghost predicate SpareStaysOut(geo: Geometry, spare: bool, ops: seq<Op>)
    requires geo.Valid()
    decreases |ops|
  {
    ops != [] ==> (ops[0].Restore? ==> !spare) && SpareStaysOut(geo, SpareAfter(geo, spare, ops[0]), ops[1..])
  }

  ghost predicate Granulated(geo: Geometry, cell: seq<nat>) {
    && geo.size == geo.granules * geo.granule
    && IsGranuleMap(cell, geo.granule, 3 * geo.granules)
    && Shape(geo, cell, |cell|)
  }

  lemma Parts(geo: Geometry, area: seq<byte>, copy: seq<byte>, map': seq<byte>)
    requires |area| == |copy| == |map'| == geo.size
    ensures Area(geo, area + copy + map') == area
    ensures Copy(geo, area + copy + map') == copy
    ensures Map(geo, area + copy + map') == map'
  {
  }

  /** The granules that a store writes are marked. */
  lemma StoreIsMarked(geo: Geometry, cell: seq<nat>, map': seq<byte>, at: nat, n: nat)
    requires Granulated(geo, cell) && |map'| == geo.size && 0 < n <= geo.granule && at + n <= geo.size
    ensures cell[at] / 8 + 1 < |map'|
    ensures forall j | at <= j < at + n :: Marked(Dirtied(map', cell[at], at % geo.granule == 0), cell[j])
  {
    forall j | at <= j < at + n
      ensures Marked(Dirtied(map', cell[at], at % geo.granule == 0), cell[j])
    {
      NeighbourGranule(geo.granule, geo.granules, at, j);
      DirtiedBits(map', cell[at], at % geo.granule == 0, cell[j]);
    }
  }

  lemma StoreIsFlat(geo: Geometry, cell: seq<nat>, m: seq<byte>, saved: seq<byte>, at: nat, bytes: seq<byte>)
    requires Granulated(geo, cell) && Valid(geo, cell, m, saved)
    requires bytes != [] && |bytes| <= geo.granule && at + |bytes| <= geo.size
    ensures var op := Op.Store(at, bytes); var m' := Step(geo, cell, m, op);
            && Valid(geo, cell, m', saved) && Area(geo, m') == Splice(Area(geo, m), at, bytes)
            && Marked(Map(geo, m'), geo.granules) == SpareAfter(geo, Marked(Map(geo, m), geo.granules), op)
  {
    StoreIsMarked(geo, cell, Map(geo, m), at, |bytes|);
    MarkedStore(geo, cell, m, saved, at, bytes);
  }

  lemma MarkedStore(geo: Geometry, cell: seq<nat>, m: seq<byte>, saved: seq<byte>, at: nat, bytes: seq<byte>)
    requires Valid(geo, cell, m, saved) && bytes != [] && |bytes| <= geo.granule && at + |bytes| <= geo.size
    requires cell[at] == at / geo.granule && cell[at] / 8 + 1 < geo.size
    requires forall j | at <= j < at + |bytes| :: Marked(Dirtied(Map(geo, m), cell[at], at % geo.granule == 0), cell[j])
    ensures var op := Op.Store(at, bytes); var m' := Step(geo, cell, m, op);
            && Valid(geo, cell, m', saved) && Area(geo, m') == Splice(Area(geo, m), at, bytes)
            && Marked(Map(geo, m'), geo.granules) == SpareAfter(geo, Marked(Map(geo, m), geo.granules), op)
  {
    var g, aligned := cell[at], at % geo.granule == 0;
    var map' := Dirtied(Map(geo, m), g, aligned);
    Parts(geo, Splice(Area(geo, m), at, bytes), Copy(geo, m), map');
    DirtiedKeeps(geo, cell, Area(geo, m), Copy(geo, m), Map(geo, m), saved, g, aligned);
    StoredKeeps(geo, cell, Area(geo, m), Copy(geo, m), map', saved, at, bytes);
    DirtiedBits(Map(geo, m), g, aligned, geo.granules);
  }

  /** One operation is the flat one, unless it is a rollback that takes the spare bit for a granule. */
  lemma StepIsFlat(geo: Geometry, cell: seq<nat>, m: seq<byte>, saved: seq<byte>, op: Op)
    requires Granulated(geo, cell) && Valid(geo, cell, m, saved) && Fits(op, geo.size, geo.granule)
    requires op.Restore? ==> Harmless(geo, Map(geo, m), saved)
    ensures var m', flat := Step(geo, cell, m, op), Apply(Memory(Area(geo, m), saved), op);
            && Valid(geo, cell, m', flat.saved) && Area(geo, m') == flat.now
            && Marked(Map(geo, m'), geo.granules) == SpareAfter(geo, Marked(Map(geo, m), geo.granules), op)
  {
    match op
    case Store(at, bytes) =>
      if bytes != [] {
        StoreIsFlat(geo, cell, m, saved, at, bytes);
      } else {
        assert Splice(Area(geo, m), at, []) == Area(geo, m);
      }
    case Checkpoint =>
      Parts(geo, Area(geo, m), Area(geo, m), Cleared(geo, Map(geo, m)));
      CheckpointedKeeps(geo, cell, Area(geo, m), Copy(geo, m), Map(geo, m), saved);
      ClearedBits(geo, Map(geo, m), geo.granules);
    case Restore =>
      var r := Restored(geo, cell, m);
      CopyAfter(geo, cell, m, saved);
      Parts(geo, Area(geo, r), Copy(geo, r), Cleared(geo, Map(geo, r)));
      RestoreGivesArea(geo, cell, m, saved);
      CopySurvives(geo, cell, m, saved);
      ClearedBits(geo, Map(geo, m), geo.granules);
  }

  /** Every run refines flat memory if the bitmap is a whole number of 64-bit words, and else every run
      in which no rollback finds the spare bit set. */
  lemma {:induction false} RunIsFlat(geo: Geometry, cell: seq<nat>, m: seq<byte>, saved: seq<byte>, ops: seq<Op>)
    requires Granulated(geo, cell) && Valid(geo, cell, m, saved) && AllFit(ops, geo.size, geo.granule)
    requires geo.granules % 64 == 0 || SpareStaysOut(geo, Marked(Map(geo, m), geo.granules), ops)
    ensures AllFit(ops, geo.size, geo.size)
    ensures var m', flat := Steps(geo, cell, m, ops), Run(Memory(Area(geo, m), saved), ops);
            Valid(geo, cell, m', flat.saved) && Area(geo, m') == flat.now
    decreases |ops|
  {
    WidthFits(ops, geo.size, geo.granule);
    if ops != [] {
      StepIsFlat(geo, cell, m, saved, ops[0]);
      RunIsFlat(geo, cell, Step(geo, cell, m, ops[0]), Apply(Memory(Area(geo, m), saved), ops[0]).saved, ops[1..]);
    }
  }

  lemma FirstCell(geo: Geometry, cell: seq<nat>, j: nat)
    requires Granulated(geo, cell) && j < geo.granule
    ensures j < |cell| && cell[j] == 0
  {
    GranuleRange(geo.granule, 0, j);
  }

  lemma StoreAtFirst(geo: Geometry, cell: seq<nat>, m: seq<byte>, x: byte)
    requires Shape(geo, cell, |m|) && cell[0] == 0
    ensures Fits(Op.Store(0, [x]), geo.size, geo.granule)
    ensures var m' := Step(geo, cell, m, Op.Store(0, [x])); Copy(geo, m') == Copy(geo, m) && Marked(Map(geo, m'), 0)
  {
    DirtiedBits(Map(geo, m), 0, true, 0);
    Parts(geo, Splice(Area(geo, m), 0, [x]), Copy(geo, m), Dirtied(Map(geo, m), 0, true));
  }

  lemma RestoredFirst(geo: Geometry, cell: seq<nat>, m: seq<byte>, j: nat)
    requires Shape(geo, cell, |m|) && Marked(Map(geo, m), 0) && j < geo.size && cell[j] == 0
    ensures Area(geo, Step(geo, cell, m, Restore))[j] == Copy(geo, m)[j]
  {
    var r := Restored(geo, cell, m);
    Parts(geo, Area(geo, r), Copy(geo, r), Cleared(geo, Map(geo, r)));
    assert Copy(geo, m)[j] == m[geo.size + j];
  }

  /** A store at the beginning of the area, and a rollback, give the copy's first granule back, whatever
      it holds. */
  lemma FirstGranuleBack(geo: Geometry, cell: seq<nat>, m: seq<byte>, x: byte)
    requires Granulated(geo, cell) && |m| == |cell|
    ensures Fits(Op.Store(0, [x]), geo.size, geo.granule)
    ensures var m' := Step(geo, cell, Step(geo, cell, m, Op.Store(0, [x])), Restore);
            Area(geo, m')[..geo.granule] == Copy(geo, m)[..geo.granule]
  {
    FirstCell(geo, cell, 0);
    StoreAtFirst(geo, cell, m, x);
    forall j | 0 <= j < geo.granule
      ensures Area(geo, Step(geo, cell, Step(geo, cell, m, Op.Store(0, [x])), Restore))[j] == Copy(geo, m)[j]
    {
      FirstCell(geo, cell, j);
      RestoredFirst(geo, cell, Step(geo, cell, m, Op.Store(0, [x])), j);
    }
  }

  /** A rollback, a store at the beginning of the area and a second rollback: the checkpoint comes back
      exactly if the first rollback was harmless. */
  lemma SecondRollback(geo: Geometry, cell: seq<nat>, m: seq<byte>, saved: seq<byte>, x: byte)
    requires Granulated(geo, cell) && Valid(geo, cell, m, saved)
    ensures var m1 := Step(geo, cell, Step(geo, cell, m, Restore), Op.Store(0, [x]));
            Area(geo, Step(geo, cell, m1, Restore)) == saved <==> Harmless(geo, Map(geo, m), saved)
  {
    var r, m0 := Restored(geo, cell, m), Step(geo, cell, m, Restore);
    var m1 := Step(geo, cell, m0, Op.Store(0, [x]));
    if Harmless(geo, Map(geo, m), saved) {
      StepIsFlat(geo, cell, m, saved, Restore);
      StepIsFlat(geo, cell, m0, saved, Op.Store(0, [x]));
      RestoreGivesArea(geo, cell, m1, saved);
      var r1 := Restored(geo, cell, m1);
      Parts(geo, Area(geo, r1), Copy(geo, r1), Cleared(geo, Map(geo, r1)));
    } else {
      CopyAfter(geo, cell, m, saved);
      Parts(geo, Area(geo, r), Copy(geo, r), Cleared(geo, Map(geo, r)));
      FirstGranuleBack(geo, cell, m0, x);
      assert Copy(geo, m0)[..geo.granule] == Map(geo, m)[..geo.granule];
    }
  }

  lemma SpareIsHarm(geo: Geometry, map': seq<byte>, saved: seq<byte>)
    requires geo.Valid() && |map'| == |saved| == geo.size
    requires geo.granules % 64 != 0 && geo.granules / 8 < geo.granule
    requires Marked(map', geo.granules) && !Bits(saved[geo.granules / 8])[0]
    ensures !Harmless(geo, map', saved)
  {
    var k := geo.granules / 8;
    assert map'[..geo.granule][k] != saved[..geo.granule][k];
  }

  lemma LastGranule(geo: Geometry)
    requires geo.Valid() && 2 <= geo.granule && geo.size == geo.granules * geo.granule
    ensures var at := geo.size - geo.granule + 1; at % geo.granule != 0 && at / geo.granule + 1 == geo.granules
  {
    var at := geo.size - geo.granule + 1;
    assert (geo.granules - 1) * geo.granule == geo.size - geo.granule;
    GranuleRange(geo.granule, geo.granules - 1, at);
    assert at == (at / geo.granule) * geo.granule + at % geo.granule;
  }

  lemma CellsOfGranules(geo: Geometry, cell: seq<nat>)
    requires geo.Valid() && geo.size == geo.granules * geo.granule
    requires IsGranuleMap(cell, geo.granule, 3 * geo.granules)
    ensures Granulated(geo, cell)
  {
    Threefold(geo.granules, geo.granule);
    forall j | 0 <= j < |cell|
      ensures cell[j] < geo.granules <==> j < geo.size
      ensures cell[j] <= geo.granules <==> j < geo.size + geo.granule
    {
      CellBelow(geo.granule, geo.granules, j);
      CellBelow(geo.granule, geo.granules + 1, j);
    }
  }

  lemma Threefold(a: nat, b: nat)
    ensures (3 * a) * b == 3 * (a * b)
    ensures (a + 1) * b == a * b + b
  {
  }

  lemma CellBelow(granule: nat, g: nat, j: nat)
    requires 0 < granule
    ensures j / granule < g <==> j < g * granule
  {
    if j < g * granule {
      GranuleBound(granule, g, j);
    } else if j / granule < g {
      GranuleRange(granule, j / granule, j);
      GranuleEnd(granule, j / granule, g);
    }
  }

  /** MOD = 65536 with an area of 2 MB: the bitmap is 4 bytes, and half a word is read behind it. */
  const WIDE := Geometry(65536, 32, 2097152, 64)

  lemma FreshIsValid(geo: Geometry, cell: seq<nat>, m: seq<byte>)
    requires Granulated(geo, cell) && |m| == |cell| && forall j | 0 <= j < |m| :: m[j] == 0
    ensures Valid(geo, cell, m, Area(geo, m))
  {
    forall g | 0 <= g < geo.scanned ensures !Marked(Map(geo, m), g) {
      NothingInZero(g % 8);
    }
    assert Copy(geo, m) == Area(geo, m);
  }

  /** A run without another checkpoint that ends with a rollback and does not give the checkpoint back. */
  ghost predicate LosesCheckpoint(geo: Geometry, cell: seq<nat>, m: seq<byte>, saved: seq<byte>, ops: seq<Op>) {
    && Granulated(geo, cell) && |m| == |cell| && AllFit(ops, geo.size, geo.granule)
    && ops != [] && ops[|ops| - 1].Restore? && (forall i | 0 <= i < |ops| :: !ops[i].Checkpoint?)
    && Area(geo, Steps(geo, cell, m, ops)) != saved
  }

  lemma StepsCons(geo: Geometry, cell: seq<nat>, m: seq<byte>, op: Op, ops: seq<Op>)
    requires Shape(geo, cell, |m|) && Fits(op, geo.size, geo.granule) && AllFit(ops, geo.size, geo.granule)
    ensures AllFit([op] + ops, geo.size, geo.granule)
    ensures Steps(geo, cell, m, [op] + ops) == Steps(geo, cell, Step(geo, cell, m, op), ops)
  {
    var all := [op] + ops;
    assert all[0] == op && all[1..] == ops;
  }

  lemma LosesBefore(geo: Geometry, cell: seq<nat>, m: seq<byte>, saved: seq<byte>, op: Op, ops: seq<Op>)
    requires Granulated(geo, cell) && |m| == |cell| && op.Store? && Fits(op, geo.size, geo.granule)
    requires LosesCheckpoint(geo, cell, Step(geo, cell, m, op), saved, ops)
    ensures LosesCheckpoint(geo, cell, m, saved, [op] + ops)
  {
    StepsCons(geo, cell, m, op, ops);
  }

  function Again(y: byte): (ops: seq<Op>)
    ensures |ops| == 3 && ops[0] == ops[2] == Restore && ops[1] == Op.Store(0, [y])
  {
    [Restore] + ([Op.Store(0, [y])] + [Restore])
  }

  lemma AgainLoses(geo: Geometry, cell: seq<nat>, m: seq<byte>, saved: seq<byte>, y: byte)
    requires Granulated(geo, cell) && Valid(geo, cell, m, saved) && !Harmless(geo, Map(geo, m), saved)
    ensures LosesCheckpoint(geo, cell, m, saved, Again(y))
  {
    var store := Op.Store(0, [y]);
    var m1 := Step(geo, cell, m, Restore);
    var m2 := Step(geo, cell, m1, store);
    SecondRollback(geo, cell, m, saved, y);
    StepsCons(geo, cell, m2, Restore, []);
    assert [Restore] + [] == [Restore];
    StepsCons(geo, cell, m1, store, [Restore]);
    StepsCons(geo, cell, m, Restore, [store] + [Restore]);
  }

  /** The failing input, for every bitmap that is not a whole number of words and whose bytes lie in the
      first granule: an unaligned store in the last granule, a rollback, a store at the beginning, and the
      second rollback does not give the checkpoint back. */
  lemma SpareBitBites(geo: Geometry, cell: seq<nat>, m: seq<byte>, saved: seq<byte>, x: byte, y: byte)
    requires Granulated(geo, cell) && Valid(geo, cell, m, saved)
    requires geo.granules % 64 != 0 && 2 <= geo.granule && geo.granules / 8 < geo.granule
    requires !Bits(saved[geo.granules / 8])[0]
    ensures LosesCheckpoint(geo, cell, m, saved, [Op.Store(geo.size - geo.granule + 1, [x])] + Again(y))
  {
    var store := SpareStored(geo, cell, m, saved, x);
    AgainLoses(geo, cell, Step(geo, cell, m, store), saved, y);
    LosesBefore(geo, cell, m, saved, store, Again(y));
  }

  lemma SpareStored(geo: Geometry, cell: seq<nat>, m: seq<byte>, saved: seq<byte>, x: byte) returns (store: Op)
    requires Granulated(geo, cell) && Valid(geo, cell, m, saved)
    requires geo.granules % 64 != 0 && 2 <= geo.granule && geo.granules / 8 < geo.granule
    requires !Bits(saved[geo.granules / 8])[0]
    ensures store == Op.Store(geo.size - geo.granule + 1, [x]) && Fits(store, geo.size, geo.granule)
    ensures Valid(geo, cell, Step(geo, cell, m, store), saved) && !Harmless(geo, Map(geo, Step(geo, cell, m, store)), saved)
  {
    store := SpareMarked(geo, cell, m, saved, x);
    SpareIsHarm(geo, Map(geo, Step(geo, cell, m, store)), saved);
  }

  lemma SpareMarked(geo: Geometry, cell: seq<nat>, m: seq<byte>, saved: seq<byte>, x: byte) returns (store: Op)
    requires Granulated(geo, cell) && Valid(geo, cell, m, saved) && 2 <= geo.granule
    ensures store == Op.Store(geo.size - geo.granule + 1, [x]) && Fits(store, geo.size, geo.granule)
    ensures Valid(geo, cell, Step(geo, cell, m, store), saved) && Marked(Map(geo, Step(geo, cell, m, store)), geo.granules)
  {
    store := Op.Store(geo.size - geo.granule + 1, [x]);
    LastGranule(geo);
    StoreIsFlat(geo, cell, m, saved, geo.size - geo.granule + 1, [x]);
  }

  /** From a fresh area of 32 granules of 64 KB. */
  lemma WideAreaFails()
    ensures exists cell: seq<nat>, m: seq<byte>, ops: seq<Op> ::
              && Granulated(WIDE, cell) && |m| == |cell| && Valid(WIDE, cell, m, Area(WIDE, m))
              && LosesCheckpoint(WIDE, cell, m, Area(WIDE, m), ops)
  {
    var cell := GranuleCells(WIDE.granule, 3 * WIDE.granules);
    var m: seq<byte> := seq(3 * WIDE.size, _ => 0 as byte);
    CellsOfGranules(WIDE, cell);
    FreshIsValid(WIDE, cell, m);
    NothingInZero(0);
    SpareBitBites(WIDE, cell, m, Area(WIDE, m), 1, 1);
  }
}
