/** MVM_GRID_CKPT_BS as it runs on one buffer: the bits in front of a store, the nested scan of a
    rollback by 64-bit words, 16-bit words and bits, and the checkpoint's copy. */
module DirtyGridCode {
  import opened CheckpointMemory
  import opened DirtyGrid

  class DirtyBuffer {
    const geo: Geometry
    const mem: array<byte>
    ghost const cell: seq<nat>
    ghost const start: seq<nat>
    ghost var saved: seq<byte>

    ghost predicate Shaped() reads this {
      Shape(geo, cell, mem.Length) && Starts(geo, cell, start)
    }

    ghost predicate Valid() reads this, mem {
      Shaped() && Granulated(geo, cell) && DirtyGrid.Valid(geo, cell, mem[..], saved)
    }

    /** An area of `granules` granules of MOD bytes, as mapped: all bytes are 0. */
    constructor (mod: nat, granules: nat)
      requires 0 < mod && 8 <= granules && granules % 8 == 0
      ensures Valid() && fresh(mem)
      ensures geo.granule == mod && geo.granules == granules && geo.size == granules * mod
      ensures saved == Area(geo, mem[..])
    {
      var g := OfGranules(mod, granules);
      var m := new byte[3 * g.size](_ => 0);
      FreshIsValid(g, Cells(mod, granules), m[..]);
      StartsOf(g, Cells(mod, granules));
      geo, mem, cell, start, saved := g, m, Cells(mod, granules), GranuleStarts(g), Area(g, m[..]);
    }

    /** memcpy of granule g from one area further on. */
    method CopyBack(g: nat)
      requires Shaped() && g <= geo.granules
      modifies mem
      ensures forall j {:trigger mem[j]} | 0 <= j < mem.Length ::
                mem[j] == if j < 2 * geo.size && cell[j] == g then old(mem[geo.size + j]) else old(mem[j])
    {
      assert start[g] == g * geo.granule;
      var lo := g * geo.granule;
      MoveDown(mem, lo, lo + geo.granule, geo.size);
      forall j | 0 <= j < mem.Length
        ensures lo <= j < lo + geo.granule <==> j < 2 * geo.size && cell[j] == g
      {
        assert cell[j] == g <==> start[g] <= j < start[g] + geo.granule;
      }
    }

    /** What one bit of the bitmap does. */
    method RestoreBit(g: nat, marked: bool, ghost was: seq<byte>, ghost marks: seq<bool>)
      requires Shaped() && Marks(geo, cell, was, marks)
      requires g < geo.scanned && marked == marks[g]
      requires RestoredBelow(geo, cell, mem[..], was, marks, g)
      modifies mem
      ensures RestoredBelow(geo, cell, mem[..], was, marks, g + 1)
    {
      ghost var now := mem[..];
      if marked {
        CopyBack(g);
      }
      OneGranuleMore(geo, cell, mem[..], now, was, marks, g);
    }

    /** One 16-bit word of the bitmap, read once. */
    method RestoreWord(at: nat, ghost was: seq<byte>, ghost marks: seq<bool>)
      requires Shaped() && Marks(geo, cell, was, marks)
      requires at * 8 + 16 <= geo.scanned && at + 1 < geo.size
      requires RestoredBelow(geo, cell, mem[..], was, marks, at * 8)
      modifies mem
      ensures RestoredBelow(geo, cell, mem[..], was, marks, at * 8 + 16)
    {
      var word := Bits(mem[2 * geo.size + at]) + Bits(mem[2 * geo.size + at + 1]);
      WordBits(geo, cell, mem[..], was, marks, at, word);
      for k := 0 to 16
        invariant RestoredBelow(geo, cell, mem[..], was, marks, at * 8 + k)
      {
        RestoreBit(at * 8 + k, word[k], was, marks);
      }
    }

    /** One 64-bit word of the bitmap, by 16-bit words; those that are 0 are skipped. */
    method RestoreDoubleWord(at: nat, ghost was: seq<byte>, ghost marks: seq<bool>)
      requires Shaped() && Marks(geo, cell, was, marks)
      requires at * 8 + 64 <= geo.scanned && at + 8 <= geo.size
      requires RestoredBelow(geo, cell, mem[..], was, marks, at * 8)
      modifies mem
      ensures RestoredBelow(geo, cell, mem[..], was, marks, at * 8 + 64)
    {
      var i := 0;
      while i < 8
        invariant i % 2 == 0 && i <= 8
        invariant RestoredBelow(geo, cell, mem[..], was, marks, (at + i) * 8)
      {
        if WordIsZero(mem, 2 * geo.size + at + i, 2) {
          ZeroSkipped(geo, cell, mem[..], was, marks, at + i, 2);
        } else {
          RestoreWord(at + i, was, marks);
        }
        i := i + 2;
      }
    }

    /** `_restore_area` before the memset: the nested scan comes to one flat pass over every bit that it reads. */
    method RestoreArea()
      requires Shaped() && NothingBehindSpare(geo, Map(geo, mem[..]))
      modifies mem
      ensures mem[..] == Restored(geo, cell, old(mem[..]))
    {
      ghost var was := mem[..];
      ghost var marks := BeforeScan(geo, cell, was);
      var offset := 0;
      while offset < geo.granules / 8
        invariant offset % 8 == 0 && offset * 8 <= geo.scanned
        invariant RestoredBelow(geo, cell, mem[..], was, marks, offset * 8)
      {
        WholeWords(geo, offset);
        if WordIsZero(mem, 2 * geo.size + offset, 8) {
          ZeroSkipped(geo, cell, mem[..], was, marks, offset, 8);
        } else {
          RestoreDoubleWord(offset, was, marks);
        }
        offset := offset + 8;
      }
      ScanEnds(geo, offset);
      ScanDone(geo, cell, mem[..], was, marks);
    }

    /** memset of the bitmap's bytes. */
    method ClearMap()
      requires Shaped()
      modifies mem
      ensures mem[..] == Area(geo, old(mem[..])) + Copy(geo, old(mem[..])) + Cleared(geo, Map(geo, old(mem[..])))
    {
      var lo, n := 2 * geo.size, geo.granules / 8 + 1;
      for i := 0 to n
        invariant forall j | 0 <= j < mem.Length :: mem[j] == if lo <= j < lo + i then 0 else old(mem[j])
      {
        mem[lo + i] := 0;
      }
    }

    method RestoreObject()
      requires Shaped() && NothingBehindSpare(geo, Map(geo, mem[..]))
      modifies mem
      ensures mem[..] == Step(geo, cell, old(mem[..]), Restore)
    {
      RestoreArea();
      ClearMap();
    }

    /** `_set_ckpt`: memcpy of the area, memset of the bitmap. */
    method SetCheckpoint()
      requires Shaped()
      modifies this`saved, mem
      ensures mem[..] == Step(geo, cell, old(mem[..]), Checkpoint) && saved == Area(geo, old(mem[..]))
    {
      ghost var was := mem[..];
      for i := 0 to geo.size
        invariant forall j {:trigger mem[j]} | 0 <= j < mem.Length ::
                    mem[j] == if geo.size <= j < geo.size + i then was[j - geo.size] else was[j]
      {
        mem[geo.size + i] := mem[i];
      }
      assert Area(geo, mem[..]) == Area(geo, was) && Copy(geo, mem[..]) == Area(geo, was);
      assert Map(geo, mem[..]) == Map(geo, was);
      ClearMap();
      saved := Area(geo, was);
    }

    /** `ckpt_assembly`: a 16-bit OR of two adjacent bits for an unaligned store, which may reach into the
        next byte of the bitmap, and an 8-bit OR of one bit for an aligned one. */
    method BeforeStore(off: nat)
      requires Shaped() && off < geo.size
      modifies mem
      ensures cell[off] / 8 + 1 < geo.size && mem[..2 * geo.size] == old(mem[..2 * geo.size])
      ensures Map(geo, mem[..]) == Dirtied(Map(geo, old(mem[..])), cell[off], off % geo.granule == 0)
    {
      CellOf(geo, cell, start, off);
      OrBits(off / geo.granule, off % geo.granule == 0);
    }

    /** The OR of granule g's bit into the bitmap, or of its bit and the next one's. */
    method OrBits(g: nat, aligned: bool)
      requires Shaped() && g < geo.granules
      modifies mem
      ensures g / 8 + 1 < geo.size && mem[..2 * geo.size] == old(mem[..2 * geo.size])
      ensures Map(geo, mem[..]) == Dirtied(Map(geo, old(mem[..])), g, aligned)
    {
      ByteInside(geo, g);
      var at := 2 * geo.size + g / 8;
      if aligned {
        mem[at] := OrByte(mem[at], g % 8);
      } else {
        var word := OrWord(mem[at], mem[at + 1], g % 8);
        mem[at], mem[at + 1] := word.0, word.1;
      }
    }

    method Store(off: nat, data: seq<byte>)
      requires Shaped() && off + |data| <= geo.size && |data| <= geo.granule
      modifies mem
      ensures mem[..] == Step(geo, cell, old(mem[..]), Op.Store(off, data))
    {
      if data != [] {
        BeforeStore(off);
        ghost var marked := mem[..];
        Write(mem, off, data);
        StoreParts(geo, old(mem[..]), marked, off, data);
      }
    }

    ghost function View(): Memory
      requires Shaped()
      reads this, mem
    {
      Memory(Area(geo, mem[..]), saved)
    }

    method Perform(op: Op)
      requires Shaped() && NothingBehindSpare(geo, Map(geo, mem[..])) && Fits(op, geo.size, geo.granule)
      modifies this`saved, mem
      ensures mem[..] == Step(geo, cell, old(mem[..]), op) && NothingBehindSpare(geo, Map(geo, mem[..]))
      ensures saved == if op.Checkpoint? then Area(geo, old(mem[..])) else old(saved)
    {
      NothingNewBehindSpare(geo, cell, mem[..], op);
      match op {
        case Store(at, bytes) => Store(at, bytes);
        case Checkpoint => SetCheckpoint();
        case Restore => RestoreObject();
      }
    }

    /** Every run is the run on the buffer, and every run in which no rollback can take the spare bit for a
        granule refines flat memory. */
    method Execute(ops: seq<Op>)
      requires Shaped() && NothingBehindSpare(geo, Map(geo, mem[..])) && AllFit(ops, geo.size, geo.granule)
      modifies this`saved, mem
      ensures mem[..] == Steps(geo, cell, old(mem[..]), ops)
      ensures AllFit(ops, geo.size, geo.size)
      ensures old(Valid() && RunsFlat(geo, mem[..], ops)) ==> Valid() && View() == Run(old(View()), ops)
      decreases |ops|
    {
      WidthFits(ops, geo.size, geo.granule);
      if ops != [] {
        FlatStep(geo, cell, mem[..], saved, ops);
        Perform(ops[0]);
        Execute(ops[1..]);
      }
    }
  }

  /** The bitmap is a whole number of 64-bit words, or no rollback of the run finds the spare bit set. */
  ghost predicate RunsFlat(geo: Geometry, m: seq<byte>, ops: seq<Op>)
    requires geo.Valid() && |m| == 3 * geo.size
  {
    geo.granules % 64 == 0 || SpareStaysOut(geo, Marked(Map(geo, m), geo.granules), ops)
  }

  lemma FlatStep(geo: Geometry, cell: seq<nat>, m: seq<byte>, saved: seq<byte>, ops: seq<Op>)
    requires Shape(geo, cell, |m|) && ops != [] && AllFit(ops, geo.size, geo.granule)
    ensures Granulated(geo, cell) && DirtyGrid.Valid(geo, cell, m, saved) && RunsFlat(geo, m, ops) ==>
              var m', flat := Step(geo, cell, m, ops[0]), Apply(Memory(Area(geo, m), saved), ops[0]);
              DirtyGrid.Valid(geo, cell, m', flat.saved) && Area(geo, m') == flat.now && RunsFlat(geo, m', ops[1..])
  {
    if Granulated(geo, cell) && DirtyGrid.Valid(geo, cell, m, saved) && RunsFlat(geo, m, ops) {
      StepIsFlat(geo, cell, m, saved, ops[0]);
    }
  }

  lemma NothingNewBehindSpare(geo: Geometry, cell: seq<nat>, m: seq<byte>, op: Op)
    requires Shape(geo, cell, |m|) && Fits(op, geo.size, geo.granule) && NothingBehindSpare(geo, Map(geo, m))
    ensures NothingBehindSpare(geo, Map(geo, Step(geo, cell, m, op)))
  {
    match op
    case Store(at, bytes) =>
      if bytes != [] {
        var g, aligned := cell[at], at % geo.granule == 0;
        Parts(geo, Splice(Area(geo, m), at, bytes), Copy(geo, m), Dirtied(Map(geo, m), g, aligned));
        forall x | geo.granules < x < geo.scanned ensures !Marked(Dirtied(Map(geo, m), g, aligned), x) {
          DirtiedBits(Map(geo, m), g, aligned, x);
        }
      }
    case Checkpoint =>
      Parts(geo, Area(geo, m), Area(geo, m), Cleared(geo, Map(geo, m)));
      NothingMarked(geo, Map(geo, m));
    case Restore =>
      var r := Restored(geo, cell, m);
      MapRestored(geo, cell, m);
      Parts(geo, Area(geo, r), Copy(geo, r), Cleared(geo, Map(geo, r)));
      NothingMarked(geo, Map(geo, r));
  }

  /** Whether n bytes of the bitmap, read as one word, are 0. */
  predicate WordIsZero(mem: array<byte>, at: nat, n: nat)
    requires at + n <= mem.Length
    reads mem
  {
    forall i | at <= i < at + n :: mem[i] == 0
  }

  ghost predicate NothingBehindSpare(geo: Geometry, map': seq<byte>)
    requires geo.Valid() && |map'| == geo.size
  {
    forall g | geo.granules < g < geo.scanned :: !Marked(map', g)
  }

  /** The bits that the scan reads, granule by granule. */
  ghost predicate Marks(geo: Geometry, cell: seq<nat>, was: seq<byte>, marks: seq<bool>) {
    && Shape(geo, cell, |was|) && |marks| == geo.scanned
    && (forall g {:trigger Marked(Map(geo, was), g)} | 0 <= g < |marks| :: marks[g] == Marked(Map(geo, was), g))
    && forall g | geo.granules < g < |marks| :: !marks[g]
  }

  /** The buffer when the scan has gone over the bits below `upTo`. */
  ghost predicate RestoredBelow(geo: Geometry, cell: seq<nat>, now: seq<byte>, was: seq<byte>, marks: seq<bool>, upTo: nat)
    requires Shape(geo, cell, |was|) && upTo <= |marks|
  {
    && |now| == |was|
    && forall j {:trigger now[j]} | 0 <= j < |now| ::
         now[j] == if j < 2 * geo.size && cell[j] < upTo && marks[cell[j]] then was[geo.size + j] else was[j]
  }

  /** The source of a granule is still what it was when its turn comes: only lower granules have been
      written, and the copy's first one is written by the spare bit, which comes last. */
  lemma OneGranuleMore(geo: Geometry, cell: seq<nat>, next: seq<byte>, now: seq<byte>, was: seq<byte>, marks: seq<bool>, g: nat)
    requires Shape(geo, cell, |was|) && |next| == |was| && g < |marks|
    requires marks[g] ==> g <= geo.granules
    requires RestoredBelow(geo, cell, now, was, marks, g)
    requires forall j {:trigger next[j]} | 0 <= j < |now| ::
               next[j] == if marks[g] && j < 2 * geo.size && cell[j] == g then now[geo.size + j] else now[j]
    ensures RestoredBelow(geo, cell, next, was, marks, g + 1)
  {
    forall j | 0 <= j < |now|
      ensures next[j] == if j < 2 * geo.size && cell[j] < g + 1 && marks[cell[j]] then was[geo.size + j] else was[j]
    {
      assert next[j] == if marks[g] && j < 2 * geo.size && cell[j] == g then now[geo.size + j] else now[j];
      if marks[g] && j < 2 * geo.size && cell[j] == g {
        assert cell[geo.size + j] >= g;
        assert now[geo.size + j] == was[geo.size + j];
      }
    }
  }

  /** memcpy of the bytes lo..hi from `gap` bytes further on; the two stretches do not overlap. */
  method MoveDown(mem: array<byte>, lo: nat, hi: nat, gap: nat)
    requires lo <= hi <= lo + gap && hi + gap <= mem.Length
    modifies mem
    ensures forall j {:trigger mem[j]} | 0 <= j < mem.Length :: mem[j] == if lo <= j < hi then old(mem[gap + j]) else old(mem[j])
  {
    for i := lo to hi
      invariant forall j {:trigger mem[j]} | 0 <= j < mem.Length :: mem[j] == if lo <= j < i then old(mem[gap + j]) else old(mem[j])
    {
      mem[i] := mem[gap + i];
    }
  }

  function OfGranules(mod: nat, granules: nat): (g: Geometry)
    requires 0 < mod && 8 <= granules && granules % 8 == 0
    ensures g.Valid() && g.granule == mod && g.granules == granules && g.size == granules * mod
  {
    AreaSize(mod, granules);
    Geometry(mod, granules, granules * mod, (granules + 63) / 64 * 64)
  }

  lemma AreaSize(mod: nat, granules: nat)
    requires 0 < mod && 0 < granules
    ensures granules <= granules * mod && mod <= granules * mod
  {
  }

  ghost function Cells(mod: nat, granules: nat): (cell: seq<nat>)
    requires 0 < mod && 8 <= granules && granules % 8 == 0
    ensures Granulated(OfGranules(mod, granules), cell)
  {
    var c := GranuleCells(mod, 3 * granules);
    CellsOfGranules(OfGranules(mod, granules), c);
    c
  }

  ghost function GranuleStarts(geo: Geometry): (start: seq<nat>)
    ensures |start| == geo.granules + 1
    ensures forall g | 0 <= g < |start| :: start[g] == g * geo.granule
  {
    seq(geo.granules + 1, g requires 0 <= g => g * geo.granule)
  }

  /** Where the granules of the area, and the one behind it, begin. */
  ghost predicate Starts(geo: Geometry, cell: seq<nat>, start: seq<nat>) {
    && |start| == geo.granules + 1
    && (forall g | 0 <= g < |start| :: start[g] == g * geo.granule && start[g] + geo.granule <= 2 * geo.size)
    && forall g, j | 0 <= g < |start| && 0 <= j < |cell| :: cell[j] == g <==> start[g] <= j < start[g] + geo.granule
  }

  lemma StartsOf(geo: Geometry, cell: seq<nat>)
    requires Granulated(geo, cell)
    ensures Starts(geo, cell, GranuleStarts(geo))
  {
    var start := GranuleStarts(geo);
    forall g | 0 <= g < |start| ensures start[g] + geo.granule <= 2 * geo.size {
      GranuleInside(geo, g);
    }
    forall g, j | 0 <= g < |start| && 0 <= j < |cell|
      ensures cell[j] == g <==> start[g] <= j < start[g] + geo.granule
    {
      GranuleRange(geo.granule, g, j);
    }
  }

  lemma CellOf(geo: Geometry, cell: seq<nat>, start: seq<nat>, off: nat)
    requires Shape(geo, cell, |cell|) && Starts(geo, cell, start) && off < geo.size
    ensures cell[off] == off / geo.granule < geo.granules
  {
    assert start[cell[off]] <= off < start[cell[off]] + geo.granule;
    GranuleRange(geo.granule, cell[off], off);
  }

  lemma GranuleInside(geo: Geometry, g: nat)
    requires geo.Valid() && geo.size == geo.granules * geo.granule && g <= geo.granules
    ensures g * geo.granule + geo.granule <= 2 * geo.size
  {
    Threefold(geo.granules, geo.granule);
    GranuleEnd(geo.granule, g, geo.granules + 1);
  }

  /** The scan reads a bitmap that it does not change. */
  lemma MapByte(geo: Geometry, cell: seq<nat>, now: seq<byte>, was: seq<byte>, marks: seq<bool>, upTo: nat, i: nat)
    requires Shape(geo, cell, |was|) && upTo <= |marks| && i < geo.size
    requires RestoredBelow(geo, cell, now, was, marks, upTo)
    ensures Map(geo, was)[i] == now[2 * geo.size + i]
  {
  }

  lemma WordBits(geo: Geometry, cell: seq<nat>, now: seq<byte>, was: seq<byte>, marks: seq<bool>, at: nat, word: seq<bool>)
    requires Marks(geo, cell, was, marks) && at * 8 + 16 <= |marks| && at + 1 < geo.size
    requires RestoredBelow(geo, cell, now, was, marks, at * 8)
    requires word == Bits(now[2 * geo.size + at]) + Bits(now[2 * geo.size + at + 1])
    ensures forall k {:trigger word[k]} | 0 <= k < 16 :: word[k] == marks[at * 8 + k]
  {
    MapByte(geo, cell, now, was, marks, at * 8, at);
    MapByte(geo, cell, now, was, marks, at * 8, at + 1);
    forall k {:trigger word[k]} | 0 <= k < 16 ensures word[k] == marks[at * 8 + k] {
      WordBit(Map(geo, was), at, k);
    }
  }

  lemma WordBit(map': seq<byte>, at: nat, k: nat)
    requires at + 1 < |map'| && k < 16
    ensures (Bits(map'[at]) + Bits(map'[at + 1]))[k] == Marked(map', at * 8 + k)
  {
    assert (at * 8 + k) / 8 == if k < 8 then at else at + 1;
  }

  lemma ZeroSkipped(geo: Geometry, cell: seq<nat>, now: seq<byte>, was: seq<byte>, marks: seq<bool>, at: nat, n: nat)
    requires Marks(geo, cell, was, marks) && (at + n) * 8 <= |marks| && at + n <= geo.size
    requires RestoredBelow(geo, cell, now, was, marks, at * 8)
    requires forall j | 2 * geo.size + at <= j < 2 * geo.size + at + n :: now[j] == 0
    ensures RestoredBelow(geo, cell, now, was, marks, (at + n) * 8)
  {
    forall g | at * 8 <= g < (at + n) * 8 ensures !marks[g] {
      MapByte(geo, cell, now, was, marks, at * 8, g / 8);
      NothingInZero(g % 8);
      assert !Marked(Map(geo, was), g);
    }
  }

  lemma ByteInside(geo: Geometry, g: nat)
    requires geo.Valid() && g < geo.granules
    ensures g / 8 + 1 < geo.size
  {
  }

  lemma WholeWords(geo: Geometry, offset: nat)
    requires geo.Valid() && offset % 8 == 0 && offset < geo.granules / 8
    ensures offset * 8 + 64 <= geo.scanned && offset + 8 <= geo.size
  {
  }

  lemma BeforeScan(geo: Geometry, cell: seq<nat>, was: seq<byte>) returns (marks: seq<bool>)
    requires Shape(geo, cell, |was|) && NothingBehindSpare(geo, Map(geo, was))
    ensures Marks(geo, cell, was, marks) && RestoredBelow(geo, cell, was, was, marks, 0)
  {
    marks := seq(geo.scanned, g requires 0 <= g < geo.scanned => Marked(Map(geo, was), g));
  }

  lemma ScanEnds(geo: Geometry, offset: nat)
    requires geo.Valid() && offset % 8 == 0 && offset >= geo.granules / 8 && offset * 8 <= geo.scanned
    ensures offset * 8 == geo.scanned
  {
  }

  lemma ScanDone(geo: Geometry, cell: seq<nat>, now: seq<byte>, was: seq<byte>, marks: seq<bool>)
    requires Marks(geo, cell, was, marks) && RestoredBelow(geo, cell, now, was, marks, |marks|)
    ensures now == Restored(geo, cell, was)
  {
    assert forall j | 0 <= j < |now| :: now[j] == Restored(geo, cell, was)[j];
  }

  lemma StoreParts(geo: Geometry, was: seq<byte>, marked: seq<byte>, at: nat, bytes: seq<byte>)
    requires |was| == |marked| == 3 * geo.size && at + |bytes| <= geo.size
    requires marked[..2 * geo.size] == was[..2 * geo.size]
    ensures Splice(marked, at, bytes) == Splice(Area(geo, was), at, bytes) + Copy(geo, was) + Map(geo, marked)
  {
    assert Area(geo, marked) == Area(geo, was) by {
      assert Area(geo, marked) == marked[..2 * geo.size][..geo.size];
    }
    assert Copy(geo, marked) == Copy(geo, was) by {
      assert Copy(geo, marked) == marked[..2 * geo.size][geo.size..];
    }
    assert marked == Area(geo, marked) + (Copy(geo, marked) + Map(geo, marked));
    SpliceFirst(Area(geo, marked), Copy(geo, marked) + Map(geo, marked), at, bytes);
  }

  lemma SpliceFirst(area: seq<byte>, rest: seq<byte>, at: nat, bytes: seq<byte>)
    requires at + |bytes| <= |area|
    ensures Splice(area + rest, at, bytes) == Splice(area, at, bytes) + rest
  {
  }
}
