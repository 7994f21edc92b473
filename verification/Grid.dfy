/** MVM_GRID_CKPT: a granule is saved before its first store after a checkpoint.
    The bitmap is modelled bit by bit: bit i is bit i % 8 of its byte i / 8. */
module Grid {
  import opened CheckpointMemory

  /** Whether the `n` bits from `lo` are all 0: one read of a 64-bit or 16-bit word. */
  predicate WordIsZero(bits: array<bool>, lo: nat, n: nat)
    requires lo + n <= bits.Length
    reads bits
  {
    forall i | lo <= i < lo + n :: !bits[i]
  }

  /** The flat pass: the area after every granule marked below `upTo` has been copied back. */
  ghost predicate RestoredBelow(now: seq<byte>, was: seq<byte>, shadow: seq<byte>, cell: seq<nat>, bits: seq<bool>, upTo: nat)
    requires |now| == |was| == |shadow| == |cell|
    requires forall j | 0 <= j < |cell| :: cell[j] < |bits|
  {
    forall j | 0 <= j < |now| :: now[j] == if cell[j] < upTo && bits[cell[j]] then shadow[j] else was[j]
  }

  /** Restores the sixteen granules of one bitmap word, starting at granule `first`. */
  method RestoreWord(area: array<byte>, shadow: array<byte>, bits: array<bool>, granule: nat, first: nat,
                     ghost was: seq<byte>, ghost cell: seq<nat>, ghost granules: nat)
    requires area != shadow && IsGranuleMap(cell, granule, granules)
    requires area.Length == shadow.Length == |cell| == |was|
    requires first + 16 <= granules <= bits.Length
    requires RestoredBelow(area[..], was, shadow[..], cell, bits[..], first)
    modifies area
    ensures RestoredBelow(area[..], was, shadow[..], cell, bits[..], first + 16)
  {
    for k := 0 to 16
      invariant RestoredBelow(area[..], was, shadow[..], cell, bits[..], first + k)
    {
      if bits[first + k] {
        CopyGranule(area, shadow, granule, first + k, cell, granules);
      }
    }
  }

  /** Restores the 64 granules of one bitmap double word, skipping the 16-bit words that are 0. */
  method RestoreDoubleWord(area: array<byte>, shadow: array<byte>, bits: array<bool>, granule: nat, offset: nat,
                           ghost was: seq<byte>, ghost cell: seq<nat>, ghost granules: nat)
    requires area != shadow && IsGranuleMap(cell, granule, granules)
    requires area.Length == shadow.Length == |cell| == |was|
    requires offset * 8 + 64 <= granules <= bits.Length
    requires RestoredBelow(area[..], was, shadow[..], cell, bits[..], offset * 8)
    modifies area
    ensures RestoredBelow(area[..], was, shadow[..], cell, bits[..], offset * 8 + 64)
  {
    var i := 0;
    while i < 8
      invariant i % 2 == 0 && i <= 8
      invariant RestoredBelow(area[..], was, shadow[..], cell, bits[..], (offset + i) * 8)
    {
      if !WordIsZero(bits, (offset + i) * 8, 16) {
        RestoreWord(area, shadow, bits, granule, (offset + i) * 8, was, cell, granules);
      }
      i := i + 2;
    }
  }

  /** Restores the 64 granules of one bitmap double word, skipped if it is 0. */
  method RestoreUnlessZero(area: array<byte>, shadow: array<byte>, bits: array<bool>, granule: nat, offset: nat,
                           ghost was: seq<byte>, ghost cell: seq<nat>, ghost granules: nat)
    requires area != shadow && IsGranuleMap(cell, granule, granules)
    requires area.Length == shadow.Length == |cell| == |was|
    requires offset * 8 + 64 <= granules <= bits.Length
    requires RestoredBelow(area[..], was, shadow[..], cell, bits[..], offset * 8)
    modifies area
    ensures RestoredBelow(area[..], was, shadow[..], cell, bits[..], offset * 8 + 64)
  {
    if !WordIsZero(bits, offset * 8, 64) {
      RestoreDoubleWord(area, shadow, bits, granule, offset, was, cell, granules);
    }
  }

  /** `_restore_area`: scans the bitmap by 64-bit words, then 16-bit words, then bits, and clears it.
      The outcome is that of one flat pass over every bit. */
  method RestoreArea(area: array<byte>, shadow: array<byte>, bits: array<bool>, granule: nat,
                     granules: nat, ghost cell: seq<nat>)
    requires area != shadow && IsGranuleMap(cell, granule, granules)
    requires area.Length == shadow.Length == |cell|
    requires granules % 64 == 0 && granules <= bits.Length
    modifies area, bits
    ensures RestoredBelow(area[..], old(area[..]), shadow[..], cell, old(bits[..]), granules)
    ensures forall i | 0 <= i < bits.Length :: !bits[i]
  {
    ghost var was, marks := area[..], bits[..];
    var offset := 0;
    while offset < granules / 8
      invariant offset % 8 == 0 && offset <= granules / 8
      invariant bits[..] == marks
      invariant RestoredBelow(area[..], was, shadow[..], cell, marks, offset * 8)
    {
      WholeWord(granules, offset);
      RestoreUnlessZero(area, shadow, bits, granule, offset, was, cell, granules);
      offset := offset + 8;
    }
    ScanEnds(granules, offset);
    ClearBits(bits, 0, bits.Length);
  }

  lemma WholeWord(granules: nat, offset: nat)
    requires granules % 64 == 0 && offset % 8 == 0 && offset < granules / 8
    ensures offset * 8 + 64 <= granules && (offset + 8) % 8 == 0 && offset + 8 <= granules / 8
  {
  }

  lemma ScanEnds(granules: nat, offset: nat)
    requires granules % 64 == 0 && granules / 8 <= offset <= granules / 8
    ensures offset * 8 == granules
  {
  }

  /** MVM_GRID_CKPT: an undo log of granules. */
  class UndoArea {
    const granule: nat
    const granules: nat
    const area: array<byte>
    const shadow: array<byte>
    const bits: array<bool>
    ghost const cell: seq<nat>
    ghost var saved: seq<byte>

    ghost predicate Shape() reads this {
      && area != shadow
      && granule in {8, 16, 32, 64} && granules % 64 == 0 && 0 < granules
      && IsGranuleMap(cell, granule, granules)
      && area.Length == shadow.Length == |cell| == |saved| && bits.Length == granules
    }

    /** A marked granule's checkpoint bytes are in the shadow; an unmarked one still has them. */
    ghost predicate Valid() reads this, area, shadow, bits {
      && Shape()
      && forall j | 0 <= j < area.Length :: (if bits[cell[j]] then shadow[j] else area[j]) == saved[j]
    }

    ghost function View(): Memory reads this, area {
      Memory(area[..], saved)
    }

    /** Any area of `granules` MOD-byte granules; its bytes are the first checkpoint. */
    constructor (mod: nat, granules: nat)
      requires mod in {8, 16, 32, 64} && granules % 64 == 0 && 0 < granules
      ensures Valid() && fresh(area) && fresh(shadow) && fresh(bits)
      ensures granule == mod && this.granules == granules
    {
      this.granule, this.granules := mod, granules;
      var a := new byte[granules * mod];
      area, shadow := a, new byte[granules * mod];
      bits := new bool[granules](_ => false);
      cell := GranuleCells(mod, granules);
      saved := a[..];
    }

    /** The test-and-set of one granule's bit, with the copy of the granule if it was clear. */
    method SaveGranule(g: nat)
      requires Valid() && g < granules
      modifies shadow, bits
      ensures Valid() && bits[g]
      ensures forall i | 0 <= i < granules :: old(bits[i]) ==> bits[i]
    {
      if !bits[g] {
        CopyGranule(shadow, area, granule, g, cell, granules);
        bits[g] := true;
      }
    }

    /** `ckpt_assembly`: what runs before a store at offset `off`.  The wrap of the last granule
        compares with the area size minus 8, whatever MOD is; then granule 0 is saved too. */
    method BeforeStore(off: nat)
      requires Valid() && off < area.Length
      modifies shadow, bits
      ensures Valid()
      ensures forall j | off <= j < off + granule && j < area.Length :: bits[cell[j]]
    {
      GranuleBound(granule, granules, off);
      var g := off / granule;
      if off % granule == 0 {
        SaveGranule(g);
      } else {
        SaveGranule(g);
        if g * granule != area.Length - 8 {
          var next := g * granule + granule;
          var wrapped := if next == area.Length then 0 else next;
          WrapIsGranule(granule, granules, g);
          SaveGranule(wrapped / granule);
        }
      }
      forall j | off <= j < off + granule && j < area.Length ensures bits[cell[j]] {
        NeighbourGranule(granule, granules, off, j);
      }
    }

    method Store(off: nat, data: seq<byte>)
      requires Valid() && off + |data| <= area.Length && |data| <= granule
      modifies this, area, shadow, bits
      ensures Valid() && View() == Apply(old(View()), Op.Store(off, data))
    {
      if data != [] {
        BeforeStore(off);
        Write(area, off, data);
      }
      assert area[..] == Splice(old(area[..]), off, data);
    }

    method SetCheckpoint()
      requires Valid()
      modifies this, bits
      ensures Valid() && View() == Apply(old(View()), Checkpoint)
    {
      ClearBits(bits, 0, bits.Length);
      saved := area[..];
    }

    method RestoreObject()
      requires Valid()
      modifies this, area, bits
      ensures Valid() && View() == Apply(old(View()), Restore)
    {
      RestoreArea(area, shadow, bits, granule, granules, cell);
      assert area[..] == saved;
    }

    /** Every run of stores, checkpoints and rollbacks refines the flat specification. */
    method Execute(ops: seq<Op>)
      requires Valid() && AllFit(ops, area.Length, granule)
      modifies this, area, shadow, bits
      ensures Valid() && AllFit(ops, area.Length, area.Length)
      ensures View() == Run(old(View()), ops)
      decreases |ops|
    {
      WidthFits(ops, area.Length, granule);
      if ops != [] {
        match ops[0] {
          case Store(at, bytes) => Store(at, bytes);
          case Checkpoint => SetCheckpoint();
          case Restore => RestoreObject();
        }
        Execute(ops[1..]);
      }
    }
  }

  /** The granule after g, or granule 0 after the last one. */
  lemma WrapIsGranule(granule: nat, granules: nat, g: nat)
    requires 0 < granule && g < granules
    ensures var next := g * granule + granule;
            if next == granules * granule then g + 1 == granules && 0 / granule == 0
            else g + 1 < granules && next / granule == g + 1
  {
    var next := g * granule + granule;
    assert next == (g + 1) * granule;
    GranuleRange(granule, g + 1, next);
    if g + 1 < granules {
      assert (g + 2) * granule <= granules * granule;
    }
  }
}
