/** `build_patches` and `apply_patches` of MVM_MMAP_MULTIVERSIONING/src/_elf_parse.c: each detoured
    instruction becomes a short jump to its landing pad, the pad a near jump to the patch block, and the
    block runs the preamble, the original bytes and the added instructions, and jumps back.
    Jumps and calls are encoded as in the JMP and CALL entries of chapter 3, volume 2 of the
    Intel 64 and IA-32 Software Developer's Manual. */
module Detours {
  import opened LandingPads

  type Bytes = seq<int>

  const PREAMBLE: nat := 82
  const CODE_BLOCK: nat := 512
  const MAX_STOLEN: nat := 64
  const NOP := 0x90
  const JMP8 := 0xeb
  const JMP32 := 0xe9
  const CALL32 := 0xe8

  // ---- encodings ----

  function LittleEndian(v: nat, k: nat): Bytes {
    if k == 0 then [] else [v % 256] + LittleEndian(v / 256, k - 1)
  }

  function FromLittleEndian(b: Bytes): int {
    if b == [] then 0 else b[0] + 256 * FromLittleEndian(b[1..])
  }

  function Power256(k: nat): nat {
    if k == 0 then 1 else 256 * Power256(k - 1)
  }

  lemma {:induction false} LittleEndianRoundTrip(v: nat, k: nat)
    ensures |LittleEndian(v, k)| == k
    ensures v < Power256(k) ==> FromLittleEndian(LittleEndian(v, k)) == v
  {
    if k > 0 {
      LittleEndianRoundTrip(v / 256, k - 1);
      assert LittleEndian(v, k)[1..] == LittleEndian(v / 256, k - 1);
    }
  }

  /** A displacement is truncated to four bytes, or to one. */
  function Encode32(d: int): (b: Bytes)
    ensures |b| == 4
  {
    LittleEndianRoundTrip(d % 0x1_0000_0000, 4);
    LittleEndian(d % 0x1_0000_0000, 4)
  }

  function Decode32(b: Bytes): int
  {
    var u := FromLittleEndian(b);
    if u >= 0x8000_0000 then u - 0x1_0000_0000 else u
  }

  function Encode8(d: int): int {
    d % 256
  }

  function Decode8(b: int): int {
    if b >= 128 then b - 256 else b
  }

  predicate Fits32(d: int) {
    -0x8000_0000 <= d < 0x8000_0000
  }

  predicate Fits8(d: int) {
    -128 <= d < 128
  }

  lemma Displacement32(d: int)
    ensures Decode32(Encode32(d)) == d <==> Fits32(d)
  {
    var u: nat := d % 0x1_0000_0000;
    assert Power256(4) == 256 * Power256(3) == 65536 * Power256(2) == 0x1_0000_0000;
    LittleEndianRoundTrip(u, 4);
    assert Decode32(Encode32(d)) == if u >= 0x8000_0000 then u - 0x1_0000_0000 else u;
  }

  lemma Displacement8(d: int)
    ensures Decode8(Encode8(d)) == d <==> Fits8(d)
  {
  }

  /** Where the jump or call at address a goes. */
  function Target(m: Bytes, a: nat): int
    requires a + 5 <= |m|
  {
    if m[a] == JMP8 then a + 2 + Decode8(m[a + 1])
    else if m[a] in {JMP32, CALL32} then a + 5 + Decode32(m[a + 1..a + 5])
    else a
  }

  function Near(opcode: int, from: nat, to: nat): (b: Bytes)
    ensures |b| == 5
  {
    [opcode] + Encode32(to - (from + 5))
  }

  function Short(from: nat, to: nat): Bytes {
    [JMP8, Encode8(to - (from + 2))]
  }

  lemma NearTarget(m: Bytes, opcode: int, from: nat, to: nat)
    requires from + 5 <= |m| && m[from..from + 5] == Near(opcode, from, to) && opcode in {JMP32, CALL32}
    ensures Target(m, from) == to <==> Fits32(to - (from + 5))
  {
    var w := m[from..from + 5];
    assert m[from] == w[0];
    assert m[from + 1..from + 5] == w[1..] == Encode32(to - (from + 5));
    Displacement32(to - (from + 5));
  }

  lemma ShortTarget(m: Bytes, from: nat, to: nat)
    requires from + 5 <= |m| && m[from..from + 2] == Short(from, to)
    ensures Target(m, from) == to <==> Fits8(to - (from + 2))
  {
    var w := m[from..from + 2];
    assert m[from] == w[0] && m[from + 1] == w[1];
    Displacement8(to - (from + 2));
  }

  // ---- the detours ----

  /** One instruction with its pad, the address of its patch block, the address of its record and the
      instructions to be added behind it. */
  datatype Detour = Detour(site: nat, size: nat, pad: nat, block: nat, record: nat, added: Bytes)

  /** The 82 bytes of `the_patch_assembly` and the address of `the_patch`, which it calls. */
  datatype Preamble = Preamble(bytes: Bytes, patch: nat)

  ghost predicate PreambleOk(p: Preamble) {
    |p.bytes| == PREAMBLE
  }

  /** The copy of the preamble in a block: the record's address at 37, the call at 45. */
  function PreambleBytes(p: Preamble, d: Detour): (b: Bytes)
    requires PreambleOk(p)
    ensures |b| == PREAMBLE
  {
    LittleEndianRoundTrip(d.record, 8);
    p.bytes[..37] + LittleEndian(d.record, 8) + Near(CALL32, d.block + 45, p.patch) + p.bytes[50..]
  }

  function Back(d: Detour): nat {
    d.block + PREAMBLE + d.size + |d.added|
  }

  function BlockBytes(m: Bytes, p: Preamble, d: Detour): (b: Bytes)
    requires PreambleOk(p) && d.site + d.size <= |m|
    ensures |b| == PREAMBLE + d.size + |d.added| + 5
  {
    PreambleBytes(p, d) + m[d.site..d.site + d.size] + d.added + Near(JMP32, Back(d), d.site + d.size)
  }

  function Nops(n: nat): (b: Bytes)
    ensures |b| == n
  {
    seq(n, _ => NOP)
  }

  function SiteBytes(d: Detour): Bytes
    requires 2 <= d.size
  {
    Short(d.site, d.pad) + Nops(d.size - 2)
  }

  function PadBytes(d: Detour): (b: Bytes)
    ensures |b| == PAD_WIDTH
  {
    Near(JMP32, d.pad, d.block) + Nops(PAD_WIDTH - 5)
  }

  // ---- memory ----

  function Overlay(m: Bytes, a: nat, b: Bytes): (m': Bytes)
    requires a + |b| <= |m|
    ensures |m'| == |m|
  {
    seq(|m|, i requires 0 <= i < |m| => if a <= i < a + |b| then b[i - a] else m[i])
  }

  predicate Clear(a: nat, n: nat, b: nat, k: nat) {
    a + n <= b || b + k <= a
  }

  lemma OverlaySlice(m: Bytes, a: nat, b: Bytes)
    requires a + |b| <= |m|
    ensures Overlay(m, a, b)[a..a + |b|] == b
  {
  }

  lemma OverlayKeeps(m: Bytes, a: nat, b: Bytes, c: nat, n: nat)
    requires a + |b| <= |m| && c + n <= |m| && Clear(a, |b|, c, n)
    ensures Overlay(m, a, b)[c..c + n] == m[c..c + n]
  {
  }

  lemma OverlayAppend(m: Bytes, a: nat, b: Bytes, c: Bytes)
    requires a + |b| + |c| <= |m|
    ensures Overlay(Overlay(m, a, b), a + |b|, c) == Overlay(m, a, b + c)
  {
  }

  lemma OverlayInside(m: Bytes, a: nat, b: Bytes, k: nat, c: Bytes)
    requires a + |b| <= |m| && k + |c| <= |b|
    ensures Overlay(Overlay(m, a, b), a + k, c) == Overlay(m, a, Overlay(b, k, c))
  {
  }

  method Copy(mem: array<int>, a: nat, b: Bytes)
    requires a + |b| <= mem.Length
    modifies mem
    ensures mem[..] == Overlay(old(mem[..]), a, b)
  {
    for i := 0 to |b|
      invariant forall k | 0 <= k < mem.Length ::
                  mem[k] == if a <= k < a + i then b[k - a] else old(mem[k])
    {
      mem[a + i] := b[i];
    }
  }

  method Fill(mem: array<int>, a: nat, n: nat)
    requires a + n <= mem.Length
    modifies mem
    ensures mem[..] == Overlay(old(mem[..]), a, Nops(n))
  {
    for i := 0 to n
      invariant forall k | 0 <= k < mem.Length :: mem[k] == if a <= k < a + i then NOP else old(mem[k])
    {
      mem[a + i] := NOP;
    }
  }

  // ---- one detour ----

  ghost predicate InMemory(n: nat, d: Detour) {
    && 2 <= d.size <= MAX_STOLEN && PREAMBLE + d.size + |d.added| + 5 <= CODE_BLOCK
    && d.site + d.size <= n && d.pad + PAD_WIDTH <= n && d.block + CODE_BLOCK <= n && d.site + 5 <= n
    && Clear(d.site, d.size, d.block, CODE_BLOCK) && Clear(d.pad, PAD_WIDTH, d.block, CODE_BLOCK)
    && Clear(d.site, d.size, d.pad, PAD_WIDTH)
  }

  lemma FourPieces(m: Bytes, a: nat, b: Bytes, c: Bytes, d: Bytes, e: Bytes)
    requires a + |b| + |c| + |d| + |e| <= |m|
    ensures Overlay(Overlay(Overlay(Overlay(m, a, b), a + |b|, c), a + |b| + |c|, d), a + |b| + |c| + |d|, e)
            == Overlay(m, a, b + c + d + e)
  {
    OverlayAppend(m, a, b, c);
    OverlayAppend(m, a, b + c, d);
    OverlayAppend(m, a, b + c + d, e);
  }

  /** Three more pieces behind the one already written at a. */
  method CopyRest(mem: array<int>, ghost m: Bytes, a: nat, ghost b: Bytes, n: nat, c: Bytes, d: Bytes, e: Bytes)
    requires n == |b| && a + n + |c| + |d| + |e| <= |m| == mem.Length && mem[..] == Overlay(m, a, b)
    modifies mem
    ensures mem[..] == Overlay(m, a, b + c + d + e)
  {
    FourPieces(m, a, b, c, d, e);
    Copy(mem, a + n, c);
    Copy(mem, a + n + |c|, d);
    Copy(mem, a + n + |c| + |d|, e);
  }

  method CopyBlock(mem: array<int>, p: Preamble, d: Detour)
    requires PreambleOk(p) && InMemory(mem.Length, d)
    modifies mem
    ensures mem[..] == Overlay(old(mem[..]), d.block, BlockBytes(old(mem[..]), p, d))
  {
    ghost var m := mem[..];
    CopyPreamble(mem, p, d);
    OverlayKeeps(m, d.block, PreambleBytes(p, d), d.site, d.size);
    var original := mem[..][d.site..d.site + d.size];
    assert original == m[d.site..d.site + d.size];
    CopyRest(mem, m, d.block, PreambleBytes(p, d), PREAMBLE, original, d.added, Near(JMP32, Back(d), d.site + d.size));
  }

  /** The body of the loop of `build_patches`, for a pad booked in advance. */
  method BuildPatch(mem: array<int>, p: Preamble, d: Detour)
    requires PreambleOk(p) && InMemory(mem.Length, d)
    modifies mem
    ensures mem[..] == Overlay(old(mem[..]), d.block, BlockBytes(old(mem[..]), p, d))
    ensures BlockHolds(mem[..], old(mem[..]), p, d)
  {
    WrittenHolds(mem[..], p, d);
    CopyBlock(mem, p, d);
  }

  lemma PreamblePieces(p: Preamble, call: Bytes, record: Bytes)
    requires PreambleOk(p) && |call| == 5 && |record| == 8
    ensures Overlay(Overlay(p.bytes, 45, call), 37, record) == p.bytes[..37] + record + call + p.bytes[50..]
  {
  }

  method CopyTemplate(mem: array<int>, a: nat, p: Preamble, call: Bytes, record: Bytes)
    requires PreambleOk(p) && a + PREAMBLE <= mem.Length && |call| == 5 && |record| == 8
    modifies mem
    ensures mem[..] == Overlay(old(mem[..]), a, p.bytes[..37] + record + call + p.bytes[50..])
  {
    ghost var m := mem[..];
    OverlayInside(m, a, p.bytes, 45, call);
    OverlayInside(m, a, Overlay(p.bytes, 45, call), 37, record);
    PreamblePieces(p, call, record);
    Copy(mem, a, p.bytes);
    Copy(mem, a + 45, call);
    Copy(mem, a + 37, record);
  }

  method CopyPreamble(mem: array<int>, p: Preamble, d: Detour)
    requires PreambleOk(p) && d.block + PREAMBLE <= mem.Length
    modifies mem
    ensures mem[..] == Overlay(old(mem[..]), d.block, PreambleBytes(p, d))
  {
    LittleEndianRoundTrip(d.record, 8);
    CopyTemplate(mem, d.block, p, Near(CALL32, d.block + 45, p.patch), LittleEndian(d.record, 8));
  }

  /** The body of the loop of `apply_patches`. */
  method ApplyPatch(mem: array<int>, d: Detour)
    requires InMemory(mem.Length, d)
    modifies mem
    ensures mem[..] == Overlay(Overlay(old(mem[..]), d.site, SiteBytes(d)), d.pad, PadBytes(d))
  {
    JumpAndNops(mem, d.site, Short(d.site, d.pad), d.size - 2);
    JumpAndNops(mem, d.pad, Near(JMP32, d.pad, d.block), PAD_WIDTH - 5);
  }

  method JumpAndNops(mem: array<int>, a: nat, jump: Bytes, n: nat)
    requires a + |jump| + n <= mem.Length
    modifies mem
    ensures mem[..] == Overlay(old(mem[..]), a, jump + Nops(n))
  {
    OverlayAppend(mem[..], a, jump, Nops(n));
    Copy(mem, a, jump);
    if n > 0 {
      Fill(mem, a + |jump|, n);
    }
  }

  // ---- all the detours ----

  ghost predicate Separate(d: Detour, e: Detour) {
    && Clear(d.site, d.size, e.site, e.size) && Clear(d.pad, PAD_WIDTH, e.pad, PAD_WIDTH)
    && Clear(d.block, CODE_BLOCK, e.block, CODE_BLOCK) && Clear(d.site, d.size, e.pad, PAD_WIDTH)
    && Clear(d.site, d.size, e.block, CODE_BLOCK) && Clear(d.pad, PAD_WIDTH, e.block, CODE_BLOCK)
  }

  /** Instructions, pads and patch blocks are all apart. */
  ghost predicate Layout(n: nat, ds: seq<Detour>) {
    && (forall i | 0 <= i < |ds| :: InMemory(n, ds[i]))
    && forall i, k | 0 <= i < |ds| && 0 <= k < |ds| && i != k :: Separate(ds[i], ds[k])
  }

  predicate ClearOf(d: Detour, a: nat) {
    Clear(a, 1, d.site, d.size) && Clear(a, 1, d.pad, PAD_WIDTH) && Clear(a, 1, d.block, CODE_BLOCK)
  }

  ghost predicate Outside(ds: seq<Detour>, a: nat) {
    forall i | 0 <= i < |ds| :: ClearOf(ds[i], a)
  }

  ghost predicate Unchanged(m: Bytes, m0: Bytes, ds: seq<Detour>) {
    |m| == |m0| && forall a: nat | a < |m| && Outside(ds, a) :: m[a] == m0[a]
  }

  predicate SiteIntact(m: Bytes, m0: Bytes, d: Detour)
  {
    d.site + d.size <= |m| == |m0| && m[d.site..d.site + d.size] == m0[d.site..d.site + d.size]
  }

  predicate BlockDone(m: Bytes, m0: Bytes, p: Preamble, d: Detour)
    requires PreambleOk(p)
  {
    && d.site + d.size <= |m0| && d.block + |BlockBytes(m0, p, d)| <= |m|
    && m[d.block..d.block + |BlockBytes(m0, p, d)|] == BlockBytes(m0, p, d)
  }

  /** What a block holds, piece by piece: the template with the record's address at 37 and the call at 45,
      the original bytes, the added instructions and the jump back. */
  predicate BlockHolds(m: Bytes, m0: Bytes, p: Preamble, d: Detour)
    requires PreambleOk(p)
  {
    var code := d.block + PREAMBLE;
    && d.site + d.size <= |m0| && Back(d) + 5 <= |m|
    && m[d.block..d.block + 37] == p.bytes[..37] && m[d.block + 50..code] == p.bytes[50..]
    && m[d.block + 37..d.block + 45] == LittleEndian(d.record, 8)
    && m[d.block + 45..d.block + 50] == Near(CALL32, d.block + 45, p.patch)
    && m[code..code + d.size] == m0[d.site..d.site + d.size]
    && m[code + d.size..Back(d)] == d.added
    && m[Back(d)..Back(d) + 5] == Near(JMP32, Back(d), d.site + d.size)
  }

  predicate PatchDone(m: Bytes, d: Detour)
  {
    && 2 <= d.size && d.site + d.size <= |m| && d.pad + PAD_WIDTH <= |m|
    && m[d.site..d.site + d.size] == SiteBytes(d)
    && m[d.pad..d.pad + PAD_WIDTH] == PadBytes(d)
  }

  /** A write inside the regions of one detour leaves everything outside alone. */
  lemma OverlayUnchanged(m: Bytes, m0: Bytes, ds: seq<Detour>, i: nat, a: nat, b: Bytes)
    requires Unchanged(m, m0, ds) && i < |ds| && a + |b| <= |m|
    requires (a == ds[i].site && |b| == ds[i].size) || (a == ds[i].pad && |b| == PAD_WIDTH)
             || (a == ds[i].block && |b| <= CODE_BLOCK)
    ensures Unchanged(Overlay(m, a, b), m0, ds)
  {
    var m' := Overlay(m, a, b);
    forall c: nat | c < |m'| && Outside(ds, c) ensures m'[c] == m0[c] {
      assert ClearOf(ds[i], c);
    }
  }

  ghost predicate Built(m: Bytes, m0: Bytes, p: Preamble, ds: seq<Detour>, k: nat)
    requires PreambleOk(p) && k <= |ds|
  {
    && Unchanged(m, m0, ds)
    && (forall i | 0 <= i < |ds| :: SiteIntact(m, m0, ds[i]))
    && forall i | 0 <= i < k :: BlockDone(m, m0, p, ds[i])
  }

  lemma BuildSites(m: Bytes, m0: Bytes, ds: seq<Detour>, k: nat, b: Bytes)
    requires Layout(|m0|, ds) && k < |ds| && |m| == |m0| && |b| <= CODE_BLOCK && ds[k].block + |b| <= |m|
    requires forall i | 0 <= i < |ds| :: SiteIntact(m, m0, ds[i])
    ensures forall i | 0 <= i < |ds| :: SiteIntact(Overlay(m, ds[k].block, b), m0, ds[i])
  {
    forall i | 0 <= i < |ds| ensures SiteIntact(Overlay(m, ds[k].block, b), m0, ds[i]) {
      assert SiteIntact(m, m0, ds[i]) && InMemory(|m0|, ds[i]);
      assert i != k ==> Separate(ds[i], ds[k]);
      OverlayKeeps(m, ds[k].block, b, ds[i].site, ds[i].size);
    }
  }

  lemma BuildBlocks(m: Bytes, m0: Bytes, p: Preamble, ds: seq<Detour>, k: nat, b: Bytes)
    requires PreambleOk(p) && Layout(|m0|, ds) && k < |ds| && |m| == |m0| && |b| <= CODE_BLOCK && ds[k].block + |b| <= |m|
    requires forall i | 0 <= i < k :: BlockDone(m, m0, p, ds[i])
    ensures forall i | 0 <= i < k :: BlockDone(Overlay(m, ds[k].block, b), m0, p, ds[i])
  {
    forall i | 0 <= i < k ensures BlockDone(Overlay(m, ds[k].block, b), m0, p, ds[i]) {
      assert BlockDone(m, m0, p, ds[i]) && InMemory(|m0|, ds[i]) && Separate(ds[i], ds[k]);
      OverlayKeeps(m, ds[k].block, b, ds[i].block, |BlockBytes(m0, p, ds[i])|);
    }
  }

  lemma BuildOne(m: Bytes, m0: Bytes, p: Preamble, ds: seq<Detour>, k: nat)
    requires PreambleOk(p) && Layout(|m0|, ds) && k < |ds| && Built(m, m0, p, ds, k)
    ensures InMemory(|m|, ds[k])
    ensures Built(Overlay(m, ds[k].block, BlockBytes(m, p, ds[k])), m0, p, ds, k + 1)
  {
    var d := ds[k];
    assert InMemory(|m0|, d) && SiteIntact(m, m0, d);
    var b := BlockBytes(m0, p, d);
    assert b == BlockBytes(m, p, d);
    OverlayUnchanged(m, m0, ds, k, d.block, b);
    OverlaySlice(m, d.block, b);
    BuildSites(m, m0, ds, k, b);
    BuildBlocks(m, m0, p, ds, k, b);
  }

  method BuildPatches(mem: array<int>, p: Preamble, ds: seq<Detour>)
    requires PreambleOk(p) && Layout(mem.Length, ds)
    modifies mem
    ensures Built(mem[..], old(mem[..]), p, ds, |ds|)
    ensures forall i | 0 <= i < |ds| :: BlockHolds(mem[..], old(mem[..]), p, ds[i])
  {
    for i := 0 to |ds|
      invariant Built(mem[..], old(mem[..]), p, ds, i)
    {
      BuildOne(mem[..], old(mem[..]), p, ds, i);
      BuildPatch(mem, p, ds[i]);
    }
    AllHold(mem[..], old(mem[..]), p, ds);
  }

  lemma AllHold(m: Bytes, m0: Bytes, p: Preamble, ds: seq<Detour>)
    requires PreambleOk(p) && Layout(|m0|, ds) && |m| == |m0| && forall i | 0 <= i < |ds| :: BlockDone(m, m0, p, ds[i])
    ensures forall i | 0 <= i < |ds| :: BlockHolds(m, m0, p, ds[i])
  {
    forall i | 0 <= i < |ds| ensures BlockHolds(m, m0, p, ds[i]) {
      assert InMemory(|m0|, ds[i]) && BlockDone(m, m0, p, ds[i]);
      DoneHolds(m, m0, p, ds[i]);
    }
  }

  ghost predicate Applied(m: Bytes, m0: Bytes, p: Preamble, ds: seq<Detour>, k: nat)
    requires PreambleOk(p) && k <= |ds|
  {
    && Unchanged(m, m0, ds)
    && (forall i | 0 <= i < |ds| :: BlockDone(m, m0, p, ds[i]))
    && forall i | 0 <= i < k :: PatchDone(m, ds[i])
  }

  lemma BlockStays(m: Bytes, m0: Bytes, p: Preamble, d: Detour, a: nat, b: Bytes)
    requires PreambleOk(p) && InMemory(|m0|, d) && BlockDone(m, m0, p, d)
    requires a + |b| <= |m| && Clear(a, |b|, d.block, CODE_BLOCK)
    ensures BlockDone(Overlay(m, a, b), m0, p, d)
  {
    OverlayKeeps(m, a, b, d.block, |BlockBytes(m0, p, d)|);
  }

  lemma ApplyBlocks(m: Bytes, m0: Bytes, p: Preamble, ds: seq<Detour>, k: nat, a: nat, b: Bytes)
    requires PreambleOk(p) && Layout(|m0|, ds) && k < |ds| && Unchanged(m, m0, ds)
    requires forall i | 0 <= i < |ds| :: BlockDone(m, m0, p, ds[i])
    requires (a == ds[k].site && |b| == ds[k].size) || (a == ds[k].pad && |b| == PAD_WIDTH)
    ensures a + |b| <= |m| && Unchanged(Overlay(m, a, b), m0, ds)
    ensures forall i | 0 <= i < |ds| :: BlockDone(Overlay(m, a, b), m0, p, ds[i])
  {
    assert InMemory(|m0|, ds[k]);
    OverlayUnchanged(m, m0, ds, k, a, b);
    forall i | 0 <= i < |ds| ensures BlockDone(Overlay(m, a, b), m0, p, ds[i]) {
      assert InMemory(|m0|, ds[i]);
      assert i != k ==> Separate(ds[k], ds[i]);
      BlockStays(m, m0, p, ds[i], a, b);
    }
  }

  lemma ApplyOthers(m: Bytes, n: nat, ds: seq<Detour>, k: nat, i: nat)
    requires Layout(n, ds) && |m| == n && k < |ds| && i < |ds| && i != k && PatchDone(m, ds[i])
    ensures InMemory(n, ds[k])
    ensures PatchDone(Overlay(Overlay(m, ds[k].site, SiteBytes(ds[k])), ds[k].pad, PadBytes(ds[k])), ds[i])
  {
    var d, e := ds[k], ds[i];
    assert InMemory(n, d) && InMemory(n, e) && Separate(d, e) && Separate(e, d);
    var m' := Overlay(m, d.site, SiteBytes(d));
    OverlayKeeps(m, d.site, SiteBytes(d), e.site, e.size);
    OverlayKeeps(m, d.site, SiteBytes(d), e.pad, PAD_WIDTH);
    OverlayKeeps(m', d.pad, PadBytes(d), e.site, e.size);
    OverlayKeeps(m', d.pad, PadBytes(d), e.pad, PAD_WIDTH);
  }

  lemma ApplyItself(m: Bytes, d: Detour)
    requires InMemory(|m|, d)
    ensures PatchDone(Overlay(Overlay(m, d.site, SiteBytes(d)), d.pad, PadBytes(d)), d)
  {
    var m' := Overlay(m, d.site, SiteBytes(d));
    OverlaySlice(m, d.site, SiteBytes(d));
    OverlayKeeps(m', d.pad, PadBytes(d), d.site, d.size);
    OverlaySlice(m', d.pad, PadBytes(d));
  }

  lemma ApplyOne(m: Bytes, m0: Bytes, p: Preamble, ds: seq<Detour>, k: nat)
    requires PreambleOk(p) && Layout(|m0|, ds) && k < |ds| && Applied(m, m0, p, ds, k)
    ensures InMemory(|m|, ds[k])
    ensures Applied(Overlay(Overlay(m, ds[k].site, SiteBytes(ds[k])), ds[k].pad, PadBytes(ds[k])), m0, p, ds, k + 1)
  {
    var d := ds[k];
    assert InMemory(|m0|, d);
    ApplyBlocks(m, m0, p, ds, k, d.site, SiteBytes(d));
    ApplyBlocks(Overlay(m, d.site, SiteBytes(d)), m0, p, ds, k, d.pad, PadBytes(d));
    ApplyItself(m, d);
    forall i | 0 <= i < k
      ensures PatchDone(Overlay(Overlay(m, d.site, SiteBytes(d)), d.pad, PadBytes(d)), ds[i])
    {
      ApplyOthers(m, |m0|, ds, k, i);
    }
  }

  method ApplyPatches(mem: array<int>, p: Preamble, ds: seq<Detour>, ghost m0: Bytes)
    requires PreambleOk(p) && Layout(mem.Length, ds) && |m0| == mem.Length && Built(mem[..], m0, p, ds, |ds|)
    modifies mem
    ensures Applied(mem[..], m0, p, ds, |ds|)
    ensures forall i | 0 <= i < |ds| :: BlockHolds(mem[..], m0, p, ds[i])
  {
    for i := 0 to |ds|
      invariant Applied(mem[..], m0, p, ds, i)
    {
      ApplyOne(mem[..], m0, p, ds, i);
      ApplyPatch(mem, ds[i]);
    }
    AllHold(mem[..], m0, p, ds);
  }

  // ---- what runs ----

  /** Control either takes the jump it has reached, or runs n bytes of code in a row. */
  datatype Hop = Take | Straight(n: nat)

  datatype Flow = Flow(at: int, ran: Bytes)

  function Follow(m: Bytes, f: Flow, hops: seq<Hop>): Flow
    decreases |hops|
  {
    if hops == [] then f
    else match hops[0]
      case Take => Follow(m, if 0 <= f.at && f.at + 5 <= |m| then f.(at := Target(m, f.at)) else f, hops[1..])
      case Straight(n) =>
        Follow(m, if 0 <= f.at && f.at + n <= |m| then Flow(f.at + n, f.ran + m[f.at..f.at + n]) else f, hops[1..])
  }

  /** A part of what has been written. */
  lemma Part(m: Bytes, a: nat, b: Bytes, k: nat, n: nat)
    requires a + |b| <= |m| && m[a..a + |b|] == b && k + n <= |b|
    ensures m[a + k..a + k + n] == b[k..k + n]
  {
    forall j | k <= j < k + n ensures m[a + j] == b[j] {
      assert m[a + j] == m[a..a + |b|][j];
    }
  }

  /** Where the pieces of a concatenation are. */
  lemma FourParts(b: Bytes, c: Bytes, d: Bytes, e: Bytes)
    ensures var all, k, n := b + c + d + e, |b| + |c|, |b| + |c| + |d|;
            all[0..|b|] == b && all[|b|..k] == c && all[k..n] == d && all[n..n + |e|] == e
  {
  }

  lemma PreambleParts(p: Preamble, d: Detour)
    requires PreambleOk(p)
    ensures var b := PreambleBytes(p, d);
            && b[0..37] == p.bytes[..37] && b[37..45] == LittleEndian(d.record, 8)
            && b[45..50] == Near(CALL32, d.block + 45, p.patch) && b[50..82] == p.bytes[50..]
  {
    LittleEndianRoundTrip(d.record, 8);
    FourParts(p.bytes[..37], LittleEndian(d.record, 8), Near(CALL32, d.block + 45, p.patch), p.bytes[50..]);
  }

  lemma BlockParts(m0: Bytes, p: Preamble, d: Detour)
    requires PreambleOk(p) && d.site + d.size <= |m0|
    ensures var b, n := BlockBytes(m0, p, d), PREAMBLE + d.size + |d.added|;
            && b[0..PREAMBLE] == PreambleBytes(p, d)
            && b[PREAMBLE..PREAMBLE + d.size] == m0[d.site..d.site + d.size]
            && b[PREAMBLE + d.size..n] == d.added && b[n..n + 5] == Near(JMP32, Back(d), d.site + d.size)
  {
    FourParts(PreambleBytes(p, d), m0[d.site..d.site + d.size], d.added, Near(JMP32, Back(d), d.site + d.size));
  }

  lemma BlockSlices(m: Bytes, m0: Bytes, p: Preamble, d: Detour)
    requires PreambleOk(p) && d.site + d.size <= |m0| && Back(d) + 5 <= |m| && BlockDone(m, m0, p, d)
    ensures var code := d.block + PREAMBLE;
            && m[d.block..code] == PreambleBytes(p, d) && m[code..code + d.size] == m0[d.site..d.site + d.size]
            && m[code + d.size..Back(d)] == d.added && m[Back(d)..Back(d) + 5] == Near(JMP32, Back(d), d.site + d.size)
  {
    var b, n := BlockBytes(m0, p, d), PREAMBLE + d.size + |d.added|;
    BlockParts(m0, p, d);
    Part(m, d.block, b, 0, PREAMBLE);
    Part(m, d.block, b, PREAMBLE, d.size);
    Part(m, d.block, b, PREAMBLE + d.size, |d.added|);
    Part(m, d.block, b, n, 5);
  }

  /** A block that is done holds its pieces. */
  lemma DoneHolds(m: Bytes, m0: Bytes, p: Preamble, d: Detour)
    requires PreambleOk(p) && |m| == |m0| && InMemory(|m0|, d) && BlockDone(m, m0, p, d)
    ensures BlockHolds(m, m0, p, d)
  {
    BlockSlices(m, m0, p, d);
    PreambleHolds(m, p, d);
  }

  lemma WrittenHolds(m: Bytes, p: Preamble, d: Detour)
    requires PreambleOk(p) && InMemory(|m|, d)
    ensures BlockHolds(Overlay(m, d.block, BlockBytes(m, p, d)), m, p, d)
  {
    OverlaySlice(m, d.block, BlockBytes(m, p, d));
    DoneHolds(Overlay(m, d.block, BlockBytes(m, p, d)), m, p, d);
  }

  lemma PreambleHolds(m: Bytes, p: Preamble, d: Detour)
    requires PreambleOk(p) && d.block + PREAMBLE <= |m| && m[d.block..d.block + PREAMBLE] == PreambleBytes(p, d)
    ensures m[d.block..d.block + 37] == p.bytes[..37] && m[d.block + 50..d.block + PREAMBLE] == p.bytes[50..]
    ensures m[d.block + 37..d.block + 45] == LittleEndian(d.record, 8)
    ensures m[d.block + 45..d.block + 50] == Near(CALL32, d.block + 45, p.patch)
  {
    PreambleParts(p, d);
    Part(m, d.block, PreambleBytes(p, d), 0, 37);
    Part(m, d.block, PreambleBytes(p, d), 37, 8);
    Part(m, d.block, PreambleBytes(p, d), 45, 5);
    Part(m, d.block, PreambleBytes(p, d), 50, 32);
  }

  /** Every byte of the template outside the record's address and the call is in the block. */
  lemma TemplateCopied(m: Bytes, m0: Bytes, p: Preamble, d: Detour, k: nat)
    requires PreambleOk(p) && BlockHolds(m, m0, p, d) && k < PREAMBLE && (k < 37 || k >= 50)
    ensures d.block + k < |m| && m[d.block + k] == p.bytes[k]
  {
    if k < 37 {
      assert m[d.block..d.block + 37][k] == p.bytes[..37][k];
    } else {
      assert m[d.block + 50..d.block + PREAMBLE][k - 50] == p.bytes[50..][k - 50];
    }
  }

  /** The two jumps outside the block, and those of the block, go where they should exactly if the
      distances fit; the record that the preamble passes is the right one. */
  lemma JumpsToBlock(m: Bytes, d: Detour)
    requires InMemory(|m|, d) && PatchDone(m, d)
    ensures Target(m, d.site) == d.pad <==> Fits8(d.pad - (d.site + 2))
    ensures Target(m, d.pad) == d.block <==> Fits32(d.block - (d.pad + 5))
  {
    SitePieces(m, d);
    ShortTarget(m, d.site, d.pad);
    NearTarget(m, JMP32, d.pad, d.block);
  }

  lemma JumpsFromBlock(m: Bytes, m0: Bytes, p: Preamble, d: Detour)
    requires PreambleOk(p) && BlockHolds(m, m0, p, d)
    ensures Target(m, Back(d)) == d.site + d.size <==> Fits32(d.site + d.size - (Back(d) + 5))
    ensures Target(m, d.block + 45) == p.patch <==> Fits32(p.patch - (d.block + 50))
    ensures d.record < Power256(8) ==> FromLittleEndian(m[d.block + 37..d.block + 45]) == d.record
  {
    NearTarget(m, JMP32, Back(d), d.site + d.size);
    NearTarget(m, CALL32, d.block + 45, p.patch);
    LittleEndianRoundTrip(d.record, 8);
  }

  lemma SitePieces(m: Bytes, d: Detour)
    requires PatchDone(m, d)
    ensures m[d.site..d.site + 2] == Short(d.site, d.pad) && m[d.pad..d.pad + 5] == Near(JMP32, d.pad, d.block)
  {
    assert m[d.site..d.site + 2] == m[d.site..d.site + d.size][..2];
    assert m[d.pad..d.pad + 5] == m[d.pad..d.pad + PAD_WIDTH][..5];
  }

  ghost predicate InReach(d: Detour) {
    && Fits8(d.pad - (d.site + 2)) && Fits32(d.block - (d.pad + 5))
    && Fits32(d.site + d.size - (Back(d) + 5))
  }

  /** A jump whose target is known. */
  predicate Leads(m: Bytes, a: nat, to: nat) {
    a + 5 <= |m| && Target(m, a) == to
  }

  lemma FollowTake(m: Bytes, a: nat, to: nat, ran: Bytes, hops: seq<Hop>)
    requires Leads(m, a, to) && hops != [] && hops[0] == Take
    ensures Follow(m, Flow(a, ran), hops) == Follow(m, Flow(to, ran), hops[1..])
  {
  }

  lemma FollowPath(m: Bytes, site: nat, pad: nat, block: nat, code: Bytes, to: nat)
    requires Leads(m, site, pad) && Leads(m, pad, block) && Leads(m, block + |code|, to)
    requires block + |code| <= |m| && m[block..block + |code|] == code
    ensures Follow(m, Flow(site, []), [Take, Take, Straight(|code|), Take]) == Flow(to, code)
  {
    var hops := [Take, Take, Straight(|code|), Take];
    FollowTake(m, site, pad, [], hops);
    FollowTake(m, pad, block, [], hops[1..]);
    assert hops[1..][1..] == [Straight(|code|), Take] && hops[1..][1..][1..] == [Take];
    FollowStraight(m, block, code, [Straight(|code|), Take]);
    FollowTake(m, block + |code|, to, code, [Take]);
    assert [Take][1..] == [];
  }

  lemma FollowStraight(m: Bytes, a: nat, code: Bytes, hops: seq<Hop>)
    requires a + |code| <= |m| && m[a..a + |code|] == code && hops != [] && hops[0] == Straight(|code|)
    ensures Follow(m, Flow(a, []), hops) == Follow(m, Flow(a + |code|, code), hops[1..])
  {
    assert [] + code == code;
  }

  /** What a detour runs instead of the instruction alone: the template with its two insertions, the
      original bytes and the added instructions. */
  function Code(m: Bytes, p: Preamble, d: Detour): (b: Bytes)
    requires PreambleOk(p) && d.site + d.size <= |m|
    ensures |b| == PREAMBLE + d.size + |d.added|
  {
    LittleEndianRoundTrip(d.record, 8);
    p.bytes[..37] + LittleEndian(d.record, 8) + Near(CALL32, d.block + 45, p.patch) + p.bytes[50..]
    + m[d.site..d.site + d.size] + d.added
  }

  lemma LeadsToBlock(m: Bytes, d: Detour)
    requires InMemory(|m|, d) && PatchDone(m, d) && InReach(d)
    ensures Leads(m, d.site, d.pad) && Leads(m, d.pad, d.block)
  {
    JumpsToBlock(m, d);
  }

  lemma LeadsBack(m: Bytes, m0: Bytes, p: Preamble, d: Detour)
    requires PreambleOk(p) && BlockHolds(m, m0, p, d) && InReach(d)
    ensures Leads(m, Back(d), d.site + d.size)
  {
    JumpsFromBlock(m, m0, p, d);
  }

  lemma Joined(m: Bytes, a: nat, b: nat, c: nat)
    requires a <= b <= c <= |m|
    ensures m[a..b] + m[b..c] == m[a..c]
  {
  }

  lemma CodeInBlock(m: Bytes, m0: Bytes, p: Preamble, d: Detour)
    requires PreambleOk(p) && BlockHolds(m, m0, p, d)
    ensures Back(d) == d.block + |Code(m0, p, d)| <= |m| && m[d.block..Back(d)] == Code(m0, p, d)
  {
    var a := d.block;
    Joined(m, a, a + 37, a + 45);
    Joined(m, a, a + 45, a + 50);
    Joined(m, a, a + 50, a + PREAMBLE);
    Joined(m, a, a + PREAMBLE, a + PREAMBLE + d.size);
    Joined(m, a, a + PREAMBLE + d.size, Back(d));
  }

  /** From the instruction, control takes two jumps, runs the preamble, the original bytes once and the
      added instructions, and arrives behind the instruction. */
  lemma DetourRuns(m: Bytes, m0: Bytes, p: Preamble, ds: seq<Detour>, i: nat)
    requires PreambleOk(p) && Layout(|m0|, ds) && i < |ds| && Applied(m, m0, p, ds, |ds|) && InReach(ds[i])
    ensures var d := ds[i];
            && d.site + d.size <= |m0|
            && var code := Code(m0, p, d);
               Follow(m, Flow(d.site, []), [Take, Take, Straight(|code|), Take]) == Flow(d.site + d.size, code)
  {
    var d := ds[i];
    assert InMemory(|m0|, d) && PatchDone(m, d) && BlockDone(m, m0, p, d);
    DoneHolds(m, m0, p, d);
    LeadsToBlock(m, d);
    LeadsBack(m, m0, p, d);
    DetourPath(m, m0, p, d);
  }

  lemma DetourPath(m: Bytes, m0: Bytes, p: Preamble, d: Detour)
    requires PreambleOk(p) && BlockHolds(m, m0, p, d)
    requires Leads(m, d.site, d.pad) && Leads(m, d.pad, d.block) && Leads(m, Back(d), d.site + d.size)
    ensures var code := Code(m0, p, d);
            Follow(m, Flow(d.site, []), [Take, Take, Straight(|code|), Take]) == Flow(d.site + d.size, code)
  {
    CodeInBlock(m, m0, p, d);
    FollowPath(m, d.site, d.pad, d.block, Code(m0, p, d), d.site + d.size);
  }

  /** The booked pads meet what a detour needs of them: in reach of a short jump, and apart. */
  lemma BookedPadsServe(zones: seq<nat>, sites: seq<Site>, booked: seq<nat>, ds: seq<Detour>)
    requires PadsOk(zones, sites, booked) && |booked| == |sites| == |ds|
    requires forall i | 0 <= i < |ds| :: booked[i] < |zones| && ds[i].site == sites[i].address && ds[i].pad == zones[booked[i]]
    ensures forall i | 0 <= i < |ds| :: Fits8(ds[i].pad - (ds[i].site + 2))
    ensures forall i, k | 0 <= i < |ds| && 0 <= k < |ds| && i != k :: Clear(ds[i].pad, PAD_WIDTH, ds[k].pad, PAD_WIDTH)
  {
    forall i | 0 <= i < |ds| ensures Fits8(ds[i].pad - (ds[i].site + 2)) {
      assert Reaches(zones, sites[i].address, booked[i]);
    }
    forall i, k | 0 <= i < k < |ds| ensures Clear(ds[i].pad, PAD_WIDTH, ds[k].pad, PAD_WIDTH) {
      assert Apart(zones[booked[i]], zones[booked[k]]);
    }
  }
}
