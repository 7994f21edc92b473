/** The booking of landing pads of MVM_MMAP_MULTIVERSIONING/src/_elf_parse.c: for every instruction to
    be detoured, two adjacent free slots that a jump with an 8-bit displacement can reach. */
module LandingPads {

  const SLOT_SIZE: nat := 5
  const PAD_WIDTH: nat := 10
  const INT64_MAX: int := 0x7fff_ffff_ffff_ffff

  /** The slots in the order of their addresses; each is `cli` and four `nop`, so they cannot overlap. */
  ghost predicate Spaced(zones: seq<nat>) {
    && (forall i | 0 <= i < |zones| :: zones[i] > 0)
    && forall i, k | 0 <= i < k < |zones| :: zones[i] + SLOT_SIZE * (k - i) <= zones[k]
  }

  predicate Adjacent(zones: seq<nat>, i: nat) {
    i + 1 < |zones| && zones[i + 1] == zones[i] + SLOT_SIZE
  }

  predicate Available(zones: seq<nat>, flags: seq<bool>, i: nat) {
    |flags| == |zones| && Adjacent(zones, i) && !flags[i] && !flags[i + 1]
  }

  /** The displacement of the two-byte jump at `site` to slot i fits a signed byte. */
  predicate Reaches(zones: seq<nat>, site: nat, i: nat) {
    i < |zones| && -128 <= zones[i] - (site + 2) <= 127
  }

  predicate Candidate(zones: seq<nat>, flags: seq<bool>, site: nat, i: nat) {
    Available(zones, flags, i) && Reaches(zones, site, i)
  }

  /** The first and the last slot of the block of adjacent slots around slot i. */
  function First(zones: seq<nat>, i: nat): (f: nat)
    ensures f <= i
  {
    if i > 0 && Adjacent(zones, i - 1) then First(zones, i - 1) else i
  }

  function Last(zones: seq<nat>, i: nat): (l: nat)
    requires i < |zones|
    ensures i <= l < |zones|
    decreases |zones| - i
  {
    if Adjacent(zones, i) then Last(zones, i + 1) else i
  }

  /** It is the longest block of adjacent slots that contains slot i. */
  lemma {:induction false} BlockIsMaximal(zones: seq<nat>, i: nat)
    requires i < |zones|
    ensures forall k: nat | First(zones, i) <= k < i :: Adjacent(zones, k)
    ensures First(zones, i) > 0 ==> !Adjacent(zones, First(zones, i) - 1)
    ensures forall k: nat | i <= k < Last(zones, i) :: Adjacent(zones, k)
    ensures !Adjacent(zones, Last(zones, i))
  {
    FirstIsMaximal(zones, i);
    LastIsMaximal(zones, i);
  }

  lemma {:induction false} FirstIsMaximal(zones: seq<nat>, i: nat)
    ensures forall k: nat | First(zones, i) <= k < i :: Adjacent(zones, k)
    ensures First(zones, i) > 0 ==> !Adjacent(zones, First(zones, i) - 1)
  {
    if i > 0 && Adjacent(zones, i - 1) {
      FirstIsMaximal(zones, i - 1);
    }
  }

  lemma {:induction false} LastIsMaximal(zones: seq<nat>, i: nat)
    requires i < |zones|
    ensures forall k: nat | i <= k < Last(zones, i) :: Adjacent(zones, k)
    ensures !Adjacent(zones, Last(zones, i))
    decreases |zones| - i
  {
    if Adjacent(zones, i) {
      LastIsMaximal(zones, i + 1);
    }
  }

  /** How far the end of the jump lies from the block of slot i; the block counts up to the start of
      its last slot. */
  function Distance(zones: seq<nat>, site: nat, i: nat): nat
    requires i + 1 < |zones|
  {
    var origin, start, end := site + 2, zones[First(zones, i)], zones[Last(zones, i + 1)];
    if origin < start then start - origin else if origin > end then origin - end else 0
  }

  lemma DistanceIsShort(zones: seq<nat>, site: nat, i: nat)
    requires Spaced(zones) && i + 1 < |zones| && Reaches(zones, site, i)
    ensures Distance(zones, site, i) <= 128
  {
  }

  method RunIsAvailable(zones: seq<nat>, flags: array<bool>, start: int) returns (free: bool)
    requires flags.Length == |zones|
    ensures free <==> start >= 0 && Available(zones, flags[..], start)
  {
    if start < 0 || start + 1 > |zones| - 1 {
      return false;
    }
    for slot := 0 to 2
      invariant slot >= 1 ==> !flags[start]
      invariant slot >= 2 ==> !flags[start + 1] && zones[start + 1] == zones[start] + SLOT_SIZE
    {
      if flags[start + slot] || zones[start + slot] != zones[start] + slot * SLOT_SIZE {
        return false;
      }
    }
    return true;
  }

  method BlockStart(zones: seq<nat>, index: nat) returns (i: nat)
    requires index < |zones|
    ensures i == First(zones, index)
  {
    i := index;
    while i > 0 && zones[i] == zones[i - 1] + SLOT_SIZE
      invariant i <= index && First(zones, i) == First(zones, index)
    {
      i := i - 1;
    }
  }

  method BlockEnd(zones: seq<nat>, index: nat) returns (i: nat)
    requires index < |zones|
    ensures i == Last(zones, index)
  {
    i := index;
    while i < |zones| - 1 && zones[i + 1] == zones[i] + SLOT_SIZE
      invariant i < |zones| && Last(zones, i) == Last(zones, index)
    {
      i := i + 1;
    }
  }

  method BlockDistance(zones: seq<nat>, site: nat, i: nat) returns (distance: nat)
    requires i + 1 < |zones|
    ensures distance == Distance(zones, site, i)
  {
    var origin := site + 2;
    var start := BlockStart(zones, i);
    var end := BlockEnd(zones, i + 1);
    distance :=
      if origin < zones[start] then zones[start] - origin
      else if origin > zones[end] then origin - zones[end]
      else 0;
  }

  /** Slot i is at least as good a choice as slot k. */
  predicate NoWorse(zones: seq<nat>, site: nat, i: nat, k: nat)
    requires i + 1 < |zones| && k + 1 < |zones|
  {
    var d, d' := Distance(zones, site, i), Distance(zones, site, k);
    d < d' || (d == d' && i <= k)
  }

  /** Among the slots below n: no candidate, or the first of the candidates in the nearest block. */
  ghost predicate ChosenBelow(zones: seq<nat>, flags: seq<bool>, site: nat, n: nat, index: int) {
    if index < 0 then
      forall k: nat | k < n :: !Candidate(zones, flags, site, k)
    else
      && index < n && Candidate(zones, flags, site, index)
      && forall k: nat | k < n && Candidate(zones, flags, site, k) :: NoWorse(zones, site, index, k)
  }

  ghost predicate Chosen(zones: seq<nat>, flags: seq<bool>, site: nat, index: int) {
    ChosenBelow(zones, flags, site, |zones|, index)
  }

  /** The next candidate replaces the choice exactly if its block is nearer. */
  lemma ChooseNext(zones: seq<nat>, flags: seq<bool>, site: nat, n: nat, index: int)
    requires ChosenBelow(zones, flags, site, n, index) && Candidate(zones, flags, site, n)
    ensures if index >= 0 && Distance(zones, site, n) >= Distance(zones, site, index)
            then ChosenBelow(zones, flags, site, n + 1, index)
            else ChosenBelow(zones, flags, site, n + 1, n)
  {
  }

  /** `book_intermediate_target`, with the index of the slot instead of its address. */
  method Book(zones: seq<nat>, flags: array<bool>, site: nat) returns (index: int)
    requires Spaced(zones) && flags.Length == |zones|
    modifies flags
    ensures -1 <= index && Chosen(zones, old(flags[..]), site, index)
    ensures index < 0 ==> flags[..] == old(flags[..])
    ensures index >= 0 ==> index + 1 < |zones| && flags[..] == old(flags[..])[index := true][index + 1 := true]
  {
    index := -1;
    var best := INT64_MAX;
    var i: nat := 0;
    while i + 1 <= |zones| - 1
      invariant -1 <= index && flags[..] == old(flags[..])
      invariant ChosenBelow(zones, old(flags[..]), site, i, index)
      invariant best == if index < 0 then INT64_MAX else Distance(zones, site, index)
    {
      var displacement := zones[i] - (site + 2);
      if -128 <= displacement <= 127 {
        var free := RunIsAvailable(zones, flags, i);
        if free {
          var distance := BlockDistance(zones, site, i);
          DistanceIsShort(zones, site, i);
          ChooseNext(zones, old(flags[..]), site, i, index);
          if !(distance > best) && !(distance == best && index >= 0 && i >= index) {
            best := distance;
            index := i;
          }
        }
      }
      i := i + 1;
    }
    if index >= 0 {
      flags[index], flags[index + 1] := true, true;
    }
  }

  // ---- all the detours ----

  /** An instruction to be detoured. */
  datatype Site = Site(address: nat, size: nat)

  predicate Taken(booked: seq<nat>, k: int) {
    k in booked || k - 1 in booked
  }

  /** Exactly the slots of the booked pads are reserved. */
  ghost predicate Reserved(flags: seq<bool>, booked: seq<nat>) {
    forall k | 0 <= k < |flags| :: flags[k] <==> Taken(booked, k)
  }

  predicate Apart(p: nat, q: nat) {
    p + PAD_WIDTH <= q || q + PAD_WIDTH <= p
  }

  /** Every site has a pad of two adjacent slots within reach, and no two pads overlap. */
  ghost predicate PadsOk(zones: seq<nat>, sites: seq<Site>, booked: seq<nat>) {
    && |booked| <= |sites|
    && (forall m | 0 <= m < |booked| :: Adjacent(zones, booked[m]) && Reaches(zones, sites[m].address, booked[m]))
    && forall m, n | 0 <= m < n < |booked| :: Apart(zones[booked[m]], zones[booked[n]])
  }

  lemma NewPadApart(zones: seq<nat>, flags: seq<bool>, booked: seq<nat>, index: nat)
    requires Spaced(zones) && Reserved(flags, booked) && Available(zones, flags, index)
    requires forall m | 0 <= m < |booked| :: Adjacent(zones, booked[m])
    ensures forall m | 0 <= m < |booked| :: booked[m] < |zones| && Apart(zones[booked[m]], zones[index])
    ensures Reserved(flags[index := true][index + 1 := true], booked + [index])
  {
    forall m | 0 <= m < |booked| ensures booked[m] < |zones| && Apart(zones[booked[m]], zones[index]) {
      assert Adjacent(zones, booked[m]);
      assert Taken(booked, booked[m]) && Taken(booked, booked[m] + 1);
      assert flags[booked[m]] && flags[booked[m] + 1];
    }
    var flags', booked' := flags[index := true][index + 1 := true], booked + [index];
    forall k | 0 <= k < |flags| ensures flags'[k] <==> Taken(booked', k) {
      assert flags[k] <==> Taken(booked, k);
    }
  }

  lemma MorePads(zones: seq<nat>, sites: seq<Site>, booked: seq<nat>, index: nat)
    requires PadsOk(zones, sites, booked) && |booked| < |sites|
    requires Adjacent(zones, index) && Reaches(zones, sites[|booked|].address, index)
    requires forall m | 0 <= m < |booked| :: Apart(zones[booked[m]], zones[index])
    ensures PadsOk(zones, sites, booked + [index])
  {
  }

  /** `finalize_detours`: a pad for every site, or the first site that cannot have one. */
  method FinalizeDetours(zones: seq<nat>, flags: array<bool>, sites: seq<Site>) returns (booked: seq<nat>)
    requires Spaced(zones) && flags.Length == |zones| && forall k | 0 <= k < |zones| :: !flags[k]
    modifies flags
    ensures PadsOk(zones, sites, booked) && Reserved(flags[..], booked)
    ensures |booked| < |sites| ==>
              var site := sites[|booked|];
              site.size < 2 || forall k: nat :: !Candidate(zones, flags[..], site.address, k)
  {
    booked := [];
    for i := 0 to |sites|
      invariant |booked| == i && PadsOk(zones, sites, booked) && Reserved(flags[..], booked)
    {
      if sites[i].size < 2 {
        return;
      }
      ghost var before := flags[..];
      var index := Book(zones, flags, sites[i].address);
      if index < 0 {
        return;
      }
      NewPadApart(zones, before, booked, index);
      MorePads(zones, sites, booked, index);
      booked := booked + [index];
    }
  }
}
