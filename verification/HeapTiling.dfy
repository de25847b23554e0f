/** How the regions of one process tile its heap [0, brk): the free list of src/libmem.c and the
    symbol table entries of the live regions. */
module HeapTiling {
  import opened AddressSpace

  function In(rg: Rg, a: nat): nat {
    if rg.start <= a < rg.end then 1 else 0
  }

  /** How many of the regions contain address a. */
  function Cover(rgs: seq<Rg>, a: nat): nat {
    if rgs == [] then 0 else In(rgs[0], a) + Cover(rgs[1..], a)
  }

  function Bytes(rgs: seq<Rg>): int {
    if rgs == [] then 0 else rgs[0].end - rgs[0].start + Bytes(rgs[1..])
  }

  ghost predicate Bounded(rgs: seq<Rg>, brk: nat) {
    forall i :: 0 <= i < |rgs| ==> rgs[i].start <= rgs[i].end <= brk
  }

  /** No address belongs to two regions and none outside [0, brk) to any; `lost` bytes of [0, brk)
      belong to none. */
  ghost predicate Heap(free: seq<Rg>, live: seq<Rg>, brk: nat, lost: nat) {
    && Bounded(free, brk) && Bounded(live, brk)
    && (forall a: nat :: Cover(free, a) + Cover(live, a) <= if a < brk then 1 else 0)
    && Bytes(free) + Bytes(live) + lost == brk
  }

  /** Every address below brk belongs to exactly one region. */
  ghost predicate Tiled(free: seq<Rg>, live: seq<Rg>, brk: nat) {
    forall a: nat :: a < brk ==> Cover(free, a) + Cover(live, a) == 1
  }

  // ---------------------------------------------------------------- counting

  lemma {:induction false} CoverUpdate(rgs: seq<Rg>, i: nat, x: Rg, a: nat)
    requires i < |rgs|
    ensures Cover(rgs[i := x], a) == Cover(rgs, a) - In(rgs[i], a) + In(x, a)
    ensures Cover(rgs, a) >= In(rgs[i], a)
  {
    if i > 0 {
      CoverUpdate(rgs[1..], i - 1, x, a);
      assert rgs[i := x][1..] == rgs[1..][i - 1 := x];
    }
  }

  lemma {:induction false} BytesUpdate(rgs: seq<Rg>, i: nat, x: Rg)
    requires i < |rgs|
    ensures Bytes(rgs[i := x]) == Bytes(rgs) - (rgs[i].end - rgs[i].start) + (x.end - x.start)
  {
    if i > 0 {
      BytesUpdate(rgs[1..], i - 1, x);
      assert rgs[i := x][1..] == rgs[1..][i - 1 := x];
    }
  }

  lemma CoverPush(rg: Rg, rgs: seq<Rg>, a: nat)
    ensures Cover([rg] + rgs, a) == In(rg, a) + Cover(rgs, a)
    ensures Bytes([rg] + rgs) == rg.end - rg.start + Bytes(rgs)
  {
    assert ([rg] + rgs)[1..] == rgs;
  }

  lemma {:induction false} CoverOfEmpties(rgs: seq<Rg>, a: nat)
    requires forall i :: 0 <= i < |rgs| ==> rgs[i] == Rg(0, 0)
    ensures Cover(rgs, a) == 0 && Bytes(rgs) == 0
  {
    if rgs != [] { CoverOfEmpties(rgs[1..], a); }
  }

  /** Where the cover is at most one, two regions that share an address are the same. */
  lemma {:induction false} CoverDistinct(rgs: seq<Rg>, i: nat, j: nat, a: nat)
    requires i < |rgs| && j < |rgs| && In(rgs[i], a) == 1 && In(rgs[j], a) == 1
    requires Cover(rgs, a) <= 1
    ensures i == j
  {
    if i != j {
      CoverUpdate(rgs, i, Rg(0, 0), a);
      CoverUpdate(rgs[i := Rg(0, 0)], j, Rg(0, 0), a);
    }
  }

  // ---------------------------------------------------------------- bytes are addresses

  /** The cover of all addresses below n, added up. */
  function Covered(rgs: seq<Rg>, n: nat): nat {
    if n == 0 then 0 else Covered(rgs, n - 1) + Cover(rgs, n - 1)
  }

  /** How many addresses of the region lie below n. */
  function Below(rg: Rg, n: nat): nat {
    if n <= rg.start || rg.end <= rg.start then 0 else if n <= rg.end then n - rg.start else rg.end - rg.start
  }

  lemma {:induction false} CoveredFirst(rgs: seq<Rg>, n: nat)
    requires rgs != []
    ensures Covered(rgs, n) == Below(rgs[0], n) + Covered(rgs[1..], n)
    decreases n
  {
    if n > 0 { CoveredFirst(rgs, n - 1); }
  }

  lemma {:induction false} CoveredNone(n: nat)
    ensures Covered([], n) == 0
  {
    if n > 0 { CoveredNone(n - 1); }
  }

  lemma {:induction false} CoveredIsBytes(rgs: seq<Rg>, brk: nat)
    requires Bounded(rgs, brk)
    ensures Covered(rgs, brk) == Bytes(rgs)
    decreases |rgs|
  {
    if rgs == [] {
      CoveredNone(brk);
    } else {
      CoveredFirst(rgs, brk);
      CoveredIsBytes(rgs[1..], brk);
    }
  }

  lemma {:induction false} CoveredOnce(free: seq<Rg>, live: seq<Rg>, n: nat)
    requires forall a: nat :: a < n ==> Cover(free, a) + Cover(live, a) <= 1
    ensures Covered(free, n) + Covered(live, n) <= n
    ensures Covered(free, n) + Covered(live, n) == n <==> Tiled(free, live, n)
    decreases n
  {
    if n > 0 {
      CoveredOnce(free, live, n - 1);
      assert Cover(free, n - 1) + Cover(live, n - 1) <= 1;
    }
  }

  /** The tiling is exact if and only if no byte is lost. */
  lemma TiledIff(free: seq<Rg>, live: seq<Rg>, brk: nat, lost: nat)
    requires Heap(free, live, brk, lost)
    ensures Tiled(free, live, brk) <==> lost == 0
  {
    hide Cover, Bytes;
    CoveredIsBytes(free, brk);
    CoveredIsBytes(live, brk);
    CoveredOnce(free, live, brk);
  }

  // ---------------------------------------------------------------- heap steps

  /** Cutting `size` bytes from the start of free region i and making them live entry r. The bytes of
      the region that entry r named before are lost. */
  lemma HeapCut(free: seq<Rg>, live: seq<Rg>, brk: nat, lost: nat, i: nat, size: nat, r: nat)
    requires Heap(free, live, brk, lost)
    requires i < |free| && r < |live| && free[i].start + size <= free[i].end
    ensures live[r].start <= live[r].end
    ensures var got := Rg(free[i].start, free[i].start + size);
            Heap(free[i := free[i].(start := got.end)], live[r := got], brk, lost + (live[r].end - live[r].start))
  {
    var got := Rg(free[i].start, free[i].start + size);
    var rest := free[i].(start := got.end);
    var free', live' := free[i := rest], live[r := got];
    forall a: nat
      ensures Cover(free', a) + Cover(live', a) == Cover(free, a) + Cover(live, a) - In(live[r], a)
    {
      CoverUpdate(free, i, rest, a);
      CoverUpdate(live, r, got, a);
    }
    BytesUpdate(free, i, rest);
    BytesUpdate(live, r, got);
    assert Bounded(free', brk) && Bounded(live', brk);
    assert forall a: nat :: Cover(free, a) + Cover(live, a) <= if a < brk then 1 else 0;
  }

  lemma HeapGrow(free: seq<Rg>, live: seq<Rg>, brk: nat, lost: nat, inc: nat)
    requires Heap(free, live, brk, lost)
    ensures Heap([Rg(brk, brk + inc)] + free, live, brk + inc, lost)
  {
    forall a: nat
      ensures Cover([Rg(brk, brk + inc)] + free, a) == In(Rg(brk, brk + inc), a) + Cover(free, a)
    {
      CoverPush(Rg(brk, brk + inc), free, a);
    }
    CoverPush(Rg(brk, brk + inc), free, 0);
    assert forall a: nat :: Cover(free, a) + Cover(live, a) <= if a < brk then 1 else 0;
  }

  lemma HeapFree(free: seq<Rg>, live: seq<Rg>, brk: nat, lost: nat, r: nat)
    requires Heap(free, live, brk, lost) && r < |live|
    ensures Heap([live[r]] + free, live[r := Rg(0, 0)], brk, lost)
    ensures live[r].start == live[r].end ==> Heap(free, live[r := Rg(0, 0)], brk, lost)
  {
    forall a: nat
      ensures Cover([live[r]] + free, a) + Cover(live[r := Rg(0, 0)], a) == Cover(free, a) + Cover(live, a)
      ensures live[r].start == live[r].end ==> Cover(live[r := Rg(0, 0)], a) == Cover(live, a)
    {
      CoverPush(live[r], free, a);
      CoverUpdate(live, r, Rg(0, 0), a);
    }
    CoverPush(live[r], free, 0);
    BytesUpdate(live, r, Rg(0, 0));
  }

  /** With no byte unaccounted for there is no room for another region. */
  lemma HeapFull(free: seq<Rg>, live: seq<Rg>, brk: nat, lost: nat, rg: Rg)
    requires Heap(free, live, brk, lost) && rg.start < rg.end
    ensures !Heap([rg] + free, live, brk, lost)
  {
    CoverPush(rg, free, 0);
  }

  /** A live region past the break is no tiling. */
  lemma LivePastBreak(free: seq<Rg>, live: seq<Rg>, brk: nat, r: nat)
    requires r < |live| && live[r].start < live[r].end && brk <= live[r].start
    ensures forall lost :: !Heap(free, live, brk, lost)
  {
  }
}
