/** Several processes on one RAM: any interleaving of the library calls of src/libmem.c, each one
    step, against a plain map from (process, region, offset) to the byte last written. */
module MemorySystem {
  import opened Wrappers
  import opened Bits
  import opened Paging
  import opened PhysMemory
  import opened AddressSpace
  import opened PageMapping
  import opened VmArea
  import opened LibMem
  import opened HeapTiling
  import opened FrameOwnership

  datatype Sys = Sys(ram: Ram, procs: seq<Mm>)

  datatype Cell = Cell(p: nat, r: nat, off: nat)

  datatype Op =
    | Spawn(pgd: seq<Word>, sym: seq<Rg>)
    | Allocate(p: nat, r: nat, size: nat)
    | Release(p: nat, r: nat)
    | Store(p: nat, r: nat, off: nat, value: Byte)
    | Load(p: nat, r: nat, off: nat)

  // ---------------------------------------------------------------- the plain map

  /** What the callers know: the size of each live region, the byte last written to each cell of
      one, and how many bytes of live regions each process lost by allocating into their ids. */
  datatype Client = Client(live: map<(nat, nat), nat>, bytes: map<Cell, Byte>, lost: map<nat, nat>)

  function Lost(c: Client, p: nat): nat {
    if p in c.lost then c.lost[p] else 0
  }

  function Size(c: Client, p: nat, r: nat): nat {
    if (p, r) in c.live then c.live[(p, r)] else 0
  }

  function Forget(bytes: map<Cell, Byte>, p: nat, r: nat): map<Cell, Byte> {
    map c | c in bytes && !(c.p == p && c.r == r) :: bytes[c]
  }

  function ClientStep(c: Client, op: Op): Client {
    match op
    case Spawn(_, _) => c
    case Allocate(p, r, size) =>
      Client(c.live[(p, r) := size], Forget(c.bytes, p, r), c.lost[p := Lost(c, p) + Size(c, p, r)])
    case Release(p, r) => Client(c.live - {(p, r)}, Forget(c.bytes, p, r), c.lost)
    case Store(p, r, off, v) => c.(bytes := c.bytes[Cell(p, r, off) := v])
    case Load(_, _, _) => c
  }

  function Clients(ops: seq<Op>): Client {
    if ops == [] then Client(map[], map[], map[])
    else ClientStep(Clients(ops[..|ops| - 1]), ops[|ops| - 1])
  }

  /** The byte last stored to a cell since its region was allocated, read off the run alone. */
  function LastStored(ops: seq<Op>, c: Cell): (b: seq<Byte>) {
    if ops == [] then []
    else
      var op := ops[|ops| - 1];
      match op
      case Allocate(p, r, _) => if p == c.p && r == c.r then [] else LastStored(ops[..|ops| - 1], c)
      case Release(p, r) => if p == c.p && r == c.r then [] else LastStored(ops[..|ops| - 1], c)
      case Store(p, r, off, v) => if Cell(p, r, off) == c then [v] else LastStored(ops[..|ops| - 1], c)
      case _ => LastStored(ops[..|ops| - 1], c)
  }

  // ---------------------------------------------------------------- the machine

  /** What the code itself needs to run a call without leaving its tables. */
  predicate Defined(s: Sys, op: Op) {
    match op
    case Spawn(pgd, sym) => |pgd| == MAX_PGN && |sym| == MAX_SYMTBL_SZ
    case Allocate(p, r, size) => p < |s.procs| && AllocOk(s.procs[p], s.ram, 0, r, size)
    case Release(p, r) => p < |s.procs| && s.procs[p].Sized() && s.procs[p].vmas != []
    case Store(p, r, off, _) => p < |s.procs| && Accessible(s.procs[p], s.ram, r, off)
    case Load(p, r, off) => p < |s.procs| && Accessible(s.procs[p], s.ram, r, off)
  }

  /** One call. A call outside Defined is undefined behaviour; StepKeepsInv rules it out for permitted calls. */
  function Step(s: Sys, op: Op): Sys {
    if !Defined(s, op) then s
    else
      match op
      case Spawn(pgd, sym) => s.(procs := s.procs + [Mm(pgd, [InitialVma()], sym, [])])
      case Allocate(p, r, size) =>
        var a := Alloc(s.procs[p], s.ram, 0, r, size);
        Sys(a.ram, s.procs[p := a.mm])
      case Release(p, r) => s.(procs := s.procs[p := Free(s.procs[p], r).0])
      case Store(p, r, off, v) => s.(ram := WriteRegion(s.procs[p], s.ram, r, off, v).0)
      case Load(_, _, _) => s
  }

  function Machine(ram: Ram, ops: seq<Op>): Sys {
    if ops == [] then Sys(ram, []) else Step(Machine(ram, ops[..|ops| - 1]), ops[|ops| - 1])
  }

  /** A free region fits, or the free list has a frame for every page of the request. */
  predicate Served(mm: Mm, ram: Ram, size: nat)
    requires mm.vmas != []
  {
    FirstFit(mm.vmas[0].freeRgs, size) < |mm.vmas[0].freeRgs| || AlignSz(size) / PAGESZ <= |ram.free|
  }

  /** The caller's side: ids below 30, accesses inside live regions, releases of live regions, and
      enough free frames whenever no free region fits. */
  predicate Permitted(s: Sys, c: Client, op: Op) {
    match op
    case Spawn(pgd, sym) => |pgd| == MAX_PGN && |sym| == MAX_SYMTBL_SZ
    case Allocate(p, r, size) =>
      && p < |s.procs| && r < MAX_SYMTBL_SZ && size < 0x8000_0000
      && s.procs[p].vmas != [] && Served(s.procs[p], s.ram, size)
    case Release(p, r) => (p, r) in c.live
    case Store(p, r, off, _) => (p, r) in c.live && off < c.live[(p, r)]
    case Load(p, r, off) => (p, r) in c.live && off < c.live[(p, r)]
  }

  ghost predicate Lawful(ram: Ram, ops: seq<Op>) {
    ops == []
    || (Lawful(ram, ops[..|ops| - 1])
        && Permitted(Machine(ram, ops[..|ops| - 1]), Clients(ops[..|ops| - 1]), ops[|ops| - 1]))
  }

  // ---------------------------------------------------------------- the invariant

  /** The live regions of process p by id, with an empty region for the others. */
  function LiveRgs(mm: Mm, p: nat, live: map<(nat, nat), nat>): (rgs: seq<Rg>)
    ensures |rgs| == |mm.sym|
  {
    seq(|mm.sym|, r requires 0 <= r < |mm.sym| => if (p, r) in live then mm.sym[r] else Rg(0, 0))
  }

  ghost predicate SizesKept(mm: Mm, p: nat, live: map<(nat, nat), nat>) {
    forall r :: 0 <= r < |mm.sym| && (p, r) in live ==> mm.sym[r].end == mm.sym[r].start + live[(p, r)]
  }

  /** One process: one area whose break is its end, page-aligned and within the pages of the RAM,
      tiled by the free and the live regions up to the bytes it lost. */
  ghost predicate ProcOk(mm: Mm, p: nat, c: Client, n: nat) {
    && mm.Sized() && |mm.vmas| == 1
    && (var vma := mm.vmas[0];
        && vma == Vma(0, 0, vma.sbrk, vma.sbrk, vma.freeRgs)
        && vma.sbrk % PAGESZ == 0 && vma.sbrk <= n * PAGESZ
        && vma.freeRgs != []
        && SizesKept(mm, p, c.live)
        && Heap(vma.freeRgs, LiveRgs(mm, p, c.live), vma.sbrk, Lost(c, p)))
  }

  ghost predicate Keys(s: Sys, c: Client) {
    && (forall k :: k in c.live ==> k.0 < |s.procs| && k.1 < MAX_SYMTBL_SZ)
    && (forall k :: k in c.bytes ==> (k.p, k.r) in c.live && k.off < c.live[(k.p, k.r)])
    && (forall p :: p in c.lost ==> p < |s.procs|)
  }

  /** The virtual address of a cell, and the RAM cell its page maps it to. */
  function Addr(s: Sys, k: Cell): nat
    requires k.p < |s.procs| && k.r < |s.procs[k.p].sym|
  {
    s.procs[k.p].sym[k.r].start + k.off
  }

  predicate Located(s: Sys, k: Cell) {
    k.p < |s.procs| && s.procs[k.p].Sized() && k.r < MAX_SYMTBL_SZ && Addr(s, k) / PAGESZ < MAX_PGN
  }

  function Place(s: Sys, k: Cell): nat
    requires Located(s, k)
  {
    Frame(s.procs[k.p], Addr(s, k) / PAGESZ) * PAGESZ + Addr(s, k) % PAGESZ
  }

  ghost predicate Holds(s: Sys, k: Cell, b: Byte) {
    Located(s, k) && Place(s, k) < |s.ram.storage| && s.ram.storage[Place(s, k)] == b
  }

  ghost predicate AllProcsOk(s: Sys, c: Client) {
    forall p :: 0 <= p < |s.procs| ==> ProcOk(s.procs[p], p, c, s.ram.Frames())
  }

  ghost predicate Inv(s: Sys, c: Client) {
    && Owned(s.ram, s.procs)
    && Keys(s, c)
    && AllProcsOk(s, c)
    && (forall k :: k in c.bytes ==> Holds(s, k, c.bytes[k]))
  }

  // ---------------------------------------------------------------- access to live regions

  predicate Live(c: Client, k: Cell) {
    (k.p, k.r) in c.live && k.off < c.live[(k.p, k.r)]
  }

  lemma LiveBelowBreak(free: seq<Rg>, live: seq<Rg>, brk: nat, lost: nat, r: nat)
    requires Heap(free, live, brk, lost) && r < |live|
    ensures live[r].start <= live[r].end <= brk
  {
  }

  /** A cell of a live region lies below the break, on a page that is mapped. */
  lemma LiveIsLocated(s: Sys, c: Client, k: Cell)
    requires Owned(s.ram, s.procs) && Keys(s, c) && AllProcsOk(s, c) && Live(c, k)
    ensures Located(s, k)
    ensures var g := Addr(s, k) / PAGESZ;
            g < Pages(s.procs[k.p]) && Present(s.procs[k.p].pgd[g]) && Frame(s.procs[k.p], g) < s.ram.Frames()
    ensures LiveRgs(s.procs[k.p], k.p, c.live)[k.r] == s.procs[k.p].sym[k.r]
    ensures In(s.procs[k.p].sym[k.r], Addr(s, k)) == 1 && Addr(s, k) < 0x20_0000
    ensures Place(s, k) < |s.ram.storage|
  {
    hide Present, PteFpn, Heap;
    var mm := s.procs[k.p];
    var rgs := LiveRgs(mm, k.p, c.live);
    assert ProcOk(mm, k.p, c, s.ram.Frames());
    assert rgs[k.r] == mm.sym[k.r];
    LiveBelowBreak(mm.vmas[0].freeRgs, rgs, mm.vmas[0].sbrk, Lost(c, k.p), k.r);
  }

  /** The library reads and writes a cell of a live region at its place. */
  lemma LiveAccess(s: Sys, c: Client, k: Cell, v: Byte)
    requires Owned(s.ram, s.procs) && Keys(s, c) && AllProcsOk(s, c) && Live(c, k)
    ensures Located(s, k) && Place(s, k) < |s.ram.storage|
    ensures Accessible(s.procs[k.p], s.ram, k.r, k.off)
    ensures ReadRegion(s.procs[k.p], s.ram, k.r, k.off) == (0, s.ram.storage[Place(s, k)])
    ensures WriteRegion(s.procs[k.p], s.ram, k.r, k.off, v)
         == (s.ram.(storage := s.ram.storage[Place(s, k) := v]), 0)
  {
    hide Present, PteFpn, Heap, Pgn, Offst;
    LiveIsLocated(s, c, k);
    assert ProcOk(s.procs[k.p], k.p, c, s.ram.Frames());
    AddressSplit(Addr(s, k));
  }

  lemma CoverBounded(free: seq<Rg>, live: seq<Rg>, brk: nat, lost: nat, a: nat)
    requires Heap(free, live, brk, lost)
    ensures Cover(live, a) <= 1
  {
    assert Cover(free, a) + Cover(live, a) <= if a < brk then 1 else 0;
  }

  /** Different cells of live regions, of one process or of two, have different places. */
  lemma CellsApart(s: Sys, c: Client, k1: Cell, k2: Cell)
    requires Owned(s.ram, s.procs) && Keys(s, c) && AllProcsOk(s, c)
    requires Live(c, k1) && Live(c, k2) && k1 != k2
    ensures Located(s, k1) && Located(s, k2) && Place(s, k1) != Place(s, k2)
  {
    hide Heap, PteFpn;
    LiveIsLocated(s, c, k1);
    LiveIsLocated(s, c, k2);
    var m1, m2 := s.procs[k1.p], s.procs[k2.p];
    var a1, a2 := Addr(s, k1), Addr(s, k2);
    assert Maps(s.procs, k1.p, a1 / PAGESZ, Frame(m1, a1 / PAGESZ));
    assert Maps(s.procs, k2.p, a2 / PAGESZ, Frame(m2, a2 / PAGESZ));
    if k1.p == k2.p && a1 == a2 {
      var rgs := LiveRgs(m1, k1.p, c.live);
      assert ProcOk(m1, k1.p, c, s.ram.Frames());
      CoverBounded(m1.vmas[0].freeRgs, rgs, m1.vmas[0].sbrk, Lost(c, k1.p), a1);
      CoverDistinct(rgs, k1.r, k2.r, a1);
      assert false;
    }
  }

  // ---------------------------------------------------------------- the steps keep the invariant

  lemma HoldsKept(s: Sys, s': Sys, k: Cell, b: Byte)
    requires Holds(s, k, b) && s'.ram.storage == s.ram.storage
    requires k.p < |s'.procs| && s'.procs[k.p].Sized()
    requires s'.procs[k.p].sym[k.r] == s.procs[k.p].sym[k.r]
    requires s'.procs[k.p].pgd[Addr(s, k) / PAGESZ] == s.procs[k.p].pgd[Addr(s, k) / PAGESZ]
    ensures Holds(s', k, b)
  {
    hide PteFpn;
  }

  lemma SpawnStep(s: Sys, c: Client, pgd: seq<Word>, sym: seq<Rg>)
    requires Inv(s, c) && Permitted(s, c, Spawn(pgd, sym))
    ensures Inv(Step(s, Spawn(pgd, sym)), c)
  {
    hide PteFpn;
    var p := |s.procs|;
    var mm := Mm(pgd, [InitialVma()], sym, []);
    var s' := Step(s, Spawn(pgd, sym));
    OwnedSpawn(s.ram, s.procs, mm);
    var free, rgs := InitialVma().freeRgs, LiveRgs(mm, p, c.live);
    forall a: nat ensures Cover(free, a) == 0 && Cover(rgs, a) == 0 && Bytes(free) == 0 && Bytes(rgs) == 0 {
      CoverOfEmpties(free, a);
      CoverOfEmpties(rgs, a);
    }
    assert Bytes(free) + Bytes(rgs) == 0 by { assert Cover(free, 0) == 0; }
    assert ProcOk(mm, p, c, s.ram.Frames());
    hide Heap, Owned, ProcOk;
    forall k | k in c.bytes ensures Holds(s', k, c.bytes[k]) { HoldsKept(s, s', k, c.bytes[k]); }
  }

  lemma StoreShape(s: Sys, c: Client, k: Cell, v: Byte)
    requires Owned(s.ram, s.procs) && Keys(s, c) && AllProcsOk(s, c) && Live(c, k)
    ensures Located(s, k) && Place(s, k) < |s.ram.storage|
    ensures Defined(s, Store(k.p, k.r, k.off, v))
    ensures Step(s, Store(k.p, k.r, k.off, v)) == s.(ram := s.ram.(storage := s.ram.storage[Place(s, k) := v]))
  {
    hide Owned, ProcOk, Accessible, WriteRegion, Alloc, AllocOk, Free;
    LiveAccess(s, c, k, v);
  }

  lemma PlaceOfProcs(s: Sys, s': Sys, k: Cell)
    requires s'.procs == s.procs && Located(s, k)
    ensures Located(s', k) && Place(s', k) == Place(s, k)
  {
    hide PteFpn;
  }

  /** After a store, its cell holds the new byte and every other cell of a live region the old. */
  lemma StoreHolds(s: Sys, c: Client, k: Cell, v: Byte, j: Cell, b: Byte)
    requires Owned(s.ram, s.procs) && Keys(s, c) && AllProcsOk(s, c) && Live(c, k)
    requires if j == k then b == v else Live(c, j) && Holds(s, j, b)
    ensures Holds(Step(s, Store(k.p, k.r, k.off, v)), j, b)
  {
    hide Step, ProcOk, Owned, Place, Located;
    StoreShape(s, c, k, v);
    PlaceOfProcs(s, Step(s, Store(k.p, k.r, k.off, v)), j);
    if j != k { CellsApart(s, c, j, k); }
  }

  lemma SameLiveProcOk(mm: Mm, p: nat, c: Client, c': Client, n: nat)
    requires ProcOk(mm, p, c, n) && c'.live == c.live && c'.lost == c.lost
    ensures ProcOk(mm, p, c', n)
  {
  }

  lemma StoreStep(s: Sys, c: Client, k: Cell, v: Byte)
    requires Inv(s, c) && Permitted(s, c, Store(k.p, k.r, k.off, v))
    ensures Inv(Step(s, Store(k.p, k.r, k.off, v)), ClientStep(c, Store(k.p, k.r, k.off, v)))
  {
    hide Step, ProcOk, Owned, Holds, Place, Located;
    var op := Store(k.p, k.r, k.off, v);
    var s', c' := Step(s, op), ClientStep(c, op);
    StoreShape(s, c, k, v);
    OwnedSameSize(s.ram, s'.ram, s.procs);
    forall p | 0 <= p < |s'.procs| ensures ProcOk(s'.procs[p], p, c', s'.ram.Frames()) {
      SameLiveProcOk(s.procs[p], p, c, c', s.ram.Frames());
    }
    forall j | j in c'.bytes ensures Holds(s', j, c'.bytes[j]) {
      StoreHolds(s, c, k, v, j, c'.bytes[j]);
    }
  }

  lemma OwnedSize(s: Sys)
    requires Owned(s.ram, s.procs)
    ensures s.ram.Frames() <= MAX_FPN
  {
  }

  lemma ReleaseProc(mm: Mm, p: nat, r: nat, c: Client, n: nat)
    requires ProcOk(mm, p, c, n) && n <= MAX_FPN && (p, r) in c.live && r < MAX_SYMTBL_SZ
    ensures ProcOk(Free(mm, r).0, p, ClientStep(c, Release(p, r)), n)
    ensures Free(mm, r).0.pgd == mm.pgd && Free(mm, r).0.sym == mm.sym && Pages(Free(mm, r).0) == Pages(mm)
    ensures Returned(mm.sym[r]) == mm.sym[r]
  {
    hide Heap;
    var live := LiveRgs(mm, p, c.live);
    HeapFree(mm.vmas[0].freeRgs, live, mm.vmas[0].sbrk, Lost(c, p), r);
    LiveBelowBreak(mm.vmas[0].freeRgs, live, mm.vmas[0].sbrk, Lost(c, p), r);
    assert LiveRgs(Free(mm, r).0, p, ClientStep(c, Release(p, r)).live) == live[r := Rg(0, 0)];
  }

  lemma ReleaseShape(s: Sys, c: Client, p: nat, r: nat)
    requires Keys(s, c) && AllProcsOk(s, c) && (p, r) in c.live
    ensures p < |s.procs| && r < MAX_SYMTBL_SZ && s.procs[p].Sized() && s.procs[p].vmas != []
    ensures Defined(s, Release(p, r))
    ensures Step(s, Release(p, r)) == s.(procs := s.procs[p := Free(s.procs[p], r).0])
  {
    hide Alloc, AllocOk, Free, Accessible, WriteRegion, Heap;
    assert ProcOk(s.procs[p], p, c, s.ram.Frames());
  }

  lemma ReleaseHolds(s: Sys, c: Client, p: nat, r: nat, k: Cell)
    requires s.ram.Frames() <= MAX_FPN
    requires Keys(s, c) && AllProcsOk(s, c) && (p, r) in c.live
    requires k in c.bytes && Holds(s, k, c.bytes[k])
    ensures Holds(Step(s, Release(p, r)), k, c.bytes[k])
  {
    hide Step, Free, Heap;
    ReleaseShape(s, c, p, r);
    assert ProcOk(s.procs[p], p, c, s.ram.Frames());
    ReleaseProc(s.procs[p], p, r, c, s.ram.Frames());
    HoldsKept(s, Step(s, Release(p, r)), k, c.bytes[k]);
  }

  /** A call of process p leaves what the invariant says of the others. */
  lemma OtherProcs(s: Sys, c: Client, s': Sys, c': Client, p: nat)
    requires AllProcsOk(s, c) && p < |s.procs| == |s'.procs| && s'.ram.Frames() == s.ram.Frames()
    requires s'.procs == s.procs[p := s'.procs[p]]
    requires ProcOk(s'.procs[p], p, c', s.ram.Frames())
    requires forall q, r | q != p :: (q, r) in c'.live <==> (q, r) in c.live
    requires forall q, r | q != p && (q, r) in c.live :: c'.live[(q, r)] == c.live[(q, r)]
    requires forall q :: q != p ==> Lost(c', q) == Lost(c, q)
    ensures AllProcsOk(s', c')
  {
    hide Heap;
    forall q | 0 <= q < |s'.procs| ensures ProcOk(s'.procs[q], q, c', s'.ram.Frames()) {
      if q != p {
        assert ProcOk(s.procs[q], q, c, s.ram.Frames());
        assert LiveRgs(s'.procs[q], q, c'.live) == LiveRgs(s.procs[q], q, c.live);
      }
    }
  }

  lemma ReleaseStep(s: Sys, c: Client, p: nat, r: nat)
    requires Inv(s, c) && Permitted(s, c, Release(p, r))
    ensures Inv(Step(s, Release(p, r)), ClientStep(c, Release(p, r)))
  {
    hide Step, ProcOk, Owned, Free, Holds, Place, Located;
    var s', c' := Step(s, Release(p, r)), ClientStep(c, Release(p, r));
    OwnedSize(s);
    ReleaseShape(s, c, p, r);
    ReleaseProc(s.procs[p], p, r, c, s.ram.Frames());
    OwnedSame(s.ram, s'.ram, s.procs, p, s'.procs[p]);
    OtherProcs(s, c, s', c', p);
    forall k | k in c'.bytes ensures Holds(s', k, c'.bytes[k]) { ReleaseHolds(s, c, p, r, k); }
  }

  /** Growing a process of this system asks for nothing the code cannot do, and maps exactly the
      pages from its break on. */
  lemma GrowthShape(s: Sys, c: Client, p: nat, size: nat)
    requires Owned(s.ram, s.procs) && AllProcsOk(s, c) && p < |s.procs|
    requires AlignSz(size) / PAGESZ <= |s.ram.free|
    ensures var mm, k := s.procs[p], AlignSz(size) / PAGESZ;
            var vma := mm.vmas[0];
            && FindVma(mm.vmas, 0) == 0
            && Growable(mm, s.ram, 0, AlignSz(size))
            && var (grown, ram') := Grown(mm, s.ram, 0, size);
               var brk := vma.sbrk + k * PAGESZ;
               && ram' == s.ram.(free := s.ram.free[k..])
               && grown.sym == mm.sym
               && grown.vmas == [Vma(0, 0, brk, brk, [Rg(vma.sbrk, brk)] + vma.freeRgs)]
               && brk % PAGESZ == 0 && brk <= s.ram.Frames() * PAGESZ
               && (forall g :: 0 <= g < Pages(mm) ==> grown.pgd[g] == mm.pgd[g])
               && (forall g :: Pages(mm) <= g < Pages(mm) + k ==>
                     Present(grown.pgd[g]) && Frame(grown, g) == s.ram.free[k - 1 - (g - Pages(mm))])
  {
    hide Present, PteFpn, PteSetFpn, Pgn, Heap;
    var mm, k := s.procs[p], AlignSz(size) / PAGESZ;
    assert ProcOk(mm, p, c, s.ram.Frames());
    var vma := mm.vmas[0];
    AlignSzRoundsUp(size);
    RoomForPages(s.ram, s.procs, p);
    AddressSplit(vma.end);
    assert Clear(mm.vmas, 0, vma.sbrk, vma.sbrk + AlignSz(AlignSz(size)));
    assert forall i :: 0 <= i < |s.ram.free| ==> HasOwner(s.ram.free, s.procs, s.ram.free[i]);
    MapRamExact(WithBreak(mm, 0, vma.sbrk + AlignSz(size)), s.ram, vma.end, k);
  }

  lemma GrownProc(s: Sys, c: Client, p: nat, size: nat)
    requires Owned(s.ram, s.procs) && AllProcsOk(s, c) && p < |s.procs|
    requires AlignSz(size) / PAGESZ <= |s.ram.free|
    ensures FindVma(s.procs[p].vmas, 0) == 0 && Growable(s.procs[p], s.ram, 0, AlignSz(size))
    ensures ProcOk(Grown(s.procs[p], s.ram, 0, size).0, p, c, s.ram.Frames())
  {
    hide Present, PteFpn, Heap, Growable, Grown;
    GrowthShape(s, c, p, size);
    var mm, k := s.procs[p], AlignSz(size) / PAGESZ;
    assert ProcOk(mm, p, c, s.ram.Frames());
    var live := LiveRgs(mm, p, c.live);
    HeapGrow(mm.vmas[0].freeRgs, live, mm.vmas[0].sbrk, Lost(c, p), k * PAGESZ);
    assert LiveRgs(Grown(mm, s.ram, 0, size).0, p, c.live) == live;
  }

  lemma HeapSym(free: seq<Rg>, live: seq<Rg>, brk: nat, lost: nat)
    requires Heap(free, live, brk, lost)
    ensures Heap(live, free, brk, lost)
  {
  }

  /** Cutting a region out of a well-tiled process and recording it under id r. */
  lemma CutProc(mm: Mm, p: nat, c: Client, n: nat, r: nat, size: nat)
    requires ProcOk(mm, p, c, n) && n <= MAX_FPN && r < MAX_SYMTBL_SZ
    requires FindVma(mm.vmas, 0) == 0 && HasFit(mm, 0, size)
    ensures var (cut, got) := Cut(mm, 0, size);
            var mm' := cut.(sym := cut.sym[r := got]);
            && ProcOk(mm', p, ClientStep(c, Allocate(p, r, size)), n)
            && mm'.pgd == mm.pgd && Pages(mm') == Pages(mm)
            && mm'.sym == mm.sym[r := got] && got.end == got.start + size
  {
    hide Heap;
    var vma := mm.vmas[0];
    var live := LiveRgs(mm, p, c.live);
    var c' := ClientStep(c, Allocate(p, r, size));
    var i := FirstFit(vma.freeRgs, size);
    var lost := Lost(c, p);
    LiveBelowBreak(live, vma.freeRgs, vma.sbrk, lost, i) by { HeapSym(vma.freeRgs, live, vma.sbrk, lost); }
    HeapCut(vma.freeRgs, live, vma.sbrk, lost, i, size, r);
    var (cut, got) := Cut(mm, 0, size);
    var mm' := cut.(sym := cut.sym[r := got]);
    assert LiveRgs(mm', p, c'.live) == live[r := got];
    assert live[r].end - live[r].start == Size(c, p, r) && Lost(c', p) == lost + Size(c, p, r);
  }

  ghost predicate Allocated(s: Sys, c: Client, p: nat, r: nat, size: nat) {
    && p < |s.procs| && AllocOk(s.procs[p], s.ram, 0, r, size)
    && var a := Alloc(s.procs[p], s.ram, 0, r, size);
       var mm := s.procs[p];
       && ProcOk(a.mm, p, ClientStep(c, Allocate(p, r, size)), s.ram.Frames())
       && Owned(a.ram, s.procs[p := a.mm])
       && a.ram.storage == s.ram.storage
       && a.mm.sym == mm.sym[r := a.rg]
       && (forall g :: 0 <= g < Pages(mm) && g < MAX_PGN ==> a.mm.pgd[g] == mm.pgd[g])
  }

  lemma AllocateFit(s: Sys, c: Client, p: nat, r: nat, size: nat)
    requires Owned(s.ram, s.procs) && AllProcsOk(s, c) && Permitted(s, c, Allocate(p, r, size))
    requires FirstFit(s.procs[p].vmas[0].freeRgs, size) < |s.procs[p].vmas[0].freeRgs|
    ensures Allocated(s, c, p, r, size)
  {
    hide Heap, Grown, Growable, FirstFit;
    var mm := s.procs[p];
    assert ProcOk(mm, p, c, s.ram.Frames());
    assert FindVma(mm.vmas, 0) == 0 && HasFit(mm, 0, size);
    CutProc(mm, p, c, s.ram.Frames(), r, size) by { assert s.ram.Frames() <= MAX_FPN; }
    OwnedSame(s.ram, s.ram, s.procs, p, Alloc(mm, s.ram, 0, r, size).mm);
  }

  lemma NoFit(mm: Mm, size: nat)
    requires FindVma(mm.vmas, 0) == 0 < |mm.vmas|
    ensures HasFit(mm, 0, size) <==> FirstFit(mm.vmas[0].freeRgs, size) < |mm.vmas[0].freeRgs|
  {
  }

  lemma AllocateGrow(s: Sys, c: Client, p: nat, r: nat, size: nat)
    requires Owned(s.ram, s.procs) && AllProcsOk(s, c) && Permitted(s, c, Allocate(p, r, size))
    requires FirstFit(s.procs[p].vmas[0].freeRgs, size) == |s.procs[p].vmas[0].freeRgs|
    ensures Allocated(s, c, p, r, size)
  {
    hide Heap, Grown, Growable, FirstFit, Present, PteFpn, Cut, HasFit;
    var mm, k := s.procs[p], AlignSz(size) / PAGESZ;
    assert ProcOk(mm, p, c, s.ram.Frames());
    GrownProc(s, c, p, size);
    GrowthShape(s, c, p, size);
    GrownFits(mm, s.ram, 0, size);
    var (grown, ram') := Grown(mm, s.ram, 0, size);
    CutProc(grown, p, c, s.ram.Frames(), r, size) by { assert s.ram.Frames() <= MAX_FPN; }
    assert !HasFit(mm, 0, size) by { NoFit(mm, size); }
    var a := Alloc(mm, s.ram, 0, r, size);
    assert a.mm.pgd == grown.pgd && a.ram == ram';
    RoomForPages(s.ram, s.procs, p);
    OwnedGrow(s.ram, s.procs, p, a.mm, k);
  }

  lemma AllocateShape(s: Sys, c: Client, p: nat, r: nat, size: nat)
    requires Allocated(s, c, p, r, size)
    ensures var a := Alloc(s.procs[p], s.ram, 0, r, size);
            && Defined(s, Allocate(p, r, size))
            && Step(s, Allocate(p, r, size)) == Sys(a.ram, s.procs[p := a.mm])
  {
    hide Alloc, AllocOk, Owned, ProcOk, Free, Accessible, WriteRegion;
  }

  lemma AllocateHolds(s: Sys, c: Client, p: nat, r: nat, size: nat, k: Cell)
    requires Owned(s.ram, s.procs) && Keys(s, c) && AllProcsOk(s, c) && r < MAX_SYMTBL_SZ
    requires Allocated(s, c, p, r, size) && k in c.bytes && !(k.p == p && k.r == r) && Holds(s, k, c.bytes[k])
    ensures Holds(Step(s, Allocate(p, r, size)), k, c.bytes[k])
  {
    hide Step, Alloc, AllocOk, Owned, ProcOk, Holds, Place;
    AllocateShape(s, c, p, r, size);
    LiveIsLocated(s, c, k);
    HoldsKept(s, Step(s, Allocate(p, r, size)), k, c.bytes[k]);
  }

  lemma AllocatedKeeps(s: Sys, c: Client, p: nat, r: nat, size: nat)
    requires Inv(s, c) && r < MAX_SYMTBL_SZ && Allocated(s, c, p, r, size)
    ensures Defined(s, Allocate(p, r, size))
    ensures Inv(Step(s, Allocate(p, r, size)), ClientStep(c, Allocate(p, r, size)))
  {
    hide Step, Alloc, AllocOk, Owned, ProcOk, Holds, Place, Located;
    var s', c' := Step(s, Allocate(p, r, size)), ClientStep(c, Allocate(p, r, size));
    AllocateShape(s, c, p, r, size);
    OtherProcs(s, c, s', c', p);
    forall k | k in c'.bytes ensures Holds(s', k, c'.bytes[k]) { AllocateHolds(s, c, p, r, size, k); }
  }

  lemma AllocateStep(s: Sys, c: Client, p: nat, r: nat, size: nat)
    requires Inv(s, c) && Permitted(s, c, Allocate(p, r, size))
    ensures Defined(s, Allocate(p, r, size))
    ensures Inv(Step(s, Allocate(p, r, size)), ClientStep(c, Allocate(p, r, size)))
  {
    if FirstFit(s.procs[p].vmas[0].freeRgs, size) < |s.procs[p].vmas[0].freeRgs| {
      AllocateFit(s, c, p, r, size);
    } else {
      AllocateGrow(s, c, p, r, size);
    }
    AllocatedKeeps(s, c, p, r, size);
  }

  lemma SpawnDefined(s: Sys, c: Client, pgd: seq<Word>, sym: seq<Rg>)
    requires Permitted(s, c, Spawn(pgd, sym))
    ensures Defined(s, Spawn(pgd, sym)) && ClientStep(c, Spawn(pgd, sym)) == c
  {
  }

  lemma ReleaseDefined(s: Sys, c: Client, p: nat, r: nat)
    requires Inv(s, c) && Permitted(s, c, Release(p, r))
    ensures Defined(s, Release(p, r))
  {
    ReleaseShape(s, c, p, r);
  }

  lemma StoreDefined(s: Sys, c: Client, k: Cell, v: Byte)
    requires Inv(s, c) && Permitted(s, c, Store(k.p, k.r, k.off, v))
    ensures Defined(s, Store(k.p, k.r, k.off, v))
  {
    StoreShape(s, c, k, v);
  }

  lemma LoadStep(s: Sys, c: Client, k: Cell)
    requires Inv(s, c) && Permitted(s, c, Load(k.p, k.r, k.off))
    ensures Defined(s, Load(k.p, k.r, k.off)) && Step(s, Load(k.p, k.r, k.off)) == s
    ensures ClientStep(c, Load(k.p, k.r, k.off)) == c
  {
    hide Owned, ProcOk, Accessible, ReadRegion, Alloc, AllocOk, Free, WriteRegion;
    LiveAccess(s, c, k, 0);
  }

  /** No permitted call leaves the tables of the code, and every one keeps the invariant. */
  lemma StepKeepsInv(s: Sys, c: Client, op: Op)
    requires Inv(s, c) && Permitted(s, c, op)
    ensures Defined(s, op) && Inv(Step(s, op), ClientStep(c, op))
  {
    hide Inv, Step, Defined, Permitted, ClientStep;
    match op
    case Spawn(pgd, sym) => SpawnDefined(s, c, pgd, sym); SpawnStep(s, c, pgd, sym);
    case Allocate(p, r, size) => AllocateStep(s, c, p, r, size);
    case Release(p, r) => ReleaseDefined(s, c, p, r); ReleaseStep(s, c, p, r);
    case Store(p, r, off, v) => StoreDefined(s, c, Cell(p, r, off), v); StoreStep(s, c, Cell(p, r, off), v);
    case Load(p, r, off) => LoadStep(s, c, Cell(p, r, off));
  }

  // ---------------------------------------------------------------- whole runs

  ghost predicate Formatted(ram: Ram) {
    ram.Frames() <= MAX_FPN && ram.Frames() >= 2 && ram.free == UpTo(ram.Frames())
  }

  lemma {:induction false} RunInv(ram: Ram, ops: seq<Op>)
    requires Formatted(ram) && Lawful(ram, ops)
    ensures Inv(Machine(ram, ops), Clients(ops))
  {
    if ops == [] {
      OwnedInitially(ram);
    } else {
      hide Inv, Permitted, Step, ClientStep;
      RunInv(ram, ops[..|ops| - 1]);
      StepKeepsInv(Machine(ram, ops[..|ops| - 1]), Clients(ops[..|ops| - 1]), ops[|ops| - 1]);
    }
  }

  lemma {:induction false} BytesAreLastStored(ops: seq<Op>, k: Cell)
    ensures k in Clients(ops).bytes <==> LastStored(ops, k) != []
    ensures k in Clients(ops).bytes ==> LastStored(ops, k) == [Clients(ops).bytes[k]]
  {
    if ops != [] {
      BytesAreLastStored(ops[..|ops| - 1], k);
    }
  }

  /** The paging machinery is a plain map. After any lawful run of several processes on one RAM, a
      read of a cell that was written since its region was allocated returns the byte last
      written to that cell of that process, whatever the others did. */
  lemma ReadsReturnLastStored(ram: Ram, ops: seq<Op>, k: Cell)
    requires Formatted(ram) && Lawful(ram, ops) && LastStored(ops, k) != []
    ensures var s := Machine(ram, ops);
            && k.p < |s.procs|
            && Accessible(s.procs[k.p], s.ram, k.r, k.off)
            && ReadRegion(s.procs[k.p], s.ram, k.r, k.off) == (0, LastStored(ops, k)[0])
  {
    RunInv(ram, ops);
    BytesAreLastStored(ops, k);
    var s, c := Machine(ram, ops), Clients(ops);
    assert Holds(s, k, c.bytes[k]);
    hide Machine, Clients, LastStored, Owned, ProcOk, Accessible, ReadRegion;
    LiveAccess(s, c, k, 0);
  }

  /** In every reachable state the frames below the breaks and the free list are each frame of the
      device once. */
  lemma FramesNeverSharedOrLost(ram: Ram, ops: seq<Op>)
    requires Formatted(ram) && Lawful(ram, ops)
    ensures Owned(Machine(ram, ops).ram, Machine(ram, ops).procs)
  {
    RunInv(ram, ops);
  }

  /** In every reachable state the free and the live regions of each process are disjoint and, with
      the bytes lost by allocating into ids of live regions, add up to its heap: they tile it exactly
      if and only if no byte was lost. Break and end of the one area agree and are a multiple of the
      page size. */
  lemma HeapsAlwaysTiled(ram: Ram, ops: seq<Op>, p: nat)
    requires Formatted(ram) && Lawful(ram, ops) && p < |Machine(ram, ops).procs|
    ensures var mm, c := Machine(ram, ops).procs[p], Clients(ops);
            && |mm.vmas| == 1 && mm.vmas[0].sbrk == mm.vmas[0].end && mm.vmas[0].sbrk % PAGESZ == 0
            && mm.vmas[0].sbrk <= PAGING_MEMRAMSZ
            && SizesKept(mm, p, c.live)
            && Heap(mm.vmas[0].freeRgs, LiveRgs(mm, p, c.live), mm.vmas[0].sbrk, Lost(c, p))
            && (Tiled(mm.vmas[0].freeRgs, LiveRgs(mm, p, c.live), mm.vmas[0].sbrk) <==> Lost(c, p) == 0)
  {
    hide Machine, Clients, Owned, Heap, Tiled;
    RunInv(ram, ops);
    FramesNeverSharedOrLost(ram, ops);
    OwnedSize(Machine(ram, ops));
    var mm, c := Machine(ram, ops).procs[p], Clients(ops);
    assert ProcOk(mm, p, c, Machine(ram, ops).ram.Frames());
    TiledIff(mm.vmas[0].freeRgs, LiveRgs(mm, p, c.live), mm.vmas[0].sbrk, Lost(c, p));
  }

  /** A store never changes what any other cell of a live region, of any process, reads. */
  lemma StoreLeavesOtherCells(s: Sys, c: Client, k: Cell, v: Byte, j: Cell)
    requires Inv(s, c) && Live(c, k) && Live(c, j) && j != k
    ensures var s' := Step(s, Store(k.p, k.r, k.off, v));
            && j.p < |s.procs| == |s'.procs|
            && Accessible(s.procs[j.p], s.ram, j.r, j.off) && Accessible(s'.procs[j.p], s'.ram, j.r, j.off)
            && ReadRegion(s'.procs[j.p], s'.ram, j.r, j.off) == ReadRegion(s.procs[j.p], s.ram, j.r, j.off)
  {
    var s' := Step(s, Store(k.p, k.r, k.off, v));
    StoreStep(s, c, k, v);
    StoreShape(s, c, k, v);
    LiveAccess(s, c, j, 0);
    CellsApart(s, c, j, k);
    hide Step, ProcOk, Owned, Place, Located, Accessible, ReadRegion, WriteRegion, Holds;
    PlaceOfProcs(s, s', j);
    LiveAccess(s', ClientStep(c, Store(k.p, k.r, k.off, v)), j, 0);
  }

  /** In every reachable state a growth that fails changes nothing of its process: not the page table,
      not the break, not the end. Only the free list has changed, and it fails exactly when that was
      too short. */
  lemma FailedGrowthUndone(s: Sys, c: Client, p: nat, incSz: nat)
    requires Inv(s, c) && p < |s.procs| && Growable(s.procs[p], s.ram, 0, incSz)
    ensures var (mm, ram, rc) := IncLimit(s.procs[p], s.ram, 0, incSz);
            && (rc < 0 <==> AlignSz(incSz) / PAGESZ > |s.ram.free|)
            && (rc < 0 ==> mm == s.procs[p] && ram == s.ram.(free := []))
  {
    hide Heap, Owned, Keys, IncLimit, AlignSz, Holds;
    assert ProcOk(s.procs[p], p, c, s.ram.Frames());
    IncLimitFailure(s.procs[p], s.ram, 0, incSz);
  }

  // ---------------------------------------------------------------- where the contract is needed

  /** Releasing an id keeps a process well tiled exactly when its region is live or its recorded
      bounds, as C ints, are empty or reversed, the one case the code rejects. */
  lemma ReleaseTilesIff(mm: Mm, p: nat, r: nat, c: Client, n: nat)
    requires ProcOk(mm, p, c, n) && n <= MAX_FPN && r < MAX_SYMTBL_SZ
    ensures ProcOk(Free(mm, r).0, p, ClientStep(c, Release(p, r)), n)
       <==> (p, r) in c.live || Returned(mm.sym[r]).start >= Returned(mm.sym[r]).end
  {
    if (p, r) in c.live {
      ReleaseProc(mm, p, r, c, n);
    } else {
      hide Heap;
      var mm', c' := Free(mm, r).0, ClientStep(c, Release(p, r));
      assert LiveRgs(mm', p, c'.live) == LiveRgs(mm, p, c.live);
      var rg := Returned(mm.sym[r]);
      if rg.start < rg.end {
        var vma := mm.vmas[0];
        HeapFull(vma.freeRgs, LiveRgs(mm, p, c.live), vma.sbrk, Lost(c, p), rg);
      }
    }
  }

  /** After a second release of the same non-empty region, the next two allocations of its size
      get the same address. */
  lemma DoubleReleaseAliases(mm: Mm, ram: Ram, p: nat, c: Client, n: nat, r: nat, r1: nat, r2: nat)
    requires ProcOk(mm, p, c, n) && n <= MAX_FPN
    requires (p, r) in c.live && c.live[(p, r)] > 0
    requires r < MAX_SYMTBL_SZ && r1 < MAX_SYMTBL_SZ && r2 < MAX_SYMTBL_SZ
    ensures var mm2 := Free(Free(mm, r).0, r).0;
            var size := c.live[(p, r)];
            && AllocOk(mm2, ram, 0, r1, size)
            && var a1 := Alloc(mm2, ram, 0, r1, size);
               && AllocOk(a1.mm, a1.ram, 0, r2, size)
               && a1.rg == mm.sym[r] == Alloc(a1.mm, a1.ram, 0, r2, size).rg
  {
    hide Growable, Grown;
    var vma, rg, size := mm.vmas[0], mm.sym[r], c.live[(p, r)];
    assert LiveRgs(mm, p, c.live)[r] == rg;
    LiveBelowBreak(vma.freeRgs, LiveRgs(mm, p, c.live), vma.sbrk, Lost(c, p), r);
    var mm2 := Free(Free(mm, r).0, r).0;
    assert mm2.vmas[0].freeRgs == [rg] + ([rg] + vma.freeRgs);
    assert Fits(rg, size) && FirstFit(mm2.vmas[0].freeRgs, size) == 0;
    var a1 := Alloc(mm2, ram, 0, r1, size);
    var spent := Rg(rg.end, rg.end);
    assert a1.mm.vmas[0].freeRgs == [spent] + ([rg] + vma.freeRgs);
    assert !Fits(spent, size);
    assert a1.mm.vmas[0].freeRgs[1..][0] == rg;
    assert FirstFit(a1.mm.vmas[0].freeRgs, size) == 1;
  }

  /** What an allocation does that finds neither a fitting region nor enough frames. */
  lemma UnservedShape(s: Sys, c: Client, p: nat, r: nat, size: nat)
    requires Inv(s, c) && p < |s.procs| && r < MAX_SYMTBL_SZ && s.procs[p].vmas != []
    requires !Served(s.procs[p], s.ram, size) && NoOverflow(s.procs[p].vmas[0].sbrk, AlignSz(size))
    ensures AllocOk(s.procs[p], s.ram, 0, r, size) && size > 0
    ensures var mm := s.procs[p];
            var a := Alloc(mm, s.ram, 0, r, size);
            && a.rc == 0 && a.ram == s.ram.(free := [])
            && a.rg == Rg(mm.vmas[0].sbrk, mm.vmas[0].sbrk + size)
            && a.mm.pgd == mm.pgd && a.mm.sym == mm.sym[r := a.rg]
            && |a.mm.vmas| == 1 && a.mm.vmas[0].sbrk == mm.vmas[0].sbrk
  {
    hide Heap, PteFpn, Present, Pgn;
    var mm := s.procs[p];
    assert ProcOk(mm, p, c, s.ram.Frames());
    AlignSzRoundsUp(size);
    assert FindVma(mm.vmas, 0) == 0 && Growable(mm, s.ram, 0, AlignSz(size));
    GrownFits(mm, s.ram, 0, size);
    IncLimitFailure(mm, s.ram, 0, AlignSz(size));
    assert Clear(mm.vmas, 0, mm.vmas[0].sbrk, mm.vmas[0].sbrk + AlignSz(AlignSz(size)));
  }

  /** An allocation, which always reports success, keeps its process well tiled exactly when a free
      region fits or the free list has a frame for each page asked for. */
  lemma AllocateTilesIff(s: Sys, c: Client, p: nat, r: nat, size: nat)
    requires Inv(s, c) && p < |s.procs| && r < MAX_SYMTBL_SZ && s.procs[p].vmas != [] && size < 0x8000_0000
    requires var vma := s.procs[p].vmas[0];
             FirstFit(vma.freeRgs, size) < |vma.freeRgs| || NoOverflow(vma.sbrk, AlignSz(size))
    ensures AllocOk(s.procs[p], s.ram, 0, r, size)
    ensures ProcOk(Alloc(s.procs[p], s.ram, 0, r, size).mm, p, ClientStep(c, Allocate(p, r, size)), s.ram.Frames())
       <==> Served(s.procs[p], s.ram, size)
  {
    var mm := s.procs[p];
    assert ProcOk(mm, p, c, s.ram.Frames());
    if Served(mm, s.ram, size) {
      if FirstFit(mm.vmas[0].freeRgs, size) < |mm.vmas[0].freeRgs| {
        AllocateFit(s, c, p, r, size);
      } else {
        AllocateGrow(s, c, p, r, size);
      }
    } else {
      hide Heap, PteFpn, Present;
      UnservedShape(s, c, p, r, size);
      var a := Alloc(mm, s.ram, 0, r, size);
      var live := LiveRgs(a.mm, p, ClientStep(c, Allocate(p, r, size)).live);
      assert live[r] == a.rg;
      LivePastBreak(a.mm.vmas[0].freeRgs, live, mm.vmas[0].sbrk, r);
    }
  }

  /** An allocation that is not served takes every free frame and maps none: the frames are lost
      unless there were none left. */
  lemma UnservedLosesFrames(s: Sys, c: Client, p: nat, r: nat, size: nat)
    requires Inv(s, c) && p < |s.procs| && r < MAX_SYMTBL_SZ && s.procs[p].vmas != []
    requires !Served(s.procs[p], s.ram, size) && NoOverflow(s.procs[p].vmas[0].sbrk, AlignSz(size))
    ensures AllocOk(s.procs[p], s.ram, 0, r, size)
    ensures var a := Alloc(s.procs[p], s.ram, 0, r, size);
            Owned(a.ram, s.procs[p := a.mm]) <==> s.ram.free == []
  {
    hide Alloc, AllocOk, ProcOk, PteFpn, Present;
    UnservedShape(s, c, p, r, size);
    var a := Alloc(s.procs[p], s.ram, 0, r, size);
    var procs' := s.procs[p := a.mm];
    assert forall q, g, f :: Maps(procs', q, g, f) <==> Maps(s.procs, q, g, f);
    if s.ram.free == [] {
      OwnedSame(s.ram, a.ram, s.procs, p, a.mm);
    } else {
      var f := s.ram.free[0];
      assert HasOwner(s.ram.free, s.procs, f) && f < s.ram.Frames();
      assert forall q, g :: !Maps(s.procs, q, g, f);
      assert !HasOwner(a.ram.free, procs', f);
    }
  }

  // ---------------------------------------------------------------- runs that leave it

  lemma SpawnedOn(ram: Ram, pgd: seq<Word>, sym: seq<Rg>) returns (s: Sys, c: Client)
    requires Formatted(ram) && |pgd| == MAX_PGN && |sym| == MAX_SYMTBL_SZ
    ensures Lawful(ram, [Spawn(pgd, sym)])
    ensures s == Machine(ram, [Spawn(pgd, sym)]) && c == Clients([Spawn(pgd, sym)]) && Inv(s, c)
    ensures s.ram == ram && s.procs == [Mm(pgd, [InitialVma()], sym, [])] && c.live == map[] && c.lost == map[]
  {
    var ops := [Spawn(pgd, sym)];
    assert ops[..0] == [];
    assert Machine(ram, ops[..0]) == Sys(ram, []) && Lawful(ram, ops[..0]);
    s, c := Machine(ram, ops), Clients(ops);
    RunInv(ram, ops);
  }

  /** What a new process can be served. */
  lemma FreshServed(s: Sys, pgd: seq<Word>, sym: seq<Rg>, size: nat)
    requires s.procs == [Mm(pgd, [InitialVma()], sym, [])] && size > 0
    ensures Served(s.procs[0], s.ram, size) <==> size <= |s.ram.free| * PAGESZ
  {
    var free := s.procs[0].vmas[0].freeRgs;
    assert free == [Rg(0, 0)] && free[1..] == [];
    AlignSzRoundsUp(size);
  }

  /** A new process asks for more than the device has: the call reports success, the frames are lost
      and the heap no longer tiles. */
  lemma GrowthFailsUnnoticed(ram: Ram, pgd: seq<Word>, sym: seq<Rg>, size: nat)
    requires Formatted(ram) && |pgd| == MAX_PGN && |sym| == MAX_SYMTBL_SZ
    requires 0 < ram.Frames() * PAGESZ < size && NoOverflow(0, AlignSz(size))
    ensures Lawful(ram, [Spawn(pgd, sym)])
    ensures var s, c := Machine(ram, [Spawn(pgd, sym)]), Clients([Spawn(pgd, sym)]);
            && |s.procs| == 1 && AllocOk(s.procs[0], s.ram, 0, 0, size)
            && var a := Alloc(s.procs[0], s.ram, 0, 0, size);
               && a.rc == 0 && !Owned(a.ram, [a.mm])
               && !ProcOk(a.mm, 0, ClientStep(c, Allocate(0, 0, size)), ram.Frames())
  {
    var s, c := SpawnedOn(ram, pgd, sym);
    FreshServed(s, pgd, sym, size);
    hide Machine, Clients, Inv, Owned, ProcOk, Alloc, AllocOk, Served, NoOverflow, Lawful, ClientStep;
    UnservedShape(s, c, 0, 0, size);
    UnservedLosesFrames(s, c, 0, 0, size);
    AllocateTilesIff(s, c, 0, 0, size);
    assert s.procs[0 := Alloc(s.procs[0], s.ram, 0, 0, size).mm] == [Alloc(s.procs[0], s.ram, 0, 0, size).mm];
  }

  lemma OneMore(ram: Ram, ops: seq<Op>, op: Op)
    requires Lawful(ram, ops) && Permitted(Machine(ram, ops), Clients(ops), op)
    ensures Lawful(ram, ops + [op])
    ensures Machine(ram, ops + [op]) == Step(Machine(ram, ops), op)
    ensures Clients(ops + [op]) == ClientStep(Clients(ops), op)
  {
    hide Permitted, Step, ClientStep;
    assert (ops + [op])[..|ops + [op]| - 1] == ops;
  }

  /** Releasing a live non-empty region a second time is accepted and breaks the tiling. */
  lemma SecondRelease(mm: Mm, p: nat, r: nat, c: Client, n: nat)
    requires ProcOk(mm, p, c, n) && n <= MAX_FPN
    requires (p, r) in c.live && c.live[(p, r)] > 0 && r < MAX_SYMTBL_SZ
    ensures var (once, c1) := (Free(mm, r).0, ClientStep(c, Release(p, r)));
            && ProcOk(once, p, c1, n) && Free(once, r).1 == 0
            && !ProcOk(Free(once, r).0, p, ClientStep(c1, Release(p, r)), n)
  {
    ReleaseProc(mm, p, r, c, n);
    var once, c1 := Free(mm, r).0, ClientStep(c, Release(p, r));
    assert once.sym[r].start < once.sym[r].end;
    hide ProcOk, Free;
    ReleaseTilesIff(once, p, r, c1, n);
  }

  lemma AllocatedOne(s: Sys, c: Client, s': Sys, c': Client, size: nat)
    requires Defined(s, Allocate(0, 0, size)) && s' == Step(s, Allocate(0, 0, size))
    requires c' == ClientStep(c, Allocate(0, 0, size)) && Inv(s', c') && |s.procs| == 1
    ensures |s'.procs| == 1 && ProcOk(s'.procs[0], 0, c', s.ram.Frames())
    ensures (0, 0) in c'.live && c'.live[(0, 0)] == size
  {
    hide Owned, AllocOk, ProcOk, Keys, Holds, Alloc;
    AllocPlacement(s.procs[0], s.ram, 0, 0, size);
  }

  /** A run in which a process releases a region twice. */
  lemma SecondReleaseHappens(ram: Ram, pgd: seq<Word>, sym: seq<Rg>, size: nat)
    requires Formatted(ram) && |pgd| == MAX_PGN && |sym| == MAX_SYMTBL_SZ && 0 < size <= ram.Frames() * PAGESZ
    ensures var ops := [Spawn(pgd, sym)] + [Allocate(0, 0, size)];
            && Lawful(ram, ops)
            && var s, c := Machine(ram, ops), Clients(ops);
               && |s.procs| == 1 && ProcOk(s.procs[0], 0, c, ram.Frames())
               && (var (once, c1) := (Free(s.procs[0], 0).0, ClientStep(c, Release(0, 0)));
                   && Free(once, 0).1 == 0
                   && !ProcOk(Free(once, 0).0, 0, ClientStep(c1, Release(0, 0)), ram.Frames()))
  {
    var ops, op := [Spawn(pgd, sym)], Allocate(0, 0, size);
    var s, c := SpawnedOn(ram, pgd, sym);
    FreshServed(s, pgd, sym, size);
    assert Permitted(s, c, op);
    hide Lawful, Machine, Clients, Inv, ProcOk, Step, Free, Owned, Permitted, Served, ClientStep, Defined;
    OneMore(ram, ops, op);
    AllocateStep(s, c, 0, 0, size);
    var s', c' := Machine(ram, ops + [op]), Clients(ops + [op]);
    AllocatedOne(s, c, s', c', size);
    SecondRelease(s'.procs[0], 0, 0, c', ram.Frames());
  }

  lemma EmptyRequestPermitted(s: Sys, c: Client, n: nat)
    requires |s.procs| == 1 && ProcOk(s.procs[0], 0, c, n)
    ensures Permitted(s, c, Allocate(0, 0, 0))
  {
  }

  /** A run in which a process allocates into the id of a live region: the bytes of that are lost, and
      the heap is no longer tiled. */
  lemma LosingBytesHappens(ram: Ram, pgd: seq<Word>, sym: seq<Rg>, size: nat)
    requires Formatted(ram) && |pgd| == MAX_PGN && |sym| == MAX_SYMTBL_SZ && 0 < size <= ram.Frames() * PAGESZ
    ensures var ops := [Spawn(pgd, sym)] + [Allocate(0, 0, size)] + [Allocate(0, 0, 0)];
            && Lawful(ram, ops) && Lost(Clients(ops), 0) == size
            && var s, c := Machine(ram, ops), Clients(ops);
               && |s.procs| == 1 && |s.procs[0].vmas| == 1
               && !Tiled(s.procs[0].vmas[0].freeRgs, LiveRgs(s.procs[0], 0, c.live), s.procs[0].vmas[0].sbrk)
  {
    var ops, op := [Spawn(pgd, sym)], Allocate(0, 0, size);
    var s, c := SpawnedOn(ram, pgd, sym);
    FreshServed(s, pgd, sym, size);
    assert Permitted(s, c, op);
    hide Lawful, Machine, Clients, Inv, ProcOk, Step, Owned, Served, Defined, Tiled, Heap;
    OneMore(ram, ops, op);
    AllocateStep(s, c, 0, 0, size);
    var s1, c1 := Machine(ram, ops + [op]), Clients(ops + [op]);
    AllocatedOne(s, c, s1, c1, size);
    EmptyRequestPermitted(s1, c1, ram.Frames());
    OneMore(ram, ops + [op], Allocate(0, 0, 0));
    AllocateStep(s1, c1, 0, 0, 0);
    var all := ops + [op] + [Allocate(0, 0, 0)];
    AllocatedOne(s1, c1, Machine(ram, all), Clients(all), 0);
    HeapsAlwaysTiled(ram, all, 0);
  }
}
