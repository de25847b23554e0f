/** Region allocation and access: src/libmem.c. `vmaid` is the area a call works on; the library
    entry points always pass 0. */
module LibMem {
  import opened Bits
  import opened Paging
  import opened PhysMemory
  import opened AddressSpace
  import opened VmArea

  // ---------------------------------------------------------------- first fit

  /** The length test of get_free_vmrg_area, on 64-bit unsigned addresses. */
  predicate Fits(rg: Rg, size: nat) {
    (rg.end - rg.start) % 0x1_0000_0000_0000_0000 >= size
  }

  /** The position of the first region of at least `size` bytes. */
  function FirstFit(rgs: seq<Rg>, size: nat): (i: nat)
    ensures i <= |rgs|
    ensures forall j :: 0 <= j < i ==> !Fits(rgs[j], size)
    ensures i < |rgs| ==> Fits(rgs[i], size)
  {
    if rgs == [] || Fits(rgs[0], size) then 0 else 1 + FirstFit(rgs[1..], size)
  }

  /** On 64-bit bounds a region in order fits by its length; one with its bounds reversed counts as
      2^64 bytes longer. */
  lemma FitsIff(rg: Rg, size: nat)
    requires rg.start < 0x1_0000_0000_0000_0000 && rg.end < 0x1_0000_0000_0000_0000
    ensures Fits(rg, size) <==> rg.end - rg.start + (if rg.end < rg.start then 0x1_0000_0000_0000_0000 else 0) >= size
  {
    if rg.end < rg.start {
      assert (rg.end - rg.start) % 0x1_0000_0000_0000_0000 == rg.end - rg.start + 0x1_0000_0000_0000_0000;
    }
  }

  predicate HasFit(mm: Mm, vmaid: int, size: nat)
    requires FindVma(mm.vmas, vmaid) < |mm.vmas|
  {
    var free := mm.vmas[FindVma(mm.vmas, vmaid)].freeRgs;
    FirstFit(free, size) < |free|
  }

  /** `size` bytes cut from the start of the first region that fits: the memory without them and
      the region cut off. */
  function Cut(mm: Mm, vmaid: int, size: nat): (r: (Mm, Rg))
    requires mm.Sized() && FindVma(mm.vmas, vmaid) < |mm.vmas| && HasFit(mm, vmaid, size)
    ensures r.0.Sized()
  {
    var v := FindVma(mm.vmas, vmaid);
    var free := mm.vmas[v].freeRgs;
    var i := FirstFit(free, size);
    var got := Rg(free[i].start, free[i].start + size);
    (mm.(vmas := mm.vmas[v := mm.vmas[v].(freeRgs := free[i := free[i].(start := got.end)])]), got)
  }

  function PushFree(mm: Mm, v: nat, rg: Rg): (r: Mm)
    requires v < |mm.vmas|
  {
    mm.(vmas := mm.vmas[v := mm.vmas[v].(freeRgs := [rg] + mm.vmas[v].freeRgs)])
  }

  // ---------------------------------------------------------------- int bounds

  /** A 64-bit unsigned value cut to a C int. */
  function CInt(x: nat): (r: int)
    ensures -0x8000_0000 <= r < 0x8000_0000
    ensures (x - r) % 0x1_0000_0000 == 0
    ensures x < 0x8000_0000 ==> r == x
  {
    var low := x % 0x1_0000_0000;
    if low < 0x8000_0000 then low else low - 0x1_0000_0000
  }

  /** A C int as a 64-bit unsigned value. */
  function Unsigned(i: int): (r: nat)
    requires -0x8000_0000 <= i < 0x8000_0000
    ensures r < 0x1_0000_0000_0000_0000 && (r - i) % 0x1_0000_0000_0000_0000 == 0
  {
    if i >= 0 then i else i + 0x1_0000_0000_0000_0000
  }

  // ---------------------------------------------------------------- alloc and free

  /** What an allocation needs: an id of the table, an area, a size that is a C int and, when no free
      region fits, what growing needs. */
  predicate AllocOk(mm: Mm, ram: Ram, vmaid: int, rgid: nat, size: nat) {
    && mm.Sized() && rgid < MAX_SYMTBL_SZ && size < 0x8000_0000
    && FindVma(mm.vmas, vmaid) < |mm.vmas|
    && (!HasFit(mm, vmaid, size) ==> Growable(mm, ram, vmaid, AlignSz(size)))
  }

  lemma {:induction false} SameIdsSameVma(a: seq<Vma>, b: seq<Vma>, vmaid: int)
    requires |a| == |b| && forall i :: 0 <= i < |a| ==> a[i].id == b[i].id
    ensures FindVma(a, vmaid) == FindVma(b, vmaid)
  {
    if a != [] && a[0].id < vmaid { SameIdsSameVma(a[1..], b[1..], vmaid); }
  }

  /** The memory and RAM in which the second search of __alloc runs: grown if growth succeeded, and
      with the new region enlisted whether it did or not. */
  function Grown(mm: Mm, ram: Ram, vmaid: int, size: nat): (r: (Mm, Ram))
    requires Growable(mm, ram, vmaid, AlignSz(size)) && FindVma(mm.vmas, vmaid) < |mm.vmas|
    ensures r.0.Sized() && |r.0.vmas| == |mm.vmas|
    ensures FindVma(r.0.vmas, vmaid) == FindVma(mm.vmas, vmaid)
  {
    var v := FindVma(mm.vmas, vmaid);
    var brk := mm.vmas[v].sbrk;
    var (mm', ram', rc) := IncLimit(mm, ram, vmaid, AlignSz(size));
    var r := PushFree(mm', v, Rg(brk, brk + AlignSz(size)));
    SameIdsSameVma(mm.vmas, r.vmas, vmaid);
    (r, ram')
  }

  /** The region just enlisted is the head of the list and fits, so the second search takes it. */
  lemma GrownFits(mm: Mm, ram: Ram, vmaid: int, size: nat)
    requires Growable(mm, ram, vmaid, AlignSz(size)) && FindVma(mm.vmas, vmaid) < |mm.vmas|
    ensures var v := FindVma(mm.vmas, vmaid);
            var grown := Grown(mm, ram, vmaid, size).0;
            && FirstFit(grown.vmas[v].freeRgs, size) == 0
            && HasFit(grown, vmaid, size)
            && Cut(grown, vmaid, size).1 == Rg(mm.vmas[v].sbrk, mm.vmas[v].sbrk + size)
  {
    AlignSzRoundsUp(size);
    var v := FindVma(mm.vmas, vmaid);
    var grown := Grown(mm, ram, vmaid, size).0;
    var brk := mm.vmas[v].sbrk;
    assert grown.vmas[v].freeRgs[0] == Rg(brk, brk + AlignSz(size));
    assert Fits(grown.vmas[v].freeRgs[0], size);
  }

  datatype Allocation = Allocation(mm: Mm, ram: Ram, rc: int, rg: Rg)

  /** __alloc on values. */
  function Alloc(mm: Mm, ram: Ram, vmaid: int, rgid: nat, size: nat): (r: Allocation)
    requires AllocOk(mm, ram, vmaid, rgid, size)
    ensures r.mm.Sized()
  {
    if HasFit(mm, vmaid, size) then
      var (cut, got) := Cut(mm, vmaid, size);
      Allocation(cut.(sym := cut.sym[rgid := got]), ram, 0, got)
    else
      var (grown, ram') := Grown(mm, ram, vmaid, size);
      if !HasFit(grown, vmaid, size) then Allocation(grown, ram', -1, Rg(0, 0))
      else
        var (cut, got) := Cut(grown, vmaid, size);
        Allocation(cut.(sym := cut.sym[rgid := got]), ram', 0, got)
  }

  /** Every allocation returns success: at the start of the first free region that fits, or else
      at the old break. The symbol table records exactly the bytes asked for, under that id alone. */
  lemma AllocPlacement(mm: Mm, ram: Ram, vmaid: int, rgid: nat, size: nat)
    requires AllocOk(mm, ram, vmaid, rgid, size)
    ensures var r := Alloc(mm, ram, vmaid, rgid, size);
            var vma := mm.vmas[FindVma(mm.vmas, vmaid)];
            var i := FirstFit(vma.freeRgs, size);
            && r.rc == 0
            && r.rg.start == (if i < |vma.freeRgs| then vma.freeRgs[i].start else vma.sbrk)
            && r.rg.end == r.rg.start + size
            && r.mm.sym == mm.sym[rgid := r.rg]
            && r.ram.storage == ram.storage
  {
    if !HasFit(mm, vmaid, size) { GrownFits(mm, ram, vmaid, size); }
  }

  /** The region __free enlists for a recorded one: init_vm_rg takes its bounds as ints. */
  function Returned(rg: Rg): Rg {
    Rg(Unsigned(CInt(rg.start)), Unsigned(CInt(rg.end)))
  }

  /** Free regions as runs leave them: bounds in order and below 2^31. */
  ghost predicate Ordered(rgs: seq<Rg>) {
    forall i :: 0 <= i < |rgs| ==> rgs[i].start <= rgs[i].end < 0x8000_0000
  }

  lemma FirstFitIs(free: seq<Rg>, size: nat, j: nat)
    requires Ordered(free) && j <= |free| && (j < |free| ==> free[j].end - free[j].start >= size)
    requires forall i :: 0 <= i < j ==> free[i].end - free[i].start < size
    ensures FirstFit(free, size) == j
  {
    forall i | 0 <= i < |free| ensures Fits(free[i], size) <==> free[i].end - free[i].start >= size {
      FitsIff(free[i], size);
    }
  }

  /** First fit: when region j is the first of at least `size` bytes, the allocation takes its first
      bytes and leaves the rest of it in its place; no other free region changes, nor does the break,
      the page table or the RAM. */
  lemma AllocReuses(mm: Mm, ram: Ram, vmaid: int, rgid: nat, size: nat, j: nat)
    requires AllocOk(mm, ram, vmaid, rgid, size)
    requires var free := mm.vmas[FindVma(mm.vmas, vmaid)].freeRgs;
             && Ordered(free) && j < |free| && free[j].end - free[j].start >= size
             && forall i :: 0 <= i < j ==> free[i].end - free[i].start < size
    ensures var r, v := Alloc(mm, ram, vmaid, rgid, size), FindVma(mm.vmas, vmaid);
            var free, start := mm.vmas[v].freeRgs, mm.vmas[v].freeRgs[j].start;
            && r.rc == 0 && r.ram == ram && r.rg == Rg(start, start + size)
            && r.mm.pgd == mm.pgd && r.mm.fifo == mm.fifo && |r.mm.vmas| == |mm.vmas|
            && (forall k :: 0 <= k < |mm.sym| && k != rgid ==> r.mm.sym[k] == mm.sym[k]) && r.mm.sym[rgid] == r.rg
            && (forall k :: 0 <= k < |mm.vmas| && k != v ==> r.mm.vmas[k] == mm.vmas[k])
            && r.mm.vmas[v].(freeRgs := free) == mm.vmas[v]
            && var left := r.mm.vmas[v].freeRgs;
               && |left| == |free| && left[j] == Rg(start + size, free[j].end)
               && forall i :: 0 <= i < |free| && i != j ==> left[i] == free[i]
  {
    hide Growable, Grown;
    var free := mm.vmas[FindVma(mm.vmas, vmaid)].freeRgs;
    FirstFitIs(free, size, j);
  }

  /** When no free region has `size` bytes the allocation comes from the old break, whatever growth
      returned, and the rest of the enlisted bytes is the new head of the free list. */
  lemma AllocExtends(mm: Mm, ram: Ram, vmaid: int, rgid: nat, size: nat)
    requires AllocOk(mm, ram, vmaid, rgid, size)
    requires var free := mm.vmas[FindVma(mm.vmas, vmaid)].freeRgs;
             Ordered(free) && forall i :: 0 <= i < |free| ==> free[i].end - free[i].start < size
    ensures Growable(mm, ram, vmaid, AlignSz(size))
    ensures var r, v := Alloc(mm, ram, vmaid, rgid, size), FindVma(mm.vmas, vmaid);
            var brk := mm.vmas[v].sbrk;
            var (mm', ram', _) := IncLimit(mm, ram, vmaid, AlignSz(size));
            && r.rc == 0 && r.ram == ram' && r.rg == Rg(brk, brk + size)
            && r.mm.pgd == mm'.pgd && r.mm.fifo == mm'.fifo && |r.mm.vmas| == |mm'.vmas|
            && r.mm.sym == mm'.sym[rgid := r.rg]
            && (forall k :: 0 <= k < |mm'.vmas| && k != v ==> r.mm.vmas[k] == mm'.vmas[k])
            && r.mm.vmas[v].(freeRgs := mm'.vmas[v].freeRgs) == mm'.vmas[v]
            && r.mm.vmas[v].freeRgs == [Rg(brk + size, brk + AlignSz(size))] + mm'.vmas[v].freeRgs
  {
    hide Growable, IncLimit;
    var free := mm.vmas[FindVma(mm.vmas, vmaid)].freeRgs;
    FirstFitIs(free, size, |free|);
    GrownFits(mm, ram, vmaid, size);
  }

  /** __free on values. */
  function Free(mm: Mm, rgid: int): (r: (Mm, int))
    requires mm.Sized() && mm.vmas != []
    ensures r.0.Sized()
  {
    if rgid < 0 || rgid >= MAX_SYMTBL_SZ then (mm, -1)
    else if Returned(mm.sym[rgid]).start >= Returned(mm.sym[rgid]).end then (mm, -1)
    else (PushFree(mm, 0, Returned(mm.sym[rgid])), 0)
  }

  /** A release is accepted exactly for the ids 0 to 29 with bounds that, as ints, are in order and not
      empty, and then puts just that region in front of the free list. */
  lemma FreeOutcome(mm: Mm, rgid: int)
    requires mm.Sized() && mm.vmas != []
    ensures var (mm', rc) := Free(mm, rgid);
            && (rc == 0 || rc == -1)
            && (rc == 0 <==> 0 <= rgid < 30
                             && Unsigned(CInt(mm.sym[rgid].start)) < Unsigned(CInt(mm.sym[rgid].end)))
            && (rc != 0 ==> mm' == mm)
            && (rc == 0 ==>
                  && mm'.pgd == mm.pgd && mm'.sym == mm.sym && mm'.fifo == mm.fifo && mm'.vmas[1..] == mm.vmas[1..]
                  && mm'.vmas[0].(freeRgs := mm.vmas[0].freeRgs) == mm.vmas[0]
                  && mm'.vmas[0].freeRgs[1..] == mm.vmas[0].freeRgs
                  && mm'.vmas[0].freeRgs[0] == Rg(Unsigned(CInt(mm.sym[rgid].start)), Unsigned(CInt(mm.sym[rgid].end))))
  {
    hide CInt, Unsigned;
  }

  /** Last in, first out: the region released last is the first one tried, and is taken when it is long
      enough. */
  lemma ReleasedIsReused(mm: Mm, ram: Ram, rgid: nat, rgid': nat, size: nat)
    requires mm.Sized() && mm.vmas != [] && mm.vmas[0].id >= 0 && rgid < 30 && rgid' < 30
    requires Ordered([mm.sym[rgid]] + mm.vmas[0].freeRgs)
    requires 0 < size <= mm.sym[rgid].end - mm.sym[rgid].start
    ensures var mm' := Free(mm, rgid).0;
            AllocOk(mm', ram, 0, rgid', size)
            && Alloc(mm', ram, 0, rgid', size).rg == Rg(mm.sym[rgid].start, mm.sym[rgid].start + size)
  {
    hide Growable, Grown;
    var mm' := Free(mm, rgid).0;
    var free := [mm.sym[rgid]] + mm.vmas[0].freeRgs;
    assert free[0] == mm.sym[rgid];
    FirstFitIs(free, size, 0);
    assert mm'.vmas[0].freeRgs == free;
    AllocReuses(mm', ram, 0, rgid', size, 0);
  }

  // ---------------------------------------------------------------- access

  /** The physical address behind a virtual address. */
  function Phys(mm: Mm, addr: Word): (phyaddr: nat)
    requires mm.Sized() && Pgn(addr) < MAX_PGN
  {
    PteFpn(mm.pgd[Pgn(addr)]) * PAGESZ + Offst(addr)
  }

  /** The page of addr is present and its frame lies inside the RAM. */
  predicate Mapped(mm: Mm, ram: Ram, addr: nat) {
    && mm.Sized() && addr < 0x1_0000_0000 && Pgn(addr) < MAX_PGN
    && Present(mm.pgd[Pgn(addr)]) && Phys(mm, addr) < |ram.storage|
  }

  predicate BadRegion(mm: Mm, rgid: int) {
    rgid < 0 || rgid > MAX_SYMTBL_SZ || mm.vmas == []
  }

  /** What a read or write of region rgid needs. The id 30 passes the check of the source although
      the table has entries 0..29, and the access itself checks no bound. */
  predicate Accessible(mm: Mm, ram: Ram, rgid: int, offset: nat) {
    mm.Sized() && (!BadRegion(mm, rgid) ==> rgid != MAX_SYMTBL_SZ && Mapped(mm, ram, mm.sym[rgid].start + offset))
  }

  /** __read on values: the return code and the byte. */
  function ReadRegion(mm: Mm, ram: Ram, rgid: int, offset: nat): (int, Byte)
    requires Accessible(mm, ram, rgid, offset)
  {
    if BadRegion(mm, rgid) then (-1, 0)
    else (0, ram.storage[Phys(mm, mm.sym[rgid].start + offset)])
  }

  /** __write on values: the new RAM and the return code. */
  function WriteRegion(mm: Mm, ram: Ram, rgid: int, offset: nat, value: Byte): (Ram, int)
    requires Accessible(mm, ram, rgid, offset)
  {
    if BadRegion(mm, rgid) then (ram, -1)
    else (ram.(storage := ram.storage[Phys(mm, mm.sym[rgid].start + offset) := value]), 0)
  }

  /** A call is refused exactly for an id outside 0 to 30 or a process without area, and then reads
      nothing and writes nothing; otherwise it reads the byte it writes. */
  lemma AccessOutcome(mm: Mm, ram: Ram, rgid: int, offset: nat, value: Byte)
    requires Accessible(mm, ram, rgid, offset)
    ensures var (ram', rc) := WriteRegion(mm, ram, rgid, offset, value);
            && Accessible(mm, ram', rgid, offset)
            && rc == ReadRegion(mm, ram, rgid, offset).0 == ReadRegion(mm, ram', rgid, offset).0
            && (rc == 0 || rc == -1)
            && (rc == 0 <==> 0 <= rgid <= 30 && mm.vmas != [])
            && (rc == 0 ==> ReadRegion(mm, ram', rgid, offset).1 == value)
            && (rc != 0 ==> ram' == ram)
            && ram'.free == ram.free
  {
    hide Pgn, Offst, PteFpn, Present;
  }

  // ---------------------------------------------------------------- the functions in place

  /** get_free_vmrg_area. */
  method GetFreeVmrgArea(mm: MmStruct, vmaid: int, size: nat) returns (rc: int, newrg: Rg)
    requires mm.Valid() && FindVma(mm.vmas, vmaid) < |mm.vmas|
    modifies mm`vmas
    ensures mm.Valid()
    ensures rc == if HasFit(old(mm.View()), vmaid, size) then 0 else -1
    ensures rc == 0 ==> (mm.View(), newrg) == Cut(old(mm.View()), vmaid, size)
    ensures rc != 0 ==> mm.View() == old(mm.View())
  {
    newrg := Rg(0, 0);
    var v := GetVmaByNum(mm, vmaid);
    var free := mm.vmas[v].freeRgs;
    if |free| == 0 {
      return -1, newrg;
    }
    var rgit := 0;
    while rgit < |free|
      invariant rgit <= FirstFit(free, size)
    {
      if Fits(free[rgit], size) {
        break;
      }
      rgit := rgit + 1;
    }
    if rgit == |free| {
      return -1, newrg;
    }
    newrg := Rg(free[rgit].start, free[rgit].start + size);
    free := free[rgit := free[rgit].(start := newrg.end)];
    mm.vmas := mm.vmas[v := mm.vmas[v].(freeRgs := free)];
    rc := 0;
  }

  /** __alloc. The growth call goes through the memory-map system call, which reports success
      whatever inc_vma_limit returns. */
  method AllocRegion(mm: MmStruct, ram: MemPhy, vmaid: int, rgid: nat, size: nat) returns (rc: int, addr: int)
    requires mm.Valid() && ram.Valid() && AllocOk(mm.View(), ram.View(), vmaid, rgid, size)
    modifies mm, mm.pgd, mm.sym, mm.fifo, ram`free
    ensures mm.Valid() && ram.Valid()
    ensures var r := Alloc(old(mm.View()), old(ram.View()), vmaid, rgid, size);
            mm.View() == r.mm && ram.View() == r.ram && rc == r.rc && (rc == 0 ==> addr == CInt(r.rg.start))
  {
    hide Pgn, Fits, AlignSz, IncLimit, Growable, CInt, FirstFit, NoOverflow;
    addr := 0;
    var found, rgnode := GetFreeVmrgArea(mm, vmaid, size);
    if found == 0 {
      mm.sym[rgid] := rgnode;
      return 0, CInt(rgnode.start);
    }
    var v := GetVmaByNum(mm, vmaid);
    var oldSbrk := mm.vmas[v].sbrk;
    var incSz := AlignSz(size);
    var ignored := IncVmaLimit(mm, ram, vmaid, incSz);
    mm.vmas := mm.vmas[v := mm.vmas[v].(freeRgs := [Rg(oldSbrk, oldSbrk + incSz)] + mm.vmas[v].freeRgs)];
    assert (mm.View(), ram.View()) == Grown(old(mm.View()), old(ram.View()), vmaid, size);
    found, rgnode := GetFreeVmrgArea(mm, vmaid, size);
    if found != 0 {
      return -1, addr;
    }
    mm.sym[rgid] := rgnode;
    return 0, CInt(rgnode.start);
  }

  /** __free, with enlist_vm_freerg_list. */
  method FreeRegion(mm: MmStruct, rgid: int) returns (rc: int)
    requires mm.Valid() && mm.vmas != []
    modifies mm`vmas
    ensures mm.Valid() && (mm.View(), rc) == Free(old(mm.View()), rgid)
  {
    if rgid < 0 || rgid >= MAX_SYMTBL_SZ {
      return -1;
    }
    var freerg := Returned(mm.sym[rgid]);
    if freerg.start >= freerg.end {
      return -1;
    }
    mm.vmas := mm.vmas[0 := mm.vmas[0].(freeRgs := [freerg] + mm.vmas[0].freeRgs)];
    rc := 0;
  }

  /** pg_getpage for a page that is present. */
  method PgGetPage(mm: MmStruct, pgn: nat) returns (fpn: Word)
    requires mm.Valid() && pgn < MAX_PGN && Present(mm.pgd[pgn])
    ensures fpn == PteFpn(mm.pgd[pgn])
  {
    fpn := PteFpn(mm.pgd[pgn]);
  }

  /** __read, with pg_getval. */
  method ReadByte(mm: MmStruct, ram: MemPhy, rgid: int, offset: nat) returns (rc: int, data: Byte)
    requires mm.Valid() && ram.Valid() && Accessible(mm.View(), ram.View(), rgid, offset)
    ensures (rc, data) == ReadRegion(mm.View(), ram.View(), rgid, offset)
  {
    hide Pgn, Offst, PteFpn, Present;
    if rgid < 0 || rgid > MAX_SYMTBL_SZ || |mm.vmas| == 0 {
      return -1, 0;
    }
    var addr: Word := mm.sym[rgid].start + offset;
    var fpn := PgGetPage(mm, Pgn(addr));
    data := ram.Read(fpn * PAGESZ + Offst(addr));
    rc := 0;
  }

  /** __write, with pg_setval, which stores the byte twice: by the system call and directly. */
  method WriteByte(mm: MmStruct, ram: MemPhy, rgid: int, offset: nat, value: Byte) returns (rc: int)
    requires mm.Valid() && ram.Valid() && Accessible(mm.View(), ram.View(), rgid, offset)
    modifies ram.storage
    ensures ram.Valid()
    ensures (ram.View(), rc) == WriteRegion(mm.View(), old(ram.View()), rgid, offset, value)
  {
    hide Pgn, Offst, PteFpn, Present;
    if rgid < 0 || rgid > MAX_SYMTBL_SZ || |mm.vmas| == 0 {
      return -1;
    }
    var addr: Word := mm.sym[rgid].start + offset;
    var fpn := PgGetPage(mm, Pgn(addr));
    var phyaddr := fpn * PAGESZ + Offst(addr);
    ghost var cells := ram.storage[..];
    ram.Write(phyaddr, value);
    ram.Write(phyaddr, value);
    assert ram.storage[..] == cells[phyaddr := value];
    rc := 0;
  }
}
