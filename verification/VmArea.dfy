/** Virtual memory areas: lookup, overlap check and growth (src/mm-vm.c). */
module VmArea {
  import opened Paging
  import opened PhysMemory
  import opened AddressSpace
  import opened PageMapping

  /** The index of the first area whose id is at least vmaid. */
  function FindVma(vmas: seq<Vma>, vmaid: int): (i: nat)
    ensures i <= |vmas|
    ensures forall j :: 0 <= j < i ==> vmas[j].id < vmaid
    ensures i < |vmas| ==> vmas[i].id >= vmaid
  {
    if vmas == [] || vmas[0].id >= vmaid then 0 else 1 + FindVma(vmas[1..], vmaid)
  }

  /** OVERLAP: the closed intervals [x1, x2] and [y1, y2] meet. */
  predicate Overlap(x1: nat, x2: nat, y1: nat, y2: nat) {
    x1 <= y2 && y1 <= x2
  }

  ghost predicate Both(a: nat, x1: nat, x2: nat, y1: nat, y2: nat) {
    x1 <= a <= x2 && y1 <= a <= y2
  }

  /** The area has an address in common with [start, end]. */
  ghost predicate Shares(vma: Vma, start: nat, end: nat) {
    exists a: nat :: Both(a, vma.start, vma.end, start, end)
  }

  /** Two closed intervals overlap exactly when they have an address in common. */
  lemma OverlapIff(x1: nat, x2: nat, y1: nat, y2: nat)
    requires x1 <= x2 && y1 <= y2
    ensures Overlap(x1, x2, y1, y2) <==> exists a: nat :: Both(a, x1, x2, y1, y2)
  {
    if Overlap(x1, x2, y1, y2) { assert Both(if x1 < y1 then y1 else x1, x1, x2, y1, y2); }
  }

  /** No area but those with id vmaid meets [start, end]. */
  predicate Clear(vmas: seq<Vma>, vmaid: int, start: nat, end: nat) {
    forall i :: 0 <= i < |vmas| && vmas[i].id != vmaid ==> !Overlap(vmas[i].start, vmas[i].end, start, end)
  }

  /** The sums of a growth from brk stay within a C int. */
  predicate NoOverflow(brk: nat, incSz: nat) {
    incSz + PAGESZ - 1 < 0x8000_0000 && brk + AlignSz(incSz) < 0x8000_0000
  }

  /** What growing by incSz bytes needs: a lookup that does not run off the area list, sums that do
      not overflow, and room in the page table for the pages the free list can serve. */
  predicate Growable(mm: Mm, ram: Ram, vmaid: int, incSz: nat) {
    && mm.Sized()
    && (mm.vmas != [] ==>
          var i := FindVma(mm.vmas, vmaid);
          && i < |mm.vmas| && mm.vmas[i].end < 0x8000_0000 && NoOverflow(mm.vmas[i].sbrk, incSz)
          && (AlignSz(incSz) / PAGESZ <= |ram.free| ==>
                Pgn(mm.vmas[i].end) + AlignSz(incSz) / PAGESZ <= MAX_PGN))
  }

  function WithBreak(mm: Mm, i: nat, brk: nat): Mm
    requires i < |mm.vmas|
  {
    mm.(vmas := mm.vmas[i := mm.vmas[i].(end := brk, sbrk := brk)])
  }

  /** inc_vma_limit on values: the new memory, the new RAM and the return code. */
  function IncLimit(mm: Mm, ram: Ram, vmaid: int, incSz: nat): (r: (Mm, Ram, int))
    requires Growable(mm, ram, vmaid, incSz)
    ensures r.0.Sized() && |r.0.vmas| == |mm.vmas|
  {
    if mm.vmas == [] then (mm, ram, -1)
    else
      var i := FindVma(mm.vmas, vmaid);
      var vma := mm.vmas[i];
      var brk := vma.sbrk + AlignSz(incSz);
      if !Clear(mm.vmas, vmaid, vma.sbrk, brk) then (mm, ram, -1)
      else
        var (mm', ram', rc) := MapRam(WithBreak(mm, i, brk), ram, vma.end, AlignSz(incSz) / PAGESZ);
        if rc < 0 then (WithBreak(mm', i, vma.end), ram', -1) else (mm', ram', 0)
  }

  /** Growth fails exactly when there is no area, the new range meets another area, or the free
      list is too short. A failure leaves page table, symbol table and area ends as they were;
      it leaves the whole description as it was exactly when the failing step came before the
      mapping or the break stood at the end of its area. */
  lemma IncLimitFailure(mm: Mm, ram: Ram, vmaid: int, incSz: nat)
    requires Growable(mm, ram, vmaid, incSz) && mm.vmas != []
    ensures var (mm', ram', rc) := IncLimit(mm, ram, vmaid, incSz);
            var vma := mm.vmas[FindVma(mm.vmas, vmaid)];
            var clear := Clear(mm.vmas, vmaid, vma.sbrk, vma.sbrk + AlignSz(incSz));
            && (rc < 0 <==> !clear || AlignSz(incSz) / PAGESZ > |ram.free|)
            && (rc < 0 ==>
                  && mm'.pgd == mm.pgd && mm'.sym == mm.sym && mm'.fifo == mm.fifo && ram'.storage == ram.storage
                  && |mm'.vmas| == |mm.vmas|
                  && (forall i :: 0 <= i < |mm.vmas| ==> mm'.vmas[i].(sbrk := mm.vmas[i].sbrk) == mm.vmas[i])
                  && (mm' == mm <==> !clear || vma.sbrk == vma.end)
                  && (clear ==> mm'.vmas[FindVma(mm.vmas, vmaid)].sbrk == vma.end)
                  && (clear ==> ram'.free == []))
  {
    var i := FindVma(mm.vmas, vmaid);
    var vma := mm.vmas[i];
    var mm' := IncLimit(mm, ram, vmaid, incSz).0;
    if IncLimit(mm, ram, vmaid, incSz).2 < 0 && Clear(mm.vmas, vmaid, vma.sbrk, vma.sbrk + AlignSz(incSz)) {
      assert mm'.vmas[i] == vma.(sbrk := vma.end);
      if vma.sbrk == vma.end {
        assert mm'.vmas == mm.vmas;
      }
    }
  }

  lemma ClearIff(vmas: seq<Vma>, vmaid: int, start: nat, end: nat)
    requires start <= end && forall i :: 0 <= i < |vmas| ==> vmas[i].start <= vmas[i].end
    ensures Clear(vmas, vmaid, start, end)
       <==> forall j :: 0 <= j < |vmas| && vmas[j].id != vmaid ==> !Shares(vmas[j], start, end)
  {
    hide Overlap, Both;
    forall j | 0 <= j < |vmas|
      ensures Overlap(vmas[j].start, vmas[j].end, start, end) <==> Shares(vmas[j], start, end)
    {
      OverlapIff(vmas[j].start, vmas[j].end, start, end);
    }
  }

  /** Growth succeeds exactly when no area with another id has an address in common with the new range
      and the free list is long enough. Then the area ends at its break, which has moved by the aligned
      size, and the new pages from its old end on have the popped frames; nothing else changes. */
  lemma IncLimitSuccess(mm: Mm, ram: Ram, vmaid: int, incSz: nat)
    requires Growable(mm, ram, vmaid, incSz) && mm.vmas != []
    requires forall i :: 0 <= i < |mm.vmas| ==> mm.vmas[i].start <= mm.vmas[i].end
    requires forall i :: 0 <= i < |ram.free| ==> ram.free[i] < MAX_FPN
    ensures var (mm', ram', rc) := IncLimit(mm, ram, vmaid, incSz);
            var i, n := FindVma(mm.vmas, vmaid), (incSz + 255) / 256;
            var vma := mm.vmas[i];
            && (rc == 0 <==> n <= |ram.free| && forall j :: 0 <= j < |mm.vmas| && mm.vmas[j].id != vmaid ==>
                               !Shares(mm.vmas[j], vma.sbrk, vma.sbrk + n * 256))
            && (rc == 0 ==>
                  && mm'.vmas == mm.vmas[i := vma.(end := vma.sbrk + n * 256, sbrk := vma.sbrk + n * 256)]
                  && ram' == Ram(ram.storage, ram.free[n..])
                  && mm'.sym == mm.sym
                  && forall k :: 0 <= k < MAX_PGN ==>
                       if Pgn(vma.end) <= k < Pgn(vma.end) + n
                       then Present(mm'.pgd[k]) && PteFpn(mm'.pgd[k]) == ram.free[n - 1 - (k - Pgn(vma.end))]
                       else mm'.pgd[k] == mm.pgd[k])
  {
    hide Present, PteFpn, PteSetFpn, Pgn, MapRam, Overlap;
    var i := FindVma(mm.vmas, vmaid);
    var vma := mm.vmas[i];
    var brk := vma.sbrk + AlignSz(incSz);
    ClearIff(mm.vmas, vmaid, vma.sbrk, brk);
    IncLimitFailure(mm, ram, vmaid, incSz);
    if IncLimit(mm, ram, vmaid, incSz).2 == 0 {
      MapRamExact(WithBreak(mm, i, brk), ram, vma.end, AlignSz(incSz) / PAGESZ);
    }
  }

  ghost predicate Ascending(vmas: seq<Vma>) {
    forall i, j :: 0 <= i < j < |vmas| ==> vmas[i].id < vmas[j].id
  }

  ghost predicate Disjoint(vmas: seq<Vma>) {
    forall i, j :: 0 <= i < |vmas| && 0 <= j < |vmas| && i != j ==>
      !Overlap(vmas[i].start, vmas[i].end, vmas[j].start, vmas[j].end)
  }

  /** On areas with ascending ids whose breaks lie inside them, a growth that succeeds extends
      the area vmaid itself, and areas disjoint before are disjoint after. */
  lemma IncLimitKeepsDisjoint(mm: Mm, ram: Ram, vmaid: int, incSz: nat)
    requires Growable(mm, ram, vmaid, incSz)
    requires Ascending(mm.vmas) && Disjoint(mm.vmas)
    requires forall i :: 0 <= i < |mm.vmas| ==> mm.vmas[i].start <= mm.vmas[i].sbrk <= mm.vmas[i].end
    requires IncLimit(mm, ram, vmaid, incSz).2 == 0
    ensures var mm' := IncLimit(mm, ram, vmaid, incSz).0;
            var i := FindVma(mm.vmas, vmaid);
            && mm.vmas[i].id == vmaid
            && mm'.vmas == WithBreak(mm, i, mm.vmas[i].sbrk + AlignSz(incSz)).vmas
            && Disjoint(mm'.vmas) && Ascending(mm'.vmas)
  {
    var i := FindVma(mm.vmas, vmaid);
    var vma := mm.vmas[i];
    var brk := vma.sbrk + AlignSz(incSz);
    assert Clear(mm.vmas, vmaid, vma.sbrk, brk);
    assert vma.id == vmaid by {
      if vma.id != vmaid { assert Overlap(vma.start, vma.end, vma.sbrk, brk); }
    }
    var vmas' := IncLimit(mm, ram, vmaid, incSz).0.vmas;
    forall j | 0 <= j < |vmas'| && j != i
      ensures !Overlap(vmas'[i].start, vmas'[i].end, vmas'[j].start, vmas'[j].end)
    {
      assert mm.vmas[j].id != vmaid;
      assert !Overlap(mm.vmas[j].start, mm.vmas[j].end, vma.sbrk, brk);
      assert !Overlap(mm.vmas[i].start, mm.vmas[i].end, mm.vmas[j].start, mm.vmas[j].end);
    }
  }

  // ---------------------------------------------------------------- the functions in place

  /** get_vma_by_num. The area is reported by its position; a null result is position |vmas|. An id
      above every area would make the source follow a null link, so it is excluded. */
  method GetVmaByNum(mm: MmStruct, vmaid: int) returns (pvma: nat)
    requires mm.vmas == [] || FindVma(mm.vmas, vmaid) < |mm.vmas|
    ensures pvma == FindVma(mm.vmas, vmaid)
  {
    pvma := 0;
    if |mm.vmas| == 0 {
      return;
    }
    ghost var target := FindVma(mm.vmas, vmaid);
    var vmait := mm.vmas[0].id;
    while vmait < vmaid
      invariant pvma <= target && vmait == mm.vmas[pvma].id
      decreases target - pvma
    {
      pvma := pvma + 1;
      vmait := mm.vmas[pvma].id;
    }
  }

  /** validate_overlap_vm_area. */
  method ValidateOverlapVmArea(mm: MmStruct, vmaid: int, vmastart: nat, vmaend: nat) returns (rc: int)
    ensures rc == if Clear(mm.vmas, vmaid, vmastart, vmaend) then 0 else -1
  {
    for i := 0 to |mm.vmas|
      invariant Clear(mm.vmas[..i], vmaid, vmastart, vmaend)
    {
      var vma := mm.vmas[i];
      if vma.id != vmaid {
        if Overlap(vma.start, vma.end, vmastart, vmaend) {
          return -1;
        }
      }
    }
    rc := 0;
  }

  /** inc_vma_limit. */
  method IncVmaLimit(mm: MmStruct, ram: MemPhy, vmaid: int, incSz: nat) returns (rc: int)
    requires mm.Valid() && ram.Valid() && Growable(mm.View(), ram.View(), vmaid, incSz)
    modifies mm, mm.pgd, mm.fifo, ram`free
    ensures mm.Valid() && ram.Valid()
    ensures (mm.View(), ram.View(), rc) == IncLimit(old(mm.View()), old(ram.View()), vmaid, incSz)
  {
    hide AlignSz, Overlap, NoOverflow, Pgn, PteSetFpn, Clear, MapRam, FindVma;
    var incAmt := AlignSz(incSz);
    var incnumpage := incAmt / PAGESZ;
    var i := GetVmaByNum(mm, vmaid);
    if i == |mm.vmas| {
      return -1;
    }
    var area := Rg(mm.vmas[i].sbrk, mm.vmas[i].sbrk + incAmt);
    var oldEnd := mm.vmas[i].end;
    var overlap := ValidateOverlapVmArea(mm, vmaid, area.start, area.end);
    if overlap < 0 {
      return -1;
    }
    mm.vmas := mm.vmas[i := mm.vmas[i].(end := area.end, sbrk := area.end)];
    var mapped;
    rc, mapped := VmMapRam(mm, ram, oldEnd, incnumpage);
    if rc < 0 {
      mm.vmas := mm.vmas[i := mm.vmas[i].(end := oldEnd, sbrk := oldEnd)];
      return -1;
    }
    rc := 0;
  }
}
