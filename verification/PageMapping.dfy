/** Frame allocation and page mapping: alloc_pages_range, vmap_page_range and vm_map_ram of
    src/mm.c. */
module PageMapping {
  import opened Bits
  import opened Paging
  import opened PhysMemory
  import opened AddressSpace

  /** The first n free frames in the order alloc_pages_range leaves them: last popped first. */
  function Popped(free: seq<Word>, n: nat): (frames: seq<Word>)
    requires n <= |free|
    ensures |frames| == n && forall i :: 0 <= i < n ==> frames[i] == free[n - 1 - i]
  {
    seq(n, i requires 0 <= i < n => free[n - 1 - i])
  }

  /** The page table with consecutive pages from `first` on mapped to `frames`. */
  function MapPages(pgd: seq<Word>, first: nat, frames: seq<Word>): (r: seq<Word>)
    requires first + |frames| <= |pgd|
    ensures |r| == |pgd|
    ensures forall k :: 0 <= k < |pgd| ==>
              r[k] == if first <= k < first + |frames| then PteSetFpn(pgd[k], frames[k - first]) else pgd[k]
  {
    seq(|pgd|, k requires 0 <= k < |pgd| =>
      if first <= k < first + |frames| then PteSetFpn(pgd[k], frames[k - first]) else pgd[k])
  }

  /** vmap_page_range on values. When the frames run out the pages mapped so far stay mapped. */
  function MapRange(mm: Mm, addr: Word, n: nat, frames: seq<Word>): (r: (Mm, int))
    requires mm.Sized() && Pgn(addr) + (if n <= |frames| then n else |frames|) <= MAX_PGN
    ensures r.0.Sized()
  {
    if n <= |frames| then
      (mm.(pgd := MapPages(mm.pgd, Pgn(addr), frames[..n]), fifo := [Pgn(addr) + n] + mm.fifo), 0)
    else
      (mm.(pgd := MapPages(mm.pgd, Pgn(addr), frames)), -1)
  }

  /** vm_map_ram on values: all n pages are mapped, or the free list is exhausted and nothing is. */
  function MapRam(mm: Mm, ram: Ram, mapstart: Word, n: nat): (r: (Mm, Ram, int))
    requires mm.Sized() && (n <= |ram.free| ==> Pgn(mapstart) + n <= MAX_PGN)
    ensures r.0.Sized()
  {
    if n <= |ram.free| then
      (MapRange(mm, mapstart, n, Popped(ram.free, n)).0, ram.(free := ram.free[n..]), 0)
    else
      (mm, ram.(free := []), -1)
  }

  /** Exactly the n pages from Pgn(mapstart) on are mapped: they read present, the first with
      frame n-1 of the old free list and the last with its head, and no other entry changes. One
      page enters the replacement list, and it is the one after the last mapped. */
  lemma MapRamExact(mm: Mm, ram: Ram, mapstart: Word, n: nat)
    requires mm.Sized() && n <= |ram.free| && Pgn(mapstart) + n <= MAX_PGN
    requires forall i :: 0 <= i < |ram.free| ==> ram.free[i] < MAX_FPN
    ensures var (mm', ram', rc) := MapRam(mm, ram, mapstart, n);
            && rc == 0
            && ram' == ram.(free := ram.free[n..])
            && mm'.vmas == mm.vmas && mm'.sym == mm.sym && mm'.fifo == [Pgn(mapstart) + n] + mm.fifo
            && forall k :: 0 <= k < MAX_PGN ==>
                 if Pgn(mapstart) <= k < Pgn(mapstart) + n
                 then Present(mm'.pgd[k]) && PteFpn(mm'.pgd[k]) == ram.free[n - 1 - (k - Pgn(mapstart))]
                 else mm'.pgd[k] == mm.pgd[k]
  {
    hide Present, PteFpn, PteSetFpn, Pgn;
    var mm' := MapRam(mm, ram, mapstart, n).0;
    var first := Pgn(mapstart);
    assert Popped(ram.free, n)[..n] == Popped(ram.free, n);
    forall k | first <= k < first + n
      ensures Present(mm'.pgd[k]) && PteFpn(mm'.pgd[k]) == ram.free[n - 1 - (k - first)]
    {
      PteFpnRoundTrip(mm.pgd[k], ram.free[n - 1 - (k - first)]);
    }
  }

  /** With frames for all its pages the range mapping gives the pages from Pgn(addr) on the first n of
      them in order, enlists the page after the last one, and changes nothing else. */
  lemma MapRangeExact(mm: Mm, addr: Word, n: nat, frames: seq<Word>)
    requires mm.Sized() && n <= |frames| && Pgn(addr) + n <= MAX_PGN
    requires forall i :: 0 <= i < n ==> frames[i] < MAX_FPN
    ensures var (mm', rc) := MapRange(mm, addr, n, frames);
            && rc == 0 && mm'.vmas == mm.vmas && mm'.sym == mm.sym && mm'.fifo == [Pgn(addr) + n] + mm.fifo
            && forall k :: 0 <= k < MAX_PGN ==>
                 if Pgn(addr) <= k < Pgn(addr) + n
                 then Present(mm'.pgd[k]) && PteFpn(mm'.pgd[k]) == frames[k - Pgn(addr)]
                 else mm'.pgd[k] == mm.pgd[k]
  {
    hide Present, PteFpn, PteSetFpn, Pgn;
    forall k | Pgn(addr) <= k < Pgn(addr) + n
      ensures Present(PteSetFpn(mm.pgd[k], frames[k - Pgn(addr)]))
              && PteFpn(PteSetFpn(mm.pgd[k], frames[k - Pgn(addr)])) == frames[k - Pgn(addr)]
    {
      PteFpnRoundTrip(mm.pgd[k], frames[k - Pgn(addr)]);
    }
  }

  /** With too few frames the mapping keeps the pages it has frames for, and the whole growth none: it
      has popped every free frame and mapped nothing. */
  lemma MapTooShort(mm: Mm, ram: Ram, addr: Word, n: nat, frames: seq<Word>)
    requires mm.Sized() && |frames| < n && Pgn(addr) + |frames| <= MAX_PGN && |ram.free| < n
    requires forall i :: 0 <= i < |frames| ==> frames[i] < MAX_FPN
    ensures var (mm', rc) := MapRange(mm, addr, n, frames);
            && rc == -1 && mm'.vmas == mm.vmas && mm'.sym == mm.sym && mm'.fifo == mm.fifo
            && forall k :: 0 <= k < MAX_PGN ==>
                 if Pgn(addr) <= k < Pgn(addr) + |frames|
                 then Present(mm'.pgd[k]) && PteFpn(mm'.pgd[k]) == frames[k - Pgn(addr)]
                 else mm'.pgd[k] == mm.pgd[k]
    ensures MapRam(mm, ram, addr, n) == (mm, Ram(ram.storage, []), -1)
  {
    hide Present, PteFpn, PteSetFpn, Pgn;
    forall k | Pgn(addr) <= k < Pgn(addr) + |frames|
      ensures Present(PteSetFpn(mm.pgd[k], frames[k - Pgn(addr)]))
              && PteFpn(PteSetFpn(mm.pgd[k], frames[k - Pgn(addr)])) == frames[k - Pgn(addr)]
    {
      PteFpnRoundTrip(mm.pgd[k], frames[k - Pgn(addr)]);
    }
  }

  /** alloc_pages_range. */
  method AllocPagesRange(ram: MemPhy, reqPgnum: nat) returns (rc: int, frames: seq<Word>)
    requires ram.Valid()
    modifies ram`free
    ensures reqPgnum <= |old(ram.free)| ==>
              rc == 0 && frames == Popped(old(ram.free), reqPgnum) && ram.free == old(ram.free)[reqPgnum..]
    ensures reqPgnum > |old(ram.free)| ==> rc == -1 && ram.free == []
  {
    frames := [];
    for pgit := 0 to reqPgnum
      invariant pgit <= |old(ram.free)|
      invariant frames == Popped(old(ram.free), pgit) && ram.free == old(ram.free)[pgit..]
    {
      var got, fpn := ram.GetFreeFp();
      if got == 0 {
        frames := [fpn] + frames;
      } else {
        return -1, frames;
      }
    }
    rc := 0;
  }

  /** vmap_page_range. */
  method VmapPageRange(mm: MmStruct, addr: Word, pgnum: nat, frames: seq<Word>) returns (rc: int, mapped: Rg)
    requires mm.Valid()
    requires Pgn(addr) + (if pgnum <= |frames| then pgnum else |frames|) <= MAX_PGN
    modifies mm.pgd, mm.fifo
    ensures mm.Valid()
    ensures (mm.View(), rc) == MapRange(old(mm.View()), addr, pgnum, frames)
    ensures mapped == Rg(addr, addr + (if rc == 0 then pgnum else |frames|) * PAGESZ)
  {
    hide Pgn, PteSetFpn;
    var pgn := Pgn(addr);
    mapped := Rg(addr, addr + pgnum * PAGESZ);
    ghost var was := mm.pgd[..];
    for i := 0 to pgnum
      invariant i <= |frames|
      invariant mm.pgd[..] == MapPages(was, pgn, frames[..i])
      modifies mm.pgd
    {
      if i == |frames| {
        assert frames[..i] == frames;
        mapped := mapped.(end := mapped.start + i * PAGESZ);
        return -1, mapped;
      }
      mm.pgd[pgn + i] := PteSetFpn(mm.pgd[pgn + i], frames[i]);
    }
    mm.fifo.Enlist(pgn + pgnum);
    rc := 0;
  }

  /** vm_map_ram. */
  method VmMapRam(mm: MmStruct, ram: MemPhy, mapstart: Word, incpgnum: nat) returns (rc: int, mapped: Rg)
    requires mm.Valid() && ram.Valid()
    requires incpgnum <= |ram.free| ==> Pgn(mapstart) + incpgnum <= MAX_PGN
    modifies mm.pgd, mm.fifo, ram`free
    ensures mm.Valid() && ram.Valid()
    ensures (mm.View(), ram.View(), rc) == MapRam(old(mm.View()), old(ram.View()), mapstart, incpgnum)
    ensures rc == 0 ==> mapped == Rg(mapstart, mapstart + incpgnum * PAGESZ)
  {
    mapped := Rg(mapstart, mapstart);
    var got, frames := AllocPagesRange(ram, incpgnum);
    if got < 0 {
      return -1, mapped;
    }
    var ignored;
    ignored, mapped := VmapPageRange(mm, mapstart, incpgnum, frames);
    assert frames[..incpgnum] == frames;
    rc := 0;
  }
}
