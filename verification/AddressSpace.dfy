/** The memory description of one process (include/os-mm.h, init_mm of src/mm.c): the structure
    the functions update in place and its value. */
module AddressSpace {
  import opened Bits
  import opened Paging
  import opened PageFifo

  const MAX_SYMTBL_SZ: nat := 30

  /** struct vm_rg_struct, without its link: bytes start .. end-1. */
  datatype Rg = Rg(start: nat, end: nat)

  /** struct vm_area_struct; the free region list head first. */
  datatype Vma = Vma(id: nat, start: nat, end: nat, sbrk: nat, freeRgs: seq<Rg>)

  /** The value of struct mm_struct; areas and page list head first. */
  datatype Mm = Mm(pgd: seq<Word>, vmas: seq<Vma>, sym: seq<Rg>, fifo: seq<int>) {
    predicate Sized() {
      |pgd| == MAX_PGN && |sym| == MAX_SYMTBL_SZ
    }
  }

  function InitialVma(): Vma {
    Vma(0, 0, 0, 0, [Rg(0, 0)])
  }

  class MmStruct {
    const pgd: array<Word>
    const sym: array<Rg>
    const fifo: PgnList
    var vmas: seq<Vma>

    ghost predicate Valid()
      reads this, fifo, fifo.nodes
    {
      pgd.Length == MAX_PGN && sym.Length == MAX_SYMTBL_SZ && fifo.Valid()
    }

    ghost function View(): Mm
      reads this, pgd, sym, fifo
    {
      Mm(pgd[..], vmas, sym[..], fifo.Contents())
    }

    /** init_mm. The page table and the symbol table come uninitialised; the page list, which the
        source also leaves uninitialised, is taken to be empty. */
    constructor ()
      ensures Valid() && fresh(pgd) && fresh(sym) && fresh(fifo)
      ensures View().Sized() && View().vmas == [Vma(0, 0, 0, 0, [Rg(0, 0)])] && View().fifo == []
    {
      pgd := new Word[MAX_PGN];
      sym := new Rg[MAX_SYMTBL_SZ];
      fifo := new PgnList();
      vmas := [Vma(0, 0, 0, 0, [Rg(0, 0)])];
    }
  }
}
