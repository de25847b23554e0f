/** The physical memory device of src/mm-memphy.c (random access), with its free frame list,
    and the page copy of src/mm.c. */
module PhysMemory {
  import opened Wrappers
  import opened Bits
  import opened Paging

  // BYTE is a signed char.
  type Byte = x: int | -128 <= x < 128

  /** The content of a device: its cells and its list of free frames, head first. */
  datatype Ram = Ram(storage: seq<Byte>, free: seq<Word>) {
    function Frames(): nat {
      |storage| / PAGESZ
    }
  }

  /** Page `dst` of `into` replaced by page `src` of `from`. */
  function CopyPage(from: seq<Byte>, src: nat, into: seq<Byte>, dst: nat): (r: seq<Byte>)
    requires (src + 1) * PAGESZ <= |from| && (dst + 1) * PAGESZ <= |into|
    ensures |r| == |into|
  {
    into[..dst * PAGESZ] + from[src * PAGESZ..(src + 1) * PAGESZ] + into[(dst + 1) * PAGESZ..]
  }

  /** A page copied out to a swap frame and back is restored, whatever its RAM frame was reused for in
      between, provided the other frames of the RAM and the swap frame were left alone. */
  lemma CopyOutAndBack(ram: seq<Byte>, fpn: nat, swap: seq<Byte>, swpfpn: nat)
    requires (fpn + 1) * PAGESZ <= |ram| && (swpfpn + 1) * PAGESZ <= |swap|
    ensures forall reused: seq<Byte> ::
              |reused| == |ram|
              && reused[..fpn * PAGESZ] == ram[..fpn * PAGESZ]
              && reused[(fpn + 1) * PAGESZ..] == ram[(fpn + 1) * PAGESZ..]
              ==> CopyPage(CopyPage(ram, fpn, swap, swpfpn), swpfpn, reused, fpn) == ram
  {
    forall reused: seq<Byte> |
      |reused| == |ram|
      && reused[..fpn * PAGESZ] == ram[..fpn * PAGESZ]
      && reused[(fpn + 1) * PAGESZ..] == ram[(fpn + 1) * PAGESZ..]
      ensures CopyPage(CopyPage(ram, fpn, swap, swpfpn), swpfpn, reused, fpn) == ram
    {
      var out := CopyPage(ram, fpn, swap, swpfpn);
      assert out[swpfpn * PAGESZ..(swpfpn + 1) * PAGESZ] == ram[fpn * PAGESZ..(fpn + 1) * PAGESZ];
      assert ram == ram[..fpn * PAGESZ] + ram[fpn * PAGESZ..(fpn + 1) * PAGESZ] + ram[(fpn + 1) * PAGESZ..];
    }
  }

  lemma CopyPageAt(from: seq<Byte>, src: nat, into: seq<Byte>, dst: nat, r: seq<Byte>)
    requires (src + 1) * PAGESZ <= |from| && (dst + 1) * PAGESZ <= |into| && |r| == |into|
    requires forall k :: 0 <= k < |r| ==>
               r[k] == if dst * PAGESZ <= k < dst * PAGESZ + PAGESZ
                       then from[src * PAGESZ + (k - dst * PAGESZ)] else into[k]
    ensures r == CopyPage(from, src, into, dst)
  {
  }

  lemma PagesApart(a: nat, b: nat, c: nat)
    requires c < PAGESZ
    ensures a * PAGESZ <= b * PAGESZ + c < a * PAGESZ + PAGESZ ==> a == b
  {
  }

  class MemPhy {
    const maxsz: Word
    const storage: array<Byte>
    var free: seq<Word>

    ghost predicate Valid() {
      storage.Length == maxsz
    }

    ghost function View(): Ram
      reads this, storage
    {
      Ram(storage[..], free)
    }

    /** MEMPHY_format. */
    method Format(pagesz: Word) returns (rc: int)
      requires Valid() && pagesz > 0 && maxsz / pagesz != 1
      modifies this`free
      ensures rc == if maxsz / pagesz == 0 then -1 else 0
      ensures free == if rc == 0 then UpTo(maxsz / pagesz) else old(free)
    {
      var numfp := maxsz / pagesz;
      if numfp <= 0 {
        return -1;
      }
      free := [0];
      for iter := 1 to numfp
        invariant free == UpTo(iter)
      {
        free := free + [iter];
      }
      rc := 0;
    }

    /** init_memphy for a random access device. Below two frames the source leaves the head of the
        free list or the link of its only node unset, so those sizes are excluded. */
    constructor (maxSize: Word)
      requires maxSize / PAGESZ >= 2
      ensures Valid() && maxsz == maxSize && fresh(storage)
      ensures View() == Ram(seq(maxSize, _ => 0), UpTo(maxSize / 256))
      ensures View().free == UpTo(View().Frames())
    {
      maxsz := maxSize;
      storage := new Byte[maxSize](i => 0);
      free := [];
      new;
      var rc := Format(PAGESZ);
    }

    /** MEMPHY_get_freefp. */
    method GetFreeFp() returns (rc: int, fpn: Word)
      requires Valid()
      modifies this`free
      ensures rc == if old(free) == [] then -1 else 0
      ensures rc == 0 ==> [fpn] + free == old(free)
      ensures rc != 0 ==> free == old(free)
    {
      if |free| == 0 {
        return -1, 0;
      }
      fpn := free[0];
      free := free[1..];
      rc := 0;
    }

    /** MEMPHY_put_freefp. */
    method PutFreeFp(fpn: Word) returns (rc: int)
      requires Valid()
      modifies this`free
      ensures rc == 0 && free == [fpn] + old(free)
    {
      free := [fpn] + free;
      rc := 0;
    }

    /** MEMPHY_read. */
    method Read(addr: nat) returns (value: Byte)
      requires Valid() && addr < maxsz
      ensures value == View().storage[addr]
    {
      value := storage[addr];
    }

    /** MEMPHY_write. */
    method Write(addr: nat, data: Byte)
      requires Valid() && addr < maxsz
      modifies storage
      ensures View() == Ram(old(View()).storage[addr := data], free)
    {
      storage[addr] := data;
    }
  }

  /** __swap_cp_page, also when both frames are on one device. */
  method SwapCpPage(src: MemPhy, srcfpn: nat, dst: MemPhy, dstfpn: nat)
    requires src.Valid() && dst.Valid()
    requires (srcfpn + 1) * PAGESZ <= src.maxsz && (dstfpn + 1) * PAGESZ <= dst.maxsz
    modifies dst.storage
    ensures dst.storage[..] == CopyPage(old(src.storage[..]), srcfpn, old(dst.storage[..]), dstfpn)
  {
    var s, d := srcfpn * PAGESZ, dstfpn * PAGESZ;
    ghost var from, into := src.storage[..], dst.storage[..];
    for cellidx := 0 to PAGESZ
      invariant forall k :: 0 <= k < dst.maxsz ==>
                  dst.storage[k] == if d <= k < d + cellidx then from[s + (k - d)] else into[k]
      invariant src.storage != dst.storage ==> src.storage[..] == from
      invariant src.storage == dst.storage ==> forall k :: s <= k < s + PAGESZ ==> src.storage[k] == from[k]
    {
      var data := src.Read(s + cellidx);
      dst.Write(d + cellidx, data);
      PagesApart(srcfpn, dstfpn, cellidx);
    }
    CopyPageAt(from, srcfpn, into, dstfpn, dst.storage[..]);
  }
}
