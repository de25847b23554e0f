/** Who owns the frames of the one RAM all processes share: page tables and the free list. */
module FrameOwnership {
  import opened Wrappers
  import opened Bits
  import opened Paging
  import opened PhysMemory
  import opened AddressSpace

  /** The pages below the break of the first area. */
  function Pages(mm: Mm): nat {
    if mm.vmas == [] then 0 else mm.vmas[0].sbrk / PAGESZ
  }

  function Frame(mm: Mm, g: nat): Word
    requires g < |mm.pgd|
  {
    PteFpn(mm.pgd[g])
  }

  ghost predicate Maps(procs: seq<Mm>, p: nat, g: nat, f: nat) {
    p < |procs| && g < Pages(procs[p]) && g < |procs[p].pgd| && Frame(procs[p], g) == f
  }

  ghost predicate Tables(procs: seq<Mm>, n: nat) {
    forall p :: 0 <= p < |procs| ==>
      && procs[p].Sized() && Pages(procs[p]) <= MAX_PGN
      && forall g :: 0 <= g < Pages(procs[p]) ==> Present(procs[p].pgd[g]) && Frame(procs[p], g) < n
  }

  ghost predicate HasOwner(free: seq<Word>, procs: seq<Mm>, f: nat) {
    f in free || exists p, g :: Maps(procs, p, g, f)
  }

  ghost predicate Distinct(free: seq<Word>) {
    forall i, j :: 0 <= i < j < |free| ==> free[i] != free[j]
  }

  /** The frames of the pages below each break and the free list are pairwise distinct, and
      together they are exactly the frames of the device. */
  ghost predicate Owned(ram: Ram, procs: seq<Mm>) {
    && ram.Frames() <= MAX_FPN
    && Tables(procs, ram.Frames())
    && Distinct(ram.free)
    && (forall p, g, p', g', f :: Maps(procs, p, g, f) && Maps(procs, p', g', f) ==> p == p' && g == g')
    && (forall i, p, g :: 0 <= i < |ram.free| ==> !Maps(procs, p, g, ram.free[i]))
    && (forall f: nat :: f < ram.Frames() <==> HasOwner(ram.free, procs, f))
  }

  // ---------------------------------------------------------------- room

  lemma {:induction false} DistinctBelow(s: seq<nat>, n: nat)
    requires forall i, j :: 0 <= i < j < |s| ==> s[i] != s[j]
    requires forall i :: 0 <= i < |s| ==> s[i] < n
    ensures |s| <= n
  {
    if s != [] {
      var x := s[0];
      if n == 0 {
        assert false;
      } else if n - 1 in s {
        var i :| 0 <= i < |s| && s[i] == n - 1;
        DistinctBelow(s[..i] + s[i + 1..], n - 1);
      } else {
        DistinctBelow(s, n - 1);
      }
    }
  }

  /** The pages of one process and the free frames never exceed the frames of the device. */
  lemma RoomForPages(ram: Ram, procs: seq<Mm>, p: nat)
    requires Owned(ram, procs) && p < |procs|
    ensures Pages(procs[p]) + |ram.free| <= ram.Frames()
  {
    var mm := procs[p];
    var s: seq<nat> := seq(Pages(mm), g requires 0 <= g < Pages(mm) => Frame(mm, g))
                       + seq(|ram.free|, i requires 0 <= i < |ram.free| => ram.free[i]);
    forall i, j | 0 <= i < j < |s| ensures s[i] != s[j] {
      if j < Pages(mm) {
        assert Maps(procs, p, i, s[i]) && Maps(procs, p, j, s[j]);
      } else if i < Pages(mm) {
        assert Maps(procs, p, i, s[i]);
        assert !Maps(procs, p, i, ram.free[j - Pages(mm)]);
      }
    }
    forall i | 0 <= i < |s| ensures s[i] < ram.Frames() {
      if i >= Pages(mm) { assert HasOwner(ram.free, procs, ram.free[i - Pages(mm)]); }
    }
    DistinctBelow(s, ram.Frames());
  }

  // ---------------------------------------------------------------- steps

  /** Mapping the first k free frames, last popped first, above the pages of process p. */
  ghost predicate Grows(ram: Ram, procs: seq<Mm>, p: nat, mm: Mm, k: nat) {
    && p < |procs| && k <= |ram.free|
    && mm.Sized() && Pages(mm) == Pages(procs[p]) + k <= MAX_PGN
    && (forall g :: 0 <= g < Pages(procs[p]) && g < |procs[p].pgd| ==> mm.pgd[g] == procs[p].pgd[g])
    && (forall g :: Pages(procs[p]) <= g < Pages(mm) ==>
          Present(mm.pgd[g]) && Frame(mm, g) == ram.free[k - 1 - (g - Pages(procs[p]))])
  }

  /** Each page of the grown tables is an old one or holds its popped frame. */
  lemma GrownMaps(ram: Ram, procs: seq<Mm>, p: nat, mm: Mm, k: nat, q: nat, g: nat, f: nat)
    requires Tables(procs, ram.Frames()) && Grows(ram, procs, p, mm, k)
    ensures var b := Pages(procs[p]);
            Maps(procs[p := mm], q, g, f) <==>
              if q == p && g >= b then g < b + k && f == ram.free[k - 1 - (g - b)] else Maps(procs, q, g, f)
  {
  }

  lemma GrownTables(ram: Ram, procs: seq<Mm>, p: nat, mm: Mm, k: nat)
    requires Owned(ram, procs) && Grows(ram, procs, p, mm, k)
    ensures Tables(procs[p := mm], ram.Frames())
  {
    hide Present, PteFpn;
    assert forall i :: 0 <= i < |ram.free| ==> HasOwner(ram.free, procs, ram.free[i]);
  }

  lemma BelowPages(procs: seq<Mm>, q: nat, g: nat, f: nat)
    requires Maps(procs, q, g, f)
    ensures q < |procs| && g < Pages(procs[q])
  {
  }

  lemma GrownCoverage(ram: Ram, procs: seq<Mm>, procs': seq<Mm>, p: nat, mm: Mm, k: nat, f: nat)
    requires Tables(procs, ram.Frames()) && Grows(ram, procs, p, mm, k) && procs' == procs[p := mm]
    ensures HasOwner(ram.free, procs, f) <==> HasOwner(ram.free[k..], procs', f)
  {
    hide Maps;
    var b, free' := Pages(procs[p]), ram.free[k..];
    if q: nat, g: nat :| Maps(procs, q, g, f) {
      BelowPages(procs, q, g, f);
      GrownMaps(ram, procs, p, mm, k, q, g, f);
    } else if i :| 0 <= i < k && ram.free[i] == f {
      GrownMaps(ram, procs, p, mm, k, p, b + (k - 1 - i), f);
    } else if i :| k <= i < |ram.free| && ram.free[i] == f {
      assert free'[i - k] == f;
    } else if q: nat, g: nat :| Maps(procs', q, g, f) {
      GrownMaps(ram, procs, p, mm, k, q, g, f);
    }
  }

  lemma OwnedGrow(ram: Ram, procs: seq<Mm>, p: nat, mm: Mm, k: nat)
    requires Owned(ram, procs) && Grows(ram, procs, p, mm, k)
    ensures Owned(ram.(free := ram.free[k..]), procs[p := mm])
  {
    hide Maps, Present, PteFpn;
    var b := Pages(procs[p]);
    var ram', procs' := ram.(free := ram.free[k..]), procs[p := mm];
    GrownTables(ram, procs, p, mm, k);
    forall i, q: nat, g: nat | 0 <= i < |ram'.free| ensures !Maps(procs', q, g, ram'.free[i]) {
      GrownMaps(ram, procs, p, mm, k, q, g, ram'.free[i]);
      assert ram'.free[i] == ram.free[k + i];
      if q == p && b <= g < b + k {
        assert ram.free[k - 1 - (g - b)] != ram.free[k + i];
      } else {
        assert !Maps(procs, q, g, ram.free[k + i]);
      }
    }
    forall q: nat, g: nat, q': nat, g': nat, f: nat | Maps(procs', q, g, f) && Maps(procs', q', g', f)
      ensures q == q' && g == g'
    {
      GrownMaps(ram, procs, p, mm, k, q, g, f);
      GrownMaps(ram, procs, p, mm, k, q', g', f);
    }
    forall f: nat
      ensures f < ram.Frames() <==> HasOwner(ram'.free, procs', f)
    {
      GrownCoverage(ram, procs, procs', p, mm, k, f);
    }
  }

  lemma OwnedSameSize(ram: Ram, ram': Ram, procs: seq<Mm>)
    requires Owned(ram, procs) && ram'.free == ram.free && |ram'.storage| == |ram.storage|
    ensures Owned(ram', procs)
  {
  }

  /** A step that changes neither the pages of process p nor their entries. */
  lemma OwnedSame(ram: Ram, ram': Ram, procs: seq<Mm>, p: nat, mm: Mm)
    requires Owned(ram, procs) && p < |procs|
    requires ram'.free == ram.free && |ram'.storage| == |ram.storage|
    requires mm.Sized() && Pages(mm) == Pages(procs[p]) && mm.pgd == procs[p].pgd
    ensures Owned(ram', procs[p := mm])
  {
    OwnedGrow(ram, procs, p, mm, 0);
    assert ram.free[0..] == ram.free;
    OwnedSameSize(ram, ram', procs[p := mm]);
  }

  lemma OwnedSpawn(ram: Ram, procs: seq<Mm>, mm: Mm)
    requires Owned(ram, procs) && mm.Sized() && Pages(mm) == 0
    ensures Owned(ram, procs + [mm])
  {
    var procs' := procs + [mm];
    assert forall p, g, f :: Maps(procs', p, g, f) <==> Maps(procs, p, g, f);
    assert forall f :: HasOwner(ram.free, procs', f) <==> HasOwner(ram.free, procs, f);
  }

  /** A freshly formatted device with no process owns all its frames. */
  lemma OwnedInitially(ram: Ram)
    requires ram.Frames() <= MAX_FPN && ram.free == UpTo(ram.Frames())
    ensures Owned(ram, [])
  {
    forall f: nat | f < ram.Frames() ensures HasOwner(ram.free, [], f) { assert ram.free[f] == f; }
  }
}
