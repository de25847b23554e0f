/** The multi-level queue policy of src/sched.c on values: the choice of a level, and how long a
    level or a process can wait. The step is the locked section of get_mlq_proc. */
module MlqPolicy {
  const MAX_PRIO: nat := 140

  // The sum of the quotas of all levels.
  const ROUND: nat := 9870

  /** slot[p]: how many times in a row level p may be served. */
  function Quota(p: nat): nat
    requires p < MAX_PRIO
  {
    MAX_PRIO - p
  }

  /** curr_prio and curr_slot. */
  datatype Cursor = Cursor(prio: nat, slots: nat) {
    predicate Valid() {
      prio < MAX_PRIO && slots <= Quota(prio)
    }
  }

  /** The levels in use at a call: up[p] says that queue p is not empty. */
  type Levels = up: seq<bool> | |up| == MAX_PRIO witness seq(MAX_PRIO, _ => false)

  /** The level `off` places after p, going round. */
  function Ahead(p: nat, off: nat): (l: nat)
    requires p < MAX_PRIO && off <= MAX_PRIO
    ensures l == if p + off < 140 then p + off else p + off - 140
  {
    (p + off) % MAX_PRIO
  }

  /** The first offset from `off` on whose level is in use, or 140. */
  function NextInUse(prio: nat, up: Levels, off: nat): (r: nat)
    requires prio < MAX_PRIO && off <= MAX_PRIO
    ensures off <= r <= MAX_PRIO
    ensures forall o :: off <= o < r ==> !up[Ahead(prio, o)]
    ensures r < MAX_PRIO ==> up[Ahead(prio, r)]
    decreases MAX_PRIO - off
  {
    if off == MAX_PRIO || up[Ahead(prio, off)] then off else NextInUse(prio, up, off + 1)
  }

  lemma NextInUseIs(prio: nat, up: Levels, r: nat)
    requires prio < MAX_PRIO && 1 <= r <= MAX_PRIO
    requires forall o :: 1 <= o < r ==> !up[Ahead(prio, o)]
    requires r < MAX_PRIO ==> up[Ahead(prio, r)]
    ensures NextInUse(prio, up, 1) == r
  {
  }

  /** The new cursor and the level dequeued from. */
  function Choose(c: Cursor, up: Levels): (r: (Cursor, nat))
    requires c.Valid()
    ensures r.0.Valid() && r.1 < MAX_PRIO && r.0.prio == r.1
  {
    if c.slots > 0 && up[c.prio] then (c.(slots := c.slots - 1), c.prio)
    else
      var off := NextInUse(c.prio, up, 1);
      var p := if off < MAX_PRIO then Ahead(c.prio, off) else 0;
      (Cursor(p, Quota(p) - 1), p)
  }

  /** How many levels ahead of p level q is, going round; 140 for the level itself. */
  function Steps(p: nat, q: nat): (d: nat)
    requires p < MAX_PRIO && q < MAX_PRIO
    ensures 1 <= d <= MAX_PRIO && Ahead(p, d) == q
  {
    if p < q then q - p else q + MAX_PRIO - p
  }

  /** The level dequeued from is in use unless the current level is the only one that can be, has
      no slots left (or is empty too) and level 0 is empty. */
  lemma ChosenInUse(c: Cursor, up: Levels)
    requires c.Valid()
    ensures !up[Choose(c, up).1] <==>
              !up[0] && (c.slots == 0 || !up[c.prio]) && forall p :: 0 <= p < MAX_PRIO && p != c.prio ==> !up[p]
  {
    var off := NextInUse(c.prio, up, 1);
    if !(c.slots > 0 && up[c.prio]) {
      forall p | 0 <= p < MAX_PRIO && p != c.prio && off == MAX_PRIO ensures !up[p] {
        var o := Steps(c.prio, p);
        assert Ahead(c.prio, o) == p;
      }
    }
  }

  /** A call that comes back empty although some level is in use leaves the cursor at level 0 with
      slots, so that the next call, whatever happened to the queues, serves a level in use. */
  lemma NeverTwoEmptyCalls(c: Cursor, up: Levels, up': Levels)
    requires c.Valid() && !up[Choose(c, up).1]
    requires exists p :: 0 <= p < MAX_PRIO && up'[p]
    ensures up'[Choose(Choose(c, up).0, up').1]
  {
    ChosenInUse(c, up);
    ChosenInUse(Choose(c, up).0, up');
  }

  // ---------------------------------------------------------------- cyclic distance

  /** The quotas of the d levels that follow p. */
  function QuotasAfter(p: nat, d: nat): nat
    requires p < MAX_PRIO && d <= MAX_PRIO
    decreases d
  {
    if d == 0 then 0 else QuotasAfter(p, d - 1) + Quota(Ahead(p, d))
  }

  lemma {:induction false} QuotasSplit(p: nat, d: nat, e: nat)
    requires p < MAX_PRIO && d + e <= MAX_PRIO
    ensures QuotasAfter(p, d + e) == QuotasAfter(p, d) + QuotasAfter(Ahead(p, d), e)
    decreases e
  {
    if e > 0 {
      QuotasSplit(p, d, e - 1);
      assert Ahead(Ahead(p, d), e) == Ahead(p, d + e);
    }
  }

  lemma {:induction false} QuotasFromTop(d: nat)
    requires d <= MAX_PRIO
    ensures 2 * QuotasAfter(MAX_PRIO - 1, d) == d * (2 * MAX_PRIO + 1 - d)
  {
    if d > 0 {
      QuotasFromTop(d - 1);
      assert Ahead(MAX_PRIO - 1, d) == d - 1;
      assert d * (2 * MAX_PRIO + 1 - d) == (d - 1) * (2 * MAX_PRIO + 1 - (d - 1)) + 2 * (MAX_PRIO - (d - 1));
    }
  }

  /** Once round, from any level, is 9870 slots. */
  lemma FullRound(p: nat)
    requires p < MAX_PRIO
    ensures QuotasAfter(p, MAX_PRIO) == ROUND
  {
    hide QuotasAfter;
    QuotasFromTop(MAX_PRIO);
    var d := p + 1;
    QuotasSplit(MAX_PRIO - 1, d, MAX_PRIO - d);
    QuotasSplit(p, MAX_PRIO - d, d);
  }

  // ---------------------------------------------------------------- bounded waiting

  /** An upper bound on the calls until level q is served: the slots left at the cursor, the quotas
      of the levels strictly between the cursor and q, and the call that serves it. */
  function Rank(c: Cursor, q: nat): nat
    requires c.Valid() && q < MAX_PRIO
  {
    if c.prio == q && c.slots > 0 then 1 else c.slots + QuotasAfter(c.prio, Steps(c.prio, q) - 1) + 1
  }

  lemma QuotasStep(p: nat, d: nat)
    requires p < MAX_PRIO && 1 <= d <= MAX_PRIO
    ensures QuotasAfter(p, d) == QuotasAfter(p, d - 1) + Quota(Ahead(p, d))
  {
  }

  lemma RankBound(c: Cursor, q: nat)
    requires c.Valid() && q < MAX_PRIO
    ensures 1 <= Rank(c, q) <= ROUND + 1 - Quota(q)
  {
    hide QuotasAfter;
    FullRound(q);
    var d := Steps(c.prio, q);
    var e := MAX_PRIO - d;
    QuotasStep(c.prio, d);
    if c.prio != q {
      QuotasSplit(q, e, d);
      QuotasStep(q, e);
    }
  }

  /** Jumping to a level before q, out of those that follow the cursor, lowers the rank. */
  lemma JumpLowersRank(c: Cursor, q: nat, off: nat)
    requires c.Valid() && q < MAX_PRIO && 1 <= off < Steps(c.prio, q)
    requires c.prio == q ==> c.slots == 0
    ensures var p := Ahead(c.prio, off);
            p != q && Rank(Cursor(p, Quota(p) - 1), q) < Rank(c, q)
  {
    hide QuotasAfter;
    var d, p := Steps(c.prio, q), Ahead(c.prio, off);
    assert p != q && Steps(p, q) == d - off;
    QuotasSplit(c.prio, off, d - off - 1);
    QuotasStep(c.prio, off);
  }

  /** A call made while level q is in use serves q or brings it closer. */
  lemma ServedOrCloser(c: Cursor, up: Levels, q: nat)
    requires c.Valid() && q < MAX_PRIO && up[q]
    ensures var (c', p) := Choose(c, up);
            p == q || Rank(c', q) < Rank(c, q)
  {
    hide QuotasAfter;
    if c.slots > 0 && up[c.prio] {
      if c.prio != q { assert Rank(Choose(c, up).0, q) < Rank(c, q); }
    } else {
      var off, d := NextInUse(c.prio, up, 1), Steps(c.prio, q);
      assert Ahead(c.prio, d) == q;
      if off < d {
        JumpLowersRank(c, q, off);
      } else if off == MAX_PRIO && q != 0 {
        assert c.prio == q && c.slots == 0;
        JumpLowersRank(c, q, MAX_PRIO - q);
        assert Ahead(q, MAX_PRIO - q) == 0;
      }
    }
  }

  /** The levels served by successive calls; ups[i] is what call i finds, after anything that
      happened to the queues in between. */
  function Served(c: Cursor, ups: seq<Levels>): (levels: seq<nat>)
    requires c.Valid()
    ensures |levels| == |ups|
    decreases |ups|
  {
    if ups == [] then []
    else [Choose(c, ups[0]).1] + Served(Choose(c, ups[0]).0, ups[1..])
  }

  lemma {:induction false} ServedWithinRank(c: Cursor, ups: seq<Levels>, q: nat)
    requires c.Valid() && q < MAX_PRIO
    requires forall i :: 0 <= i < |ups| ==> ups[i][q]
    requires |ups| >= Rank(c, q)
    ensures q in Served(c, ups)[..Rank(c, q)]
    decreases |ups|
  {
    RankBound(c, q);
    ServedOrCloser(c, ups[0], q);
    var (c', p) := Choose(c, ups[0]);
    if p != q {
      RankBound(c', q);
      ServedWithinRank(c', ups[1..], q);
      var i :| 0 <= i < Rank(c', q) && Served(c', ups[1..])[i] == q;
      assert Served(c, ups)[i + 1] == q;
    } else {
      assert Served(c, ups)[0] == q;
    }
  }

  /** Bounded waiting: from any cursor, while level q stays in use, one of the next
      9870 + 1 - Quota(q) calls serves it, whatever is added, put back or removed in between. */
  lemma BoundedWaiting(c: Cursor, ups: seq<Levels>, q: nat)
    requires c.Valid() && q < MAX_PRIO
    requires forall i :: 0 <= i < |ups| ==> ups[i][q]
    requires |ups| >= ROUND + 1 - Quota(q)
    ensures q in Served(c, ups)[..ROUND + 1 - Quota(q)]
  {
    RankBound(c, q);
    ServedWithinRank(c, ups, q);
    var i :| 0 <= i < Rank(c, q) && Served(c, ups)[i] == q;
    assert Served(c, ups)[..ROUND + 1 - Quota(q)][i] == q;
  }

  ghost predicate AllInUse(up: Levels) {
    forall p :: 0 <= p < MAX_PRIO ==> up[p]
  }

  lemma NoQuotas(p: nat)
    requires p < MAX_PRIO
    ensures QuotasAfter(p, 0) == 0
  {
  }

  /** The bound is exact: while every level stays in use, level q is first served by call number
      Rank(c, q). */
  lemma {:induction false} RankIsExact(c: Cursor, ups: seq<Levels>, q: nat)
    requires c.Valid() && q < MAX_PRIO && |ups| >= Rank(c, q)
    requires forall i :: 0 <= i < |ups| ==> AllInUse(ups[i])
    ensures 1 <= Rank(c, q) && Served(c, ups)[Rank(c, q) - 1] == q && q !in Served(c, ups)[..Rank(c, q) - 1]
    decreases |ups|
  {
    hide QuotasAfter;
    RankBound(c, q);
    assert AllInUse(ups[0]);
    var (c', p) := Choose(c, ups[0]);
    var d := Steps(c.prio, q);
    if c.slots == 0 && d > 1 {
      QuotasSplit(c.prio, 1, d - 2);
      QuotasStep(c.prio, 1);
      NoQuotas(c.prio);
    }
    if c.slots == 0 && d == 1 { NoQuotas(c.prio); }
    if p != q {
      assert Rank(c', q) == Rank(c, q) - 1;
      RankIsExact(c', ups[1..], q);
      assert Served(c, ups) == [p] + Served(c', ups[1..]);
    }
  }

  ghost predicate AnotherInUse(up: Levels, p: nat) {
    exists q :: 0 <= q < MAX_PRIO && q != p && up[q]
  }

  /** When its slots are spent or its queue is empty, the current level is left for another in use. */
  lemma LeavesSpentLevel(c: Cursor, up: Levels)
    requires c.Valid() && !(c.slots > 0 && up[c.prio]) && AnotherInUse(up, c.prio)
    ensures Choose(c, up).1 != c.prio && up[Choose(c, up).1]
  {
    var q :| 0 <= q < MAX_PRIO && q != c.prio && up[q];
    assert Ahead(c.prio, Steps(c.prio, q)) == q;
  }

  /** Quota: while at each call another level is in use, level p is not chosen more than Quota(p)
      times in a row. */
  lemma {:induction false} QuotaKept(c: Cursor, ups: seq<Levels>, p: nat)
    requires c.Valid() && p < MAX_PRIO
    requires forall i :: 0 <= i < |ups| ==> AnotherInUse(ups[i], p)
    requires forall i :: 0 <= i < |ups| ==> Served(c, ups)[i] == p
    ensures |ups| <= if c.prio == p then c.slots else Quota(p)
    decreases |ups|
  {
    if ups != [] {
      var c' := Choose(c, ups[0]).0;
      assert Served(c, ups)[0] == p;
      if c.prio == p && !(c.slots > 0 && ups[0][p]) {
        LeavesSpentLevel(c, ups[0]);
      } else {
        assert forall i :: 0 <= i < |ups| - 1 ==> Served(c', ups[1..])[i] == Served(c, ups)[i + 1];
        QuotaKept(c', ups[1..], p);
      }
    }
  }

  /** A level that stays in use is served in a row as often as it has slots left. */
  lemma {:induction false} SlotsServed(c: Cursor, ups: seq<Levels>)
    requires c.Valid() && |ups| <= c.slots
    requires forall i :: 0 <= i < |ups| ==> ups[i][c.prio]
    ensures forall i :: 0 <= i < |ups| ==> Served(c, ups)[i] == c.prio
    decreases |ups|
  {
    if ups != [] {
      SlotsServed(Choose(c, ups[0]).0, ups[1..]);
      assert Served(c, ups) == [c.prio] + Served(Choose(c, ups[0]).0, ups[1..]);
    }
  }

  /** Quota, the other way: a call that moves the cursor, also by the fallback to level 0, leaves its
      level p with 139 - p slots. The next 139 - p calls all serve p while it stays in use; call 140 - p
      serves another level if one is in use by then. */
  lemma ArrivalGivesQuota(c: Cursor, up: Levels, ups: seq<Levels>)
    requires c.Valid() && !(c.slots > 0 && up[c.prio])
    ensures var (c', p) := Choose(c, up);
            && p <= 139 && c'.prio == p
            && (|ups| <= 139 - p && (forall i :: 0 <= i < |ups| ==> ups[i][p]) ==>
                  forall i :: 0 <= i < |ups| ==> Served(c', ups)[i] == p)
            && (|ups| == 140 - p && (forall i :: 0 <= i < |ups| ==> ups[i][p] && AnotherInUse(ups[i], p)) ==>
                  exists i :: 0 <= i < |ups| && Served(c', ups)[i] != p)
  {
    var (c', p) := Choose(c, up);
    if |ups| <= 139 - p && forall i :: 0 <= i < |ups| ==> ups[i][p] { SlotsServed(c', ups); }
    if |ups| == 140 - p && (forall i :: 0 <= i < |ups| ==> AnotherInUse(ups[i], p))
       && forall i :: 0 <= i < |ups| ==> Served(c', ups)[i] == p {
      QuotaKept(c', ups, p);
      assert false;
    }
  }

  /** The level taken next is the first in use after the cursor, going round. */
  lemma NextLevelFirst(c: Cursor, up: Levels, d: nat)
    requires c.Valid() && !(c.slots > 0 && up[c.prio]) && 1 <= d < MAX_PRIO
    requires up[Ahead(c.prio, d)] && forall o :: 1 <= o < d ==> !up[Ahead(c.prio, o)]
    ensures Choose(c, up).1 == Ahead(c.prio, d)
  {
    NextInUseIs(c.prio, up, d);
    hide NextInUse, Ahead;
  }
}
