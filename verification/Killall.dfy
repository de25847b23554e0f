/** The queue passes of src/sys_killall.c: each queue is drained through a temporary one, the
    processes whose name matches are dropped, and the rest is put back. `kill` is the comparison of
    a process with the name. */
module Killall {
  import opened Wrappers
  import opened ReadyQueue
  import opened MlqPolicy
  import opened MlqScheduler

  // ---------------------------------------------------------------- filter and stable sort

  /** The processes that stay, in their order. */
  function Kept(q: seq<Pcb>, kill: Pcb -> bool): seq<Pcb> {
    if q == [] then [] else (if kill(q[0]) then [] else [q[0]]) + Kept(q[1..], kill)
  }

  function Matches(q: seq<Pcb>, kill: Pcb -> bool): nat {
    if q == [] then 0 else (if kill(q[0]) then 1 else 0) + Matches(q[1..], kill)
  }

  ghost predicate Sorted(q: seq<Pcb>) {
    forall i, j :: 0 <= i < j < |q| ==> q[i].prio <= q[j].prio
  }

  /** r is q sorted by prio, processes of equal prio in their old order. */
  ghost predicate IsStableSort(q: seq<Pcb>, r: seq<Pcb>) {
    Sorted(r) && forall v :: AtLevel(r, v) == AtLevel(q, v)
  }

  // ---------------------------------------------------------------- laws

  lemma KeptStep(q: seq<Pcb>, kill: Pcb -> bool)
    requires q != []
    ensures Kept(q, kill) == (if kill(q[0]) then [] else [q[0]]) + Kept(q[1..], kill)
    ensures Matches(q, kill) == (if kill(q[0]) then 1 else 0) + Matches(q[1..], kill)
  {
  }

  lemma KeptSmall(kill: Pcb -> bool, p: Pcb)
    ensures Kept([], kill) == [] && Matches([], kill) == 0
    ensures Kept([p], kill) == (if kill(p) then [] else [p]) && Matches([p], kill) == (if kill(p) then 1 else 0)
  {
    assert [p][1..] == [];
  }

  lemma {:induction false} KeptConcat(a: seq<Pcb>, b: seq<Pcb>, kill: Pcb -> bool)
    ensures Kept(a + b, kill) == Kept(a, kill) + Kept(b, kill)
    ensures Matches(a + b, kill) == Matches(a, kill) + Matches(b, kill)
  {
    hide Kept, Matches;
    var ab := a + b;
    if a == [] {
      KeptSmall(kill, Pcb(0, 0));
      assert ab == b;
    } else {
      KeptStep(a, kill);
      KeptStep(ab, kill);
      assert ab[0] == a[0] && ab[1..] == a[1..] + b;
      KeptConcat(a[1..], b, kill);
    }
  }

  lemma {:induction false} AtLevelOther(q: seq<Pcb>, v: nat)
    requires forall i :: 0 <= i < |q| ==> q[i].prio != v
    ensures AtLevel(q, v) == []
  {
    if q != [] { AtLevelOther(q[1..], v); }
  }

  lemma {:induction false} AtLevelSame(q: seq<Pcb>, v: nat)
    requires OnePrio(q, v)
    ensures AtLevel(q, v) == q
  {
    if q != [] {
      AtLevelSame(q[1..], v);
      assert q == [q[0]] + q[1..];
    }
  }

  lemma {:induction false} AtLevelPrio(q: seq<Pcb>, v: nat)
    ensures OnePrio(AtLevel(q, v), v)
  {
    if q != [] { AtLevelPrio(q[1..], v); }
  }

  lemma {:induction false} KeptPrios(q: seq<Pcb>, kill: Pcb -> bool, lo: nat)
    requires forall i :: 0 <= i < |q| ==> lo <= q[i].prio
    ensures forall i :: 0 <= i < |Kept(q, kill)| ==> lo <= Kept(q, kill)[i].prio
  {
    if q != [] { KeptPrios(q[1..], kill, lo); }
  }

  lemma {:induction false} KeptAvoids(q: seq<Pcb>, kill: Pcb -> bool, v: nat)
    requires forall i :: 0 <= i < |q| ==> q[i].prio != v
    ensures forall i :: 0 <= i < |Kept(q, kill)| ==> Kept(q, kill)[i].prio != v
  {
    if q != [] { KeptAvoids(q[1..], kill, v); }
  }

  lemma {:induction false} KeptOnePrio(q: seq<Pcb>, kill: Pcb -> bool, v: nat)
    requires OnePrio(q, v)
    ensures OnePrio(Kept(q, kill), v)
  {
    if q != [] { KeptOnePrio(q[1..], kill, v); }
  }

  lemma {:induction false} MatchesAndKept(q: seq<Pcb>, kill: Pcb -> bool)
    ensures Matches(q, kill) + |Kept(q, kill)| == |q|
  {
    if q != [] { MatchesAndKept(q[1..], kill); }
  }

  lemma TailAtLevel(q: seq<Pcb>, v: nat)
    requires q != []
    ensures AtLevel(q[1..], v) == if q[0].prio == v then AtLevel(q, v)[1..] else AtLevel(q, v)
  {
  }

  lemma FirstAtLevel(q: seq<Pcb>)
    requires q != []
    ensures AtLevel(q, q[0].prio) != [] && AtLevel(q, q[0].prio)[0] == q[0]
  {
  }

  lemma {:induction false} SomeAtLevel(q: seq<Pcb>, v: nat)
    requires AtLevel(q, v) != [] && Sorted(q)
    ensures q != [] && q[0].prio <= v
    ensures q[0].prio == v ==> AtLevel(q, v)[0] == q[0]
  {
    if q[0].prio != v { SomeAtLevel(q[1..], v); }
  }

  /** What stays is what does not match, each process as often as before; the count is the rest. */
  lemma {:induction false} KeptIs(q: seq<Pcb>, kill: Pcb -> bool)
    ensures forall p :: multiset(Kept(q, kill))[p] == if kill(p) then 0 else multiset(q)[p]
    ensures Matches(q, kill) == |q| - |Kept(q, kill)|
  {
    if q != [] {
      KeptIs(q[1..], kill);
      assert q == [q[0]] + q[1..];
      var one := if kill(q[0]) then [] else [q[0]];
      assert multiset(one + Kept(q[1..], kill)) == multiset(one) + multiset(Kept(q[1..], kill));
    }
  }

  /** A stable sort is unique, so the predicate determines the refilled queue. */
  lemma {:induction false} StableSortUnique(q: seq<Pcb>, r1: seq<Pcb>, r2: seq<Pcb>)
    requires IsStableSort(q, r1) && IsStableSort(q, r2)
    ensures r1 == r2
    decreases |r1|
  {
    if r1 == [] {
      if r2 != [] { FirstAtLevel(r2); }
    } else {
      FirstAtLevel(r1);
      assert AtLevel(r2, r1[0].prio) == AtLevel(q, r1[0].prio) == AtLevel(r1, r1[0].prio);
      SomeAtLevel(r2, r1[0].prio);
      FirstAtLevel(r2);
      assert AtLevel(r1, r2[0].prio) == AtLevel(q, r2[0].prio) == AtLevel(r2, r2[0].prio);
      SomeAtLevel(r1, r2[0].prio);
      assert r1[0] == r2[0];
      forall v: nat ensures AtLevel(r1[1..], v) == AtLevel(r2[1..], v) {
        assert AtLevel(r1, v) == AtLevel(q, v) == AtLevel(r2, v);
        TailAtLevel(r1, v);
        TailAtLevel(r2, v);
      }
      StableSortUnique(r1[1..], r1[1..], r2[1..]);
    }
  }

  /** On a queue of one prio, as every ready queue is, the stable sort of what stays is what stays
      in its old order. */
  lemma OnePrioKeepsOrder(q: seq<Pcb>, kill: Pcb -> bool, v: nat, r: seq<Pcb>)
    requires OnePrio(q, v) && IsStableSort(Kept(q, kill), r)
    ensures r == Kept(q, kill)
  {
    KeptOnePrio(q, kill, v);
    forall w ensures AtLevel(Kept(q, kill), w) == AtLevel(Kept(q, kill), w) {}
    assert IsStableSort(Kept(q, kill), Kept(q, kill));
    StableSortUnique(Kept(q, kill), r, Kept(q, kill));
  }

  // ---------------------------------------------------------------- one queue

  /** Taking the first process of least prio out of the queue takes the first of its level. */
  lemma TakeBest(q: seq<Pcb>, kill: Pcb -> bool, v: nat)
    requires q != []
    ensures var b := Best(q);
            var rest := q[..b] + q[b + 1..];
            && AtLevel(Kept(q, kill), v)
               == (if q[b].prio == v && !kill(q[b]) then [q[b]] else []) + AtLevel(Kept(rest, kill), v)
            && Matches(q, kill) == (if kill(q[b]) then 1 else 0) + Matches(rest, kill)
  {
    hide Best, Kept, Matches, AtLevel;
    var b := Best(q);
    var before, after := q[..b], q[b + 1..];
    assert q == before + ([q[b]] + after);
    KeptConcat(before, [q[b]] + after, kill);
    KeptConcat([q[b]], after, kill);
    KeptConcat(before, after, kill);
    KeptSmall(kill, q[b]);
    var one := if kill(q[b]) then [] else [q[b]];
    AtLevelConcat(Kept(before, kill), one + Kept(after, kill), v);
    AtLevelConcat(one, Kept(after, kill), v);
    AtLevelConcat(Kept(before, kill), Kept(after, kill), v);
    AtLevelSmall(one, q[b].prio, v);
    if v == q[b].prio {
      KeptAvoids(before, kill, v);
      AtLevelOther(Kept(before, kill), v);
    }
    assert Kept(before, kill) + (one + Kept(after, kill)) == Kept(q, kill);
  }

  lemma SortedIsFifo(q: seq<Pcb>)
    requires Sorted(q) && q != []
    ensures Dequeued(q) == (q[1..], Some(q[0]))
  {
    assert q[0].prio <= q[Best(q)].prio;
    assert q[..0] + q[1..] == q[1..];
  }

  /** The drained part so far: sorted, below everything left, and level by level the old queue. */
  ghost predicate Draining(q: seq<Pcb>, rest: seq<Pcb>, temp: seq<Pcb>, kill: Pcb -> bool, count: nat) {
    && Sorted(temp)
    && (forall i, j :: 0 <= i < |temp| && 0 <= j < |rest| ==> temp[i].prio <= rest[j].prio)
    && (forall v :: AtLevel(Kept(q, kill), v) == AtLevel(temp, v) + AtLevel(Kept(rest, kill), v))
    && count + Matches(rest, kill) == Matches(q, kill)
    && |temp| + |rest| <= MAX_QUEUE_SIZE
  }

  lemma DrainLevel(q: seq<Pcb>, rest: seq<Pcb>, temp: seq<Pcb>, kill: Pcb -> bool, count: nat, v: nat)
    requires Draining(q, rest, temp, kill, count) && rest != []
    ensures var b := Best(rest);
            var rest' := rest[..b] + rest[b + 1..];
            AtLevel(Kept(q, kill), v)
              == AtLevel(if kill(rest[b]) then temp else temp + [rest[b]], v) + AtLevel(Kept(rest', kill), v)
  {
    hide Best, Kept, Matches, AtLevel;
    var b := Best(rest);
    TakeBest(rest, kill, v);
    AtLevelConcat(temp, [rest[b]], v);
    AtLevelSmall([rest[b]], rest[b].prio, v);
    NoneAtLevel(v);
  }

  lemma DrainStep(q: seq<Pcb>, rest: seq<Pcb>, temp: seq<Pcb>, kill: Pcb -> bool, count: nat)
    requires Draining(q, rest, temp, kill, count) && rest != []
    ensures var (rest', p) := Dequeued(rest);
            if kill(p.value) then Draining(q, rest', temp, kill, count + 1)
            else Draining(q, rest', Enqueued(temp, p.value), kill, count)
  {
    hide Best, Kept, Matches, AtLevel;
    var b := Best(rest);
    TakeBest(rest, kill, 0);
    forall v: nat
      ensures AtLevel(Kept(q, kill), v)
           == AtLevel(if kill(rest[b]) then temp else temp + [rest[b]], v)
              + AtLevel(Kept(rest[..b] + rest[b + 1..], kill), v)
    {
      DrainLevel(q, rest, temp, kill, count, v);
    }
  }

  lemma DrainEnds(q: seq<Pcb>, temp: seq<Pcb>, kill: Pcb -> bool, count: nat)
    requires Draining(q, [], temp, kill, count)
    ensures IsStableSort(Kept(q, kill), temp) && count == Matches(q, kill)
  {
    assert Kept([], kill) == [];
    forall v: nat ensures AtLevel(temp, v) == AtLevel(Kept(q, kill), v) {
      NoneAtLevel(v);
      assert AtLevel(Kept(q, kill), v) == AtLevel(temp, v) + AtLevel([], v);
    }
  }

  lemma DrainStarts(q: seq<Pcb>, kill: Pcb -> bool)
    requires |q| <= MAX_QUEUE_SIZE
    ensures Draining(q, q, [], kill, 0)
  {
    forall v: nat ensures AtLevel(Kept(q, kill), v) == AtLevel([], v) + AtLevel(Kept(q, kill), v) { NoneAtLevel(v); }
  }

  method DequeueSome(q: Queue) returns (p: Pcb)
    requires q.Valid() && q.Contents() != []
    modifies q, q.proc
    ensures q.Valid() && (q.Contents(), Some(p)) == Dequeued(old(q.Contents())) && q.size < old(q.size)
  {
    var got := q.Dequeue();
    p := got.value;
  }

  /** The draining loop: matches are counted and dropped, the others go to temp. */
  method Drain(q: Queue, temp: Queue, kill: Pcb -> bool) returns (count: nat)
    requires q.Valid() && temp.Valid() && q != temp && q.proc != temp.proc && temp.Contents() == []
    modifies q, q.proc, temp, temp.proc
    ensures q.Valid() && temp.Valid() && q.Contents() == []
    ensures IsStableSort(Kept(old(q.Contents()), kill), temp.Contents())
    ensures count == Matches(old(q.Contents()), kill)
  {
    hide Draining, Kept, Matches, IsStableSort, Dequeued, Enqueued;
    count := 0;
    ghost var was := q.Contents();
    DrainStarts(was, kill);
    var e := q.Empty();
    while !e
      invariant q.Valid() && temp.Valid()
      invariant Draining(was, q.Contents(), temp.Contents(), kill, count)
      invariant e <==> q.Contents() == []
      decreases q.size
    {
      DrainStep(was, q.Contents(), temp.Contents(), kill, count);
      var p := DequeueSome(q);
      if kill(p) {
        count := count + 1;
      } else {
        temp.Enqueue(p);
      }
      e := q.Empty();
    }
    DrainEnds(was, temp.Contents(), kill, count);
  }

  lemma RefillStep(all: seq<Pcb>, k: nat)
    requires Sorted(all) && k < |all| <= MAX_QUEUE_SIZE
    ensures Dequeued(all[k..]) == (all[k + 1..], Some(all[k]))
    ensures Enqueued(all[..k], all[k]) == all[..k + 1]
  {
    hide Best, Dequeued;
    SortedIsFifo(all[k..]);
    assert all[k..][1..] == all[k + 1..];
  }

  /** The refill loop: a sorted queue is moved over in its order. */
  method Refill(q: Queue, temp: Queue)
    requires q.Valid() && temp.Valid() && q != temp && q.proc != temp.proc
    requires q.Contents() == [] && Sorted(temp.Contents())
    modifies q, q.proc, temp, temp.proc
    ensures q.Valid() && temp.Valid() && q.Contents() == old(temp.Contents()) && temp.Contents() == []
  {
    hide Dequeued, Enqueued, Sorted;
    ghost var all, k := temp.Contents(), 0;
    assert all == all[0..] && [] == all[..0];
    var e := temp.Empty();
    while !e
      invariant q.Valid() && temp.Valid()
      invariant 0 <= k <= |all| && q.Contents() == all[..k] && temp.Contents() == all[k..]
      invariant e <==> k == |all|
      decreases temp.size
    {
      RefillStep(all, k);
      var p := DequeueSome(temp);
      q.Enqueue(p);
      k := k + 1;
      e := temp.Empty();
    }
    assert all[..k] == all;
  }

  /** The pass over one queue: it ends with the stable sort of what stays, and counts the rest. */
  method KillFrom(q: Queue, kill: Pcb -> bool) returns (count: nat)
    requires q.Valid()
    modifies q, q.proc
    ensures q.Valid() && IsStableSort(Kept(old(q.Contents()), kill), q.Contents())
    ensures count == Matches(old(q.Contents()), kill)
  {
    hide Kept, Matches, AtLevel;
    var temp := new Queue();
    count := Drain(q, temp, kill);
    Refill(q, temp);
  }

  // ---------------------------------------------------------------- all queues

  function TotalMatches(queues: seq<seq<Pcb>>, kill: Pcb -> bool): nat {
    if queues == [] then 0 else TotalMatches(queues[..|queues| - 1], kill) + Matches(queues[|queues| - 1], kill)
  }

  lemma TotalStep(queues: seq<seq<Pcb>>, kill: Pcb -> bool, p: nat)
    requires p < |queues|
    ensures TotalMatches(queues[..p + 1], kill) == TotalMatches(queues[..p], kill) + Matches(queues[p], kill)
  {
    assert queues[..p + 1][..p] == queues[..p];
  }

  lemma TotalEmpty(queues: seq<seq<Pcb>>, kill: Pcb -> bool)
    ensures TotalMatches(queues[..0], kill) == 0
  {
  }

  method KillLevel(s: Scheduler, p: nat, kill: Pcb -> bool) returns (count: nat)
    requires s.Valid() && p < MAX_PRIO
    modifies s.mlqReadyQueue, set q | q in s.mlqReadyQueue :: q.proc
    ensures s.Valid() && s.View().cursor == old(s.View()).cursor
    ensures s.runningList.Valid() && s.runningList.Contents() == old(s.runningList.Contents())
    ensures forall j :: 0 <= j < MAX_PRIO && j != p ==> s.View().queues[j] == old(s.View()).queues[j]
    ensures IsStableSort(Kept(old(s.View()).queues[p], kill), s.View().queues[p])
    ensures count == Matches(old(s.View()).queues[p], kill)
  {
    hide Kept, Matches, IsStableSort, QueueContents;
    count := KillFrom(s.mlqReadyQueue[p], kill);
  }

  method KillRunning(s: Scheduler, kill: Pcb -> bool) returns (count: nat)
    requires s.Valid()
    modifies s.runningList, s.runningList.proc
    ensures s.Valid() && s.View() == old(s.View()) && s.runningList.Valid()
    ensures IsStableSort(Kept(old(s.runningList.Contents()), kill), s.runningList.Contents())
    ensures count == Matches(old(s.runningList.Contents()), kill)
  {
    hide Kept, Matches, IsStableSort, QueueContents;
    count := KillFrom(s.runningList, kill);
    assert s.View().queues == old(s.View()).queues;
  }

  /** The queue passes of __sys_killall: every queue ends with the stable sort of what stays in it,
      the cursor does not move, and the result counts the matches over all queues. */
  method KillAll(s: Scheduler, kill: Pcb -> bool) returns (terminated: nat)
    requires s.Valid()
    modifies s.runningList, s.runningList.proc, s.mlqReadyQueue, set q | q in s.mlqReadyQueue :: q.proc
    ensures s.Valid() && s.View().cursor == old(s.View()).cursor
    ensures IsStableSort(Kept(old(s.runningList.Contents()), kill), s.runningList.Contents())
    ensures forall p :: 0 <= p < MAX_PRIO ==>
              IsStableSort(Kept(old(s.View()).queues[p], kill), s.View().queues[p])
    ensures terminated == Matches(old(s.runningList.Contents()), kill) + TotalMatches(old(s.View()).queues, kill)
  {
    hide Kept, Matches, IsStableSort, Scheduler.Valid, Scheduler.View, QueueContents, TotalMatches;
    ghost var was := s.View().queues;
    TotalEmpty(was, kill);
    terminated := KillRunning(s, kill);
    ghost var running, found := s.runningList.Contents(), terminated;
    for pr := 0 to MAX_PRIO
      invariant s.Valid() && s.View().cursor == old(s.View()).cursor
      invariant s.runningList.Valid() && s.runningList.Contents() == running
      invariant forall p :: pr <= p < MAX_PRIO ==> s.View().queues[p] == was[p]
      invariant forall p :: 0 <= p < pr ==> IsStableSort(Kept(was[p], kill), s.View().queues[p])
      invariant terminated == found + TotalMatches(was[..pr], kill)
    {
      TotalStep(was, kill, pr);
      var count := KillLevel(s, pr, kill);
      terminated := terminated + count;
    }
    assert was[..MAX_PRIO] == was;
  }

  /** Where every process is filed under its prio, each level keeps exactly the processes that do
      not match, in their old order, and stays filed. */
  lemma KillAllFiltersLevels(before: Sched, after: Sched, kill: Pcb -> bool)
    requires Filed(before) && after.Valid()
    requires forall p :: 0 <= p < MAX_PRIO ==> IsStableSort(Kept(before.queues[p], kill), after.queues[p])
    ensures forall p :: 0 <= p < MAX_PRIO ==> after.queues[p] == Kept(before.queues[p], kill)
    ensures Filed(after)
  {
    forall p | 0 <= p < MAX_PRIO
      ensures after.queues[p] == Kept(before.queues[p], kill) && OnePrio(after.queues[p], p)
    {
      OnePrioKeepsOrder(before.queues[p], kill, p, after.queues[p]);
      KeptOnePrio(before.queues[p], kill, p);
    }
  }
}
