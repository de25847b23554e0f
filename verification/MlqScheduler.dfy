/** The multi-level ready queues of src/sched.c: state, runs and the functions in place. */
module MlqScheduler {
  import opened Wrappers
  import opened ReadyQueue
  import opened MlqPolicy

  // ---------------------------------------------------------------- on values

  datatype Sched = Sched(queues: seq<seq<Pcb>>, cursor: Cursor) {
    predicate Valid() {
      |queues| == MAX_PRIO && cursor.Valid()
    }
  }

  /** What init_scheduler leaves. */
  function Start(): Sched {
    Sched(seq(MAX_PRIO, _ => []), Cursor(0, MAX_PRIO))
  }

  function InUse(queues: seq<seq<Pcb>>): (up: Levels)
    requires |queues| == MAX_PRIO
    ensures forall p :: 0 <= p < MAX_PRIO ==> (up[p] <==> queues[p] != [])
  {
    seq(MAX_PRIO, p requires 0 <= p < MAX_PRIO => queues[p] != [])
  }

  /** Dequeue from level p. */
  function Take(s: Sched, p: nat): (r: (Sched, Option<Pcb>))
    requires s.Valid() && p < MAX_PRIO
    ensures r.0.Valid() && r.0.cursor == s.cursor
  {
    var (rest, proc) := Dequeued(s.queues[p]);
    (s.(queues := s.queues[p := rest]), proc)
  }

  /** The locked section of get_mlq_proc. */
  function Get(s: Sched): (r: (Sched, Option<Pcb>))
    requires s.Valid()
    ensures r.0.Valid()
  {
    var (cursor, p) := Choose(s.cursor, InUse(s.queues));
    Take(s.(cursor := cursor), p)
  }

  /** put_mlq_proc and add_mlq_proc. */
  function Put(s: Sched, p: Pcb): (r: Sched)
    requires s.Valid() && p.prio < MAX_PRIO
    ensures r.Valid()
  {
    s.(queues := s.queues[p.prio := Enqueued(s.queues[p.prio], p)])
  }

  /** The locked section returns no process exactly when every level but the current one is empty,
      and that one is empty too or is a level other than 0 with no slots left. */
  lemma GetEmpty(s: Sched)
    requires s.Valid()
    ensures Get(s).1 == None
       <==> s.queues[0] == []
            && (s.cursor.slots == 0 || s.queues[s.cursor.prio] == [])
            && forall p :: 0 <= p < MAX_PRIO && p != s.cursor.prio ==> s.queues[p] == []
  {
    ChosenInUse(s.cursor, InUse(s.queues));
  }

  /** When it returns no process although one was queued, its next run returns one, whatever the
      queues hold by then, unless they are all empty. */
  lemma NextGetServes(s: Sched, queues: seq<seq<Pcb>>)
    requires s.Valid() && Get(s).1 == None
    requires |queues| == MAX_PRIO && exists p :: 0 <= p < MAX_PRIO && queues[p] != []
    ensures Get(Get(s).0.(queues := queues)).1.Some?
  {
    var p :| 0 <= p < MAX_PRIO && queues[p] != [];
    assert InUse(queues)[p];
    NeverTwoEmptyCalls(s.cursor, InUse(s.queues), InUse(queues));
  }

  /** From the start level 0 is served 140 times in a row while it stays in use. */
  lemma StartServesTop(ups: seq<Levels>)
    requires |ups| <= 140 && forall i :: 0 <= i < |ups| ==> ups[i][0]
    ensures Start().Valid() && Start().cursor.prio == 0
    ensures forall i :: 0 <= i < |ups| ==> Served(Start().cursor, ups)[i] == 0
    ensures forall p :: 0 <= p < |Start().queues| ==> Start().queues[p] == []
  {
    SlotsServed(Start().cursor, ups);
  }

  // ---------------------------------------------------------------- runs

  datatype Event = GetProc | PutProc(p: Pcb)

  ghost predicate Wellformed(evs: seq<Event>) {
    forall i :: 0 <= i < |evs| && evs[i].PutProc? ==> evs[i].p.prio < MAX_PRIO
  }

  /** Every process waits at the level of its prio. */
  ghost predicate Filed(s: Sched) {
    s.Valid() && forall p :: 0 <= p < MAX_PRIO ==> OnePrio(s.queues[p], p)
  }

  ghost function Next(s: Sched, e: Event): (r: (Sched, seq<Pcb>))
    requires s.Valid() && (e.PutProc? ==> e.p.prio < MAX_PRIO)
    ensures r.0.Valid()
  {
    match e
    case GetProc =>
      var (s', proc) := Get(s);
      (s', if proc.Some? then [proc.value] else [])
    case PutProc(p) => (Put(s, p), [])
  }

  /** The state after a run and the processes it dispatched, in order. */
  ghost function Run(s: Sched, evs: seq<Event>): (r: (Sched, seq<Pcb>))
    requires s.Valid() && Wellformed(evs)
    ensures r.0.Valid()
    decreases |evs|
  {
    if evs == [] then (s, [])
    else
      var (s1, out1) := Next(s, evs[0]);
      var (s2, out2) := Run(s1, evs[1..]);
      (s2, out1 + out2)
  }

  function Gets(evs: seq<Event>): nat {
    if evs == [] then 0 else (if evs[0].GetProc? then 1 else 0) + Gets(evs[1..])
  }

  lemma InitiallyFiled()
    ensures Filed(Start())
  {
  }

  lemma NextFiled(s: Sched, e: Event)
    requires Filed(s) && (e.PutProc? ==> e.p.prio < MAX_PRIO)
    ensures Filed(Next(s, e).0)
  {
    match e
    case GetProc =>
      var p := Choose(s.cursor, InUse(s.queues)).1;
      assert OnePrio(s.queues[p], p);
      if s.queues[p] != [] { OnePrioIsFifo(s.queues[p], p); }
    case PutProc(x) =>
      assert OnePrio(s.queues[x.prio], x.prio);
  }

  lemma {:induction false} RunFiled(s: Sched, evs: seq<Event>)
    requires Filed(s) && Wellformed(evs)
    ensures Filed(Run(s, evs).0)
    decreases |evs|
  {
    if evs != [] {
      NextFiled(s, evs[0]);
      RunFiled(Next(s, evs[0]).0, evs[1..]);
    }
  }

  /** What one event does to level q and sends out of it. */
  lemma NextAtLevel(s: Sched, e: Event, q: nat)
    requires Filed(s) && q < MAX_PRIO && (e.PutProc? ==> e.p.prio < MAX_PRIO)
    ensures var (s', out) := Next(s, e);
            match e
            case PutProc(p) =>
              && out == [] && s'.cursor == s.cursor
              && s'.queues[q] == (if p.prio == q then Enqueued(s.queues[q], p) else s.queues[q])
            case GetProc =>
              var (c', p) := Choose(s.cursor, InUse(s.queues));
              && s'.cursor == c'
              && (p == q && s.queues[q] != [] ==> out == [s.queues[q][0]] && s'.queues[q] == s.queues[q][1..])
              && (p == q && s.queues[q] == [] ==> out == [] && s'.queues[q] == [])
              && (p != q ==> s'.queues[q] == s.queues[q] && forall i :: 0 <= i < |out| ==> out[i].prio == p)
  {
    if e.GetProc? {
      var p := Choose(s.cursor, InUse(s.queues)).1;
      assert OnePrio(s.queues[p], p);
      if s.queues[p] != [] { OnePrioIsFifo(s.queues[p], p); }
    }
  }

  // ---------------------------------------------------------------- first in, first out

  function AtLevel(procs: seq<Pcb>, q: nat): seq<Pcb> {
    if procs == [] then []
    else (if procs[0].prio == q then [procs[0]] else []) + AtLevel(procs[1..], q)
  }

  /** The processes a run puts into level q, without those a full queue drops. */
  ghost function Accepted(s: Sched, evs: seq<Event>, q: nat): seq<Pcb>
    requires s.Valid() && Wellformed(evs) && q < MAX_PRIO
    decreases |evs|
  {
    if evs == [] then []
    else
      (if evs[0].PutProc? && evs[0].p.prio == q && |s.queues[q]| != MAX_QUEUE_SIZE then [evs[0].p] else [])
      + Accepted(Next(s, evs[0]).0, evs[1..], q)
  }

  lemma AtLevelStep(a: seq<Pcb>, q: nat)
    requires a != []
    ensures AtLevel(a, q) == (if a[0].prio == q then [a[0]] else []) + AtLevel(a[1..], q)
  {
  }

  lemma NoneAtLevel(q: nat)
    ensures AtLevel([], q) == []
  {
  }

  lemma {:induction false} AtLevelConcat(a: seq<Pcb>, b: seq<Pcb>, q: nat)
    ensures AtLevel(a + b, q) == AtLevel(a, q) + AtLevel(b, q)
  {
    hide AtLevel;
    var ab := a + b;
    if a == [] {
      NoneAtLevel(q);
      assert ab == b;
    } else {
      AtLevelStep(a, q);
      AtLevelStep(ab, q);
      assert ab[0] == a[0] && ab[1..] == a[1..] + b;
      AtLevelConcat(a[1..], b, q);
    }
  }

  lemma AtLevelSmall(out: seq<Pcb>, p: nat, q: nat)
    requires |out| <= 1 && forall i :: 0 <= i < |out| ==> out[i].prio == p
    ensures AtLevel(out, q) == if p == q then out else []
  {
    if out != [] { assert out[1..] == []; }
  }

  lemma AcceptedOne(s: Sched, e: Event, q: nat)
    requires s.Valid() && q < MAX_PRIO && (e.PutProc? ==> e.p.prio < MAX_PRIO) && Wellformed([e])
    ensures Accepted(s, [e], q)
         == if e.PutProc? && e.p.prio == q && |s.queues[q]| != MAX_QUEUE_SIZE then [e.p] else []
  {
    assert [e][0] == e && [e][1..] == [];
    assert Accepted(Next(s, e).0, [], q) == [];
  }

  lemma OutPrio(s: Sched, e: Event)
    requires Filed(s) && e.GetProc?
    ensures var out := Next(s, e).1;
            |out| <= 1 && forall i :: 0 <= i < |out| ==> out[i].prio == Choose(s.cursor, InUse(s.queues)).1
  {
    var p := Choose(s.cursor, InUse(s.queues)).1;
    assert OnePrio(s.queues[p], p);
    if s.queues[p] != [] { OnePrioIsFifo(s.queues[p], p); }
  }

  /** One event: what leaves level q, followed by what stays, is what was there followed by what is
      accepted. */
  lemma EventIsFifo(s: Sched, e: Event, q: nat)
    requires Filed(s) && q < MAX_PRIO && (e.PutProc? ==> e.p.prio < MAX_PRIO) && Wellformed([e])
    ensures AtLevel(Next(s, e).1, q) + Next(s, e).0.queues[q] == s.queues[q] + Accepted(s, [e], q)
  {
    hide Next, Accepted, Choose, InUse, AtLevel;
    NextAtLevel(s, e, q);
    AcceptedOne(s, e, q);
    if e.GetProc? {
      OutPrio(s, e);
      AtLevelSmall(Next(s, e).1, Choose(s.cursor, InUse(s.queues)).1, q);
    }
    assert AtLevel([], q) == [] by { NoneAtLevel(q); }
  }

  lemma Glue(out1: seq<Pcb>, out2: seq<Pcb>, rest: seq<Pcb>, mid: seq<Pcb>, a2: seq<Pcb>, start: seq<Pcb>, a1: seq<Pcb>)
    requires out2 + rest == mid + a2 && out1 + mid == start + a1
    ensures out1 + out2 + rest == start + (a1 + a2)
  {
    assert out1 + out2 + rest == out1 + (out2 + rest);
    assert out1 + (mid + a2) == (out1 + mid) + a2;
    assert (start + a1) + a2 == start + (a1 + a2);
  }

  /** Over any run the processes dispatched from a level, followed by those still waiting in it, are
      those that waited at first followed by those accepted since: strictly first in, first out. */
  lemma {:induction false} LevelIsFifo(s: Sched, evs: seq<Event>, q: nat)
    requires Filed(s) && Wellformed(evs) && q < MAX_PRIO
    ensures AtLevel(Run(s, evs).1, q) + Run(s, evs).0.queues[q] == s.queues[q] + Accepted(s, evs, q)
    decreases |evs|
  {
    if evs != [] {
      hide Next, Filed, Choose, InUse, AtLevel;
      var e := evs[0];
      var (s', out) := Next(s, e);
      NextFiled(s, e);
      EventIsFifo(s, e, q);
      LevelIsFifo(s', evs[1..], q);
      var (s2, out2) := Run(s', evs[1..]);
      AtLevelConcat(out, out2, q);
      AcceptedOne(s, e, q);
      var a1, a2 := Accepted(s, [e], q), Accepted(s', evs[1..], q);
      assert Accepted(s, evs, q) == a1 + a2 && Run(s, evs) == (s2, out + out2);
      Glue(AtLevel(out, q), AtLevel(out2, q), s2.queues[q], s'.queues[q], a2, s.queues[q], a1);
    }
  }

  // ---------------------------------------------------------------- no starvation

  /** More than k processes leave level q before k * 9870 + Rank gets are over, if that many wait. */
  lemma {:induction false} DispatchedWithin(s: Sched, evs: seq<Event>, q: nat, k: nat)
    requires Filed(s) && Wellformed(evs) && q < MAX_PRIO && k < |s.queues[q]|
    requires Gets(evs) >= k * ROUND + Rank(s.cursor, q)
    ensures |AtLevel(Run(s, evs).1, q)| > k
    decreases |evs|
  {
    RankBound(s.cursor, q);
    var e := evs[0];
    var (s', out) := Next(s, e);
    NextAtLevel(s, e, q);
    NextFiled(s, e);
    hide Next, Filed, Rank, AtLevel;
    AtLevelConcat(out, Run(s', evs[1..]).1, q);
    if e.GetProc? {
      ServedOrCloser(s.cursor, InUse(s.queues), q);
      RankBound(s'.cursor, q);
      if Choose(s.cursor, InUse(s.queues)).1 != q {
        DispatchedWithin(s', evs[1..], q, k);
      } else {
        assert AtLevel(out, q) == out by { AtLevelSmall(out, q, q); }
        if k > 0 { DispatchedWithin(s', evs[1..], q, k - 1); }
      }
    } else {
      DispatchedWithin(s', evs[1..], q, k);
    }
  }

  /** No starvation: within (k + 1) * 9870 gets the processes at positions 0 to k of a level are the
      first k + 1 dispatched from it, in their order, whatever puts come in between. */
  lemma NoStarvation(s: Sched, evs: seq<Event>, q: nat, k: nat)
    requires Filed(s) && Wellformed(evs) && q < MAX_PRIO && k < |s.queues[q]|
    requires Gets(evs) >= (k + 1) * ROUND
    ensures s.queues[q][..k + 1] <= AtLevel(Run(s, evs).1, q)
  {
    RankBound(s.cursor, q);
    DispatchedWithin(s, evs, q, k);
    LevelIsFifo(s, evs, q);
    hide Run, Accepted, AtLevel, Filed;
    var out, rest := AtLevel(Run(s, evs).1, q), Run(s, evs).0.queues[q];
    assert forall i :: 0 <= i <= k ==> out[i] == (out + rest)[i] == (s.queues[q] + Accepted(s, evs, q))[i];
  }

  // ---------------------------------------------------------------- empty gets and full queues happen

  /** Only level q holds processes. */
  ghost predicate OnlyLevel(s: Sched, q: nat, procs: seq<Pcb>) {
    s.Valid() && q < MAX_PRIO && s.queues[q] == procs && forall p :: 0 <= p < MAX_PRIO && p != q ==> s.queues[p] == []
  }

  /** The search from level 0 finds level 139 when only that is in use. */
  lemma GetLast(s: Sched, p: Pcb)
    requires OnlyLevel(s, 139, [p]) && s.cursor.prio == 0
    ensures Get(s).1 == Some(p) && OnlyLevel(Get(s).0, 139, []) && Get(s).0.cursor == Cursor(139, 0)
  {
    forall o | 1 <= o < 139 ensures !InUse(s.queues)[Ahead(0, o)] { assert Ahead(0, o) == o; }
    assert Ahead(0, 139) == 139;
    NextInUseIs(0, InUse(s.queues), 139);
    assert [p][..0] + [p][1..] == [];
  }

  lemma RunOne(s: Sched, evs: seq<Event>)
    requires s.Valid() && Wellformed(evs) && evs != []
    ensures Run(s, evs).0 == Run(Next(s, evs[0]).0, evs[1..]).0
    ensures Run(s, evs).1 == Next(s, evs[0]).1 + Run(Next(s, evs[0]).0, evs[1..]).1
  {
  }

  lemma RunThree(s: Sched, evs: seq<Event>)
    requires s.Valid() && Wellformed(evs) && |evs| == 3
    ensures Run(s, evs).0 == Next(Next(Next(s, evs[0]).0, evs[1]).0, evs[2]).0
  {
    hide Next;
    var s1 := Next(s, evs[0]).0;
    var s2 := Next(s1, evs[1]).0;
    RunOne(s, evs);
    RunOne(s1, evs[1..]);
    RunOne(s2, evs[1..][1..]);
  }

  /** A run after which a process of level 139 is queued and the next get returns none: the level is
      spent by its first get. */
  lemma EmptyGetHappens(p: Pcb)
    requires p.prio == 139
    ensures Filed(Start())
    ensures var s := Run(Start(), [PutProc(p), GetProc, PutProc(p)]).0;
            s.queues[139] == [p] && Get(s).1 == None
  {
    InitiallyFiled();
    var evs := [PutProc(p), GetProc, PutProc(p)];
    var s1 := Put(Start(), p);
    assert OnlyLevel(s1, 139, [p]);
    GetLast(s1, p);
    var s2 := Get(s1).0;
    var s3 := Put(s2, p);
    assert OnlyLevel(s3, 139, [p]) && s3.cursor == Cursor(139, 0);
    hide Get, Put;
    RunThree(Start(), evs);
    GetEmpty(s3);
  }

  /** Puts of one level into a queue with room for them fill it. */
  lemma {:induction false} PutsFill(s: Sched, evs: seq<Event>, q: nat)
    requires s.Valid() && Wellformed(evs) && q < MAX_PRIO
    requires forall i :: 0 <= i < |evs| ==> evs[i].PutProc? && evs[i].p.prio == q
    requires |s.queues[q]| + |evs| <= MAX_QUEUE_SIZE
    ensures |Run(s, evs).0.queues[q]| == |s.queues[q]| + |evs|
    decreases |evs|
  {
    if evs != [] { PutsFill(Next(s, evs[0]).0, evs[1..], q); }
  }

  /** Ten puts make a level full; the eleventh process is lost. */
  lemma FullLevelHappens(evs: seq<Event>, p: Pcb)
    requires Wellformed(evs) && |evs| == MAX_QUEUE_SIZE && p.prio < MAX_PRIO
    requires forall i :: 0 <= i < |evs| ==> evs[i].PutProc? && evs[i].p.prio == p.prio
    ensures var s := Run(Start(), evs).0;
            |s.queues[p.prio]| == 10 && Put(s, p) == s
  {
    PutsFill(Start(), evs, p.prio);
    var s := Run(Start(), evs).0;
    assert s.queues[p.prio := s.queues[p.prio]] == s.queues;
  }

  // ---------------------------------------------------------------- in place

  method NewQueues() returns (qs: seq<Queue>)
    ensures |qs| == MAX_PRIO
    ensures forall j :: 0 <= j < |qs| ==> fresh(qs[j]) && fresh(qs[j].proc) && qs[j].Valid() && qs[j].Contents() == []
    ensures forall j, k :: 0 <= j < k < |qs| ==> qs[j] != qs[k] && qs[j].proc != qs[k].proc
  {
    qs := [];
    for i := 0 to MAX_PRIO
      invariant |qs| == i
      invariant forall j :: 0 <= j < i ==> fresh(qs[j]) && fresh(qs[j].proc) && qs[j].Valid() && qs[j].Contents() == []
      invariant forall j, k :: 0 <= j < k < i ==> qs[j] != qs[k] && qs[j].proc != qs[k].proc
    {
      var q := new Queue();
      qs := qs + [q];
    }
  }

  method NewSlots() returns (slots: array<nat>)
    ensures fresh(slots) && slots.Length == MAX_PRIO && forall p :: 0 <= p < MAX_PRIO ==> slots[p] == Quota(p)
  {
    slots := new nat[MAX_PRIO];
    for i := 0 to MAX_PRIO
      invariant forall p :: 0 <= p < i ==> slots[p] == Quota(p)
    {
      slots[i] := MAX_PRIO - i;
    }
  }

  ghost function QueueContents(qs: seq<Queue>): (s: seq<seq<Pcb>>)
    requires forall i :: 0 <= i < |qs| ==> qs[i].Valid()
    reads qs, set q | q in qs :: q.proc
    ensures |s| == |qs| && forall p :: 0 <= p < |qs| ==> s[p] == qs[p].Contents()
  {
    if qs == [] then [] else QueueContents(qs[..|qs| - 1]) + [qs[|qs| - 1].Contents()]
  }

  class Scheduler {
    const mlqReadyQueue: seq<Queue>
    const runningList: Queue
    const slot: array<nat>
    var currPrio: nat
    var currSlot: nat

    /** All queues of the scheduler are separate objects with separate slots. */
    ghost predicate Separate() {
      && |mlqReadyQueue| == MAX_PRIO
      && (forall i, j :: 0 <= i < j < MAX_PRIO ==>
            mlqReadyQueue[i] != mlqReadyQueue[j] && mlqReadyQueue[i].proc != mlqReadyQueue[j].proc)
      && (forall i :: 0 <= i < MAX_PRIO ==>
            mlqReadyQueue[i] != runningList && mlqReadyQueue[i].proc != runningList.proc)
    }

    ghost predicate QueuesValid()
      reads mlqReadyQueue, set q | q in mlqReadyQueue :: q.proc, runningList, runningList.proc
    {
      Separate() && runningList.Valid() && forall i :: 0 <= i < MAX_PRIO ==> mlqReadyQueue[i].Valid()
    }

    ghost predicate SlotsValid()
      reads slot
    {
      slot.Length == MAX_PRIO && forall p :: 0 <= p < MAX_PRIO ==> slot[p] == Quota(p)
    }

    ghost predicate Valid()
      reads this, slot, mlqReadyQueue, set q | q in mlqReadyQueue :: q.proc, runningList, runningList.proc
    {
      QueuesValid() && SlotsValid() && Cursor(currPrio, currSlot).Valid()
    }

    ghost function Contents(): (s: seq<seq<Pcb>>)
      requires |mlqReadyQueue| == MAX_PRIO && forall i :: 0 <= i < MAX_PRIO ==> mlqReadyQueue[i].Valid()
      reads mlqReadyQueue, set q | q in mlqReadyQueue :: q.proc
      ensures |s| == MAX_PRIO && forall p :: 0 <= p < MAX_PRIO ==> s[p] == mlqReadyQueue[p].Contents()
    {
      QueueContents(mlqReadyQueue)
    }

    ghost function View(): (s: Sched)
      requires Valid()
      reads this, slot, mlqReadyQueue, set q | q in mlqReadyQueue :: q.proc, runningList, runningList.proc
      ensures s.Valid() && s.cursor == Cursor(currPrio, currSlot)
      ensures forall p :: 0 <= p < MAX_PRIO ==> s.queues[p] == mlqReadyQueue[p].Contents()
    {
      Sched(Contents(), Cursor(currPrio, currSlot))
    }

    /** The queues in static storage, then init_scheduler. */
    constructor ()
      ensures Valid() && fresh(slot) && fresh(runningList) && fresh(runningList.proc)
      ensures forall q :: q in mlqReadyQueue ==> fresh(q) && fresh(q.proc)
      ensures currPrio == 0 && currSlot == 140 && |mlqReadyQueue| == 140 && runningList.Contents() == []
      ensures forall q :: q in mlqReadyQueue ==> q.Valid() && q.Contents() == []
      ensures forall p :: 0 <= p < 140 ==> slot[p] == 140 - p
      ensures View() == Start()
    {
      hide QueueContents;
      var queues := NewQueues();
      var slots := NewSlots();
      mlqReadyQueue := queues;
      runningList := new Queue();
      slot := slots;
      currPrio := 0;
      currSlot := MAX_PRIO;
      new;
      assert View().queues == seq(MAX_PRIO, _ => []);
    }

    method LevelEmpty(p: nat) returns (r: bool)
      requires Valid() && p < MAX_PRIO
      ensures r <==> View().queues[p] == []
    {
      r := mlqReadyQueue[p].Empty();
    }

    /** queue_empty. */
    method QueueEmpty() returns (r: bool)
      requires Valid()
      ensures r <==> forall p :: 0 <= p < MAX_PRIO ==> View().queues[p] == []
    {
      for i := 0 to MAX_PRIO
        invariant forall p :: 0 <= p < i ==> View().queues[p] == []
      {
        var e := LevelEmpty(i);
        if !e {
          assert View().queues[i] != [];
          return false;
        }
      }
      r := true;
    }

    method SpendSlot()
      requires Valid() && currSlot > 0
      modifies this`currSlot
      ensures Valid() && View() == old(View()).(cursor := Cursor(currPrio, old(currSlot) - 1))
    {
      currSlot := currSlot - 1;
    }

    /** Point the cursor at level p with a fresh quota, less the process about to be taken. */
    method MoveTo(p: nat)
      requires Valid() && p < MAX_PRIO
      modifies this`currPrio, this`currSlot
      ensures Valid() && View() == old(View()).(cursor := Cursor(p, Quota(p) - 1))
    {
      currPrio := p;
      currSlot := slot[p] - 1;
    }

    /** The round-robin search of get_mlq_proc: the offset of the next level in use, or 140. */
    method Search() returns (offset: nat)
      requires Valid()
      ensures 1 <= offset <= MAX_PRIO
      ensures forall o :: 1 <= o < offset ==> View().queues[Ahead(currPrio, o)] == []
      ensures offset < MAX_PRIO ==> View().queues[Ahead(currPrio, offset)] != []
    {
      hide Valid, View;
      offset := 1;
      while offset < MAX_PRIO
        invariant 1 <= offset <= MAX_PRIO
        invariant forall o :: 1 <= o < offset ==> View().queues[Ahead(currPrio, o)] == []
        modifies {}
      {
        assert View().cursor == Cursor(currPrio, currSlot);
        var e := LevelEmpty(Ahead(currPrio, offset));
        if !e {
          return;
        }
        offset := offset + 1;
      }
    }

    /** Dequeue from level p; the cursor and the other levels stay. */
    method TakeFrom(p: nat) returns (proc: Option<Pcb>)
      requires Valid() && p < MAX_PRIO
      modifies mlqReadyQueue, set q | q in mlqReadyQueue :: q.proc
      ensures Valid() && (View(), proc) == Take(old(View()), p)
    {
      hide QueueContents, Dequeued, NextInUse, InUse, Choose, Enqueued;
      ghost var was := View().queues;
      proc := mlqReadyQueue[p].Dequeue();
      assert forall j :: 0 <= j < MAX_PRIO && j != p ==> mlqReadyQueue[j].Contents() == was[j];
      assert View().queues == was[p := mlqReadyQueue[p].Contents()];
    }

    /** The locked section of get_mlq_proc. */
    method GetLocked() returns (proc: Option<Pcb>)
      requires Valid()
      modifies this, mlqReadyQueue, set q | q in mlqReadyQueue :: q.proc
      ensures Valid() && (View(), proc) == Get(old(View()))
    {
      hide Valid, View, NextInUse, InUse, Take, QueueContents, Quota;
      ghost var s := View();
      var e := LevelEmpty(currPrio);
      if currSlot > 0 && !e {
        SpendSlot();
        proc := TakeFrom(currPrio);
        return;
      }
      var offset := Search();
      NextInUseIs(currPrio, InUse(s.queues), offset);
      var p := if offset < MAX_PRIO then Ahead(currPrio, offset) else 0;
      MoveTo(p);
      proc := TakeFrom(p);
    }

    /** get_mlq_proc when no other processor runs between its two critical sections. */
    method GetMlqProc() returns (proc: Option<Pcb>)
      requires Valid()
      modifies this, mlqReadyQueue, set q | q in mlqReadyQueue :: q.proc
      ensures Valid()
      ensures if forall p :: 0 <= p < MAX_PRIO ==> old(View()).queues[p] == []
              then proc == None && View() == old(View())
              else (View(), proc) == Get(old(View()))
    {
      hide Valid, View, Get;
      var e := QueueEmpty();
      if e {
        return None;
      }
      proc := GetLocked();
    }

    /** put_proc and add_proc: the list of running processes grows until it is full, and the process
        joins the level of its prio. */
    method PutProc(p: Pcb)
      requires Valid() && p.prio < MAX_PRIO
      modifies mlqReadyQueue[p.prio], mlqReadyQueue[p.prio].proc, runningList, runningList.proc
      ensures Valid() && View() == Put(old(View()), p)
      ensures runningList.Contents() == Enqueued(old(runningList.Contents()), p)
    {
      hide QueueContents, Enqueued;
      runningList.Enqueue(p);
      mlqReadyQueue[p.prio].Enqueue(p);
    }
  }
}
