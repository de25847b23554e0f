/** The processors of src/os.c: cpu_routine on any number of interleaved processors over one
    scheduler. A step of a processor ends where the code takes or leaves a lock or waits for the
    next slot; the loader adds processes in between. */
module Dispatch {
  import opened Wrappers
  import opened ReadyQueue
  import opened MlqPolicy
  import opened MlqScheduler

  /** Where a processor is. `first` marks the first get_proc of the loop, taken when it has no
      process at all; Probe is queue_empty, Take the locked section that follows it. `run` holds no
      lock, so each of its accesses to the program counter of the process is a step: AtRun tests it
      against the code size, AtFetch reads the instruction it points at, AtAdvance(i) reads it again to
      increment it, AtStore(i, j) writes j + 1 back; i is the instruction fetched. */
  datatype CpuPc =
    | AtTop
    | AtPut
    | AtProbe(first: bool)
    | AtTake(first: bool)
    | AtRecheck
    | AtRun
    | AtFetch
    | AtAdvance(i: nat)
    | AtStore(i: nat, j: nat)
    | AtSlot
    | Stopped

  predicate InRun(pc: CpuPc) {
    pc.AtRun? || pc.AtFetch? || pc.AtAdvance? || pc.AtStore?
  }

  datatype Cpu = Cpu(pc: CpuPc, proc: Option<Pcb>, timeLeft: nat)

  datatype Event =
    | Loaded(p: nat)
    | Dispatched(c: nat, p: nat)
    | Executed(c: nat, p: nat, i: nat)
    | Finished(c: nat, p: nat)

  /** active: the loaded processes not yet reported finished; pcs and sizes by process id. */
  datatype Os = Os(sched: Sched, cpus: seq<Cpu>, active: set<Pcb>, pcs: map<nat, nat>, sizes: map<nat, nat>,
                   done: bool, log: seq<Event>)

  datatype Move = CpuMove(c: nat) | Load(p: Pcb, size: nat) | LoaderDone

  // ---------------------------------------------------------------- steps

  function WithCpu(s: Os, c: nat, cpu: Cpu): Os
    requires c < |s.cpus|
  {
    s.(cpus := s.cpus[c := cpu])
  }

  predicate NoneQueued(q: Sched) {
    forall p :: 0 <= p < |q.queues| ==> q.queues[p] == []
  }

  /** The processor back from `run`. */
  function RunCpu(cpu: Cpu): Cpu
    requires cpu.timeLeft > 0
  {
    cpu.(pc := AtSlot, timeLeft := cpu.timeLeft - 1)
  }

  /** What the step of processor c needs of the state; it holds in every reachable state. */
  predicate CpuReady(s: Os, c: nat) {
    && c < |s.cpus| && s.sched.Valid()
    && var cpu := s.cpus[c];
       && (cpu.proc.Some? ==> cpu.proc.value.pid in s.pcs && cpu.proc.value.pid in s.sizes
                              && cpu.proc.value.prio < MAX_PRIO)
       && (cpu.pc.AtPut? ==> cpu.proc.Some?)
       && (InRun(cpu.pc) ==> cpu.proc.Some? && cpu.timeLeft > 0)
  }

  /** One step of cpu_routine on processor c. */
  function CpuNext(s: Os, c: nat, timeSlot: nat): Os
    requires CpuReady(s, c)
  {
    var cpu := s.cpus[c];
    match cpu.pc
    case AtTop =>
      (match cpu.proc
       case None => WithCpu(s, c, cpu.(pc := AtProbe(true)))
       case Some(p) =>
         if s.pcs[p.pid] == s.sizes[p.pid] then
           WithCpu(s, c, Cpu(AtProbe(false), None, 0)).(active := s.active - {p}, log := s.log + [Finished(c, p.pid)])
         else if cpu.timeLeft == 0 then WithCpu(s, c, cpu.(pc := AtPut))
         else WithCpu(s, c, cpu.(pc := AtRecheck)))
    case AtPut => WithCpu(s, c, cpu.(pc := AtProbe(false), proc := None)).(sched := Put(s.sched, cpu.proc.value))
    case AtProbe(first) =>
      if NoneQueued(s.sched) then WithCpu(s, c, cpu.(pc := if first then AtSlot else AtRecheck))
      else WithCpu(s, c, cpu.(pc := AtTake(first)))
    case AtTake(first) =>
      var (sched, proc) := Get(s.sched);
      WithCpu(s, c, cpu.(pc := if first && proc.None? then AtSlot else AtRecheck, proc := proc)).(sched := sched)
    case AtRecheck =>
      (match cpu.proc
       case None => WithCpu(s, c, cpu.(pc := if s.done then Stopped else AtSlot))
       case Some(p) =>
         if cpu.timeLeft == 0 then
           WithCpu(s, c, cpu.(pc := AtRun, timeLeft := timeSlot)).(log := s.log + [Dispatched(c, p.pid)])
         else WithCpu(s, c, cpu.(pc := AtRun)))
    case AtRun =>
      var p := cpu.proc.value.pid;
      WithCpu(s, c, if s.pcs[p] >= s.sizes[p] then RunCpu(cpu) else cpu.(pc := AtFetch))
    case AtFetch => WithCpu(s, c, cpu.(pc := AtAdvance(s.pcs[cpu.proc.value.pid])))
    case AtAdvance(i) => WithCpu(s, c, cpu.(pc := AtStore(i, s.pcs[cpu.proc.value.pid])))
    case AtStore(i, j) =>
      var p := cpu.proc.value.pid;
      WithCpu(s, c, RunCpu(cpu)).(pcs := s.pcs[p := j + 1], log := s.log + [Executed(c, p, i)])
    case AtSlot => WithCpu(s, c, cpu.(pc := AtTop))
    case Stopped => s
  }

  /** The processes of one prio. */
  function OfPrio(procs: set<Pcb>, prio: nat): set<Pcb> {
    set p | p in procs && p.prio == prio
  }

  /** A process may be loaded under a new id, with a level, at least one instruction, and while fewer
      than ten other processes of its level are unfinished. */
  predicate Loadable(s: Os, p: Pcb, size: nat) {
    p.pid !in s.pcs && p.prio < MAX_PRIO && size > 0 && |OfPrio(s.active, p.prio)| < MAX_QUEUE_SIZE
  }

  predicate Possible(s: Os, m: Move) {
    match m
    case CpuMove(c) => c < |s.cpus|
    case Load(p, size) => Loadable(s, p, size)
    case LoaderDone => true
  }

  predicate Ready(s: Os, m: Move) {
    s.sched.Valid() && (m.CpuMove? ==> CpuReady(s, m.c))
  }

  function Next(s: Os, m: Move, timeSlot: nat): Os
    requires Ready(s, m) && Possible(s, m)
  {
    match m
    case CpuMove(c) => CpuNext(s, c, timeSlot)
    case Load(p, size) =>
      s.(sched := Put(s.sched, p), active := s.active + {p}, pcs := s.pcs[p.pid := 0], sizes := s.sizes[p.pid := size],
         log := s.log + [Loaded(p.pid)])
    case LoaderDone => s.(done := true)
  }

  function Initial(cpus: nat): Os {
    Os(Start(), seq(cpus, _ => Cpu(AtTop, None, 0)), {}, map[], map[], false, [])
  }

  // ---------------------------------------------------------------- what a correct log is

  /** How many instructions of process p the log shows. */
  function Count(log: seq<Event>, p: nat): nat {
    if log == [] then 0
    else
      var e := log[|log| - 1];
      Count(log[..|log| - 1], p) + (if e.Executed? && e.p == p then 1 else 0)
  }

  /** The instructions of process p in the order they were executed. */
  function Trace(log: seq<Event>, p: nat): seq<nat> {
    if log == [] then []
    else
      var e := log[|log| - 1];
      Trace(log[..|log| - 1], p) + (if e.Executed? && e.p == p then [e.i] else [])
  }

  /** The process last dispatched on processor c and how many instructions c has run since. */
  function Slice(log: seq<Event>, c: nat): (Option<nat>, nat) {
    if log == [] then (None, 0)
    else
      var e, (p, n) := log[|log| - 1], Slice(log[..|log| - 1], c);
      if e.Dispatched? && e.c == c then (Some(e.p), 0)
      else if e.Executed? && e.c == c then (p, n + 1)
      else (p, n)
  }

  predicate Done(log: seq<Event>, p: nat) {
    exists i :: 0 <= i < |log| && log[i].Finished? && log[i].p == p
  }

  /** Each instruction is the next one of its process, lies inside its code, runs on the processor
      the process was last dispatched on, within the time slot of that dispatch; and a process is
      reported finished once, when all its instructions have run. */
  ghost predicate WellRun(log: seq<Event>, sizes: map<nat, nat>, timeSlot: nat) {
    log == []
    || (var prefix, e := log[..|log| - 1], log[|log| - 1];
        && WellRun(prefix, sizes, timeSlot)
        && (match e
            case Executed(c, p, i) =>
              && p in sizes && i == Count(prefix, p) < sizes[p]
              && Slice(prefix, c).0 == Some(p) && Slice(prefix, c).1 < timeSlot
            case Finished(_, p) => p in sizes && Count(prefix, p) == sizes[p] && !Done(prefix, p)
            case _ => true))
  }

  // ---------------------------------------------------------------- where the processes are

  /** How many places of the ready queues hold process p. */
  function InQueues(qs: seq<seq<Pcb>>, p: Pcb): nat {
    if qs == [] then 0 else InQueues(qs[..|qs| - 1], p) + multiset(qs[|qs| - 1])[p]
  }

  function OnCpu(cpu: Cpu, p: Pcb): nat {
    if cpu.proc == Some(p) then 1 else 0
  }

  /** How many processors hold process p. */
  function OnCpus(cpus: seq<Cpu>, p: Pcb): nat {
    if cpus == [] then 0 else OnCpus(cpus[..|cpus| - 1], p) + OnCpu(cpus[|cpus| - 1], p)
  }

  lemma {:induction false} InQueuesUpdate(qs: seq<seq<Pcb>>, l: nat, q: seq<Pcb>, p: Pcb)
    requires l < |qs|
    ensures InQueues(qs[l := q], p) + multiset(qs[l])[p] == InQueues(qs, p) + multiset(q)[p]
    ensures multiset(qs[l])[p] <= InQueues(qs, p)
  {
    var n := |qs| - 1;
    if l < n {
      InQueuesUpdate(qs[..n], l, q, p);
      assert qs[l := q][..n] == qs[..n][l := q];
    } else {
      assert qs[l := q][..n] == qs[..n];
    }
  }

  lemma {:induction false} OnCpusUpdate(cpus: seq<Cpu>, c: nat, cpu: Cpu, p: Pcb)
    requires c < |cpus|
    ensures OnCpus(cpus[c := cpu], p) + OnCpu(cpus[c], p) == OnCpus(cpus, p) + OnCpu(cpu, p)
    ensures OnCpu(cpus[c], p) <= OnCpus(cpus, p)
  {
    var n := |cpus| - 1;
    if c < n {
      OnCpusUpdate(cpus[..n], c, cpu, p);
      assert cpus[c := cpu][..n] == cpus[..n][c := cpu];
    } else {
      assert cpus[c := cpu][..n] == cpus[..n];
    }
  }

  /** A process that sits on two processors is counted twice. */
  lemma OnTwoCpus(cpus: seq<Cpu>, c: nat, d: nat, p: Pcb)
    requires c < |cpus| && d < |cpus| && c != d && cpus[c].proc == Some(p) && cpus[d].proc == Some(p)
    ensures OnCpus(cpus, p) >= 2
  {
    var idle := cpus[c].(proc := None);
    OnCpusUpdate(cpus, c, idle, p);
    OnCpusUpdate(cpus[c := idle], d, idle, p);
  }

  // ---------------------------------------------------------------- the invariant

  /** Every loaded, unfinished process is in exactly one place, once in one queue or on one
      processor, and no other process is anywhere. */
  ghost predicate OnePlace(queues: seq<seq<Pcb>>, cpus: seq<Cpu>, active: set<Pcb>) {
    forall p :: InQueues(queues, p) + OnCpus(cpus, p) == if p in active then 1 else 0
  }

  /** At most ten unfinished processes of each prio. */
  ghost predicate LevelsOk(active: set<Pcb>) {
    forall v :: |OfPrio(active, v)| <= MAX_QUEUE_SIZE
  }

  ghost predicate TablesOk(active: set<Pcb>, pcs: map<nat, nat>, sizes: map<nat, nat>) {
    && LevelsOk(active)
    && (forall p, q :: p in active && q in active && p.pid == q.pid ==> p == q)
    && (forall p :: p in active ==> p.prio < MAX_PRIO && p.pid in pcs)
    && pcs.Keys == sizes.Keys
    && (forall i :: i in pcs ==> pcs[i] <= sizes[i])
  }

  predicate Unfinished(p: Pcb, pcs: map<nat, nat>, sizes: map<nat, nat>) {
    p.pid in pcs && p.pid in sizes && pcs[p.pid] < sizes[p.pid]
  }

  ghost predicate QueuedUnfinished(queues: seq<seq<Pcb>>, pcs: map<nat, nat>, sizes: map<nat, nat>) {
    forall l, i :: 0 <= l < |queues| && 0 <= i < |queues[l]| ==> Unfinished(queues[l][i], pcs, sizes)
  }

  /** The process a processor has taken and not dispatched yet. */
  function Pending(cpu: Cpu): seq<nat> {
    if cpu.pc.AtRecheck? && cpu.proc.Some? && cpu.timeLeft == 0 then [cpu.proc.value.pid] else []
  }

  ghost predicate CpuOk(cpu: Cpu, active: set<Pcb>, pcs: map<nat, nat>, sizes: map<nat, nat>,
                        slice: (Option<nat>, nat), timeSlot: nat) {
    && cpu.timeLeft <= timeSlot
    && (match cpu.proc
        case None =>
          cpu.timeLeft == 0 && !cpu.pc.AtPut? && !InRun(cpu.pc)
        case Some(p) =>
          && p in active && p.pid in pcs && p.pid in sizes
          && !cpu.pc.AtProbe? && !cpu.pc.AtTake? && !cpu.pc.Stopped?
          && (cpu.pc.AtPut? || cpu.pc.AtRecheck? || InRun(cpu.pc) ==> Unfinished(p, pcs, sizes))
          && (cpu.pc.AtAdvance? ==> cpu.pc.i == pcs[p.pid])
          && (cpu.pc.AtStore? ==> cpu.pc.i == cpu.pc.j == pcs[p.pid])
          && (cpu.pc.AtPut? ==> cpu.timeLeft == 0)
          && (InRun(cpu.pc) ==> cpu.timeLeft > 0)
          && (Pending(cpu) == [] ==> slice == (Some(p.pid), timeSlot - cpu.timeLeft)))
  }

  ghost predicate CpusOk(s: Os, timeSlot: nat) {
    forall c :: 0 <= c < |s.cpus| ==> CpuOk(s.cpus[c], s.active, s.pcs, s.sizes, Slice(s.log, c), timeSlot)
  }

  ghost function Pids(procs: set<Pcb>): set<nat> {
    set p | p in procs :: p.pid
  }

  /** The log is correct, and agrees with the program counters and the unfinished processes. */
  ghost predicate LogOk(log: seq<Event>, active: set<Pcb>, pcs: map<nat, nat>, sizes: map<nat, nat>, timeSlot: nat) {
    && WellRun(log, sizes, timeSlot)
    && (forall i :: Count(log, i) == if i in pcs then pcs[i] else 0)
    && (forall i :: Done(log, i) ==> i in pcs && i in sizes && pcs[i] == sizes[i])
    && (forall i :: i in pcs ==> (Done(log, i) <==> i !in Pids(active)))
  }

  ghost predicate Inv(s: Os, timeSlot: nat) {
    && Filed(s.sched)
    && OnePlace(s.sched.queues, s.cpus, s.active)
    && TablesOk(s.active, s.pcs, s.sizes)
    && QueuedUnfinished(s.sched.queues, s.pcs, s.sizes)
    && CpusOk(s, timeSlot)
    && LogOk(s.log, s.active, s.pcs, s.sizes, timeSlot)
  }

  lemma InvReady(s: Os, m: Move, timeSlot: nat)
    requires Inv(s, timeSlot) && Possible(s, m)
    ensures Ready(s, m)
  {
    if m.CpuMove? {
      assert CpuOk(s.cpus[m.c], s.active, s.pcs, s.sizes, Slice(s.log, m.c), timeSlot);
    }
  }

  // ---------------------------------------------------------------- the log, one event on

  lemma Append(log: seq<Event>, e: Event, p: nat, c: nat)
    ensures Count(log + [e], p) == Count(log, p) + (if e.Executed? && e.p == p then 1 else 0)
    ensures Slice(log + [e], c)
         == if e.Dispatched? && e.c == c then (Some(e.p), 0)
            else if e.Executed? && e.c == c then (Slice(log, c).0, Slice(log, c).1 + 1) else Slice(log, c)
    ensures Done(log + [e], p) <==> Done(log, p) || (e.Finished? && e.p == p)
  {
    var log' := log + [e];
    assert log'[..|log'| - 1] == log && log'[|log'| - 1] == e;
    if Done(log, p) {
      var i :| 0 <= i < |log| && log[i].Finished? && log[i].p == p;
      assert log'[i] == log[i];
    }
    if e.Finished? && e.p == p { assert log'[|log|] == e; }
  }

  lemma WellRunAppend(log: seq<Event>, e: Event, sizes: map<nat, nat>, timeSlot: nat)
    requires WellRun(log, sizes, timeSlot)
    requires match e
             case Executed(c, p, i) =>
               && p in sizes && i == Count(log, p) < sizes[p]
               && Slice(log, c).0 == Some(p) && Slice(log, c).1 < timeSlot
             case Finished(_, p) => p in sizes && Count(log, p) == sizes[p] && !Done(log, p)
             case _ => true
    ensures WellRun(log + [e], sizes, timeSlot)
  {
    var log' := log + [e];
    assert log'[..|log'| - 1] == log && log'[|log'| - 1] == e;
  }

  lemma {:induction false} WellRunMoreSizes(log: seq<Event>, sizes: map<nat, nat>, more: map<nat, nat>, timeSlot: nat)
    requires WellRun(log, sizes, timeSlot) && forall i :: i in sizes ==> i in more && more[i] == sizes[i]
    ensures WellRun(log, more, timeSlot)
  {
    if log != [] { WellRunMoreSizes(log[..|log| - 1], sizes, more, timeSlot); }
  }

  // ---------------------------------------------------------------- the queues, one process on

  lemma {:induction false} FitsIn(q: seq<Pcb>, procs: set<Pcb>)
    requires forall p :: multiset(q)[p] <= if p in procs then 1 else 0
    ensures |q| <= |procs|
  {
    if q != [] {
      var n := |q| - 1;
      var p := q[n];
      assert q == q[..n] + [p];
      assert multiset(q)[p] >= 1;
      forall x ensures multiset(q[..n])[x] <= if x in procs - {p} then 1 else 0 {
        assert multiset(q)[x] == multiset(q[..n])[x] + (if x == p then 1 else 0);
      }
      FitsIn(q[..n], procs - {p});
    }
  }

  /** No queue holds more processes than are unfinished at its level, so with fewer than ten of those
      or with one of them elsewhere the next one is not dropped. */
  lemma RoomToPut(s: Os, p: Pcb)
    requires Filed(s.sched) && OnePlace(s.sched.queues, s.cpus, s.active)
    requires p.prio < MAX_PRIO && InQueues(s.sched.queues, p) == 0
    requires var n := |OfPrio(s.active, p.prio)|; n < MAX_QUEUE_SIZE || (n <= MAX_QUEUE_SIZE && p in s.active)
    ensures |s.sched.queues[p.prio]| < MAX_QUEUE_SIZE
  {
    var q, level := s.sched.queues[p.prio], OfPrio(s.active, p.prio);
    assert OnePrio(q, p.prio);
    forall x ensures multiset(q)[x] <= if x in level - {p} then 1 else 0 {
      InQueuesUpdate(s.sched.queues, p.prio, [], x);
      assert InQueues(s.sched.queues, x) + OnCpus(s.cpus, x) == if x in s.active then 1 else 0;
      if x in multiset(q) { assert x in q; }
    }
    FitsIn(q, level - {p});
  }

  lemma PutShape(q: Sched, p: Pcb)
    requires Filed(q) && p.prio < MAX_PRIO && |q.queues[p.prio]| < MAX_QUEUE_SIZE
    ensures Filed(Put(q, p))
    ensures Put(q, p).queues == q.queues[p.prio := q.queues[p.prio] + [p]]
    ensures forall x :: InQueues(Put(q, p).queues, x) == InQueues(q.queues, x) + (if x == p then 1 else 0)
  {
    MlqScheduler.NextFiled(q, MlqScheduler.PutProc(p));
    var l := q.queues[p.prio];
    forall x ensures InQueues(Put(q, p).queues, x) == InQueues(q.queues, x) + (if x == p then 1 else 0) {
      InQueuesUpdate(q.queues, p.prio, l + [p], x);
      assert multiset(l + [p])[x] == multiset(l)[x] + (if x == p then 1 else 0);
    }
  }

  lemma TakeShape(q: Sched)
    requires Filed(q)
    ensures Filed(Get(q).0)
    ensures var (q', proc) := Get(q);
            && (proc.None? ==> q'.queues == q.queues)
            && (proc.Some? ==> exists l :: 0 <= l < MAX_PRIO && q.queues[l] != [] && q.queues[l][0] == proc.value
                                           && q'.queues == q.queues[l := q.queues[l][1..]])
  {
    MlqScheduler.NextFiled(q, MlqScheduler.GetProc);
    var l := Choose(q.cursor, InUse(q.queues)).1;
    assert OnePrio(q.queues[l], l);
    if q.queues[l] != [] {
      OnePrioIsFifo(q.queues[l], l);
    } else {
      assert q.queues[l := q.queues[l]] == q.queues;
    }
  }

  lemma FirstAndRest(q: seq<Pcb>, x: Pcb)
    requires q != []
    ensures multiset(q)[x] == (if q[0] == x then 1 else 0) + multiset(q[1..])[x]
  {
    assert q == [q[0]] + q[1..];
  }

  lemma TakeCounts(q: Sched, x: Pcb)
    requires Filed(q)
    ensures InQueues(Get(q).0.queues, x) + (if Get(q).1 == Some(x) then 1 else 0) == InQueues(q.queues, x)
  {
    TakeShape(q);
    hide Get, Filed, InQueues;
    var (q', proc) := Get(q);
    if proc.Some? {
      var l :| 0 <= l < MAX_PRIO && q.queues[l] != [] && q.queues[l][0] == proc.value
               && q'.queues == q.queues[l := q.queues[l][1..]];
      InQueuesUpdate(q.queues, l, q.queues[l][1..], x);
      FirstAndRest(q.queues[l], x);
    }
  }

  lemma QueuedIsCounted(qs: seq<seq<Pcb>>, l: nat, i: nat)
    requires l < |qs| && i < |qs[l]|
    ensures InQueues(qs, qs[l][i]) >= 1
  {
    InQueuesUpdate(qs, l, [], qs[l][i]);
    assert qs[l][i] in multiset(qs[l]);
  }

  /** A process on a processor is in no queue and on no other processor. */
  lemma OnlyHere(s: Os, c: nat)
    requires OnePlace(s.sched.queues, s.cpus, s.active) && c < |s.cpus| && s.cpus[c].proc.Some?
    ensures s.cpus[c].proc.value in s.active && InQueues(s.sched.queues, s.cpus[c].proc.value) == 0
    ensures forall d :: 0 <= d < |s.cpus| && d != c ==> s.cpus[d].proc != s.cpus[c].proc
  {
    var p := s.cpus[c].proc.value;
    OnCpusUpdate(s.cpus, c, s.cpus[c], p);
    assert InQueues(s.sched.queues, p) + OnCpus(s.cpus, p) == if p in s.active then 1 else 0;
    forall d | 0 <= d < |s.cpus| && d != c ensures s.cpus[d].proc != s.cpus[c].proc {
      if s.cpus[d].proc == s.cpus[c].proc { OnTwoCpus(s.cpus, c, d, p); }
    }
  }

  // ---------------------------------------------------------------- every step keeps the invariant

  ghost predicate MayBe(s: Os, c: nat, cpu: Cpu, timeSlot: nat) {
    CpuOk(cpu, s.active, s.pcs, s.sizes, Slice(s.log, c), timeSlot)
  }

  /** A step that only moves processor c along with the process it has. */
  lemma CpuOnly(s: Os, c: nat, cpu: Cpu, timeSlot: nat)
    requires Inv(s, timeSlot) && c < |s.cpus| && cpu.proc == s.cpus[c].proc && MayBe(s, c, cpu, timeSlot)
    ensures Inv(WithCpu(s, c, cpu), timeSlot)
  {
    hide Filed, LogOk, TablesOk, QueuedUnfinished, CpuOk;
    var s' := WithCpu(s, c, cpu);
    forall p ensures OnCpus(s'.cpus, p) == OnCpus(s.cpus, p) { OnCpusUpdate(s.cpus, c, cpu, p); }
  }

  /** The state after processor c has become `cpu` and the scheduler `sched`. */
  function Moved(s: Os, c: nat, cpu: Cpu, sched: Sched): Os
    requires c < |s.cpus|
  {
    WithCpu(s, c, cpu).(sched := sched)
  }

  lemma MovedKeepsInv(s: Os, c: nat, cpu: Cpu, sched: Sched, timeSlot: nat)
    requires Inv(s, timeSlot) && c < |s.cpus| && MayBe(s, c, cpu, timeSlot)
    requires Filed(sched) && QueuedUnfinished(sched.queues, s.pcs, s.sizes)
    requires forall x :: InQueues(sched.queues, x) + OnCpu(cpu, x)
                      == InQueues(s.sched.queues, x) + OnCpu(s.cpus[c], x)
    ensures Inv(Moved(s, c, cpu, sched), timeSlot)
  {
    hide Filed, LogOk, TablesOk, QueuedUnfinished, CpuOk, OnCpu;
    var s' := Moved(s, c, cpu, sched);
    forall x ensures InQueues(s'.sched.queues, x) + OnCpus(s'.cpus, x) == if x in s'.active then 1 else 0 {
      OnCpusUpdate(s.cpus, c, cpu, x);
    }
  }

  lemma QueuedAfterPut(queues: seq<seq<Pcb>>, l: nat, p: Pcb, pcs: map<nat, nat>, sizes: map<nat, nat>)
    requires QueuedUnfinished(queues, pcs, sizes) && l < |queues| && Unfinished(p, pcs, sizes)
    ensures QueuedUnfinished(queues[l := queues[l] + [p]], pcs, sizes)
  {
  }

  lemma PutStep(s: Os, c: nat, timeSlot: nat)
    requires Inv(s, timeSlot) && c < |s.cpus| && s.cpus[c].pc.AtPut?
    ensures CpuReady(s, c) && Inv(CpuNext(s, c, timeSlot), timeSlot)
  {
    assert MayBe(s, c, s.cpus[c], timeSlot);
    var p, cpu := s.cpus[c].proc.value, Cpu(AtProbe(false), None, 0);
    assert CpuNext(s, c, timeSlot) == Moved(s, c, cpu, Put(s.sched, p));
    assert MayBe(s, c, cpu, timeSlot);
    OnlyHere(s, c);
    RoomToPut(s, p);
    PutShape(s.sched, p);
    QueuedAfterPut(s.sched.queues, p.prio, p, s.pcs, s.sizes);
    hide Inv, Put, CpuNext, CpuOk, QueuedUnfinished;
    MovedKeepsInv(s, c, cpu, Put(s.sched, p), timeSlot);
  }

  lemma TakeEffect(s: Os, c: nat, timeSlot: nat)
    requires Inv(s, timeSlot) && c < |s.cpus| && s.cpus[c].pc.AtTake?
    ensures CpuReady(s, c)
    ensures var s' := CpuNext(s, c, timeSlot);
            var (sched, proc) := Get(s.sched);
            s' == Moved(s, c, s'.cpus[c], sched)
            && s'.cpus[c] == Cpu(if s.cpus[c].pc.first && proc.None? then AtSlot else AtRecheck, proc, 0)
            && s.cpus[c].proc.None?
  {
    hide Get, LogOk;
    assert MayBe(s, c, s.cpus[c], timeSlot);
  }

  /** The process a locked get returns is unfinished, and what stays queued is too. */
  lemma TakenUnfinished(s: Os)
    requires Filed(s.sched) && QueuedUnfinished(s.sched.queues, s.pcs, s.sizes)
    requires OnePlace(s.sched.queues, s.cpus, s.active)
    ensures var (sched, proc) := Get(s.sched);
            && QueuedUnfinished(sched.queues, s.pcs, s.sizes)
            && (proc.Some? ==> proc.value in s.active && Unfinished(proc.value, s.pcs, s.sizes))
  {
    TakeShape(s.sched);
    hide Get, Filed;
    var (sched, proc) := Get(s.sched);
    if proc.Some? {
      var l :| 0 <= l < MAX_PRIO && s.sched.queues[l] != [] && s.sched.queues[l][0] == proc.value
               && sched.queues == s.sched.queues[l := s.sched.queues[l][1..]];
      QueuedIsCounted(s.sched.queues, l, 0);
    }
  }

  lemma TakenOk(s: Os, c: nat, cpu: Cpu, timeSlot: nat)
    requires cpu.timeLeft == 0 && (cpu.pc.AtRecheck? || (cpu.pc.AtSlot? && cpu.proc.None?))
    requires cpu.proc.Some? ==> cpu.proc.value in s.active && Unfinished(cpu.proc.value, s.pcs, s.sizes)
    ensures MayBe(s, c, cpu, timeSlot)
  {
  }

  lemma TakeStep(s: Os, c: nat, timeSlot: nat)
    requires Inv(s, timeSlot) && c < |s.cpus| && s.cpus[c].pc.AtTake?
    ensures CpuReady(s, c) && Inv(CpuNext(s, c, timeSlot), timeSlot)
  {
    hide Get, CpuNext, CpuReady, CpuOk, QueuedUnfinished, OnePlace, TablesOk, LogOk, MayBe;
    TakeEffect(s, c, timeSlot);
    TakenUnfinished(s);
    TakeShape(s.sched);
    var (sched, proc) := Get(s.sched);
    var cpu := CpuNext(s, c, timeSlot).cpus[c];
    forall x ensures InQueues(sched.queues, x) + OnCpu(cpu, x) == InQueues(s.sched.queues, x) + OnCpu(s.cpus[c], x) {
      TakeCounts(s.sched, x);
    }
    TakenOk(s, c, cpu, timeSlot);
    hide Inv;
    MovedKeepsInv(s, c, cpu, sched, timeSlot);
  }

  // -- steps that write to the log

  /** Processor c keeps its process. */
  lemma SamePlaces(queues: seq<seq<Pcb>>, cpus: seq<Cpu>, active: set<Pcb>, c: nat, cpu: Cpu)
    requires OnePlace(queues, cpus, active) && c < |cpus| && cpu.proc == cpus[c].proc
    ensures OnePlace(queues, cpus[c := cpu], active)
  {
    forall x ensures OnCpus(cpus[c := cpu], x) == OnCpus(cpus, x) { OnCpusUpdate(cpus, c, cpu, x); }
  }

  /** Processor c drops its process, which is no longer active. */
  lemma FewerPlaces(queues: seq<seq<Pcb>>, cpus: seq<Cpu>, active: set<Pcb>, c: nat, cpu: Cpu)
    requires OnePlace(queues, cpus, active) && c < |cpus| && cpus[c].proc.Some? && cpu.proc.None?
    ensures OnePlace(queues, cpus[c := cpu], active - {cpus[c].proc.value})
  {
    var p := cpus[c].proc.value;
    forall x ensures InQueues(queues, x) + OnCpus(cpus[c := cpu], x) == if x in active - {p} then 1 else 0 {
      OnCpusUpdate(cpus, c, cpu, x);
      assert InQueues(queues, x) + OnCpus(cpus, x) == if x in active then 1 else 0;
    }
  }

  /** The log after event e, for everything but the counters of e's own process. */
  lemma CpusAfterEvent(s: Os, c: nat, e: Event, timeSlot: nat)
    requires CpusOk(s, timeSlot) && (e.Dispatched? || e.Executed? ==> e.c == c)
    ensures forall d :: 0 <= d < |s.cpus| && d != c ==>
              CpuOk(s.cpus[d], s.active, s.pcs, s.sizes, Slice(s.log + [e], d), timeSlot)
  {
    hide CpuOk;
    forall d | 0 <= d < |s.cpus| && d != c
      ensures CpuOk(s.cpus[d], s.active, s.pcs, s.sizes, Slice(s.log + [e], d), timeSlot)
    {
      Append(s.log, e, 0, d);
    }
  }

  lemma DispatchMove(s: Os, c: nat, timeSlot: nat)
    requires CpuReady(s, c)
    requires s.cpus[c].pc.AtRecheck? && s.cpus[c].proc.Some? && s.cpus[c].timeLeft == 0
    ensures CpuNext(s, c, timeSlot)
         == WithCpu(s, c, s.cpus[c].(pc := AtRun, timeLeft := timeSlot))
            .(log := s.log + [Dispatched(c, s.cpus[c].proc.value.pid)])
  {
  }

  /** A dispatch opens a slice of the whole time slot. */
  lemma DispatchOk(s: Os, c: nat, timeSlot: nat)
    requires c < |s.cpus| && MayBe(s, c, s.cpus[c], timeSlot) && timeSlot > 0
    requires s.cpus[c].pc.AtRecheck? && s.cpus[c].proc.Some?
    ensures var e, cpu := Dispatched(c, s.cpus[c].proc.value.pid), s.cpus[c].(pc := AtRun, timeLeft := timeSlot);
            CpuOk(cpu, s.active, s.pcs, s.sizes, Slice(s.log + [e], c), timeSlot)
  {
    Append(s.log, Dispatched(c, s.cpus[c].proc.value.pid), 0, c);
    hide Slice;
  }

  lemma SameCounts(log: seq<Event>, e: Event)
    requires !e.Executed? && !e.Finished?
    ensures forall i :: Count(log + [e], i) == Count(log, i)
    ensures forall i :: Done(log + [e], i) <==> Done(log, i)
  {
    hide Count, Done;
    forall i: nat ensures Count(log + [e], i) == Count(log, i) && (Done(log + [e], i) <==> Done(log, i)) {
      Append(log, e, i, 0);
    }
  }

  lemma LogAfterDispatch(log: seq<Event>, active: set<Pcb>, pcs: map<nat, nat>, sizes: map<nat, nat>, timeSlot: nat,
                         c: nat, p: nat)
    requires LogOk(log, active, pcs, sizes, timeSlot)
    ensures LogOk(log + [Dispatched(c, p)], active, pcs, sizes, timeSlot)
  {
    WellRunAppend(log, Dispatched(c, p), sizes, timeSlot);
    SameCounts(log, Dispatched(c, p));
  }

  lemma DispatchStep(s: Os, c: nat, timeSlot: nat)
    requires Inv(s, timeSlot) && timeSlot > 0 && c < |s.cpus|
    requires s.cpus[c].pc.AtRecheck? && s.cpus[c].proc.Some? && s.cpus[c].timeLeft == 0
    ensures CpuReady(s, c) && Inv(CpuNext(s, c, timeSlot), timeSlot)
  {
    hide CpuNext, CpuReady, CpuOk, LogOk, Filed, TablesOk, QueuedUnfinished, OnePlace, Slice;
    InvReady(s, CpuMove(c), timeSlot);
    DispatchMove(s, c, timeSlot);
    DispatchOk(s, c, timeSlot);
    var e, cpu := Dispatched(c, s.cpus[c].proc.value.pid), s.cpus[c].(pc := AtRun, timeLeft := timeSlot);
    CpusAfterEvent(s, c, e, timeSlot);
    LogAfterDispatch(s.log, s.active, s.pcs, s.sizes, timeSlot, c, e.p);
    SamePlaces(s.sched.queues, s.cpus, s.active, c, cpu);
  }

  lemma LogAfterExecute(log: seq<Event>, active: set<Pcb>, pcs: map<nat, nat>, sizes: map<nat, nat>, timeSlot: nat,
                        c: nat, p: Pcb)
    requires LogOk(log, active, pcs, sizes, timeSlot) && Unfinished(p, pcs, sizes)
    requires Slice(log, c).0 == Some(p.pid) && Slice(log, c).1 < timeSlot
    ensures LogOk(log + [Executed(c, p.pid, pcs[p.pid])], active, pcs[p.pid := pcs[p.pid] + 1], sizes, timeSlot)
  {
    var e := Executed(c, p.pid, pcs[p.pid]);
    assert Count(log, p.pid) == pcs[p.pid];
    WellRunAppend(log, e, sizes, timeSlot);
    forall i: nat
      ensures Count(log + [e], i) == Count(log, i) + (if i == p.pid then 1 else 0)
      ensures Done(log + [e], i) <==> Done(log, i)
    {
      Append(log, e, i, c);
    }
  }

  lemma LogAfterFinish(log: seq<Event>, active: set<Pcb>, pcs: map<nat, nat>, sizes: map<nat, nat>, timeSlot: nat,
                       c: nat, p: Pcb)
    requires LogOk(log, active, pcs, sizes, timeSlot) && TablesOk(active, pcs, sizes)
    requires p in active && pcs[p.pid] == sizes[p.pid]
    ensures LogOk(log + [Finished(c, p.pid)], active - {p}, pcs, sizes, timeSlot)
  {
    var e := Finished(c, p.pid);
    assert p.pid in Pids(active) && !Done(log, p.pid) && Count(log, p.pid) == pcs[p.pid];
    WellRunAppend(log, e, sizes, timeSlot);
    forall i: nat
      ensures Count(log + [e], i) == Count(log, i)
      ensures Done(log + [e], i) <==> Done(log, i) || i == p.pid
      ensures i in Pids(active - {p}) <==> i in Pids(active) && i != p.pid
    {
      Append(log, e, i, c);
      if i in Pids(active) && i != p.pid {
        var q :| q in active && q.pid == i;
        assert q in active - {p};
      }
    }
  }

  lemma PidsAdd(active: set<Pcb>, p: Pcb)
    ensures Pids(active + {p}) == Pids(active) + {p.pid}
  {
    assert p in active + {p};
    forall i | i in Pids(active) ensures i in Pids(active + {p}) {
      var q :| q in active && q.pid == i;
      assert q in active + {p};
    }
  }

  lemma LogAfterLoad(log: seq<Event>, active: set<Pcb>, pcs: map<nat, nat>, sizes: map<nat, nat>, timeSlot: nat,
                     p: Pcb, size: nat)
    requires LogOk(log, active, pcs, sizes, timeSlot) && pcs.Keys == sizes.Keys && p.pid !in pcs && size > 0
    ensures LogOk(log + [Loaded(p.pid)], active + {p}, pcs[p.pid := 0], sizes[p.pid := size], timeSlot)
  {
    hide WellRun, Count, Done, Pids;
    var e, more := Loaded(p.pid), sizes[p.pid := size];
    WellRunMoreSizes(log, sizes, more, timeSlot);
    WellRunAppend(log, e, more, timeSlot);
    PidsAdd(active, p);
    SameCounts(log, e);
  }

  /** Running one instruction of the process on processor c leaves all other processes alone. */
  lemma OthersUnaffected(s: Os, c: nat, p: Pcb, x: Pcb)
    requires OnePlace(s.sched.queues, s.cpus, s.active) && TablesOk(s.active, s.pcs, s.sizes)
    requires c < |s.cpus| && s.cpus[c].proc == Some(p)
    requires (exists d :: 0 <= d < |s.cpus| && d != c && s.cpus[d].proc == Some(x)) || InQueues(s.sched.queues, x) > 0
    ensures x != p && x in s.active && x.pid != p.pid
  {
    OnlyHere(s, c);
    if d :| 0 <= d < |s.cpus| && d != c && s.cpus[d].proc == Some(x) {
      OnlyHere(s, d);
    } else {
      assert InQueues(s.sched.queues, x) + OnCpus(s.cpus, x) == if x in s.active then 1 else 0;
    }
  }

  lemma QueuedAfterRun(s: Os, c: nat, p: Pcb, pc: nat)
    requires OnePlace(s.sched.queues, s.cpus, s.active) && TablesOk(s.active, s.pcs, s.sizes)
    requires QueuedUnfinished(s.sched.queues, s.pcs, s.sizes) && c < |s.cpus| && s.cpus[c].proc == Some(p)
    ensures QueuedUnfinished(s.sched.queues, s.pcs[p.pid := pc], s.sizes)
  {
    hide OnePlace, TablesOk;
    forall l, k | 0 <= l < |s.sched.queues| && 0 <= k < |s.sched.queues[l]|
      ensures Unfinished(s.sched.queues[l][k], s.pcs[p.pid := pc], s.sizes)
    {
      QueuedIsCounted(s.sched.queues, l, k);
      OthersUnaffected(s, c, p, s.sched.queues[l][k]);
    }
  }

  lemma CpusAfterRun(s: Os, c: nat, p: Pcb, pc: nat, e: Event, timeSlot: nat)
    requires OnePlace(s.sched.queues, s.cpus, s.active) && TablesOk(s.active, s.pcs, s.sizes) && CpusOk(s, timeSlot)
    requires c < |s.cpus| && s.cpus[c].proc == Some(p) && e.Executed? && e.c == c
    ensures forall d :: 0 <= d < |s.cpus| && d != c ==>
              CpuOk(s.cpus[d], s.active, s.pcs[p.pid := pc], s.sizes, Slice(s.log + [e], d), timeSlot)
  {
    hide OnePlace, TablesOk;
    forall d | 0 <= d < |s.cpus| && d != c
      ensures CpuOk(s.cpus[d], s.active, s.pcs[p.pid := pc], s.sizes, Slice(s.log + [e], d), timeSlot)
    {
      Append(s.log, e, 0, d);
      if s.cpus[d].proc.Some? { OthersUnaffected(s, c, p, s.cpus[d].proc.value); }
    }
  }

  lemma StoreMove(s: Os, c: nat, timeSlot: nat)
    requires CpuReady(s, c) && s.cpus[c].pc.AtStore?
    ensures var i, j, p := s.cpus[c].pc.i, s.cpus[c].pc.j, s.cpus[c].proc.value.pid;
            CpuNext(s, c, timeSlot)
            == WithCpu(s, c, RunCpu(s.cpus[c])).(pcs := s.pcs[p := j + 1], log := s.log + [Executed(c, p, i)])
  {
  }

  /** The program counter still has the value it had at the fetch, it lies inside the code, and there
      is a slot left to run the instruction in. */
  lemma StoreOk(s: Os, c: nat, timeSlot: nat)
    requires c < |s.cpus| && MayBe(s, c, s.cpus[c], timeSlot) && s.cpus[c].pc.AtStore?
    ensures s.cpus[c].proc.Some? && s.cpus[c].timeLeft > 0
    ensures var p := s.cpus[c].proc.value;
            && Unfinished(p, s.pcs, s.sizes) && s.cpus[c].pc.i == s.cpus[c].pc.j == s.pcs[p.pid]
            && Slice(s.log, c).0 == Some(p.pid) && Slice(s.log, c).1 < timeSlot
            && CpuOk(RunCpu(s.cpus[c]), s.active, s.pcs[p.pid := s.pcs[p.pid] + 1], s.sizes,
                     Slice(s.log + [Executed(c, p.pid, s.pcs[p.pid])], c), timeSlot)
  {
    hide Slice;
    var p := s.cpus[c].proc.value;
    Append(s.log, Executed(c, p.pid, s.pcs[p.pid]), 0, c);
  }

  lemma TablesAfterRun(active: set<Pcb>, pcs: map<nat, nat>, sizes: map<nat, nat>, p: Pcb)
    requires TablesOk(active, pcs, sizes) && Unfinished(p, pcs, sizes)
    ensures TablesOk(active, pcs[p.pid := pcs[p.pid] + 1], sizes)
  {
  }

  lemma StoreStep(s: Os, c: nat, timeSlot: nat)
    requires Inv(s, timeSlot) && c < |s.cpus| && s.cpus[c].pc.AtStore?
    ensures CpuReady(s, c) && Inv(CpuNext(s, c, timeSlot), timeSlot)
  {
    hide CpuNext, CpuReady, CpuOk, LogOk, Filed, TablesOk, QueuedUnfinished, OnePlace, Slice;
    InvReady(s, CpuMove(c), timeSlot);
    StoreOk(s, c, timeSlot);
    StoreMove(s, c, timeSlot);
    var p := s.cpus[c].proc.value;
    var i := s.pcs[p.pid];
    QueuedAfterRun(s, c, p, i + 1);
    CpusAfterRun(s, c, p, i + 1, Executed(c, p.pid, i), timeSlot);
    LogAfterExecute(s.log, s.active, s.pcs, s.sizes, timeSlot, c, p);
    TablesAfterRun(s.active, s.pcs, s.sizes, p);
    SamePlaces(s.sched.queues, s.cpus, s.active, c, RunCpu(s.cpus[c]));
  }

  lemma FinishEffect(s: Os, c: nat, timeSlot: nat)
    requires CpuReady(s, c) && s.cpus[c].pc.AtTop? && s.cpus[c].proc.Some?
    requires s.pcs[s.cpus[c].proc.value.pid] == s.sizes[s.cpus[c].proc.value.pid]
    ensures var p := s.cpus[c].proc.value;
            var idle := WithCpu(s, c, Cpu(AtProbe(false), None, 0));
            CpuNext(s, c, timeSlot) == idle.(active := s.active - {p}, log := s.log + [Finished(c, p.pid)])
  {
  }

  lemma CpusAfterFinish(s: Os, c: nat, e: Event, timeSlot: nat)
    requires OnePlace(s.sched.queues, s.cpus, s.active) && CpusOk(s, timeSlot)
    requires c < |s.cpus| && s.cpus[c].proc.Some? && e.Finished?
    ensures forall d :: 0 <= d < |s.cpus| && d != c ==>
              CpuOk(s.cpus[d], s.active - {s.cpus[c].proc.value}, s.pcs, s.sizes, Slice(s.log + [e], d), timeSlot)
  {
    OnlyHere(s, c);
    hide OnePlace, Slice;
    forall d | 0 <= d < |s.cpus| && d != c
      ensures CpuOk(s.cpus[d], s.active - {s.cpus[c].proc.value}, s.pcs, s.sizes, Slice(s.log + [e], d), timeSlot)
    {
      Append(s.log, e, 0, d);
    }
  }

  lemma LevelsAfterFinish(active: set<Pcb>, p: Pcb)
    requires LevelsOk(active)
    ensures LevelsOk(active - {p})
  {
    forall v ensures |OfPrio(active - {p}, v)| <= MAX_QUEUE_SIZE {
      var rest, level := OfPrio(active - {p}, v), OfPrio(active, v);
      assert level == rest + (level - rest);
    }
  }

  lemma TablesAfterFinish(active: set<Pcb>, pcs: map<nat, nat>, sizes: map<nat, nat>, p: Pcb)
    requires TablesOk(active, pcs, sizes) && p in active
    ensures TablesOk(active - {p}, pcs, sizes)
  {
    LevelsAfterFinish(active, p);
    hide LevelsOk;
  }

  lemma IdleOk(active: set<Pcb>, pcs: map<nat, nat>, sizes: map<nat, nat>, slice: (Option<nat>, nat), timeSlot: nat)
    ensures CpuOk(Cpu(AtProbe(false), None, 0), active, pcs, sizes, slice, timeSlot)
  {
  }

  lemma FinishStep(s: Os, c: nat, timeSlot: nat)
    requires Inv(s, timeSlot) && c < |s.cpus| && s.cpus[c].pc.AtTop? && s.cpus[c].proc.Some?
    requires CpuReady(s, c) && s.pcs[s.cpus[c].proc.value.pid] == s.sizes[s.cpus[c].proc.value.pid]
    ensures Inv(CpuNext(s, c, timeSlot), timeSlot)
  {
    FinishEffect(s, c, timeSlot);
    hide CpuNext, CpuReady, CpuOk, LogOk, Filed, QueuedUnfinished, OnePlace, TablesOk, Slice;
    var p := s.cpus[c].proc.value;
    OnlyHere(s, c);
    var e := Finished(c, p.pid);
    LogAfterFinish(s.log, s.active, s.pcs, s.sizes, timeSlot, c, p);
    CpusAfterFinish(s, c, e, timeSlot);
    IdleOk(s.active - {p}, s.pcs, s.sizes, Slice(s.log + [e], c), timeSlot);
    TablesAfterFinish(s.active, s.pcs, s.sizes, p);
    FewerPlaces(s.sched.queues, s.cpus, s.active, c, Cpu(AtProbe(false), None, 0));
  }

  lemma CpusAfterLoad(s: Os, p: Pcb, size: nat, e: Event, timeSlot: nat)
    requires CpusOk(s, timeSlot) && p.pid !in s.pcs && e.Loaded?
    ensures forall d :: 0 <= d < |s.cpus| ==>
              CpuOk(s.cpus[d], s.active + {p}, s.pcs[p.pid := 0], s.sizes[p.pid := size],
                    Slice(s.log + [e], d), timeSlot)
  {
    hide Slice;
    forall d | 0 <= d < |s.cpus|
      ensures CpuOk(s.cpus[d], s.active + {p}, s.pcs[p.pid := 0], s.sizes[p.pid := size],
                    Slice(s.log + [e], d), timeSlot)
    {
      Append(s.log, e, 0, d);
    }
  }

  lemma QueuedAfterLoad(queues: seq<seq<Pcb>>, pcs: map<nat, nat>, sizes: map<nat, nat>, p: Pcb, size: nat)
    requires QueuedUnfinished(queues, pcs, sizes) && p.pid !in pcs && size > 0 && p.prio < |queues|
    ensures QueuedUnfinished(queues[p.prio := queues[p.prio] + [p]], pcs[p.pid := 0], sizes[p.pid := size])
  {
    var pcs', sizes' := pcs[p.pid := 0], sizes[p.pid := size];
    assert forall x :: Unfinished(x, pcs, sizes) ==> Unfinished(x, pcs', sizes');
    QueuedAfterPut(queues, p.prio, p, pcs', sizes');
  }

  /** A process not loaded before is nowhere, and there is room for it in its queue. */
  lemma RoomToLoad(s: Os, p: Pcb, size: nat)
    requires Filed(s.sched) && OnePlace(s.sched.queues, s.cpus, s.active) && TablesOk(s.active, s.pcs, s.sizes)
    requires Loadable(s, p, size)
    ensures p !in s.active && |s.sched.queues[p.prio]| < MAX_QUEUE_SIZE
  {
    assert InQueues(s.sched.queues, p) + OnCpus(s.cpus, p) == 0;
    RoomToPut(s, p);
  }

  lemma MorePlaces(s: Os, p: Pcb)
    requires OnePlace(s.sched.queues, s.cpus, s.active) && p !in s.active
    requires Filed(s.sched) && p.prio < MAX_PRIO && |s.sched.queues[p.prio]| < MAX_QUEUE_SIZE
    ensures OnePlace(Put(s.sched, p).queues, s.cpus, s.active + {p})
  {
    PutShape(s.sched, p);
  }

  lemma LevelsAfterLoad(active: set<Pcb>, p: Pcb)
    requires LevelsOk(active) && |OfPrio(active, p.prio)| < MAX_QUEUE_SIZE
    ensures LevelsOk(active + {p})
  {
    forall v ensures |OfPrio(active + {p}, v)| <= MAX_QUEUE_SIZE {
      assert OfPrio(active + {p}, v) == OfPrio(active, v) + (if p.prio == v then {p} else {});
    }
  }

  lemma TablesAfterLoad(active: set<Pcb>, pcs: map<nat, nat>, sizes: map<nat, nat>, p: Pcb, size: nat)
    requires TablesOk(active, pcs, sizes) && p.pid !in pcs && p.prio < MAX_PRIO
    requires |OfPrio(active, p.prio)| < MAX_QUEUE_SIZE
    ensures TablesOk(active + {p}, pcs[p.pid := 0], sizes[p.pid := size])
  {
    LevelsAfterLoad(active, p);
    hide LevelsOk, OfPrio;
  }

  lemma LoadStep(s: Os, p: Pcb, size: nat, timeSlot: nat)
    requires Inv(s, timeSlot) && Loadable(s, p, size)
    ensures Ready(s, Load(p, size)) && Inv(Next(s, Load(p, size), timeSlot), timeSlot)
  {
    assert s.sched.Valid();
    assert s.pcs.Keys == s.sizes.Keys;
    hide LogOk, Filed, QueuedUnfinished, OnePlace, TablesOk, CpuOk, Slice, Put;
    RoomToLoad(s, p, size);
    PutShape(s.sched, p);
    MorePlaces(s, p);
    LogAfterLoad(s.log, s.active, s.pcs, s.sizes, timeSlot, p, size);
    QueuedAfterLoad(s.sched.queues, s.pcs, s.sizes, p, size);
    CpusAfterLoad(s, p, size, Loaded(p.pid), timeSlot);
    TablesAfterLoad(s.active, s.pcs, s.sizes, p, size);
  }

  /** The moves that change nothing but the program counter of processor c. */
  predicate Quiet(s: Os, c: nat)
    requires CpuReady(s, c)
  {
    var cpu := s.cpus[c];
    match cpu.pc
    case AtTop => cpu.proc.None? || s.pcs[cpu.proc.value.pid] != s.sizes[cpu.proc.value.pid]
    case AtRecheck => cpu.proc.None? || cpu.timeLeft > 0
    case AtProbe(_) => true
    case AtSlot => true
    case AtRun => true
    case AtFetch => true
    case AtAdvance(_) => true
    case _ => false
  }

  lemma QuietMove(s: Os, c: nat, timeSlot: nat)
    requires CpuReady(s, c) && Quiet(s, c) && MayBe(s, c, s.cpus[c], timeSlot) && s.pcs.Keys == s.sizes.Keys
    requires forall i :: i in s.pcs ==> s.pcs[i] <= s.sizes[i]
    ensures var cpu := CpuNext(s, c, timeSlot).cpus[c];
            && CpuNext(s, c, timeSlot) == WithCpu(s, c, cpu)
            && cpu.proc == s.cpus[c].proc && MayBe(s, c, cpu, timeSlot)
  {
    hide Slice, NoneQueued;
  }

  lemma QuietStep(s: Os, c: nat, timeSlot: nat)
    requires Inv(s, timeSlot) && c < |s.cpus| && CpuReady(s, c) && Quiet(s, c)
    ensures Inv(CpuNext(s, c, timeSlot), timeSlot)
  {
    hide CpuNext, CpuReady, CpuOk, LogOk, Filed, QueuedUnfinished, OnePlace, Slice, Quiet;
    QuietMove(s, c, timeSlot);
    CpuOnly(s, c, CpuNext(s, c, timeSlot).cpus[c], timeSlot);
  }

  lemma CpuMoveKeepsInv(s: Os, c: nat, timeSlot: nat)
    requires Inv(s, timeSlot) && timeSlot > 0 && CpuReady(s, c)
    ensures Inv(CpuNext(s, c, timeSlot), timeSlot)
  {
    hide Inv;
    if Quiet(s, c) {
      QuietStep(s, c, timeSlot);
    } else {
      match s.cpus[c].pc
      case AtTop => FinishStep(s, c, timeSlot);
      case AtPut => PutStep(s, c, timeSlot);
      case AtTake(_) => TakeStep(s, c, timeSlot);
      case AtRecheck => DispatchStep(s, c, timeSlot);
      case AtStore(_, _) => StoreStep(s, c, timeSlot);
      case Stopped =>
    }
  }

  /** Every step of every processor and of the loader keeps the invariant. */
  lemma NextKeepsInv(s: Os, m: Move, timeSlot: nat)
    requires Inv(s, timeSlot) && timeSlot > 0 && Ready(s, m) && Possible(s, m)
    ensures Inv(Next(s, m, timeSlot), timeSlot)
  {
    hide CpuNext, CpuReady, CpuOk, LogOk, Filed, QueuedUnfinished, OnePlace, TablesOk, Slice, Put;
    match m
    case CpuMove(c) => CpuMoveKeepsInv(s, c, timeSlot);
    case Load(p, size) => LoadStep(s, p, size, timeSlot);
    case LoaderDone =>
  }

  // ---------------------------------------------------------------- every reachable state

  lemma {:induction false} NothingQueued(qs: seq<seq<Pcb>>, p: Pcb)
    requires forall l :: 0 <= l < |qs| ==> qs[l] == []
    ensures InQueues(qs, p) == 0
  {
    if qs != [] { NothingQueued(qs[..|qs| - 1], p); }
  }

  lemma {:induction false} NothingRunning(cpus: seq<Cpu>, p: Pcb)
    requires forall c :: 0 <= c < |cpus| ==> cpus[c].proc.None?
    ensures OnCpus(cpus, p) == 0
  {
    if cpus != [] { NothingRunning(cpus[..|cpus| - 1], p); }
  }

  lemma InitialInv(cpus: nat, timeSlot: nat)
    ensures Inv(Initial(cpus), timeSlot)
  {
    var s := Initial(cpus);
    forall p ensures InQueues(s.sched.queues, p) + OnCpus(s.cpus, p) == 0 {
      NothingQueued(s.sched.queues, p);
      NothingRunning(s.cpus, p);
    }
  }

  /** The state after the moves ms on `cpus` processors, if they are possible. */
  function After(cpus: nat, ms: seq<Move>, timeSlot: nat): Option<Os> {
    if ms == [] then Some(Initial(cpus))
    else
      var m := ms[|ms| - 1];
      match After(cpus, ms[..|ms| - 1], timeSlot)
      case None => None
      case Some(s) => if Ready(s, m) && Possible(s, m) then Some(Next(s, m, timeSlot)) else None
  }

  ghost predicate Reachable(s: Os, timeSlot: nat) {
    timeSlot > 0 && exists cpus: nat, ms :: After(cpus, ms, timeSlot) == Some(s)
  }

  lemma {:induction false} AfterInv(cpus: nat, ms: seq<Move>, timeSlot: nat)
    requires timeSlot > 0 && After(cpus, ms, timeSlot).Some?
    ensures Inv(After(cpus, ms, timeSlot).value, timeSlot)
  {
    hide Inv, Initial, Next, Ready, Possible;
    if ms == [] {
      InitialInv(cpus, timeSlot);
    } else {
      AfterInv(cpus, ms[..|ms| - 1], timeSlot);
      NextKeepsInv(After(cpus, ms[..|ms| - 1], timeSlot).value, ms[|ms| - 1], timeSlot);
    }
  }

  lemma ReachableInv(s: Os, timeSlot: nat)
    requires Reachable(s, timeSlot)
    ensures Inv(s, timeSlot)
  {
    hide Inv, After;
    var cpus: nat, ms :| After(cpus, ms, timeSlot) == Some(s);
    AfterInv(cpus, ms, timeSlot);
  }

  /** Every interleaving is covered: in a reachable state each processor can make its next step, and
      the step leads to a reachable state. */
  lemma StepsAlwaysReady(s: Os, m: Move, timeSlot: nat)
    requires Reachable(s, timeSlot) && Possible(s, m)
    ensures Ready(s, m) && Reachable(Next(s, m, timeSlot), timeSlot)
  {
    ReachableInv(s, timeSlot);
    InvReady(s, m, timeSlot);
    hide Inv, Next, Ready, Possible, Initial;
    var cpus: nat, ms :| After(cpus, ms, timeSlot) == Some(s);
    assert (ms + [m])[..|ms + [m]| - 1] == ms;
    assert After(cpus, ms + [m], timeSlot) == Some(Next(s, m, timeSlot));
  }

  /** Under every interleaving a loaded process is in exactly one place, one ready queue or one
      processor, until it is reported finished, and nowhere after that. */
  lemma InExactlyOnePlace(s: Os, p: Pcb, timeSlot: nat)
    requires Reachable(s, timeSlot)
    ensures InQueues(s.sched.queues, p) + OnCpus(s.cpus, p) == if p in s.active then 1 else 0
    ensures p in s.active ==> p.pid in s.pcs && !Done(s.log, p.pid)
    ensures forall i :: i in s.pcs && !Done(s.log, i) ==> exists q :: q in s.active && q.pid == i
  {
    ReachableInv(s, timeSlot);
    if p in s.active { assert p.pid in Pids(s.active); }
    forall i | i in s.pcs && !Done(s.log, i) ensures exists q :: q in s.active && q.pid == i {
      assert i in Pids(s.active);
    }
  }

  /** No other processor holds the process a processor runs. So from the call of `run` to its end the
      process has an instruction left, the fetch reads inside the code, and the counter is the same at
      the test, the fetch and both accesses of the increment, although no lock protects it. */
  lemma RunsInsideCode(s: Os, c: nat, timeSlot: nat)
    requires Reachable(s, timeSlot) && c < |s.cpus| && InRun(s.cpus[c].pc)
    ensures s.cpus[c].proc.Some? && Unfinished(s.cpus[c].proc.value, s.pcs, s.sizes)
    ensures forall d :: 0 <= d < |s.cpus| && d != c ==> s.cpus[d].proc != s.cpus[c].proc
    ensures s.cpus[c].pc.AtAdvance? || s.cpus[c].pc.AtStore? ==> s.cpus[c].pc.i == s.pcs[s.cpus[c].proc.value.pid]
    ensures s.cpus[c].pc.AtStore? ==> s.cpus[c].pc.j == s.cpus[c].pc.i
  {
    ReachableInv(s, timeSlot);
    assert MayBe(s, c, s.cpus[c], timeSlot);
    hide LogOk, TablesOk, QueuedUnfinished, Filed;
    OnlyHere(s, c);
  }

  lemma {:induction false} TraceUpToCount(log: seq<Event>, sizes: map<nat, nat>, timeSlot: nat, p: nat)
    requires WellRun(log, sizes, timeSlot)
    ensures Trace(log, p) == UpTo(Count(log, p))
  {
    if log != [] { TraceUpToCount(log[..|log| - 1], sizes, timeSlot, p); }
  }

  /** Exactly-once execution: whatever processors it moved between, a process has executed its
      instructions 0 .. pc-1 in order, once each, and all of them once it is reported finished. */
  lemma ExecutedInOrderOnce(s: Os, p: nat, timeSlot: nat)
    requires Reachable(s, timeSlot) && p in s.pcs
    ensures p in s.sizes && Trace(s.log, p) == UpTo(s.pcs[p])
    ensures Done(s.log, p) ==> Trace(s.log, p) == UpTo(s.sizes[p])
  {
    ReachableInv(s, timeSlot);
    TraceUpToCount(s.log, s.sizes, timeSlot, p);
  }

  lemma {:induction false} WellRunPrefix(log: seq<Event>, k: nat, sizes: map<nat, nat>, timeSlot: nat)
    requires WellRun(log, sizes, timeSlot) && k <= |log|
    ensures WellRun(log[..k], sizes, timeSlot)
  {
    var n := |log| - 1;
    if k <= n {
      WellRunPrefix(log[..n], k, sizes, timeSlot);
      assert log[..n][..k] == log[..k];
    } else {
      assert log[..k] == log;
    }
  }

  lemma WellRunAt(log: seq<Event>, k: nat, sizes: map<nat, nat>, timeSlot: nat)
    requires WellRun(log, sizes, timeSlot) && k < |log| && log[k].Executed?
    ensures Slice(log[..k], log[k].c).0 == Some(log[k].p) && Slice(log[..k], log[k].c).1 < timeSlot
  {
    hide Slice, Count;
    WellRunPrefix(log, k + 1, sizes, timeSlot);
    assert log[..k + 1][..k] == log[..k];
  }

  /** Every instruction runs on the processor its process was last dispatched on, and at most
      `timeSlot` of them run between two dispatches. */
  lemma AtMostTimeSlotPerDispatch(s: Os, k: nat, timeSlot: nat)
    requires Reachable(s, timeSlot) && k < |s.log| && s.log[k].Executed?
    ensures Slice(s.log[..k], s.log[k].c).0 == Some(s.log[k].p)
    ensures Slice(s.log[..k + 1], s.log[k].c).1 <= timeSlot
  {
    hide Reachable, WellRun, Slice, Count;
    ReachableInv(s, timeSlot);
    WellRunAt(s.log, k, s.sizes, timeSlot);
    Append(s.log[..k], s.log[k], 0, s.log[k].c);
    assert s.log[..k + 1] == s.log[..k] + [s.log[k]];
  }

  lemma {:induction false} DoneCount(log: seq<Event>, sizes: map<nat, nat>, timeSlot: nat, p: nat)
    requires WellRun(log, sizes, timeSlot) && Done(log, p)
    ensures p in sizes && Count(log, p) == sizes[p]
  {
    var n := |log| - 1;
    var i :| 0 <= i < |log| && log[i].Finished? && log[i].p == p;
    if i < n {
      assert log[..n][i] == log[i];
      DoneCount(log[..n], sizes, timeSlot, p);
    }
  }

  lemma WellRunAfterFinish(log: seq<Event>, i: nat, j: nat, sizes: map<nat, nat>, timeSlot: nat)
    requires WellRun(log, sizes, timeSlot) && i < j < |log| && log[i].Finished?
    requires log[j].Executed? || log[j].Finished?
    ensures log[j].p != log[i].p
  {
    hide Slice, Count;
    var before := log[..j];
    WellRunPrefix(log, j + 1, sizes, timeSlot);
    assert log[..j + 1][..j] == before;
    assert before[i] == log[i];
    DoneCount(before, sizes, timeSlot, log[i].p);
  }

  /** After a process is reported finished nothing of it runs any more, and it is not reported again. */
  lemma NothingAfterFinish(s: Os, i: nat, j: nat, timeSlot: nat)
    requires Reachable(s, timeSlot) && i < j < |s.log| && s.log[i].Finished?
    requires s.log[j].Executed? || s.log[j].Finished?
    ensures s.log[j].p != s.log[i].p
  {
    hide Reachable, WellRun;
    ReachableInv(s, timeSlot);
    WellRunAfterFinish(s.log, i, j, s.sizes, timeSlot);
  }

  /** A put loses its process exactly when the level of its prio is full. The bound of ten unfinished
      processes keeps every level below that. */
  lemma PutKeepsProcess(q: Sched, p: Pcb)
    requires q.Valid() && p.prio < MAX_PRIO
    ensures InQueues(Put(q, p).queues, p) == InQueues(q.queues, p) + 1 <==> |q.queues[p.prio]| != 10
  {
    var l := q.queues[p.prio];
    InQueuesUpdate(q.queues, p.prio, Enqueued(l, p), p);
    assert multiset(l + [p])[p] == multiset(l)[p] + 1;
  }

  // ---------------------------------------------------------------- runs

  /** All moves of the run ms from s are possible. */
  predicate Runs(s: Os, ms: seq<Move>, timeSlot: nat)
    decreases |ms|
  {
    ms != [] ==> Ready(s, ms[0]) && Possible(s, ms[0]) && Runs(Next(s, ms[0], timeSlot), ms[1..], timeSlot)
  }

  function Final(s: Os, ms: seq<Move>, timeSlot: nat): Os
    requires Runs(s, ms, timeSlot)
    decreases |ms|
  {
    if ms == [] then s else Final(Next(s, ms[0], timeSlot), ms[1..], timeSlot)
  }

  // ---------------------------------------------------------------- what one place is for

  /** Both processors are at pc with process p in its last slot. */
  function Sharing(p: Pcb, pc: CpuPc, counter: nat, log: seq<Event>): Os {
    var cpu := Cpu(pc, Some(p), 1);
    Os(Start(), [cpu, cpu], {p}, map[p.pid := counter], map[p.pid := 1], false, log)
  }

  lemma StartValid()
    ensures Start().Valid()
  {
  }

  lemma SharingMoves(p: Pcb, pc: CpuPc)
    requires p.prio < MAX_PRIO && (pc.AtRun? || pc.AtFetch? || pc.AtAdvance?)
    ensures var s := Sharing(p, pc, 0, []);
            var pc' := if pc.AtRun? then AtFetch else if pc.AtFetch? then AtAdvance(0) else AtStore(pc.i, 0);
            && Ready(s, CpuMove(0))
            && Ready(Next(s, CpuMove(0), 1), CpuMove(1)) && Possible(Next(s, CpuMove(0), 1), CpuMove(1))
            && Next(Next(s, CpuMove(0), 1), CpuMove(1), 1) == Sharing(p, pc', 0, [])
  {
    hide Get, Put, NoneQueued, Start;
    assert Start().Valid() by { StartValid(); }
  }

  lemma SharingStores(p: Pcb)
    requires p.prio < MAX_PRIO
    ensures var s := Sharing(p, AtStore(0, 0), 0, []);
            && Ready(s, CpuMove(0))
            && Ready(Next(s, CpuMove(0), 1), CpuMove(1)) && Possible(Next(s, CpuMove(0), 1), CpuMove(1))
            && Next(Next(s, CpuMove(0), 1), CpuMove(1), 1).log == [Executed(0, p.pid, 0), Executed(1, p.pid, 0)]
  {
    hide Get, Put, NoneQueued, Start;
    assert Start().Valid() by { StartValid(); }
  }

  function BothMove(): seq<Move> {
    [CpuMove(0), CpuMove(1)]
  }

  lemma RunsTwo(s: Os, ms: seq<Move>)
    requires Ready(s, CpuMove(0)) && Possible(s, CpuMove(0))
    requires Ready(Next(s, CpuMove(0), 1), CpuMove(1)) && Possible(Next(s, CpuMove(0), 1), CpuMove(1))
    requires Runs(Next(Next(s, CpuMove(0), 1), CpuMove(1), 1), ms, 1)
    ensures Runs(s, BothMove() + ms, 1)
    ensures Final(s, BothMove() + ms, 1) == Final(Next(Next(s, CpuMove(0), 1), CpuMove(1), 1), ms, 1)
  {
    hide CpuNext, Ready;
    var all := BothMove() + ms;
    assert all[1..][1..] == ms;
  }

  /** Without exclusive ownership the code does run an instruction twice: if two processors held one
      process, their accesses to its counter could interleave so that both run instruction 0. */
  lemma SharedProcessRunsTwice(p: Pcb)
    requires p.prio < MAX_PRIO
    ensures exists ms ::
              && Runs(Sharing(p, AtRun, 0, []), ms, 1)
              && Final(Sharing(p, AtRun, 0, []), ms, 1).log == [Executed(0, p.pid, 0), Executed(1, p.pid, 0)]
  {
    hide CpuNext, CpuReady, Next, Ready;
    SharingStores(p);
    SharingMoves(p, AtAdvance(0));
    SharingMoves(p, AtFetch);
    SharingMoves(p, AtRun);
    RunsTwo(Sharing(p, AtStore(0, 0), 0, []), []);
    RunsTwo(Sharing(p, AtAdvance(0), 0, []), BothMove() + []);
    RunsTwo(Sharing(p, AtFetch, 0, []), BothMove() + (BothMove() + []));
    RunsTwo(Sharing(p, AtRun, 0, []), BothMove() + (BothMove() + (BothMove() + [])));
  }

  // ---------------------------------------------------------------- no process starves

  /** The calls on the scheduler in one move. */
  function Calls(s: Os, m: Move): seq<MlqScheduler.Event>
    requires Ready(s, m) && Possible(s, m)
  {
    match m
    case CpuMove(c) =>
      if s.cpus[c].pc.AtPut? then [MlqScheduler.PutProc(s.cpus[c].proc.value)]
      else if s.cpus[c].pc.AtTake? then [MlqScheduler.GetProc]
      else []
    case Load(p, _) => [MlqScheduler.PutProc(p)]
    case LoaderDone => []
  }

  function RunCalls(s: Os, ms: seq<Move>, timeSlot: nat): seq<MlqScheduler.Event>
    requires Runs(s, ms, timeSlot)
    decreases |ms|
  {
    if ms == [] then [] else Calls(s, ms[0]) + RunCalls(Next(s, ms[0], timeSlot), ms[1..], timeSlot)
  }

  function Took(s: Os, m: Move, timeSlot: nat): seq<Pcb>
    requires Ready(s, m) && Possible(s, m)
  {
    if m.CpuMove? && s.cpus[m.c].pc.AtTake? && CpuNext(s, m.c, timeSlot).cpus[m.c].proc.Some?
    then [CpuNext(s, m.c, timeSlot).cpus[m.c].proc.value]
    else []
  }

  /** The processes the processors take in a run, in order. */
  function Taken(s: Os, ms: seq<Move>, timeSlot: nat): seq<Pcb>
    requires Runs(s, ms, timeSlot)
    decreases |ms|
  {
    if ms == [] then []
    else Took(s, ms[0], timeSlot) + Taken(Next(s, ms[0], timeSlot), ms[1..], timeSlot)
  }

  /** How many times the locked section of get_mlq_proc is entered in a run. */
  function Takes(s: Os, ms: seq<Move>, timeSlot: nat): nat
    requires Runs(s, ms, timeSlot)
    decreases |ms|
  {
    if ms == [] then 0
    else
      (if ms[0].CpuMove? && s.cpus[ms[0].c].pc.AtTake? then 1 else 0)
      + Takes(Next(s, ms[0], timeSlot), ms[1..], timeSlot)
  }

  /** The scheduler changes by the calls of a move alone, and they hand out what the move took. */
  lemma MoveIsCalls(s: Os, m: Move, timeSlot: nat)
    requires Ready(s, m) && Possible(s, m)
    ensures |Calls(s, m)| <= 1 && MlqScheduler.Wellformed(Calls(s, m))
    ensures Calls(s, m) == [] ==> Next(s, m, timeSlot).sched == s.sched && Took(s, m, timeSlot) == []
    ensures Calls(s, m) != [] ==>
              MlqScheduler.Next(s.sched, Calls(s, m)[0]) == (Next(s, m, timeSlot).sched, Took(s, m, timeSlot))
    ensures MlqScheduler.Gets(Calls(s, m)) == if m.CpuMove? && s.cpus[m.c].pc.AtTake? then 1 else 0
  {
    hide Get, Put, NoneQueued;
    if Calls(s, m) != [] { assert Calls(s, m)[1..] == []; }
  }

  lemma NextValid(s: Os, m: Move, timeSlot: nat)
    requires s.sched.Valid() && Ready(s, m) && Possible(s, m)
    ensures Next(s, m, timeSlot).sched.Valid()
  {
    hide Get, Put, NoneQueued;
  }

  lemma {:induction false} RunIsCalls(s: Os, ms: seq<Move>, timeSlot: nat)
    requires s.sched.Valid() && Runs(s, ms, timeSlot)
    ensures MlqScheduler.Wellformed(RunCalls(s, ms, timeSlot))
    ensures Run(s.sched, RunCalls(s, ms, timeSlot)) == (Final(s, ms, timeSlot).sched, Taken(s, ms, timeSlot))
    ensures MlqScheduler.Gets(RunCalls(s, ms, timeSlot)) == Takes(s, ms, timeSlot)
    decreases |ms|
  {
    if ms != [] {
      hide Next, Calls, Took, Ready, MlqScheduler.Next;
      var s', calls := Next(s, ms[0], timeSlot), Calls(s, ms[0]);
      MoveIsCalls(s, ms[0], timeSlot);
      NextValid(s, ms[0], timeSlot);
      RunIsCalls(s', ms[1..], timeSlot);
      var rest, all := RunCalls(s', ms[1..], timeSlot), RunCalls(s, ms, timeSlot);
      assert Taken(s, ms, timeSlot) == Took(s, ms[0], timeSlot) + Taken(s', ms[1..], timeSlot);
      if calls == [] {
        assert all == rest && Taken(s, ms, timeSlot) == Taken(s', ms[1..], timeSlot);
      } else {
        assert all[0] == calls[0] && all[1..] == rest && calls[1..] == [];
      }
    }
  }

  /** No process starves on any number of processors: from a reachable state the processes at positions
      0 to k of level q are the first k + 1 the processors take from it, in that order, within
      (k + 1) * 9870 entries of the locked section, whatever is loaded and put back in between. */
  lemma NoProcessStarves(s: Os, ms: seq<Move>, timeSlot: nat, q: nat, k: nat)
    requires Reachable(s, timeSlot) && Runs(s, ms, timeSlot) && s.sched.Valid()
    requires q < MAX_PRIO && k < |s.sched.queues[q]| && Takes(s, ms, timeSlot) >= (k + 1) * ROUND
    ensures s.sched.queues[q][..k + 1] <= AtLevel(Taken(s, ms, timeSlot), q)
  {
    ReachableInv(s, timeSlot);
    RunIsCalls(s, ms, timeSlot);
    MlqScheduler.NoStarvation(s.sched, RunCalls(s, ms, timeSlot), q, k);
  }

  // ---------------------------------------------------------------- every dispatch is of a process just taken

  /** The processes dispatched on processor c, in order. */
  function Dispatches(log: seq<Event>, c: nat): seq<nat> {
    if log == [] then []
    else
      var e := log[|log| - 1];
      Dispatches(log[..|log| - 1], c) + (if e.Dispatched? && e.c == c then [e.p] else [])
  }

  lemma DispatchesAppend(log: seq<Event>, e: Event, c: nat)
    ensures Dispatches(log + [e], c) == Dispatches(log, c) + (if e.Dispatched? && e.c == c then [e.p] else [])
  {
    assert (log + [e])[..|log + [e]| - 1] == log;
  }

  /** The process a move takes from the scheduler for processor c. */
  function TookFor(s: Os, m: Move, c: nat): seq<nat>
    requires Ready(s, m) && Possible(s, m)
  {
    if m == CpuMove(c) && s.cpus[c].pc.AtTake? && Get(s.sched).1.Some? then [Get(s.sched).1.value.pid] else []
  }

  function TakenFor(s: Os, ms: seq<Move>, timeSlot: nat, c: nat): seq<nat>
    requires Runs(s, ms, timeSlot)
    decreases |ms|
  {
    if ms == [] then []
    else TookFor(s, ms[0], c) + TakenFor(Next(s, ms[0], timeSlot), ms[1..], timeSlot, c)
  }

  /** The process a move lets go of processor c, back to the scheduler or for good. */
  function LetGo(s: Os, m: Move, c: nat): seq<nat>
    requires Ready(s, m) && Possible(s, m)
  {
    if m != CpuMove(c) || s.cpus[c].proc.None? then []
    else
      var p := s.cpus[c].proc.value;
      if s.cpus[c].pc.AtPut? || (s.cpus[c].pc.AtTop? && !Unfinished(p, s.pcs, s.sizes)) then [p.pid] else []
  }

  function LetGoIn(s: Os, ms: seq<Move>, timeSlot: nat, c: nat): seq<nat>
    requires Runs(s, ms, timeSlot)
    decreases |ms|
  {
    if ms == [] then []
    else LetGo(s, ms[0], c) + LetGoIn(Next(s, ms[0], timeSlot), ms[1..], timeSlot, c)
  }

  function Held(cpu: Cpu): seq<nat> {
    if cpu.proc.Some? then [cpu.proc.value.pid] else []
  }

  /** An own step of processor c: what is dispatched is what was pending, and only a take makes
      something pending. */
  lemma OwnMoveDispatches(s: Os, c: nat, timeSlot: nat)
    requires CpuReady(s, c) && timeSlot > 0
    requires s.cpus[c].pc.AtProbe? || s.cpus[c].pc.AtTake? ==> s.cpus[c].proc.None? && s.cpus[c].timeLeft == 0
    ensures var s' := CpuNext(s, c, timeSlot);
            && c < |s'.cpus|
            && Dispatches(s'.log, c) + Pending(s'.cpus[c])
               == Dispatches(s.log, c) + Pending(s.cpus[c]) + TookFor(s, CpuMove(c), c)
  {
    hide Get, Put, NoneQueued, Dispatches, Slice;
    var s' := CpuNext(s, c, timeSlot);
    if |s'.log| > |s.log| { DispatchesAppend(s.log, s'.log[|s.log|], c); }
  }

  lemma OwnMoveHolds(s: Os, c: nat, timeSlot: nat)
    requires CpuReady(s, c) && (s.cpus[c].pc.AtTake? ==> s.cpus[c].proc.None?)
    requires forall i :: i in s.pcs && i in s.sizes ==> s.pcs[i] <= s.sizes[i]
    ensures var s' := CpuNext(s, c, timeSlot);
            && c < |s'.cpus|
            && Held(s.cpus[c]) + TookFor(s, CpuMove(c), c) == LetGo(s, CpuMove(c), c) + Held(s'.cpus[c])
  {
    hide Get, Put, NoneQueued, Slice, InRun, Pending, Filed;
  }

  lemma OtherCpuLog(s: Os, d: nat, c: nat, timeSlot: nat)
    requires CpuReady(s, d) && c != d
    ensures Dispatches(CpuNext(s, d, timeSlot).log, c) == Dispatches(s.log, c)
  {
    hide Get, Put, NoneQueued, Dispatches;
    var s' := CpuNext(s, d, timeSlot);
    if |s'.log| > |s.log| { DispatchesAppend(s.log, s'.log[|s.log|], c); }
  }

  lemma OtherCpuMove(s: Os, d: nat, timeSlot: nat)
    requires CpuReady(s, d)
    ensures var s' := CpuNext(s, d, timeSlot);
            && |s'.cpus| == |s.cpus| && s'.done == s.done
            && forall c :: 0 <= c < |s.cpus| && c != d ==> s'.cpus[c] == s.cpus[c]
  {
    hide Get, Put, NoneQueued;
  }

  /** A step that is not processor c's own leaves it and its dispatches alone. */
  lemma OtherMoveTurns(s: Os, m: Move, c: nat, timeSlot: nat)
    requires Ready(s, m) && Possible(s, m) && c < |s.cpus| && m != CpuMove(c)
    ensures var s' := Next(s, m, timeSlot);
            |s'.cpus| == |s.cpus| && s'.cpus[c] == s.cpus[c] && Dispatches(s'.log, c) == Dispatches(s.log, c)
  {
    hide CpuNext, CpuReady, Put, Dispatches;
    match m
    case CpuMove(d) =>
      OtherCpuMove(s, d, timeSlot);
      OtherCpuLog(s, d, c, timeSlot);
    case Load(p, _) => DispatchesAppend(s.log, Loaded(p.pid), c);
    case LoaderDone =>
  }

  /** A processor that asks the scheduler has no process, and one without a process has no slice. */
  lemma FreeHandsOk(s: Os, c: nat, timeSlot: nat)
    requires c < |s.cpus| && MayBe(s, c, s.cpus[c], timeSlot)
    ensures s.cpus[c].pc.AtProbe? || s.cpus[c].pc.AtTake? ==> s.cpus[c].proc.None?
    ensures s.cpus[c].proc.None? ==> s.cpus[c].timeLeft == 0
  {
  }

  lemma MoveTurns(s: Os, m: Move, c: nat, timeSlot: nat)
    requires Inv(s, timeSlot) && timeSlot > 0 && Ready(s, m) && Possible(s, m) && c < |s.cpus|
    ensures var s' := Next(s, m, timeSlot);
            && c < |s'.cpus|
            && Dispatches(s'.log, c) + Pending(s'.cpus[c])
               == Dispatches(s.log, c) + Pending(s.cpus[c]) + TookFor(s, m, c)
            && Held(s.cpus[c]) + TookFor(s, m, c) == LetGo(s, m, c) + Held(s'.cpus[c])
  {
    hide CpuNext, CpuOk, LogOk, Filed, OnePlace, QueuedUnfinished, Slice, Dispatches, Get;
    if m == CpuMove(c) {
      assert MayBe(s, c, s.cpus[c], timeSlot);
      FreeHandsOk(s, c, timeSlot);
      OwnMoveDispatches(s, c, timeSlot);
      OwnMoveHolds(s, c, timeSlot);
    } else {
      hide Inv, CpuReady, Next, Pending;
      OtherMoveTurns(s, m, c, timeSlot);
    }
  }

  lemma Chain(mid: seq<nat>, start: seq<nat>, took: seq<nat>, taken: seq<nat>)
    requires mid == start + took
    ensures mid + taken == start + (took + taken)
  {
  }

  lemma Shift(held: seq<nat>, took: seq<nat>, taken: seq<nat>, gave: seq<nat>, given: seq<nat>, held1: seq<nat>,
              held2: seq<nat>)
    requires held + took == gave + held1 && held1 + taken == given + held2
    ensures held + (took + taken) == (gave + given) + held2
  {
    assert held + (took + taken) == (held + took) + taken;
    assert (gave + held1) + taken == gave + (held1 + taken);
    assert gave + (given + held2) == (gave + given) + held2;
  }

  lemma {:induction false} RunTurns(s: Os, ms: seq<Move>, timeSlot: nat, c: nat)
    requires Inv(s, timeSlot) && timeSlot > 0 && Runs(s, ms, timeSlot) && c < |s.cpus|
    ensures var s' := Final(s, ms, timeSlot);
            && c < |s'.cpus|
            && Dispatches(s'.log, c) + Pending(s'.cpus[c])
               == Dispatches(s.log, c) + Pending(s.cpus[c]) + TakenFor(s, ms, timeSlot, c)
            && Held(s.cpus[c]) + TakenFor(s, ms, timeSlot, c) == LetGoIn(s, ms, timeSlot, c) + Held(s'.cpus[c])
    decreases |ms|
  {
    hide Inv, Next, Ready, Possible, TookFor, LetGo, Dispatches, Pending, Held;
    if ms != [] {
      var s1, m := Next(s, ms[0], timeSlot), ms[0];
      MoveTurns(s, m, c, timeSlot);
      NextKeepsInv(s, m, timeSlot);
      RunTurns(s1, ms[1..], timeSlot, c);
      var took, taken := TookFor(s, m, c), TakenFor(s1, ms[1..], timeSlot, c);
      var gave, given := LetGo(s, m, c), LetGoIn(s1, ms[1..], timeSlot, c);
      var s' := Final(s, ms, timeSlot);
      Chain(Dispatches(s1.log, c) + Pending(s1.cpus[c]), Dispatches(s.log, c) + Pending(s.cpus[c]), took, taken);
      Shift(Held(s.cpus[c]), took, taken, gave, given, Held(s1.cpus[c]), Held(s'.cpus[c]));
    }
  }

  /** Preemption: over any run from a reachable state the processes dispatched on a processor are, in
      order, exactly those it takes from the scheduler, up to one taken and not dispatched yet; and it
      takes one only after it has let go of the one before. So no process gets a second slice without
      having been let go and taken again. */
  lemma EveryDispatchTaken(s: Os, ms: seq<Move>, timeSlot: nat, c: nat)
    requires Reachable(s, timeSlot) && Runs(s, ms, timeSlot) && c < |s.cpus|
    ensures var s' := Final(s, ms, timeSlot);
            && c < |s'.cpus|
            && Dispatches(s'.log, c) + Pending(s'.cpus[c])
               == Dispatches(s.log, c) + Pending(s.cpus[c]) + TakenFor(s, ms, timeSlot, c)
            && Held(s.cpus[c]) + TakenFor(s, ms, timeSlot, c) == LetGoIn(s, ms, timeSlot, c) + Held(s'.cpus[c])
            && |Dispatches(s'.log, c)| - |Dispatches(s.log, c)| <= |LetGoIn(s, ms, timeSlot, c)| + 1
  {
    ReachableInv(s, timeSlot);
    assert timeSlot > 0;
    hide Reachable, Inv, Next, Ready, Possible, TookFor, LetGo, Dispatches;
    RunTurns(s, ms, timeSlot, c);
  }

  // ---------------------------------------------------------------- a queued process is picked up

  /** The state after n steps of processor c alone. */
  function Alone(s: Os, c: nat, n: nat, timeSlot: nat): Os
    decreases n
  {
    if n == 0 || !CpuReady(s, c) then s else Alone(CpuNext(s, c, timeSlot), c, n - 1, timeSlot)
  }

  lemma AloneStep(s: Os, c: nat, n: nat, timeSlot: nat)
    requires CpuReady(s, c) && n > 0
    ensures Alone(s, c, n, timeSlot) == Alone(CpuNext(s, c, timeSlot), c, n - 1, timeSlot)
  {
  }

  /** What a round that finds something queued makes of an idle processor. */
  function Asked(s: Os, c: nat): Os
    requires c < |s.cpus| && s.sched.Valid()
  {
    var (sched, proc) := Get(s.sched);
    WithCpu(s, c, Cpu(if proc.None? then AtSlot else AtRecheck, proc, 0)).(sched := sched)
  }

  lemma ProbeRound(s: Os, c: nat, n: nat, timeSlot: nat)
    requires CpuReady(s, c) && s.cpus[c] == Cpu(AtTop, None, 0) && !NoneQueued(s.sched)
    ensures Alone(s, c, n + 3, timeSlot) == Alone(Asked(s, c), c, n, timeSlot)
  {
    hide Get, NoneQueued, Alone;
    var s1 := CpuNext(s, c, timeSlot);
    var s2 := CpuNext(s1, c, timeSlot);
    AloneStep(s, c, n + 3, timeSlot);
    AloneStep(s1, c, n + 2, timeSlot);
    AloneStep(s2, c, n + 1, timeSlot);
    assert CpuNext(s2, c, timeSlot).cpus == Asked(s, c).cpus;
  }

  /** The way back to the top of the loop after a get that came back empty. */
  lemma BackToTop(s: Os, c: nat, n: nat, timeSlot: nat)
    requires c < |s.cpus| && s.sched.Valid() && Get(s.sched).1.None? && Get(s.sched).0.Valid()
    ensures var s4 := WithCpu(s, c, Cpu(AtTop, None, 0)).(sched := Get(s.sched).0);
            Alone(Asked(s, c), c, n + 1, timeSlot) == Alone(s4, c, n, timeSlot) && CpuReady(s4, c)
  {
    hide Get, Alone;
    var s3, s4 := Asked(s, c), WithCpu(s, c, Cpu(AtTop, None, 0)).(sched := Get(s.sched).0);
    AloneStep(s3, c, n + 1, timeSlot);
    assert CpuNext(s3, c, timeSlot).cpus == s4.cpus;
  }

  lemma EmptyGetKeepsQueued(s: Sched)
    requires Filed(s) && Get(s).1.None? && !NoneQueued(s)
    ensures Get(s).0.queues == s.queues && Get(s).0.Valid() && Get(Get(s).0).1.Some?
  {
    TakeShape(s);
    NextGetServes(s, s.queues);
    assert Get(s).0.(queues := s.queues) == Get(s).0;
  }

  lemma AloneNone(c: nat, timeSlot: nat)
    ensures forall s :: Alone(s, c, 0, timeSlot) == s
  {
  }

  lemma SameQueued(q: Sched, r: Sched)
    requires q.queues == r.queues
    ensures NoneQueued(q) == NoneQueued(r)
  {
  }

  lemma {:induction false} AloneCpus(s: Os, c: nat, n: nat, timeSlot: nat)
    requires c < |s.cpus|
    ensures |Alone(s, c, n, timeSlot).cpus| == |s.cpus|
    decreases n
  {
    if n > 0 && CpuReady(s, c) {
      OtherCpuMove(s, c, timeSlot);
      hide CpuNext;
      AloneCpus(CpuNext(s, c, timeSlot), c, n - 1, timeSlot);
    }
  }

  lemma FilledHands(s: Os, c: nat, timeSlot: nat)
    requires CpuReady(s, c) && Filed(s.sched) && s.cpus[c] == Cpu(AtTop, None, 0) && !NoneQueued(s.sched)
    ensures var s3, s7 := Alone(s, c, 3, timeSlot), Alone(s, c, 7, timeSlot);
            && |s3.cpus| == |s7.cpus| == |s.cpus|
            && (s3.cpus[c].proc.Some? || s7.cpus[c].proc.Some?)
  {
    hide Get, NoneQueued, Alone, CpuNext, Filed;
    AloneNone(c, timeSlot);
    AloneCpus(s, c, 3, timeSlot);
    AloneCpus(s, c, 7, timeSlot);
    ProbeRound(s, c, 0, timeSlot);
    if Get(s.sched).1.None? {
      ProbeRound(s, c, 4, timeSlot);
      EmptyGetKeepsQueued(s.sched);
      BackToTop(s, c, 3, timeSlot);
      var s4 := WithCpu(s, c, Cpu(AtTop, None, 0)).(sched := Get(s.sched).0);
      SameQueued(s.sched, s4.sched);
      ProbeRound(s4, c, 0, timeSlot);
    }
  }

  lemma InvFiled(s: Os, timeSlot: nat)
    requires Inv(s, timeSlot)
    ensures Filed(s.sched)
  {
  }

  /** Work is picked up: while a process is queued, an idle processor that steps alone has one after its
      first round, or after its second when the first get comes back empty. */
  lemma QueuedIsTaken(s: Os, c: nat, timeSlot: nat)
    requires Reachable(s, timeSlot) && c < |s.cpus| && s.cpus[c].pc.AtTop? && s.cpus[c].proc.None?
    requires !NoneQueued(s.sched)
    ensures var s3, s7 := Alone(s, c, 3, timeSlot), Alone(s, c, 7, timeSlot);
            && |s3.cpus| == |s7.cpus| == |s.cpus|
            && (s3.cpus[c].proc.Some? || s7.cpus[c].proc.Some?)
  {
    StepsAlwaysReady(s, CpuMove(c), timeSlot);
    ReachableInv(s, timeSlot);
    assert MayBe(s, c, s.cpus[c], timeSlot);
    FreeHandsOk(s, c, timeSlot);
    InvFiled(s, timeSlot);
    hide Reachable, Inv, MayBe, Next;
    FilledHands(s, c, timeSlot);
  }

  lemma HeldUnfinished(s: Os, c: nat, timeSlot: nat)
    requires c < |s.cpus| && MayBe(s, c, s.cpus[c], timeSlot) && s.cpus[c].pc.AtRecheck? && s.cpus[c].proc.Some?
    ensures Unfinished(s.cpus[c].proc.value, s.pcs, s.sizes)
  {
  }

  lemma RunsFour(s: Os, c: nat, timeSlot: nat)
    requires CpuReady(s, c) && s.cpus[c].pc.AtRun? && Unfinished(s.cpus[c].proc.value, s.pcs, s.sizes)
    ensures var p := s.cpus[c].proc.value.pid;
            Alone(s, c, 4, timeSlot)
            == WithCpu(s, c, RunCpu(s.cpus[c]))
               .(pcs := s.pcs[p := s.pcs[p] + 1], log := s.log + [Executed(c, p, s.pcs[p])])
  {
    hide Alone, Get, Put, NoneQueued;
    var s1 := CpuNext(s, c, timeSlot);
    var s2 := CpuNext(s1, c, timeSlot);
    var s3 := CpuNext(s2, c, timeSlot);
    var s4 := CpuNext(s3, c, timeSlot);
    AloneStep(s, c, 4, timeSlot);
    AloneStep(s1, c, 3, timeSlot);
    AloneStep(s2, c, 2, timeSlot);
    AloneStep(s3, c, 1, timeSlot);
    AloneNone(c, timeSlot);
  }

  lemma RunsFive(s: Os, c: nat, timeSlot: nat)
    requires CpuReady(s, c) && s.cpus[c].pc.AtRecheck? && s.cpus[c].proc.Some? && timeSlot > 0
    requires Unfinished(s.cpus[c].proc.value, s.pcs, s.sizes)
    ensures var p := s.cpus[c].proc.value.pid;
            var slice := if s.cpus[c].timeLeft == 0 then [Dispatched(c, p)] else [];
            var s5 := Alone(s, c, 5, timeSlot);
            && s5.log == s.log + slice + [Executed(c, p, s.pcs[p])]
            && s5.pcs == s.pcs[p := s.pcs[p] + 1]
            && c < |s5.cpus| && s5.cpus[c].pc.AtSlot? && s5.cpus[c].proc == s.cpus[c].proc
  {
    hide Alone;
    AloneStep(s, c, 5, timeSlot);
    RunsFour(CpuNext(s, c, timeSlot), c, timeSlot);
  }

  /** A process that has been taken, or kept, runs one instruction before the slot ends: five steps of
      its processor dispatch it if it has no slice, and run the instruction its counter points at. */
  lemma HeldProcessRuns(s: Os, c: nat, timeSlot: nat)
    requires Reachable(s, timeSlot) && c < |s.cpus| && s.cpus[c].pc.AtRecheck? && s.cpus[c].proc.Some?
    ensures var p := s.cpus[c].proc.value.pid;
            var slice := if s.cpus[c].timeLeft == 0 then [Dispatched(c, p)] else [];
            && p in s.pcs
            && var s5 := Alone(s, c, 5, timeSlot);
               && s5.log == s.log + slice + [Executed(c, p, s.pcs[p])]
               && s5.pcs == s.pcs[p := s.pcs[p] + 1]
               && c < |s5.cpus| && s5.cpus[c].pc.AtSlot? && s5.cpus[c].proc == s.cpus[c].proc
  {
    StepsAlwaysReady(s, CpuMove(c), timeSlot);
    ReachableInv(s, timeSlot);
    assert MayBe(s, c, s.cpus[c], timeSlot) && timeSlot > 0;
    HeldUnfinished(s, c, timeSlot);
    hide Reachable, Inv, MayBe, Next;
    RunsFive(s, c, timeSlot);
  }

  lemma CpuMoveStops(s: Os, c: nat, timeSlot: nat)
    requires CpuReady(s, c)
    ensures var s' := CpuNext(s, c, timeSlot);
            c < |s'.cpus| && (s'.cpus[c].pc.Stopped? ==> s.done || s.cpus[c].pc.Stopped?)
  {
    hide Get, Put, NoneQueued;
  }

  lemma MoveStops(s: Os, m: Move, timeSlot: nat)
    requires Ready(s, m) && Possible(s, m)
    requires forall c :: 0 <= c < |s.cpus| && s.cpus[c].pc.Stopped? ==> s.done
    ensures var s' := Next(s, m, timeSlot);
            forall c :: 0 <= c < |s'.cpus| && s'.cpus[c].pc.Stopped? ==> s'.done
  {
    hide CpuNext, CpuReady, Put;
    if m.CpuMove? {
      OtherCpuMove(s, m.c, timeSlot);
      CpuMoveStops(s, m.c, timeSlot);
    }
  }

  /** No processor stops before the loader is done. */
  lemma {:induction false} StopsOnlyWhenDone(cpus: nat, ms: seq<Move>, timeSlot: nat)
    requires After(cpus, ms, timeSlot).Some?
    ensures var s := After(cpus, ms, timeSlot).value;
            forall c :: 0 <= c < |s.cpus| && s.cpus[c].pc.Stopped? ==> s.done
  {
    hide Next, Ready, Possible;
    if ms != [] {
      StopsOnlyWhenDone(cpus, ms[..|ms| - 1], timeSlot);
      MoveStops(After(cpus, ms[..|ms| - 1], timeSlot).value, ms[|ms| - 1], timeSlot);
    }
  }

  // ---------------------------------------------------------------- stopping

  /** A processor that came round its loop without a process. */
  predicate Idle(cpu: Cpu) {
    cpu.proc.None? && (cpu.pc.AtTop? || cpu.pc.AtSlot? || ((cpu.pc.AtProbe? || cpu.pc.AtTake?) && cpu.pc.first))
  }

  /** Processor c has no process in any state of the run ms from s. */
  predicate StaysIdle(s: Os, c: nat, ms: seq<Move>, timeSlot: nat)
    decreases |ms|
  {
    && c < |s.cpus| && s.cpus[c].proc.None?
    && (ms != [] ==>
          && Ready(s, ms[0]) && Possible(s, ms[0])
          && StaysIdle(Next(s, ms[0], timeSlot), c, ms[1..], timeSlot))
  }

  lemma IdleCpuMove(s: Os, c: nat, timeSlot: nat)
    requires CpuReady(s, c) && Idle(s.cpus[c])
    ensures var s' := CpuNext(s, c, timeSlot);
            |s'.cpus| == |s.cpus| && (Idle(s'.cpus[c]) || s'.cpus[c].proc.Some?)
  {
    hide Get, NoneQueued;
  }

  lemma IdleMove(s: Os, c: nat, m: Move, timeSlot: nat)
    requires c < |s.cpus| && Idle(s.cpus[c]) && Ready(s, m) && Possible(s, m)
    ensures var s' := Next(s, m, timeSlot);
            |s'.cpus| == |s.cpus| && (Idle(s'.cpus[c]) || s'.cpus[c].proc.Some?)
  {
    hide CpuNext, CpuReady, Put, Idle;
    if m.CpuMove? {
      if m.c == c { IdleCpuMove(s, c, timeSlot); } else { OtherCpuMove(s, m.c, timeSlot); }
    }
  }

  /** As long as it gets no process an idle processor stays idle, however long it runs and whether the
      loader is done or not. */
  lemma {:induction false} IdleNeverStops(s: Os, c: nat, ms: seq<Move>, timeSlot: nat)
    requires StaysIdle(s, c, ms, timeSlot) && Idle(s.cpus[c])
    ensures Runs(s, ms, timeSlot)
    ensures var s' := Final(s, ms, timeSlot);
            c < |s'.cpus| && Idle(s'.cpus[c]) && !s'.cpus[c].pc.Stopped?
    decreases |ms|
  {
    hide Next, Ready, Possible;
    if ms != [] {
      IdleMove(s, c, ms[0], timeSlot);
      IdleNeverStops(Next(s, ms[0], timeSlot), c, ms[1..], timeSlot);
    }
  }

  /** On its way from having given up a process to the test of `done`, or past it. */
  predicate Leaving(cpu: Cpu) {
    cpu.proc.None?
    && (cpu.pc.AtRecheck? || cpu.pc.Stopped? || ((cpu.pc.AtProbe? || cpu.pc.AtTake?) && !cpu.pc.first))
  }

  function MovesLeft(pc: CpuPc): nat {
    match pc
    case AtProbe(_) => 3
    case AtTake(_) => 2
    case AtRecheck => 1
    case _ => 0
  }

  /** The moves of processor c in a run. */
  function Own(ms: seq<Move>, c: nat): nat {
    if ms == [] then 0 else (if ms[0] == CpuMove(c) then 1 else 0) + Own(ms[1..], c)
  }

  lemma LeavingCpuMove(s: Os, c: nat, timeSlot: nat)
    requires CpuReady(s, c) && s.done && Leaving(s.cpus[c])
    ensures var s' := CpuNext(s, c, timeSlot);
            && |s'.cpus| == |s.cpus| && s'.done
            && (s'.cpus[c].proc.None? ==>
                  && Leaving(s'.cpus[c]) && MovesLeft(s'.cpus[c].pc) <= MovesLeft(s.cpus[c].pc)
                  && (s.cpus[c].pc.Stopped? || MovesLeft(s'.cpus[c].pc) < MovesLeft(s.cpus[c].pc)))
  {
    hide Get, NoneQueued;
  }

  lemma LeavingMove(s: Os, c: nat, m: Move, timeSlot: nat)
    requires c < |s.cpus| && s.done && Leaving(s.cpus[c]) && Ready(s, m) && Possible(s, m)
    ensures var s' := Next(s, m, timeSlot);
            && |s'.cpus| == |s.cpus| && s'.done
            && (s'.cpus[c].proc.None? ==>
                  && Leaving(s'.cpus[c]) && MovesLeft(s'.cpus[c].pc) <= MovesLeft(s.cpus[c].pc)
                  && (m == CpuMove(c) ==>
                        s.cpus[c].pc.Stopped? || MovesLeft(s'.cpus[c].pc) < MovesLeft(s.cpus[c].pc)))
  {
    hide CpuNext, CpuReady, Put, Leaving;
    if m.CpuMove? {
      if m.c == c { LeavingCpuMove(s, c, timeSlot); } else { OtherCpuMove(s, m.c, timeSlot); }
    }
  }

  lemma {:induction false} LeavingStops(s: Os, c: nat, ms: seq<Move>, timeSlot: nat)
    requires StaysIdle(s, c, ms, timeSlot) && s.done && Leaving(s.cpus[c])
    requires Own(ms, c) >= MovesLeft(s.cpus[c].pc)
    ensures Runs(s, ms, timeSlot)
    ensures c < |Final(s, ms, timeSlot).cpus| && Final(s, ms, timeSlot).cpus[c].pc.Stopped?
    decreases |ms|
  {
    hide Next, Ready, Possible;
    if ms != [] {
      LeavingMove(s, c, ms[0], timeSlot);
      LeavingStops(Next(s, ms[0], timeSlot), c, ms[1..], timeSlot);
    }
  }

  /** A processor lets go of an unfinished process only when that has run for its whole slice, and then
      it goes to the tail of the level of its prio, while all else waits where it was; a finished one
      goes nowhere. Either way the processor asks for another one before it tests `done`. */
  lemma LetGoAtTail(s: Os, c: nat, timeSlot: nat)
    requires Reachable(s, timeSlot) && CpuReady(s, c) && LetGo(s, CpuMove(c), c) != []
    ensures s.cpus[c].proc.Some?
    ensures var p, s' := s.cpus[c].proc.value, CpuNext(s, c, timeSlot);
            && Slice(s.log, c).0 == Some(p.pid) && Slice(s.log, c).1 <= timeSlot
            && p.prio < |s.sched.queues|
            && c < |s'.cpus| && Leaving(s'.cpus[c]) && s'.cpus[c].pc.AtProbe?
            && if Unfinished(p, s.pcs, s.sizes)
               then
                 && Slice(s.log, c).1 == timeSlot
                 && s'.sched.queues == s.sched.queues[p.prio := s.sched.queues[p.prio] + [p]]
               else s'.sched == s.sched && s'.active == s.active - {p}
  {
    ReachableInv(s, timeSlot);
    assert MayBe(s, c, s.cpus[c], timeSlot);
    hide Reachable, LogOk, Slice, Put, QueuedUnfinished;
    OnlyHere(s, c);
    if s.cpus[c].pc.AtPut? {
      RoomToPut(s, s.cpus[c].proc.value);
      PutShape(s.sched, s.cpus[c].proc.value);
    }
  }

  /** A processor whose last process has finished stops: once the loader is done and it gets no other
      one, three own steps later it has stopped. */
  lemma LastProcessStops(s: Os, c: nat, ms: seq<Move>, timeSlot: nat)
    requires Reachable(s, timeSlot) && CpuReady(s, c) && LetGo(s, CpuMove(c), c) != [] && s.done
    requires StaysIdle(CpuNext(s, c, timeSlot), c, ms, timeSlot) && Own(ms, c) >= 3
    ensures var s' := CpuNext(s, c, timeSlot);
            Runs(s', ms, timeSlot)
            && c < |Final(s', ms, timeSlot).cpus| && Final(s', ms, timeSlot).cpus[c].pc.Stopped?
  {
    LetGoAtTail(s, c, timeSlot);
    assert CpuNext(s, c, timeSlot).done by { OtherCpuMove(s, c, timeSlot); }
    hide CpuNext, CpuReady, LetGo, Reachable;
    LeavingStops(CpuNext(s, c, timeSlot), c, ms, timeSlot);
  }

  /** Once the loader is done, a processor that gets no process any more stops within three of its own
      steps exactly when it was not idle at the top of its loop: the test of `done` lies behind the
      first get, and an idle processor goes round before it. */
  lemma StopsIff(s: Os, c: nat, ms: seq<Move>, timeSlot: nat)
    requires StaysIdle(s, c, ms, timeSlot) && s.done && CpuReady(s, c) && Own(ms, c) >= 3
    ensures Runs(s, ms, timeSlot) && c < |Final(s, ms, timeSlot).cpus|
    ensures Final(s, ms, timeSlot).cpus[c].pc.Stopped? <==> !Idle(s.cpus[c])
  {
    if Idle(s.cpus[c]) { IdleNeverStops(s, c, ms, timeSlot); } else { LeavingStops(s, c, ms, timeSlot); }
  }

  /** One processor, the loader done, nothing queued. */
  predicate Spinning(s: Os) {
    && |s.cpus| == 1 && s.done && s.sched.Valid() && NoneQueued(s.sched)
    && s.cpus[0].proc.None? && (s.cpus[0].pc.AtTop? || s.cpus[0].pc.AtSlot? || s.cpus[0].pc == AtProbe(true))
  }

  lemma {:induction false} Spins(s: Os, ms: seq<Move>, timeSlot: nat)
    requires Spinning(s) && forall i :: 0 <= i < |ms| ==> ms[i] == CpuMove(0)
    ensures StaysIdle(s, 0, ms, timeSlot)
    decreases |ms|
  {
    hide NoneQueued;
    if ms != [] { Spins(Next(s, ms[0], timeSlot), ms[1..], timeSlot); }
  }

  /** A reachable state from which one idle processor runs for ever after the loader is done. */
  lemma IdleForEverHappens(ms: seq<Move>, timeSlot: nat)
    requires timeSlot > 0 && forall i :: 0 <= i < |ms| ==> ms[i] == CpuMove(0)
    ensures var s := Initial(1).(done := true);
            && Reachable(s, timeSlot) && StaysIdle(s, 0, ms, timeSlot)
            && Runs(s, ms, timeSlot)
            && (var s' := Final(s, ms, timeSlot); 0 < |s'.cpus| && !s'.cpus[0].pc.Stopped?)
  {
    var s := Initial(1).(done := true);
    assert [LoaderDone][..0] == [];
    assert After(1, [LoaderDone][..0], timeSlot) == Some(Initial(1));
    assert After(1, [LoaderDone], timeSlot) == Some(s);
    Spins(s, ms, timeSlot);
    IdleNeverStops(s, 0, ms, timeSlot);
  }
}
