/** The processors and the loader of src/os.c in step with the clock of src/timer.c: each of them is a
    device of the barrier and moves only while that runs its slot. */
module Lockstep {
  import opened Wrappers
  import D = Dispatch
  import M = MlqScheduler
  import T = TimerBarrier

  /** Processor c is device c, the loader is the last one. times[i]: the clock at entry i of the log. */
  datatype Whole = Whole(os: D.Os, clock: T.State, times: seq<nat>)

  /** A step of a processor outside next_slot, a step of the loader, the calls of next_slot and
      detach_event, and the moves of the barrier itself. */
  datatype Move =
    | Step(c: nat)
    | Loader(m: D.Move)
    | Enter(d: nat)
    | Leave(d: nat)
    | Barrier(b: T.Move)

  predicate InSlot(s: Whole, d: nat) {
    d < |s.clock.devs| && s.clock.devs[d].pc.Running?
  }

  /** The state after a move of the processors or the loader. */
  function Moved(s: Whole, m: D.Move, timeSlot: nat): Option<Whole> {
    if D.Ready(s.os, m) && D.Possible(s.os, m) then
      var os := D.Next(s.os, m, timeSlot);
      Some(s.(os := os, times := if |os.log| > |s.os.log| then s.times + [s.clock.time] else s.times))
    else None
  }

  function Ticked(s: Whole, m: T.Move): Option<Whole> {
    match T.Next(s.clock, m)
    case None => None
    case Some(clock) => Some(s.(clock := clock))
  }

  /** A processor calls next_slot where its loop does, and goes on behind the call; it detaches when it
      has stopped, the loader when it is done. */
  function Next(s: Whole, m: Move, timeSlot: nat): Option<Whole> {
    var n := |s.os.cpus|;
    match m
    case Step(c) =>
      if c < n && InSlot(s, c) && !s.os.cpus[c].pc.AtSlot? && !s.os.cpus[c].pc.Stopped?
      then Moved(s, D.CpuMove(c), timeSlot) else None
    case Loader(m) => if InSlot(s, n) && !m.CpuMove? then Moved(s, m, timeSlot) else None
    case Enter(d) =>
      if d < n && InSlot(s, d) && s.os.cpus[d].pc.AtSlot? then
        (match Moved(s, D.CpuMove(d), timeSlot)
         case None => None
         case Some(s') => Ticked(s', T.CallNextSlot(d)))
      else if d == n && InSlot(s, n) then Ticked(s, T.CallNextSlot(n))
      else None
    case Leave(d) =>
      if (d < n && InSlot(s, d) && s.os.cpus[d].pc.Stopped?) || (d == n && InSlot(s, n) && s.os.done)
      then Ticked(s, T.CallDetach(d)) else None
    case Barrier(b) => if b.CallNextSlot? || b.CallDetach? then None else Ticked(s, b)
  }

  function Initial(cpus: nat): Whole {
    Whole(D.Initial(cpus), T.Initial(cpus + 1), [])
  }

  function After(cpus: nat, ms: seq<Move>, timeSlot: nat): Option<Whole> {
    if ms == [] then Some(Initial(cpus))
    else
      match After(cpus, ms[..|ms| - 1], timeSlot)
      case None => None
      case Some(s) => Next(s, ms[|ms| - 1], timeSlot)
  }

  ghost predicate Reachable(s: Whole, timeSlot: nat) {
    timeSlot > 0 && exists cpus: nat, ms :: After(cpus, ms, timeSlot) == Some(s)
  }

  // ---------------------------------------------------------------- what a move does

  lemma CpuMoveLog(os: D.Os, c: nat, timeSlot: nat)
    requires D.CpuReady(os, c)
    ensures var os' := D.CpuNext(os, c, timeSlot);
            && |os'.cpus| == |os.cpus|
            && (os'.log == os.log
                || (|os'.log| == |os.log| + 1 && os'.log[..|os.log|] == os.log
                    && (os'.log[|os.log|].Executed? ==>
                          os'.log[|os.log|].c == c && os.cpus[c].pc.AtStore? && os'.cpus[c].pc.AtSlot?)))
  {
    hide D.NoneQueued, M.Get, M.Put;
  }

  /** Every instruction is stored by its own processor, which is then at the end of its slot. */
  lemma MoveShape(os: D.Os, m: D.Move, timeSlot: nat)
    requires D.Ready(os, m) && D.Possible(os, m)
    ensures var os' := D.Next(os, m, timeSlot);
            && |os'.cpus| == |os.cpus|
            && (forall c :: 0 <= c < |os.cpus| && m != D.CpuMove(c) ==> os'.cpus[c] == os.cpus[c])
            && (os'.log == os.log
                || (|os'.log| == |os.log| + 1 && os'.log[..|os.log|] == os.log
                    && (os'.log[|os.log|].Executed? ==>
                          var c := os'.log[|os.log|].c;
                          m == D.CpuMove(c) && c < |os.cpus| && os.cpus[c].pc.AtStore? && os'.cpus[c].pc.AtSlot?)))
  {
    hide D.CpuNext, D.CpuReady;
    if m.CpuMove? {
      D.OtherCpuMove(os, m.c, timeSlot);
      CpuMoveLog(os, m.c, timeSlot);
    }
  }

  /** A barrier move keeps the devices; the slot count of one moves up when it is back in its slot. */
  lemma TickShape(clock: T.State, m: T.Move)
    requires T.Next(clock, m).Some?
    ensures var clock' := T.Next(clock, m).value;
            && |clock'.devs| == |clock.devs|
            && clock'.time >= clock.time
            && forall d :: 0 <= d < |clock.devs| ==>
                 && clock'.devs[d].slots >= clock.devs[d].slots
                 && (clock'.devs[d].pc.Running? && !clock.devs[d].pc.Running? ==>
                       clock'.devs[d].slots > clock.devs[d].slots)
  {
  }

  // ---------------------------------------------------------------- the pace

  /** All instructions processor c has run so far ran before time t. */
  ghost predicate Before(log: seq<D.Event>, times: seq<nat>, c: nat, t: int) {
    forall i :: 0 <= i < |log| && i < |times| && log[i].Executed? && log[i].c == c ==> times[i] < t
  }

  ghost predicate Increasing(log: seq<D.Event>, times: seq<nat>) {
    forall i, j :: 0 <= i < j < |log| && j < |times| && log[i].Executed? && log[j].Executed? && log[i].c == log[j].c ==>
      times[i] < times[j]
  }

  /** A processor that may still run an instruction in its slot has run none in it. */
  ghost predicate Paced(s: Whole, c: nat)
    requires c < |s.os.cpus| && c < |s.clock.devs|
  {
    && Before(s.os.log, s.times, c, s.clock.devs[c].slots + 1)
    && (s.clock.devs[c].pc.Running? && !s.os.cpus[c].pc.AtSlot? && !s.os.cpus[c].pc.Stopped? ==>
          Before(s.os.log, s.times, c, s.clock.devs[c].slots))
  }

  ghost predicate Inv(s: Whole, timeSlot: nat) {
    && D.Reachable(s.os, timeSlot) && T.Reachable(s.clock)
    && |s.clock.devs| == |s.os.cpus| + 1 && |s.times| == |s.os.log|
    && Increasing(s.os.log, s.times)
    && (forall c :: 0 <= c < |s.os.cpus| ==> Paced(s, c))
    && (forall i :: 0 <= i < |s.times| ==> s.times[i] <= s.clock.time)
  }

  // ---------------------------------------------------------------- every move keeps the pace

  lemma LogStays(log: seq<D.Event>, log': seq<D.Event>, times: seq<nat>, c: nat, t: int, now: nat)
    requires |times| == |log| && |log'| == |log| + 1 && log'[..|log|] == log
    requires log'[|log|].Executed? ==> log'[|log|].c != c
    requires Before(log, times, c, t)
    ensures Before(log', times + [now], c, t)
  {
    assert forall i :: 0 <= i < |log| ==> log'[i] == log'[..|log|][i];
  }

  lemma LogGrows(log: seq<D.Event>, log': seq<D.Event>, times: seq<nat>, now: nat)
    requires |times| == |log| && |log'| == |log| + 1 && log'[..|log|] == log
    requires Increasing(log, times)
    requires log'[|log|].Executed? ==> Before(log, times, log'[|log|].c, now)
    ensures Increasing(log', times + [now])
  {
    assert forall i :: 0 <= i < |log| ==> log'[i] == log'[..|log|][i];
  }

  /** A running device is level with the clock. */
  lemma Level(clock: T.State, d: nat)
    requires T.Reachable(clock) && d < |clock.devs| && clock.devs[d].pc.Running?
    ensures clock.devs[d].slots == clock.time
  {
    hide T.Reachable;
    T.WithinOneSlot(clock, d);
  }

  /** What a processor move has to be like: in its slot, or the move over the call of next_slot. */
  predicate Allowed(s: Whole, m: D.Move)
    requires D.Ready(s.os, m) && D.Possible(s.os, m) && |s.clock.devs| == |s.os.cpus| + 1
  {
    m.CpuMove? ==>
      if s.os.cpus[m.c].pc.AtSlot? then !s.clock.devs[m.c].pc.Running?
      else s.clock.devs[m.c].pc.Running? && !s.os.cpus[m.c].pc.Stopped?
  }

  lemma LogOfOwn(log: seq<D.Event>, log': seq<D.Event>, times: seq<nat>, now: nat)
    requires |times| == |log| && |log'| == |log| + 1 && log'[..|log|] == log && log'[|log|].Executed?
    requires Before(log, times, log'[|log|].c, now)
    ensures Before(log', times + [now], log'[|log|].c, now + 1)
  {
    assert forall i :: 0 <= i < |log| ==> log'[i] == log'[..|log|][i];
  }

  lemma MovedPaced(s: Whole, m: D.Move, timeSlot: nat, c: nat)
    requires Moved(s, m, timeSlot).Some? && |s.clock.devs| == |s.os.cpus| + 1 && |s.times| == |s.os.log|
    requires T.Reachable(s.clock) && Allowed(s, m) && c < |s.os.cpus| && Paced(s, c)
    requires |D.Next(s.os, m, timeSlot).cpus| == |s.os.cpus|
    ensures Paced(Moved(s, m, timeSlot).value, c)
  {
    hide D.Next, D.Ready, D.Possible, T.Reachable, Before;
    MoveShape(s.os, m, timeSlot);
    var os', now, slots := D.Next(s.os, m, timeSlot), s.clock.time, s.clock.devs[c].slots;
    if |os'.log| > |s.os.log| {
      var e := os'.log[|s.os.log|];
      if e.Executed? && e.c == c {
        Level(s.clock, c);
        LogOfOwn(s.os.log, os'.log, s.times, now);
      } else {
        LogStays(s.os.log, os'.log, s.times, c, slots + 1, now);
        if Before(s.os.log, s.times, c, slots) { LogStays(s.os.log, os'.log, s.times, c, slots, now); }
      }
    }
  }

  lemma MovedKeepsInv(s: Whole, m: D.Move, timeSlot: nat)
    requires Inv(s, timeSlot) && Moved(s, m, timeSlot).Some? && Allowed(s, m)
    ensures Inv(Moved(s, m, timeSlot).value, timeSlot)
  {
    hide D.Next, D.Ready, D.Possible, D.Reachable, T.Reachable, Before, Increasing;
    D.StepsAlwaysReady(s.os, m, timeSlot);
    MoveShape(s.os, m, timeSlot);
    var s' := Moved(s, m, timeSlot).value;
    forall c | 0 <= c < |s'.os.cpus| ensures Paced(s', c) {
      hide Paced;
      MovedPaced(s, m, timeSlot, c);
    }
    if |s'.os.log| > |s.os.log| {
      var e := s'.os.log[|s.os.log|];
      if e.Executed? {
        Level(s.clock, e.c);
        assert Paced(s, e.c);
      }
      LogGrows(s.os.log, s'.os.log, s.times, s.clock.time);
    }
  }

  lemma BeforeLater(log: seq<D.Event>, times: seq<nat>, c: nat, t: int, t': int)
    requires Before(log, times, c, t) && t <= t'
    ensures Before(log, times, c, t')
  {
  }

  lemma TickedKeepsInv(s: Whole, m: T.Move, timeSlot: nat)
    requires Inv(s, timeSlot) && Ticked(s, m).Some?
    ensures Inv(Ticked(s, m).value, timeSlot)
  {
    hide T.Next, D.Reachable, T.Reachable, Before, Increasing;
    var s' := Ticked(s, m).value;
    T.NextReachable(s.clock, m);
    TickShape(s.clock, m);
    forall c | 0 <= c < |s.os.cpus| ensures Paced(s', c) {
      var was, now := s.clock.devs[c].slots, s'.clock.devs[c].slots;
      assert Paced(s, c);
      BeforeLater(s.os.log, s.times, c, was + 1, now + 1);
      if now > was { BeforeLater(s.os.log, s.times, c, was + 1, now); }
    }
  }

  lemma InvSizes(s: Whole, timeSlot: nat)
    requires Inv(s, timeSlot)
    ensures |s.clock.devs| == |s.os.cpus| + 1
  {
  }

  lemma CanMove(os: D.Os, c: nat)
    requires c < |os.cpus|
    ensures D.Possible(os, D.CpuMove(c))
  {
  }

  /** The call of next_slot by processor d, in the order call and return. */
  lemma EnterKeepsInv(s: Whole, d: nat, timeSlot: nat)
    requires Inv(s, timeSlot) && d < |s.os.cpus| && InSlot(s, d) && s.os.cpus[d].pc.AtSlot?
    requires Next(s, Enter(d), timeSlot).Some?
    ensures Inv(Next(s, Enter(d), timeSlot).value, timeSlot)
  {
    hide D.Next, D.Ready, D.Possible, Inv;
    assert |s.clock.devs| == |s.os.cpus| + 1 by { InvSizes(s, timeSlot); }
    TickedKeepsInv(s, T.CallNextSlot(d), timeSlot);
    var called := Ticked(s, T.CallNextSlot(d)).value;
    assert D.Possible(s.os, D.CpuMove(d)) by { CanMove(s.os, d); }
    MovedKeepsInv(called, D.CpuMove(d), timeSlot);
  }

  lemma NextKeepsInv(s: Whole, m: Move, timeSlot: nat)
    requires Inv(s, timeSlot) && Next(s, m, timeSlot).Some?
    ensures Inv(Next(s, m, timeSlot).value, timeSlot)
  {
    InvSizes(s, timeSlot);
    hide D.Next, D.Ready, D.Possible, T.Next, Inv;
    match m
    case Step(c) => MovedKeepsInv(s, D.CpuMove(c), timeSlot);
    case Loader(m) => MovedKeepsInv(s, m, timeSlot);
    case Enter(d) =>
      if d < |s.os.cpus| { EnterKeepsInv(s, d, timeSlot); } else { TickedKeepsInv(s, T.CallNextSlot(d), timeSlot); }
    case Leave(d) => TickedKeepsInv(s, T.CallDetach(d), timeSlot);
    case Barrier(b) => TickedKeepsInv(s, b, timeSlot);
  }

  // ---------------------------------------------------------------- every reachable state

  lemma InitialInv(cpus: nat, timeSlot: nat)
    requires timeSlot > 0
    ensures Inv(Initial(cpus), timeSlot)
  {
    assert D.After(cpus, [], timeSlot) == Some(D.Initial(cpus));
    assert T.After(cpus + 1, []) == Some(T.Initial(cpus + 1));
  }

  lemma {:induction false} AfterInv(cpus: nat, ms: seq<Move>, timeSlot: nat)
    requires timeSlot > 0 && After(cpus, ms, timeSlot).Some?
    ensures Inv(After(cpus, ms, timeSlot).value, timeSlot)
  {
    hide Inv, Next, Initial;
    if ms == [] {
      InitialInv(cpus, timeSlot);
    } else {
      AfterInv(cpus, ms[..|ms| - 1], timeSlot);
      NextKeepsInv(After(cpus, ms[..|ms| - 1], timeSlot).value, ms[|ms| - 1], timeSlot);
    }
  }

  lemma ReachableInv(s: Whole, timeSlot: nat)
    requires Reachable(s, timeSlot)
    ensures Inv(s, timeSlot)
  {
    hide Inv, After;
    var cpus: nat, ms :| After(cpus, ms, timeSlot) == Some(s);
    AfterInv(cpus, ms, timeSlot);
  }

  /** The processors and the clock put together are still the processors and the clock: whatever holds
      in all states one of them reaches alone holds of it in the whole. */
  lemma PartsReachable(s: Whole, timeSlot: nat)
    requires Reachable(s, timeSlot)
    ensures D.Reachable(s.os, timeSlot) && T.Reachable(s.clock)
    ensures |s.clock.devs| == |s.os.cpus| + 1
  {
    hide Reachable, D.Reachable, T.Reachable, Increasing;
    ReachableInv(s, timeSlot);
  }

  /** A processor runs at most one instruction in each slot of the clock: two instructions of one
      processor never have the same time. */
  lemma OneInstructionPerSlot(s: Whole, i: nat, j: nat, timeSlot: nat)
    requires Reachable(s, timeSlot) && i < j < |s.os.log|
    requires s.os.log[i].Executed? && s.os.log[j].Executed? && s.os.log[i].c == s.os.log[j].c
    ensures |s.times| == |s.os.log| && s.times[i] < s.times[j] <= s.clock.time
  {
    hide Reachable, D.Reachable, T.Reachable, Paced;
    ReachableInv(s, timeSlot);
  }

  lemma RunningMoves(s: Whole, d: nat, timeSlot: nat)
    requires D.Reachable(s.os, timeSlot) && |s.clock.devs| == |s.os.cpus| + 1
    requires InSlot(s, d)
    ensures exists m :: Next(s, m, timeSlot).Some?
  {
    hide D.Next, D.Ready, D.Reachable;
    if d == |s.os.cpus| {
      assert Next(s, Enter(d), timeSlot).Some?;
    } else {
      D.StepsAlwaysReady(s.os, D.CpuMove(d), timeSlot);
      if s.os.cpus[d].pc.AtSlot? {
        assert Next(s, Enter(d), timeSlot).Some?;
      } else if s.os.cpus[d].pc.Stopped? {
        assert Next(s, Leave(d), timeSlot).Some?;
      } else {
        assert Next(s, Step(d), timeSlot).Some?;
      }
    }
  }

  /** The whole is never stuck: the timer has ended with all processors and the loader detached, or some
      move is possible. */
  lemma NeverStuck(s: Whole, timeSlot: nat)
    requires Reachable(s, timeSlot)
    ensures (s.clock.timer.Ended? && T.AllDetached(s.clock.devs)) || exists m :: Next(s, m, timeSlot).Some?
  {
    PartsReachable(s, timeSlot);
    T.NoDeadlock(s.clock);
    if T.TimerNext(s.clock).Some? {
      assert Next(s, Barrier(T.TimerMove), timeSlot).Some?;
    } else if d :| 0 <= d < |s.clock.devs| && (s.clock.devs[d].pc.Running? || T.DevNext(s.clock, d).Some?) {
      if s.clock.devs[d].pc.Running? {
        RunningMoves(s, d, timeSlot);
      } else {
        assert Next(s, Barrier(T.DevMove(d)), timeSlot).Some?;
      }
    }
  }
}
