/** The slot barrier of src/timer.c as a state machine: one timer thread, any number of device
    threads, and for each device its two mutexes and two condition variables. One move is one
    lock, flag, signal, wait or unlock operation of one thread, so a run is any interleaving. */
module TimerBarrier {
  import opened Wrappers

  datatype Holder = Nobody | Timer | Device

  /** Where a device thread is: in next_slot, in detach_event (`leaving`), or in neither. */
  datatype DevPc =
    | Running
    | LockEvent(leaving: bool)
    | SetFlag(leaving: bool)
    | SignalEvent(leaving: bool)
    | UnlockEvent(leaving: bool)
    | LockTimer
    | TestDone
    | Waiting
    | Woken
    | UnlockTimer
    | Detached

  /** `slots` counts the calls of next_slot that have returned. */
  datatype Dev = Dev(done: bool, fsh: bool, eventLock: Holder, timerLock: Holder, pc: DevPc, slots: nat)

  /** Where the timer thread is; i is the position in the device list. */
  datatype TimerPc =
    | Top
    | EvLock(i: nat)
    | EvTest(i: nat)
    | EvWait(i: nat)
    | EvWoken(i: nat)
    | EvUnlock(i: nat)
    | Tick
    | TmLock(i: nat)
    | TmClear(i: nat)
    | TmSignal(i: nat)
    | TmUnlock(i: nat)
    | Decide
    | Ended

  datatype State = State(devs: seq<Dev>, timer: TimerPc, time: nat, fsh: nat, event: nat, stop: bool)

  /** Besides the steps of the two kinds of thread: a running device calling next_slot or
      detach_event, a wait returning without a signal, and stop_timer, which the main thread calls
      once all device threads have ended. */
  datatype Move =
    | TimerMove
    | DevMove(d: nat)
    | CallNextSlot(d: nat)
    | CallDetach(d: nat)
    | SpuriousTimer
    | SpuriousDev(d: nat)
    | StopTimer

  // ---------------------------------------------------------------- moves

  function WithDev(s: State, d: nat, dev: Dev): State
    requires d < |s.devs|
  {
    s.(devs := s.devs[d := dev])
  }

  /** One step of the timer at device i of its list: the device and the timer afterwards. */
  function TimerAt(t: TimerPc, dev: Dev): Option<(Dev, TimerPc)> {
    match t
    case EvLock(i) => if dev.eventLock.Nobody? then Some((dev.(eventLock := Timer), EvTest(i))) else None
    case EvTest(i) =>
      Some(if !dev.done && !dev.fsh then (dev.(eventLock := Nobody), EvWait(i)) else (dev, EvUnlock(i)))
    case EvWait(_) => None
    case EvWoken(i) => if dev.eventLock.Nobody? then Some((dev.(eventLock := Timer), EvTest(i))) else None
    case EvUnlock(i) => Some((dev.(eventLock := Nobody), EvLock(i + 1)))
    case TmLock(i) => if dev.timerLock.Nobody? then Some((dev.(timerLock := Timer), TmClear(i))) else None
    case TmClear(i) => Some((dev.(done := false), TmSignal(i)))
    case TmSignal(i) => Some((if dev.pc.Waiting? then dev.(pc := Woken) else dev, TmUnlock(i)))
    case TmUnlock(i) => Some((dev.(timerLock := Nobody), TmLock(i + 1)))
    case _ => None
  }

  predicate AtDevice(t: TimerPc, n: nat) {
    !t.Top? && !t.Tick? && !t.Decide? && !t.Ended? && t.i < n
  }

  /** One step of timer_routine; none when it waits for a mutex or a signal, or has ended. */
  function TimerNext(s: State): Option<State> {
    if AtDevice(s.timer, |s.devs|) then
      var i := s.timer.i;
      match TimerAt(s.timer, s.devs[i])
      case None => None
      case Some((dev, t)) =>
        var s' := WithDev(s, i, dev).(timer := t);
        Some(if t.EvUnlock? then s'.(fsh := if dev.fsh then s.fsh + 1 else s.fsh, event := s.event + 1) else s')
    else
      match s.timer
      case Top => Some(if s.stop then s.(timer := Ended) else s.(timer := EvLock(0), fsh := 0, event := 0))
      case EvLock(_) => Some(s.(timer := Tick))
      case Tick => Some(s.(time := s.time + 1, timer := TmLock(0)))
      case TmLock(_) => Some(s.(timer := Decide))
      case Decide => Some(s.(timer := if s.fsh == s.event then Ended else Top))
      case _ => None
  }

  /** One step of a device inside next_slot or detach_event; none when it waits or is outside. */
  function DevStep(dev: Dev): Option<Dev> {
    match dev.pc
    case Running => None
    case LockEvent(leaving) =>
      if dev.eventLock.Nobody? then Some(dev.(eventLock := Device, pc := SetFlag(leaving))) else None
    case SetFlag(leaving) =>
      Some((if leaving then dev.(fsh := true) else dev.(done := true)).(pc := SignalEvent(leaving)))
    case SignalEvent(leaving) => Some(dev.(pc := UnlockEvent(leaving)))
    case UnlockEvent(leaving) => Some(dev.(eventLock := Nobody, pc := if leaving then Detached else LockTimer))
    case LockTimer => if dev.timerLock.Nobody? then Some(dev.(timerLock := Device, pc := TestDone)) else None
    case TestDone => Some(if dev.done then dev.(timerLock := Nobody, pc := Waiting) else dev.(pc := UnlockTimer))
    case Waiting => None
    case Woken => if dev.timerLock.Nobody? then Some(dev.(timerLock := Device, pc := TestDone)) else None
    case UnlockTimer => Some(dev.(timerLock := Nobody, pc := Running, slots := dev.slots + 1))
    case Detached => None
  }

  /** The step of device d; its signal wakes the timer if that sleeps on the device. */
  function DevNext(s: State, d: nat): Option<State>
    requires d < |s.devs|
  {
    match DevStep(s.devs[d])
    case None => None
    case Some(dev) =>
      var wakes := s.devs[d].pc.SignalEvent? && s.timer == EvWait(d);
      Some(WithDev(s, d, dev).(timer := if wakes then EvWoken(d) else s.timer))
  }

  predicate FirstDetached(devs: seq<Dev>, n: nat)
    requires n <= |devs|
  {
    forall d :: 0 <= d < n ==> devs[d].pc.Detached?
  }

  predicate AllDetached(devs: seq<Dev>) {
    FirstDetached(devs, |devs|)
  }

  /** The state after a move, or none when the move is not possible. */
  function Next(s: State, m: Move): Option<State> {
    match m
    case TimerMove => TimerNext(s)
    case DevMove(d) => if d < |s.devs| then DevNext(s, d) else None
    case CallNextSlot(d) =>
      if d < |s.devs| && s.devs[d].pc.Running? then Some(WithDev(s, d, s.devs[d].(pc := LockEvent(false)))) else None
    case CallDetach(d) =>
      if d < |s.devs| && s.devs[d].pc.Running? then Some(WithDev(s, d, s.devs[d].(pc := LockEvent(true)))) else None
    case SpuriousTimer => if s.timer.EvWait? then Some(s.(timer := EvWoken(s.timer.i))) else None
    case SpuriousDev(d) =>
      if d < |s.devs| && s.devs[d].pc.Waiting? then Some(WithDev(s, d, s.devs[d].(pc := Woken))) else None
    case StopTimer => if AllDetached(s.devs) then Some(s.(stop := true)) else None
  }

  /** n devices attached, the timer just started. */
  function Initial(n: nat): State {
    State(seq(n, _ => Dev(false, false, Nobody, Nobody, Running, 0)), Top, 0, 0, 0, false)
  }

  // ---------------------------------------------------------------- the invariant

  /** What the position of the timer means for one device: it has not accepted the device in this
      round or has released it already (Open), it tests it, sleeps on it, has accepted it and holds
      its event mutex, has accepted it (before or after the tick), or is releasing it. */
  datatype Phase = Open | Testing | Sleeping | Accepting | Accepted(ticked: bool) | Clearing | Signalling | Releasing

  function PhaseOf(t: TimerPc, d: nat): Phase {
    match t
    case Top => Open
    case EvLock(i) => if d < i then Accepted(false) else Open
    case EvTest(i) => if d < i then Accepted(false) else if d == i then Testing else Open
    case EvWait(i) => if d < i then Accepted(false) else if d == i then Sleeping else Open
    case EvWoken(i) => if d < i then Accepted(false) else Open
    case EvUnlock(i) => if d < i then Accepted(false) else if d == i then Accepting else Open
    case Tick => Accepted(false)
    case TmLock(i) => if d < i then Open else Accepted(true)
    case TmClear(i) => if d < i then Open else if d == i then Clearing else Accepted(true)
    case TmSignal(i) => if d < i then Open else if d == i then Signalling else Accepted(true)
    case TmUnlock(i) => if d < i then Open else if d == i then Releasing else Accepted(true)
    case Decide => Open
    case Ended => Open
  }

  /** In the second half of next_slot, where the device waits for done to be cleared. */
  predicate Blocked(pc: DevPc) {
    pc.LockTimer? || pc.TestDone? || pc.Waiting? || pc.Woken?
  }

  predicate HoldsEvent(pc: DevPc) {
    pc.SetFlag? || pc.SignalEvent? || pc.UnlockEvent?
  }

  predicate LocksOk(d: Dev, ph: Phase) {
    && (d.eventLock.Device? <==> HoldsEvent(d.pc))
    && (d.eventLock.Timer? <==> ph.Testing? || ph.Accepting?)
    && (d.timerLock.Device? <==> d.pc.TestDone? || d.pc.UnlockTimer?)
    && (d.timerLock.Timer? <==> ph.Clearing? || ph.Signalling? || ph.Releasing?)
  }

  predicate FlagsOk(d: Dev, ph: Phase) {
    && (d.fsh <==> d.pc.Detached? || ((d.pc.SignalEvent? || d.pc.UnlockEvent?) && d.pc.leaving))
    && (d.done ==> Blocked(d.pc) || ((d.pc.SignalEvent? || d.pc.UnlockEvent?) && !d.pc.leaving))
    && ((d.pc.SignalEvent? || d.pc.UnlockEvent?) && !d.pc.leaving ==> d.done)
    && (ph.Accepting? || ph.Accepted? || ph.Clearing? ==> d.pc.Detached? || (d.done && Blocked(d.pc)))
    && (ph.Signalling? ==> !d.done && (d.pc.Detached? || Blocked(d.pc)))
  }

  /** No lost wakeup, on either condition variable. */
  predicate WakeupsOk(d: Dev, ph: Phase) {
    && (d.pc.Waiting? && !d.done ==> ph.Signalling?)
    && (ph.Sleeping? && (d.done || d.fsh) ==> d.pc.SignalEvent?)
  }

  /** The device has been counted into the current slot by the tick but has not returned yet. */
  predicate Behind(d: Dev, ph: Phase) {
    (Blocked(d.pc) || d.pc.UnlockTimer?) && (!d.done || ph == Accepted(true) || ph.Clearing?)
  }

  predicate SlotsOk(d: Dev, ph: Phase, time: nat) {
    !d.pc.Detached? ==> d.slots + (if Behind(d, ph) then 1 else 0) == time
  }

  predicate DevOk(d: Dev, ph: Phase, time: nat) {
    LocksOk(d, ph) && FlagsOk(d, ph) && WakeupsOk(d, ph) && SlotsOk(d, ph, time)
  }

  predicate InRange(t: TimerPc, n: nat) {
    match t
    case EvLock(i) => i <= n
    case TmLock(i) => i <= n
    case EvTest(i) => i < n
    case EvWait(i) => i < n
    case EvWoken(i) => i < n
    case EvUnlock(i) => i < n
    case TmClear(i) => i < n
    case TmSignal(i) => i < n
    case TmUnlock(i) => i < n
    case _ => true
  }

  /** How many devices the first loop has counted. */
  function Counted(t: TimerPc, n: nat): nat {
    match t
    case EvLock(i) => i
    case EvTest(i) => i
    case EvWait(i) => i
    case EvWoken(i) => i
    case EvUnlock(i) => i + 1
    case _ => n
  }

  /** From the first lock to the tick. */
  predicate FirstLoop(t: TimerPc) {
    t.EvLock? || t.EvTest? || t.EvWait? || t.EvWoken? || t.EvUnlock? || t.Tick?
  }

  /** The two counters agree only when every device counted has detached; up to the tick they
      differ only when one has not. */
  predicate CountsOk(s: State) {
    var n := Counted(s.timer, |s.devs|);
    !s.timer.Top? && !s.timer.Ended? ==>
      && s.fsh <= s.event == n <= |s.devs|
      && (s.fsh == s.event ==> FirstDetached(s.devs, n))
      && (FirstLoop(s.timer) && FirstDetached(s.devs, n) ==> s.fsh == s.event)
  }

  predicate EndOk(s: State) {
    (s.stop || s.timer.Ended?) ==> AllDetached(s.devs)
  }

  ghost predicate Inv(s: State) {
    && InRange(s.timer, |s.devs|)
    && (forall d :: 0 <= d < |s.devs| ==> DevOk(s.devs[d], PhaseOf(s.timer, d), s.time))
    && CountsOk(s)
    && EndOk(s)
  }

  lemma InitialInv(n: nat)
    ensures Inv(Initial(n)) && Initial(n).time == 0 && |Initial(n).devs| == n
    ensures forall d :: 0 <= d < n ==> Initial(n).devs[d].pc.Running? && Initial(n).devs[d].slots == 0
  {
  }

  // ---------------------------------------------------------------- preservation

  lemma DevStepOk(dev: Dev, ph: Phase, time: nat)
    requires DevOk(dev, ph, time) && DevStep(dev).Some?
    ensures DevOk(DevStep(dev).value, if dev.pc.SignalEvent? && ph.Sleeping? then Open else ph, time)
  {
  }

  lemma DevMoveKeepsInv(s: State, d: nat)
    requires Inv(s) && d < |s.devs| && DevNext(s, d).Some?
    ensures Inv(DevNext(s, d).value)
  {
    assert DevOk(s.devs[d], PhaseOf(s.timer, d), s.time);
    var s' := DevNext(s, d).value;
    assert FirstLoop(s.timer) && d < Counted(s.timer, |s.devs|) ==>
        PhaseOf(s.timer, d) == Accepting || PhaseOf(s.timer, d) == Accepted(false);
    assert FirstLoop(s.timer) && d < Counted(s.timer, |s.devs|) ==>
        !s.devs[d].pc.Detached? && !s'.devs[d].pc.Detached?;
    hide DevOk;
    DevStepOk(s.devs[d], PhaseOf(s.timer, d), s.time);
    assert forall j :: 0 <= j < |s.devs| && j != d ==> PhaseOf(s'.timer, j) == PhaseOf(s.timer, j);
    assert !s.devs[d].pc.Detached?;
  }

  lemma TimerAtOk(t: TimerPc, dev: Dev, n: nat, time: nat)
    requires AtDevice(t, n) && DevOk(dev, PhaseOf(t, t.i), time) && TimerAt(t, dev).Some?
    ensures var (dev', t') := TimerAt(t, dev).value;
            DevOk(dev', PhaseOf(t', t.i), time)
  {
  }

  lemma OtherPhasesSame(t: TimerPc, dev: Dev, n: nat, j: nat)
    requires AtDevice(t, n) && TimerAt(t, dev).Some? && j != t.i
    ensures PhaseOf(TimerAt(t, dev).value.1, j) == PhaseOf(t, j)
  {
  }

  /** The timer's own step, seen from one device. */
  lemma TimerStepDevOk(s: State, j: nat)
    requires InRange(s.timer, |s.devs|) && j < |s.devs| && TimerNext(s).Some?
    requires DevOk(s.devs[j], PhaseOf(s.timer, j), s.time)
    ensures var s' := TimerNext(s).value;
            |s'.devs| == |s.devs| && DevOk(s'.devs[j], PhaseOf(s'.timer, j), s'.time)
  {
    if AtDevice(s.timer, |s.devs|) {
      hide DevOk, PhaseOf, TimerAt;
      if j == s.timer.i {
        TimerAtOk(s.timer, s.devs[j], |s.devs|, s.time);
      } else {
        OtherPhasesSame(s.timer, s.devs[s.timer.i], |s.devs|, j);
      }
    }
  }

  lemma SameDetached(devs: seq<Dev>, devs': seq<Dev>, n: nat)
    requires n <= |devs| == |devs'|
    requires forall d :: 0 <= d < |devs| ==> (devs[d].pc.Detached? <==> devs'[d].pc.Detached?)
    ensures FirstDetached(devs, n) <==> FirstDetached(devs', n)
    ensures AllDetached(devs) <==> AllDetached(devs')
  {
  }

  lemma OneMoreDetached(devs: seq<Dev>, i: nat)
    requires i < |devs|
    ensures FirstDetached(devs, i + 1) <==> FirstDetached(devs, i) && devs[i].pc.Detached?
  {
  }

  lemma DetachedIsFlagged(s: State, i: nat)
    requires Inv(s) && s.timer == EvTest(i)
    ensures i < |s.devs| && (s.devs[i].fsh <==> s.devs[i].pc.Detached?)
  {
    assert DevOk(s.devs[i], PhaseOf(s.timer, i), s.time);
  }

  lemma TimerAtCountsOk(s: State)
    requires InRange(s.timer, |s.devs|) && CountsOk(s) && EndOk(s)
    requires AtDevice(s.timer, |s.devs|) && TimerNext(s).Some?
    requires s.timer.EvTest? ==> (s.devs[s.timer.i].fsh <==> s.devs[s.timer.i].pc.Detached?)
    ensures var s' := TimerNext(s).value;
            InRange(s'.timer, |s'.devs|) && CountsOk(s') && EndOk(s')
  {
    hide FirstDetached;
    if s.timer.EvTest? {
      OneMoreDetached(TimerNext(s).value.devs, s.timer.i);
    }
    SameDetached(s.devs, TimerNext(s).value.devs, Counted(s.timer, |s.devs|));
  }

  lemma TimerStepCountsOk(s: State)
    requires Inv(s) && TimerNext(s).Some?
    ensures var s' := TimerNext(s).value;
            InRange(s'.timer, |s'.devs|) && CountsOk(s') && EndOk(s')
  {
    hide DevOk;
    if AtDevice(s.timer, |s.devs|) {
      if s.timer.EvTest? { DetachedIsFlagged(s, s.timer.i); }
      TimerAtCountsOk(s);
    } else {
      assert FirstDetached(s.devs, 0);
      hide FirstDetached;
    }
  }

  lemma TimerKeepsDevices(s: State)
    requires TimerNext(s).Some?
    ensures |TimerNext(s).value.devs| == |s.devs|
  {
  }

  lemma TimerMoveKeepsInv(s: State)
    requires Inv(s) && TimerNext(s).Some?
    ensures Inv(TimerNext(s).value)
  {
    hide DevOk, TimerNext, CountsOk, EndOk, InRange;
    TimerStepCountsOk(s);
    var s' := TimerNext(s).value;
    TimerKeepsDevices(s);
    forall j | 0 <= j < |s'.devs| ensures DevOk(s'.devs[j], PhaseOf(s'.timer, j), s'.time) {
      TimerStepDevOk(s, j);
    }
  }

  lemma OneDeviceChanges(s: State, d: nat, dev: Dev)
    requires Inv(s) && d < |s.devs| && DevOk(dev, PhaseOf(s.timer, d), s.time)
    requires dev.pc.Detached? <==> s.devs[d].pc.Detached?
    ensures Inv(WithDev(s, d, dev))
  {
    hide DevOk, FirstDetached;
    var s' := WithDev(s, d, dev);
    SameDetached(s.devs, s'.devs, Counted(s.timer, |s.devs|));
    SameDetached(s.devs, s'.devs, 0);
  }

  lemma SpuriousTimerKeepsInv(s: State)
    requires Inv(s) && s.timer.EvWait?
    ensures Inv(s.(timer := EvWoken(s.timer.i)))
  {
    var s' := s.(timer := EvWoken(s.timer.i));
    forall j | 0 <= j < |s'.devs| ensures DevOk(s'.devs[j], PhaseOf(s'.timer, j), s'.time) {
      assert DevOk(s.devs[j], PhaseOf(s.timer, j), s.time);
    }
  }

  lemma StopKeepsInv(s: State)
    requires Inv(s) && AllDetached(s.devs)
    ensures Inv(s.(stop := true))
  {
    hide DevOk;
  }

  lemma CallKeepsInv(s: State, d: nat, pc: DevPc)
    requires Inv(s) && d < |s.devs|
    requires (s.devs[d].pc.Running? && pc.LockEvent?) || (s.devs[d].pc.Waiting? && pc.Woken?)
    ensures Inv(WithDev(s, d, s.devs[d].(pc := pc)))
  {
    assert DevOk(s.devs[d], PhaseOf(s.timer, d), s.time);
    assert DevOk(s.devs[d].(pc := pc), PhaseOf(s.timer, d), s.time);
    OneDeviceChanges(s, d, s.devs[d].(pc := pc));
  }

  /** Every move of every thread keeps the invariant. */
  lemma NextKeepsInv(s: State, m: Move)
    requires Inv(s) && Next(s, m).Some?
    ensures Inv(Next(s, m).value)
  {
    hide Inv, TimerNext, DevNext;
    match m
    case TimerMove => TimerMoveKeepsInv(s);
    case DevMove(d) => DevMoveKeepsInv(s, d);
    case SpuriousTimer => SpuriousTimerKeepsInv(s);
    case StopTimer => StopKeepsInv(s);
    case CallNextSlot(d) => CallKeepsInv(s, d, LockEvent(false));
    case CallDetach(d) => CallKeepsInv(s, d, LockEvent(true));
    case SpuriousDev(d) => CallKeepsInv(s, d, Woken);
  }

  // ---------------------------------------------------------------- every reachable state

  /** The state after n devices were attached and the moves ms made, if they are possible. */
  function After(n: nat, ms: seq<Move>): Option<State> {
    if ms == [] then Some(Initial(n))
    else
      match After(n, ms[..|ms| - 1])
      case None => None
      case Some(s) => Next(s, ms[|ms| - 1])
  }

  ghost predicate Reachable(s: State) {
    exists n, ms :: After(n, ms) == Some(s)
  }

  lemma {:induction false} AfterInv(n: nat, ms: seq<Move>)
    requires After(n, ms).Some?
    ensures Inv(After(n, ms).value)
  {
    if ms == [] {
      InitialInv(n);
    } else {
      AfterInv(n, ms[..|ms| - 1]);
      NextKeepsInv(After(n, ms[..|ms| - 1]).value, ms[|ms| - 1]);
    }
  }

  lemma ReachableInv(s: State)
    requires Reachable(s)
    ensures Inv(s)
  {
    var n, ms :| After(n, ms) == Some(s);
    AfterInv(n, ms);
  }

  lemma NextReachable(s: State, m: Move)
    requires Reachable(s) && Next(s, m).Some?
    ensures Reachable(Next(s, m).value)
  {
    var n, ms :| After(n, ms) == Some(s);
    assert (ms + [m])[..|ms + [m]| - 1] == ms;
    assert After(n, ms + [m]) == Next(s, m);
  }

  /** Barrier safety: the clock moves only by one, only by the timer, and only when every device has
      detached or is blocked in next_slot with its flag set. */
  lemma TickOnlyWhenAllBlocked(s: State, m: Move)
    requires Reachable(s) && Next(s, m).Some? && Next(s, m).value.time != s.time
    ensures m.TimerMove? && Next(s, m).value.time == s.time + 1
    ensures forall d :: 0 <= d < |s.devs| ==>
              s.devs[d].pc.Detached? || (s.devs[d].done && Blocked(s.devs[d].pc))
  {
    ReachableInv(s);
    forall d | 0 <= d < |s.devs|
      ensures s.devs[d].pc.Detached? || (s.devs[d].done && Blocked(s.devs[d].pc))
    {
      assert DevOk(s.devs[d], PhaseOf(s.timer, d), s.time);
    }
  }

  /** Device d is in every state of the run from s neither blocked in next_slot nor detached. */
  ghost predicate StaysActive(s: State, ms: seq<Move>, d: nat)
    decreases |ms|
  {
    && d < |s.devs| && !Blocked(s.devs[d].pc) && !s.devs[d].pc.Detached?
    && (ms != [] ==> Next(s, ms[0]).Some? && StaysActive(Next(s, ms[0]).value, ms[1..], d))
  }

  function Final(s: State, ms: seq<Move>): State
    decreases |ms|
  {
    if ms == [] then s
    else match Next(s, ms[0])
      case None => s
      case Some(s') => Final(s', ms[1..])
  }

  /** A device sees one time from the return of next_slot to the point in the next call where it
      blocks, whatever all other threads do. */
  lemma {:induction false} ActiveDeviceSeesOneTime(s: State, ms: seq<Move>, d: nat)
    requires Reachable(s) && StaysActive(s, ms, d)
    ensures Final(s, ms).time == s.time
    decreases |ms|
  {
    if ms != [] {
      hide Next;
      var s' := Next(s, ms[0]).value;
      NextReachable(s, ms[0]);
      if s'.time != s.time { TickOnlyWhenAllBlocked(s, ms[0]); }
      ActiveDeviceSeesOneTime(s', ms[1..], d);
    }
  }

  /** A device that has not detached has finished as many slots as the clock shows, or one less
      while it is still inside next_slot; so two such devices are never more than one slot apart. */
  lemma WithinOneSlot(s: State, d: nat)
    requires Reachable(s) && d < |s.devs| && !s.devs[d].pc.Detached?
    ensures s.time - 1 <= s.devs[d].slots <= s.time
    ensures s.devs[d].slots < s.time ==> Blocked(s.devs[d].pc) || s.devs[d].pc.UnlockTimer?
    ensures forall e :: 0 <= e < |s.devs| && !s.devs[e].pc.Detached? ==> -1 <= s.devs[d].slots - s.devs[e].slots <= 1
  {
    ReachableInv(s);
    assert DevOk(s.devs[d], PhaseOf(s.timer, d), s.time);
    forall e | 0 <= e < |s.devs| && !s.devs[e].pc.Detached?
      ensures -1 <= s.devs[d].slots - s.devs[e].slots <= 1
    {
      assert DevOk(s.devs[e], PhaseOf(s.timer, e), s.time);
    }
  }

  /** No lost wakeup: a device waits with its flag cleared only while the timer is about to signal it,
      and the timer sleeps on a device that is done or detached only while that is about to signal. */
  lemma NoLostWakeup(s: State, d: nat)
    requires Reachable(s) && d < |s.devs|
    ensures s.devs[d].pc.Waiting? && !s.devs[d].done ==> s.timer == TmSignal(d)
    ensures s.timer == EvWait(d) && (s.devs[d].done || s.devs[d].fsh) ==> s.devs[d].pc.SignalEvent?
  {
    ReachableInv(s);
    assert DevOk(s.devs[d], PhaseOf(s.timer, d), s.time);
  }

  /** No deadlock: in every reachable state the timer has ended with all devices detached, or it can
      move, or a device can move inside the barrier, or a device is running its slot. */
  lemma NoDeadlock(s: State)
    requires Reachable(s)
    ensures (s.timer.Ended? && AllDetached(s.devs))
            || TimerNext(s).Some?
            || exists d :: 0 <= d < |s.devs| && (s.devs[d].pc.Running? || DevNext(s, d).Some?)
  {
    ReachableInv(s);
    if !s.timer.Ended? && TimerNext(s).None? {
      var i := s.timer.i;
      assert DevOk(s.devs[i], PhaseOf(s.timer, i), s.time);
      assert s.devs[i].pc.Running? || DevNext(s, i).Some?;
    }
  }

  /** At the tick the counters agree exactly when every device has detached, and the timer ends
      only then: no device is left blocked behind a timer that is gone. */
  lemma TimerEndsWithDevices(s: State)
    requires Reachable(s)
    ensures s.timer.Tick? ==> (s.fsh == s.event <==> AllDetached(s.devs))
    ensures s.timer.Decide? && s.fsh == s.event ==> AllDetached(s.devs)
    ensures s.timer.Ended? ==> AllDetached(s.devs)
  {
    ReachableInv(s);
  }

  // ---------------------------------------------------------------- progress

  /** Moves a device has left inside the barrier; a signal also pays for waking the timer. */
  function DevRank(pc: DevPc): nat {
    match pc
    case LockEvent(_) => 9
    case SetFlag(_) => 8
    case SignalEvent(_) => 7
    case UnlockEvent(_) => 4
    case LockTimer => 3
    case Woken => 3
    case TestDone => 2
    case UnlockTimer => 1
    case _ => 0
  }

  function DevRanks(devs: seq<Dev>): nat {
    if devs == [] then 0 else DevRanks(devs[..|devs| - 1]) + DevRank(devs[|devs| - 1].pc)
  }

  /** Moves the timer has left until its next tick; a signal also pays for waking the device. */
  function TimerRank(t: TimerPc, n: nat): int {
    match t
    case TmLock(i) => 5 * n + 4 + 7 * (n - i)
    case TmClear(i) => 5 * n + 3 + 7 * (n - i)
    case TmSignal(i) => 5 * n + 2 + 7 * (n - i)
    case TmUnlock(i) => 5 * n - 2 + 7 * (n - i)
    case Decide => 5 * n + 3
    case Top => 5 * n + 2
    case EvLock(i) => 5 * (n - i) + 1
    case EvWoken(i) => 5 * (n - i) + 1
    case EvTest(i) => 5 * (n - i)
    case EvWait(i) => 5 * (n - i) - 1
    case EvUnlock(i) => 5 * (n - i) - 1
    case Tick => 0
    case Ended => 0
  }

  function Rank(s: State): int {
    TimerRank(s.timer, |s.devs|) + DevRanks(s.devs)
  }

  lemma {:induction false} DevRanksUpdate(devs: seq<Dev>, d: nat, dev: Dev)
    requires d < |devs|
    ensures DevRanks(devs[d := dev]) == DevRanks(devs) - DevRank(devs[d].pc) + DevRank(dev.pc)
  {
    var n := |devs| - 1;
    if d < n {
      DevRanksUpdate(devs[..n], d, dev);
      assert devs[d := dev][..n] == devs[..n][d := dev];
    } else {
      assert devs[d := dev][..n] == devs[..n];
    }
  }

  lemma {:induction false} DevRanksBound(devs: seq<Dev>)
    ensures DevRanks(devs) <= 9 * |devs|
  {
    if devs != [] { DevRanksBound(devs[..|devs| - 1]); }
  }

  lemma RankBound(s: State)
    requires InRange(s.timer, |s.devs|)
    ensures 0 <= Rank(s) <= 21 * |s.devs| + 4
  {
    DevRanksBound(s.devs);
  }

  /** The moves of the two barrier routines themselves, as opposed to calls of them, waits that
      return unasked, and stop_timer. */
  predicate Internal(m: Move) {
    m.TimerMove? || m.DevMove?
  }

  lemma TimerAtLowersRank(t: TimerPc, dev: Dev, n: nat)
    requires AtDevice(t, n) && TimerAt(t, dev).Some?
    ensures var (dev', t') := TimerAt(t, dev).value;
            TimerRank(t', n) + DevRank(dev'.pc) < TimerRank(t, n) + DevRank(dev.pc)
  {
  }

  lemma TimerMoveLowersRank(s: State)
    requires InRange(s.timer, |s.devs|) && TimerNext(s).Some? && TimerNext(s).value.time == s.time
    ensures Rank(TimerNext(s).value) < Rank(s)
  {
    hide TimerAt, DevRank, DevRanks;
    if AtDevice(s.timer, |s.devs|) {
      var i := s.timer.i;
      TimerAtLowersRank(s.timer, s.devs[i], |s.devs|);
      DevRanksUpdate(s.devs, i, TimerAt(s.timer, s.devs[i]).value.0);
      hide TimerRank;
    }
  }

  /** A device signals at most once a call, and may wake the timer by it. */
  lemma DevMoveLowersRank(s: State, d: nat)
    requires d < |s.devs| && DevNext(s, d).Some?
    ensures Rank(DevNext(s, d).value) < Rank(s)
  {
    hide DevRanks;
    DevRanksUpdate(s.devs, d, DevStep(s.devs[d]).value);
  }

  lemma CallRaisesRank(s: State, d: nat, pc: DevPc)
    requires d < |s.devs| && DevRank(s.devs[d].pc) == 0
    ensures Rank(WithDev(s, d, s.devs[d].(pc := pc))) <= Rank(s) + 9
  {
    hide DevRanks;
    DevRanksUpdate(s.devs, d, s.devs[d].(pc := pc));
  }

  /** Up to the tick every internal move lowers the rank, and any other raises it by at most 9. */
  lemma MoveLowersRank(s: State, m: Move)
    requires InRange(s.timer, |s.devs|) && Next(s, m).Some? && Next(s, m).value.time == s.time
    ensures Rank(Next(s, m).value) <= Rank(s) + (if Internal(m) then -1 else 9)
  {
    hide TimerNext, DevNext, DevRanks;
    match m
    case TimerMove => TimerMoveLowersRank(s);
    case DevMove(d) => DevMoveLowersRank(s, d);
    case CallNextSlot(d) => CallRaisesRank(s, d, LockEvent(false));
    case CallDetach(d) => CallRaisesRank(s, d, LockEvent(true));
    case SpuriousDev(d) => CallRaisesRank(s, d, Woken);
    case SpuriousTimer =>
    case StopTimer =>
  }

  /** A run from s all of whose moves are possible. */
  predicate Possible(s: State, ms: seq<Move>)
    decreases |ms|
  {
    ms != [] ==> Next(s, ms[0]).Some? && Possible(Next(s, ms[0]).value, ms[1..])
  }

  function Internals(ms: seq<Move>): nat {
    if ms == [] then 0 else (if Internal(ms[0]) then 1 else 0) + Internals(ms[1..])
  }

  lemma {:induction false} NeverBack(s: State, ms: seq<Move>)
    requires Reachable(s) && Possible(s, ms)
    ensures Final(s, ms).time >= s.time
    decreases |ms|
  {
    if ms != [] {
      hide Next, Reachable;
      NextReachable(s, ms[0]);
      NeverBack(Next(s, ms[0]).value, ms[1..]);
      if Next(s, ms[0]).value.time != s.time { TickOnlyWhenAllBlocked(s, ms[0]); }
    }
  }

  /** Progress: from any reachable state, a run in which the clock stands still has at most 21 moves of
      the barrier per device and 4 more, plus 9 for every call or unasked return. So the barrier cannot
      spin: once the devices are inside, its own moves reach the tick. */
  lemma {:induction false} TicksWithin(s: State, ms: seq<Move>)
    requires Reachable(s) && Possible(s, ms) && Final(s, ms).time == s.time
    ensures Internals(ms) <= Rank(s) + 9 * (|ms| - Internals(ms))
    ensures Internals(ms) <= 21 * |s.devs| + 4 + 9 * (|ms| - Internals(ms))
    decreases |ms|
  {
    hide Next, Reachable, Rank;
    ReachableInv(s);
    RankBound(s);
    if ms != [] {
      var s' := Next(s, ms[0]).value;
      NextReachable(s, ms[0]);
      NeverBack(s', ms[1..]);
      if s'.time != s.time { TickOnlyWhenAllBlocked(s, ms[0]); }
      MoveLowersRank(s, ms[0]);
      TicksWithin(s', ms[1..]);
    }
  }

  // ---------------------------------------------------------------- the end

  /** From the tick to the end of the round. */
  predicate SecondLoop(t: TimerPc) {
    t.TmLock? || t.TmClear? || t.TmSignal? || t.TmUnlock? || t.Decide?
  }

  /** Moves the timer has left once all devices have detached: to the end of this round, and a whole
      round more when the devices were not all counted as detached in this one. */
  function MovesToEnd(s: State): int {
    var n, round := |s.devs|, 7 * |s.devs| + 5;
    var more := if s.fsh == s.event then 0 else round;
    match s.timer
    case Ended => 0
    case Top => round
    case EvLock(i) => 3 * (n - i) + 4 * n + 4
    case EvWoken(i) => 3 * (n - i) + 4 * n + 4
    case EvTest(i) => 3 * (n - i) + 4 * n + 3
    case EvUnlock(i) => 3 * (n - i) + 4 * n + 2
    case EvWait(i) => 3 * (n - i) + 4 * n + 4
    case Tick => 4 * n + 3
    case TmLock(i) => 4 * (n - i) + 2 + more
    case TmClear(i) => 4 * (n - i) + 1 + more
    case TmSignal(i) => 4 * (n - i) + more
    case TmUnlock(i) => 4 * (n - i) - 1 + more
    case Decide => 1 + more
  }

  /** Ticks left once all devices have detached. */
  function TicksToEnd(s: State): nat {
    if s.timer.Ended? then 0
    else if SecondLoop(s.timer) then (if s.fsh == s.event || s.stop then 0 else 1)
    else if s.timer.Top? && s.stop then 0
    else 1
  }

  function TimerMoves(ms: seq<Move>): nat {
    if ms == [] then 0 else (if ms[0].TimerMove? then 1 else 0) + TimerMoves(ms[1..])
  }

  lemma EndBound(s: State)
    requires Inv(s)
    ensures 0 <= MovesToEnd(s) <= 11 * |s.devs| + 7
    ensures MovesToEnd(s) == 0 <==> s.timer.Ended?
  {
  }

  lemma FirstLoopCounts(s: State)
    requires Inv(s) && AllDetached(s.devs) && FirstLoop(s.timer)
    ensures s.fsh == s.event
  {
    assert FirstDetached(s.devs, Counted(s.timer, |s.devs|));
  }

  /** Nobody holds a mutex against the timer, which does not sleep and finds the device detached. */
  lemma TimerFree(s: State)
    requires Inv(s) && AllDetached(s.devs) && AtDevice(s.timer, |s.devs|)
    ensures TimerAt(s.timer, s.devs[s.timer.i]).Some? && s.devs[s.timer.i].fsh && s.devs[s.timer.i].pc.Detached?
  {
    assert DevOk(s.devs[s.timer.i], PhaseOf(s.timer, s.timer.i), s.time);
  }

  lemma MovesFall(s: State)
    requires InRange(s.timer, |s.devs|) && TimerNext(s).Some? && (FirstLoop(s.timer) ==> s.fsh == s.event)
    requires AtDevice(s.timer, |s.devs|) ==> s.devs[s.timer.i].fsh
    ensures var s' := TimerNext(s).value;
            && MovesToEnd(s') < MovesToEnd(s)
            && s'.time + TicksToEnd(s') <= s.time + TicksToEnd(s)
  {
  }

  lemma TimerMoveToEnd(s: State)
    requires Inv(s) && AllDetached(s.devs) && !s.timer.Ended?
    ensures TimerNext(s).Some?
    ensures var s' := TimerNext(s).value;
            && AllDetached(s'.devs) && |s'.devs| == |s.devs| && s'.stop == s.stop
            && MovesToEnd(s') < MovesToEnd(s)
            && s'.time + TicksToEnd(s') <= s.time + TicksToEnd(s)
  {
    if FirstLoop(s.timer) { FirstLoopCounts(s); }
    if AtDevice(s.timer, |s.devs|) { TimerFree(s); }
    assert InRange(s.timer, |s.devs|);
    hide Inv, MovesToEnd, TicksToEnd, FirstLoop, InRange;
    assert TimerNext(s).Some? by { TimerCan(s); }
    MovesFall(s);
    DetachedStays(s);
  }

  lemma TimerCan(s: State)
    requires InRange(s.timer, |s.devs|) && !s.timer.Ended?
    requires AtDevice(s.timer, |s.devs|) ==> TimerAt(s.timer, s.devs[s.timer.i]).Some?
    ensures TimerNext(s).Some?
  {
  }

  lemma DetachedStays(s: State)
    requires AllDetached(s.devs) && TimerNext(s).Some?
    ensures var s' := TimerNext(s).value;
            AllDetached(s'.devs) && |s'.devs| == |s.devs| && s'.stop == s.stop
  {
  }

  lemma NoSleep(s: State, d: nat)
    requires Inv(s) && AllDetached(s.devs) && d < |s.devs|
    ensures s.timer != EvWait(d)
  {
    assert DevOk(s.devs[d], PhaseOf(s.timer, d), s.time);
  }

  lemma OtherMoveToEnd(s: State, m: Move)
    requires Inv(s) && AllDetached(s.devs) && Next(s, m).Some? && !m.TimerMove?
    ensures m.StopTimer? && Next(s, m).value == s.(stop := true)
  {
    if s.timer.EvWait? { NoSleep(s, s.timer.i); }
  }

  lemma TimerIsNext(s: State)
    ensures Next(s, TimerMove) == TimerNext(s)
  {
  }

  lemma EndedStays(s: State)
    requires s.timer.Ended?
    ensures TimerNext(s).None?
  {
  }

  lemma StopToEnd(s: State)
    ensures MovesToEnd(s.(stop := true)) == MovesToEnd(s)
    ensures TicksToEnd(s.(stop := true)) <= TicksToEnd(s)
  {
  }

  lemma {:induction false} RunToEnd(s: State, ms: seq<Move>)
    requires Reachable(s) && AllDetached(s.devs) && Possible(s, ms)
    ensures var s' := Final(s, ms);
            && Reachable(s') && AllDetached(s'.devs) && |s'.devs| == |s.devs|
            && TimerMoves(ms) + MovesToEnd(s') <= MovesToEnd(s)
            && s'.time + TicksToEnd(s') <= s.time + TicksToEnd(s)
    decreases |ms|
  {
    hide Reachable, Inv, Next, TimerNext, MovesToEnd, TicksToEnd, AllDetached;
    ReachableInv(s);
    if ms != [] {
      var s' := Next(s, ms[0]).value;
      NextReachable(s, ms[0]);
      if ms[0].TimerMove? {
        TimerIsNext(s);
        if s.timer.Ended? { EndedStays(s); } else { TimerMoveToEnd(s); }
      } else {
        OtherMoveToEnd(s, ms[0]);
        StopToEnd(s);
      }
      RunToEnd(s', ms[1..]);
    }
  }

  /** The timer ends: once all devices have detached, in any run it makes at most 11 moves per device and
      7 more, the clock ticks at most once more, and not at all when stop_timer has been called behind
      the tick; and until it has ended it can always move. */
  lemma TimerEnds(s: State, ms: seq<Move>)
    requires Reachable(s) && AllDetached(s.devs) && Possible(s, ms)
    ensures var s' := Final(s, ms);
            && TimerMoves(ms) <= 11 * |s.devs| + 7
            && (s'.timer.Ended? || TimerNext(s').Some?)
            && (TimerMoves(ms) == 11 * |s.devs| + 7 ==> s'.timer.Ended?)
            && s'.time <= s.time + TicksToEnd(s) <= s.time + 1
  {
    hide Reachable, Inv, Next, TimerNext, MovesToEnd, AllDetached;
    var s' := Final(s, ms);
    RunToEnd(s, ms);
    ReachableInv(s);
    ReachableInv(s');
    EndBound(s);
    EndBound(s');
    if !s'.timer.Ended? { TimerMoveToEnd(s'); }
  }
}
