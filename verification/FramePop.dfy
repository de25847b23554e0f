/** Popping the free frame list from several processors: MEMPHY_get_freefp of src/mm-memphy.c takes no
    lock, and a growth runs with the memory lock released. */
module FramePop {
  import opened Bits
  import opened FrameOwnership

  /** free: the list; held: the list from the node each caller has read as its head; popped: the frames
      handed out, in order. */
  datatype Pool = Pool(free: seq<Word>, held: map<nat, seq<Word>>, popped: seq<Word>)

  /** The two accesses of one call of processor c: reading the head, and making the node after the one
      read the new head. A node another call has released meanwhile is taken to keep its content. */
  datatype Access = Read(c: nat) | Unlink(c: nat)

  /** A caller reads no second head before it has unlinked the first, and gives up on an empty list. */
  function Next(s: Pool, a: Access): Pool {
    match a
    case Read(c) => if c in s.held || s.free == [] then s else s.(held := s.held[c := s.free])
    case Unlink(c) =>
      if c !in s.held || s.held[c] == [] then s
      else Pool(s.held[c][1..], s.held - {c}, s.popped + [s.held[c][0]])
  }

  function After(s: Pool, accesses: seq<Access>): Pool
    decreases |accesses|
  {
    if accesses == [] then s else After(Next(s, accesses[0]), accesses[1..])
  }

  function Start(free: seq<Word>): Pool {
    Pool(free, map[], [])
  }

  /** An unlink that finds the list as its caller has read it. */
  predicate Current(s: Pool, a: Access) {
    a.Unlink? && a.c in s.held ==> s.held[a.c] == s.free
  }

  predicate AllCurrent(s: Pool, accesses: seq<Access>)
    decreases |accesses|
  {
    accesses != [] ==> Current(s, accesses[0]) && AllCurrent(Next(s, accesses[0]), accesses[1..])
  }

  ghost predicate Tail(read: seq<Word>, free: seq<Word>, all: seq<Word>) {
    read != [] && |free| <= |read| <= |all| && read == all[|all| - |read|..]
  }

  /** No frame is lost or handed out twice yet; every list read is a tail of the whole one that has not
      become longer since. */
  ghost predicate Sound(s: Pool, all: seq<Word>) {
    && s.popped + s.free == all
    && forall c :: c in s.held ==> Tail(s.held[c], s.free, all)
  }

  lemma NextSound(s: Pool, a: Access, all: seq<Word>)
    requires Sound(s, all) && Current(s, a)
    ensures Sound(Next(s, a), all)
  {
    var s' := Next(s, a);
    if a.Unlink? && a.c in s.held {
      assert s.free == [s.free[0]] + s.free[1..];
      assert s.popped + [s.free[0]] + s.free[1..] == s.popped + s.free;
    }
    forall c | c in s'.held ensures Tail(s'.held[c], s'.free, all) {
      if c in s.held { assert Tail(s.held[c], s.free, all); }
    }
  }

  /** An unlink after another one hands out a frame that has been handed out, and takes none off the
      list: the frames handed out since its read become free again. */
  lemma StaleRepeats(s: Pool, a: Access, all: seq<Word>)
    requires Sound(s, all) && !Current(s, a)
    ensures !Distinct(Next(s, a).popped)
    ensures var free := Next(s, a).free;
            |s.free| <= |free| <= |all| && free == all[|all| - |free|..]
  {
    var read := s.held[a.c];
    assert Tail(read, s.free, all);
    var k := |all| - |read|;
    assert s.free == all[|s.popped|..];
    assert |read| > |s.free|;
    assert s.popped[k] == all[k] == read[0];
    var popped := Next(s, a).popped;
    assert popped[k] == popped[|s.popped|];
  }

  lemma {:induction false} PoppedStays(s: Pool, accesses: seq<Access>)
    ensures s.popped <= After(s, accesses).popped
    decreases |accesses|
  {
    if accesses != [] { PoppedStays(Next(s, accesses[0]), accesses[1..]); }
  }

  lemma DistinctPrefix(a: seq<Word>, b: seq<Word>)
    requires a <= b && Distinct(b)
    ensures Distinct(a)
  {
    assert forall i :: 0 <= i < |a| ==> a[i] == b[i];
  }

  lemma {:induction false} ConservedFrom(s: Pool, accesses: seq<Access>, all: seq<Word>)
    requires Sound(s, all) && Distinct(all)
    ensures Distinct(After(s, accesses).popped) <==> AllCurrent(s, accesses)
    ensures AllCurrent(s, accesses) ==> After(s, accesses).popped + After(s, accesses).free == all
    decreases |accesses|
  {
    hide Distinct, Next, Current;
    if accesses == [] {
      DistinctPrefix(s.popped, all);
    } else if Current(s, accesses[0]) {
      NextSound(s, accesses[0], all);
      ConservedFrom(Next(s, accesses[0]), accesses[1..], all);
    } else {
      StaleRepeats(s, accesses[0], all);
      PoppedStays(Next(s, accesses[0]), accesses[1..]);
      if Distinct(After(s, accesses).popped) {
        DistinctPrefix(Next(s, accesses[0]).popped, After(s, accesses).popped);
      }
    }
  }

  /** Under any interleaving, no frame is handed out twice if and only if every call unlinks the list as
      it has read it; then the frames handed out and the list are the old list. */
  lemma ConservedIff(free: seq<Word>, accesses: seq<Access>)
    requires Distinct(free)
    ensures var s := After(Start(free), accesses);
            && (Distinct(s.popped) <==> AllCurrent(Start(free), accesses))
            && (AllCurrent(Start(free), accesses) ==> s.popped + s.free == free)
  {
    assert [] + free == free;
    ConservedFrom(Start(free), accesses, free);
  }

  /** No call begins while another is between its two accesses. */
  predicate OneAtATime(s: Pool, accesses: seq<Access>)
    decreases |accesses|
  {
    accesses != [] ==>
      && (accesses[0].Read? ==> s.held == map[])
      && OneAtATime(Next(s, accesses[0]), accesses[1..])
  }

  lemma {:induction false} OneAtATimeCurrent(s: Pool, accesses: seq<Access>)
    requires OneAtATime(s, accesses)
    requires forall c :: c in s.held ==> s.held[c] == s.free != []
    requires forall c, d :: c in s.held && d in s.held ==> c == d
    ensures AllCurrent(s, accesses)
    decreases |accesses|
  {
    if accesses != [] { OneAtATimeCurrent(Next(s, accesses[0]), accesses[1..]); }
  }

  /** With one growth at a time, as a lock held around it would give, every frame stays owned once. */
  lemma OneAtATimeConserves(free: seq<Word>, accesses: seq<Access>)
    requires Distinct(free) && OneAtATime(Start(free), accesses)
    ensures var s := After(Start(free), accesses);
            Distinct(s.popped) && s.popped + s.free == free
  {
    OneAtATimeCurrent(Start(free), accesses);
    ConservedIff(free, accesses);
  }

  /** Two processors that grow at the same time can get the same frame. */
  lemma SharedFrameHappens(free: seq<Word>)
    requires free != []
    ensures After(Start(free), [Read(0), Read(1), Unlink(0), Unlink(1)]).popped == [free[0], free[0]]
  {
    var s1 := Next(Start(free), Read(0));
    var s2 := Next(s1, Read(1));
    var s3 := Next(s2, Unlink(0));
    var s4 := Next(s3, Unlink(1));
    assert s2.held[0] == free && s2.held[1] == free && s3.held[1] == free;
    hide Next;
    var accesses := [Read(0), Read(1), Unlink(0), Unlink(1)];
    assert accesses[1..] == [Read(1), Unlink(0), Unlink(1)];
    assert accesses[1..][1..] == [Unlink(0), Unlink(1)];
    assert accesses[1..][1..][1..] == [Unlink(1)];
    assert accesses[1..][1..][1..][1..] == [];
    assert After(s4, []) == s4;
    assert After(s3, accesses[1..][1..][1..]) == s4;
    assert After(s2, accesses[1..][1..]) == s4;
    assert After(s1, accesses[1..]) == s4;
  }
}
