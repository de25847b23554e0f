/** The bounded process queue of src/queue.c. */
module ReadyQueue {
  import opened Wrappers

  const MAX_QUEUE_SIZE: nat := 10

  /** The fields of struct pcb_t the scheduler looks at; both are fixed once a process is loaded. */
  datatype Pcb = Pcb(pid: nat, prio: nat)

  // ---------------------------------------------------------------- on values

  /** A full queue drops the process. */
  function Enqueued(q: seq<Pcb>, p: Pcb): seq<Pcb> {
    if |q| == MAX_QUEUE_SIZE then q else q + [p]
  }

  /** The position of the first process with the least prio. */
  function Best(q: seq<Pcb>): (b: nat)
    requires q != []
    ensures b < |q|
    ensures forall i :: 0 <= i < |q| ==> q[b].prio <= q[i].prio
    ensures forall i :: 0 <= i < b ==> q[b].prio < q[i].prio
  {
    var last := |q| - 1;
    if last == 0 then 0
    else
      var b := Best(q[..last]);
      if q[last].prio < q[b].prio then last else b
  }

  lemma BestOfPrefix(q: seq<Pcb>, i: nat)
    requires 0 < i < |q|
    ensures Best(q[..i + 1]) == var b := Best(q[..i]); if q[i].prio < q[b].prio then i else b
  {
    assert q[..i + 1][..i] == q[..i];
  }

  /** The rest of the queue and the process taken out. */
  function Dequeued(q: seq<Pcb>): (r: (seq<Pcb>, Option<Pcb>)) {
    if q == [] then (q, None)
    else (q[..Best(q)] + q[Best(q) + 1..], Some(q[Best(q)]))
  }

  ghost predicate OnePrio(q: seq<Pcb>, prio: nat) {
    forall i :: 0 <= i < |q| ==> q[i].prio == prio
  }

  /** When all processes of a queue have one prio, taking the least is taking the oldest. */
  lemma OnePrioIsFifo(q: seq<Pcb>, prio: nat)
    requires OnePrio(q, prio) && q != []
    ensures Dequeued(q) == (q[1..], Some(q[0]))
  {
    assert q[0].prio == q[Best(q)].prio;
    assert q[..0] + q[1..] == q[1..];
  }

  // ---------------------------------------------------------------- in place

  ghost function Values(slots: seq<Option<Pcb>>): (s: seq<Pcb>)
    requires forall i :: 0 <= i < |slots| ==> slots[i].Some?
    ensures |s| == |slots| && forall i :: 0 <= i < |slots| ==> slots[i] == Some(s[i])
  {
    seq(|slots|, i requires 0 <= i < |slots| => slots[i].value)
  }

  class Queue {
    const proc: array<Option<Pcb>>
    var size: nat

    ghost predicate Valid()
      reads this, proc
    {
      proc.Length == MAX_QUEUE_SIZE && size <= MAX_QUEUE_SIZE && forall i :: 0 <= i < size ==> proc[i].Some?
    }

    ghost function Contents(): (s: seq<Pcb>)
      requires Valid()
      reads this, proc
      ensures |s| == size && forall i :: 0 <= i < size ==> proc[i] == Some(s[i])
    {
      Values(proc[..size])
    }

    /** A queue_t with its size set to 0; the slots are not touched. */
    constructor ()
      ensures Valid() && fresh(proc) && Contents() == []
    {
      proc := new Option<Pcb>[MAX_QUEUE_SIZE];
      size := 0;
    }

    method Empty() returns (r: bool)
      requires Valid()
      ensures r <==> Contents() == []
    {
      r := size == 0;
    }

    method Enqueue(p: Pcb)
      requires Valid()
      modifies this, proc
      ensures Valid() && Contents() == Enqueued(old(Contents()), p)
    {
      if size == MAX_QUEUE_SIZE {
        return;
      }
      proc[size] := Some(p);
      size := size + 1;
    }

    /** The second half of dequeue: close the gap at `gap` and clear the last slot. */
    method ShiftOver(gap: nat)
      requires Valid() && gap < size
      modifies this, proc
      ensures Valid() && Contents() == old(Contents())[..gap] + old(Contents())[gap + 1..]
    {
      ghost var q := Contents();
      for i := gap to size - 1
        invariant Valid()
        invariant forall k :: 0 <= k < gap || i <= k < size ==> proc[k] == Some(q[k])
        invariant forall k :: gap <= k < i ==> proc[k] == Some(q[k + 1])
        modifies proc
      {
        proc[i] := proc[i + 1];
      }
      size := size - 1;
      proc[size] := None;
    }

    method Dequeue() returns (p: Option<Pcb>)
      requires Valid()
      modifies this, proc
      ensures Valid() && (Contents(), p) == Dequeued(old(Contents()))
    {
      hide Best;
      if size == 0 {
        return None;
      }
      ghost var q := Contents();
      var bestIdx := 0;
      assert Best(q[..1]) == 0;
      for i := 1 to size
        invariant bestIdx == Best(q[..i])
        modifies {}
      {
        BestOfPrefix(q, i);
        if proc[i].value.prio < proc[bestIdx].value.prio {
          bestIdx := i;
        }
      }
      assert q[..size] == q;
      p := proc[bestIdx];
      ShiftOver(bestIdx);
    }
  }
}
