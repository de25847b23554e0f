/** The page replacement list: head insertion of src/mm.c and the tail removal of
    find_victim_page in src/libmem.c, on linked nodes. */
module PageFifo {

  function Reversed(s: seq<int>): (r: seq<int>)
    ensures |r| == |s|
  {
    if s == [] then [] else Reversed(s[1..]) + [s[0]]
  }

  class PgnNode {
    const pgn: int
    var next: PgnNode?

    constructor (pgn: int, next: PgnNode?)
      ensures this.pgn == pgn && this.next == next
    {
      this.pgn := pgn;
      this.next := next;
    }
  }

  ghost function Pgns(nodes: seq<PgnNode>): (s: seq<int>)
    ensures |s| == |nodes| && forall i :: 0 <= i < |s| ==> s[i] == nodes[i].pgn
  {
    seq(|nodes|, i requires 0 <= i < |nodes| => nodes[i].pgn)
  }

  ghost predicate Linked(nodes: seq<PgnNode>)
    reads nodes
  {
    forall i :: 0 <= i < |nodes| ==> nodes[i].next == if i + 1 < |nodes| then nodes[i + 1] else null
  }

  lemma NextOf(nodes: seq<PgnNode>, i: nat)
    requires Linked(nodes) && i < |nodes|
    ensures nodes[i].next == if i + 1 < |nodes| then nodes[i + 1] else null
  {
  }

  class PgnList {
    var head: PgnNode?
    ghost var nodes: seq<PgnNode>

    /** The nodes are distinct and linked in order, so the list is acyclic. */
    ghost predicate Valid()
      reads this, nodes
    {
      && head == (if nodes == [] then null else nodes[0])
      && Linked(nodes)
      && (forall i, j :: 0 <= i < j < |nodes| ==> nodes[i] != nodes[j])
    }

    ghost function Contents(): seq<int>
      reads this
    {
      Pgns(nodes)
    }

    constructor ()
      ensures Valid() && nodes == [] && Contents() == []
    {
      head := null;
      nodes := [];
    }

    /** enlist_pgn_node. */
    method Enlist(pgn: int)
      requires Valid()
      modifies this
      ensures Valid() && Contents() == [pgn] + old(Contents())
      ensures |nodes| == |old(nodes)| + 1 && nodes[1..] == old(nodes) && fresh(nodes[0])
    {
      var node := new PgnNode(pgn, head);
      head := node;
      ghost var all := [node] + nodes;
      forall i | 0 <= i < |all|
        ensures all[i].next == if i + 1 < |all| then all[i + 1] else null
      {
        if i > 0 { NextOf(nodes, i - 1); }
      }
      assert Linked(all);
      nodes := all;
    }

    /** find_victim_page: walk to the tail, report it and unlink it. */
    method FindVictimPage() returns (rc: int, victim: int)
      requires Valid()
      modifies this, nodes
      ensures Valid()
      ensures rc == if old(Contents()) == [] then -1 else 0
      ensures rc == 0 ==> Contents() + [victim] == old(Contents())
      ensures rc != 0 ==> Contents() == old(Contents())
      ensures nodes <= old(nodes)
    {
      var prev: PgnNode? := null;
      var pg := head;
      if pg == null {
        return -1, 0;
      }
      ghost var k := 0;
      while pg.next != null
        invariant 0 <= k < |nodes| && pg == nodes[k]
        invariant prev == if k == 0 then null else nodes[k - 1]
        decreases |nodes| - k
        modifies {}
      {
        NextOf(nodes, k);
        prev := pg;
        pg := pg.next;
        k := k + 1;
      }
      victim := pg.pgn;
      NextOf(nodes, k);
      if prev != null {
        prev.next := null;
      } else {
        head := null;
      }
      nodes := nodes[..k];
      rc := 0;
    }
  }

  // ---------------------------------------------------------------- replacement order

  datatype FifoOp = Enlist(pgn: int) | Victim

  /** The list after a run and the victims it gave, in order. A call on an empty list fails
      and gives none. */
  function Run(list: seq<int>, ops: seq<FifoOp>): (seq<int>, seq<int>)
    decreases |ops|
  {
    if ops == [] then (list, [])
    else match ops[0]
      case Enlist(p) => Run([p] + list, ops[1..])
      case Victim =>
        if list == [] then Run(list, ops[1..])
        else
          var (final, victims) := Run(list[..|list| - 1], ops[1..]);
          (final, [list[|list| - 1]] + victims)
  }

  function Inserted(ops: seq<FifoOp>): seq<int> {
    if ops == [] then []
    else (if ops[0].Enlist? then [ops[0].pgn] else []) + Inserted(ops[1..])
  }

  lemma {:induction false} ReversedLast(s: seq<int>)
    requires s != []
    ensures Reversed(s) == [s[|s| - 1]] + Reversed(s[..|s| - 1])
  {
    if |s| > 1 {
      ReversedLast(s[1..]);
      assert s[1..][..|s| - 2] == s[..|s| - 1][1..];
    }
  }

  /** Victims come out in exact insertion order and no page is lost: the victims followed by the
      remaining list, oldest first, are the old list, oldest first, followed by the insertions. */
  lemma {:induction false} VictimsInInsertionOrder(list: seq<int>, ops: seq<FifoOp>)
    ensures Run(list, ops).1 + Reversed(Run(list, ops).0) == Reversed(list) + Inserted(ops)
    decreases |ops|
  {
    if ops != [] {
      match ops[0]
      case Enlist(p) =>
        VictimsInInsertionOrder([p] + list, ops[1..]);
        assert ([p] + list)[1..] == list;
      case Victim =>
        if list == [] {
          VictimsInInsertionOrder(list, ops[1..]);
        } else {
          VictimsInInsertionOrder(list[..|list| - 1], ops[1..]);
          ReversedLast(list);
          var (final, victims) := Run(list[..|list| - 1], ops[1..]);
          assert [list[|list| - 1]] + victims + Reversed(final) == [list[|list| - 1]] + (victims + Reversed(final));
          assert Inserted(ops) == Inserted(ops[1..]);
        }
    }
  }
}
