/** The bounded shift-array queue of src/queue.c: enqueue at the end, dequeue from
    index 0 by shifting, purge by shifting. */
module Queues {
  import opened Wrappers

  const MAX_QUEUE_SIZE := 50

  /** What `enqueue` does to the contents: append, or silently drop when full. */
  function Append(q: seq<nat>, p: nat): seq<nat> {
    if |q| >= MAX_QUEUE_SIZE then q else q + [p]
  }

  /** `enqueue` of each of `ps` in turn. */
  function AppendAll(q: seq<nat>, ps: seq<nat>): seq<nat>
    decreases |ps|
  {
    if ps == [] then q else AppendAll(Append(q, ps[0]), ps[1..])
  }

  /** A queue keeps the first 50 arrivals in order, whatever comes after them. */
  lemma {:induction false} FirstFiftyStay(q: seq<nat>, ps: seq<nat>)
    requires |q| <= 50
    ensures AppendAll(q, ps) == if |q| + |ps| <= 50 then q + ps else (q + ps)[..50]
    decreases |ps|
  {
    if ps == [] {
      assert q + ps == q;
    } else {
      FirstFiftyStay(Append(q, ps[0]), ps[1..]);
      assert (q + [ps[0]]) + ps[1..] == q + ps;
      if |q| == 50 {
        assert (q + ps[1..])[..50] == q && (q + ps)[..50] == q;
      }
    }
  }

  /** The contents without the first occurrence of `p`. */
  function Purged(q: seq<nat>, p: nat): seq<nat> {
    if q == [] then []
    else if q[0] == p then q[1..]
    else [q[0]] + Purged(q[1..], p)
  }

  lemma {:induction false} PurgedAt(q: seq<nat>, p: nat, k: nat)
    requires k < |q| && q[k] == p && p !in q[..k]
    ensures Purged(q, p) == q[..k] + q[k + 1..]
  {
    if k == 0 {
      assert q[..0] + q[1..] == q[1..];
    } else {
      assert q[0] in q[..k];
      assert q[1..][..k - 1] == q[1..k];
      assert forall x :: x in q[1..k] ==> x in q[..k];
      PurgedAt(q[1..], p, k - 1);
      assert [q[0]] + (q[1..k] + q[k + 1..]) == q[..k] + q[k + 1..];
      assert q[1..][k..] == q[k + 1..];
    }
  }

  lemma {:induction false} PurgedAbsent(q: seq<nat>, p: nat)
    requires p !in q
    ensures Purged(q, p) == q
  {
    if q != [] {
      PurgedAbsent(q[1..], p);
    }
  }

  class Queue {
    const proc: array<nat>
    var size: nat

    ghost predicate Valid()
      reads this
    {
      proc.Length == MAX_QUEUE_SIZE && size <= MAX_QUEUE_SIZE
    }

    ghost function Contents(): seq<nat>
      requires Valid()
      reads this, proc
    {
      proc[..size]
    }

    constructor ()
      ensures Valid() && Contents() == [] && fresh(proc)
    {
      proc := new nat[MAX_QUEUE_SIZE](_ => 0);
      size := 0;
    }

    method Empty() returns (e: bool)
      requires Valid()
      ensures e <==> Contents() == []
    {
      e := size == 0;
    }

    method Enqueue(p: nat)
      requires Valid()
      modifies this, proc
      ensures Valid() && Contents() == Append(old(Contents()), p)
      ensures Contents() == if |old(Contents())| < 50 then old(Contents()) + [p] else old(Contents())
    {
      if size >= MAX_QUEUE_SIZE {
        return;
      }
      proc[size] := p;
      size := size + 1;
    }

    /** Removes index `k` by shifting everything behind it one place forward. */
    method ShiftOut(k: nat)
      requires Valid() && k < size
      modifies this, proc
      ensures Valid() && Contents() == old(Contents())[..k] + old(Contents())[k + 1..]
    {
      var i := k;
      while i < size - 1
        invariant k <= i <= size - 1 && size == old(size)
        invariant forall j :: 0 <= j < k || i < j < size ==> proc[j] == old(proc[j])
        invariant forall j :: k <= j < i ==> proc[j] == old(proc[j + 1])
      {
        proc[i] := proc[i + 1];
        i := i + 1;
      }
      size := size - 1;
    }

    method Dequeue() returns (r: Option<nat>)
      requires Valid()
      modifies this, proc
      ensures Valid()
      ensures old(Contents()) == [] ==> r == None && Contents() == []
      ensures old(Contents()) != [] ==> r == Some(old(Contents())[0]) && Contents() == old(Contents())[1..]
    {
      if size == 0 {
        return None;
      }
      r := Some(proc[0]);
      ShiftOut(0);
    }

    method Purge(p: nat) returns (found: bool)
      requires Valid()
      modifies this, proc
      ensures Valid() && Contents() == Purged(old(Contents()), p)
      ensures found <==> p in old(Contents())
    {
      var i := 0;
      while i < size && proc[i] != p
        invariant i <= size && p !in proc[..i]
      {
        i := i + 1;
      }
      if i == size {
        PurgedAbsent(Contents(), p);
        return false;
      }
      PurgedAt(Contents(), p, i);
      assert Contents()[..i] == proc[..i];
      ShiftOut(i);
      return true;
    }
  }
}
