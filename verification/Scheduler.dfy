/** The scheduler object of src/sched.c: its static queues, quota state and running
    list, updated in place and proved against the values of module Mlq. */
module Scheduler {
  import opened Wrappers
  import opened Queues
  import opened Mlq

  class MlqScheduler {
    const ready: seq<Queue>
    const running: Queue
    var currPrio: nat
    var currSlot: nat
    ghost var levels: Levels      // the contents of the ready queues
    ghost var onCpu: seq<nat>     // the contents of the running list

    ghost const Repr: set<object> // every queue the scheduler owns, with its storage

    ghost predicate Valid()
      reads this, Repr
    {
      && |ready| == MAX_PRIO
      && currPrio < MAX_PRIO
      && this !in Repr && running in Repr && running.proc in Repr
      && (forall i :: 0 <= i < MAX_PRIO ==> ready[i] in Repr && ready[i].proc in Repr)
      && (forall i :: 0 <= i < MAX_PRIO ==> ready[i].Valid() && levels[i] == ready[i].Contents())
      && running.Valid() && onCpu == running.Contents()
      && (forall i, j {:trigger Apart(ready[i], ready[j])} :: 0 <= i < j < MAX_PRIO ==> Apart(ready[i], ready[j]))
      && (forall i {:trigger Apart(ready[i], running)} :: 0 <= i < MAX_PRIO ==> Apart(ready[i], running))
    }

    /** Two queues share no storage. */
    static ghost predicate Apart(p: Queue, q: Queue) {
      p != q && p.proc != q.proc
    }

    /** Names the pairs of queues that a change of `ready[prio]` must not touch. */
    lemma Isolated(prio: nat)
      requires Valid() && prio < MAX_PRIO
      ensures forall i {:trigger ready[i]} :: 0 <= i < MAX_PRIO && i != prio ==> Apart(ready[i], ready[prio])
      ensures Apart(ready[prio], running)
    {
      forall i {:trigger ready[i]} | 0 <= i < MAX_PRIO && i != prio
        ensures Apart(ready[i], ready[prio])
      {
        assert if i < prio then Apart(ready[i], ready[prio]) else Apart(ready[prio], ready[i]);
      }
    }

    ghost function QuotaState(): (c: Quota)
      reads this
    {
      Quota(currPrio, currSlot)
    }

    /** init_scheduler: every queue empty; the quota state starts at level 0. */
    constructor ()
      ensures Valid() && fresh(Repr)
      ensures levels == seq(MAX_PRIO, _ => []) && onCpu == [] && QuotaState() == Quota(0, 0)
    {
      var qs: seq<Queue> := [];
      ghost var all: set<object> := {};
      while |qs| < MAX_PRIO
        invariant |qs| <= MAX_PRIO && fresh(all)
        invariant forall o | o in all :: o is Queue || o is array<nat>
        invariant forall i :: 0 <= i < |qs| ==> qs[i] in all && qs[i].proc in all
        invariant forall i :: 0 <= i < |qs| ==> fresh(qs[i]) && fresh(qs[i].proc)
        invariant forall i :: 0 <= i < |qs| ==> qs[i].Valid() && qs[i].Contents() == []
        invariant forall i, j :: 0 <= i < j < |qs| ==> qs[i] != qs[j] && qs[i].proc != qs[j].proc
      {
        var q := new Queue();
        qs := qs + [q];
        all := all + {q, q.proc};
      }
      var run := new Queue();
      ready := qs;
      running := run;
      Repr := all + {run, run.proc};
      currPrio, currSlot := 0, 0;
      levels, onCpu := seq(MAX_PRIO, _ => []), [];
    }

    method AddMlqProc(prio: nat, p: nat)
      requires Valid() && prio < MAX_PRIO
      modifies `levels, ready[prio], ready[prio].proc
      ensures Valid() && levels == Enlist(old(levels), prio, p)
    {
      Isolated(prio);
      ready[prio].Enqueue(p);
      levels := Enlist(levels, prio, p);
    }

    method PutMlqProc(prio: nat, p: nat)
      requires Valid() && prio < MAX_PRIO
      modifies `levels, `onCpu, ready[prio], ready[prio].proc, running, running.proc
      ensures Valid() && levels == Enlist(old(levels), prio, p)
      ensures onCpu == Purged(old(onCpu), p)
    {
      Isolated(prio);
      forall i | 0 <= i < MAX_PRIO ensures Apart(ready[i], running) {}
      var _ := running.Purge(p);
      onCpu := Purged(onCpu, p);
      ready[prio].Enqueue(p);
      levels := Enlist(levels, prio, p);
    }

    /** The preemption scan: a more urgent level takes over with no quota left. */
    method PreemptScan()
      requires Valid()
      modifies `currPrio, `currSlot
      ensures Valid() && QuotaState() == Preempt(levels, old(QuotaState()))
    {
      var i := 0;
      while i < currPrio
        invariant i <= currPrio && QuotaState() == old(QuotaState())
        invariant forall j :: 0 <= j < i ==> levels[j] == []
      {
        var e := ready[i].Empty();
        if !e {
          currPrio := i;
          currSlot := 0;
          return;
        }
        i := i + 1;
      }
    }

    /** The first non-empty level met going around from `prio`. */
    method ScanFrom(prio: nat) returns (r: Option<nat>)
      requires Valid() && prio < MAX_PRIO
      ensures r == Circular(levels, prio)
    {
      var left := |ready|;
      while left > 0
        invariant 0 <= left <= |levels|
        invariant Circular(levels, prio) == CircularFrom(levels, prio, left)
      {
        var check := ScanAt(prio, |ready| - left);
        var e := ready[check].Empty();
        if !e {
          return Some(check);
        }
        left := left - 1;
      }
      return None;
    }

    /** The circular scan that starts a fresh quota. */
    method CircularScan() returns (found: bool)
      requires Valid() && currSlot == 0
      modifies `currPrio, `currSlot
      ensures Valid()
      ensures found <==> Circular(levels, old(currPrio)).Some?
      ensures found ==> Circular(levels, old(currPrio)) == Some(currPrio) && currSlot == Slot(currPrio)
      ensures !found ==> QuotaState() == old(QuotaState())
    {
      var r := ScanFrom(currPrio);
      found := r.Some?;
      if found {
        currPrio := r.value;
        currSlot := MAX_PRIO - currPrio;
      }
    }

    /** Takes the head of the current level and uses up one slot of its quota. */
    method Serve() returns (p: nat)
      requires Valid() && currSlot >= 1 && levels[currPrio] != []
      modifies this, ready[currPrio], ready[currPrio].proc, running, running.proc
      ensures Valid() && onCpu == Append(old(onCpu), p)
      ensures Got(levels, QuotaState(), Some(p)) == Served(old(levels), old(currPrio), old(currSlot))
    {
      Isolated(currPrio);
      var r := ready[currPrio].Dequeue();
      p := r.value;
      levels := levels[currPrio := levels[currPrio][1..]];
      currSlot := currSlot - 1;
      forall i | 0 <= i < MAX_PRIO ensures Apart(ready[i], running) {}
      running.Enqueue(p);
      onCpu := Append(onCpu, p);
      if currSlot == 0 {
        currPrio := (currPrio + 1) % MAX_PRIO;
      }
    }

    /** get_mlq_proc with its preemption scan, circular scan and retry. The source
        finds an exhausted level by a dequeue that returns NULL and changes nothing. */
    method GetMlqProc() returns (r: Option<nat>)
      requires Valid()
      modifies this, Repr
      ensures Valid()
      ensures Got(levels, QuotaState(), r) == Mlq.GetMlqProc(old(levels), old(QuotaState()))
      ensures onCpu == if r.Some? then Append(old(onCpu), r.value) else old(onCpu)
      decreases Preempt(levels, QuotaState()).slot
    {
      ghost var l, c := levels, QuotaState();
      PreemptScan();
      ghost var pick := Activation(l, QuotaState());
      assert QuotaState() == Preempt(l, c);
      if currSlot == 0 {
        var found := CircularScan();
        if !found {
          return None;
        }
      }
      var e := ready[currPrio].Empty();
      if e {
        assert pick == Retry(currPrio);
        currSlot := 0;
        r := GetMlqProc();
      } else {
        assert pick == Level(currPrio, currSlot);
        var p := Serve();
        r := Some(p);
      }
    }

    /** get_proc: what the CPU threads call. It is strict priority. */
    method GetProc() returns (r: Option<nat>)
      requires Valid()
      modifies this, Repr
      ensures Valid()
      ensures r == TakeHead(old(levels)) && levels == TakeRest(old(levels))
      ensures onCpu == if r.Some? then Append(old(onCpu), r.value) else old(onCpu)
    {
      GetIsStrict(levels, QuotaState());
      r := GetMlqProc();
    }
  }
}
