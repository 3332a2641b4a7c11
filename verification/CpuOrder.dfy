/** The turn-taking variables of src/timer.c and the loops over them. */
module CpuOrder {
  import opened Serial
  import opened Protocol

  class TurnOrder {
    const numCpus: nat
    const cpuActive: array<bool>     // _cpu_active[64]
    var currentCpuTurn: int

    ghost predicate Valid()
      reads this
    {
      && numCpus <= cpuActive.Length == 64
      && -1 <= currentCpuTurn < numCpus
    }

    ghost function Active(): (a: seq<bool>)
      requires Valid()
      reads this, cpuActive
    {
      cpuActive[..numCpus]
    }

    /** init_cpu_order: every CPU active, the highest one first. */
    constructor (numCpus: nat)
      requires numCpus <= 64
      ensures Valid() && fresh(cpuActive) && this.numCpus == numCpus
      ensures Active() == seq(numCpus, _ => true) && currentCpuTurn == Highest(Active())
    {
      this.numCpus, currentCpuTurn := numCpus, numCpus - 1;
      cpuActive := new bool[64](_ => false);
      new;
      for i := 0 to numCpus
        invariant Valid() && currentCpuTurn == numCpus - 1
        invariant forall j :: 0 <= j < i ==> cpuActive[j]
      {
        cpuActive[i] := true;
      }
    }

    /** find_next_active_cpu. */
    method FindNextActive(from: int) returns (r: int)
      requires Valid() && -1 <= from < numCpus
      ensures r == NextActive(Active(), from)
    {
      r := from;
      while r >= 0
        invariant -1 <= r <= from && NextActive(Active(), from) == NextActive(Active(), r)
      {
        if cpuActive[r] {
          return;
        }
        r := r - 1;
      }
    }

    /** find_highest_active_cpu. */
    method FindHighestActive() returns (r: int)
      requires Valid()
      ensures r == Highest(Active())
    {
      r := FindNextActive(numCpus - 1);
    }

    /** mark_cpu_inactive: numbers outside the array are ignored. */
    method MarkInactive(cpuId: int)
      requires Valid()
      modifies cpuActive
      ensures Valid()
      ensures Active() == if 0 <= cpuId < numCpus then old(Active())[cpuId := false] else old(Active())
    {
      if 0 <= cpuId < 64 {
        cpuActive[cpuId] := false;
      }
    }

    /** signal_next_cpu: the loader (-1) restarts the round, a CPU passes the turn down. */
    method SignalNextCpu(cpuId: int)
      requires Valid() && -1 <= cpuId < numCpus
      modifies `currentCpuTurn
      ensures Valid() && currentCpuTurn == SignalNext(Active(), cpuId)
      ensures currentCpuTurn >= 0 ==> Active()[currentCpuTurn] && (cpuId >= 0 ==> currentCpuTurn < cpuId)
      ensures forall i :: currentCpuTurn < i < (if cpuId == -1 then numCpus else cpuId) ==> !Active()[i]
    {
      if cpuId == -1 {
        var highest := FindHighestActive();
        currentCpuTurn := if highest >= 0 then highest else -1;
      } else if cpuId == 0 {
        currentCpuTurn := -1;
      } else {
        var next := FindNextActive(cpuId - 1);
        currentCpuTurn := if next >= 0 then next else -1;
      }
    }

    /** reset_cpu_order. */
    method ResetCpuOrder()
      requires Valid()
      modifies `currentCpuTurn
      ensures Valid() && currentCpuTurn == Highest(Active())
    {
      var highest := FindHighestActive();
      currentCpuTurn := if highest >= 0 then highest else -1;
    }
  }
}
