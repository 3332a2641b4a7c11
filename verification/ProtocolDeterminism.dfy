/** Determinism in terms of what the threads really did: of any two interleavings, one has
    taken the same turns and executed the same instructions as the other, and no more. */
module ProtocolDeterminism {
  import opened Wrappers
  import opened Kernel
  import opened Serial
  import opened Protocol
  import opened ProtocolRuns
  import opened ProtocolKernel

  /** The turns recorded after `n` steps of the sequential program. */
  ghost function LogAt(f: Config, n: nat): (l: seq<Turn>)
    requires ConfigOk(f)
  {
    LogOf(Iterate(f, n))
  }

  lemma LogAtGrows(f: Config, n: nat)
    requires ConfigOk(f)
    ensures var q := Iterate(f, n);
            LogAt(f, n + 1) == LogAt(f, n) + if SlotOver(q) then [] else [Turn(q.turn, q.slot)]
  {
    StepExtends(f, Iterate(f, n), Step(f, Iterate(f, n)), n);
  }

  lemma {:induction false} LogAtIsMonotone(f: Config, m: nat, n: nat)
    requires ConfigOk(f) && m <= n
    ensures LogAt(f, m) <= LogAt(f, n)
    decreases n - m
  {
    if m < n {
      LogAtGrows(f, m);
      LogAtIsMonotone(f, m + 1, n);
    }
  }

  /** The log of a run lies between two logs of the sequential program. */
  lemma LogIsBetween(f: Config, c: Conc)
    requires ConfigOk(f) && Reached(f, c)
    ensures LogAt(f, c.steps) <= c.log <= LogAt(f, c.steps + 1)
  {
    LogAtGrows(f, c.steps);
    var q := c.serial;
    if SlotOver(q) {
      assert Current(c) == [];
    }
  }

  lemma RunLog(f: Config, acts: seq<Action>, c: Conc)
    requires ConfigOk(f) && RunOf(f, acts) == Some(c)
    ensures LogAt(f, c.steps) <= c.log <= LogAt(f, c.steps + 1)
  {
    RunIsReached(f, acts, c);
    LogIsBetween(f, c);
  }

  /** Of two runs, one has taken the same turns at the same times as the other. */
  lemma LogsAgree(f: Config, acts1: seq<Action>, acts2: seq<Action>, c1: Conc, c2: Conc)
    requires ConfigOk(f) && RunOf(f, acts1) == Some(c1) && RunOf(f, acts2) == Some(c2)
    ensures c1.log <= c2.log || c2.log <= c1.log
  {
    RunLog(f, acts1, c1);
    RunLog(f, acts2, c2);
    LogsCompare(f, c1.steps, c1.log, c2.steps, c2.log);
  }

  lemma LogsCompare(f: Config, n1: nat, l1: seq<Turn>, n2: nat, l2: seq<Turn>)
    requires ConfigOk(f)
    requires LogAt(f, n1) <= l1 <= LogAt(f, n1 + 1) && LogAt(f, n2) <= l2 <= LogAt(f, n2 + 1)
    ensures l1 <= l2 || l2 <= l1
  {
    if n1 < n2 {
      LogsFollow(f, n1, l1, n2, l2);
    } else if n2 < n1 {
      LogsFollow(f, n2, l2, n1, l1);
    } else {
      Within(l1, l2, LogAt(f, n1 + 1));
    }
  }

  lemma LogsFollow(f: Config, n1: nat, l1: seq<Turn>, n2: nat, l2: seq<Turn>)
    requires ConfigOk(f) && n1 < n2 && l1 <= LogAt(f, n1 + 1) && LogAt(f, n2) <= l2
    ensures l1 <= l2
  {
    LogAtIsMonotone(f, n1 + 1, n2);
  }

  lemma Within(a: seq<Turn>, b: seq<Turn>, c: seq<Turn>)
    requires a <= c && b <= c
    ensures a <= b || b <= a
  {
  }

  ghost function ExecsAt(f: Config, n: nat): (e: seq<Exec>)
    requires ConfigOk(f)
  {
    Iterate(f, n).kern.execs
  }

  lemma ExecsAtIsMonotone(f: Config, m: nat, n: nat)
    requires ConfigOk(f) && m <= n
    ensures ExecsAt(f, m) <= ExecsAt(f, n)
  {
    ForwardSplits(f, Init(f), m, n);
  }

  /** A turn executes its instruction in its last part, all at once. */
  lemma ExecsOfParts(f: Config, k: Kern, id: nat, slot: nat)
    requires ConfigOk(f) && Shaped(f, k) && id < f.cpus
    ensures Release(f, k, id, slot).execs == k.execs
    ensures Fetch(f, Release(f, k, id, slot), id).execs == k.execs
  {
  }

  lemma ExecsAreBetween(f: Config, c: Conc)
    requires ConfigOk(f) && Reached(f, c)
    ensures c.kern.execs == ExecsAt(f, c.steps) || c.kern.execs == ExecsAt(f, c.steps + 1)
  {
    DataIsPartOfTurn(f, c);
    StepIsSection(f, c.serial);
    ForwardOneMore(f, Init(f), c.steps);
    if c.serial.turn >= 0 {
      ExecsOfParts(f, c.serial.kern, c.serial.turn, c.serial.slot);
    }
  }

  lemma RunExecs(f: Config, acts: seq<Action>, c: Conc)
    requires ConfigOk(f) && RunOf(f, acts) == Some(c)
    ensures c.kern.execs == ExecsAt(f, c.steps) || c.kern.execs == ExecsAt(f, c.steps + 1)
  {
    RunIsReached(f, acts, c);
    ExecsAreBetween(f, c);
  }

  /** Of two runs, one has executed the same instructions of the same processes on the same
      CPUs in the same slots as the other. */
  lemma ExecutionsAgree(f: Config, acts1: seq<Action>, acts2: seq<Action>, c1: Conc, c2: Conc)
    requires ConfigOk(f) && RunOf(f, acts1) == Some(c1) && RunOf(f, acts2) == Some(c2)
    ensures c1.kern.execs <= c2.kern.execs || c2.kern.execs <= c1.kern.execs
  {
    RunExecs(f, acts1, c1);
    RunExecs(f, acts2, c2);
    var n1 := if c1.kern.execs == ExecsAt(f, c1.steps) then c1.steps else c1.steps + 1;
    var n2 := if c2.kern.execs == ExecsAt(f, c2.steps) then c2.steps else c2.steps + 1;
    if n1 <= n2 {
      ExecsAtIsMonotone(f, n1, n2);
    } else {
      ExecsAtIsMonotone(f, n2, n1);
    }
  }
}
