/** The multi-level queue policy of src/sched.c on values: a transcription of the
    stateful selector, the strict-priority policy it amounts to, and whole runs. */
module Mlq {
  import opened Wrappers
  import opened Queues

  const MAX_PRIO := 140

  /** Contents of the 140 ready queues, most urgent first. */
  type Levels = s: seq<seq<nat>> | |s| == MAX_PRIO witness seq(MAX_PRIO, _ => [])

  /** The first non-empty level at or after `from`; MAX_PRIO when there is none. */
  function LowestFrom(l: Levels, from: nat): (r: nat)
    requires from <= |l|
    ensures from <= r <= MAX_PRIO
    ensures forall i :: from <= i < r ==> l[i] == []
    ensures r < MAX_PRIO ==> l[r] != []
    decreases |l| - from
  {
    if from == |l| || l[from] != [] then from else LowestFrom(l, from + 1)
  }

  /** The most urgent non-empty level; MAX_PRIO when there is none. */
  function Lowest(l: Levels): (r: nat)
    ensures r <= MAX_PRIO
    ensures forall i :: 0 <= i < r ==> l[i] == []
    ensures r < MAX_PRIO ==> l[r] != []
  {
    LowestFrom(l, 0)
  }

  /** `enqueue` on level `prio`. */
  function Enlist(l: Levels, prio: nat, p: nat): Levels
    requires prio < MAX_PRIO
  {
    l[prio := Append(l[prio], p)]
  }

  // ---------- The policy: strict priority, first come first served ----------

  function TakeRest(l: Levels): Levels {
    var i := Lowest(l);
    if i == MAX_PRIO then l else l[i := l[i][1..]]
  }

  function TakeHead(l: Levels): Option<nat> {
    var i := Lowest(l);
    if i == MAX_PRIO then None else Some(l[i][0])
  }

  // ---------- The selector as the code has it ----------

  /** Quota of a level: slot[i] = MAX_PRIO - i. */
  function Slot(prio: nat): (s: nat)
    requires prio < MAX_PRIO
    ensures 1 <= s <= MAX_PRIO
  {
    MAX_PRIO - prio
  }

  /** The quota state: curr_prio and curr_slot. */
  datatype Quota = Quota(prio: nat, slot: nat)

  ghost predicate QuotaOk(c: Quota) {
    c.prio < MAX_PRIO
  }

  /** The scan for a more urgent level; it also forgets the remaining quota. */
  function Preempt(l: Levels, c: Quota): (r: Quota)
    requires QuotaOk(c)
    ensures QuotaOk(r)
  {
    var i := Lowest(l);
    if i < c.prio then Quota(i, 0) else c
  }

  /** The k-th level of the circular scan from `prio`. */
  function ScanAt(prio: nat, k: nat): (r: nat)
    ensures r < MAX_PRIO
  {
    (prio + k) % MAX_PRIO
  }

  /** The circular scan from `prio`, of which the last `left` positions remain. */
  function CircularFrom(l: Levels, prio: nat, left: nat): (r: Option<nat>)
    requires prio < MAX_PRIO && left <= |l|
    ensures r.Some? ==> r.value < MAX_PRIO && l[r.value] != []
    decreases left
  {
    if left == 0 then None
    else
      var i := ScanAt(prio, |l| - left);
      if l[i] != [] then Some(i) else CircularFrom(l, prio, left - 1)
  }

  function Circular(l: Levels, prio: nat): (r: Option<nat>)
    requires prio < MAX_PRIO
    ensures r.Some? ==> r.value < MAX_PRIO && l[r.value] != []
  {
    CircularFrom(l, prio, |l|)
  }

  /** One activation of get_mlq_proc below the preemption scan; None stands for
      the retry that an exhausted current level causes. */
  datatype Pick = Empty | Level(prio: nat, slot: nat) | Retry(prio: nat)

  function Activation(l: Levels, c: Quota): (r: Pick)
    requires QuotaOk(c)
    ensures r.Level? ==> r.prio < MAX_PRIO && l[r.prio] != [] && r.slot >= 1
    ensures r.Retry? ==> r.prio < MAX_PRIO && c.slot != 0
  {
    if c.slot == 0 then
      match Circular(l, c.prio)
      case None => Empty
      case Some(i) => Level(i, Slot(i))
    else if l[c.prio] == [] then Retry(c.prio)
    else Level(c.prio, c.slot)
  }

  datatype Got = Got(levels: Levels, quota: Quota, proc: Option<nat>)

  /** The head of level `prio` is taken and one of its `slot` slots is used up. */
  function Served(l: Levels, prio: nat, slot: nat): (r: Got)
    requires prio < MAX_PRIO && l[prio] != [] && slot >= 1
    ensures QuotaOk(r.quota)
  {
    Got(l[prio := l[prio][1..]],
        if slot == 1 then Quota((prio + 1) % MAX_PRIO, 0) else Quota(prio, slot - 1),
        Some(l[prio][0]))
  }

  /** get_mlq_proc, retry recursion included. */
  function GetMlqProc(l: Levels, c: Quota): (r: Got)
    requires QuotaOk(c)
    ensures QuotaOk(r.quota)
    decreases Preempt(l, c).slot
  {
    var c1 := Preempt(l, c);
    match Activation(l, c1)
    case Empty => Got(l, c1, None)
    case Retry(prio) => GetMlqProc(l, Quota(prio, 0))
    case Level(prio, slot) => Served(l, prio, slot)
  }

  // ---------- The selector is strict priority ----------

  /** The levels from `prio` on wrap around to 0. */
  lemma WrapAround(x: nat)
    requires x < 2 * MAX_PRIO
    ensures x % MAX_PRIO == if x < MAX_PRIO then x else x - MAX_PRIO
  {
  }

  lemma {:induction false} CircularFindsLowest(l: Levels, prio: nat, left: nat)
    requires prio < MAX_PRIO && left <= |l|
    requires forall i :: 0 <= i < prio ==> l[i] == []
    requires forall i :: prio <= i < prio + (MAX_PRIO - left) && i < MAX_PRIO ==> l[i] == []
    ensures CircularFrom(l, prio, left) == (if Lowest(l) == MAX_PRIO then None else Some(Lowest(l)))
    decreases left
  {
    if left > 0 {
      WrapAround(prio + (MAX_PRIO - left));
      var i := ScanAt(prio, |l| - left);
      if l[i] == [] {
        CircularFindsLowest(l, prio, left - 1);
      }
    }
  }

  /** Whatever the quota state, get_mlq_proc hands out the head of the
      lowest-numbered non-empty level, and NULL exactly when all are empty. */
  lemma {:induction false} GetIsStrict(l: Levels, c: Quota)
    requires QuotaOk(c)
    ensures GetMlqProc(l, c).levels == TakeRest(l)
    ensures GetMlqProc(l, c).proc == TakeHead(l)
    ensures GetMlqProc(l, c).proc == None <==> (forall i :: 0 <= i < MAX_PRIO ==> l[i] == [])
    decreases Preempt(l, c).slot
  {
    var c1 := Preempt(l, c);
    var low := Lowest(l);
    assert forall i :: 0 <= i < c1.prio ==> l[i] == [];
    if c1.slot == 0 {
      CircularFindsLowest(l, c1.prio, |l|);
    } else if l[c1.prio] == [] {
      assert Preempt(l, Quota(c1.prio, 0)) == Quota(c1.prio, 0);
      GetIsStrict(l, Quota(c1.prio, 0));
    } else {
      assert low == c1.prio;
    }
  }

  // ---------- Whole runs ----------

  /** A call on the scheduler; add and put enqueue alike. */
  datatype Op = Enq(prio: nat, p: nat) | Get

  ghost predicate OpOk(op: Op) {
    op.Enq? ==> op.prio < MAX_PRIO
  }

  ghost predicate OpsOk(ops: seq<Op>) {
    forall i :: 0 <= i < |ops| ==> OpOk(ops[i])
  }

  /** What the gets of a run return, by the code's selector. */
  function RunMlq(l: Levels, c: Quota, ops: seq<Op>): (r: seq<Option<nat>>)
    requires QuotaOk(c) && OpsOk(ops)
    decreases |ops|
  {
    if ops == [] then []
    else
      match ops[0]
      case Enq(prio, p) => RunMlq(Enlist(l, prio, p), c, ops[1..])
      case Get =>
        var g := GetMlqProc(l, c);
        [g.proc] + RunMlq(g.levels, g.quota, ops[1..])
  }

  /** The same by strict priority. */
  function RunStrict(l: Levels, ops: seq<Op>): (r: seq<Option<nat>>)
    requires OpsOk(ops)
    decreases |ops|
  {
    if ops == [] then []
    else
      match ops[0]
      case Enq(prio, p) => RunStrict(Enlist(l, prio, p), ops[1..])
      case Get => [TakeHead(l)] + RunStrict(TakeRest(l), ops[1..])
  }

  /** Over every run, from every quota state, the hand-out sequence is the strict
      one: the quotas never change who is chosen. */
  lemma {:induction false} RunIsStrict(l: Levels, c: Quota, ops: seq<Op>)
    requires QuotaOk(c) && OpsOk(ops)
    ensures RunMlq(l, c, ops) == RunStrict(l, ops)
    decreases |ops|
  {
    if ops != [] {
      match ops[0]
      case Enq(prio, p) => RunIsStrict(Enlist(l, prio, p), c, ops[1..]);
      case Get =>
        GetIsStrict(l, c);
        var g := GetMlqProc(l, c);
        RunIsStrict(g.levels, g.quota, ops[1..]);
    }
  }

  // ---------- What the quotas do ----------

  /** The quota state after `n` gets in a row. */
  function QuotaAfter(l: Levels, c: Quota, n: nat): (r: Quota)
    requires QuotaOk(c)
    ensures QuotaOk(r)
    decreases n
  {
    if n == 0 then c else var g := GetMlqProc(l, c); QuotaAfter(g.levels, g.quota, n - 1)
  }

  /** `left` more gets from level `prio`, then it is the turn of the level behind it. */
  lemma {:induction false} QuotaRunsOut(l: Levels, prio: nat, left: nat, n: nat)
    requires prio < 140 && n <= |l[prio]| && n <= left && left > 0
    requires forall i :: 0 <= i < prio ==> l[i] == []
    ensures QuotaAfter(l, Quota(prio, left), n)
            == if n < left then Quota(prio, left - n) else Quota(if prio == 139 then 0 else prio + 1, 0)
    decreases n
  {
    if n > 0 {
      assert Lowest(l) == prio;
      var g := GetMlqProc(l, Quota(prio, left));
      assert g == Served(l, prio, left);
      WrapAround(prio + 1);
      if left > 1 {
        QuotaRunsOut(g.levels, prio, left - 1, n - 1);
      }
    }
  }

  /** The quota state after gets from the most urgent level with processes: a quota that the
      level has begun runs on; any other is forgotten for a fresh one of 140 less its number. */
  lemma QuotaIs(l: Levels, c: Quota, prio: nat, n: nat)
    requires QuotaOk(c) && prio < 140 && 0 < n <= |l[prio]|
    requires forall i :: 0 <= i < prio ==> l[i] == []
    ensures var left := if c.prio == prio && c.slot > 0 then c.slot else 140 - prio;
            n <= left ==> QuotaAfter(l, c, n)
                          == if n < left then Quota(prio, left - n)
                             else Quota(if prio == 139 then 0 else prio + 1, 0)
  {
    var left := if c.prio == prio && c.slot > 0 then c.slot else 140 - prio;
    FirstOfQuota(l, c, prio, left);
    assert QuotaAfter(l, c, n) == QuotaAfter(l, Quota(prio, left), n);
    if n <= left {
      QuotaRunsOut(l, prio, left, n);
    }
  }

  lemma FirstOfQuota(l: Levels, c: Quota, prio: nat, left: nat)
    requires QuotaOk(c) && prio < 140 && l[prio] != [] && forall i :: 0 <= i < prio ==> l[i] == []
    requires left == if c.prio == prio && c.slot > 0 then c.slot else 140 - prio
    ensures GetMlqProc(l, c) == GetMlqProc(l, Quota(prio, left))
  {
    assert Lowest(l) == prio;
    var c1 := Preempt(l, c);
    CircularFindsLowest(l, c1.prio, |l|);
    if c1.prio < prio && c1.slot > 0 {
      var c2 := Quota(c1.prio, 0);
      assert GetMlqProc(l, c) == GetMlqProc(l, c2);
      assert Preempt(l, c2) == c2;
    }
    assert GetMlqProc(l, c) == Served(l, prio, left) == GetMlqProc(l, Quota(prio, left));
  }

  /** A get that finds nothing keeps the level and forgets its quota. */
  lemma NothingToServe(l: Levels, c: Quota)
    requires QuotaOk(c) && forall i :: 0 <= i < 140 ==> l[i] == []
    ensures GetMlqProc(l, c) == Got(l, Quota(c.prio, 0), None)
  {
    assert Lowest(l) == MAX_PRIO;
    var c2 := Quota(c.prio, 0);
    assert Preempt(l, c) == c && Preempt(l, c2) == c2;
    CircularFindsLowest(l, c.prio, |l|);
  }

  function Gets(ops: seq<Op>): nat {
    if ops == [] then 0 else (if ops[0].Get? then 1 else 0) + Gets(ops[1..])
  }

  /** During the first `n` gets of the run, every level before `prio` is empty. */
  ghost predicate NothingBefore(l: Levels, ops: seq<Op>, prio: nat, n: nat)
    requires OpsOk(ops) && prio < MAX_PRIO
    decreases |ops|
  {
    n == 0 || ops == [] ||
    match ops[0]
    case Enq(q, p) => NothingBefore(Enlist(l, q, p), ops[1..], prio, n)
    case Get => (forall i :: 0 <= i < prio ==> l[i] == []) && NothingBefore(TakeRest(l), ops[1..], prio, n - 1)
  }

  /** A process with k others ahead of it in its level is exactly the (k+1)-th
      process handed out, whatever adds and puts interleave, provided no more urgent
      level has a process at those gets. */
  lemma {:induction false} WaitingBound(l: Levels, c: Quota, ops: seq<Op>, prio: nat, k: nat)
    requires QuotaOk(c) && OpsOk(ops) && prio < MAX_PRIO && k < |l[prio]|
    requires Gets(ops) > k && NothingBefore(l, ops, prio, k + 1)
    ensures k < |RunMlq(l, c, ops)| && RunMlq(l, c, ops)[k] == Some(l[prio][k])
  {
    RunIsStrict(l, c, ops);
    WaitingBoundStrict(l, ops, prio, k);
  }

  lemma {:induction false} WaitingBoundStrict(l: Levels, ops: seq<Op>, prio: nat, k: nat)
    requires OpsOk(ops) && prio < MAX_PRIO && k < |l[prio]|
    requires Gets(ops) > k && NothingBefore(l, ops, prio, k + 1)
    ensures k < |RunStrict(l, ops)| && RunStrict(l, ops)[k] == Some(l[prio][k])
    decreases |ops|
  {
    match ops[0]
    case Enq(q, p) =>
      WaitingBoundStrict(Enlist(l, q, p), ops[1..], prio, k);
    case Get =>
      assert Lowest(l) == prio;
      if k > 0 {
        assert TakeRest(l)[prio][k - 1] == l[prio][k];
        WaitingBoundStrict(TakeRest(l), ops[1..], prio, k - 1);
      }
  }

  /** The level that each get of a run serves; MAX_PRIO for a get that finds nothing. */
  function LevelsServed(l: Levels, ops: seq<Op>): (r: seq<nat>)
    requires OpsOk(ops)
    ensures |r| == Gets(ops)
    decreases |ops|
  {
    if ops == [] then []
    else
      match ops[0]
      case Enq(prio, p) => LevelsServed(Enlist(l, prio, p), ops[1..])
      case Get => [Lowest(l)] + LevelsServed(TakeRest(l), ops[1..])
  }

  ghost predicate FirstServe(l: Levels, ops: seq<Op>, prio: nat, n: nat)
    requires OpsOk(ops) && n <= Gets(ops)
  {
    AllAre(LevelsServed(l, ops), prio, n)
  }

  /** The first `n` elements are `x`. */
  predicate AllAre(s: seq<nat>, x: nat, n: nat)
    requires n <= |s|
  {
    forall j :: 0 <= j < n ==> s[j] == x
  }

  /** The bound is exact: the first k+1 gets all serve a level with more than k processes if
      and only if no more urgent level has one at those gets. */
  lemma {:induction false} ServedIffNothingBefore(l: Levels, ops: seq<Op>, prio: nat, k: nat)
    requires OpsOk(ops) && prio < MAX_PRIO && k < |l[prio]| && k < Gets(ops)
    ensures FirstServe(l, ops, prio, k + 1) <==> NothingBefore(l, ops, prio, k + 1)
    decreases |ops|
  {
    match ops[0]
    case Enq(q, p) =>
      assert LevelsServed(l, ops) == LevelsServed(Enlist(l, q, p), ops[1..]);
      ServedIffNothingBefore(Enlist(l, q, p), ops[1..], prio, k);
    case Get =>
      var rest := LevelsServed(TakeRest(l), ops[1..]);
      FirstAndRest(Lowest(l), rest, prio, k);
      LowestIs(l, prio);
      if Lowest(l) == prio && k > 0 {
        ServedIffNothingBefore(TakeRest(l), ops[1..], prio, k - 1);
      }
  }

  lemma LowestIs(l: Levels, prio: nat)
    requires prio < MAX_PRIO && l[prio] != []
    ensures Lowest(l) == prio <==> forall i :: 0 <= i < prio ==> l[i] == []
  {
  }

  lemma FirstAndRest(x: nat, rest: seq<nat>, prio: nat, k: nat)
    requires k <= |rest|
    ensures AllAre([x] + rest, prio, k + 1) <==> x == prio && AllAre(rest, prio, k)
  {
    var s := [x] + rest;
    assert s[0] == x;
    forall j | 0 <= j < k
      ensures s[j + 1] == rest[j]
    {
    }
    if AllAre(s, prio, k + 1) {
      forall j | 0 <= j < k
        ensures rest[j] == prio
      {
        assert s[j + 1] == prio;
      }
    }
  }

  /** How often a level is served. */
  function Times(served: seq<nat>, prio: nat): (n: nat) {
    if served == [] then 0 else (if served[0] == prio then 1 else 0) + Times(served[1..], prio)
  }

  /** Without any assumption on other levels: a get that serves level `prio` for the
      (k+1)-th time hands out the process that had k others ahead of it there. */
  lemma {:induction false} TurnOfProcess(l: Levels, c: Quota, ops: seq<Op>, prio: nat, j: nat)
    requires QuotaOk(c) && OpsOk(ops) && prio < MAX_PRIO && j < Gets(ops)
    requires LevelsServed(l, ops)[j] == prio && Times(LevelsServed(l, ops)[..j], prio) < |l[prio]|
    ensures j < |RunMlq(l, c, ops)|
    ensures RunMlq(l, c, ops)[j] == Some(l[prio][Times(LevelsServed(l, ops)[..j], prio)])
  {
    RunIsStrict(l, c, ops);
    TurnStrict(l, ops, prio, j);
  }

  lemma {:induction false} TurnStrict(l: Levels, ops: seq<Op>, prio: nat, j: nat)
    requires OpsOk(ops) && prio < MAX_PRIO && j < Gets(ops)
    requires LevelsServed(l, ops)[j] == prio && Times(LevelsServed(l, ops)[..j], prio) < |l[prio]|
    ensures j < |RunStrict(l, ops)|
    ensures RunStrict(l, ops)[j] == Some(l[prio][Times(LevelsServed(l, ops)[..j], prio)])
    decreases |ops|
  {
    match ops[0]
    case Enq(q, p) =>
      TurnStrict(Enlist(l, q, p), ops[1..], prio, j);
    case Get =>
      var s, rest := LevelsServed(l, ops), LevelsServed(TakeRest(l), ops[1..]);
      assert s == [Lowest(l)] + rest;
      if j > 0 {
        assert s[..j][1..] == rest[..j - 1] && s[..j][0] == Lowest(l);
        TurnStrict(TakeRest(l), ops[1..], prio, j - 1);
      }
  }

  /** `n` rounds of: get a process, put it back on level `prio`. */
  function Rounds(n: nat, prio: nat, p: nat): (ops: seq<Op>)
    requires prio < MAX_PRIO
    ensures OpsOk(ops)
  {
    if n == 0 then [] else [Get, Enq(prio, p)] + Rounds(n - 1, prio, p)
  }

  /** The documents promise that no level starves. They are wrong: one process on
      level `prio` that is put back each time keeps every later level waiting for
      any number of rounds, whatever the quotas. */
  lemma {:induction false} LaterLevelsStarve(l: Levels, c: Quota, n: nat, prio: nat, p: nat)
    requires QuotaOk(c) && prio < MAX_PRIO
    requires l[prio] == [p] && forall i :: 0 <= i < prio ==> l[i] == []
    ensures |RunMlq(l, c, Rounds(n, prio, p))| == n
    ensures forall i :: 0 <= i < n ==> RunMlq(l, c, Rounds(n, prio, p))[i] == Some(p)
  {
    RunIsStrict(l, c, Rounds(n, prio, p));
    StarveStrict(l, n, prio, p);
  }

  lemma {:induction false} StarveStrict(l: Levels, n: nat, prio: nat, p: nat)
    requires prio < MAX_PRIO
    requires l[prio] == [p] && forall i :: 0 <= i < prio ==> l[i] == []
    ensures RunStrict(l, Rounds(n, prio, p)) == seq(n, _ => Some(p))
    decreases n
  {
    if n > 0 {
      var ops := Rounds(n, prio, p);
      assert Lowest(l) == prio;
      assert ops[1..][0] == Enq(prio, p);
      assert ops[1..][1..] == Rounds(n - 1, prio, p);
      var l1 := TakeRest(l);
      assert Append(l1[prio], p) == [p];
      assert Enlist(l1, prio, p) == l;
      StarveStrict(l, n - 1, prio, p);
      assert RunStrict(l, ops) == [Some(p)] + RunStrict(l1, ops[1..]);
      assert RunStrict(l1, ops[1..]) == RunStrict(l, Rounds(n - 1, prio, p));
      assert [Some(p)] + seq(n - 1, _ => Some(p)) == seq(n, _ => Some(p));
    }
  }
}
