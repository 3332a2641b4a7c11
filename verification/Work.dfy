/** Work gets done: every process is finished in the end, or was dropped by a full queue. */
module Work {
  import opened Mlq
  import opened Kernel
  import opened Conservation
  import opened Execution
  import opened Serial

  // ---------- How much is left to do ----------

  /** Instructions left, and 2 for a process that is still to be freed; 1 when a CPU holds
      it with nothing left to run. */
  ghost function Weight(f: Config, k: Kern, p: nat): (w: nat)
    requires p < |k.pcs| && p < |f.size|
  {
    if p in k.finished || p in k.lost then 0
    else if k.pcs[p] < f.size[p] then f.size[p] - k.pcs[p] + 2
    else if Held(k, p) then 1 else 2
  }

  ghost function Total(f: Config, k: Kern, n: nat): (t: nat)
    requires n <= |k.pcs| && n <= |f.size|
  {
    if n == 0 then 0 else Total(f, k, n - 1) + Weight(f, k, n - 1)
  }

  ghost predicate NoHeavier(f: Config, k: Kern, r: Kern) {
    && |r.pcs| == |k.pcs| <= |f.size|
    && forall p :: 0 <= p < |k.pcs| ==> Weight(f, r, p) <= Weight(f, k, p)
  }

  ghost predicate Lighter(f: Config, k: Kern, r: Kern) {
    NoHeavier(f, k, r) && exists p :: 0 <= p < |k.pcs| && Weight(f, r, p) < Weight(f, k, p)
  }

  lemma {:induction false} TotalFalls(f: Config, k: Kern, r: Kern, n: nat)
    requires NoHeavier(f, k, r) && n <= |k.pcs|
    ensures Total(f, r, n) <= Total(f, k, n)
    ensures (exists p :: 0 <= p < n && Weight(f, r, p) < Weight(f, k, p)) ==> Total(f, r, n) < Total(f, k, n)
    decreases n
  {
    if n > 0 {
      TotalFalls(f, k, r, n - 1);
      if exists p :: 0 <= p < n && Weight(f, r, p) < Weight(f, k, p) {
        var p :| 0 <= p < n && Weight(f, r, p) < Weight(f, k, p);
        assert p == n - 1 || p < n - 1;
      }
    }
  }

  lemma LighterChain(f: Config, k: Kern, r: Kern, t: Kern)
    requires NoHeavier(f, k, r) && NoHeavier(f, r, t)
    ensures NoHeavier(f, k, t)
    ensures Lighter(f, k, r) || Lighter(f, r, t) ==> Lighter(f, k, t)
  {
    forall p | 0 <= p < |k.pcs|
      ensures Weight(f, t, p) <= Weight(f, r, p) <= Weight(f, k, p)
    {
    }
  }

  // ---------- What a turn does to it ----------

  ghost predicate AllEmpty(l: Levels) {
    forall i :: 0 <= i < MAX_PRIO ==> l[i] == []
  }

  /** A process that leaves its CPU is freed or dropped, or waits in a level. */
  lemma ReleaseWork(f: Config, k: Kern, id: nat, slot: nat)
    requires ConfigOk(f) && Placed(f, k) && InOrder(f, k) && id < f.cpus
    ensures var r := Release(f, k, id, slot);
            && NoHeavier(f, k, r)
            && (k.cpus[id].proc.Some? && r.cpus[id].proc.None? ==> Lighter(f, k, r) || !AllEmpty(r.ready))
            && (k.cpus[id].proc.None? ==> r == k)
            && (r.cpus[id].proc.Some? ==> r == k && k.pcs[r.cpus[id].proc.value] < f.size[r.cpus[id].proc.value])
  {
    if k.cpus[id].proc.Some? {
      var p := k.cpus[id].proc.value;
      assert HeldBy(k, id, p);
      if k.pcs[p] == f.size[p] {
        FinishWork(f, k, id, p, slot);
      } else if k.cpus[id].timeLeft == 0 {
        PutBackWork(f, k, id, p, slot);
      }
    }
  }

  lemma FinishWork(f: Config, k: Kern, id: nat, p: nat, slot: nat)
    requires ConfigOk(f) && Placed(f, k) && InOrder(f, k) && id < f.cpus && HeldBy(k, id, p)
    requires k.pcs[p] == f.size[p]
    ensures Lighter(f, k, EndBurst(k, id, p, slot, false).(finished := k.finished + {p}))
  {
    LosingAProcess(f, k, id, p, slot, false);
    var e := EndBurst(k, id, p, slot, false);
    var r := e.(finished := k.finished + {p});
    SameHolders(e, r);
    assert Pending(k, p);
    assert Weight(f, r, p) < Weight(f, k, p);
  }

  lemma PutBackWork(f: Config, k: Kern, id: nat, p: nat, slot: nat)
    requires ConfigOk(f) && Placed(f, k) && InOrder(f, k) && id < f.cpus && HeldBy(k, id, p)
    requires k.pcs[p] < f.size[p]
    ensures var r := EnqueueProc(f, EndBurst(k, id, p, slot, true), p);
            NoHeavier(f, k, r) && (Lighter(f, k, r) || !AllEmpty(r.ready))
  {
    LosingAProcess(f, k, id, p, slot, true);
    var e := EndBurst(k, id, p, slot, true);
    var r := EnqueueProc(f, e, p);
    SameHolders(e, r);
    assert Pending(k, p);
    if p in r.lost {
      assert Weight(f, r, p) < Weight(f, k, p);
    } else {
      assert p in r.ready[f.prio[p]];
    }
  }

  /** An idle CPU takes a process whenever a level has one. */
  lemma FetchWork(f: Config, k: Kern, id: nat)
    requires ConfigOk(f) && Placed(f, k) && InOrder(f, k) && id < f.cpus
    ensures var r := Fetch(f, k, id);
            && NoHeavier(f, k, r)
            && (k.cpus[id].proc.Some? ==> r == k)
            && (k.cpus[id].proc.None? && AllEmpty(k.ready) ==> r == k)
            && (k.cpus[id].proc.None? && !AllEmpty(k.ready) ==>
                  r.cpus[id].proc.Some?
                  && (Lighter(f, k, r) || r.pcs[r.cpus[id].proc.value] < f.size[r.cpus[id].proc.value]))
  {
    var low := Lowest(k.ready);
    var r := Fetch(f, k, id);
    if k.cpus[id].proc.None? && low < MAX_PRIO {
      var p := k.ready[low][0];
      HoldersAfterFetch(f, k, r, id, low, p);
      assert Pending(k, p) && !Held(k, p) && Held(r, p);
      assert k.pcs[p] < f.size[p] || Weight(f, r, p) < Weight(f, k, p);
    } else if k.cpus[id].proc.None? {
      assert k.cpus[id := k.cpus[id]] == k.cpus;
    }
  }

  /** A CPU with a process runs an instruction, if there is one left. */
  lemma DecideWork(f: Config, k: Kern, id: nat, idle: bool, slot: nat)
    requires ConfigOk(f) && Placed(f, k) && InOrder(f, k) && id < f.cpus
    ensures var r := Decide(f, k, id, idle, slot).0;
            && NoHeavier(f, k, r) && r.ready == k.ready && r.cpus[id].proc == k.cpus[id].proc
            && (k.cpus[id].proc.Some? && k.pcs[k.cpus[id].proc.value] < f.size[k.cpus[id].proc.value] ==>
                  Lighter(f, k, r))
  {
    var r := Decide(f, k, id, idle, slot).0;
    HoldersAfterDecide(f, k, id, idle, slot);
    if k.cpus[id].proc.Some? {
      var p := k.cpus[id].proc.value;
      assert HeldBy(k, id, p) && HeldBy(r, id, p) && Pending(k, p);
      assert k.pcs[p] < f.size[p] ==> Weight(f, r, p) < Weight(f, k, p);
    }
  }

  lemma HoldersAfterDecide(f: Config, k: Kern, id: nat, idle: bool, slot: nat)
    requires ConfigOk(f) && Shaped(f, k) && id < f.cpus
    ensures forall x :: Held(Decide(f, k, id, idle, slot).0, x) <==> Held(k, x)
  {
    var r := Decide(f, k, id, idle, slot).0;
    forall x
      ensures Held(r, x) <==> Held(k, x)
    {
      if Held(k, x) { var jd :| 0 <= jd < |k.cpus| && HeldBy(k, jd, x); assert HeldBy(r, jd, x); }
      if Held(r, x) { var jd :| 0 <= jd < |r.cpus| && HeldBy(r, jd, x); assert HeldBy(k, jd, x); }
    }
  }

  /** A CPU turn lowers the work, unless the CPU is idle and every level empty. */
  lemma CpuTurnWork(f: Config, k: Kern, id: nat, slot: nat)
    requires ConfigOk(f) && Placed(f, k) && InOrder(f, k) && Dispatches(f, k, -1) && id < f.cpus
    requires k.cpus[id].proc.Some? ==> slot == k.cpus[id].nextAt
    ensures var r := CpuSection(f, k, id, slot).0;
            && NoHeavier(f, k, r)
            && (k.cpus[id].proc.Some? || !AllEmpty(k.ready) ==> Lighter(f, k, r))
            && (k.cpus[id].proc.None? && AllEmpty(k.ready) ==> r.ready == k.ready && r.cpus[id].proc.None?)
  {
    var a := Release(f, k, id, slot);
    ReleasePlaced(f, k, id, slot);
    ReleaseHistory(f, k, id, slot);
    ReleaseWork(f, k, id, slot);
    var b := Fetch(f, a, id);
    FetchPlaced(f, a, id);
    FetchHistory(f, a, id);
    FetchWork(f, a, id);
    DecideWork(f, b, id, k.cpus[id].proc.None?, slot);
    LighterChain(f, k, a, b);
    LighterChain(f, k, b, CpuSection(f, k, id, slot).0);
  }

  /** Publishing a process adds no work: it was counted from the start. */
  lemma LoaderTurnWork(f: Config, k: Kern, slot: nat)
    requires ConfigOk(f) && Placed(f, k) && InOrder(f, k)
    ensures NoHeavier(f, k, LoaderSection(f, k, slot).0)
  {
    SameHolders(k, LoaderSection(f, k, slot).0);
  }

  // ---------- Empty levels stay empty once the loader has stopped ----------

  /** A process that is put back into empty levels is taken again in the same turn. */
  lemma EmptyAfterTurn(f: Config, k: Kern, id: nat, slot: nat)
    requires ConfigOk(f) && Shaped(f, k) && id < f.cpus && AllEmpty(k.ready)
    ensures AllEmpty(CpuSection(f, k, id, slot).0.ready)
    ensures k.cpus[id].proc.None? ==> CpuSection(f, k, id, slot).0.cpus[id].proc.None? && !CpuSection(f, k, id, slot).1
  {
    var r := Release(f, k, id, slot);
    if r.ready != k.ready {
      var p := k.cpus[id].proc.value;
      assert r.ready[f.prio[p]] == [p] && Lowest(r.ready) == f.prio[p];
    }
  }

  /** A CPU that leaves has found every level empty. */
  lemma EmptyAfterExit(f: Config, k: Kern, id: nat, slot: nat)
    requires ConfigOk(f) && Shaped(f, k) && id < f.cpus && CpuSection(f, k, id, slot).1
    ensures AllEmpty(CpuSection(f, k, id, slot).0.ready) && k.done
  {
  }

  /** The loader stops with everything published; a CPU leaves only after that and from
      empty levels. */
  ghost predicate Wound(f: Config, q: State)
    requires ConfigOk(f)
  {
    && Good(f, q)
    && (q.kern.done ==> q.kern.next == |f.prio|)
    && (forall id :: 0 <= id < f.cpus && !q.active[id] ==> q.kern.done && AllEmpty(q.kern.ready))
  }

  lemma StepKeepsWound(f: Config, q: State)
    requires ConfigOk(f) && Wound(f, q)
    ensures Wound(f, Step(f, q))
  {
    StepKeepsGood(f, q);
    var r := Step(f, q);
    if !SlotOver(q) && q.turn >= 0 {
      OthersUntouched(f, q.kern, q.turn, q.slot);
      if AllEmpty(q.kern.ready) {
        EmptyAfterTurn(f, q.kern, q.turn, q.slot);
      }
      if CpuSection(f, q.kern, q.turn, q.slot).1 {
        EmptyAfterExit(f, q.kern, q.turn, q.slot);
      }
    }
  }

  lemma InitWound(f: Config)
    requires ConfigOk(f) && |f.size| == |f.prio|
    ensures Wound(f, Init(f))
  {
    InitGood(f);
  }

  // ---------- Every step lowers a rank ----------

  /** Work left and processes to publish. */
  ghost function Rank(f: Config, q: State): (n: nat)
    requires ConfigOk(f) && Sane(f, q)
  {
    Total(f, q.kern, |f.prio|) + (|f.prio| - q.kern.next)
  }

  /** Everything is finished or dropped. */
  ghost predicate AllOver(f: Config, k: Kern) {
    forall p :: 0 <= p < |f.prio| ==> p in k.finished || p in k.lost
  }

  /** No step adds work; a turn of a CPU that has a process or can get one lowers it. */
  lemma StepWork(f: Config, q: State)
    requires ConfigOk(f) && Wound(f, q)
    ensures Rank(f, Step(f, q)) <= Rank(f, q)
    ensures !SlotOver(q) && q.turn >= 0 && (q.kern.cpus[q.turn].proc.Some? || !AllEmpty(q.kern.ready)) ==>
              Rank(f, Step(f, q)) < Rank(f, q)
    ensures Step(f, q).kern.next > q.kern.next ==> Rank(f, Step(f, q)) < Rank(f, q)
  {
    var r := Step(f, q);
    if SlotOver(q) {
    } else if q.turn >= 0 {
      CpuTurnWork(f, q.kern, q.turn, q.slot);
      OthersUntouched(f, q.kern, q.turn, q.slot);
      TotalFalls(f, q.kern, r.kern, |f.prio|);
    } else {
      LoaderTurnWork(f, q.kern, q.slot);
      TotalFalls(f, q.kern, r.kern, |f.prio|);
    }
  }

  /** Between CPU turns nothing happens to CPUs and levels but a publication. */
  lemma QuietStep(f: Config, q: State)
    requires ConfigOk(f) && Sane(f, q) && (SlotOver(q) || q.turn < 0)
    ensures var r := Step(f, q);
            && r.kern.cpus == q.kern.cpus && r.kern.next >= q.kern.next
            && (r.kern.next == q.kern.next ==> r.kern.ready == q.kern.ready)
  {
  }

  /** Steps, at most, before CPU `x` has its turn. */
  function Distance(f: Config, q: State, x: nat): (d: int) {
    if q.turn >= x then q.turn - x else q.turn + 3 + f.cpus
  }

  lemma DistanceFalls(f: Config, q: State, x: nat)
    requires ConfigOk(f) && Wound(f, q) && x < f.cpus && q.active[x] && (SlotOver(q) || q.turn != x)
    ensures 0 <= Distance(f, Step(f, q), x) < Distance(f, q, x)
    ensures Step(f, q).active[x] && Step(f, q).kern.cpus[x].proc == q.kern.cpus[x].proc
  {
    StepMoves(f, q);
    if !SlotOver(q) && q.turn >= 0 {
      OthersUntouched(f, q.kern, q.turn, q.slot);
    }
  }

  // Each of the following runs the program until something lowers the rank, and from there
  // until everything is over.

  /** A CPU with a process will do so in its next turn. */
  lemma HolderWorks(f: Config, q: State, x: nat) returns (n: nat, t: State)
    requires ConfigOk(f) && Wound(f, q) && x < f.cpus && q.kern.cpus[x].proc.Some?
    ensures t == Forward(f, q, n) && AllOver(f, t.kern) && Wound(f, t)
    decreases Rank(f, q), 0, Distance(f, q, x), 0
  {
    var r := Step(f, q);
    StepKeepsWound(f, q);
    StepWork(f, q);
    if Rank(f, r) < Rank(f, q) {
      n, t := AllOverFrom(f, r);
    } else {
      DistanceFalls(f, q, x);
      n, t := HolderWorks(f, r, x);
    }
    n := n + 1;
  }

  /** A process in a level will be taken by the next CPU. */
  lemma QueueWorks(f: Config, q: State) returns (n: nat, t: State)
    requires ConfigOk(f) && Wound(f, q) && f.cpus >= 1 && !AllEmpty(q.kern.ready)
    ensures t == Forward(f, q, n) && AllOver(f, t.kern) && Wound(f, t)
    decreases Rank(f, q), 0, if q.turn >= 0 then 0 else q.turn + 3, 0
  {
    var r := Step(f, q);
    StepKeepsWound(f, q);
    StepWork(f, q);
    if Rank(f, r) < Rank(f, q) {
      n, t := AllOverFrom(f, r);
    } else {
      assert q.active[f.cpus - 1];
      QuietStep(f, q);
      n, t := QueueWorks(f, r);
    }
    n := n + 1;
  }

  /** Slots, at most, before the loader may publish its next process. */
  function SlotsToGo(f: Config, q: State): (s: nat)
    requires q.kern.next < |f.start|
  {
    var s := if q.slot < f.start[q.kern.next] then f.start[q.kern.next] - q.slot else 0;
    if q.turn == -2 && s == 0 then 1 else s
  }

  lemma LoaderWaits(f: Config, q: State)
    requires ConfigOk(f) && Wound(f, q) && q.kern.next < |f.prio|
    ensures var r := Step(f, q);
            r.kern.next > q.kern.next || (r.kern.next == q.kern.next
              && (SlotsToGo(f, r) < SlotsToGo(f, q) || (SlotsToGo(f, r) == SlotsToGo(f, q) && -2 <= r.turn < q.turn)))
  {
    StepMoves(f, q);
    if !SlotOver(q) && q.turn >= 0 {
      OthersUntouched(f, q.kern, q.turn, q.slot);
    }
  }

  /** The loader will publish its next process. */
  lemma LoaderWorks(f: Config, q: State) returns (n: nat, t: State)
    requires ConfigOk(f) && Wound(f, q) && f.cpus >= 1 && q.kern.next < |f.prio|
    ensures t == Forward(f, q, n) && AllOver(f, t.kern) && Wound(f, t)
    decreases Rank(f, q), 0, SlotsToGo(f, q), q.turn + 2
  {
    var r := Step(f, q);
    StepKeepsWound(f, q);
    StepWork(f, q);
    if Rank(f, r) < Rank(f, q) {
      n, t := AllOverFrom(f, r);
    } else {
      LoaderWaits(f, q);
      n, t := LoaderWorks(f, r);
    }
    n := n + 1;
  }

  lemma AllOverFrom(f: Config, q: State) returns (n: nat, t: State)
    requires ConfigOk(f) && Wound(f, q) && f.cpus >= 1
    ensures t == Forward(f, q, n) && AllOver(f, t.kern) && Wound(f, t)
    decreases Rank(f, q), 1
  {
    var k := q.kern;
    if AllOver(f, k) {
      n, t := 0, q;
    } else {
      var p :| 0 <= p < |f.prio| && p !in k.finished && p !in k.lost;
      if p >= k.next {
        n, t := LoaderWorks(f, q);
      } else if Held(k, p) {
        var x :| 0 <= x < |k.cpus| && HeldBy(k, x, p);
        n, t := HolderWorks(f, q, x);
      } else {
        assert Pending(k, p) && InQueue(f, k, p);
        n, t := QueueWorks(f, q);
      }
    }
  }

  /** With at least one CPU every process is finished in the end or was dropped by a full
      queue, although the policy is strict priority. */
  lemma WorkGetsDone(f: Config) returns (n: nat)
    requires ConfigOk(f) && f.cpus >= 1
    ensures forall p :: 0 <= p < |f.prio| ==> p in Iterate(f, n).kern.finished || p in Iterate(f, n).kern.lost
  {
    InitWound(f);
    var t;
    n, t := AllOverFrom(f, Init(f));
  }

  /** While no priority ever has more than 50 unfinished processes, every process finishes. */
  lemma EveryProcessFinishes(f: Config) returns (n: nat)
    requires ConfigOk(f) && f.cpus >= 1
    requires forall j :: WithinCapacity(f, Iterate(f, j).kern)
    ensures forall p :: 0 <= p < |f.prio| ==> p in Iterate(f, n).kern.finished
  {
    n := WorkGetsDone(f);
    NothingIsLost(f, n);
  }
}
