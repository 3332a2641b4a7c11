/** Execution history: every process runs its instructions once each and in order, and
    every dispatch runs for exactly its quantum or to the end of the process. */
module Execution {
  import opened Wrappers
  import opened Kernel

  /** Program counters executed by process `p`, oldest first. */
  function PcsOf(e: seq<Exec>, p: nat): seq<nat> {
    if e == [] then []
    else PcsOf(e[..|e| - 1], p) + if e[|e| - 1].p == p then [e[|e| - 1].pc] else []
  }

  ghost predicate InOrder(f: Config, k: Kern) {
    && Shaped(f, k) && |f.size| == |f.prio|
    && (forall p :: 0 <= p < |f.prio| ==> k.pcs[p] <= f.size[p])
    && (forall p :: 0 <= p < |f.prio| ==> PcsOf(k.execs, p) == seq(k.pcs[p], i => i))
    && (forall p :: p in k.finished ==> p < |f.prio| && k.pcs[p] == f.size[p])
  }

  /** Instructions a dispatch executes when `rem` remain. A quantum below 1 never
      expires: time_left is 0 only when the dispatch starts. */
  function BurstLen(timeSlot: int, rem: nat): nat {
    if timeSlot >= 1 && timeSlot <= rem then timeSlot else rem
  }

  /** Where instruction `i` of a dispatch runs that began with `first` in slot `since`. */
  function ExecAt(p: nat, cpu: nat, first: nat, since: nat, i: nat): Exec
    requires first <= i
  {
    Exec(p, i, cpu, since + (i - first))
  }

  /** Instructions first..last-1 of `p` ran on `cpu` in consecutive slots from `since`. */
  ghost predicate RanFrom(e: seq<Exec>, p: nat, cpu: nat, first: nat, last: nat, since: nat) {
    forall i :: first <= i < last ==> ExecAt(p, cpu, first, since, i) in e
  }

  ghost predicate BurstOk(f: Config, k: Kern, b: Burst) {
    && b.p < |f.size| && b.first <= f.size[b.p]
    && b.last == b.first + BurstLen(f.timeSlot, f.size[b.p] - b.first)
    && (b.requeued <==> b.last < f.size[b.p])
    && b.until == b.since + (if b.last == b.first then 1 else b.last - b.first)
    && RanFrom(k.execs, b.p, b.cpu, b.first, b.last, b.since)
  }

  /** The current dispatch of CPU `id`, seen between two of its turns. */
  ghost predicate DispatchOk(f: Config, k: Kern, id: nat)
    requires Shaped(f, k) && |f.size| == |f.prio| && id < f.cpus
  {
    var c := k.cpus[id];
    match c.proc
    case None => c.timeLeft == 0
    case Some(p) =>
      var ran := f.timeSlot - c.timeLeft;
      && c.first <= k.pcs[p] <= f.size[p]
      && 1 <= ran && (ran == 1 || ran <= f.size[p] - c.first)
      && k.pcs[p] - c.first == (if ran <= f.size[p] - c.first then ran else 0)
      && (f.timeSlot >= 1 ==> c.timeLeft >= 0)
      && c.nextAt == c.since + ran
      && RanFrom(k.execs, p, id, c.first, k.pcs[p], c.since)
  }

  /** `at` is the CPU in the middle of its turn, if any. */
  ghost predicate Dispatches(f: Config, k: Kern, at: int)
    requires Shaped(f, k) && |f.size| == |f.prio|
  {
    && (forall id :: 0 <= id < f.cpus && id != at ==> DispatchOk(f, k, id))
    && (forall i :: 0 <= i < |k.bursts| ==> BurstOk(f, k, k.bursts[i]))
  }

  /** Other CPUs hold other processes. */
  ghost predicate Alone(f: Config, k: Kern, id: nat)
    requires Shaped(f, k)
  {
    forall jd, p :: 0 <= jd < f.cpus && jd != id && id < f.cpus && HeldBy(k, id, p) ==> !HeldBy(k, jd, p)
  }

  /** A dispatch that ends, by quantum or with the process, has the exact length. */
  lemma EndedBurstOk(f: Config, k: Kern, id: nat, p: nat, slot: nat)
    requires ConfigOk(f) && InOrder(f, k) && id < f.cpus && DispatchOk(f, k, id)
    requires k.cpus[id].proc == Some(p) && slot == k.cpus[id].nextAt
    requires k.pcs[p] == f.size[p] || k.cpus[id].timeLeft == 0
    ensures BurstOk(f, k, Burst(p, id, k.cpus[id].first, k.pcs[p], k.cpus[id].since, slot, k.pcs[p] < f.size[p]))
  {
  }

  lemma ReleaseHistory(f: Config, k: Kern, id: nat, slot: nat)
    requires ConfigOk(f) && InOrder(f, k) && Dispatches(f, k, -1) && id < f.cpus
    requires k.cpus[id].proc.Some? ==> slot == k.cpus[id].nextAt
    ensures var r := Release(f, k, id, slot);
            && InOrder(f, r) && Dispatches(f, r, -1)
            && (r.cpus[id].proc.Some? ==>
                  r.cpus[id].timeLeft != 0 && r.pcs[r.cpus[id].proc.value] < f.size[r.cpus[id].proc.value])
  {
    assert DispatchOk(f, k, id);
    var r := Release(f, k, id, slot);
    if r != k {
      EndedBurstOk(f, k, id, k.cpus[id].proc.value, slot);
    }
    forall jd | 0 <= jd < f.cpus && jd != -1
      ensures DispatchOk(f, r, jd)
    {
      assert DispatchOk(f, k, jd);
    }
    forall i | 0 <= i < |r.bursts|
      ensures BurstOk(f, r, r.bursts[i])
    {
      assert i < |k.bursts| ==> BurstOk(f, k, k.bursts[i]);
      assert BurstOk(f, k, r.bursts[i]);
    }
  }

  lemma FetchHistory(f: Config, k: Kern, id: nat)
    requires ConfigOk(f) && InOrder(f, k) && Dispatches(f, k, -1) && id < f.cpus
    ensures var r := Fetch(f, k, id);
            && InOrder(f, r) && Dispatches(f, r, id)
            && (r.cpus[id].proc == None || k.cpus[id].proc == None ==> r.cpus[id].timeLeft == 0)
  {
    var r := Fetch(f, k, id);
    assert DispatchOk(f, k, id);
    forall jd | 0 <= jd < f.cpus && jd != id
      ensures DispatchOk(f, r, jd)
    {
      assert DispatchOk(f, k, jd);
    }
    forall i | 0 <= i < |r.bursts|
      ensures BurstOk(f, r, r.bursts[i])
    {
      assert BurstOk(f, k, k.bursts[i]);
    }
  }

  lemma RanFromGrows(e: seq<Exec>, x: Exec, p: nat, cpu: nat, first: nat, last: nat, since: nat)
    requires RanFrom(e, p, cpu, first, last, since)
    ensures RanFrom(e + [x], p, cpu, first, last, since)
    ensures first <= last && x == ExecAt(p, cpu, first, since, last) ==>
              RanFrom(e + [x], p, cpu, first, last + 1, since)
  {
  }

  lemma DecideHistory(f: Config, k: Kern, id: nat, idle: bool, slot: nat)
    requires ConfigOk(f) && InOrder(f, k) && Dispatches(f, k, id) && id < f.cpus && Alone(f, k, id)
    requires k.cpus[id].proc == None ==> k.cpus[id].timeLeft == 0
    requires k.cpus[id].proc.Some? && k.cpus[id].timeLeft != 0 ==>
               && DispatchOk(f, k, id) && slot == k.cpus[id].nextAt
               && k.pcs[k.cpus[id].proc.value] < f.size[k.cpus[id].proc.value]
    ensures var r := Decide(f, k, id, idle, slot).0; InOrder(f, r) && Dispatches(f, r, -1)
  {
    var r := Decide(f, k, id, idle, slot).0;
    forall p | 0 <= p < |f.prio|
      ensures PcsOf(r.execs, p) == seq(r.pcs[p], i => i)
    {
      if r.execs != k.execs {
        assert r.execs[..|r.execs| - 1] == k.execs;
      }
    }
    forall jd | 0 <= jd < f.cpus && jd != -1
      ensures DispatchOk(f, r, jd)
    {
      if jd != id {
        assert DispatchOk(f, k, jd);
        if k.cpus[jd].proc.Some? {
          assert HeldBy(k, jd, k.cpus[jd].proc.value);
        }
        if k.cpus[id].proc.Some? {
          assert HeldBy(k, id, k.cpus[id].proc.value);
        }
        if r.execs != k.execs && k.cpus[jd].proc.Some? {
          var q := k.cpus[jd].proc.value;
          RanFromGrows(k.execs, r.execs[|k.execs|], q, jd, k.cpus[jd].first, k.pcs[q], k.cpus[jd].since);
        }
      } else if r.execs != k.execs {
        var q, c := k.cpus[id].proc.value, r.cpus[id];
        RanFromGrows(k.execs, r.execs[|k.execs|], q, id, c.first, k.pcs[q], c.since);
      }
    }
    forall i | 0 <= i < |r.bursts|
      ensures BurstOk(f, r, r.bursts[i])
    {
      var b := k.bursts[i];
      assert BurstOk(f, k, b);
      if r.execs != k.execs {
        RanFromGrows(k.execs, r.execs[|k.execs|], b.p, b.cpu, b.first, b.last, b.since);
      }
    }
  }

  /** A CPU turn keeps the execution history in order. */
  lemma CpuSectionHistory(f: Config, k: Kern, id: nat, slot: nat)
    requires ConfigOk(f) && InOrder(f, k) && Dispatches(f, k, -1) && id < f.cpus
    requires k.cpus[id].proc.Some? ==> slot == k.cpus[id].nextAt
    requires Alone(f, Fetch(f, Release(f, k, id, slot), id), id)
    ensures var r := CpuSection(f, k, id, slot).0; InOrder(f, r) && Dispatches(f, r, -1)
  {
    ReleaseHistory(f, k, id, slot);
    var k1 := Release(f, k, id, slot);
    FetchHistory(f, k1, id);
    assert DispatchOk(f, k1, id);
    DecideHistory(f, Fetch(f, k1, id), id, k.cpus[id].proc.None?, slot);
  }

  lemma LoaderSectionHistory(f: Config, k: Kern, slot: nat)
    requires ConfigOk(f) && InOrder(f, k) && Dispatches(f, k, -1)
    ensures var r := LoaderSection(f, k, slot).0; InOrder(f, r) && Dispatches(f, r, -1)
  {
    var r := LoaderSection(f, k, slot).0;
    forall jd | 0 <= jd < f.cpus && jd != -1
      ensures DispatchOk(f, r, jd)
    {
      assert DispatchOk(f, k, jd);
    }
    forall i | 0 <= i < |r.bursts|
      ensures BurstOk(f, r, r.bursts[i])
    {
      assert BurstOk(f, k, k.bursts[i]);
    }
  }
}
