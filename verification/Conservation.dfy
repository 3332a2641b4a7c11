/** Conservation of processes: every turn keeps each added process in exactly one place. */
module Conservation {
  import opened Wrappers
  import opened Queues
  import opened Mlq
  import opened Kernel

  /** Exactly one place: freed after finishing, dropped by a full queue, once in its
      own level, or held by exactly one CPU. */
  ghost predicate InExactlyOnePlace(f: Config, k: Kern, p: nat)
    requires ConfigOk(f) && Shaped(f, k) && p < |f.prio|
  {
    && ((p in k.finished) || (p in k.lost) || InQueue(f, k, p) || Held(k, p))
    && !(p in k.finished && p in k.lost)
    && (p in k.finished || p in k.lost ==> !InQueue(f, k, p) && !Held(k, p))
    && !(InQueue(f, k, p) && Held(k, p))
    && (forall l, i :: 0 <= l < MAX_PRIO && 0 <= i < |k.ready[l]| && k.ready[l][i] == p ==> l == f.prio[p])
    && (forall l, i, j :: 0 <= l < MAX_PRIO && 0 <= i < j < |k.ready[l]| ==> !(k.ready[l][i] == k.ready[l][j] == p))
    && (forall id, jd :: 0 <= id < jd < f.cpus ==> !(HeldBy(k, id, p) && HeldBy(k, jd, p)))
  }

  lemma PlacedMeansExactlyOne(f: Config, k: Kern, p: nat)
    requires ConfigOk(f) && Placed(f, k) && p < k.next
    ensures InExactlyOnePlace(f, k, p)
  {
  }

  lemma LosingAProcess(f: Config, k: Kern, id: nat, p: nat, slot: nat, requeued: bool)
    requires ConfigOk(f) && Placed(f, k) && id < f.cpus && HeldBy(k, id, p)
    ensures var r := EndBurst(k, id, p, slot, requeued);
            && Shaped(f, r) && !Held(r, p) && !HeldBy(r, id, p)
            && forall x :: x != p ==> (Held(r, x) <==> Held(k, x))
  {
    var r := EndBurst(k, id, p, slot, requeued);
    forall jd | 0 <= jd < |r.cpus|
      ensures !HeldBy(r, jd, p)
    {
      assert jd == id || HeldBy(k, jd, p) || !HeldBy(r, jd, p);
    }
    forall x | x != p
      ensures Held(r, x) <==> Held(k, x)
    {
      if Held(k, x) {
        var jd :| 0 <= jd < |k.cpus| && HeldBy(k, jd, x);
        assert HeldBy(r, jd, x);
      }
      if Held(r, x) {
        var jd :| 0 <= jd < |r.cpus| && HeldBy(r, jd, x);
        assert HeldBy(k, jd, x);
      }
    }
  }

  /** A pending process that is nowhere may be enqueued. */
  ghost predicate PlacedBut(f: Config, k: Kern, p: nat)
    requires ConfigOk(f)
  {
    && Shaped(f, k) && p < |f.prio| && Pending(k, p)
    && (forall l, i :: 0 <= l < MAX_PRIO && 0 <= i < |k.ready[l]| ==>
          k.ready[l][i] != p && Pending(k, k.ready[l][i]) && f.prio[k.ready[l][i]] == l && !Held(k, k.ready[l][i]))
    && (forall l, i, j :: 0 <= l < MAX_PRIO && 0 <= i < j < |k.ready[l]| ==> k.ready[l][i] != k.ready[l][j])
    && (forall id :: 0 <= id < f.cpus && k.cpus[id].proc.Some? ==> Pending(k, k.cpus[id].proc.value))
    && !Held(k, p)
    && (forall id, jd, x :: 0 <= id < jd < f.cpus && HeldBy(k, id, x) ==> !HeldBy(k, jd, x))
    && (forall x :: x in k.finished || x in k.lost ==> x < k.next)
    && k.finished !! k.lost
    && (forall x :: 0 <= x < |f.prio| && x != p && Pending(k, x) ==> InQueue(f, k, x) || Held(k, x))
  }

  lemma EnqueuePlaced(f: Config, k: Kern, p: nat)
    requires ConfigOk(f) && PlacedBut(f, k, p)
    ensures Placed(f, EnqueueProc(f, k, p))
  {
    var r := EnqueueProc(f, k, p);
    SameHolders(k, r);
    forall id | 0 <= id < f.cpus && r.cpus[id].proc.Some?
      ensures Pending(r, r.cpus[id].proc.value)
    {
      assert HeldBy(k, id, k.cpus[id].proc.value);
    }
    forall id, jd, x | 0 <= id < jd < f.cpus && HeldBy(r, id, x)
      ensures !HeldBy(r, jd, x)
    {
      assert HeldBy(k, id, x);
      assert HeldBy(k, jd, x) || !HeldBy(r, jd, x);
    }
    forall x | 0 <= x < |f.prio| && Pending(r, x)
      ensures InQueue(f, r, x) || Held(r, x)
    {
      assert x == p || Pending(k, x);
      EnqueuedIsThere(k.ready[f.prio[x]], r.ready[f.prio[x]], p, x);
    }
  }

  lemma EnqueuedIsThere(q: seq<nat>, r: seq<nat>, p: nat, x: nat)
    requires r == q || r == q + [p]
    ensures x in q ==> x in r
    ensures r == q + [p] ==> p in r
  {
  }

  lemma SameHolders(k: Kern, r: Kern)
    requires k.cpus == r.cpus
    ensures forall x :: Held(r, x) <==> Held(k, x)
  {
    forall x ensures Held(r, x) <==> Held(k, x) {
      if Held(k, x) { var id :| 0 <= id < |k.cpus| && HeldBy(k, id, x); assert HeldBy(r, id, x); }
      if Held(r, x) { var id :| 0 <= id < |r.cpus| && HeldBy(r, id, x); assert HeldBy(k, id, x); }
    }
  }

  /** After a dispatch ends, the other CPUs hold what they held, all distinct. */
  lemma HoldersShrink(f: Config, k: Kern, id: nat, p: nat, slot: nat, requeued: bool)
    requires ConfigOk(f) && Placed(f, k) && id < f.cpus && HeldBy(k, id, p)
    ensures var r := EndBurst(k, id, p, slot, requeued);
            && (forall a :: 0 <= a < f.cpus && r.cpus[a].proc.Some? ==>
                  r.cpus[a].proc.value != p && Pending(k, r.cpus[a].proc.value))
            && (forall a, b, x :: 0 <= a < b < f.cpus && HeldBy(r, a, x) ==> !HeldBy(r, b, x))
  {
    var r := EndBurst(k, id, p, slot, requeued);
    forall a | 0 <= a < f.cpus && r.cpus[a].proc.Some?
      ensures r.cpus[a].proc.value != p && Pending(k, r.cpus[a].proc.value)
    {
      assert HeldBy(k, a, r.cpus[a].proc.value);
      assert a < id || id < a;
    }
    forall a, b, x | 0 <= a < b < f.cpus && HeldBy(r, a, x)
      ensures !HeldBy(r, b, x)
    {
      assert HeldBy(k, a, x);
      assert HeldBy(k, b, x) || !HeldBy(r, b, x);
    }
  }

  lemma EndBurstLeavesOne(f: Config, k: Kern, id: nat, p: nat, slot: nat, requeued: bool)
    requires ConfigOk(f) && Placed(f, k) && id < f.cpus && HeldBy(k, id, p)
    ensures PlacedBut(f, EndBurst(k, id, p, slot, requeued), p)
  {
    LosingAProcess(f, k, id, p, slot, requeued);
    HoldersShrink(f, k, id, p, slot, requeued);
    var e := EndBurst(k, id, p, slot, requeued);
    forall x | 0 <= x < |f.prio| && x != p && Pending(e, x)
      ensures InQueue(f, e, x) || Held(e, x)
    {
      assert InQueue(f, k, x) || Held(k, x);
    }
  }

  lemma FinishPlaced(f: Config, k: Kern, p: nat)
    requires ConfigOk(f) && PlacedBut(f, k, p)
    ensures Placed(f, k.(finished := k.finished + {p}))
  {
    var r := k.(finished := k.finished + {p});
    SameHolders(k, r);
    forall id | 0 <= id < f.cpus && r.cpus[id].proc.Some?
      ensures Pending(r, r.cpus[id].proc.value)
    {
      assert HeldBy(k, id, k.cpus[id].proc.value);
    }
    forall a, b, x | 0 <= a < b < f.cpus && HeldBy(r, a, x)
      ensures !HeldBy(r, b, x)
    {
      assert HeldBy(k, a, x);
      assert HeldBy(k, b, x) || !HeldBy(r, b, x);
    }
    forall x | 0 <= x < |f.prio| && Pending(r, x)
      ensures InQueue(f, r, x) || Held(r, x)
    {
      assert Pending(k, x);
    }
  }

  lemma ReleasePlaced(f: Config, k: Kern, id: nat, slot: nat)
    requires ConfigOk(f) && Placed(f, k) && id < f.cpus
    ensures Placed(f, Release(f, k, id, slot))
  {
    if k.cpus[id].proc.Some? {
      var p := k.cpus[id].proc.value;
      assert HeldBy(k, id, p);
      if k.pcs[p] == f.size[p] {
        EndBurstLeavesOne(f, k, id, p, slot, false);
        FinishPlaced(f, EndBurst(k, id, p, slot, false), p);
      } else if k.cpus[id].timeLeft == 0 {
        EndBurstLeavesOne(f, k, id, p, slot, true);
        EnqueuePlaced(f, EndBurst(k, id, p, slot, true), p);
      }
    }
  }

  /** Process `p` has moved from the head of level `low` to the idle CPU `id`. */
  ghost predicate Fetched(k: Kern, r: Kern, id: nat, low: nat, p: nat)
  {
    && id < |k.cpus| && k.cpus[id].proc == None && low < MAX_PRIO
    && k.ready[low] != [] && p == k.ready[low][0]
    && r == k.(ready := k.ready[low := k.ready[low][1..]], cpus := k.cpus[id := k.cpus[id].(proc := Some(p))])
  }

  lemma HoldersAfterFetch(f: Config, k: Kern, r: Kern, id: nat, low: nat, p: nat)
    requires ConfigOk(f) && Placed(f, k) && Fetched(k, r, id, low, p)
    ensures forall x :: Held(r, x) <==> x == p || Held(k, x)
    ensures forall a, b, x :: 0 <= a < b < f.cpus && HeldBy(r, a, x) ==> !HeldBy(r, b, x)
  {
    assert !Held(k, p) && HeldBy(r, id, p);
    forall x
      ensures Held(r, x) <==> x == p || Held(k, x)
    {
      if Held(k, x) {
        var jd :| 0 <= jd < |k.cpus| && HeldBy(k, jd, x);
        assert HeldBy(r, jd, x);
      }
      if Held(r, x) {
        var jd :| 0 <= jd < |r.cpus| && HeldBy(r, jd, x);
        assert jd == id || HeldBy(k, jd, x);
      }
    }
    forall a, b, x | 0 <= a < b < f.cpus && HeldBy(r, a, x)
      ensures !HeldBy(r, b, x)
    {
      assert a == id || HeldBy(k, a, x);
      assert b == id || HeldBy(k, b, x) || !HeldBy(r, b, x);
    }
  }

  lemma QueuesAfterFetch(f: Config, k: Kern, r: Kern, id: nat, low: nat, p: nat)
    requires ConfigOk(f) && Placed(f, k) && Fetched(k, r, id, low, p)
    ensures forall l, i :: 0 <= l < MAX_PRIO && 0 <= i < |r.ready[l]| ==>
              Pending(r, r.ready[l][i]) && f.prio[r.ready[l][i]] == l && r.ready[l][i] != p && !Held(k, r.ready[l][i])
    ensures forall l, i, j :: 0 <= l < MAX_PRIO && 0 <= i < j < |r.ready[l]| ==> r.ready[l][i] != r.ready[l][j]
  {
  }

  lemma StillSomewhere(f: Config, k: Kern, r: Kern, id: nat, low: nat, p: nat, x: nat)
    requires ConfigOk(f) && Placed(f, k) && Fetched(k, r, id, low, p)
    requires x < |f.prio| && Pending(r, x) && x != p && !Held(k, x)
    ensures InQueue(f, r, x)
  {
  }

  lemma FetchPlaced(f: Config, k: Kern, id: nat)
    requires ConfigOk(f) && Placed(f, k) && id < f.cpus
    ensures Placed(f, Fetch(f, k, id))
  {
    var low := Lowest(k.ready);
    var r := Fetch(f, k, id);
    if k.cpus[id].proc == None && low < MAX_PRIO {
      FetchedPlaced(f, k, r, id, low, k.ready[low][0]);
    } else if k.cpus[id].proc == None {
      assert r.cpus == k.cpus;
      assert r.ready == k.ready;
    }
  }

  lemma FetchedPlaced(f: Config, k: Kern, r: Kern, id: nat, low: nat, p: nat)
    requires ConfigOk(f) && Placed(f, k) && Fetched(k, r, id, low, p) && Shaped(f, r)
    ensures Placed(f, r)
  {
    HoldersAfterFetch(f, k, r, id, low, p);
    QueuesAfterFetch(f, k, r, id, low, p);
    assert Pending(k, k.ready[low][0]);
    forall x | 0 <= x < |f.prio| && Pending(r, x)
      ensures InQueue(f, r, x) || Held(r, x)
    {
      if x != p && !Held(k, x) {
        StillSomewhere(f, k, r, id, low, p, x);
      }
    }
  }

  lemma DecidePlaced(f: Config, k: Kern, id: nat, idle: bool, slot: nat)
    requires ConfigOk(f) && Placed(f, k) && id < f.cpus
    ensures Placed(f, Decide(f, k, id, idle, slot).0)
  {
    var r := Decide(f, k, id, idle, slot).0;
    assert forall a :: 0 <= a < f.cpus ==> r.cpus[a].proc == k.cpus[a].proc;
    forall x ensures Held(r, x) <==> Held(k, x) {
      if Held(k, x) { var jd :| 0 <= jd < |k.cpus| && HeldBy(k, jd, x); assert HeldBy(r, jd, x); }
      if Held(r, x) { var jd :| 0 <= jd < |r.cpus| && HeldBy(r, jd, x); assert HeldBy(k, jd, x); }
    }
    forall a, b, x | 0 <= a < b < f.cpus && HeldBy(r, a, x)
      ensures !HeldBy(r, b, x)
    {
      assert HeldBy(k, a, x);
      assert HeldBy(k, b, x) || !HeldBy(r, b, x);
    }
    forall x | 0 <= x < |f.prio| && Pending(r, x)
      ensures InQueue(f, r, x) || Held(r, x)
    {
      assert Pending(k, x);
    }
  }

  /** A CPU turn keeps every process in its one place. */
  lemma CpuSectionPlaced(f: Config, k: Kern, id: nat, slot: nat)
    requires ConfigOk(f) && Placed(f, k) && id < f.cpus
    ensures Placed(f, CpuSection(f, k, id, slot).0)
  {
    ReleasePlaced(f, k, id, slot);
    var r := Release(f, k, id, slot);
    FetchPlaced(f, r, id);
    DecidePlaced(f, Fetch(f, r, id), id, k.cpus[id].proc.None?, slot);
  }

  lemma PublishPlaced(f: Config, k: Kern)
    requires ConfigOk(f) && Placed(f, k) && k.next < |f.prio|
    ensures PlacedBut(f, k.(next := k.next + 1), k.next)
    ensures Placed(f, Publish(f, k))
  {
    var p := k.next;
    var k1 := k.(next := k.next + 1);
    SameHolders(k, k1);
    assert Publish(f, k) == EnqueueProc(f, k1, p);
    forall id | 0 <= id < |k.cpus|
      ensures !HeldBy(k, id, p)
    {
      assert k.cpus[id].proc.None? || Pending(k, k.cpus[id].proc.value);
    }
    forall a, b, x | 0 <= a < b < f.cpus && HeldBy(k1, a, x)
      ensures !HeldBy(k1, b, x)
    {
      assert HeldBy(k, a, x);
      assert HeldBy(k, b, x) || !HeldBy(k1, b, x);
    }
    forall x | 0 <= x < |f.prio| && x != p && Pending(k1, x)
      ensures InQueue(f, k1, x) || Held(k1, x)
    {
      assert Pending(k, x);
    }
    EnqueuePlaced(f, k1, p);
  }

  lemma DonePlaced(f: Config, k: Kern)
    requires ConfigOk(f) && Placed(f, k)
    ensures Placed(f, k.(done := true))
  {
    var r := k.(done := true);
    SameHolders(k, r);
    forall a, b, x | 0 <= a < b < f.cpus && HeldBy(r, a, x)
      ensures !HeldBy(r, b, x)
    {
      assert HeldBy(k, a, x);
      assert HeldBy(k, b, x) || !HeldBy(r, b, x);
    }
    forall x | 0 <= x < |f.prio| && Pending(r, x)
      ensures InQueue(f, r, x) || Held(r, x)
    {
      assert Pending(k, x);
    }
  }

  /** A loader turn adds at most one process, in its one place. */
  lemma LoaderSectionPlaced(f: Config, k: Kern, slot: nat)
    requires ConfigOk(f) && Placed(f, k)
    ensures Placed(f, LoaderSection(f, k, slot).0)
  {
    if k.next == |f.prio| {
      DonePlaced(f, k);
    } else if slot >= f.start[k.next] {
      PublishPlaced(f, k);
    }
  }

  // ---------- Queues within capacity lose nothing ----------

  /** Processes of one priority that were added and have not finished. */
  ghost function UnfinishedAt(f: Config, k: Kern, prio: nat): set<nat>
    requires ConfigOk(f)
  {
    set p | 0 <= p < |f.prio| && p < k.next && p !in k.finished && f.prio[p] == prio
  }

  ghost predicate WithinCapacity(f: Config, k: Kern)
    requires ConfigOk(f)
  {
    forall prio :: 0 <= prio < MAX_PRIO ==> |UnfinishedAt(f, k, prio)| <= 50
  }

  lemma {:induction false} DistinctFit(q: seq<nat>, s: set<nat>)
    requires forall i :: 0 <= i < |q| ==> q[i] in s
    requires forall i, j :: 0 <= i < j < |q| ==> q[i] != q[j]
    ensures |q| <= |s|
  {
    if q != [] {
      DistinctFit(q[1..], s - {q[0]});
    }
  }

  /** A queue that lacks one of at most 50 unfinished processes has room for it. */
  lemma RoomForOne(f: Config, k: Kern, p: nat)
    requires ConfigOk(f) && PlacedBut(f, k, p) && WithinCapacity(f, k)
    ensures EnqueueProc(f, k, p).lost == k.lost
  {
    var all := UnfinishedAt(f, k, f.prio[p]);
    assert p in all;
    DistinctFit(k.ready[f.prio[p]], all - {p});
  }

  /** Only putting a process back can drop one. */
  lemma LostInCpuTurn(f: Config, k: Kern, id: nat, slot: nat)
    requires ConfigOk(f) && Shaped(f, k) && id < f.cpus
    ensures Release(f, k, id, slot).lost == CpuSection(f, k, id, slot).0.lost
    ensures Fetch(f, Release(f, k, id, slot), id).lost == CpuSection(f, k, id, slot).0.lost
  {
  }

  lemma CpuSectionLosesNothing(f: Config, k: Kern, id: nat, slot: nat)
    requires ConfigOk(f) && Placed(f, k) && WithinCapacity(f, k) && id < f.cpus
    ensures CpuSection(f, k, id, slot).0.lost == k.lost
  {
    LostInCpuTurn(f, k, id, slot);
    ReleaseLosesNothing(f, k, id, slot);
  }

  lemma ReleaseLosesNothing(f: Config, k: Kern, id: nat, slot: nat)
    requires ConfigOk(f) && Placed(f, k) && WithinCapacity(f, k) && id < f.cpus
    ensures Release(f, k, id, slot).lost == k.lost
  {
    if k.cpus[id].proc.Some? {
      var p := k.cpus[id].proc.value;
      assert HeldBy(k, id, p);
      var e := EndBurst(k, id, p, slot, true);
      EndBurstLeavesOne(f, k, id, p, slot, true);
      assert forall prio :: UnfinishedAt(f, e, prio) == UnfinishedAt(f, k, prio);
      RoomForOne(f, e, p);
    }
  }

  /** Here the capacity is that of the state in which the new process counts. */
  lemma LoaderSectionLosesNothing(f: Config, k: Kern, slot: nat)
    requires ConfigOk(f) && Placed(f, k) && WithinCapacity(f, LoaderSection(f, k, slot).0)
    ensures LoaderSection(f, k, slot).0.lost == k.lost
  {
    if k.next < |f.prio| && slot >= f.start[k.next] {
      var k1 := k.(next := k.next + 1);
      var r := Publish(f, k);
      PublishPlaced(f, k);
      assert forall prio :: UnfinishedAt(f, r, prio) == UnfinishedAt(f, k1, prio);
      RoomForOne(f, k1, k.next);
    }
  }
}
