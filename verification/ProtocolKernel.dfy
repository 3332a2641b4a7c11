/** What every interleaving does to the processes: conservation, execution in order and
    exact dispatches, in every reachable state, in the middle of turns too. */
module ProtocolKernel {
  import opened Wrappers
  import opened Kernel
  import opened Conservation
  import opened Execution
  import opened Serial
  import opened Protocol
  import opened ProtocolRuns

  ghost predicate Sound(f: Config, k: Kern)
    requires ConfigOk(f)
  {
    && Placed(f, k) && InOrder(f, k)
    && forall i :: 0 <= i < |k.bursts| ==> BurstOk(f, k, k.bursts[i])
  }

  /** The three parts of a CPU turn. */
  lemma CpuPartsAreSound(f: Config, q: State, id: nat)
    requires ConfigOk(f) && Good(f, q) && q.turn == id
    ensures Sound(f, q.kern) && Sound(f, Release(f, q.kern, id, q.slot))
    ensures Sound(f, Fetch(f, Release(f, q.kern, id, q.slot), id))
    ensures Sound(f, CpuSection(f, q.kern, id, q.slot).0)
  {
    var k := q.kern;
    ReleasePlaced(f, k, id, q.slot);
    ReleaseHistory(f, k, id, q.slot);
    var r := Release(f, k, id, q.slot);
    FetchPlaced(f, r, id);
    FetchHistory(f, r, id);
    AloneAfterFetch(f, k, id, q.slot);
    CpuSectionPlaced(f, k, id, q.slot);
    CpuSectionHistory(f, k, id, q.slot);
  }

  lemma LoaderPartsAreSound(f: Config, q: State)
    requires ConfigOk(f) && Good(f, q)
    ensures Sound(f, q.kern) && Sound(f, LoaderSection(f, q.kern, q.slot).0)
  {
    LoaderSectionPlaced(f, q.kern, q.slot);
    LoaderSectionHistory(f, q.kern, q.slot);
  }

  /** The kernel data is that of the sequential program at the last turn that ended, or what
      a part of the current turn has made of it. */
  lemma DataIsPartOfTurn(f: Config, c: Conc)
    requires ConfigOk(f) && Inv(f, c)
    ensures var (k, t, id) := (c.serial.kern, c.serial.slot, c.serial.turn);
            || c.kern == k
            || (id >= 0 && (c.kern == Release(f, k, id, t) || c.kern == Fetch(f, Release(f, k, id, t), id)
                            || c.kern == CpuSection(f, k, id, t).0))
            || (id == -1 && c.serial.loader && c.kern == LoaderSection(f, k, t).0)
  {
  }

  lemma ReachedIsSound(f: Config, c: Conc)
    requires ConfigOk(f) && Reached(f, c)
    ensures Sound(f, c.kern)
  {
    AlwaysGood(f, c.steps);
    DataIsPartOfTurn(f, c);
    LoaderPartsAreSound(f, c.serial);
    if c.serial.turn >= 0 {
      CpuPartsAreSound(f, c.serial, c.serial.turn);
    }
  }

  /** In every reachable state of every interleaving each added process is in exactly one
      place, has executed its first instructions once each and in order, and every ended
      dispatch ran min(quantum, remaining) consecutive instructions on its CPU. */
  lemma ProcessesAreConserved(f: Config, acts: seq<Action>, c: Conc)
    requires ConfigOk(f) && RunOf(f, acts) == Some(c)
    ensures Shaped(f, c.kern) && |f.size| == |f.prio|
    ensures forall p :: 0 <= p < c.kern.next ==> InExactlyOnePlace(f, c.kern, p)
    ensures forall p :: 0 <= p < |f.prio| ==>
              c.kern.pcs[p] <= f.size[p] && PcsOf(c.kern.execs, p) == seq(c.kern.pcs[p], i => i)
    ensures forall p :: p in c.kern.finished ==> p < |f.prio| && c.kern.pcs[p] == f.size[p]
    ensures forall i :: 0 <= i < |c.kern.bursts| ==> BurstOk(f, c.kern, c.kern.bursts[i])
  {
    RunIsReached(f, acts, c);
    ReachedIsSound(f, c);
    forall p | 0 <= p < c.kern.next
      ensures InExactlyOnePlace(f, c.kern, p)
    {
      PlacedMeansExactlyOne(f, c.kern, p);
    }
  }

  /** While no priority has more than 50 unfinished processes, no interleaving drops one. */
  lemma NoProcessIsDropped(f: Config, acts: seq<Action>, c: Conc)
    requires ConfigOk(f) && RunOf(f, acts) == Some(c)
    requires forall j :: 0 <= j <= c.steps + 1 ==> WithinCapacity(f, Iterate(f, j).kern)
    ensures c.kern.lost == {}
  {
    RunIsReached(f, acts, c);
    LostGrows(f, c);
    NothingIsLost(f, c.steps);
    NothingLostNext(f, c.steps);
  }

  lemma NothingLostNext(f: Config, n: nat)
    requires ConfigOk(f) && forall j :: 0 <= j <= n + 1 ==> WithinCapacity(f, Iterate(f, j).kern)
    ensures Step(f, Iterate(f, n)).kern.lost == {}
  {
    NothingIsLost(f, n + 1);
    ForwardOneMore(f, Init(f), n);
  }

  lemma StepIsSection(f: Config, q: State)
    requires ConfigOk(f) && Sane(f, q)
    ensures q.turn >= 0 ==> Step(f, q).kern == CpuSection(f, q.kern, q.turn, q.slot).0
    ensures q.turn == -1 && q.loader ==> Step(f, q).kern == LoaderSection(f, q.kern, q.slot).0
  {
  }

  lemma LostGrows(f: Config, c: Conc)
    requires ConfigOk(f) && Reached(f, c)
    ensures c.kern.lost <= c.serial.kern.lost + Step(f, c.serial).kern.lost
  {
    DataIsPartOfTurn(f, c);
    StepIsSection(f, c.serial);
    if c.serial.turn >= 0 {
      LostInCpuTurn(f, c.serial.kern, c.serial.turn, c.serial.slot);
    }
  }
}
