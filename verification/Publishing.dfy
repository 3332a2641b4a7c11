/** When processes are published: at their start time or, one a slot, as soon after their
    predecessor as that allows. */
module Publishing {
  import opened Wrappers
  import opened Kernel
  import opened Serial
  import opened Protocol
  import opened ProtocolProofs
  import opened ProtocolRuns
  import opened ProtocolKernel

  /** The slot in which process `p` enters its ready queue. */
  function At(f: Config, p: nat): (t: nat)
    requires p < |f.start|
    ensures t >= f.start[p]
  {
    if p == 0 then f.start[0]
    else var earliest := At(f, p - 1) + 1; if f.start[p] >= earliest then f.start[p] else earliest
  }

  lemma {:induction false} AtGrows(f: Config, p: nat, q: nat)
    requires p < q < |f.start|
    ensures At(f, p) < At(f, q)
  {
    if p < q - 1 {
      AtGrows(f, p, q - 1);
    }
  }

  /** The loader's turn of the slot is over, or it takes none any more. */
  predicate LoaderIsThrough(q: State) {
    q.turn == -2 || !q.loader
  }

  /** Exactly the processes that are due have been published. */
  ghost predicate Punctual(f: Config, q: State)
    requires ConfigOk(f)
  {
    && (q.loader || q.kern.next == |f.prio|)
    && forall p :: 0 <= p < |f.prio| ==>
         (p < q.kern.next <==> At(f, p) < q.slot + if LoaderIsThrough(q) then 1 else 0)
  }

  lemma LoaderKeepsPunctual(f: Config, q: State, r: State)
    requires ConfigOk(f) && Sane(f, q) && Punctual(f, q) && q.turn == -1 && q.loader && r == LoaderTurn(f, q)
    ensures Punctual(f, r)
  {
    var n := q.kern.next;
    if n < |f.prio| {
      assert At(f, n) >= q.slot;
      assert n > 0 ==> At(f, n - 1) < q.slot;
      forall p | n < p < |f.prio|
        ensures At(f, p) > At(f, n)
      {
        AtGrows(f, n, p);
      }
    }
  }

  lemma StepKeepsPunctual(f: Config, q: State)
    requires ConfigOk(f) && Sane(f, q) && Punctual(f, q)
    ensures Punctual(f, Step(f, q))
  {
    if !SlotOver(q) && q.turn >= 0 {
      OthersUntouched(f, q.kern, q.turn, q.slot);
    } else if !SlotOver(q) {
      LoaderKeepsPunctual(f, q, Step(f, q));
    }
  }

  lemma {:induction false} AlwaysPunctual(f: Config, n: nat)
    requires ConfigOk(f)
    ensures Punctual(f, Iterate(f, n))
    decreases n
  {
    if n > 0 {
      AlwaysPunctual(f, n - 1);
      ForwardOneMore(f, Init(f), n - 1);
      StepKeepsPunctual(f, Iterate(f, n - 1));
    }
  }

  /** In the sequential program, whenever the loader is through with a slot. */
  lemma PublishedWhenDue(f: Config, n: nat, p: nat)
    requires ConfigOk(f) && p < |f.prio| && LoaderIsThrough(Iterate(f, n))
    ensures p < Iterate(f, n).kern.next <==> At(f, p) <= Iterate(f, n).slot
  {
    AlwaysPunctual(f, n);
  }

  /** A turn of the loader publishes at most one process; a turn of a CPU none. */
  lemma NextInTurn(f: Config, c: Conc)
    requires ConfigOk(f) && Inv(f, c)
    ensures c.kern.next == c.serial.kern.next || c.kern.next == Step(f, c.serial).kern.next
  {
    DataIsPartOfTurn(f, c);
    StepIsSection(f, c.serial);
    if c.serial.turn >= 0 {
      OthersUntouched(f, c.serial.kern, c.serial.turn, c.serial.slot);
      ReleaseTouchesOne(f, c.serial.kern, c.serial.turn, c.serial.slot);
      FetchTouchesOne(f, Release(f, c.serial.kern, c.serial.turn, c.serial.slot), c.serial.turn);
    }
  }

  /** In every interleaving, at every moment: a process is not published before its slot, and
      has been when the slot is over. */
  lemma PublishedOnTime(f: Config, acts: seq<Action>, c: Conc, p: nat)
    requires ConfigOk(f) && RunOf(f, acts) == Some(c) && p < |f.prio|
    ensures p < c.kern.next ==> At(f, p) <= c.time
    ensures At(f, p) < c.time ==> p < c.kern.next
    ensures c.timer.TTick? ==> (p < c.kern.next <==> At(f, p) <= c.time)
  {
    RunIsReached(f, acts, c);
    AlwaysPunctual(f, c.steps);
    StepKeepsPunctual(f, c.serial);
    NextInTurn(f, c);
    if c.timer.TTick? || c.timer.TReset? {
      SettledMeansOver(f, c);
    }
  }
}
