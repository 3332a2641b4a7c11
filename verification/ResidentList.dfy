/** When the FIFO list names exactly the pages in RAM: as long as no access met full devices
    with a page to replace. */
module ResidentList {
  import opened Wrappers
  import opened Words
  import opened Radix
  import opened Paging
  import opened Ownership
  import opened FlatMemory
  import opened PagingRuns

  ghost predicate ListedKey(s: Sys, i: nat, k: nat) {
    i < |s.procs| && exists j :: 0 <= j < |s.procs[i].fifo| && Key(s.procs[i].fifo[j]) == k
  }

  /** Every page of process `i` in RAM is listed. */
  ghost predicate AllListed(s: Sys, i: nat) {
    forall k: nat :: Online(Entry(s, i, k)) ==> ListedKey(s, i, k)
  }

  /** The access needs a frame, RAM and SWAP are full, and process `i` has a page listed. */
  predicate Drops(s: Sys, op: Op, i: nat) {
    && op.i == i < |s.procs| && !IsPresent(Entry(s, i, OpKey(op)))
    && s.ram.free == [] && s.swap.free == [] && s.procs[i].fifo != []
  }

  /** No access of the run does so. */
  ghost predicate NoDrop(s: Sys, ops: seq<Op>, i: nat)
    requires AllowedRun(s, ops)
    decreases |ops|
  {
    ops != [] ==> !Drops(s, ops[0], i) && NoDrop(Apply(s, ops[0]).0, ops[1..], i)
  }

  // ---------- One access ----------

  /** An access fails exactly when no frame is free or can be made free. */
  lemma FailsWhen(s: Sys, o: Owners, op: Op)
    requires Owned(s, o, None) && Allowed(s, op)
    ensures Apply(s, op).1.None? <==>
            !IsPresent(Entry(s, op.i, OpKey(op))) && s.ram.free == []
            && (s.procs[op.i].fifo == [] || s.swap.free == [])
  {
    var _ := GetPageKeeps(s, o, op.i, Pgn(op.addr));
  }

  /** A dropped victim is off the list and still in RAM. */
  lemma DropLeavesUnlisted(s: Sys, o: Owners, op: Op, i: nat)
    requires Owned(s, o, None) && Allowed(s, op) && Drops(s, op, i)
    ensures !AllListed(Apply(s, op).0, i)
  {
    var t := Apply(s, op).0;
    var vk := Key(Victim(s.procs[i].fifo));
    assert ListOk(s.procs[i]);
    assert Online(Entry(t, i, vk)) && !ListedKey(t, i, vk);
  }

  /** A page in RAM that is not listed stays so: it is never loaded again and never a
      victim. */
  lemma StaysUnlisted(s: Sys, o: Owners, op: Op, i: nat, k: nat)
    requires Owned(s, o, None) && Allowed(s, op) && i < |s.procs|
    requires Online(Entry(s, i, k)) && !ListedKey(s, i, k)
    ensures Online(Entry(Apply(s, op).0, i, k)) && !ListedKey(Apply(s, op).0, i, k)
  {
    var p, q := s.procs[i], Apply(s, op).0.procs[i];
    assert p.fifo == [] || Key(p.fifo[|p.fifo| - 1]) != k;
    if i == op.i && k == OpKey(op) {
      NothingLoaded(s, op, i, k);
    } else {
      OtherEntriesStay(s, op, i, k);
      StepIsFifo(s, op, i);
      var l := Loaded(s, op, i);
      forall j | 0 <= j < |q.fifo|
        ensures Key(q.fifo[j]) != k
      {
        assert q.fifo[j] == (l + p.fifo)[j];
      }
    }
  }

  /** The list after an access that loads a page; a victim is in SWAP now. */
  lemma ListAfterLoad(s: Sys, op: Op)
    requires Allowed(s, op) && !IsPresent(Entry(s, op.i, OpKey(op))) && Apply(s, op).1.Some?
    requires ListOk(s.procs[op.i])
    ensures |Apply(s, op).0.procs| == |s.procs|
    ensures var (p, q) := (s.procs[op.i], Apply(s, op).0.procs[op.i]);
            if s.ram.free != [] then
              q.fifo == [Pgn(op.addr)] + p.fifo
              && (p.fifo != [] ==>
                    Entry(Apply(s, op).0, op.i, Key(Victim(p.fifo))) == Entry(s, op.i, Key(Victim(p.fifo))))
            else
              && p.fifo != [] && q.fifo == [Pgn(op.addr)] + p.fifo[..|p.fifo| - 1]
              && IsSwapped(Entry(Apply(s, op).0, op.i, Key(Victim(p.fifo))))
  {
    var p := s.procs[op.i];
    if p.fifo != [] {
      var vk := Key(Victim(p.fifo));
      assert Online(Look(p.pt, vk)) && vk != OpKey(op);
      if s.ram.free == [] && s.swap.free != [] {
        SwappedOutReads(Look(p.pt, vk), 0, s.swap.free[0]);
      }
    }
  }

  lemma StaysListed(s: Sys, o: Owners, op: Op, i: nat, k: nat)
    requires Owned(s, o, None) && Allowed(s, op) && i < |s.procs| && AllListed(s, i)
    requires !Drops(s, op, i) && Online(Entry(Apply(s, op).0, i, k))
    ensures ListedKey(Apply(s, op).0, i, k)
  {
    var t := Apply(s, op).0;
    var p, q := s.procs[i], t.procs[i];
    FailsWhen(s, o, op);
    if op.i == i && !IsPresent(Entry(s, i, OpKey(op))) && Apply(s, op).1.Some? {
      ListAfterLoad(s, op);
      if k == OpKey(op) {
        assert Key(q.fifo[0]) == k;
      } else {
        if p.fifo == [] || k != Key(Victim(p.fifo)) {
          OtherEntriesStay(s, op, i, k);
        }
        assert ListedKey(s, i, k);
        ShiftedList(p.fifo, q.fifo, Pgn(op.addr), k);
      }
    } else {
      NothingLoaded(s, op, i, k);
      assert ListedKey(s, i, k);
    }
  }

  lemma ShiftedList(l: seq<Word>, m: seq<Word>, pgn: Word, k: nat)
    requires exists j :: 0 <= j < |l| && Key(l[j]) == k
    requires m == [pgn] + l || (l != [] && m == [pgn] + l[..|l| - 1] && k != Key(Victim(l)))
    ensures exists j :: 0 <= j < |m| && Key(m[j]) == k
  {
    var j :| 0 <= j < |l| && Key(l[j]) == k;
    assert m[j + 1] == l[j];
  }

  lemma NothingLoaded(s: Sys, op: Op, i: nat, k: nat)
    requires Allowed(s, op) && i < |s.procs|
    requires op.i == i ==> IsPresent(Entry(s, i, OpKey(op))) || (Apply(s, op).1.None? && s.procs[i].fifo == [])
    ensures |Apply(s, op).0.procs| == |s.procs|
    ensures Apply(s, op).0.procs[i].fifo == s.procs[i].fifo
    ensures Online(Entry(Apply(s, op).0, i, k)) == Online(Entry(s, i, k))
  {
  }

  lemma StepListed(s: Sys, o: Owners, op: Op, i: nat)
    requires Owned(s, o, None) && Allowed(s, op) && i < |s.procs|
    ensures AllListed(Apply(s, op).0, i) <==> AllListed(s, i) && !Drops(s, op, i)
  {
    if !AllListed(s, i) {
      var k: nat :| Online(Entry(s, i, k)) && !ListedKey(s, i, k);
      StaysUnlisted(s, o, op, i, k);
    } else if Drops(s, op, i) {
      DropLeavesUnlisted(s, o, op, i);
    } else {
      forall k: nat | Online(Entry(Apply(s, op).0, i, k))
        ensures ListedKey(Apply(s, op).0, i, k)
      {
        StaysListed(s, o, op, i, k);
      }
    }
  }

  // ---------- Runs ----------

  lemma {:induction false} ListedFrom(s: Sys, o: Owners, m: Flat, ops: seq<Op>, i: nat)
    requires Owned(s, o, None) && Represents(s, m) && AllowedRun(s, ops) && i < |s.procs|
    ensures AllListed(Final(s, ops), i) <==> AllListed(s, i) && NoDrop(s, ops, i)
    decreases |ops|
  {
    if ops != [] {
      var (t, r) := Apply(s, ops[0]);
      StepListed(s, o, ops[0], i);
      var o1 := StepRefines(s, o, m, ops[0]);
      ListedFrom(t, o1, if r.Some? then FlatApply(m, ops[0]).0 else m, ops[1..], i);
    }
  }

  /** After any run the resident list names exactly the pages in RAM, if and only if no
      access of the run found RAM and SWAP full with a page listed. */
  lemma ListIsResidentSet(s: Sys, ops: seq<Op>, i: nat)
    requires Initial(s) && AllowedRun(s, ops) && i < |s.procs|
    ensures (forall k: nat :: ListedKey(Final(s, ops), i, k) <==> Online(Entry(Final(s, ops), i, k))) <==>
            NoDrop(s, ops, i)
  {
    InitialIsOwned(s);
    ListedFrom(s, Owners(map[], map[]), map[], ops, i);
    var t := Final(s, ops);
    FifoFrom(s, ops, i);
    ListsAreOk(s, ops, i);
    assert forall k: nat :: ListedKey(t, i, k) ==> Online(Entry(t, i, k));
    assert AllListed(s, i);
  }
}
