/** The page directory of a process, src/mm64.c: tables are allocated on demand, read,
    written and released in place. */
module PageTable {
  import opened Words
  import opened Radix

  /** `tables` holds every table malloc'ed for this directory; `mallocs` says how many
      more table allocations will succeed before malloc returns NULL. */
  class PageDirectory {
    var tables: Heap
    var pgd: nat
    var mallocs: nat
    ghost var shape: Shape
    ghost var entries: map<nat, Word>   // what the tables mean

    ghost var history: seq<(Word, Word)> // entries written, with their page numbers, oldest first
    ghost var freed: multiset<nat>           // the addresses passed to free()

    /** A directory in use, or one that FreeMm has released. */
    ghost predicate Valid()
      reads this
    {
      if pgd == 0 then tables == map[] && entries == map[] && history == [] else InUse()
    }

    ghost predicate InUse()
      reads this
    {
      && pgd != 0
      && TreeOk(tables, pgd, shape)
      && Means(tables, pgd, entries)
      && entries == Replay(history)
    }

    /** Tables still to be allocated before page `pgn` has an entry. */
    ghost function MissingFor(pgn: Word): (n: nat)
      reads `tables, `pgd
    {
      Missing(tables, pgd, Indices(pgn)[..4])
    }

    /** The page-directory part of init_mm: one zeroed top table. */
    constructor (mallocs: nat)
      ensures Valid() && pgd != 0 && entries == map[] && history == [] && this.mallocs == mallocs
    {
      pgd := 1;
      tables := map[1 := ZeroTable()];
      this.mallocs := mallocs;
      shape := Shape(map[1 := []], map[]);
      entries := map[];
      history, freed := [], multiset{};
      new;
      assert TableOk(tables, pgd, shape, pgd);
      forall ix: seq<nat> | |ix| == 5 && Digits(ix)
        ensures Walk(tables, pgd, ix) == Look(entries, KeyOf(ix))
      {
        assert Walk(tables, pgd, ix) == Walk(tables, 0, ix[1..]);
      }
    }

    /** Malloc'ed addresses are neither NULL nor in use. */
    method Malloc() returns (b: nat)
      ensures b == 0 || b !in tables
      ensures b == 0 <==> mallocs == 0
    {
      if mallocs == 0 {
        return 0;
      }
      FreshAddress(tables.Keys);
      b :| b != 0 && b !in tables;
    }

    /** "Access or allocate": the table at index `i` of table `a`, or 0. `rest` are the
        indices still to follow from there. */
    method Child(a: nat, i: nat, ghost rest: seq<nat>) returns (b: nat)
      requires InUse() && a in tables && |shape.path[a]| < 4 && i < TABLE_SIZE && Digits(rest)
      modifies `tables, `mallocs, `shape
      ensures InUse()
      ensures mallocs <= old(mallocs) && (mallocs == old(mallocs) ==> tables == old(tables))
      ensures b == 0 <==> old(tables[a][i] == 0 && mallocs == 0)
      ensures b == 0 ==> old(mallocs) < old(Missing(tables, a, [i] + rest))
      ensures b != 0 ==> b in tables && shape.path[b] == old(shape.path[a]) + [i]
      ensures b != 0 ==> old(mallocs) - mallocs == old(Missing(tables, a, [i] + rest)) - Missing(tables, b, rest)
    {
      assert TableOk(tables, pgd, shape, a);
      assert ([i] + rest)[1..] == rest;
      b := tables[a][i];
      if b == 0 {
        b := Malloc();
        if b != 0 {
          HangKeepsTree(tables, pgd, shape, a, i, b);
          HangMeansTheSame(a, i, b);
          shape := HangShape(shape, a, i, b);
          tables := Hang(tables, a, i, b);
          mallocs := mallocs - 1;
        }
      }
    }

    lemma HangMeansTheSame(a: nat, i: nat, b: nat)
      requires InUse() && a in tables && |shape.path[a]| < 4 && i < TABLE_SIZE
      requires tables[a][i] == 0 && b != 0 && b !in tables
      ensures Means(Hang(tables, a, i, b), pgd, entries)
    {
      assert TableOk(tables, pgd, shape, pgd);
      forall ix: seq<nat> | |ix| == 5 && Digits(ix)
        ensures Walk(Hang(tables, a, i, b), pgd, ix) == Look(entries, KeyOf(ix))
      {
        HangReadsTheSame(tables, pgd, shape, a, i, b, pgd, ix);
      }
    }

    /** The four navigation steps that every pte_set_* performs: the table that holds
        the entry of `pgn`, or 0 when an allocation fails on the way. */
    method Navigate(pgn: Word) returns (pt: nat)
      requires Valid()
      modifies `tables, `mallocs, `shape
      ensures Valid()
      ensures pt != 0 <==> pgd != 0 && old(mallocs) >= old(MissingFor(pgn))
      ensures pt != 0 ==> mallocs == old(mallocs) - old(MissingFor(pgn))
      ensures pt != 0 && mallocs == old(mallocs) ==> tables == old(tables)
      ensures pt != 0 ==> pt in tables && shape.path[pt] == Indices(pgn)[..4]
    {
      if pgd == 0 {
        return 0;
      }
      var ix := Indices(pgn);
      ghost var p := ix[..4];
      assert TableOk(tables, pgd, shape, pgd);
      assert p == [ix[0], ix[1]] + [ix[2], ix[3]] && [ix[2], ix[3]] == [ix[2], ix[3]] + [];
      var pud := TwoLevels(pgd, ix[0], ix[1], [ix[2], ix[3]]);
      if pud == 0 {
        return 0;
      }
      pt := TwoLevels(pud, ix[2], ix[3], []);
      assert [] + [ix[0], ix[1]] + [ix[2], ix[3]] == p;
    }

    /** Two of the navigation steps. */
    method TwoLevels(a: nat, i: nat, j: nat, ghost rest: seq<nat>) returns (b: nat)
      requires InUse() && a in tables && |shape.path[a]| < 3 && i < TABLE_SIZE && j < TABLE_SIZE && Digits(rest)
      modifies `tables, `mallocs, `shape
      ensures InUse()
      ensures mallocs <= old(mallocs) && (mallocs == old(mallocs) ==> tables == old(tables))
      ensures b == 0 ==> old(mallocs) < old(Missing(tables, a, [i, j] + rest))
      ensures b != 0 ==> b in tables && shape.path[b] == old(shape.path[a]) + [i, j]
      ensures b != 0 ==> old(mallocs) - mallocs == old(Missing(tables, a, [i, j] + rest)) - Missing(tables, b, rest)
    {
      assert [i] + ([j] + rest) == [i, j] + rest;
      var c := Child(a, i, [j] + rest);
      if c == 0 {
        return 0;
      }
      b := Child(c, j, rest);
      assert old(shape.path[a]) + [i] + [j] == old(shape.path[a]) + [i, j];
    }

    /** `*pte = v` in the table `pt` of page `pgn`. */
    method Store(pgn: Word, pt: nat, v: Word)
      requires InUse() && pt in tables && shape.path[pt] == Indices(pgn)[..4]
      modifies `tables, `entries, `history
      ensures Valid() && history == old(history) + [(pgn, v)]
      ensures entries == old(entries)[Key(pgn) := v]
      ensures forall p: Word :: MissingFor(p) == old(MissingFor(p))
    {
      var i := Indices(pgn)[4];
      WriteKeepsTree(tables, pgd, shape, pt, i, v);
      WriteMeans(tables, pgd, shape, entries, pt, pgn, v);
      WriteMissing(tables, pgd, shape, pt, i, v);
      ReplayOneMore(history, pgn, v);
      tables := Write(tables, pt, i, v);
      entries := entries[Key(pgn) := v];
      history := history + [(pgn, v)];
    }

    /** The entry that table `pt` holds for page `pgn`. */
    method Load(pgn: Word, pt: nat) returns (v: Word)
      requires InUse() && pt in tables && shape.path[pt] == Indices(pgn)[..4]
      ensures v == Look(entries, Key(pgn))
    {
      assert TableOk(tables, pgd, shape, pt);
      v := tables[pt][Indices(pgn)[4]];
      WalkArrives(pgn, pt);
    }

    lemma WalkArrives(pgn: Word, pt: nat)
      requires InUse() && pt in tables && shape.path[pt] == Indices(pgn)[..4]
      ensures tables[pt][Indices(pgn)[4]] == Look(entries, Key(pgn))
    {
      var ix := Indices(pgn);
      IndicesAreDigits(pgn);
      var a := tables[pgd][ix[0]];
      assert TableOk(tables, pgd, shape, pgd);
      NextOnPath(tables, pgd, shape, pt, pgd, ix[0]);
      var b := tables[a][ix[1]];
      assert TableOk(tables, pgd, shape, a);
      NextOnPath(tables, pgd, shape, pt, a, ix[1]);
      var c := tables[b][ix[2]];
      assert TableOk(tables, pgd, shape, b);
      NextOnPath(tables, pgd, shape, pt, b, ix[2]);
      var d := tables[c][ix[3]];
      assert TableOk(tables, pgd, shape, c);
      NextOnPath(tables, pgd, shape, pt, c, ix[3]);
      PathsAreUnique(tables, pgd, shape, d, pt);
      assert Walk(tables, pgd, ix) == Walk(tables, a, ix[1..]) == Walk(tables, b, ix[1..][1..])
          == Walk(tables, c, ix[1..][1..][1..]) == Walk(tables, d, ix[1..][1..][1..][1..]);
    }

    /** pte_get_entry: reads, and changes nothing. */
    method PteGetEntry(pgn: Word) returns (pte: Word)
      requires Valid()
      ensures pte == Look(entries, Key(pgn)) == LastWritten(history, pgn)
    {
      LastWriteWins(history, pgn);
      if pgd == 0 {
        return 0;
      }
      var ix := Indices(pgn);
      IndicesAreDigits(pgn);
      assert Walk(tables, pgd, ix) == Look(entries, Key(pgn));
      assert TableOk(tables, pgd, shape, pgd);
      var p4d := tables[pgd][ix[0]];
      assert Walk(tables, pgd, ix) == Walk(tables, p4d, ix[1..]);
      if p4d == 0 {
        return 0;
      }
      assert TableOk(tables, pgd, shape, p4d);
      var pud := tables[p4d][ix[1]];
      assert Walk(tables, p4d, ix[1..]) == Walk(tables, pud, ix[2..]) by { assert ix[1..][1..] == ix[2..]; }
      if pud == 0 {
        return 0;
      }
      assert TableOk(tables, pgd, shape, pud);
      var pmd := tables[pud][ix[2]];
      assert Walk(tables, pud, ix[2..]) == Walk(tables, pmd, ix[3..]) by { assert ix[2..][1..] == ix[3..]; }
      if pmd == 0 {
        return 0;
      }
      assert TableOk(tables, pgd, shape, pmd);
      var pt := tables[pmd][ix[3]];
      assert Walk(tables, pmd, ix[3..]) == Walk(tables, pt, ix[4..]) by { assert ix[3..][1..] == ix[4..]; }
      if pt == 0 {
        return 0;
      }
      assert TableOk(tables, pgd, shape, pt);
      pte := tables[pt][ix[4]];
    }

    /** pte_set_entry: 0 for success, -1 for a failed table allocation. */
    method PteSetEntry(pgn: Word, v: Word) returns (r: int)
      requires Valid()
      modifies this
      ensures Valid() && pgd == old(pgd)
      ensures r == 0 <==> pgd != 0 && old(mallocs) >= old(MissingFor(pgn))
      ensures r == 0 ==> entries == old(entries)[Key(pgn) := v] && history == old(history) + [(pgn, v)]
      ensures r == 0 ==> mallocs == old(mallocs) - old(MissingFor(pgn))
      ensures r != 0 ==> r == -1 && entries == old(entries) && history == old(history)
    {
      var pt := Navigate(pgn);
      if pt == 0 {
        return -1;
      }
      Store(pgn, pt, v);
      return 0;
    }

    /** pte_set_fpn. */
    method PteSetFpn(pgn: Word, fpn: Word) returns (r: int)
      requires Valid()
      modifies this
      ensures Valid() && pgd == old(pgd)
      ensures r == 0 <==> pgd != 0 && old(mallocs) >= old(MissingFor(pgn))
      ensures r == 0 ==> entries == old(entries)[Key(pgn) := OnLine(Look(old(entries), Key(pgn)), fpn)]
      ensures r == 0 ==> history == old(history) + [(pgn, OnLine(Look(old(entries), Key(pgn)), fpn))]
      ensures r == 0 ==> mallocs == old(mallocs) - old(MissingFor(pgn))
      ensures r != 0 ==> r == -1 && entries == old(entries) && history == old(history)
    {
      var pt := Navigate(pgn);
      if pt == 0 {
        return -1;
      }
      var pte := Load(pgn, pt);
      pte := SetPresent(pte);
      pte := ClearSwapped(pte);
      pte := SetFpn(pte, fpn);
      Store(pgn, pt, pte);
      return 0;
    }

    /** pte_set_swap. */
    method PteSetSwap(pgn: Word, swptyp: Word, swpoff: Word) returns (r: int)
      requires Valid()
      modifies this
      ensures Valid() && pgd == old(pgd)
      ensures r == 0 <==> pgd != 0 && old(mallocs) >= old(MissingFor(pgn))
      ensures r == 0 ==> entries == old(entries)[Key(pgn) := SwappedOut(Look(old(entries), Key(pgn)), swptyp, swpoff)]
      ensures r == 0 ==> history == old(history) + [(pgn, SwappedOut(Look(old(entries), Key(pgn)), swptyp, swpoff))]
      ensures r == 0 && mallocs == old(mallocs) ==> forall p: Word :: MissingFor(p) == old(MissingFor(p))
      ensures r == 0 ==> mallocs == old(mallocs) - old(MissingFor(pgn))
      ensures r != 0 ==> r == -1 && entries == old(entries) && history == old(history)
    {
      var pt := Navigate(pgn);
      if pt == 0 {
        return -1;
      }
      var pte := Load(pgn, pt);
      pte := SetPresent(pte);
      pte := SetSwapped(pte);
      pte := SetSwptyp(pte, swptyp);
      pte := SetSwpoff(pte, swpoff);
      Store(pgn, pt, pte);
      return 0;
    }

    /** A page that has a non-zero entry has all its tables. */
    lemma NothingMissing(pgn: Word)
      requires Valid() && Look(entries, Key(pgn)) != 0
      ensures pgd != 0 && MissingFor(pgn) == 0
    {
      var ix := Indices(pgn);
      IndicesAreDigits(pgn);
      assert Walk(tables, pgd, ix) != 0;
      FullWalk(tables, pgd, ix);
    }

    // ---------- Release ----------

    /** free(): only a table that is still allocated may be passed. */
    method Free(a: nat)
      requires a in tables
      modifies `tables, `freed
      ensures tables == old(tables) - {a} && freed == old(freed) + multiset{a}
    {
      tables := tables - {a};
      freed := freed + multiset{a};
    }

    /** The loops over one table: every table below it is freed and its entry cleared. */
    method FreeBelow(ghost h: Heap, ghost root: nat, ghost s: Shape, a: nat, level: nat)
      requires TreeOk(h, root, s) && a in h && |s.path[a]| == level < 4
      requires Intact(tables, h, s, a)
      modifies `tables, `freed
      ensures tables - {a} == old(tables) - Subtree(h, s, a, TABLE_SIZE) - {a}
      ensures a in tables
      ensures freed == old(freed) + multiset(Subtree(h, s, a, TABLE_SIZE))
      decreases 4 - level, 0
    {
      var i := 0;
      ghost var t0 := tables;
      assert Subtree(h, s, a, 0) == {};
      while i < TABLE_SIZE
        invariant 0 <= i <= TABLE_SIZE
        invariant tables - {a} == t0 - Subtree(h, s, a, i) - {a}
        invariant a in tables && |tables[a]| == TABLE_SIZE
        invariant tables[a][i..] == h[a][i..]
        invariant freed == old(freed) + multiset(Subtree(h, s, a, i))
      {
        FreeEntry(h, root, s, t0, old(freed), a, i, level);
        i := i + 1;
      }
    }

    method FreeEntry(ghost h: Heap, ghost root: nat, ghost s: Shape, ghost t0: Heap, ghost f0: multiset<nat>,
                     a: nat, i: nat, level: nat)
      requires TreeOk(h, root, s) && a in h && |s.path[a]| == level < 4 && i < TABLE_SIZE
      requires Intact(t0, h, s, a)
      requires tables - {a} == t0 - Subtree(h, s, a, i) - {a}
      requires a in tables && |tables[a]| == TABLE_SIZE && tables[a][i..] == h[a][i..]
      requires freed == f0 + multiset(Subtree(h, s, a, i))
      modifies `tables, `freed
      ensures tables - {a} == t0 - Subtree(h, s, a, i + 1) - {a}
      ensures a in tables && |tables[a]| == TABLE_SIZE && tables[a][i + 1..] == h[a][i + 1..]
      ensures freed == f0 + multiset(Subtree(h, s, a, i + 1))
      decreases 3 - level, 2
    {
      SubtreeOneMore(h, root, s, a, i);
      ghost var t1 := tables;
      var b := tables[a][i];
      assert b == h[a][i] && h[a][i + 1..] == h[a][i..][1..] && t1[a][i + 1..] == t1[a][i..][1..];
      if b != 0 {
        IntactBelow(h, root, s, t0, tables, a, i);
        FreeTable(h, root, s, b, level + 1);
        assert a in tables && tables[a] == t1[a];
        var t: seq<nat> := tables[a][i := 0];
        tables := tables[a := t];
        OneMoreFreed(t0, t1, tables, a, Subtree(h, s, a, i), Subtree(h, s, b, TABLE_SIZE), b);
      }
    }

    /** A table is freed after all that lies below it. */
    method FreeTable(ghost h: Heap, ghost root: nat, ghost s: Shape, b: nat, level: nat)
      requires TreeOk(h, root, s) && b in h && |s.path[b]| == level <= 4
      requires Intact(tables, h, s, b)
      modifies `tables, `freed
      ensures tables == old(tables) - Subtree(h, s, b, TABLE_SIZE) - {b}
      ensures freed == old(freed) + multiset(Subtree(h, s, b, TABLE_SIZE)) + multiset{b}
      decreases 4 - level, 1
    {
      if level < 4 {
        FreeBelow(h, root, s, b, level);
      } else {
        NothingBelowEntries(h, root, s, b);
      }
      Free(b);
    }

    /** The page-table part of free_mm. */
    method FreeMm()
      requires Valid()
      modifies this
      ensures Valid() && pgd == 0 && tables == map[]
      ensures freed == old(freed) + multiset(old(tables.Keys))
    {
      if pgd != 0 {
        assert TableOk(tables, pgd, shape, pgd);
        AllBelowRoot(tables, pgd, shape);
        FreeTable(tables, pgd, shape, pgd, 0);
        pgd := 0;
        entries, history := map[], [];
        assert tables == map[];
      }
    }
  }

  /** In the heap `t`, `a` and the tables below it are still as free_mm found them in `h`. */
  ghost predicate Intact(t: Heap, h: Heap, s: Shape, a: nat)
    requires a in h && s.path.Keys == h.Keys
  {
    && a in t && t[a] == h[a]
    && forall c :: c in Subtree(h, s, a, TABLE_SIZE) ==> c in t && t[c] == h[c]
  }

  lemma IntactBelow(h: Heap, root: nat, s: Shape, t0: Heap, t: Heap, a: nat, i: nat)
    requires TreeOk(h, root, s) && a in h && |s.path[a]| < 4 && i < TABLE_SIZE && h[a][i] != 0
    requires Intact(t0, h, s, a)
    requires t - {a} == t0 - Subtree(h, s, a, i) - {a}
    ensures h[a][i] in h && Intact(t, h, s, h[a][i])
  {
    SubtreeOneMore(h, root, s, a, i);
    var b := h[a][i];
    forall c | c == b || c in Subtree(h, s, b, TABLE_SIZE)
      ensures c in t && t[c] == h[c]
    {
      assert c in Subtree(h, s, a, i + 1);
      assert c != a;
      assert c in t0 - Subtree(h, s, a, i) - {a};
      assert (t - {a})[c] == t0[c];
    }
  }

  lemma OneMoreFreed(t0: Heap, t1: Heap, t2: Heap, a: nat, done: set<nat>, below: set<nat>, b: nat)
    requires t1 - {a} == t0 - done - {a} && t2 - {a} == t1 - below - {b} - {a}
    requires done !! below && b !in done && b !in below
    ensures t2 - {a} == t0 - (done + below + {b}) - {a}
    ensures multiset(done + below + {b}) == multiset(done) + multiset(below) + multiset{b}
  {
    assert t1 - below - {b} - {a} == (t1 - {a}) - below - {b};
    assert (t0 - done - {a}) - below - {b} == t0 - (done + below + {b}) - {a};
  }

  /** The entries after the writes `h`. */
  function Replay(h: seq<(Word, Word)>): (m: map<nat, Word>) {
    if h == [] then map[] else Replay(h[..|h| - 1])[Key(h[|h| - 1].0) := h[|h| - 1].1]
  }

  /** The last entry written under the five indices of `pgn`, 0 if there is none. */
  function LastWritten(h: seq<(Word, Word)>, pgn: Word): (w: Word) {
    if h == [] then 0
    else if Indices(h[|h| - 1].0) == Indices(pgn) then h[|h| - 1].1
    else LastWritten(h[..|h| - 1], pgn)
  }

  lemma ReplayOneMore(h: seq<(Word, Word)>, pgn: Word, v: Word)
    ensures Replay(h + [(pgn, v)]) == Replay(h)[Key(pgn) := v]
  {
    assert (h + [(pgn, v)])[..|h|] == h;
  }

  /** A write to the table of a page's entry is an update of the map. */
  lemma WriteMeans(h: Heap, root: nat, s: Shape, m: map<nat, Word>, leaf: nat, pgn: Word, v: Word)
    requires TreeOk(h, root, s) && Means(h, root, m) && leaf in h && s.path[leaf] == Indices(pgn)[..4]
    ensures Means(Write(h, leaf, Indices(pgn)[4], v), root, m[Key(pgn) := v])
  {
    var i := Indices(pgn)[4];
    IndicesAreDigits(pgn);
    assert TableOk(h, root, s, root);
    forall ix: seq<nat> | |ix| == 5 && Digits(ix)
      ensures Walk(Write(h, leaf, i, v), root, ix) == Look(m[Key(pgn) := v], KeyOf(ix))
    {
      WriteReads(h, root, s, leaf, i, v, root, ix);
      assert [] + ix == ix && Indices(pgn)[..4] + [i] == Indices(pgn);
      if KeyOf(ix) == Key(pgn) {
        DigitsAreUnique(ix, Indices(pgn));
      }
    }
  }

  lemma WriteMissing(h: Heap, root: nat, s: Shape, leaf: nat, i: nat, v: Word)
    requires TreeOk(h, root, s) && leaf in h && |s.path[leaf]| == 4 && i < TABLE_SIZE
    ensures forall p: Word :: Missing(Write(h, leaf, i, v), root, Indices(p)[..4]) == Missing(h, root, Indices(p)[..4])
  {
    assert TableOk(h, root, s, root);
    forall p: Word
      ensures Missing(Write(h, leaf, i, v), root, Indices(p)[..4]) == Missing(h, root, Indices(p)[..4])
    {
      WriteKeepsMissing(h, root, s, leaf, i, v, root, Indices(p)[..4]);
    }
  }

  lemma {:induction false} LastWriteWins(h: seq<(Word, Word)>, pgn: Word)
    ensures Look(Replay(h), Key(pgn)) == LastWritten(h, pgn)
  {
    if h != [] {
      LastWriteWins(h[..|h| - 1], pgn);
      SameEntry(h[|h| - 1].0, pgn);
    }
  }

  lemma {:induction false} FullWalk(h: Heap, t: nat, ix: seq<nat>)
    requires ix != [] && Walk(h, t, ix) != 0 && 0 !in h
    ensures Missing(h, t, ix[..|ix| - 1]) == 0
    decreases |ix|
  {
    if |ix| > 1 {
      FullWalk(h, h[t][ix[0]], ix[1..]);
      assert ix[..|ix| - 1][1..] == ix[1..][..|ix| - 2];
    }
  }

  lemma {:induction false} FreshAddress(used: set<nat>)
    ensures exists b: nat :: b != 0 && b !in used
  {
    var m := LargestOf(used);
    assert m + 1 != 0 && m + 1 !in used;
  }

  lemma {:induction false} LargestOf(used: set<nat>) returns (m: nat)
    ensures forall a :: a in used ==> a <= m
  {
    m := 0;
    if used != {} {
      var x :| x in used;
      var y := LargestOf(used - {x});
      m := if x > y then x else y;
      forall a | a in used
        ensures a <= m
      {
        assert a == x || a in used - {x};
      }
    }
  }
}
