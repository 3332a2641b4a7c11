/** The five-level page table as a heap of 512-entry tables that hold each other's
    addresses, 0 standing for NULL, and the map from keys to entries that it means. */
module Radix {
  import opened Words

  /** The malloc'ed tables by address. */
  type Heap = map<nat, seq<nat>>

  /** History of a tree: the index path to each table and the table it hangs in. */
  datatype Shape = Shape(path: map<nat, seq<nat>>, up: map<nat, nat>)

  ghost predicate Sized(h: Heap) {
    forall a :: a in h ==> |h[a]| == TABLE_SIZE
  }

  /** A table of `level` 4 holds entries, one of a lower level holds tables. */
  ghost predicate TableOk(h: Heap, root: nat, s: Shape, a: nat)
    requires a in h && s.path.Keys == h.Keys && Sized(h)
  {
    && |s.path[a]| <= 4 && (s.path[a] == [] <==> a == root)
    && (a != root ==> Hangs(h, s, a))
    && (|s.path[a]| == 4 ==> forall i :: 0 <= i < TABLE_SIZE ==> h[a][i] < WORD_LIMIT)
    && (|s.path[a]| < 4 ==> forall i :: 0 <= i < TABLE_SIZE && h[a][i] != 0 ==>
          h[a][i] in h && s.path[h[a][i]] == s.path[a] + [i])
  }

  /** The table is the one its parent holds at the last index of its path. */
  ghost predicate Hangs(h: Heap, s: Shape, a: nat)
    requires a in h && s.path.Keys == h.Keys && Sized(h)
  {
    && a in s.up && s.up[a] in h && |s.path[a]| >= 1
    && var i := s.path[a][|s.path[a]| - 1];
    && i < TABLE_SIZE && s.path[a] == s.path[s.up[a]] + [i]
    && h[s.up[a]][i] == a
  }

  ghost predicate TreeOk(h: Heap, root: nat, s: Shape) {
    && s.path.Keys == h.Keys && 0 !in h && root in h && Sized(h)
    && forall a {:trigger TableOk(h, root, s, a)} :: a in h ==> TableOk(h, root, s, a)
  }

  /** Two tables never share a path: the tables form a tree. */
  lemma {:induction false} PathsAreUnique(h: Heap, root: nat, s: Shape, a: nat, b: nat)
    requires TreeOk(h, root, s) && a in h && b in h && s.path[a] == s.path[b]
    ensures a == b
    decreases |s.path[a]|
  {
    assert TableOk(h, root, s, a) && TableOk(h, root, s, b);
    if a != root {
      var p := s.path[a];
      assert s.path[s.up[a]] == p[..|p| - 1] == s.path[s.up[b]];
      PathsAreUnique(h, root, s, s.up[a], s.up[b]);
    }
  }

  // ---------- Reading ----------

  /** Follows the indices `ix` from table `t`; a missing table reads as 0. */
  function Walk(h: Heap, t: nat, ix: seq<nat>): nat
    decreases |ix|
  {
    if t !in h || ix == [] || ix[0] >= |h[t]| then 0
    else if |ix| == 1 then h[t][ix[0]]
    else Walk(h, h[t][ix[0]], ix[1..])
  }

  ghost predicate Digits(ix: seq<nat>) {
    forall i :: 0 <= i < |ix| ==> ix[i] < TABLE_SIZE
  }

  /** Tables still missing on the way from `t` along `ix`. */
  function Missing(h: Heap, t: nat, ix: seq<nat>): nat
    decreases |ix|
  {
    if t !in h || ix == [] || ix[0] >= |h[t]| then 0
    else if h[t][ix[0]] == 0 then |ix|
    else Missing(h, h[t][ix[0]], ix[1..])
  }

  lemma {:induction false} MissingAtMost(h: Heap, t: nat, ix: seq<nat>)
    ensures Missing(h, t, ix) <= |ix|
    decreases |ix|
  {
    if !(t !in h || ix == [] || ix[0] >= |h[t]|) && h[t][ix[0]] != 0 {
      MissingAtMost(h, h[t][ix[0]], ix[1..]);
    }
  }

  /** The entry a map holds for a key; untouched keys read as 0. */
  function Look(m: map<nat, Word>, k: nat): Word {
    if k in m then m[k] else 0
  }

  /** The tree reads as the map, on every key. */
  ghost predicate Means(h: Heap, root: nat, m: map<nat, Word>) {
    forall ix: seq<nat> :: |ix| == 5 && Digits(ix) ==> Walk(h, root, ix) == Look(m, KeyOf(ix))
  }

  // ---------- A new table ----------

  function ZeroTable(): (t: seq<nat>)
    ensures |t| == TABLE_SIZE && forall i :: 0 <= i < TABLE_SIZE ==> t[i] == 0
  {
    seq(TABLE_SIZE, _ => 0)
  }

  /** Address `b` is malloc'ed, zeroed and hung into table `a` at index `i`. */
  function Hang(h: Heap, a: nat, i: nat, b: nat): Heap
    requires a in h && i < |h[a]|
  {
    var t: seq<nat> := h[a][i := b];
    h[a := t][b := ZeroTable()]
  }

  function HangShape(s: Shape, a: nat, i: nat, b: nat): Shape
    requires a in s.path
  {
    Shape(s.path[b := s.path[a] + [i]], s.up[b := a])
  }

  lemma HangKeepsTable(h: Heap, root: nat, s: Shape, a: nat, i: nat, b: nat, c: nat)
    requires TreeOk(h, root, s) && a in h && |s.path[a]| < 4 && i < TABLE_SIZE
    requires h[a][i] == 0 && b != 0 && b !in h && c in h
    ensures TableOk(Hang(h, a, i, b), root, HangShape(s, a, i, b), c)
  {
    var h1, s1 := Hang(h, a, i, b), HangShape(s, a, i, b);
    assert TableOk(h, root, s, c);
    if c != root {
      assert Hangs(h, s, c);
      var x := s.path[c][|s.path[c]| - 1];
      assert s.up[c] == a ==> x != i;
      assert h1[s1.up[c]][x] == c;
      assert Hangs(h1, s1, c);
    }
  }

  lemma HangKeepsTree(h: Heap, root: nat, s: Shape, a: nat, i: nat, b: nat)
    requires TreeOk(h, root, s) && a in h && |s.path[a]| < 4 && i < TABLE_SIZE
    requires h[a][i] == 0 && b != 0 && b !in h
    ensures TreeOk(Hang(h, a, i, b), root, HangShape(s, a, i, b))
  {
    var h1, s1 := Hang(h, a, i, b), HangShape(s, a, i, b);
    assert Hangs(h1, s1, b) && TableOk(h1, root, s1, b);
    forall c | c in h1
      ensures TableOk(h1, root, s1, c)
    {
      if c != b {
        HangKeepsTable(h, root, s, a, i, b, c);
      }
    }
  }

  lemma {:induction false} HangReadsTheSame(h: Heap, root: nat, s: Shape, a: nat, i: nat, b: nat, t: nat, ix: seq<nat>)
    requires TreeOk(h, root, s) && a in h && |s.path[a]| < 4 && i < TABLE_SIZE
    requires h[a][i] == 0 && b != 0 && b !in h
    requires t in h && Digits(ix) && |s.path[t]| + |ix| == 5
    ensures Walk(Hang(h, a, i, b), t, ix) == Walk(h, t, ix)
    decreases |ix|
  {
    var h1 := Hang(h, a, i, b);
    assert TableOk(h, root, s, t);
    if |ix| > 1 {
      var u := h[t][ix[0]];
      if t == a && ix[0] == i {
        assert h1[t][ix[0]] == b && h1[b] == ZeroTable();
        assert Walk(h, t, ix) == 0;
        if |ix| > 2 {
          assert Walk(h1, b, ix[1..]) == Walk(h1, 0, ix[1..][1..]);
        }
      } else {
        assert h1[t][ix[0]] == u;
        if u != 0 {
          HangReadsTheSame(h, root, s, a, i, b, u, ix[1..]);
        }
      }
    }
  }

  // ---------- A new entry ----------

  function Write(h: Heap, leaf: nat, i: nat, v: Word): Heap
    requires leaf in h && i < |h[leaf]|
  {
    var t: seq<nat> := h[leaf][i := v];
    h[leaf := t]
  }

  lemma WriteKeepsTable(h: Heap, root: nat, s: Shape, leaf: nat, i: nat, v: Word, c: nat)
    requires TreeOk(h, root, s) && leaf in h && |s.path[leaf]| == 4 && i < TABLE_SIZE && c in h
    ensures TableOk(Write(h, leaf, i, v), root, s, c)
  {
    var h1 := Write(h, leaf, i, v);
    assert TableOk(h, root, s, c);
    if c != root {
      assert Hangs(h, s, c);
      assert TableOk(h, root, s, s.up[c]) && |s.path[s.up[c]]| < 4;
      assert h1[s.up[c]] == h[s.up[c]];
      assert Hangs(h1, s, c);
    }
    if c == leaf {
      assert forall x :: 0 <= x < TABLE_SIZE ==> h1[c][x] == if x == i then v else h[c][x];
    } else {
      assert h1[c] == h[c];
    }
  }

  lemma WriteKeepsTree(h: Heap, root: nat, s: Shape, leaf: nat, i: nat, v: Word)
    requires TreeOk(h, root, s) && leaf in h && |s.path[leaf]| == 4 && i < TABLE_SIZE
    ensures TreeOk(Write(h, leaf, i, v), root, s)
  {
    var h1 := Write(h, leaf, i, v);
    forall c | c in h1
      ensures TableOk(h1, root, s, c)
    {
      WriteKeepsTable(h, root, s, leaf, i, v, c);
    }
  }

  /** A write is seen on exactly its own path. */
  lemma {:induction false} WriteReads(h: Heap, root: nat, s: Shape, leaf: nat, i: nat, v: Word, t: nat, ix: seq<nat>)
    requires TreeOk(h, root, s) && leaf in h && |s.path[leaf]| == 4 && i < TABLE_SIZE
    requires t in h && Digits(ix) && |s.path[t]| + |ix| == 5
    ensures Walk(Write(h, leaf, i, v), t, ix) ==
            if s.path[t] + ix == s.path[leaf] + [i] then v else Walk(h, t, ix)
    decreases |ix|
  {
    var h1 := Write(h, leaf, i, v);
    assert TableOk(h, root, s, t);
    if |ix| == 1 {
      if s.path[t] == s.path[leaf] {
        PathsAreUnique(h, root, s, t, leaf);
      }
      var p, q := s.path[t] + ix, s.path[leaf] + [i];
      assert p == q ==> p[..4] == q[..4] && p[4] == q[4];
      assert p[..4] == s.path[t] && q[..4] == s.path[leaf];
      assert t == leaf && ix[0] == i ==> p == q;
    } else {
      assert t != leaf;
      var u := h[t][ix[0]];
      if u != 0 {
        assert (s.path[t] + [ix[0]]) + ix[1..] == s.path[t] + ix;
        WriteReads(h, root, s, leaf, i, v, u, ix[1..]);
      } else {
        assert s.path[t] + ix != s.path[leaf] + [i] by {
          if s.path[t] + ix == s.path[leaf] + [i] {
            var n := |s.path[t]|;
            assert s.path[leaf][..n + 1] == (s.path[t] + ix)[..n + 1] == s.path[t] + [ix[0]];
            NextOnPath(h, root, s, leaf, t, ix[0]);
          }
        }
      }
    }
  }

  /** A write to a table of entries takes no table away and adds none. */
  lemma {:induction false} WriteKeepsMissing(h: Heap, root: nat, s: Shape, leaf: nat, i: nat, v: Word, t: nat,
                                             ix: seq<nat>)
    requires TreeOk(h, root, s) && leaf in h && |s.path[leaf]| == 4 && i < TABLE_SIZE
    requires t in h && Digits(ix) && |s.path[t]| + |ix| == 4
    ensures Missing(Write(h, leaf, i, v), t, ix) == Missing(h, t, ix)
    decreases |ix|
  {
    assert TableOk(h, root, s, t);
    if ix != [] {
      assert t != leaf;
      if h[t][ix[0]] != 0 {
        WriteKeepsMissing(h, root, s, leaf, i, v, h[t][ix[0]], ix[1..]);
      }
    }
  }

  /** A table that lies on the path of another leads on towards it. */
  lemma NextOnPath(h: Heap, root: nat, s: Shape, a: nat, t: nat, x: nat)
    requires TreeOk(h, root, s) && a in h && t in h && |s.path[t]| < |s.path[a]| && x < TABLE_SIZE
    requires s.path[a][..|s.path[t]| + 1] == s.path[t] + [x]
    ensures h[t][x] != 0
  {
    var n := |s.path[t]| + 1;
    PathExists(h, root, s, a, n);
    var c := Ancestor(h, root, s, a, n);
    assert TableOk(h, root, s, c) && Hangs(h, s, c);
    assert s.path[s.up[c]] == s.path[c][..n - 1] == s.path[t];
    PathsAreUnique(h, root, s, s.up[c], t);
  }

  /** The table `n` levels down on the way to `a`. */
  ghost function Ancestor(h: Heap, root: nat, s: Shape, a: nat, n: nat): (c: nat)
    requires TreeOk(h, root, s) && a in h && n <= |s.path[a]|
    ensures c in h
    decreases |s.path[a]|
  {
    assert TableOk(h, root, s, a);
    if n == |s.path[a]| then a else Ancestor(h, root, s, s.up[a], n)
  }

  lemma {:induction false} PathExists(h: Heap, root: nat, s: Shape, a: nat, n: nat)
    requires TreeOk(h, root, s) && a in h && n <= |s.path[a]|
    ensures s.path[Ancestor(h, root, s, a, n)] == s.path[a][..n]
    decreases |s.path[a]|
  {
    assert TableOk(h, root, s, a);
    if n < |s.path[a]| {
      PathExists(h, root, s, s.up[a], n);
      assert s.path[a][..n] == s.path[s.up[a]][..n];
    } else {
      assert s.path[a][..n] == s.path[a];
    }
  }

  // ---------- Releasing ----------

  /** Table `c` lies strictly below table `a`, in the subtree of an index less than `n`. */
  ghost predicate Below(s: Shape, a: nat, n: nat, c: nat)
    requires a in s.path && c in s.path
  {
    && |s.path[a]| < |s.path[c]|
    && s.path[c][..|s.path[a]|] == s.path[a]
    && s.path[c][|s.path[a]|] < n
  }

  /** The tables below `a` in the subtrees of its first `n` indices. */
  ghost function Subtree(h: Heap, s: Shape, a: nat, n: nat): (t: set<nat>)
    requires s.path.Keys == h.Keys && a in h
  {
    set c | c in h && Below(s, a, n, c)
  }

  /** One more index covers exactly the child found there, if any, and all below it. */
  lemma SubtreeOneMore(h: Heap, root: nat, s: Shape, a: nat, i: nat)
    requires TreeOk(h, root, s) && a in h && |s.path[a]| < 4 && i < TABLE_SIZE
    ensures h[a][i] == 0 ==> Subtree(h, s, a, i + 1) == Subtree(h, s, a, i)
    ensures h[a][i] != 0 ==>
              && h[a][i] in h && s.path[h[a][i]] == s.path[a] + [i]
              && Subtree(h, s, a, i + 1) == Subtree(h, s, a, i) + Subtree(h, s, h[a][i], TABLE_SIZE) + {h[a][i]}
              && Subtree(h, s, a, i) !! Subtree(h, s, h[a][i], TABLE_SIZE)
              && h[a][i] !in Subtree(h, s, a, i) && h[a][i] !in Subtree(h, s, h[a][i], TABLE_SIZE)
              && a !in Subtree(h, s, h[a][i], TABLE_SIZE)
  {
    assert TableOk(h, root, s, a);
    forall c | c in h
      ensures Below(s, a, i + 1, c) <==>
              Below(s, a, i, c) || (h[a][i] != 0 && (c == h[a][i] || Below(s, h[a][i], TABLE_SIZE, c)))
      ensures h[a][i] != 0 && Below(s, h[a][i], TABLE_SIZE, c) ==> !Below(s, a, i, c)
    {
      BelowOneMore(h, root, s, a, i, c);
    }
  }

  lemma BelowOneMore(h: Heap, root: nat, s: Shape, a: nat, i: nat, c: nat)
    requires TreeOk(h, root, s) && a in h && c in h && |s.path[a]| < 4 && i < TABLE_SIZE
    requires h[a][i] != 0 ==> h[a][i] in h && s.path[h[a][i]] == s.path[a] + [i]
    ensures Below(s, a, i + 1, c) <==>
            Below(s, a, i, c) || (h[a][i] != 0 && (c == h[a][i] || Below(s, h[a][i], TABLE_SIZE, c)))
    ensures h[a][i] != 0 && Below(s, h[a][i], TABLE_SIZE, c) ==> !Below(s, a, i, c)
  {
    assert TableOk(h, root, s, a) && TableOk(h, root, s, c);
    var b, p, n := h[a][i], s.path[a], |s.path[a]|;
    if b != 0 {
      var q := s.path[b];
      assert q[..n] == p;
      if Below(s, b, TABLE_SIZE, c) {
        assert s.path[c][..n] == s.path[c][..n + 1][..n] == p;
        assert s.path[c][n] == s.path[c][..n + 1][n] == i;
      }
    }
    if Below(s, a, i + 1, c) && !Below(s, a, i, c) {
      assert s.path[c][..n + 1] == p + [i];
      NextOnPath(h, root, s, c, a, i);
      if |s.path[c]| == n + 1 {
        assert s.path[c] == s.path[c][..n + 1];
        PathsAreUnique(h, root, s, b, c);
      } else {
        PathsAreDigits(h, root, s, c);
      }
    }
  }

  lemma {:induction false} PathsAreDigits(h: Heap, root: nat, s: Shape, a: nat)
    requires TreeOk(h, root, s) && a in h
    ensures Digits(s.path[a])
    decreases |s.path[a]|
  {
    assert TableOk(h, root, s, a);
    if a != root {
      PathsAreDigits(h, root, s, s.up[a]);
    }
  }

  /** Below the root lies every other table. */
  lemma AllBelowRoot(h: Heap, root: nat, s: Shape)
    requires TreeOk(h, root, s)
    ensures Subtree(h, s, root, TABLE_SIZE) == h.Keys - {root}
  {
    forall c | c in h
      ensures Below(s, root, TABLE_SIZE, c) <==> c != root
    {
      assert TableOk(h, root, s, c) && TableOk(h, root, s, root);
      PathsAreDigits(h, root, s, c);
    }
  }

  /** Nothing lies below a table of entries. */
  lemma NothingBelowEntries(h: Heap, root: nat, s: Shape, a: nat)
    requires TreeOk(h, root, s) && a in h && |s.path[a]| == 4
    ensures Subtree(h, s, a, TABLE_SIZE) == {}
  {
    forall c | c in h
      ensures !Below(s, a, TABLE_SIZE, c)
    {
      assert TableOk(h, root, s, c);
    }
  }
}
