/** The list of memory areas of a process, src/mm-vm.c, on values. */
module Areas {
  import opened Wrappers
  import opened Words
  import opened Regions

  datatype Area = Area(id: nat, start: Word, end: Word, sbrk: Word)

  /** The OVERLAP test of include/mm.h. */
  predicate Overlap(a: Area, b: Area) {
    a.start < b.end && b.start < a.end
  }

  predicate InArea(a: Area, x: int) {
    a.start <= x < a.end
  }

  /** For areas with bytes it means a shared address. */
  lemma OverlapIsShared(a: Area, b: Area)
    requires a.start < a.end && b.start < b.end
    ensures Overlap(a, b) <==> exists x :: InArea(a, x) && InArea(b, x)
  {
    if Overlap(a, b) {
      var x := if a.start <= b.start then b.start else a.start;
      assert InArea(a, x) && InArea(b, x);
    }
  }

  ghost predicate Apart(l: seq<Area>) {
    forall i, j :: 0 <= i < j < |l| ==> !Overlap(l[i], l[j])
  }

  ghost predicate Ordered(l: seq<Area>) {
    forall i, j :: 0 <= i < j < |l| ==> l[i].id <= l[j].id
  }

  /** get_vma_by_num: the first area with at least the given number. */
  function Find(l: seq<Area>, vmaid: nat): (i: Option<nat>)
    ensures i.Some? ==> i.value < |l| && l[i.value].id >= vmaid
                        && forall j :: 0 <= j < i.value ==> l[j].id < vmaid
    ensures i.None? ==> forall j :: 0 <= j < |l| ==> l[j].id < vmaid
  {
    if l == [] then None
    else if l[0].id >= vmaid then Some(0)
    else match Find(l[1..], vmaid)
      case None => None
      case Some(i) => Some(i + 1)
  }

  /** On an ordered list it is the area itself, when the number is in use. */
  lemma FindsTheArea(l: seq<Area>, i: nat)
    requires Ordered(l) && i < |l|
    ensures Find(l, l[i].id).Some? && l[Find(l, l[i].id).value].id == l[i].id
  {
  }

  // ---------- Growth ----------

  function Extended(a: Area, inc: Word): (b: Area) {
    a.(end := Plus(a.end, Aligned(inc)), sbrk := Plus(a.sbrk, inc))
  }

  /** validate_overlap_vm_area for area `i`. */
  ghost predicate Clear(l: seq<Area>, i: nat)
    requires i < |l|
  {
    && l[i].start < l[i].end
    && forall j :: 0 <= j < |l| && j != i ==> !Overlap(l[i], l[j])
  }

  /** inc_vma_limit: the area is extended, or everything is as before and the result is -1. */
  ghost function IncLimit(l: seq<Area>, i: nat, inc: Word): (r: (seq<Area>, int))
    requires i < |l|
    ensures |r.0| == |l|
  {
    if Clear(l[i := Extended(l[i], inc)], i) then (l[i := Extended(l[i], inc)], 0) else (l, -1)
  }

  /** A growth keeps areas apart and in order; it is refused exactly when the extended area
      would have no bytes or run into another one, and then nothing has changed. */
  lemma IncLimitKeeps(l: seq<Area>, i: nat, inc: Word)
    requires i < |l| && Apart(l) && Ordered(l)
    ensures var (m, r) := IncLimit(l, i, inc);
            && Apart(m) && Ordered(m)
            && (r == 0 <==> Extended(l[i], inc).start < Extended(l[i], inc).end
                            && forall j :: 0 <= j < |l| && j != i ==> !Overlap(Extended(l[i], inc), l[j]))
            && (r != 0 ==> r == -1 && m == l)
  {
    var e := l[i := Extended(l[i], inc)];
    assert forall j :: 0 <= j < |l| && j != i ==> e[j] == l[j];
  }

  // ---------- A new area ----------

  /** Where add_vm_area links a new area: in front of a larger head, else behind the head
      and all areas after it with smaller numbers. */
  function Position(l: seq<Area>, id: nat): (p: nat)
    ensures p <= |l| && (p == 0 <==> l == [] || l[0].id > id)
    ensures forall j :: 0 < j < p ==> l[j].id < id
    ensures 0 < p < |l| ==> l[p].id >= id
  {
    if l == [] || l[0].id > id then 0 else 1 + Smaller(l[1..], id)
  }

  function Smaller(l: seq<Area>, id: nat): (n: nat)
    ensures n <= |l|
    ensures forall j :: 0 <= j < n ==> l[j].id < id
    ensures n < |l| ==> l[n].id >= id
  {
    if l == [] || l[0].id >= id then 0 else 1 + Smaller(l[1..], id)
  }

  function Inserted(l: seq<Area>, a: Area): (m: seq<Area>) {
    l[..Position(l, a.id)] + [a] + l[Position(l, a.id)..]
  }

  ghost predicate OverlapsNone(l: seq<Area>, a: Area) {
    forall j :: 0 <= j < |l| ==> !Overlap(l[j], a)
  }

  /** Inserting an area that overlaps none keeps the list apart and in order. */
  lemma InsertKeeps(l: seq<Area>, a: Area)
    requires Apart(l) && Ordered(l) && OverlapsNone(l, a)
    ensures Apart(Inserted(l, a)) && Ordered(Inserted(l, a))
  {
    var p := Position(l, a.id);
    if p > 0 {
      assert forall j :: 1 <= j < p ==> l[j] == l[1..][j - 1];
      assert p < |l| ==> l[p] == l[1..][p - 1];
    }
    assert forall j :: 0 <= j < p ==> l[j].id <= a.id;
    assert p < |l| ==> l[p].id >= a.id;
    Between(l, p, a);
  }

  lemma Between(l: seq<Area>, p: nat, a: Area)
    requires Apart(l) && Ordered(l) && p <= |l|
    requires OverlapsNone(l, a)
    requires forall j :: 0 <= j < p ==> l[j].id <= a.id
    requires p < |l| ==> l[p].id >= a.id
    ensures Apart(l[..p] + [a] + l[p..]) && Ordered(l[..p] + [a] + l[p..])
  {
    var m := l[..p] + [a] + l[p..];
    forall i, j | 0 <= i < j < |m|
      ensures !Overlap(m[i], m[j]) && m[i].id <= m[j].id
    {
      var x, y := if i < p then i else i - 1, if j < p then j else j - 1;
      assert i != p ==> m[i] == l[x];
      assert j != p ==> m[j] == l[y];
      assert i == p ==> l[p].id <= l[y].id;
    }
  }

  /** remove_vm_area takes out the first area with the number. */
  function Removed(l: seq<Area>, vmaid: nat): (m: seq<Area>) {
    if l == [] then [] else if l[0].id == vmaid then l[1..] else [l[0]] + Removed(l[1..], vmaid)
  }

  lemma {:induction false} RemovedIs(l: seq<Area>, vmaid: nat, p: nat)
    requires p <= |l| && (forall j :: 0 <= j < p ==> l[j].id != vmaid) && (p < |l| ==> l[p].id == vmaid)
    ensures Removed(l, vmaid) == if p < |l| then l[..p] + l[p + 1..] else l
  {
    if p > 0 {
      RemovedIs(l[1..], vmaid, p - 1);
    }
  }

  lemma {:induction false} RemoveKeeps(l: seq<Area>, vmaid: nat)
    requires Apart(l) && Ordered(l)
    ensures Apart(Removed(l, vmaid)) && Ordered(Removed(l, vmaid))
    ensures forall a :: a in Removed(l, vmaid) ==> a in l
  {
    if l != [] && l[0].id != vmaid {
      RemoveKeeps(l[1..], vmaid);
      var m := Removed(l[1..], vmaid);
      assert Removed(l, vmaid) == [l[0]] + m;
      forall j | 0 <= j < |m|
        ensures !Overlap(l[0], m[j]) && l[0].id <= m[j].id
      {
        assert m[j] in l[1..];
        var i :| 0 <= i < |l[1..]| && l[1..][i] == m[j];
        assert m[j] == l[i + 1];
      }
    }
  }
}
