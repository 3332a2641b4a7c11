/** vm_freerg_list: a linked list of regions, changed in place. */
module FreeList {
  import opened Wrappers
  import opened Words
  import opened Regions

  class RgNode {
    var rgStart: Word
    var rgEnd: Word
    var next: RgNode?
    ghost const list: RegionList    // the one list it is ever on

    constructor (rgStart: Word, rgEnd: Word, next: RgNode?, ghost list: RegionList)
      ensures this.rgStart == rgStart && this.rgEnd == rgEnd && this.next == next && this.list == list
    {
      this.rgStart, this.rgEnd, this.next, this.list := rgStart, rgEnd, next, list;
    }
  }

  /** The link that leads to position `i` of the list. */
  ghost function NodeAt(nodes: seq<RgNode>, i: nat): (n: RgNode?) {
    if i < |nodes| then nodes[i] else null
  }

  class RegionList {
    var head: RgNode?
    ghost var nodes: seq<RgNode>
    ghost var regions: seq<Rg>

    /** The nodes are linked in order and hold the regions. */
    ghost predicate Valid()
      reads this, nodes
    {
      && |nodes| == |regions|
      && (forall i, j :: 0 <= i < j < |nodes| ==> nodes[i] != nodes[j])
      && (forall i :: 0 <= i < |nodes| ==> nodes[i].list == this)
      && head == NodeAt(nodes, 0)
      && (forall i {:trigger nodes[i].next} :: 0 <= i < |nodes| ==> nodes[i].next == NodeAt(nodes, i + 1))
      && (forall i :: 0 <= i < |nodes| ==> regions[i] == Rg(nodes[i].rgStart, nodes[i].rgEnd))
    }

    constructor ()
      ensures Valid() && regions == [] && nodes == []
    {
      head, nodes, regions := null, [], [];
    }

    /** enlist_vm_freerg_list: a region without bytes is refused. */
    method Enlist(rgStart: Word, rgEnd: Word) returns (r: int)
      requires Valid()
      modifies this
      ensures Valid() && fresh(set n | n in nodes && n !in old(nodes))
      ensures r == if rgStart >= rgEnd then -1 else 0
      ensures regions == if r == 0 then [Rg(rgStart, rgEnd)] + old(regions) else old(regions)
    {
      if rgStart >= rgEnd {
        return -1;
      }
      head := new RgNode(rgStart, rgEnd, head, this);
      ghost var was := nodes;
      nodes := [head] + nodes;
      assert forall i :: 0 < i < |nodes| ==> nodes[i] == was[i - 1];
      regions := [Rg(rgStart, rgEnd)] + regions;
      return 0;
    }

    /** get_free_vmrg_area: first fit. A region used up is removed by copying the next node
        over its own, or becomes an empty region at the end of the list. */
    method GetFreeVmrgArea(size: Word) returns (r: int, newrg: Rg)
      requires Valid()
      modifies this, nodes
      ensures Valid() && forall n :: n in nodes ==> n in old(nodes)
      ensures r == 0 || r == -1
      ensures (regions, if r == 0 then Some(newrg) else None) == GetFree(old(regions), size)
    {
      var rgit := head;
      newrg := Rg(MAX_WORD, MAX_WORD);
      ghost var k := 0;
      while rgit != null && !(Plus(rgit.rgStart, ThroughInt(size)) <= rgit.rgEnd)
        invariant 0 <= k <= |nodes|
        invariant rgit == NodeAt(nodes, k)
        invariant forall i :: 0 <= i < k ==> !Fits(regions[i], size)
        decreases |nodes| - k
      {
        rgit := rgit.next;
        k := k + 1;
      }
      if rgit != null {
        FirstFitIs(regions, size, k);
        newrg := Rg(rgit.rgStart, Plus(rgit.rgStart, ThroughInt(size)));
        TakeFrom(rgit, k, size);
      }
      r := if newrg.start == MAX_WORD then -1 else 0;
    }

    /** Region `k` leaves the list: its node takes over the next one, which is freed. */
    method CloneNext(rgit: RgNode, nextrg: RgNode, ghost k: nat)
      requires Valid() && k + 1 < |nodes| && rgit == nodes[k] && nextrg == nodes[k + 1]
      modifies this, nodes
      ensures Valid() && nodes == old(nodes[..k + 1] + nodes[k + 2..])
      ensures regions == old(regions[..k] + regions[k + 1..])
    {
      ghost var was, regs := nodes, regions;
      assert rgit != nextrg && nextrg.next == NodeAt(nodes, k + 2);
      rgit.rgStart := nextrg.rgStart;
      rgit.rgEnd := nextrg.rgEnd;
      rgit.next := nextrg.next;
      DropNode(nodes, k + 1);
      nodes := nodes[..k + 1] + nodes[k + 2..];
      regions := regions[..k] + regions[k + 1..];
      forall i | 0 <= i < |nodes|
        ensures nodes[i].next == NodeAt(nodes, i + 1)
        ensures regions[i] == Rg(nodes[i].rgStart, nodes[i].rgEnd)
      {
        var x := if i <= k then i else i + 1;
        assert nodes[i] == was[x];
        assert x == k || regions[i] == regs[x];
        assert i == k ==> regions[i] == regs[k + 1];
      }
    }

    lemma DropNode(l: seq<RgNode>, x: nat)
      requires 0 < x < |l| && forall i, j :: 0 <= i < j < |l| ==> l[i] != l[j]
      ensures var m := l[..x] + l[x + 1..]; forall i, j :: 0 <= i < j < |m| ==> m[i] != m[j]
    {
    }

    /** The front of region `k` is taken, in node `rgit`. */
    method TakeFrom(rgit: RgNode, ghost k: nat, size: Word)
      requires Valid() && k < |nodes| && rgit == nodes[k]
      modifies this, nodes
      ensures Valid() && forall n :: n in nodes ==> n in old(nodes)
      ensures regions == Take(old(regions), k, size)
    {
      var next := Plus(rgit.rgStart, ThroughInt(size));
      if next < rgit.rgEnd {
        rgit.rgStart := next;
        regions := regions[k := Rg(next, regions[k].end)];
      } else {
        var nextrg := rgit.next;
        assert nextrg == NodeAt(nodes, k + 1);
        if nextrg != null {
          CloneNext(rgit, nextrg, k);
        } else {
          rgit.rgStart := rgit.rgEnd;
          rgit.next := null;
          regions := regions[k := Rg(regions[k].end, regions[k].end)];
        }
      }
    }
  }

  lemma FirstFitIs(l: seq<Rg>, size: Word, j: nat)
    requires j < |l| && Fits(l[j], size) && forall i :: 0 <= i < j ==> !Fits(l[i], size)
    ensures FirstFit(l, size) == Some(j)
  {
  }
}
