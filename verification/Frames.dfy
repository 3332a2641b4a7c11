/** A physical memory device as a value: its bytes and its list of free frames. */
module Frames {
  import opened Words

  type Byte = b: int | 0 <= b < 256

  datatype Dev = Dev(bytes: seq<Byte>, free: seq<nat>)

  /** Whole frames of the device; a trailing part of a frame is never handed out. */
  function FrameCount(d: Dev): nat {
    |d.bytes| / PAGING_PAGESZ
  }

  function ZeroPage(): (p: seq<Byte>)
    ensures |p| == PAGING_PAGESZ && forall j :: 0 <= j < |p| ==> p[j] == 0
  {
    seq(PAGING_PAGESZ, _ => 0)
  }

  function PageOf(d: Dev, f: nat): (p: seq<Byte>)
    requires f < FrameCount(d)
    ensures |p| == PAGING_PAGESZ
  {
    d.bytes[f * PAGING_PAGESZ..f * PAGING_PAGESZ + PAGING_PAGESZ]
  }

  /** Frame `f` gets the contents `p`. */
  function PutPage(d: Dev, f: nat, p: seq<Byte>): (e: Dev)
    requires f < FrameCount(d) && |p| == PAGING_PAGESZ
    ensures |e.bytes| == |d.bytes| && e.free == d.free
  {
    d.(bytes := d.bytes[..f * PAGING_PAGESZ] + p + d.bytes[f * PAGING_PAGESZ + PAGING_PAGESZ..])
  }

  lemma PutPageReads(d: Dev, f: nat, p: seq<Byte>, g: nat)
    requires f < FrameCount(d) && |p| == PAGING_PAGESZ && g < FrameCount(d)
    ensures PageOf(PutPage(d, f, p), g) == if g == f then p else PageOf(d, g)
  {
  }

  function PutByte(d: Dev, f: nat, off: nat, v: Byte): (e: Dev)
    requires f < FrameCount(d) && off < PAGING_PAGESZ
    ensures |e.bytes| == |d.bytes| && e.free == d.free
  {
    d.(bytes := d.bytes[f * PAGING_PAGESZ + off := v])
  }

  /** One byte write changes one byte of one frame. */
  lemma PutByteReads(d: Dev, f: nat, off: nat, v: Byte, g: nat)
    requires f < FrameCount(d) && off < PAGING_PAGESZ && g < FrameCount(d)
    ensures PageOf(PutByte(d, f, off, v), g) == if g == f then PageOf(d, f)[off := v] else PageOf(d, g)
  {
  }

  ghost predicate Distinct(s: seq<nat>) {
    forall i, j :: 0 <= i < j < |s| ==> s[i] != s[j]
  }
}
