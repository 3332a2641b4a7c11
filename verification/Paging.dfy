/** What the demand pager of src/libmem.c does, on values: the two devices and the page
    table and FIFO list of the calling process. Class Pager computes these functions. */
module Paging {
  import opened Wrappers
  import opened Words
  import opened Radix
  import opened Frames

  /** `fifo` is the resident list, newest page first. */
  datatype Proc = Proc(pt: map<nat, Word>, fifo: seq<Word>)

  /** What one process reaches. */
  datatype View = View(ram: Dev, swap: Dev, proc: Proc)

  /** Online: the page is in RAM. */
  predicate Online(w: Word) {
    IsPresent(w) && !IsSwapped(w)
  }

  function EntryOf(v: View, pgn: Word): (w: Word) {
    Look(v.proc.pt, Key(pgn))
  }

  /** The victim of FIFO replacement is at the end of the list. */
  function Victim(fifo: seq<Word>): (w: Word)
    requires fifo != []
  {
    fifo[|fifo| - 1]
  }

  /** Where the C code of pg_getpage is defined: an entry that is not present is not
      swapped, a victim is online in a frame that exists, free frames exist, and the list
      to search for a victim has no single element (src/libmem.c:552-559). */
  ghost predicate Ready(v: View, pgn: Word) {
    !IsPresent(EntryOf(v, pgn)) ==>
      && !IsSwapped(EntryOf(v, pgn))
      && (v.ram.free != [] ==> v.ram.free[0] < FrameCount(v.ram))
      && (v.ram.free == [] && v.proc.fifo != [] ==>
            && |v.proc.fifo| >= 2
            && Online(EntryOf(v, Victim(v.proc.fifo)))
            && Fpn(EntryOf(v, Victim(v.proc.fifo))) < FrameCount(v.ram)
            && (v.swap.free != [] ==> v.swap.free[0] < FrameCount(v.swap)))
  }

  /** The victim leaves the list for swap frame `v.swap.free[0]`. */
  function Evict(v: View): (e: View)
    requires v.proc.fifo != [] && v.swap.free != [] && v.swap.free[0] < FrameCount(v.swap)
    requires Fpn(EntryOf(v, Victim(v.proc.fifo))) < FrameCount(v.ram)
  {
    var vic, out := Victim(v.proc.fifo), v.swap.free[0];
    View(v.ram,
         PutPage(v.swap.(free := v.swap.free[1..]), out, PageOf(v.ram, Fpn(EntryOf(v, vic)))),
         Proc(v.proc.pt[Key(vic) := SwappedOut(EntryOf(v, vic), 0, out)], v.proc.fifo[..|v.proc.fifo| - 1]))
  }

  /** The frame for a new page and the state once it is in hand; on failure the state
      left behind: a victim that found SWAP full is off the list all the same. */
  function Obtain(v: View): (r: (View, Option<nat>))
    requires v.ram.free == [] && v.proc.fifo != [] ==> Fpn(EntryOf(v, Victim(v.proc.fifo))) < FrameCount(v.ram)
    requires v.ram.free == [] && v.proc.fifo != [] && v.swap.free != [] ==> v.swap.free[0] < FrameCount(v.swap)
  {
    if v.ram.free != [] then (v.(ram := v.ram.(free := v.ram.free[1..])), Some(v.ram.free[0]))
    else if v.proc.fifo == [] then (v, None)
    else if v.swap.free == [] then (v.(proc := v.proc.(fifo := v.proc.fifo[..|v.proc.fifo| - 1])), None)
    else (Evict(v), Some(Fpn(EntryOf(v, Victim(v.proc.fifo)))))
  }

  /** The new page is zero-filled, mapped and listed. `tabled` says whether pte_set_fpn
      found memory for its tables: its result is not looked at. */
  function Load(v: View, pgn: Word, f: nat, tabled: bool): (r: View)
    requires f < FrameCount(v.ram)
  {
    View(PutPage(v.ram, f, ZeroPage()), v.swap,
         Proc(if tabled then v.proc.pt[Key(pgn) := OnLine(EntryOf(v, pgn), f)] else v.proc.pt,
              [pgn] + v.proc.fifo))
  }

  /** pg_getpage: the new state and the frame returned, if any. */
  function GetPage(v: View, pgn: Word, tabled: bool): (r: (View, Option<nat>))
    requires Ready(v, pgn)
  {
    if IsPresent(EntryOf(v, pgn)) then (v, Some(Fpn(EntryOf(v, pgn))))
    else
      var (u, f) := Obtain(v);
      if f.None? then (u, None)
      else
        var w := Load(u, pgn, f.value, tabled);
        (w, Some(Fpn(EntryOf(w, pgn))))
  }

  /** The physical address, src/libmem.c:350 and 382. */
  function Phys(f: nat, addr: Word): (a: nat) {
    f * PAGING_PAGESZ + Offst(addr)
  }

  /** MEMPHY_write at a physical address. */
  function Poke(d: Dev, a: nat, b: Byte): (e: Dev)
    ensures |e.bytes| == |d.bytes|
  {
    if a < |d.bytes| then d.(bytes := d.bytes[a := b]) else d
  }

  /** pg_setval: the new state and whether it succeeded. `dirtied` says whether
      pte_set_entry found memory for tables; its result is not looked at either. */
  function SetVal(v: View, addr: Word, b: Byte, tabled: bool, dirtied: bool): (r: (View, bool))
    requires Ready(v, Pgn(addr))
  {
    var (u, f) := GetPage(v, Pgn(addr), tabled);
    if f.None? then (u, false)
    else
      (View(Poke(u.ram, Phys(f.value, addr), b), u.swap,
            if dirtied then u.proc.(pt := u.proc.pt[Key(Pgn(addr)) := SetDirty(EntryOf(u, Pgn(addr)))]) else u.proc),
       true)
  }

  /** The byte that pg_getval reads in the state that pg_getpage left. */
  function Peek(v: View, f: nat, addr: Word): (b: Byte)
    requires Phys(f, addr) < |v.ram.bytes|
  {
    v.ram.bytes[Phys(f, addr)]
  }

  // ---------- What pg_getpage returns ----------

  /** The page is in RAM, in frame `f`. */
  predicate Backs(v: View, f: nat, pgn: Word) {
    Online(EntryOf(v, pgn)) && Fpn(EntryOf(v, pgn)) == f
  }

  /** A returned frame is the page's own exactly when the page is not out in SWAP and its
      tables could be allocated. */
  lemma ReturnedFrameBacksPage(v: View, pgn: Word, tabled: bool)
    requires Ready(v, pgn) && GetPage(v, pgn, tabled).1.Some?
    ensures var (w, f) := GetPage(v, pgn, tabled);
            Backs(w, f.value, pgn) <==>
            !IsSwapped(EntryOf(v, pgn)) && (IsPresent(EntryOf(v, pgn)) || tabled)
  {
    if !IsPresent(EntryOf(v, pgn)) {
      var (u, f) := Obtain(v);
      OnLineReads(EntryOf(u, pgn), f.value);
      if v.ram.free == [] {
        assert Key(pgn) != Key(Victim(v.proc.fifo));
      }
    }
  }

  /** An access to an evicted page goes to a frame number made of its swap offset and type. */
  lemma EvictedPageGetsForeignFrame(v: View, pgn: Word, was: Word, out: nat, tabled: bool)
    requires Ready(v, pgn) && EntryOf(v, pgn) == SwappedOut(was, 0, out) && out < SWPOFF_SPAN
    ensures GetPage(v, pgn, tabled) == (v, Some(out * SWPTYP_SPAN))
  {
    SwappedOutReads(was, 0, out);
  }

  /** So the next access to a page that was just evicted gets 32 times its SWAP frame. */
  lemma VictimGetsForeignFrame(v: View, pgn: Word, tabled: bool)
    requires v.proc.fifo != [] && v.swap.free != [] && v.swap.free[0] < FrameCount(v.swap)
    requires Fpn(EntryOf(v, Victim(v.proc.fifo))) < FrameCount(v.ram)
    requires Key(pgn) == Key(Victim(v.proc.fifo)) && v.swap.free[0] < 0x800_0000
    ensures var e := Evict(v); Ready(e, pgn) && GetPage(e, pgn, tabled) == (e, Some(32 * v.swap.free[0]))
  {
    SwappedOutReads(EntryOf(v, Victim(v.proc.fifo)), 0, v.swap.free[0]);
  }
}
