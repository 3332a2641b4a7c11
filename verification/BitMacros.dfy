/** The bit macros of include/bitops.h, include/mm.h and include/mm64.h: they compute the
    arithmetic of module Words. */
module BitMacros {
  import opened Words
  import opened Bits

  // ---------- The macros ----------

  function GenMask(h: nat, l: nat): (r: Word)
    requires l <= h < 64
  {
    AndIsBelow(Shl(WORD_LIMIT - 1, l), Shr(WORD_LIMIT - 1, 63 - h));
    ShrIsBelow(WORD_LIMIT - 1, 63 - h);
    And(Shl(WORD_LIMIT - 1, l), Shr(WORD_LIMIT - 1, 63 - h))
  }

  function GetVal(v: nat, mask: nat, offst: nat): (r: nat) { Shr(And(v, mask), offst) }

  function SetVal(v: nat, value: nat, mask: Word, offst: nat): (r: nat) {
    Or(And(v, Not(mask)), And(Shl(value, offst), mask))
  }

  function SetBit(v: nat, mask: nat): (r: nat) { Or(v, mask) }
  function ClrBit(v: nat, mask: Word): (r: nat) { And(v, Not(mask)) }

  function Nbits2(n: nat): nat { if And(n, 2) != 0 then 1 else 0 }
  function Nbits4(n: nat): nat { if And(n, 0xC) != 0 then 2 + Nbits2(Shr(n, 2)) else Nbits2(n) }
  function Nbits8(n: nat): nat { if And(n, 0xF0) != 0 then 4 + Nbits4(Shr(n, 4)) else Nbits4(n) }
  function Nbits16(n: nat): nat { if And(n, 0xFF00) != 0 then 8 + Nbits8(Shr(n, 8)) else Nbits8(n) }
  function Nbits32(n: nat): nat { if And(n, 0xFFFF_0000) != 0 then 16 + Nbits16(Shr(n, 16)) else Nbits16(n) }
  function Nbits(n: nat): nat { if n == 0 then 0 else Nbits32(n) }

  // ---------- Every mask ----------

  lemma MaskIs(h: nat, l: nat)
    requires l <= h < 64
    ensures GenMask(h, l) == Up(Ones(h - l + 1), l)
  {
    AllOnes(64);
    LowOfUp(Ones(64), l, 64);
    LowOfOnes(64, 64 - l);
    ShrOnes(64, 63 - h);
    AndOnes(Up(Ones(64 - l), l), h + 1);
    LowOfUp(Ones(64 - l), l, h + 1);
    LowOfOnes(64 - l, h + 1 - l);
  }

  /** GETVAL with a mask over the same bits. */
  lemma GetValIsField(v: nat, h: nat, l: nat)
    requires l <= h < 64
    ensures GetVal(v, GenMask(h, l), l) == Low(Shr(v, l), h - l + 1)
  {
    MaskIs(h, l);
    AndField(v, h - l + 1, l);
    ShrUp(Low(Shr(v, l), h - l + 1), l);
  }

  /** SETVAL replaces the field by the low bits of the value. */
  lemma SetValIs(v: Word, x: nat, h: nat, l: nat)
    requires l <= h < 64
    ensures SetVal(v, x, GenMask(h, l), l)
            == v - Up(Low(Shr(v, l), h - l + 1), l) + Up(Low(x, h - l + 1), l)
  {
    var n := 64;
    AllOnes(n);
    MaskIs(h, l);
    SetField(v, x, h - l + 1, l, n);
  }

  // ---------- The words of the page table ----------

  /** A field in terms of powers `p` and `q` of two. */
  lemma FieldIs(v: nat, h: nat, l: nat, p: nat, q: nat)
    requires l <= h < 64 && p == Pow2(l) && q == Pow2(h - l + 1)
    ensures GetVal(v, GenMask(h, l), l) == v / p % q
  {
    GetValIsField(v, h, l);
    ShiftsAreArithmetic(v, l);
    ShiftsAreArithmetic(v / p, h - l + 1);
  }

  /** The number of offset bits. */
  lemma PageBits(n: nat)
    requires n == PAGING_PAGESZ
    ensures Nbits(n) == 12
  {
    LowerBits(n);
    Powers();
    MaskedBy(n, 16, 0x1_0000, 0xFFFF_0000);
  }

  lemma LowerBits(n: nat)
    requires n == PAGING_PAGESZ
    ensures Nbits16(n) == 12
  {
    Powers();
    MaskedBy(n, 8, 0x100, 0xFF00);
    ShiftsAreArithmetic(n, 8);
    UpperBits(n / 0x100);
  }

  lemma UpperBits(m: nat)
    requires m == 16
    ensures Nbits8(m) == 4
  {
    Powers();
    MaskedBy(m, 4, 0x10, 0xF0);
    ShiftsAreArithmetic(m, 4);
    TopBit(m / 16);
  }

  lemma TopBit(k: nat)
    requires k == 1
    ensures Nbits4(k) == 0
  {
    Powers();
    MaskedBy(k, 2, 4, 0xC);
    MaskedBy(k, 1, 2, 2);
  }

  lemma MaskedBy(n: nat, w: nat, p: nat, mask: nat)
    requires p == Pow2(w) && mask == (p - 1) * p
    ensures And(n, mask) == n / p % p * p
  {
    AndField(n, w, w);
    OnesIs(w);
    ShiftsAreArithmetic(p - 1, w);
    ShiftsAreArithmetic(n, w);
    ShiftsAreArithmetic(n / p, w);
    ShiftsAreArithmetic(n / p % p, w);
  }

  /** PAGING_OFFST and PAGING_PGN. */
  lemma PageSplit(addr: Word)
    ensures GetVal(addr, GenMask(11, 0), 0) == Offst(addr)
    ensures GetVal(addr, GenMask(63, 12), 12) == Pgn(addr)
  {
    Powers();
    FieldIs(addr, 11, 0, 1, 0x1000);
    FieldIs(addr, 63, 12, 0x1000, 0x10_0000_0000_0000);
  }

  /** PAGING64_ADDR_PGD and its four companions. */
  lemma IndexFields(addr: Word)
    ensures IndicesOfAddress(addr)
            == [GetVal(addr, GenMask(56, 48), 48), GetVal(addr, GenMask(47, 39), 39), GetVal(addr, GenMask(38, 30), 30),
                GetVal(addr, GenMask(29, 21), 21), GetVal(addr, GenMask(20, 12), 12)]
  {
    Powers();
    FieldIs(addr, 56, 48, 0x1_0000_0000_0000, 512);
    FieldIs(addr, 47, 39, 0x80_0000_0000, 512);
    FieldIs(addr, 38, 30, 0x4000_0000, 512);
    FieldIs(addr, 29, 21, 0x20_0000, 512);
    FieldIs(addr, 20, 12, 0x1000, 512);
  }

  /** The shift in get_pd_from_pagenum. */
  lemma PageNumberShift(pgn: Word)
    ensures Shl(pgn, 12) < WORD_LIMIT && Indices(pgn) == IndicesOfAddress(Shl(pgn, 12))
  {
    Powers();
    ShiftsAreArithmetic(pgn, 12);
    ShiftsAreArithmetic(pgn * 4096, 64);
  }

  /** PAGING_PTE_FPN and PAGING_PTE_SWP. */
  lemma EntryFields(w: Word)
    ensures GetVal(w, GenMask(31, 0), 0) == Fpn(w) && GetVal(w, GenMask(31, 5), 5) == Swpoff(w)
  {
    Powers();
    FieldIs(w, 31, 0, 1, FPN_SPAN);
    FieldIs(w, 31, 5, SWPTYP_SPAN, SWPOFF_SPAN);
  }

  /** The flag masks are BIT_ULL of 63, 62 and 60. */
  lemma Flag(w: Word, k: nat, p: Word)
    requires k < 64 && p == Pow2(k)
    ensures var on := Shr(w, k) % 2 == 1;
            && (And(w, p) != 0 <==> on)
            && SetBit(w, p) == (if on then w else w + p)
            && ClrBit(w, p) == (if on then w - p else w)
  {
    var n := 64;
    AllOnes(n);
    FlagBits(w, k, n);
    UpOne(k);
    assert Not(p) == Ones(n) - Up(1, k);
  }

  lemma EntryFlags(w: Word)
    ensures (And(w, PRESENT) != 0 <==> IsPresent(w)) && (And(w, SWAPPED) != 0 <==> IsSwapped(w))
    ensures SetBit(w, PRESENT) == SetPresent(w) && SetBit(w, DIRTY) == SetDirty(w)
    ensures SetBit(w, SWAPPED) == SetSwapped(w) && ClrBit(w, SWAPPED) == ClearSwapped(w)
  {
    Powers();
    Flag(w, 63, PRESENT);
    Flag(w, 62, SWAPPED);
    Flag(w, 60, DIRTY);
    ShiftsAreArithmetic(w, 63);
    ShiftsAreArithmetic(w, 62);
    ShiftsAreArithmetic(w, 60);
  }

  /** SETVAL of the frame number, the swap type and the swap offset. */
  lemma EntryWrites(w: Word, x: nat)
    ensures SetVal(w, x, GenMask(31, 0), 0) == SetFpn(w, x)
    ensures SetVal(w, x, GenMask(4, 0), 0) == SetSwptyp(w, x)
    ensures SetVal(w, x, GenMask(31, 5), 5) == SetSwpoff(w, x)
  {
    Powers();
    WriteIs(w, x, 31, 0, 1, FPN_SPAN);
    WriteIs(w, x, 4, 0, 1, SWPTYP_SPAN);
    WriteIs(w, x, 31, 5, SWPTYP_SPAN, SWPOFF_SPAN);
  }

  lemma WriteIs(w: Word, x: nat, h: nat, l: nat, p: nat, q: nat)
    requires l <= h < 64 && p == Pow2(l) && q == Pow2(h - l + 1)
    ensures SetVal(w, x, GenMask(h, l), l) == w - w / p % q * p + x % q * p
  {
    SetValIs(w, x, h, l);
    ShiftsAreArithmetic(w, l);
    ShiftsAreArithmetic(w / p, h - l + 1);
    ShiftsAreArithmetic(x, h - l + 1);
    ShiftsAreArithmetic(w / p % q, l);
    ShiftsAreArithmetic(x % q, l);
  }

  /** The updates of an entry, as the functions of src/mm64.c and src/libmem.c write them. */
  lemma EntryUpdates(w: Word, fpn: nat, typ: nat, off: nat)
    ensures SetVal(ClrBit(SetBit(w, PRESENT), SWAPPED), fpn, GenMask(31, 0), 0) == OnLine(w, fpn)
    ensures SetVal(SetVal(SetBit(SetBit(w, PRESENT), SWAPPED), typ, GenMask(4, 0), 0), off, GenMask(31, 5), 5)
            == SwappedOut(w, typ, off)
  {
    var a := SetPresent(w);
    EntryFlags(w);
    EntryFlags(a);
    EntryWrites(ClearSwapped(a), fpn);
    EntryWrites(SetSwapped(a), typ);
    EntryWrites(SetSwptyp(SetSwapped(a), typ), off);
  }
}
