/** 64-bit words as integers: page-table entries and the five-level address split of
    include/mm.h, include/mm64.h and src/mm64.c. Module BitMacros proves that the
    shifts and masks of the source compute the forms below. */
module Words {
  const WORD_LIMIT: int := 0x1_0000_0000_0000_0000
  type Word = w: int | 0 <= w < 0x1_0000_0000_0000_0000

  const PAGING_PAGESZ: int := 4096
  const TABLE_SIZE: int := 512

  // ---------- Page table entries ----------

  const PRESENT: int := 0x8000_0000_0000_0000
  const SWAPPED: int := 0x4000_0000_0000_0000
  const DIRTY: int := 0x1000_0000_0000_0000
  const FPN_SPAN: int := 0x1_0000_0000
  const SWPTYP_SPAN: int := 32
  const SWPOFF_SPAN: int := 0x800_0000

  predicate IsPresent(w: Word) { w / PRESENT % 2 == 1 }
  predicate IsSwapped(w: Word) { w / SWAPPED % 2 == 1 }
  predicate IsDirty(w: Word) { w / DIRTY % 2 == 1 }
  function Fpn(w: Word): (f: nat) { w % FPN_SPAN }
  function Swpoff(w: Word): (o: nat) { w / SWPTYP_SPAN % SWPOFF_SPAN }

  function SetPresent(w: Word): Word { if IsPresent(w) then w else w + PRESENT }
  function SetSwapped(w: Word): Word { if IsSwapped(w) then w else w + SWAPPED }
  function ClearSwapped(w: Word): Word { if IsSwapped(w) then w - SWAPPED else w }
  function SetDirty(w: Word): Word { if IsDirty(w) then w else w + DIRTY }
  function SetFpn(w: Word, fpn: nat): Word { w - Fpn(w) + fpn % FPN_SPAN }
  function SetSwptyp(w: Word, typ: nat): Word { w - w % SWPTYP_SPAN + typ % SWPTYP_SPAN }
  function SetSwpoff(w: Word, off: nat): Word { w - Swpoff(w) * SWPTYP_SPAN + off % SWPOFF_SPAN * SWPTYP_SPAN }

  /** The entry that pte_set_fpn writes. */
  function OnLine(w: Word, fpn: nat): Word {
    SetFpn(ClearSwapped(SetPresent(w)), fpn)
  }

  /** The entry that pte_set_swap writes: it stays present. */
  function SwappedOut(w: Word, typ: nat, off: nat): Word {
    SetSwpoff(SetSwptyp(SetSwapped(SetPresent(w)), typ), off)
  }

  /** Replacing the low half leaves the flags alone. */
  lemma LowHalf(w: Word, low: nat)
    requires low < FPN_SPAN
    ensures var r := w - Fpn(w) + low;
            && 0 <= r < WORD_LIMIT && Fpn(r) == low && Swpoff(r) == low / SWPTYP_SPAN
            && IsPresent(r) == IsPresent(w) && IsSwapped(r) == IsSwapped(w)
  {
    var h := w / FPN_SPAN;
    FlagsAreHigh(h, Fpn(w));
    FlagsAreHigh(h, low);
  }

  /** PRESENT and SWAPPED are the top bits of the high half. */
  lemma FlagsAreHigh(h: int, low: int)
    requires 0 <= h < FPN_SPAN && 0 <= low < FPN_SPAN
    ensures var r := h * FPN_SPAN + low;
            && 0 <= r < WORD_LIMIT && Fpn(r) == low && Swpoff(r) == low / SWPTYP_SPAN
            && IsPresent(r) == (h / 0x8000_0000 % 2 == 1) && IsSwapped(r) == (h / 0x4000_0000 % 2 == 1)
            && IsDirty(r) == (h / 0x1000_0000 % 2 == 1)
  {
    var r := h * FPN_SPAN + low;
    assert r / DIRTY == h / 0x1000_0000;
    assert r / PRESENT == h / 0x8000_0000;
    assert r / SWAPPED == h / 0x4000_0000;
    assert r / SWPTYP_SPAN == h * SWPOFF_SPAN + low / SWPTYP_SPAN;
  }

  lemma OnLineReads(w: Word, fpn: nat)
    ensures IsPresent(OnLine(w, fpn)) && !IsSwapped(OnLine(w, fpn))
    ensures Fpn(OnLine(w, fpn)) == fpn % FPN_SPAN
  {
    var a := SetPresent(w);
    assert IsPresent(a) && IsSwapped(a) == IsSwapped(w);
    var b := ClearSwapped(a);
    assert IsPresent(b) && !IsSwapped(b);
    LowHalf(b, fpn % FPN_SPAN);
  }

  /** Writing both swap fields replaces the whole low half. */
  lemma SwapFields(a: Word, typ: nat, off: nat)
    ensures SetSwpoff(SetSwptyp(a, typ), off) == a - Fpn(a) + (off % SWPOFF_SPAN * SWPTYP_SPAN + typ % SWPTYP_SPAN)
  {
  }

  /** An evicted page keeps PRESENT, and its frame number field now reads as a mixture
      of swap offset and swap type. */
  lemma SwappedOutReads(w: Word, typ: nat, off: nat)
    ensures IsPresent(SwappedOut(w, typ, off)) && IsSwapped(SwappedOut(w, typ, off))
    ensures Swpoff(SwappedOut(w, typ, off)) == off % SWPOFF_SPAN
    ensures Fpn(SwappedOut(w, typ, off)) == off % SWPOFF_SPAN * SWPTYP_SPAN + typ % SWPTYP_SPAN
  {
    var a := SetSwapped(SetPresent(w));
    assert IsPresent(a) && IsSwapped(a);
    SwapFields(a, typ, off);
    LowHalf(a, off % SWPOFF_SPAN * SWPTYP_SPAN + typ % SWPTYP_SPAN);
  }

  lemma SetDirtyReads(w: Word)
    ensures IsDirty(SetDirty(w))
    ensures IsPresent(SetDirty(w)) == IsPresent(w) && IsSwapped(SetDirty(w)) == IsSwapped(w)
    ensures Fpn(SetDirty(w)) == Fpn(w) && Swpoff(SetDirty(w)) == Swpoff(w)
  {
    var h, low := w / FPN_SPAN, Fpn(w);
    FlagsAreHigh(h, low);
    if !IsDirty(w) {
      NoCarry(h);
      FlagsAreHigh(h + 0x1000_0000, low);
    }
  }

  /** Setting a clear DIRTY bit in the high half carries into no other flag. */
  lemma NoCarry(h: int)
    requires 0 <= h < FPN_SPAN && h / 0x1000_0000 % 2 == 0
    ensures h + 0x1000_0000 < FPN_SPAN && (h + 0x1000_0000) / 0x1000_0000 % 2 == 1
    ensures (h + 0x1000_0000) / 0x8000_0000 == h / 0x8000_0000
    ensures (h + 0x1000_0000) / 0x4000_0000 == h / 0x4000_0000
  {
  }

  // ---------- Addresses ----------

  function Pgn(addr: Word): Word { addr / PAGING_PAGESZ }
  function Offst(addr: Word): (o: nat) ensures o < PAGING_PAGESZ { addr % PAGING_PAGESZ }

  /** Page numbers that differ by a multiple of this share their entry. */
  const KEY_SPAN: int := 0x2000_0000_0000

  function Key(pgn: Word): (k: nat)
    ensures k < KEY_SPAN
  {
    pgn % KEY_SPAN
  }

  /** get_pd_from_address: indices of the five levels, PGD first. */
  function IndicesOfAddress(addr: Word): (ix: seq<nat>)
    ensures |ix| == 5 && forall i :: 0 <= i < 5 ==> ix[i] < TABLE_SIZE
  {
    [addr / 0x1_0000_0000_0000 % TABLE_SIZE, addr / 0x80_0000_0000 % TABLE_SIZE,
     addr / 0x4000_0000 % TABLE_SIZE, addr / 0x20_0000 % TABLE_SIZE, addr / 0x1000 % TABLE_SIZE]
  }

  /** get_pd_from_pagenum: the shift drops what does not fit 64 bits. */
  function Indices(pgn: Word): (ix: seq<nat>)
    ensures |ix| == 5 && forall i :: 0 <= i < 5 ==> ix[i] < TABLE_SIZE
  {
    IndicesOfAddress(pgn * PAGING_PAGESZ % WORD_LIMIT)
  }

  /** Value of five base-512 digits. */
  function KeyOf(ix: seq<nat>): (k: nat)
    requires |ix| == 5
  {
    (((ix[0] * 512 + ix[1]) * 512 + ix[2]) * 512 + ix[3]) * 512 + ix[4]
  }

  lemma DigitsOf(x: int)
    requires 0 <= x < 0x10_0000_0000_0000
    ensures x * 4096 / 0x1000 == x
    ensures x * 4096 / 0x20_0000 == x / 512
    ensures x * 4096 / 0x4000_0000 == x / 512 / 512
    ensures x * 4096 / 0x80_0000_0000 == x / 512 / 512 / 512
    ensures x * 4096 / 0x1_0000_0000_0000 == x / 512 / 512 / 512 / 512
  {
  }

  lemma ShiftDropsHighBits(pgn: Word)
    ensures pgn * PAGING_PAGESZ % WORD_LIMIT == pgn % 0x10_0000_0000_0000 * 4096
    ensures pgn % 0x10_0000_0000_0000 % KEY_SPAN == Key(pgn)
  {
  }

  lemma DigitsCompose(x: int)
    requires 0 <= x < 0x10_0000_0000_0000
    ensures KeyOf([x / 512 / 512 / 512 / 512 % 512, x / 512 / 512 / 512 % 512, x / 512 / 512 % 512,
                   x / 512 % 512, x % 512])
            == x % KEY_SPAN
  {
  }

  /** The five indices are the digits of the page number modulo 2^45. */
  lemma IndicesAreDigits(pgn: Word)
    ensures KeyOf(Indices(pgn)) == Key(pgn)
  {
    var x := pgn % 0x10_0000_0000_0000;
    ShiftDropsHighBits(pgn);
    DigitsOf(x);
    DigitsCompose(x);
  }

  lemma DigitsAreUnique(a: seq<nat>, b: seq<nat>)
    requires |a| == |b| == 5 && forall i :: 0 <= i < 5 ==> a[i] < TABLE_SIZE && b[i] < TABLE_SIZE
    requires KeyOf(a) == KeyOf(b)
    ensures a == b
  {
    var a3 := ((a[0] * 512 + a[1]) * 512 + a[2]) * 512 + a[3];
    var b3 := ((b[0] * 512 + b[1]) * 512 + b[2]) * 512 + b[3];
    LastDigit(a3, a[4], b3, b[4]);
    var a2, b2 := (a[0] * 512 + a[1]) * 512 + a[2], (b[0] * 512 + b[1]) * 512 + b[2];
    LastDigit(a2, a[3], b2, b[3]);
    LastDigit(a[0] * 512 + a[1], a[2], b[0] * 512 + b[1], b[2]);
    LastDigit(a[0], a[1], b[0], b[1]);
  }

  lemma LastDigit(h1: nat, d1: nat, h2: nat, d2: nat)
    requires d1 < TABLE_SIZE && d2 < TABLE_SIZE && h1 * 512 + d1 == h2 * 512 + d2
    ensures h1 == h2 && d1 == d2
  {
  }

  /** Two page numbers walk to the same entry exactly when they agree modulo 2^45. */
  lemma SameEntry(p: Word, q: Word)
    ensures Indices(p) == Indices(q) <==> Key(p) == Key(q)
  {
    IndicesAreDigits(p);
    IndicesAreDigits(q);
    if Key(p) == Key(q) {
      DigitsAreUnique(Indices(p), Indices(q));
    }
  }
}
