/** The bit operators of C on non-negative integers, bit by bit: fields, masks, merging, and
    their arithmetic. */
module Bits {
  import opened Words

  // ---------- The operators of C ----------

  function Bit(a: nat, b: nat, both: bool): (r: nat) {
    if both then (if a % 2 == 1 && b % 2 == 1 then 1 else 0) else if a % 2 == 1 || b % 2 == 1 then 1 else 0
  }

  function And(a: nat, b: nat): (r: nat) {
    if a == 0 then 0 else 2 * And(a / 2, b / 2) + Bit(a, b, true)
  }

  function Or(a: nat, b: nat): (r: nat)
    decreases a + b
  {
    if a + b == 0 then 0 else 2 * Or(a / 2, b / 2) + Bit(a, b, false)
  }

  function Not(a: Word): (r: Word) { WORD_LIMIT - 1 - a }

  function Shr(a: nat, n: nat): (r: nat) {
    if n == 0 then a else Shr(a / 2, n - 1)
  }

  /** A left shift before its high bits are cut off. */
  function Up(a: nat, n: nat): (r: nat) {
    if n == 0 then a else 2 * Up(a, n - 1)
  }

  /** The low `n` bits. */
  function Low(a: nat, n: nat): (r: nat) {
    if n == 0 then 0 else 2 * Low(a / 2, n - 1) + a % 2
  }

  function Shl(a: nat, n: nat): (r: nat) { Low(Up(a, n), 64) }

  // ---------- Masks and fields ----------

  lemma {:induction false} AndIsBelow(a: nat, b: nat)
    ensures And(a, b) <= b
  {
    if a > 0 { AndIsBelow(a / 2, b / 2); }
  }

  lemma {:induction false} ShrIsBelow(a: nat, n: nat)
    ensures Shr(a, n) <= a
  {
    if n > 0 { ShrIsBelow(a / 2, n - 1); }
  }

  function Ones(n: nat): (r: nat) {
    if n == 0 then 0 else 2 * Ones(n - 1) + 1
  }

  function Pow2(n: nat): (p: nat)
    ensures p > 0
  {
    if n == 0 then 1 else 2 * Pow2(n - 1)
  }

  lemma {:induction false} OnesIs(n: nat)
    ensures Ones(n) == Pow2(n) - 1
  {
    if n > 0 { OnesIs(n - 1); }
  }

  lemma {:induction false} PowAdds(m: nat, n: nat)
    ensures Pow2(m + n) == Pow2(m) * Pow2(n)
  {
    if m > 0 {
      PowAdds(m - 1, n);
      assert Pow2(m + n) == 2 * (Pow2(m - 1) * Pow2(n));
    }
  }

  /** The powers of two in use. */
  lemma Powers()
    ensures Pow2(1) == 2 && Pow2(2) == 4 && Pow2(4) == 16 && Pow2(8) == 0x100 && Pow2(16) == 0x1_0000
    ensures Pow2(5) == 32 && Pow2(9) == 512 && Pow2(12) == 0x1000
    ensures Pow2(21) == 0x20_0000 && Pow2(27) == 0x800_0000 && Pow2(30) == 0x4000_0000
    ensures Pow2(32) == 0x1_0000_0000 && Pow2(39) == 0x80_0000_0000 && Pow2(48) == 0x1_0000_0000_0000
    ensures Pow2(52) == 0x10_0000_0000_0000 && Pow2(60) == DIRTY && Pow2(62) == SWAPPED && Pow2(63) == PRESENT
    ensures Pow2(64) == WORD_LIMIT
  {
    assert Pow2(5) == 32;
    PowAdds(4, 4);
    PowAdds(8, 8);
    PowAdds(4, 5);
    PowAdds(3, 9);
    PowAdds(9, 12);
    PowAdds(6, 21);
    PowAdds(3, 27);
    PowAdds(2, 30);
    PowAdds(9, 30);
    PowAdds(9, 39);
    PowAdds(4, 48);
    PowAdds(12, 48);
    PowAdds(2, 60);
    PowAdds(1, 62);
    PowAdds(1, 63);
  }

  lemma AllOnes(n: nat)
    requires n == 64
    ensures Ones(n) == WORD_LIMIT - 1
  {
    Powers();
    OnesIs(n);
  }

  lemma {:induction false} AndZero(a: nat)
    ensures And(a, 0) == 0
  {
    if a > 0 { AndZero(a / 2); }
  }

  lemma {:induction false} AndOnes(a: nat, w: nat)
    ensures And(a, Ones(w)) == Low(a, w)
  {
    if w == 0 {
      AndZero(a);
    } else if a > 0 {
      AndOnes(a / 2, w - 1);
    } else {
      LowOfZero(w);
    }
  }

  lemma {:induction false} LowOfZero(n: nat)
    ensures Low(0, n) == 0 && Shr(0, n) == 0 && Up(0, n) == 0
  {
    if n > 0 { LowOfZero(n - 1); }
  }

  /** A mask of `w` ones above `l` zeros keeps one field in its place. */
  lemma {:induction false} AndField(a: nat, w: nat, l: nat)
    ensures And(a, Up(Ones(w), l)) == Up(Low(Shr(a, l), w), l)
  {
    if l == 0 {
      AndOnes(a, w);
    } else if a > 0 {
      AndField(a / 2, w, l - 1);
    } else {
      LowOfZero(l);
      LowOfZero(w);
    }
  }

  lemma {:induction false} ShrUp(a: nat, n: nat)
    ensures Shr(Up(a, n), n) == a
  {
    if n > 0 { ShrUp(a, n - 1); }
  }

  lemma {:induction false} ShrOnes(m: nat, n: nat)
    requires n <= m
    ensures Shr(Ones(m), n) == Ones(m - n)
  {
    if n > 0 { ShrOnes(m - 1, n - 1); }
  }

  lemma {:induction false} LowOfUp(a: nat, l: nat, n: nat)
    requires l <= n
    ensures Low(Up(a, l), n) == Up(Low(a, n - l), l)
  {
    if l > 0 {
      LowOfUp(a, l - 1, n - 1);
      var u := Up(a, l - 1);
      assert Up(a, l) / 2 == u && Up(a, l) % 2 == 0;
      assert Low(Up(a, l), n) == 2 * Low(u, n - 1);
    }
  }

  lemma {:induction false} LowOfLow(a: nat, m: nat, n: nat)
    requires n <= m
    ensures Low(Low(a, m), n) == Low(a, n)
  {
    if n > 0 {
      LowOfLow(a / 2, m - 1, n - 1);
      assert Low(a, m) / 2 == Low(a / 2, m - 1) && Low(a, m) % 2 == a % 2;
    }
  }

  lemma {:induction false} LowOfOnes(m: nat, n: nat)
    requires n <= m
    ensures Low(Ones(m), n) == Ones(n)
  {
    if n > 0 { LowOfOnes(m - 1, n - 1); }
  }

  // ---------- Writing ----------

  lemma {:induction false} LowOfWord(a: nat, n: nat)
    ensures Low(a, n) <= Ones(n) && (a <= Ones(n) ==> Low(a, n) == a)
  {
    if n > 0 { LowOfWord(a / 2, n - 1); }
  }

  lemma {:induction false} UpFits(a: nat, l: nat, n: nat)
    requires l <= n && a <= Ones(n - l)
    ensures Up(a, l) <= Ones(n)
  {
    if l > 0 { UpFits(a, l - 1, n - 1); }
  }

  lemma {:induction false} AndOfZero(m: nat)
    ensures And(0, m) == 0 && Or(m, 0) == m && Or(0, m) == m
  {
    if m > 0 { AndOfZero(m / 2); }
  }

  lemma {:induction false} ClearBits(v: nat, m: nat, n: nat)
    requires v <= Ones(n) && m <= Ones(n)
    ensures And(v, m) <= v && And(v, Ones(n) - m) == v - And(v, m)
  {
    if n > 0 && v > 0 {
      var c := Ones(n) - m;
      assert c / 2 == Ones(n - 1) - m / 2 && c % 2 + m % 2 == 1;
      ClearBits(v / 2, m / 2, n - 1);
    }
  }

  /** Bits under a mask and bits outside it add up. */
  lemma {:induction false} Merge(v: nat, x: nat, m: nat, n: nat)
    requires v <= Ones(n) && m <= Ones(n)
    ensures Or(And(v, Ones(n) - m), And(x, m)) == And(v, Ones(n) - m) + And(x, m)
  {
    if n > 0 {
      Merge(v / 2, x / 2, m / 2, n - 1);
      var c := Ones(n) - m;
      assert c / 2 == Ones(n - 1) - m / 2 && c % 2 + m % 2 == 1;
      Halved(v, c);
      Halved(x, m);
      Join(And(v, c), And(x, m));
    } else {
      AndZero(x);
    }
  }

  lemma Join(p: nat, q: nat)
    requires Or(p / 2, q / 2) == p / 2 + q / 2 && p % 2 + q % 2 <= 1
    ensures Or(p, q) == p + q
  {
  }

  lemma Halved(a: nat, b: nat)
    ensures And(a, b) / 2 == And(a / 2, b / 2) && And(a, b) % 2 == Bit(a, b, true)
  {
    if a == 0 { AndOfZero(b / 2); }
  }

  /** SETVAL on words of `n` bits. */
  lemma SetField(v: nat, x: nat, w: nat, l: nat, n: nat)
    requires w + l <= n && v <= Ones(n)
    ensures var m := Up(Ones(w), l);
            && m <= Ones(n)
            && Or(And(v, Ones(n) - m), And(Low(Up(x, l), n), m)) == v - Up(Low(Shr(v, l), w), l) + Up(Low(x, w), l)
  {
    var m, y := Up(Ones(w), l), Low(Up(x, l), n);
    OnesGrow(w, n - l);
    UpFits(Ones(w), l, n);
    ClearBits(v, m, n);
    Merge(v, y, m, n);
    AndField(v, w, l);
    AndField(y, w, l);
    LowOfUp(x, l, n);
    ShrUp(Low(x, n - l), l);
    LowOfLow(x, n - l, w);
  }

  lemma {:induction false} OnesGrow(m: nat, n: nat)
    requires m <= n
    ensures Ones(m) <= Ones(n)
  {
    if m > 0 { OnesGrow(m - 1, n - 1); }
  }

  /** SETBIT, CLRBIT and a test of bit `k`. */
  lemma FlagBits(v: nat, k: nat, n: nat)
    requires k < n && v <= Ones(n)
    ensures var m, on := Up(1, k), Shr(v, k) % 2 == 1;
            && m <= Ones(n)
            && Or(v, m) == (if on then v else v + m)
            && And(v, Ones(n) - m) == (if on then v - m else v)
            && (And(v, m) != 0 <==> on)
  {
    assert Ones(1) == 1;
    SetOne(v, k);
    OnesGrow(1, n - k);
    UpFits(1, k, n);
    ClearBits(v, Up(1, k), n);
  }

  lemma {:induction false} SetOne(v: nat, k: nat)
    ensures Or(v, Up(1, k)) == (if Shr(v, k) % 2 == 1 then v else v + Up(1, k))
    ensures And(v, Up(1, k)) == (if Shr(v, k) % 2 == 1 then Up(1, k) else 0)
    ensures Up(1, k) > 0
  {
    AndOfZero(v / 2);
    AndZero(v / 2);
    AndOfZero(Up(1, k));
    LowOfZero(k);
    if k > 0 { SetOne(v / 2, k - 1); }
  }

  // ---------- Arithmetic ----------

  lemma {:induction false} MulMonotone(i: nat, j: nat, m: nat)
    requires i < j
    ensures i * m + m <= j * m
  {
    if i + 1 < j {
      MulMonotone(i, j - 1, m);
    }
    assert j * m == (j - 1) * m + m;
  }

  /** Quotient and remainder are unique. */
  lemma Unique(q: nat, d: nat, m: nat, r: nat, e: nat)
    requires q * m + r == d * m + e && r < m && e < m
    ensures q == d && r == e
  {
    if q < d {
      MulMonotone(q, d, m);
    } else if d < q {
      MulMonotone(d, q, m);
    }
  }

  lemma Divided(a: nat, m: nat)
    requires m > 0
    ensures a / m >= 0 && a % m < m && a == a / m * m + a % m
  {
  }

  lemma Halve(a: nat, n: nat, q: nat, r: nat)
    requires n > 0 && q == a / 2 / Pow2(n - 1) && r == a / 2 % Pow2(n - 1)
    ensures a / Pow2(n) == q && a % Pow2(n) == 2 * r + a % 2
  {
    var p := Pow2(n - 1);
    Divided(a / 2, p);
    Divided(a, 2 * p);
    var d, e, qp := a / (2 * p), a % (2 * p), q * p;
    assert q * (2 * p) == 2 * qp;
    Unique(q, d, 2 * p, 2 * r + a % 2, e);
  }

  lemma {:induction false} ShiftsAreArithmetic(a: nat, n: nat)
    ensures Up(a, n) == a * Pow2(n) && Shr(a, n) == a / Pow2(n) && Low(a, n) == a % Pow2(n)
  {
    if n > 0 {
      ShiftsAreArithmetic(a, n - 1);
      ShiftsAreArithmetic(a / 2, n - 1);
      Halve(a, n, a / 2 / Pow2(n - 1), a / 2 % Pow2(n - 1));
      var p := Pow2(n - 1);
      assert a * (2 * p) == 2 * (a * p);
    }
  }

  lemma {:induction false} UpOne(k: nat)
    ensures Up(1, k) == Pow2(k)
  {
    if k > 0 { UpOne(k - 1); }
  }
}
