/**
 64-bit arithmetic by halves (libinterp/comp-mips.c:622-776 and 1065-1114): what
 the halves computed by the emitted code are, as 64-bit numbers.
 */
module MipsLong {
  import opened Basics
  import opened Words
  import opened MipsMachine

  const LONG: int := WORD * WORD

  function Long(hi: Word, lo: Word): int { hi * WORD + lo }

  /** As a signed number. */
  function SignedLong(hi: Word, lo: Word): int { Signed(hi) * WORD + lo }

  lemma LongIs(x: int, q: int, hi: Word, lo: Word)
    requires x == q * LONG + hi * WORD + lo
    ensures x % LONG == Long(hi, lo)
  {
    Unique(LONG, q, hi * WORD + lo, x / LONG, x % LONG);
  }

  lemma WordIs(x: int, q: int, r: Word)
    requires x == q * WORD + r
    ensures x % WORD == r
  {
    DivMod(q, WORD, r);
  }

  /** The carry of the low words is that the sum is below one of them. */
  lemma AddHalves(ah: Word, al: Word, bh: Word, bl: Word)
    ensures var lo := (bl + al) % WORD;
            var hi := ((bh + ah) % WORD + if lo < al then 1 else 0) % WORD;
            Long(hi, lo) == (Long(ah, al) + Long(bh, bl)) % LONG
  {
    var lo := (bl + al) % WORD;
    var c := if bl + al >= WORD then 1 else 0;
    WordIs(bl + al, c, bl + al - c * WORD);
    var d := if bh + ah >= WORD then 1 else 0;
    WordIs(bh + ah, d, bh + ah - d * WORD);
    var h := bh + ah - d * WORD + c;
    var e := if h >= WORD then 1 else 0;
    WordIs(h, e, h - e * WORD);
    LongIs(Long(ah, al) + Long(bh, bl), d + e, h - e * WORD, lo);
  }

  /** The borrow of the low words is that the first is below the second. */
  lemma SubHalves(ah: Word, al: Word, bh: Word, bl: Word)
    ensures var lo := (bl - al) % WORD;
            var hi := ((bh - ah) % WORD - if bl < al then 1 else 0) % WORD;
            Long(hi, lo) == (Long(bh, bl) - Long(ah, al)) % LONG
  {
    var lo := (bl - al) % WORD;
    var c := if bl < al then 1 else 0;
    WordIs(bl - al, 0 - c, bl - al + c * WORD);
    var d := if bh < ah then 1 else 0;
    WordIs(bh - ah, 0 - d, bh - ah + d * WORD);
    var h := bh - ah + d * WORD - c;
    var e := if h < 0 then 1 else 0;
    WordIs(h, 0 - e, h + e * WORD);
    LongIs(Long(bh, bl) - Long(ah, al), 0 - d - e, h + e * WORD, lo);
  }

  lemma CompareHalves(ah: Word, al: Word, bh: Word, bl: Word)
    ensures SignedLong(ah, al) < SignedLong(bh, bl) <==> Signed(ah) < Signed(bh) || (ah == bh && al < bl)
    ensures SignedLong(ah, al) == SignedLong(bh, bl) <==> ah == bh && al == bl
  {
  }

  // ------------------------------------------------------------------
  // Shifts

  lemma {:induction false} PowSum(a: nat, b: nat)
    ensures Pow2(a) * Pow2(b) == Pow2(a + b)
  {
    if a > 0 {
      PowSum(a - 1, b);
      assert Pow2(a) * Pow2(b) == 2 * (Pow2(a - 1) * Pow2(b));
    }
  }

  lemma PowWord()
    ensures Pow2(32) == WORD
  {
    assert Pow2(8) == 256 by { assert Pow2(4) == 16; }
    PowSum(8, 8);
    PowSum(16, 16);
  }

  /** The two powers that cut a word. */
  lemma Cut(c: nat)
    requires c < 32
    ensures Pow2(c) > 0 && Pow2(32 - c) > 0 && Pow2(c) * Pow2(32 - c) == WORD
  {
    PowPositive(c);
    PowPositive(32 - c);
    PowSum(c, 32 - c);
    PowWord();
  }

  /** x times p, when p * q is the word size: what is shifted out and what
      stays. */
  lemma TimesPower(x: Word, p: int, q: int)
    requires p > 0 && q > 0 && p * q == WORD
    ensures x * p == (x / q) * WORD + (x % q) * p
    ensures 0 <= (x % q) * p < WORD && 0 <= x / q < p
    ensures (x * p) % WORD == (x % q) * p
  {
    var a, b := x / q, x % q;
    assert x == a * q + b;
    assert x * p == a * (p * q) + b * p by { Distribute(a, q, b, p); }
    Below(b, q, p);
    Quot(x, a, b, q, p);
    WordIs(x * p, a, b * p);
  }

  lemma Distribute(a: int, q: int, b: int, p: int)
    ensures (a * q + b) * p == a * (p * q) + b * p
  {
  }

  lemma Below(b: int, q: int, p: int)
    requires 0 <= b < q && p > 0
    ensures 0 <= b * p < q * p
  {
    Scale(q - b, p);
    Minus(q, b, p);
    assert b * p >= 0;
  }

  lemma Quot(x: int, a: int, b: int, q: int, p: int)
    requires x == a * q + b && 0 <= b < q && 0 <= x < p * q && p > 0
    ensures 0 <= a < p
  {
    Between(x, a, b, q);
    Minus(a, p, q);
    assert a - p >= 0 ==> (a - p) * q >= 0;
  }

  lemma Minus(a: int, b: int, p: int)
    ensures (a - b) * p == a * p - b * p
  {
  }

  /** Shifting left by less than a word. */
  lemma LeftHalves(hi: Word, lo: Word, c: nat)
    requires 0 < c < 32
    ensures var out := Shifted(Srl, lo, 32 - c);
            && Or(Shifted(Sll, hi, c), out) < WORD
            && Long(Or(Shifted(Sll, hi, c), out), Shifted(Sll, lo, c)) == (Long(hi, lo) * Pow2(c)) % LONG
  {
    var p, q := Pow2(c), Pow2(32 - c);
    Cut(c);
    TimesPower(lo, p, q);
    TimesPower(hi, p, q);
    var a, b, d, g := lo / q, lo % q, hi / q, hi % q;
    OrSwap(g * p, a);
    OrApart(a, g, c);
    assert p * g == g * p;
    Fits(g, q, a, p);
    LeftSum(hi, lo, p, d, g, a, b);
    LongIs(Long(hi, lo) * p, d, g * p + a, b * p);
  }

  lemma Fits(g: int, q: int, a: int, p: int)
    requires 0 <= g < q && 0 <= a < p && p * q == WORD
    ensures 0 <= g * p + a < WORD
  {
    assert (q - 1 - g) * p >= 0;
    assert (q - 1 - g) * p == q * p - p - g * p;
    assert g * p >= 0;
  }

  lemma LeftSum(hi: int, lo: int, p: int, d: int, g: int, a: int, b: int)
    requires hi * p == d * WORD + g * p && lo * p == a * WORD + b * p
    ensures (hi * WORD + lo) * p == d * LONG + (g * p + a) * WORD + b * p
  {
    assert (hi * WORD + lo) * p == (hi * p) * WORD + lo * p;
  }

  lemma {:induction false} OrSwap(a: nat, b: nat)
    ensures Or(a, b) == Or(b, a)
  {
    if a != 0 || b != 0 { OrSwap(a / 2, b / 2); }
  }

  /** Shifting left by a word or more, but less than two. */
  lemma LeftHigh(hi: Word, lo: Word, c: nat)
    requires 32 <= c < 64
    ensures Long(Shifted(Sll, lo, c - 32), 0) == (Long(hi, lo) * Pow2(c)) % LONG
  {
    var e := c - 32;
    var p, q := Pow2(e), Pow2(32 - e);
    Cut(e);
    PowSum(32, e);
    PowWord();
    TimesPower(lo, p, q);
    var a, b := lo / q, lo % q;
    LeftHighSum(hi, lo, p, a, b);
    LongIs(Long(hi, lo) * Pow2(c), hi * p + a, b * p, 0);
  }

  lemma LeftHighSum(hi: int, lo: int, p: int, a: int, b: int)
    requires lo * p == a * WORD + b * p
    ensures (hi * WORD + lo) * (WORD * p) == (hi * p + a) * LONG + (b * p) * WORD
  {
    assert (hi * WORD + lo) * (WORD * p) == (hi * p) * LONG + (lo * p) * WORD;
  }

  /** Shifting left by two words or more. */
  lemma LeftOut(hi: Word, lo: Word, c: nat)
    requires c >= 64
    ensures 0 == (Long(hi, lo) * Pow2(c)) % LONG
  {
    PowSum(32, 32);
    PowWord();
    PowSum(64, c - 64);
    var v, p := Long(hi, lo), Pow2(c - 64);
    hide Pow2, Long;
    assert Pow2(c) == LONG * p;
    Regroup(v, LONG, p);
    assert Long(0, 0) == 0 by { NoBits(); }
    LongIs(v * Pow2(c), v * p, 0, 0);
  }

  lemma Regroup(v: int, l: int, p: int)
    ensures v * (l * p) == (v * p) * l
  {
  }

  lemma NoBits()
    ensures Long(0, 0) == 0
  {
  }

  // ------------------------------------------------------------------
  // Shifting right, keeping the sign

  /** The quotient by a power of two, rounded down. */
  function ShiftRight(x: int, c: nat): int {
    PowPositive(c);
    x / Pow2(c)
  }

  lemma FloorIs(x: int, q: int, r: int, p: int)
    requires x == q * p + r && 0 <= r < p
    ensures x / p == q && x % p == r
  {
    DivMod(q, p, r);
  }

  /** A signed number as a word and back. */
  lemma SignedBack(x: int)
    requires -HALF <= x < HALF
    ensures Signed(x % WORD) == x
  {
    if x < 0 { WordIs(x, -1, x + WORD); } else { WordIs(x, 0, x); }
  }

  lemma FloorRange(s: int, p: int)
    requires -HALF <= s < HALF && p > 0
    ensures -HALF <= s / p < HALF
  {
    var q, r := s / p, s % p;
    assert s == q * p + r;
    FloorBetween(s, q, r, p);
  }

  lemma FloorBetween(s: int, q: int, r: int, p: int)
    requires -HALF <= s < HALF && p > 0 && s == q * p + r && 0 <= r < p
    ensures -HALF <= q < HALF
  {
    Grows(q, p);
    Grows(q + 1, p);
    Minus(q, -1, p);
  }

  lemma Grows(x: int, p: int)
    requires p >= 1
    ensures x >= 0 ==> x * p >= x
    ensures x <= 0 ==> x * p <= x
  {
  }

  /** The bits of the high word that fall into the low one. */
  lemma RightPart(hi: Word, p: int, q: int)
    requires p > 0 && q > 0 && p * q == WORD
    ensures (hi * q) % WORD == (Signed(hi) % p) * q
  {
    assert q * p == p * q;
    TimesPower(hi, q, p);
    var k := if hi < HALF then 0 else 1;
    var a, t := hi / p, hi % p;
    assert Signed(hi) == a * p + t - k * (q * p);
    assert k * (q * p) == (k * q) * p;
    Minus(a, k * q, p);
    FloorIs(Signed(hi), a - k * q, t, p);
  }

  /** Shifting right by less than a word. */
  lemma RightHalves(hi: Word, lo: Word, c: nat)
    requires 0 < c < 32
    ensures var in_ := Shifted(Sll, hi, 32 - c);
            && Or(Shifted(Srl, lo, c), in_) < WORD
            && SignedLong(Shifted(Sra, hi, c), Or(Shifted(Srl, lo, c), in_)) == ShiftRight(SignedLong(hi, lo), c)
  {
    var p, q, u, t, a, b := RightPieces(hi, lo, c);
    var s := Signed(hi);
    assert ShiftRight(SignedLong(hi, lo), c) == (s * WORD + lo) / p;
    hide Shifted, Or, Pow2, Signed, ShiftRight;
    RightTotal(s, lo, u, t, a, b, p, q);
  }

  lemma RightPieces(hi: Word, lo: Word, c: nat) returns (p: int, q: int, u: int, t: int, a: int, b: int)
    requires 0 < c < 32
    ensures p == Pow2(c) && p > 0 && q > 0 && p * q == WORD
    ensures Signed(hi) == u * p + t && 0 <= t < p && lo == a * p + b && 0 <= b < p && 0 <= a < q
    ensures Shifted(Srl, lo, c) == a && Signed(Shifted(Sra, hi, c)) == u
    ensures Or(a, Shifted(Sll, hi, 32 - c)) == a + t * q
  {
    p, q := Pow2(c), Pow2(32 - c);
    Cut(c);
    RightShifts(hi, lo, c, p, q);
    hide Shifted, Or, Pow2, Signed;
    Parts(Signed(hi), p);
    Parts(lo, p);
    u, t, a, b := Signed(hi) / p, Signed(hi) % p, lo / p, lo % p;
    Quot(lo, a, b, p, q);
    OrAbove(a, t, q, 32 - c);
  }

  lemma Parts(x: int, p: int)
    requires p > 0
    ensures x == (x / p) * p + x % p && 0 <= x % p < p
  {
  }

  lemma OrAbove(a: nat, t: nat, q: int, k: nat)
    requires q == Pow2(k) && a < q
    ensures t * q >= 0 && Or(a, t * q) == a + t * q
  {
    assert q * t == t * q;
    hide Or, Pow2;
    OrApart(a, t, k);
  }

  lemma RightShifts(hi: Word, lo: Word, c: nat, p: int, q: int)
    requires 0 < c < 32 && p == Pow2(c) && q == Pow2(32 - c) && p > 0 && q > 0 && p * q == WORD
    ensures Shifted(Srl, lo, c) == lo / p && Signed(Shifted(Sra, hi, c)) == Signed(hi) / p
    ensures Shifted(Sll, hi, 32 - c) == (Signed(hi) % p) * q
  {
    RightPart(hi, p, q);
    FloorRange(Signed(hi), p);
    SignedBack(Signed(hi) / p);
    hide Pow2;
  }

  lemma RightTotal(s: int, lo: int, u: int, t: int, a: int, b: int, p: int, q: int)
    requires s == u * p + t && lo == a * p + b && p * q == WORD && p > 0
    requires 0 <= t < p && 0 <= b < p && 0 <= a < q
    ensures 0 <= a + t * q < WORD && (s * WORD + lo) / p == u * WORD + (a + t * q)
  {
    assert q * p == p * q;
    Fits(t, p, a, q);
    RightSum(s, lo, u, t, a, b, p, q);
    FloorIs(s * WORD + lo, u * WORD + t * q + a, b, p);
  }

  lemma RightSum(s: int, lo: int, u: int, t: int, a: int, b: int, p: int, q: int)
    requires s == u * p + t && lo == a * p + b && p * q == WORD
    ensures s * WORD + lo == (u * WORD + t * q + a) * p + b
  {
    assert t * WORD == (t * q) * p by { assert t * (p * q) == (t * q) * p; }
    assert (u * p) * WORD == (u * WORD) * p;
    Three(u * WORD, t * q, a, p);
  }

  lemma Three(x: int, y: int, z: int, p: int)
    ensures (x + y + z) * p == x * p + y * p + z * p
  {
  }

  /** Shifting right by a word or more. */
  lemma RightHigh(hi: Word, lo: Word, c: nat)
    requires 32 <= c < 64
    ensures SignedLong(Shifted(Sra, hi, 31), Shifted(Sra, hi, c - 32)) == ShiftRight(SignedLong(hi, lo), c)
  {
    var p := Pow2(c - 32);
    PowPositive(c - 32);
    PowSum(32, c - 32);
    PowWord();
    SignOf(hi);
    ShiftedRight(hi, c - 32);
    hide Shifted, Pow2;
    var s := Signed(hi);
    var v, r := s / p, s % p;
    Parts(s, p);
    FloorRange(s, p);
    FloorSign(s, v, r, p);
    RightHighSum(s, lo, v, r, p);
    FloorIs(s * WORD + lo, v, r * WORD + lo, WORD * p);
    if v < 0 { WordIs(v, -1, v + WORD); } else { WordIs(v, 0, v); }
  }

  lemma ShiftedRight(x: Word, c: nat)
    requires c < 32
    ensures Pow2(c) != 0 && Shifted(Sra, x, c) == (Signed(x) / Pow2(c)) % WORD
  {
    PowPositive(c);
  }

  lemma FloorSign(s: int, v: int, r: int, p: int)
    requires s == v * p + r && 0 <= r < p
    ensures v < 0 <==> s < 0
  {
    Scale(v, p);
    assert v >= 0 ==> v * p >= 0;
  }

  lemma RightHighSum(s: int, lo: int, v: int, r: int, p: int)
    requires s == v * p + r && 0 <= r < p && 0 <= lo < WORD
    ensures s * WORD + lo == v * (WORD * p) + (r * WORD + lo) && 0 <= r * WORD + lo < WORD * p
  {
    assert v * (WORD * p) == (v * p) * WORD;
    assert (p - 1 - r) * WORD >= 0;
  }

  /** Shifting by 31 leaves the sign. */
  lemma SignOf(hi: Word)
    ensures Shifted(Sra, hi, 31) == if Signed(hi) < 0 then WORD - 1 else 0
  {
    assert Pow2(31) == HALF by {
      PowSum(1, 31);
      PowWord();
    }
    if Signed(hi) < 0 {
      FloorIs(Signed(hi), -1, Signed(hi) + HALF, HALF);
      WordIs(-1, -1, WORD - 1);
    } else {
      FloorIs(Signed(hi), 0, Signed(hi), HALF);
    }
  }

  /** Shifting right by two words or more leaves the sign. */
  lemma RightOut(hi: Word, lo: Word, c: nat)
    requires c >= 64
    ensures SignedLong(Shifted(Sra, hi, 31), Shifted(Sra, hi, 31)) == ShiftRight(SignedLong(hi, lo), c)
  {
    SignOf(hi);
    var s, p := SignedLong(hi, lo), Pow2(c);
    assert p >= LONG by {
      PowSum(32, 32);
      PowWord();
      PowSum(64, c - 64);
      PowPositive(c - 64);
    }
    hide Pow2;
    if s < 0 { FloorIs(s, -1, s + p, p); } else { FloorIs(s, 0, s, p); }
  }
}
