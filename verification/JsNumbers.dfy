/**
 JavaScript numbers as mathematical integers, with the 32-bit operators spelled out.
 A number is exact as long as it stays below 2^53; `Exact` says so where it matters.
 Bitwise operators first reduce their operands modulo 2^32, work on the bits, and
 return a signed 32-bit result; `>>>` returns an unsigned one.
*/
module JsNumbers {

  const TWO_32: int := 0x1_0000_0000
  const TWO_31: int := 0x8000_0000
  const TWO_53: int := 0x20_0000_0000_0000

  type Word = x: int | 0 <= x < 0x1_0000_0000
  type Octet = x: int | 0 <= x < 0x100

  predicate Exact(x: int) { -TWO_53 < x < TWO_53 }
  predicate IsInt32(x: int) { -TWO_31 <= x < TWO_31 }

  // ---- bit operations on naturals, from the least significant bit upwards

  function And(x: nat, y: nat): nat
  {
    if x == 0 && y == 0 then 0
    else 2 * And(x / 2, y / 2) + (if x % 2 == 1 && y % 2 == 1 then 1 else 0)
  }

  function Or(x: nat, y: nat): nat
  {
    if x == 0 && y == 0 then 0
    else 2 * Or(x / 2, y / 2) + (if x % 2 == 1 || y % 2 == 1 then 1 else 0)
  }

  function Xor(x: nat, y: nat): nat
  {
    if x == 0 && y == 0 then 0
    else 2 * Xor(x / 2, y / 2) + (if x % 2 != y % 2 then 1 else 0)
  }

  // All bits but the last, and the last.
  function Half(x: nat): nat { x / 2 }
  predicate Odd(x: nat) { x % 2 == 1 }

  lemma AndHalf(x: nat, y: nat)
    ensures Half(And(x, y)) == And(Half(x), Half(y)) && (Odd(And(x, y)) <==> Odd(x) && Odd(y))
  {
  }

  lemma OrHalf(x: nat, y: nat)
    ensures Half(Or(x, y)) == Or(Half(x), Half(y)) && (Odd(Or(x, y)) <==> Odd(x) || Odd(y))
  {
  }

  lemma XorHalf(x: nat, y: nat)
    ensures Half(Xor(x, y)) == Xor(Half(x), Half(y)) && (Odd(Xor(x, y)) <==> Odd(x) != Odd(y))
  {
  }

  lemma SameBits(x: nat, y: nat)
    requires Half(x) == Half(y) && Odd(x) == Odd(y)
    ensures x == y
  {
  }

  function Pow2(k: nat): (p: nat)
    ensures p >= 1
  {
    if k == 0 then 1 else 2 * Pow2(k - 1)
  }

  lemma Pow2Values()
    ensures Pow2(3) == 8 && Pow2(4) == 16 && Pow2(5) == 32 && Pow2(6) == 64 && Pow2(8) == 256
    ensures Pow2(10) == 0x400 && Pow2(16) == 0x1_0000 && Pow2(24) == 0x100_0000
    ensures Pow2(32) == TWO_32
  {
    assert Pow2(8) == 256 by { assert Pow2(4) == 16; }
    assert Pow2(16) == 0x1_0000 by { Pow2Sum(8, 8); }
    assert Pow2(24) == 0x100_0000 by { Pow2Sum(8, 16); }
    assert Pow2(32) == TWO_32 by { Pow2Sum(16, 16); }
  }

  lemma {:induction false} Pow2Sum(i: nat, j: nat)
    ensures Pow2(i + j) == Pow2(i) * Pow2(j)
  {
    if i != 0 {
      Pow2Sum(i - 1, j);
      assert Pow2(i + j) == 2 * (Pow2(i - 1) * Pow2(j)) == (2 * Pow2(i - 1)) * Pow2(j);
    }
  }

  // Bit operations stay within the width of their operands.
  lemma {:induction false} BitsFit(x: nat, y: nat, k: nat)
    requires x < Pow2(k) && y < Pow2(k)
    ensures And(x, y) < Pow2(k) && Or(x, y) < Pow2(k) && Xor(x, y) < Pow2(k)
  {
    if k != 0 { BitsFit(x / 2, y / 2, k - 1); }
  }

  // An operand whose low s bits are clear and one that has only those: or is addition.
  lemma {:induction false} OrDisjoint(x: nat, y: nat, s: nat)
    requires y < Pow2(s)
    ensures Or(x * Pow2(s), y) == x * Pow2(s) + y
    decreases s
  {
    if s == 0 {
      OrZero(x);
    } else {
      var h := x * Pow2(s - 1);
      OrDisjoint(x, y / 2, s - 1);
      MulDouble(x, Pow2(s - 1));
      OrDoubled(h, y);
    }
  }

  lemma OrDoubled(h: nat, y: nat)
    requires Or(h, y / 2) == h + y / 2
    ensures Or(2 * h, y) == 2 * h + y
  {
    hide Or;
    OrHalf(2 * h, y);
    SameBits(Or(2 * h, y), 2 * h + y);
  }

  lemma MulDouble(x: int, p: int)
    ensures x * (2 * p) == 2 * (x * p)
  {
  }

  lemma {:induction false} OrZero(x: nat)
    ensures Or(x, 0) == x
  {
    if x != 0 { OrZero(x / 2); }
  }

  // Masking with 2^s - 1 is taking the remainder.
  lemma {:induction false} AndMask(x: nat, s: nat)
    ensures And(x, Pow2(s) - 1) == x % Pow2(s)
    decreases s
  {
    if s == 0 {
      AndZero(x);
    } else {
      AndMask(x / 2, s - 1);
      AndMaskDoubled(x, Pow2(s - 1));
    }
  }

  lemma AndMaskDoubled(x: nat, p: nat)
    requires p > 0 && And(x / 2, p - 1) == (x / 2) % p
    ensures And(x, 2 * p - 1) == x % (2 * p)
  {
    hide And;
    AndHalf(x, 2 * p - 1);
    ModDouble(x, p);
    SameBits(And(x, 2 * p - 1), x % (2 * p));
  }

  lemma ModDouble(x: nat, p: nat)
    requires p > 0
    ensures x % (2 * p) == 2 * ((x / 2) % p) + x % 2
  {
    var q, r := (x / 2) / p, (x / 2) % p;
    assert x == q * (2 * p) + (2 * r + x % 2);
    DivModUnique(x, 2 * p, q, 2 * r + x % 2);
  }

  lemma {:induction false} AndZero(x: nat)
    ensures And(x, 0) == 0
  {
    if x != 0 { AndZero(x / 2); }
  }

  lemma DivModUnique(x: int, m: int, q: int, r: int)
    requires m > 0 && 0 <= r < m && x == q * m + r
    ensures x / m == q && x % m == r
  {
    var k, t := x / m, x % m;
    assert x == k * m + t;
    QuotientUnique(m, q, r, k, t);
  }

  lemma QuotientUnique(m: int, q: int, r: int, k: int, t: int)
    requires 0 <= r < m && 0 <= t < m && q * m + r == k * m + t
    ensures q == k && r == t
  {
    MulSub(q, k, m);
    MulSub(k, q, m);
    if q > k { MulAtLeast(q - k, m); }
    if q < k { MulAtLeast(k - q, m); }
  }

  lemma MulAtLeast(d: int, m: int)
    requires d >= 1 && m >= 0
    ensures d * m >= m
  {
  }

  lemma MulSub(q: int, k: int, m: int)
    ensures (q - k) * m == q * m - k * m
  {
  }

  // ---- the 32-bit operators

  function U32(x: int): Word { x % TWO_32 }

  function I32(x: int): (r: int)
    ensures IsInt32(r) && U32(r) == U32(x)
  {
    var w := U32(x);
    if w < TWO_31 then w else w - TWO_32
  }

  lemma Small(x: int)
    requires 0 <= x < TWO_31
    ensures U32(x) == x && I32(x) == x
  {
  }

  function JsAnd(x: int, y: int): int { I32(And(U32(x), U32(y))) }
  function JsOr(x: int, y: int): int { I32(Or(U32(x), U32(y))) }
  function JsXor(x: int, y: int): (r: int) ensures IsInt32(r) { I32(Xor(U32(x), U32(y))) }
  function JsNot(x: int): int { I32(TWO_32 - 1 - U32(x)) }
  function JsShl(x: int, s: nat): int { I32(U32(x) * Pow2(s)) }
  function JsShr(x: int, s: nat): int { I32(x) / Pow2(s) }
  function JsUShr(x: int, s: nat): int { U32(x) / Pow2(s) }

  lemma BitsFit32(x: Word, y: Word)
    ensures And(x, y) < TWO_32 && Or(x, y) < TWO_32 && Xor(x, y) < TWO_32
  {
    Pow2Values();
    BitsFit(x, y, 32);
  }

  lemma U32Add(x: int, y: int)
    ensures U32(x + y) == U32(U32(x) + U32(y)) == U32(x + U32(y))
  {
  }

  /** Circular left shift of a 32-bit word: the high s bits change places with the rest. */
  function Rotl(x: Word, s: nat): int
    requires s <= 32
  {
    (x % Pow2(32 - s)) * Pow2(s) + x / Pow2(32 - s)
  }

  // Multiplying by p modulo p * q shifts the high part (the quotient by q) out.
  lemma ShiftOut(w: int, p: int, q: int, m: int)
    requires p > 0 && q > 0 && p * q == m && 0 <= w < m
    ensures (w * p) % m == (w % q) * p
    ensures 0 <= w / q < p
    ensures 0 <= (w % q) * p <= m - p
  {
    var hi, lo := w / q, w % q;
    assert w == hi * q + lo;
    calc {
      w * p;
      (hi * q + lo) * p;
      (hi * q) * p + lo * p;
      { assert (hi * q) * p == hi * (q * p); }
      hi * m + lo * p;
    }
    MulSub(q, 1, p);
    MulMonotone(lo, q - 1, p);
    MulMonotone(0, lo, p);
    DivModUnique(w * p, m, hi, lo * p);
    if hi >= p { MulMonotone(p, hi, q); }
  }

  lemma MulMonotone(x: int, y: int, p: int)
    requires x <= y && p >= 0
    ensures x * p <= y * p
  {
  }

  /** `x << s | x >>> 32 - s` is the circular shift. */
  lemma RotateIsRotl(x: int, s: nat)
    requires s <= 32
    ensures U32(JsOr(JsShl(x, s), JsUShr(x, 32 - s))) == Rotl(U32(x), s)
  {
    hide Or, Pow2;
    var w: int, p, q := U32(x), Pow2(s), Pow2(32 - s);
    Pow2Sum(s, 32 - s);
    Pow2Values();
    ShiftOut(w, p, q, TWO_32);
    MulMonotone(1, q, p);
    var hi, lo := (w % q) * p, w / q;
    assert U32(JsShl(x, s)) == hi;
    assert JsUShr(x, 32 - s) == lo && U32(lo) == lo;
    OrDisjoint(w % q, lo, s);
    assert U32(hi + lo) == hi + lo;
  }
}
