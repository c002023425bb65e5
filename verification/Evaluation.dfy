/**
 Evaluating the compression function of RFC 1321 on given words: the bitwise functions on
 words as bit vectors, additions and rotations on their values.
*/
module Evaluation {
  import opened JsNumbers
  import opened Rfc1321

  // ---- the last bit and the others

  lemma AndHalves(x: nat, y: nat)
    ensures And(x, y) == 2 * And(x / 2, y / 2) + if x % 2 == 1 && y % 2 == 1 then 1 else 0
  {
  }

  lemma OrHalves(x: nat, y: nat)
    ensures Or(x, y) == 2 * Or(x / 2, y / 2) + if x % 2 == 1 || y % 2 == 1 then 1 else 0
  {
  }

  lemma XorHalves(x: nat, y: nat)
    ensures Xor(x, y) == 2 * Xor(x / 2, y / 2) + if x % 2 != y % 2 then 1 else 0
  {
  }

  // ---- one octet

  function Val(x: bv8): nat { x as int }
  function Bit(x: bv8): nat { (x & 1) as int }

  lemma LastBit(x: bv8)
    ensures Val(x) == 2 * Val(x >> 1) + Bit(x) && Bit(x) <= 1 && (x != 0 ==> Val(x >> 1) < Val(x)) && Val(0) == 0
  {
  }

  lemma AndBits(x: bv8, y: bv8)
    ensures (x & y) >> 1 == (x >> 1) & (y >> 1)
    ensures Bit(x & y) == if Bit(x) == 1 && Bit(y) == 1 then 1 else 0
  {
  }

  lemma OrBits(x: bv8, y: bv8)
    ensures (x | y) >> 1 == (x >> 1) | (y >> 1)
    ensures Bit(x | y) == if Bit(x) == 1 || Bit(y) == 1 then 1 else 0
  {
  }

  lemma XorBits(x: bv8, y: bv8)
    ensures (x ^ y) >> 1 == (x >> 1) ^ (y >> 1)
    ensures Bit(x ^ y) == if Bit(x) != Bit(y) then 1 else 0
  {
  }

  lemma {:induction false} AndOctet(x: bv8, y: bv8)
    ensures And(Val(x), Val(y)) == Val(x & y)
    decreases Val(x) + Val(y)
  {
    hide Val, Bit, And;
    LastBit(x);
    LastBit(y);
    AndHalves(Val(x), Val(y));
    if x == 0 && y == 0 {
      AndHalves(0, 0);
    } else {
      LastBit(x & y);
      AndBits(x, y);
      AndOctet(x >> 1, y >> 1);
    }
  }

  lemma {:induction false} OrOctet(x: bv8, y: bv8)
    ensures Or(Val(x), Val(y)) == Val(x | y)
    decreases Val(x) + Val(y)
  {
    hide Val, Bit, Or;
    LastBit(x);
    LastBit(y);
    OrHalves(Val(x), Val(y));
    if x == 0 && y == 0 {
      OrHalves(0, 0);
    } else {
      LastBit(x | y);
      OrBits(x, y);
      OrOctet(x >> 1, y >> 1);
    }
  }

  lemma {:induction false} XorOctet(x: bv8, y: bv8)
    ensures Xor(Val(x), Val(y)) == Val(x ^ y)
    decreases Val(x) + Val(y)
  {
    hide Val, Bit, Xor;
    LastBit(x);
    LastBit(y);
    XorHalves(Val(x), Val(y));
    if x == 0 && y == 0 {
      XorHalves(0, 0);
    } else {
      LastBit(x ^ y);
      XorBits(x, y);
      XorOctet(x >> 1, y >> 1);
    }
  }

  // ---- one octet behind the others

  lemma {:induction false} AndBehind(x: nat, y: nat, a: nat, b: nat, p: nat, s: nat)
    requires p == Pow2(s) && a < p && b < p
    ensures And(x * p + a, y * p + b) == And(x, y) * p + And(a, b)
  {
    hide And;
    if s == 0 {
      AndHalves(0, 0);
    } else {
      var h := Pow2(s - 1);
      HalfBehind(x, a, h);
      HalfBehind(y, b, h);
      AndHalves(x * p + a, y * p + b);
      AndHalves(a, b);
      AndBehind(x, y, a / 2, b / 2, h, s - 1);
      Doubled(And(x, y), h);
    }
  }

  lemma {:induction false} OrBehind(x: nat, y: nat, a: nat, b: nat, p: nat, s: nat)
    requires p == Pow2(s) && a < p && b < p
    ensures Or(x * p + a, y * p + b) == Or(x, y) * p + Or(a, b)
  {
    hide Or;
    if s == 0 {
      OrHalves(0, 0);
    } else {
      var h := Pow2(s - 1);
      HalfBehind(x, a, h);
      HalfBehind(y, b, h);
      OrHalves(x * p + a, y * p + b);
      OrHalves(a, b);
      OrBehind(x, y, a / 2, b / 2, h, s - 1);
      Doubled(Or(x, y), h);
    }
  }

  lemma {:induction false} XorBehind(x: nat, y: nat, a: nat, b: nat, p: nat, s: nat)
    requires p == Pow2(s) && a < p && b < p
    ensures Xor(x * p + a, y * p + b) == Xor(x, y) * p + Xor(a, b)
  {
    hide Xor;
    if s == 0 {
      XorHalves(0, 0);
    } else {
      var h := Pow2(s - 1);
      HalfBehind(x, a, h);
      HalfBehind(y, b, h);
      XorHalves(x * p + a, y * p + b);
      XorHalves(a, b);
      XorBehind(x, y, a / 2, b / 2, h, s - 1);
      Doubled(Xor(x, y), h);
    }
  }

  lemma HalfBehind(x: nat, a: nat, h: nat)
    ensures (x * (2 * h) + a) / 2 == x * h + a / 2 && (x * (2 * h) + a) % 2 == a % 2
    ensures x * (2 * h) >= 0
  {
    assert x * (2 * h) == 2 * (x * h);
  }

  lemma Doubled(v: nat, h: nat)
    ensures 2 * (v * h) == v * (2 * h)
  {
  }

  // ---- words

  function Value(x: bv32): Word { x as int }
  function BothBits(x: bv32, y: bv32): bv32 { x & y }
  function AnyBits(x: bv32, y: bv32): bv32 { x | y }
  function OtherBits(x: bv32, y: bv32): bv32 { x ^ y }
  function Flipped(x: bv32): bv32 { !x }

  // The word of four octets, high-order octet first.
  function Joined(a: bv8, b: bv8, c: bv8, d: bv8): bv32
  {
    ((((a as bv32) << 24) | ((b as bv32) << 16)) | ((c as bv32) << 8)) | (d as bv32)
  }

  function Total(a: nat, b: nat, c: nat, d: nat): nat
  {
    ((a * 0x100 + b) * 0x100 + c) * 0x100 + d
  }

  lemma ValueIs(a: bv8, b: bv8, c: bv8, d: bv8)
    ensures Value(Joined(a, b, c, d)) == Total(Val(a), Val(b), Val(c), Val(d))
  {
  }

  lemma Octets(x: bv32) returns (a: bv8, b: bv8, c: bv8, d: bv8)
    ensures x == Joined(a, b, c, d)
  {
    a, b, c, d := (x >> 24) as bv8, ((x >> 16) & 0xff) as bv8, ((x >> 8) & 0xff) as bv8, (x & 0xff) as bv8;
  }

  lemma AndJoined(a: bv8, b: bv8, c: bv8, d: bv8, p: bv8, q: bv8, r: bv8, s: bv8)
    ensures BothBits(Joined(a, b, c, d), Joined(p, q, r, s)) == Joined(a & p, b & q, c & r, d & s)
  {
  }

  lemma OrJoined(a: bv8, b: bv8, c: bv8, d: bv8, p: bv8, q: bv8, r: bv8, s: bv8)
    ensures AnyBits(Joined(a, b, c, d), Joined(p, q, r, s)) == Joined(a | p, b | q, c | r, d | s)
  {
  }

  lemma XorJoined(a: bv8, b: bv8, c: bv8, d: bv8, p: bv8, q: bv8, r: bv8, s: bv8)
    ensures OtherBits(Joined(a, b, c, d), Joined(p, q, r, s)) == Joined(a ^ p, b ^ q, c ^ r, d ^ s)
  {
  }

  lemma NotJoined(a: bv8, b: bv8, c: bv8, d: bv8)
    ensures Flipped(Joined(a, b, c, d)) == Joined(!a, !b, !c, !d)
  {
  }

  lemma OctetBound(x: bv8)
    ensures Val(x) < 0x100 && Val(!x) == 0xff - Val(x)
  {
  }

  lemma OctetBounds(x: bv8, y: bv8, z: bv8)
    ensures Val(x) < 0x100 && Val(!x) == 0xff - Val(x)
    ensures Val(y) < 0x100 && Val(!y) == 0xff - Val(y)
    ensures Val(z) < 0x100 && Val(!z) == 0xff - Val(z)
  {
    hide Val;
    OctetBound(x);
    OctetBound(y);
    OctetBound(z);
  }

  lemma EightBits()
    ensures Pow2(8) == 0x100
  {
    Pow2Values();
  }

  lemma AndTotal(a: nat, b: nat, c: nat, d: nat, p: nat, q: nat, r: nat, s: nat)
    requires b < 0x100 && c < 0x100 && d < 0x100 && q < 0x100 && r < 0x100 && s < 0x100
    ensures And(Total(a, b, c, d), Total(p, q, r, s)) == Total(And(a, p), And(b, q), And(c, r), And(d, s))
  {
    hide And;
    EightBits();
    AndBehind(a, p, b, q, 0x100, 8);
    AndBehind(a * 0x100 + b, p * 0x100 + q, c, r, 0x100, 8);
    AndBehind((a * 0x100 + b) * 0x100 + c, (p * 0x100 + q) * 0x100 + r, d, s, 0x100, 8);
  }

  lemma OrTotal(a: nat, b: nat, c: nat, d: nat, p: nat, q: nat, r: nat, s: nat)
    requires b < 0x100 && c < 0x100 && d < 0x100 && q < 0x100 && r < 0x100 && s < 0x100
    ensures Or(Total(a, b, c, d), Total(p, q, r, s)) == Total(Or(a, p), Or(b, q), Or(c, r), Or(d, s))
  {
    hide Or;
    EightBits();
    OrBehind(a, p, b, q, 0x100, 8);
    OrBehind(a * 0x100 + b, p * 0x100 + q, c, r, 0x100, 8);
    OrBehind((a * 0x100 + b) * 0x100 + c, (p * 0x100 + q) * 0x100 + r, d, s, 0x100, 8);
  }

  lemma XorTotal(a: nat, b: nat, c: nat, d: nat, p: nat, q: nat, r: nat, s: nat)
    requires b < 0x100 && c < 0x100 && d < 0x100 && q < 0x100 && r < 0x100 && s < 0x100
    ensures Xor(Total(a, b, c, d), Total(p, q, r, s)) == Total(Xor(a, p), Xor(b, q), Xor(c, r), Xor(d, s))
  {
    hide Xor;
    EightBits();
    XorBehind(a, p, b, q, 0x100, 8);
    XorBehind(a * 0x100 + b, p * 0x100 + q, c, r, 0x100, 8);
    XorBehind((a * 0x100 + b) * 0x100 + c, (p * 0x100 + q) * 0x100 + r, d, s, 0x100, 8);
  }

  lemma AndIs(x: bv32, y: bv32)
    ensures And(Value(x), Value(y)) == Value(BothBits(x, y))
  {
    hide And, BothBits, Val, Value, Joined, Total;
    var a, b, c, d := Octets(x);
    var p, q, r, s := Octets(y);
    AndJoined(a, b, c, d, p, q, r, s);
    ValueIs(a, b, c, d);
    ValueIs(p, q, r, s);
    ValueIs(a & p, b & q, c & r, d & s);
    OctetBounds(b, c, d);
    OctetBounds(q, r, s);
    AndTotal(Val(a), Val(b), Val(c), Val(d), Val(p), Val(q), Val(r), Val(s));
    AndOctet(a, p);
    AndOctet(b, q);
    AndOctet(c, r);
    AndOctet(d, s);
  }

  lemma OrIs(x: bv32, y: bv32)
    ensures Or(Value(x), Value(y)) == Value(AnyBits(x, y))
  {
    hide Or, AnyBits, Val, Value, Joined, Total;
    var a, b, c, d := Octets(x);
    var p, q, r, s := Octets(y);
    OrJoined(a, b, c, d, p, q, r, s);
    ValueIs(a, b, c, d);
    ValueIs(p, q, r, s);
    ValueIs(a | p, b | q, c | r, d | s);
    OctetBounds(b, c, d);
    OctetBounds(q, r, s);
    OrTotal(Val(a), Val(b), Val(c), Val(d), Val(p), Val(q), Val(r), Val(s));
    OrOctet(a, p);
    OrOctet(b, q);
    OrOctet(c, r);
    OrOctet(d, s);
  }

  lemma XorIs(x: bv32, y: bv32)
    ensures Xor(Value(x), Value(y)) == Value(OtherBits(x, y))
  {
    hide Xor, OtherBits, Val, Value, Joined, Total;
    var a, b, c, d := Octets(x);
    var p, q, r, s := Octets(y);
    XorJoined(a, b, c, d, p, q, r, s);
    ValueIs(a, b, c, d);
    ValueIs(p, q, r, s);
    ValueIs(a ^ p, b ^ q, c ^ r, d ^ s);
    OctetBounds(b, c, d);
    OctetBounds(q, r, s);
    XorTotal(Val(a), Val(b), Val(c), Val(d), Val(p), Val(q), Val(r), Val(s));
    XorOctet(a, p);
    XorOctet(b, q);
    XorOctet(c, r);
    XorOctet(d, s);
  }

  lemma NotIs(x: bv32)
    ensures Not(Value(x)) == Value(Flipped(x))
  {
    hide Val, Value, Joined, Flipped;
    var a, b, c, d := Octets(x);
    NotJoined(a, b, c, d);
    ValueIs(a, b, c, d);
    ValueIs(!a, !b, !c, !d);
    OctetBounds(a, b, c);
    OctetBounds(b, c, d);
  }

  // The four auxiliary functions on bit vectors.
  function Mixed(i: nat, x: bv32, y: bv32, z: bv32): bv32
  {
    if i < 16 then AnyBits(BothBits(x, y), BothBits(Flipped(x), z))
    else if i < 32 then AnyBits(BothBits(x, z), BothBits(y, Flipped(z)))
    else if i < 48 then OtherBits(OtherBits(x, y), z)
    else OtherBits(y, AnyBits(x, Flipped(z)))
  }

  lemma MixIs(i: nat, x: bv32, y: bv32, z: bv32)
    ensures Mix(i, Value(x), Value(y), Value(z)) == Value(Mixed(i, x, y, z))
  {
    hide And, Or, Xor, Not, Value, BothBits, AnyBits, OtherBits, Flipped;
    NotIs(x);
    NotIs(z);
    if i < 16 {
      AndIs(x, y);
      AndIs(Flipped(x), z);
      OrIs(BothBits(x, y), BothBits(Flipped(x), z));
    } else if i < 32 {
      AndIs(x, z);
      AndIs(y, Flipped(z));
      OrIs(BothBits(x, z), BothBits(y, Flipped(z)));
    } else if i < 48 {
      XorIs(x, y);
      XorIs(OtherBits(x, y), z);
    } else {
      OrIs(x, Flipped(z));
      XorIs(y, AnyBits(x, Flipped(z)));
    }
  }

  // ---- one operation

  function StateOf(a: bv32, b: bv32, c: bv32, d: bv32): State
  {
    State(Value(a), Value(b), Value(c), Value(d))
  }

  // 2^s for the distances of rotations and their complements.
  function TwoTo(s: nat): nat
  {
    if s < 10 then
      (if s == 4 then 0x10 else if s == 5 then 0x20 else if s == 6 then 0x40 else if s == 7 then 0x80 else 0x200)
    else if s < 16 then
      (if s == 10 then 0x400 else if s == 11 then 0x800 else if s == 12 then 0x1000
       else if s == 14 then 0x4000 else 0x8000)
    else if s < 22 then
      (if s == 16 then 0x1_0000 else if s == 17 then 0x2_0000 else if s == 18 then 0x4_0000
       else if s == 20 then 0x10_0000 else 0x20_0000)
    else
      (if s == 22 then 0x40_0000 else if s == 23 then 0x80_0000 else if s == 25 then 0x200_0000
       else if s == 26 then 0x400_0000 else if s == 27 then 0x800_0000 else 0x1000_0000)
  }

  lemma Powers(i: nat)
    ensures TwoTo(Shift(i)) == Pow2(Shift(i)) && TwoTo(32 - Shift(i)) == Pow2(32 - Shift(i))
  {
    assert Pow2(4) == 0x10;
    assert Pow2(8) == 0x100;
    assert Pow2(12) == 0x1000;
    assert Pow2(16) == 0x1_0000;
    assert Pow2(20) == 0x10_0000;
    assert Pow2(24) == 0x100_0000;
    assert Pow2(28) == 0x1000_0000;
  }

  /**
   One operation on known registers. The sum is `carry` times 2^32 and two parts, `high`
   and `low`, that the rotation swaps.
  */
  lemma Next(i: nat, init: State, x: seq<Word>, a: bv32, b: bv32, c: bv32, d: bv32,
             m: bv32, carry: nat, high: nat, low: nat, e: bv32)
    requires i < 64 && |x| == 16 && Operations(i, init, x) == StateOf(a, b, c, d)
    requires m == Mixed(i, b, c, d)
    requires low < TwoTo(32 - Shift(i)) && high < TwoTo(Shift(i))
    requires Value(a) + Value(m) + x[WordIndex(i)] + Sine(i) == carry * TWO_32 + high * TwoTo(32 - Shift(i)) + low
    requires Value(b) + low * TwoTo(Shift(i)) + high == Value(e)
             || Value(b) + low * TwoTo(Shift(i)) + high == TWO_32 + Value(e)
    ensures Operations(i + 1, init, x) == StateOf(d, e, b, c)
  {
    hide Mix, Mixed, Value, TwoTo, Shift, Sine, WordIndex, Pow2, Rotl, Operations, Operation, U32;
    var s := Shift(i);
    var p, q := TwoTo(s), TwoTo(32 - s);
    Powers(i);
    AllBits(s);
    MixIs(i, b, c, d);
    Rotated(high, low, carry, p, q, s);
    OperationsNext(i, init, x);
    Reduced(low * p + high + Value(b), Value(e));
    OperationIs(i, x, StateOf(a, b, c, d), high * q + low, low * p + high, Value(e));
  }

  lemma AllBits(s: nat)
    requires s <= 32
    ensures Pow2(s) * Pow2(32 - s) == TWO_32
  {
    hide Pow2;
    Pow2Sum(s, 32 - s);
    Pow2Values();
  }

  lemma Reduced(x: nat, e: Word)
    requires x == e || x == TWO_32 + e
    ensures U32(x) == e
  {
  }

  lemma OperationIs(i: nat, x: seq<Word>, now: State, sum: Word, turned: int, e: Word)
    requires |x| == 16 && U32(now.a + Mix(i, now.b, now.c, now.d) + x[WordIndex(i)] + Sine(i)) == sum
    requires Rotl(sum, Shift(i)) == turned && U32(turned + now.b) == e
    ensures Operation(i, now, x) == State(now.d, e, now.b, now.c)
  {
    hide Mix, Shift, Sine, WordIndex, Rotl;
  }

  lemma OperationsNext(i: nat, init: State, x: seq<Word>)
    requires |x| == 16
    ensures Operations(i + 1, init, x) == Operation(i, Operations(i, init, x), x)
  {
  }

  lemma Rotated(high: nat, low: nat, carry: nat, p: nat, q: nat, s: nat)
    requires s <= 32 && p == Pow2(s) && q == Pow2(32 - s) && p * q == TWO_32 && low < q && high < p
    ensures high * q + low < TWO_32 && U32(carry * TWO_32 + high * q + low) == high * q + low
    ensures Rotl(high * q + low, s) == low * p + high
  {
    hide Pow2;
    InWord(high, low, p, q);
    var sum := high * q + low;
    DivModUnique(carry * TWO_32 + sum, TWO_32, carry, sum);
    DivModUnique(sum, q, high, low);
  }

  lemma InWord(high: nat, low: nat, p: nat, q: nat)
    requires p * q == TWO_32 && low < q && high < p
    ensures 0 <= high * q + low < TWO_32
  {
    MulMonotone(high, p - 1, q);
    MulMonotone(0, high, q);
    assert (p - 1) * q == p * q - q by { MulSub(p, 1, q); }
  }
}
