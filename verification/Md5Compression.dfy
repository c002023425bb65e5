/**
 The unrolled block transformation of js-md5, on JavaScript numbers, and its proof
 against the four rounds of RFC 1321.
*/
module Md5Compression {
  import opened JsNumbers
  import opened Rfc1321

  // ---- the auxiliary functions as the program writes them

  function ChooseF(b: int, c: int, d: int): int { JsXor(d, JsAnd(b, JsXor(c, d))) }
  function ChooseG(b: int, c: int, d: int): int { JsXor(c, JsAnd(d, JsXor(b, c))) }
  function ParityH(shared: int, other: int): (r: int) ensures IsInt32(r) { JsXor(shared, other) }
  function MixI(b: int, c: int, d: int): int { JsXor(c, JsOr(b, JsNot(d))) }

  // x = (x << s | x >>> 32 - s) + b << 0, with x the unreduced sum
  function Turn(x: int, b: int, s: nat): (r: int)
    requires s <= 32
    ensures IsInt32(r)
  {
    I32(JsOr(JsShl(x, s), JsUShr(x, 32 - s)) + b)
  }

  // ---- bit identities, by induction on the width

  lemma {:induction false} ChooseBits(b: nat, c: nat, d: nat, k: nat)
    requires b < Pow2(k) && c < Pow2(k) && d < Pow2(k)
    ensures Xor(d, And(b, Xor(c, d))) == Or(And(b, c), And(Pow2(k) - 1 - b, d))
  {
    if k != 0 {
      ChooseBits(b / 2, c / 2, d / 2, k - 1);
      ComplementHalf(b, k);
      ChooseHalf(b, c, d, Pow2(k) - 1 - b);
    }
  }

  lemma ComplementHalf(b: nat, k: nat)
    requires k > 0 && b < Pow2(k)
    ensures var n := Pow2(k) - 1 - b; Half(n) == Pow2(k - 1) - 1 - b / 2 && Odd(n) == !Odd(b)
  {
  }

  lemma ChooseHalf(b: nat, c: nat, d: nat, n: nat)
    requires Odd(n) == !Odd(b)
    requires Xor(Half(d), And(Half(b), Xor(Half(c), Half(d)))) == Or(And(Half(b), Half(c)), And(Half(n), Half(d)))
    ensures Xor(d, And(b, Xor(c, d))) == Or(And(b, c), And(n, d))
  {
    hide And, Or, Xor, Half, Odd;
    ChosenHalves(b, c, d, n);
    SameBits(Xor(d, And(b, Xor(c, d))), Or(And(b, c), And(n, d)));
  }

  lemma ChosenHalves(b: nat, c: nat, d: nat, n: nat)
    ensures var x, y := Xor(d, And(b, Xor(c, d))), Or(And(b, c), And(n, d));
            Half(x) == Xor(Half(d), And(Half(b), Xor(Half(c), Half(d))))
            && Half(y) == Or(And(Half(b), Half(c)), And(Half(n), Half(d)))
            && (Odd(n) == !Odd(b) ==> Odd(x) == Odd(y))
  {
    hide And, Or, Xor, Half, Odd;
    XorHalf(c, d);
    AndHalf(b, Xor(c, d));
    XorHalf(d, And(b, Xor(c, d)));
    AndHalf(b, c);
    AndHalf(n, d);
    OrHalf(And(b, c), And(n, d));
  }

  lemma {:induction false} AndCommutes(x: nat, y: nat)
    ensures And(x, y) == And(y, x)
  {
    if x != 0 || y != 0 { AndCommutes(x / 2, y / 2); }
  }

  lemma {:induction false} XorCommutes(x: nat, y: nat)
    ensures Xor(x, y) == Xor(y, x)
  {
    if x != 0 || y != 0 { XorCommutes(x / 2, y / 2); }
  }

  lemma {:induction false} XorAssociates(x: nat, y: nat, z: nat)
    ensures Xor(Xor(x, y), z) == Xor(x, Xor(y, z))
  {
    if x != 0 || y != 0 || z != 0 {
      XorAssociates(x / 2, y / 2, z / 2);
      XorAssociatesHalf(x, y, z);
    }
  }

  lemma XorAssociatesHalf(x: nat, y: nat, z: nat)
    requires Xor(Xor(Half(x), Half(y)), Half(z)) == Xor(Half(x), Xor(Half(y), Half(z)))
    ensures Xor(Xor(x, y), z) == Xor(x, Xor(y, z))
  {
    hide Xor, Half, Odd;
    XorHalf(x, y);
    XorHalf(Xor(x, y), z);
    XorHalf(y, z);
    XorHalf(x, Xor(y, z));
    SameBits(Xor(Xor(x, y), z), Xor(x, Xor(y, z)));
  }

  lemma JsAndWord(x: int, y: int)
    ensures U32(JsAnd(x, y)) == And(U32(x), U32(y))
  {
    BitsFit32(U32(x), U32(y));
  }

  lemma JsOrWord(x: int, y: int)
    ensures U32(JsOr(x, y)) == Or(U32(x), U32(y))
  {
    BitsFit32(U32(x), U32(y));
  }

  lemma JsXorWord(x: int, y: int)
    ensures U32(JsXor(x, y)) == Xor(U32(x), U32(y))
  {
    BitsFit32(U32(x), U32(y));
  }

  /** The rewritten F is the F of section 3.4. */
  lemma ChooseFIsF(b: int, c: int, d: int)
    ensures U32(ChooseF(b, c, d)) == F(U32(b), U32(c), U32(d))
  {
    JsXorWord(c, d);
    JsAndWord(b, JsXor(c, d));
    JsXorWord(d, JsAnd(b, JsXor(c, d)));
    Pow2Values();
    ChooseBits(U32(b), U32(c), U32(d), 32);
  }

  /** The rewritten G is the G of section 3.4: d chooses between b and c. */
  lemma ChooseGIsG(b: int, c: int, d: int)
    ensures U32(ChooseG(b, c, d)) == G(U32(b), U32(c), U32(d))
  {
    JsXorWord(b, c);
    JsAndWord(d, JsXor(b, c));
    JsXorWord(c, JsAnd(d, JsXor(b, c)));
    Pow2Values();
    ChooseBits(U32(d), U32(b), U32(c), 32);
    AndCommutes(U32(d), U32(b));
    AndCommutes(Not(U32(d)), U32(c));
  }

  /** The xor shared between two operations gives H whichever pair it was formed from. */
  lemma SharedXorIsH(b: int, c: int, d: int)
    ensures U32(ParityH(JsXor(b, c), d)) == H(U32(b), U32(c), U32(d))
    ensures U32(ParityH(JsXor(c, d), b)) == H(U32(b), U32(c), U32(d))
  {
    JsXorWord(b, c);
    JsXorWord(JsXor(b, c), d);
    JsXorWord(c, d);
    JsXorWord(JsXor(c, d), b);
    XorAssociates(U32(b), U32(c), U32(d));
    XorCommutes(U32(b), Xor(U32(c), U32(d)));
  }

  lemma MixIIsI(b: int, c: int, d: int)
    ensures U32(MixI(b, c, d)) == I(U32(b), U32(c), U32(d))
  {
    hide JsOr, JsXor, JsNot, Or, Xor, U32;
    JsNotWord(d);
    JsOrWord(b, JsNot(d));
    JsXorWord(c, JsOr(b, JsNot(d)));
  }

  lemma JsNotWord(x: int)
    ensures U32(JsNot(x)) == Not(U32(x))
  {
  }

  // ---- one operation

  function Registers(a: int, b: int, c: int, d: int): State { State(U32(a), U32(b), U32(c), U32(d)) }

  /**
   One statement pair of the program is one operation of the standard, although the
   program adds without reducing: the sum is a number that JavaScript holds exactly.
  */
  lemma StepIsOperation(i: nat, x: seq<Word>, a: int, b: int, c: int, d: int, mix: int, k: int)
    requires i < 64 && |x| == 16
    requires IsInt32(a) && IsInt32(mix) && IsInt32(k)
    requires U32(mix) == Mix(i, U32(b), U32(c), U32(d))
    requires U32(k) == Sine(i)
    ensures var sum := a + mix + x[WordIndex(i)] + k;
            Exact(sum)
            && Operation(i, Registers(a, b, c, d), x) == Registers(d, Turn(sum, b, Shift(i)), b, c)
  {
    var sum := a + mix + x[WordIndex(i)] + k;
    SumWord(a, mix, x[WordIndex(i)], k);
    TurnIsTurned(sum, a, b, c, d, Shift(i));
  }

  lemma SumWord(a: int, mix: int, m: Word, k: int)
    ensures U32(a + mix + m + k) == U32(U32(a) + U32(mix) + m + U32(k))
  {
  }

  lemma TurnIsTurned(sum: int, a: int, b: int, c: int, d: int, s: nat)
    requires s <= 32
    ensures Turned(Registers(a, b, c, d), U32(sum), s) == Registers(d, Turn(sum, b, s), b, c)
  {
    hide JsOr, JsShl, JsUShr, Rotl, Pow2;
    var r := JsOr(JsShl(sum, s), JsUShr(sum, 32 - s));
    RotateIsRotl(sum, s);
    U32Add(b, r);
  }

  // ---- one statement pair of each round, from one state of the standard to the next

  lemma StepF(i: nat, x: seq<Word>, init: State, a: int, b: int, c: int, d: int, k: int)
    requires 0 <= i < 16 && |x| == 16
    requires IsInt32(a) && IsInt32(k) && U32(k) == Sine(i)
    requires Registers(a, b, c, d) == Operations(i, init, x)
    ensures Registers(d, Turn(a + ChooseF(b, c, d) + x[WordIndex(i)] + k, b, Shift(i)), b, c)
            == Operations(i + 1, init, x)
  {
    ChooseFIsF(b, c, d);
    StepIsOperation(i, x, a, b, c, d, ChooseF(b, c, d), k);
  }

  lemma StepG(i: nat, x: seq<Word>, init: State, a: int, b: int, c: int, d: int, k: int)
    requires 16 <= i < 32 && |x| == 16
    requires IsInt32(a) && IsInt32(k) && U32(k) == Sine(i)
    requires Registers(a, b, c, d) == Operations(i, init, x)
    ensures Registers(d, Turn(a + ChooseG(b, c, d) + x[WordIndex(i)] + k, b, Shift(i)), b, c)
            == Operations(i + 1, init, x)
  {
    ChooseGIsG(b, c, d);
    StepIsOperation(i, x, a, b, c, d, ChooseG(b, c, d), k);
  }

  lemma StepH(i: nat, x: seq<Word>, init: State, a: int, b: int, c: int, d: int, k: int)
    requires 32 <= i < 48 && |x| == 16
    requires IsInt32(a) && IsInt32(k) && U32(k) == Sine(i)
    requires Registers(a, b, c, d) == Operations(i, init, x)
    ensures Registers(d, Turn(a + ParityH(JsXor(b, c), d) + x[WordIndex(i)] + k, b, Shift(i)), b, c)
            == Operations(i + 1, init, x)
    ensures Registers(d, Turn(a + ParityH(JsXor(c, d), b) + x[WordIndex(i)] + k, b, Shift(i)), b, c)
            == Operations(i + 1, init, x)
  {
    hide ParityH, JsXor, Turn, H, U32;
    SharedXorIsH(b, c, d);
    StepIsOperation(i, x, a, b, c, d, ParityH(JsXor(b, c), d), k);
    StepIsOperation(i, x, a, b, c, d, ParityH(JsXor(c, d), b), k);
  }

  lemma StepI(i: nat, x: seq<Word>, init: State, a: int, b: int, c: int, d: int, k: int)
    requires 48 <= i < 64 && |x| == 16
    requires IsInt32(a) && IsInt32(k) && U32(k) == Sine(i)
    requires Registers(a, b, c, d) == Operations(i, init, x)
    ensures Registers(d, Turn(a + MixI(b, c, d) + x[WordIndex(i)] + k, b, Shift(i)), b, c) == Operations(i + 1, init, x)
  {
    MixIIsI(b, c, d);
    StepIsOperation(i, x, a, b, c, d, MixI(b, c, d), k);
  }

  // Round 1: the statements in program order.
  method Round1(blocks: seq<Word>, ghost init: State, a0: int, b0: int, c0: int, d0: int)
    returns (a: int, b: int, c: int, d: int)
    requires |blocks| == 16
    requires IsInt32(a0) && IsInt32(b0) && IsInt32(c0) && IsInt32(d0)
    requires Registers(a0, b0, c0, d0) == Operations(4, init, blocks)
    ensures IsInt32(a) && IsInt32(b) && IsInt32(c) && IsInt32(d)
    ensures Registers(a, b, c, d) == Operations(16, init, blocks)
  {
    hide Turn, Registers, Operations, ChooseF, ChooseG, ParityH, JsXor, MixI;
    a, b, c, d := a0, b0, c0, d0;
    StepF(4, blocks, init, a, b, c, d, -176418897);
    a := Turn(a + ChooseF(b, c, d) + blocks[4] - 176418897, b, 7);
    StepF(5, blocks, init, d, a, b, c, 1200080426);
    d := Turn(d + ChooseF(a, b, c) + blocks[5] + 1200080426, a, 12);
    StepF(6, blocks, init, c, d, a, b, -1473231341);
    c := Turn(c + ChooseF(d, a, b) + blocks[6] - 1473231341, d, 17);
    StepF(7, blocks, init, b, c, d, a, -45705983);
    b := Turn(b + ChooseF(c, d, a) + blocks[7] - 45705983, c, 22);
    StepF(8, blocks, init, a, b, c, d, 1770035416);
    a := Turn(a + ChooseF(b, c, d) + blocks[8] + 1770035416, b, 7);
    StepF(9, blocks, init, d, a, b, c, -1958414417);
    d := Turn(d + ChooseF(a, b, c) + blocks[9] - 1958414417, a, 12);
    StepF(10, blocks, init, c, d, a, b, -42063);
    c := Turn(c + ChooseF(d, a, b) + blocks[10] - 42063, d, 17);
    StepF(11, blocks, init, b, c, d, a, -1990404162);
    b := Turn(b + ChooseF(c, d, a) + blocks[11] - 1990404162, c, 22);
    StepF(12, blocks, init, a, b, c, d, 1804603682);
    a := Turn(a + ChooseF(b, c, d) + blocks[12] + 1804603682, b, 7);
    StepF(13, blocks, init, d, a, b, c, -40341101);
    d := Turn(d + ChooseF(a, b, c) + blocks[13] - 40341101, a, 12);
    StepF(14, blocks, init, c, d, a, b, -1502002290);
    c := Turn(c + ChooseF(d, a, b) + blocks[14] - 1502002290, d, 17);
    StepF(15, blocks, init, b, c, d, a, 1236535329);
    b := Turn(b + ChooseF(c, d, a) + blocks[15] + 1236535329, c, 22);
  }

  // Round 2: the statements in program order.
  method Round2(blocks: seq<Word>, ghost init: State, a0: int, b0: int, c0: int, d0: int)
    returns (a: int, b: int, c: int, d: int)
    requires |blocks| == 16
    requires IsInt32(a0) && IsInt32(b0) && IsInt32(c0) && IsInt32(d0)
    requires Registers(a0, b0, c0, d0) == Operations(16, init, blocks)
    ensures IsInt32(a) && IsInt32(b) && IsInt32(c) && IsInt32(d)
    ensures Registers(a, b, c, d) == Operations(32, init, blocks)
  {
    hide Turn, Registers, Operations, ChooseF, ChooseG, ParityH, JsXor, MixI;
    a, b, c, d := a0, b0, c0, d0;
    StepG(16, blocks, init, a, b, c, d, -165796510);
    a := Turn(a + ChooseG(b, c, d) + blocks[1] - 165796510, b, 5);
    StepG(17, blocks, init, d, a, b, c, -1069501632);
    d := Turn(d + ChooseG(a, b, c) + blocks[6] - 1069501632, a, 9);
    StepG(18, blocks, init, c, d, a, b, 643717713);
    c := Turn(c + ChooseG(d, a, b) + blocks[11] + 643717713, d, 14);
    StepG(19, blocks, init, b, c, d, a, -373897302);
    b := Turn(b + ChooseG(c, d, a) + blocks[0] - 373897302, c, 20);
    StepG(20, blocks, init, a, b, c, d, -701558691);
    a := Turn(a + ChooseG(b, c, d) + blocks[5] - 701558691, b, 5);
    StepG(21, blocks, init, d, a, b, c, 38016083);
    d := Turn(d + ChooseG(a, b, c) + blocks[10] + 38016083, a, 9);
    StepG(22, blocks, init, c, d, a, b, -660478335);
    c := Turn(c + ChooseG(d, a, b) + blocks[15] - 660478335, d, 14);
    StepG(23, blocks, init, b, c, d, a, -405537848);
    b := Turn(b + ChooseG(c, d, a) + blocks[4] - 405537848, c, 20);
    StepG(24, blocks, init, a, b, c, d, 568446438);
    a := Turn(a + ChooseG(b, c, d) + blocks[9] + 568446438, b, 5);
    StepG(25, blocks, init, d, a, b, c, -1019803690);
    d := Turn(d + ChooseG(a, b, c) + blocks[14] - 1019803690, a, 9);
    StepG(26, blocks, init, c, d, a, b, -187363961);
    c := Turn(c + ChooseG(d, a, b) + blocks[3] - 187363961, d, 14);
    StepG(27, blocks, init, b, c, d, a, 1163531501);
    b := Turn(b + ChooseG(c, d, a) + blocks[8] + 1163531501, c, 20);
    StepG(28, blocks, init, a, b, c, d, -1444681467);
    a := Turn(a + ChooseG(b, c, d) + blocks[13] - 1444681467, b, 5);
    StepG(29, blocks, init, d, a, b, c, -51403784);
    d := Turn(d + ChooseG(a, b, c) + blocks[2] - 51403784, a, 9);
    StepG(30, blocks, init, c, d, a, b, 1735328473);
    c := Turn(c + ChooseG(d, a, b) + blocks[7] + 1735328473, d, 14);
    StepG(31, blocks, init, b, c, d, a, -1926607734);
    b := Turn(b + ChooseG(c, d, a) + blocks[12] - 1926607734, c, 20);
  }

  // Round 3: the statements in program order.
  method Round3(blocks: seq<Word>, ghost init: State, a0: int, b0: int, c0: int, d0: int)
    returns (a: int, b: int, c: int, d: int)
    requires |blocks| == 16
    requires IsInt32(a0) && IsInt32(b0) && IsInt32(c0) && IsInt32(d0)
    requires Registers(a0, b0, c0, d0) == Operations(32, init, blocks)
    ensures IsInt32(a) && IsInt32(b) && IsInt32(c) && IsInt32(d)
    ensures Registers(a, b, c, d) == Operations(48, init, blocks)
  {
    hide Turn, Registers, Operations, ChooseF, ChooseG, ParityH, JsXor, MixI;
    a, b, c, d := a0, b0, c0, d0;
    var bc, da;
    bc := JsXor(b, c);
    StepH(32, blocks, init, a, b, c, d, -378558);
    a := Turn(a + ParityH(bc, d) + blocks[5] - 378558, b, 4);
    StepH(33, blocks, init, d, a, b, c, -2022574463);
    d := Turn(d + ParityH(bc, a) + blocks[8] - 2022574463, a, 11);
    da := JsXor(d, a);
    StepH(34, blocks, init, c, d, a, b, 1839030562);
    c := Turn(c + ParityH(da, b) + blocks[11] + 1839030562, d, 16);
    StepH(35, blocks, init, b, c, d, a, -35309556);
    b := Turn(b + ParityH(da, c) + blocks[14] - 35309556, c, 23);
    bc := JsXor(b, c);
    StepH(36, blocks, init, a, b, c, d, -1530992060);
    a := Turn(a + ParityH(bc, d) + blocks[1] - 1530992060, b, 4);
    StepH(37, blocks, init, d, a, b, c, 1272893353);
    d := Turn(d + ParityH(bc, a) + blocks[4] + 1272893353, a, 11);
    da := JsXor(d, a);
    StepH(38, blocks, init, c, d, a, b, -155497632);
    c := Turn(c + ParityH(da, b) + blocks[7] - 155497632, d, 16);
    StepH(39, blocks, init, b, c, d, a, -1094730640);
    b := Turn(b + ParityH(da, c) + blocks[10] - 1094730640, c, 23);
    bc := JsXor(b, c);
    StepH(40, blocks, init, a, b, c, d, 681279174);
    a := Turn(a + ParityH(bc, d) + blocks[13] + 681279174, b, 4);
    StepH(41, blocks, init, d, a, b, c, -358537222);
    d := Turn(d + ParityH(bc, a) + blocks[0] - 358537222, a, 11);
    da := JsXor(d, a);
    StepH(42, blocks, init, c, d, a, b, -722521979);
    c := Turn(c + ParityH(da, b) + blocks[3] - 722521979, d, 16);
    StepH(43, blocks, init, b, c, d, a, 76029189);
    b := Turn(b + ParityH(da, c) + blocks[6] + 76029189, c, 23);
    bc := JsXor(b, c);
    StepH(44, blocks, init, a, b, c, d, -640364487);
    a := Turn(a + ParityH(bc, d) + blocks[9] - 640364487, b, 4);
    StepH(45, blocks, init, d, a, b, c, -421815835);
    d := Turn(d + ParityH(bc, a) + blocks[12] - 421815835, a, 11);
    da := JsXor(d, a);
    StepH(46, blocks, init, c, d, a, b, 530742520);
    c := Turn(c + ParityH(da, b) + blocks[15] + 530742520, d, 16);
    StepH(47, blocks, init, b, c, d, a, -995338651);
    b := Turn(b + ParityH(da, c) + blocks[2] - 995338651, c, 23);
  }

  // Round 4: the statements in program order.
  method Round4(blocks: seq<Word>, ghost init: State, a0: int, b0: int, c0: int, d0: int)
    returns (a: int, b: int, c: int, d: int)
    requires |blocks| == 16
    requires IsInt32(a0) && IsInt32(b0) && IsInt32(c0) && IsInt32(d0)
    requires Registers(a0, b0, c0, d0) == Operations(48, init, blocks)
    ensures IsInt32(a) && IsInt32(b) && IsInt32(c) && IsInt32(d)
    ensures Registers(a, b, c, d) == Operations(64, init, blocks)
  {
    hide Turn, Registers, Operations, ChooseF, ChooseG, ParityH, JsXor, MixI;
    a, b, c, d := a0, b0, c0, d0;
    StepI(48, blocks, init, a, b, c, d, -198630844);
    a := Turn(a + MixI(b, c, d) + blocks[0] - 198630844, b, 6);
    StepI(49, blocks, init, d, a, b, c, 1126891415);
    d := Turn(d + MixI(a, b, c) + blocks[7] + 1126891415, a, 10);
    StepI(50, blocks, init, c, d, a, b, -1416354905);
    c := Turn(c + MixI(d, a, b) + blocks[14] - 1416354905, d, 15);
    StepI(51, blocks, init, b, c, d, a, -57434055);
    b := Turn(b + MixI(c, d, a) + blocks[5] - 57434055, c, 21);
    StepI(52, blocks, init, a, b, c, d, 1700485571);
    a := Turn(a + MixI(b, c, d) + blocks[12] + 1700485571, b, 6);
    StepI(53, blocks, init, d, a, b, c, -1894986606);
    d := Turn(d + MixI(a, b, c) + blocks[3] - 1894986606, a, 10);
    StepI(54, blocks, init, c, d, a, b, -1051523);
    c := Turn(c + MixI(d, a, b) + blocks[10] - 1051523, d, 15);
    StepI(55, blocks, init, b, c, d, a, -2054922799);
    b := Turn(b + MixI(c, d, a) + blocks[1] - 2054922799, c, 21);
    StepI(56, blocks, init, a, b, c, d, 1873313359);
    a := Turn(a + MixI(b, c, d) + blocks[8] + 1873313359, b, 6);
    StepI(57, blocks, init, d, a, b, c, -30611744);
    d := Turn(d + MixI(a, b, c) + blocks[15] - 30611744, a, 10);
    StepI(58, blocks, init, c, d, a, b, -1560198380);
    c := Turn(c + MixI(d, a, b) + blocks[6] - 1560198380, d, 15);
    StepI(59, blocks, init, b, c, d, a, 1309151649);
    b := Turn(b + MixI(c, d, a) + blocks[13] + 1309151649, c, 21);
    StepI(60, blocks, init, a, b, c, d, -145523070);
    a := Turn(a + MixI(b, c, d) + blocks[4] - 145523070, b, 6);
    StepI(61, blocks, init, d, a, b, c, -1120210379);
    d := Turn(d + MixI(a, b, c) + blocks[11] - 1120210379, a, 10);
    StepI(62, blocks, init, c, d, a, b, 718787259);
    c := Turn(c + MixI(d, a, b) + blocks[2] + 718787259, d, 15);
    StepI(63, blocks, init, b, c, d, a, -343485551);
    b := Turn(b + MixI(c, d, a) + blocks[9] - 343485551, c, 21);
  }

  // ---- the first block: its chaining value is the initial one, folded into constants

  // The initial registers b, c, d are ~d, d + e and d, where d and e = 0x88888888 share no bit.

  lemma NibbleApart(x: nat, y: nat, t: nat)
    requires t < 8 && And(x, y) == 0
    ensures And(16 * x + t, 16 * y + 8) == 0
  {
    hide And;
    BitApart(2 * x + t / 8, 2 * y + 1);
    BitApart(4 * x + t / 4, 4 * y + 2);
    BitApart(8 * x + t / 2, 8 * y + 4);
    BitApart(16 * x + t, 16 * y + 8);
  }

  lemma BitApart(x: nat, y: nat)
    requires And(x / 2, y / 2) == 0 && (x % 2 == 0 || y % 2 == 0)
    ensures And(x, y) == 0
  {
  }

  lemma {:induction false} XorApart(x: nat, y: nat)
    requires And(x, y) == 0
    ensures Xor(x, y) == x + y
  {
    if x != 0 || y != 0 { XorApart(x / 2, y / 2); }
  }

  lemma {:induction false} ComplementTakes(d: nat, e: nat, k: nat)
    requires d < Pow2(k) && e < Pow2(k) && And(d, e) == 0
    ensures And(Pow2(k) - 1 - d, e) == e
    ensures Xor(Pow2(k) - 1 - d, Xor(d, e)) == Pow2(k) - 1 - e
  {
    hide And, Xor;
    if k == 0 {
      XorApart(0, 0);
    } else {
      AndHalf(d, e);
      ComplementTakes(d / 2, e / 2, k - 1);
      ComplementHalf(d, k);
      ComplementHalf(e, k);
      ComplementTakesHalf(d, e, Pow2(k) - 1 - d, Pow2(k) - 1 - e);
    }
  }

  lemma ComplementTakesHalf(d: nat, e: nat, n: nat, m: nat)
    requires Odd(n) == !Odd(d) && Odd(m) == !Odd(e) && !(Odd(d) && Odd(e))
    requires And(Half(n), Half(e)) == Half(e) && Xor(Half(n), Xor(Half(d), Half(e))) == Half(m)
    ensures And(n, e) == e && Xor(n, Xor(d, e)) == m
  {
    hide And, Xor, Half, Odd;
    AndHalf(n, e);
    XorHalf(d, e);
    XorHalf(n, Xor(d, e));
    SameBits(And(n, e), e);
    SameBits(Xor(n, Xor(d, e)), m);
  }

  lemma {:induction false} XorCancels(d: nat, e: nat)
    ensures Xor(Xor(d, e), d) == e
  {
    if d != 0 || e != 0 { XorCancels(d / 2, e / 2); }
  }

  lemma InitialBits()
    ensures Xor(0x98badcfe, 0x10325476) == 0x8888_8888
    ensures And(0xefcdab89, 0x8888_8888) == 0x8888_8888
    ensures Xor(0x10325476, 0x8888_8888) == 0x98badcfe
    ensures Xor(0xefcdab89, 0x98badcfe) == 0x7777_7777
  {
    hide And, Xor;
    AndZero(0);
    NibbleApart(0, 0, 1);
    NibbleApart(0x1, 0x8, 0);
    NibbleApart(0x10, 0x88, 3);
    NibbleApart(0x103, 0x888, 2);
    NibbleApart(0x1032, 0x8888, 5);
    NibbleApart(0x10325, 0x8_8888, 4);
    NibbleApart(0x103254, 0x88_8888, 7);
    NibbleApart(0x1032547, 0x888_8888, 6);
    XorApart(0x10325476, 0x8888_8888);
    XorCancels(0x10325476, 0x8888_8888);
    Pow2Values();
    ComplementTakes(0x10325476, 0x8888_8888, 32);
  }

  lemma FoldedConstants()
    ensures ChooseF(-271733879, -1732584194, 271733878) == -1732584194
    ensures JsXor(-271733879, -1732584194) == 2004318071
    ensures Registers(1732584193, -271733879, -1732584194, 271733878) == INITIAL
  {
    hide And, Xor;
    InitialBits();
  }

  method FirstQuad(blocks: seq<Word>) returns (a: int, b: int, c: int, d: int)
    requires |blocks| == 16
    ensures IsInt32(a) && IsInt32(b) && IsInt32(c) && IsInt32(d)
    ensures Registers(a, b, c, d) == Operations(4, INITIAL, blocks)
  {
    hide Turn, Registers, Operations, JsXor, JsAnd;
    FoldedConstants();
    OperationsNone(INITIAL, blocks);
    StepF(0, blocks, INITIAL, 1732584193, -271733879, -1732584194, 271733878, -680876936);
    var m0: int := blocks[0];
    a := m0 - 680876937;
    a := Turn(a, -271733879, 7);
    StepF(1, blocks, INITIAL, 271733878, a, -271733879, -1732584194, -389564586);
    d := JsXor(-1732584194, JsAnd(a, 2004318071)) + blocks[1] - 117830708;
    d := Turn(d, a, 12);
    StepF(2, blocks, INITIAL, -1732584194, d, a, -271733879, 606105819);
    c := JsXor(-271733879, JsAnd(d, JsXor(a, -271733879))) + blocks[2] - 1126478375;
    c := Turn(c, d, 17);
    StepF(3, blocks, INITIAL, -271733879, c, d, a, -1044525330);
    b := JsXor(a, JsAnd(c, JsXor(d, a))) + blocks[3] - 1316259209;
    b := Turn(b, c, 22);
  }

  lemma OperationsNone(st: State, x: seq<Word>)
    requires |x| == 16
    ensures Operations(0, st, x) == st
  {
  }

  method GeneralQuad(blocks: seq<Word>, ghost init: State, h0: int, h1: int, h2: int, h3: int)
    returns (a: int, b: int, c: int, d: int)
    requires |blocks| == 16
    requires IsInt32(h0) && IsInt32(h1) && IsInt32(h2) && IsInt32(h3)
    requires Registers(h0, h1, h2, h3) == init
    ensures IsInt32(a) && IsInt32(b) && IsInt32(c) && IsInt32(d)
    ensures Registers(a, b, c, d) == Operations(4, init, blocks)
  {
    hide Turn, Registers, Operations, ChooseF;
    OperationsNone(init, blocks);
    a, b, c, d := h0, h1, h2, h3;
    StepF(0, blocks, init, a, b, c, d, -680876936);
    a := Turn(a + ChooseF(b, c, d) + blocks[0] - 680876936, b, 7);
    StepF(1, blocks, init, d, a, b, c, -389564586);
    d := Turn(d + ChooseF(a, b, c) + blocks[1] - 389564586, a, 12);
    StepF(2, blocks, init, c, d, a, b, 606105819);
    c := Turn(c + ChooseF(d, a, b) + blocks[2] + 606105819, d, 17);
    StepF(3, blocks, init, b, c, d, a, -1044525330);
    b := Turn(b + ChooseF(c, d, a) + blocks[3] - 1044525330, c, 22);
  }

  // The chaining value held in h0..h3; before the first block it is implicit.
  function Chaining(first: bool, h0: int, h1: int, h2: int, h3: int): State
  {
    if first then INITIAL else Registers(h0, h1, h2, h3)
  }

  lemma AddBack(x: seq<Word>, init: State, h0: int, h1: int, h2: int, h3: int, a: int, b: int, c: int, d: int)
    requires |x| == 16
    requires Registers(h0, h1, h2, h3) == init
    requires Registers(a, b, c, d) == Operations(64, init, x)
    ensures Registers(I32(h0 + a), I32(h1 + b), I32(h2 + c), I32(h3 + d)) == Compress(init, x)
  {
    hide Operations;
    U32Sum(h0, a);
    U32Sum(h1, b);
    U32Sum(h2, c);
    U32Sum(h3, d);
  }

  lemma U32Sum(x: int, y: int)
    ensures U32(I32(x + y)) == U32(U32(x) + U32(y))
  {
  }

  /** `hash`: the chaining value afterwards is the compression function of RFC 1321. */
  method Transform(first: bool, blocks: seq<Word>, h0: int, h1: int, h2: int, h3: int)
    returns (r0: int, r1: int, r2: int, r3: int)
    requires |blocks| == 16
    requires IsInt32(h0) && IsInt32(h1) && IsInt32(h2) && IsInt32(h3)
    ensures IsInt32(r0) && IsInt32(r1) && IsInt32(r2) && IsInt32(r3)
    ensures Registers(r0, r1, r2, r3) == Compress(Chaining(first, h0, h1, h2, h3), blocks)
  {
    hide Registers, Operations, Compress;
    ghost var init := Chaining(first, h0, h1, h2, h3);
    FoldedConstants();
    var a, b, c, d;
    if first {
      a, b, c, d := FirstQuad(blocks);
    } else {
      a, b, c, d := GeneralQuad(blocks, init, h0, h1, h2, h3);
    }
    a, b, c, d := Round1(blocks, init, a, b, c, d);
    a, b, c, d := Round2(blocks, init, a, b, c, d);
    a, b, c, d := Round3(blocks, init, a, b, c, d);
    a, b, c, d := Round4(blocks, init, a, b, c, d);
    if first {
      AddBack(blocks, init, 1732584193, -271733879, -1732584194, 271733878, a, b, c, d);
      r0 := I32(a + 1732584193);
      r1 := I32(b - 271733879);
      r2 := I32(c - 1732584194);
      r3 := I32(d + 271733878);
    } else {
      AddBack(blocks, init, h0, h1, h2, h3, a, b, c, d);
      r0 := I32(h0 + a);
      r1 := I32(h1 + b);
      r2 := I32(h2 + c);
      r3 := I32(h3 + d);
    }
  }
}
