/**
 RFC 1321, read as a definition over sequences of octets: padding and length
 (sections 3.1 and 3.2), the chaining buffer (3.3), the four rounds (3.4) and the
 output (3.5). Words are naturals below 2^32.
*/
module Rfc1321 {
  import opened JsNumbers

  datatype State = State(a: Word, b: Word, c: Word, d: Word)

  // section 3.3
  const INITIAL: State := State(0x67452301, 0xefcdab89, 0x98badcfe, 0x10325476)

  function Not(x: Word): Word { TWO_32 - 1 - x }

  // section 3.4: the auxiliary functions

  function F(x: Word, y: Word, z: Word): nat { Or(And(x, y), And(Not(x), z)) }
  function G(x: Word, y: Word, z: Word): nat { Or(And(x, z), And(y, Not(z))) }
  function H(x: Word, y: Word, z: Word): nat { Xor(Xor(x, y), z) }
  function I(x: Word, y: Word, z: Word): nat { Xor(y, Or(x, Not(z))) }

  function Mix(i: nat, x: Word, y: Word, z: Word): nat
  {
    if i < 16 then F(x, y, z) else if i < 32 then G(x, y, z) else if i < 48 then H(x, y, z) else I(x, y, z)
  }

  // Which of the 16 words of the block operation i adds.
  function WordIndex(i: nat): (k: nat)
    ensures k < 16
  {
    if i < 16 then i % 16
    else if i < 32 then (1 + 5 * i) % 16
    else if i < 48 then (5 + 3 * i) % 16
    else (7 * i) % 16
  }

  // How far operation i rotates.
  function Shift(i: nat): (s: nat)
    ensures s <= 32
  {
    var j := i % 4;
    if i < 16 then (if j == 0 then 7 else if j == 1 then 12 else if j == 2 then 17 else 22)
    else if i < 32 then (if j == 0 then 5 else if j == 1 then 9 else if j == 2 then 14 else 20)
    else if i < 48 then (if j == 0 then 4 else if j == 1 then 11 else if j == 2 then 16 else 23)
    else (if j == 0 then 6 else if j == 1 then 10 else if j == 2 then 15 else 21)
  }

  // The integer part of 4294967296 times abs(sin(i + 1)), in a table for each round.
  function Sine(i: nat): Word
  {
    if i < 32 then (if i < 16 then Sine1(i) else Sine2(i)) else (if i < 48 then Sine3(i) else Sine4(i))
  }

  function Sine1(i: nat): Word
  {
    if i < 8 then
      match i
      case 0 => 0xd76aa478 case 1 => 0xe8c7b756 case 2 => 0x242070db case 3 => 0xc1bdceee
      case 4 => 0xf57c0faf case 5 => 0x4787c62a case 6 => 0xa8304613 case 7 => 0xfd469501
      case _ => 0
    else
      match i
      case 8 => 0x698098d8 case 9 => 0x8b44f7af case 10 => 0xffff5bb1 case 11 => 0x895cd7be
      case 12 => 0x6b901122 case 13 => 0xfd987193 case 14 => 0xa679438e case 15 => 0x49b40821
      case _ => 0
  }

  function Sine2(i: nat): Word
  {
    if i < 24 then
      match i
      case 16 => 0xf61e2562 case 17 => 0xc040b340 case 18 => 0x265e5a51 case 19 => 0xe9b6c7aa
      case 20 => 0xd62f105d case 21 => 0x02441453 case 22 => 0xd8a1e681 case 23 => 0xe7d3fbc8
      case _ => 0
    else
      match i
      case 24 => 0x21e1cde6 case 25 => 0xc33707d6 case 26 => 0xf4d50d87 case 27 => 0x455a14ed
      case 28 => 0xa9e3e905 case 29 => 0xfcefa3f8 case 30 => 0x676f02d9 case 31 => 0x8d2a4c8a
      case _ => 0
  }

  function Sine3(i: nat): Word
  {
    if i < 40 then
      match i
      case 32 => 0xfffa3942 case 33 => 0x8771f681 case 34 => 0x6d9d6122 case 35 => 0xfde5380c
      case 36 => 0xa4beea44 case 37 => 0x4bdecfa9 case 38 => 0xf6bb4b60 case 39 => 0xbebfbc70
      case _ => 0
    else
      match i
      case 40 => 0x289b7ec6 case 41 => 0xeaa127fa case 42 => 0xd4ef3085 case 43 => 0x04881d05
      case 44 => 0xd9d4d039 case 45 => 0xe6db99e5 case 46 => 0x1fa27cf8 case 47 => 0xc4ac5665
      case _ => 0
  }

  function Sine4(i: nat): Word
  {
    if i < 56 then
      match i
      case 48 => 0xf4292244 case 49 => 0x432aff97 case 50 => 0xab9423a7 case 51 => 0xfc93a039
      case 52 => 0x655b59c3 case 53 => 0x8f0ccc92 case 54 => 0xffeff47d case 55 => 0x85845dd1
      case _ => 0
    else
      match i
      case 56 => 0x6fa87e4f case 57 => 0xfe2ce6e0 case 58 => 0xa3014314 case 59 => 0x4e0811a1
      case 60 => 0xf7537e82 case 61 => 0xbd3af235 case 62 => 0x2ad7d2bb case 63 => 0xeb86d391
      case _ => 0
  }

  /** One operation [abcd k s i]; the roles of the four registers then rotate. */
  function Operation(i: nat, st: State, x: seq<Word>): State
    requires |x| == 16
  {
    Turned(st, U32(st.a + Mix(i, st.b, st.c, st.d) + x[WordIndex(i)] + Sine(i)), Shift(i))
  }

  function Turned(st: State, sum: Word, s: nat): State
    requires s <= 32
  {
    State(st.d, U32(st.b + Rotl(sum, s)), st.b, st.c)
  }

  function Operations(n: nat, st: State, x: seq<Word>): State
    requires |x| == 16
  {
    if n == 0 then st else Operation(n - 1, Operations(n - 1, st, x), x)
  }

  function Compress(st: State, x: seq<Word>): State
    requires |x| == 16
  {
    var r := Operations(64, st, x);
    State(U32(st.a + r.a), U32(st.b + r.b), U32(st.c + r.c), U32(st.d + r.d))
  }

  // Octets and words: low-order octet first (section 2).

  function WordOf(b: seq<Octet>): Word
    requires |b| == 4
  {
    var b0: int, b1: int, b2: int, b3: int := b[0], b[1], b[2], b[3];
    b0 + 0x100 * b1 + 0x1_0000 * b2 + 0x100_0000 * b3
  }

  function OctetsOf(w: Word): (b: seq<Octet>)
    ensures |b| == 4
  {
    [w % 0x100, w / 0x100 % 0x100, w / 0x1_0000 % 0x100, w / 0x100_0000]
  }

  function WordsOf(block: seq<Octet>): (x: seq<Word>)
    requires |block| == 64
    ensures |x| == 16
  {
    seq(16, k requires 0 <= k < 16 => WordOf(block[4 * k..4 * k + 4]))
  }

  /** The chaining value after all blocks of a message of whole blocks. */
  function Chain(m: seq<Octet>): State
    requires |m| % 64 == 0
  {
    if m == [] then INITIAL
    else
      var k := |m| - 64;
      Compress(Chain(m[..k]), WordsOf(m[k..]))
  }

  // sections 3.1 and 3.2: a one bit, zero bits up to 448 modulo 512, the bit count modulo 2^64

  function ZeroCount(n: nat): (z: nat)
    ensures z < 64 && (n + 1 + z + 8) % 64 == 0
  {
    (119 - n % 64) % 64
  }

  function Zeros(n: nat): (z: seq<Octet>)
    ensures |z| == n && forall i :: 0 <= i < n ==> z[i] == 0
  {
    seq(n, _ => 0)
  }

  function LengthOctets(n: nat): (b: seq<Octet>)
    ensures |b| == 8
  {
    var bits := 8 * n;
    OctetsOf(U32(bits)) + OctetsOf(U32(bits / TWO_32))
  }

  function Pad(m: seq<Octet>): (p: seq<Octet>)
    ensures |p| % 64 == 0
  {
    var z := ZeroCount(|m|);
    var p := m + [0x80] + Zeros(z) + LengthOctets(|m|);
    assert |p| == |m| + 1 + z + 8;
    p
  }

  // section 3.5
  function Output(st: State): (b: seq<Octet>)
    ensures |b| == 16
  {
    OctetsOf(st.a) + OctetsOf(st.b) + OctetsOf(st.c) + OctetsOf(st.d)
  }

  function Md5(m: seq<Octet>): (b: seq<Octet>)
    ensures |b| == 16
  {
    Output(Chain(Pad(m)))
  }

  /**
   Sections 3.1 and 3.2: the message, the octet 0x80, fewer than 64 zeros and the bit count
   modulo 2^64, low-order word first, make up whole blocks.
  */
  lemma PadShape(m: seq<Octet>)
    ensures var p, n := Pad(m), |Pad(m)|;
            n % 64 == 0 && |m| + 9 <= n < |m| + 73 && p[..|m|] == m && p[|m|] == 0x80
            && (forall i :: |m| < i < n - 8 ==> p[i] == 0)
            && WordOf(p[n - 8..n - 4]) + TWO_32 * WordOf(p[n - 4..]) == 8 * |m| % (TWO_32 * TWO_32)
  {
    hide LengthOctets, WordOf;
    var p, b := Pad(m), LengthOctets(|m|);
    assert p[|p| - 8..|p| - 4] == b[..4] && p[|p| - 4..] == b[4..];
    LengthWords(|m|);
  }

  lemma LengthWords(n: nat)
    ensures var b := LengthOctets(n);
            WordOf(b[..4]) + TWO_32 * WordOf(b[4..]) == 8 * n % (TWO_32 * TWO_32)
  {
    hide OctetsOf, WordOf;
    var v := 8 * n;
    var low, high := U32(v), U32(v / TWO_32);
    var b := LengthOctets(n);
    assert b[..4] == OctetsOf(low) && b[4..] == OctetsOf(high);
    WordOctets(low);
    WordOctets(high);
    DivModUnique(v, TWO_32 * TWO_32, v / TWO_32 / TWO_32, low + TWO_32 * high);
  }

  lemma WordOctets(w: Word)
    ensures WordOf(OctetsOf(w)) == w
  {
    var v: int := w;
    var q := v / 0x100;
    var r := q / 0x100;
    var b0, b1, b2, b3 := v % 0x100, q % 0x100, r % 0x100, r / 0x100;
    DivModUnique(v, 0x1_0000, r, 0x100 * b1 + b0);
    DivModUnique(v, 0x100_0000, b3, 0x1_0000 * b2 + 0x100 * b1 + b0);
    assert OctetsOf(w) == [b0, b1, b2, b3];
  }
}
