/**
 The streaming hash object of js-md5: a work buffer of 64 octets and a spill word, a
 byte counter in two parts, and the flags `first`, `hashed` and `finalized`.
*/
module Md5 {
  import opened JsNumbers
  import opened Rfc1321
  import opened Md5Compression
  import Utf8

  // What `update` takes: octets, or a string.
  datatype Message = Bytes(octets: seq<Octet>) | Text(units: seq<Utf8.Unit>)

  function OctetsOfMessage(m: Message): seq<Octet>
  {
    match m
    case Bytes(b) => b
    case Text(u) => Utf8.Octets(u)
  }

  // The part of the message from the given index on; a surrogate at the very end makes
  // the program step one past the end.
  function From(m: Message, index: nat): Message
  {
    match m
    case Bytes(b) => Bytes(if index <= |b| then b[index..] else [])
    case Text(u) => Text(if index <= |u| then u[index..] else [])
  }

  function Length(m: Message): nat
  {
    match m
    case Bytes(b) => |b|
    case Text(u) => |u|
  }

  const EXTRA: seq<int> := [128, 32768, 8388608, -2147483648]

  // A store into a Uint8Array.
  function Truncate(x: int): Octet { x % 0x100 }

  // ---- pure facts about blocks and padding

  lemma ChainBlock(m: seq<Octet>, block: seq<Octet>)
    requires |m| % 64 == 0 && |block| == 64
    ensures |m + block| % 64 == 0
    ensures Chain(m + block) == Compress(Chain(m), WordsOf(block))
  {
    hide Compress;
    assert (m + block)[..|m + block| - 64] == m;
    assert (m + block)[|m + block| - 64..] == block;
  }

  lemma OctetsWord(b: seq<Octet>)
    requires |b| == 4
    ensures OctetsOf(WordOf(b)) == b
  {
    var b0: int, b1: int, b2: int, b3: int := b[0], b[1], b[2], b[3];
    var w: int := WordOf(b);
    OctetAt(w, 1, 0, b0, b1 + 0x100 * b2 + 0x1_0000 * b3);
    OctetAt(w, 0x100, b0, b1, b2 + 0x100 * b3);
    OctetAt(w, 0x1_0000, b0 + 0x100 * b1, b2, b3);
    OctetAt(w, 0x100_0000, b0 + 0x100 * b1 + 0x1_0000 * b2, b3, 0);
  }

  lemma OctetAt(w: int, m: int, low: int, b: int, high: int)
    requires m in {1, 0x100, 0x1_0000, 0x100_0000} && 0 <= low < m && 0 <= b < 0x100
    requires w == high * 0x100 * m + b * m + low
    ensures w / m % 0x100 == b
  {
    DivModUnique(w, m, high * 0x100 + b, low);
    DivModUnique(high * 0x100 + b, 0x100, high, b);
  }

  lemma {:induction false} OrCommutes(x: nat, y: nat)
    ensures Or(x, y) == Or(y, x)
  {
    if x != 0 || y != 0 { OrCommutes(x / 2, y / 2); }
  }

  lemma MarkWord(w: Word, s: nat, extra: int)
    requires w < Pow2(s) && U32(extra) == 0x80 * Pow2(s) && w + 0x80 * Pow2(s) < TWO_32
    ensures U32(JsOr(w, extra)) == w + 0x80 * Pow2(s)
  {
    hide Or, JsOr, Pow2;
    OrDisjoint(0x80, w, s);
    OrCommutes(w, 0x80 * Pow2(s));
    JsOrWord(w, extra);
  }

  /** Or-ing EXTRA[j] into a word whose octets from j on are zero sets octet j to 0x80. */
  lemma MarkOctet(b: seq<Octet>, j: nat)
    requires |b| == 4 && j < 4 && forall k :: j <= k < 4 ==> b[k] == 0
    ensures OctetsOf(U32(JsOr(WordOf(b), EXTRA[j]))) == b[j := 0x80]
  {
    hide JsOr, OctetsOf;
    Pow2Values();
    OctetsWord(b[j := 0x80]);
    if j == 0 { assert Pow2(0) == 1; MarkWord(WordOf(b), 0, 128); }
    else if j == 1 { MarkWord(WordOf(b), 8, 32768); }
    else if j == 2 { MarkWord(WordOf(b), 16, 8388608); }
    else { MarkWord(WordOf(b), 24, -2147483648); }
  }

  // ---- the counter

  // bytes and hBytes together count n octets; only the low 32 bits of hBytes are ever used.
  predicate Counts(bytes: int, hBytes: int, n: nat)
  {
    0 <= bytes <= n && (n - bytes) % TWO_32 == 0 && U32(hBytes) == U32((n - bytes) / TWO_32)
  }

  lemma CountsMore(bytes: int, hBytes: int, n: nat, k: nat)
    requires Counts(bytes, hBytes, n)
    ensures Counts(bytes + k, hBytes, n + k)
  {
  }

  /** Splitting the counter keeps what it counts. */
  lemma CountsSplit(bytes: int, hBytes: int, n: nat)
    requires Counts(bytes, hBytes, n)
    ensures Counts(bytes % TWO_32, hBytes + I32(bytes / TWO_32), n)
  {
    var q := bytes / TWO_32;
    assert n - bytes % TWO_32 == (n - bytes) + q * TWO_32;
    assert (n - bytes % TWO_32) / TWO_32 == (n - bytes) / TWO_32 + q;
    U32Sum(hBytes, I32(q));
    U32Add((n - bytes) / TWO_32, q);
  }

  lemma LowBits(bytes: int, q: int)
    requires 0 <= bytes < TWO_32 && 0 <= q
    ensures var n := q * TWO_32 + bytes;
            U32(8 * n) == U32(8 * bytes) && 8 * n / TWO_32 == 8 * q + bytes / 0x2000_0000
  {
  }

  lemma HighBits(h: int, q: int, top: int)
    requires 0 <= top < 8 && U32(h) == U32(q)
    ensures U32(U32(h) * 8) == 8 * (U32(h) % 0x2000_0000)
    ensures U32(8 * q + top) == 8 * (U32(h) % 0x2000_0000) + top
  {
    var w: int, k: int := U32(q), q / TWO_32;
    assert q == k * TWO_32 + w;
    var v, j := w % 0x2000_0000, w / 0x2000_0000;
    assert w == j * 0x2000_0000 + v;
    assert 8 * q + top == (8 * k + j) * TWO_32 + (8 * v + top);
    DivModUnique(8 * q + top, TWO_32, 8 * k + j, 8 * v + top);
    DivModUnique(8 * w, TWO_32, j, 8 * v);
  }

  lemma CounterLow(bytes: int, q: int, n: nat)
    requires 0 <= bytes < TWO_32 && 0 <= q && n == q * TWO_32 + bytes
    ensures U32(JsShl(bytes, 3)) == U32(8 * n)
  {
    Pow2Values();
    LowBits(bytes, q);
    assert U32(bytes) == bytes;
  }

  lemma CounterHigh(bytes: int, hBytes: int, q: int, n: nat)
    requires 0 <= bytes < TWO_32 && 0 <= q && n == q * TWO_32 + bytes && U32(hBytes) == U32(q)
    ensures U32(JsOr(JsShl(hBytes, 3), JsUShr(bytes, 29))) == U32(8 * n / TWO_32)
  {
    hide Or, JsOr;
    Pow2Values();
    Pow2Sum(5, 24);
    var top := bytes / 0x2000_0000;
    LowBits(bytes, q);
    HighBits(hBytes, q, top);
    OrDisjoint(U32(hBytes) % 0x2000_0000, top, 3);
    JsOrWord(JsShl(hBytes, 3), top);
  }

  /** The two counter words are the 64-bit count of bits. */
  lemma CounterWords(bytes: int, hBytes: int, n: nat)
    requires Counts(bytes, hBytes, n) && bytes < TWO_32
    ensures U32(JsShl(bytes, 3)) == U32(8 * n)
    ensures U32(JsOr(JsShl(hBytes, 3), JsUShr(bytes, 29))) == U32(8 * n / TWO_32)
  {
    hide JsOr, JsShl, JsUShr;
    var q := (n - bytes) / TWO_32;
    CounterLow(bytes, q, n);
    CounterHigh(bytes, hBytes, q, n);
  }

  // ---- the octets of one code, computed with bit operators

  lemma OrAdd(k: nat, v: nat, s: nat)
    requires v < Pow2(s) <= 0x40 && k * Pow2(s) < 0x100
    ensures JsOr(k * Pow2(s), v) == k * Pow2(s) + v
  {
    hide Or, U32, I32, Pow2;
    OrDisjoint(k, v, s);
    Small(k * Pow2(s));
    Small(v);
    Small(k * Pow2(s) + v);
  }

  lemma MaskMod(x: nat, s: nat)
    requires x < TWO_31 && Pow2(s) <= 0x400
    ensures JsAnd(x, Pow2(s) - 1) == x % Pow2(s)
  {
    hide And, U32, I32, Pow2;
    AndMask(x, s);
    Small(x);
    Small(Pow2(s) - 1);
    Small(x % Pow2(s));
  }

  lemma TailOctet(x: nat)
    requires x < TWO_31
    ensures JsOr(0x80, JsAnd(x, 0x3f)) == 0x80 + x % 0x40
  {
    hide JsOr, JsAnd, Pow2;
    Pow2Values();
    MaskMod(x, 6);
    OrAdd(2, x % 0x40, 6);
  }

  lemma LeadOctet(base: int, v: int)
    requires (base == 0xc0 && 0 <= v < 0x20) || (base == 0xe0 && 0 <= v < 0x10) || (base == 0xf0 && 0 <= v < 8)
    ensures JsOr(base, v) == base + v
  {
    hide JsOr, Pow2;
    Pow2Values();
    if base == 0xc0 { OrAdd(6, v, 5); } else if base == 0xe0 { OrAdd(14, v, 4); } else { OrAdd(30, v, 3); }
  }

  lemma Shifts(x: int)
    requires 0 <= x < TWO_31
    ensures JsShr(x, 6) == x / 0x40 && JsShr(x, 12) == x / 0x1000 && JsShr(x, 18) == x / 0x4_0000
    ensures Pow2(6) == 0x40 && Pow2(12) == 0x1000 && Pow2(18) == 0x4_0000
  {
    hide Pow2, I32;
    SixBits();
    Small(x);
  }

  lemma SixBits()
    ensures Pow2(6) == 0x40 && Pow2(12) == 0x1000 && Pow2(18) == 0x4_0000
  {
    hide Pow2;
    Pow2Values();
    Pow2Sum(6, 6);
    Pow2Sum(6, 12);
  }

  // What the program stores for a code, octet by octet.
  function Stored(code: int): seq<Octet>
  {
    var low := Truncate(JsOr(0x80, JsAnd(code, 0x3f)));
    var mid := Truncate(JsOr(0x80, JsAnd(JsShr(code, 6), 0x3f)));
    if code < 0x80 then [Truncate(code)]
    else if code < 0x800 then [Truncate(JsOr(0xc0, JsShr(code, 6))), low]
    else if code < 0x1_0000 then [Truncate(JsOr(0xe0, JsShr(code, 12))), mid, low]
    else [Truncate(JsOr(0xf0, JsShr(code, 18))), Truncate(JsOr(0x80, JsAnd(JsShr(code, 12), 0x3f))), mid, low]
  }

  lemma StoredIsEncoded(code: nat)
    requires code < 0x11_0000
    ensures Stored(code) == Utf8.Encode(code)
  {
    hide JsOr, JsAnd, JsShr, Pow2;
    Shifts(code);
    TailOctet(code);
    if 0x80 <= code < 0x800 {
      LeadOctet(0xc0, code / 0x40);
    } else if 0x800 <= code < 0x1_0000 {
      StoredThree(code);
    } else if 0x1_0000 <= code {
      StoredFour(code);
    }
  }

  lemma StoredThree(code: nat)
    requires 0x800 <= code < 0x1_0000
    ensures Stored(code) == Utf8.Encode(code)
  {
    hide JsOr, JsAnd, JsShr, Pow2;
    Shifts(code);
    TailOctet(code);
    TailOctet(code / 0x40);
    LeadOctet(0xe0, code / 0x1000);
  }

  lemma StoredFour(code: nat)
    requires 0x1_0000 <= code < 0x11_0000
    ensures Stored(code) == Utf8.Encode(code)
  {
    hide JsOr, JsAnd, JsShr, Pow2;
    Shifts(code);
    TailOctet(code);
    TailOctet(code / 0x40);
    TailOctet(code / 0x1000);
    LeadOctet(0xf0, code / 0x4_0000);
  }

  /** The pair formula of the program is that of UTF-16. */
  lemma PairCode(u: int, v: int)
    requires 0 <= u < 0x1_0000 && 0 <= v < 0x1_0000
    ensures JsOr(JsShl(JsAnd(u, 0x3ff), 10), JsAnd(v, 0x3ff)) == u % 0x400 * 0x400 + v % 0x400
  {
    hide JsAnd, Or, Pow2, U32, I32;
    Pow2Values();
    MaskMod(u, 10);
    MaskMod(v, 10);
    var a, b := u % 0x400, v % 0x400;
    OrDisjoint(a, b, 10);
    Small(a);
    Small(b);
    Small(a * 0x400);
    Small(a * 0x400 + b);
  }

  // ---- what the buffer holds

  // The octets not yet compressed, followed by zeros.
  predicate Holds(buffer: seq<Octet>, tail: seq<Octet>)
  {
    |tail| <= |buffer| && buffer == tail + Zeros(|buffer| - |tail|)
  }

  /** One more block is complete: 64 octets go into the chaining value, the rest are carried. */
  lemma BlockDone(done: seq<Octet>, rest: seq<Octet>, buffer: seq<Octet>)
    requires |done| % 64 == 0 && |buffer| == 68 && 64 <= |rest| <= 68
    requires Holds(buffer, rest)
    ensures var n := |done| + 64;
            n % 64 == 0
            && Chain((done + rest)[..n]) == Compress(Chain(done), WordsOf(buffer[..64]))
            && Holds(buffer[64..], (done + rest)[n..])
  {
    hide Compress, WordsOf, Chain;
    var n := |done| + 64;
    assert buffer[..64] == rest[..64];
    assert (done + rest)[..n] == done + rest[..64];
    ChainBlock(done, rest[..64]);
    CarriedRest(rest, buffer);
    assert (done + rest)[n..] == rest[64..];
  }

  lemma CarriedRest(rest: seq<Octet>, buffer: seq<Octet>)
    requires |buffer| == 68 && 64 <= |rest| <= 68 && Holds(buffer, rest)
    ensures Holds(buffer[64..], rest[64..])
  {
    assert buffer[64..] == rest[64..] + Zeros(68 - |rest|);
  }

  lemma Filled(before: seq<Octet>, after: seq<Octet>, tail: seq<Octet>, i: nat)
    requires |before| == |after| == 68 && |tail| <= i <= 68
    requires Holds(before, tail)
    requires after[..|tail|] == before[..|tail|] && after[i..] == before[i..]
    ensures Holds(after, tail + after[|tail|..i])
  {
    var rest := tail + after[|tail|..i];
    assert after == after[..|tail|] + after[|tail|..i] + after[i..];
    assert before[..|tail|] == tail;
    assert before[i..] == Zeros(68 - i);
  }

  lemma CarriedHolds(spill: seq<Octet>, buffer: seq<Octet>, tail: seq<Octet>)
    requires |spill| == 4 && buffer == spill + Zeros(64) && Holds(spill, tail)
    ensures Holds(buffer, tail)
  {
    assert buffer == tail + Zeros(68 - |tail|);
  }

  // ---- padding, from what is left in the buffer

  // The last block, after the stub of it that is already there.
  function LastBlock(stub: seq<Octet>, n: nat): (b: seq<Octet>)
    requires |stub| <= 56
    ensures |b| == 64
  {
    stub + Zeros(56 - |stub|) + LengthOctets(n)
  }

  lemma PadOneBlock(done: seq<Octet>, tail: seq<Octet>)
    requires |done| % 64 == 0 && |tail| < 56
    ensures Pad(done + tail) == done + LastBlock(tail + [0x80], |done + tail|)
  {
    var n, z := |done + tail|, 55 - |tail|;
    assert ZeroCount(n) == z;
  }

  lemma PadTwoBlocks(done: seq<Octet>, tail: seq<Octet>)
    requires |done| % 64 == 0 && 56 <= |tail| < 64
    ensures Pad(done + tail) == done + (tail + [0x80] + Zeros(63 - |tail|)) + LastBlock([], |done + tail|)
  {
    var n, z := |done + tail|, 119 - |tail|;
    assert ZeroCount(n) == z;
    assert Zeros(z) == Zeros(63 - |tail|) + Zeros(56);
  }

  // ---- output

  // The four octets of a register, as `digest` takes them.
  function DigestOf(h: int): seq<int>
  {
    [JsAnd(h, 0xff), JsAnd(JsShr(h, 8), 0xff), JsAnd(JsShr(h, 16), 0xff), JsAnd(JsShr(h, 24), 0xff)]
  }

  lemma LowByte(x: int, s: nat)
    requires s <= 8
    ensures JsAnd(x, Pow2(s) - 1) == U32(x) % Pow2(s)
  {
    hide And, Pow2;
    assert Pow2(s) <= 0x100 by { Pow2Values(); Pow2Sum(s, 8 - s); MulAtLeast(Pow2(8 - s), Pow2(s)); }
    AndMask(U32(x), s);
    assert U32(Pow2(s) - 1) == Pow2(s) - 1;
  }

  // An arithmetic shift and the unsigned quotient agree in the digits below bit 32.
  lemma ShiftedDigits(h: int, q: int, p: int, m: int)
    requires IsInt32(h) && q > 0 && p > 0 && m > 0 && q * (p * m) == TWO_32
    ensures U32(h / q) % m == U32(h) / q % m
  {
    var w: int := U32(h);
    QuotientBound(h, q);
    if h < 0 {
      assert w == h + q * (p * m);
      QuotientPlus(h, q, p * m);
      assert p * m == m * p;
      RemainderPlus(h / q, m, p);
      assert U32(h / q) == h / q + m * (p * q) by { assert m * (p * q) == q * (p * m); }
      RemainderPlus(h / q, m, p * q);
    }
  }

  lemma QuotientPlus(h: int, q: int, k: int)
    requires q > 0
    ensures (h + q * k) / q == h / q + k
  {
    assert h + q * k == (h / q + k) * q + h % q by { MulSub(h / q, -k, q); }
    DivModUnique(h + q * k, q, h / q + k, h % q);
  }

  lemma RemainderPlus(h: int, m: int, k: int)
    requires m > 0
    ensures (h + m * k) % m == h % m
  {
    assert h + m * k == (h / m + k) * m + h % m by { MulSub(h / m, -k, m); }
    DivModUnique(h + m * k, m, h / m + k, h % m);
  }

  lemma QuotientBound(h: int, q: int)
    requires q > 0
    ensures if h < 0 then h <= h / q < 0 else 0 <= h / q <= h
  {
    var k, r := h / q, h % q;
    assert h == k * q + r;
    MulSub(q, 1, k);
    if k < 0 {
      MulMonotone(k, -1, q);
      MulMonotone(k, -1, q - 1);
    } else {
      MulMonotone(0, k, q);
      MulMonotone(0, k, q - 1);
    }
  }

  /** k bits of a register from bit s on, as the program extracts them. */
  lemma DigitOfWord(h: int, s: nat, k: nat)
    requires IsInt32(h) && s + k <= 32 && k <= 8
    ensures JsAnd(JsShr(h, s), Pow2(k) - 1) == U32(h) / Pow2(s) % Pow2(k)
  {
    hide JsAnd, Pow2, I32;
    LowByte(JsShr(h, s), k);
    var p := Pow2(32 - k - s);
    Pow2Sum(32 - k - s, k);
    Pow2Sum(s, 32 - s);
    Pow2Values();
    ShiftedDigits(h, Pow2(s), p, Pow2(k));
    I32Same(h);
  }

  lemma I32Same(h: int)
    requires IsInt32(h)
    ensures I32(h) == h
  {
  }

  lemma DigestOctet(h: int, j: nat)
    requires IsInt32(h) && j < 4
    ensures DigestOf(h)[j] == OctetsOf(U32(h))[j]
  {
    hide JsAnd, JsShr, Pow2, U32;
    Pow2Values();
    if j == 0 { LowByte(h, 8); } else { DigitOfWord(h, 8 * j, 8); }
  }

  lemma DigestOfWord(h: int)
    requires IsInt32(h)
    ensures DigestOf(h) == OctetsOf(U32(h))
  {
    hide JsAnd, JsShr, U32;
    forall j | 0 <= j < 4 ensures DigestOf(h)[j] == OctetsOf(U32(h))[j] { DigestOctet(h, j); }
  }

  const HEX_CHARS: string := "0123456789abcdef"

  function HexDigits(o: Octet): string { [HEX_CHARS[o / 16], HEX_CHARS[o % 16]] }

  /** Two lower-case hexadecimal digits for each octet. */
  function HexString(b: seq<Octet>): (s: string)
    ensures |s| == 2 * |b|
    ensures forall i :: 0 <= i < |s| ==> s[i] in HEX_CHARS
  {
    if b == [] then [] else HexDigits(b[0]) + HexString(b[1..])
  }

  // The digit that `hex` takes from bit s on.
  function Digit(h: int, s: nat): (c: char)
    requires IsInt32(h) && s + 4 <= 32
    ensures c == HEX_CHARS[U32(h) / Pow2(s) % 16]
  {
    Pow2Values();
    DigitOfWord(h, s, 4);
    HEX_CHARS[JsAnd(JsShr(h, s), 0x0f)]
  }

  function HexOf(h: int): string
    requires IsInt32(h)
  {
    [Digit(h, 4), Digit(h, 0), Digit(h, 12), Digit(h, 8), Digit(h, 20), Digit(h, 16), Digit(h, 28), Digit(h, 24)]
  }

  lemma {:induction false} HexStringConcat(x: seq<Octet>, y: seq<Octet>)
    ensures HexString(x + y) == HexString(x) + HexString(y)
  {
    if x == [] {
      assert x + y == y;
    } else {
      assert (x + y)[1..] == x[1..] + y;
      HexStringConcat(x[1..], y);
    }
  }

  lemma HexOfFour(o0: Octet, o1: Octet, o2: Octet, o3: Octet)
    ensures HexString([o0, o1, o2, o3]) == HexDigits(o0) + HexDigits(o1) + HexDigits(o2) + HexDigits(o3)
  {
    hide HexDigits;
    assert [o0, o1, o2, o3] == [o0, o1, o2] + [o3];
    HexStringConcat([o0, o1, o2], [o3]);
    HexStringConcat([o0, o1], [o2]);
    assert [o0, o1, o2] == [o0, o1] + [o2];
    HexStringConcat([o0], [o1]);
    assert [o0, o1] == [o0] + [o1];
    HexOfOne(o0);
    HexOfOne(o1);
    HexOfOne(o2);
    HexOfOne(o3);
  }

  lemma HexOfOne(o: Octet)
    ensures HexString([o]) == HexDigits(o)
  {
    assert [o][1..] == [];
  }

  // The two digits of the octet at bit s, high digit first.
  lemma HexOfOctet(h: int, s: nat)
    requires IsInt32(h) && s + 8 <= 32
    ensures [Digit(h, s + 4), Digit(h, s)] == HexDigits(U32(h) / Pow2(s) % 0x100)
  {
    hide Pow2;
    var w: int, q := U32(h), Pow2(s);
    Pow2Values();
    Pow2Sum(s, 4);
    QuotientTwice(w, q, 16);
    NibblesOf(w / q);
  }

  lemma NibblesOf(v: int)
    ensures v % 0x100 % 16 == v % 16 && v % 0x100 / 16 == v / 16 % 16
  {
  }

  lemma QuotientTwice(w: int, q: int, k: int)
    requires q > 0 && k > 0
    ensures q * k > 0 && w / (q * k) == w / q / k
  {
    MulAtLeast(q, k);
    var v, r := w / q, w % q;
    var u, t := v / k, v % k;
    calc {
      w;
      v * q + r;
      (u * k + t) * q + r;
      { assert (u * k) * q == u * (q * k); }
      u * (q * k) + (t * q + r);
    }
    MulMonotone(0, t, q);
    MulMonotone(t, k - 1, q);
    MulSub(k, 1, q);
    DivModUnique(w, q * k, u, t * q + r);
  }

  lemma HexOfPair(h: int, j: nat)
    requires IsInt32(h) && j < 4
    ensures [Digit(h, 8 * j + 4), Digit(h, 8 * j)] == HexDigits(OctetsOf(U32(h))[j])
  {
    hide Pow2, HexDigits, Digit, U32;
    Pow2Values();
    assert Pow2(0) == 1 by { Pow2Sum(0, 3); }
    HexOfOctet(h, 8 * j);
    var w: int := U32(h);
    assert 0 <= w / 0x100_0000 < 0x100;
  }

  lemma HexOfWord(h: int)
    requires IsInt32(h)
    ensures HexOf(h) == HexString(OctetsOf(U32(h)))
  {
    hide OctetsOf, HexDigits, Digit, HexString, U32;
    HexOfPair(h, 0);
    HexOfPair(h, 1);
    HexOfPair(h, 2);
    HexOfPair(h, 3);
    var b := OctetsOf(U32(h));
    HexOfFour(b[0], b[1], b[2], b[3]);
    assert b == [b[0], b[1], b[2], b[3]];
    assert HexOf(h) == [Digit(h, 4), Digit(h, 0)] + [Digit(h, 12), Digit(h, 8)]
                       + [Digit(h, 20), Digit(h, 16)] + [Digit(h, 28), Digit(h, 24)];
  }

  class Md5 {
    const buffer8: array<Octet>
    var h0: int
    var h1: int
    var h2: int
    var h3: int
    var start: int
    var bytes: int
    var hBytes: int
    var lastByteIndex: int   // undefined before the first octet, which acts as 0
    var finalized: bool
    var hashed: bool
    var first: bool
    ghost var absorbed: seq<Octet>   // all octets given to update so far

    ghost function Registered(): State
      reads this
    {
      Chaining(first, h0, h1, h2, h3)
    }

    ghost predicate Sized()
      reads this
    {
      buffer8.Length == 68 && IsInt32(h0) && IsInt32(h1) && IsInt32(h2) && IsInt32(h3)
    }

    // Between two octets of the message: whole blocks are in the registers, the rest in
    // the buffer, at its start or, right after a compression, in the spill word.
    ghost predicate Streaming()
      reads this, buffer8
    {
      var n := |absorbed|;
      Sized()
      && 0 <= start < 64 && start <= n && (n - start) % 64 == 0
      && Registered() == Chain(absorbed[..n - start])
      && (if hashed then start <= 3 && lastByteIndex == 64 + start && Holds(buffer8[64..], absorbed[n - start..])
          else lastByteIndex == start && Holds(buffer8[..], absorbed[n - start..]))
      && Counts(bytes, hBytes, n)
    }

    ghost predicate Valid()
      reads this, buffer8
    {
      if finalized then Sized() && !first && Registered() == Chain(Pad(absorbed))
      else Streaming() && bytes < TWO_32
    }

    constructor ()
      ensures Valid() && !finalized && absorbed == [] && fresh(buffer8)
    {
      buffer8 := new Octet[68](_ => 0);
      h0, h1, h2, h3, start, bytes, hBytes, lastByteIndex := 0, 0, 0, 0, 0, 0, 0, 0;
      finalized, hashed, first := false, false, true;
      absorbed := [];
    }

    /** The same on a buffer that others have used: it is cleared first. */
    constructor Shared(memory: array<Octet>)
      requires memory.Length == 68
      modifies memory
      ensures Valid() && !finalized && absorbed == [] && buffer8 == memory
    {
      buffer8 := memory;
      h0, h1, h2, h3, start, bytes, hBytes, lastByteIndex := 0, 0, 0, 0, 0, 0, 0, 0;
      finalized, hashed, first := false, false, true;
      absorbed := [];
      new;
      forall k | 0 <= k < 68 { memory[k] := 0; }
    }

    /** `hash`: compresses the first 64 octets of the buffer into the registers. */
    method Hash()
      requires Sized()
      modifies this`h0, this`h1, this`h2, this`h3, this`first
      ensures Sized() && !first
      ensures Registered() == Compress(old(Registered()), WordsOf(buffer8[..64]))
    {
      hide Compress, WordsOf, Registers;
      h0, h1, h2, h3 := Transform(first, WordsOf(buffer8[..64]), h0, h1, h2, h3);
      first := false;
    }

    // blocks[0] = blocks[16] and zero in all other words
    method Carry()
      requires Sized()
      modifies buffer8
      ensures buffer8[..] == old(buffer8[64..]) + Zeros(64)
    {
      buffer8[0], buffer8[1], buffer8[2], buffer8[3] := buffer8[64], buffer8[65], buffer8[66], buffer8[67];
      forall k | 4 <= k < 68 { buffer8[k] := 0; }
    }

    // A store into word k of the Uint32Array.
    method StoreWord(k: nat, x: int)
      requires Sized() && k < 17
      modifies buffer8
      ensures buffer8[..] == old(buffer8[..4 * k]) + OctetsOf(U32(x)) + old(buffer8[4 * k + 4..])
    {
      var b := OctetsOf(U32(x));
      buffer8[4 * k], buffer8[4 * k + 1], buffer8[4 * k + 2], buffer8[4 * k + 3] := b[0], b[1], b[2], b[3];
    }

    // The inner loop of `update` for octets.
    method FillBytes(message: Message, from: nat) returns (i: int, index: nat)
      requires Sized() && 0 <= start < 64 && message.Bytes? && from < Length(message)
      modifies buffer8
      ensures start < i <= 67 && (i >= 64 || index >= Length(message))
      ensures from < index
      ensures buffer8[..start] == old(buffer8[..start]) && buffer8[i..] == old(buffer8[i..])
      ensures OctetsOfMessage(From(message, from)) == buffer8[start..i] + OctetsOfMessage(From(message, index))
    {
      i, index := start, from;
      while index < |message.octets| && i < 64
        invariant start <= i <= 64 && from <= index <= |message.octets| && i - start == index - from
        invariant forall k :: 0 <= k < start || i <= k < 68 ==> buffer8[k] == old(buffer8[k])
        invariant buffer8[start..i] == message.octets[from..index]
      {
        buffer8[i] := message.octets[index];
        i := i + 1;
        index := index + 1;
      }
      assert message.octets[from..] == message.octets[from..index] + message.octets[index..];
    }

    // The stores for one code.
    method StoreCode(from: int, code: int) returns (i: int)
      requires Sized() && 0 <= from < 64 && 0 <= code < 0x11_0000
      modifies buffer8
      ensures from < i <= from + 4
      ensures buffer8[..from] == old(buffer8[..from]) && buffer8[i..] == old(buffer8[i..])
      ensures buffer8[from..i] == Utf8.Encode(code)
    {
      hide JsOr, JsAnd, JsShr, Truncate, Utf8.Encode;
      StoredIsEncoded(code);
      i := from;
      if code < 0x80 {
        buffer8[i], i := Truncate(code), i + 1;
      } else if code < 0x800 {
        buffer8[i], i := Truncate(JsOr(0xc0, JsShr(code, 6))), i + 1;
        buffer8[i], i := Truncate(JsOr(0x80, JsAnd(code, 0x3f))), i + 1;
      } else if code < 0x1_0000 {
        buffer8[i], i := Truncate(JsOr(0xe0, JsShr(code, 12))), i + 1;
        buffer8[i], i := Truncate(JsOr(0x80, JsAnd(JsShr(code, 6), 0x3f))), i + 1;
        buffer8[i], i := Truncate(JsOr(0x80, JsAnd(code, 0x3f))), i + 1;
      } else {
        buffer8[i], i := Truncate(JsOr(0xf0, JsShr(code, 18))), i + 1;
        buffer8[i], i := Truncate(JsOr(0x80, JsAnd(JsShr(code, 12), 0x3f))), i + 1;
        buffer8[i], i := Truncate(JsOr(0x80, JsAnd(JsShr(code, 6), 0x3f))), i + 1;
        buffer8[i], i := Truncate(JsOr(0x80, JsAnd(code, 0x3f))), i + 1;
      }
      assert buffer8[from..i] == Stored(code);
    }

    // The code at the given index and the index behind it.
    static method ReadCode(units: seq<Utf8.Unit>, from: nat) returns (code: int, index: nat)
      requires from < |units|
      ensures from < index && code == Utf8.CodeOf(units[from..])
      ensures From(Text(units), index).units == Utf8.Rest(units[from..])
    {
      hide JsOr, JsAnd, JsShl;
      code, index := units[from], from;
      if Utf8.IsSurrogate(units[from]) {
        index := index + 1;
        var next: int := if index < |units| then units[index] else 0;
        PairCode(code, next);
        code := 0x1_0000 + JsOr(JsShl(JsAnd(code, 0x3ff), 10), JsAnd(next, 0x3ff));
      }
      index := index + 1;
    }

    // The inner loop of `update` for strings.
    method FillText(message: Message, from: nat) returns (i: int, index: nat)
      requires Sized() && 0 <= start < 64 && message.Text? && from < Length(message)
      modifies buffer8
      ensures start < i <= 67 && (i >= 64 || index >= Length(message))
      ensures from < index
      ensures buffer8[..start] == old(buffer8[..start]) && buffer8[i..] == old(buffer8[i..])
      ensures OctetsOfMessage(From(message, from)) == buffer8[start..i] + OctetsOfMessage(From(message, index))
    {
      hide Utf8.Encode, Utf8.CodeOf, Utf8.Rest;
      var units := message.units;
      i, index := start, from;
      ghost var all, left := Utf8.Octets(units[from..]), units[from..];
      while index < |units| && i < 64
        invariant start <= i <= 67 && from <= index
        invariant i == start ==> index == from
        invariant i > start ==> from < index
        invariant buffer8[..start] == old(buffer8[..start]) && buffer8[i..] == old(buffer8[i..])
        invariant left == From(message, index).units
        invariant all == buffer8[start..i] + Utf8.Octets(left)
        decreases |units| - index
      {
        ghost var was, before := i, buffer8[start..i];
        var code;
        code, index := ReadCode(units, index);
        i := StoreCode(i, code);
        assert buffer8[start..i] == before + buffer8[was..i];
        left := Utf8.Rest(left);
      }
    }

    /** Absorbs the octets of the message, however the calls before cut the whole. */
    method Update(message: Message)
      requires Valid()
      modifies this, buffer8
      ensures Valid() && finalized == old(finalized)
      ensures absorbed == old(absorbed) + (if finalized then [] else OctetsOfMessage(message))
    {
      hide Chain, Holds, Chaining, Counts;
      if finalized {
        assert absorbed == old(absorbed) + [];
        return;
      }
      var index, length: int := 0, Length(message);
      ghost var all := absorbed + OctetsOfMessage(message);
      assert From(message, 0) == message;
      while index < length
        invariant Streaming() && !finalized
        invariant all == absorbed + OctetsOfMessage(From(message, index))
        decreases length - index
      {
        index := Step(message, index);
      }
      assert OctetsOfMessage(From(message, index)) == [];
      if bytes > 4294967295 {
        CountsSplit(bytes, hBytes, |absorbed|);
        hBytes := hBytes + I32(bytes / 4294967296);
        bytes := bytes % 4294967296;
      }
    }

    // The first half of a pass: a fresh buffer after a compression, then the stores.
    method Fill(message: Message, from: nat, ghost tail: seq<Octet>) returns (i: int, index: nat)
      requires Sized() && 0 <= start < 64 && from < Length(message) && |tail| == start
      requires if hashed then start <= 3 && Holds(buffer8[64..], tail) else Holds(buffer8[..], tail)
      modifies this`hashed, buffer8
      ensures !hashed && start < i <= 67 && from < index && (i >= 64 || index >= Length(message))
      ensures Holds(buffer8[..], tail + buffer8[start..i])
      ensures OctetsOfMessage(From(message, from)) == buffer8[start..i] + OctetsOfMessage(From(message, index))
    {
      hide From, OctetsOfMessage, Holds;
      if hashed {
        hashed := false;
        Carry();
        CarriedHolds(old(buffer8[64..]), buffer8[..], tail);
      }
      ghost var before := buffer8[..];
      if message.Bytes? {
        i, index := FillBytes(message, from);
      } else {
        i, index := FillText(message, from);
      }
      ghost var after := buffer8[..];
      assert after[..start] == before[..start] && after[i..] == before[i..] && after[start..i] == buffer8[start..i];
      Filled(before, after, tail, i);
    }

    // The second half of a pass: a full block is compressed, the octets behind it are kept.
    method Settle(i: nat, ghost done: seq<Octet>, ghost rest: seq<Octet>)
      requires Sized() && !hashed && |rest| == i <= 67
      requires absorbed == done + rest && |done| % 64 == 0 && Registered() == Chain(done)
      requires Holds(buffer8[..], rest) && lastByteIndex == i && Counts(bytes, hBytes, |absorbed|)
      modifies this`start, this`hashed, this`h0, this`h1, this`h2, this`h3, this`first
      ensures Streaming()
    {
      hide Chain, Compress, WordsOf, Registers, Holds, Counts, Chaining;
      ghost var buffer := buffer8[..];
      if i >= 64 {
        start := i - 64;
        BlockDone(done, rest, buffer);
        assert buffer[..64] == buffer8[..64] && buffer[64..] == buffer8[64..];
        Hash();
        hashed := true;
        assert |absorbed| - start == |done| + 64;
      } else {
        start := i;
        assert absorbed[..|done|] == done && absorbed[|done|..] == rest;
      }
    }

    // One pass of the outer loop of `update`.
    method Step(message: Message, from: nat) returns (index: nat)
      requires Streaming() && !finalized && from < Length(message)
      modifies this, buffer8
      ensures Streaming() && !finalized && from < index
      ensures absorbed + OctetsOfMessage(From(message, index)) == old(absorbed) + OctetsOfMessage(From(message, from))
    {
      hide Chain, From, OctetsOfMessage, Holds, Counts, Chaining;
      ghost var n := |absorbed|;
      ghost var done, tail := absorbed[..n - start], absorbed[n - start..];
      assert absorbed == done + tail;
      var i;
      i, index := Fill(message, from, tail);
      ghost var written := buffer8[start..i];
      absorbed := absorbed + written;
      assert absorbed == done + (tail + written);
      lastByteIndex := i;
      CountsMore(bytes, hBytes, n, i - start);
      bytes := bytes + (i - start);
      Settle(i, done, tail + written);
    }

    // blocks[i >> 2] |= EXTRA[i & 3]
    method Mark(i: nat)
      requires Sized() && i < 68 && forall j :: i <= j < i / 4 * 4 + 4 ==> buffer8[j] == 0
      modifies buffer8
      ensures buffer8[..] == old(buffer8[..])[i := 0x80]
    {
      hide JsOr, OctetsOf, WordOf;
      var k := i / 4;
      MarkOctet(buffer8[4 * k..4 * k + 4], i % 4);
      StoreWord(k, JsOr(WordOf(buffer8[4 * k..4 * k + 4]), EXTRA[i % 4]));
    }

    // The end of `finalize`: the bit count into the last two words, and the last block.
    method Close(ghost done: seq<Octet>, ghost stub: seq<Octet>)
      requires Sized() && |stub| <= 56 && Holds(buffer8[..], stub)
      requires |done| % 64 == 0 && Registered() == Chain(done)
      requires Counts(bytes, hBytes, |absorbed|) && bytes < TWO_32
      requires Pad(absorbed) == done + LastBlock(stub, |absorbed|)
      modifies this`h0, this`h1, this`h2, this`h3, this`first, buffer8
      ensures Sized() && !first && Registered() == Chain(Pad(absorbed))
    {
      hide Chain, Compress, WordsOf, Pad, Chaining, JsOr, JsShl, JsUShr, OctetsOf, Counts;
      ghost var last := LastBlock(stub, |absorbed|);
      CounterWords(bytes, hBytes, |absorbed|);
      StoreWord(14, JsShl(bytes, 3));
      StoreWord(15, JsOr(JsShl(hBytes, 3), JsUShr(bytes, 29)));
      assert buffer8[..64] == last;
      ChainBlock(done, last);
      Hash();
    }

    // The end of a message that leaves no room for the bit count in its block.
    method MakeRoom(ghost done: seq<Octet>, ghost tail: seq<Octet>)
      returns (ghost before: seq<Octet>, ghost stub: seq<Octet>)
      requires Sized() && |done| % 64 == 0 && absorbed == done + tail
      requires if hashed then |tail| <= 3 && Registered() == Chain(done) && Holds(buffer8[64..], tail + [0x80])
               else 56 <= |tail| < 64 && Registered() == Chain(done) && Holds(buffer8[..], tail + [0x80])
      modifies this`h0, this`h1, this`h2, this`h3, this`first, buffer8
      ensures Sized() && |before| % 64 == 0 && |stub| <= 56 && Registered() == Chain(before)
      ensures Holds(buffer8[..], stub) && Pad(absorbed) == before + LastBlock(stub, |absorbed|)
    {
      hide Chain, Compress, WordsOf, Pad, Chaining, LastBlock;
      if !hashed {
        PadTwoBlocks(done, tail);
        assert buffer8[..64] == tail + [0x80] + Zeros(63 - |tail|);
        ChainBlock(done, buffer8[..64]);
        before, stub := done + buffer8[..64], [];
        Hash();
      } else {
        PadOneBlock(done, tail);
        before, stub := done, tail + [0x80];
      }
      Carry();
    }

    /** Pads the message and compresses what is left. */
    method Finalize()
      requires Valid()
      modifies this, buffer8
      ensures Valid() && finalized && absorbed == old(absorbed)
      ensures old(finalized) ==> Registered() == old(Registered())
    {
      hide Chain, Compress, WordsOf, Pad, Chaining, Counts, LastBlock;
      if finalized {
        return;
      }
      finalized := true;
      ghost var n := |absorbed|;
      ghost var done, tail := absorbed[..n - start], absorbed[n - start..];
      assert absorbed == done + tail;
      ghost var stub := tail + [0x80];
      var i := lastByteIndex;
      Mark(i);
      if i >= 56 {
        done, stub := MakeRoom(done, tail);
      } else {
        PadOneBlock(done, tail);
      }
      Close(done, stub);
    }

    /** The octets of the hash: RFC 1321 on everything absorbed. */
    method Digest() returns (d: seq<int>)
      requires Valid()
      modifies this, buffer8
      ensures Valid() && finalized && absorbed == old(absorbed)
      ensures d == Rfc1321.Md5(absorbed)
    {
      hide DigestOf, OctetsOf, Chain, Pad;
      Finalize();
      DigestOfWord(h0);
      DigestOfWord(h1);
      DigestOfWord(h2);
      DigestOfWord(h3);
      d := DigestOf(h0) + DigestOf(h1) + DigestOf(h2) + DigestOf(h3);
    }

    /** The same octets as text. */
    method Hex() returns (s: string)
      requires Valid()
      modifies this, buffer8
      ensures Valid() && finalized && absorbed == old(absorbed)
      ensures s == HexString(Rfc1321.Md5(absorbed))
    {
      hide HexOf, OctetsOf, Chain, Pad, HexString;
      Finalize();
      HexOfWord(h0);
      HexOfWord(h1);
      HexOfWord(h2);
      HexOfWord(h3);
      s := HexOf(h0) + HexOf(h1) + HexOf(h2) + HexOf(h3);
      ghost var b0, b1, b2, b3 := OctetsOf(U32(h0)), OctetsOf(U32(h1)), OctetsOf(U32(h2)), OctetsOf(U32(h3));
      HexStringConcat(b0 + b1 + b2, b3);
      HexStringConcat(b0 + b1, b2);
      HexStringConcat(b0, b1);
    }
  }

  /** `md5(message)`, on the buffer that all such calls share. */
  method HexMd5(memory: array<Octet>, message: Message) returns (s: string)
    requires memory.Length == 68
    modifies memory
    ensures s == HexString(Rfc1321.Md5(OctetsOfMessage(message)))
    ensures message.Text? && Utf8.WellFormed(message.units) ==>
              s == HexString(Rfc1321.Md5(Utf8.EncodeAll(Utf8.Characters(message.units))))
  {
    hide Rfc1321.Md5, HexString;
    var md5 := new Md5.Shared(memory);
    md5.Update(message);
    assert [] + OctetsOfMessage(message) == OctetsOfMessage(message);
    s := md5.Hex();
    if message.Text? && Utf8.WellFormed(message.units) {
      Utf8.WellFormedIsUtf8(message.units);
    }
  }

  lemma NextPiece(pieces: seq<seq<Utf8.Unit>>, i: nat)
    requires i < |pieces|
    ensures Utf8.OctetsOfPieces(pieces[i..]) == OctetsOfMessage(Text(pieces[i])) + Utf8.OctetsOfPieces(pieces[i + 1..])
  {
    assert pieces[i..][1..] == pieces[i + 1..];
  }

  lemma NoPiece(pieces: seq<seq<Utf8.Unit>>)
    ensures Utf8.OctetsOfPieces(pieces[|pieces|..]) == []
  {
  }

  /** A string handed over in pieces of whole characters is hashed as the UTF-8 encoding of the whole. */
  method HexOfPieces(pieces: seq<seq<Utf8.Unit>>) returns (s: string)
    ensures s == HexString(Rfc1321.Md5(Utf8.OctetsOfPieces(pieces)))
    ensures (forall i :: 0 <= i < |pieces| ==> Utf8.WellFormed(pieces[i])) ==>
              Utf8.WellFormed(Utf8.Joined(pieces))
              && s == HexString(Rfc1321.Md5(Utf8.EncodeAll(Utf8.Characters(Utf8.Joined(pieces)))))
  {
    hide *;
    var md5 := new Md5();
    var i := 0;
    assert pieces[0..] == pieces && [] + Utf8.OctetsOfPieces(pieces) == Utf8.OctetsOfPieces(pieces);
    while i < |pieces|
      invariant 0 <= i <= |pieces| && md5.Valid() && !md5.finalized && fresh(md5) && fresh(md5.buffer8)
      invariant md5.absorbed + Utf8.OctetsOfPieces(pieces[i..]) == Utf8.OctetsOfPieces(pieces)
    {
      NextPiece(pieces, i);
      ghost var done, next, rest := md5.absorbed, OctetsOfMessage(Text(pieces[i])),
          Utf8.OctetsOfPieces(pieces[i + 1..]);
      assert done + next + rest == done + (next + rest);
      md5.Update(Text(pieces[i]));
      i := i + 1;
    }
    NoPiece(pieces);
    assert md5.absorbed + [] == md5.absorbed;
    s := md5.Hex();
    if forall i :: 0 <= i < |pieces| ==> Utf8.WellFormed(pieces[i]) {
      Utf8.PiecesAreUtf8(pieces);
    }
  }
}
