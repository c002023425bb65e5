/**
 The in-line UTF-8 encoder of js-md5. A string is a sequence of UTF-16 code units.
 `Octets` is what the program emits for any string at all; for well-formed strings
 it is the encoding of RFC 3629, which `Decode` takes back to the characters.
*/
module Utf8 {
  import opened JsNumbers

  type Unit = x: int | 0 <= x < 0x1_0000

  type Code = c: int | 0 <= c < 0x11_0000

  // A Unicode scalar value.
  predicate IsScalar(c: int) { 0 <= c < 0xd800 || 0xe000 <= c < 0x11_0000 }

  predicate AllScalars(cs: seq<Code>) { forall i :: 0 <= i < |cs| ==> IsScalar(cs[i]) }

  // ---- RFC 3629, section 3

  function Encode(c: Code): (b: seq<Octet>)
    ensures 1 <= |b| <= 4
  {
    if c < 0x80 then [c]
    else if c < 0x800 then [0xc0 + c / 0x40, 0x80 + c % 0x40]
    else if c < 0x1_0000 then [0xe0 + c / 0x1000, 0x80 + c / 0x40 % 0x40, 0x80 + c % 0x40]
    else [0xf0 + c / 0x4_0000, 0x80 + c / 0x1000 % 0x40, 0x80 + c / 0x40 % 0x40, 0x80 + c % 0x40]
  }

  function EncodeAll(cs: seq<Code>): seq<Octet>
  {
    if cs == [] then [] else Encode(cs[0]) + EncodeAll(cs[1..])
  }

  datatype Decoded = Malformed | Scalars(cs: seq<Code>)

  predicate IsTail(o: Octet) { 0x80 <= o < 0xc0 }

  // The scalar that starts b and the number of octets it takes; 0 octets when malformed.
  function DecodeFirst(b: seq<Octet>): (r: (Code, nat))
    ensures r.1 <= |b|
  {
    if |b| >= 1 && b[0] < 0x80 then (b[0], 1)
    else if |b| >= 2 && 0xc0 <= b[0] < 0xe0 && IsTail(b[1]) then Two(b[0] - 0xc0, b[1] - 0x80)
    else if |b| >= 3 && 0xe0 <= b[0] < 0xf0 && IsTail(b[1]) && IsTail(b[2]) then
      Three(b[0] - 0xe0, b[1] - 0x80, b[2] - 0x80)
    else if |b| >= 4 && 0xf0 <= b[0] < 0xf8 && IsTail(b[1]) && IsTail(b[2]) && IsTail(b[3]) then
      Four(b[0] - 0xf0, b[1] - 0x80, b[2] - 0x80, b[3] - 0x80)
    else (0, 0)
  }

  // Overlong forms, surrogates and values above U+10FFFF are refused.

  function Two(h: nat, t1: nat): (r: (Code, nat))
    ensures r.1 <= 2
  {
    var c := h * 0x40 + t1;
    if 0x80 <= c < 0x800 then (c, 2) else (0, 0)
  }

  function Three(h: nat, t1: nat, t2: nat): (r: (Code, nat))
    ensures r.1 <= 3
  {
    var c := h * 0x1000 + t1 * 0x40 + t2;
    if 0x800 <= c < 0x1_0000 && IsScalar(c) then (c, 3) else (0, 0)
  }

  function Four(h: nat, t1: nat, t2: nat, t3: nat): (r: (Code, nat))
    ensures r.1 <= 4
  {
    var c := h * 0x4_0000 + t1 * 0x1000 + t2 * 0x40 + t3;
    if 0x1_0000 <= c && IsScalar(c) then (c, 4) else (0, 0)
  }

  function Decode(b: seq<Octet>): Decoded
    decreases |b|
  {
    if b == [] then Scalars([])
    else
      var (c, n) := DecodeFirst(b);
      if n == 0 then Malformed
      else
        match Decode(b[n..])
        case Malformed => Malformed
        case Scalars(cs) => Scalars([c] + cs)
  }

  lemma DecodeEncodeFirst(c: Code, rest: seq<Octet>)
    requires IsScalar(c)
    ensures DecodeFirst(Encode(c) + rest) == (c, |Encode(c)|)
  {
    var e := Encode(c);
    var b := e + rest;
    Digits(c);
    assert b[0] == e[0];
    if c >= 0x80 { assert b[1] == e[1]; }
    if c >= 0x800 { assert b[2] == e[2]; }
    if c >= 0x1_0000 { assert b[3] == e[3]; }
  }

  lemma Digits(c: Code)
    ensures c == c / 0x40 * 0x40 + c % 0x40
    ensures c / 0x40 == c / 0x1000 * 0x40 + c / 0x40 % 0x40
    ensures c / 0x1000 == c / 0x4_0000 * 0x40 + c / 0x1000 % 0x40
  {
  }

  /** Decoding returns the characters, whatever they are: the encoding loses nothing. */
  lemma {:induction false} DecodeEncodeAll(cs: seq<Code>)
    requires AllScalars(cs)
    ensures Decode(EncodeAll(cs)) == Scalars(cs)
  {
    if cs != [] {
      var rest := EncodeAll(cs[1..]);
      DecodeEncodeAll(cs[1..]);
      DecodeEncodeFirst(cs[0], rest);
      assert (Encode(cs[0]) + rest)[|Encode(cs[0])|..] == rest;
      assert [cs[0]] + cs[1..] == cs;
    }
  }

  // ---- UTF-16

  predicate IsHigh(u: Unit) { 0xd800 <= u < 0xdc00 }
  predicate IsLow(u: Unit) { 0xdc00 <= u < 0xe000 }

  predicate WellFormed(s: seq<Unit>)
  {
    s == []
    || (if IsHigh(s[0]) then |s| >= 2 && IsLow(s[1]) && WellFormed(s[2..])
        else !IsLow(s[0]) && WellFormed(s[1..]))
  }

  // The characters of a well-formed string (RFC 2781, section 2.2).
  function Characters(s: seq<Unit>): (cs: seq<Code>)
    requires WellFormed(s)
    ensures AllScalars(cs)
  {
    if s == [] then []
    else if IsHigh(s[0]) then [0x1_0000 + (s[0] - 0xd800) * 0x400 + (s[1] - 0xdc00)] + Characters(s[2..])
    else [s[0]] + Characters(s[1..])
  }

  // ---- the program, on any string

  predicate IsSurrogate(u: Unit) { 0xd800 <= u < 0xe000 }

  // Every surrogate is taken together with the unit behind it, without looking at either;
  // charCodeAt beyond the end is NaN, which `&` turns into 0.
  function CodeOf(s: seq<Unit>): Code
    requires s != []
  {
    var u: int, next: int := s[0], if |s| > 1 then s[1] else 0;
    if IsSurrogate(u) then 0x1_0000 + u % 0x400 * 0x400 + next % 0x400 else u
  }

  // The units left after the first code.
  function Rest(s: seq<Unit>): (r: seq<Unit>)
    requires s != []
    ensures |r| < |s|
  {
    if IsSurrogate(s[0]) && |s| > 1 then s[2..] else s[1..]
  }

  function Octets(s: seq<Unit>): seq<Octet>
    decreases |s|
  {
    if s == [] then [] else Encode(CodeOf(s)) + Octets(Rest(s))
  }

  /** A well-formed string is hashed as its UTF-8 encoding. */
  lemma {:induction false} WellFormedIsUtf8(s: seq<Unit>)
    requires WellFormed(s)
    ensures Octets(s) == EncodeAll(Characters(s))
    decreases |s|
  {
    hide Encode;
    if s != [] {
      WellFormedIsUtf8(Rest(s));
      var cs := Characters(s);
      assert cs[1..] == Characters(Rest(s));
      assert CodeOf(s) == cs[0];
    }
  }

  /** Cutting between whole characters changes nothing. */
  lemma {:induction false} CutBetweenCharacters(s: seq<Unit>, t: seq<Unit>)
    requires WellFormed(s) && WellFormed(t)
    ensures WellFormed(s + t)
    ensures Octets(s + t) == Octets(s) + Octets(t)
    decreases |s|
  {
    hide Encode;
    if s == [] {
      assert s + t == t;
    } else {
      assert Rest(s + t) == Rest(s) + t;
      assert CodeOf(s + t) == CodeOf(s);
      CutBetweenCharacters(Rest(s), t);
    }
  }

  function Joined(pieces: seq<seq<Unit>>): seq<Unit>
  {
    if pieces == [] then [] else pieces[0] + Joined(pieces[1..])
  }

  // What successive updates emit.
  function OctetsOfPieces(pieces: seq<seq<Unit>>): seq<Octet>
  {
    if pieces == [] then [] else Octets(pieces[0]) + OctetsOfPieces(pieces[1..])
  }

  /** However often a string is cut between characters, the updates emit its UTF-8 encoding. */
  lemma {:induction false} PiecesAreUtf8(pieces: seq<seq<Unit>>)
    requires forall i :: 0 <= i < |pieces| ==> WellFormed(pieces[i])
    ensures WellFormed(Joined(pieces))
    ensures OctetsOfPieces(pieces) == Octets(Joined(pieces)) == EncodeAll(Characters(Joined(pieces)))
  {
    hide Octets, EncodeAll, Characters;
    if pieces == [] {
      NoOctets();
    } else {
      PiecesAreUtf8(pieces[1..]);
      CutBetweenCharacters(pieces[0], Joined(pieces[1..]));
    }
    WellFormedIsUtf8(Joined(pieces));
  }

  lemma NoOctets()
    ensures Octets([]) == []
  {
  }

  // A stray surrogate in front of a well-formed string makes the encoding longer.
  lemma {:induction false} StrayIsLonger(u: Unit, t: seq<Unit>)
    requires IsSurrogate(u) && WellFormed(t)
    ensures |Octets([u] + t)| > |Octets(t)|
    decreases |t|
  {
    var s := [u] + t;
    if t != [] {
      if IsHigh(t[0]) {
        StrayIsLonger(t[1], t[2..]);
        assert Rest(s) == [t[1]] + t[2..];
      } else {
        assert Rest(s) == t[1..];
      }
    }
  }

  /**
   A string given in two updates is hashed like the whole string exactly when the cut
   does not split a surrogate pair.
  */
  lemma {:induction false} CutIffWhole(s: seq<Unit>, t: seq<Unit>)
    requires WellFormed(s + t)
    ensures Octets(s + t) == Octets(s) + Octets(t) <==> s == [] || !IsHigh(s[|s| - 1])
    decreases |s|
  {
    var w := s + t;
    if s == [] {
      assert w == t;
    } else if IsSurrogate(s[0]) && |s| == 1 {
      assert s == [s[0]];
      SplitPair(s[0], t);
    } else {
      assert Rest(w) == Rest(s) + t;
      CutIffWhole(Rest(s), t);
      CutBehind(s, t);
    }
  }

  lemma CutBehind(s: seq<Unit>, t: seq<Unit>)
    requires s != [] && !(IsSurrogate(s[0]) && |s| == 1)
    ensures Octets(s + t) == Octets(s) + Octets(t) <==> Octets(Rest(s) + t) == Octets(Rest(s)) + Octets(t)
  {
    hide Encode, Octets;
    var w := s + t;
    OctetsUnfold(s);
    OctetsUnfold(w);
    assert Rest(w) == Rest(s) + t;
    assert CodeOf(w) == CodeOf(s);
    var e := Encode(CodeOf(s));
    assert e + (Octets(Rest(s)) + Octets(t)) == (e + Octets(Rest(s))) + Octets(t);
    SamePrefix(e, Octets(Rest(w)), Octets(Rest(s)) + Octets(t));
  }

  lemma OctetsUnfold(s: seq<Unit>)
    requires s != []
    ensures Octets(s) == Encode(CodeOf(s)) + Octets(Rest(s))
  {
  }

  lemma SplitPair(u: Unit, t: seq<Unit>)
    requires IsSurrogate(u) && WellFormed([u] + t)
    ensures IsHigh(u)
    ensures |Octets([u] + t)| < |Octets([u])| + |Octets(t)|
  {
    var w := [u] + t;
    assert w[2..] == t[1..] && t == [t[0]] + t[1..];
    StrayIsLonger(t[0], t[1..]);
    assert Rest([u]) == [];
  }

  lemma SamePrefix(e: seq<Octet>, x: seq<Octet>, y: seq<Octet>)
    ensures e + x == e + y <==> x == y
  {
    if e + x == e + y {
      assert (e + x)[|e|..] == x && (e + y)[|e|..] == y;
    }
  }

  // ---- the examples of section 7 of RFC 3629

  lemma EncodedExamples()
    ensures Encode(0x41) == [0x41] && Encode(0x391) == [0xce, 0x91] && Encode(0x2262) == [0xe2, 0x89, 0xa2]
    ensures Encode(0x233b4) == [0xf0, 0xa3, 0x8e, 0xb4]
    ensures CodeOf([0xd84c, 0xdfb4]) == 0x233b4 && Rest([0xd84c, 0xdfb4]) == []
    ensures CodeOf([0xd84c]) == 0x23000 && CodeOf([0x41, 0x2262]) == 0x41
  {
  }

  /** Strings of one to four octets a character, and a surrogate on its own. */
  lemma StringExamples()
    ensures Octets([0x41, 0x2262, 0x391, 0x2e]) == [0x41] + ([0xe2, 0x89, 0xa2] + ([0xce, 0x91] + [0x2e]))
    ensures Octets([0xfeff, 0xd84c, 0xdfb4]) == [0xef, 0xbb, 0xbf] + [0xf0, 0xa3, 0x8e, 0xb4]
    ensures Octets([0xd84c]) == [0xf0, 0xa3, 0x80, 0x80]
  {
    EncodedExamples();
    assert Octets([]) == [];
    assert Octets([0xd84c, 0xdfb4]) == Encode(0x233b4) + [];
    assert Rest([0xfeff, 0xd84c, 0xdfb4]) == [0xd84c, 0xdfb4];
    assert Rest([0xd84c]) == [];
    assert Octets([0x2e]) == [0x2e];
    assert Rest([0x391, 0x2e]) == [0x2e];
    assert Rest([0x2262, 0x391, 0x2e]) == [0x391, 0x2e];
    assert Rest([0x41, 0x2262, 0x391, 0x2e]) == [0x2262, 0x391, 0x2e];
  }
}
