/**
 Version numbers and tags of the box: printing the latest version, reading a tag, and
 telling whether a tag names the latest version.
*/
module Version {
  import opened Collections
  import opened Strings

  type Triple = (int, int, int)

  // What Python raises is a result of its own.
  datatype Result<T> = Ok(value: T) | IndexError | ValueError

  // Comparison of tuples.
  predicate Less(u: Triple, v: Triple)
  {
    u.0 < v.0 || (u.0 == v.0 && (u.1 < v.1 || (u.1 == v.1 && u.2 < v.2)))
  }

  /** The order of tuples: the first component that differs decides, and one of two different tuples is less. */
  lemma LessIsOrder(u: Triple, v: Triple)
    ensures u.0 < v.0 ==> Less(u, v)
    ensures u.0 == v.0 && u.1 < v.1 ==> Less(u, v)
    ensures u.0 == v.0 && u.1 == v.1 && u.2 < v.2 ==> Less(u, v)
    ensures Less(u, v) ==> !Less(v, u)
    ensures !Less(u, v) && !Less(v, u) <==> u == v
  {
  }

  // ---- reading an integer

  function DigitsValue(s: string): Option<nat>
  {
    if s == "" || !IsDigit(s[|s| - 1]) then None
    else
      var d := s[|s| - 1] as int - '0' as int;
      if |s| == 1 then Some(d)
      else
        var init := if s[|s| - 2] == '_' then s[..|s| - 2] else s[..|s| - 1];
        match DigitsValue(init)
        case None => None
        case Some(n) => Some(10 * n + d)
  }

  // int(s): blanks around, a sign, digits that may be grouped with single underscores
  function IntValue(s: string): Option<int>
  {
    var t := Strip(s);
    if t != "" && (t[0] == '-' || t[0] == '+') then
      match DigitsValue(t[1..])
      case None => None
      case Some(n) => var value: int := n; Some(if t[0] == '-' then -value else value)
    else
      match DigitsValue(t)
      case None => None
      case Some(n) => Some(n)
  }

  lemma {:induction false} DecimalValue(n: nat)
    ensures DigitsValue(Decimal(n)) == Some(n)
  {
    var s := Decimal(n);
    var c := "0123456789"[n % 10];
    assert c as int - '0' as int == n % 10;
    if n >= 10 {
      DecimalValue(n / 10);
      assert s[..|s| - 1] == Decimal(n / 10);
      assert IsDigit(s[|s| - 2]);
    }
  }

  /** Reading undoes printing. */
  lemma DecimalIsInt(n: nat)
    ensures IntValue(Decimal(n)) == Some(n)
  {
    var s := Decimal(n);
    DecimalValue(n);
    assert IsDigit(s[0]) && IsDigit(s[|s| - 1]);
    assert Strip(s) == s;
  }

  lemma DigitExamples()
    ensures DigitsValue("3") == Some(3) && DigitsValue("12") == DigitsValue("1_2") == Some(12)
    ensures DigitsValue("1__2") == DigitsValue("_1") == DigitsValue("1_") == DigitsValue("x") == DigitsValue("") == None
  {
    assert DigitsValue("1") == Some(1) && DigitsValue("_") == None && DigitsValue("1_") == None;
  }

  lemma StripExamples()
    ensures Strip("-3") == "-3" && Strip("+3") == "+3" && Strip(" 3") == Strip("3 ") == "3"
  {
    assert TrimLeft(" 3") == "3" && TrimRight("3 ") == "3";
  }

  /** Signs, blanks and underscores as `int` takes them, and what it refuses. */
  lemma IntExamples()
    ensures IntValue("-3") == Some(-3) && IntValue("+3") == IntValue(" 3") == IntValue("3 ") == Some(3)
    ensures IntValue("1_2") == Some(12) && IntValue("1__2") == IntValue("x") == IntValue("") == None
  {
    hide Strip, DigitsValue;
    StripExamples();
    DigitExamples();
    AlreadyStripped("1_2");
    AlreadyStripped("1__2");
    AlreadyStripped("x");
    AlreadyStripped("");
    assert "-3"[1..] == "3" && "+3"[1..] == "3";
  }

  lemma AlreadyStripped(s: string)
    requires s != "" ==> !IsSpace(s[0]) && !IsSpace(s[|s| - 1])
    ensures Strip(s) == s
  {
  }

  // ---- printing and reading a version

  function Printed(n: int): string { if n < 0 then "-" + Decimal(-n) else Decimal(n) }

  function Latest(v: Triple): string
  {
    Join([Printed(v.0), Printed(v.1)] + if v.2 != 0 then [Printed(v.2)] else [], ".")
  }

  function LatestVersion(version: Option<Triple>): Option<string>
  {
    if version.None? then None else Some(Latest(version.value))
  }

  function LowerChar(c: char): char { if 'A' <= c <= 'Z' then (c as int + 32) as char else c }

  function Lower(s: string): (r: string)
    ensures |r| == |s|
  {
    seq(|s|, i requires 0 <= i < |s| => LowerChar(s[i]))
  }

  // tag.lower().split(marker)[0]
  function CutBefore(tag: string, marker: string): string
    requires marker != ""
  {
    Split(Lower(tag), marker)[0]
  }

  // The tag without its prefix, its suffix and a full stop in between.
  function Number(tag: string): string
  {
    var t := if tag != "" && tag[0] == 'v' then tag[1..] else tag;
    var u := CutBefore(CutBefore(CutBefore(CutBefore(t, "rc"), "dev"), "post"), "alpha");
    if u != "" && u[|u| - 1] == '.' then u[..|u| - 1] else u
  }

  function Ints(parts: seq<string>): Option<seq<int>>
  {
    if parts == [] then Some([])
    else
      var before, last := Ints(parts[..|parts| - 1]), IntValue(parts[|parts| - 1]);
      if before.None? || last.None? then None else Some(before.value + [last.value])
  }

  // The first three, with zeros for what is missing.
  function FirstThree(v: seq<int>): Triple
  {
    (if |v| > 0 then v[0] else 0, if |v| > 1 then v[1] else 0, if |v| > 2 then v[2] else 0)
  }

  function VersionOf(tag: string): Result<Triple>
  {
    if tag == "" then IndexError
    else
      match Ints(Split(Number(tag), "."))
      case None => ValueError
      case Some(v) => Ok(FirstThree(v))
  }

  lemma {:induction false} IntsFail(parts: seq<string>, i: nat)
    requires i < |parts| && IntValue(parts[i]).None?
    ensures Ints(parts).None?
  {
    if i < |parts| - 1 { IntsFail(parts[..|parts| - 1], i); }
  }

  method Tag2Version(tag: string) returns (r: Result<Triple>)
    ensures r == VersionOf(tag)
  {
    hide IntValue, Split, Lower;
    if tag == "" { return IndexError; }
    var t := tag;
    if t[0] == 'v' {
      t := t[1..];
    }
    t := Split(Lower(t), "rc")[0];
    t := Split(Lower(t), "dev")[0];
    t := Split(Lower(t), "post")[0];
    t := Split(Lower(t), "alpha")[0];
    if t != "" && t[|t| - 1] == '.' {
      t := t[..|t| - 1];
    }
    assert t == Number(tag);
    var parts := Split(t, ".");
    var v: seq<int> := [];
    var i := 0;
    while i < |parts|
      invariant 0 <= i <= |parts| && Ints(parts[..i]) == Some(v)
    {
      var y := IntValue(parts[i]);
      if y.None? {
        IntsFail(parts, i);
        return ValueError;
      }
      assert parts[..i + 1][..|parts[..i + 1]| - 1] == parts[..i];
      v := v + [y.value];
      i := i + 1;
    }
    assert parts[..|parts|] == parts;
    ghost var all := v;
    while |v| < 3
      invariant |all| <= |v| && FirstThree(v) == FirstThree(all)
    {
      v := v + [0];
    }
    return Ok((v[0], v[1], v[2]));
  }

  predicate TagIsRC(tag: string) { |Split(Lower(tag), "rc")| > 1 }

  // None without a known version.
  function IsLatestTag(version: Option<Triple>, tag: string): Option<Result<bool>>
  {
    if version.None? then None
    else
      match VersionOf(tag)
      case IndexError => Some(IndexError)
      case ValueError => Some(ValueError)
      case Ok(t) => Some(Ok(if TagIsRC(tag) then Less(version.value, t) else !Less(t, version.value)))
  }

  // ---- the suffix of a tag

  // In the order in which they are looked for.
  const MARKERS: seq<string> := ["rc", "dev", "post", "alpha"]

  // Digits and full stops.
  predicate Plain(s: string) { forall i :: 0 <= i < |s| ==> IsDigit(s[i]) || s[i] == '.' }

  // No occurrence of the second marker begins inside the first.
  predicate Apart(m: string, sep: string)
  {
    |sep| >= 2 && forall x :: 0 <= x < |m| ==> ApartAt(m, sep, x)
  }

  predicate ApartAt(m: string, sep: string, x: nat)
    requires |sep| >= 2 && x < |m|
  {
    m[x] != sep[0] || (x + 1 < |m| && m[x + 1] != sep[1])
  }

  lemma MarkersApart(i: nat, j: nat)
    requires i < j < |MARKERS|
    ensures Apart(MARKERS[j], MARKERS[i])
  {
    assert MARKERS[j] in ["dev", "post", "alpha"];
    assert MARKERS[i] in ["rc", "dev", "post"];
  }

  lemma FirstPlace(s: string, sep: string, k: nat)
    requires sep != "" && At(s, k, sep) && forall j: nat :: j < k ==> !At(s, j, sep)
    ensures Find(s, sep) == Some(k) && Split(s, sep)[0] == s[..k]
  {
    FindFirst(s, sep, k);
  }

  // No marker begins in a plain text, whatever follows.
  lemma NotInPlain(n: string, rest: string, sep: string, j: nat)
    requires Plain(n) && sep != "" && 'a' <= sep[0] <= 'z' && j < |n|
    ensures !At(n + rest, j, sep)
  {
    NotAt(n + rest, j, sep);
  }

  lemma NotAt(s: string, j: nat, sep: string)
    requires sep != "" && j < |s|
    requires s[j] != sep[0] || (|sep| >= 2 && j + 1 < |s| && s[j + 1] != sep[1])
    ensures !At(s, j, sep)
  {
    assert s[j + 0] == s[j];
  }

  // Nor inside a marker that is apart from it.
  lemma NotInMarker(n: string, m: string, rest: string, sep: string, j: nat)
    requires Apart(m, sep) && |n| <= j < |n| + |m|
    ensures !At(n + m + rest, j, sep)
  {
    var w, x := n + m + rest, j - |n|;
    assert ApartAt(m, sep, x);
    assert w[j] == m[x];
    assert x + 1 < |m| ==> w[j + 1] == m[x + 1];
    NotAt(w, j, sep);
  }

  // Cutting a lower-case text: at its marker, before one that comes later, not at all.

  lemma CutHere(n: string, m: string, rest: string)
    requires Plain(n) && m != "" && 'a' <= m[0] <= 'z' && Lower(n + m + rest) == n + m + rest
    ensures CutBefore(n + m + rest, m) == n
  {
    var w := n + m + rest;
    AtSeam(n, m, rest);
    assert w == n + (m + rest);
    forall j: nat | j < |n| ensures !At(w, j, m) { NotInPlain(n, m + rest, m, j); }
    FirstPlace(w, m, |n|);
    assert w[..|n|] == n;
  }

  lemma CutLater(n: string, m: string, rest: string, sep: string) returns (r: string)
    requires Plain(n) && sep != "" && 'a' <= sep[0] <= 'z' && Apart(m, sep) && Lower(n + m + rest) == n + m + rest
    ensures CutBefore(n + m + rest, sep) == n + m + r && Lower(n + m + r) == n + m + r
  {
    var w := n + m + rest;
    assert w == n + (m + rest);
    forall j: nat | j < |n| + |m| ensures !At(w, j, sep) {
      if j < |n| { NotInPlain(n, m + rest, sep, j); } else { NotInMarker(n, m, rest, sep, j); }
    }
    var found := Find(w, sep);
    if found.None? {
      r := rest;
    } else {
      var k := found.value;
      assert k >= |n| + |m|;
      r := rest[..k - |n| - |m|];
      assert w[..k] == n + m + r;
      forall i | 0 <= i < k ensures LowerChar(w[i]) == w[i] { assert Lower(w)[i] == w[i]; }
      assert Lower(w[..k]) == w[..k];
    }
  }

  lemma CutNothing(n: string, sep: string)
    requires Plain(n) && sep != "" && 'a' <= sep[0] <= 'z'
    ensures CutBefore(n, sep) == n
  {
    assert Lower(n) == n;
    CharFree(n, sep, sep[0]);
  }

  // The suffix goes, however its letters are written and whatever follows it.
  lemma SuffixGoes(n: string, suffix: string, rest: string, k: nat)
    requires Plain(n) && k < |MARKERS| && Lower(suffix) == MARKERS[k]
    ensures CutBefore(CutBefore(CutBefore(CutBefore(n + suffix + rest, "rc"), "dev"), "post"), "alpha") == n
  {
    hide Split, CutBefore, Apart;
    var m, r := MARKERS[k], Lower(rest);
    LowerParts(n, suffix, rest);
    var t := n + m + r;
    CutOfLower(n + suffix + rest, t, "rc");
    if k == 0 {
      CutHere(n, m, r);
      CutNothing(n, "dev");
      CutNothing(n, "post");
    } else {
      MarkersApart(0, k);
      r := CutLater(n, m, r, "rc");
      if k == 1 {
        CutHere(n, m, r);
        CutNothing(n, "post");
      } else {
        MarkersApart(1, k);
        r := CutLater(n, m, r, "dev");
        if k == 2 {
          CutHere(n, m, r);
        } else {
          MarkersApart(2, k);
          r := CutLater(n, m, r, "post");
          CutHere(n, m, r);
        }
      }
    }
    CutNothing(n, "alpha");
  }

  lemma LowerParts(n: string, suffix: string, rest: string)
    requires Plain(n)
    ensures Lower(n + suffix + rest) == n + Lower(suffix) + Lower(rest)
    ensures Lower(Lower(n + suffix + rest)) == Lower(n + suffix + rest)
  {
  }

  lemma CutOfLower(t: string, u: string, sep: string)
    requires u == Lower(t) && sep != ""
    ensures CutBefore(t, sep) == CutBefore(u, sep)
  {
    assert Lower(u) == u;
  }

  // ---- round trips

  // A version as a tag may write it: "v" or not, a full stop at the end or not.
  predicate IsTagOf(tag: string, a: nat, b: nat, c: nat, prefix: string, stop: string, tail: string)
  {
    (prefix == "" || prefix == "v") && (stop == "" || stop == ".")
    && tag == prefix + (Latest((a, b, c)) + stop + tail)
  }

  // Nothing, or a marker in any spelling and anything.
  ghost predicate IsSuffix(tail: string)
  {
    tail == "" || exists k: nat, n: nat :: k < |MARKERS| && n <= |tail| && Lower(tail[..n]) == MARKERS[k]
  }

  lemma NumberOfTag(tag: string, a: nat, b: nat, c: nat, prefix: string, stop: string, tail: string)
    requires IsTagOf(tag, a, b, c, prefix, stop, tail) && IsSuffix(tail)
    ensures Number(tag) == Latest((a, b, c))
  {
    hide Latest, CutBefore, IsSuffix;
    var number := Latest((a, b, c));
    LatestIsPlain(a, b, c);
    PrefixGoes(tag, prefix, number + stop + tail);
    CutsGo(number + stop, tail);
    assert (number + stop)[..|number|] == number;
  }

  lemma PrefixGoes(tag: string, prefix: string, t: string)
    requires (prefix == "" || prefix == "v") && tag == prefix + t && t != "" && t[0] != 'v'
    ensures (if tag != "" && tag[0] == 'v' then tag[1..] else tag) == t
  {
  }

  lemma CutsGo(n: string, tail: string)
    requires Plain(n) && IsSuffix(tail)
    ensures CutBefore(CutBefore(CutBefore(CutBefore(n + tail, "rc"), "dev"), "post"), "alpha") == n
  {
    hide CutBefore;
    if tail == "" {
      assert n + tail == n;
      CutNothing(n, "rc");
      CutNothing(n, "dev");
      CutNothing(n, "post");
      CutNothing(n, "alpha");
    } else {
      var k: nat, i: nat :| k < |MARKERS| && i <= |tail| && Lower(tail[..i]) == MARKERS[k];
      assert n + tail[..i] + tail[i..] == n + tail;
      SuffixGoes(n, tail[..i], tail[i..], k);
    }
  }

  lemma LatestIsPlain(a: nat, b: nat, c: nat)
    ensures var s := Latest((a, b, c)); Plain(s) && s != "" && IsDigit(s[0]) && IsDigit(s[|s| - 1])
  {
    hide Decimal;
    LatestIs(a, b, c);
    var s := Decimal(a) + "." + Decimal(b);
    assert Plain(s) && IsDigit(s[0]) && IsDigit(s[|s| - 1]);
  }

  lemma LatestIs(a: nat, b: nat, c: nat)
    ensures Latest((a, b, c)) == Join(Parts(a, b, c), ".")
    ensures Latest((a, b, c)) == Decimal(a) + "." + Decimal(b) + if c != 0 then "." + Decimal(c) else ""
  {
    hide Decimal;
    var parts := Parts(a, b, c);
    var x, y, z := Decimal(a), Decimal(b), Decimal(c);
    if c == 0 {
      assert parts == [x, y];
      assert parts[1..] == [y];
      assert x + "." + y + "" == x + "." + y;
    } else {
      assert parts == [x, y, z];
      assert parts[1..] == [y, z] && [y, z][1..] == [z];
      assert Join([y, z], ".") == y + "." + z;
      assert x + "." + (y + "." + z) == x + "." + y + ("." + z);
    }
  }

  function Parts(a: nat, b: nat, c: nat): seq<string>
  {
    [Decimal(a), Decimal(b)] + if c != 0 then [Decimal(c)] else []
  }

  lemma LatestParts(a: nat, b: nat, c: nat)
    ensures Split(Latest((a, b, c)), ".") == Parts(a, b, c)
    ensures Ints(Parts(a, b, c)) == Some([a, b] + if c != 0 then [c] else [])
  {
    hide Split, IntValue;
    var parts := Parts(a, b, c);
    forall i | 0 <= i < |parts| ensures Free(parts[i], ".") { FreeOfChar(parts[i], '.'); }
    SplitJoin(parts, ".");
    DecimalIsInt(a);
    DecimalIsInt(b);
    DecimalIsInt(c);
    LatestIs(a, b, c);
    var x, y, z := Decimal(a), Decimal(b), Decimal(c);
    IntsSnoc([], x);
    IntsSnoc([x], y);
    assert [] + [x] == [x] && [x] + [y] == [x, y] && [] + [a] == [a] && [a] + [b] == [a, b];
    if c != 0 {
      IntsSnoc([x, y], z);
      assert parts == [x, y] + [z];
    } else {
      assert parts == [x, y] && [a, b] + [] == [a, b];
    }
  }

  lemma IntsSnoc(parts: seq<string>, part: string)
    ensures parts + [part] != [] && Ints([]) == Some([])
    ensures Ints(parts).Some? && IntValue(part).Some? ==>
            Ints(parts + [part]) == Some(Ints(parts).value + [IntValue(part).value])
  {
    assert (parts + [part])[..|parts + [part]| - 1] == parts;
  }

  /** Reading undoes printing, with or without "v", a full stop at the end and a suffix. */
  lemma TagRoundTrip(tag: string, a: nat, b: nat, c: nat, prefix: string, stop: string, tail: string)
    requires IsTagOf(tag, a, b, c, prefix, stop, tail) && IsSuffix(tail)
    ensures VersionOf(tag) == Ok((a, b, c))
  {
    hide Number, Split, Ints, Latest;
    NumberOfTag(tag, a, b, c, prefix, stop, tail);
    LatestIsPlain(a, b, c);
    LatestParts(a, b, c);
  }

  // ---- the latest version

  lemma RCIsNotFree(tag: string)
    ensures TagIsRC(tag) <==> !Free(Lower(tag), "rc")
  {
  }

  // A tag is a release candidate if "rc" is in what follows the number.
  lemma RCIsInTail(tag: string, a: nat, b: nat, c: nat, prefix: string, stop: string, tail: string)
    requires IsTagOf(tag, a, b, c, prefix, stop, tail)
    ensures TagIsRC(tag) <==> !Free(Lower(tail), "rc")
  {
    hide Find, Split, Latest;
    var front := prefix + Latest((a, b, c)) + stop;
    LatestIsPlain(a, b, c);
    RCIsNotFree(tag);
    assert tag == front + tail;
    var low := Lower(tag);
    assert Lower(front) == front;
    assert low == front + Lower(tail);
    assert forall i :: 0 <= i < |front| ==> front[i] != 'r';
    CharFree(front, "rc", 'r');
    if Free(Lower(tail), "rc") {
      FreeConcat(front, Lower(tail), "rc");
    }
    if Free(low, "rc") {
      FreePart(low, |front|, |low|, "rc");
      assert low[|front|..|low|] == Lower(tail);
    }
  }

  /** A tag of a version is the latest if that version is not older; a release candidate must be newer. */
  lemma LatestByNumber(version: Triple, tag: string, a: nat, b: nat, c: nat, prefix: string, stop: string, tail: string)
    requires IsTagOf(tag, a, b, c, prefix, stop, tail) && IsSuffix(tail)
    ensures IsLatestTag(Some(version), tag)
         == Some(Ok(if Free(Lower(tail), "rc") then !Less((a, b, c), version) else Less(version, (a, b, c))))
    ensures a > version.0 || (a == version.0 && b > version.1) || (a == version.0 && b == version.1 && c > version.2)
            ==> IsLatestTag(Some(version), tag) == Some(Ok(true))
    ensures a < version.0 || (a == version.0 && b < version.1) || (a == version.0 && b == version.1 && c < version.2)
            ==> IsLatestTag(Some(version), tag) == Some(Ok(false))
  {
    hide VersionOf, TagIsRC, Find;
    TagRoundTrip(tag, a, b, c, prefix, stop, tail);
    RCIsInTail(tag, a, b, c, prefix, stop, tail);
  }

  /** Of all tags of the latest version exactly the release candidates are not the latest. */
  lemma OwnTags(a: nat, b: nat, c: nat, tag: string, prefix: string, stop: string, tail: string)
    requires IsTagOf(tag, a, b, c, prefix, stop, tail) && IsSuffix(tail)
    ensures IsLatestTag(Some((a, b, c)), tag) == Some(Ok(Free(Lower(tail), "rc")))
    ensures tail == "" ==> IsLatestTag(Some((a, b, c)), tag) == Some(Ok(true))
    ensures |tail| >= 2 && Lower(tail[..2]) == "rc" ==> IsLatestTag(Some((a, b, c)), tag) == Some(Ok(false))
  {
    hide IsLatestTag;
    LatestByNumber((a, b, c), tag, a, b, c, prefix, stop, tail);
    if |tail| >= 2 && Lower(tail[..2]) == "rc" {
      var t := Lower(tail);
      assert t[0] == Lower(tail[..2])[0] && t[1] == Lower(tail[..2])[1];
      assert At(t, 0, "rc");
    }
  }

  /** The version that is announced as the latest is the latest. */
  lemma AnnouncedIsLatest(a: nat, b: nat, c: nat)
    ensures var version := Some((a as int, b as int, c as int));
            LatestVersion(version).Some? && IsLatestTag(version, LatestVersion(version).value) == Some(Ok(true))
  {
    hide IsLatestTag, Latest;
    var tag := Latest((a, b, c));
    assert tag == "" + (tag + "" + "");
    OwnTags(a, b, c, tag, "", "", "");
  }

  lemma PrintedExamples()
    ensures Latest((20, 2, 0)) == "20.2" && Latest((19, 1, 3)) == "19.1.3" && Latest((20, 2, 1)) == "20.2.1"
  {
    hide Latest;
    Numerals();
    LatestIs(20, 2, 0);
    LatestIs(19, 1, 3);
    LatestIs(20, 2, 1);
    assert "20" + "." + "2" + "" == "20.2" && "19" + "." + "1" + ".3" == "19.1.3";
    assert "20" + "." + "2" + ".1" == "20.2.1";
  }

  /** Some versions and tags. */
  lemma VersionExamples()
    ensures Latest((20, 2, 0)) == "20.2" && Latest((19, 1, 3)) == "19.1.3"
    ensures VersionOf("v20.2.1alpha3") == VersionOf("20.2.1.post1") == VersionOf("20.2.1dev") == Ok((20, 2, 1))
  {
    hide VersionOf, Latest, IsSuffix, Lower;
    PrintedExamples();
    Numerals();
    assert "v" + ("20.2.1" + "" + "alpha3") == "v20.2.1alpha3" && "" + ("20.2.1" + "." + "post1") == "20.2.1.post1";
    assert "alpha3"[..5] == "alpha" && "post1"[..4] == "post";
    SuffixIs("alpha3", 5, 3);
    SuffixIs("post1", 4, 2);
    TagRoundTrip("v20.2.1alpha3", 20, 2, 1, "v", "", "alpha3");
    TagRoundTrip("20.2.1.post1", 20, 2, 1, "", ".", "post1");
    assert "" + ("20.2.1" + "" + "dev") == "20.2.1dev" && "dev"[..3] == "dev";
    SuffixIs("dev", 3, 1);
    TagRoundTrip("20.2.1dev", 20, 2, 1, "", "", "dev");
  }

  /** A release candidate is newer than the version before it, but not the latest of its own. */
  lemma CandidateExample()
    ensures IsLatestTag(Some((20, 2, 1)), "v20.2.1RC3") == Some(Ok(false))
    ensures IsLatestTag(Some((20, 2, 0)), "v20.2.1RC3") == Some(Ok(true))
  {
    hide IsLatestTag, Latest, IsSuffix, Lower;
    PrintedExamples();
    Numerals();
    assert "v" + ("20.2.1" + "" + "RC3") == "v20.2.1RC3";
    assert "RC3"[..2] == "RC";
    SuffixIs("RC3", 2, 0);
    OwnTags(20, 2, 1, "v20.2.1RC3", "v", "", "RC3");
    LatestByNumber((20, 2, 0), "v20.2.1RC3", 20, 2, 1, "v", "", "RC3");
  }

  lemma Numerals()
    ensures Decimal(1) == "1" && Decimal(2) == "2" && Decimal(3) == "3" && Decimal(19) == "19" && Decimal(20) == "20"
    ensures Lower("alpha") == "alpha" && Lower("post") == "post" && Lower("dev") == "dev" && Lower("RC") == "rc"
  {
  }

  lemma SuffixIs(tail: string, n: nat, k: nat)
    requires n <= |tail| && k < |MARKERS| && Lower(tail[..n]) == MARKERS[k]
    ensures IsSuffix(tail)
  {
  }
}
