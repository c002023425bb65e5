/** Splitting strings at a separator, as JavaScript and Python do it. */
module Strings {
  import opened Collections

  predicate At(s: string, k: nat, sep: string)
  {
    k + |sep| <= |s| && forall x :: 0 <= x < |sep| ==> s[k + x] == sep[x]
  }

  // The first place where sep occurs in s.
  function Find(s: string, sep: string): (k: Option<nat>)
    ensures k.Some? ==> k.value + |sep| <= |s| && At(s, k.value, sep)
  {
    if At(s, 0, sep) then Some(0)
    else if s == "" then None
    else match Find(s[1..], sep)
      case None => None
      case Some(k) => AtPart(s, 1, |s|, k, sep); Some(k + 1)
  }

  lemma AtPart(s: string, i: nat, j: nat, k: nat, sep: string)
    requires i <= j <= |s|
    ensures At(s[i..j], k, sep) <==> At(s, i + k, sep) && i + k + |sep| <= j
  {
    var p := s[i..j];
    if At(s, i + k, sep) && i + k + |sep| <= j {
      forall x | 0 <= x < |sep| ensures p[k + x] == sep[x] { assert p[k + x] == s[i + k + x]; }
    }
    if At(p, k, sep) {
      forall x | 0 <= x < |sep| ensures s[i + k + x] == sep[x] { assert p[k + x] == s[i + (k + x)]; }
    }
  }

  // sep does not occur in s.
  predicate Free(s: string, sep: string) { Find(s, sep).None? }

  function Split(s: string, sep: string): (r: seq<string>)
    requires sep != ""
    ensures r != []
    decreases |s|
  {
    match Find(s, sep)
    case None => [s]
    case Some(k) => [s[..k]] + Split(s[k + |sep|..], sep)
  }

  // A separator that cannot overlap itself: one character, or two different ones.
  predicate Simple(sep: string)
  {
    |sep| == 1 || (|sep| == 2 && sep[0] != sep[1])
  }

  /** The place found is the first one. */
  lemma {:induction false} FindFirst(s: string, sep: string, k: nat)
    requires sep != "" && At(s, k, sep)
    ensures Find(s, sep).Some? && Find(s, sep).value <= k
  {
    if k != 0 {
      AtPart(s, 1, |s|, k - 1, sep);
      FindFirst(s[1..], sep, k - 1);
    }
  }

  /** A part of a string without the separator is without it too. */
  lemma FreePart(s: string, i: nat, j: nat, sep: string)
    requires sep != "" && i <= j <= |s| && Free(s, sep)
    ensures Free(s[i..j], sep)
  {
    if k :| Find(s[i..j], sep) == Some(k) {
      AtPart(s, i, j, k, sep);
      FindFirst(s, sep, i + k);
    }
  }

  /** Joining two strings makes an occurrence only across the seam. */
  lemma FreeConcat(s: string, t: string, sep: string)
    requires Simple(sep) && Free(s, sep) && Free(t, sep)
    requires |sep| == 1 || s == "" || t == "" || s[|s| - 1] != sep[0] || t[0] != sep[1]
    ensures Free(s + t, sep)
  {
    hide Find, At;
    var w := s + t;
    assert w[0..|s|] == s && w[|s|..|w|] == t;
    if |sep| == 2 && s != "" && t != "" { NoSeam(w, |s|, sep); }
    if k :| Find(w, sep) == Some(k) {
      AtPart(w, 0, |s|, k, sep);
      if k + |sep| <= |s| {
        FindFirst(s, sep, k);
      } else if k >= |s| {
        AtPart(w, |s|, |w|, k - |s|, sep);
        FindFirst(t, sep, k - |s|);
      }
    }
  }

  lemma NoSeam(w: string, n: nat, sep: string)
    requires |sep| == 2 && 0 < n < |w| && (w[n - 1] != sep[0] || w[n] != sep[1])
    ensures !At(w, n - 1, sep)
  {
    var k := n - 1;
    assert w[k + 0] != sep[0] || w[k + 1] != sep[1];
  }

  lemma AtSeam(s: string, sep: string, t: string)
    ensures At(s + sep + t, |s|, sep)
  {
    var w := s + sep + t;
    forall x | 0 <= x < |sep| ensures w[|s| + x] == sep[x] { assert (s + sep)[|s| + x] == sep[x]; }
  }

  lemma FindSeam(s: string, sep: string, t: string)
    requires Simple(sep) && Free(s, sep)
    ensures Find(s + sep + t, sep) == Some(|s|)
  {
    hide Find, At;
    var w := s + sep + t;
    AtSeam(s, sep, t);
    FindFirst(w, sep, |s|);
    var k := Find(w, sep).value;
    assert w[0..|s|] == s;
    if k + |sep| <= |s| {
      AtPart(w, 0, |s|, k, sep);
      FindFirst(s, sep, k);
    } else if k < |s| {
      NoOverlap(w, k, sep);
    }
  }

  lemma NoOverlap(w: string, k: nat, sep: string)
    requires |sep| == 2 && sep[0] != sep[1] && At(w, k + 1, sep)
    ensures !At(w, k, sep)
  {
    assert w[(k + 1) + 0] == sep[0];
  }

  /** Splitting takes off the part in front of the separator. */
  lemma SplitSeam(s: string, sep: string, t: string)
    requires Simple(sep) && Free(s, sep)
    ensures Split(s + sep + t, sep) == [s] + Split(t, sep)
  {
    var w := s + sep + t;
    FindSeam(s, sep, t);
    assert w[..|s|] == s && w[|s| + |sep|..] == t;
  }

  /** No part contains the separator, nor anything that the whole did not contain. */
  lemma {:induction false} SplitParts(s: string, sep: string, i: nat, other: string)
    requires sep != "" && other != "" && i < |Split(s, sep)|
    ensures Free(Split(s, sep)[i], sep)
    ensures Free(s, other) ==> Free(Split(s, sep)[i], other)
    decreases |s|
  {
    hide At;
    var found := Find(s, sep);
    if found.Some? {
      var k := found.value;
      var rest := s[k + |sep|..];
      assert Split(s, sep) == [s[..k]] + Split(rest, sep);
      assert s[0..k] == s[..k] && s[k + |sep|..|s|] == rest;
      if i == 0 {
        FindIsFirst(s, sep);
        if Free(s, other) { FreePart(s, 0, k, other); }
      } else {
        if Free(s, other) { FreePart(s, k + |sep|, |s|, other); }
        SplitParts(rest, sep, i - 1, other);
        assert Split(s, sep)[i] == Split(rest, sep)[i - 1];
      }
    }
  }

  lemma FindIsFirst(s: string, sep: string)
    requires sep != "" && Find(s, sep).Some?
    ensures Free(s[..Find(s, sep).value], sep)
  {
    var k := Find(s, sep).value;
    if j :| Find(s[0..k], sep) == Some(j) {
      AtPart(s, 0, k, j, sep);
      FindFirst(s, sep, j);
    }
    assert s[0..k] == s[..k];
  }

  lemma CharFree(s: string, sep: string, c: char)
    requires c in sep && c !in s
    ensures Free(s, sep)
  {
    var x :| 0 <= x < |sep| && sep[x] == c;
    forall k: nat ensures !At(s, k, sep) {
      if k + |sep| <= |s| { assert s[k + x] != sep[x]; }
    }
  }

  lemma FreeOfChar(s: string, c: char)
    ensures Free(s, [c]) <==> c !in s
  {
    if c !in s {
      CharFree(s, [c], c);
    } else {
      var k :| 0 <= k < |s| && s[k] == c;
      FindFirst(s, [c], k);
    }
  }

  // sep.join(items)
  function Join(items: seq<string>, sep: string): string
    requires items != []
  {
    if |items| == 1 then items[0] else items[0] + sep + Join(items[1..], sep)
  }

  /** Splitting undoes joining, for items without the separator. */
  lemma {:induction false} SplitJoin(items: seq<string>, sep: string)
    requires items != [] && Simple(sep) && forall i :: 0 <= i < |items| ==> Free(items[i], sep)
    ensures Split(Join(items, sep), sep) == items
  {
    hide Split, Find;
    if |items| == 1 {
      SplitFree(items[0], sep);
      assert items == [items[0]];
    } else {
      SplitJoin(items[1..], sep);
      SplitSeam(items[0], sep, Join(items[1..], sep));
      assert items == [items[0]] + items[1..];
    }
  }

  lemma SplitFree(s: string, sep: string)
    requires sep != "" && Free(s, sep)
    ensures Split(s, sep) == [s]
  {
  }

  // What Python's str.isspace accepts.
  predicate IsSpace(c: char)
  {
    c == ' ' || '\t' <= c <= '\r' || 0x1c <= c as int <= 0x1f || c as int in {0x85, 0xa0, 0x1680}
    || 0x2000 <= c as int <= 0x200a || c as int in {0x2028, 0x2029, 0x202f, 0x205f, 0x3000}
  }

  // Where the word at the start of a text ends.
  function WordEnd(text: string): nat
    ensures WordEnd(text) <= |text|
  {
    if text == "" || IsSpace(text[0]) then 0 else 1 + WordEnd(text[1..])
  }

  function TrimLeft(s: string): (r: string)
    ensures |r| <= |s|
  {
    if s != "" && IsSpace(s[0]) then TrimLeft(s[1..]) else s
  }

  function TrimRight(s: string): (r: string)
    ensures |r| <= |s|
  {
    if s != "" && IsSpace(s[|s| - 1]) then TrimRight(s[..|s| - 1]) else s
  }

  // s.strip()
  function Strip(s: string): string { TrimRight(TrimLeft(s)) }

  predicate AllSpace(s: string) { forall i :: 0 <= i < |s| ==> IsSpace(s[i]) }

  lemma {:induction false} TrimLeftIs(s: string) returns (n: nat)
    ensures n <= |s| && AllSpace(s[..n]) && TrimLeft(s) == s[n..]
    ensures TrimLeft(s) != "" ==> !IsSpace(TrimLeft(s)[0])
  {
    hide IsSpace, AllSpace;
    n := 0;
    if s != "" && IsSpace(s[0]) {
      var rest := s[1..];
      var k := TrimLeftIs(rest);
      n := k + 1;
      SpaceInFront(s[0], rest[..k]);
      assert s[..n] == [s[0]] + rest[..k] && rest[k..] == s[n..];
    } else {
      NoSpace();
      assert s[..0] == "";
    }
  }

  lemma NoSpace()
    ensures AllSpace("")
  {
  }

  lemma SpaceInFront(c: char, s: string)
    requires IsSpace(c) && AllSpace(s)
    ensures AllSpace([c] + s) && AllSpace(s + [c])
  {
  }

  lemma {:induction false} TrimRightIs(s: string) returns (n: nat)
    ensures n <= |s| && AllSpace(s[n..]) && TrimRight(s) == s[..n]
    ensures TrimRight(s) != "" ==> !IsSpace(TrimRight(s)[|TrimRight(s)| - 1])
  {
    hide IsSpace, AllSpace;
    n := |s|;
    if s != "" && IsSpace(s[|s| - 1]) {
      var init, last := s[..|s| - 1], s[|s| - 1];
      n := TrimRightIs(init);
      SpaceInFront(last, init[n..]);
      assert s[n..] == init[n..] + [last] && init[..n] == s[..n];
    } else {
      NoSpace();
      assert s[|s|..] == "" && s[..|s|] == s;
    }
  }

  /** Stripping takes the white space off both ends, all of it and nothing else. */
  lemma StripIs(s: string)
    ensures exists a, b :: s == a + Strip(s) + b && AllSpace(a) && AllSpace(b)
    ensures Strip(s) != "" ==> !IsSpace(Strip(s)[0]) && !IsSpace(Strip(s)[|Strip(s)| - 1])
  {
    hide IsSpace;
    var n := TrimLeftIs(s);
    var t := TrimLeft(s);
    var k := TrimRightIs(t);
    assert s == s[..n] + t && t == t[..k] + t[k..];
    assert s == s[..n] + Strip(s) + t[k..];
    if Strip(s) != "" { assert Strip(s)[0] == t[0]; }
  }

  /** What str.isspace says of the characters up to U+0020, and of some above. */
  lemma SpacesAre(c: char)
    ensures c as int <= 0x20 ==> (IsSpace(c) <==> c as int in {9, 10, 11, 12, 13, 28, 29, 30, 31, 32})
    ensures IsSpace(0x85 as char) && IsSpace(0xa0 as char) && IsSpace(0x2003 as char) && IsSpace(0x3000 as char)
    ensures !IsSpace('a') && !IsSpace('0') && !IsSpace('_') && !IsSpace(0x200b as char)
  {
  }

  lemma WordEndAt(w: string, rest: string)
    requires rest != "" && IsSpace(rest[0]) && forall i :: 0 <= i < |w| ==> !IsSpace(w[i])
    ensures WordEnd(w + rest) == |w|
  {
    if w == "" {
      assert w + rest == rest;
    } else {
      assert (w + rest)[1..] == w[1..] + rest;
      WordEndAt(w[1..], rest);
    }
  }

  // s.split(): the words between white space.
  function Words(s: string): seq<string>
    decreases |s|
  {
    if s == "" then []
    else if IsSpace(s[0]) then Words(s[1..])
    else [s[..WordEnd(s)]] + Words(s[WordEnd(s)..])
  }

  predicate IsDigit(c: char) { '0' <= c <= '9' }

  function Decimal(n: nat): (r: string)
    ensures r != "" && forall i :: 0 <= i < |r| ==> IsDigit(r[i])
  {
    var digit := ["0123456789"[n % 10]];
    if n < 10 then digit else Decimal(n / 10) + digit
  }
}
