/**
 The console's line breaks: a message is broken between its words so that every line fits
 the terminal; only a word that is longer than a line is cut.
*/
module ConsoleWrap {
  import opened Strings

  // ---- words and what is left when the white space goes

  predicate IsWord(w: string) { w != "" && forall i :: 0 <= i < |w| ==> !IsSpace(w[i]) }

  predicate AllWord(ws: seq<string>) { forall i :: 0 <= i < |ws| ==> IsWord(ws[i]) }

  // The characters of a text that are not white space.
  function NonSpace(s: string): string
  {
    if s == "" then "" else (if IsSpace(s[0]) then "" else [s[0]]) + NonSpace(s[1..])
  }

  function Concat(ws: seq<string>): string
  {
    if ws == [] then "" else ws[0] + Concat(ws[1..])
  }

  // The words of all lines, in order.
  function AllWords(lines: seq<string>): seq<string>
  {
    if lines == [] then [] else Words(lines[0]) + AllWords(lines[1..])
  }

  lemma {:induction false} NonSpaceConcat(a: string, b: string)
    ensures NonSpace(a + b) == NonSpace(a) + NonSpace(b)
  {
    if a == "" {
      assert a + b == b;
    } else {
      assert (a + b)[1..] == a[1..] + b;
      NonSpaceConcat(a[1..], b);
    }
  }

  lemma {:induction false} WordIsNonSpace(w: string)
    requires forall i :: 0 <= i < |w| ==> !IsSpace(w[i])
    ensures NonSpace(w) == w
  {
    if w != "" { WordIsNonSpace(w[1..]); }
  }

  lemma {:induction false} WordEndIs(s: string)
    ensures forall i :: 0 <= i < WordEnd(s) ==> !IsSpace(s[i])
    ensures WordEnd(s) < |s| ==> IsSpace(s[WordEnd(s)])
  {
    if s != "" && !IsSpace(s[0]) {
      WordEndIs(s[1..]);
      assert forall i :: 0 < i < WordEnd(s) ==> s[i] == s[1..][i - 1];
    }
  }

  /** The words have all the characters that are not white space, in order. */
  lemma {:induction false} WordsKeepAll(s: string)
    ensures AllWord(Words(s)) && Concat(Words(s)) == NonSpace(s)
    decreases |s|
  {
    if s != "" {
      if IsSpace(s[0]) {
        WordsKeepAll(s[1..]);
      } else {
        var n := WordEnd(s);
        WordEndIs(s);
        WordsKeepAll(s[n..]);
        WordIsNonSpace(s[..n]);
        NonSpaceConcat(s[..n], s[n..]);
        assert s == s[..n] + s[n..];
      }
    }
  }

  lemma WordsFirst(s: string)
    requires s != ""
    ensures Words(s) == if IsSpace(s[0]) then Words(s[1..]) else [s[..WordEnd(s)]] + Words(s[WordEnd(s)..])
  {
  }

  lemma WordsOfWord(w: string)
    requires IsWord(w)
    ensures Words(w) == [w] && Words("") == [] && Words(" " + w) == [w]
  {
    WordEndIs(w);
    assert w[..|w|] == w && w[|w|..] == "";
    assert (" " + w)[1..] == w;
  }

  lemma {:induction false} WordsSnoc(a: string, w: string)
    requires IsWord(w)
    ensures Words(a + " " + w) == Words(a) + [w]
    decreases |a|
  {
    hide Words, WordEnd, IsSpace, IsWord;
    var s := a + " " + w;
    WordsOfWord(w);
    if a == "" {
      assert s == " " + w;
    } else {
      WordsFirst(s);
      WordsFirst(a);
      if IsSpace(a[0]) {
        assert s[1..] == a[1..] + " " + w;
        WordsSnoc(a[1..], w);
      } else {
        var n := WordEnd(a);
        WordEndIs(a);
        OneBlank();
        assert a[..n] + (a[n..] + " " + w) == s;
        WordEndAt(a[..n], a[n..] + " " + w);
        assert s[..n] == a[..n] && s[n..] == a[n..] + " " + w;
        WordsSnoc(a[n..], w);
      }
    }
  }

  // ---- the simple form: cut the long words, then fill the lines

  function Cut(term: string, sx: nat): seq<string>
    requires sx > 0
    decreases |term|
  {
    if |term| <= sx then [term] else [term[..sx]] + Cut(term[sx..], sx)
  }

  function CutAll(terms: seq<string>, sx: nat): seq<string>
    requires sx > 0
  {
    if terms == [] then [] else Cut(terms[0], sx) + CutAll(terms[1..], sx)
  }

  // A line with one more word.
  function Longer(line: string, term: string): string
  {
    (if line != "" then line + " " else line) + term
  }

  function Fill(line: string, terms: seq<string>, sx: nat): (r: seq<string>)
    ensures r != []
    decreases |terms|
  {
    if terms == [] then [line]
    else if sx - |line| > |terms[0]| then Fill(Longer(line, terms[0]), terms[1..], sx)
    else [line] + Fill(terms[0], terms[1..], sx)
  }

  /** The lines of a text. */
  function Wrapped(text: string, sx: nat): seq<string>
    requires sx > 0
  {
    Fill("", CutAll(Words(text), sx), sx)
  }

  lemma {:induction false} CutPieces(term: string, sx: nat)
    requires sx > 0 && IsWord(term)
    ensures AllWord(Cut(term, sx)) && Concat(Cut(term, sx)) == term
    ensures forall i :: 0 <= i < |Cut(term, sx)| ==> |Cut(term, sx)[i]| <= sx
    decreases |term|
  {
    if |term| > sx {
      CutPieces(term[sx..], sx);
      assert term == term[..sx] + term[sx..];
    } else {
      assert [term][1..] == [];
      assert Concat([]) == "";
    }
  }

  lemma {:induction false} ConcatParts(a: seq<string>, b: seq<string>)
    ensures Concat(a + b) == Concat(a) + Concat(b)
  {
    if a == [] {
      assert a + b == b;
    } else {
      assert (a + b)[1..] == a[1..] + b;
      ConcatParts(a[1..], b);
    }
  }

  lemma {:induction false} CutAllPieces(terms: seq<string>, sx: nat)
    requires sx > 0 && AllWord(terms)
    ensures AllWord(CutAll(terms, sx)) && Concat(CutAll(terms, sx)) == Concat(terms)
    ensures forall i :: 0 <= i < |CutAll(terms, sx)| ==> |CutAll(terms, sx)[i]| <= sx
  {
    hide IsWord;
    if terms != [] {
      CutPieces(terms[0], sx);
      CutAllPieces(terms[1..], sx);
      ConcatParts(Cut(terms[0], sx), CutAll(terms[1..], sx));
    }
  }

  /** Every line fits. */
  lemma {:induction false} FillFits(line: string, terms: seq<string>, sx: nat)
    requires |line| <= sx && forall i :: 0 <= i < |terms| ==> |terms[i]| <= sx
    ensures forall i :: 0 <= i < |Fill(line, terms, sx)| ==> |Fill(line, terms, sx)[i]| <= sx
    decreases |terms|
  {
    if terms != [] {
      if sx - |line| > |terms[0]| {
        FillFits(Longer(line, terms[0]), terms[1..], sx);
      } else {
        FillFits(terms[0], terms[1..], sx);
      }
    }
  }

  lemma LongerWords(line: string, term: string)
    requires IsWord(term)
    ensures Words(Longer(line, term)) == Words(line) + [term]
  {
    WordsOfWord(term);
    if line != "" {
      WordsSnoc(line, term);
    } else {
      assert line + term == term;
      assert Words(line) + [term] == [term];
    }
  }

  /** The lines have the given words, none of them broken, in order. */
  lemma {:induction false} FillKeepsWords(line: string, terms: seq<string>, sx: nat)
    requires AllWord(terms)
    ensures AllWords(Fill(line, terms, sx)) == Words(line) + terms
    decreases |terms|
  {
    hide Words, IsWord;
    if terms == [] {
      assert AllWords([line][1..]) == [];
    } else {
      assert terms == [terms[0]] + terms[1..];
      if sx - |line| > |terms[0]| {
        LongerWords(line, terms[0]);
        FillKeepsWords(Longer(line, terms[0]), terms[1..], sx);
      } else {
        WordsOfWord(terms[0]);
        FillKeepsWords(terms[0], terms[1..], sx);
        assert ([line] + Fill(terms[0], terms[1..], sx))[1..] == Fill(terms[0], terms[1..], sx);
      }
    }
  }

  /** A line is broken only where the next word, with the blank before it, would not fit. */
  ghost predicate Greedy(lines: seq<string>, sx: nat)
  {
    forall i :: 0 <= i < |lines| - 1 ==> BreaksLate(lines[i], lines[i + 1], sx)
  }

  predicate BreaksLate(line: string, next: string, sx: nat)
  {
    Words(next) != [] && |line| + |Words(next)[0]| >= sx
  }

  lemma {:induction false} FillStarts(line: string, terms: seq<string>, sx: nat)
    requires AllWord(terms)
    ensures Words(line) <= Words(Fill(line, terms, sx)[0])
    decreases |terms|
  {
    hide Words, IsWord;
    if terms != [] && sx - |line| > |terms[0]| {
      LongerWords(line, terms[0]);
      FillStarts(Longer(line, terms[0]), terms[1..], sx);
    }
  }

  lemma {:induction false} FillIsGreedy(line: string, terms: seq<string>, sx: nat)
    requires AllWord(terms)
    ensures Greedy(Fill(line, terms, sx), sx)
    decreases |terms|
  {
    hide Words, IsWord;
    if terms != [] {
      if sx - |line| > |terms[0]| {
        FillIsGreedy(Longer(line, terms[0]), terms[1..], sx);
      } else {
        var rest := Fill(terms[0], terms[1..], sx);
        FillIsGreedy(terms[0], terms[1..], sx);
        FillStarts(terms[0], terms[1..], sx);
        WordsOfWord(terms[0]);
        var all := [line] + rest;
        assert Words(rest[0])[..1] == [terms[0]];
        forall i | 0 <= i < |all| - 1 ensures BreaksLate(all[i], all[i + 1], sx) {
          assert all[i + 1] == rest[i];
          if i > 0 { assert BreaksLate(rest[i - 1], rest[i], sx); }
        }
      }
    }
  }

  /**
   The lines of a text fit the width, have exactly its words in order, only those longer
   than the width being cut, and break as late as possible.
  */
  lemma WrappedIsRight(text: string, sx: nat)
    requires sx > 0
    ensures var lines := Wrapped(text, sx);
            (forall i :: 0 <= i < |lines| ==> |lines[i]| <= sx)
            && AllWords(lines) == CutAll(Words(text), sx)
            && Greedy(lines, sx)
  {
    hide Fill, CutAll, Greedy, IsWord;
    WordsKeepAll(text);
    CutAllPieces(Words(text), sx);
    var terms := CutAll(Words(text), sx);
    FillFits("", terms, sx);
    FillKeepsWords("", terms, sx);
    FillIsGreedy("", terms, sx);
    assert Words("") == [];
    assert [] + terms == terms;
  }

  /** The first line stays empty exactly when there is no word, or when the first one fills a line. */
  lemma FirstLineEmpty(text: string, sx: nat)
    requires sx > 0
    ensures Wrapped(text, sx)[0] == "" <==> Words(text) == [] || |Words(text)[0]| >= sx
  {
    hide Words, IsWord;
    var words := Words(text);
    WordsKeepAll(text);
    if words != [] {
      var terms := CutAll(words, sx);
      var first := Cut(words[0], sx);
      assert first != [] && terms == first + CutAll(words[1..], sx);
      assert terms[0] == first[0] && (|words[0]| < sx ==> first[0] == words[0])
          && (|words[0]| >= sx ==> |first[0]| == sx);
      if |words[0]| < sx {
        CutAllPieces(words, sx);
        assert Longer("", terms[0]) == terms[0];
        WordsOfWord(terms[0]);
        FillStarts(terms[0], terms[1..], sx);
        assert Words(Wrapped(text, sx)[0]) != [];
      }
    }
  }

  lemma {:induction false} LinesKeepAll(lines: seq<string>)
    ensures NonSpace(Concat(lines)) == Concat(AllWords(lines))
  {
    hide Words;
    if lines != [] {
      WordsKeepAll(lines[0]);
      LinesKeepAll(lines[1..]);
      NonSpaceConcat(lines[0], Concat(lines[1..]));
      ConcatParts(Words(lines[0]), AllWords(lines[1..]));
    }
  }

  /** Every character that is not white space comes out once, in order. */
  lemma WrappedKeepsAll(text: string, sx: nat)
    requires sx > 0
    ensures NonSpace(Concat(Wrapped(text, sx))) == NonSpace(text)
  {
    hide Wrapped, CutAll, NonSpace, Words;
    WrappedIsRight(text, sx);
    LinesKeepAll(Wrapped(text, sx));
    WordsKeepAll(text);
    CutAllPieces(Words(text), sx);
  }

  // ---- the loop: one pass over a stack of words, which takes back what it cuts off

  function Reversed(s: seq<string>): (r: seq<string>)
    ensures |r| == |s|
  {
    if s == [] then [] else [s[|s| - 1]] + Reversed(s[..|s| - 1])
  }

  lemma {:induction false} ReversedConcat(a: seq<string>, b: seq<string>)
    ensures Reversed(a + b) == Reversed(b) + Reversed(a)
  {
    if b == [] {
      assert a + b == a;
    } else {
      assert (a + b)[..|a + b| - 1] == a + b[..|b| - 1];
      ReversedConcat(a, b[..|b| - 1]);
    }
  }

  lemma {:induction false} ReversedTwice(s: seq<string>)
    ensures Reversed(Reversed(s)) == s
  {
    if s != [] {
      var init, last := s[..|s| - 1], [s[|s| - 1]];
      ReversedTwice(init);
      ReversedConcat(last, Reversed(init));
      assert last[..0] == [];
      assert s == init + last;
    }
  }

  lemma {:induction false} ReversedWords(s: seq<string>)
    requires AllWord(s)
    ensures AllWord(Reversed(s))
  {
    hide IsWord;
    if s != [] { ReversedWords(s[..|s| - 1]); }
  }

  // The characters left on the stack.
  function Characters(terms: seq<string>): nat
  {
    if terms == [] then 0 else Characters(terms[..|terms| - 1]) + |terms[|terms| - 1]|
  }

  /** The lines of one line of a message. */
  method WrapLine(aline: string, sx: nat) returns (out: seq<string>)
    requires sx > 0
    ensures out == Wrapped(aline, sx)
  {
    hide Words, Fill, CutAll, IsWord, Reversed;
    var terms := Reversed(Words(aline));
    WordsKeepAll(aline);
    ReversedWords(Words(aline));
    ReversedTwice(Words(aline));
    out := [];
    var newLine := "";
    while terms != []
      invariant AllWord(terms)
      invariant out + Fill(newLine, CutAll(Reversed(terms), sx), sx) == Wrapped(aline, sx)
      decreases Characters(terms)
    {
      var aterm := terms[|terms| - 1];
      StackStep(newLine, terms, sx);
      ghost var done, line := out, newLine;
      terms := terms[..|terms| - 1];
      var lnl := |newLine|;
      if sx - lnl > |aterm| {
        if lnl > 0 {
          newLine := newLine + " ";
        }
        newLine := newLine + aterm;
        assert newLine == Longer(line, aterm);
      } else {
        out := out + [newLine];
        newLine := if |aterm| <= sx then aterm else aterm[..sx];
        if |aterm| > sx {
          terms := terms + [aterm[sx..]];
        }
        ghost var rest := Fill(newLine, CutAll(Reversed(terms), sx), sx);
        assert done + ([line] + rest) == out + rest;
      }
    }
    NothingLeft(newLine, sx);
    out := out + [newLine];
  }

  lemma NothingLeft(line: string, sx: nat)
    requires sx > 0
    ensures Fill(line, CutAll(Reversed([]), sx), sx) == [line]
  {
  }

  // What one round of the loop does to the lines still to come, and to its measure.
  lemma StackStep(line: string, terms: seq<string>, sx: nat)
    requires sx > 0 && terms != [] && AllWord(terms)
    ensures var t, init := terms[|terms| - 1], terms[..|terms| - 1];
            var now := Fill(line, CutAll(Reversed(terms), sx), sx);
            AllWord(init) && Characters(init) < Characters(terms)
            && (sx - |line| > |t| ==> now == Fill(Longer(line, t), CutAll(Reversed(init), sx), sx))
            && (sx - |line| <= |t| <= sx ==> now == [line] + Fill(t, CutAll(Reversed(init), sx), sx))
            && (|t| > sx ==>
                  now == [line] + Fill(t[..sx], CutAll(Reversed(init + [t[sx..]]), sx), sx)
                  && AllWord(init + [t[sx..]])
                  && Characters(init + [t[sx..]]) < Characters(terms))
  {
    hide Words, Fill;
    var t, init := terms[|terms| - 1], terms[..|terms| - 1];
    var rest := CutAll(Reversed(init), sx);
    var all := CutAll(Reversed(terms), sx);
    assert Reversed(terms) == [t] + Reversed(init);
    assert all == Cut(t, sx) + rest;
    if |t| <= sx {
      assert all == [t] + rest;
      assert all[1..] == rest;
    } else {
      var back := init + [t[sx..]];
      assert back[..|back| - 1] == init;
      assert Reversed(back) == [t[sx..]] + Reversed(init);
      assert CutAll(Reversed(back), sx) == Cut(t[sx..], sx) + rest;
      assert all == [t[..sx]] + CutAll(Reversed(back), sx);
      assert all[1..] == CutAll(Reversed(back), sx);
    }
    FillStep(line, all, sx);
  }

  lemma FillStep(line: string, terms: seq<string>, sx: nat)
    requires terms != []
    ensures Fill(line, terms, sx) == if sx - |line| > |terms[0]| then Fill(Longer(line, terms[0]), terms[1..], sx)
                                     else [line] + Fill(terms[0], terms[1..], sx)
  {
  }

  // ---- a whole message

  // Where str.splitlines ends a line.
  predicate IsBreak(c: char)
  {
    '\n' <= c <= '\r' || 0x1c <= c as int <= 0x1e || c as int in {0x85, 0x2028, 0x2029}
  }

  function LineEnd(s: string): (n: nat)
    ensures n <= |s| && (n < |s| ==> IsBreak(s[n]))
  {
    if s == "" || IsBreak(s[0]) then 0 else 1 + LineEnd(s[1..])
  }

  // msg.splitlines(); a carriage return and a line feed are one break
  function SplitLines(s: string): (r: seq<string>)
    ensures r == [] ==> s == ""
    decreases |s|
  {
    if s == "" then []
    else
      var n := LineEnd(s);
      if n == |s| then [s]
      else [s[..n]] + SplitLines(s[NextLine(s, n)..])
  }

  function NextLine(s: string, n: nat): (k: nat)
    requires n < |s|
    ensures n < k <= |s| && k <= n + 2
  {
    if n + 1 < |s| && s[n] == '\r' && s[n + 1] == '\n' then n + 2 else n + 1
  }

  /** The characters up to U+0020 that end a line, and the three above. */
  lemma BreaksAre(c: char)
    ensures c as int <= 0x20 ==> (IsBreak(c) <==> c as int in {10, 11, 12, 13, 28, 29, 30})
    ensures IsBreak(0x85 as char) && IsBreak(0x2028 as char) && IsBreak(0x2029 as char)
    ensures !IsBreak('a') && !IsBreak(0xa0 as char) && !IsBreak(0x3000 as char)
  {
  }

  lemma {:induction false} LineEndAt(a: string, rest: string)
    requires rest != "" && IsBreak(rest[0]) && forall i :: 0 <= i < |a| ==> !IsBreak(a[i])
    ensures LineEnd(a + rest) == |a|
  {
    hide IsBreak;
    if a == "" {
      assert a + rest == rest;
    } else {
      assert (a + rest)[1..] == a[1..] + rest;
      LineEndAt(a[1..], rest);
    }
  }

  // A line, its break and the rest.
  lemma LineBehind(a: string, brk: string, b: string)
    requires forall i :: 0 <= i < |a| ==> !IsBreak(a[i])
    requires brk == "\n" || brk == "\r\n"
    ensures SplitLines(a + brk + b) == [a] + SplitLines(b)
  {
    hide IsBreak;
    BreaksAre(brk[0]);
    var s := a + brk + b;
    assert s == a + (brk + b);
    LineEndAt(a, brk + b);
    var n := |a|;
    assert s[..n] == a && s[n + |brk|..] == b && s[n] == brk[0];
    if |brk| == 2 { assert s[n + 1] == brk[1]; }
    assert NextLine(s, n) == n + |brk|;
  }

  /** A line ends at a line feed, or at a carriage return with its line feed. */
  lemma LinesBehindBreaks(a: string, b: string)
    requires forall i :: 0 <= i < |a| ==> !IsBreak(a[i])
    ensures SplitLines(a) == if a == "" then [] else [a]
    ensures SplitLines(a + "\n" + b) == SplitLines(a + "\r\n" + b) == [a] + SplitLines(b)
  {
    hide IsBreak;
    LineEndAlone(a);
    LineBehind(a, "\n", b);
    LineBehind(a, "\r\n", b);
  }

  lemma {:induction false} LineEndAlone(a: string)
    requires forall i :: 0 <= i < |a| ==> !IsBreak(a[i])
    ensures LineEnd(a) == |a|
  {
    hide IsBreak;
    if a != "" { LineEndAlone(a[1..]); }
  }

  lemma BreakIsNoCharacter(s: string, n: nat)
    requires n < |s| && IsBreak(s[n])
    ensures NonSpace(s[n..NextLine(s, n)]) == ""
  {
    hide IsSpace;
    BreaksAreSpace();
    assert IsBreak('\n');
    NoCharacter(s[n..NextLine(s, n)]);
  }

  lemma NoCharacter(s: string)
    requires |s| <= 2 && forall i :: 0 <= i < |s| ==> IsSpace(s[i])
    ensures NonSpace(s) == ""
  {
    if s != "" && s[1..] != "" { assert s[1..][1..] == ""; }
  }

  lemma {:induction false} SplitLinesKeepAll(s: string)
    ensures NonSpace(Concat(SplitLines(s))) == NonSpace(s)
    decreases |s|
  {
    hide NonSpace, NextLine, IsBreak;
    if s != "" {
      var n := LineEnd(s);
      if n == |s| {
        assert Concat([s][1..]) == "";
        assert Concat([s]) == s;
      } else {
        var k := NextLine(s, n);
        BreakIsNoCharacter(s, n);
        SplitLinesKeepAll(s[k..]);
        NonSpaceConcat(s[..n], Concat(SplitLines(s[k..])));
        NonSpaceConcat(s[..n], s[n..k]);
        NonSpaceConcat(s[..n] + s[n..k], s[k..]);
        assert s == s[..n] + s[n..k] + s[k..];
        assert ([s[..n]] + SplitLines(s[k..]))[1..] == SplitLines(s[k..]);
      }
    }
  }

  lemma BreaksAreSpace()
    ensures forall c | IsBreak(c) :: IsSpace(c)
  {
  }

  function AllWrapped(lines: seq<string>, sx: nat): (r: seq<string>)
    requires sx > 0
    ensures lines != [] ==> r != []
  {
    if lines == [] then [] else AllWrapped(lines[..|lines| - 1], sx) + Wrapped(lines[|lines| - 1], sx)
  }

  lemma {:induction false} AllWrappedKeepsAll(lines: seq<string>, sx: nat)
    requires sx > 0
    ensures NonSpace(Concat(AllWrapped(lines, sx))) == NonSpace(Concat(lines))
  {
    hide NonSpace, Wrapped;
    if lines != [] {
      var init, last := lines[..|lines| - 1], lines[|lines| - 1];
      AllWrappedKeepsAll(init, sx);
      WrappedKeepsAll(last, sx);
      ConcatParts(AllWrapped(init, sx), Wrapped(last, sx));
      NonSpaceConcat(Concat(AllWrapped(init, sx)), Concat(Wrapped(last, sx)));
      ConcatParts(init, [last]);
      assert [last][1..] == [];
      assert Concat([last]) == last + Concat([]) == last;
      NonSpaceConcat(Concat(init), last);
      assert init + [last] == lines;
    }
  }

  /** Every line of the whole message fits the width. */
  lemma {:induction false} AllWrappedFit(lines: seq<string>, sx: nat)
    requires sx > 0
    ensures forall i :: 0 <= i < |AllWrapped(lines, sx)| ==> |AllWrapped(lines, sx)[i]| <= sx
  {
    hide Wrapped;
    if lines != [] {
      AllWrappedFit(lines[..|lines| - 1], sx);
      WrappedIsRight(lines[|lines| - 1], sx);
    }
  }

  lemma {:induction false} JoinKeepsAll(lines: seq<string>, sep: string)
    requires lines != [] && NonSpace(sep) == ""
    ensures NonSpace(Join(lines, sep)) == NonSpace(Concat(lines))
  {
    hide NonSpace;
    if |lines| == 1 {
      assert lines[1..] == [];
      assert Concat(lines) == lines[0] + Concat([]) == lines[0];
    } else {
      JoinKeepsAll(lines[1..], sep);
      NonSpaceConcat(lines[0], sep);
      NonSpaceConcat(lines[0] + sep, Join(lines[1..], sep));
      NonSpaceConcat(lines[0], Concat(lines[1..]));
      assert NonSpace(lines[0]) + "" == NonSpace(lines[0]);
    }
  }

  function Blanks(n: nat): string { seq(n, _ => ' ') }

  lemma {:induction false} BlanksAreSpace(n: nat)
    ensures NonSpace(Blanks(n)) == ""
  {
    if n > 0 {
      BlanksAreSpace(n - 1);
      assert Blanks(n)[1..] == Blanks(n - 1);
    }
  }

  // ' '.join(msg.split())
  function AsSingleLine(msg: string): string
  {
    if Words(msg) == [] then "" else Join(Words(msg), " ")
  }

  // The message as it is printed behind a prefix of that length.
  function Formatted(msg: string, sx: int, indent: nat): string
  {
    if msg == "" then ""
    else if sx > 10 then Join(AllWrapped(SplitLines(msg), sx), "\r\n" + Blanks(indent))
    else AsSingleLine(msg)
  }

  // ---- what is printed, line by line

  // No white space but blanks, and none in front.
  predicate Tidy(line: string)
  {
    (forall i :: 0 <= i < |line| ==> (IsSpace(line[i]) ==> line[i] == ' '))
    && (line != "" ==> !IsSpace(line[0]))
  }

  lemma {:induction false} FillTidy(line: string, terms: seq<string>, sx: nat)
    requires Tidy(line) && AllWord(terms)
    ensures forall i :: 0 <= i < |Fill(line, terms, sx)| ==> Tidy(Fill(line, terms, sx)[i])
    decreases |terms|
  {
    hide IsSpace;
    if terms != [] {
      assert IsWord(terms[0]);
      if sx - |line| > |terms[0]| {
        FillTidy(Longer(line, terms[0]), terms[1..], sx);
      } else {
        FillTidy(terms[0], terms[1..], sx);
      }
    }
  }

  lemma {:induction false} AllWrappedTidy(lines: seq<string>, sx: nat)
    requires sx > 0
    ensures forall i :: 0 <= i < |AllWrapped(lines, sx)| ==> Tidy(AllWrapped(lines, sx)[i])
  {
    hide Tidy, IsWord, Words, CutAll, Fill;
    if lines != [] {
      var last := lines[|lines| - 1];
      AllWrappedTidy(lines[..|lines| - 1], sx);
      WordsKeepAll(last);
      CutAllPieces(Words(last), sx);
      NothingIsTidy();
      FillTidy("", CutAll(Words(last), sx), sx);
    }
  }

  lemma NothingIsTidy()
    ensures Tidy("")
  {
  }

  // A text that goes on with white space.
  lemma {:induction false} WordsAcross(a: string, b: string)
    requires b != "" && IsSpace(b[0])
    ensures Words(a + b) == Words(a) + Words(b)
    decreases |a|
  {
    hide Words, WordEnd, IsSpace;
    var s := a + b;
    if a == "" {
      NothingHasNoWord();
      assert s == b;
    } else {
      WordsFirst(s);
      WordsFirst(a);
      if IsSpace(a[0]) {
        assert s[1..] == a[1..] + b;
        WordsAcross(a[1..], b);
      } else {
        var n := WordEnd(a);
        WordEndIs(a);
        assert a[..n] + (a[n..] + b) == s;
        WordEndAt(a[..n], a[n..] + b);
        assert s[..n] == a[..n] && s[n..] == a[n..] + b;
        WordsAcross(a[n..], b);
      }
    }
  }

  lemma {:induction false} SpaceHasNoWord(s: string, rest: string)
    requires AllSpace(s)
    ensures Words(s + rest) == Words(rest)
  {
    if s == "" {
      assert s + rest == rest;
    } else {
      assert (s + rest)[1..] == s[1..] + rest;
      SpaceHasNoWord(s[1..], rest);
    }
  }

  /** The lines of a message have its words. */
  lemma {:induction false} SplitLinesWords(s: string)
    ensures AllWords(SplitLines(s)) == Words(s)
    decreases |s|
  {
    hide Words, NextLine, IsBreak, IsSpace, AllWords;
    if s == "" {
      NothingHasNoWord();
    } else {
      var n := LineEnd(s);
      if n == |s| {
        WordsOfLines(s, []);
        assert [s] + [] == [s];
        NothingHasNoWord();
      } else {
        var k := NextLine(s, n);
        SplitLinesWords(s[k..]);
        WordsBehindBreak(s, n);
        WordsOfLines(s[..n], SplitLines(s[k..]));
      }
    }
  }

  lemma WordsOfLines(line: string, rest: seq<string>)
    ensures AllWords([line] + rest) == Words(line) + AllWords(rest)
  {
    hide Words;
    assert ([line] + rest)[1..] == rest;
  }

  lemma WordsBehindBreak(s: string, n: nat)
    requires n < |s| && IsBreak(s[n])
    ensures Words(s) == Words(s[..n]) + Words(s[NextLine(s, n)..])
  {
    hide Words, NextLine, IsBreak, IsSpace, AllSpace;
    var k := NextLine(s, n);
    BreakIsSpace(s, n);
    assert s == s[..n] + s[n..] && s[n..] == s[n..k] + s[k..];
    WordsAcross(s[..n], s[n..]);
    SpaceHasNoWord(s[n..k], s[k..]);
  }

  lemma NothingHasNoWord()
    ensures Words("") == [] && AllWords([]) == []
  {
  }

  lemma BreakIsSpace(s: string, n: nat)
    requires n < |s| && IsBreak(s[n])
    ensures AllSpace(s[n..NextLine(s, n)]) && IsSpace(s[n])
  {
    hide IsSpace;
    BreaksAreSpace();
    assert IsBreak('\n');
  }

  lemma {:induction false} AllWordsConcat(a: seq<string>, b: seq<string>)
    ensures AllWords(a + b) == AllWords(a) + AllWords(b)
  {
    hide Words;
    if a == [] {
      assert a + b == b;
    } else {
      assert (a + b)[1..] == a[1..] + b;
      AllWordsConcat(a[1..], b);
    }
  }

  lemma {:induction false} CutAllConcat(a: seq<string>, b: seq<string>, sx: nat)
    requires sx > 0
    ensures CutAll(a + b, sx) == CutAll(a, sx) + CutAll(b, sx)
  {
    hide Cut;
    if a == [] {
      assert a + b == b;
    } else {
      assert (a + b)[1..] == a[1..] + b;
      CutAllConcat(a[1..], b, sx);
    }
  }

  /** The lines of the whole message have its words, cut to the width. */
  lemma {:induction false} AllWrappedWords(lines: seq<string>, sx: nat)
    requires sx > 0
    ensures AllWords(AllWrapped(lines, sx)) == CutAll(AllWords(lines), sx)
  {
    hide Wrapped, CutAll, Words;
    if lines == [] {
      assert CutAll([], sx) == [] by { NoTerm(sx); }
    } else {
      var init, last := lines[..|lines| - 1], lines[|lines| - 1];
      AllWrappedWords(init, sx);
      WrappedIsRight(last, sx);
      AllWordsConcat(AllWrapped(init, sx), Wrapped(last, sx));
      assert lines == init + [last];
      AllWordsConcat(init, [last]);
      assert AllWords([last][1..]) == [];
      assert AllWords([last]) == Words(last);
      CutAllConcat(AllWords(init), Words(last), sx);
    }
  }

  lemma NoTerm(sx: nat)
    requires sx > 0
    ensures CutAll([], sx) == []
  {
  }

  // Only a word longer than the width is cut: into pieces that fill a line, and the rest.
  lemma {:induction false} CutIs(term: string, sx: nat)
    requires sx > 0 && IsWord(term)
    ensures |term| <= sx ==> Cut(term, sx) == [term]
    ensures Cut(term, sx) != [] && Concat(Cut(term, sx)) == term
    ensures forall i :: 0 <= i < |Cut(term, sx)| - 1 ==> |Cut(term, sx)[i]| == sx
    ensures 0 < |Cut(term, sx)[|Cut(term, sx)| - 1]| <= sx
    decreases |term|
  {
    CutPieces(term, sx);
    if |term| > sx { CutIs(term[sx..], sx); }
  }

  /** The pieces of the words: each word by itself. */
  lemma {:induction false} CutAllIs(terms: seq<string>, k: nat, sx: nat)
    requires sx > 0 && k < |terms|
    ensures CutAll(terms, sx) == CutAll(terms[..k], sx) + Cut(terms[k], sx) + CutAll(terms[k + 1..], sx)
  {
    hide Cut;
    assert terms == terms[..k] + terms[k..];
    CutAllConcat(terms[..k], terms[k..], sx);
    assert terms[k..][1..] == terms[k + 1..];
  }

  function Indented(lines: seq<string>, indent: nat): (r: seq<string>)
    ensures |r| == |lines| && forall i :: 0 <= i < |r| ==> r[i] == Blanks(indent) + lines[i]
  {
    seq(|lines|, i requires 0 <= i < |lines| => Blanks(indent) + lines[i])
  }

  lemma {:induction false} JoinIndented(lines: seq<string>, sep: string, indent: nat)
    requires lines != []
    ensures Blanks(indent) + Join(lines, sep + Blanks(indent)) == Join(Indented(lines, indent), sep)
  {
    hide Blanks;
    var b, shifted := Blanks(indent), Indented(lines, indent);
    if |lines| > 1 {
      var rest := lines[1..];
      JoinIndented(rest, sep, indent);
      assert shifted[1..] == Indented(rest, indent);
      assert b + (lines[0] + (sep + b) + Join(rest, sep + b)) == (b + lines[0]) + sep + (b + Join(rest, sep + b));
    }
  }

  lemma JoinParts(lines: seq<string>, sep: string, indent: nat)
    requires lines != []
    ensures Join(lines, sep + Blanks(indent)) == Join([lines[0]] + Indented(lines[1..], indent), sep)
  {
    hide Join, Blanks;
    var b, rest := Blanks(indent), lines[1..];
    var parts := [lines[0]] + Indented(rest, indent);
    JoinTwo(lines, sep + b);
    JoinTwo(parts, sep);
    if rest != [] {
      JoinIndented(rest, sep, indent);
      assert lines[0] + (sep + b) + Join(rest, sep + b) == lines[0] + sep + (b + Join(rest, sep + b));
      assert parts[1..] == Indented(rest, indent);
    }
  }

  lemma TidyIsFree(line: string, indent: nat)
    requires Tidy(line)
    ensures Free(line, "\r\n") && Free(Blanks(indent) + line, "\r\n")
  {
    hide IsSpace, Find, At;
    BreaksAreSpace();
    assert IsBreak('\r');
    CharFree(line, "\r\n", '\r');
    CharFree(Blanks(indent) + line, "\r\n", '\r');
  }

  lemma PartsAreFree(lines: seq<string>, indent: nat)
    requires lines != [] && forall i :: 0 <= i < |lines| ==> Tidy(lines[i])
    ensures var parts := [lines[0]] + Indented(lines[1..], indent);
            forall i :: 0 <= i < |parts| ==> Free(parts[i], "\r\n")
  {
    hide Tidy, Free, Blanks;
    var parts := [lines[0]] + Indented(lines[1..], indent);
    forall i | 0 <= i < |parts| ensures Free(parts[i], "\r\n") { TidyIsFree(lines[i], indent); }
  }

  lemma LineBreakIsSimple()
    ensures Simple("\r\n")
  {
  }

  // The parts between the line breaks.
  lemma PartsAre(lines: seq<string>, indent: nat)
    requires lines != [] && forall i :: 0 <= i < |lines| ==> Tidy(lines[i])
    ensures Split(Join(lines, "\r\n" + Blanks(indent)), "\r\n") == [lines[0]] + Indented(lines[1..], indent)
  {
    hide *;
    var parts := [lines[0]] + Indented(lines[1..], indent);
    JoinParts(lines, "\r\n", indent);
    PartsAreFree(lines, indent);
    LineBreakIsSimple();
    SplitJoin(parts, "\r\n");
  }

  lemma JoinTwo(items: seq<string>, sep: string)
    requires items != []
    ensures Join(items, sep) == if |items| == 1 then items[0] else items[0] + sep + Join(items[1..], sep)
  {
  }

  lemma {:induction false} IndentedWords(lines: seq<string>, indent: nat)
    ensures AllWords(Indented(lines, indent)) == AllWords(lines)
  {
    hide Words;
    if lines != [] {
      IndentedWords(lines[1..], indent);
      assert Indented(lines, indent)[1..] == Indented(lines[1..], indent);
      OneBlank();
      SpaceHasNoWord(Blanks(indent), lines[0]);
    }
  }

  // Between two line breaks at most sx characters, behind exactly `indent` blanks.
  predicate Fits(parts: seq<string>, sx: int, indent: nat)
  {
    parts != [] && |parts[0]| <= sx && (parts[0] != "" ==> !IsSpace(parts[0][0]))
    && forall i :: 0 < i < |parts| ==>
         indent <= |parts[i]| <= indent + sx && parts[i][..indent] == Blanks(indent)
         && (|parts[i]| > indent ==> !IsSpace(parts[i][indent]))
  }

  /** What is printed on a terminal with room: the lines fit, and their words are the message's, cut to the width. */
  lemma FormattedFits(msg: string, sx: int, indent: nat)
    requires msg != "" && sx > 10
    ensures var parts := Split(Formatted(msg, sx, indent), "\r\n");
            Fits(parts, sx, indent) && AllWords(parts) == CutAll(Words(msg), sx)
  {
    hide Words, AllWrapped, CutAll, Split, Join;
    var lines := AllWrapped(SplitLines(msg), sx);
    AllWrappedFit(SplitLines(msg), sx);
    AllWrappedTidy(SplitLines(msg), sx);
    AllWrappedWords(SplitLines(msg), sx);
    SplitLinesWords(msg);
    PartsAre(lines, indent);
    var rest := Indented(lines[1..], indent);
    IndentedWords(lines[1..], indent);
    assert ([lines[0]] + rest)[1..] == rest;
    PartsFit(lines, sx, indent);
  }

  lemma PartsFit(lines: seq<string>, sx: int, indent: nat)
    requires lines != [] && forall i :: 0 <= i < |lines| ==> Tidy(lines[i]) && |lines[i]| <= sx
    ensures Fits([lines[0]] + Indented(lines[1..], indent), sx, indent)
  {
    hide IsSpace;
    var parts := [lines[0]] + Indented(lines[1..], indent);
    forall i | 0 < i < |parts|
      ensures indent <= |parts[i]| <= indent + sx && parts[i][..indent] == Blanks(indent)
              && (|parts[i]| > indent ==> !IsSpace(parts[i][indent]))
    {
      assert parts[i] == Blanks(indent) + lines[i];
      assert Tidy(lines[i]);
    }
  }

  lemma {:induction false} JoinWords(ws: seq<string>)
    requires ws != [] && AllWord(ws)
    ensures Words(Join(ws, " ")) == ws && Tidy(Join(ws, " "))
  {
    hide IsSpace;
    assert IsWord(ws[0]);
    WordsOfWord(ws[0]);
    OneBlank();
    if |ws| == 1 {
      assert ws == [ws[0]];
    } else {
      var rest := Join(ws[1..], " ");
      JoinWords(ws[1..]);
      assert ws[0] + " " + rest == ws[0] + (" " + rest);
      WordsAcross(ws[0], " " + rest);
      SpaceHasNoWord(" ", rest);
    }
  }

  /** Without room: one line, with the words of the message and one blank between them. */
  lemma FormattedIsOneLine(msg: string, sx: int, indent: nat)
    requires sx <= 10
    ensures var r := Formatted(msg, sx, indent);
            (forall i :: 0 <= i < |r| ==> !IsBreak(r[i])) && Words(r) == Words(msg)
            && r == if Words(msg) == [] then "" else Join(Words(msg), " ")
  {
    hide Words, IsSpace;
    NothingHasNoWord();
    WordsKeepAll(msg);
    BreaksAreSpace();
    assert !IsBreak(' ');
    if Words(msg) != [] { JoinWords(Words(msg)); }
  }

  /** `format` without the prefix and the colour; sx is the room that the prefix leaves. */
  method Format(msg: string, sx: int, indent: nat) returns (r: string)
    ensures r == Formatted(msg, sx, indent)
    ensures msg == "" ==> r == ""
    ensures msg != "" && sx > 10 ==>
              Fits(Split(r, "\r\n"), sx, indent) && AllWords(Split(r, "\r\n")) == CutAll(Words(msg), sx)
    ensures sx <= 10 ==> (forall i :: 0 <= i < |r| ==> !IsBreak(r[i])) && Words(r) == Words(msg)
  {
    hide Words, AllWords, Split, CutAll, Fits, IsBreak, AllWrapped;
    if msg == "" {
      NothingHasNoWord();
      return "";
    }
    if sx <= 10 {
      FormattedIsOneLine(msg, sx, indent);
      return AsSingleLine(msg);
    }
    var lines := SplitLines(msg);
    var out := [];
    var i := 0;
    NoLine(sx);
    assert lines[..0] == [];
    while i < |lines|
      invariant 0 <= i <= |lines|
      invariant out == AllWrapped(lines[..i], sx)
    {
      var wrapped := WrapLine(lines[i], sx);
      assert lines[..i + 1][..|lines[..i + 1]| - 1] == lines[..i];
      NextWrapped(lines[..i + 1], sx);
      out := out + wrapped;
      i := i + 1;
    }
    assert lines[..|lines|] == lines;
    FormattedFits(msg, sx, indent);
    return Join(out, "\r\n" + Blanks(indent));
  }

  lemma NoLine(sx: nat)
    requires sx > 0
    ensures AllWrapped([], sx) == []
  {
  }

  lemma NextWrapped(lines: seq<string>, sx: nat)
    requires sx > 0 && lines != []
    ensures AllWrapped(lines, sx) == AllWrapped(lines[..|lines| - 1], sx) + Wrapped(lines[|lines| - 1], sx)
  {
  }

  /** Whatever the width, formatting loses, adds and moves nothing but white space. */
  lemma FormattedKeepsAll(msg: string, sx: int, indent: nat)
    ensures NonSpace(Formatted(msg, sx, indent)) == NonSpace(msg)
  {
    hide Words, IsSpace;
    if msg == "" {
    } else if sx > 10 {
      var sep := "\r\n" + Blanks(indent);
      assert IsBreak('\r') && IsBreak('\n');
      BreaksAreSpace();
      NoCharacter("\r\n");
      BlanksAreSpace(indent);
      NonSpaceConcat("\r\n", Blanks(indent));
      JoinKeepsAll(AllWrapped(SplitLines(msg), sx), sep);
      AllWrappedKeepsAll(SplitLines(msg), sx);
      SplitLinesKeepAll(msg);
    } else {
      WordsKeepAll(msg);
      assert IsSpace(' ') by { OneBlank(); }
      NoCharacter(" ");
      if Words(msg) != [] {
        JoinKeepsAll(Words(msg), " ");
        NonSpaceTwice(msg);
      }
    }
  }

  lemma OneBlank()
    ensures IsSpace(' ')
  {
  }

  lemma {:induction false} NonSpaceTwice(s: string)
    ensures NonSpace(NonSpace(s)) == NonSpace(s)
  {
    if s != "" {
      var rest := NonSpace(s[1..]);
      NonSpaceTwice(s[1..]);
      assert ([s[0]] + rest)[1..] == rest && "" + rest == rest;
    }
  }
}
