/** Character-level text operations the normaliser is built from: the
    whitespace set `str.strip()` removes, trimming, the replacement of
    carriage-return/line-feed pairs, and splitting on / joining with a
    line feed. Strings are `seq<char>`. */
module Text {

  /** Whitespace as removed by `strip()`, restricted to ASCII: tab, line
      feed, vertical tab, form feed, carriage return, the four information
      separators U+001C to U+001F, and space. */
  predicate IsSpace(c: char) {
    9 <= c as int <= 13 || 28 <= c as int <= 32
  }

  predicate AllSpace(s: string) {
    forall i :: 0 <= i < |s| ==> IsSpace(s[i])
  }

  /** Neither the first nor the last character is whitespace. */
  predicate IsTrimmed(s: string) {
    s == [] || (!IsSpace(s[0]) && !IsSpace(s[|s| - 1]))
  }

  /** Drops leading whitespace. */
  function TrimStart(s: string): string {
    if s != [] && IsSpace(s[0]) then TrimStart(s[1..]) else s
  }

  /** `TrimStart` returns the longest suffix of `s` that does not start
      with whitespace. */
  lemma {:induction false} TrimStartSuffix(s: string)
    ensures var r := TrimStart(s);
      && |r| <= |s| && r == s[|s| - |r|..]
      && AllSpace(s[..|s| - |r|])
      && (r != [] ==> !IsSpace(r[0]))
  {
    if s != [] && IsSpace(s[0]) {
      TrimStartSuffix(s[1..]);
      var r := TrimStart(s[1..]);
      assert s[..|s| - |r|] == [s[0]] + s[1..][..|s| - 1 - |r|];
    }
  }

  /** Drops trailing whitespace. */
  function TrimEnd(s: string): string {
    if s != [] && IsSpace(s[|s| - 1]) then TrimEnd(s[..|s| - 1]) else s
  }

  /** `TrimEnd` returns the longest prefix of `s` that does not end with
      whitespace. */
  lemma {:induction false} TrimEndPrefix(s: string)
    ensures var r := TrimEnd(s);
      && |r| <= |s| && r == s[..|r|]
      && AllSpace(s[|r|..])
      && (r != [] ==> !IsSpace(r[|r| - 1]))
  {
    if s != [] && IsSpace(s[|s| - 1]) {
      TrimEndPrefix(s[..|s| - 1]);
      var r := TrimEnd(s[..|s| - 1]);
      assert s[|r|..] == s[..|s| - 1][|r|..] + [s[|s| - 1]];
    }
  }

  /** `str.strip()`: a trimmed result made of characters of `s`; it is
      empty exactly when `s` is all whitespace, and a text that is already
      trimmed is returned unchanged. */
  function Trim(s: string): (r: string)
    ensures IsTrimmed(r)
    ensures |r| <= |s| && forall c :: c in r ==> c in s
    ensures r == [] <==> AllSpace(s)
    ensures IsTrimmed(s) ==> r == s
  {
    TrimStartSuffix(s);
    TrimEndPrefix(TrimStart(s));
    TrimIsSlice(s);
    TrimEmptyIffAllSpace(s);
    TrimEnd(TrimStart(s))
  }

  lemma {:induction false} TrimIsSlice(s: string)
    ensures var t := TrimStart(s); var r := TrimEnd(t); var i := |s| - |t|;
      0 <= i <= |s| - |r| && r == s[i..i + |r|]
  {
    TrimStartSuffix(s);
    TrimEndPrefix(TrimStart(s));
  }

  lemma {:induction false} TrimEdgesAreSpace(s: string)
    ensures var t := TrimStart(s); var r := TrimEnd(t); var i := |s| - |t|;
      0 <= i <= |s| - |r| && AllSpace(s[..i]) && AllSpace(s[i + |r|..])
  {
    var t := TrimStart(s);
    var r := TrimEnd(t);
    var i := |s| - |t|;
    TrimStartSuffix(s);
    TrimEndPrefix(t);
    assert s[i + |r|..] == t[|r|..];
  }

  lemma {:induction false} TrimEmptyIffAllSpace(s: string)
    ensures TrimEnd(TrimStart(s)) == [] <==> AllSpace(s)
  {
    var t := TrimStart(s);
    var i := |s| - |t|;
    TrimStartSuffix(s);
    TrimEndPrefix(t);
    if TrimEnd(t) == [] {
      assert s == s[..i] + t;
    }
  }

  lemma {:induction false} TrimStartPadded(ws: string, x: string)
    requires AllSpace(ws)
    requires x == [] || !IsSpace(x[0])
    ensures TrimStart(ws + x) == x
  {
    if ws != [] {
      assert (ws + x)[1..] == ws[1..] + x;
      TrimStartPadded(ws[1..], x);
    }
  }

  lemma {:induction false} TrimEndPadded(x: string, ws: string)
    requires AllSpace(ws)
    requires x == [] || !IsSpace(x[|x| - 1])
    ensures TrimEnd(x + ws) == x
  {
    if ws != [] {
      assert (x + ws)[..|x + ws| - 1] == x + ws[..|ws| - 1];
      TrimEndPadded(x, ws[..|ws| - 1]);
    }
  }

  /** Trimming a trimmed text surrounded by whitespace gives that text back. */
  lemma {:induction false} TrimPadded(before: string, x: string, after: string)
    requires AllSpace(before) && AllSpace(after) && IsTrimmed(x)
    ensures Trim(before + x + after) == x
  {
    if x == [] {
      assert AllSpace(before + x + after);
    } else {
      TrimStartPadded(before, x + after);
      assert before + x + after == before + (x + after);
      TrimEndPadded(x, after);
    }
  }

  /** `r` is the slice of `s` starting at `i`, with only whitespace before
      and after it. */
  predicate IsEdgeTrim(s: string, r: string, i: int) {
    0 <= i <= |s| - |r| && r == s[i..i + |r|] && AllSpace(s[..i]) && AllSpace(s[i + |r|..])
  }

  /** `Trim` removes whitespace at the two ends and nothing else. */
  lemma {:induction false} TrimRemovesOnlyEdges(s: string)
    ensures exists i :: IsEdgeTrim(s, Trim(s), i)
  {
    var t := TrimStart(s);
    var r := TrimEnd(t);
    var i := |s| - |t|;
    TrimIsSlice(s);
    TrimEdgesAreSpace(s);
    assert IsEdgeTrim(s, r, i);
    assert Trim(s) == r;
  }

  /** No carriage return is directly followed by a line feed. */
  predicate NoCrlf(s: string) {
    forall i :: 0 <= i < |s| - 1 ==> !(s[i] == '\r' && s[i + 1] == '\n')
  }

  /** `s.replace("\r\n", "\n")`: a left-to-right scan that replaces each
      non-overlapping carriage-return/line-feed pair by a line feed. */
  function ReplaceCrlf(s: string): (r: string)
    ensures NoCrlf(s) ==> r == s
    ensures |r| <= |s|
  {
    if |s| >= 2 && s[0] == '\r' && s[1] == '\n' then
      "\n" + ReplaceCrlf(s[2..])
    else if s == [] then
      []
    else
      assert NoCrlf(s) ==> NoCrlf(s[1..]);
      [s[0]] + ReplaceCrlf(s[1..])
  }

  /** `r` is `s` with some carriage returns removed and nothing else: every
      other character, line feeds included, occurs as often as before, and
      the text shrinks by exactly the number of carriage returns removed. */
  predicate KeepsAllButCr(s: string, r: string) {
    && (forall c :: c != '\r' ==> multiset(r)[c] == multiset(s)[c])
    && multiset(r)['\r'] + (|s| - |r|) == multiset(s)['\r']
  }

  lemma {:induction false} KeepsAllButCrPrepend(x: string, y: string, s: string, r: string, t: string, rt: string)
    requires KeepsAllButCr(t, rt)
    requires s == x + t && r == y + rt
    requires KeepsAllButCr(x, y)
    ensures KeepsAllButCr(s, r)
  {
    assert multiset(s) == multiset(x) + multiset(t);
    assert multiset(r) == multiset(y) + multiset(rt);
  }

  lemma {:induction false} KeepsAllButCrOfCrlf(x: string, y: string)
    requires |x| == 2 && x[0] == '\r' && y == x[1..]
    ensures KeepsAllButCr(x, y)
  {
    assert x == [x[0]] + y;
    assert multiset(x) == multiset{'\r'} + multiset(y);
  }

  lemma {:induction false} ReplaceCrlfOfPair(s: string)
    requires |s| >= 2 && s[0] == '\r' && s[1] == '\n'
    ensures ReplaceCrlf(s) == s[1..2] + ReplaceCrlf(s[2..])
  {
  }

  lemma {:induction false} KeepsAllButCrPair(s: string)
    requires |s| >= 2 && s[0] == '\r' && s[1] == '\n'
    requires KeepsAllButCr(s[2..], ReplaceCrlf(s[2..]))
    ensures KeepsAllButCr(s, ReplaceCrlf(s))
  {
    var x, t := s[..2], s[2..];
    assert s == x + t;
    ReplaceCrlfOfPair(s);
    assert x[1..] == s[1..2];
    KeepsAllButCrOfCrlf(x, x[1..]);
    KeepsAllButCrPrepend(x, x[1..], s, ReplaceCrlf(s), t, ReplaceCrlf(t));
  }

  lemma {:induction false} KeepsAllButCrChar(s: string)
    requires s != [] && !(|s| >= 2 && s[0] == '\r' && s[1] == '\n')
    requires KeepsAllButCr(s[1..], ReplaceCrlf(s[1..]))
    ensures KeepsAllButCr(s, ReplaceCrlf(s))
  {
    var x, t := s[..1], s[1..];
    assert s == x + t;
    assert ReplaceCrlf(s) == x + ReplaceCrlf(t);
    KeepsAllButCrPrepend(x, x, s, ReplaceCrlf(s), t, ReplaceCrlf(t));
  }

  /** The replacement removes carriage returns and nothing else. */
  lemma {:induction false} ReplaceCrlfRemovesOnlyCr(s: string)
    ensures KeepsAllButCr(s, ReplaceCrlf(s))
  {
    if |s| >= 2 && s[0] == '\r' && s[1] == '\n' {
      ReplaceCrlfRemovesOnlyCr(s[2..]);
      KeepsAllButCrPair(s);
    } else if s != [] {
      ReplaceCrlfRemovesOnlyCr(s[1..]);
      KeepsAllButCrChar(s);
    }
  }

  /** One carriage return removed from the end of a line, if it has one. */
  function DropCr(line: string): string {
    if line != [] && line[|line| - 1] == '\r' then line[..|line| - 1] else line
  }

  /** `"\n".join(lines)`. */
  function Join(lines: seq<string>): string {
    if |lines| == 0 then []
    else if |lines| == 1 then lines[0]
    else lines[0] + "\n" + Join(lines[1..])
  }

  /** `s.split("\n")`: at least one segment, no segment holds a line feed,
      and joining the segments back with line feeds gives `s`. */
  function Split(s: string): (r: seq<string>)
    ensures |r| >= 1
    ensures forall i :: 0 <= i < |r| ==> '\n' !in r[i]
    ensures Join(r) == s
  {
    if s == [] then
      [[]]
    else
      var rest := Split(s[1..]);
      if s[0] == '\n' then
        assert s == "\n" + s[1..];
        [[]] + rest
      else
        var r := [[s[0]] + rest[0]] + rest[1..];
        assert r[1..] == rest[1..];
        assert s == [s[0]] + s[1..];
        r
  }

  lemma {:induction false} SplitSingleLine(x: string)
    requires '\n' !in x
    ensures Split(x) == [x]
  {
    if x != [] {
      SplitSingleLine(x[1..]);
    }
  }

  lemma {:induction false} SplitAfterLine(x: string, t: string)
    requires '\n' !in x
    ensures Split(x + "\n" + t) == [x] + Split(t)
  {
    var s := x + "\n" + t;
    if x == [] {
      assert s[1..] == t;
    } else {
      assert s[1..] == x[1..] + "\n" + t;
      SplitAfterLine(x[1..], t);
      assert [x[0]] + x[1..] == x;
    }
  }

  /** Splitting undoes joining, for a non-empty list of lines without line
      feeds: the two are inverse. */
  lemma {:induction false} SplitJoin(lines: seq<string>)
    requires |lines| >= 1
    requires forall i :: 0 <= i < |lines| ==> '\n' !in lines[i]
    ensures Split(Join(lines)) == lines
  {
    if |lines| == 1 {
      SplitSingleLine(lines[0]);
    } else {
      SplitJoin(lines[1..]);
      SplitAfterLine(lines[0], Join(lines[1..]));
      assert [lines[0]] + lines[1..] == lines;
    }
  }

  /** `b` lists the lines of `a`, each but the last without one trailing
      carriage return. */
  predicate LinesDropCr(a: seq<string>, b: seq<string>) {
    && |a| >= 1
    && |b| == |a|
    && (forall i :: 0 <= i < |a| - 1 ==> b[i] == DropCr(a[i]))
    && b[|b| - 1] == a[|a| - 1]
  }

  lemma {:induction false} LinesDropCrCons(x: string, a: seq<string>, b: seq<string>)
    requires LinesDropCr(a, b)
    ensures LinesDropCr([x] + a, [DropCr(x)] + b)
  {
    var a', b' := [x] + a, [DropCr(x)] + b;
    forall i | 0 <= i < |a'| - 1
      ensures b'[i] == DropCr(a'[i])
    {
      if i > 0 {
        assert a'[i] == a[i - 1] && b'[i] == b[i - 1];
      }
    }
  }

  lemma {:induction false} LinesDropCrExtendHead(c: char, a: seq<string>, b: seq<string>)
    requires LinesDropCr(a, b)
    requires c != '\r' || a[0] != [] || |a| == 1
    ensures LinesDropCr([[c] + a[0]] + a[1..], [[c] + b[0]] + b[1..])
  {
    var a', b' := [[c] + a[0]] + a[1..], [[c] + b[0]] + b[1..];
    if |a| > 1 {
      assert [c] + DropCr(a[0]) == DropCr([c] + a[0]);
    }
    forall i | 0 <= i < |a'| - 1
      ensures b'[i] == DropCr(a'[i])
    {
      if i > 0 {
        assert a'[i] == a[i] && b'[i] == b[i];
      }
    }
  }

  lemma {:induction false} SplitFirstLine(s: string)
    requires s != [] && s[0] != '\n'
    ensures Split(s)[0] != []
  {
  }

  lemma {:induction false} CrlfStep(s: string)
    requires |s| >= 2 && s[0] == '\r' && s[1] == '\n'
    requires LinesDropCr(Split(s[2..]), Split(ReplaceCrlf(s[2..])))
    ensures LinesDropCr(Split(s), Split(ReplaceCrlf(s)))
  {
    var x, t := s[..1], s[2..];
    var rt := ReplaceCrlf(t);
    assert s == x + [s[1]] + t;
    SplitAfterLine(x, t);
    assert Split(s) == [x] + Split(t);
    assert DropCr(x) == [];
    var r := ReplaceCrlf(s);
    assert r == [] + [s[1]] + rt;
    SplitAfterLine([], rt);
    assert Split(r) == [DropCr(x)] + Split(rt);
    LinesDropCrCons(x, Split(t), Split(rt));
  }

  lemma {:induction false} LfStep(t: string)
    requires LinesDropCr(Split(t), Split(ReplaceCrlf(t)))
    ensures LinesDropCr(Split("\n" + t), Split(ReplaceCrlf("\n" + t)))
  {
    var s := "\n" + t;
    assert s[1..] == t;
    SplitAfterLine([], t);
    assert s == [] + "\n" + t;
    SplitAfterLine([], ReplaceCrlf(t));
    assert ReplaceCrlf(s) == [] + "\n" + ReplaceCrlf(t);
    LinesDropCrCons([], Split(t), Split(ReplaceCrlf(t)));
  }

  lemma {:induction false} CharStep(c: char, t: string)
    requires c != '\n' && (c != '\r' || t == [] || t[0] != '\n')
    requires LinesDropCr(Split(t), Split(ReplaceCrlf(t)))
    ensures LinesDropCr(Split([c] + t), Split(ReplaceCrlf([c] + t)))
  {
    var s := [c] + t;
    assert s[1..] == t;
    var r := ReplaceCrlf(s);
    assert r == [c] + ReplaceCrlf(t);
    assert r[1..] == ReplaceCrlf(t);
    if c == '\r' && t != [] {
      SplitFirstLine(t);
    }
    LinesDropCrExtendHead(c, Split(t), Split(ReplaceCrlf(t)));
  }

  /** Replacing carriage-return/line-feed pairs keeps the line structure of
      a text: it has as many lines as before, every line but the last loses
      one trailing carriage return if it had one, and the last line is
      unchanged. */
  lemma {:induction false} SplitReplaceCrlf(s: string)
    ensures LinesDropCr(Split(s), Split(ReplaceCrlf(s)))
  {
    if s == [] {
    } else if |s| >= 2 && s[0] == '\r' && s[1] == '\n' {
      SplitReplaceCrlf(s[2..]);
      CrlfStep(s);
    } else if s[0] == '\n' {
      SplitReplaceCrlf(s[1..]);
      LfStep(s[1..]);
      assert s == "\n" + s[1..];
    } else {
      SplitReplaceCrlf(s[1..]);
      CharStep(s[0], s[1..]);
      assert s == [s[0]] + s[1..];
    }
  }

  lemma {:induction false} LinesDropCrWithoutCr(lines: seq<string>, raw: seq<string>)
    requires LinesDropCr(lines, raw)
    requires forall i :: 0 <= i < |lines| ==> '\r' !in lines[i]
    ensures raw == lines
  {
    forall i | 0 <= i < |lines|
      ensures raw[i] == lines[i]
    {
      if i < |lines| - 1 {
        assert raw[i] == DropCr(lines[i]);
      }
    }
  }

  lemma {:induction false} NoCrlfAppend(a: string, b: string)
    requires NoCrlf(a) && NoCrlf(b)
    requires a == [] || a[|a| - 1] != '\r'
    ensures NoCrlf(a + b)
  {
    var s := a + b;
    forall i | 0 <= i < |s| - 1
      ensures !(s[i] == '\r' && s[i + 1] == '\n')
    {
      if i < |a| - 1 {
        assert s[i] == a[i] && s[i + 1] == a[i + 1];
      } else if i == |a| - 1 {
        assert s[i] == a[|a| - 1];
      } else {
        assert s[i] == b[i - |a|] && s[i + 1] == b[i - |a| + 1];
      }
    }
  }

  /** Joining trimmed lines without line feeds never produces a
      carriage-return/line-feed pair: every line feed of the result is a
      separator, and the character before it is not a carriage return. */
  lemma {:induction false} JoinTrimmedNoCrlf(lines: seq<string>)
    requires forall i :: 0 <= i < |lines| ==> IsTrimmed(lines[i]) && '\n' !in lines[i]
    ensures NoCrlf(Join(lines))
  {
    if |lines| == 1 {
      assert NoCrlf(lines[0]);
    } else if |lines| > 1 {
      var x := lines[0];
      JoinTrimmedNoCrlf(lines[1..]);
      assert NoCrlf(x);
      NoCrlfAppend("\n", Join(lines[1..]));
      NoCrlfAppend(x, "\n" + Join(lines[1..]));
      assert x + "\n" + Join(lines[1..]) == x + ("\n" + Join(lines[1..]));
    }
  }
}
