/** The output normaliser `StripNewline` (Tester.py:15-19), applied to case
    inputs, program outputs and expected outputs before they are compared.
    It replaces carriage-return/line-feed pairs by line feeds, splits on line
    feeds, drops the segments that are exactly empty, trims every remaining
    segment and joins them back with line feeds. Segments are dropped
    BEFORE they are trimmed, so a whitespace-only segment survives as an
    empty line; the normaliser is therefore not idempotent in general. */
module Normalizer {
  import opened Text

  /** `filter(None, lines)`: keeps the non-empty lines, in order. */
  function DropEmpty(lines: seq<string>): (r: seq<string>)
    ensures forall x :: x in r <==> x in lines && x != []
    ensures |r| <= |lines|
    ensures [] in lines ==> |r| < |lines|
    ensures [] !in lines ==> r == lines
  {
    if lines == [] then
      []
    else
      assert lines == [lines[0]] + lines[1..];
      if lines[0] == [] then DropEmpty(lines[1..]) else [lines[0]] + DropEmpty(lines[1..])
  }

  lemma {:induction false} DropEmptyCons(x: string, rest: seq<string>)
    ensures DropEmpty([x] + rest) == if x == [] then DropEmpty(rest) else [x] + DropEmpty(rest)
  {
    assert ([x] + rest)[1..] == rest;
  }

  /** Every non-empty line is kept as often as it occurs, and no empty line. */
  lemma {:induction false} DropEmptyCounts(lines: seq<string>)
    ensures multiset(DropEmpty(lines)) == multiset(lines)[[] := 0]
  {
    if lines != [] {
      var x, rest := lines[0], lines[1..];
      assert lines == [x] + rest;
      DropEmptyCounts(rest);
      DropEmptyCons(x, rest);
      assert multiset(lines) == multiset{x} + multiset(rest);
    }
  }

  /** The filter keeps the order of the lines: it works piece by piece. */
  lemma {:induction false} DropEmptyAppend(a: seq<string>, b: seq<string>)
    ensures DropEmpty(a + b) == DropEmpty(a) + DropEmpty(b)
  {
    if a != [] {
      var x, rest := a[0], a[1..];
      assert a == [x] + rest;
      assert a + b == [x] + (rest + b);
      DropEmptyAppend(rest, b);
      DropEmptyCons(x, rest + b);
      DropEmptyCons(x, rest);
    } else {
      assert a + b == b;
    }
  }

  /** `map(lambda each: each.strip(), lines)`. */
  function TrimLines(lines: seq<string>): (r: seq<string>)
    ensures |r| == |lines|
    ensures forall i :: 0 <= i < |r| ==> r[i] == Trim(lines[i])
  {
    seq(|lines|, i requires 0 <= i < |lines| => Trim(lines[i]))
  }

  lemma {:induction false} TrimLinesCons(x: string, rest: seq<string>)
    ensures TrimLines([x] + rest) == [Trim(x)] + TrimLines(rest)
  {
  }

  lemma {:induction false} TrimLinesOfTrimmed(lines: seq<string>)
    requires forall i :: 0 <= i < |lines| ==> IsTrimmed(lines[i])
    ensures TrimLines(lines) == lines
  {
  }

  /** The line feed separated segments the normaliser starts from. */
  function RawLines(s: string): seq<string> {
    Split(ReplaceCrlf(s))
  }

  /** The lines `StripNewline` joins: the trimmed non-empty raw segments. */
  function KeptLines(s: string): seq<string> {
    TrimLines(DropEmpty(RawLines(s)))
  }

  lemma {:induction false} KeptLinesAreClean(s: string)
    ensures forall i :: 0 <= i < |KeptLines(s)| ==> IsTrimmed(KeptLines(s)[i]) && '\n' !in KeptLines(s)[i]
  {
    var raw := RawLines(s);
    var kept := DropEmpty(raw);
    forall i | 0 <= i < |kept|
      ensures '\n' !in Trim(kept[i])
    {
      assert kept[i] in raw;
    }
  }

  /** `StripNewline`: the output has no carriage-return/line-feed pair, and
      every one of its lines has no leading or trailing whitespace. */
  function StripNewline(s: string): (r: string)
    ensures NoCrlf(r)
    ensures forall line :: line in Split(r) ==> IsTrimmed(line)
  {
    var lines := KeptLines(s);
    KeptLinesAreClean(s);
    JoinTrimmedNoCrlf(lines);
    if lines != [] then SplitJoin(lines); Join(lines) else Join(lines)
  }

  /** The lines of the output are exactly the trimmed non-empty raw
      segments, one per segment and in order; when there is no non-empty
      segment the output is the empty text. */
  lemma {:induction false} OutputLines(s: string)
    ensures DropEmpty(RawLines(s)) == [] ==> StripNewline(s) == []
    ensures DropEmpty(RawLines(s)) != [] ==> Split(StripNewline(s)) == KeptLines(s)
  {
    KeptLinesAreClean(s);
    if KeptLines(s) != [] {
      SplitJoin(KeptLines(s));
    }
  }

  /** A segment made only of whitespace is not dropped: it becomes an empty
      line of the output. */
  lemma {:induction false} WhitespaceLineSurvives(s: string, i: int)
    requires 0 <= i < |RawLines(s)|
    requires RawLines(s)[i] != [] && AllSpace(RawLines(s)[i])
    ensures [] in Split(StripNewline(s))
  {
    var raw := RawLines(s);
    var kept := DropEmpty(raw);
    assert raw[i] in kept;
    var j :| 0 <= j < |kept| && kept[j] == raw[i];
    OutputLines(s);
    assert KeptLines(s)[j] == Trim(raw[i]) == [];
  }

  /** Conversely, an empty line inside a non-empty output always comes from a
      whitespace-only segment: segments that are exactly empty leave no
      trace. */
  lemma {:induction false} EmptyLineComesFromWhitespace(s: string)
    requires StripNewline(s) != [] && [] in Split(StripNewline(s))
    ensures exists seg :: seg in RawLines(s) && seg != [] && AllSpace(seg)
  {
    var raw := RawLines(s);
    var kept := DropEmpty(raw);
    OutputLines(s);
    var j :| 0 <= j < |KeptLines(s)| && KeptLines(s)[j] == [];
    assert kept[j] in raw && kept[j] != [] && AllSpace(kept[j]);
  }

  /** On a text that is already normalised (no carriage-return/line-feed
      pair, every line trimmed), `StripNewline` only removes empty lines. */
  lemma {:induction false} StripNewlineOfNormal(t: string)
    requires NoCrlf(t)
    requires forall line :: line in Split(t) ==> IsTrimmed(line)
    ensures StripNewline(t) == Join(DropEmpty(Split(t)))
  {
    var d := DropEmpty(Split(t));
    assert forall i :: 0 <= i < |d| ==> IsTrimmed(d[i]) by {
      forall i | 0 <= i < |d| ensures IsTrimmed(d[i]) {
        assert d[i] in Split(t);
      }
    }
    TrimLinesOfTrimmed(d);
  }

  /** `StripNewline` is a fixed point on its own output exactly when that
      output is empty or has no empty line. */
  lemma {:induction false} IdempotentIff(s: string)
    ensures StripNewline(StripNewline(s)) == StripNewline(s)
        <==> StripNewline(s) == [] || [] !in Split(StripNewline(s))
  {
    var t := StripNewline(s);
    StripNewlineOfNormal(t);
    var lines := Split(t);
    var d := DropEmpty(lines);
    if t != [] && [] in lines && d != [] {
      assert forall i :: 0 <= i < |d| ==> '\n' !in d[i] by {
        forall i | 0 <= i < |d| ensures '\n' !in d[i] {
          assert d[i] in lines;
        }
      }
      SplitJoin(d);
      assert Join(d) != t;
    }
  }

  /** The normalisation that drops the lines which are empty AFTER trimming
      (trim before filter), in contrast to `StripNewline` (filter before
      trim). */
  function NormalizeBlankFree(s: string): string {
    Join(DropEmpty(TrimLines(RawLines(s))))
  }

  lemma {:induction false} DropTrimDrop(raw: seq<string>)
    ensures DropEmpty(TrimLines(DropEmpty(raw))) == DropEmpty(TrimLines(raw))
  {
    if raw != [] {
      var x, rest := raw[0], raw[1..];
      assert raw == [x] + rest;
      DropTrimDrop(rest);
      DropEmptyCons(x, rest);
      TrimLinesCons(x, rest);
      DropEmptyCons(Trim(x), TrimLines(rest));
      if x != [] {
        TrimLinesCons(x, DropEmpty(rest));
        DropEmptyCons(Trim(x), TrimLines(DropEmpty(rest)));
      }
    }
  }

  lemma {:induction false} SecondPassOfNonEmpty(s: string)
    requires DropEmpty(RawLines(s)) != []
    ensures StripNewline(StripNewline(s)) == Join(DropEmpty(KeptLines(s)))
  {
    StripNewlineOfNormal(StripNewline(s));
    OutputLines(s);
  }

  lemma {:induction false} SecondPassOfEmpty(s: string)
    requires DropEmpty(RawLines(s)) == []
    ensures StripNewline(StripNewline(s)) == []
  {
    var t := StripNewline(s);
    OutputLines(s);
    StripNewlineOfNormal(t);
    assert Split(t) == [[]];
  }

  lemma {:induction false} BlankFreeOfKept(s: string)
    ensures NormalizeBlankFree(s) == Join(DropEmpty(KeptLines(s)))
  {
    DropTrimDrop(RawLines(s));
  }

  /** The blank-free normalisation leaves no empty line behind. */
  lemma {:induction false} BlankFreeHasNoEmptyLine(s: string)
    ensures NormalizeBlankFree(s) == [] || [] !in Split(NormalizeBlankFree(s))
  {
    BlankFreeOfKept(s);
    var kept := KeptLines(s);
    var d := DropEmpty(kept);
    if d != [] {
      KeptLinesAreClean(s);
      assert forall i :: 0 <= i < |d| ==> '\n' !in d[i] by {
        forall i | 0 <= i < |d| ensures '\n' !in d[i] {
          assert d[i] in kept;
        }
      }
      SplitJoin(d);
    }
  }

  /** Applying `StripNewline` twice gives the blank-free normalisation: the
      second pass removes the empty lines the first pass left behind. */
  lemma {:induction false} StripNewlineTwice(s: string)
    ensures StripNewline(StripNewline(s)) == NormalizeBlankFree(s)
  {
    BlankFreeOfKept(s);
    if DropEmpty(RawLines(s)) == [] {
      SecondPassOfEmpty(s);
      assert KeptLines(s) == [];
    } else {
      SecondPassOfNonEmpty(s);
    }
  }

  /** The blank-free normalisation is a fixed point of `StripNewline`, and
      applying it twice changes nothing. */
  lemma {:induction false} BlankFreeIsNormal(s: string)
    ensures StripNewline(NormalizeBlankFree(s)) == NormalizeBlankFree(s)
    ensures NormalizeBlankFree(NormalizeBlankFree(s)) == NormalizeBlankFree(s)
  {
    var t := NormalizeBlankFree(s);
    StripNewlineTwice(s);
    BlankFreeHasNoEmptyLine(s);
    IdempotentIff(StripNewline(s));
    StripNewlineTwice(t);
  }

  lemma {:induction false} SplitOfJoin(segs: seq<string>, s: string)
    requires |segs| >= 1 && Join(segs) == s
    requires forall i :: 0 <= i < |segs| ==> '\n' !in segs[i]
    ensures Split(s) == segs
  {
    SplitJoin(segs);
  }

  lemma {:induction false} RawLinesOfSplit(segs: seq<string>, s: string)
    requires Split(s) == segs
    ensures LinesDropCr(segs, RawLines(s))
  {
    SplitReplaceCrlf(s);
  }

  /** The raw segments of a text given as line-feed separated segments:
      each but the last loses one trailing carriage return. */
  lemma {:induction false} RawLinesOfJoin(segs: seq<string>, s: string)
    requires |segs| >= 1 && Join(segs) == s
    requires forall i :: 0 <= i < |segs| ==> '\n' !in segs[i]
    ensures LinesDropCr(segs, RawLines(s))
  {
    SplitOfJoin(segs, s);
    RawLinesOfSplit(segs, s);
  }

  /** `StripNewline` of a text whose raw segments are known. */
  lemma {:induction false} StripNewlineFromRaw(s: string, raw: seq<string>, out: seq<string>, expected: string)
    requires RawLines(s) == raw
    requires TrimLines(DropEmpty(raw)) == out
    requires Join(out) == expected
    ensures StripNewline(s) == expected
  {
  }

  /** Joining two or three lines puts one line feed between neighbours. */
  lemma {:induction false} JoinTwo(a: string, b: string, s: string)
    requires s == a + "\n" + b
    ensures Join([a, b]) == s
  {
    assert [a, b][1..] == [b];
  }

  lemma {:induction false} JoinThree(a: string, b: string, c: string, s: string)
    requires s == a + "\n" + b + "\n" + c
    ensures Join([a, b, c]) == s
  {
    assert [a, b, c][1..] == [b, c];
    JoinTwo(b, c, b + "\n" + c);
  }

  /** Trimming lines that are trimmed texts padded with whitespace. */
  lemma {:induction false} TrimLinesPadded(lines: seq<string>, out: seq<string>, before: seq<string>, after: seq<string>)
    requires |lines| == |out| == |before| == |after|
    requires forall i :: 0 <= i < |lines| ==> lines[i] == before[i] + out[i] + after[i]
    requires forall i :: 0 <= i < |lines| ==> AllSpace(before[i]) && AllSpace(after[i]) && IsTrimmed(out[i])
    ensures TrimLines(lines) == out
  {
    forall i | 0 <= i < |lines|
      ensures TrimLines(lines)[i] == out[i]
    {
      TrimPadded(before[i], out[i], after[i]);
    }
  }

  /** Raw segments of a text given by line-feed separated segments none of
      which holds a carriage return. */
  lemma {:induction false} RawLinesWithoutCr(segs: seq<string>, s: string)
    requires |segs| >= 1 && Join(segs) == s
    requires forall i :: 0 <= i < |segs| ==> '\n' !in segs[i] && '\r' !in segs[i]
    ensures RawLines(s) == segs
  {
    RawLinesOfJoin(segs, s);
    LinesDropCrWithoutCr(segs, RawLines(s));
  }

  /** Raw segments of a text given by line-feed separated segments: the
      carriage return ending any but the last segment is gone. */
  lemma {:induction false} RawLinesAre(segs: seq<string>, s: string, raw: seq<string>)
    requires |segs| >= 1 && Join(segs) == s
    requires forall i :: 0 <= i < |segs| ==> '\n' !in segs[i]
    requires LinesDropCr(segs, raw)
    ensures RawLines(s) == raw
  {
    RawLinesOfJoin(segs, s);
    var r := RawLines(s);
    forall i | 0 <= i < |raw|
      ensures r[i] == raw[i]
    {
    }
  }

  lemma {:induction false} UnitTestRaw()
    ensures RawLines("1 \r\n 2     \r\n     3      \n") == ["1 ", " 2     ", "     3      ", ""]
  {
    assert DropCr("1 \r") == "1 " && DropCr(" 2     \r") == " 2     ";
    RawLinesAre(["1 \r", " 2     \r", "     3      ", ""], "1 \r\n 2     \r\n     3      \n", ["1 ", " 2     ", "     3      ", ""]);
  }

  lemma {:induction false} UnitTestTrimmed()
    ensures TrimLines(DropEmpty(["1 ", " 2     ", "     3      ", ""])) == ["1", "2", "3"]
    ensures Join(["1", "2", "3"]) == "1\n2\n3"
  {
    JoinThree("1", "2", "3", "1\n2\n3");
    assert DropEmpty(["1 ", " 2     ", "     3      ", ""]) == ["1 ", " 2     ", "     3      "];
    TrimLinesPadded(["1 ", " 2     ", "     3      "], ["1", "2", "3"], ["", " ", "     "], [" ", "     ", "      "]);
  }

  /** The tester's unit test: blanks around every line and carriage-return
      line endings disappear. */
  lemma {:induction false} UnitTestExample()
    ensures StripNewline("1 \r\n 2     \r\n     3      \n") == "1\n2\n3"
  {
    UnitTestRaw();
    UnitTestTrimmed();
    StripNewlineFromRaw("1 \r\n 2     \r\n     3      \n", ["1 ", " 2     ", "     3      ", ""], ["1", "2", "3"], "1\n2\n3");
  }

  /** A text made of non-empty trimmed lines without carriage returns is
      left as it is. */
  lemma {:induction false} SimpleLines(lines: seq<string>, s: string)
    requires |lines| >= 1 && Join(lines) == s
    requires forall i :: 0 <= i < |lines| ==> lines[i] != [] && IsTrimmed(lines[i]) && '\n' !in lines[i] && '\r' !in lines[i]
    ensures StripNewline(s) == s
  {
    RawLinesWithoutCr(lines, s);
    TrimLinesOfTrimmed(lines);
    StripNewlineFromRaw(s, lines, lines, s);
  }

  lemma {:induction false} WhitespaceLineRaw()
    ensures RawLines("a\n \nb") == ["a", " ", "b"]
  {
    RawLinesWithoutCr(["a", " ", "b"], "a\n \nb");
  }

  lemma {:induction false} WhitespaceLineTrimmed()
    ensures TrimLines(DropEmpty(["a", " ", "b"])) == ["a", [], "b"]
    ensures Join(["a", [], "b"]) == "a\n\nb"
  {
    assert DropEmpty(["a", " ", "b"]) == ["a", " ", "b"];
    TrimLinesPadded(["a", " ", "b"], ["a", [], "b"], [[], " ", []], [[], [], []]);
    JoinThree("a", [], "b", "a\n\nb");
  }

  lemma {:induction false} WhitespaceLineExample()
    ensures StripNewline("a\n \nb") == "a\n\nb"
  {
    WhitespaceLineRaw();
    WhitespaceLineTrimmed();
    StripNewlineFromRaw("a\n \nb", ["a", " ", "b"], ["a", [], "b"], "a\n\nb");
  }

  lemma {:induction false} BlankLineRaw()
    ensures RawLines("a\n\nb") == ["a", [], "b"]
  {
    RawLinesWithoutCr(["a", [], "b"], "a\n\nb");
  }

  lemma {:induction false} BlankLineTrimmed()
    ensures TrimLines(DropEmpty(["a", [], "b"])) == ["a", "b"]
    ensures Join(["a", "b"]) == "a\nb"
  {
    assert DropEmpty(["a", [], "b"]) == ["a", "b"];
    TrimLinesOfTrimmed(["a", "b"]);
    JoinTwo("a", "b", "a\nb");
  }

  lemma {:induction false} BlankLineExample()
    ensures StripNewline("a\n\nb") == "a\nb"
  {
    BlankLineRaw();
    BlankLineTrimmed();
    StripNewlineFromRaw("a\n\nb", ["a", [], "b"], ["a", "b"], "a\nb");
  }

  /** A whitespace-only line survives the first pass as an empty line and
      disappears on the second: `StripNewline` is not idempotent. */
  lemma {:induction false} NotIdempotentExample()
    ensures StripNewline("a\n \nb") == "a\n\nb"
    ensures StripNewline(StripNewline("a\n \nb")) == "a\nb"
  {
    WhitespaceLineExample();
    BlankLineExample();
  }

  lemma {:induction false} TrailingBlanksTrimmed()
    ensures TrimLines(DropEmpty(["1 ", " 2 ", ""])) == ["1", "2"]
    ensures Join(["1", "2"]) == "1\n2"
  {
    assert DropEmpty(["1 ", " 2 ", ""]) == ["1 ", " 2 "];
    TrimLinesPadded(["1 ", " 2 "], ["1", "2"], [[], " "], [" ", " "]);
    JoinTwo("1", "2", "1\n2");
  }

  lemma {:induction false} TrailingBlanksExample()
    ensures StripNewline("1 \r\n 2 \r\n") == "1\n2"
  {
    assert DropCr("1 \r") == "1 " && DropCr(" 2 \r") == " 2 ";
    RawLinesAre(["1 \r", " 2 \r", ""], "1 \r\n 2 \r\n", ["1 ", " 2 ", ""]);
    TrailingBlanksTrimmed();
    StripNewlineFromRaw("1 \r\n 2 \r\n", ["1 ", " 2 ", ""], ["1", "2"], "1\n2");
  }

  lemma {:induction false} TrailingBlankLineRaw()
    ensures RawLines("a\n\nb\n") == ["a", [], "b", []]
  {
    RawLinesWithoutCr(["a", [], "b", []], "a\n\nb\n");
  }

  lemma {:induction false} TrailingBlankLineTrimmed()
    ensures TrimLines(DropEmpty(["a", [], "b", []])) == ["a", "b"]
    ensures Join(["a", "b"]) == "a\nb"
  {
    assert DropEmpty(["a", [], "b", []]) == ["a", "b"];
    TrimLinesOfTrimmed(["a", "b"]);
    JoinTwo("a", "b", "a\nb");
  }

  lemma {:induction false} TrailingBlankLineExample()
    ensures StripNewline("a\n\nb\n") == "a\nb"
  {
    TrailingBlankLineRaw();
    TrailingBlankLineTrimmed();
    StripNewlineFromRaw("a\n\nb\n", ["a", [], "b", []], ["a", "b"], "a\nb");
  }

  lemma {:induction false} PlainLinesExample()
    ensures StripNewline("1\n2") == "1\n2"
    ensures StripNewline("a\nb") == "a\nb"
  {
    JoinTwo("1", "2", "1\n2");
    JoinTwo("a", "b", "a\nb");
    SimpleLines(["1", "2"], "1\n2");
    SimpleLines(["a", "b"], "a\nb");
  }

  /** Trailing blanks with carriage-return line endings, and blank lines
      between and after lines, do not affect the comparison. */
  lemma {:induction false} CrlfAndBlankLineEquivalences()
    ensures StripNewline("1 \r\n 2 \r\n") == StripNewline("1\n2") == "1\n2"
    ensures StripNewline("a\n\nb\n") == StripNewline("a\nb") == "a\nb"
  {
    TrailingBlanksExample();
    TrailingBlankLineExample();
    PlainLinesExample();
  }

  lemma {:induction false} MixedEndingsTrimmed()
    ensures TrimLines(DropEmpty(["1", "2", "3"])) == ["1", "2", "3"]
    ensures Join(["1", "2", "3"]) == "1\n2\n3"
  {
    assert DropEmpty(["1", "2", "3"]) == ["1", "2", "3"];
    TrimLinesOfTrimmed(["1", "2", "3"]);
    JoinThree("1", "2", "3", "1\n2\n3");
  }

  /** Carriage-return line endings inside a program's output normalise to
      plain line feeds. */
  lemma {:induction false} MixedEndingsExample()
    ensures StripNewline("1\r\n2\r\n3") == "1\n2\n3"
    ensures StripNewline("1\n2\n3") == "1\n2\n3"
  {
    MixedEndingsCrlf();
    MixedEndingsLf();
  }

  lemma {:induction false} MixedEndingsLf()
    ensures StripNewline("1\n2\n3") == "1\n2\n3"
  {
    JoinThree("1", "2", "3", "1\n2\n3");
    SimpleLines(["1", "2", "3"], "1\n2\n3");
  }

  lemma {:induction false} MixedEndingsCrlf()
    ensures StripNewline("1\r\n2\r\n3") == "1\n2\n3"
  {
    assert DropCr("1\r") == "1" && DropCr("2\r") == "2";
    RawLinesAre(["1\r", "2\r", "3"], "1\r\n2\r\n3", ["1", "2", "3"]);
    MixedEndingsTrimmed();
    StripNewlineFromRaw("1\r\n2\r\n3", ["1", "2", "3"], ["1", "2", "3"], "1\n2\n3");
  }
}
