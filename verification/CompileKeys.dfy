/** What compile keys depend on. */
module CompileKeys {
  // The tests on flags and lines are written out in characters.

  import opened Wrappers
  import opened HashInput
  import opened Preprocess
  import Lines

  // ---- lines

  /** The text ends where a line does. */
  predicate AtLineStart(text: string) { text == "" || text[|text| - 1] == '\n' }

  lemma {:induction false} LineEndStays(before: string, rest: string, b: nat)
    requires AtLineStart(before) && b < |before|
    ensures LineEnd(before + rest, b) == LineEnd(before, b) < |before|
    decreases |before| - b
  {
    assert (before + rest)[b] == before[b];
    if before[b] != '\n' {
      assert b + 1 < |before|;
      LineEndStays(before, rest, b + 1);
    }
  }

  lemma {:induction false} LineEndMoves(before: string, rest: string, b: nat)
    requires b <= |rest|
    ensures LineEnd(before + rest, |before| + b) == |before| + LineEnd(rest, b)
    decreases |rest| - b
  {
    if b < |rest| {
      assert (before + rest)[|before| + b] == rest[b];
      if rest[b] != '\n' {
        LineEndMoves(before, rest, b + 1);
        assert |before| + b + 1 == |before| + (b + 1);
      }
    }
  }

  lemma {:induction false} LinesBehind(before: string, rest: string, b: nat)
    ensures LinesFrom(before + rest, |before| + b) == LinesFrom(rest, b)
    decreases |rest| - b
  {
    if b < |rest| {
      var e := LineEnd(rest, b);
      LineEndMoves(before, rest, b);
      assert (before + rest)[|before| + b..|before| + e] == rest[b..e];
      LinesBehind(before, rest, e + 1);
    }
  }

  /** The lines of two texts put together at the end of a line. */
  lemma {:induction false} LinesOfBoth(before: string, rest: string, b: nat)
    requires AtLineStart(before) && b <= |before|
    ensures LinesFrom(before + rest, b) == LinesFrom(before, b) + LinesFrom(rest, 0)
    decreases |before| - b
  {
    hide AtLineStart, Lines.NewlineFree;
    if b == |before| {
      LinesBehind(before, rest, 0);
      assert LinesFrom(before, b) == [];
    } else {
      hide LineEnd;
      var e := LineEnd(before, b);
      LineEndStays(before, rest, b);
      LinesOfBoth(before, rest, e + 1);
      Shift(before, rest, b, e);
    }
  }

  lemma Shift(before: string, rest: string, b: nat, e: nat)
    requires b <= e < |before| && e == LineEnd(before, b) == LineEnd(before + rest, b)
    requires LinesFrom(before + rest, e + 1) == LinesFrom(before, e + 1) + LinesFrom(rest, 0)
    ensures LinesFrom(before + rest, b) == LinesFrom(before, b) + LinesFrom(rest, 0)
  {
    hide LineEnd, Lines.NewlineFree;
    var line := before[b..e];
    assert (before + rest)[b..e] == line;
    assert LinesFrom(before + rest, b) == [line] + LinesFrom(before + rest, e + 1);
    assert [line] + (LinesFrom(before, e + 1) + LinesFrom(rest, 0)) ==
           [line] + LinesFrom(before, e + 1) + LinesFrom(rest, 0);
  }

  lemma OneLine(line: string)
    requires Lines.NewlineFree(line)
    ensures LinesFrom(line + "\n", 0) == [line]
  {
    var text := line + "\n";
    LineEndAt(text, 0, |line|);
    assert text[0..|line|] == line;
    assert LinesFrom(text, |line| + 1) == [];
  }

  lemma {:induction false} LineEndAt(text: string, b: nat, e: nat)
    requires b <= e < |text| && text[e] == '\n' && forall k :: b <= k < e ==> text[k] != '\n'
    ensures LineEnd(text, b) == e
    decreases e - b
  {
    if b < e { LineEndAt(text, b + 1, e); }
  }

  lemma Regroup(a: seq<string>, b: seq<string>, c: seq<string>)
    ensures a + (b + c) == a + b + c
  {
  }

  lemma {:induction false} SourceOfBoth(v: seq<string>, w: seq<string>)
    ensures SourceAmong(v + w) == SourceAmong(v) + SourceAmong(w)
  {
    if v == [] {
      assert v + w == w;
    } else {
      hide *;
      var x, rest := v[0], v[1..];
      SourceOfBoth(rest, w);
      SourceAmongHead(x, rest + w);
      SourceAmongHead(x, rest);
      assert v == [x] + rest;
      Regroup([x], rest, w);
      Regroup(if IsSource(x) then [x] else [], SourceAmong(rest), SourceAmong(w));
    }
  }

  lemma SourceOfTexts(before: string, after: string)
    requires AtLineStart(before)
    ensures SourceLines(before + after) == SourceLines(before) + SourceLines(after)
  {
    hide AtLineStart, IsSource, LineEnd, LinesFrom, SourceAmong;
    LinesOfBoth(before, after, 0);
    SourceOfBoth(TextLines(before), TextLines(after));
  }

  function SourceOf(line: string): seq<string> { if IsSource(line) then [line] else [] }

  lemma SourceWithLine(before: string, line: string, after: string)
    requires AtLineStart(before) && Lines.NewlineFree(line)
    ensures SourceLines(before + after) == SourceLines(before) + SourceLines(after)
    ensures SourceLines(before + (line + "\n" + after)) == SourceLines(before) + SourceOf(line) + SourceLines(after)
  {
    hide IsSource, SourceLines, SourceOf;
    SourceOfTexts(before, after);
    SourceOfTexts(before, line + "\n" + after);
    SourceOfTexts(line + "\n", after);
    SourceOfLine(line);
    assert SourceLines(before) + (SourceOf(line) + SourceLines(after)) ==
           SourceLines(before) + SourceOf(line) + SourceLines(after);
  }

  lemma SourceOfLine(line: string)
    requires Lines.NewlineFree(line)
    ensures SourceLines(line + "\n") == SourceOf(line)
  {
    hide IsSource, LineEnd, LinesFrom, Lines.NewlineFree;
    OneLine(line);
    SourceAmongHead(line, []);
    assert [line] + [] == [line] && SourceOf(line) + [] == SourceOf(line);
  }

  /**
    Putting another line into a text leaves the bytes that are hashed alone if and only if it is C without debug
    information, and the line holds nothing but blanks, tabs and carriage returns, or starts with a number sign, a blank
    and a digit.
   */
  lemma InsertedLine(c: CompileConfig, before: string, line: string, after: string)
    requires AtLineStart(before) && '\n' !in line
    requires forall p :: p in CompileParts(c, before + after) ==> |p| < 0x1_0000_0000_0000_0000
    requires forall p :: p in CompileParts(c, before + (line + "\n" + after)) ==> |p| < 0x1_0000_0000_0000_0000
    ensures Encode(CompileParts(c, before + (line + "\n" + after))) == Encode(CompileParts(c, before + after)) <==>
            && c.lang == "c" && !c.debug
            && ((forall k :: 0 <= k < |line| ==> line[k] in " \t\r")
                || (|line| >= 3 && line[0] == '#' && line[1] == ' ' && '0' <= line[2] <= '9'))
  {
    hide Encode, IsSource, SourceLines, Unlines;
    var text, longer := before + after, before + (line + "\n" + after);
    var p, q := CompileParts(c, text), CompileParts(c, longer);
    SourceWithLine(before, line, after);
    NotSource(line);
    var s, t := SourceLines(text), SourceLines(longer);
    if IsSource(line) {
      assert |t| == |s| + 1;
    } else {
      assert SourceLines(before) + [] == SourceLines(before);
      assert s == t;
    }
    assert |longer| == |text| + |line| + 1;
    if Encode(p) == Encode(q) {
      EncodeInjective(p, q);
      assert p[4] == q[4];
      if c.lang == "c" && !c.debug {
        UnlinesInjective(s, t);
      }
    }
  }

  lemma NotSource(line: string)
    ensures IsSource(line) <==>
            !((forall k :: 0 <= k < |line| ==> line[k] in " \t\r")
              || (|line| >= 3 && line[0] == '#' && line[1] == ' ' && '0' <= line[2] <= '9'))
  {
  }

  // ---- flags

  /**
    Where a flag goes: include paths, macros and the like to the preprocessor, with their next word if they take one.
   */
  lemma FlagGoes(cflags: seq<string>, i: nat)
    requires i < |cflags|
    ensures var f := cflags[i];
            var word := f in ["-I", "-D", "-U", "-include", "-isystem", "-iquote"];
            Shares(cflags, i) ==
            if word && i + 1 < |cflags| then
              ([f, cflags[i + 1]] + Shares(cflags, i + 2).0, Shares(cflags, i + 2).1)
            else if word || (|f| >= 2 && f[0] == '-' && f[1] in "IDU") then
              ([f] + Shares(cflags, i + 1).0, Shares(cflags, i + 1).1)
            else
              (Shares(cflags, i + 1).0, [f] + Shares(cflags, i + 1).1)
    ensures Shares(cflags, |cflags|) == ([], [])
  {
    hide StartsWith;
    var f := cflags[i];
    StartsWithTwo(f, 'I');
    StartsWithTwo(f, 'D');
    StartsWithTwo(f, 'U');
  }

  lemma StartsWithTwo(f: string, c: char)
    ensures StartsWith(f, ['-', c]) <==> |f| >= 2 && f[0] == '-' && f[1] == c
  {
  }

  // ---- files

  /** The line names a file: a marker whose first two quotes enclose something that does not start with a bracket. */
  lemma LineNames(line: string, f: string)
    ensures RealFile(line) == Some(f) <==>
            && |line| >= 3 && line[0] == '#' && line[1] == ' ' && '0' <= line[2] <= '9'
            && f != "" && f[0] != '<'
            && exists q1, q2 :: FirstQuotes(line, q1, q2) && line[q1 + 1..q2] == f
  {
    var a := FirstQuote(line, 0);
    if a < |line| {
      var b := FirstQuote(line, a + 1);
      if b < |line| { assert FirstQuotes(line, a, b); }
    }
    forall q1, q2 | FirstQuotes(line, q1, q2) ensures NamedFile(line) == Some(line[q1 + 1..q2]) {
      FirstQuoteAt(line, 0, q1);
      FirstQuoteAt(line, q1 + 1, q2);
    }
  }

  predicate FirstQuotes(line: string, q1: int, q2: int) {
    && 0 <= q1 < q2 < |line| && line[q1] == '"' == line[q2]
    && (forall k :: 0 <= k < q1 ==> line[k] != '"') && (forall k :: q1 < k < q2 ==> line[k] != '"')
  }
}
