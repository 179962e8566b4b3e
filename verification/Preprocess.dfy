/** Source text and compile keys. */
module Preprocess {
  import opened Wrappers
  import opened HashInput
  import Lines

  datatype CompileConfig = CompileConfig(driver: string, lang: string, toolchain: string,
                                         ppFlags: seq<string>, ccFlags: seq<string>, debug: bool)

  // ---- flags

  predicate StartsWith(s: string, prefix: string) { |prefix| <= |s| && s[..|prefix|] == prefix }

  /** Flags that only matter to the preprocessor. */
  predicate ForPreprocessor(f: string) {
    StartsWith(f, "-I") || StartsWith(f, "-D") || StartsWith(f, "-U") || f == "-include" || f == "-isystem"
      || f == "-iquote"
  }

  /** Flags whose argument is the next word. */
  predicate TakesNextWord(f: string) {
    f == "-I" || f == "-D" || f == "-U" || f == "-include" || f == "-isystem" || f == "-iquote"
  }

  predicate TurnsDebugOn(f: string) { StartsWith(f, "-g") && f != "-g0" }

  predicate AnyDebug(flags: seq<string>) { exists k :: 0 <= k < |flags| && TurnsDebugOn(flags[k]) }

  /** The preprocessor's share of the flags, and the compiler's, from position i on. */
  function Shares(cflags: seq<string>, i: nat): (seq<string>, seq<string>)
    requires i <= |cflags|
    decreases |cflags| - i
  {
    if i == |cflags| then ([], [])
    else if !ForPreprocessor(cflags[i]) then
      var (pp, cc) := Shares(cflags, i + 1);
      (pp, [cflags[i]] + cc)
    else if TakesNextWord(cflags[i]) && i + 1 < |cflags| then
      var (pp, cc) := Shares(cflags, i + 2);
      ([cflags[i], cflags[i + 1]] + pp, cc)
    else
      var (pp, cc) := Shares(cflags, i + 1);
      ([cflags[i]] + pp, cc)
  }

  /** A configuration whose debug flag is determined by the flags in the key. */
  predicate Made(c: CompileConfig) {
    && (c.debug <==> AnyDebug(c.ccFlags))
    && forall k :: 0 <= k < |c.ccFlags| ==> Lines.NewlineFree(c.ccFlags[k])
  }

  lemma AnyDebugAppend(flags: seq<string>, f: string)
    ensures AnyDebug(flags + [f]) <==> AnyDebug(flags) || TurnsDebugOn(f)
  {
    if AnyDebug(flags) {
      var k :| 0 <= k < |flags| && TurnsDebugOn(flags[k]);
      assert TurnsDebugOn((flags + [f])[k]);
    }
    if TurnsDebugOn(f) {
      assert TurnsDebugOn((flags + [f])[|flags|]);
    }
  }

  /** pp and cc are the shares of the first i flags. */
  ghost predicate Shared(cflags: seq<string>, i: nat, pp: seq<string>, cc: seq<string>) {
    i <= |cflags| && pp + Shares(cflags, i).0 == Shares(cflags, 0).0 && cc + Shares(cflags, i).1 == Shares(cflags, 0).1
  }

  lemma ShareStart(cflags: seq<string>)
    ensures Shared(cflags, 0, [], [])
  {
  }

  /** Moving the flags from i up to next into the shares; the flags taken are pp' and cc'. */
  lemma ShareStep(cflags: seq<string>, i: nat, pp: seq<string>, cc: seq<string>, next: nat, pp': seq<string>,
                  cc': seq<string>)
    requires Shared(cflags, i, pp, cc) && next <= |cflags|
    requires Shares(cflags, i) == (pp' + Shares(cflags, next).0, cc' + Shares(cflags, next).1)
    ensures Shared(cflags, next, pp + pp', cc + cc')
  {
    assert pp + (pp' + Shares(cflags, next).0) == pp + pp' + Shares(cflags, next).0;
    assert cc + (cc' + Shares(cflags, next).1) == cc + cc' + Shares(cflags, next).1;
  }

  lemma ShareEnd(cflags: seq<string>, pp: seq<string>, cc: seq<string>)
    requires Shared(cflags, |cflags|, pp, cc)
    ensures (pp, cc) == Shares(cflags, 0)
  {
    assert pp + [] == pp && cc + [] == cc;
  }

  /** What the flag at i adds to the shares. */
  lemma ShareAt(cflags: seq<string>, i: nat, pp: seq<string>, cc: seq<string>)
    requires Shared(cflags, i, pp, cc) && i < |cflags|
    ensures !ForPreprocessor(cflags[i]) ==> Shared(cflags, i + 1, pp, cc + [cflags[i]])
    ensures ForPreprocessor(cflags[i]) && TakesNextWord(cflags[i]) && i + 1 < |cflags| ==>
              Shared(cflags, i + 2, pp + [cflags[i]] + [cflags[i + 1]], cc)
    ensures ForPreprocessor(cflags[i]) && !(TakesNextWord(cflags[i]) && i + 1 < |cflags|) ==>
              Shared(cflags, i + 1, pp + [cflags[i]], cc)
  {
    var f := cflags[i];
    if !ForPreprocessor(f) {
      assert [] + Shares(cflags, i + 1).0 == Shares(cflags, i + 1).0 && pp + [] == pp;
      ShareStep(cflags, i, pp, cc, i + 1, [], [f]);
    } else if TakesNextWord(f) && i + 1 < |cflags| {
      assert [] + Shares(cflags, i + 2).1 == Shares(cflags, i + 2).1 && cc + [] == cc;
      ShareStep(cflags, i, pp, cc, i + 2, [f, cflags[i + 1]], []);
      assert pp + [f, cflags[i + 1]] == pp + [f] + [cflags[i + 1]];
    } else {
      assert [] + Shares(cflags, i + 1).1 == Shares(cflags, i + 1).1 && cc + [] == cc;
      ShareStep(cflags, i, pp, cc, i + 1, [f], []);
    }
  }

  method MakeConfig(driver: string, lang: string, toolchain: string, cflags: seq<string>) returns (c: CompileConfig)
    ensures c.driver == driver && c.lang == lang && c.toolchain == toolchain
    ensures (c.ppFlags, c.ccFlags) == Shares(cflags, 0)
    ensures c.debug <==>
            exists k :: 0 <= k < |c.ccFlags| && |c.ccFlags[k]| >= 2 && c.ccFlags[k][..2] == "-g"
              && c.ccFlags[k] != "-g0"
    ensures (forall k :: 0 <= k < |cflags| ==> Lines.NewlineFree(cflags[k])) ==> Made(c)
  {
    c := CompileConfig(driver, lang, toolchain, [], [], false);
    ShareStart(cflags);
    var i := 0;
    while i < |cflags|
      invariant c.driver == driver && c.lang == lang && c.toolchain == toolchain
      invariant Shared(cflags, i, c.ppFlags, c.ccFlags)
      invariant c.debug <==> AnyDebug(c.ccFlags)
      invariant forall k :: 0 <= k < |c.ccFlags| ==> c.ccFlags[k] in cflags
    {
      ShareAt(cflags, i, c.ppFlags, c.ccFlags);
      var f := cflags[i];
      if ForPreprocessor(f) {
        c := c.(ppFlags := c.ppFlags + [f]);
        if TakesNextWord(f) && i + 1 < |cflags| {
          i := i + 1;
          c := c.(ppFlags := c.ppFlags + [cflags[i]]);
        }
      } else {
        AnyDebugAppend(c.ccFlags, f);
        c := c.(ccFlags := c.ccFlags + [f]);
        if StartsWith(f, "-g") && f != "-g0" {
          c := c.(debug := true);
        }
      }
      i := i + 1;
    }
    ShareEnd(cflags, c.ppFlags, c.ccFlags);
  }

  // ---- lines

  /** The end of the line that b lies on: the next newline, or the end of the text. */
  function LineEnd(text: string, b: nat): (e: nat)
    requires b <= |text|
    ensures b <= e <= |text|
    ensures forall k :: b <= k < e ==> text[k] != '\n'
    ensures e < |text| ==> text[e] == '\n'
    decreases |text| - b
  {
    if b < |text| && text[b] != '\n' then LineEnd(text, b + 1) else b
  }

  /** The lines that start at b or later; a newline at the end of the text does not start another. */
  function LinesFrom(text: string, b: nat): (v: seq<string>)
    ensures forall k :: 0 <= k < |v| ==> Lines.NewlineFree(v[k])
    decreases |text| - b
  {
    if b >= |text| then []
    else
      var e := LineEnd(text, b);
      [text[b..e]] + LinesFrom(text, e + 1)
  }

  function TextLines(text: string): (v: seq<string>)
    ensures forall k :: 0 <= k < |v| ==> Lines.NewlineFree(v[k])
  {
    LinesFrom(text, 0)
  }

  /** Every line with a newline behind it. */
  function Unlines(v: seq<string>): string {
    if v == [] then "" else v[0] + ("\n" + Unlines(v[1..]))
  }

  predicate IsDigit(c: char) { '0' <= c <= '9' }

  predicate IsSpace(c: char) { c == ' ' || c == '\t' || c == '\r' }

  /** "# <digits> ..." */
  predicate IsMarker(line: string) { |line| > 2 && line[0] == '#' && line[1] == ' ' && IsDigit(line[2]) }

  predicate IsBlank(line: string) { forall k :: 0 <= k < |line| ==> IsSpace(line[k]) }

  predicate IsSource(line: string) { !IsMarker(line) && !IsBlank(line) }

  function SourceAmong(lines: seq<string>): (v: seq<string>)
    ensures (forall k :: 0 <= k < |lines| ==> Lines.NewlineFree(lines[k])) ==> forall k :: 0 <= k < |v| ==>
              Lines.NewlineFree(v[k])
  {
    if lines == [] then []
    else (if IsSource(lines[0]) then [lines[0]] else []) + SourceAmong(lines[1..])
  }

  /** The lines that can change an object file: neither line markers nor blank. */
  function SourceLines(text: string): (v: seq<string>)
    ensures forall k :: 0 <= k < |v| ==> Lines.NewlineFree(v[k])
  {
    SourceAmong(TextLines(text))
  }

  function Strip(text: string): string { Unlines(SourceLines(text)) }

  lemma {:induction false} UnlinesInjective(v: seq<string>, w: seq<string>)
    requires forall k :: 0 <= k < |v| ==> Lines.NewlineFree(v[k])
    requires forall k :: 0 <= k < |w| ==> Lines.NewlineFree(w[k])
    requires Unlines(v) == Unlines(w)
    ensures v == w
  {
    if v != [] && w != [] {
      UnlinesHead(v);
      UnlinesHead(w);
      UnlinesInjective(v[1..], w[1..]);
    }
  }

  lemma UnlinesHead(v: seq<string>)
    requires v != [] && Lines.NewlineFree(v[0])
    ensures var s := Unlines(v);
            && Lines.FirstNewline(s) == |v[0]| < |s|
            && s[..|v[0]|] == v[0] && s[|v[0]| + 1..] == Unlines(v[1..])
  {
    var s := Unlines(v);
    assert s[..|v[0]|] == v[0] && s[|v[0]|] == '\n';
    Lines.FirstNewlineIs(s, |v[0]|);
  }

  // ---- the loop over the text

  predicate IsMarkerAt(text: string, b: nat) {
    b + 2 < |text| && text[b] == '#' && text[b + 1] == ' ' && IsDigit(text[b + 2])
  }

  /** The first position from b on that holds none of the three space characters, or the length. */
  function FirstNonSpace(text: string, b: nat): (p: nat)
    requires b <= |text|
    ensures b <= p <= |text|
    ensures forall k :: b <= k < p ==> IsSpace(text[k])
    ensures p < |text| ==> !IsSpace(text[p])
    decreases |text| - b
  {
    if b < |text| && IsSpace(text[b]) then FirstNonSpace(text, b + 1) else b
  }

  /** Looking for a marker from the start of a line sees what looking at the line would. */
  lemma MarkerAtLine(text: string, b: nat, e: nat)
    requires b <= e <= |text| && (e < |text| ==> text[e] == '\n')
    ensures IsMarkerAt(text, b) <==> IsMarker(text[b..e])
  {
  }

  /** The search for something other than space stays within the line exactly when the line is not blank. */
  lemma BlankLine(text: string, b: nat, e: nat)
    requires b <= e <= |text| && (e < |text| ==> text[e] == '\n')
    ensures FirstNonSpace(text, b) >= e <==> IsBlank(text[b..e])
  {
    var p, line := FirstNonSpace(text, b), text[b..e];
    assert forall k :: 0 <= k < |line| ==> line[k] == text[b + k];
    if p < e {
      assert !IsSpace(line[p - b]);
    }
  }

  lemma SourceAmongHead(line: string, rest: seq<string>)
    ensures SourceAmong([line] + rest) == (if IsSource(line) then [line] else []) + SourceAmong(rest)
  {
    assert ([line] + rest)[1..] == rest;
  }

  lemma UnlinesAppendHead(out: string, line: string, rest: seq<string>)
    ensures out + Unlines([line] + rest) == out + line + "\n" + Unlines(rest)
  {
    assert ([line] + rest)[1..] == rest;
  }

  /** What is left of the text from b on. */
  ghost function StrippedFrom(text: string, b: nat): string { Unlines(SourceAmong(LinesFrom(text, b))) }

  lemma StripLine(text: string, b: nat, e: nat, out: string)
    requires b < |text| && e == LineEnd(text, b)
    ensures out + StrippedFrom(text, b) ==
            (if IsSource(text[b..e]) then out + text[b..e] + "\n" else out) + StrippedFrom(text, e + 1)
  {
    var line, rest := text[b..e], SourceAmong(LinesFrom(text, e + 1));
    SourceAmongHead(line, LinesFrom(text, e + 1));
    if IsSource(line) {
      UnlinesAppendHead(out, line, rest);
    } else {
      assert [] + rest == rest;
    }
  }

  /** The test of the loop, on positions in the text. */
  method KeepsLine(text: string, b: nat, e: nat) returns (keep: bool)
    requires b < |text| && e == LineEnd(text, b)
    ensures keep == IsSource(text[b..e])
  {
    MarkerAtLine(text, b, e);
    BlankLine(text, b, e);
    var blank := FirstNonSpace(text, b) >= e;
    keep := !IsMarkerAt(text, b) && !blank;
  }

  method StripLineMarkers(text: string) returns (out: string)
    ensures out == Strip(text)
  {
    out := "";
    var b := 0;
    while b < |text|
      invariant Strip(text) == out + StrippedFrom(text, b)
      decreases |text| - b
    {
      var e := LineEnd(text, b);
      StripLine(text, b, e, out);
      var keep := KeepsLine(text, b, e);
      if keep {
        out := out + text[b..e];
        out := out + "\n";
      }
      b := e + 1;
    }
    assert out + "" == out;
  }

  // ---- the compile key

  predicate Normalizes(c: CompileConfig) { !c.debug && c.lang == "c" }

  function KeyText(c: CompileConfig, text: string): string { if Normalizes(c) then Strip(text) else text }

  function CompileParts(c: CompileConfig, text: string): seq<string> {
    ["dc-compile-v1", c.toolchain, c.lang, Unlines(c.ccFlags), KeyText(c, text)]
  }

  predicate AllFit(parts: seq<string>) { forall k :: 0 <= k < |parts| ==> Fits(parts[k]) }

  /**
    Two compiles feed the same bytes to the hash if and only if toolchain, language and compiler flags agree and so do
    the texts, of which C without debug information only looks at the lines that are neither blank nor markers.
   */
  lemma KeysEqualWhen(c: CompileConfig, text: string, c': CompileConfig, text': string)
    requires Made(c) && Made(c') && AllFit(CompileParts(c, text)) && AllFit(CompileParts(c', text'))
    ensures Encode(CompileParts(c, text)) == Encode(CompileParts(c', text')) <==>
            c.toolchain == c'.toolchain && c.lang == c'.lang && c.ccFlags == c'.ccFlags
            && if c.lang == "c" && !c.debug then SourceLines(text) == SourceLines(text') else text == text'
  {
    var p, q := CompileParts(c, text), CompileParts(c', text');
    if Encode(p) == Encode(q) {
      EncodeInjective(p, q);
      assert p[1] == q[1] && p[2] == q[2] && p[3] == q[3] && p[4] == q[4];
      UnlinesInjective(c.ccFlags, c'.ccFlags);
      if Normalizes(c) {
        UnlinesInjective(SourceLines(text), SourceLines(text'));
      }
    }
  }

  lemma UnlinesStep(v: seq<string>, i: nat, front: string)
    requires i < |v|
    ensures front + Unlines(v[i..]) == front + v[i] + "\n" + Unlines(v[i + 1..])
  {
    assert v[i..][0] == v[i] && v[i..][1..] == v[i + 1..];
    UnlinesAppendHead(front, v[i], v[i + 1..]);
    assert [v[i]] + v[i + 1..] == v[i..];
  }

  method FlagText(flags: seq<string>) returns (text: string)
    ensures text == Unlines(flags)
  {
    text := "";
    assert flags[0..] == flags && flags[|flags|..] == [] && Unlines([]) == "";
    hide *;
    for i := 0 to |flags|
      invariant text + Unlines(flags[i..]) == Unlines(flags)
    {
      UnlinesStep(flags, i, text);
      text := text + flags[i] + "\n";
    }
    assert text + "" == text;
  }

  method CompileKey(hash: string -> string, c: CompileConfig, text: string) returns (key: string)
    ensures key == hash(Encode(CompileParts(c, text)))
  {
    var flags := FlagText(c.ccFlags);
    var body := text;
    if !c.debug && c.lang == "c" {
      body := StripLineMarkers(text);
    }
    key := HashParts(hash, ["dc-compile-v1", c.toolchain, c.lang, flags, body]);
  }

  // ---- the files named by line markers

  function FirstQuote(s: string, b: nat): (q: nat)
    requires b <= |s|
    ensures b <= q <= |s|
    ensures forall k :: b <= k < q ==> s[k] != '"'
    ensures q < |s| ==> s[q] == '"'
    decreases |s| - b
  {
    if b < |s| && s[b] != '"' then FirstQuote(s, b + 1) else b
  }

  /** The file a marker line names: what stands between its first two quotes. */
  function NamedFile(line: string): Option<string> {
    var q1 := FirstQuote(line, 0);
    if q1 == |line| then None
    else
      var q2 := FirstQuote(line, q1 + 1);
      if q2 == |line| then None else Some(line[q1 + 1..q2])
  }

  /** The file a line says was read: markers only, and not the compiler's own "<built-in>" and the like. */
  function RealFile(line: string): Option<string> {
    var f := NamedFile(line);
    if IsMarker(line) && f.Some? && f.value != "" && f.value[0] != '<' then f else None
  }

  /** The files of the lines in the order of first mention. */
  function FilesOf(lines: seq<string>): seq<string> {
    if lines == [] then []
    else
      var last := |lines| - 1;
      var before, f := FilesOf(lines[..last]), RealFile(lines[last]);
      if f.Some? && f.value !in before then before + [f.value] else before
  }

  /** Some line names f. */
  predicate NamedBy(lines: seq<string>, f: string) {
    exists k :: 0 <= k < |lines| && RealFile(lines[k]) == Some(f)
  }

  lemma NamedByLast(lines: seq<string>, f: string)
    requires lines != []
    ensures NamedBy(lines, f) <==> NamedBy(lines[..|lines| - 1], f) || RealFile(lines[|lines| - 1]) == Some(f)
  {
    var front := lines[..|lines| - 1];
    assert forall k :: 0 <= k < |front| ==> lines[k] == front[k];
  }

  /** Each file that some line names is listed, no other, and none twice. */
  lemma {:induction false} FilesOfAreThose(lines: seq<string>)
    ensures forall f :: f in FilesOf(lines) <==> NamedBy(lines, f)
    ensures forall j, k :: 0 <= j < k < |FilesOf(lines)| ==> FilesOf(lines)[j] != FilesOf(lines)[k]
  {
    if lines != [] {
      FilesOfAreThose(lines[..|lines| - 1]);
      forall f ensures f in FilesOf(lines) <==> NamedBy(lines, f) {
        NamedByLast(lines, f);
      }
    }
  }

  lemma FirstQuoteAt(s: string, b: nat, q: nat)
    requires b <= q <= |s| && (q < |s| ==> s[q] == '"') && forall k :: b <= k < q ==> s[k] != '"'
    ensures FirstQuote(s, b) == q
    decreases q - b
  {
    if b < q {
      FirstQuoteAt(s, b + 1, q);
    }
  }

  /** The first quote of a stretch of text, found by searching all of it. */
  lemma QuoteWithin(text: string, b: nat, e: nat, k: nat)
    requires b <= k <= e <= |text|
    ensures FirstQuote(text[b..e], k - b) == var q := FirstQuote(text, k); if q < e then q - b else e - b
  {
    var line, q := text[b..e], FirstQuote(text, k);
    assert forall j :: 0 <= j < |line| ==> line[j] == text[b + j];
    FirstQuoteAt(line, k - b, if q < e then q - b else e - b);
  }

  lemma SliceOfSlice(text: string, b: nat, e: nat, i: nat, j: nat)
    requires b <= e <= |text| && i <= j <= e - b
    ensures text[b..e][i..j] == text[b + i..b + j]
  {
    var x, y := text[b..e][i..j], text[b + i..b + j];
    assert |x| == |y|;
    assert forall k :: 0 <= k < |x| ==> x[k] == y[k];
  }

  /** Searching the text for quotes, and checking that the second lies within the line, searches the line. */
  lemma QuotesAt(text: string, b: nat, e: nat)
    requires b <= e <= |text|
    ensures var q1 := FirstQuote(text, b);
            var q2 := if q1 == |text| then q1 else FirstQuote(text, q1 + 1);
            if q2 < e then q1 < q2 && NamedFile(text[b..e]) == Some(text[q1 + 1..q2])
            else NamedFile(text[b..e]) == None
  {
    hide FirstQuote;
    QuoteWithin(text, b, e, b);
    var q1 := FirstQuote(text, b);
    if q1 < e {
      QuoteWithin(text, b, e, q1 + 1);
      var q2 := FirstQuote(text, q1 + 1);
      if q2 < e {
        SliceOfSlice(text, b, e, q1 - b + 1, q2 - b);
      }
    }
  }

  /** The lines in front of position b are done. */
  ghost predicate ReadUpTo(text: string, done: seq<string>, b: nat) { TextLines(text) == done + LinesFrom(text, b) }

  lemma OneMoreLine(text: string, done: seq<string>, b: nat, e: nat)
    requires b < |text| && e == LineEnd(text, b) && ReadUpTo(text, done, b)
    ensures ReadUpTo(text, done + [text[b..e]], e + 1)
  {
    assert LinesFrom(text, b) == [text[b..e]] + LinesFrom(text, e + 1);
  }

  lemma FilesOfOneMore(done: seq<string>, line: string)
    ensures FilesOf(done + [line]) ==
            var f := RealFile(line);
            if f.Some? && f.value !in FilesOf(done) then FilesOf(done) + [f.value] else FilesOf(done)
  {
    assert (done + [line])[..|done|] == done;
  }

  /** The file named on the line from b to e. */
  method FileAt(text: string, b: nat, e: nat) returns (f: Option<string>)
    requires b < |text| && e == LineEnd(text, b)
    ensures f == RealFile(text[b..e])
  {
    MarkerAtLine(text, b, e);
    if !IsMarkerAt(text, b) {
      return None;
    }
    QuotesAt(text, b, e);
    var q1 := FirstQuote(text, b);
    var q2 := if q1 == |text| then q1 else FirstQuote(text, q1 + 1);
    if q2 >= e {
      return None;
    }
    var name := text[q1 + 1..q2];
    f := if name != "" && name[0] != '<' then Some(name) else None;
  }

  /** seen holds the items of out. */
  ghost predicate HoldsAll(seen: set<string>, out: seq<string>) { forall f :: f in seen <==> f in out }

  lemma NothingRead(text: string)
    ensures ReadUpTo(text, [], 0) && FilesOf([]) == []
  {
    assert TextLines(text) == [] + LinesFrom(text, 0);
  }

  lemma NoLinesLeft(text: string, done: seq<string>, b: nat)
    requires b >= |text| && ReadUpTo(text, done, b)
    ensures done == TextLines(text)
  {
    assert done + [] == done;
  }

  lemma HoldsNothing()
    ensures HoldsAll({}, [])
  {
  }

  method AddNew(seen0: set<string>, out0: seq<string>, f: string) returns (seen: set<string>, out: seq<string>)
    requires HoldsAll(seen0, out0)
    ensures HoldsAll(seen, out) && out == if f in out0 then out0 else out0 + [f]
  {
    seen, out := seen0, out0;
    if f !in seen {
      seen := seen + {f};
      out := out + [f];
    }
  }

  method MarkerFiles(text: string) returns (out: seq<string>)
    ensures out == FilesOf(TextLines(text))
  {
    out := [];
    var seen: set<string> := {};
    var b := 0;
    ghost var done: seq<string> := [];
    NothingRead(text);
    HoldsNothing();
    hide *;
    while b < |text|
      invariant ReadUpTo(text, done, b)
      invariant out == FilesOf(done) && HoldsAll(seen, out)
      decreases |text| - b
    {
      var e := LineEnd(text, b);
      OneMoreLine(text, done, b, e);
      FilesOfOneMore(done, text[b..e]);
      var f := FileAt(text, b, e);
      done := done + [text[b..e]];
      if f.Some? {
        seen, out := AddNew(seen, out, f.value);
      }
      b := e + 1;
    }
    NoLinesLeft(text, done, b);
  }
}
