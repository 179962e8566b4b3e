/**
  Where lines start in the text of the state file. Whatever is read, white space is skipped first, so a load that went
  wrong is back at the start of a line once it fails or a path is read; from there on it sees no source but those of
  the units that follow.
 */
module StateLines {
  import opened TextStream
  import opened StateFile
  import opened StateReads

  // ---- where lines start in the text of units

  ghost predicate KeptReadable(units: seq<Unit>) {
    forall i :: 0 <= i < |units| && Kept(units[i]) ==> Readable(units[i])
  }

  /** The text of the units behind unit i. */
  function Behind(units: seq<Unit>, i: nat): string
    requires i < |units|
  {
    UnitsText(units[i + 1..])
  }

  /** The text behind the first k stamps of unit i. */
  function BehindStamps(units: seq<Unit>, i: nat, k: nat): string
    requires i < |units| && k <= |units[i].deps|
  {
    StampsText(units[i].deps[k..], Behind(units, i))
  }

  ghost predicate UnitStart(t: string, units: seq<Unit>, i: int) { 0 <= i <= |units| && t == UnitsText(units[i..]) }

  ghost predicate StampStart(t: string, units: seq<Unit>, i: int, k: int) {
    0 <= i < |units| && Kept(units[i]) && 0 <= k <= |units[i].deps| && t == BehindStamps(units, i, k)
  }

  /** A line starts at t: a unit's, from unit number n on, or a stamp's, from the unit before on. */
  ghost predicate LineStart(t: string, units: seq<Unit>, n: int) {
    (exists i :: n <= i && UnitStart(t, units, i)) || (exists i, k :: n - 1 <= i && StampStart(t, units, i, k))
  }

  /** What a line that starts at t is: nothing, a unit's first line (k is -1), or stamp k of unit i. */
  ghost predicate IsLine(t: string, units: seq<Unit>, n: int, i: nat, k: int) {
    t != "" ==>
      && (if k == -1 then n <= i else n - 1 <= i)
      && i < |units| && Kept(units[i]) && -1 <= k < |units[i].deps|
      && t == if k == -1 then UnitText(units[i], Behind(units, i))
        else StampText(units[i].deps[k], BehindStamps(units, i, k + 1))
  }

  lemma {:induction false} FirstKept(t: string, units: seq<Unit>, i: nat) returns (j: nat)
    requires UnitStart(t, units, i)
    ensures i <= j && IsLine(t, units, i, j, -1)
    decreases |units| - i
  {
    if i == |units| {
      j := i;
    } else {
      assert units[i..][0] == units[i] && units[i..][1..] == units[i + 1..];
      if Kept(units[i]) {
        j := i;
      } else {
        j := FirstKept(t, units, i + 1);
      }
    }
  }

  lemma Shape(t: string, units: seq<Unit>, n: int) returns (i: nat, k: int)
    requires LineStart(t, units, n)
    ensures IsLine(t, units, n, i, k)
  {
    hide UnitText, StampText;
    if j :| n <= j && UnitStart(t, units, j) {
      i := FirstKept(t, units, j);
      k := -1;
    } else {
      var j, h :| n - 1 <= j && StampStart(t, units, j, h);
      var deps := units[j].deps;
      if h == |deps| {
        assert deps[h..] == [];
        i := FirstKept(t, units, j + 1);
        k := -1;
      } else {
        i, k := j, h;
        assert deps[h..][0] == deps[h] && deps[h..][1..] == deps[h + 1..];
      }
    }
  }

  lemma IntTextIs(n: int)
    ensures IsWord(IntText(n)) && IntText(n) != "tu" && NoBreak(IntText(n))
  {
    hide Digits;
    var d := Digits(if n < 0 then -n else n);
    assert IsDigit(d[0]);
    assert IntText(n) == if n < 0 then "-" + d else d;
    assert IntText(n)[0] == '-' || IsDigit(IntText(n)[0]);
  }

  /** A line in the middle of the text: what is on it, and where the next one starts. */
  ghost predicate LineThenLine(t: string, units: seq<Unit>, n: int) {
    && 0 < LineLength(t) < |t| && !IsSpace(t[0])
    && LineStart(t[LineLength(t) + 1..], units, n)
  }

  lemma StampLineEnds(f: FileStamp, rest: string)
    requires ReadableStamp(f)
    ensures var t := StampText(f, rest); 0 < LineLength(t) < |t| && !IsSpace(t[0]) && t[LineLength(t) + 1..] == rest
  {
    hide IntText, LineLength;
    IntTextIs(f.mtime);
    IntTextIs(f.size);
    var line := IntText(f.mtime) + " " + IntText(f.size) + " " + f.path;
    StampLine("", f, rest);
    assert "" + IntText(f.mtime) + " " + IntText(f.size) + " " + f.path + "\n" + rest == line + ("\n" + rest);
    assert "" + StampText(f, rest) == StampText(f, rest);
    LineThere(line, rest);
    assert StampText(f, rest)[|line| + 1..] == rest;
    assert line[0] == IntText(f.mtime)[0];
  }

  /** The first line of a unit. */
  function HeadLine(u: Unit): string {
    "tu " + u.src + " " + u.key + " " + u.digest + " " + IntText(u.cost) + " " + IntText(|u.deps|)
  }

  lemma HeadLineHasNoBreak(u: Unit)
    requires Readable(u) && Kept(u)
    ensures NoBreak(HeadLine(u))
  {
    hide IntText, IsWord, NoBreak;
    IntTextIs(u.cost);
    IntTextIs(|u.deps|);
    WordsDoNotBreak(u.src);
    WordsDoNotBreak(u.key);
    WordsDoNotBreak(u.digest);
    NoBreakBehind("tu ", u.src);
    NoBreakBehind("tu " + u.src + " ", u.key);
    NoBreakBehind("tu " + u.src + " " + u.key + " ", u.digest);
    NoBreakBehind("tu " + u.src + " " + u.key + " " + u.digest + " ", IntText(u.cost));
    NoBreakBehind("tu " + u.src + " " + u.key + " " + u.digest + " " + IntText(u.cost) + " ", IntText(|u.deps|));
  }

  lemma UnitTextIs(u: Unit, rest: string)
    ensures UnitText(u, rest) == HeadLine(u) + ("\n" + StampsText(u.deps, rest))
  {
    hide IntText, StampsText, UnitText;
    UnitLine("", u, rest);
    assert "" + UnitText(u, rest) == UnitText(u, rest);
  }

  lemma UnitLineEnds(u: Unit, rest: string)
    requires Readable(u) && Kept(u)
    ensures var t := UnitText(u, rest);
            0 < LineLength(t) < |t| && !IsSpace(t[0]) && t[LineLength(t) + 1..] == StampsText(u.deps, rest)
  {
    hide IntText, LineLength, StampsText, UnitText, NoBreak, Readable;
    UnitTextIs(u, rest);
    HeadLineHasNoBreak(u);
    LineOf(HeadLine(u), StampsText(u.deps, rest));
  }

  lemma LineOf(line: string, tail: string)
    requires NoBreak(line)
    ensures LineLength(line + ("\n" + tail)) == |line|
  {
    LineThere(line, tail);
  }

  predicate NoBreak(s: string) { forall k :: 0 <= k < |s| ==> s[k] != '\n' }

  lemma NoBreakBehind(a: string, b: string)
    requires NoBreak(a) && NoBreak(b)
    ensures NoBreak(a + b) && NoBreak(a + b + " ")
  {
  }

  lemma WordsDoNotBreak(w: string)
    requires w == "" || IsWord(w)
    ensures NoBreak(w)
  {
  }

  lemma NextLine(t: string, units: seq<Unit>, n: int)
    requires LineStart(t, units, n) && KeptReadable(units) && t != ""
    ensures LineThenLine(t, units, n)
  {
    hide UnitText, StampText, LineLength;
    var i, k := Shape(t, units, n);
    var deps := units[i].deps;
    if k == -1 {
      UnitLineEnds(units[i], Behind(units, i));
      assert deps[0..] == deps;
      assert StampStart(StampsText(deps, Behind(units, i)), units, i, 0);
    } else {
      StampLineEnds(deps[k], BehindStamps(units, i, k + 1));
      assert StampStart(BehindStamps(units, i, k + 1), units, i, k + 1);
    }
  }

  // ---- reading from the start of a line

  /** Once white space is skipped, the stream is at the start of a line. */
  ghost predicate AtLine(s: Stream, units: seq<Unit>, n: int) { s.ok ==> LineStart(SkipSpace(s.rest), units, n) }

  lemma LineIsSkipped(t: string, units: seq<Unit>, n: int)
    requires LineStart(t, units, n) && KeptReadable(units)
    ensures SkipSpace(t) == t
  {
    if t != "" { NextLine(t, units, n); }
  }

  lemma {:induction false} SkipTwice(t: string)
    ensures SkipSpace(SkipSpace(t)) == SkipSpace(t)
  {
    if t != "" && IsSpace(t[0]) { SkipTwice(t[1..]); }
  }

  lemma SkipOne(c: char, t: string)
    requires IsSpace(c)
    ensures SkipSpace([c] + t) == SkipSpace(t)
  {
    assert ([c] + t)[1..] == t;
  }

  lemma SkipNone(t: string)
    requires t == "" || !IsSpace(t[0])
    ensures SkipSpace(t) == t
  {
  }

  /** The rest of the line behind an empty path is the next line, or nothing at the end of the file. */
  lemma EmptyPath(t: string)
    requires t == "" || !IsSpace(t[0])
    ensures ReadLine(Stream(" " + ("" + ("\n" + t)), true)) ==
            if t == "" then (Stream("", false), "")
            else (Stream(if LineLength(t) < |t| then t[LineLength(t) + 1..] else "", true), t[..LineLength(t)])
  {
    hide LineLength, SkipSpace;
    assert "" + ("\n" + t) == "\n" + t;
    SkipOne(' ', "\n" + t);
    SkipOne('\n', t);
    SkipNone(t);
  }

  /** Reading a stamp, whose path may be empty, from where it starts. */
  lemma ReadsStamp(f: FileStamp, t: string)
    requires ReadableStamp(f) && (t == "" || !IsSpace(t[0]))
    ensures var (s', g) := LoadStamp(Stream(StampText(f, t), true));
            var n := LineLength(t);
            if f.path != "" then s' == Stream(t, true) && g == f
            else if t == "" then !s'.ok && g == f
            else s' == Stream(if n < |t| then t[n + 1..] else "", true) && g.path == t[..n]
  {
    hide ReadInt64, ReadLine, LineLength;
    var t2 := " " + (f.path + ("\n" + t));
    var t1 := " " + (IntText(f.size) + t2);
    assert "" + StampText(f, t) == StampText(f, t);
    ReadsInt64("", f.mtime, t1, 0);
    ReadsInt64(" ", f.size, t2, -1);
    if f.path != "" {
      ReadsLine(" ", f.path, t);
    } else {
      EmptyPath(t);
    }
  }

  lemma StampAdvances(s: Stream, units: seq<Unit>, n: int)
    requires AtLine(s, units, n) && KeptReadable(units)
    ensures AtLine(LoadStamp(s).0, units, n)
  {
    if s.ok {
      var t := SkipSpace(s.rest);
      SkipTwice(s.rest);
      assert LoadStamp(s) == LoadStamp(Stream(t, true)) by { hide ReadLine, ReadNumber; }
      AtStampAdvances(t, units, n);
    }
  }

  lemma NotANumber(t: string)
    requires |t| >= 2 && t[0] == 't'
    ensures forall prior :: !ReadInt64(Stream(t, true), prior).0.ok
    ensures !ReadCount(Stream(t, true)).0.ok && ReadCount(Stream(t, true)).1 == 0
  {
  }

  lemma AtStampAdvances(t: string, units: seq<Unit>, n: int)
    requires LineStart(t, units, n) && KeptReadable(units)
    ensures AtLine(LoadStamp(Stream(t, true)).0, units, n)
  {
    hide LoadStamp, StampText, UnitText, LineLength, ReadInt64;
    var i, k := Shape(t, units, n);
    if t == "" || k == -1 {
      NoStampThere(t, units, i);
    } else {
      var tail := BehindStamps(units, i, k + 1);
      assert StampStart(tail, units, i, k + 1);
      LineIsSkipped(tail, units, n);
      if tail != "" { NextLine(tail, units, n); }
      ReadsStamp(units[i].deps[k], tail);
      if tail != "" { LineIsSkipped(tail[LineLength(tail) + 1..], units, n); }
    }
  }

  lemma NoStampThere(t: string, units: seq<Unit>, i: nat)
    requires t == "" || (i < |units| && t == UnitText(units[i], Behind(units, i)))
    ensures !LoadStamp(Stream(t, true)).0.ok
  {
    if t != "" {
      NotANumber(t);
    }
  }

  lemma {:induction false} StampsAdvance(s: Stream, count: nat, units: seq<Unit>, n: int)
    requires AtLine(s, units, n) && KeptReadable(units)
    ensures AtLine(LoadStamps(s, count).0, units, n)
  {
    hide LoadStamp, AtLine;
    if count > 0 {
      StampsAdvance(s, count - 1, units, n);
      StampAdvances(LoadStamps(s, count - 1).0, units, n);
    }
  }

  /** What reading a unit from behind its tag comes to, up to its stamps. */
  lemma UnitHead(u: Unit, rest: string)
    requires Readable(u) && Kept(u) && IsWord(u.digest)
    ensures var (s, deps) := LoadStamps(Stream("\n" + StampsText(u.deps, rest), true), |u.deps|);
            LoadUnit(Stream(UnitText(u, rest)[2..], true)) == (s, u.(deps := deps, error := ""))
  {
    hide ReadWord, ReadInt64, ReadCount, LoadStamps, StampsText, IntText;
    var t5 := "\n" + StampsText(u.deps, rest);
    var t4 := " " + (IntText(|u.deps|) + t5);
    var t3 := " " + (IntText(u.cost) + t4);
    var t2 := " " + (u.digest + t3);
    var t1 := " " + (u.key + t2);
    var t0 := " " + (u.src + t1);
    assert UnitText(u, rest)[2..] == t0;
    ReadsWord(" ", u.src, t1, "");
    ReadsWord(" ", u.key, t2, "");
    ReadsWord(" ", u.digest, t3, "");
    ReadsInt64(" ", u.cost, t4, 0);
    ReadsCount(" ", |u.deps|, t5);
  }

  /** Without a digest the cost is read as one, the count as the cost, and no count is found. */
  lemma UnitWithoutDigest(u: Unit, rest: string)
    requires Readable(u) && Kept(u) && u.digest == "" && (rest == "" || rest[0] == 't') && |rest| != 1
    ensures var (s, v) := LoadUnit(Stream(UnitText(u, rest)[2..], true)); !s.ok && v.src == u.src && v.digest != ""
  {
    hide ReadWord, ReadInt64, ReadNumber, IntText;
    var t5 := "\n" + rest;
    var t4 := " " + (IntText(0) + t5);
    var t3 := " " + (IntText(u.cost) + t4);
    var t2 := " " + ("" + t3);
    var t1 := " " + (u.key + t2);
    var t0 := " " + (u.src + t1);
    assert StampsText(u.deps, rest) == rest;
    assert UnitText(u, rest)[2..] == t0;
    IntTextIs(u.cost);
    ReadsWord(" ", u.src, t1, "");
    ReadsWord(" ", u.key, t2, "");
    assert t2 == "  " + (IntText(u.cost) + t4);
    ReadsWord("  ", IntText(u.cost), t4, "");
    ReadsInt64(" ", 0, t5, 0);
    SkipLead("\n", rest);
    if rest != "" { NotANumber(rest); }
  }

  /** Reading a unit leaves the stream at a line, or failed; and it has the unit's source. */
  lemma UnitAdvances(units: seq<Unit>, i: nat)
    requires KeptReadable(units) && i < |units| && Kept(units[i])
    ensures var (s, v) := LoadUnit(Stream(UnitText(units[i], Behind(units, i))[2..], true));
            AtLine(s, units, i + 1) && v.src == units[i].src
  {
    hide LoadUnit, UnitText, StampsText, SkipSpace, LoadStamps;
    var u, rest := units[i], Behind(units, i);
    assert UnitStart(rest, units, i + 1);
    if u.digest == "" {
      RestStarts(units, i + 1);
      UnitWithoutDigest(u, rest);
    } else {
      UnitHead(u, rest);
      var t := StampsText(u.deps, rest);
      assert u.deps[0..] == u.deps;
      assert StampStart(t, units, i, 0);
      LineIsSkipped(t, units, i + 1);
      SkipOne('\n', t);
      StampsAdvance(Stream("\n" + t, true), |u.deps|, units, i + 1);
    }
  }

  lemma RestStarts(units: seq<Unit>, i: nat)
    requires i <= |units|
    ensures var rest := UnitsText(units[i..]); rest == "" || (|rest| >= 2 && rest[0] == 't')
  {
    var j := FirstKept(UnitsText(units[i..]), units, i);
  }

  /** Loading goes on only at units of the list, so it leaves any other source alone. */
  lemma {:induction false} OnlyTheirs(s: Stream, m: map<string, Unit>, units: seq<Unit>, n: nat, src: string)
    requires AtLine(s, units, n) && KeptReadable(units) && src in m
    requires forall i :: n <= i < |units| && Kept(units[i]) ==> units[i].src != src
    ensures src in LoadUnits(s, m) && LoadUnits(s, m)[src] == m[src]
    decreases |s.rest|
  {
    hide LoadUnit, UnitText, StampText, SkipSpace, LineStart;
    var (s', tag) := ReadWord(s, "");
    if s'.ok && tag == "tu" {
      var t := SkipSpace(s.rest);
      SkipTwice(s.rest);
      var i, k := Shape(t, units, n);
      assert ReadWord(s, "") == ReadWord(Stream(t, true), "");
      if k == -1 {
        TagThere(units[i], Behind(units, i));
        UnitAdvances(units, i);
        UnitShrinks(s');
        var (s'', v) := LoadUnit(s');
        OnlyTheirs(s'', m[v.src := v], units, i + 1, src);
      } else {
        NoTagThere(units[i].deps[k], BehindStamps(units, i, k + 1));
        assert false;
      }
    }
  }

  lemma TagThere(u: Unit, rest: string)
    ensures ReadWord(Stream(UnitText(u, rest), true), "") == (Stream(UnitText(u, rest)[2..], true), "tu")
  {
    hide ReadWord;
    var t := UnitText(u, rest);
    assert "" + ("tu" + t[2..]) == t;
    ReadsWord("", "tu", t[2..], "");
  }

  lemma NoTagThere(f: FileStamp, rest: string)
    ensures ReadWord(Stream(StampText(f, rest), true), "").1 != "tu"
  {
    hide ReadWord, IntText;
    IntTextIs(f.mtime);
    var tail := " " + (IntText(f.size) + (" " + (f.path + ("\n" + rest))));
    assert "" + (IntText(f.mtime) + tail) == StampText(f, rest);
    ReadsWord("", IntText(f.mtime), tail, "");
  }
}
