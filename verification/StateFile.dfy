/** The client's incremental state file: printing and loading. */
module StateFile {
  import opened Wrappers
  import opened TextStream

  datatype FileStamp = FileStamp(mtime: int, size: int, path: string)

  /** What is remembered of a translation unit. */
  datatype Unit = Unit(src: string, key: string, digest: string, cost: int, deps: seq<FileStamp>, error: string)

  // ---- loading

  function LoadStamp(s: Stream): (Stream, FileStamp) {
    var (s1, mtime) := ReadInt64(s, 0);
    var (s2, size) := ReadInt64(s1, -1);
    var (s3, path) := ReadLine(s2);
    (s3, FileStamp(mtime, size, path))
  }

  function LoadStamps(s: Stream, n: nat): (Stream, seq<FileStamp>)
    decreases n
  {
    if n == 0 then (s, [])
    else
      var (s', stamps) := LoadStamps(s, n - 1);
      var (s'', stamp) := LoadStamp(s');
      (s'', stamps + [stamp])
  }

  /** The fields of a unit, behind its tag. */
  function LoadUnit(s: Stream): (Stream, Unit) {
    var (s1, src) := ReadWord(s, "");
    var (s2, key) := ReadWord(s1, "");
    var (s3, digest) := ReadWord(s2, "");
    var (s4, cost) := ReadInt64(s3, 0);
    var (s5, n) := ReadCount(s4);
    var (s6, deps) := LoadStamps(s5, n);
    (s6, Unit(src, key, digest, cost, deps, ""))
  }

  lemma StampShrinks(s: Stream)
    ensures |LoadStamp(s).0.rest| <= |s.rest|
  {
    StreamsShrink(s);
    StreamsShrink(ReadInt64(s, 0).0);
    StreamsShrink(ReadInt64(ReadInt64(s, 0).0, -1).0);
  }

  lemma {:induction false} StampsShrink(s: Stream, n: nat)
    ensures |LoadStamps(s, n).0.rest| <= |s.rest|
    decreases n
  {
    if n > 0 {
      StampsShrink(s, n - 1);
      StampShrinks(LoadStamps(s, n - 1).0);
    }
  }

  lemma UnitShrinks(s: Stream)
    ensures |LoadUnit(s).0.rest| <= |s.rest|
  {
    var (s1, _) := ReadWord(s, "");
    var (s2, _) := ReadWord(s1, "");
    var (s3, _) := ReadWord(s2, "");
    var (s4, _) := ReadInt64(s3, 0);
    var (s5, n) := ReadCount(s4);
    StreamsShrink(s);
    StreamsShrink(s1);
    StreamsShrink(s2);
    StreamsShrink(s3);
    StreamsShrink(s4);
    StampsShrink(s5, n);
  }

  /** Units while the next word is their tag; a later unit replaces an earlier one of the same source. */
  function LoadUnits(s: Stream, m: map<string, Unit>): map<string, Unit>
    decreases |s.rest|
  {
    var (s', tag) := ReadWord(s, "");
    if !s'.ok || tag != "tu" then m
    else
      var (s'', u) := LoadUnit(s');
      UnitShrinks(s');
      LoadUnits(s'', m[u.src := u])
  }

  /** The remembered units; none when there is no file, or it was written under another configuration. */
  function Load(file: Option<string>, config: string): map<string, Unit> {
    if file.None? then map[]
    else
      var (s1, header) := ReadWord(Stream(file.value, true), "");
      var (s2, ver) := ReadWord(s1, "");
      var (s3, cfg) := ReadWord(s2, "");
      if !s3.ok || header != "dcstate" || ver != "1" || cfg != config then map[]
      else LoadUnits(s3, map[])
  }

  // ---- saving: each text is followed by the rest of the file

  function StampText(f: FileStamp, rest: string): string {
    IntText(f.mtime) + (" " + (IntText(f.size) + (" " + (f.path + ("\n" + rest)))))
  }

  function StampsText(deps: seq<FileStamp>, rest: string): string {
    if deps == [] then rest else StampText(deps[0], StampsText(deps[1..], rest))
  }

  function UnitText(u: Unit, rest: string): string {
    var t3 := " " + (IntText(u.cost) + (" " + (IntText(|u.deps|) + ("\n" + StampsText(u.deps, rest)))));
    "tu" + (" " + (u.src + (" " + (u.key + (" " + (u.digest + t3))))))
  }

  /** Units with an error, or without a key, are not remembered. */
  predicate Kept(u: Unit) { u.error == "" && u.key != "" }

  function UnitsText(units: seq<Unit>): string {
    if units == [] then ""
    else if Kept(units[0]) then UnitText(units[0], UnitsText(units[1..]))
    else UnitsText(units[1..])
  }

  function Save(config: string, units: seq<Unit>): string {
    "dcstate" + (" " + ("1" + (" " + (config + ("\n" + UnitsText(units))))))
  }

  // ---- what is read back

  predicate GoodStamp(f: FileStamp) { IsInt64(f.mtime) && IsInt64(f.size) && GoodPath(f.path) }

  predicate GoodUnit(u: Unit) {
    && IsWord(u.src) && IsWord(u.key) && IsWord(u.digest) && IsInt64(u.cost) && |u.deps| < WORD
    && forall k :: 0 <= k < |u.deps| ==> GoodStamp(u.deps[k])
  }

  lemma LoadsStamp(lead: string, f: FileStamp, rest: string)
    requires AllSpace(lead) && GoodStamp(f)
    ensures LoadStamp(Stream(lead + StampText(f, rest), true)) == (Stream(rest, true), f)
  {
    var t2 := " " + (f.path + ("\n" + rest));
    var t1 := " " + (IntText(f.size) + t2);
    ReadsInt64(lead, f.mtime, t1, 0);
    ReadsInt64(" ", f.size, t2, -1);
    ReadsLine(" ", f.path, rest);
  }

  /** Reading from s yields f and leaves s'. */
  predicate Yields(s: Stream, s': Stream, f: FileStamp) { LoadStamp(s) == (s', f) }

  lemma {:induction false} LoadsChain(at: seq<Stream>, deps: seq<FileStamp>)
    requires |at| == |deps| + 1 && forall k :: 0 <= k < |deps| ==> Yields(at[k], at[k + 1], deps[k])
    ensures LoadStamps(at[0], |deps|) == (at[|deps|], deps)
    decreases |deps|
  {
    if deps != [] {
      var last := |deps| - 1;
      LoadsChain(at[..|deps|], deps[..last]);
      assert Yields(at[last], at[|deps|], deps[last]);
      assert deps[..last] + [deps[last]] == deps;
    }
  }

  /** What is left once k stamps are read. */
  function AfterStamps(lead: string, deps: seq<FileStamp>, rest: string, k: nat): string
    requires k <= |deps|
  {
    if k == 0 then lead + StampsText(deps, rest) else StampsText(deps[k..], rest)
  }

  lemma LoadsNext(lead: string, deps: seq<FileStamp>, rest: string, k: nat)
    requires AllSpace(lead) && k < |deps| && GoodStamp(deps[k])
    ensures Yields(Stream(AfterStamps(lead, deps, rest, k), true),
              Stream(AfterStamps(lead, deps, rest, k + 1), true), deps[k])
  {
    var tail := StampsText(deps[k + 1..], rest);
    assert deps[k..][0] == deps[k] && deps[k..][1..] == deps[k + 1..];
    LoadsStamp(if k == 0 then lead else "", deps[k], tail);
    assert "" + StampText(deps[k], tail) == StampText(deps[k], tail);
  }

  lemma LoadsStamps(lead: string, deps: seq<FileStamp>, rest: string)
    requires AllSpace(lead) && forall k :: 0 <= k < |deps| ==> GoodStamp(deps[k])
    ensures LoadStamps(Stream(lead + StampsText(deps, rest), true), |deps|) ==
            (Stream(AfterStamps(lead, deps, rest, |deps|), true), deps)
  {
    hide StampText, LoadStamp;
    var at := seq(|deps| + 1, k requires 0 <= k <= |deps| => Stream(AfterStamps(lead, deps, rest, k), true));
    forall k | 0 <= k < |deps|
      ensures Yields(at[k], at[k + 1], deps[k])
    {
      LoadsNext(lead, deps, rest, k);
    }
    LoadsChain(at, deps);
  }

  /** A unit reads back from behind its tag, leaving at most a newline before what follows it. */
  lemma LoadsUnit(u: Unit, rest: string)
    requires GoodUnit(u) && u.error == ""
    ensures var t := UnitText(u, rest);
            LoadUnit(Stream(t[2..], true)) == (Stream(AfterStamps("\n", u.deps, rest, |u.deps|), true), u)
  {
    var t5 := "\n" + StampsText(u.deps, rest);
    var t4 := " " + (IntText(|u.deps|) + t5);
    var t3 := " " + (IntText(u.cost) + t4);
    var t2 := " " + (u.digest + t3);
    var t1 := " " + (u.key + t2);
    var t0 := " " + (u.src + t1);
    assert UnitText(u, rest)[2..] == t0;
    ReadsWord(" ", u.src, t1, "");
    ReadsWord(" ", u.key, t2, "");
    ReadsWord(" ", u.digest, t3, "");
    ReadsInt64(" ", u.cost, t4, 0);
    ReadsCount(" ", |u.deps|, t5);
    LoadsStamps("\n", u.deps, rest);
  }

  /** The kept units by source; a later one replaces an earlier one. */
  function Remembered(units: seq<Unit>, m: map<string, Unit>): map<string, Unit> {
    if units == [] then m
    else Remembered(units[1..], if Kept(units[0]) then m[units[0].src := units[0]] else m)
  }

  predicate AllGood(units: seq<Unit>) { forall k :: 0 <= k < |units| && Kept(units[k]) ==> GoodUnit(units[k]) }

  lemma NothingToRead(lead: string)
    requires AllSpace(lead)
    ensures !ReadWord(Stream(lead + "", true), "").0.ok
  {
    SkipLead(lead, "");
  }

  lemma {:induction false} LoadsUnits(lead: string, units: seq<Unit>, m: map<string, Unit>)
    requires AllSpace(lead) && AllGood(units)
    ensures LoadUnits(Stream(lead + UnitsText(units), true), m) == Remembered(units, m)
    decreases |units|
  {
    hide LoadUnit, ReadWord;
    if units == [] {
      NothingToRead(lead);
    } else if !Kept(units[0]) {
      LoadsUnits(lead, units[1..], m);
    } else {
      var u, rest := units[0], UnitsText(units[1..]);
      var t := UnitText(u, rest)[2..];
      assert UnitText(u, rest) == "tu" + t;
      ReadsWord(lead, "tu", t, "");
      LoadsUnit(u, rest);
      LoadsUnits(if u.deps == [] then "\n" else "", units[1..], m[u.src := u]);
      assert "" + rest == rest;
    }
  }

  /**
    Loading what was saved under the same configuration gives back the kept units with all their stamps; under another
    configuration it gives nothing.
   */
  lemma LoadOfSave(config: string, units: seq<Unit>, config': string)
    requires IsWord(config) && AllGood(units)
    ensures Load(Some(Save(config, units)), config') == if config' == config then Remembered(units, map[]) else map[]
  {
    hide ReadWord, LoadUnits, UnitsText;
    var t2 := "\n" + UnitsText(units);
    var t1 := " " + (config + t2);
    var t0 := " " + ("1" + t1);
    assert "" + ("dcstate" + t0) == Save(config, units);
    ReadsWord("", "dcstate", t0, "");
    ReadsWord(" ", "1", t1, "");
    ReadsWord(" ", config, t2, "");
    LoadsUnits("\n", units, map[]);
  }

  /** With distinct sources every kept unit is there, and nothing else is. */
  lemma {:induction false} RememberedAre(units: seq<Unit>, m: map<string, Unit>, src: string)
    requires forall j, k :: 0 <= j < k < |units| ==> units[j].src != units[k].src
    ensures src in Remembered(units, m) <==>
              src in m
              || exists k :: 0 <= k < |units| && units[k].error == "" && units[k].key != "" && units[k].src == src
    ensures forall k :: 0 <= k < |units| && units[k].error == "" && units[k].key != "" && units[k].src == src ==>
              Remembered(units, m)[src] == units[k]
    ensures (forall k :: 0 <= k < |units| ==> units[k].src != src) && src in m ==> Remembered(units, m)[src] == m[src]
    decreases |units|
  {
    if units != [] {
      var rest := units[1..];
      assert forall k :: 0 <= k < |rest| ==> rest[k] == units[k + 1];
      RememberedAre(rest, if Kept(units[0]) then m[units[0].src := units[0]] else m, src);
    }
  }

  // ---- the loops themselves

  method ReadDeps(input: Stream, n: nat) returns (s: Stream, deps: seq<FileStamp>)
    ensures (s, deps) == LoadStamps(input, n)
  {
    hide ReadInt64, ReadLine;
    s, deps := input, [];
    for i := 0 to n
      invariant (s, deps) == LoadStamps(input, i)
    {
      var (s1, mtime) := ReadInt64(s, 0);
      var (s2, size) := ReadInt64(s1, -1);
      var (s3, path) := ReadLine(s2);
      s, deps := s3, deps + [FileStamp(mtime, size, path)];
    }
  }

  method ReadUnits(input: Stream) returns (m: map<string, Unit>)
    ensures m == LoadUnits(input, map[])
  {
    hide ReadInt64, ReadCount;
    m := map[];
    ghost var before := input;
    var (s, tag) := ReadWord(input, "");
    while s.ok && tag == "tu"
      invariant s == ReadWord(before, "").0 && (s.ok ==> tag == ReadWord(before, "").1)
      invariant LoadUnits(before, m) == LoadUnits(input, map[])
      decreases if s.ok then |s.rest| + 1 else 0
    {
      UnitShrinks(s);
      var (s1, src) := ReadWord(s, "");
      var (s2, key) := ReadWord(s1, "");
      var (s3, digest) := ReadWord(s2, "");
      var (s4, cost) := ReadInt64(s3, 0);
      var (s5, n) := ReadCount(s4);
      var s6, deps := ReadDeps(s5, n);
      assert LoadUnit(s) == (s6, Unit(src, key, digest, cost, deps, ""));
      m := m[src := Unit(src, key, digest, cost, deps, "")];
      before := s6;
      var (s7, next) := ReadWord(s6, tag);
      s, tag := s7, next;
    }
  }

  method LoadState(file: Option<string>, config: string) returns (m: map<string, Unit>)
    ensures m == Load(file, config)
  {
    if file.None? { return map[]; }
    hide ReadWord, LoadUnits;
    var (s1, header) := ReadWord(Stream(file.value, true), "");
    var (s2, ver) := ReadWord(s1, "");
    var (s3, cfg) := ReadWord(s2, "");
    if !s3.ok || header != "dcstate" || ver != "1" || cfg != config { return map[]; }
    m := ReadUnits(s3);
  }

  lemma StampLine(os: string, f: FileStamp, rest: string)
    ensures os + IntText(f.mtime) + " " + IntText(f.size) + " " + f.path + "\n" + rest == os + StampText(f, rest)
  {
    hide IntText;
    var t := f.path + ("\n" + rest);
    assert os + IntText(f.mtime) + " " + IntText(f.size) + " " + f.path + "\n" + rest ==
           os + IntText(f.mtime) + " " + IntText(f.size) + " " + t;
  }

  method WriteDeps(prefix: string, deps: seq<FileStamp>, ghost rest: string) returns (os: string)
    ensures os + rest == prefix + StampsText(deps, rest)
  {
    hide StampText;
    os := prefix;
    assert deps[0..] == deps;
    for i := 0 to |deps|
      invariant os + StampsText(deps[i..], rest) == prefix + StampsText(deps, rest)
    {
      StampLine(os, deps[i], StampsText(deps[i + 1..], rest));
      assert deps[i..][0] == deps[i] && deps[i..][1..] == deps[i + 1..];
      os := os + IntText(deps[i].mtime) + " " + IntText(deps[i].size) + " " + deps[i].path + "\n";
    }
    assert deps[|deps|..] == [];
  }

  lemma UnitLine(os: string, u: Unit, rest: string)
    ensures os + "tu " + u.src + " " + u.key + " " + u.digest + " " + IntText(u.cost) + " " + IntText(|u.deps|) + "\n"
            + StampsText(u.deps, rest) == os + UnitText(u, rest)
  {
    hide IntText, StampsText;
    var t4 := " " + (IntText(|u.deps|) + ("\n" + StampsText(u.deps, rest)));
    var t2 := " " + (u.digest + (" " + (IntText(u.cost) + t4)));
    assert os + "tu " + u.src + " " + u.key + " " + u.digest + " " + IntText(u.cost) + " " + IntText(|u.deps|) + "\n"
           + StampsText(u.deps, rest)
        == os + "tu " + u.src + " " + u.key + " " + u.digest + " " + IntText(u.cost) + t4;
    assert os + "tu " + u.src + " " + u.key + " " + u.digest + " " + IntText(u.cost) + t4 ==
           os + "tu " + u.src + " " + u.key + t2;
    assert os + "tu " + u.src + " " + u.key + t2 == os + ("tu" + (" " + (u.src + (" " + (u.key + t2)))));
  }

  lemma UnitsStep(units: seq<Unit>, i: nat)
    requires i < |units|
    ensures UnitsText(units[i..]) == if Kept(units[i]) then UnitText(units[i], UnitsText(units[i + 1..]))
            else UnitsText(units[i + 1..])
  {
    hide UnitText;
    assert units[i..][0] == units[i] && units[i..][1..] == units[i + 1..];
  }

  method SaveState(config: string, units: seq<Unit>) returns (os: string)
    ensures os == Save(config, units)
  {
    os := "dcstate 1 " + config + "\n";
    ghost var all := UnitsText(units);
    assert os + all == Save(config, units);
    assert units[0..] == units && UnitsText([]) == "";
    hide UnitText, UnitsText, Save, IntText, StampsText;
    for i := 0 to |units|
      invariant os + UnitsText(units[i..]) == Save(config, units)
    {
      var u := units[i];
      ghost var rest := UnitsText(units[i + 1..]);
      UnitsStep(units, i);
      if u.error == "" && u.key != "" {
        UnitLine(os, u, rest);
        os := os + "tu " + u.src + " " + u.key + " " + u.digest + " " + IntText(u.cost) + " " + IntText(|u.deps|)
          + "\n";
        os := WriteDeps(os, u.deps, rest);
      }
    }
    assert units[|units|..] == [];
    assert os + "" == os;
  }
}
