/**
  Which units survive the state file: exactly those that hold what a load can yield, one corner at the end of the file
  included.
 */
module StateLimits {
  import opened Wrappers
  import opened TextStream
  import opened StateFile
  import opened StateReads
  import opened StateLines

  // ---- the unit that goes wrong

  /** Good but for an empty path in its last stamp. */
  predicate LosesLastPath(u: Unit) {
    && IsWord(u.src) && IsWord(u.key) && IsWord(u.digest) && IsInt64(u.cost) && 0 < |u.deps| < WORD
    && (forall k :: 0 <= k < |u.deps| - 1 ==> GoodStamp(u.deps[k]))
    && ReadableStamp(u.deps[|u.deps| - 1]) && u.deps[|u.deps| - 1].path == ""
  }

  lemma {:induction false} StampsSplit(deps: seq<FileStamp>, k: nat, rest: string)
    requires k <= |deps|
    ensures StampsText(deps, rest) == StampsText(deps[..k], StampsText(deps[k..], rest))
    decreases |deps|
  {
    hide StampText;
    if k == 0 {
      assert deps[..0] == [] && deps[0..] == deps;
    } else {
      StampsSplit(deps[1..], k - 1, rest);
      assert deps[..k][0] == deps[0] && deps[..k][1..] == deps[1..][..k - 1] && deps[1..][k - 1..] == deps[k..];
    }
  }

  lemma {:induction false} StampOf(s: Stream, n: nat, k: nat)
    requires k < n
    ensures |LoadStamps(s, n).1| == n && LoadStamps(s, n).1[k] == LoadStamp(LoadStamps(s, k).0).1
  {
    hide LoadStamp;
    LoadStampsAre(s, n - 1);
    if k < n - 1 { StampOf(s, n - 1, k); }
  }

  /** Reading up to stamp k, the first with an empty path, and reading that. */
  lemma FirstEmptyPath(u: Unit, rest: string, k: nat)
    requires Readable(u) && k < |u.deps| && u.deps[k].path == "" && forall j :: 0 <= j < k ==> GoodStamp(u.deps[j])
    requires rest == "" || !IsSpace(rest[0])
    ensures var (s, tail) := (Stream("\n" + StampsText(u.deps, rest), true), StampsText(u.deps[k + 1..], rest));
            && LoadStamps(s, k).1 == u.deps[..k]
            && if tail == "" then LoadStamp(LoadStamps(s, k).0).1 == u.deps[k] && !LoadStamp(LoadStamps(s, k).0).0.ok
               else LoadStamp(LoadStamps(s, k).0).1 != u.deps[k]
  {
    hide LoadStamp, StampText, LineLength;
    var deps := u.deps;
    var tail := StampsText(deps[k + 1..], rest);
    var there := StampText(deps[k], tail);
    StampsSplit(deps, k, rest);
    assert deps[k..][0] == deps[k] && deps[k..][1..] == deps[k + 1..];
    assert StampsText(deps[k..], rest) == there;
    LoadsStamps("\n", deps[..k], there);
    assert AfterStamps("\n", deps[..k], there, k) == if k == 0 then "\n" + there else there;
    TailStarts(deps[k + 1..], rest);
    ReadsStamp(deps[k], tail);
    StampLineEnds(deps[k], tail);
    LeadIsSkipped(there);
    if tail != "" { FirstLineIsNotEmpty(tail); }
  }

  lemma LeadIsSkipped(t: string)
    requires t != "" && !IsSpace(t[0])
    ensures LoadStamp(Stream("\n" + t, true)) == LoadStamp(Stream(t, true))
  {
    hide ReadLine, ReadNumber;
    SkipLead("\n", t);
    SkipLead("", t);
    assert "" + t == t;
  }

  lemma FirstLineIsNotEmpty(t: string)
    requires t != "" && !IsSpace(t[0])
    ensures t[..LineLength(t)] != ""
  {
  }

  lemma TailStarts(deps: seq<FileStamp>, rest: string)
    requires rest == "" || !IsSpace(rest[0])
    requires forall k :: 0 <= k < |deps| ==> ReadableStamp(deps[k])
    ensures var t := StampsText(deps, rest); (t == "" || !IsSpace(t[0])) && (t == "" <==> deps == [] && rest == "")
  {
    hide StampText;
    if deps != [] { StampLineEnds(deps[0], StampsText(deps[1..], rest)); }
  }

  lemma {:induction false} BadStamp(deps: seq<FileStamp>, n: nat) returns (k: nat)
    requires forall j :: 0 <= j < |deps| ==> ReadableStamp(deps[j])
    requires n <= |deps| && exists j :: 0 <= j < n && deps[j].path == ""
    ensures k < n && deps[k].path == "" && forall j :: 0 <= j < k ==> GoodStamp(deps[j])
    decreases n
  {
    if exists j :: 0 <= j < n - 1 && deps[j].path == "" {
      k := BadStamp(deps, n - 1);
    } else {
      k := n - 1;
    }
  }

  /**
    A unit that could be read, but is not good, reads back as another one, or loses nothing at the very end of the
    file.
   */
  lemma BadUnit(u: Unit, rest: string)
    requires Readable(u) && Kept(u) && !GoodUnit(u) && (rest == "" || rest[0] == 't') && |rest| != 1
    ensures var (s, v) := LoadUnit(Stream(UnitText(u, rest)[2..], true));
            if LosesLastPath(u) && rest == "" then v == u && !s.ok else v != u
  {
    hide LoadUnit, UnitText, StampsText, LoadStamp, LoadStamps;
    if u.digest == "" {
      UnitWithoutDigest(u, rest);
    } else {
      UnitHead(u, rest);
      var k := BadStamp(u.deps, |u.deps|);
      var s := Stream("\n" + StampsText(u.deps, rest), true);
      FirstEmptyPath(u, rest, k);
      StampOf(s, |u.deps|, k);
      TailStarts(u.deps[k + 1..], rest);
      if LosesLastPath(u) {
        assert k == |u.deps| - 1;
        LastStamp(s, k);
        assert u.deps[..k] + [u.deps[k]] == u.deps;
      } else if rest == "" {
        assert k < |u.deps| - 1;
      }
    }
  }

  lemma LastStamp(s: Stream, k: nat)
    ensures LoadStamps(s, k + 1) ==
              (LoadStamp(LoadStamps(s, k).0).0, LoadStamps(s, k).1 + [LoadStamp(LoadStamps(s, k).0).1])
  {
    hide LoadStamp;
  }

  // ---- the whole file

  predicate SourcesDiffer(units: seq<Unit>) { forall j, k :: 0 <= j < k < |units| ==> units[j].src != units[k].src }

  predicate NoneKept(units: seq<Unit>) { forall k :: 0 <= k < |units| ==> !Kept(units[k]) }

  /** The unit survives where it stands. */
  predicate Survives(units: seq<Unit>, k: nat)
    requires k < |units|
  {
    GoodUnit(units[k]) || (LosesLastPath(units[k]) && NoneKept(units[k + 1..]))
  }

  predicate AllSurvive(units: seq<Unit>) { forall k :: 0 <= k < |units| && Kept(units[k]) ==> Survives(units, k) }

  /** The good units in front read back. */
  lemma {:induction false} ReadsPrefix(lead: string, units: seq<Unit>, j: nat, m: map<string, Unit>)
    returns (lead': string)
    requires AllSpace(lead) && j <= |units| && AllGood(units[..j])
    ensures AllSpace(lead')
    ensures LoadUnits(Stream(lead + UnitsText(units), true), m) ==
            LoadUnits(Stream(lead' + UnitsText(units[j..]), true), Remembered(units[..j], m))
    decreases j
  {
    hide LoadUnit, ReadWord, UnitText;
    if j == 0 {
      lead' := lead;
      assert units[..0] == [] && units[0..] == units;
    } else {
      var front := units[1..];
      assert units[..j][0] == units[0] && units[..j][1..] == front[..j - 1] && front[j - 1..] == units[j..];
      var before := front[..j - 1];
      forall k | 0 <= k < |before| && Kept(before[k]) ensures GoodUnit(before[k]) {
        assert units[..j][k + 1] == before[k];
      }
      if Kept(units[0]) {
        var u, rest := units[0], UnitsText(front);
        assert GoodUnit(units[..j][0]);
        FirstReads(lead, u, rest, m, front);
        lead' := ReadsPrefix(if u.deps == [] then "\n" else "", front, j - 1, m[u.src := u]);
      } else {
        lead' := ReadsPrefix(lead, front, j - 1, m);
      }
    }
  }

  lemma FirstReads(lead: string, u: Unit, rest: string, m: map<string, Unit>, front: seq<Unit>)
    requires AllSpace(lead) && GoodUnit(u) && Kept(u) && rest == UnitsText(front)
    ensures LoadUnits(Stream(lead + UnitText(u, rest), true), m) ==
            LoadUnits(Stream((if u.deps == [] then "\n" else "") + rest, true), m[u.src := u])
  {
    hide LoadUnit, ReadWord;
    var t := UnitText(u, rest)[2..];
    assert UnitText(u, rest) == "tu" + t;
    ReadsWord(lead, "tu", t, "");
    LoadsUnit(u, rest);
    assert "" + rest == rest;
  }

  lemma ReadsTagged(lead: string, u: Unit, rest: string, m: map<string, Unit>)
    requires AllSpace(lead)
    ensures var (s, v) := LoadUnit(Stream(UnitText(u, rest)[2..], true));
            LoadUnits(Stream(lead + UnitText(u, rest), true), m) == LoadUnits(s, m[v.src := v])
  {
    hide LoadUnit, ReadWord;
    var t := UnitText(u, rest)[2..];
    assert UnitText(u, rest) == "tu" + t;
    ReadsWord(lead, "tu", t, "");
  }

  /**
    The first unit that is not good: from there on its source reads back as something else, unless nothing follows it.
   */
  lemma FirstBad(lead: string, units: seq<Unit>, j: nat, m: map<string, Unit>)
    requires AllSpace(lead) && KeptReadable(units) && SourcesDiffer(units) && j < |units| && Kept(units[j])
             && !GoodUnit(units[j])
    ensures var m' := LoadUnits(Stream(lead + UnitsText(units[j..]), true), m);
            if Survives(units, j) then m' == m[units[j].src := units[j]]
            else units[j].src in m' && m'[units[j].src] != units[j]
  {
    hide LoadUnit, LosesLastPath, GoodUnit, Readable;
    var u, rest := units[j], Behind(units, j);
    assert units[j..][0] == u && units[j..][1..] == units[j + 1..];
    RestStarts(units, j + 1);
    BadUnit(u, rest);
    UnitAdvances(units, j);
    ReadsTagged(lead, u, rest, m);
    var (s, v) := LoadUnit(Stream(UnitText(u, rest)[2..], true));
    NothingBehind(units[j + 1..]);
    if !Survives(units, j) {
      OnlyTheirs(s, m[v.src := v], units, j + 1, u.src);
    }
  }

  lemma {:induction false} NothingBehind(units: seq<Unit>)
    ensures UnitsText(units) == "" <==> NoneKept(units)
  {
    if units != [] {
      NothingBehind(units[1..]);
      if NoneKept(units[1..]) && !Kept(units[0]) {
        assert forall k :: 1 <= k < |units| ==> units[k] == units[1..][k - 1];
      }
      if NoneKept(units) {
        assert forall k :: 0 <= k < |units| - 1 ==> units[1..][k] == units[k + 1];
      }
    }
  }

  lemma {:induction false} RememberedSplit(units: seq<Unit>, j: nat, m: map<string, Unit>)
    requires j <= |units|
    ensures Remembered(units, m) == Remembered(units[j..], Remembered(units[..j], m))
    decreases j
  {
    if j == 0 {
      assert units[..0] == [] && units[0..] == units;
    } else {
      assert units[..j][0] == units[0] && units[..j][1..] == units[1..][..j - 1] && units[1..][j - 1..] == units[j..];
      RememberedSplit(units[1..], j - 1, if Kept(units[0]) then m[units[0].src := units[0]] else m);
    }
  }

  lemma {:induction false} NoneRemembered(units: seq<Unit>, m: map<string, Unit>)
    requires NoneKept(units)
    ensures Remembered(units, m) == m
  {
    if units != [] {
      assert forall k :: 0 <= k < |units| - 1 ==> units[1..][k] == units[k + 1];
      NoneRemembered(units[1..], m);
    }
  }

  /** All is good, or there is a first unit that is not. */
  lemma {:induction false} FirstNotGood(units: seq<Unit>, n: nat) returns (j: nat)
    requires n <= |units|
    ensures j <= n && forall k :: 0 <= k < j && Kept(units[k]) ==> GoodUnit(units[k])
    ensures j < n ==> Kept(units[j]) && !GoodUnit(units[j])
  {
    hide GoodUnit;
    if n == 0 {
      j := 0;
    } else {
      j := FirstNotGood(units, n - 1);
      if j == n - 1 && (Kept(units[j]) ==> GoodUnit(units[j])) { j := n; }
    }
  }

  lemma LoadUnder(config: string, units: seq<Unit>, config': string)
    ensures IsWord(config) ==>
              Load(Some(Save(config, units)), config') ==
              if config' == config then LoadUnits(Stream("\n" + UnitsText(units), true), map[]) else map[]
    ensures !IsWord(config) ==> Load(Some(Save(config, units)), config) == map[]
  {
    hide ReadWord, LoadUnits, UnitsText;
    var t2 := "\n" + UnitsText(units);
    var t1 := " " + (config + t2);
    var t0 := " " + ("1" + t1);
    assert "" + ("dcstate" + t0) == Save(config, units);
    ReadsWord("", "dcstate", t0, "");
    ReadsWord(" ", "1", t1, "");
    ReadWordIs(Stream(t1, true), "");
    if IsWord(config) { ReadsWord(" ", config, t2, ""); }
  }

  /** Loading a list that goes wrong first at j. */
  lemma LoadsUpTo(units: seq<Unit>, j: nat)
    requires KeptReadable(units) && SourcesDiffer(units) && j < |units| && Kept(units[j]) && !GoodUnit(units[j])
    requires forall k :: 0 <= k < j && Kept(units[k]) ==> GoodUnit(units[k])
    ensures var m' := LoadUnits(Stream("\n" + UnitsText(units), true), map[]);
            if Survives(units, j) then m' == Remembered(units, map[])
            else units[j].src in m' && m'[units[j].src] != units[j]
  {
    hide GoodUnit, LosesLastPath, LoadUnits;
    var lead := ReadsPrefix("\n", units, j, map[]);
    var before := Remembered(units[..j], map[]);
    FirstBad(lead, units, j, before);
    if Survives(units, j) {
      RememberedSplit(units, j, map[]);
      assert units[j..][0] == units[j] && units[j..][1..] == units[j + 1..];
      NoneRemembered(units[j + 1..], before[units[j].src := units[j]]);
    }
  }

  lemma SurvivorsReadable(units: seq<Unit>)
    requires AllSurvive(units)
    ensures KeptReadable(units)
  {
  }

  /** What came back unchanged could be read. */
  lemma BackMeansReadable(units: seq<Unit>)
    requires SourcesDiffer(units) && LoadUnits(Stream("\n" + UnitsText(units), true), map[]) == Remembered(units, map[])
    ensures KeptReadable(units)
  {
    hide LoadUnits, Readable;
    forall i | 0 <= i < |units| && Kept(units[i]) ensures Readable(units[i]) {
      RememberedAre(units, map[], units[i].src);
      LoadUnitsAre(Stream("\n" + UnitsText(units), true), map[], units[i].src);
    }
  }

  /**
    For units of different sources, what is saved comes back if and only if there is nothing to save, or the
    configuration is a word and every kept unit survives: source, key and digest are words, numbers fit 64 bits, and
    each path is neither empty nor led by white space nor holds a newline; only the last path of the file may be empty.
   */
  lemma ComesBackWhen(config: string, units: seq<Unit>)
    requires SourcesDiffer(units)
    ensures Load(Some(Save(config, units)), config) == Remembered(units, map[]) <==>
            NoneKept(units) || (IsWord(config) && AllSurvive(units))
  {
    hide Load, LoadUnits, Survives, GoodUnit;
    LoadUnder(config, units, config);
    if NoneKept(units) {
      NoneRemembered(units, map[]);
      if IsWord(config) { LoadsUnits("\n", units, map[]); }
    } else {
      var kept :| 0 <= kept < |units| && Kept(units[kept]);
      RememberedAre(units, map[], units[kept].src);
      if IsWord(config) { ComesBack(units); }
    }
  }

  lemma ComesBack(units: seq<Unit>)
    requires SourcesDiffer(units)
    ensures LoadUnits(Stream("\n" + UnitsText(units), true), map[]) == Remembered(units, map[]) <==> AllSurvive(units)
  {
    hide LoadUnits, GoodUnit, LosesLastPath;
    var j := FirstNotGood(units, |units|);
    if j == |units| {
      LoadsUnits("\n", units, map[]);
    } else {
      if AllSurvive(units) {
        SurvivorsReadable(units);
        LoadsUpTo(units, j);
      }
      if LoadUnits(Stream("\n" + UnitsText(units), true), map[]) == Remembered(units, map[]) {
        BackMeansReadable(units);
        LoadsUpTo(units, j);
        RememberedAre(units, map[], units[j].src);
        assert Survives(units, j);
        assert forall k :: j < k < |units| ==> units[k] == units[j + 1..][k - j - 1];
        forall k | 0 <= k < |units| && Kept(units[k]) ensures Survives(units, k) {
          assert k <= j;
        }
      }
    }
  }
}
