/** Sources with white space around them in the state file. */
module StatePads {
  import opened Wrappers
  import opened TextStream
  import opened StateFile
  import opened StateReads
  import opened StateLines
  import opened StateLimits
  import opened StateGaps

  function FirstWord(t: string): string {
    var r := SkipSpace(t);
    r[..WordLength(r)]
  }

  /** A text that holds one word is that word exactly when it is a word itself. */
  lemma OneWord(t: string)
    ensures Words(t) == 1 ==> IsWord(FirstWord(t))
    ensures IsWord(t) <==> Words(t) == 1 && FirstWord(t) == t
  {
    var r := SkipSpace(t);
    if r != "" {
      SkipEnds(t);
      WordIs(r);
      if IsWord(t) {
        SkipNone(t);
        WordThere(t, "");
        assert t + "" == t && t[|t|..] == "" && t[..|t|] == t;
      }
    }
  }

  lemma {:induction false} SkipEnds(t: string)
    requires SkipSpace(t) != ""
    ensures !IsSpace(SkipSpace(t)[0])
  {
    if IsSpace(t[0]) { SkipEnds(t[1..]); }
  }

  /** The unit under the word that a load takes its source for. */
  function Trimmed(u: Unit): Unit { if Words(u.src) == 1 then u.(src := FirstWord(u.src)) else u }

  lemma TrimmedIs(u: Unit)
    requires AlmostGood(u)
    ensures GoodUnit(Trimmed(u)) && Trimmed(u).src == FirstWord(u.src)
  {
  }

  lemma WordsStay(u: Unit)
    requires IsWord(u.src)
    ensures Trimmed(u) == u && (GoodUnit(u) ==> AlmostGood(u))
  {
    OneWord(u.src);
  }

  /** White space around a source is not seen. */
  lemma PadsAreSkipped(u: Unit, rest: string)
    requires Words(u.src) == 1 && GoodUnit(Trimmed(u))
    ensures LoadUnit(Stream(UnitText(u, rest)[2..], true)) == LoadUnit(Stream(UnitText(Trimmed(u), rest)[2..], true))
  {
    hide ReadWord, ReadInt64, ReadCount, LoadStamps, SkipSpace, WordLength, IntText, StampsText;
    var t3 := " " + (IntText(u.cost) + (" " + (IntText(|u.deps|) + ("\n" + StampsText(u.deps, rest)))));
    var t2 := " " + (u.digest + t3);
    var t1 := " " + (u.key + t2);
    var w := FirstWord(u.src);
    assert UnitText(u, rest)[2..] == " " + (u.src + t1) && UnitText(Trimmed(u), rest)[2..] == " " + (w + t1);
    SkipOne(' ', u.src);
    assert " " + (u.src + t1) == " " + u.src + t1;
    var r := SkipSpace(u.src);
    ReadsFront(" " + u.src, t1, "");
    var left := r[WordLength(r)..];
    assert Words(u.src) == 1 + Words(left);
    NoWords(left);
    assert left + t1 == (left + " ") + (u.key + t2);
    ReadsWord(left + " ", u.key, t2, "");
    ReadsWord(" ", w, t1, "");
    ReadsWord(" ", u.key, t2, "");
  }

  /** The first n units with their sources trimmed. */
  function TrimFirst(units: seq<Unit>, n: nat): (trimmed: seq<Unit>)
    requires n <= |units|
    ensures |trimmed| == |units|
    ensures forall i :: 0 <= i < |units| ==> trimmed[i] == if i < n then Trimmed(units[i]) else units[i]
  {
    seq(|units|, i requires 0 <= i < |units| => if i < n then Trimmed(units[i]) else units[i])
  }

  /** The unit holds what a load can yield, but that there may be white space around its source. */
  predicate AlmostGood(u: Unit) { Words(u.src) == 1 && GoodUnit(Trimmed(u)) }

  /** Units load as if their sources had been trimmed before they were saved. */
  lemma {:induction false} LoadsTrimmed(lead: string, units: seq<Unit>, n: nat, m: map<string, Unit>)
    requires AllSpace(lead) && n <= |units|
    requires forall i :: 0 <= i < n && Kept(units[i]) ==> AlmostGood(units[i])
    ensures LoadUnits(Stream(lead + UnitsText(units), true), m) ==
            LoadUnits(Stream(lead + UnitsText(TrimFirst(units, n)), true), m)
    decreases n
  {
    hide LoadUnit, LoadUnits, UnitText, Trimmed, AlmostGood;
    if n == 0 {
      assert TrimFirst(units, 0) == units;
    } else {
      var u, after := units[0], TrimFirst(units, n);
      assert after[1..] == TrimFirst(units[1..], n - 1);
      KeptTrimmed(u);
      if !Kept(u) {
        LoadsTrimmed(lead, units[1..], n - 1, m);
      } else {
        var lead' := if u.deps == [] then "\n" else "";
        var rest, rest' := UnitsText(units[1..]), UnitsText(after[1..]);
        ReadsTagged(lead, u, rest, m);
        ReadsTagged(lead, Trimmed(u), rest', m);
        LoadsPadded(u, rest);
        LoadsPadded(u, rest');
        LoadsTrimmed(lead', units[1..], n - 1, m[Trimmed(u).src := Trimmed(u)]);
      }
    }
  }

  lemma KeptTrimmed(u: Unit)
    ensures Kept(Trimmed(u)) <==> Kept(u)
    ensures Trimmed(u).deps == u.deps
  {
  }

  lemma LoadsPadded(u: Unit, rest: string)
    requires AlmostGood(u) && Kept(u)
    ensures var after := (Stream((if u.deps == [] then "\n" else "") + rest, true), Trimmed(u));
            LoadUnit(Stream(UnitText(u, rest)[2..], true)) == after
            && LoadUnit(Stream(UnitText(Trimmed(u), rest)[2..], true)) == after
  {
    hide LoadUnit, UnitText, GoodUnit;
    PadsAreSkipped(u, rest);
    LoadsUnit(Trimmed(u), rest);
    assert "" + rest == rest;
  }

  /** Of two units whose sources are one word, the second with white space around it, it takes the first one's place. */
  lemma PadsMislead(config: string, u: Unit, v: Unit)
    requires IsWord(config) && GoodUnit(u) && Kept(u) && AlmostGood(v) && Kept(v) && FirstWord(v.src) == u.src
    ensures Load(Some(Save(config, [u, v])), config) == map[u.src := Trimmed(v)]
  {
    hide LoadUnits, Load, UnitsText, Save, AlmostGood, Trimmed;
    var units := [u, v];
    WordsStay(u);
    TrimmedIs(v);
    LoadUnder(config, units, config);
    LoadsTrimmed("\n", units, 2, map[]);
    var trimmed := TrimFirst(units, 2);
    assert trimmed == [u, Trimmed(v)];
    KeptTrimmed(v);
    assert forall k :: 0 <= k < 2 ==> GoodUnit(trimmed[k]);
    LoadsUnits("\n", trimmed, map[]);
    assert trimmed[1..] == [Trimmed(v)] && [Trimmed(v)][1..] == [];
    assert Remembered(trimmed, map[]) == Remembered([Trimmed(v)], map[u.src := u]);
    var one := map[u.src := u];
    assert Remembered([Trimmed(v)], one) == one[Trimmed(v).src := Trimmed(v)] == map[u.src := Trimmed(v)];
    assert LoadUnits(Stream("\n" + UnitsText(units), true), map[]) == map[u.src := Trimmed(v)];
    assert Load(Some(Save(config, units)), config) == LoadUnits(Stream("\n" + UnitsText(units), true), map[]);
  }
}
