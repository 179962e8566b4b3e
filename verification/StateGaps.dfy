/** Sources with white space in the state file. */
module StateGaps {
  import opened TextStream
  import opened StateFile
  import opened StateLines
  import opened StateLimits

  /** How many words a text holds. */
  function Words(t: string): nat
    decreases |t|
  {
    var r := SkipSpace(t);
    if r == "" then 0 else 1 + Words(r[WordLength(r)..])
  }

  /** A key or digest: lower-case hexadecimal digits, a letter among them. */
  predicate IsHash(h: string) {
    && (forall k :: 0 <= k < |h| ==> IsDigit(h[k]) || 'a' <= h[k] <= 'f')
    && exists k :: 0 <= k < |h| && 'a' <= h[k] <= 'f'
  }

  lemma {:induction false} SkipAhead(a: string, b: string)
    requires SkipSpace(a) != ""
    ensures SkipSpace(a + b) == SkipSpace(a) + b
  {
    assert (a + b)[0] == a[0];
    if IsSpace(a[0]) {
      assert (a + b)[1..] == a[1..] + b;
      SkipAhead(a[1..], b);
    }
  }

  lemma {:induction false} WordAhead(a: string, b: string)
    requires Ends(b) && a != "" && !IsSpace(a[0])
    ensures WordLength(a + b) == WordLength(a)
  {
    assert (a + b)[0] == a[0] && (a + b)[1..] == a[1..] + b;
    if |a| == 1 {
      assert a[1..] + b == b;
    } else if IsSpace(a[1]) {
      assert (a[1..] + b)[0] == a[1];
    } else {
      WordAhead(a[1..], b);
    }
  }

  /** A word is read from the front of a text that holds one. */
  lemma ReadsFront(a: string, b: string, prior: string)
    requires SkipSpace(a) != "" && Ends(b)
    ensures var r := SkipSpace(a);
            ReadWord(Stream(a + b, true), prior) == (Stream(r[WordLength(r)..] + b, true), r[..WordLength(r)])
  {
    hide SkipSpace, WordLength;
    var r := SkipSpace(a);
    SkipAhead(a, b);
    WordAhead(r, b);
    var n := WordLength(r);
    assert (r + b)[n..] == r[n..] + b && (r + b)[..n] == r[..n];
  }

  lemma {:induction false} NoWords(a: string)
    requires SkipSpace(a) == ""
    ensures AllSpace(a)
  {
    if a != "" {
      NoWords(a[1..]);
      assert forall k :: 1 <= k < |a| ==> a[k] == a[1..][k - 1];
    }
  }

  lemma {:induction false} DigitsStop(t: string, p: nat)
    requires p < |t| && !IsDigit(t[p])
    ensures DigitLength(t) <= p && !IsDigit(t[DigitLength(t)])
  {
    if p > 0 && IsDigit(t[0]) { DigitsStop(t[1..], p - 1); }
  }

  /** Where reading a number without a sign stops. */
  lemma NumberStops(t: string)
    requires t != "" && t[0] != '-' && t[0] != '+' && !IsSpace(t[0])
    ensures ReadInt64(Stream(t, true), 0).0.rest == t[DigitLength(t)..]
  {
    hide DigitLength, ValueOf;
    assert SkipSpace(t) == t;
    assert t[0..] == t;
  }

  lemma SkippedIs(t: string, t': string)
    requires SkipSpace(t) == SkipSpace(t')
    ensures ReadInt64(Stream(t, true), 0) == ReadInt64(Stream(t', true), 0)
  {
    hide SkipSpace, ReadNumber;
  }

  /** A number read from a hash stops within it, and no count is found behind. */
  lemma HashStops(lead: string, h: string, tail: string)
    requires AllSpace(lead) && IsHash(h)
    ensures var s := ReadInt64(Stream(lead + (h + tail), true), 0).0; !ReadCount(s).0.ok && ReadCount(s).1 == 0
  {
    hide ReadInt64, ReadCount, DigitLength, SkipSpace;
    var t := h + tail;
    var p :| 0 <= p < |h| && 'a' <= h[p] <= 'f';
    assert t[p] == h[p] && t[0] == h[0];
    SkipLead(lead, t);
    SkipNone(t);
    SkippedIs(lead + t, t);
    NumberStops(t);
    DigitsStop(t, p);
    var n := DigitLength(t);
    assert t[n] == h[n];
    LetterIsNoCount(t[n..]);
  }

  lemma LetterIsNoCount(t: string)
    requires t != "" && 'a' <= t[0] <= 'f'
    ensures forall s: Stream :: s.rest == t ==> !ReadCount(s).0.ok && ReadCount(s).1 == 0
  {
  }

  /** A source of two or three words takes the places of the key, or of the digest as well, and loading ends there. */
  lemma GapsStop(u: Unit, rest: string)
    requires 2 <= Words(u.src) <= 3 && IsHash(u.key) && IsHash(u.digest)
    ensures var (s, v) := LoadUnit(Stream(UnitText(u, rest)[2..], true)); !s.ok && v.deps == []
  {
    hide ReadWord, ReadInt64, ReadCount, SkipSpace, WordLength, IntText, StampsText, IsHash;
    var t3 := " " + (IntText(u.cost) + (" " + (IntText(|u.deps|) + ("\n" + StampsText(u.deps, rest)))));
    var t2 := " " + (u.digest + t3);
    var t1 := " " + (u.key + t2);
    assert UnitText(u, rest)[2..] == " " + (u.src + t1);
    SkipOne(' ', u.src);
    assert " " + (u.src + t1) == " " + u.src + t1;
    var r1 := SkipSpace(u.src);
    ReadsFront(" " + u.src, t1, "");
    var a1 := r1[WordLength(r1)..];
    assert Words(u.src) == 1 + Words(a1);
    var r2 := SkipSpace(a1);
    ReadsFront(a1, t1, "");
    var a2 := r2[WordLength(r2)..];
    assert Words(a1) == 1 + Words(a2);
    HashIsWord(u.key);
    if SkipSpace(a2) == "" {
      NoWords(a2);
      assert a2 + t1 == (a2 + " ") + (u.key + t2);
      ReadsWord(a2 + " ", u.key, t2, "");
      HashStops(" ", u.digest, t3);
    } else {
      var r3 := SkipSpace(a2);
      ReadsFront(a2, t1, "");
      var a3 := r3[WordLength(r3)..];
      assert Words(a2) == 1 + Words(a3);
      NoWords(a3);
      assert a3 + t1 == (a3 + " ") + (u.key + t2);
      HashStops(a3 + " ", u.key, t2);
    }
  }

  lemma HashIsWord(h: string)
    requires IsHash(h)
    ensures IsWord(h)
  {
  }

  /**
    What is loaded when the first source that is not a word has gaps: the good units in front, and a unit without
    stamps.
   */
  lemma LoadsUpToGap(units: seq<Unit>, j: nat) returns (v: Unit)
    requires j < |units| && AllGood(units[..j]) && Kept(units[j])
    requires 2 <= Words(units[j].src) <= 3 && IsHash(units[j].key) && IsHash(units[j].digest)
    ensures v.deps == []
    ensures LoadUnits(Stream("\n" + UnitsText(units), true), map[]) == Remembered(units[..j], map[])[v.src := v]
  {
    hide LoadUnit, LoadUnits;
    var lead := ReadsPrefix("\n", units, j, map[]);
    var rest := UnitsText(units[j + 1..]);
    assert units[j..][0] == units[j] && units[j..][1..] == units[j + 1..];
    ReadsTagged(lead, units[j], rest, Remembered(units[..j], map[]));
    GapsStop(units[j], rest);
    var (s, w) := LoadUnit(Stream(UnitText(units[j], rest)[2..], true));
    v := w;
    FailedLoad(s, Remembered(units[..j], map[])[v.src := v]);
  }

  lemma FailedLoad(s: Stream, m: map<string, Unit>)
    requires !s.ok
    ensures LoadUnits(s, m) == m
  {
  }
}
