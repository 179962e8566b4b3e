/** What any load of the state file yields. */
module StateReads {
  import opened TextStream
  import opened StateFile

  predicate ReadableStamp(f: FileStamp) { IsInt64(f.mtime) && IsInt64(f.size) && (f.path == "" || GoodPath(f.path)) }

  predicate Readable(u: Unit) {
    && (u.key != "" ==> IsWord(u.src) && IsWord(u.key))
    && (u.digest == "" || IsWord(u.digest)) && (u.digest == "" ==> u.deps == [])
    && IsInt64(u.cost) && |u.deps| < WORD
    && forall k :: 0 <= k < |u.deps| ==> ReadableStamp(u.deps[k])
  }

  lemma {:induction false} WordIs(t: string)
    ensures forall k :: 0 <= k < WordLength(t) ==> !IsSpace(t[k])
  {
    if t != "" && !IsSpace(t[0]) {
      WordIs(t[1..]);
      assert forall k :: 1 <= k < |t| ==> t[k] == t[1..][k - 1];
    }
  }

  lemma {:induction false} LineIs(t: string)
    ensures forall k :: 0 <= k < LineLength(t) ==> t[k] != '\n'
  {
    if t != "" && t[0] != '\n' {
      LineIs(t[1..]);
      assert forall k :: 1 <= k < |t| ==> t[k] == t[1..][k - 1];
    }
  }

  lemma ReadWordIs(s: Stream, prior: string)
    ensures var r := ReadWord(s, prior); if r.0.ok then s.ok && IsWord(r.1) else r.1 == prior
  {
    WordIs(SkipSpace(s.rest));
  }

  lemma ReadInt64Is(s: Stream, prior: int)
    requires IsInt64(prior)
    ensures IsInt64(ReadInt64(s, prior).1)
    ensures ReadInt64(s, prior).0.ok ==> s.ok
  {
  }

  lemma ReadLineIs(s: Stream)
    ensures ReadLine(s).1 == "" || GoodPath(ReadLine(s).1)
  {
    LineIs(SkipSpace(s.rest));
  }

  lemma LoadStampIs(s: Stream)
    ensures ReadableStamp(LoadStamp(s).1)
  {
    hide ReadInt64, ReadLine;
    var (s1, mtime) := ReadInt64(s, 0);
    var (s2, size) := ReadInt64(s1, -1);
    ReadInt64Is(s, 0);
    ReadInt64Is(s1, -1);
    ReadLineIs(s2);
  }

  lemma {:induction false} LoadStampsAre(s: Stream, n: nat)
    ensures |LoadStamps(s, n).1| == n && forall k :: 0 <= k < n ==> ReadableStamp(LoadStamps(s, n).1[k])
  {
    hide LoadStamp;
    if n > 0 {
      LoadStampsAre(s, n - 1);
      LoadStampIs(LoadStamps(s, n - 1).0);
    }
  }

  lemma LoadUnitIs(s: Stream)
    ensures Readable(LoadUnit(s).1) && LoadUnit(s).1.error == ""
  {
    hide ReadWord, ReadInt64, LoadStamps;
    var (s1, src) := ReadWord(s, "");
    var (s2, key) := ReadWord(s1, "");
    var (s3, digest) := ReadWord(s2, "");
    var (s4, cost) := ReadInt64(s3, 0);
    var (s5, n) := ReadCount(s4);
    ReadWordIs(s, "");
    ReadWordIs(s1, "");
    ReadWordIs(s2, "");
    ReadInt64Is(s3, 0);
    LoadStampsAre(s5, n);
  }

  /** Whatever a file holds, what is loaded from it was there before or could be read. */
  lemma {:induction false} LoadUnitsAre(s: Stream, m: map<string, Unit>, src: string)
    requires src in LoadUnits(s, m)
    ensures var u := LoadUnits(s, m)[src]; (src in m && u == m[src]) || (Readable(u) && u.error == "")
    decreases |s.rest|
  {
    hide LoadUnit;
    var (s', tag) := ReadWord(s, "");
    if s'.ok && tag == "tu" {
      UnitShrinks(s');
      LoadUnitIs(s');
      var (s'', u) := LoadUnit(s');
      LoadUnitsAre(s'', m[u.src := u], src);
    }
  }
}
