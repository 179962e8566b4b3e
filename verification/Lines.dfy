/** Text columns with one item per line, and file names. */
module Lines {

  predicate NewlineFree(s: string) { forall k :: 0 <= k < |s| ==> s[k] != '\n' }

  /** Position of the first newline of s, or its length when there is none. */
  function FirstNewline(s: string): (e: nat)
    ensures e <= |s|
    ensures NewlineFree(s[..e])
    ensures e < |s| ==> s[e] == '\n'
  {
    if s == [] || s[0] == '\n' then 0
    else
      var e := 1 + FirstNewline(s[1..]);
      assert s[..e] == [s[0]] + s[1..][..e - 1];
      e
  }

  lemma FirstNewlineIs(s: string, e: nat)
    requires e <= |s| && NewlineFree(s[..e])
    requires e < |s| ==> s[e] == '\n'
    ensures FirstNewline(s) == e
  {
    var f := FirstNewline(s);
    assert forall k :: 0 <= k < e ==> s[..e][k] == s[k];
    assert forall k :: 0 <= k < f ==> s[..f][k] == s[k];
  }

  /** The items of v with a newline between each two. */
  function Join(v: seq<string>): string {
    if |v| == 0 then ""
    else if |v| == 1 then v[0]
    else v[0] + "\n" + Join(v[1..])
  }

  /** The newline-separated fields of s, of which there is always at least one. */
  function Fields(s: string): (v: seq<string>)
    ensures |v| >= 1
    ensures forall k :: 0 <= k < |v| ==> NewlineFree(v[k])
    decreases |s|
  {
    var e := FirstNewline(s);
    if e == |s| then [s[..e]] else [s[..e]] + Fields(s[e + 1..])
  }

  function Split(s: string): seq<string> {
    if s == "" then [] else Fields(s)
  }

  function FlatName(n: string): string {
    seq(|n|, i requires 0 <= i < |n| => if n[i] == '/' then '_' else n[i])
  }

  /** Every slash of a name becomes an underscore, and nothing else changes. */
  lemma FlatNameIs(n: string)
    ensures |FlatName(n)| == |n|
    ensures forall i :: 0 <= i < |n| ==> FlatName(n)[i] == (if n[i] == '/' then '_' else n[i])
  {
  }

  lemma JoinAppend(v: seq<string>, x: string)
    ensures Join(v + [x]) == if v == [] then x else Join(v) + "\n" + x
  {
    if |v| > 1 {
      assert (v + [x])[1..] == v[1..] + [x];
      JoinAppend(v[1..], x);
    }
  }

  lemma JoinEmpty(v: seq<string>)
    ensures Join(v) == "" <==> v == [] || v == [""]
  {
  }

  lemma OneField(s: string)
    requires NewlineFree(s)
    ensures Fields(s) == [s]
  {
    hide FirstNewline;
    assert s[..|s|] == s;
    FirstNewlineIs(s, |s|);
  }

  lemma FieldThenRest(a: string, rest: string)
    requires NewlineFree(a)
    ensures Fields(a + ("\n" + rest)) == [a] + Fields(rest)
  {
    hide FirstNewline;
    var s, e := a + ("\n" + rest), |a|;
    assert s[..e] == a && s[e] == '\n' && s[e + 1..] == rest;
    FirstNewlineIs(s, e);
  }

  lemma {:induction false} FieldsOfJoin(v: seq<string>)
    requires v != [] && forall k :: 0 <= k < |v| ==> NewlineFree(v[k])
    ensures Fields(Join(v)) == v
  {
    hide Fields, NewlineFree;
    if |v| == 1 {
      OneField(v[0]);
    } else {
      var rest := Join(v[1..]);
      assert Join(v) == v[0] + ("\n" + rest);
      FieldThenRest(v[0], rest);
      FieldsOfJoin(v[1..]);
    }
  }

  /** Splitting undoes joining for exactly the lists whose items hold no newline, [""] excepted. */
  lemma SplitOfJoin(v: seq<string>)
    ensures Split(Join(v)) == v <==> v != [""] && forall k :: 0 <= k < |v| ==> NewlineFree(v[k])
  {
    JoinEmpty(v);
    if v != [] && forall k :: 0 <= k < |v| ==> NewlineFree(v[k]) {
      FieldsOfJoin(v);
    }
  }

  method JoinLines(v: seq<string>) returns (s: string)
    ensures s == Join(v)
  {
    s := "";
    for i := 0 to |v|
      invariant s == Join(v[..i])
    {
      JoinAppend(v[..i], v[i]);
      assert v[..i + 1] == v[..i] + [v[i]];
      s := s + (if i != 0 then "\n" else "") + v[i];
    }
    assert v[..|v|] == v;
  }

  /** The fields of what follows position b. */
  ghost function FieldsFrom(s: string, b: nat): seq<string>
    requires b <= |s|
  {
    Fields(s[b..])
  }

  lemma FieldsFromStep(s: string, b: nat, e: nat)
    requires b <= |s| && e == b + FirstNewline(s[b..])
    ensures FieldsFrom(s, b) == [s[b..e]] + if e == |s| then [] else FieldsFrom(s, e + 1)
  {
    assert s[b..e] == s[b..][..e - b];
    if e < |s| {
      assert s[b..][e - b + 1..] == s[e + 1..];
    }
  }

  method SplitLines(s: string) returns (out: seq<string>)
    ensures out == Split(s)
  {
    out := [];
    if s == "" {
      return;
    }
    var b := 0;
    assert s[0..] == s;
    assert Split(s) == [] + FieldsFrom(s, 0);
    hide *;
    while true
      invariant 0 <= b <= |s|
      invariant Split(s) == out + FieldsFrom(s, b)
      decreases |s| - b
    {
      var e := b + FirstNewline(s[b..]);
      FieldsFromStep(s, b, e);
      out := out + [s[b..e]];
      if e == |s| {
        break;
      }
      b := e + 1;
    }
  }
}
