/** The tasks of the client's graph, field by field. */
module ClientTasks {
  // Nothing here speaks of how the graph is put together.

  import opened HashInput
  import opened Graphs
  import opened Tables
  import opened ClientGraph

  // ---- order of first appearance

  /** first lists the places at which an item of s appears for the first time, from left to right. */
  predicate FirstTimes<T(==)>(s: seq<T>, first: seq<nat>) {
    && (forall j, k :: 0 <= j < k < |first| ==> first[j] < first[k])
    && (forall k :: 0 <= k < |first| ==> first[k] < |s| && s[first[k]] !in s[..first[k]])
    && forall i :: 0 <= i < |s| && s[i] !in s[..i] ==> i in first
  }

  /** The items of t stand at the given places of s. */
  predicate StandAt<T(==)>(s: seq<T>, t: seq<T>, places: seq<nat>) {
    |t| == |places| && forall k :: 0 <= k < |t| ==> places[k] < |s| && t[k] == s[places[k]]
  }

  lemma {:induction false} OnceInOrder(s: seq<int>) returns (first: seq<nat>)
    ensures FirstTimes(s, first) && StandAt(s, Once(s), first)
  {
    hide FirstTimes, StandAt, Once;
    if s == [] {
      first := [];
      NoneYet();
    } else {
      var front, x := s[..|s| - 1], s[|s| - 1];
      first := OnceInOrder(front);
      OneMore(front, x, first);
      OnceMore(front, x, first);
      assert s == front + [x];
      first := if x in front then first else first + [|front|];
    }
  }

  lemma NoneYet()
    ensures FirstTimes<int>([], []) && StandAt<int>([], Once([]), [])
  {
  }

  lemma OnceHolds(s: seq<int>, x: int)
    ensures x in Once(s) <==> x in s
  {
    OnceIs(s);
    assert x in ToSet(Once(s)) <==> x in ToSet(s);
  }

  lemma OnceNext(front: seq<int>, x: int)
    ensures Once(front + [x]) == if x in front then Once(front) else Once(front) + [x]
  {
    OnceHolds(front, x);
    assert (front + [x])[..|front|] == front;
  }

  lemma OnceMore(front: seq<int>, x: int, first: seq<nat>)
    requires StandAt(front, Once(front), first)
    ensures StandAt(front + [x], Once(front + [x]), if x in front then first else first + [|front|])
  {
    OnceNext(front, x);
    hide Once;
  }

  lemma OneMore(front: seq<int>, x: int, first: seq<nat>)
    requires FirstTimes(front, first)
    ensures FirstTimes(front + [x], if x in front then first else first + [|front|])
  {
    var s, next := front + [x], if x in front then first else first + [|front|];
    assert s[..|front|] == front;
    forall i | 0 <= i < |front| ensures s[..i] == front[..i] && s[i] == front[i] {
    }
    forall i | 0 <= i < |s| && s[i] !in s[..i] ensures i in next {
      if i < |front| {
        assert front[i] !in front[..i] && i in first;
      } else {
        assert next[|first|] == i;
      }
    }
  }

  /** Lists that repeat their items at the same places have the same first appearances. */
  lemma SameFirstTimes<S, T>(s: seq<S>, t: seq<T>, first: seq<nat>)
    requires |s| == |t| && FirstTimes(s, first)
    requires forall i, j :: 0 <= i < |s| && 0 <= j < |s| ==> (s[i] == s[j] <==> t[i] == t[j])
    ensures FirstTimes(t, first)
  {
    forall i | 0 <= i < |s| ensures s[i] in s[..i] <==> t[i] in t[..i] {
      if s[i] in s[..i] {
        var j :| 0 <= j < i && s[..i][j] == s[i];
        assert t[..i][j] == t[i];
      }
      if t[i] in t[..i] {
        var j :| 0 <= j < i && t[..i][j] == t[i];
        assert s[..i][j] == s[i];
      }
    }
  }

  // ---- compiles

  /** A compile is made of the first unit with its key. */
  lemma CompileIs(m: Manifest, units: seq<KeyedUnit>, p: Plan, libTask: map<string, int>, tasks: seq<TaskSpec>, i: nat)
    returns (f: nat)
    requires GoodManifest(m.targets) && IsClientGraph(m, units, p, libTask, tasks)
    requires i < |tasks| && tasks[i].kind == Compile
    ensures f < |units| && forall e :: 0 <= e < f ==> units[e].key != units[f].key
    ensures var (t, u) := (tasks[i], units[f]);
            && t.id == i && t.name == "obj/" + u.src + ".o" && t.deps == [] && t.key == u.key && t.input == u.digest
            && t.args == [u.driver, "-x", if u.lang == "c" then "cpp-output" else "c++-cpp-output"] + u.flags
            && t.cost == u.cost
  {
    CompilesComeFirst(m, units, p, libTask, tasks, i);
    assert Made(units, tasks[..p.compiles], |units|, i);
    var g :| g < |units| && MadeFrom(units, tasks[..p.compiles], i, g);
    f := g;
    assert tasks[i] == tasks[..p.compiles][i];
  }

  /** Each unit's key is compiled, and once. */
  lemma UnitIsCompiled(m: Manifest, units: seq<KeyedUnit>, p: Plan, libTask: map<string, int>, tasks: seq<TaskSpec>,
                       u: nat)
    returns (i: nat)
    requires GoodManifest(m.targets) && IsClientGraph(m, units, p, libTask, tasks) && u < |units|
    ensures i == p.unitTask[u] < |tasks|
    ensures forall j :: 0 <= j < |tasks| ==> (tasks[j].kind == Compile && tasks[j].key == units[u].key <==> j == i)
  {
    SourceCompiled(m, units, p, libTask, tasks, u);
    i := p.unitTask[u];
    forall j | 0 <= j < |tasks| && tasks[j].kind == Compile && tasks[j].key == units[u].key ensures j == i {
      CompilesComeFirst(m, units, p, libTask, tasks, j);
      var front := tasks[..p.compiles];
      assert front[i].key == front[j].key;
    }
  }

  // ---- what archives and links wait for

  predicate Keyed(units: seq<KeyedUnit>, unitOf: map<string, nat>, sources: seq<string>) {
    forall k :: 0 <= k < |sources| ==> sources[k] in unitOf && unitOf[sources[k]] < |units|
  }

  function SourceKeys(units: seq<KeyedUnit>, unitOf: map<string, nat>, sources: seq<string>): seq<string>
    requires Keyed(units, unitOf, sources)
  {
    seq(|sources|, k requires 0 <= k < |sources| => units[unitOf[sources[k]]].key)
  }

  /** The dependencies begin with compiles of the keys at the given places, in this order. */
  predicate BeginWith(tasks: seq<TaskSpec>, deps: seq<int>, keys: seq<string>, first: seq<nat>) {
    && |first| <= |deps|
    && forall k :: 0 <= k < |first| ==>
      && 0 <= deps[k] < |tasks| && first[k] < |keys|
      && tasks[deps[k]].kind == Compile && tasks[deps[k]].key == keys[first[k]]
  }

  lemma ObjectsInOrder(m: Manifest, units: seq<KeyedUnit>, p: Plan, libTask: map<string, int>, tasks: seq<TaskSpec>,
                       j: nat)
    returns (first: seq<nat>)
    requires GoodManifest(m.targets) && IsClientGraph(m, units, p, libTask, tasks) && j < |m.targets|
    ensures var sources := m.targets[j].sources;
            && Keyed(units, p.unitOf, sources) && KnowsTasks(sources, p.unitOf, p.unitTask)
            && var keys, objects := SourceKeys(units, p.unitOf, sources),
                                    Once(SourceTasks(sources, p.unitOf, p.unitTask));
            FirstTimes(keys, first) && |first| == |objects| && BeginWith(tasks, objects, keys, first)
  {
    var sources := m.targets[j].sources;
    assert KnowsTasks(sources, p.unitOf, p.unitTask) && |p.unitTask| == |units|;
    var all, keys := SourceTasks(sources, p.unitOf, p.unitTask), SourceKeys(units, p.unitOf, sources);
    first := OnceInOrder(all);
    hide Once, FirstTimes, IsClientGraph, GoodManifest;
    forall h | 0 <= h < |sources|
      ensures 0 <= all[h] < |tasks| && tasks[all[h]].kind == Compile && tasks[all[h]].key == keys[h]
      ensures forall g :: 0 <= g < |sources| && keys[g] == keys[h] ==> all[g] == all[h]
    {
      var i := UnitIsCompiled(m, units, p, libTask, tasks, p.unitOf[sources[h]]);
      forall g | 0 <= g < |sources| && keys[g] == keys[h] ensures all[g] == all[h] {
        var e := UnitIsCompiled(m, units, p, libTask, tasks, p.unitOf[sources[g]]);
      }
    }
    SameFirstTimes(all, keys, first);
  }

  // ---- archives

  /**
    The task of a library waits for exactly the compiles of its sources' keys, once each, in order of first appearance.
   */
  lemma LibraryIs(m: Manifest, units: seq<KeyedUnit>, p: Plan, libTask: map<string, int>, tasks: seq<TaskSpec>, j: nat)
    returns (first: seq<nat>)
    requires GoodManifest(m.targets) && IsClientGraph(m, units, p, libTask, tasks)
    requires j < |m.targets| && m.targets[j].isLib
    ensures Keyed(units, p.unitOf, m.targets[j].sources)
    ensures var t := m.targets[j];
            && t.name in libTask && 0 <= libTask[t.name] < |tasks|
            && var (task, keys) := (tasks[libTask[t.name]], SourceKeys(units, p.unitOf, t.sources));
            && FirstTimes(keys, first) && BeginWith(tasks, task.deps, keys, first) && |task.deps| == |first|
            && task.id == libTask[t.name] && task.kind == Archive && task.name == "lib" + t.name + ".a"
            && task.key == task.input == "" && task.args == [] && task.cost == 1000
  {
    var t, libs := m.targets[j], Libraries(m);
    assert t.name in libTask && IsPlaced(p, libs, libTask, t.name);
    var id := libTask[t.name];
    assert IsArchive(p, tasks, libs[id - p.compiles], p.compiles + (id - p.compiles));
    var h := ChosenFrom(m.targets, true, |m.targets|, id - p.compiles);
    assert h == j;
    first := ObjectsInOrder(m, units, p, libTask, tasks, j);
  }

  // ---- links

  predicate IsLastDot(src: string, d: nat) { d < |src| && src[d] == '.' && '.' !in src[d + 1..] }

  ghost predicate HasExtension(src: string, part: string) { exists d :: IsLastDot(src, d) && src[d + 1..] == part }

  ghost predicate CxxName(src: string) {
    HasExtension(src, "cc") || HasExtension(src, "cpp") || HasExtension(src, "cxx") || HasExtension(src, "C")
  }

  ghost predicate HasCxx(t: Target) { exists k :: 0 <= k < |t.sources| && CxxName(t.sources[k]) }

  /** Some source of the program, or of a library that it names, is C++. */
  ghost predicate UsesCxx(targets: seq<Target>, t: Target) {
    HasCxx(t) || exists j :: 0 <= j < |targets| && targets[j].isLib && targets[j].name in t.libs && HasCxx(targets[j])
  }

  lemma CxxNameIs(src: string)
    ensures IsCxx(src) <==> CxxName(src)
  {
    BehindLastDot(src, "cc");
    BehindLastDot(src, "cpp");
    BehindLastDot(src, "cxx");
    BehindLastDot(src, "C");
    hide HasSuffix, HasExtension;
    assert "." + "cc" == ".cc" && "." + "cpp" == ".cpp" && "." + "cxx" == ".cxx" && "." + "C" == ".C";
  }

  lemma BehindLastDot(src: string, part: string)
    requires '.' !in part
    ensures HasSuffix(src, "." + part) <==> HasExtension(src, part)
  {
    var d := |src| - |part| - 1;
    if HasSuffix(src, "." + part) {
      assert src[d..][0] == '.' && src[d..][1..] == src[d + 1..] == part;
      assert IsLastDot(src, d);
    }
    forall e: nat | IsLastDot(src, e) && src[e + 1..] == part ensures HasSuffix(src, "." + part) {
      assert src[e..] == "." + src[e + 1..];
    }
  }

  lemma NeedsCxxIs(targets: seq<Target>, t: Target)
    ensures NeedsCxx(targets, t) <==> UsesCxx(targets, t)
  {
    forall u: Target ensures AnyCxx(u.sources) <==> HasCxx(u) {
      forall k | 0 <= k < |u.sources| ensures IsCxx(u.sources[k]) <==> CxxName(u.sources[k]) {
        CxxNameIs(u.sources[k]);
      }
    }
    hide AnyCxx, HasCxx;
    forall j | 0 <= j < |targets| && targets[j].isLib && targets[j].name in t.libs && HasCxx(targets[j])
      ensures exists k :: LinksCxx(targets, t.libs, j, k)
    {
      var k :| 0 <= k < |t.libs| && t.libs[k] == targets[j].name;
      assert LinksCxx(targets, t.libs, j, k);
    }
  }

  lemma {:induction false} ChosenIs(targets: seq<Target>, isLib: bool, n: nat, j: nat) returns (k: nat)
    requires j < n <= |targets| && targets[j].isLib == isLib
    ensures k < |Chosen(targets, isLib, n)| && Chosen(targets, isLib, n)[k] == targets[j]
  {
    if j == n - 1 {
      k := |Chosen(targets, isLib, n - 1)|;
    } else {
      k := ChosenIs(targets, isLib, n - 1, j);
    }
  }

  /**
    A program has a link, which waits for exactly the compiles of its sources' keys, once each, in order of first
    appearance, and then for the archives of its libraries, in the order it names them.
   */
  lemma ProgramIs(m: Manifest, units: seq<KeyedUnit>, p: Plan, libTask: map<string, int>, tasks: seq<TaskSpec>, j: nat)
    returns (id: nat, first: seq<nat>)
    requires GoodManifest(m.targets) && IsClientGraph(m, units, p, libTask, tasks)
    requires j < |m.targets| && !m.targets[j].isLib
    ensures Keyed(units, p.unitOf, m.targets[j].sources) && id < |tasks|
    ensures var (t, task) := (m.targets[j], tasks[id]);
            var keys := SourceKeys(units, p.unitOf, t.sources);
            && FirstTimes(keys, first) && BeginWith(tasks, task.deps, keys, first)
            && |task.deps| == |first| + |t.libs|
            && (forall k :: 0 <= k < |t.libs| ==> LinksLibrary(tasks, task.deps[|first| + k], t.libs[k]))
            && task.id == id && task.kind == Link && task.name == t.name && task.key == task.input == ""
            && task.args == [if UsesCxx(m.targets, t) then m.cxx else m.cc] + m.ldflags && task.cost == 5000
  {
    var t := m.targets[j];
    var k := ChosenIs(m.targets, false, |m.targets|, j);
    id := FirstLink(m, p) + k;
    assert IsLink(m, p, libTask, tasks, t, id);
    first := ObjectsInOrder(m, units, p, libTask, tasks, j);
    NeedsCxxIs(m.targets, t);
    forall h | 0 <= h < |t.libs| ensures LinksLibrary(tasks, tasks[id].deps[|first| + h], t.libs[h]) {
      assert IsLibrary(m.targets, t.libs[h]) by { assert GoodTarget(m.targets, t); }
      var e :| 0 <= e < |m.targets| && m.targets[e].isLib && m.targets[e].name == t.libs[h];
      var f := LibraryIs(m, units, p, libTask, tasks, e);
    }
  }

  predicate LinksLibrary(tasks: seq<TaskSpec>, dep: int, name: string) {
    0 <= dep < |tasks| && tasks[dep].kind == Archive && tasks[dep].name == "lib" + name + ".a"
  }

  // ---- nothing else

  /** Every archive is named after a library and every link after a program. */
  lemma NoOtherTasks(m: Manifest, units: seq<KeyedUnit>, p: Plan, libTask: map<string, int>, tasks: seq<TaskSpec>,
                     i: nat)
    returns (j: nat)
    requires GoodManifest(m.targets) && IsClientGraph(m, units, p, libTask, tasks)
    requires i < |tasks| && tasks[i].kind != Compile
    ensures j < |m.targets| && m.targets[j].isLib == (tasks[i].kind == Archive)
    ensures tasks[i].name == if m.targets[j].isLib then "lib" + m.targets[j].name + ".a" else m.targets[j].name
  {
    CompilesComeFirst(m, units, p, libTask, tasks, i);
    if i < FirstLink(m, p) {
      var k := i - p.compiles;
      assert IsArchive(p, tasks, Libraries(m)[k], p.compiles + k);
      j := ChosenFrom(m.targets, true, |m.targets|, k);
      ChosenKind(m.targets, true, |m.targets|, k);
    } else {
      hide NeedsCxx, Once;
      var k := i - FirstLink(m, p);
      assert IsLink(m, p, libTask, tasks, Programs(m)[k], FirstLink(m, p) + k);
      j := ChosenFrom(m.targets, false, |m.targets|, k);
      ChosenKind(m.targets, false, |m.targets|, k);
    }
  }

  lemma {:induction false} ChosenKind(targets: seq<Target>, isLib: bool, n: nat, k: nat)
    requires n <= |targets| && k < |Chosen(targets, isLib, n)|
    ensures Chosen(targets, isLib, n)[k].isLib == isLib
  {
    if k < |Chosen(targets, isLib, n - 1)| { ChosenKind(targets, isLib, n - 1, k); }
  }
}
