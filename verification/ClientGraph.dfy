/** The client's task graph. */
module ClientGraph {
  // One compile for each distinct key, an archive for each library, a link for each program.

  import opened HashInput
  import opened Graphs
  import opened Tables
  import opened BlobStore
  import opened Steps

  datatype Target = Target(isLib: bool, name: string, sources: seq<string>, libs: seq<string>)

  datatype Manifest = Manifest(cc: string, cxx: string, ldflags: seq<string>, targets: seq<Target>)

  /** A translation unit once its key is known. */
  datatype KeyedUnit = KeyedUnit(src: string, key: string, digest: string, cost: int, driver: string, lang: string,
                                 flags: seq<string>)

  // ---- what reading the manifest guarantees

  predicate DistinctNames(names: seq<string>) { forall j, k :: 0 <= j < k < |names| ==> names[j] != names[k] }

  predicate TargetsDiffer(targets: seq<Target>) {
    forall j, k :: 0 <= j < k < |targets| ==> targets[j].name != targets[k].name
  }

  predicate IsLibrary(targets: seq<Target>, name: string) {
    exists j :: 0 <= j < |targets| && targets[j].isLib && targets[j].name == name
  }

  predicate GoodTarget(targets: seq<Target>, t: Target) {
    t.sources != [] && forall k :: 0 <= k < |t.libs| ==> IsLibrary(targets, t.libs[k])
  }

  predicate GoodManifest(targets: seq<Target>) {
    TargetsDiffer(targets) && forall j :: 0 <= j < |targets| ==> GoodTarget(targets, targets[j])
  }

  // ---- one unit for each distinct source

  predicate Numbers(srcs: seq<string>, unitOf: map<string, nat>) {
    && (forall s :: s in unitOf ==> unitOf[s] < |srcs| && srcs[unitOf[s]] == s)
    && (forall i :: 0 <= i < |srcs| ==> srcs[i] in unitOf && unitOf[srcs[i]] == i)
  }

  predicate Knows(unitOf: map<string, nat>, sources: seq<string>) {
    forall k :: 0 <= k < |sources| ==> sources[k] in unitOf
  }

  predicate IsSource(targets: seq<Target>, n: nat, s: string)
    requires n <= |targets|
  {
    exists j :: 0 <= j < n && s in targets[j].sources
  }

  lemma SourceIn(targets: seq<Target>, j: nat, k: nat)
    requires j < |targets| && k < |targets[j].sources|
    ensures IsSource(targets, j + 1, targets[j].sources[k])
    ensures forall s :: IsSource(targets, j, s) ==> IsSource(targets, j + 1, s)
  {
  }

  lemma SourcesStay(targets: seq<Target>, j: nat)
    requires j < |targets|
    ensures forall s :: IsSource(targets, j, s) ==> IsSource(targets, j + 1, s)
  {
  }

  method DistinctSources(targets: seq<Target>) returns (srcs: seq<string>, unitOf: map<string, nat>)
    ensures Numbers(srcs, unitOf) && DistinctNames(srcs)
    ensures forall j :: 0 <= j < |targets| ==> Knows(unitOf, targets[j].sources)
    ensures forall i :: 0 <= i < |srcs| ==> IsSource(targets, |targets|, srcs[i])
  {
    hide IsSource;
    srcs, unitOf := [], map[];
    for j := 0 to |targets|
      invariant Numbers(srcs, unitOf)
      invariant forall h :: 0 <= h < j ==> Knows(unitOf, targets[h].sources)
      invariant forall i :: 0 <= i < |srcs| ==> IsSource(targets, j, srcs[i])
    {
      var sources := targets[j].sources;
      SourcesStay(targets, j);
      for k := 0 to |sources|
        invariant Numbers(srcs, unitOf)
        invariant forall h :: 0 <= h < j ==> Knows(unitOf, targets[h].sources)
        invariant forall m :: 0 <= m < k ==> sources[m] in unitOf
        invariant forall i :: 0 <= i < |srcs| ==> IsSource(targets, j + 1, srcs[i])
      {
        if sources[k] !in unitOf {
          SourceIn(targets, j, k);
          unitOf := unitOf[sources[k] := |srcs|];
          srcs := srcs + [sources[k]];
        }
      }
    }
    assert forall j, k :: 0 <= j < k < |srcs| ==> unitOf[srcs[j]] != unitOf[srcs[k]];
  }

  // ---- compiles

  function CompileArgs(u: KeyedUnit): seq<string> {
    [u.driver, "-x", if u.lang == "c" then "cpp-output" else "c++-cpp-output"] + u.flags
  }

  function CompileTask(id: int, u: KeyedUnit): TaskSpec {
    TaskSpec(id, Compile, "obj/" + u.src + ".o", [], u.key, u.digest, CompileArgs(u), u.cost)
  }

  /** Task j was made from unit f, the first with its key. */
  predicate MadeFrom(units: seq<KeyedUnit>, tasks: seq<TaskSpec>, j: int, f: int) {
    && 0 <= f < |units| && 0 <= j < |tasks| && tasks[j] == CompileTask(j, units[f])
    && forall e :: 0 <= e < f ==> units[e].key != units[f].key
  }

  ghost predicate Made(units: seq<KeyedUnit>, tasks: seq<TaskSpec>, n: int, j: int) {
    exists f :: f < n && MadeFrom(units, tasks, j, f)
  }

  /** The tasks are the compiles of the first n units, whose tasks are listed in unitTask. */
  ghost predicate AreCompiles(units: seq<KeyedUnit>, tasks: seq<TaskSpec>, unitTask: seq<int>, n: nat) {
    && |unitTask| == n <= |units|
    && (forall i :: 0 <= i < n ==> 0 <= unitTask[i] < |tasks| && tasks[unitTask[i]].key == units[i].key)
    && (forall j :: 0 <= j < |tasks| ==> Made(units, tasks, n, j))
    && (forall j, k :: 0 <= j < k < |tasks| ==> tasks[j].key != tasks[k].key)
  }

  method Compiles(units: seq<KeyedUnit>) returns (tasks: seq<TaskSpec>, unitTask: seq<int>)
    ensures AreCompiles(units, tasks, unitTask, |units|)
  {
    tasks, unitTask := [], [];
    var taskOfKey: map<string, int> := map[];
    for i := 0 to |units|
      invariant AreCompiles(units, tasks, unitTask, i)
      invariant forall e :: 0 <= e < i ==> units[e].key in taskOfKey
      invariant forall j :: 0 <= j < |tasks| ==> tasks[j].key in taskOfKey
      invariant forall key :: key in taskOfKey ==> 0 <= taskOfKey[key] < |tasks| && tasks[taskOfKey[key]].key == key
    {
      var u := units[i];
      ghost var before := tasks;
      if u.key in taskOfKey {
        unitTask := unitTask + [taskOfKey[u.key]];
      } else {
        tasks := tasks + [CompileTask(|tasks|, u)];
        taskOfKey := taskOfKey[u.key := |tasks| - 1];
        unitTask := unitTask + [|tasks| - 1];
        assert MadeFrom(units, tasks, |before|, i);
      }
      ghost var next := i + 1;
      forall j | 0 <= j < |before|
        ensures Made(units, tasks, next, j)
      {
        assert Made(units, before, i, j);
        var f :| f < i && MadeFrom(units, before, j, f);
        assert MadeFrom(units, tasks, j, f);
      }
    }
  }

  // ---- dependencies of archives and links

  /** The numbers in order of first appearance. */
  function Once(s: seq<int>): seq<int> {
    if s == [] then []
    else
      var (front, x) := (Once(s[..|s| - 1]), s[|s| - 1]);
      if x in front then front else front + [x]
  }

  lemma {:induction false} OnceIs(s: seq<int>)
    ensures Distinct(Once(s)) && ToSet(Once(s)) == ToSet(s)
    ensures forall k :: 0 <= k < |Once(s)| ==> Once(s)[k] in s
  {
    if s != [] {
      var last := |s| - 1;
      OnceIs(s[..last]);
      assert ToSet(s) == ToSet(s[..last]) + {s[last]};
      var front := Once(s[..last]);
      assert s[last] in front <==> s[last] in ToSet(front);
      if s[last] !in front {
        assert ToSet(front + [s[last]]) == ToSet(front) + {s[last]};
      }
      forall k | 0 <= k < |Once(s)| ensures Once(s)[k] in s {
        assert Once(s)[k] in ToSet(Once(s));
      }
    }
  }

  predicate KnowsTasks(sources: seq<string>, unitOf: map<string, nat>, unitTask: seq<int>) {
    forall k :: 0 <= k < |sources| ==> sources[k] in unitOf && unitOf[sources[k]] < |unitTask|
  }

  function SourceTasks(sources: seq<string>, unitOf: map<string, nat>, unitTask: seq<int>): seq<int>
    requires KnowsTasks(sources, unitOf, unitTask)
  {
    seq(|sources|, k requires 0 <= k < |sources| => unitTask[unitOf[sources[k]]])
  }

  method ObjectDeps(sources: seq<string>, unitOf: map<string, nat>, unitTask: seq<int>) returns (deps: seq<int>)
    requires KnowsTasks(sources, unitOf, unitTask)
    ensures deps == Once(SourceTasks(sources, unitOf, unitTask))
  {
    deps := [];
    ghost var all := SourceTasks(sources, unitOf, unitTask);
    var seen := {};
    for k := 0 to |sources|
      invariant deps == Once(all[..k]) && seen == ToSet(deps)
    {
      var t := unitTask[unitOf[sources[k]]];
      assert all[..k + 1][..k] == all[..k] && all[k] == t;
      assert t in seen <==> t in deps;
      if t !in seen {
        ghost var before := deps;
        seen := seen + {t};
        deps := deps + [t];
        assert ToSet(deps) == ToSet(before) + {t};
      }
    }
    assert all[..|sources|] == all;
  }

  // ---- archives and links

  /** The libraries, or the programs, among the first n targets. */
  function Chosen(targets: seq<Target>, isLib: bool, n: nat): (r: seq<Target>)
    requires n <= |targets|
    ensures |r| <= n
  {
    if n == 0 then []
    else
      var front := Chosen(targets, isLib, n - 1);
      if targets[n - 1].isLib == isLib then front + [targets[n - 1]] else front
  }

  predicate HasSuffix(s: string, suffix: string) { |suffix| <= |s| && s[|s| - |suffix|..] == suffix }

  /** C++ by the part behind the last dot; everything else is C. */
  predicate IsCxx(src: string) {
    HasSuffix(src, ".cc") || HasSuffix(src, ".cpp") || HasSuffix(src, ".cxx") || HasSuffix(src, ".C")
  }

  predicate AnyCxx(sources: seq<string>) { exists k :: 0 <= k < |sources| && IsCxx(sources[k]) }

  predicate LinksCxx(targets: seq<Target>, libs: seq<string>, j: int, k: int) {
    0 <= j < |targets| && 0 <= k < |libs| && targets[j].isLib && targets[j].name == libs[k]
      && AnyCxx(targets[j].sources)
  }

  /** A program is linked by the C++ driver when one of its own sources, or one of its libraries' sources, is C++. */
  ghost predicate NeedsCxx(targets: seq<Target>, t: Target) {
    AnyCxx(t.sources) || exists j, k :: LinksCxx(targets, t.libs, j, k)
  }

  method FindCxx(sources: seq<string>) returns (cxx: bool)
    ensures cxx <==> AnyCxx(sources)
  {
    cxx := false;
    for k := 0 to |sources|
      invariant cxx <==> exists m :: 0 <= m < k && IsCxx(sources[m])
    {
      cxx := cxx || IsCxx(sources[k]);
    }
  }

  method LinkDriver(m: Manifest, t: Target) returns (driver: string)
    ensures driver == if NeedsCxx(m.targets, t) then m.cxx else m.cc
  {
    var cxx := FindCxx(t.sources);
    for k := 0 to |t.libs|
      invariant cxx <==> AnyCxx(t.sources) || exists j, h :: h < k && LinksCxx(m.targets, t.libs, j, h)
    {
      ghost var before := cxx;
      for j := 0 to |m.targets|
        invariant cxx <==> before || exists i :: i < j && LinksCxx(m.targets, t.libs, i, k)
      {
        if m.targets[j].isLib && m.targets[j].name == t.libs[k] {
          var uses := FindCxx(m.targets[j].sources);
          cxx := cxx || uses;
        }
        assert LinksCxx(m.targets, t.libs, j, k) ==> cxx;
      }
    }
    driver := if cxx then m.cxx else m.cc;
  }

  function ArchiveTask(id: int, t: Target, objects: seq<int>): TaskSpec {
    TaskSpec(id, Archive, "lib" + t.name + ".a", Once(objects), "", "", [], 1000)
  }

  predicate KnowsLibs(t: Target, libTask: map<string, int>) { forall k :: 0 <= k < |t.libs| ==> t.libs[k] in libTask }

  function LibTasks(libs: seq<string>, libTask: map<string, int>): seq<int>
    requires forall k :: 0 <= k < |libs| ==> libs[k] in libTask
  {
    seq(|libs|, k requires 0 <= k < |libs| => libTask[libs[k]])
  }

  /** The objects once each, then every library the target names, as often as it names it. */
  ghost function LinkTask(m: Manifest, id: int, t: Target, objects: seq<int>, libTask: map<string, int>): TaskSpec
    requires KnowsLibs(t, libTask)
  {
    TaskSpec(id, Link, t.name, Once(objects) + LibTasks(t.libs, libTask), "", "",
             [if NeedsCxx(m.targets, t) then m.cxx else m.cc] + m.ldflags, 5000)
  }

  /** How targets map to units and tasks. */
  datatype Plan = Plan(compiles: nat, unitOf: map<string, nat>, unitTask: seq<int>)

  ghost predicate PlanOk(p: Plan, units: seq<KeyedUnit>, m: Manifest) {
    && |p.unitTask| == |units|
    && (forall i :: 0 <= i < |units| ==> 0 <= p.unitTask[i] < p.compiles)
    && forall j :: 0 <= j < |m.targets| ==> KnowsTasks(m.targets[j].sources, p.unitOf, p.unitTask)
  }

  ghost predicate IsArchive(p: Plan, tasks: seq<TaskSpec>, t: Target, id: int)
  {
    0 <= id < |tasks| && KnowsTasks(t.sources, p.unitOf, p.unitTask)
    && tasks[id] == ArchiveTask(id, t, SourceTasks(t.sources, p.unitOf, p.unitTask))
  }

  ghost predicate IsLink(m: Manifest, p: Plan, libTask: map<string, int>, tasks: seq<TaskSpec>, t: Target, id: int)
  {
    0 <= id < |tasks| && KnowsTasks(t.sources, p.unitOf, p.unitTask) && KnowsLibs(t, libTask)
    && tasks[id] == LinkTask(m, id, t, SourceTasks(t.sources, p.unitOf, p.unitTask), libTask)
  }

  /**
    The archives of the libraries among the first n targets stand behind the compiles, in order; libTask finds them by
    name.
   */
  ghost predicate ArchivesDone(m: Manifest, p: Plan, tasks: seq<TaskSpec>, libTask: map<string, int>, n: nat) {
    n <= |m.targets| && ArchivesAre(p, tasks, Chosen(m.targets, true, n)) && LibsFound(m, p, libTask, n)
  }

  ghost predicate ArchivesAre(p: Plan, tasks: seq<TaskSpec>, libs: seq<Target>) {
    forall k :: 0 <= k < |libs| ==> IsArchive(p, tasks, libs[k], p.compiles + k)
  }

  predicate LibsFound(m: Manifest, p: Plan, libTask: map<string, int>, n: nat)
    requires n <= |m.targets|
  {
    var libs := Chosen(m.targets, true, n);
    && (forall j :: 0 <= j < n && m.targets[j].isLib ==> m.targets[j].name in libTask)
    && AllPlaced(p, libs, libTask)
  }

  predicate AllPlaced(p: Plan, libs: seq<Target>, libTask: map<string, int>) {
    forall name :: name in libTask ==> IsPlaced(p, libs, libTask, name)
  }

  predicate IsPlaced(p: Plan, libs: seq<Target>, libTask: map<string, int>, name: string)
    requires name in libTask
  {
    p.compiles <= libTask[name] < p.compiles + |libs| && libs[libTask[name] - p.compiles].name == name
  }

  method Archives(m: Manifest, p: Plan, compiles: seq<TaskSpec>, ghost units: seq<KeyedUnit>)
    returns (tasks: seq<TaskSpec>, libTask: map<string, int>)
    requires PlanOk(p, units, m) && |compiles| == p.compiles
    ensures ArchivesDone(m, p, tasks, libTask, |m.targets|)
    ensures |tasks| == FirstLink(m, p) && tasks[..p.compiles] == compiles
  {
    hide Once, SourceTasks;
    tasks, libTask := compiles, map[];
    for n := 0 to |m.targets|
      invariant ArchivesDone(m, p, tasks, libTask, n)
      invariant |tasks| == p.compiles + |Chosen(m.targets, true, n)| && tasks[..p.compiles] == compiles
    {
      var t := m.targets[n];
      if t.isLib {
        var deps := ObjectDeps(t.sources, p.unitOf, p.unitTask);
        ghost var before := tasks;
        tasks := tasks + [TaskSpec(|tasks|, Archive, "lib" + t.name + ".a", deps, "", "", [], 1000)];
        ArchiveAdded(p, before, tasks, Chosen(m.targets, true, n), t);
        LibFound(m, p, libTask, n);
        libTask := libTask[t.name := |tasks| - 1];
      }
    }
  }

  lemma ArchivesStay(p: Plan, tasks: seq<TaskSpec>, tasks': seq<TaskSpec>, t: Target, id: int)
    requires IsArchive(p, tasks, t, id) && |tasks| <= |tasks'| && tasks'[..|tasks|] == tasks
    ensures IsArchive(p, tasks', t, id)
  {
    assert tasks'[id] == tasks'[..|tasks|][id];
  }

  lemma ArchiveAdded(p: Plan, tasks: seq<TaskSpec>, tasks': seq<TaskSpec>, libs: seq<Target>, t: Target)
    requires ArchivesAre(p, tasks, libs) && |tasks| == p.compiles + |libs| < |tasks'| && tasks'[..|tasks|] == tasks
    requires IsArchive(p, tasks', t, |tasks|)
    ensures ArchivesAre(p, tasks', libs + [t])
  {
    hide IsArchive;
    forall k | 0 <= k < |libs| ensures IsArchive(p, tasks', libs[k], p.compiles + k) {
      ArchivesStay(p, tasks, tasks', libs[k], p.compiles + k);
    }
  }

  lemma LibPlaced(p: Plan, libs: seq<Target>, libTask: map<string, int>, t: Target)
    requires AllPlaced(p, libs, libTask)
    ensures AllPlaced(p, libs + [t], libTask[t.name := p.compiles + |libs|])
  {
    var libTask' := libTask[t.name := p.compiles + |libs|];
    forall name | name in libTask' ensures IsPlaced(p, libs + [t], libTask', name) {
      assert name != t.name ==> IsPlaced(p, libs, libTask, name);
    }
  }

  lemma LibFound(m: Manifest, p: Plan, libTask: map<string, int>, n: nat)
    requires n < |m.targets| && LibsFound(m, p, libTask, n) && m.targets[n].isLib
    ensures LibsFound(m, p, libTask[m.targets[n].name := p.compiles + |Chosen(m.targets, true, n)|], n + 1)
  {
    hide AllPlaced;
    LibPlaced(p, Chosen(m.targets, true, n), libTask, m.targets[n]);
  }

  function Libraries(m: Manifest): seq<Target> { Chosen(m.targets, true, |m.targets|) }

  function Programs(m: Manifest): seq<Target> { Chosen(m.targets, false, |m.targets|) }

  /** Where the links start, behind the compiles and the archives. */
  function FirstLink(m: Manifest, p: Plan): nat { p.compiles + |Libraries(m)| }

  ghost predicate LinksDone(m: Manifest, p: Plan, tasks: seq<TaskSpec>, libTask: map<string, int>, n: nat) {
    n <= |m.targets| && LinksAre(m, p, libTask, tasks, Chosen(m.targets, false, n), FirstLink(m, p))
  }

  ghost predicate LinksAre(m: Manifest, p: Plan, libTask: map<string, int>, tasks: seq<TaskSpec>, bins: seq<Target>,
                           first: nat)
  {
    forall k :: 0 <= k < |bins| ==> IsLink(m, p, libTask, tasks, bins[k], first + k)
  }

  method Links(m: Manifest, p: Plan, start: seq<TaskSpec>, libTask: map<string, int>, ghost units: seq<KeyedUnit>)
    returns (tasks: seq<TaskSpec>)
    requires GoodManifest(m.targets) && PlanOk(p, units, m) && ArchivesDone(m, p, start, libTask, |m.targets|)
    requires |start| == FirstLink(m, p)
    ensures LinksDone(m, p, tasks, libTask, |m.targets|)
    ensures |tasks| == |start| + |Programs(m)| && tasks[..|start|] == start
  {
    tasks := start;
    for n := 0 to |m.targets|
      invariant LinksDone(m, p, tasks, libTask, n)
      invariant |tasks| == |start| + |Chosen(m.targets, false, n)| && tasks[..|start|] == start
    {
      var t := m.targets[n];
      if !t.isLib {
        LibsAreKnown(m, p, start, libTask, n);
        var deps := ObjectDeps(t.sources, p.unitOf, p.unitTask);
        deps := AddLibs(deps, t.libs, libTask);
        var driver := LinkDriver(m, t);
        ghost var before := tasks;
        tasks := tasks + [TaskSpec(|tasks|, Link, t.name, deps, "", "", [driver] + m.ldflags, 5000)];
        LinkAdded(m, p, libTask, before, tasks, Chosen(m.targets, false, n), FirstLink(m, p), t);
      }
    }
  }

  method AddLibs(objects: seq<int>, libs: seq<string>, libTask: map<string, int>) returns (deps: seq<int>)
    requires forall k :: 0 <= k < |libs| ==> libs[k] in libTask
    ensures deps == objects + LibTasks(libs, libTask)
  {
    deps := objects;
    for k := 0 to |libs|
      invariant deps == objects + LibTasks(libs, libTask)[..k]
    {
      deps := deps + [libTask[libs[k]]];
    }
  }

  lemma LibsAreKnown(m: Manifest, p: Plan, tasks: seq<TaskSpec>, libTask: map<string, int>, n: nat)
    requires GoodManifest(m.targets) && ArchivesDone(m, p, tasks, libTask, |m.targets|) && n < |m.targets|
    ensures KnowsLibs(m.targets[n], libTask)
  {
    var t := m.targets[n];
    assert GoodTarget(m.targets, t);
    forall k | 0 <= k < |t.libs| ensures t.libs[k] in libTask {
      assert IsLibrary(m.targets, t.libs[k]);
      var j :| 0 <= j < |m.targets| && m.targets[j].isLib && m.targets[j].name == t.libs[k];
      assert m.targets[j].name in libTask;
    }
  }

  lemma LinksStay(m: Manifest, p: Plan, libTask: map<string, int>, tasks: seq<TaskSpec>, tasks': seq<TaskSpec>,
                  t: Target, id: int)
    requires IsLink(m, p, libTask, tasks, t, id) && |tasks| <= |tasks'| && tasks'[..|tasks|] == tasks
    ensures IsLink(m, p, libTask, tasks', t, id)
  {
    hide LinkTask;
    assert tasks'[id] == tasks'[..|tasks|][id];
  }

  lemma LinkAdded(m: Manifest, p: Plan, libTask: map<string, int>, tasks: seq<TaskSpec>, tasks': seq<TaskSpec>,
                  bins: seq<Target>, first: nat, t: Target)
    requires LinksAre(m, p, libTask, tasks, bins, first) && |tasks| == first + |bins| < |tasks'|
             && tasks'[..|tasks|] == tasks
    requires IsLink(m, p, libTask, tasks', t, |tasks|)
    ensures LinksAre(m, p, libTask, tasks', bins + [t], first)
  {
    hide IsLink;
    forall k | 0 <= k < |bins| ensures IsLink(m, p, libTask, tasks', bins[k], first + k) {
      LinksStay(m, p, libTask, tasks, tasks', bins[k], first + k);
    }
  }

  // ---- the graph

  /** Compiles, then archives, then links. */
  ghost predicate IsClientGraph(m: Manifest, units: seq<KeyedUnit>, p: Plan, libTask: map<string, int>,
                                tasks: seq<TaskSpec>)
  {
    && p.compiles <= |tasks| && AreCompiles(units, tasks[..p.compiles], p.unitTask, |units|)
    && PlanOk(p, units, m)
    && ArchivesDone(m, p, tasks, libTask, |m.targets|) && LinksDone(m, p, tasks, libTask, |m.targets|)
    && |tasks| == FirstLink(m, p) + |Programs(m)|
  }

  method BuildGraph(m: Manifest, units: seq<KeyedUnit>, unitOf: map<string, nat>)
    returns (tasks: seq<TaskSpec>, p: Plan, libTask: map<string, int>)
    requires GoodManifest(m.targets)
    requires forall s :: s in unitOf ==> unitOf[s] < |units|
    requires forall j :: 0 <= j < |m.targets| ==> Knows(unitOf, m.targets[j].sources)
    ensures IsClientGraph(m, units, p, libTask, tasks) && p.unitOf == unitOf
  {
    var compiles, unitTask := Compiles(units);
    var plan := Plan(|compiles|, unitOf, unitTask);
    var archived, libs := Archives(m, plan, compiles, units);
    tasks := Links(m, plan, archived, libs, units);
    p, libTask := plan, libs;
    assert tasks[..p.compiles] == compiles by {
      assert tasks[..|archived|][..p.compiles] == archived[..p.compiles];
    }
    forall k | 0 <= k < |Libraries(m)|
      ensures IsArchive(p, tasks, Libraries(m)[k], p.compiles + k)
    {
      assert IsArchive(p, archived, Libraries(m)[k], p.compiles + k);
      assert tasks[..|archived|][p.compiles + k] == tasks[p.compiles + k];
    }
  }

  // ---- what the coordinator is promised

  lemma {:induction false} ChosenFrom(targets: seq<Target>, isLib: bool, n: nat, k: nat) returns (j: nat)
    requires n <= |targets| && k < |Chosen(targets, isLib, n)|
    ensures j < n && targets[j] == Chosen(targets, isLib, n)[k]
  {
    if k == |Chosen(targets, isLib, n)| - 1 && targets[n - 1].isLib == isLib {
      j := n - 1;
    } else {
      j := ChosenFrom(targets, isLib, n - 1, k);
    }
  }

  /** What a task of the client's graph looks like: its id is its place and it waits for earlier tasks only. */
  predicate WaitsForEarlier(tasks: seq<TaskSpec>, i: int) {
    && 0 <= i < |tasks| && tasks[i].id == i
    && (forall k :: 0 <= k < |tasks[i].deps| ==> 0 <= tasks[i].deps[k] < i)
    && (tasks[i].kind.Compile? <==> tasks[i].deps == [])
  }

  lemma ObjectsAreCompiles(m: Manifest, units: seq<KeyedUnit>, p: Plan, j: nat)
    requires PlanOk(p, units, m) && j < |m.targets| && GoodTarget(m.targets, m.targets[j])
    ensures KnowsTasks(m.targets[j].sources, p.unitOf, p.unitTask)
    ensures var objects := Once(SourceTasks(m.targets[j].sources, p.unitOf, p.unitTask));
            objects != [] && Distinct(objects) && forall k :: 0 <= k < |objects| ==> 0 <= objects[k] < p.compiles
  {
    assert KnowsTasks(m.targets[j].sources, p.unitOf, p.unitTask);
    var all := SourceTasks(m.targets[j].sources, p.unitOf, p.unitTask);
    OnceIs(all);
    assert all[0] in ToSet(all);
  }

  lemma LinkWaits(m: Manifest, units: seq<KeyedUnit>, p: Plan, libTask: map<string, int>, tasks: seq<TaskSpec>, k: nat)
    requires GoodManifest(m.targets) && IsClientGraph(m, units, p, libTask, tasks) && k < |Programs(m)|
    ensures WaitsForEarlier(tasks, FirstLink(m, p) + k)
  {
    hide NeedsCxx, IsArchive;
    var bin := Programs(m)[k];
    assert IsLink(m, p, libTask, tasks, bin, FirstLink(m, p) + k);
    var j := ChosenFrom(m.targets, false, |m.targets|, k);
    ObjectsAreCompiles(m, units, p, j);
    forall h | 0 <= h < |bin.libs| ensures 0 <= LibTasks(bin.libs, libTask)[h] < FirstLink(m, p) {
      assert IsPlaced(p, Libraries(m), libTask, bin.libs[h]);
    }
  }

  lemma EachWaitsForEarlier(m: Manifest, units: seq<KeyedUnit>, p: Plan, libTask: map<string, int>,
                            tasks: seq<TaskSpec>, i: nat)
    requires GoodManifest(m.targets) && IsClientGraph(m, units, p, libTask, tasks) && i < |tasks|
    ensures WaitsForEarlier(tasks, i)
  {
    var libs := Libraries(m);
    if i < p.compiles {
      assert Made(units, tasks[..p.compiles], |units|, i);
      assert tasks[i] == tasks[..p.compiles][i];
    } else if i < FirstLink(m, p) {
      var k := i - p.compiles;
      assert IsArchive(p, tasks, libs[k], p.compiles + k);
      var j := ChosenFrom(m.targets, true, |m.targets|, k);
      ObjectsAreCompiles(m, units, p, j);
    } else {
      LinkWaits(m, units, p, libTask, tasks, i - FirstLink(m, p));
    }
  }

  /**
    Ids are places, compiles wait for nothing, everything else for something, and only for earlier tasks: no cycles.
   */
  lemma GraphIsSound(m: Manifest, units: seq<KeyedUnit>, p: Plan, libTask: map<string, int>, spec: BuildSpec)
    requires GoodManifest(m.targets) && IsClientGraph(m, units, p, libTask, spec.tasks)
    ensures WellFormed(GraphOf(spec)) && Acyclic(GraphOf(spec)) && CompilesHaveNoDeps(spec)
    ensures forall i :: 0 <= i < |spec.tasks| && !spec.tasks[i].kind.Compile? ==> spec.tasks[i].deps != []
  {
    var g := GraphOf(spec);
    forall i | 0 <= i < |spec.tasks|
      ensures WaitsForEarlier(spec.tasks, i) && spec.tasks[i].id == i
              && (spec.tasks[i].kind.Compile? <==> spec.tasks[i].deps == [])
    {
      EachWaitsForEarlier(m, units, p, libTask, spec.tasks, i);
    }
    var r: seq<nat> := seq(|g|, i requires 0 <= i < |g| => i);
    forall i, d | 0 <= i < |g| && d in g[i].deps ensures GoodDep(g, i, d) && r[d] < r[i] {
      assert WaitsForEarlier(spec.tasks, i);
    }
    assert IsRanking(g, r);
  }

  lemma LibTasksDistinct(m: Manifest, p: Plan, tasks: seq<TaskSpec>, libTask: map<string, int>, t: Target)
    requires ArchivesDone(m, p, tasks, libTask, |m.targets|) && KnowsLibs(t, libTask)
    ensures Distinct(LibTasks(t.libs, libTask)) <==> DistinctNames(t.libs)
    ensures forall k :: 0 <= k < |t.libs| ==> LibTasks(t.libs, libTask)[k] >= p.compiles
  {
    hide IsArchive;
    forall k | 0 <= k < |t.libs| ensures LibTasks(t.libs, libTask)[k] >= p.compiles {
      assert IsPlaced(p, Libraries(m), libTask, t.libs[k]);
    }
    forall j, k | 0 <= j < k < |t.libs|
      ensures LibTasks(t.libs, libTask)[j] == LibTasks(t.libs, libTask)[k] <==> t.libs[j] == t.libs[k]
    {
      assert IsPlaced(p, Libraries(m), libTask, t.libs[j]) && IsPlaced(p, Libraries(m), libTask, t.libs[k]);
    }
    if Distinct(LibTasks(t.libs, libTask)) {
      forall j, k | 0 <= j < k < |t.libs| ensures t.libs[j] != t.libs[k] {
        assert LibTasks(t.libs, libTask)[j] != LibTasks(t.libs, libTask)[k];
      }
    }
  }

  lemma DistinctConcat(a: seq<int>, b: seq<int>, n: int)
    requires Distinct(a) && (forall k :: 0 <= k < |a| ==> a[k] < n) && forall k :: 0 <= k < |b| ==> n <= b[k]
    ensures Distinct(a + b) <==> Distinct(b)
  {
    if Distinct(a + b) {
      forall j, k | 0 <= j < k < |b| ensures b[j] != b[k] {
        assert (a + b)[|a| + j] == b[j] && (a + b)[|a| + k] == b[k];
      }
    }
  }

  lemma SourceCompiled(m: Manifest, units: seq<KeyedUnit>, p: Plan, libTask: map<string, int>, tasks: seq<TaskSpec>,
                       i: nat)
    requires GoodManifest(m.targets) && IsClientGraph(m, units, p, libTask, tasks) && i < |units|
    ensures var t := p.unitTask[i]; 0 <= t < p.compiles && tasks[t].kind.Compile? && tasks[t].key == units[i].key
  {
    CompilesComeFirst(m, units, p, libTask, tasks, p.unitTask[i]);
    assert tasks[..p.compiles][p.unitTask[i]].key == units[i].key;
  }

  predicate LibsDistinct(t: Target) { DistinctNames(t.libs) }

  lemma LinkDepsDistinct(m: Manifest, units: seq<KeyedUnit>, p: Plan, libTask: map<string, int>, tasks: seq<TaskSpec>,
                         k: nat)
    requires GoodManifest(m.targets) && IsClientGraph(m, units, p, libTask, tasks) && k < |Programs(m)|
    ensures var i := FirstLink(m, p) + k;
            Distinct(tasks[i].deps) <==> LibsDistinct(Programs(m)[k])
  {
    var bin := Programs(m)[k];
    assert IsLink(m, p, libTask, tasks, bin, FirstLink(m, p) + k);
    var j := ChosenFrom(m.targets, false, |m.targets|, k);
    ObjectsAreCompiles(m, units, p, j);
    LibTasksDistinct(m, p, tasks, libTask, bin);
    DistinctConcat(Once(SourceTasks(bin.sources, p.unitOf, p.unitTask)), LibTasks(bin.libs, libTask), p.compiles);
  }

  lemma OtherDepsDistinct(m: Manifest, units: seq<KeyedUnit>, p: Plan, libTask: map<string, int>, tasks: seq<TaskSpec>,
                          i: nat)
    requires GoodManifest(m.targets) && IsClientGraph(m, units, p, libTask, tasks)
    requires i < FirstLink(m, p)
    ensures Distinct(tasks[i].deps)
  {
    if i < p.compiles {
      assert Made(units, tasks[..p.compiles], |units|, i);
      assert tasks[i] == tasks[..p.compiles][i];
    } else {
      var libs := Libraries(m);
      assert IsArchive(p, tasks, libs[i - p.compiles], p.compiles + (i - p.compiles));
      var j := ChosenFrom(m.targets, true, |m.targets|, i - p.compiles);
      ObjectsAreCompiles(m, units, p, j);
    }
  }

  /** The dependencies are distinct exactly when no program names a library twice. */
  lemma DistinctWhenLibsAre(m: Manifest, units: seq<KeyedUnit>, p: Plan, libTask: map<string, int>, spec: BuildSpec)
    requires GoodManifest(m.targets) && IsClientGraph(m, units, p, libTask, spec.tasks)
    ensures DepsDistinct(spec) <==>
            forall k :: 0 <= k < |Programs(m)| ==> LibsDistinct(Programs(m)[k])
  {
    hide LinksAre, ArchivesDone, LibsDistinct;
    var bins := Programs(m);
    var first := FirstLink(m, p);
    forall i | 0 <= i < |spec.tasks|
      ensures Distinct(spec.tasks[i].deps) <==> i < first || LibsDistinct(bins[i - first])
    {
      if i < first {
        OtherDepsDistinct(m, units, p, libTask, spec.tasks, i);
      } else {
        LinkDepsDistinct(m, units, p, libTask, spec.tasks, i - first);
      }
    }
    forall k | 0 <= k < |bins|
      ensures LibsDistinct(bins[k]) <==> Distinct(spec.tasks[first + k].deps)
    {
    }
  }

  predicate WellKeyed(u: KeyedUnit) { ValidHash(u.key) && ValidHash(u.digest) }

  lemma CompilesKeyed(m: Manifest, units: seq<KeyedUnit>, p: Plan, libTask: map<string, int>, spec: BuildSpec)
    requires GoodManifest(m.targets) && IsClientGraph(m, units, p, libTask, spec.tasks)
    requires forall i :: 0 <= i < |units| ==> WellKeyed(units[i])
    ensures CompilesAreKeyed(spec)
  {
    forall i | 0 <= i < |spec.tasks| && spec.tasks[i].kind.Compile?
      ensures ValidHash(spec.tasks[i].key) && ValidHash(spec.tasks[i].input)
    {
      CompilesComeFirst(m, units, p, libTask, spec.tasks, i);
      assert Made(units, spec.tasks[..p.compiles], |units|, i);
      var f :| f < |units| && MadeFrom(units, spec.tasks[..p.compiles], i, f);
      assert spec.tasks[i] == spec.tasks[..p.compiles][i] && WellKeyed(units[f]);
    }
  }

  /** The coordinator admits the client's graph exactly when no program names a library twice. */
  lemma AdmittedWhenLibsDistinct(m: Manifest, units: seq<KeyedUnit>, p: Plan, libTask: map<string, int>,
                                 spec: BuildSpec)
    requires GoodManifest(m.targets) && IsClientGraph(m, units, p, libTask, spec.tasks)
    requires forall i :: 0 <= i < |units| ==> WellKeyed(units[i])
    ensures Admissible(spec) <==>
            forall k :: 0 <= k < |Programs(m)| ==> LibsDistinct(Programs(m)[k])
  {
    GraphIsSound(m, units, p, libTask, spec);
    DistinctWhenLibsAre(m, units, p, libTask, spec);
    CompilesKeyed(m, units, p, libTask, spec);
  }

  lemma CompilesComeFirst(m: Manifest, units: seq<KeyedUnit>, p: Plan, libTask: map<string, int>, tasks: seq<TaskSpec>,
                          i: nat)
    requires GoodManifest(m.targets) && IsClientGraph(m, units, p, libTask, tasks) && i < |tasks|
    ensures tasks[i].kind.Compile? <==> i < p.compiles
  {
    var libs := Libraries(m);
    if i < p.compiles {
      assert Made(units, tasks[..p.compiles], |units|, i);
      assert tasks[i] == tasks[..p.compiles][i];
    } else if i < FirstLink(m, p) {
      assert IsArchive(p, tasks, libs[i - p.compiles], p.compiles + (i - p.compiles));
    } else {
      var k := i - FirstLink(m, p);
      assert IsLink(m, p, libTask, tasks, Programs(m)[k], FirstLink(m, p) + k);
    }
  }

  /** The client's compiles wait for nothing, so no submission of its graph enters one as cached too early. */
  lemma SubmissionIsCalm(cfg: Config, s: Store, m: Manifest, units: seq<KeyedUnit>, p: Plan, libTask: map<string, int>,
                         spec: BuildSpec, ranks: seq<int>, parts: seq<int>, reply: SubmitReply)
    requires GoodManifest(m.targets) && IsClientGraph(m, units, p, libTask, spec.tasks)
    ensures CalmStep(cfg, s, Submit(spec, ranks, parts, reply))
  {
    hide IsClientGraph;
    GraphIsSound(m, units, p, libTask, spec);
  }

  /** Every compile that will have to run has its preprocessed source in the store. */
  predicate SourcesUploaded(blobs: Blobs, cache: map<string, string>, spec: BuildSpec) {
    forall i :: 0 <= i < |spec.tasks| ==> SourceUploaded(blobs, cache, spec.tasks[i])
  }

  predicate SourceUploaded(blobs: Blobs, cache: map<string, string>, t: TaskSpec) {
    t.kind.Compile? && t.key !in cache ==> Has(blobs, t.input)
  }

  /** When compiles wait for nothing, each needs its source unless it is cached. */
  lemma UploadedMeansNoneMissing(cfg: Config, blobs: Blobs, cache: map<string, string>, spec: BuildSpec)
    requires Acyclic(GraphOf(spec)) && DepsKnown(spec) && CompilesHaveNoDeps(spec)
    ensures SourceMissing(cfg, blobs, cache, spec) <==> !SourcesUploaded(blobs, cache, spec)
  {
    forall i | 0 <= i < |spec.tasks|
      ensures LacksSource(blobs, cache, spec.tasks[i], DepsAtOnce(cfg, cache, spec, i)) <==>
              !SourceUploaded(blobs, cache, spec.tasks[i])
    {
    }
  }

  /**
    A program that names a library twice can never be built: every submission of it is turned away, once the sources are
    there with an answer that asks to try again, and leaves no trace.
   */
  lemma RepeatedLibIsUnavailable(cfg: Config, s: Store, m: Manifest, units: seq<KeyedUnit>, p: Plan,
                                 libTask: map<string, int>, spec: BuildSpec, ranks: seq<int>, parts: seq<int>,
                                 reply: SubmitReply, s': Store, k: nat)
    requires GoodManifest(m.targets) && IsClientGraph(m, units, p, libTask, spec.tasks)
    requires forall i :: 0 <= i < |units| ==> WellKeyed(units[i])
    requires k < |Programs(m)| && !LibsDistinct(Programs(m)[k])
    requires Next(cfg, s, Submit(spec, ranks, parts, reply), s')
    ensures reply == (if SourcesUploaded(s.blobs, s.cache, spec) then Unavailable else FailedPrecondition) && s' == s
  {
    hide IsClientGraph;
    GraphIsSound(m, units, p, libTask, spec);
    DistinctWhenLibsAre(m, units, p, libTask, spec);
    CompilesKeyed(m, units, p, libTask, spec);
    AdmittedDeps(spec);
    UploadedMeansNoneMissing(cfg, s.blobs, s.cache, spec);
  }
}
