/** What a build means, and that every run gives it. */
module Meaning {
  import opened HashInput
  import opened Graphs
  import opened Tables
  import opened BlobStore
  import opened Steps
  import opened Invariant
  import opened Lifecycle
  import opened Runs
  import Lines

  /** Everything a worker's result depends on. */
  datatype Job = Job(toolchain: string, kind: Kind, inputs: seq<string>, names: seq<string>, args: seq<string>)

  /** The compilers, archiver and linkers of the workers: the digest of what running a job produces. */
  type Tool = Job -> string

  /** The items as a worker sees them after they were stored one per line. */
  function Stored(items: seq<string>): seq<string> { Lines.Split(Lines.Join(items)) }

  /**
    The job of task i when its dependencies have the given outputs. Without dependencies a task brings its own input.
   */
  function JobOf(spec: BuildSpec, i: nat, outs: seq<string>): Job
    requires i < |spec.tasks| && DepsKnown(spec) && |outs| == |spec.tasks[i].deps|
  {
    var t := spec.tasks[i];
    if t.kind.Compile? then Job(spec.toolchain, Compile, [t.input], ["in.i"], Stored(t.args))
    else if outs == [] then Job(spec.toolchain, t.kind, Lines.Split(t.input), ["in.i"], Stored(t.args))
    else Job(spec.toolchain, t.kind, outs, Stored(DepNames(spec, i)), Stored(t.args))
  }

  /** The job is the one specified exactly when the arguments and names survive being stored one per line. */
  lemma JobIsAsSpecified(spec: BuildSpec, i: nat, outs: seq<string>)
    requires i < |spec.tasks| && DepsKnown(spec) && |outs| == |spec.tasks[i].deps|
    requires !spec.tasks[i].kind.Compile? && outs != []
    ensures JobOf(spec, i, outs) ==
              Job(spec.toolchain, spec.tasks[i].kind, outs, DepNames(spec, i), spec.tasks[i].args) <==>
            NamesDecode(spec.tasks[i].args) && NamesDecode(DepNames(spec, i))
  {
    Lines.SplitOfJoin(spec.tasks[i].args);
    Lines.SplitOfJoin(DepNames(spec, i));
  }

  /** The output of task i, by evaluating its dependencies first. */
  ghost function Eval(tool: Tool, spec: BuildSpec, i: nat): string
    requires Acyclic(GraphOf(spec)) && DepsKnown(spec) && i < |spec.tasks|
    decreases RankOf(GraphOf(spec))[i], 1
  {
    tool(JobOf(spec, i, EvalDeps(tool, spec, i)))
  }

  ghost function EvalDeps(tool: Tool, spec: BuildSpec, i: nat): (outs: seq<string>)
    requires Acyclic(GraphOf(spec)) && DepsKnown(spec) && i < |spec.tasks|
    ensures |outs| == |spec.tasks[i].deps|
    ensures forall k :: 0 <= k < |outs| ==> outs[k] == Eval(tool, spec, spec.tasks[i].deps[k])
    decreases RankOf(GraphOf(spec))[i], 0
  {
    var deps := spec.tasks[i].deps;
    assert forall k :: 0 <= k < |deps| ==> RankOf(GraphOf(spec))[deps[k]] < RankOf(GraphOf(spec))[i] by {
      forall k | 0 <= k < |deps| ensures RankOf(GraphOf(spec))[deps[k]] < RankOf(GraphOf(spec))[i] {
        DepRanksLower(spec, i, k);
      }
    }
    seq(|deps|, k requires 0 <= k < |deps| => Eval(tool, spec, deps[k]))
  }

  /** The key task i gets when everything before it is evaluated from scratch. */
  ghost function EvalKey(tool: Tool, hash: string -> string, spec: BuildSpec, i: nat): string
    requires Acyclic(GraphOf(spec)) && DepsKnown(spec) && i < |spec.tasks|
  {
    KeyFor(hash, spec, i, EvalDeps(tool, spec, i))
  }

  // ---- the hypotheses

  /**
    What the task is handed does not depend on when it became ready. The names of its dependencies are stored as NULL
    when their text is empty and the build was just submitted, and as an empty text when it is made ready later.
   */
  predicate IsSteady(spec: BuildSpec, i: nat)
    requires i < |spec.tasks| && DepsKnown(spec)
  {
    !spec.tasks[i].kind.Compile? ==> DepNames(spec, i) != [""]
  }

  /** The two ways of storing names read back alike, except for a single dependency with an empty name. */
  lemma SteadyNames(names: seq<string>)
    requires names != []
    ensures Lines.Split(Column(Lines.Join(names)).GetOr("in.i")) == Lines.Split(Lines.Join(names)) <==> names != [""]
  {
    Lines.JoinEmpty(names);
    Lines.SplitOfJoin(["in.i"]);
  }

  ghost predicate Steady(spec: BuildSpec) {
    Admissible(spec) && CompilesHaveNoDeps(spec) && DepsKnown(spec)
      && forall i :: 0 <= i < |spec.tasks| ==> IsSteady(spec, i)
  }

  function Specs(s: Store): seq<BuildSpec> { seq(|s.builds|, b requires 0 <= b < |s.builds| => s.builds[b].spec) }

  ghost predicate AllSteady(specs: seq<BuildSpec>) { forall b :: 0 <= b < |specs| ==> Steady(specs[b]) }

  predicate IsPlace(specs: seq<BuildSpec>, b: int, i: int) { 0 <= b < |specs| && 0 <= i < |specs[b].tasks| }

  /** Tasks of the submitted builds that share a key mean the same output. */
  ghost predicate KeysAgree(tool: Tool, hash: string -> string, specs: seq<BuildSpec>)
    requires AllSteady(specs)
  {
    forall b, i, c, j :: IsPlace(specs, b, i) && IsPlace(specs, c, j)
                         && EvalKey(tool, hash, specs[b], i) == EvalKey(tool, hash, specs[c], j) ==>
                           Eval(tool, specs[b], i) == Eval(tool, specs[c], j)
  }

  /** The claimed assignment, as the job a worker with the given toolchain runs. */
  function JobOfClaim(toolchain: string, a: Assignment): Job { Job(toolchain, a.kind, a.inputs, a.names, a.args) }

  /** A result that reports success names what running some earlier assignment of the task produced. */
  ghost predicate HonestAt(tool: Tool, r: Run, k: nat)
    requires k < |r.events|
  {
    r.events[k].Complete? && r.events[k].result.ok ==>
      exists j :: 0 <= j < k && Claims(r.events[j], r.events[k].result.build, r.events[k].result.id)
                  && r.events[k].result.output == tool(JobOfClaim(r.events[j].toolchain, r.events[j].task.value))
  }

  ghost predicate Honest(tool: Tool, r: Run) { forall k :: 0 <= k < |r.events| ==> HonestAt(tool, r, k) }

  /** A run of honest workers on steady builds whose keys agree. */
  ghost predicate SoundRun(tool: Tool, cfg: Config, r: Run) {
    && IsRun(cfg, r) && Honest(tool, r)
    && var specs := Specs(r.stores[|r.events|]);
       AllSteady(specs) && KeysAgree(tool, cfg.hash, specs)
  }

  // ---- the invariant

  ghost predicate RowMeans(tool: Tool, spec: BuildSpec, i: nat, row: Task)
    requires Steady(spec) && i < |spec.tasks|
  {
    row.HasOutput() ==> row.output == Eval(tool, spec, i)
  }

  ghost predicate BuildMeans(tool: Tool, build: Build) {
    && Steady(build.spec) && |build.tasks| == |build.spec.tasks|
    && forall i :: 0 <= i < |build.tasks| ==> RowMeans(tool, build.spec, i, build.tasks[i])
  }

  /** The entry was put there by, or for, a task of some build, and holds what that task means. */
  ghost predicate EntryMeans(tool: Tool, hash: string -> string, specs: seq<BuildSpec>, key: string, output: string)
    requires AllSteady(specs)
  {
    exists b, i :: IsPlace(specs, b, i) && EvalKey(tool, hash, specs[b], i) == key && Eval(tool, specs[b], i) == output
  }

  ghost predicate Means(tool: Tool, cfg: Config, s: Store) {
    && AllSteady(Specs(s))
    && (forall b :: 0 <= b < |s.builds| ==> BuildMeans(tool, s.builds[b]))
    && (forall k :: k in s.cache ==> EntryMeans(tool, cfg.hash, Specs(s), k, s.cache[k]))
  }

  // ---- how it is kept

  /** A task all of whose dependencies mean what they show has its from-scratch key. */
  lemma KeyIsEvalKey(tool: Tool, cfg: Config, spec: BuildSpec, tasks: seq<Task>, i: nat)
    requires Steady(spec) && |tasks| == |spec.tasks| && i < |tasks| && OpenDeps(spec, tasks, i) == {}
    requires forall k :: 0 <= k < |spec.tasks[i].deps| ==>
               RowMeans(tool, spec, spec.tasks[i].deps[k], tasks[spec.tasks[i].deps[k]])
    ensures DepOutputs(spec, tasks, i) == EvalDeps(tool, spec, i)
  {
    var deps := spec.tasks[i].deps;
    forall k | 0 <= k < |deps| ensures tasks[deps[k]].output == Eval(tool, spec, deps[k]) {
      assert deps[k] !in OpenDeps(spec, tasks, i);
      assert RowMeans(tool, spec, deps[k], tasks[deps[k]]);
    }
  }

  /** The cache never tells a task of spec anything but its meaning. */
  ghost predicate CacheTells(tool: Tool, cfg: Config, cache: map<string, string>, spec: BuildSpec)
    requires Steady(spec)
  {
    forall i :: 0 <= i < |spec.tasks| && EvalKey(tool, cfg.hash, spec, i) in cache ==>
                  cache[EvalKey(tool, cfg.hash, spec, i)] == Eval(tool, spec, i)
  }

  lemma CacheTellsAll(tool: Tool, cfg: Config, cache: map<string, string>, specs: seq<BuildSpec>, b: nat)
    requires AllSteady(specs) && KeysAgree(tool, cfg.hash, specs) && b < |specs|
    requires forall k :: k in cache ==> EntryMeans(tool, cfg.hash, specs, k, cache[k])
    ensures CacheTells(tool, cfg, cache, specs[b])
  {
    forall i | 0 <= i < |specs[b].tasks| && EvalKey(tool, cfg.hash, specs[b], i) in cache
      ensures cache[EvalKey(tool, cfg.hash, specs[b], i)] == Eval(tool, specs[b], i)
    {
      var key := EvalKey(tool, cfg.hash, specs[b], i);
      assert EntryMeans(tool, cfg.hash, specs, key, cache[key]);
      var c, j :| IsPlace(specs, c, j) && EvalKey(tool, cfg.hash, specs[c], j) == key
        && Eval(tool, specs[c], j) == cache[key];
      assert IsPlace(specs, b, i);
    }
  }

  /** In a good build whose done tasks mean what they show, every task with an output does. */
  lemma {:induction false} CachedMeans(tool: Tool, cfg: Config, cache: map<string, string>, blobs: Blobs,
                                       spec: BuildSpec, tasks: seq<Task>, i: nat)
    requires Steady(spec) && GoodRows(cfg, cache, blobs, spec, tasks) && i < |tasks|
             && CacheTells(tool, cfg, cache, spec)
    requires forall j :: 0 <= j < |tasks| && tasks[j].state.Done? ==> RowMeans(tool, spec, j, tasks[j])
    ensures RowMeans(tool, spec, i, tasks[i])
    decreases RankOf(GraphOf(spec))[i]
  {
    if tasks[i].state.Cached? {
      var deps := spec.tasks[i].deps;
      forall k | 0 <= k < |deps| ensures RowMeans(tool, spec, deps[k], tasks[deps[k]]) {
        DepRanksLower(spec, i, k);
        CachedMeans(tool, cfg, cache, blobs, spec, tasks, deps[k]);
      }
      KeyIsEvalKey(tool, cfg, spec, tasks, i);
      assert GoodRow(cfg, cache, blobs, spec, tasks, i);
      assert EvalKey(tool, cfg.hash, spec, i) in cache;
    }
  }

  lemma NamesAreStored(cfg: Config, s: Store, b: nat, i: nat)
    requires Inv(cfg, s) && IsTask(s, b, i) && Unfinished(Row(s, b, i)) && Steady(s.builds[b].spec)
    requires !s.builds[b].spec.tasks[i].kind.Compile? && s.builds[b].spec.tasks[i].deps != []
    ensures AssignmentOf(s, b, i).names == Stored(DepNames(s.builds[b].spec, i))
  {
    GoodTask(cfg, s, b, i);
    assert IsSteady(s.builds[b].spec, i);
    SteadyNames(DepNames(s.builds[b].spec, i));
    Lines.JoinEmpty(DepNames(s.builds[b].spec, i));
  }

  /** An honest result of a task whose dependencies mean what they show means what it should. */
  lemma ClaimedJob(tool: Tool, cfg: Config, r: Run, j: nat, b: nat, i: nat)
    requires IsCalmRun(cfg, r) && j < |r.events| && Claims(r.events[j], b, i) && Means(tool, cfg, r.stores[j + 1])
    ensures IsTask(r.stores[j + 1], b, i) && Steady(r.stores[j + 1].builds[b].spec)
    ensures tool(JobOfClaim(r.events[j].toolchain, r.events[j].task.value)) ==
              Eval(tool, r.stores[j + 1].builds[b].spec, i)
  {
    ClaimedAt(cfg, r, j, b, i);
    var s := r.stores[j + 1];
    var spec := s.builds[b].spec;
    GoodTask(cfg, s, b, i);
    assert BuildMeans(tool, s.builds[b]);
    assert IsSteady(spec, i);
    if spec.tasks[i].kind.Compile? {
      CompileAssignmentSays(cfg, s, b, i);
    } else {
      AssignmentSays(cfg, s, b, i);
      KeyIsEvalKey(tool, cfg, spec, s.builds[b].tasks, i);
      if spec.tasks[i].deps != [] { NamesAreStored(cfg, s, b, i); }
    }
  }

  // ---- one step

  /** The first specifications of longer are those of shorter. */
  predicate Extends(shorter: seq<BuildSpec>, longer: seq<BuildSpec>) {
    |shorter| <= |longer| && forall b :: 0 <= b < |shorter| ==> longer[b] == shorter[b]
  }

  lemma StepExtends(cfg: Config, s: Store, e: Event, s': Store)
    requires Next(cfg, s, e, s')
    ensures Extends(Specs(s), Specs(s'))
  {
    if e.Reap? {
      forall b | 0 <= b < |s.builds| ensures s'.builds[b].spec == s.builds[b].spec {
        assert ReapedBuild(cfg, s.builds[b], e.reapedAt, s'.builds[b]);
      }
    }
  }

  lemma EntryStillMeans(tool: Tool, hash: string -> string, specs: seq<BuildSpec>, specs': seq<BuildSpec>, key: string,
                        output: string)
    requires AllSteady(specs) && AllSteady(specs') && Extends(specs, specs')
             && EntryMeans(tool, hash, specs, key, output)
    ensures EntryMeans(tool, hash, specs', key, output)
  {
    var b, i :| IsPlace(specs, b, i) && EvalKey(tool, hash, specs[b], i) == key && Eval(tool, specs[b], i) == output;
    assert IsPlace(specs', b, i) && EvalKey(tool, hash, specs'[b], i) == key;
  }

  /** Only an accepted success adds to the cache, under the key of its task. */
  lemma NewEntry(cfg: Config, s: Store, e: Event, s': Store, key: string)
    requires Inv(cfg, s) && Next(cfg, s, e, s') && key in s'.cache && key !in s.cache
    ensures e.Complete? && IsTask(s, e.result.build, e.result.id) && Unfinished(Row(s, e.result.build, e.result.id))
    ensures Completes(s, e, e.result.build, e.result.id, s'.cache[key])
    ensures key == Row(s, e.result.build, e.result.id).key
  {
  }

  /** Every success the step accepts is what its task means. */
  ghost predicate TruthfulStep(tool: Tool, s: Store, e: Event)
    requires AllSteady(Specs(s))
  {
    e.Complete? && e.accepted && Succeeds(s, e.result) && IsPlace(Specs(s), e.result.build, e.result.id) ==>
      e.result.output == Eval(tool, Specs(s)[e.result.build], e.result.id)
  }

  lemma NewEntryMeans(tool: Tool, cfg: Config, s: Store, e: Event, s': Store, key: string)
    requires Inv(cfg, s) && Next(cfg, s, e, s') && Means(tool, cfg, s) && TruthfulStep(tool, s, e)
    requires key in s'.cache && key !in s.cache
    ensures EntryMeans(tool, cfg.hash, Specs(s), key, s'.cache[key])
  {
    hide Inv, Next, Eval;
    NewEntry(cfg, s, e, s', key);
    var (b, i) := (e.result.build, e.result.id);
    GoodTask(cfg, s, b, i);
    assert BuildMeans(tool, s.builds[b]);
    KeyIsEvalKey(tool, cfg, s.builds[b].spec, s.builds[b].tasks, i);
    assert IsPlace(Specs(s), b, i);
    assert EvalKey(tool, cfg.hash, Specs(s)[b], i) == key;
  }

  lemma CacheStillMeans(tool: Tool, cfg: Config, s: Store, e: Event, s': Store)
    requires Inv(cfg, s) && Next(cfg, s, e, s') && Means(tool, cfg, s) && TruthfulStep(tool, s, e)
    requires AllSteady(Specs(s'))
    ensures forall k :: k in s'.cache ==> EntryMeans(tool, cfg.hash, Specs(s'), k, s'.cache[k])
  {
    StepExtends(cfg, s, e, s');
    StepGrows(cfg, s, e, s');
    forall k | k in s'.cache ensures EntryMeans(tool, cfg.hash, Specs(s'), k, s'.cache[k]) {
      if k in s.cache {
        assert EntryMeans(tool, cfg.hash, Specs(s), k, s.cache[k]);
      } else {
        NewEntryMeans(tool, cfg, s, e, s', k);
      }
      EntryStillMeans(tool, cfg.hash, Specs(s), Specs(s'), k, s'.cache[k]);
    }
  }

  /** A done row was done before, or is the one just completed. */
  lemma DoneStillMeans(tool: Tool, cfg: Config, s: Store, e: Event, s': Store, b: nat, i: nat)
    requires Inv(cfg, s) && Inv(cfg, s') && Next(cfg, s, e, s') && Means(tool, cfg, s) && TruthfulStep(tool, s, e)
    requires AllSteady(Specs(s')) && IsPlace(Specs(s'), b, i)
    requires i < |s'.builds[b].tasks| && s'.builds[b].tasks[i].state.Done?
    ensures RowMeans(tool, Specs(s')[b], i, s'.builds[b].tasks[i])
  {
    if b < |s.builds| {
      StepMoves(cfg, s, e, s', b);
      assert BuildMeans(tool, s.builds[b]);
      assert RowStep(s, e, b, i, s.builds[b].tasks[i], s'.builds[b].tasks[i]);
      assert RowMeans(tool, s.builds[b].spec, i, s.builds[b].tasks[i]);
      assert IsPlace(Specs(s), b, i);
    } else {
      NewRows(cfg, s, e, s', b, i);
    }
  }

  lemma StepMeans(tool: Tool, cfg: Config, s: Store, e: Event, s': Store)
    requires Inv(cfg, s) && Inv(cfg, s') && Next(cfg, s, e, s') && Means(tool, cfg, s) && TruthfulStep(tool, s, e)
    requires AllSteady(Specs(s')) && KeysAgree(tool, cfg.hash, Specs(s'))
    ensures Means(tool, cfg, s')
  {
    CacheStillMeans(tool, cfg, s, e, s');
    forall b | 0 <= b < |s'.builds| ensures BuildMeans(tool, s'.builds[b]) {
      var build := s'.builds[b];
      assert build.spec == Specs(s')[b] && Steady(Specs(s')[b]);
      assert GoodBuild(cfg, s'.cache, s'.blobs, build);
      CacheTellsAll(tool, cfg, s'.cache, Specs(s'), b);
      forall j | 0 <= j < |build.tasks| && build.tasks[j].state.Done?
        ensures RowMeans(tool, build.spec, j, build.tasks[j])
      {
        DoneStillMeans(tool, cfg, s, e, s', b, j);
      }
      forall i | 0 <= i < |build.tasks| ensures RowMeans(tool, build.spec, i, build.tasks[i]) {
        CachedMeans(tool, cfg, s'.cache, s'.blobs, build.spec, build.tasks, i);
      }
    }
  }

  // ---- whole runs

  lemma {:induction false} SpecsExtend(cfg: Config, r: Run, j: nat, k: nat)
    requires IsRun(cfg, r) && j <= k < |r.stores|
    ensures Extends(Specs(r.stores[j]), Specs(r.stores[k]))
    decreases k
  {
    if j < k {
      SpecsExtend(cfg, r, j, k - 1);
      assert StepAt(cfg, r, k - 1);
      StepExtends(cfg, r.stores[k - 1], r.events[k - 1], r.stores[k]);
    }
  }

  lemma PrefixAgrees(tool: Tool, hash: string -> string, specs: seq<BuildSpec>, specs': seq<BuildSpec>)
    requires Extends(specs, specs') && AllSteady(specs') && KeysAgree(tool, hash, specs')
    ensures AllSteady(specs) && KeysAgree(tool, hash, specs)
  {
    assert forall b :: 0 <= b < |specs| ==> specs[b] == specs'[b];
    forall b, i, c, j | IsPlace(specs, b, i) && IsPlace(specs, c, j)
                        && EvalKey(tool, hash, specs[b], i) == EvalKey(tool, hash, specs[c], j)
      ensures Eval(tool, specs[b], i) == Eval(tool, specs[c], j)
    {
      assert IsPlace(specs', b, i) && IsPlace(specs', c, j);
    }
  }

  /** Compiles that wait for nothing are never entered too early. */
  lemma SoundIsCalm(tool: Tool, cfg: Config, r: Run)
    requires SoundRun(tool, cfg, r)
    ensures IsCalmRun(cfg, r)
  {
    forall k | 0 <= k < |r.events| ensures CalmStep(cfg, r.stores[k], r.events[k]) {
      var e := r.events[k];
      assert StepAt(cfg, r, k);
      SoundAt(tool, cfg, r, k + 1);
      if e.Submit? && e.reply.Accepted? {
        assert Steady(Specs(r.stores[k + 1])[|r.stores[k].builds|]);
      }
    }
  }

  lemma SoundAt(tool: Tool, cfg: Config, r: Run, k: nat)
    requires SoundRun(tool, cfg, r) && k < |r.stores|
    ensures AllSteady(Specs(r.stores[k])) && KeysAgree(tool, cfg.hash, Specs(r.stores[k]))
  {
    SpecsExtend(cfg, r, k, |r.events|);
    PrefixAgrees(tool, cfg.hash, Specs(r.stores[k]), Specs(r.stores[|r.events|]));
  }

  /** An honest worker's result is truthful: it ran an assignment read off a store that meant what it showed. */
  lemma HonestStep(tool: Tool, cfg: Config, r: Run, k: nat)
    requires SoundRun(tool, cfg, r) && k < |r.events| && Means(tool, cfg, r.stores[k])
    requires forall j :: 0 <= j <= k ==> Means(tool, cfg, r.stores[j])
    ensures TruthfulStep(tool, r.stores[k], r.events[k])
  {
    hide IsPremature, CalmStep;
    SoundIsCalm(tool, cfg, r);
    var s, e := r.stores[k], r.events[k];
    if e.Complete? && e.result.ok && IsPlace(Specs(s), e.result.build, e.result.id) {
      assert HonestAt(tool, r, k);
      var (b, i) := (e.result.build, e.result.id);
      var j :| 0 <= j < k && Claims(r.events[j], b, i)
               && e.result.output == tool(JobOfClaim(r.events[j].toolchain, r.events[j].task.value));
      ClaimedJob(tool, cfg, r, j, b, i);
      SpecsExtend(cfg, r, j + 1, k);
      assert Specs(r.stores[j + 1])[b] == Specs(s)[b];
    }
  }

  lemma NextMeans(tool: Tool, cfg: Config, r: Run, k: nat)
    requires SoundRun(tool, cfg, r) && k < |r.events| && Means(tool, cfg, r.stores[k])
    requires TruthfulStep(tool, r.stores[k], r.events[k])
    ensures Means(tool, cfg, r.stores[k + 1])
  {
    hide CalmStep, Inv, Next, Means, Honest;
    SoundIsCalm(tool, cfg, r);
    RunKeeps(cfg, r, k);
    RunKeeps(cfg, r, k + 1);
    assert StepAt(cfg, r, k);
    SoundAt(tool, cfg, r, k + 1);
    StepMeans(tool, cfg, r.stores[k], r.events[k], r.stores[k + 1]);
  }

  lemma EmptyMeans(tool: Tool, cfg: Config)
    ensures Means(tool, cfg, EMPTY)
  {
  }

  /**
    In every state of every sound run, whatever was cached, retried, expired, delivered late or delivered twice, each
    task that has an output has the output of evaluating its build from scratch, and so has each cache entry.
   */
  lemma {:induction false} RunMeans(tool: Tool, cfg: Config, r: Run, k: nat)
    requires SoundRun(tool, cfg, r) && k < |r.stores|
    ensures Means(tool, cfg, r.stores[k])
  {
    hide Means, Honest, KeysAgree;
    if k == 0 {
      EmptyMeans(tool, cfg);
    } else {
      forall j | 0 <= j < k ensures Means(tool, cfg, r.stores[j]) {
        RunMeans(tool, cfg, r, j);
      }
      HonestStep(tool, cfg, r, k - 1);
      NextMeans(tool, cfg, r, k - 1);
    }
  }

  /** What a client is given for a task, in any run, is what the task means. */
  lemma OutputsMean(tool: Tool, cfg: Config, r: Run, k: nat, b: nat, i: nat)
    requires SoundRun(tool, cfg, r) && k < |r.stores| && IsTask(r.stores[k], b, i) && Row(r.stores[k], b, i).HasOutput()
    ensures Steady(r.stores[k].builds[b].spec)
    ensures Row(r.stores[k], b, i).output == Eval(tool, r.stores[k].builds[b].spec, i)
  {
    RunMeans(tool, cfg, r, k);
    assert BuildMeans(tool, r.stores[k].builds[b]);
    assert RowMeans(tool, r.stores[k].builds[b].spec, i, Row(r.stores[k], b, i));
  }

  /** Two runs, however different their histories, give the same outputs for the same specification. */
  lemma RunsAgree(tool: Tool, cfg: Config, r: Run, k: nat, b: nat, cfg': Config, r': Run, k': nat, b': nat, i: nat)
    requires SoundRun(tool, cfg, r) && SoundRun(tool, cfg', r') && k < |r.stores| && k' < |r'.stores|
    requires IsTask(r.stores[k], b, i) && IsTask(r'.stores[k'], b', i)
    requires r.stores[k].builds[b].spec == r'.stores[k'].builds[b'].spec
    requires Row(r.stores[k], b, i).HasOutput() && Row(r'.stores[k'], b', i).HasOutput()
    ensures Row(r.stores[k], b, i).output == Row(r'.stores[k'], b', i).output
  {
    OutputsMean(tool, cfg, r, k, b, i);
    OutputsMean(tool, cfg', r', k', b', i);
  }

  // ---- building the same thing again

  /** A task with an output has its from-scratch key in the cache. */
  lemma KeyIsCached(tool: Tool, cfg: Config, s: Store, b: nat, i: nat)
    requires Inv(cfg, s) && Means(tool, cfg, s) && IsTask(s, b, i) && Row(s, b, i).HasOutput()
    ensures Steady(s.builds[b].spec) && EvalKey(tool, cfg.hash, s.builds[b].spec, i) in s.cache
  {
    hide Inv, Eval;
    GoodTask(cfg, s, b, i);
    assert BuildMeans(tool, s.builds[b]);
    KeyIsEvalKey(tool, cfg, s.builds[b].spec, s.builds[b].tasks, i);
  }

  /** A new build finds task i in the cache when the cache has the keys of i and of everything before it. */
  lemma {:induction false} FoundInCache(tool: Tool, cfg: Config, s: Store, spec: BuildSpec, ranks: seq<int>,
                                        parts: seq<int>, rows: seq<Task>, i: nat)
    requires NamesAreValid(cfg.hash) && Steady(spec) && FreshRows(cfg, s.cache, spec, ranks, parts, rows) && i < |rows|
    requires forall j :: 0 <= j < |rows| ==> RowMeans(tool, spec, j, rows[j])
    requires forall j :: 0 <= j < |rows| ==> EvalKey(tool, cfg.hash, spec, j) in s.cache
    ensures rows[i].state.Cached?
    decreases RankOf(GraphOf(spec))[i]
  {
    var deps := spec.tasks[i].deps;
    forall k | 0 <= k < |deps| ensures rows[deps[k]].state.Cached? {
      DepRanksLower(spec, i, k);
      FoundInCache(tool, cfg, s, spec, ranks, parts, rows, deps[k]);
    }
    assert OpenDeps(spec, rows, i) == {};
    KeyIsEvalKey(tool, cfg, spec, rows, i);
    assert IsFresh(cfg, s.cache, spec, ranks, parts, rows, i);
    var key := EvalKey(tool, cfg.hash, spec, i);
    assert ValidHash(key) by {
      if spec.tasks[i].kind.Compile? {
        assert CompilesAreKeyed(spec);
      }
    }
  }

  lemma SucceededIsCached(tool: Tool, cfg: Config, r: Run, j: nat, b: nat, i: nat)
    requires SoundRun(tool, cfg, r) && j < |r.stores| && b < |r.stores[j].builds|
    requires r.stores[j].builds[b].state.Succeeded? && i < |r.stores[j].builds[b].spec.tasks|
    ensures Steady(r.stores[j].builds[b].spec)
    ensures EvalKey(tool, cfg.hash, r.stores[j].builds[b].spec, i) in r.stores[j].cache
  {
    hide CalmStep, Honest;
    SoundIsCalm(tool, cfg, r);
    RunKeeps(cfg, r, j);
    RunMeans(tool, cfg, r, j);
    assert GoodBuild(cfg, r.stores[j].cache, r.stores[j].blobs, r.stores[j].builds[b]);
    assert AllHaveOutput(r.stores[j].builds[b].tasks);
    KeyIsCached(tool, cfg, r.stores[j], b, i);
  }

  /**
    Once a build succeeded, submitting the same specification again, after anything else that happened, finishes inside
    the submission: every task is cached, so none can be claimed, and the build has succeeded.
   */
  lemma ResubmissionIsImmediate(tool: Tool, cfg: Config, r: Run, j: nat, k: nat, b: nat, ranks: seq<int>,
                                parts: seq<int>, reply: SubmitReply)
    requires SoundRun(tool, cfg, r) && j <= k < |r.events| && b < |r.stores[j].builds|
             && r.stores[j].builds[b].state.Succeeded?
    requires r.events[k] == Submit(r.stores[j].builds[b].spec, ranks, parts, reply)
    ensures reply == Accepted(|r.stores[k].builds|) && |r.stores[k + 1].builds| == |r.stores[k].builds| + 1
    ensures var again := r.stores[k + 1].builds[|r.stores[k].builds|];
            again.spec == r.stores[j].builds[b].spec && again.state.Succeeded? &&
            forall i :: 0 <= i < |again.tasks| ==> again.tasks[i].state.Cached?
  {
    hide CalmStep, Honest, AtOnce, DepsAtOnce;
    SoundIsCalm(tool, cfg, r);
    var s, s', spec := r.stores[k], r.stores[k + 1], r.stores[j].builds[b].spec;
    assert StepAt(cfg, r, k);
    RunGrows(cfg, r, j, k);
    SoundAt(tool, cfg, r, j);
    assert Steady(Specs(r.stores[j])[b]);
    forall i | 0 <= i < |spec.tasks| ensures EvalKey(tool, cfg.hash, spec, i) in s.cache {
      SucceededIsCached(tool, cfg, r, j, b, i);
    }
    forall i | 0 <= i < |spec.tasks|
      ensures !LacksSource(s.blobs, s.cache, spec.tasks[i], DepsAtOnce(cfg, s.cache, spec, i))
    {
      assert EvalKey(tool, cfg.hash, spec, i) in s.cache;
    }
    var again := s'.builds[|s.builds|];
    RunMeans(tool, cfg, r, k + 1);
    assert BuildMeans(tool, again);
    forall i | 0 <= i < |again.tasks| ensures again.tasks[i].state.Cached? {
      FoundInCache(tool, cfg, s, spec, ranks, parts, again.tasks, i);
    }
  }

  // ---- where the agreement of keys comes from

  /** The parts whose hash is the key of task i: the client's for a compile, the coordinator's for the rest. */
  ghost function PartsOf(tool: Tool, specs: seq<BuildSpec>, source: (int, int) -> seq<string>, b: int,
                         i: int): seq<string>
    requires AllSteady(specs) && IsPlace(specs, b, i)
  {
    var t := specs[b].tasks[i];
    if t.kind.Compile? then source(b, i)
    else ActionParts(t.kind, specs[b].toolchain, ArgsText(specs[b], i), DepNames(specs[b], i),
        EvalDeps(tool, specs[b], i))
  }

  /**
    Compile keys are hashes of parts that the client tagged as such, and equal parts compile to equal outputs; an
    archive or link that has no dependencies has no input either.
   */
  ghost predicate ClientKeys(tool: Tool, hash: string -> string, specs: seq<BuildSpec>,
                             source: (int, int) -> seq<string>)
    requires AllSteady(specs)
  {
    && (forall b, i :: IsPlace(specs, b, i) && specs[b].tasks[i].kind.Compile? ==>
          |source(b, i)| > 0 && source(b, i)[0] == "dc-compile-v1"
            && specs[b].tasks[i].key == hash(Encode(source(b, i))))
    && (forall b, i, c, j :: IsPlace(specs, b, i) && IsPlace(specs, c, j) && specs[b].tasks[i].kind.Compile?
                             && specs[c].tasks[j].kind.Compile? && source(b, i) == source(c, j) ==>
          Eval(tool, specs[b], i) == Eval(tool, specs[c], j))
    && (forall b, i :: IsPlace(specs, b, i) && BringsInput(specs[b], i) ==> specs[b].tasks[i].input == "")
  }

  /** No two different inputs that are hashed for these builds have the same hash, and all fit the length prefix. */
  ghost predicate NoCollision(tool: Tool, hash: string -> string, specs: seq<BuildSpec>,
                              source: (int, int) -> seq<string>)
    requires AllSteady(specs)
  {
    && (forall b, i :: IsPlace(specs, b, i) ==>
          forall p :: 0 <= p < |PartsOf(tool, specs, source, b, i)| ==> Fits(PartsOf(tool, specs, source, b, i)[p]))
    && (forall b, i, c, j :: IsPlace(specs, b, i) && IsPlace(specs, c, j)
                             && hash(Encode(PartsOf(tool, specs, source, b, i))) ==
                               hash(Encode(PartsOf(tool, specs, source, c, j))) ==>
          Encode(PartsOf(tool, specs, source, b, i)) == Encode(PartsOf(tool, specs, source, c, j)))
  }

  lemma SamePartsSameOutput(tool: Tool, hash: string -> string, specs: seq<BuildSpec>,
                            source: (int, int) -> seq<string>, b: int, i: int, c: int, j: int)
    requires AllSteady(specs) && ClientKeys(tool, hash, specs, source) && IsPlace(specs, b, i) && IsPlace(specs, c, j)
    requires PartsOf(tool, specs, source, b, i) == PartsOf(tool, specs, source, c, j)
    ensures Eval(tool, specs[b], i) == Eval(tool, specs[c], j)
  {
    var (t, u) := (specs[b].tasks[i], specs[c].tasks[j]);
    assert t.kind.Compile? <==> PartsOf(tool, specs, source, b, i)[0] == "dc-compile-v1";
    assert u.kind.Compile? <==> PartsOf(tool, specs, source, c, j)[0] == "dc-compile-v1";
    if !t.kind.Compile? {
      ActionPartsInjective(
        t.kind, specs[b].toolchain, ArgsText(specs[b], i), DepNames(specs[b], i), EvalDeps(tool, specs[b], i),
        u.kind, specs[c].toolchain, ArgsText(specs[c], j), DepNames(specs[c], j), EvalDeps(tool, specs[c], j));
      assert |EvalDeps(tool, specs[b], i)| == |t.deps| && |EvalDeps(tool, specs[c], j)| == |u.deps|;
    }
  }

  /** Without hash collisions among what is hashed, and with honest client keys, keys agree. */
  lemma NoCollisionMeansKeysAgree(tool: Tool, hash: string -> string, specs: seq<BuildSpec>,
                                  source: (int, int) -> seq<string>)
    requires AllSteady(specs) && ClientKeys(tool, hash, specs, source) && NoCollision(tool, hash, specs, source)
    ensures KeysAgree(tool, hash, specs)
  {
    forall b, i, c, j | IsPlace(specs, b, i) && IsPlace(specs, c, j)
                        && EvalKey(tool, hash, specs[b], i) == EvalKey(tool, hash, specs[c], j)
      ensures Eval(tool, specs[b], i) == Eval(tool, specs[c], j)
    {
      var p, q := PartsOf(tool, specs, source, b, i), PartsOf(tool, specs, source, c, j);
      assert hash(Encode(p)) == hash(Encode(q));
      EncodeInjective(p, q);
      SamePartsSameOutput(tool, hash, specs, source, b, i, c, j);
    }
  }
}
