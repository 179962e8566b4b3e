/**
  What every step of the coordinator keeps: rows count their unfinished dependencies and fit their columns, attempts
  stay within the limit, outputs and inputs are in the blob store, cached outputs come from the cache, and the state of
  a build is what its rows say. One lemma for each kind of request, and one for all.
 */
module Invariant {
  import opened Wrappers
  import opened HashInput
  import opened Tables
  import opened BlobStore
  import opened Steps
  import Lines
  import Submission

  /** A limit of zero or less acts like one: the first retry gives up. */
  function Cap(cfg: Config): int { if cfg.maxAttempts < 1 then 1 else cfg.maxAttempts }

  predicate AttemptsBounded(cfg: Config, row: Task) {
    && row.attempts <= Cap(cfg)
    && (row.state.Waiting? ==> row.attempts == 0)
    && (row.state.Ready? ==> row.attempts < Cap(cfg))
    && (row.state.Running? ==> row.attempts >= 1 && row.owner.Some?)
  }

  /** The columns handed to workers when they were fixed by the dependencies' names and outputs. */
  predicate ColumnsMatch(spec: BuildSpec, row: Task, i: nat, outs: seq<string>)
    requires i < |spec.tasks| && DepsKnown(spec)
  {
    var names := DepNames(spec, i);
    && row.inputs == (if outs == [] then None else Some(Lines.Join(outs)))
    && (if names == [] then row.names == None
        else row.names == Some(Lines.Join(names)) || (Lines.Join(names) == "" && row.names == None))
  }

  /** The row was fixed by the outputs of its dependencies. */
  predicate FromDeps(cfg: Config, spec: BuildSpec, row: Task, i: nat, outs: seq<string>)
    requires i < |spec.tasks| && DepsKnown(spec) && |outs| == |spec.tasks[i].deps|
  {
    && row.key == ActionKey(cfg.hash, spec.tasks[i].kind, spec.toolchain, ArgsText(spec, i), DepNames(spec, i), outs)
    && (!row.state.Cached? ==> ColumnsMatch(spec, row, i, outs))
  }

  /** The row was fixed at its submission by the client's key and the uploaded source. */
  predicate FromSource(blobs: Blobs, t: TaskSpec, row: Task) {
    && row.key == t.key
    && (!row.state.Cached? ==> row.inputs == Some(t.input) && row.names == Some("in.i") && Has(blobs, t.input))
  }

  /** A compile with dependencies is fixed in the one way or the other. */
  predicate AssignmentFixed(cfg: Config, blobs: Blobs, spec: BuildSpec, tasks: seq<Task>, i: nat)
    requires i < |spec.tasks| == |tasks| && DepsKnown(spec)
  {
    var (t, row) := (spec.tasks[i], tasks[i]);
    row.state.Waiting?
    || (t.kind.Compile? && FromSource(blobs, t, row))
    || ((t.kind.Compile? ==> t.deps != []) && FromDeps(cfg, spec, row, i, DepOutputs(spec, tasks, i)))
  }

  predicate OutputKept(cache: map<string, string>, blobs: Blobs, row: Task) {
    && (row.HasOutput() ==> row.key in cache && Has(blobs, row.output))
    && (row.state.Cached? ==> row.output == cache[row.key])
    && (!row.HasOutput() ==> row.output == "")
  }

  ghost predicate GoodRow(cfg: Config, cache: map<string, string>, blobs: Blobs, spec: BuildSpec, tasks: seq<Task>,
                          i: nat)
    requires i < |spec.tasks| == |tasks| && DepsKnown(spec)
  {
    && AttemptsBounded(cfg, tasks[i]) && AssignmentFixed(cfg, blobs, spec, tasks, i)
      && OutputKept(cache, blobs, tasks[i])
  }

  ghost predicate GoodRows(cfg: Config, cache: map<string, string>, blobs: Blobs, spec: BuildSpec, tasks: seq<Task>) {
    && Settled(spec, tasks)
    && forall i :: 0 <= i < |tasks| ==> GoodRow(cfg, cache, blobs, spec, tasks, i)
  }

  ghost predicate GoodBuild(cfg: Config, cache: map<string, string>, blobs: Blobs, build: Build) {
    && Admissible(build.spec)
    && GoodRows(cfg, cache, blobs, build.spec, build.tasks)
    && build.state == Verdict(build.tasks)
  }

  ghost predicate CacheInStore(cache: map<string, string>, blobs: Blobs) {
    forall k :: k in cache ==> Has(blobs, cache[k])
  }

  ghost predicate Inv(cfg: Config, s: Store) {
    && NamesAreValid(cfg.hash) && ContentAddressed(cfg.hash, s.blobs)
    && CacheInStore(s.cache, s.blobs)
    && forall b :: 0 <= b < |s.builds| ==> GoodBuild(cfg, s.cache, s.blobs, s.builds[b])
  }

  lemma EmptyIsGood(cfg: Config)
    requires NamesAreValid(cfg.hash)
    ensures Inv(cfg, EMPTY)
  {
  }

  // ---- growth of the cache and the store

  ghost predicate Grows<K, V>(m: map<K, V>, m': map<K, V>) { forall k :: k in m ==> k in m' && m'[k] == m[k] }

  lemma GrowthKeepsBuild(cfg: Config, cache: map<string, string>, blobs: Blobs, cache': map<string, string>,
                         blobs': Blobs, build: Build)
    requires GoodBuild(cfg, cache, blobs, build) && Grows(cache, cache') && Grows(blobs, blobs')
    ensures GoodBuild(cfg, cache', blobs', build)
  {
    forall i | 0 <= i < |build.tasks| ensures GoodRow(cfg, cache', blobs', build.spec, build.tasks, i) {
      assert GoodRow(cfg, cache, blobs, build.spec, build.tasks, i);
    }
  }

  // ---- changes that touch neither outputs nor assignments

  /** The row changed at most its place in the queue, its lease and its bookkeeping of failures. */
  predicate Quiet(row: Task, row': Task) {
    && row'.pending == row.pending && row'.key == row.key && row'.inputs == row.inputs && row'.names == row.names
    && row'.output == row.output
    && (row'.state.Waiting? <==> row.state.Waiting?)
    && (row'.state.Cached? <==> row.state.Cached?) && (row'.state.Done? <==> row.state.Done?)
  }

  lemma QuietKeepsRows(cfg: Config, cache: map<string, string>, blobs: Blobs, spec: BuildSpec, tasks: seq<Task>,
                       tasks': seq<Task>)
    requires GoodRows(cfg, cache, blobs, spec, tasks) && |tasks'| == |tasks|
    requires forall i :: 0 <= i < |tasks| ==> Quiet(tasks[i], tasks'[i]) && AttemptsBounded(cfg, tasks'[i])
    ensures GoodRows(cfg, cache, blobs, spec, tasks')
  {
    forall i | 0 <= i < |tasks|
      ensures OpenDeps(spec, tasks', i) == OpenDeps(spec, tasks, i)
      ensures GoodRow(cfg, cache, blobs, spec, tasks', i)
    {
      var deps := spec.tasks[i].deps;
      assert forall k :: 0 <= k < |deps| ==> Quiet(tasks[deps[k]], tasks'[deps[k]]);
      assert OpenDeps(spec, tasks', i) == OpenDeps(spec, tasks, i);
      assert DepOutputs(spec, tasks', i) == DepOutputs(spec, tasks, i);
      assert GoodRow(cfg, cache, blobs, spec, tasks, i);
    }
  }

  /** Once a build is broken or complete, nothing quiet takes that back. */
  lemma VerdictStands(tasks: seq<Task>, tasks': seq<Task>, state: BuildState)
    requires |tasks'| == |tasks| && state == Verdict(tasks)
    requires forall i :: 0 <= i < |tasks| ==> (tasks[i].state.Failed? ==> tasks'[i].state.Failed?)
    requires forall i :: 0 <= i < |tasks| ==> (tasks[i].HasOutput() ==> tasks'[i].HasOutput())
    requires AllHaveOutput(tasks) ==> !SomeFailed(tasks')
    ensures Judged(state, tasks') == Verdict(tasks')
  {
    if SomeFailed(tasks) {
      var i :| 0 <= i < |tasks| && tasks[i].state.Failed?;
      assert tasks'[i].state.Failed?;
    }
  }

  lemma QuietKeepsVerdict(tasks: seq<Task>, tasks': seq<Task>, state: BuildState)
    requires |tasks'| == |tasks| && state == Verdict(tasks)
    requires forall i :: 0 <= i < |tasks| ==> Quiet(tasks[i], tasks'[i])
    requires forall i :: 0 <= i < |tasks| ==> (tasks[i].state.Failed? <==> tasks'[i].state.Failed?)
    ensures state == Verdict(tasks')
  {
    assert SomeFailed(tasks) <==> SomeFailed(tasks') by {
      if SomeFailed(tasks) {
        var i :| 0 <= i < |tasks| && tasks[i].state.Failed?;
        assert tasks'[i].state.Failed?;
      }
    }
    assert AllHaveOutput(tasks) <==> AllHaveOutput(tasks') by {
      forall i | 0 <= i < |tasks| ensures tasks[i].HasOutput() <==> tasks'[i].HasOutput() {
        assert Quiet(tasks[i], tasks'[i]);
      }
    }
  }

  // ---- the steps, one by one

  lemma UploadKeeps(cfg: Config, s: Store, batch: seq<Blob>)
    requires Inv(cfg, s)
    ensures Inv(cfg, s.(blobs := PutAll(cfg.hash, s.blobs, batch).0))
  {
    PutAllKeeps(cfg.hash, s.blobs, batch);
    var blobs := PutAll(cfg.hash, s.blobs, batch).0;
    forall b | 0 <= b < |s.builds| ensures GoodBuild(cfg, s.cache, blobs, s.builds[b]) {
      GrowthKeepsBuild(cfg, s.cache, s.blobs, s.cache, blobs, s.builds[b]);
    }
  }

  /** What the invariant asks of a new row, and where the row stands. */
  ghost predicate FreshGood(cfg: Config, s: Store, spec: BuildSpec, rows: seq<Task>, i: nat)
    requires i < |spec.tasks| == |rows| && DepsKnown(spec)
  {
    && (rows[i].state.Waiting? <==> OpenDeps(spec, rows, i) != {})
    && rows[i].pending == |OpenDeps(spec, rows, i)|
    && GoodRow(cfg, s.cache, s.blobs, spec, rows, i)
  }

  /** The submission may go ahead, and enters nothing that miscounts. */
  ghost predicate MayEnter(cfg: Config, s: Store, spec: BuildSpec, ranks: seq<int>, parts: seq<int>, rows: seq<Task>) {
    && Admissible(spec) && FreshRows(cfg, s.cache, spec, ranks, parts, rows)
    && !SourceMissing(cfg, s.blobs, s.cache, spec) && !SomePremature(cfg, s.cache, spec)
  }

  lemma FreshCompileIsGood(cfg: Config, s: Store, spec: BuildSpec, ranks: seq<int>, parts: seq<int>, rows: seq<Task>,
                           i: nat)
    requires Inv(cfg, s) && MayEnter(cfg, s, spec, ranks, parts, rows) && i < |rows| && spec.tasks[i].kind.Compile?
    ensures FreshGood(cfg, s, spec, rows, i)
  {
    hide AtOnce;
    var t, open := spec.tasks[i], OpenDeps(spec, rows, i);
    NoEntryIsEmpty(cfg, s);
    Submission.FreshAtOnce(cfg, s.cache, spec, ranks, parts, rows, i);
    assert !LacksSource(s.blobs, s.cache, t, DepsAtOnce(cfg, s.cache, spec, i)) && !IsPremature(cfg, s.cache, spec, i);
    assert IsFresh(cfg, s.cache, spec, ranks, parts, rows, i);
    var hit := t.key in s.cache;
    assert rows[i] ==
           Task(if hit then Cached else if open == {} then Ready else Waiting, |open|, 0, None, 0, t.key, Some(t.input),
                Some("in.i"), if hit then s.cache[t.key] else "", None, 0, ranks[i], parts[i]);
  }

  lemma FreshOpenIsGood(cfg: Config, s: Store, spec: BuildSpec, ranks: seq<int>, parts: seq<int>, rows: seq<Task>,
                        i: nat)
    requires Inv(cfg, s) && FreshRows(cfg, s.cache, spec, ranks, parts, rows)
    requires i < |rows| && !spec.tasks[i].kind.Compile? && OpenDeps(spec, rows, i) != {}
    ensures FreshGood(cfg, s, spec, rows, i)
  {
    assert IsFresh(cfg, s.cache, spec, ranks, parts, rows, i);
    assert rows[i] ==
           Task(Waiting, |OpenDeps(spec, rows, i)|, 0, None, 0, "", None, None, "", None, 0, ranks[i], parts[i]);
  }

  lemma FreshClosedIsGood(cfg: Config, s: Store, spec: BuildSpec, ranks: seq<int>, parts: seq<int>, rows: seq<Task>,
                          i: nat)
    requires Inv(cfg, s) && FreshRows(cfg, s.cache, spec, ranks, parts, rows)
    requires i < |rows| && !spec.tasks[i].kind.Compile? && OpenDeps(spec, rows, i) == {}
    ensures FreshGood(cfg, s, spec, rows, i)
  {
    var outs, names := DepOutputs(spec, rows, i), DepNames(spec, i);
    var key := KeyFor(cfg.hash, spec, i, outs);
    assert ValidHash(key);
    assert IsFresh(cfg, s.cache, spec, ranks, parts, rows, i);
    var hit := key in s.cache;
    assert rows[i] ==
           Task(if hit then Cached else Ready, 0, 0, None, 0, key, Column(Lines.Join(outs)), Column(Lines.Join(names)),
                           if hit then s.cache[key] else "", None, 0, ranks[i], parts[i]);
    Lines.JoinEmpty(outs);
    if outs == [""] {
      assert spec.tasks[i].deps[0] !in OpenDeps(spec, rows, i);
      FreshOutput(cfg, s, spec, ranks, parts, rows, spec.tasks[i].deps[0]);
      assert false;
    }
  }

  lemma NoEntryIsEmpty(cfg: Config, s: Store)
    requires Inv(cfg, s)
    ensures Submission.NoEmptyOutputs(s.cache)
  {
  }

  /** A row of a new build has an output only from the cache, so never an empty one. */
  lemma FreshOutput(cfg: Config, s: Store, spec: BuildSpec, ranks: seq<int>, parts: seq<int>, rows: seq<Task>, i: nat)
    requires Inv(cfg, s) && FreshRows(cfg, s.cache, spec, ranks, parts, rows) && i < |rows|
    ensures rows[i].HasOutput() <==> rows[i].output != ""
    ensures rows[i].HasOutput() ==> Has(s.blobs, rows[i].output)
  {
    assert IsFresh(cfg, s.cache, spec, ranks, parts, rows, i);
  }

  lemma FreshIsGood(cfg: Config, s: Store, spec: BuildSpec, ranks: seq<int>, parts: seq<int>, rows: seq<Task>, i: nat)
    requires Inv(cfg, s) && MayEnter(cfg, s, spec, ranks, parts, rows) && i < |rows|
    ensures FreshGood(cfg, s, spec, rows, i)
  {
    if spec.tasks[i].kind.Compile? {
      FreshCompileIsGood(cfg, s, spec, ranks, parts, rows, i);
    } else if OpenDeps(spec, rows, i) != {} {
      FreshOpenIsGood(cfg, s, spec, ranks, parts, rows, i);
    } else {
      FreshClosedIsGood(cfg, s, spec, ranks, parts, rows, i);
    }
  }

  lemma FreshRowsAreGood(cfg: Config, s: Store, spec: BuildSpec, ranks: seq<int>, parts: seq<int>, rows: seq<Task>)
    requires Inv(cfg, s) && MayEnter(cfg, s, spec, ranks, parts, rows)
    ensures GoodRows(cfg, s.cache, s.blobs, spec, rows)
  {
    forall i | 0 <= i < |rows|
      ensures rows[i].pending == |OpenDeps(spec, rows, i)|
      ensures rows[i].state.Waiting? <==> OpenDeps(spec, rows, i) != {}
      ensures GoodRow(cfg, s.cache, s.blobs, spec, rows, i)
    {
      FreshIsGood(cfg, s, spec, ranks, parts, rows, i);
    }
  }

  lemma SubmitKeeps(cfg: Config, s: Store, spec: BuildSpec, ranks: seq<int>, parts: seq<int>, reply: SubmitReply,
                    s': Store)
    requires Inv(cfg, s) && SubmitStep(cfg, s, spec, ranks, parts, reply, s')
    requires CalmStep(cfg, s, Submit(spec, ranks, parts, reply))
    ensures Inv(cfg, s')
  {
    if reply.Accepted? {
      FreshRowsAreGood(cfg, s, spec, ranks, parts, s'.builds[|s.builds|].tasks);
    }
  }

  lemma OneRowKeeps(cfg: Config, s: Store, b: nat, i: nat, row: Task, state: BuildState)
    requires Inv(cfg, s) && b < |s.builds| && i < |s.builds[b].tasks|
    requires Quiet(s.builds[b].tasks[i], row) && AttemptsBounded(cfg, row)
    requires state == Verdict(s.builds[b].tasks[i := row])
    ensures Inv(cfg, WithTasks(s, b, s.builds[b].tasks[i := row], state))
  {
    var build := s.builds[b];
    var tasks' := build.tasks[i := row];
    forall j | 0 <= j < |tasks'| ensures Quiet(build.tasks[j], tasks'[j]) && AttemptsBounded(cfg, tasks'[j]) {
      assert GoodRow(cfg, s.cache, s.blobs, build.spec, build.tasks, j);
    }
    QuietKeepsRows(cfg, s.cache, s.blobs, build.spec, build.tasks, tasks');
  }

  lemma ClaimKeeps(cfg: Config, s: Store, worker: string, toolchain: string, part: int, now: int,
                   reply: Option<Assignment>, s': Store)
    requires Inv(cfg, s) && ClaimStep(cfg, s, worker, toolchain, part, now, reply, s')
    ensures Inv(cfg, s')
  {
    if reply.Some? {
      LeaseKeeps(cfg, s, reply.value.build, reply.value.id, worker, now);
    }
  }

  lemma LeaseKeeps(cfg: Config, s: Store, b: nat, i: nat, worker: string, now: int)
    requires Inv(cfg, s) && IsTask(s, b, i) && Row(s, b, i).state.Ready?
    ensures Inv(cfg, WithTasks(s, b, s.builds[b].tasks[i := Leased(cfg, Row(s, b, i), worker, now)], s.builds[b].state))
  {
    hide Verdict, AssignmentFixed, OutputKept;
    var build := s.builds[b];
    var row := Leased(cfg, build.tasks[i], worker, now);
    assert GoodRow(cfg, s.cache, s.blobs, build.spec, build.tasks, i);
    QuietKeepsVerdict(build.tasks, build.tasks[i := row], build.state);
    OneRowKeeps(cfg, s, b, i, row, build.state);
  }

  lemma HeartbeatKeeps(cfg: Config, s: Store, worker: string, now: int, s': Store)
    requires Inv(cfg, s) && HeartbeatStep(cfg, s, worker, now, s')
    ensures Inv(cfg, s')
  {
    forall b | 0 <= b < |s.builds| ensures GoodBuild(cfg, s'.cache, s'.blobs, s'.builds[b]) {
      var build, build' := s.builds[b], s'.builds[b];
      forall i | 0 <= i < |build.tasks|
        ensures Quiet(build.tasks[i], build'.tasks[i]) && AttemptsBounded(cfg, build'.tasks[i])
        ensures build.tasks[i].state == build'.tasks[i].state
      {
        assert GoodRow(cfg, s.cache, s.blobs, build.spec, build.tasks, i);
      }
      QuietKeepsRows(cfg, s.cache, s.blobs, build.spec, build.tasks, build'.tasks);
      QuietKeepsVerdict(build.tasks, build'.tasks, build.state);
    }
  }

  lemma ReapKeeps(cfg: Config, s: Store, now: int, s': Store)
    requires Inv(cfg, s) && ReapStep(cfg, s, now, s')
    ensures Inv(cfg, s')
  {
    forall b | 0 <= b < |s.builds| ensures GoodBuild(cfg, s'.cache, s'.blobs, s'.builds[b]) {
      var build, build' := s.builds[b], s'.builds[b];
      assert ReapedBuild(cfg, build, now, build');
      forall i | 0 <= i < |build.tasks|
        ensures Quiet(build.tasks[i], build'.tasks[i]) && AttemptsBounded(cfg, build'.tasks[i])
      {
        assert GoodRow(cfg, s.cache, s.blobs, build.spec, build.tasks, i);
        assert build'.tasks[i] == Reaped(cfg, build.tasks[i], now);
      }
      QuietKeepsRows(cfg, s.cache, s.blobs, build.spec, build.tasks, build'.tasks);
      ReapKeepsVerdict(cfg, build, now, build');
    }
  }

  lemma ReapKeepsVerdict(cfg: Config, build: Build, now: int, build': Build)
    requires ReapedBuild(cfg, build, now, build') && build.state == Verdict(build.tasks)
    ensures build'.state == Verdict(build'.tasks)
  {
    var tasks, tasks' := build.tasks, build'.tasks;
    forall i | 0 <= i < |tasks|
      ensures Quiet(tasks[i], tasks'[i])
      ensures tasks'[i].state.Failed? <==>
              tasks[i].state.Failed? || (Expired(tasks[i], now) && tasks[i].attempts >= cfg.maxAttempts)
      ensures tasks[i].HasOutput() ==> tasks'[i] == tasks[i]
    {
      assert tasks'[i] == Reaped(cfg, tasks[i], now);
    }
    if GivesUp(cfg, tasks, now) {
      VerdictStands(tasks, tasks', build.state);
    } else {
      QuietKeepsVerdict(tasks, tasks', build.state);
    }
  }

  // ---- completion and the cascade behind it

  lemma CacheWithGrows(cache: map<string, string>, blobs: Blobs, key: string, output: string)
    requires CacheInStore(cache, blobs) && Has(blobs, output)
    ensures Grows(cache, CacheWith(cache, key, output)) && CacheInStore(CacheWith(cache, key, output), blobs)
    ensures key in CacheWith(cache, key, output)
  {
  }

  /** The rows before a cascade: everything settled, but that one unfinished task just got its output. */
  ghost predicate JustDone(before: seq<Task>, mid: seq<Task>, id: nat, output: string) {
    && id < |before| == |mid| && Unfinished(before[id]) && mid == before[id := mid[id]]
    && mid[id].state.Done? && mid[id].output == output && mid[id].key == before[id].key
      && mid[id].pending == before[id].pending
    && mid[id].attempts == before[id].attempts && mid[id].inputs == before[id].inputs
      && mid[id].names == before[id].names
  }

  /** After a cascade, tasks that were not waiting are as they were, and so are the outputs they look at. */
  lemma CascadeFrame(cfg: Config, cache: map<string, string>, spec: BuildSpec, before: seq<Task>, mid: seq<Task>,
                     after: seq<Task>, id: nat, output: string, i: nat)
    requires Settled(spec, before) && JustDone(before, mid, id, output) && Cascaded(cfg.hash, cache, spec, mid, after)
    requires i < |before| && !before[i].state.Waiting?
    requires NoSelfDeps(spec)
    ensures after[i] == mid[i] && OpenDeps(spec, after, i) == {}
    ensures DepOutputs(spec, after, i) == DepOutputs(spec, before, i)
  {
    assert CascadedRow(cfg.hash, cache, spec, mid[i], after, i);
    var deps := spec.tasks[i].deps;
    forall k | 0 <= k < |deps| ensures after[deps[k]] == before[deps[k]] && before[deps[k]].HasOutput() {
      assert deps[k] in deps && deps[k] !in OpenDeps(spec, before, i);
      assert CascadedRow(cfg.hash, cache, spec, mid[deps[k]], after, deps[k]);
    }
  }

  lemma CascadeSettles(cfg: Config, cache: map<string, string>, spec: BuildSpec, before: seq<Task>, mid: seq<Task>,
                       after: seq<Task>, id: nat, output: string)
    requires Settled(spec, before) && JustDone(before, mid, id, output) && Cascaded(cfg.hash, cache, spec, mid, after)
    requires NoSelfDeps(spec)
    ensures Settled(spec, after)
  {
    forall i | 0 <= i < |after|
      ensures after[i].pending == |OpenDeps(spec, after, i)|
      ensures after[i].state.Waiting? <==> OpenDeps(spec, after, i) != {}
    {
      assert CascadedRow(cfg.hash, cache, spec, mid[i], after, i);
      if !before[i].state.Waiting? {
        CascadeFrame(cfg, cache, spec, before, mid, after, id, output, i);
      }
    }
  }

  lemma CascadeKeepsRow(cfg: Config, cache: map<string, string>, blobs: Blobs, cache': map<string, string>,
                        spec: BuildSpec, before: seq<Task>, mid: seq<Task>, after: seq<Task>, id: nat, output: string,
                        i: nat)
    requires GoodRows(cfg, cache, blobs, spec, before) && JustDone(before, mid, id, output)
    requires Cascaded(cfg.hash, cache', spec, mid, after) && i < |before|
    requires Grows(cache, cache') && CacheInStore(cache', blobs) && before[id].key in cache' && Has(blobs, output)
    requires NoSelfDeps(spec)
    ensures GoodRow(cfg, cache', blobs, spec, after, i)
  {
    assert GoodRow(cfg, cache, blobs, spec, before, i);
    assert CascadedRow(cfg.hash, cache', spec, mid[i], after, i);
    if !before[i].state.Waiting? {
      CascadeFrame(cfg, cache', spec, before, mid, after, id, output, i);
    }
  }

  lemma CascadeKeepsVerdict(cfg: Config, cache: map<string, string>, spec: BuildSpec, before: seq<Task>, mid: seq<Task>,
                            after: seq<Task>, id: nat, output: string, state: BuildState)
    requires JustDone(before, mid, id, output) && Cascaded(cfg.hash, cache, spec, mid, after)
    requires state == Verdict(before)
    ensures Judged(state, after) == Verdict(after)
  {
    forall i | 0 <= i < |before| && !before[i].state.Waiting? ensures after[i] == mid[i] {
      assert CascadedRow(cfg.hash, cache, spec, mid[i], after, i);
    }
    assert !before[id].HasOutput();
    VerdictStands(before, after, state);
  }

  lemma SuccessKeeps(cfg: Config, s: Store, r: TaskResult, now: int, s': Store)
    requires Inv(cfg, s) && IsTask(s, r.build, r.id) && Succeeds(s, r) && Unfinished(Row(s, r.build, r.id))
    requires CompleteStep(cfg, s, r, now, true, s')
    ensures Inv(cfg, s')
  {
    var (build, build') := (s.builds[r.build], s'.builds[r.build]);
    var mid := build.tasks[r.id := DoneRow(build.tasks[r.id], r)];
    AdmittedDeps(build.spec);
    CacheWithGrows(s.cache, s.blobs, build.tasks[r.id].key, r.output);
    CascadeSettles(cfg, s'.cache, build.spec, build.tasks, mid, build'.tasks, r.id, r.output);
    forall i | 0 <= i < |build'.tasks| ensures GoodRow(cfg, s'.cache, s.blobs, build.spec, build'.tasks, i) {
      CascadeKeepsRow(cfg, s.cache, s.blobs, s'.cache, build.spec, build.tasks, mid, build'.tasks, r.id, r.output, i);
    }
    CascadeKeepsVerdict(cfg, s'.cache, build.spec, build.tasks, mid, build'.tasks, r.id, r.output, build.state);
    forall b | 0 <= b < |s.builds| && b != r.build ensures GoodBuild(cfg, s'.cache, s.blobs, s'.builds[b]) {
      GrowthKeepsBuild(cfg, s.cache, s.blobs, s'.cache, s.blobs, s.builds[b]);
    }
  }

  lemma CompleteKeeps(cfg: Config, s: Store, r: TaskResult, now: int, accepted: bool, s': Store)
    requires Inv(cfg, s) && CompleteStep(cfg, s, r, now, accepted, s')
    ensures Inv(cfg, s')
  {
    if accepted {
      if Succeeds(s, r) {
        SuccessKeeps(cfg, s, r, now, s');
      } else if Transient(s, r) {
        RequeueKeeps(cfg, s, r.build, r.id, now);
      } else {
        FailureKeeps(cfg, s, r.build, r.id);
      }
    }
  }

  lemma FailedRowKeeps(cfg: Config, s: Store, b: nat, i: nat, row: Task)
    requires Inv(cfg, s) && IsTask(s, b, i) && Unfinished(Row(s, b, i)) && row.state.Failed?
    requires Quiet(Row(s, b, i), row) && row.attempts == Row(s, b, i).attempts
    ensures var tasks := s.builds[b].tasks[i := row];
            Inv(cfg, WithTasks(s, b, tasks, Judged(s.builds[b].state, tasks)))
  {
    var build := s.builds[b];
    assert GoodRow(cfg, s.cache, s.blobs, build.spec, build.tasks, i);
    VerdictStands(build.tasks, build.tasks[i := row], build.state);
    OneRowKeeps(cfg, s, b, i, row, Judged(build.state, build.tasks[i := row]));
  }

  lemma FailureKeeps(cfg: Config, s: Store, b: nat, i: nat)
    requires Inv(cfg, s) && IsTask(s, b, i) && Unfinished(Row(s, b, i))
    ensures var tasks := s.builds[b].tasks[i := Row(s, b, i).(state := Failed)];
            Inv(cfg, WithTasks(s, b, tasks, Judged(s.builds[b].state, tasks)))
  {
    FailedRowKeeps(cfg, s, b, i, Row(s, b, i).(state := Failed));
  }

  lemma RequeueKeeps(cfg: Config, s: Store, b: nat, i: nat, now: int)
    requires Inv(cfg, s) && IsTask(s, b, i) && Row(s, b, i).state.Running?
    ensures var row := Requeued(cfg, Row(s, b, i), now);
            var tasks := s.builds[b].tasks[i := row];
            Inv(cfg,
                WithTasks(s, b, tasks, if row.state.Failed? then Judged(s.builds[b].state, tasks)
                    else s.builds[b].state))
  {
    var build := s.builds[b];
    var row := Requeued(cfg, build.tasks[i], now);
    if row.state.Failed? {
      FailedRowKeeps(cfg, s, b, i, row);
    } else {
      assert GoodRow(cfg, s.cache, s.blobs, build.spec, build.tasks, i);
      QuietKeepsVerdict(build.tasks, build.tasks[i := row], build.state);
      OneRowKeeps(cfg, s, b, i, row, build.state);
    }
  }

  /** Every step keeps the invariant, a submission that enters a compile as cached too early excepted. */
  lemma StepKeeps(cfg: Config, s: Store, e: Event, s': Store)
    requires Inv(cfg, s) && Next(cfg, s, e, s') && CalmStep(cfg, s, e)
    ensures Inv(cfg, s')
  {
    match e
    case Upload(batch, _) => UploadKeeps(cfg, s, batch);
    case Submit(spec, ranks, parts, reply) => SubmitKeeps(cfg, s, spec, ranks, parts, reply, s');
    case Claim(worker, toolchain, part, now, reply) => ClaimKeeps(cfg, s, worker, toolchain, part, now, reply, s');
    case Heartbeat(worker, now) => HeartbeatKeeps(cfg, s, worker, now, s');
    case Complete(r, now, accepted) => CompleteKeeps(cfg, s, r, now, accepted, s');
    case Reap(now) => ReapKeeps(cfg, s, now, s');
  }
}
