/** The coordinator: every request is one serialised transaction over the tables. */
module CoordinatorService {
  import opened Wrappers
  import opened HashInput
  import opened Graphs
  import opened Tables
  import opened Cascade
  import opened BlobStore
  import opened Steps
  import opened Invariant
  import Lines
  import TopoOrder
  import UpwardRank
  import Partitioning
  import Submission

  /** The state a cascade leaves a build in: one in progress succeeds when its last task got an output. */
  function Closed(state: BuildState, tasks: seq<Task>): BuildState {
    if state.InProgress? && AllHaveOutput(tasks) then Succeeded else state
  }

  /** Edges still owed by id when the first k of its dependents ts were counted down. */
  function OwedAfter(spec: BuildSpec, owed: set<(int, int)>, id: int, ts: seq<int>, k: nat): set<(int, int)>
    requires k <= |ts|
  {
    (owed - EdgesFrom(spec, id)) + EdgesTo(id, ts[k..])
  }

  lemma OwedSteps(spec: BuildSpec, owed: set<(int, int)>, id: int)
    requires EdgesFrom(spec, id) <= owed
    ensures var ts := Dependents(spec, id, 0);
            && OwedAfter(spec, owed, id, ts, 0) == owed
            && OwedAfter(spec, owed, id, ts, |ts|) == owed - EdgesFrom(spec, id)
  {
    var ts := Dependents(spec, id, 0);
    assert ts[0..] == ts && ts[|ts|..] == [];
  }

  lemma OwedStep(spec: BuildSpec, owed: set<(int, int)>, id: int, k: nat)
    requires k < |Dependents(spec, id, 0)|
    ensures var ts := Dependents(spec, id, 0);
            && (id, ts[k]) in OwedAfter(spec, owed, id, ts, k)
            && OwedAfter(spec, owed, id, ts, k) - {(id, ts[k])} == OwedAfter(spec, owed, id, ts, k + 1)
  {
    var ts := Dependents(spec, id, 0);
    EdgesFromMembers(spec, id);
    DependentsAre(spec, id, 0);
    EdgesToMembers(id, ts[k + 1..]);
    assert ts[k] in ts && ts[k] !in ts[k + 1..];
    assert ts[k..][1..] == ts[k + 1..];
    assert EdgesTo(id, ts[k..]) == {(id, ts[k])} + EdgesTo(id, ts[k + 1..]);
    assert (id, ts[k]) in EdgesFrom(spec, id);
  }

  lemma AdvancedFailures(hash: string -> string, cache: map<string, string>, spec: BuildSpec, before: seq<Task>,
                         after: seq<Task>)
    requires Advanced(hash, cache, spec, before, after)
    ensures SomeFailed(after) <==> SomeFailed(before)
  {
    forall i | 0 <= i < |before| ensures after[i].state.Failed? <==> before[i].state.Failed? {
      assert AdvancedRow(hash, cache, spec, before[i], after, i);
    }
    if SomeFailed(before) {
      var i :| 0 <= i < |before| && before[i].state.Failed?;
      assert after[i].state.Failed?;
    }
  }

  /** A task marked done owes a count-down to every dependent. */
  /** Before anything is counted down: nothing has moved, and a build with something to count down is not complete. */
  lemma CascadeStarts(cfg: Config, cache: map<string, string>, spec: BuildSpec, tasks: seq<Task>,
                      owed: set<(int, int)>, id: nat, state: BuildState)
    requires Counts(spec, tasks, owed, {}) && EdgesFrom(spec, id) <= owed
    ensures Advanced(cfg.hash, cache, spec, tasks, tasks)
    ensures Dependents(spec, id, 0) != [] ==> state == Closed(state, tasks)
  {
    OwedSteps(spec, owed, id);
    if Dependents(spec, id, 0) != [] {
      OwedStep(spec, owed, id, 0);
      assert tasks[Dependents(spec, id, 0)[0]].state.Waiting?;
    }
  }

  lemma DoneOwes(cfg: Config, s: Store, b: nat, i: nat, done: Task)
    requires Inv(cfg, s) && IsTask(s, b, i) && Unfinished(Row(s, b, i))
    requires done.state.Done? && done.pending == Row(s, b, i).pending
    ensures var build := s.builds[b];
            && NoSelfDeps(build.spec)
            && Counts(build.spec, build.tasks[i := done], EdgesFrom(build.spec, i), {})
            && (build.state.InProgress? ==> !SomeFailed(build.tasks[i := done]))
  {
    var build := s.builds[b];
    assert GoodBuild(cfg, s.cache, s.blobs, build);
    AdmittedDeps(build.spec);
    SettledMeansNothingOwed(build.spec, build.tasks);
    assert RowCounts(build.spec, build.tasks, {}, {}, i);
    GainedOutput(build.spec, build.tasks, {}, {}, i, done);
    assert {} + EdgesFrom(build.spec, i) == EdgesFrom(build.spec, i);
  }

  /**
    A cascade that leaves nothing owed is a cascade as defined, and judging the build after every change would end it
    the same.
   */
  lemma CascadeEnds(cfg: Config, cache: map<string, string>, spec: BuildSpec, mid: seq<Task>, after: seq<Task>,
                    owed: set<(int, int)>, state: BuildState)
    requires Advanced(cfg.hash, cache, spec, mid, after) && Counts(spec, after, owed - owed, {})
    requires state.InProgress? ==> !SomeFailed(after)
    ensures Cascaded(cfg.hash, cache, spec, mid, after)
    ensures Closed(state, after) == Judged(state, after)
  {
    assert owed - owed == {};
    SettledMeansNothingOwed(spec, after);
    AdvancedAndSettled(cfg.hash, cache, spec, mid, after);
  }

  ghost predicate Wanted(s: Store, worker: string, toolchain: string, part: Option<int>, now: int, b: int, i: int) {
    Eligible(s, worker, toolchain, now, b, i) && (part.None? || Row(s, b, i).part == part.value)
  }

  /** best is the best wanted task among the builds before b and the first i tasks of b. */
  ghost predicate BestSoFar(s: Store, worker: string, toolchain: string, part: Option<int>, now: int,
                            best: Option<(nat, nat)>, b: nat, i: nat)
  {
    && (best.None? ==> forall c, j :: (c < b || (c == b && j < i)) ==> !Wanted(s, worker, toolchain, part, now, c, j))
    && (best.Some? ==>
          && Wanted(s, worker, toolchain, part, now, best.value.0, best.value.1)
          && forall c, j :: (c < b || (c == b && j < i)) && Wanted(s, worker, toolchain, part, now, c, j) ==>
                              Row(s, c, j).priority <= Row(s, best.value.0, best.value.1).priority)
  }

  ghost predicate RowsFit(s: Store) {
    forall b :: 0 <= b < |s.builds| ==> |s.builds[b].tasks| == |s.builds[b].spec.tasks|
  }

  lemma InvFits(cfg: Config, s: Store)
    requires Inv(cfg, s)
    ensures RowsFit(s)
  {
    forall b | 0 <= b < |s.builds| ensures |s.builds[b].tasks| == |s.builds[b].spec.tasks| {
      assert GoodBuild(cfg, s.cache, s.blobs, s.builds[b]);
    }
  }

  /** Once every build was looked at, the best so far is the best. */
  lemma WholeTable(s: Store, worker: string, toolchain: string, part: Option<int>, now: int, best: Option<(nat, nat)>)
    requires BestSoFar(s, worker, toolchain, part, now, best, |s.builds|, 0)
    ensures best.None? ==> forall c, j :: !Wanted(s, worker, toolchain, part, now, c, j)
    ensures best.Some? ==>
              && Wanted(s, worker, toolchain, part, now, best.value.0, best.value.1)
              && forall c, j :: Wanted(s, worker, toolchain, part, now, c, j) ==>
                                  Row(s, c, j).priority <= Row(s, best.value.0, best.value.1).priority
  {
    forall c, j | Wanted(s, worker, toolchain, part, now, c, j) ensures c < |s.builds| {
    }
  }

  /** The best task of the own part, or the best of all when the own part has none, is what the queue promises. */
  lemma ChosenIsBest(s: Store, worker: string, toolchain: string, part: int, now: int, b: int, i: int)
    requires Eligible(s, worker, toolchain, now, b, i)
    requires if exists c, j :: Wanted(s, worker, toolchain, Some(part), now, c, j) then
               Wanted(s, worker, toolchain, Some(part), now, b, i) &&
               forall c, j :: Wanted(s, worker, toolchain, Some(part), now, c, j) ==>
                 Row(s, c, j).priority <= Row(s, b, i).priority
             else
               forall c, j :: Wanted(s, worker, toolchain, None, now, c, j) ==>
                 Row(s, c, j).priority <= Row(s, b, i).priority
    ensures BestChoice(s, worker, toolchain, part, now, b, i)
  {
    forall c, j
      ensures EligibleIn(s, worker, toolchain, part, now, c, j) <==>
                Wanted(s, worker, toolchain, Some(part), now, c, j)
    {
    }
    forall c, j ensures Eligible(s, worker, toolchain, now, c, j) <==> Wanted(s, worker, toolchain, None, now, c, j) {
    }
  }

  ghost predicate IsRenewed(cfg: Config, build: Build, worker: string, now: int, build': Build) {
    && build'.spec == build.spec && build'.state == build.state && |build'.tasks| == |build.tasks|
    && forall i :: 0 <= i < |build.tasks| ==> build'.tasks[i] == Renewed(cfg, build.tasks[i], worker, now)
  }

  ghost predicate RowsReaped(cfg: Config, build: Build, now: int, build': Build) {
    && build'.spec == build.spec && build'.state == build.state && |build'.tasks| == |build.tasks|
    && forall i :: 0 <= i < |build.tasks| ==> build'.tasks[i] == Reaped(cfg, build.tasks[i], now)
  }

  function WhenJudged(build: Build): Build { build.(state := Judged(build.state, build.tasks)) }

  class Coordinator {
    const cfg: Config
    const cas: Cas
    var builds: seq<Build>
    var cache: map<string, string>

    ghost function Snapshot(): Store
      reads this, cas
    {
      Store(builds, cache, cas.files)
    }

    ghost predicate Valid()
      reads this, cas
    {
      cas.hash == cfg.hash && Inv(cfg, Snapshot())
    }

    constructor (cfg: Config)
      requires NamesAreValid(cfg.hash)
      ensures Valid() && this.cfg == cfg && fresh(cas) && Snapshot() == EMPTY
    {
      this.cfg := cfg;
      cas := new Cas(cfg.hash);
      builds := [];
      cache := map[];
      new;
      EmptyIsGood(cfg);
    }

    /** A coordinator started on tables and a blob store that an earlier one left behind. */
    constructor Resume(cfg: Config, s: Store)
      requires Inv(cfg, s)
      ensures Valid() && this.cfg == cfg && fresh(cas) && Snapshot() == s
    {
      this.cfg := cfg;
      cas := new Cas.Open(cfg.hash, s.blobs);
      builds := s.builds;
      cache := s.cache;
    }

    // ---- the end of a build

    /** Counts the unfinished and the failed tasks of build b, and ends it when that is called for. */
    method MaybeFinish(b: nat)
      requires b < |builds|
      modifies this`builds
      ensures builds == old(builds)[b := old(builds[b]).(state := Judged(old(builds[b].state), old(builds[b].tasks)))]
    {
      var tasks := builds[b].tasks;
      var left, failed := 0, 0;
      for i := 0 to |tasks|
        invariant left >= 0 && failed >= 0
        invariant left == 0 <==> forall j :: 0 <= j < i ==> tasks[j].HasOutput()
        invariant failed == 0 <==> forall j :: 0 <= j < i ==> !tasks[j].state.Failed?
      {
        if !tasks[i].HasOutput() {
          left := left + 1;
        }
        if tasks[i].state.Failed? {
          failed := failed + 1;
        }
      }
      assert failed > 0 <==> SomeFailed(tasks);
      if failed > 0 {
        if builds[b].state.InProgress? {
          builds := builds[b := builds[b].(state := Broken)];
        }
      } else if left == 0 {
        if builds[b].state.InProgress? {
          builds := builds[b := builds[b].(state := Succeeded)];
        }
      }
    }

    // ---- the cascade

    /** Build b in the middle of a cascade. */
    ghost predicate InCascade(b: nat, owed: set<(int, int)>, due: set<int>)
      reads this
    {
      && b < |builds|
      && Counts(builds[b].spec, builds[b].tasks, owed, due)
      && NoSelfDeps(builds[b].spec)
      && (builds[b].state.InProgress? ==> !SomeFailed(builds[b].tasks))
    }

    /** Pays the edges out of task id, which has its output: each dependent is counted down once. */
    method Finished(b: nat, id: nat, ghost owed: set<(int, int)>)
      requires InCascade(b, owed, {})
      requires id < |builds[b].tasks| && builds[b].tasks[id].HasOutput() && EdgesFrom(builds[b].spec, id) <= owed
      modifies this`builds
      ensures |builds| == |old(builds)| && builds == old(builds)[b := builds[b]]
              && builds[b].spec == old(builds[b].spec)
      ensures InCascade(b, owed - EdgesFrom(builds[b].spec, id), {})
      ensures Advanced(cfg.hash, cache, builds[b].spec, old(builds[b].tasks), builds[b].tasks)
      ensures builds[b].state == Closed(old(builds[b].state), builds[b].tasks)
      decreases WaitingTasks(builds[b].tasks), 1, 2
    {
      var ts := Dependents(builds[b].spec, id, 0);
      CountDownAll(b, id, ts, owed);
      if |ts| == 0 {
        MaybeFinish(b);
      }
    }

    method CountDownAll(b: nat, id: nat, ts: seq<int>, ghost owed: set<(int, int)>)
      requires InCascade(b, owed, {}) && ts == Dependents(builds[b].spec, id, 0)
      requires id < |builds[b].tasks| && builds[b].tasks[id].HasOutput() && EdgesFrom(builds[b].spec, id) <= owed
      modifies this`builds
      ensures |builds| == |old(builds)| && builds == old(builds)[b := builds[b]]
              && builds[b].spec == old(builds[b].spec)
      ensures InCascade(b, owed - EdgesFrom(builds[b].spec, id), {})
      ensures Advanced(cfg.hash, cache, builds[b].spec, old(builds[b].tasks), builds[b].tasks)
      ensures ts != [] ==> builds[b].state == Closed(old(builds[b].state), builds[b].tasks)
      ensures ts == [] ==> builds[b].state == old(builds[b].state)
      decreases WaitingTasks(builds[b].tasks), 1, 1
    {
      ghost var spec, before, state := builds[b].spec, builds[b].tasks, builds[b].state;
      OwedSteps(spec, owed, id);
      CascadeStarts(cfg, cache, spec, before, owed, id, state);
      hide Counts, Advanced, Closed, Dependents, NoSelfDeps, SomeFailed, EdgesFrom;
      for k := 0 to |ts|
        invariant |builds| == |old(builds)| && builds == old(builds)[b := builds[b]] && builds[b].spec == spec
        invariant InCascade(b, OwedAfter(spec, owed, id, ts, k), {})
        invariant Advanced(cfg.hash, cache, spec, before, builds[b].tasks)
        invariant ts != [] ==> builds[b].state == Closed(state, builds[b].tasks)
        invariant ts == [] ==> builds[b].state == state
      {
        OwedStep(spec, owed, id, k);
        CountDown(b, id, ts[k], OwedAfter(spec, owed, id, ts, k), OwedAfter(spec, owed, id, ts, k + 1), before, state);
      }
    }

    /** One dependent t of id is counted down, and made ready when that was the last one it waited for. */
    method CountDown(b: nat, id: nat, t: int, ghost owed: set<(int, int)>, ghost rest: set<(int, int)>,
                     ghost before: seq<Task>, ghost state: BuildState)
      requires InCascade(b, owed, {}) && (id, t) in owed && rest == owed - {(id, t)}
      requires Advanced(cfg.hash, cache, builds[b].spec, before, builds[b].tasks)
      requires builds[b].state == Closed(state, builds[b].tasks)
      modifies this`builds
      ensures |builds| == |old(builds)| && builds == old(builds)[b := builds[b]]
              && builds[b].spec == old(builds[b].spec)
      ensures InCascade(b, rest, {})
      ensures Advanced(cfg.hash, cache, builds[b].spec, before, builds[b].tasks)
      ensures builds[b].state == Closed(state, builds[b].tasks)
      decreases WaitingTasks(builds[b].tasks), 1, 0
    {
      ghost var spec, tasks := builds[b].spec, builds[b].tasks;
      CountedDown(spec, tasks, owed, id, t);
      CountDownAdvances(cfg.hash, cache, spec, tasks, t);
      var row := builds[b].tasks[t];
      row := row.(pending := row.pending - 1);
      builds := builds[b := builds[b].(tasks := builds[b].tasks[t := row])];
      ghost var counted := builds[b].tasks;
      AdvancedTransitive(cfg.hash, cache, spec, before, tasks, counted);
      AdvancedFailures(cfg.hash, cache, spec, tasks, counted);
      assert counted[t].state.Waiting? && tasks[t].state.Waiting?;
      if row.pending == 0 {
        MakeReady(b, t, rest);
        AdvancedTransitive(cfg.hash, cache, spec, before, counted, builds[b].tasks);
      }
    }

    /**
      All dependencies of task id have outputs: it is finished at once when the cache has its key, and claimable
      otherwise.
     */
    method MakeReady(b: nat, id: nat, ghost owed: set<(int, int)>)
      requires InCascade(b, owed, {id}) && id < |builds[b].tasks|
      modifies this`builds
      ensures |builds| == |old(builds)| && builds == old(builds)[b := builds[b]]
              && builds[b].spec == old(builds[b].spec)
      ensures InCascade(b, owed, {})
      ensures Advanced(cfg.hash, cache, builds[b].spec, old(builds[b].tasks), builds[b].tasks)
      ensures builds[b].state == Closed(old(builds[b].state), builds[b].tasks)
      decreases WaitingTasks(builds[b].tasks), 0, 1
    {
      assert RowCounts(builds[b].spec, builds[b].tasks, owed, {id}, id);
      var key, names, digests := ResolveKey(b, id);
      if key in cache {
        MarkCached(b, id, key, owed);
      } else {
        var inputs := Lines.JoinLines(digests);
        var inputNames := Lines.JoinLines(names);
        MarkReady(b, id, key, inputs, inputNames, owed);
      }
    }

    method MarkReady(b: nat, id: nat, key: string, inputs: string, names: string, ghost owed: set<(int, int)>)
      requires InCascade(b, owed, {id}) && id < |builds[b].tasks|
      requires builds[b].tasks[id].state.Waiting? && builds[b].tasks[id].pending == 0
      requires builds[b].tasks[id].(state := Ready, key := key, inputs := Some(inputs), names := Some(names)) ==
               MadeReady(cfg.hash, cache, builds[b].spec, id, builds[b].tasks[id],
                   DepOutputs(builds[b].spec, builds[b].tasks, id))
      modifies this`builds
      ensures |builds| == |old(builds)| && builds == old(builds)[b := builds[b]]
              && builds[b].spec == old(builds[b].spec)
      ensures InCascade(b, owed, {})
      ensures Advanced(cfg.hash, cache, builds[b].spec, old(builds[b].tasks), builds[b].tasks)
      ensures builds[b].state == Closed(old(builds[b].state), builds[b].tasks)
    {
      ghost var spec, tasks := builds[b].spec, builds[b].tasks;
      MakeReadyAdvances(cfg.hash, cache, spec, tasks, owed, id);
      var row := builds[b].tasks[id].(state := Ready, key := key, inputs := Some(inputs), names := Some(names));
      BecameReady(spec, tasks, owed, id, row);
      builds := builds[b := builds[b].(tasks := builds[b].tasks[id := row])];
      AdvancedFailures(cfg.hash, cache, spec, tasks, builds[b].tasks);
    }

    method MarkCached(b: nat, id: nat, key: string, ghost owed: set<(int, int)>)
      requires InCascade(b, owed, {id}) && id < |builds[b].tasks| && key in cache
      requires builds[b].tasks[id].state.Waiting? && builds[b].tasks[id].pending == 0
      requires builds[b].tasks[id].(state := Cached, key := key, output := cache[key]) ==
               MadeReady(cfg.hash, cache, builds[b].spec, id, builds[b].tasks[id],
                   DepOutputs(builds[b].spec, builds[b].tasks, id))
      modifies this`builds
      ensures |builds| == |old(builds)| && builds == old(builds)[b := builds[b]]
              && builds[b].spec == old(builds[b].spec)
      ensures InCascade(b, owed, {})
      ensures Advanced(cfg.hash, cache, builds[b].spec, old(builds[b].tasks), builds[b].tasks)
      ensures builds[b].state == Closed(old(builds[b].state), builds[b].tasks)
      decreases WaitingTasks(builds[b].tasks), 0, 0
    {
      ghost var spec, tasks := builds[b].spec, builds[b].tasks;
      MakeReadyAdvances(cfg.hash, cache, spec, tasks, owed, id);
      var row := builds[b].tasks[id].(state := Cached, key := key, output := cache[key]);
      BecameCached(spec, tasks, owed, id, row);
      builds := builds[b := builds[b].(tasks := builds[b].tasks[id := row])];
      ghost var marked := builds[b].tasks;
      AdvancedFailures(cfg.hash, cache, spec, tasks, marked);
      Finished(b, id, owed + EdgesFrom(spec, id));
      AdvancedTransitive(cfg.hash, cache, spec, tasks, marked, builds[b].tasks);
    }

    /** The key of a task whose dependencies have outputs, and what it was computed from. */
    method ResolveKey(b: nat, id: nat) returns (key: string, names: seq<string>, digests: seq<string>)
      requires b < |builds| && id < |builds[b].tasks| == |builds[b].spec.tasks| && DepsKnown(builds[b].spec)
      ensures names == DepNames(builds[b].spec, id) && digests == DepOutputs(builds[b].spec, builds[b].tasks, id)
      ensures key == ActionKey(cfg.hash, builds[b].spec.tasks[id].kind, builds[b].spec.toolchain,
                               ArgsText(builds[b].spec, id), names, digests)
    {
      var me := builds[b].spec.tasks[id];
      names, digests := [], [];
      for k := 0 to |me.deps|
        invariant names == DepNames(builds[b].spec, id)[..k]
        invariant digests == DepOutputs(builds[b].spec, builds[b].tasks, id)[..k]
      {
        var d := me.deps[k];
        names := names + [Lines.FlatName(builds[b].spec.tasks[d].name)];
        digests := digests + [builds[b].tasks[d].output];
      }
      key := BuildActionKey(cfg.hash, me.kind, builds[b].spec.toolchain, Lines.Join(me.args), names, digests);
    }

    // ---- uploads

    method PutBlobs(batch: seq<Blob>) returns (stored: bool)
      requires Valid()
      modifies cas
      ensures Valid() && Next(cfg, old(Snapshot()), Upload(batch, stored), Snapshot())
    {
      ghost var before := Snapshot();
      var k := 0;
      assert batch[0..] == batch;
      while k < |batch|
        invariant k <= |batch| && cas.Valid() && cas.hash == cfg.hash
        invariant PutAll(cfg.hash, before.blobs, batch) == PutAll(cfg.hash, cas.files, batch[k..])
      {
        assert batch[k..][1..] == batch[k + 1..];
        var name := cas.PutBlob(batch[k].data, batch[k].hash);
        if name == "" {
          UploadKeeps(cfg, before, batch);
          return false;
        }
        k := k + 1;
      }
      UploadKeeps(cfg, before, batch);
      stored := true;
    }

    // ---- submissions

    /**
      Checks the graph, ranks and partitions it, and enters it. livePartitions stands for the count of workers seen
      lately. Nothing checks that no compile is entered as cached while it has something to wait for; the client's
      compiles wait for nothing (see the lemmas of ClientGraph).
     */
    method SubmitBuild(spec: BuildSpec, livePartitions: int)
      returns (reply: SubmitReply, ghost ranks: seq<int>, ghost parts: seq<int>)
      requires Valid()
      modifies this`builds
      ensures Next(cfg, old(Snapshot()), Submit(spec, ranks, parts, reply), Snapshot())
      ensures CalmStep(cfg, old(Snapshot()), Submit(spec, ranks, parts, reply)) ==> Valid()
      ensures reply.Accepted? ==> UpwardRank.AreUpwardRanks(GraphOf(spec), ranks)
      ensures reply.Accepted? ==> Partitioning.KeepsTogether(GraphOf(spec), parts)
      ensures reply.Accepted? ==>
                var n := if spec.partitions > 0 then spec.partitions else livePartitions;
                && (forall i :: 0 <= i < |parts| ==> 0 <= parts[i] < if n < 1 then 1 else n)
                && (n > 1 && parts != [] ==> |parts| == |spec.tasks| && Partitioning.Balanced(GraphOf(spec), parts, n))
    {
      hide Partitioning.Balanced, Partitioning.KeepsTogether, UpwardRank.AreUpwardRanks;
      ranks, parts := [], [];
      for i := 0 to |spec.tasks|
        invariant forall j :: 0 <= j < i && spec.tasks[j].kind.Compile? ==>
                    ValidHash(spec.tasks[j].key) && ValidHash(spec.tasks[j].input)
      {
        var ts := spec.tasks[i];
        if ts.kind.Compile? && (!ValidHash(ts.key) || !ValidHash(ts.input)) {
          return InvalidArgument, ranks, parts;
        }
      }
      var g := GraphOf(spec);
      var order, err := TopoOrder.TopologicalOrder(g);
      if err.Some? {
        return InvalidArgument, ranks, parts;
      }
      var rank := UpwardRank.UpwardRanks(g);
      AdmittedDeps(spec);
      assert Partitioning.DepsInRange(g) by {
        forall i, d | 0 <= i < |g| && d in g[i].deps ensures 0 <= d < |g| {
          assert GoodDep(g, i, d);
        }
      }
      var part := Partitioning.Partition(g, if spec.partitions > 0 then spec.partitions else livePartitions);
      ranks, parts := rank, part;
      reply := Enter(spec, order, rank, part);
      if CalmStep(cfg, old(Snapshot()), Submit(spec, ranks, parts, reply)) {
        SubmitKeeps(cfg, old(Snapshot()), spec, ranks, parts, reply, Snapshot());
      }
    }

    /**
      The transaction: nothing is entered when a source is missing or the rows clash with the primary key of task_deps.
     */
    method Enter(spec: BuildSpec, order: seq<int>, ranks: seq<int>, parts: seq<int>) returns (reply: SubmitReply)
      requires Valid() && CompilesAreKeyed(spec)
      requires WellFormed(GraphOf(spec)) && Acyclic(GraphOf(spec)) && IsTopological(GraphOf(spec), order)
      requires |ranks| == |parts| == |spec.tasks|
      modifies this`builds
      ensures SubmitStep(cfg, old(Snapshot()), spec, ranks, parts, reply, Snapshot())
    {
      NoEntryIsEmpty(cfg, Snapshot());
      var rows, uploaded := Submission.Walk(cfg, cache, cas.files, spec, order, ranks, parts);
      if !uploaded {
        return FailedPrecondition;
      }
      if !DepsDistinct(spec) {
        return Unavailable;
      }
      var b := |builds|;
      builds := builds + [Build(spec, InProgress, rows)];
      MaybeFinish(b);
      assert builds == old(builds) + [builds[b]];
      reply := Accepted(b);
    }

    // ---- claims

    /** The best task that is ready for this worker, of the given part or of any. */
    method BestReady(worker: string, toolchain: string, part: Option<int>, now: int) returns (best: Option<(nat, nat)>)
      requires RowsFit(Snapshot())
      ensures BestSoFar(Snapshot(), worker, toolchain, part, now, best, |builds|, 0)
    {
      best := None;
      for b := 0 to |builds|
        invariant BestSoFar(Snapshot(), worker, toolchain, part, now, best, b, 0)
      {
        best := BestReadyIn(b, worker, toolchain, part, now, best);
      }
    }

    method BestReadyIn(b: nat, worker: string, toolchain: string, part: Option<int>, now: int,
                       best0: Option<(nat, nat)>)
      returns (best: Option<(nat, nat)>)
      requires RowsFit(Snapshot()) && b < |builds|
      requires BestSoFar(Snapshot(), worker, toolchain, part, now, best0, b, 0)
      ensures BestSoFar(Snapshot(), worker, toolchain, part, now, best, b + 1, 0)
    {
      best := best0;
      var tasks := builds[b].tasks;
      for i := 0 to |tasks|
        invariant BestSoFar(Snapshot(), worker, toolchain, part, now, best, b, i)
      {
        var row := tasks[i];
        if row.state.Ready? && builds[b].spec.toolchain == toolchain && (part.None? || row.part == part.value)
           && (row.lastFailedBy != Some(worker) || row.readyAt < now - COOLDOWN_SECONDS)
        {
          if best.None? || builds[best.value.0].tasks[best.value.1].priority < row.priority {
            best := Some((b, i));
          }
        }
      }
    }

    /** Best task in the worker's own part, then best task anywhere. */
    method Choose(worker: string, toolchain: string, part: int, now: int) returns (best: Option<(nat, nat)>)
      requires RowsFit(Snapshot())
      ensures best.None? ==> forall b, i :: !Eligible(Snapshot(), worker, toolchain, now, b, i)
      ensures best.Some? ==> BestChoice(Snapshot(), worker, toolchain, part, now, best.value.0, best.value.1)
    {
      best := BestReady(worker, toolchain, Some(part), now);
      WholeTable(Snapshot(), worker, toolchain, Some(part), now, best);
      if best.None? {
        best := BestReady(worker, toolchain, None, now);
        WholeTable(Snapshot(), worker, toolchain, None, now, best);
      }
      if best.Some? {
        ChosenIsBest(Snapshot(), worker, toolchain, part, now, best.value.0, best.value.1);
      } else {
        assert forall b, i :: Eligible(Snapshot(), worker, toolchain, now, b, i) ==>
                                Wanted(Snapshot(), worker, toolchain, None, now, b, i);
      }
    }

    method TryClaim(worker: string, toolchain: string, part: int, now: int) returns (reply: Option<Assignment>)
      requires Valid()
      modifies this`builds
      ensures Valid() && Next(cfg, old(Snapshot()), Claim(worker, toolchain, part, now, reply), Snapshot())
    {
      hide Inv, Verdict;
      ghost var before := Snapshot();
      InvFits(cfg, before);
      var best := Choose(worker, toolchain, part, now);
      if best.None? {
        return None;
      }
      var (b, i) := best.value;
      var row := Leased(cfg, builds[b].tasks[i], worker, now);
      LeaseKeeps(cfg, before, b, i, worker, now);
      builds := builds[b := builds[b].(tasks := builds[b].tasks[i := row])];
      var t := builds[b].spec.tasks[i];
      var inputs := Lines.SplitLines(row.inputs.GetOr(t.input));
      var names := Lines.SplitLines(row.names.GetOr("in.i"));
      var args := Lines.SplitLines(Lines.Join(t.args));
      reply := Some(Assignment(b, i, row.attempts, t.kind, t.name, inputs, names, args));
    }

    // ---- leases

    method KeepAlive(worker: string, now: int)
      requires Valid()
      modifies this`builds
      ensures Valid() && Next(cfg, old(Snapshot()), Heartbeat(worker, now), Snapshot())
    {
      RenewLeases(worker, now);
      assert HeartbeatStep(cfg, old(Snapshot()), worker, now, Snapshot()) by {
        assert forall b :: 0 <= b < |builds| ==> IsRenewed(cfg, old(builds)[b], worker, now, builds[b]);
      }
      HeartbeatKeeps(cfg, old(Snapshot()), worker, now, Snapshot());
    }

    method RenewLeases(worker: string, now: int)
      modifies this`builds
      ensures |builds| == |old(builds)|
      ensures forall b :: 0 <= b < |builds| ==> IsRenewed(cfg, old(builds)[b], worker, now, builds[b])
    {
      for b := 0 to |builds|
        invariant |builds| == |old(builds)| && forall c :: b <= c < |builds| ==> builds[c] == old(builds)[c]
        invariant forall c :: 0 <= c < b ==> IsRenewed(cfg, old(builds)[c], worker, now, builds[c])
      {
        var tasks := builds[b].tasks;
        for i := 0 to |tasks|
          invariant |tasks| == |old(builds)[b].tasks|
          invariant forall j :: 0 <= j < i ==> tasks[j] == Renewed(cfg, old(builds)[b].tasks[j], worker, now)
          invariant forall j :: i <= j < |tasks| ==> tasks[j] == old(builds)[b].tasks[j]
        {
          if tasks[i].owner == Some(worker) && tasks[i].state.Running? {
            tasks := tasks[i := tasks[i].(leaseUntil := now + cfg.leaseSeconds)];
          }
        }
        builds := builds[b := builds[b].(tasks := tasks)];
      }
    }

    /** Requeues each running row whose lease is past; ends the builds in which that used up the attempts. */
    method ReapExpired(now: int)
      requires Valid()
      modifies this`builds
      ensures Valid() && Next(cfg, old(Snapshot()), Reap(now), Snapshot())
    {
      var gaveUp := ReapRows(now);
      ghost var reaped := builds;
      EndBuilds(gaveUp);
      forall b | 0 <= b < |builds| ensures ReapedBuild(cfg, old(builds)[b], now, builds[b]) {
        assert RowsReaped(cfg, old(builds)[b], now, reaped[b]);
      }
      ReapKeeps(cfg, old(Snapshot()), now, Snapshot());
    }

    method ReapRows(now: int) returns (gaveUp: seq<nat>)
      modifies this`builds
      ensures |builds| == |old(builds)|
      ensures forall b :: 0 <= b < |builds| ==> RowsReaped(cfg, old(builds)[b], now, builds[b])
      ensures forall k :: 0 <= k < |gaveUp| ==> gaveUp[k] < |builds|
      ensures forall b :: 0 <= b < |builds| ==> (b in gaveUp <==> GivesUp(cfg, old(builds)[b].tasks, now))
    {
      gaveUp := [];
      for b := 0 to |builds|
        invariant |builds| == |old(builds)| && forall c :: b <= c < |builds| ==> builds[c] == old(builds)[c]
        invariant forall c :: 0 <= c < b ==> RowsReaped(cfg, old(builds)[c], now, builds[c])
        invariant forall k :: 0 <= k < |gaveUp| ==> gaveUp[k] < b
        invariant forall c :: 0 <= c < b ==> (c in gaveUp <==> GivesUp(cfg, old(builds)[c].tasks, now))
      {
        var tasks, failed := ReapTasks(builds[b].tasks, now);
        builds := builds[b := builds[b].(tasks := tasks)];
        if failed {
          gaveUp := gaveUp + [b];
        }
      }
    }

    method EndBuilds(ended: seq<nat>)
      requires forall k :: 0 <= k < |ended| ==> ended[k] < |builds|
      modifies this`builds
      ensures |builds| == |old(builds)|
      ensures forall b :: 0 <= b < |builds| ==>
                builds[b] == if b in ended then WhenJudged(old(builds)[b]) else old(builds)[b]
    {
      for k := 0 to |ended|
        invariant |builds| == |old(builds)|
        invariant forall b :: 0 <= b < |builds| ==>
                    builds[b] == if b in ended[..k] then WhenJudged(old(builds)[b]) else old(builds)[b]
      {
        assert ended[..k + 1] == ended[..k] + [ended[k]];
        MaybeFinish(ended[k]);
      }
      assert ended[..|ended|] == ended;
    }

    method ReapTasks(rows: seq<Task>, now: int) returns (tasks: seq<Task>, failed: bool)
      ensures |tasks| == |rows| && forall i :: 0 <= i < |rows| ==> tasks[i] == Reaped(cfg, rows[i], now)
      ensures failed <==> GivesUp(cfg, rows, now)
    {
      tasks, failed := rows, false;
      for i := 0 to |rows|
        invariant |tasks| == |rows|
        invariant forall j :: 0 <= j < i ==> tasks[j] == Reaped(cfg, rows[j], now)
        invariant forall j :: i <= j < |rows| ==> tasks[j] == rows[j]
        invariant failed <==> exists j :: 0 <= j < i && Expired(rows[j], now) && rows[j].attempts >= cfg.maxAttempts
      {
        if tasks[i].state.Running? && tasks[i].leaseUntil < now {
          tasks := tasks[i := Requeued(cfg, tasks[i], now)];
          failed := failed || tasks[i].state.Failed?;
        }
      }
    }

    // ---- completions

    /** A result whose output arrived: the task is done, its output is cached, and its dependents are counted down. */
    method Succeed(r: TaskResult, now: int) returns (accepted: bool)
      requires Valid() && IsTask(Snapshot(), r.build, r.id) && Succeeds(Snapshot(), r)
      modifies this
      ensures CompleteStep(cfg, old(Snapshot()), r, now, accepted, Snapshot())
    {
      hide Inv, Verdict, CascadedRow, Settled;
      ghost var before := Snapshot();
      var row := builds[r.build].tasks[r.id];
      if !row.state.Ready? && !row.state.Running? {
        return false;
      }
      ghost var spec, tasks, state := builds[r.build].spec, builds[r.build].tasks, builds[r.build].state;
      var done := row.(state := Done, output := r.output, owner := Some(r.worker));
      builds := builds[r.build := builds[r.build].(tasks := builds[r.build].tasks[r.id := done])];
      if row.key !in cache {
        cache := cache[row.key := r.output];
      }
      ghost var mid := builds[r.build].tasks;
      DoneOwes(cfg, before, r.build, r.id, done);
      Finished(r.build, r.id, EdgesFrom(spec, r.id));
      CascadeEnds(cfg, cache, spec, mid, builds[r.build].tasks, EdgesFrom(spec, r.id), state);
      assert builds[r.build].state == Judged(state, builds[r.build].tasks);
      assert builds == before.builds[r.build := Build(spec, builds[r.build].state, builds[r.build].tasks)];
      accepted := true;
    }

    /** A transient failure counts only for the attempt that is running. */
    method Retry(r: TaskResult, now: int) returns (accepted: bool)
      requires Valid() && Transient(Snapshot(), r)
      modifies this`builds
      ensures CompleteStep(cfg, old(Snapshot()), r, now, accepted, Snapshot())
    {
      if r.build < 0 || r.build >= |builds| || r.id < 0 || r.id >= |builds[r.build].tasks| {
        return false;
      }
      assert GoodBuild(cfg, cache, cas.files, builds[r.build]);
      var row := builds[r.build].tasks[r.id];
      if !row.state.Running? || row.attempts != r.attempt {
        return false;
      }
      var requeued := Requeued(cfg, row, now);
      builds := builds[r.build := builds[r.build].(tasks := builds[r.build].tasks[r.id := requeued])];
      if requeued.state.Failed? {
        MaybeFinish(r.build);
      }
      accepted := true;
    }

    /** A real error: the task fails for good, and the build with it. */
    method Fail(r: TaskResult, now: int) returns (accepted: bool)
      requires Valid() && 0 <= r.build < |builds| && 0 <= r.id < |builds[r.build].tasks| && !r.ok && !r.retryable
      modifies this`builds
      ensures CompleteStep(cfg, old(Snapshot()), r, now, accepted, Snapshot())
    {
      assert GoodBuild(cfg, cache, cas.files, builds[r.build]);
      var row := builds[r.build].tasks[r.id];
      if !row.state.Ready? && !row.state.Running? {
        return false;
      }
      builds := builds[r.build := builds[r.build].(tasks := builds[r.build].tasks[r.id := row.(state := Failed)])];
      MaybeFinish(r.build);
      accepted := true;
    }

    method CompleteTask(r: TaskResult, now: int) returns (accepted: bool)
      requires Valid()
      modifies this
      ensures Valid() && Next(cfg, old(Snapshot()), Complete(r, now, accepted), Snapshot())
    {
      ghost var before := Snapshot();
      if r.ok && !Has(cas.files, r.output) {
        accepted := Retry(r, now);
      } else if r.build < 0 || r.build >= |builds| || r.id < 0 || r.id >= |builds[r.build].tasks| {
        accepted := false;
      } else if r.ok {
        assert GoodBuild(cfg, cache, cas.files, builds[r.build]);
        accepted := Succeed(r, now);
      } else if r.retryable {
        accepted := Retry(r, now);
      } else {
        accepted := Fail(r, now);
      }
      CompleteKeeps(cfg, before, r, now, accepted, Snapshot());
    }
  }
}
