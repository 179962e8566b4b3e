/** What holds over whole runs. */
module Runs {
  // Any number of builds share one cache, and requests, retries, expiries and late results come in any order.

  import opened Wrappers
  import opened Graphs
  import opened Tables
  import opened BlobStore
  import opened Steps
  import opened Invariant
  import opened Lifecycle
  import Lines
  import Submission

  /** The stores a coordinator goes through from the empty one, and the events between them. */
  datatype Run = Run(events: seq<Event>, stores: seq<Store>)

  ghost predicate StepAt(cfg: Config, r: Run, k: nat)
    requires k < |r.events| && |r.stores| == |r.events| + 1
  {
    Next(cfg, r.stores[k], r.events[k], r.stores[k + 1])
  }

  ghost predicate IsRun(cfg: Config, r: Run) {
    && NamesAreValid(cfg.hash)
    && |r.stores| == |r.events| + 1 && r.stores[0] == EMPTY
    && forall k :: 0 <= k < |r.events| ==> StepAt(cfg, r, k)
  }

  /**
    Of the first k submissions and other requests, none entered a compile as cached while it had something to wait for.
   */
  ghost predicate CalmUpTo(cfg: Config, r: Run, k: nat)
    requires k <= |r.events| <= |r.stores|
  {
    forall j :: 0 <= j < k ==> CalmStep(cfg, r.stores[j], r.events[j])
  }

  ghost predicate IsCalmRun(cfg: Config, r: Run) { IsRun(cfg, r) && CalmUpTo(cfg, r, |r.events|) }

  lemma {:induction false} RunKeeps(cfg: Config, r: Run, k: nat)
    requires IsRun(cfg, r) && k < |r.stores| && CalmUpTo(cfg, r, k)
    ensures Inv(cfg, r.stores[k])
  {
    if k == 0 {
      EmptyIsGood(cfg);
    } else {
      RunKeeps(cfg, r, k - 1);
      assert StepAt(cfg, r, k - 1);
      StepKeeps(cfg, r.stores[k - 1], r.events[k - 1], r.stores[k]);
    }
  }

  /**
    The stored state of a build always says what its tasks say: broken if and only if a task failed, succeeded if and
    only if all have outputs. Looking only at sinks, at submission and at failures misses nothing.
   */
  lemma BuildStateIsVerdict(cfg: Config, r: Run, k: nat, b: nat)
    requires IsCalmRun(cfg, r) && k < |r.stores| && b < |r.stores[k].builds|
    ensures var (state, tasks) := (r.stores[k].builds[b].state, r.stores[k].builds[b].tasks);
            && (state == Broken <==> exists i :: 0 <= i < |tasks| && tasks[i].state == Failed)
            && (state == Succeeded <==>
                forall i :: 0 <= i < |tasks| ==> tasks[i].state == Done || tasks[i].state == Cached)
  {
    RunKeeps(cfg, r, k);
    var build := r.stores[k].builds[b];
    assert GoodBuild(cfg, r.stores[k].cache, r.stores[k].blobs, build);
    if i :| 0 <= i < |build.tasks| && build.tasks[i].state == Failed {
      assert !build.tasks[i].HasOutput();
    }
  }

  /** Row i counts its dependencies without output, and waits exactly while it has some. */
  predicate ExactAt(s: Store, b: int, i: int)
    requires IsTask(s, b, i)
  {
    var (spec, tasks) := (s.builds[b].spec, s.builds[b].tasks);
    && DepsKnown(spec)
    && tasks[i].pending == |set d | d in spec.tasks[i].deps && tasks[d].state != Done && tasks[d].state != Cached|
    && (tasks[i].state == Waiting <==> tasks[i].pending > 0)
  }

  ghost predicate Exact(s: Store) { forall b, i :: IsTask(s, b, i) ==> ExactAt(s, b, i) }

  lemma GoodCountsAreExact(cfg: Config, s: Store)
    requires Inv(cfg, s)
    ensures Exact(s)
  {
    forall b, i | IsTask(s, b, i) ensures ExactAt(s, b, i) {
      var (spec, tasks) := (s.builds[b].spec, s.builds[b].tasks);
      assert GoodBuild(cfg, s.cache, s.blobs, s.builds[b]);
      assert OpenDeps(spec, tasks, i) ==
             set d | d in spec.tasks[i].deps && tasks[d].state != Done && tasks[d].state != Cached;
    }
  }

  lemma {:induction false} FirstRash(cfg: Config, r: Run, n: nat) returns (k: nat)
    requires n <= |r.events| <= |r.stores| && !CalmUpTo(cfg, r, n)
    ensures k < n && CalmUpTo(cfg, r, k) && !CalmStep(cfg, r.stores[k], r.events[k])
  {
    if CalmUpTo(cfg, r, n - 1) {
      k := n - 1;
    } else {
      k := FirstRash(cfg, r, n - 1);
    }
  }

  lemma RashMiscounts(cfg: Config, r: Run, k: nat)
    requires IsRun(cfg, r) && k < |r.events| && CalmUpTo(cfg, r, k) && !CalmStep(cfg, r.stores[k], r.events[k])
    ensures !Exact(r.stores[k + 1])
  {
    hide IsPremature, Inv;
    var (s, s', e) := (r.stores[k], r.stores[k + 1], r.events[k]);
    RunKeeps(cfg, r, k);
    assert StepAt(cfg, r, k);
    NoEntryIsEmpty(cfg, s);
    var b := |s.builds|;
    var i :| 0 <= i < |e.spec.tasks| && IsPremature(cfg, s.cache, e.spec, i);
    Submission.OnlyCachedCompilesMiscount(cfg, s.cache, e.spec, e.ranks, e.parts, s'.builds[b].tasks, i);
    assert IsTask(s', b, i) && !ExactAt(s', b, i);
  }

  /**
    Between requests a task waits exactly while a dependency has no output, and pending counts those that have none: in
    every state of the run if and only if no submission in it entered a compile as cached that had dependencies without
    output.
   */
  lemma CountsAreExact(cfg: Config, r: Run)
    requires IsRun(cfg, r)
    ensures (forall k :: 0 <= k < |r.stores| ==> Exact(r.stores[k])) <==> CalmUpTo(cfg, r, |r.events|)
  {
    hide Exact;
    if CalmUpTo(cfg, r, |r.events|) {
      forall k | 0 <= k < |r.stores| ensures Exact(r.stores[k]) {
        RunKeeps(cfg, r, k);
        GoodCountsAreExact(cfg, r.stores[k]);
      }
    } else {
      var k := FirstRash(cfg, r, |r.events|);
      RashMiscounts(cfg, r, k);
    }
  }

  // ---- from one moment of a run to a later one

  lemma MoveAt(cfg: Config, r: Run, k: nat, b: nat)
    requires IsCalmRun(cfg, r) && k < |r.events| && b < |r.stores[k].builds|
    ensures BuildStep(r.stores[k], r.events[k], r.stores[k + 1], b)
  {
    RunKeeps(cfg, r, k);
    assert StepAt(cfg, r, k);
    StepMoves(cfg, r.stores[k], r.events[k], r.stores[k + 1], b);
  }

  /** Task i of build b exists at both moments, in the same build. */
  predicate SameTask(s: Store, s': Store, b: int, i: int) {
    IsTask(s, b, i) && IsTask(s', b, i) && s'.builds[b].spec == s.builds[b].spec
  }

  lemma {:induction false} RowsLater(cfg: Config, r: Run, j: nat, k: nat, b: nat, i: nat)
    requires IsCalmRun(cfg, r) && j <= k < |r.stores| && IsTask(r.stores[j], b, i)
    ensures SameTask(r.stores[j], r.stores[k], b, i)
    ensures Later(Row(r.stores[j], b, i), Row(r.stores[k], b, i))
    ensures !r.stores[j].builds[b].state.InProgress? ==> r.stores[k].builds[b].state == r.stores[j].builds[b].state
    decreases k
  {
    if j < k {
      RowsLater(cfg, r, j, k - 1, b, i);
      MoveAt(cfg, r, k - 1, b);
      assert RowStep(r.stores[k - 1], r.events[k - 1], b, i, Row(r.stores[k - 1], b, i),
               r.stores[k].builds[b].tasks[i]);
      MovesAreLater(Row(r.stores[j], b, i), Row(r.stores[k - 1], b, i), r.stores[k].builds[b].tasks[i]);
    }
  }

  lemma {:induction false} RunGrows(cfg: Config, r: Run, j: nat, k: nat)
    requires IsCalmRun(cfg, r) && j <= k < |r.stores|
    ensures Grows(r.stores[j].cache, r.stores[k].cache) && Grows(r.stores[j].blobs, r.stores[k].blobs)
    ensures |r.stores[j].builds| <= |r.stores[k].builds|
    decreases k
  {
    if j < k {
      RunGrows(cfg, r, j, k - 1);
      RunKeeps(cfg, r, k - 1);
      assert StepAt(cfg, r, k - 1);
      StepGrows(cfg, r.stores[k - 1], r.events[k - 1], r.stores[k]);
    }
  }

  /** A build ends at most once: whatever ended it, it stays so. */
  lemma BuildEndsOnce(cfg: Config, r: Run, j: nat, k: nat, b: nat)
    requires IsCalmRun(cfg, r) && j <= k < |r.stores| && b < |r.stores[j].builds|
    requires !r.stores[j].builds[b].state.InProgress?
    ensures b < |r.stores[k].builds| && r.stores[k].builds[b].state == r.stores[j].builds[b].state
    decreases k
  {
    RunGrows(cfg, r, j, k);
    if j < k {
      BuildEndsOnce(cfg, r, j, k - 1, b);
      MoveAt(cfg, r, k - 1, b);
    }
  }

  /** Done, cached and failed are final. */
  lemma FinalStatesStay(cfg: Config, r: Run, j: nat, k: nat, b: nat, i: nat)
    requires IsCalmRun(cfg, r) && j <= k < |r.stores| && IsTask(r.stores[j], b, i)
    requires var state := Row(r.stores[j], b, i).state; state == Done || state == Cached || state == Failed
    ensures IsTask(r.stores[k], b, i) && Row(r.stores[k], b, i) == Row(r.stores[j], b, i)
  {
    RowsLater(cfg, r, j, k, b, i);
  }

  // ---- completing twice

  lemma {:induction false} PastFrom(cfg: Config, r: Run, j: nat, k: nat, b: nat, i: nat, n: int)
    requires IsCalmRun(cfg, r) && j <= k < |r.stores| && IsTask(r.stores[j], b, i) && Past(Row(r.stores[j], b, i), n)
    ensures IsTask(r.stores[k], b, i) && Past(Row(r.stores[k], b, i), n)
    decreases k
  {
    if j < k {
      PastFrom(cfg, r, j, k - 1, b, i, n);
      RowsLater(cfg, r, j, k, b, i);
      MoveAt(cfg, r, k - 1, b);
      assert RowStep(r.stores[k - 1], r.events[k - 1], b, i, Row(r.stores[k - 1], b, i), Row(r.stores[k], b, i));
      PastStays(Row(r.stores[k - 1], b, i), Row(r.stores[k], b, i), n);
    }
  }

  /** What an accepted result leaves behind: a finished task, or an attempt that is over. */
  lemma AcceptedLeaves(cfg: Config, s: Store, res: TaskResult, now: int, s': Store)
    requires Inv(cfg, s) && CompleteStep(cfg, s, res, now, true, s')
    ensures IsTask(s, res.build, res.id) && IsTask(s', res.build, res.id)
    ensures Transient(s, res) ==> Past(Row(s', res.build, res.id), res.attempt)
    ensures !Transient(s, res) ==> Over(Row(s', res.build, res.id))
  {
    if Succeeds(s, res) {
      var (build, after) := (s.builds[res.build], s'.builds[res.build].tasks);
      var mid := build.tasks[res.id := DoneRow(build.tasks[res.id], res)];
      assert CascadedRow(cfg.hash, s'.cache, build.spec, mid[res.id], after, res.id);
    }
  }

  /**
    Redelivery of a result that was accepted is refused and changes nothing, except in one case: it reported success
    before its output had arrived, which counted as a transient failure then, the output has arrived since, and the
    task is still unfinished. Then it is accepted.
   */
  lemma RedeliveryIsHarmless(cfg: Config, r: Run, j: nat, k: nat, res: TaskResult, now: int, now': int, accepted: bool)
    requires IsCalmRun(cfg, r) && j < k < |r.events|
    requires r.events[j] == Complete(res, now, true) && r.events[k] == Complete(res, now', accepted)
    ensures IsTask(r.stores[k], res.build, res.id)
    ensures accepted <==>
              && res.ok && !Has(r.stores[j].blobs, res.output) && Has(r.stores[k].blobs, res.output)
              && var state := Row(r.stores[k], res.build, res.id).state; state == Ready || state == Running
    ensures !accepted ==> r.stores[k + 1] == r.stores[k]
  {
    hide Inv, Cascaded, CalmStep, Grows;
    RunKeeps(cfg, r, j);
    assert StepAt(cfg, r, j) && StepAt(cfg, r, k);
    AcceptedLeaves(cfg, r.stores[j], res, now, r.stores[j + 1]);
    RowsLater(cfg, r, j + 1, k, res.build, res.id);
    RunGrows(cfg, r, j, k);
    if Transient(r.stores[j], res) {
      PastFrom(cfg, r, j + 1, k, res.build, res.id, res.attempt);
    }
  }

  /** A transient failure reported for an attempt that was claimed again since is refused. */
  lemma StaleReportIsRefused(cfg: Config, r: Run, j: nat, k: nat, res: TaskResult, now: int, accepted: bool)
    requires IsCalmRun(cfg, r) && j < k < |r.events|
    requires r.events[k] == Complete(res, now, accepted)
    requires if res.ok then !Has(r.stores[k].blobs, res.output) else res.retryable
    requires Claims(r.events[j], res.build, res.id) && r.events[j].task.value.attempt > res.attempt
    ensures !accepted && r.stores[k + 1] == r.stores[k]
  {
    hide Inv, StepAt;
    ClaimedAt(cfg, r, j, res.build, res.id);
    PastFrom(cfg, r, j + 1, k, res.build, res.id, res.attempt);
    PastIsRefused(cfg, r, k, res, now, accepted);
  }

  lemma PastIsRefused(cfg: Config, r: Run, k: nat, res: TaskResult, now: int, accepted: bool)
    requires IsCalmRun(cfg, r) && k < |r.events| && r.events[k] == Complete(res, now, accepted)
             && Transient(r.stores[k], res)
    requires IsTask(r.stores[k], res.build, res.id) && Past(Row(r.stores[k], res.build, res.id), res.attempt)
    ensures !accepted && r.stores[k + 1] == r.stores[k]
  {
    hide Inv;
    assert StepAt(cfg, r, k);
  }

  // ---- claims

  /** Just after a claim: the task is running, and the reply was read off its row. */
  lemma ClaimedAt(cfg: Config, r: Run, k: nat, b: nat, i: nat)
    requires IsCalmRun(cfg, r) && k < |r.events| && Claims(r.events[k], b, i)
    ensures SameTask(r.stores[k], r.stores[k + 1], b, i) && Inv(cfg, r.stores[k + 1])
    ensures Row(r.stores[k + 1], b, i).state.Running? && r.stores[k + 1].blobs == r.stores[k].blobs
    ensures r.stores[k + 1].builds[b].spec.toolchain == r.events[k].toolchain
    ensures r.events[k].task == Some(AssignmentOf(r.stores[k + 1], b, i))
  {
    RunKeeps(cfg, r, k + 1);
    assert StepAt(cfg, r, k);
  }

  lemma GoodTask(cfg: Config, s: Store, b: nat, i: nat)
    requires Inv(cfg, s) && IsTask(s, b, i)
    ensures Admissible(s.builds[b].spec) && Settled(s.builds[b].spec, s.builds[b].tasks)
    ensures GoodRow(cfg, s.cache, s.blobs, s.builds[b].spec, s.builds[b].tasks, i)
  {
    assert GoodBuild(cfg, s.cache, s.blobs, s.builds[b]);
  }

  /** How often task i of build b was handed out by the first k events. */
  ghost function ClaimCount(r: Run, k: nat, b: nat, i: nat): nat
    requires k <= |r.events|
  {
    if k == 0 then 0 else ClaimCount(r, k - 1, b, i) + if Claims(r.events[k - 1], b, i) then 1 else 0
  }

  lemma NoTaskNoClaim(cfg: Config, r: Run, k: nat, b: nat, i: nat)
    requires IsCalmRun(cfg, r) && k < |r.events| && !IsTask(r.stores[k], b, i)
    ensures !Claims(r.events[k], b, i)
  {
    hide Inv;
    assert StepAt(cfg, r, k);
  }

  lemma StepCounts(cfg: Config, r: Run, k: nat, b: nat, i: nat)
    requires IsCalmRun(cfg, r) && k < |r.events| && IsTask(r.stores[k + 1], b, i)
    ensures Row(r.stores[k + 1], b, i).attempts ==
            (if IsTask(r.stores[k], b, i) then Row(r.stores[k], b, i).attempts
                else 0) + if Claims(r.events[k], b, i) then
              1 else 0
  {
    hide Inv, Moves, StepAt, Claims, Completes;
    if b < |r.stores[k].builds| {
      MoveAt(cfg, r, k, b);
      assert RowStep(r.stores[k], r.events[k], b, i, r.stores[k].builds[b].tasks[i],
               r.stores[k + 1].builds[b].tasks[i]);
    } else {
      NewRowAt(cfg, r, k, b, i);
    }
  }

  lemma NewRowAt(cfg: Config, r: Run, k: nat, b: nat, i: nat)
    requires IsCalmRun(cfg, r) && k < |r.events| && |r.stores[k].builds| <= b && IsTask(r.stores[k + 1], b, i)
    ensures Row(r.stores[k + 1], b, i).attempts == 0 && !Claims(r.events[k], b, i)
  {
    hide Inv, Next;
    RunKeeps(cfg, r, k);
    assert StepAt(cfg, r, k);
    NewRows(cfg, r.stores[k], r.events[k], r.stores[k + 1], b, i);
    NoTaskNoClaim(cfg, r, k, b, i);
  }

  lemma TaskStays(cfg: Config, r: Run, k: nat, b: nat, i: nat)
    requires IsCalmRun(cfg, r) && k < |r.events| && IsTask(r.stores[k], b, i)
    ensures IsTask(r.stores[k + 1], b, i)
  {
    hide RowStep;
    MoveAt(cfg, r, k, b);
  }

  lemma {:induction false} AttemptsCountClaims(cfg: Config, r: Run, k: nat, b: nat, i: nat)
    requires IsCalmRun(cfg, r) && k < |r.stores|
    ensures IsTask(r.stores[k], b, i) ==> Row(r.stores[k], b, i).attempts == ClaimCount(r, k, b, i)
    ensures !IsTask(r.stores[k], b, i) ==> ClaimCount(r, k, b, i) == 0
  {
    hide Inv, StepAt, Claims;
    if k > 0 {
      AttemptsCountClaims(cfg, r, k - 1, b, i);
      if IsTask(r.stores[k], b, i) { StepCounts(cfg, r, k - 1, b, i); }
      if IsTask(r.stores[k - 1], b, i) { TaskStays(cfg, r, k - 1, b, i); } else { NoTaskNoClaim(cfg, r, k - 1, b, i); }
    }
  }

  /**
    No task is handed out more often than the limit allows, and each time under a new attempt number, counted from one.
   */
  lemma ClaimsAreNumbered(cfg: Config, r: Run, k: nat, b: nat, i: nat)
    requires IsCalmRun(cfg, r) && k < |r.events| && Claims(r.events[k], b, i)
    ensures r.events[k].task.value.attempt == ClaimCount(r, k + 1, b, i) <= Cap(cfg)
  {
    hide Inv, StepAt;
    ClaimedAt(cfg, r, k, b, i);
    AttemptsCountClaims(cfg, r, k + 1, b, i);
    GoodTask(cfg, r.stores[k + 1], b, i);
  }

  // ---- how long a build can go on

  function BuildWork(cfg: Config, tasks: seq<Task>): nat
    requires forall i :: 0 <= i < |tasks| ==> AttemptsBounded(cfg, tasks[i])
  {
    if tasks == [] then 0
    else
      var last := |tasks| - 1;
      BuildWork(cfg, tasks[..last]) + Work(cfg, tasks[last])
  }

  predicate Progresses(tasks: seq<Task>, tasks': seq<Task>)
    requires |tasks| == |tasks'|
  {
    exists i :: 0 <= i < |tasks| && Progressed(tasks[i], tasks'[i])
  }

  lemma {:induction false} ProgressCostsWork(cfg: Config, tasks: seq<Task>, tasks': seq<Task>)
    requires |tasks| == |tasks'|
    requires forall i :: 0 <= i < |tasks| ==>
               AttemptsBounded(cfg, tasks[i]) && AttemptsBounded(cfg, tasks'[i]) && Moves(tasks[i], tasks'[i])
    ensures BuildWork(cfg, tasks') <= BuildWork(cfg, tasks)
    ensures Progresses(tasks, tasks') ==> BuildWork(cfg, tasks') < BuildWork(cfg, tasks)
  {
    hide Moves, AttemptsBounded, Work, Progressed;
    if tasks != [] {
      var last := |tasks| - 1;
      ProgressCostsWork(cfg, tasks[..last], tasks'[..last]);
      MovesCostWork(cfg, tasks[last], tasks'[last]);
      if Progresses(tasks, tasks') && !Progressed(tasks[last], tasks'[last]) {
        var i :| 0 <= i < |tasks| && Progressed(tasks[i], tasks'[i]);
        assert Progressed(tasks[..last][i], tasks'[..last][i]);
      }
    }
  }

  lemma {:induction false} WorkAtMost(cfg: Config, tasks: seq<Task>)
    requires forall i :: 0 <= i < |tasks| ==> AttemptsBounded(cfg, tasks[i])
    ensures BuildWork(cfg, tasks) <= |tasks| * (2 * Cap(cfg) + 2)
  {
    if tasks != [] {
      var last := |tasks| - 1;
      WorkAtMost(cfg, tasks[..last]);
      assert |tasks| * (2 * Cap(cfg) + 2) == last * (2 * Cap(cfg) + 2) + (2 * Cap(cfg) + 2);
    }
  }

  /** How many of the first k events moved some task of build b on. */
  ghost function ProgressCount(r: Run, k: nat, b: nat): nat
    requires k <= |r.events| && |r.stores| == |r.events| + 1
  {
    if k == 0 then 0
    else
      ProgressCount(r, k - 1, b) +
      if b < |r.stores[k - 1].builds| && b < |r.stores[k].builds|
         && |r.stores[k - 1].builds[b].tasks| == |r.stores[k].builds[b].tasks|
         && Progresses(r.stores[k - 1].builds[b].tasks, r.stores[k].builds[b].tasks) then 1 else 0
  }

  lemma TasksBounded(cfg: Config, r: Run, k: nat, b: nat)
    requires IsCalmRun(cfg, r) && k < |r.stores| && b < |r.stores[k].builds|
    ensures forall i :: 0 <= i < |r.stores[k].builds[b].tasks| ==> AttemptsBounded(cfg, r.stores[k].builds[b].tasks[i])
  {
    RunKeeps(cfg, r, k);
    var build := r.stores[k].builds[b];
    forall i | 0 <= i < |build.tasks| ensures AttemptsBounded(cfg, build.tasks[i]) {
      assert GoodBuild(cfg, r.stores[k].cache, r.stores[k].blobs, build);
      assert GoodRow(cfg, r.stores[k].cache, r.stores[k].blobs, build.spec, build.tasks, i);
    }
  }

  /** A build of n tasks is moved on at most n * (2 * cap + 2) times, less the work it has left. */
  lemma {:induction false} BuildsTerminate(cfg: Config, r: Run, k: nat, b: nat)
    requires IsCalmRun(cfg, r) && k < |r.stores| && b < |r.stores[k].builds|
    ensures forall i :: 0 <= i < |r.stores[k].builds[b].tasks| ==> AttemptsBounded(cfg, r.stores[k].builds[b].tasks[i])
    ensures var tasks := r.stores[k].builds[b].tasks;
            ProgressCount(r, k, b) + BuildWork(cfg, tasks) <= |tasks| * (2 * Cap(cfg) + 2)
  {
    hide Inv, StepAt, CalmStep, Moves, AttemptsBounded, Explains, Progresses, Work;
    TasksBounded(cfg, r, k, b);
    var tasks := r.stores[k].builds[b].tasks;
    if b < |r.stores[k - 1].builds| {
      BuildsTerminate(cfg, r, k - 1, b);
      MoveAt(cfg, r, k - 1, b);
      var before := r.stores[k - 1].builds[b].tasks;
      forall i | 0 <= i < |before| ensures Moves(before[i], tasks[i]) {
        assert RowStep(r.stores[k - 1], r.events[k - 1], b, i, before[i], tasks[i]);
      }
      ProgressCostsWork(cfg, before, tasks);
    } else {
      NoProgressYet(cfg, r, k, b);
      WorkAtMost(cfg, tasks);
    }
  }

  lemma {:induction false} NoProgressYet(cfg: Config, r: Run, k: nat, b: nat)
    requires IsCalmRun(cfg, r) && 0 < k < |r.stores| && b >= |r.stores[k - 1].builds|
    ensures ProgressCount(r, k, b) == 0
  {
    if k > 1 {
      RunGrows(cfg, r, k - 2, k - 1);
      NoProgressYet(cfg, r, k - 1, b);
    }
  }

  // ---- no build gets stuck

  lemma {:induction false} SomethingToDo(spec: BuildSpec, tasks: seq<Task>, i: nat) returns (t: nat)
    requires Admissible(spec) && Settled(spec, tasks) && !SomeFailed(tasks) && i < |tasks| && !tasks[i].HasOutput()
    ensures t < |tasks| && Unfinished(tasks[t])
    decreases RankOf(GraphOf(spec))[i]
  {
    if tasks[i].state.Waiting? {
      assert OpenDeps(spec, tasks, i) != {};
      var d :| d in OpenDeps(spec, tasks, i);
      assert d in GraphOf(spec)[i].deps;
      t := SomethingToDo(spec, tasks, d);
    } else {
      t := i;
    }
  }

  /** A build in progress always has a task that is ready or running. */
  lemma NoBuildIsStuck(cfg: Config, r: Run, k: nat, b: nat)
    requires IsCalmRun(cfg, r) && k < |r.stores| && b < |r.stores[k].builds| && r.stores[k].builds[b].state.InProgress?
    ensures exists t :: 0 <= t < |r.stores[k].builds[b].tasks|
                        && (r.stores[k].builds[b].tasks[t].state == Ready
                            || r.stores[k].builds[b].tasks[t].state == Running)
  {
    RunKeeps(cfg, r, k);
    var build := r.stores[k].builds[b];
    assert GoodBuild(cfg, r.stores[k].cache, r.stores[k].blobs, build);
    assert !AllHaveOutput(build.tasks);
    var i :| 0 <= i < |build.tasks| && !build.tasks[i].HasOutput();
    var t := SomethingToDo(build.spec, build.tasks, i);
  }

  // ---- what workers are handed

  /** The names decode again: no newline in any, and not a single empty one. */
  predicate NamesDecode(names: seq<string>) {
    names != [""] && forall k :: 0 <= k < |names| ==> Lines.NewlineFree(names[k])
  }

  lemma HashesDecode(outs: seq<string>)
    requires forall k :: 0 <= k < |outs| ==> ValidHash(outs[k])
    ensures Lines.Split(Lines.Join(outs)) == outs
  {
    Lines.SplitOfJoin(outs);
  }

  /** Outputs of the dependencies of a task that left waiting are in the store. */
  lemma DepOutputsKept(cfg: Config, s: Store, b: nat, i: nat)
    requires Inv(cfg, s) && IsTask(s, b, i) && !Row(s, b, i).state.Waiting?
    ensures DepsKnown(s.builds[b].spec)
    ensures forall k :: 0 <= k < |DepOutputs(s.builds[b].spec, s.builds[b].tasks, i)| ==>
                          Has(s.blobs, DepOutputs(s.builds[b].spec, s.builds[b].tasks, i)[k])
  {
    var build := s.builds[b];
    assert GoodBuild(cfg, s.cache, s.blobs, build);
    var deps := build.spec.tasks[i].deps;
    forall k | 0 <= k < |deps| ensures Has(s.blobs, build.tasks[deps[k]].output) {
      assert deps[k] !in OpenDeps(build.spec, build.tasks, i);
      assert GoodRow(cfg, s.cache, s.blobs, build.spec, build.tasks, deps[k]);
    }
  }

  /** A compile that waits for nothing is handed its source under a fixed name. */
  lemma CompileAssignmentSays(cfg: Config, s: Store, b: nat, i: nat)
    requires Inv(cfg, s) && IsTask(s, b, i) && Unfinished(Row(s, b, i))
    requires s.builds[b].spec.tasks[i].kind.Compile? && s.builds[b].spec.tasks[i].deps == []
    ensures var a := AssignmentOf(s, b, i);
            a.inputs == [s.builds[b].spec.tasks[i].input] && a.names == ["in.i"]
  {
    GoodTask(cfg, s, b, i);
    SourceAssignmentSays(cfg, s, b, i);
  }

  lemma SourceAssignmentSays(cfg: Config, s: Store, b: nat, i: nat)
    requires Inv(cfg, s) && IsTask(s, b, i) && Unfinished(Row(s, b, i))
    requires s.builds[b].spec.tasks[i].kind.Compile? && FromSource(s.blobs, s.builds[b].spec.tasks[i], Row(s, b, i))
    ensures var a := AssignmentOf(s, b, i);
            a.inputs == [s.builds[b].spec.tasks[i].input] && a.names == ["in.i"]
  {
    GoodTask(cfg, s, b, i);
    HashesDecode([s.builds[b].spec.tasks[i].input]);
    assert NamesDecode(["in.i"]);
    Lines.SplitOfJoin(["in.i"]);
  }

  /** The names column, read back, gives the names exactly when they decode. */
  lemma NamesColumn(column: Option<string>, names: seq<string>)
    requires names != []
    requires column == Some(Lines.Join(names)) || (Lines.Join(names) == "" && column == None)
    ensures Lines.Split(column.GetOr("in.i")) == names <==> NamesDecode(names)
  {
    Lines.SplitOfJoin(names);
    Lines.JoinEmpty(names);
    Lines.SplitOfJoin(["in.i"]);
    assert NamesDecode(["in.i"]);
  }

  /**
    What the assignment of an unfinished archive or link says: its dependencies' outputs, in order, under their names
    if those decode. One without dependencies is handed the lines of its own input instead, under the name of a
    compile's.
   */
  lemma AssignmentSays(cfg: Config, s: Store, b: nat, i: nat)
    requires Inv(cfg, s) && IsTask(s, b, i) && Unfinished(Row(s, b, i)) && !s.builds[b].spec.tasks[i].kind.Compile?
    ensures DepsKnown(s.builds[b].spec)
    ensures var (spec, a) := (s.builds[b].spec, AssignmentOf(s, b, i));
            if spec.tasks[i].deps == [] then
              a.inputs == Lines.Split(spec.tasks[i].input) && a.names == ["in.i"]
            else
              && a.inputs == DepOutputs(spec, s.builds[b].tasks, i)
              && (a.names == DepNames(spec, i) <==> NamesDecode(DepNames(spec, i)))
  {
    GoodTask(cfg, s, b, i);
    if s.builds[b].spec.tasks[i].deps == [] {
      assert NamesDecode(["in.i"]);
      Lines.SplitOfJoin(["in.i"]);
    } else {
      DepsAssignmentSays(cfg, s, b, i);
    }
  }

  lemma DepsAssignmentSays(cfg: Config, s: Store, b: nat, i: nat)
    requires Inv(cfg, s) && IsTask(s, b, i) && Unfinished(Row(s, b, i)) && s.builds[b].spec.tasks[i].deps != []
    requires DepsKnown(s.builds[b].spec)
    requires var (spec, tasks) := (s.builds[b].spec, s.builds[b].tasks);
             FromDeps(cfg, spec, tasks[i], i, DepOutputs(spec, tasks, i))
    ensures var (spec, a) := (s.builds[b].spec, AssignmentOf(s, b, i));
            && a.inputs == DepOutputs(spec, s.builds[b].tasks, i)
            && (a.names == DepNames(spec, i) <==> NamesDecode(DepNames(spec, i)))
  {
    DepOutputsKept(cfg, s, b, i);
    HashesDecode(DepOutputs(s.builds[b].spec, s.builds[b].tasks, i));
    NamesColumn(Row(s, b, i).names, DepNames(s.builds[b].spec, i));
  }

  /**
    A compile with dependencies is handed its source, or, once it had to wait for them, their outputs, as an archive
    is.
   */
  lemma DependentCompileSays(cfg: Config, s: Store, b: nat, i: nat)
    requires Inv(cfg, s) && IsTask(s, b, i) && Unfinished(Row(s, b, i))
    requires s.builds[b].spec.tasks[i].kind.Compile? && s.builds[b].spec.tasks[i].deps != []
    ensures DepsKnown(s.builds[b].spec)
    ensures var (spec, a) := (s.builds[b].spec, AssignmentOf(s, b, i));
            || (a.inputs == [spec.tasks[i].input] && a.names == ["in.i"])
            || (a.inputs == DepOutputs(spec, s.builds[b].tasks, i)
                && (a.names == DepNames(spec, i) <==> NamesDecode(DepNames(spec, i))))
  {
    GoodTask(cfg, s, b, i);
    if FromSource(s.blobs, s.builds[b].spec.tasks[i], Row(s, b, i)) {
      SourceAssignmentSays(cfg, s, b, i);
    } else {
      DepsAssignmentSays(cfg, s, b, i);
    }
  }

  /** The rest of an assignment: which task it is, what it is called, and its arguments if they decode. */
  lemma AssignmentIsFor(s: Store, b: nat, i: nat)
    requires IsTask(s, b, i)
    ensures var (t, a) := (s.builds[b].spec.tasks[i], AssignmentOf(s, b, i));
            && a.build == b && a.id == i && a.attempt == Row(s, b, i).attempts && a.kind == t.kind && a.name == t.name
            && (a.args == t.args <==> t.args != [""] && forall k :: 0 <= k < |t.args| ==> '\n' !in t.args[k])
  {
    var args := s.builds[b].spec.tasks[i].args;
    Lines.SplitOfJoin(args);
    assert forall k :: 0 <= k < |args| ==> (Lines.NewlineFree(args[k]) <==> '\n' !in args[k]);
  }

  /** Nothing but its own specification says what the task works on. */
  predicate BringsInput(spec: BuildSpec, i: nat)
    requires i < |spec.tasks|
  {
    !spec.tasks[i].kind.Compile? && spec.tasks[i].deps == []
  }

  lemma InputsKept(cfg: Config, s: Store, b: nat, i: nat)
    requires Inv(cfg, s) && IsTask(s, b, i) && Unfinished(Row(s, b, i)) && !BringsInput(s.builds[b].spec, i)
    ensures forall p :: 0 <= p < |AssignmentOf(s, b, i).inputs| ==> Has(s.blobs, AssignmentOf(s, b, i).inputs[p])
  {
    GoodTask(cfg, s, b, i);
    DepOutputsKept(cfg, s, b, i);
    if !s.builds[b].spec.tasks[i].kind.Compile? {
      AssignmentSays(cfg, s, b, i);
    } else if FromSource(s.blobs, s.builds[b].spec.tasks[i], Row(s, b, i)) {
      SourceAssignmentSays(cfg, s, b, i);
    } else {
      DepsAssignmentSays(cfg, s, b, i);
    }
  }

  /**
    Every digest handed to a worker is in the store when it is handed out, and ever after. Only an archive or link
    without dependencies is handed whatever its submission named as its input, in the store or not.
   */
  lemma NothingDangles(cfg: Config, r: Run, k: nat, l: nat, b: nat, i: nat)
    requires IsCalmRun(cfg, r) && k < |r.events| && Claims(r.events[k], b, i) && k < l < |r.stores|
    ensures IsTask(r.stores[k], b, i)
    ensures var (spec, a) := (r.stores[k].builds[b].spec, r.events[k].task.value);
            if BringsInput(spec, i) then a.inputs == Lines.Split(spec.tasks[i].input)
            else forall p :: 0 <= p < |a.inputs| ==> Has(r.stores[l].blobs, a.inputs[p])
  {
    ClaimedAt(cfg, r, k, b, i);
    if BringsInput(r.stores[k].builds[b].spec, i) {
      AssignmentSays(cfg, r.stores[k + 1], b, i);
    } else {
      InputsKept(cfg, r.stores[k + 1], b, i);
      RunGrows(cfg, r, k + 1, l);
    }
  }

  /** Two claims of one task hand out the same work: the assignment was fixed when the task first became ready. */
  lemma AssignmentsAgree(cfg: Config, r: Run, j: nat, k: nat, b: nat, i: nat)
    requires IsCalmRun(cfg, r) && j <= k < |r.events| && Claims(r.events[j], b, i) && Claims(r.events[k], b, i)
    ensures var (a, c) := (r.events[j].task.value, r.events[k].task.value);
            c == a.(attempt := c.attempt)
  {
    ClaimedAt(cfg, r, j, b, i);
    ClaimedAt(cfg, r, k, b, i);
    RowsLater(cfg, r, j + 1, k + 1, b, i);
  }
}
