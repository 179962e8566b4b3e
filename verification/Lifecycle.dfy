/**
  The life of one task row under any step: what can change, what never does, and what every change uses up. Rows move
  from waiting to ready to running and back, and end as done, cached or failed.
 */
module Lifecycle {
  import opened Wrappers
  import opened Tables
  import opened BlobStore
  import opened Steps
  import opened Invariant

  predicate SameAssignment(a: Task, b: Task) { a.key == b.key && a.inputs == b.inputs && a.names == b.names }

  predicate Over(row: Task) { row.state.Done? || row.state.Cached? || row.state.Failed? }

  /** The moves of a task row. */
  predicate Moves(a: Task, b: Task) {
    || a == b
    || (a.state.Waiting? && b.state.Waiting? && b == a.(pending := b.pending))
    || (a.state.Waiting? && (b.state.Ready? || b.state.Cached?) && b.attempts == a.attempts)
    || (a.state.Ready? && b.state.Running? && b.attempts == a.attempts + 1 && SameAssignment(a, b))
    || (a.state.Running? && b == a.(leaseUntil := b.leaseUntil))
    || (a.state.Running? && (b.state.Ready? || b.state.Failed?) && b.attempts == a.attempts && SameAssignment(a, b))
    || (Unfinished(a) && (b.state.Done? || b.state.Failed?) && b.attempts == a.attempts && SameAssignment(a, b))
  }

  /** The event hands out task i of build b. */
  predicate Claims(e: Event, b: int, i: int) {
    e.Claim? && e.task.Some? && e.task.value.build == b && e.task.value.id == i
  }

  /** The event marks task i of build b done with the given output. */
  predicate Completes(s: Store, e: Event, b: int, i: int, output: string) {
    e.Complete? && e.accepted && Succeeds(s, e.result) && e.result.build == b && e.result.id == i
      && e.result.output == output
  }

  /** The request that changed task i of build b is one that may. */
  predicate Explains(s: Store, e: Event, b: int, i: int, row: Task, row': Task) {
    match e
    case Upload(_, _) => false
    case Submit(_, _, _, _) => false
    case Claim(worker, _, _, _, _) =>
      Claims(e, b, i) && row.state.Ready? && row'.state.Running? && row'.owner == Some(worker)
    case Heartbeat(worker, _) =>
      row.state.Running? && row.owner == Some(worker) && row' == row.(leaseUntil := row'.leaseUntil)
    case Complete(r, _, accepted) =>
      && accepted && r.build == b
      && if row.state.Waiting? then Succeeds(s, r)
         else
           && r.id == i && Unfinished(row)
           && if Succeeds(s, r) then row'.state.Done?
              else if Transient(s, r) then
                row.state.Running? && row.attempts == r.attempt && (row'.state.Ready? || row'.state.Failed?)
              else row'.state.Failed?
    case Reap(now) => Expired(row, now) && (row'.state.Ready? || row'.state.Failed?)
  }

  /** What one step does to task i of build b. */
  ghost predicate RowStep(s: Store, e: Event, b: int, i: int, row: Task, row': Task) {
    && Moves(row, row')
    && (row' == row || Explains(s, e, b, i, row, row'))
    && row'.attempts == row.attempts + (if Claims(e, b, i) then 1 else 0)
    && (row'.state.Done? ==> row' == row || Completes(s, e, b, i, row'.output))
  }

  /** The builds that exist keep their specifications, and each row makes one move. */
  ghost predicate BuildStep(s: Store, e: Event, s': Store, b: nat)
    requires b < |s.builds|
  {
    && b < |s'.builds|
    && s'.builds[b].spec == s.builds[b].spec
    && |s'.builds[b].tasks| == |s.builds[b].tasks|
    && (!s.builds[b].state.InProgress? ==> s'.builds[b].state == s.builds[b].state)
    && forall i :: 0 <= i < |s.builds[b].tasks| ==> RowStep(s, e, b, i, s.builds[b].tasks[i], s'.builds[b].tasks[i])
  }

  lemma UntouchedMoves(s: Store, e: Event, s': Store, b: nat)
    requires b < |s.builds| && b < |s'.builds| && s'.builds[b] == s.builds[b] && (forall i :: !Claims(e, b, i))
    ensures BuildStep(s, e, s', b)
  {
  }

  /** A step that changed one row. */
  lemma OneRowMoves(s: Store, e: Event, s': Store, b: nat, c: nat, i: nat, row: Task, state: BuildState)
    requires c < |s.builds| && b < |s.builds| && i < |s.builds[c].tasks|
    requires s'.builds == s.builds[c := s.builds[c].(tasks := s.builds[c].tasks[i := row], state := state)]
    requires RowStep(s, e, c, i, s.builds[c].tasks[i], row)
    requires !s.builds[c].state.InProgress? ==> state == s.builds[c].state
    requires forall d, j :: Claims(e, d, j) ==> d == c && j == i
    ensures BuildStep(s, e, s', b)
  {
    if b == c {
      forall j | 0 <= j < |s.builds[b].tasks| ensures RowStep(s, e, b, j, s.builds[b].tasks[j], s'.builds[b].tasks[j]) {
        assert j != i ==> !Claims(e, b, j);
      }
    } else {
      UntouchedMoves(s, e, s', b);
    }
  }

  lemma SuccessMoves(cfg: Config, s: Store, r: TaskResult, now: int, s': Store, b: nat)
    requires Inv(cfg, s) && CompleteStep(cfg, s, r, now, true, s') && Succeeds(s, r) && b < |s.builds|
    ensures BuildStep(s, Complete(r, now, true), s', b)
  {
    hide Inv, CascadedRow;
    var e := Complete(r, now, true);
    if b == r.build {
      var (build, after) := (s.builds[b], s'.builds[b].tasks);
      var mid := build.tasks[r.id := DoneRow(build.tasks[r.id], r)];
      forall i | 0 <= i < |build.tasks| ensures RowStep(s, e, b, i, build.tasks[i], after[i]) {
        CascadedMoves(cfg.hash, s'.cache, build.spec, mid, after, i);
      }
    } else {
      UntouchedMoves(s, e, s', b);
    }
  }

  /** A cascade moves rows as they may move, claims none and leaves those that are done alone. */
  lemma CascadedMoves(hash: string -> string, cache: map<string, string>, spec: BuildSpec,
                      mid: seq<Task>, after: seq<Task>, i: nat)
    requires Cascaded(hash, cache, spec, mid, after) && i < |mid|
    ensures Moves(mid[i], after[i]) && after[i].attempts == mid[i].attempts
    ensures after[i].state.Done? || !mid[i].state.Waiting? ==> after[i] == mid[i]
  {
    assert CascadedRow(hash, cache, spec, mid[i], after, i);
  }

  lemma CompleteMoves(cfg: Config, s: Store, r: TaskResult, now: int, accepted: bool, s': Store, b: nat)
    requires Inv(cfg, s) && CompleteStep(cfg, s, r, now, accepted, s') && b < |s.builds|
    ensures BuildStep(s, Complete(r, now, accepted), s', b)
  {
    var e := Complete(r, now, accepted);
    if !accepted {
      UntouchedMoves(s, e, s', b);
    } else if Succeeds(s, r) {
      SuccessMoves(cfg, s, r, now, s', b);
    } else {
      var row := Row(s, r.build, r.id);
      var row' := if Transient(s, r) then Requeued(cfg, row, now) else row.(state := Failed);
      OneRowMoves(s, e, s', b, r.build, r.id, row', s'.builds[r.build].state);
    }
  }

  lemma ClaimMoves(cfg: Config, s: Store, e: Event, s': Store, b: nat)
    requires e.Claim? && ClaimStep(cfg, s, e.worker, e.toolchain, e.part, e.claimedAt, e.task, s') && b < |s.builds|
    ensures BuildStep(s, e, s', b)
  {
    if e.task.Some? {
      var (c, i) := (e.task.value.build, e.task.value.id);
      OneRowMoves(s, e, s', b, c, i, Leased(cfg, Row(s, c, i), e.worker, e.claimedAt), s.builds[c].state);
    } else {
      UntouchedMoves(s, e, s', b);
    }
  }

  lemma ReapMoves(cfg: Config, s: Store, now: int, s': Store, b: nat)
    requires ReapStep(cfg, s, now, s') && b < |s.builds|
    ensures BuildStep(s, Reap(now), s', b)
  {
    assert ReapedBuild(cfg, s.builds[b], now, s'.builds[b]);
    forall i | 0 <= i < |s.builds[b].tasks|
      ensures RowStep(s, Reap(now), b, i, s.builds[b].tasks[i], s'.builds[b].tasks[i])
    {
      assert s'.builds[b].tasks[i] == Reaped(cfg, s.builds[b].tasks[i], now);
    }
  }

  lemma StepMoves(cfg: Config, s: Store, e: Event, s': Store, b: nat)
    requires Inv(cfg, s) && Next(cfg, s, e, s') && b < |s.builds|
    ensures BuildStep(s, e, s', b)
  {
    match e
    case Upload(_, _) => UntouchedMoves(s, e, s', b);
    case Submit(_, _, _, _) => UntouchedMoves(s, e, s', b);
    case Claim(_, _, _, _, _) => ClaimMoves(cfg, s, e, s', b);
    case Heartbeat(_, _) =>
    case Complete(r, now, accepted) => CompleteMoves(cfg, s, r, now, accepted, s', b);
    case Reap(now) => ReapMoves(cfg, s, now, s', b);
  }

  /** The cache and the store only grow, and builds are only added. */
  lemma StepGrows(cfg: Config, s: Store, e: Event, s': Store)
    requires Inv(cfg, s) && Next(cfg, s, e, s')
    ensures Grows(s.cache, s'.cache) && Grows(s.blobs, s'.blobs) && |s.builds| <= |s'.builds|
  {
    if e.Upload? {
      PutAllKeeps(cfg.hash, s.blobs, e.batch);
    }
  }

  /** A row that appears was entered by a submission: never done, and without attempts. */
  lemma NewRows(cfg: Config, s: Store, e: Event, s': Store, b: nat, i: nat)
    requires Inv(cfg, s) && Next(cfg, s, e, s') && |s.builds| <= b < |s'.builds| && i < |s'.builds[b].tasks|
    ensures !s'.builds[b].tasks[i].state.Done? && s'.builds[b].tasks[i].attempts == 0
  {
    assert e.Submit? && b == |s.builds|;
    assert IsFresh(cfg, s.cache, e.spec, e.ranks, e.parts, s'.builds[b].tasks, i);
  }

  // ---- what any number of moves keeps

  /** b is a later state of the row a. */
  predicate Later(a: Task, b: Task) {
    && (Over(a) ==> b == a)
    && (!a.state.Waiting? ==> !b.state.Waiting? && SameAssignment(a, b))
    && a.attempts <= b.attempts
  }

  lemma MovesAreLater(a: Task, b: Task, c: Task)
    requires Later(a, b) && Moves(b, c)
    ensures Later(a, c)
  {
  }

  /** Attempt n of the row is no longer running, and no attempt up to n will run again. */
  predicate Past(row: Task, n: int) { row.attempts > n || (row.attempts == n && !row.state.Running?) }

  lemma PastStays(a: Task, b: Task, n: int)
    requires Past(a, n) && Moves(a, b)
    ensures Past(b, n)
  {
  }

  // ---- work left

  /** How many more moves a row can make. */
  function Work(cfg: Config, row: Task): nat
    requires AttemptsBounded(cfg, row)
  {
    match row.state
    case Waiting => 2 * Cap(cfg) + 2
    case Ready => 2 * (Cap(cfg) - row.attempts) + 1
    case Running => 2 * (Cap(cfg) - row.attempts) + 2
    case Done => 0
    case Cached => 0
    case Failed => 0
  }

  /** The row was claimed, completed, requeued, made ready or given up. */
  predicate Progressed(a: Task, b: Task) { a.state != b.state || a.attempts != b.attempts }

  lemma MovesCostWork(cfg: Config, a: Task, b: Task)
    requires AttemptsBounded(cfg, a) && AttemptsBounded(cfg, b) && Moves(a, b)
    ensures Work(cfg, b) <= Work(cfg, a)
    ensures Progressed(a, b) ==> Work(cfg, b) < Work(cfg, a)
  {
  }
}
