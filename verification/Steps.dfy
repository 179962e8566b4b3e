/**
  The steps of the coordinator: what each request makes of the tables and the store, as relations between snapshots.
 */
module Steps {
  import opened Wrappers
  import opened HashInput
  import opened Graphs
  import opened Tables
  import opened BlobStore
  import Lines

  datatype Config = Config(hash: string -> string, maxAttempts: int, leaseSeconds: int)

  /** Everything the coordinator keeps. */
  datatype Store = Store(builds: seq<Build>, cache: map<string, string>, blobs: Blobs)

  const EMPTY := Store([], map[], map[])

  const COOLDOWN_SECONDS := 3

  predicate IsTask(s: Store, b: int, i: int) {
    0 <= b < |s.builds| && 0 <= i < |s.builds[b].tasks| && |s.builds[b].tasks| == |s.builds[b].spec.tasks|
  }

  function Row(s: Store, b: int, i: int): Task
    requires IsTask(s, b, i)
  {
    s.builds[b].tasks[i]
  }

  function WithTasks(s: Store, b: nat, tasks: seq<Task>, state: BuildState): Store
    requires b < |s.builds|
  {
    s.(builds := s.builds[b := s.builds[b].(tasks := tasks, state := state)])
  }

  // ---- submitting

  datatype SubmitReply = Accepted(build: nat) | InvalidArgument | FailedPrecondition | Unavailable

  /** Row i of a new build: resolved from the cache as far as its dependencies are. */
  function FreshRow(cfg: Config, cache: map<string, string>, spec: BuildSpec, rows: seq<Task>, i: nat, rank: int,
                    part: int): Task
    requires i < |spec.tasks| == |rows| && DepsKnown(spec)
  {
    var t, open, outs := spec.tasks[i], OpenDeps(spec, rows, i), DepOutputs(spec, rows, i);
    var key := if t.kind.Compile? || open == {} then KeyFor(cfg.hash, spec, i, outs) else "";
    var hit := key != "" && key in cache;
    var inputs := if t.kind.Compile? then Column(t.input) else if open == {} then Column(Lines.Join(outs)) else None;
    var names := if t.kind.Compile? then Some("in.i") else if open == {} then Column(Lines.Join(DepNames(spec, i)))
      else None;
    var state := if hit then Cached else if open == {} then Ready else Waiting;
    Task(state, |open|, 0, None, 0, key, inputs, names, if hit then cache[key] else "", None, 0, rank, part)
  }

  ghost predicate FreshRows(cfg: Config, cache: map<string, string>, spec: BuildSpec, ranks: seq<int>, parts: seq<int>,
                            rows: seq<Task>)
  {
    && DepsKnown(spec) && |rows| == |ranks| == |parts| == |spec.tasks|
    && forall i :: 0 <= i < |rows| ==> IsFresh(cfg, cache, spec, ranks, parts, rows, i)
  }

  predicate IsFresh(cfg: Config, cache: map<string, string>, spec: BuildSpec, ranks: seq<int>, parts: seq<int>,
                    rows: seq<Task>, i: nat)
    requires DepsKnown(spec) && i < |rows| == |ranks| == |parts| == |spec.tasks|
  {
    rows[i] == FreshRow(cfg, cache, spec, rows, i, ranks[i], parts[i])
  }

  predicate AllKnown(outs: seq<string>) { forall k :: 0 <= k < |outs| ==> outs[k] != "" }

  /** The output a submission finds for task i in the cache, "" for none. */
  ghost function AtOnce(cfg: Config, cache: map<string, string>, spec: BuildSpec, i: nat): string
    requires Acyclic(GraphOf(spec)) && DepsKnown(spec) && i < |spec.tasks|
    decreases RankOf(GraphOf(spec))[i], 1
  {
    var outs := DepsAtOnce(cfg, cache, spec, i);
    var key := if spec.tasks[i].kind.Compile? || AllKnown(outs) then KeyFor(cfg.hash, spec, i, outs) else "";
    if key != "" && key in cache then cache[key] else ""
  }

  ghost function DepsAtOnce(cfg: Config, cache: map<string, string>, spec: BuildSpec, i: nat): (outs: seq<string>)
    requires Acyclic(GraphOf(spec)) && DepsKnown(spec) && i < |spec.tasks|
    ensures |outs| == |spec.tasks[i].deps|
    ensures forall k :: 0 <= k < |outs| ==> outs[k] == AtOnce(cfg, cache, spec, spec.tasks[i].deps[k])
    decreases RankOf(GraphOf(spec))[i], 0
  {
    var deps := spec.tasks[i].deps;
    assert forall k :: 0 <= k < |deps| ==> RankOf(GraphOf(spec))[deps[k]] < RankOf(GraphOf(spec))[i] by {
      forall k | 0 <= k < |deps| ensures RankOf(GraphOf(spec))[deps[k]] < RankOf(GraphOf(spec))[i] {
        DepRanksLower(spec, i, k);
      }
    }
    seq(|deps|, k requires 0 <= k < |deps| => AtOnce(cfg, cache, spec, deps[k]))
  }

  /** A compile that waits for nothing, is not in the cache, and whose preprocessed source is not in the store. */
  predicate LacksSource(blobs: Blobs, cache: map<string, string>, t: TaskSpec, outs: seq<string>) {
    t.kind.Compile? && t.key !in cache && AllKnown(outs) && !Has(blobs, t.input)
  }

  ghost predicate SourceMissing(cfg: Config, blobs: Blobs, cache: map<string, string>, spec: BuildSpec)
    requires Acyclic(GraphOf(spec))
  {
    && DepsKnown(spec)
    && exists i :: 0 <= i < |spec.tasks| && LacksSource(blobs, cache, spec.tasks[i], DepsAtOnce(cfg, cache, spec, i))
  }

  /** A compile that a submission finds in the cache while it still has something to wait for. */
  ghost predicate IsPremature(cfg: Config, cache: map<string, string>, spec: BuildSpec, i: nat)
    requires Acyclic(GraphOf(spec)) && DepsKnown(spec) && i < |spec.tasks|
  {
    spec.tasks[i].kind.Compile? && spec.tasks[i].key in cache && !AllKnown(DepsAtOnce(cfg, cache, spec, i))
  }

  ghost predicate SomePremature(cfg: Config, cache: map<string, string>, spec: BuildSpec)
    requires Acyclic(GraphOf(spec)) && DepsKnown(spec)
  {
    exists i :: 0 <= i < |spec.tasks| && IsPremature(cfg, cache, spec, i)
  }

  ghost predicate SubmitStep(cfg: Config, s: Store, spec: BuildSpec, ranks: seq<int>, parts: seq<int>,
                             reply: SubmitReply, s': Store)
  {
    if !CompilesAreKeyed(spec) || !WellFormed(GraphOf(spec)) || !Acyclic(GraphOf(spec)) then
      reply.InvalidArgument? && s' == s
    else if SourceMissing(cfg, s.blobs, s.cache, spec) then
      reply.FailedPrecondition? && s' == s
    else if !DepsDistinct(spec) then
      reply.Unavailable? && s' == s
    else
      && reply == Accepted(|s.builds|)
      && |s'.builds| == |s.builds| + 1 && s' == s.(builds := s.builds + [s'.builds[|s.builds|]])
      && var added := s'.builds[|s.builds|];
         added.spec == spec && FreshRows(cfg, s.cache, spec, ranks, parts, added.tasks)
           && added.state == Verdict(added.tasks)
  }

  // ---- claiming

  datatype Assignment = Assignment(build: nat, id: nat, attempt: nat, kind: Kind, name: string,
                                   inputs: seq<string>, names: seq<string>, args: seq<string>)

  function AssignmentOf(s: Store, b: nat, i: nat): Assignment
    requires IsTask(s, b, i)
  {
    var (t, row) := (s.builds[b].spec.tasks[i], Row(s, b, i));
    Assignment(b, i, row.attempts, t.kind, t.name,
               Lines.Split(row.inputs.GetOr(t.input)), Lines.Split(row.names.GetOr("in.i")),
                 Lines.Split(Lines.Join(t.args)))
  }

  /** The task may go to this worker: it did not fail on it within the cooldown. */
  predicate Eligible(s: Store, worker: string, toolchain: string, now: int, b: int, i: int) {
    && IsTask(s, b, i)
    && Row(s, b, i).state.Ready?
    && s.builds[b].spec.toolchain == toolchain
    && (Row(s, b, i).lastFailedBy != Some(worker) || Row(s, b, i).readyAt < now - COOLDOWN_SECONDS)
  }

  predicate EligibleIn(s: Store, worker: string, toolchain: string, part: int, now: int, b: int, i: int) {
    Eligible(s, worker, toolchain, now, b, i) && Row(s, b, i).part == part
  }

  /** No eligible task of the worker's own part has a higher priority; when it has none, no eligible task at all. */
  ghost predicate BestChoice(s: Store, worker: string, toolchain: string, part: int, now: int, b: int, i: int) {
    && Eligible(s, worker, toolchain, now, b, i)
    && if exists c, j :: EligibleIn(s, worker, toolchain, part, now, c, j) then
         Row(s, b, i).part == part &&
         forall c, j :: EligibleIn(s, worker, toolchain, part, now, c, j) ==>
           Row(s, c, j).priority <= Row(s, b, i).priority
       else
         forall c, j :: Eligible(s, worker, toolchain, now, c, j) ==> Row(s, c, j).priority <= Row(s, b, i).priority
  }

  function Leased(cfg: Config, row: Task, worker: string, now: int): Task {
    row.(state := Running, owner := Some(worker), attempts := row.attempts + 1, leaseUntil := now + cfg.leaseSeconds)
  }

  ghost predicate ClaimStep(cfg: Config, s: Store, worker: string, toolchain: string, part: int, now: int,
                            reply: Option<Assignment>, s': Store)
  {
    match reply
    case None =>
      s' == s && forall b, i :: !Eligible(s, worker, toolchain, now, b, i)
    case Some(a) =>
      && BestChoice(s, worker, toolchain, part, now, a.build, a.id)
      && s' ==
        WithTasks(s, a.build, s.builds[a.build].tasks[a.id := Leased(cfg, Row(s, a.build, a.id), worker, now)],
            s.builds[a.build].state)
      && a == AssignmentOf(s', a.build, a.id)
  }

  // ---- keeping and losing leases

  function Renewed(cfg: Config, row: Task, worker: string, now: int): Task {
    if row.owner == Some(worker) && row.state.Running? then row.(leaseUntil := now + cfg.leaseSeconds) else row
  }

  ghost predicate HeartbeatStep(cfg: Config, s: Store, worker: string, now: int, s': Store) {
    && s'.cache == s.cache && s'.blobs == s.blobs && |s'.builds| == |s.builds|
    && forall b :: 0 <= b < |s.builds| ==>
      && s'.builds[b].spec == s.builds[b].spec && s'.builds[b].state == s.builds[b].state
      && |s'.builds[b].tasks| == |s.builds[b].tasks|
      && forall i :: 0 <= i < |s.builds[b].tasks| ==>
        s'.builds[b].tasks[i] == Renewed(cfg, s.builds[b].tasks[i], worker, now)
  }

  /** Back to ready with its attempts kept, or failed when they are used up. */
  function Requeued(cfg: Config, row: Task, now: int): Task {
    row.(state := if row.attempts >= cfg.maxAttempts then Failed else Ready,
         owner := None, lastFailedBy := row.owner, readyAt := now)
  }

  predicate Expired(row: Task, now: int) { row.state.Running? && row.leaseUntil < now }

  function Reaped(cfg: Config, row: Task, now: int): Task {
    if Expired(row, now) then Requeued(cfg, row, now) else row
  }

  predicate GivesUp(cfg: Config, tasks: seq<Task>, now: int) {
    exists i :: 0 <= i < |tasks| && Expired(tasks[i], now) && tasks[i].attempts >= cfg.maxAttempts
  }

  ghost predicate ReapStep(cfg: Config, s: Store, now: int, s': Store) {
    && s'.cache == s.cache && s'.blobs == s.blobs && |s'.builds| == |s.builds|
    && forall b :: 0 <= b < |s.builds| ==> ReapedBuild(cfg, s.builds[b], now, s'.builds[b])
  }

  ghost predicate ReapedBuild(cfg: Config, build: Build, now: int, build': Build) {
    && build'.spec == build.spec && |build'.tasks| == |build.tasks|
    && (forall i :: 0 <= i < |build.tasks| ==> build'.tasks[i] == Reaped(cfg, build.tasks[i], now))
    && build'.state == if GivesUp(cfg, build.tasks, now) then Judged(build.state, build'.tasks) else build.state
  }

  // ---- completing

  datatype TaskResult = TaskResult(build: int, id: int, attempt: int, worker: string, ok: bool, retryable: bool,
                                   output: string)

  /** Success is believed only when the output arrived; otherwise it counts as a transient failure. */
  predicate Succeeds(s: Store, r: TaskResult) { r.ok && Has(s.blobs, r.output) }

  predicate Transient(s: Store, r: TaskResult) { !Succeeds(s, r) && (r.ok || r.retryable) }

  predicate Unfinished(row: Task) { row.state.Ready? || row.state.Running? }

  function DoneRow(row: Task, r: TaskResult): Task {
    row.(state := Done, output := r.output, owner := Some(r.worker))
  }

  /** The first output stored under a key stays. */
  function CacheWith(cache: map<string, string>, key: string, output: string): map<string, string> {
    if key in cache then cache else cache[key := output]
  }

  ghost predicate CompleteStep(cfg: Config, s: Store, r: TaskResult, now: int, accepted: bool, s': Store) {
    if !IsTask(s, r.build, r.id) then !accepted && s' == s
    else
      var (build, row) := (s.builds[r.build], Row(s, r.build, r.id));
      if Succeeds(s, r) then
        if Unfinished(row) then
          var cache := CacheWith(s.cache, row.key, r.output);
          && accepted
          && IsTask(s', r.build, r.id)
          && s' ==
            WithTasks(s, r.build, s'.builds[r.build].tasks,
                Judged(build.state, s'.builds[r.build].tasks)).(cache := cache)
          && Cascaded(cfg.hash, cache, build.spec, build.tasks[r.id := DoneRow(row, r)], s'.builds[r.build].tasks)
        else !accepted && s' == s
      else if Transient(s, r) then
        if row.state.Running? && row.attempts == r.attempt then
          var tasks := build.tasks[r.id := Requeued(cfg, row, now)];
          && accepted
          && s' ==
            WithTasks(s, r.build, tasks, if tasks[r.id].state.Failed? then Judged(build.state, tasks) else build.state)
        else !accepted && s' == s
      else
        if Unfinished(row) then
          var tasks := build.tasks[r.id := row.(state := Failed)];
          accepted && s' == WithTasks(s, r.build, tasks, Judged(build.state, tasks))
        else !accepted && s' == s
  }

  // ---- one step of the coordinator

  datatype Event =
    | Upload(batch: seq<Blob>, stored: bool)
    | Submit(spec: BuildSpec, ranks: seq<int>, parts: seq<int>, reply: SubmitReply)
    | Claim(worker: string, toolchain: string, part: int, claimedAt: int, task: Option<Assignment>)
    | Heartbeat(owner: string, seenAt: int)
    | Complete(result: TaskResult, completedAt: int, accepted: bool)
    | Reap(reapedAt: int)

  /** The step enters no compile as cached before its dependencies have outputs. */
  ghost predicate CalmStep(cfg: Config, s: Store, e: Event) {
    e.Submit? && e.reply.Accepted? && Acyclic(GraphOf(e.spec)) && DepsKnown(e.spec) ==>
      !SomePremature(cfg, s.cache, e.spec)
  }

  ghost predicate Next(cfg: Config, s: Store, e: Event, s': Store) {
    match e
    case Upload(batch, stored) =>
      var (blobs, ok) := PutAll(cfg.hash, s.blobs, batch);
      s' == s.(blobs := blobs) && stored == ok
    case Submit(spec, ranks, parts, reply) => SubmitStep(cfg, s, spec, ranks, parts, reply, s')
    case Claim(worker, toolchain, part, now, reply) => ClaimStep(cfg, s, worker, toolchain, part, now, reply, s')
    case Heartbeat(worker, now) => HeartbeatStep(cfg, s, worker, now, s')
    case Complete(r, now, accepted) => CompleteStep(cfg, s, r, now, accepted, s')
    case Reap(now) => ReapStep(cfg, s, now, s')
  }
}
