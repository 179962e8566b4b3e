/** The rows of the builds, tasks and task_deps tables, and what a settled build looks like. */
module Tables {
  import opened Wrappers
  import opened HashInput
  import opened Graphs
  import Lines

  datatype TaskSpec = TaskSpec(id: int, kind: Kind, name: string, deps: seq<int>, key: string, input: string,
                               args: seq<string>, cost: int)

  datatype BuildSpec = BuildSpec(toolchain: string, tasks: seq<TaskSpec>, partitions: int)

  datatype TaskState = Waiting | Ready | Running | Done | Cached | Failed

  /** The columns of a task row that change; key and output are "" while they are NULL. */
  datatype Task = Task(state: TaskState, pending: int, attempts: nat, owner: Option<string>, leaseUntil: int,
                       key: string, inputs: Option<string>, names: Option<string>, output: string,
                       lastFailedBy: Option<string>, readyAt: int, priority: int, part: int)
  {
    predicate HasOutput() { state.Done? || state.Cached? }
  }

  datatype BuildState = InProgress | Succeeded | Broken

  /** A build: its specification, which never changes, its state and its task rows by id. */
  datatype Build = Build(spec: BuildSpec, state: BuildState, tasks: seq<Task>)

  function GraphOf(spec: BuildSpec): (g: seq<GraphTask>)
    ensures |g| == |spec.tasks|
    ensures forall i :: 0 <= i < |g| ==>
              g[i] == GraphTask(spec.tasks[i].id, spec.tasks[i].kind, spec.tasks[i].cost, spec.tasks[i].deps)
  {
    seq(|spec.tasks|, i requires 0 <= i < |spec.tasks| =>
      GraphTask(spec.tasks[i].id, spec.tasks[i].kind, spec.tasks[i].cost, spec.tasks[i].deps))
  }

  // ---- specifications

  predicate DepsKnown(spec: BuildSpec) {
    forall i, k :: 0 <= i < |spec.tasks| && 0 <= k < |spec.tasks[i].deps| ==> 0 <= spec.tasks[i].deps[k] < |spec.tasks|
  }

  predicate DepsDistinct(spec: BuildSpec) {
    forall i :: 0 <= i < |spec.tasks| ==> Distinct(spec.tasks[i].deps)
  }

  predicate NoSelfDeps(spec: BuildSpec) {
    forall i, k :: 0 <= i < |spec.tasks| && 0 <= k < |spec.tasks[i].deps| ==> spec.tasks[i].deps[k] != i
  }

  predicate CompilesHaveNoDeps(spec: BuildSpec) {
    forall i :: 0 <= i < |spec.tasks| && spec.tasks[i].kind.Compile? ==> spec.tasks[i].deps == []
  }

  /** The digits of a blob's name in the store. */
  predicate ValidHash(h: string) {
    |h| == 64 && forall k :: 0 <= k < |h| ==> '0' <= h[k] <= '9' || 'a' <= h[k] <= 'f'
  }

  predicate CompilesAreKeyed(spec: BuildSpec) {
    forall i :: 0 <= i < |spec.tasks| && spec.tasks[i].kind.Compile? ==>
                  ValidHash(spec.tasks[i].key) && ValidHash(spec.tasks[i].input)
  }

  /**
    What the coordinator checks of a submission before it touches the tables, and what the primary key of task_deps
    checks after.
   */
  ghost predicate Admissible(spec: BuildSpec) {
    CompilesAreKeyed(spec) && WellFormed(GraphOf(spec)) && Acyclic(GraphOf(spec)) && DepsDistinct(spec)
  }

  lemma AdmittedDeps(spec: BuildSpec)
    requires WellFormed(GraphOf(spec))
    ensures DepsKnown(spec) && NoSelfDeps(spec)
  {
    forall i, k | 0 <= i < |spec.tasks| && 0 <= k < |spec.tasks[i].deps|
      ensures 0 <= spec.tasks[i].deps[k] < |spec.tasks| && spec.tasks[i].deps[k] != i
    {
      assert spec.tasks[i].deps[k] in GraphOf(spec)[i].deps;
      assert GoodDep(GraphOf(spec), i, spec.tasks[i].deps[k]);
    }
  }

  lemma DepRanksLower(spec: BuildSpec, i: nat, k: nat)
    requires Acyclic(GraphOf(spec)) && DepsKnown(spec) && i < |spec.tasks| && k < |spec.tasks[i].deps|
    ensures RankOf(GraphOf(spec))[spec.tasks[i].deps[k]] < RankOf(GraphOf(spec))[i]
  {
    assert spec.tasks[i].deps[k] in GraphOf(spec)[i].deps;
  }

  // ---- rows

  function DepNames(spec: BuildSpec, i: nat): (names: seq<string>)
    requires i < |spec.tasks| && DepsKnown(spec)
    ensures |names| == |spec.tasks[i].deps|
    ensures forall k :: 0 <= k < |names| ==> names[k] == Lines.FlatName(spec.tasks[spec.tasks[i].deps[k]].name)
  {
    var deps := spec.tasks[i].deps;
    seq(|deps|, k requires 0 <= k < |deps| => Lines.FlatName(spec.tasks[deps[k]].name))
  }

  function DepOutputs(spec: BuildSpec, tasks: seq<Task>, i: nat): (outs: seq<string>)
    requires i < |spec.tasks| == |tasks| && DepsKnown(spec)
    ensures |outs| == |spec.tasks[i].deps|
    ensures forall k :: 0 <= k < |outs| ==> outs[k] == tasks[spec.tasks[i].deps[k]].output
  {
    var deps := spec.tasks[i].deps;
    seq(|deps|, k requires 0 <= k < |deps| => tasks[deps[k]].output)
  }

  /** The dependencies of i that have no output yet. */
  function OpenDeps(spec: BuildSpec, tasks: seq<Task>, i: nat): set<int>
    requires i < |spec.tasks| == |tasks| && DepsKnown(spec)
  {
    set d | d in spec.tasks[i].deps && !tasks[d].HasOutput()
  }

  function ArgsText(spec: BuildSpec, i: nat): string
    requires i < |spec.tasks|
  {
    Lines.Join(spec.tasks[i].args)
  }

  /** The cache key a submission gives task i when its dependencies have the given outputs. */
  function KeyFor(hash: string -> string, spec: BuildSpec, i: nat, outs: seq<string>): string
    requires i < |spec.tasks| && DepsKnown(spec) && |outs| == |spec.tasks[i].deps|
  {
    if spec.tasks[i].kind.Compile? then spec.tasks[i].key
    else ActionKey(hash, spec.tasks[i].kind, spec.toolchain, ArgsText(spec, i), DepNames(spec, i), outs)
  }

  function Column(text: string): Option<string> { if text == "" then None else Some(text) }

  /** Row i once all its dependencies have outputs: finished at once when the cache has its key, claimable otherwise. */
  function MadeReady(hash: string -> string, cache: map<string, string>, spec: BuildSpec, i: nat, row: Task,
                     outs: seq<string>): Task
    requires i < |spec.tasks| && DepsKnown(spec) && |outs| == |spec.tasks[i].deps|
  {
    var key := ActionKey(hash, spec.tasks[i].kind, spec.toolchain, ArgsText(spec, i), DepNames(spec, i), outs);
    if key in cache then row.(pending := 0, state := Cached, key := key, output := cache[key])
    else row.(pending := 0, state := Ready, key := key, inputs := Some(Lines.Join(outs)),
              names := Some(Lines.Join(DepNames(spec, i))))
  }

  predicate AllHaveOutput(tasks: seq<Task>) { forall i :: 0 <= i < |tasks| ==> tasks[i].HasOutput() }

  predicate SomeFailed(tasks: seq<Task>) { exists i :: 0 <= i < |tasks| && tasks[i].state.Failed? }

  /** What the rows say about the build as a whole. */
  function Verdict(tasks: seq<Task>): BuildState {
    if SomeFailed(tasks) then Broken else if AllHaveOutput(tasks) then Succeeded else InProgress
  }

  /** The guard of the updates that end a build: only a build in progress changes state. */
  function Judged(state: BuildState, tasks: seq<Task>): BuildState {
    if state.InProgress? then Verdict(tasks) else state
  }

  // ---- the countdown invariant, and the same while a cascade is under way

  /**
    Dependencies of i that have not been counted down: those without output, and those whose edge to i is still owed.
   */
  function Uncounted(spec: BuildSpec, tasks: seq<Task>, owed: set<(int, int)>, i: nat): set<int>
    requires i < |spec.tasks| == |tasks| && DepsKnown(spec)
  {
    set d | d in spec.tasks[i].deps && (!tasks[d].HasOutput() || (d, i) in owed)
  }

  /** Row i agrees with its dependencies; only tasks in due may be waiting with nothing left to wait for. */
  ghost predicate RowCounts(spec: BuildSpec, tasks: seq<Task>, owed: set<(int, int)>, due: set<int>, i: nat)
    requires i < |spec.tasks| == |tasks| && DepsKnown(spec)
  {
    var open := Uncounted(spec, tasks, owed, i);
    && tasks[i].pending == |open|
    && (i !in due ==> (tasks[i].state.Waiting? <==> open != {}))
    && (i in due ==> tasks[i].state.Waiting? && open == {})
  }

  /** An owed edge leads from a task with an output to one that is waiting for it. */
  ghost predicate OwedEdges(spec: BuildSpec, tasks: seq<Task>, owed: set<(int, int)>)
    requires |spec.tasks| == |tasks|
  {
    forall d, i :: (d, i) in owed ==>
                     && 0 <= d < |tasks| && 0 <= i < |tasks| && d in spec.tasks[i].deps
                     && tasks[d].HasOutput() && tasks[i].state.Waiting?
  }

  ghost predicate Counts(spec: BuildSpec, tasks: seq<Task>, owed: set<(int, int)>, due: set<int>) {
    && DepsKnown(spec) && DepsDistinct(spec) && |tasks| == |spec.tasks|
    && OwedEdges(spec, tasks, owed)
    && forall i :: 0 <= i < |tasks| ==> RowCounts(spec, tasks, owed, due, i)
  }

  /**
    Between steps nothing is owed: a task waits exactly while it has a dependency without output, and pending counts
    those.
   */
  ghost predicate Settled(spec: BuildSpec, tasks: seq<Task>) {
    && DepsKnown(spec) && DepsDistinct(spec) && |tasks| == |spec.tasks|
    && forall i :: 0 <= i < |tasks| ==>
      && tasks[i].pending == |OpenDeps(spec, tasks, i)|
      && (tasks[i].state.Waiting? <==> OpenDeps(spec, tasks, i) != {})
  }

  lemma SettledMeansNothingOwed(spec: BuildSpec, tasks: seq<Task>)
    ensures Settled(spec, tasks) <==> Counts(spec, tasks, {}, {})
  {
    if DepsKnown(spec) && |tasks| == |spec.tasks| {
      forall i | 0 <= i < |tasks| ensures Uncounted(spec, tasks, {}, i) == OpenDeps(spec, tasks, i) {
      }
      if Settled(spec, tasks) {
        forall i | 0 <= i < |tasks| ensures RowCounts(spec, tasks, {}, {}, i) {
        }
      }
      if Counts(spec, tasks, {}, {}) {
        forall i | 0 <= i < |tasks|
          ensures tasks[i].pending == |OpenDeps(spec, tasks, i)|
          ensures tasks[i].state.Waiting? <==> OpenDeps(spec, tasks, i) != {}
        {
          assert RowCounts(spec, tasks, {}, {}, i);
        }
      }
    }
  }

  // ---- what a cascade does to the rows

  /**
    The rows after a cascade, given the rows before it: a task that was not waiting is untouched, and one that was is
    what a fresh look at its dependencies makes of it. This fixes every row (see Cascade.CascadeIsUnique).
   */
  ghost predicate Cascaded(hash: string -> string, cache: map<string, string>, spec: BuildSpec, before: seq<Task>,
                           after: seq<Task>)
  {
    && DepsKnown(spec) && |before| == |after| == |spec.tasks|
    && forall i :: 0 <= i < |before| ==> CascadedRow(hash, cache, spec, before[i], after, i)
  }

  ghost predicate CascadedRow(hash: string -> string, cache: map<string, string>, spec: BuildSpec, row: Task,
                              after: seq<Task>, i: nat)
    requires DepsKnown(spec) && i < |after| == |spec.tasks|
  {
    var open := OpenDeps(spec, after, i);
    after[i] ==
    if !row.state.Waiting? then row
    else if open != {} then row.(pending := |open|)
    else MadeReady(hash, cache, spec, i, row, DepOutputs(spec, after, i))
  }
}
