/** What each request does to the columns of a row. */
module Effects {
  // The steps say it through functions on rows; here it is said column by column, with every bound and constant
  // written out.

  import opened Wrappers
  import opened HashInput
  import opened Graphs
  import opened Tables
  import opened BlobStore
  import opened Steps
  import opened Invariant
  import Lines
  import Submission

  predicate Finished(row: Task) { row.state == Done || row.state == Cached }

  /** The texts that are hashed for the key of task i when its dependencies have the given outputs. */
  predicate KeyParts(spec: BuildSpec, i: nat, outs: seq<string>, parts: seq<string>)
    requires i < |spec.tasks| && DepsKnown(spec) && |outs| == |spec.tasks[i].deps|
  {
    var t := spec.tasks[i];
    && |parts| == 4 + 2 * |t.deps|
    && parts[0] == "dc-action-v1"
    && parts[1] == (if t.kind == Compile then "0" else if t.kind == Archive then "1" else "2")
    && parts[2] == spec.toolchain && parts[3] == Lines.Join(t.args)
    && forall k :: 0 <= k < |t.deps| ==>
      parts[4 + 2 * k] == Lines.FlatName(spec.tasks[t.deps[k]].name) && parts[5 + 2 * k] == outs[k]
  }

  ghost predicate KeyedBy(hash: string -> string, spec: BuildSpec, i: nat, outs: seq<string>, key: string)
    requires i < |spec.tasks| && DepsKnown(spec) && |outs| == |spec.tasks[i].deps|
  {
    exists parts :: KeyParts(spec, i, outs, parts) && key == hash(Encode(parts))
  }

  lemma ActionKeyIs(hash: string -> string, spec: BuildSpec, i: nat, outs: seq<string>, key: string)
    requires i < |spec.tasks| && DepsKnown(spec) && |outs| == |spec.tasks[i].deps|
    ensures KeyedBy(hash, spec, i, outs, key) <==>
            key == ActionKey(hash, spec.tasks[i].kind, spec.toolchain, ArgsText(spec, i), DepNames(spec, i), outs)
  {
    var t := spec.tasks[i];
    var own := ActionParts(t.kind, spec.toolchain, ArgsText(spec, i), DepNames(spec, i), outs);
    var pairs := Interleave(DepNames(spec, i), outs);
    assert own[4..] == pairs;
    forall k | 0 <= k < |t.deps|
      ensures own[4 + 2 * k] == Lines.FlatName(spec.tasks[t.deps[k]].name) && own[5 + 2 * k] == outs[k]
    {
      assert own[4 + 2 * k] == pairs[2 * k] && own[5 + 2 * k] == pairs[2 * k + 1];
    }
    assert KeyParts(spec, i, outs, own);
    forall parts | KeyParts(spec, i, outs, parts) ensures parts == own {
      SameParts(spec, i, outs, parts, own);
    }
  }

  lemma SameParts(spec: BuildSpec, i: nat, outs: seq<string>, a: seq<string>, b: seq<string>)
    requires i < |spec.tasks| && DepsKnown(spec) && |outs| == |spec.tasks[i].deps|
    requires KeyParts(spec, i, outs, a) && KeyParts(spec, i, outs, b)
    ensures a == b
  {
    forall j | 0 <= j < |a| ensures a[j] == b[j] {
      if j >= 4 {
        var k := (j - 4) / 2;
        var name := Lines.FlatName(spec.tasks[spec.tasks[i].deps[k]].name);
        assert a[4 + 2 * k] == name == b[4 + 2 * k] && a[5 + 2 * k] == outs[k] == b[5 + 2 * k];
        assert j == 4 + 2 * k || j == 5 + 2 * k;
      }
    }
  }

  // ---- submissions

  /** What a submission is answered, and that a build is entered only with an acceptance. */
  lemma SubmitAnswers(cfg: Config, s: Store, e: Event, s': Store)
    requires Inv(cfg, s) && Next(cfg, s, e, s') && e.Submit?
    ensures e.reply == InvalidArgument <==>
            || (exists i :: 0 <= i < |e.spec.tasks| && Unkeyed(e.spec.tasks[i]))
            || !WellFormed(GraphOf(e.spec)) || !Acyclic(GraphOf(e.spec))
    ensures e.reply == FailedPrecondition ==> exists i :: 0 <= i < |e.spec.tasks| && Sourceless(s, e.spec.tasks[i])
    ensures e.reply.Accepted? ==> e.reply.build == |s.builds| && |s'.builds| == |s.builds| + 1
    ensures !e.reply.Accepted? ==> s' == s
    ensures s'.cache == s.cache && s'.blobs == s.blobs && s'.builds[..|s.builds|] == s.builds
  {
    hide AtOnce, DepsAtOnce, ValidHash, Unkeyed, Inv, Acyclic, WellFormed, FreshRows, SomePremature;
    UnkeyedIs(e.spec);
    if e.reply.FailedPrecondition? {
      var i :| 0 <= i < |e.spec.tasks|
               && LacksSource(s.blobs, s.cache, e.spec.tasks[i], DepsAtOnce(cfg, s.cache, e.spec, i));
      SourcelessIs(cfg, s, e.spec, i);
    }
  }

  lemma UnkeyedIs(spec: BuildSpec)
    ensures CompilesAreKeyed(spec) <==> !(exists i :: 0 <= i < |spec.tasks| && Unkeyed(spec.tasks[i]))
  {
    hide SixtyFourDigits, ValidHash;
    forall i | 0 <= i < |spec.tasks|
      ensures Unkeyed(spec.tasks[i]) <==>
              spec.tasks[i].kind.Compile? && !(ValidHash(spec.tasks[i].key) && ValidHash(spec.tasks[i].input))
    {
      DigitsAre(spec.tasks[i].key);
      DigitsAre(spec.tasks[i].input);
    }
  }

  lemma DigitsAre(h: string)
    ensures SixtyFourDigits(h) <==> ValidHash(h)
  {
  }

  lemma SourcelessIs(cfg: Config, s: Store, spec: BuildSpec, i: nat)
    requires i < |spec.tasks| && Acyclic(GraphOf(spec)) && DepsKnown(spec) && CompilesAreKeyed(spec)
    requires LacksSource(s.blobs, s.cache, spec.tasks[i], DepsAtOnce(cfg, s.cache, spec, i))
    ensures Sourceless(s, spec.tasks[i])
  {
    hide DepsAtOnce;
  }

  /** A compile whose key or input is not the 64 lower-case hexadecimal digits of a blob's name. */
  predicate Unkeyed(t: TaskSpec) { t.kind == Compile && !(SixtyFourDigits(t.key) && SixtyFourDigits(t.input)) }

  predicate SixtyFourDigits(h: string) { |h| == 64 && forall k :: 0 <= k < 64 ==> h[k] in "0123456789abcdef" }

  predicate Sourceless(s: Store, t: TaskSpec) { t.kind == Compile && t.key !in s.cache && t.input !in s.blobs }

  /** The columns that a submission enters for task i, from what the cache tells of the tasks before it. */
  ghost predicate Enters(hash: string -> string, cache: map<string, string>, blobs: Blobs, spec: BuildSpec,
                         tasks: seq<Task>, i: nat, rank: int, part: int)
    requires i < |spec.tasks| == |tasks| && DepsKnown(spec)
  {
    var (t, row) := (spec.tasks[i], tasks[i]);
    var known := forall k :: 0 <= k < |t.deps| ==> Finished(tasks[t.deps[k]]);
    && row.priority == rank && row.part == part
    && row.attempts == 0 && row.owner == None && row.lastFailedBy == None
    && row.pending == |set d | d in t.deps && !Finished(tasks[d])|
    && (t.kind == Compile ==> row.key == t.key)
    && (t.kind != Compile && known ==> KeyedBy(hash, spec, i, DepOutputs(spec, tasks, i), row.key))
    && (t.kind == Compile || known ==>
          if row.key in cache then row.state == Cached && row.output == cache[row.key]
          else row.state == (if known then Ready else Waiting) && row.output == "")
    && (t.kind != Compile && !known ==> row.state == Waiting && row.output == "")
    && (row.state == Ready && t.kind == Compile ==> t.input in blobs)
  }

  lemma SubmitEnters(cfg: Config, s: Store, e: Event, s': Store, i: nat)
    requires Inv(cfg, s) && Next(cfg, s, e, s') && e.Submit? && e.reply.Accepted? && i < |e.spec.tasks|
    ensures IsTask(s', |s.builds|, i) && DepsKnown(e.spec) && |e.ranks| == |e.parts| == |e.spec.tasks|
    ensures Enters(cfg.hash, s.cache, s.blobs, e.spec, s'.builds[|s.builds|].tasks, i, e.ranks[i], e.parts[i])
  {
    hide AtOnce, DepsAtOnce, ActionKey;
    var (t, tasks) := (e.spec.tasks[i], s'.builds[|s.builds|].tasks);
    assert IsFresh(cfg, s.cache, e.spec, e.ranks, e.parts, tasks, i);
    NoEntryIsEmpty(cfg, s);
    Submission.FreshAtOnce(cfg, s.cache, e.spec, e.ranks, e.parts, tasks, i);
    assert !LacksSource(s.blobs, s.cache, t, DepsAtOnce(cfg, s.cache, e.spec, i));
    KnownIsNoneOpen(e.spec, tasks, i);
    ActionKeyIs(cfg.hash, e.spec, i, DepOutputs(e.spec, tasks, i), tasks[i].key);
    KeysAreNames(cfg, e.spec, i, DepOutputs(e.spec, tasks, i));
  }

  lemma KnownIsNoneOpen(spec: BuildSpec, tasks: seq<Task>, i: nat)
    requires i < |spec.tasks| == |tasks| && DepsKnown(spec)
    ensures OpenDeps(spec, tasks, i) == set d | d in spec.tasks[i].deps && !Finished(tasks[d])
    ensures OpenDeps(spec, tasks, i) == {} <==>
            forall k :: 0 <= k < |spec.tasks[i].deps| ==> Finished(tasks[spec.tasks[i].deps[k]])
  {
    var deps := spec.tasks[i].deps;
    if OpenDeps(spec, tasks, i) == {} {
      forall k | 0 <= k < |deps| ensures Finished(tasks[deps[k]]) {
        assert deps[k] !in OpenDeps(spec, tasks, i);
      }
    }
  }

  lemma KeysAreNames(cfg: Config, spec: BuildSpec, i: nat, outs: seq<string>)
    requires NamesAreValid(cfg.hash) && i < |spec.tasks| && DepsKnown(spec) && |outs| == |spec.tasks[i].deps|
    requires CompilesAreKeyed(spec)
    ensures KeyFor(cfg.hash, spec, i, outs) != ""
  {
    assert ValidHash(KeyFor(cfg.hash, spec, i, outs));
  }

  // ---- claims and leases

  /** The worker may be given the task: it is ready, and did not fail on this worker in the last three seconds. */
  predicate Offered(s: Store, worker: string, toolchain: string, now: int, b: int, i: int) {
    && IsTask(s, b, i) && Row(s, b, i).state == Ready && s.builds[b].spec.toolchain == toolchain
    && !(Row(s, b, i).lastFailedBy == Some(worker) && now - 3 <= Row(s, b, i).readyAt)
  }

  /**
    A claim takes the highest priority of the worker's part, or of any part when its own offers nothing, and leases it.
   */
  lemma ClaimTakes(cfg: Config, s: Store, e: Event, s': Store, a: Assignment)
    requires Next(cfg, s, e, s') && e.Claim? && e.task == Some(a)
    ensures Offered(s, e.worker, e.toolchain, e.claimedAt, a.build, a.id) && IsTask(s', a.build, a.id)
    ensures var (row, row') := (Row(s, a.build, a.id), Row(s', a.build, a.id));
            && row' == row.(state := Running, owner := Some(e.worker), attempts := row.attempts + 1,
                            leaseUntil := e.claimedAt + cfg.leaseSeconds)
            && a.attempt == row.attempts + 1
            && forall c, j :: Offered(s, e.worker, e.toolchain, e.claimedAt, c, j) ==>
              || Row(s, c, j).priority <= row.priority
              || (row.part == e.part && Row(s, c, j).part != e.part)
    ensures Row(s, a.build, a.id).part == e.part ||
            forall c, j :: Offered(s, e.worker, e.toolchain, e.claimedAt, c, j) ==> Row(s, c, j).part != e.part
    ensures forall c, j :: IsTask(s, c, j) && (c, j) != (a.build as int, a.id as int) ==>
              IsTask(s', c, j) && Row(s', c, j) == Row(s, c, j)
  {
    assert forall c, j :: Offered(s, e.worker, e.toolchain, e.claimedAt, c, j) <==>
                            Eligible(s, e.worker, e.toolchain, e.claimedAt, c, j);
    assert forall c, j :: EligibleIn(s, e.worker, e.toolchain, e.part, e.claimedAt, c, j) <==>
                            Offered(s, e.worker, e.toolchain, e.claimedAt, c, j) && Row(s, c, j).part == e.part;
  }

  lemma ClaimFindsNothing(cfg: Config, s: Store, e: Event, s': Store)
    requires Next(cfg, s, e, s') && e.Claim? && e.task == None
    ensures s' == s && forall c, j :: !Offered(s, e.worker, e.toolchain, e.claimedAt, c, j)
  {
    assert forall c, j :: Offered(s, e.worker, e.toolchain, e.claimedAt, c, j) <==>
                            Eligible(s, e.worker, e.toolchain, e.claimedAt, c, j);
  }

  /** A heartbeat renews the leases of what the worker runs, to the full length from now, and does nothing else. */
  lemma HeartbeatRenews(cfg: Config, s: Store, e: Event, s': Store, b: nat, i: nat)
    requires Next(cfg, s, e, s') && e.Heartbeat? && IsTask(s, b, i)
    ensures IsTask(s', b, i)
    ensures var (row, row') := (Row(s, b, i), Row(s', b, i));
            row' == if row.state == Running && row.owner == Some(e.owner) then
                      row.(leaseUntil := e.seenAt + cfg.leaseSeconds)
                    else row
  {
    assert s'.builds[b].tasks[i] == Renewed(cfg, s.builds[b].tasks[i], e.owner, e.seenAt);
  }

  /** The reaper changes exactly the running rows whose lease ended before now: they are queued again, or given up. */
  lemma ReapTakes(cfg: Config, s: Store, e: Event, s': Store, b: nat, i: nat)
    requires Inv(cfg, s) && Next(cfg, s, e, s') && e.Reap? && IsTask(s, b, i)
    ensures IsTask(s', b, i)
    ensures var (row, row') := (Row(s, b, i), Row(s', b, i));
            && (row' != row <==> row.state == Running && row.leaseUntil < e.reapedAt)
            && (row' != row ==>
                  && row' == row.(state := row'.state, owner := None, lastFailedBy := row.owner, readyAt := e.reapedAt)
                  && row'.state == if row.attempts >= cfg.maxAttempts then Failed else Ready)
  {
    assert ReapedBuild(cfg, s.builds[b], e.reapedAt, s'.builds[b]);
    assert s'.builds[b].tasks[i] == Reaped(cfg, s.builds[b].tasks[i], e.reapedAt);
    assert GoodBuild(cfg, s.cache, s.blobs, s.builds[b]);
    assert GoodRow(cfg, s.cache, s.blobs, s.builds[b].spec, s.builds[b].tasks, i);
  }

  // ---- results

  /** Which results are accepted; one that is not changes nothing. */
  lemma ResultIsAccepted(cfg: Config, s: Store, e: Event, s': Store)
    requires Inv(cfg, s) && Next(cfg, s, e, s') && e.Complete?
    ensures var r := e.result;
            e.accepted <==>
              && IsTask(s, r.build, r.id)
              && var row := Row(s, r.build, r.id);
                 if (r.ok && r.output in s.blobs) || (!r.ok && !r.retryable) then row.state == Ready
                   || row.state == Running
                 else row.state == Running && row.attempts == r.attempt
    ensures !e.accepted ==> s' == s
  {
  }

  /**
    An accepted report of a transient failure, or of a success without its output, queues the task again, or gives it
    up.
   */
  lemma RetryLeadsBack(cfg: Config, s: Store, e: Event, s': Store)
    requires Inv(cfg, s) && Next(cfg, s, e, s') && e.Complete? && e.accepted
    requires if e.result.ok then e.result.output !in s.blobs else e.result.retryable
    ensures var (b, i) := (e.result.build, e.result.id);
            && IsTask(s, b, i) && IsTask(s', b, i)
            && var (row, row') := (Row(s, b, i), Row(s', b, i));
               && row.owner.Some?
               && row' == row.(state := if row.attempts >= cfg.maxAttempts then Failed else Ready,
                               owner := None, lastFailedBy := row.owner, readyAt := e.completedAt)
               && s' == s.(builds := s.builds[b := s'.builds[b]])
               && s'.builds[b].tasks == s.builds[b].tasks[i := row']
               && (row'.state == Failed && s.builds[b].state == InProgress ==> s'.builds[b].state == Broken)
               && (row'.state == Ready ==> s'.builds[b].state == s.builds[b].state)
  {
    var (b, i) := (e.result.build, e.result.id);
    assert GoodBuild(cfg, s.cache, s.blobs, s.builds[b]);
    assert GoodRow(cfg, s.cache, s.blobs, s.builds[b].spec, s.builds[b].tasks, i);
    assert s'.builds[b].tasks[i].state.Failed? ==> SomeFailed(s'.builds[b].tasks);
  }

  /** For three seconds the task is then kept from the worker it failed on, and offered to every other at once. */
  lemma FailureIsNotClaimedBack(cfg: Config, s: Store, e: Event, s': Store, worker: string, now: int)
    requires Inv(cfg, s) && Next(cfg, s, e, s') && e.Complete? && e.accepted
    requires if e.result.ok then e.result.output !in s.blobs else e.result.retryable
    requires Row(s', e.result.build, e.result.id).state == Ready
    ensures var (b, i) := (e.result.build, e.result.id);
            IsTask(s, b, i) && IsTask(s', b, i)
            && (Eligible(s', worker, s'.builds[b].spec.toolchain, now, b, i) <==>
                  Row(s, b, i).owner != Some(worker) || e.completedAt + 3 < now)
  {
    RetryLeadsBack(cfg, s, e, s');
  }

  /** An accepted report of a failure that will not go away fails the task, and the build with it. */
  lemma FailureEnds(cfg: Config, s: Store, e: Event, s': Store)
    requires Inv(cfg, s) && Next(cfg, s, e, s') && e.Complete? && e.accepted && !e.result.ok && !e.result.retryable
    ensures var (b, i) := (e.result.build, e.result.id);
            && IsTask(s, b, i) && IsTask(s', b, i)
            && s' == s.(builds := s.builds[b := s'.builds[b]])
            && s'.builds[b].tasks == s.builds[b].tasks[i := Row(s, b, i).(state := Failed)]
            && (s.builds[b].state == InProgress ==> s'.builds[b].state == Broken)
  {
    var (b, i) := (e.result.build, e.result.id);
    assert s'.builds[b].tasks[i].state.Failed?;
  }

  /**
    An accepted success finishes its task, and its output is what the cache has for the task's key if it had nothing.
   */
  lemma SuccessFinishes(cfg: Config, s: Store, e: Event, s': Store)
    requires Inv(cfg, s) && Next(cfg, s, e, s') && e.Complete? && e.accepted
    requires e.result.ok && e.result.output in s.blobs
    ensures var (b, i) := (e.result.build, e.result.id);
            && IsTask(s, b, i) && IsTask(s', b, i)
            && var (row, tasks') := (Row(s, b, i), s'.builds[b].tasks);
               && tasks'[i] == row.(state := Done, output := e.result.output, owner := Some(e.result.worker))
               && s'.cache == (if row.key in s.cache then s.cache else s.cache[row.key := e.result.output])
               && s' == s.(builds := s.builds[b := s'.builds[b]], cache := s'.cache)
               && (forall j :: 0 <= j < |tasks'| && j != i && s.builds[b].tasks[j].state != Waiting ==>
                     tasks'[j] == s.builds[b].tasks[j])
               && (s.builds[b].state == InProgress ==>
                     s'.builds[b].state ==
                     if forall j :: 0 <= j < |tasks'| ==> Finished(tasks'[j]) then Succeeded else InProgress)
  {
    hide GoodRows, MadeReady, DepOutputs, OpenDeps;
    var (b, i) := (e.result.build, e.result.id);
    var (build, tasks') := (s.builds[b], s'.builds[b].tasks);
    var mid := build.tasks[i := DoneRow(build.tasks[i], e.result)];
    assert GoodBuild(cfg, s.cache, s.blobs, build);
    forall j | 0 <= j < |tasks'| && mid[j].state != Waiting ensures tasks'[j] == mid[j] {
      assert CascadedRow(cfg.hash, s'.cache, build.spec, mid[j], tasks', j);
    }
    if build.state == InProgress {
      NoneFails(cfg, s'.cache, build.spec, build.tasks, mid, tasks');
    }
  }

  lemma NoneFails(cfg: Config, cache: map<string, string>, spec: BuildSpec, before: seq<Task>, mid: seq<Task>,
                  after: seq<Task>)
    requires |mid| == |before| && !SomeFailed(before) && Cascaded(cfg.hash, cache, spec, mid, after)
    requires forall j :: 0 <= j < |mid| ==> mid[j].state == before[j].state || mid[j].state == Done
    ensures !SomeFailed(after)
  {
    forall j | 0 <= j < |after| ensures after[j].state != Failed {
      assert CascadedRow(cfg.hash, cache, spec, mid[j], after, j);
    }
  }

  /**
    What an accepted success makes of a task that was waiting: while a dependency is not finished it waits on, and
    counts those that are not. Otherwise it has its key, and is finished at once with the output the cache has for it;
    only when the cache has none is it queued, to work on the outputs of its dependencies under their names.
   */
  lemma WaitingIsResolved(cfg: Config, s: Store, e: Event, s': Store, i: nat)
    requires Inv(cfg, s) && Next(cfg, s, e, s') && e.Complete? && e.accepted
    requires e.result.ok && e.result.output in s.blobs
    requires IsTask(s, e.result.build, i) && Row(s, e.result.build, i).state == Waiting
    ensures IsTask(s', e.result.build, i) && DepsKnown(s.builds[e.result.build].spec)
    ensures var (spec, tasks') := (s.builds[e.result.build].spec, s'.builds[e.result.build].tasks);
            var (deps, row, row') := (spec.tasks[i].deps, Row(s, e.result.build, i), tasks'[i]);
            && |tasks'| == |spec.tasks|
            && var outs := DepOutputs(spec, tasks', i);
               if forall k :: 0 <= k < |deps| ==> Finished(tasks'[deps[k]]) then
                 && row'.pending == 0 && row'.attempts == row.attempts
                 && KeyedBy(cfg.hash, spec, i, outs, row'.key)
                 && (row'.key in s'.cache ==> row'.state == Cached && row'.output == s'.cache[row'.key])
                 && (row'.key !in s'.cache ==>
                       && row'.state == Ready && row'.output == row.output
                       && row'.inputs == Some(Lines.Join(outs))
                       && exists names: seq<string> ::
                         && |names| == |deps| && row'.names == Some(Lines.Join(names))
                         && forall k :: 0 <= k < |deps| ==> names[k] == Lines.FlatName(spec.tasks[deps[k]].name))
               else
                 row' == row.(pending := |set d | d in deps && !Finished(tasks'[d])|)
  {
    hide ActionKey;
    var b := e.result.build;
    var (build, tasks') := (s.builds[b], s'.builds[b].tasks);
    var mid := build.tasks[e.result.id := DoneRow(build.tasks[e.result.id], e.result)];
    assert mid[i] == build.tasks[i];
    assert CascadedRow(cfg.hash, s'.cache, build.spec, mid[i], tasks', i);
    KnownIsNoneOpen(build.spec, tasks', i);
    ActionKeyIs(cfg.hash, build.spec, i, DepOutputs(build.spec, tasks', i), tasks'[i].key);
    var names := DepNames(build.spec, i);
  }
}
