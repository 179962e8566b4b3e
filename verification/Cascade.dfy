/** The count-down of dependents, and whole cascades. */
module Cascade {
  import opened Graphs
  import opened Tables

  // ---- edges

  /** The tasks that wait for id, in id order, from task t on. */
  function Dependents(spec: BuildSpec, id: int, t: nat): seq<int>
    requires t <= |spec.tasks|
    decreases |spec.tasks| - t
  {
    if t == |spec.tasks| then []
    else if id in spec.tasks[t].deps then [t] + Dependents(spec, id, t + 1)
    else Dependents(spec, id, t + 1)
  }

  lemma {:induction false} DependentsAre(spec: BuildSpec, id: int, t: nat)
    requires t <= |spec.tasks|
    ensures forall i :: i in Dependents(spec, id, t) <==> t <= i < |spec.tasks| && id in spec.tasks[i].deps
    ensures forall j, k :: 0 <= j < k < |Dependents(spec, id, t)| ==>
              Dependents(spec, id, t)[j] < Dependents(spec, id, t)[k]
    decreases |spec.tasks| - t
  {
    if t < |spec.tasks| {
      DependentsAre(spec, id, t + 1);
      var rest := Dependents(spec, id, t + 1);
      assert forall k :: 0 <= k < |rest| ==> rest[k] in rest;
    }
  }

  function EdgesTo(id: int, ts: seq<int>): set<(int, int)> {
    if ts == [] then {} else {(id, ts[0])} + EdgesTo(id, ts[1..])
  }

  lemma {:induction false} EdgesToMembers(id: int, ts: seq<int>)
    ensures forall d, i :: (d, i) in EdgesTo(id, ts) <==> d == id && i in ts
  {
    if ts != [] {
      EdgesToMembers(id, ts[1..]);
      assert forall i :: i in ts <==> i == ts[0] || i in ts[1..];
    }
  }

  function EdgesFrom(spec: BuildSpec, id: int): set<(int, int)> { EdgesTo(id, Dependents(spec, id, 0)) }

  lemma EdgesFromMembers(spec: BuildSpec, id: int)
    ensures forall d, i :: (d, i) in EdgesFrom(spec, id) <==>
              d == id && 0 <= i < |spec.tasks| && id in spec.tasks[i].deps
  {
    EdgesToMembers(id, Dependents(spec, id, 0));
    DependentsAre(spec, id, 0);
  }

  // ---- single changes

  /** A count-down pays one owed edge; the task becomes due when it was the last. */
  lemma CountedDown(spec: BuildSpec, tasks: seq<Task>, owed: set<(int, int)>, id: int, t: int)
    requires Counts(spec, tasks, owed, {}) && (id, t) in owed
    ensures 0 <= t < |tasks| && tasks[t].state.Waiting? && tasks[t].pending > 0
    ensures var after := tasks[t := tasks[t].(pending := tasks[t].pending - 1)];
            Counts(spec, after, owed - {(id, t)}, if after[t].pending == 0 then {t} else {})
  {
    var owed' := owed - {(id, t)};
    assert RowCounts(spec, tasks, owed, {}, t);
    assert id in Uncounted(spec, tasks, owed, t);
    var after := tasks[t := tasks[t].(pending := tasks[t].pending - 1)];
    var due := if after[t].pending == 0 then {t} else {};
    forall i | 0 <= i < |after| ensures RowCounts(spec, after, owed', due, i) {
      assert RowCounts(spec, tasks, owed, {}, i);
      if i == t {
        assert Uncounted(spec, after, owed', t) == Uncounted(spec, tasks, owed, t) - {id};
      } else {
        assert Uncounted(spec, after, owed', i) == Uncounted(spec, tasks, owed, i);
      }
    }
  }

  /** A due task that becomes claimable changes nothing for the others. */
  lemma BecameReady(spec: BuildSpec, tasks: seq<Task>, owed: set<(int, int)>, t: nat, row: Task)
    requires Counts(spec, tasks, owed, {t}) && t < |tasks|
    requires row.state.Ready? && row.pending == 0
    ensures Counts(spec, tasks[t := row], owed, {})
  {
    var after := tasks[t := row];
    assert RowCounts(spec, tasks, owed, {t}, t);
    forall i | 0 <= i < |after| ensures RowCounts(spec, after, owed, {}, i) {
      assert RowCounts(spec, tasks, owed, {t}, i);
      assert Uncounted(spec, after, owed, i) == Uncounted(spec, tasks, owed, i);
    }
    assert forall d :: (d, t) in owed ==> d in Uncounted(spec, tasks, owed, t);
  }

  /** A task with nothing left to wait for that gains an output owes a count-down to each of its dependents. */
  lemma GainedOutput(spec: BuildSpec, tasks: seq<Task>, owed: set<(int, int)>, due: set<int>, t: nat, row: Task)
    requires Counts(spec, tasks, owed, due) && t < |tasks| && due <= {t}
    requires !tasks[t].HasOutput() && Uncounted(spec, tasks, owed, t) == {}
    requires row.HasOutput() && row.pending == 0
    requires NoSelfDeps(spec)
    ensures Counts(spec, tasks[t := row], owed + EdgesFrom(spec, t), {})
  {
    var after, owed' := tasks[t := row], owed + EdgesFrom(spec, t);
    EdgesFromMembers(spec, t);
    forall i | 0 <= i < |after| ensures RowCounts(spec, after, owed', {}, i) {
      assert RowCounts(spec, tasks, owed, due, i);
      assert Uncounted(spec, after, owed', i) == Uncounted(spec, tasks, owed, i);
    }
    forall d, i | (d, i) in owed'
      ensures 0 <= d < |after| && 0 <= i < |after| && d in spec.tasks[i].deps && after[d].HasOutput()
              && after[i].state.Waiting?
    {
      if (d, i) in owed {
        assert d in Uncounted(spec, tasks, owed, i);
      } else {
        assert d == t && t in Uncounted(spec, tasks, owed, i);
      }
      assert RowCounts(spec, tasks, owed, due, i);
    }
  }

  /** The cached row of a due task: it owes its dependents, and one task fewer is waiting. */
  lemma BecameCached(spec: BuildSpec, tasks: seq<Task>, owed: set<(int, int)>, t: nat, row: Task)
    requires Counts(spec, tasks, owed, {t}) && t < |tasks| && NoSelfDeps(spec)
    requires row.state.Cached? && row.pending == 0
    ensures Counts(spec, tasks[t := row], owed + EdgesFrom(spec, t), {})
    ensures (owed + EdgesFrom(spec, t)) - EdgesFrom(spec, t) == owed
    ensures WaitingTasks(tasks[t := row]) < WaitingTasks(tasks)
  {
    assert RowCounts(spec, tasks, owed, {t}, t);
    GainedOutput(spec, tasks, owed, {t}, t, row);
    EdgesFromMembers(spec, t);
    forall e | e in owed ensures e !in EdgesFrom(spec, t) {
      var (d, i) := e;
      assert (d, i) in owed && tasks[d].HasOutput();
    }
    assert (owed + EdgesFrom(spec, t)) - EdgesFrom(spec, t) == owed;
    assert t in WaitingTasks(tasks) && t !in WaitingTasks(tasks[t := row]);
  }

  // ---- from step to step of a cascade

  /** after follows before within a cascade: rows that left waiting did so as a look at their dependencies says. */
  ghost predicate Advanced(hash: string -> string, cache: map<string, string>, spec: BuildSpec, before: seq<Task>,
                           after: seq<Task>)
  {
    && DepsKnown(spec) && |before| == |after| == |spec.tasks|
    && forall i :: 0 <= i < |before| ==> AdvancedRow(hash, cache, spec, before[i], after, i)
  }

  ghost predicate AdvancedRow(hash: string -> string, cache: map<string, string>, spec: BuildSpec, row: Task,
                              after: seq<Task>, i: nat)
    requires DepsKnown(spec) && i < |after| == |spec.tasks|
  {
    if !row.state.Waiting? then after[i] == row
    else if after[i].state.Waiting? then after[i] == row.(pending := after[i].pending)
    else OpenDeps(spec, after, i) == {} && after[i] == MadeReady(hash, cache, spec, i, row, DepOutputs(spec, after, i))
  }

  lemma CountDoesNotMatter(hash: string -> string, cache: map<string, string>, spec: BuildSpec, i: nat, a: Task,
                           b: Task, outs: seq<string>)
    requires i < |spec.tasks| && DepsKnown(spec) && |outs| == |spec.tasks[i].deps| && b == a.(pending := b.pending)
    ensures MadeReady(hash, cache, spec, i, a, outs) == MadeReady(hash, cache, spec, i, b, outs)
  {
  }

  lemma AdvancedTransitive(hash: string -> string, cache: map<string, string>, spec: BuildSpec, a: seq<Task>,
                           b: seq<Task>, c: seq<Task>)
    requires Advanced(hash, cache, spec, a, b) && Advanced(hash, cache, spec, b, c)
    ensures Advanced(hash, cache, spec, a, c)
  {
    hide MadeReady;
    forall i | 0 <= i < |a| ensures AdvancedRow(hash, cache, spec, a[i], c, i) {
      assert AdvancedRow(hash, cache, spec, a[i], b, i) && AdvancedRow(hash, cache, spec, b[i], c, i);
      if a[i].state.Waiting? && b[i].state.Waiting? && !c[i].state.Waiting? {
        CountDoesNotMatter(hash, cache, spec, i, a[i], b[i], DepOutputs(spec, c, i));
      }
      if a[i].state.Waiting? && !b[i].state.Waiting? {
        var deps := spec.tasks[i].deps;
        forall k | 0 <= k < |deps| ensures c[deps[k]] == b[deps[k]] {
          assert deps[k] !in OpenDeps(spec, b, i);
          assert AdvancedRow(hash, cache, spec, b[deps[k]], c, deps[k]);
        }
        assert DepOutputs(spec, c, i) == DepOutputs(spec, b, i);
        assert OpenDeps(spec, c, i) == {};
      }
    }
  }

  lemma CountDownAdvances(hash: string -> string, cache: map<string, string>, spec: BuildSpec, tasks: seq<Task>, t: nat)
    requires DepsKnown(spec) && |tasks| == |spec.tasks| && t < |tasks| && tasks[t].state.Waiting?
    ensures Advanced(hash, cache, spec, tasks, tasks[t := tasks[t].(pending := tasks[t].pending - 1)])
  {
    var after := tasks[t := tasks[t].(pending := tasks[t].pending - 1)];
    forall i | 0 <= i < |tasks| && !tasks[i].state.Waiting? ensures AdvancedRow(hash, cache, spec, tasks[i], after, i) {
    }
  }

  lemma MakeReadyAdvances(hash: string -> string, cache: map<string, string>, spec: BuildSpec, tasks: seq<Task>,
                          owed: set<(int, int)>, t: nat)
    requires Counts(spec, tasks, owed, {t}) && t < |tasks|
    requires NoSelfDeps(spec)
    ensures Advanced(hash, cache, spec, tasks,
              tasks[t := MadeReady(hash, cache, spec, t, tasks[t], DepOutputs(spec, tasks, t))])
  {
    var after := tasks[t := MadeReady(hash, cache, spec, t, tasks[t], DepOutputs(spec, tasks, t))];
    assert RowCounts(spec, tasks, owed, {t}, t);
    var deps := spec.tasks[t].deps;
    forall k | 0 <= k < |deps| ensures after[deps[k]] == tasks[deps[k]] && tasks[deps[k]].HasOutput() {
      assert deps[k] in deps;
      assert deps[k] !in Uncounted(spec, tasks, owed, t);
    }
    assert DepOutputs(spec, after, t) == DepOutputs(spec, tasks, t);
    assert OpenDeps(spec, after, t) == {};
  }

  /** A cascade that leaves the build settled did exactly what its definition says. */
  lemma AdvancedAndSettled(hash: string -> string, cache: map<string, string>, spec: BuildSpec, before: seq<Task>,
                           after: seq<Task>)
    requires Advanced(hash, cache, spec, before, after) && Settled(spec, after)
    ensures Cascaded(hash, cache, spec, before, after)
  {
    forall i | 0 <= i < |before| ensures CascadedRow(hash, cache, spec, before[i], after, i) {
      assert AdvancedRow(hash, cache, spec, before[i], after, i);
    }
  }

  /** Rows after a cascade are determined by the rows before it, whatever order it visited them in. */
  lemma {:induction false} CascadeIsUnique(hash: string -> string, cache: map<string, string>, spec: BuildSpec,
                                           before: seq<Task>, a: seq<Task>, b: seq<Task>)
    requires Cascaded(hash, cache, spec, before, a) && Cascaded(hash, cache, spec, before, b)
    requires Acyclic(GraphOf(spec))
    ensures a == b
  {
    forall i | 0 <= i < |a| ensures a[i] == b[i] {
      CascadedRowIsUnique(hash, cache, spec, before, a, b, i);
    }
  }

  lemma {:induction false} CascadedRowIsUnique(hash: string -> string, cache: map<string, string>, spec: BuildSpec,
                                               before: seq<Task>, a: seq<Task>, b: seq<Task>, i: nat)
    requires Cascaded(hash, cache, spec, before, a) && Cascaded(hash, cache, spec, before, b)
    requires Acyclic(GraphOf(spec)) && i < |a|
    ensures a[i] == b[i]
    decreases RankOf(GraphOf(spec))[i]
  {
    assert CascadedRow(hash, cache, spec, before[i], a, i) && CascadedRow(hash, cache, spec, before[i], b, i);
    var deps := spec.tasks[i].deps;
    forall k | 0 <= k < |deps| ensures a[deps[k]] == b[deps[k]] {
      assert deps[k] in GraphOf(spec)[i].deps;
      CascadedRowIsUnique(hash, cache, spec, before, a, b, deps[k]);
    }
    assert OpenDeps(spec, a, i) == OpenDeps(spec, b, i);
    assert DepOutputs(spec, a, i) == DepOutputs(spec, b, i);
  }

  // ---- termination

  /** The tasks still waiting: what a cascade works off. */
  function WaitingTasks(tasks: seq<Task>): set<int> { set i | 0 <= i < |tasks| && tasks[i].state.Waiting? }
}
