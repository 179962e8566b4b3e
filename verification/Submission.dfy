/** The walk over a submitted graph. */
module Submission {
  // The row of each task follows from what the cache tells about the tasks before it.

  import opened Wrappers
  import opened HashInput
  import opened Graphs
  import opened Tables
  import opened BlobStore
  import opened Steps
  import Lines

  /** How many of the outputs are not known yet. */
  function Missing(outs: seq<string>): nat {
    if outs == [] then 0
    else
      var last := |outs| - 1;
      Missing(outs[..last]) + if outs[last] == "" then 1 else 0
  }

  /** Row i as the walk leaves it, from the outputs of its dependencies known by then. */
  function WalkedRow(cfg: Config, cache: map<string, string>, spec: BuildSpec, outs: seq<string>, i: nat, rank: int,
                     part: int): Task
    requires i < |spec.tasks| && DepsKnown(spec) && |outs| == |spec.tasks[i].deps|
  {
    var t, known := spec.tasks[i], Missing(outs) == 0;
    var key := if t.kind.Compile? || known then KeyFor(cfg.hash, spec, i, outs) else "";
    var hit := key != "" && key in cache;
    var inputs := if t.kind.Compile? then Column(t.input) else if known then Column(Lines.Join(outs)) else None;
    var names := if t.kind.Compile? then Some("in.i") else if known then Column(Lines.Join(DepNames(spec, i)))
      else None;
    var state := if hit then Cached else if known then Ready else Waiting;
    Task(state, Missing(outs), 0, None, 0, key, inputs, names, if hit then cache[key] else "", None, 0, rank, part)
  }

  function Blank(rank: int, part: int): Task {
    Task(Waiting, 0, 0, None, 0, "", None, None, "", None, 0, rank, part)
  }

  /** Rows show an output exactly when they have one. */
  predicate Consistent(rows: seq<Task>) {
    forall i :: 0 <= i < |rows| ==> (rows[i].HasOutput() <==> rows[i].output != "")
  }

  predicate NoEmptyOutputs(cache: map<string, string>) { forall k :: k in cache ==> cache[k] != "" }

  // ---- counting open dependencies

  function OpenAmong(rows: seq<Task>, deps: seq<int>): set<int>
    requires InRange(deps, |rows|)
  {
    set d | d in deps && !rows[d].HasOutput()
  }

  function OutputsOf(rows: seq<Task>, deps: seq<int>): (outs: seq<string>)
    requires InRange(deps, |rows|)
    ensures |outs| == |deps|
  {
    seq(|deps|, k requires 0 <= k < |deps| => rows[deps[k]].output)
  }

  lemma OpenAmongStep(rows: seq<Task>, rest: seq<int>, d: int)
    requires InRange(rest, |rows|) && 0 <= d < |rows| && d !in rest
    ensures InRange(rest + [d], |rows|)
    ensures |OpenAmong(rows, rest + [d])| == |OpenAmong(rows, rest)| + if rows[d].HasOutput() then 0 else 1
  {
    if rows[d].HasOutput() {
      assert OpenAmong(rows, rest + [d]) == OpenAmong(rows, rest);
    } else {
      assert OpenAmong(rows, rest + [d]) == OpenAmong(rows, rest) + {d};
    }
  }

  lemma {:induction false} MissingIsOpen(rows: seq<Task>, deps: seq<int>)
    requires InRange(deps, |rows|) && Distinct(deps) && Consistent(rows)
    ensures Missing(OutputsOf(rows, deps)) == |OpenAmong(rows, deps)|
  {
    if deps == [] {
      assert OpenAmong(rows, deps) == {};
    } else {
      var last := |deps| - 1;
      MissingIsOpen(rows, deps[..last]);
      assert OutputsOf(rows, deps)[..last] == OutputsOf(rows, deps[..last]);
      assert deps == deps[..last] + [deps[last]];
      OpenAmongStep(rows, deps[..last], deps[last]);
    }
  }

  /** With distinct dependencies the walk's row is the row the tables are promised. */
  lemma WalkedIsFresh(cfg: Config, cache: map<string, string>, spec: BuildSpec, ranks: seq<int>, parts: seq<int>,
                      rows: seq<Task>, i: nat)
    requires DepsKnown(spec) && |rows| == |ranks| == |parts| == |spec.tasks| && i < |rows|
    requires Distinct(spec.tasks[i].deps) && Consistent(rows)
    requires rows[i] == WalkedRow(cfg, cache, spec, DepOutputs(spec, rows, i), i, ranks[i], parts[i])
    ensures IsFresh(cfg, cache, spec, ranks, parts, rows, i)
  {
    var deps := spec.tasks[i].deps;
    MissingIsOpen(rows, deps);
    assert OutputsOf(rows, deps) == DepOutputs(spec, rows, i);
    assert OpenAmong(rows, deps) == OpenDeps(spec, rows, i);
  }

  // ---- the walk

  predicate WalkedAt(cfg: Config, cache: map<string, string>, spec: BuildSpec, ranks: seq<int>, parts: seq<int>,
                     rows: seq<Task>, i: int)
    requires DepsKnown(spec) && |rows| == |ranks| == |parts| == |spec.tasks|
  {
    0 <= i < |rows| && rows[i] == WalkedRow(cfg, cache, spec, DepOutputs(spec, rows, i), i, ranks[i], parts[i])
  }

  /** The first k tasks of the order are resolved. */
  ghost predicate Walked(cfg: Config, cache: map<string, string>, spec: BuildSpec, ranks: seq<int>, parts: seq<int>,
                         order: seq<int>, rows: seq<Task>, k: nat)
  {
    && DepsKnown(spec) && |rows| == |ranks| == |parts| == |spec.tasks| && k <= |order|
    && Consistent(rows)
    && (forall q :: 0 <= q < k ==> WalkedAt(cfg, cache, spec, ranks, parts, rows, order[q]))
  }

  /** A task resolved no later than order[k] does not depend on it. */
  lemma DepsResolvedBefore(spec: BuildSpec, order: seq<int>, q: nat, k: nat)
    requires IsTopological(GraphOf(spec), order) && q <= k < |order| && NoSelfDeps(spec)
    ensures forall p :: 0 <= p < |spec.tasks[order[q]].deps| ==> spec.tasks[order[q]].deps[p] != order[k]
  {
    var deps := spec.tasks[order[q]].deps;
    forall p | 0 <= p < |deps| ensures deps[p] != order[k] {
      assert deps[p] in GraphOf(spec)[order[q]].deps;
      assert DepsBefore(GraphOf(spec), order, q) && deps[p] in order[..q];
    }
  }

  lemma WalkOne(cfg: Config, cache: map<string, string>, spec: BuildSpec, ranks: seq<int>, parts: seq<int>,
                order: seq<int>, rows: seq<Task>, k: nat, row: Task)
    requires Walked(cfg, cache, spec, ranks, parts, order, rows, k) && IsTopological(GraphOf(spec), order)
             && k < |order|
    requires NoSelfDeps(spec) && NoEmptyOutputs(cache)
    requires var i := order[k];
             row == WalkedRow(cfg, cache, spec, DepOutputs(spec, rows, i), i, ranks[i], parts[i])
    ensures Walked(cfg, cache, spec, ranks, parts, order, rows[order[k] := row], k + 1)
  {
    var rows' := rows[order[k] := row];
    forall q | 0 <= q < k + 1 ensures WalkedAt(cfg, cache, spec, ranks, parts, rows', order[q]) {
      DepsResolvedBefore(spec, order, q, k);
      assert DepOutputs(spec, rows', order[q]) == DepOutputs(spec, rows, order[q]);
      if q < k {
        assert WalkedAt(cfg, cache, spec, ranks, parts, rows, order[q]);
        assert order[q] != order[k];
      }
    }
  }

  lemma WalkEnds(cfg: Config, cache: map<string, string>, spec: BuildSpec, ranks: seq<int>, parts: seq<int>,
                 order: seq<int>, rows: seq<Task>)
    requires Walked(cfg, cache, spec, ranks, parts, order, rows, |order|) && IsTopological(GraphOf(spec), order)
    requires DepsDistinct(spec)
    ensures FreshRows(cfg, cache, spec, ranks, parts, rows)
  {
    Covers(order, |rows|);
    forall i | 0 <= i < |rows| ensures IsFresh(cfg, cache, spec, ranks, parts, rows, i) {
      assert i in order;
      var q :| 0 <= q < |order| && order[q] == i;
      assert WalkedAt(cfg, cache, spec, ranks, parts, rows, order[q]);
      WalkedIsFresh(cfg, cache, spec, ranks, parts, rows, i);
    }
  }

  /** What is known about the dependencies of task id: their outputs and file names, or how many are missing. */
  method LookAtDeps(spec: BuildSpec, rows: seq<Task>, id: nat)
    returns (known: bool, pending: nat, inputs: seq<string>, names: seq<string>)
    requires DepsKnown(spec) && id < |rows| == |spec.tasks|
    ensures pending == Missing(DepOutputs(spec, rows, id)) && (known <==> pending == 0)
    ensures known ==> inputs == DepOutputs(spec, rows, id) && names == DepNames(spec, id)
  {
    var deps := spec.tasks[id].deps;
    ghost var outs, nm := DepOutputs(spec, rows, id), DepNames(spec, id);
    known, pending, inputs, names := true, 0, [], [];
    for k := 0 to |deps|
      invariant pending == Missing(outs[..k]) && (known <==> pending == 0)
      invariant known ==> inputs == outs[..k] && names == nm[..k]
    {
      assert outs[..k + 1][..k] == outs[..k];
      var d := deps[k];
      if rows[d].output == "" {
        known := false;
        pending := pending + 1;
      } else {
        inputs := inputs + [rows[d].output];
        names := names + [Lines.FlatName(spec.tasks[d].name)];
      }
    }
    assert outs[..|deps|] == outs && nm[..|deps|] == nm;
  }

  /** hits holds only cache entries, and those of all compile keys the cache has. */
  ghost predicate Hits(hits: map<string, string>, cache: map<string, string>, spec: BuildSpec) {
    && (forall k :: k in hits ==> k in cache && hits[k] == cache[k])
    && (forall i :: 0 <= i < |spec.tasks| && spec.tasks[i].kind.Compile? && spec.tasks[i].key in cache ==>
        spec.tasks[i].key in hits)
  }

  /**
    Resolves one task: its key when it is known, the cached output when there is one, its place in the queue otherwise.
   */
  method ResolveTask(cfg: Config, cache: map<string, string>, blobs: Blobs, spec: BuildSpec, rows: seq<Task>, id: nat,
                     rank: int, part: int, hits0: map<string, string>)
    returns (row: Task, hits: map<string, string>, uploaded: bool)
    requires NamesAreValid(cfg.hash) && CompilesAreKeyed(spec)
    requires DepsKnown(spec) && id < |rows| == |spec.tasks| && Hits(hits0, cache, spec)
    ensures Hits(hits, cache, spec)
    ensures uploaded <==> !LacksSource(blobs, cache, spec.tasks[id], DepOutputs(spec, rows, id))
    ensures uploaded ==> row == WalkedRow(cfg, cache, spec, DepOutputs(spec, rows, id), id, rank, part)
  {
    hits, uploaded := hits0, true;
    row := Blank(rank, part);
    var ts := spec.tasks[id];
    var known, pending, ins, nm := LookAtDeps(spec, rows, id);
    MissingNone(DepOutputs(spec, rows, id));
    row := row.(pending := pending);
    if ts.kind.Compile? {
      row := row.(key := ts.key, inputs := Column(ts.input), names := Some("in.i"));
    } else if known {
      var key := BuildActionKey(cfg.hash, ts.kind, spec.toolchain, Lines.Join(ts.args), nm, ins);
      assert ValidHash(key);
      var inputs := Lines.JoinLines(ins);
      var names := Lines.JoinLines(nm);
      row := row.(key := key, inputs := Column(inputs), names := Column(names));
      if key !in hits && key in cache {
        hits := hits[key := cache[key]];
      }
    }
    if row.key != "" && row.key in hits {
      row := row.(state := Cached, output := hits[row.key]);
    } else if known {
      if ts.kind.Compile? && !Has(blobs, ts.input) {
        uploaded := false;
        return;
      }
      row := row.(state := Ready);
    } else {
      row := row.(state := Waiting);
    }
  }

  /** What the walk knows of the dependencies of the k-th task, or of an earlier one, is what the cache tells. */
  lemma {:induction false} WalkKnowsDeps(cfg: Config, cache: map<string, string>, spec: BuildSpec, ranks: seq<int>,
                                         parts: seq<int>, order: seq<int>, rows: seq<Task>, k: nat, q: nat)
    requires Walked(cfg, cache, spec, ranks, parts, order, rows, k) && IsTopological(GraphOf(spec), order)
    requires Acyclic(GraphOf(spec)) && q <= k && q < |order|
    ensures DepOutputs(spec, rows, order[q]) == DepsAtOnce(cfg, cache, spec, order[q])
    decreases q
  {
    hide WalkedRow;
    var deps := spec.tasks[order[q]].deps;
    forall p | 0 <= p < |deps| ensures rows[deps[p]].output == AtOnce(cfg, cache, spec, deps[p]) {
      assert deps[p] in GraphOf(spec)[order[q]].deps && DepsBefore(GraphOf(spec), order, q);
      var j :| 0 <= j < q && order[j] == deps[p];
      WalkKnowsDeps(cfg, cache, spec, ranks, parts, order, rows, k, j);
      WalkedAtOnce(cfg, cache, spec, ranks, parts, order, rows, k, j);
    }
  }

  lemma {:induction false} MissingNone(outs: seq<string>)
    ensures Missing(outs) == 0 <==> AllKnown(outs)
  {
    if outs != [] {
      MissingNone(outs[..|outs| - 1]);
    }
  }

  lemma WalkedAtOnce(cfg: Config, cache: map<string, string>, spec: BuildSpec, ranks: seq<int>, parts: seq<int>,
                     order: seq<int>, rows: seq<Task>, k: nat, q: nat)
    requires Walked(cfg, cache, spec, ranks, parts, order, rows, k) && IsTopological(GraphOf(spec), order)
    requires Acyclic(GraphOf(spec)) && q < k
    requires DepOutputs(spec, rows, order[q]) == DepsAtOnce(cfg, cache, spec, order[q])
    ensures rows[order[q]].output == AtOnce(cfg, cache, spec, order[q])
  {
    hide KeyFor;
    assert WalkedAt(cfg, cache, spec, ranks, parts, rows, order[q]);
    MissingNone(DepOutputs(spec, rows, order[q]));
  }

  /** None of the first k tasks of the order lacks its source. */
  ghost predicate NoneLacks(cfg: Config, cache: map<string, string>, blobs: Blobs, spec: BuildSpec, order: seq<int>,
                            k: nat)
    requires Acyclic(GraphOf(spec)) && DepsKnown(spec) && InRange(order, |spec.tasks|) && k <= |order|
  {
    forall q :: 0 <= q < k ==>
      !LacksSource(blobs, cache, spec.tasks[order[q]], DepsAtOnce(cfg, cache, spec, order[q]))
  }

  lemma NoSourceMissing(cfg: Config, cache: map<string, string>, blobs: Blobs, spec: BuildSpec, order: seq<int>)
    requires Acyclic(GraphOf(spec)) && DepsKnown(spec) && IsTopological(GraphOf(spec), order)
    requires NoneLacks(cfg, cache, blobs, spec, order, |order|)
    ensures !SourceMissing(cfg, blobs, cache, spec)
  {
    hide LacksSource;
    Covers(order, |spec.tasks|);
    forall i | 0 <= i < |spec.tasks|
      ensures !LacksSource(blobs, cache, spec.tasks[i], DepsAtOnce(cfg, cache, spec, i))
    {
      assert i in order;
      var q :| 0 <= q < |order| && order[q] == i;
    }
  }

  /**
    Walks the graph in dependency order, and stops at the first compile that could run at once but for its source, which
    was not uploaded.
   */
  method Walk(cfg: Config, cache: map<string, string>, blobs: Blobs, spec: BuildSpec, order: seq<int>, ranks: seq<int>,
              parts: seq<int>)
    returns (rows: seq<Task>, uploaded: bool)
    requires NamesAreValid(cfg.hash) && NoEmptyOutputs(cache) && CompilesAreKeyed(spec)
    requires WellFormed(GraphOf(spec)) && Acyclic(GraphOf(spec)) && IsTopological(GraphOf(spec), order)
    requires |ranks| == |parts| == |spec.tasks|
    ensures uploaded <==> !SourceMissing(cfg, blobs, cache, spec)
    ensures uploaded && DepsDistinct(spec) ==> FreshRows(cfg, cache, spec, ranks, parts, rows)
  {
    hide DepsBefore, FreshRow, IsFresh, WalkedAt, WalkedRow, LacksSource;
    AdmittedDeps(spec);
    var n := |spec.tasks|;
    rows := seq(n, i requires 0 <= i < n => Blank(ranks[i], parts[i]));
    var compileKeys := set i | 0 <= i < n && spec.tasks[i].kind.Compile? :: spec.tasks[i].key;
    var hits := map k | k in compileKeys && k in cache :: cache[k];
    for k := 0 to n
      invariant Walked(cfg, cache, spec, ranks, parts, order, rows, k)
      invariant Hits(hits, cache, spec)
      invariant NoneLacks(cfg, cache, blobs, spec, order, k)
    {
      var id := order[k];
      WalkKnowsDeps(cfg, cache, spec, ranks, parts, order, rows, k, k);
      var row, more, present := ResolveTask(cfg, cache, blobs, spec, rows, id, ranks[id], parts[id], hits);
      if !present {
        return rows, false;
      }
      WalkOne(cfg, cache, spec, ranks, parts, order, rows, k, row);
      rows := rows[id := row];
      hits := more;
    }
    uploaded := true;
    NoSourceMissing(cfg, cache, blobs, spec, order);
    if DepsDistinct(spec) {
      WalkEnds(cfg, cache, spec, ranks, parts, order, rows);
    }
  }

  // ---- the rows of a new build

  /** The rows entered show the outputs that the cache tells at once. */
  lemma {:induction false} FreshAtOnce(cfg: Config, cache: map<string, string>, spec: BuildSpec, ranks: seq<int>,
                                       parts: seq<int>, rows: seq<Task>, i: nat)
    requires FreshRows(cfg, cache, spec, ranks, parts, rows) && NoEmptyOutputs(cache) && i < |rows|
    requires Acyclic(GraphOf(spec))
    ensures rows[i].output == AtOnce(cfg, cache, spec, i) && (rows[i].HasOutput() <==> rows[i].output != "")
    ensures DepOutputs(spec, rows, i) == DepsAtOnce(cfg, cache, spec, i)
    ensures OpenDeps(spec, rows, i) == {} <==> AllKnown(DepsAtOnce(cfg, cache, spec, i))
    decreases RankOf(GraphOf(spec))[i]
  {
    hide KeyFor;
    var deps := spec.tasks[i].deps;
    forall k | 0 <= k < |deps|
      ensures rows[deps[k]].output == AtOnce(cfg, cache, spec, deps[k])
      ensures rows[deps[k]].HasOutput() <==> rows[deps[k]].output != ""
    {
      DepRanksLower(spec, i, k);
      FreshAtOnce(cfg, cache, spec, ranks, parts, rows, deps[k]);
    }
    assert DepOutputs(spec, rows, i) == DepsAtOnce(cfg, cache, spec, i);
    if OpenDeps(spec, rows, i) == {} {
      forall k | 0 <= k < |deps| ensures rows[deps[k]].HasOutput() {
        assert deps[k] !in OpenDeps(spec, rows, i);
      }
    }
    assert IsFresh(cfg, cache, spec, ranks, parts, rows, i);
  }

  /**
    In a build just submitted, whatever its graph, waiting means having dependencies to count down, except for one kind
    of row: a compile that has unfinished dependencies and whose key is in the cache is cached and still counting.
   */
  lemma OnlyCachedCompilesMiscount(cfg: Config, cache: map<string, string>, spec: BuildSpec, ranks: seq<int>,
                                   parts: seq<int>, rows: seq<Task>, i: nat)
    requires FreshRows(cfg, cache, spec, ranks, parts, rows) && i < |rows|
    requires CompilesAreKeyed(spec) && Acyclic(GraphOf(spec)) && NoEmptyOutputs(cache)
    ensures (rows[i].state.Waiting? <==> rows[i].pending > 0) <==> !IsPremature(cfg, cache, spec, i)
  {
    hide ActionKey, AtOnce;
    FreshAtOnce(cfg, cache, spec, ranks, parts, rows, i);
    assert IsFresh(cfg, cache, spec, ranks, parts, rows, i);
    assert OpenDeps(spec, rows, i) != {} <==> |OpenDeps(spec, rows, i)| > 0;
  }
}
