/** Counts and marks under overlap. */
module Isolation {
  import opened Wrappers
  import opened Graphs
  import opened Transactions
  import opened Locks
  import opened BuildMarks
  import opened TwoSinks

  // ---- the counts

  /**
    Whatever overlaps, waits or aborts, the committed counts are exact: every dependent was counted down once for each
    of its finished dependencies, and waits exactly while it has others.
   */
  lemma CountsComeOut(g: seq<GraphTask>, h: History, k: nat)
    requires IsHistory(g, h) && DepsMatch(g) && k < |h.states|
    ensures Settled(g, h.states[k].base)
  {
    HistoryKeeps(g, h, k);
  }

  /** A task that no longer waits: the transaction that locks it sees all its dependencies finished. */
  lemma InputsAreSeen(g: seq<GraphTask>, s: State, t: int, d: int)
    requires Kept(g, s) && IsEdge(g, d, t) && !s.rows[t].state.Waiting?
    ensures s.rows[d].state.Finished? && (s.holder[d] == None || s.holder[d] == s.holder[t])
  {
    assert RowCounts(g, s, t) && EdgeKept(s, d, t);
    assert d !in Uncounted(g, s, t);
    if s.holder[d].Some? {
      assert s.holder[d].value < |s.txs|;
    }
  }

  /**
    When a count-down makes a task ready or finds it in the cache, the transaction sees the outputs of all its
    dependencies.
   */
  lemma ReadyWithInputs(g: seq<GraphTask>, h: History, k: nat, x: nat, d: int, t: int, hit: bool, e: int)
    requires IsHistory(g, h) && DepsMatch(g) && k < |h.actions| && h.actions[k] == CountDown(x, d, t, hit)
             && IsEdge(g, e, t)
    ensures Fits(g, h.states[k]) && Fits(g, h.states[k + 1]) && h.states[k].rows[t].state.Waiting?
    ensures !h.states[k + 1].rows[t].state.Waiting? ==> Sees(h.states[k + 1], x, e, Finished)
  {
    hide RowSettled, Settled;
    HistoryKeeps(g, h, k);
    HistoryKeeps(g, h, k + 1);
    assert StepAt(g, h, k);
    OwedWaits(g, h.states[k], x, d, t);
    if !h.states[k + 1].rows[t].state.Waiting? {
      InputsAreSeen(g, h.states[k + 1], t, e);
      assert RowLocks(h.states[k + 1], e);
    }
  }

  /**
    A task leaves waiting once: what was committed as no longer waiting never waits again, and what is finished stays
    so.
   */
  lemma {:induction false} LeavesWaitingOnce(g: seq<GraphTask>, h: History, j: nat, k: nat, t: int)
    requires IsHistory(g, h) && DepsMatch(g) && j <= k < |h.states| && 0 <= t < |g|
    ensures |h.states[j].base| == |h.states[k].base| == |g|
    ensures !h.states[j].base[t].state.Waiting? ==> !h.states[k].base[t].state.Waiting?
    ensures h.states[j].base[t].state.Finished? ==> h.states[k].base[t] == h.states[j].base[t]
    decreases k
  {
    HistoryKeeps(g, h, j);
    if j < k {
      LeavesWaitingOnce(g, h, j, k - 1, t);
      HistoryKeeps(g, h, k - 1);
      assert StepAt(g, h, k - 1) && RowLocks(h.states[k - 1], t);
    }
  }

  // ---- with one sink the end is never missed

  ghost predicate OnlySink(g: seq<GraphTask>, z: int) { IsSink(g, z) && forall y :: IsSink(g, y) ==> y == z }

  ghost predicate OneSink(g: seq<GraphTask>) { exists z :: OnlySink(g, z) }

  /** Everything leads to the only sink, so once that no longer waits, who locks it sees everything else finished. */
  lemma {:induction false} AllBefore(g: seq<GraphTask>, r: seq<nat>, s: State, z: int, j: int)
    requires IsRanking(g, r) && OnlySink(g, z) && Kept(g, s) && !s.rows[z].state.Waiting? && 0 <= j < |g|
    ensures j == z || (s.rows[j].state.Finished? && (s.holder[j] == None || s.holder[j] == s.holder[z]))
    decreases Top(r) - r[j]
  {
    hide Kept;
    if j != z {
      assert !IsSink(g, j);
      var k :| 0 <= k < |g| && j in g[k].deps;
      assert IsEdge(g, j, k);
      AllBefore(g, r, s, z, k);
      FitsKept(g, s);
      InputsAreSeen(g, s, k, j);
    }
  }

  /**
    The transaction that finished the only sink has counted what is left, or will before it commits; then it is marked.
   */
  predicate SinkNoticed(s: State, z: int)
    requires 0 <= z < |s.rows| == |s.holder| == |s.base|
  {
    && (s.rows[z].state.Finished? && s.holder[z].Some? && s.holder[z].value < |s.txs| ==>
          z in s.txs[s.holder[z].value].unchecked || s.txs[s.holder[z].value].sawDone)
    && (s.base[z].state.Finished? ==> s.done)
  }

  lemma StepNotices(g: seq<GraphTask>, s: State, a: Action, s': State, z: int)
    requires Kept(g, s) && Steps(g, s, a, s') && DepsMatch(g) && Acyclic(g) && OnlySink(g, z) && SinkNoticed(s, z)
             && Fits(g, s')
    ensures SinkNoticed(s', z)
  {
    hide RowCounts, EdgeKept, RowSettled, OwesEdges, Settled;
    assert RowLocks(s, z);
    match a
    case Check(x, y) =>
      if y == z && s.rows[z].state.Finished? && s.holder[z] == Some(x) {
        forall j | 0 <= j < |g| ensures Sees(s, x, j, Finished) { AllBefore(g, RankOf(g), s, z, j); }
      }
    case CountDown(x, d, t, hit) => OwedWaits(g, s, x, d, t);
    case _ =>
  }

  lemma {:induction false} HistoryNotices(g: seq<GraphTask>, h: History, k: nat, z: int)
    requires IsHistory(g, h) && DepsMatch(g) && Acyclic(g) && OnlySink(g, z) && k < |h.states|
    ensures Kept(g, h.states[k]) && SinkNoticed(h.states[k], z)
    decreases k
  {
    hide Kept, SinkNoticed;
    HistoryKeeps(g, h, k);
    FitsKept(g, h.states[k]);
    if k == 0 {
      StartNotices(g, h.states[0], z);
    } else {
      HistoryNotices(g, h, k - 1, z);
      assert StepAt(g, h, k - 1);
      StepNotices(g, h.states[k - 1], h.actions[k - 1], h.states[k], z);
    }
  }

  lemma StartNotices(g: seq<GraphTask>, s: State, z: int)
    requires IsStart(g, s) && DepsMatch(g) && Acyclic(g) && OnlySink(g, z)
    ensures |s.rows| == |s.holder| == |s.base| == |g| && SinkNoticed(s, z)
  {
    if s.base[z].state.Finished? {
      StartIsKept(g, s);
      forall j | 0 <= j < |g| ensures s.base[j].state.Finished? { AllBefore(g, RankOf(g), s, z, j); }
    }
  }

  // ---- exactly when

  /** At any moment of any history the mark says whether all tasks are finished. */
  ghost predicate AlwaysNoticed(g: seq<GraphTask>) {
    forall h, k :: IsHistory(g, h) && 0 <= k < |h.states| ==> (h.states[k].done <==> AllFinished(h.states[k].base))
  }

  /**
    Under every overlap of transactions, the mark that a build is done, set by checks at sinks alone, is exact for those
    graphs that have a single sink, and for no others.
   */
  lemma NoticedWhenOneSink(g: seq<GraphTask>)
    requires g != [] && WellFormed(g) && Acyclic(g)
    ensures AlwaysNoticed(g) <==> OneSink(g)
  {
    hide IsStart, StepAt;
    if OneSink(g) {
      var z :| OnlySink(g, z);
      forall h, k | IsHistory(g, h) && 0 <= k < |h.states| ensures h.states[k].done <==> AllFinished(h.states[k].base) {
        SinkTells(g, h, k, z);
      }
    } else {
      var a := SinkAbove(g, RankOf(g), 0);
      var b := OtherSink(g, a);
      var h := Overlooked(g, a, b);
      assert 0 <= |h.states| - 1 < |h.states|;
    }
  }

  lemma OtherSink(g: seq<GraphTask>, a: int) returns (b: int)
    requires IsSink(g, a) && !OneSink(g)
    ensures IsSink(g, b) && b != a
  {
    assert !OnlySink(g, a);
    b :| IsSink(g, b) && b != a;
  }

  lemma SinkTells(g: seq<GraphTask>, h: History, k: nat, z: int)
    requires IsHistory(g, h) && DepsMatch(g) && Acyclic(g) && OnlySink(g, z) && k < |h.states|
    ensures h.states[k].done <==> AllFinished(h.states[k].base)
  {
    hide IsStart, StepAt;
    HistoryMarks(g, h, k);
    HistoryNotices(g, h, k, z);
  }
}
