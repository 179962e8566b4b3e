/** The marks on a build under overlapping transactions. */
module BuildMarks {
  import opened Wrappers
  import opened Graphs
  import opened Transactions
  import opened Locks

  ghost predicate TxMarked(s: State, x: nat)
    requires x < |s.txs| && |s.holder| == |s.rows| == |s.base|
  {
    && (s.txs[x].sawDone ==> SeesAllFinished(s, x))
    && (s.txs[x].sawFailed ==> SeesFailed(s, x))
    && forall i :: 0 <= i < |s.rows| && s.rows[i].state.Failed? && s.holder[i] == Some(x) ==> s.txs[x].sawFailed
  }

  ghost predicate Marked(g: seq<GraphTask>, s: State)
    requires Fits(g, s)
  {
    && (s.done ==> AllFinished(s.base)) && (s.broken <==> SomeFailed(s.base))
    && forall x :: 0 <= x < |s.txs| ==> TxMarked(s, x)
  }

  /** Only rows that are neither finished nor failed change under a lock. */
  predicate OnlyOpenRowsChange(s: State, y: nat, i: int, s': State)
    requires 0 <= i < |s.rows| == |s.holder| == |s.base|
  {
    && s'.base == s.base && |s'.rows| == |s'.holder| == |s.rows| && Free(s, y, i)
    && !s.rows[i].state.Finished? && !s.rows[i].state.Failed? && s'.holder == s.holder[i := Some(y)]
    && forall j :: 0 <= j < |s.rows| && j != i ==> s'.rows[j] == s.rows[j]
  }

  /** What a transaction saw finished or failed, it still sees when any transaction has written an open row. */
  lemma SightLasts(g: seq<GraphTask>, s: State, y: nat, i: int, s': State, x: nat, j: int, state: RowState)
    requires Kept(g, s) && 0 <= i < |g| && 0 <= j < |g| && OnlyOpenRowsChange(s, y, i, s')
             && (state.Finished? || state.Failed?)
    requires Sees(s, x, j, state)
    ensures Sees(s', x, j, state) && j != i
  {
    hide RowCounts, EdgeKept, RowSettled, OwesEdges;
    assert RowLocks(s, j);
  }

  lemma WriteKeepsMarks(g: seq<GraphTask>, s: State, y: nat, i: int, s': State, x: nat)
    requires Kept(g, s) && Fits(g, s') && 0 <= i < |g| && OnlyOpenRowsChange(s, y, i, s') && |s'.txs| == |s.txs|
             && x < |s.txs|
    requires TxMarked(s, x)
    requires s'.txs[x].sawDone == s.txs[x].sawDone
    requires s'.txs[x].sawFailed == s.txs[x].sawFailed || (x == y && s'.txs[x].sawFailed && s'.rows[i].state.Failed?)
    requires s'.rows[i].state.Failed? && x == y ==> s'.txs[x].sawFailed
    ensures TxMarked(s', x)
  {
    hide RowCounts, EdgeKept, RowSettled, OwesEdges, RowLocks, Settled;
    forall j, state: RowState | 0 <= j < |g| && (state.Finished? || state.Failed?) && Sees(s, x, j, state)
      ensures Sees(s', x, j, state)
    {
      SightLasts(g, s, y, i, s', x, j, state);
    }
    if s'.txs[x].sawFailed {
      if s.txs[x].sawFailed {
        var j :| 0 <= j < |s.rows| && Sees(s, x, j, Failed);
        assert Sees(s', x, j, Failed);
      } else {
        assert Sees(s', x, i, Failed);
      }
    }
  }

  lemma EndKeepsMarks(g: seq<GraphTask>, s: State, y: nat, kept: bool, x: nat)
    requires Kept(g, s) && MayEnd(s, y, kept) && x < |s.txs| && TxMarked(s, x)
    ensures TxMarked(Ended(g, s, y, kept), x)
  {
    hide RowCounts, EdgeKept, RowSettled, OwesEdges;
    var s' := Ended(g, s, y, kept);
    forall j, state: RowState | 0 <= j < |g| && (state.Finished? || state.Failed?) && x != y && Sees(s, x, j, state)
      ensures Sees(s', x, j, state)
    {
      assert RowLocks(s, j);
    }
    if x != y && s.txs[x].sawFailed {
      var j :| 0 <= j < |s.rows| && Sees(s, x, j, Failed);
      assert Sees(s', x, j, Failed);
    }
  }

  /** Ending marks the build as the transaction found it, and that is how the build then is. */
  lemma EndMarks(g: seq<GraphTask>, s: State, y: nat, kept: bool)
    requires Kept(g, s) && MayEnd(s, y, kept) && Marked(g, s)
    ensures var s' := Ended(g, s, y, kept); (s'.done ==> AllFinished(s'.base)) && (s'.broken <==> SomeFailed(s'.base))
  {
    hide RowCounts, EdgeKept, RowSettled, OwesEdges;
    var s' := Ended(g, s, y, kept);
    assert TxMarked(s, y);
    forall j | 0 <= j < |g|
      ensures s.base[j].state.Finished? || s.base[j].state.Failed? ==> s'.base[j] == s.base[j]
      ensures kept && Sees(s, y, j, Finished) ==> s'.base[j].state.Finished?
      ensures kept && Sees(s, y, j, Failed) ==> s'.base[j].state.Failed?
      ensures s'.base[j].state.Failed? ==>
                s.base[j].state.Failed? || (kept && s.rows[j].state.Failed? && s.holder[j] == Some(y))
    {
      assert RowLocks(s, j);
    }
    if s'.broken {
      if s.broken {
        var j :| 0 <= j < |g| && s.base[j].state.Failed?;
        assert s'.base[j].state.Failed?;
      } else {
        var j :| 0 <= j < |g| && Sees(s, y, j, Failed);
        assert s'.base[j].state.Failed?;
      }
    }
  }

  lemma CheckMarks(g: seq<GraphTask>, s: State, x: nat, z: int, s': State, y: nat)
    requires Kept(g, s) && Steps(g, s, Check(x, z), s') && Fits(g, s') && y < |s.txs| && TxMarked(s, y)
    ensures TxMarked(s', y)
  {
    hide Kept;
    assert forall j, state :: 0 <= j < |g| ==> Sees(s', y, j, state) == Sees(s, y, j, state);
    if s'.txs[y].sawFailed {
      assert SeesFailed(s, y);
      var j :| 0 <= j < |s.rows| && Sees(s, y, j, Failed);
      assert Sees(s', y, j, Failed);
    }
  }

  lemma StepMarks(g: seq<GraphTask>, s: State, a: Action, s': State)
    requires Kept(g, s) && Steps(g, s, a, s') && DepsMatch(g) && Marked(g, s) && Fits(g, s')
    ensures Marked(g, s')
  {
    hide RowCounts, EdgeKept, RowSettled, RowLocks, TxMarked, Settled;
    forall x | 0 <= x < |s.txs| ensures TxMarked(s', x) {
      assert TxMarked(s, x);
      match a
      case Complete(y, i) => WriteKeepsMarks(g, s, y, i, s', x);
      case Fail(y, i) => WriteKeepsMarks(g, s, y, i, s', x) by { if x == y { assert s.txs[y] == IDLE; } }
      case CountDown(y, d, t, hit) => OwedWaits(g, s, y, d, t); WriteKeepsMarks(g, s, y, t, s', x);
      case Check(y, z) => CheckMarks(g, s, y, z, s', x);
      case Commit(y) => EndKeepsMarks(g, s, y, true, x);
      case Abort(y) => EndKeepsMarks(g, s, y, false, x);
    }
    if a.Commit? { EndMarks(g, s, a.x, true); }
    if a.Abort? { EndMarks(g, s, a.x, false); }
  }

  lemma {:induction false} HistoryMarks(g: seq<GraphTask>, h: History, k: nat)
    requires IsHistory(g, h) && DepsMatch(g) && k < |h.states|
    ensures Kept(g, h.states[k]) && Marked(g, h.states[k])
    decreases k
  {
    hide Kept, Marked;
    HistoryKeeps(g, h, k);
    if k == 0 {
      StartIsMarked(g, h.states[0]);
    } else {
      HistoryMarks(g, h, k - 1);
      assert StepAt(g, h, k - 1);
      FitsKept(g, h.states[k]);
      StepMarks(g, h.states[k - 1], h.actions[k - 1], h.states[k]);
    }
  }

  lemma FitsKept(g: seq<GraphTask>, s: State)
    requires Kept(g, s)
    ensures Fits(g, s)
  {
  }

  lemma StartIsMarked(g: seq<GraphTask>, s: State)
    requires IsStart(g, s)
    ensures Fits(g, s) && Marked(g, s)
  {
  }

  /** Whatever overlaps: a build marked as done is done, and it is marked as failed exactly when a task has failed. */
  lemma MarksAreTrue(g: seq<GraphTask>, h: History, k: nat)
    requires IsHistory(g, h) && DepsMatch(g) && k < |h.states|
    ensures h.states[k].done ==> AllFinished(h.states[k].base)
    ensures h.states[k].broken <==> SomeFailed(h.states[k].base)
  {
    HistoryMarks(g, h, k);
  }
}
