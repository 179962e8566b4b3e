/**
  What every action of overlapping transactions keeps: a changed row is locked by one of them, an edge is owed by the
  one that locks its finished end, and a count misses just the finished dependencies that are owed, for those who look
  after the end of a transaction as for those who look before it.
 */
module Locks {
  import opened Wrappers
  import opened Graphs
  import opened Transactions

  predicate IsOwed(s: State, d: int, t: int) { exists x :: 0 <= x < |s.txs| && (d, t) in s.txs[x].owed }

  /** The dependencies of t that its count, with all uncommitted changes, still holds. */
  ghost function Uncounted(g: seq<GraphTask>, s: State, t: int): set<int>
    requires Fits(g, s) && 0 <= t < |g|
  {
    set d | d in g[t].deps && 0 <= d < |g| && (!s.rows[d].state.Finished? || IsOwed(s, d, t))
  }

  ghost predicate RowCounts(g: seq<GraphTask>, s: State, t: int)
    requires Fits(g, s) && 0 <= t < |g|
  {
    s.rows[t].pending == |Uncounted(g, s, t)| && (s.rows[t].state.Waiting? <==> s.rows[t].pending > 0)
  }

  /** What a lock on row i says: it is not lost, and a finished row was finished by the one who locks it. */
  predicate RowLocks(s: State, i: int)
    requires 0 <= i < |s.rows| == |s.base| == |s.holder|
  {
    && (s.holder[i] == None ==> s.rows[i] == s.base[i])
    && (s.base[i].state.Finished? || s.base[i].state.Failed? ==> s.holder[i] == None)
    && (!s.base[i].state.Waiting? ==> !s.rows[i].state.Waiting?)
  }

  /**
    An edge is owed by the transaction that locks its finished end; once it is paid, that one locks the other end too.
   */
  predicate EdgeKept(s: State, d: int, t: int)
    requires 0 <= d < |s.rows| == |s.base| == |s.holder| && 0 <= t < |s.rows|
  {
    && (forall x :: 0 <= x < |s.txs| && (d, t) in s.txs[x].owed ==> s.rows[d].state.Finished? && s.holder[d] == Some(x))
    && (s.rows[d].state.Finished? && s.holder[d].Some? && s.holder[d].value < |s.txs| ==>
          (d, t) in s.txs[s.holder[d].value].owed || s.holder[t] == s.holder[d])
  }

  ghost predicate OwesEdges(g: seq<GraphTask>, tx: Tx) { forall d, t :: (d, t) in tx.owed ==> IsEdge(g, d, t) }

  ghost predicate Kept(g: seq<GraphTask>, s: State) {
    && Fits(g, s) && Settled(g, s.base)
    && (forall i :: 0 <= i < |g| ==> RowLocks(s, i))
    && (forall t :: 0 <= t < |g| ==> RowCounts(g, s, t))
    && (forall d, t :: IsEdge(g, d, t) ==> EdgeKept(s, d, t))
    && (forall x :: 0 <= x < |s.txs| ==> OwesEdges(g, s.txs[x]))
  }

  lemma StartIsKept(g: seq<GraphTask>, s: State)
    requires IsStart(g, s)
    ensures Kept(g, s)
  {
    forall t | 0 <= t < |g| ensures RowCounts(g, s, t) {
      assert RowSettled(g, s.base, t);
      assert Uncounted(g, s, t) == Open(g, s.base, t);
    }
  }

  /** The count of t holds the same dependencies when each is unfinished or owed as before. */
  lemma SameUncounted(g: seq<GraphTask>, s: State, s': State, t: int)
    requires Fits(g, s) && Fits(g, s') && 0 <= t < |g|
    requires forall d :: IsEdge(g, d, t) ==> (IsCounted(s, d, t) <==> IsCounted(s', d, t))
    ensures Uncounted(g, s', t) == Uncounted(g, s, t)
  {
    assert forall d :: d in g[t].deps && 0 <= d < |g| ==> IsEdge(g, d, t);
  }

  predicate IsCounted(s: State, d: int, t: int)
    requires 0 <= d < |s.rows|
  {
    s.rows[d].state.Finished? && !IsOwed(s, d, t)
  }

  /** s' is s but for row i, which x wrote, and the transaction x. */
  predicate Wrote(g: seq<GraphTask>, s: State, x: nat, i: int, row: Row, tx: Tx, s': State) {
    Fits(g, s) && x < |s.txs| && 0 <= i < |g| && Free(s, x, i) && s' == Written(s, x, i, row, tx)
  }

  /** A row that was neither finished nor failed may be written by whoever may lock it. */
  lemma WrittenLocks(g: seq<GraphTask>, s: State, x: nat, i: int, row: Row, tx: Tx, s': State)
    requires Kept(g, s) && Wrote(g, s, x, i, row, tx, s')
    requires !s.rows[i].state.Finished? && !s.rows[i].state.Failed? && (row.state.Waiting? ==> s.rows[i].state.Waiting?)
    ensures Fits(g, s') && Settled(g, s'.base) && forall j :: 0 <= j < |g| ==> RowLocks(s', j)
  {
    hide RowCounts, EdgeKept, OwesEdges, Settled;
    assert RowLocks(s, i);
    forall j | 0 <= j < |g| ensures RowLocks(s', j) {
      assert RowLocks(s, j);
    }
  }

  // ---- a task gets its output

  predicate Finishes(g: seq<GraphTask>, s: State, x: nat, i: int, s': State) {
    x < |s.txs| && 0 <= i < |s.rows| && s.rows[i].state.Unfinished?
    && Wrote(g, s, x, i, s.rows[i].(state := Finished), Finishing(g, s.txs[x], i), s')
  }

  lemma FinishKeepsEdge(g: seq<GraphTask>, s: State, x: nat, i: int, s': State, d: int, t: int)
    requires Kept(g, s) && Finishes(g, s, x, i, s') && Fits(g, s') && IsEdge(g, d, t)
    ensures EdgeKept(s', d, t)
    ensures IsCounted(s, d, t) <==> IsCounted(s', d, t)
  {
    hide RowCounts, RowLocks, RowSettled;
    assert EdgeKept(s, d, t);
    forall y | 0 <= y < |s.txs| ensures (d, t) in s'.txs[y].owed <==> (d, t) in s.txs[y].owed || (y == x && d == i) {
    }
  }

  lemma FinishKeeps(g: seq<GraphTask>, s: State, x: nat, i: int, s': State)
    requires Kept(g, s) && Finishes(g, s, x, i, s')
    ensures Kept(g, s')
  {
    hide EdgeKept, RowLocks, RowSettled, IsCounted;
    WrittenLocks(g, s, x, i, s.rows[i].(state := Finished), Finishing(g, s.txs[x], i), s');
    assert RowCounts(g, s, i);
    forall d, t | IsEdge(g, d, t) ensures EdgeKept(s', d, t) && (IsCounted(s, d, t) <==> IsCounted(s', d, t)) {
      FinishKeepsEdge(g, s, x, i, s', d, t);
    }
    forall t | 0 <= t < |g| ensures RowCounts(g, s', t) {
      assert RowCounts(g, s, t);
      SameUncounted(g, s, s', t);
    }
  }

  // ---- a dependent is counted down

  predicate Counts(g: seq<GraphTask>, s: State, x: nat, d: int, t: int, s': State) {
    x < |s.txs| && 0 <= d < |s.rows| && 0 <= t < |s.rows| && (d, t) in s.txs[x].owed
    && Wrote(g, s, x, t, CountedDown(s.rows[t], false), s.txs[x].(owed := s.txs[x].owed - {(d, t)}), s')
  }

  /** The row waits while it is owed a count. */
  lemma OwedWaits(g: seq<GraphTask>, s: State, x: nat, d: int, t: int)
    requires Kept(g, s) && 0 <= x < |s.txs| && (d, t) in s.txs[x].owed
    ensures IsEdge(g, d, t) && d in Uncounted(g, s, t) && s.rows[t].state.Waiting? && s.rows[t].pending > 0
  {
    hide EdgeKept, RowLocks, RowSettled;
    assert OwesEdges(g, s.txs[x]) && RowCounts(g, s, t);
    assert IsOwed(s, d, t);
  }

  lemma CountKeepsEdge(g: seq<GraphTask>, s: State, x: nat, d: int, t: int, s': State, e: int, u: int)
    requires Kept(g, s) && Counts(g, s, x, d, t, s') && IsEdge(g, d, t) && d != t && s.rows[t].state.Waiting?
             && IsEdge(g, e, u)
    ensures EdgeKept(s', e, u)
    ensures (e, u) != (d, t) ==> (IsCounted(s, e, u) <==> IsCounted(s', e, u))
    ensures IsCounted(s', d, t) && !IsCounted(s, d, t)
  {
    hide RowCounts, RowLocks, RowSettled;
    assert EdgeKept(s, e, u) && EdgeKept(s, d, t);
    assert IsOwed(s, d, t);
    forall y | 0 <= y < |s.txs|
      ensures (e, u) in s'.txs[y].owed <==> (e, u) in s.txs[y].owed && ((e, u) != (d, t) || y != x)
    {
    }
  }

  lemma CountKeepsCount(g: seq<GraphTask>, s: State, x: nat, d: int, t: int, s': State)
    requires Kept(g, s) && Counts(g, s, x, d, t, s') && DepsMatch(g) && Fits(g, s')
    requires forall e, u :: IsEdge(g, e, u) && (e, u) != (d, t) ==> (IsCounted(s, e, u) <==> IsCounted(s', e, u))
    requires IsCounted(s', d, t)
    ensures RowCounts(g, s', t)
  {
    hide EdgeKept, RowLocks, RowSettled;
    OwedWaits(g, s, x, d, t);
    assert RowCounts(g, s, t);
    assert Uncounted(g, s', t) == Uncounted(g, s, t) - {d} by {
      assert forall e :: e in g[t].deps && 0 <= e < |g| ==> IsEdge(g, e, t);
    }
  }

  lemma CountKeeps(g: seq<GraphTask>, s: State, x: nat, d: int, t: int, s': State)
    requires Kept(g, s) && Counts(g, s, x, d, t, s') && DepsMatch(g)
    ensures Kept(g, s') && s.rows[t].state.Waiting?
  {
    hide EdgeKept, RowLocks, RowSettled, IsCounted;
    OwedWaits(g, s, x, d, t);
    assert GoodDep(g, t, d);
    WrittenLocks(g, s, x, t, CountedDown(s.rows[t], false), s.txs[x].(owed := s.txs[x].owed - {(d, t)}), s');
    forall e, u | IsEdge(g, e, u)
      ensures EdgeKept(s', e, u)
      ensures (e, u) != (d, t) ==> (IsCounted(s, e, u) <==> IsCounted(s', e, u))
      ensures IsCounted(s', d, t)
    {
      CountKeepsEdge(g, s, x, d, t, s', e, u);
    }
    forall u | 0 <= u < |g| ensures RowCounts(g, s', u) {
      if u == t {
        CountKeepsCount(g, s, x, d, t, s');
      } else {
        assert RowCounts(g, s, u);
        SameUncounted(g, s, s', u);
      }
    }
    assert OwesEdges(g, s.txs[x]);
  }

  // ---- the other steps

  lemma FailKeeps(g: seq<GraphTask>, s: State, x: nat, i: int, s': State)
    requires Kept(g, s) && Fits(g, s) && Steps(g, s, Fail(x, i), s')
    ensures Kept(g, s')
  {
    hide RowLocks, RowSettled;
    WrittenLocks(g, s, x, i, s.rows[i].(state := Failed), IDLE.(sawFailed := true), s');
    forall d, t | IsEdge(g, d, t) ensures EdgeKept(s', d, t) && (IsCounted(s, d, t) <==> IsCounted(s', d, t)) {
      assert EdgeKept(s, d, t);
    }
    forall t | 0 <= t < |g| ensures RowCounts(g, s', t) {
      assert RowCounts(g, s, t);
      SameUncounted(g, s, s', t);
    }
  }

  lemma CheckKeeps(g: seq<GraphTask>, s: State, x: nat, z: int, s': State)
    requires Kept(g, s) && Fits(g, s) && Steps(g, s, Check(x, z), s')
    ensures Kept(g, s')
  {
    hide RowSettled;
    forall i | 0 <= i < |g| ensures RowLocks(s', i) { assert RowLocks(s, i); }
    forall d, t | IsEdge(g, d, t) ensures EdgeKept(s', d, t) && (IsCounted(s, d, t) <==> IsCounted(s', d, t)) {
      assert EdgeKept(s, d, t);
    }
    forall t | 0 <= t < |g| ensures RowCounts(g, s', t) {
      assert RowCounts(g, s, t);
      SameUncounted(g, s, s', t);
    }
  }

  /** Transaction x may end so: with nothing left to do, or undoing everything. */
  predicate MayEnd(s: State, x: nat, kept: bool) {
    x < |s.txs| && (kept ==> s.txs[x].owed == {} && s.txs[x].unchecked == {})
  }

  lemma EndKeepsRow(g: seq<GraphTask>, s: State, x: nat, kept: bool, i: int)
    requires Kept(g, s) && MayEnd(s, x, kept) && 0 <= i < |g|
    ensures var s' := Ended(g, s, x, kept);
            RowLocks(s', i) && (s.base[i].state.Finished? ==> s'.base[i] == s.base[i])
  {
    hide RowCounts, EdgeKept, RowSettled, OwesEdges;
    assert RowLocks(s, i);
  }

  /**
    A dependency is finished and counted, for those who look after the end, when it was for x, or for those who looked
    before.
   */
  lemma EndKeepsEdge(g: seq<GraphTask>, s: State, x: nat, kept: bool, d: int, t: int)
    requires Kept(g, s) && MayEnd(s, x, kept) && IsEdge(g, d, t)
    ensures EdgeKept(Ended(g, s, x, kept), d, t)
    ensures var s' := Ended(g, s, x, kept);
            if s.holder[t] == Some(x) then
              if kept then IsCounted(s', d, t) == IsCounted(s, d, t) && s'.base[d].state.Finished? == IsCounted(s, d, t)
              else IsCounted(s', d, t) == s.base[d].state.Finished?
            else IsCounted(s', d, t) == IsCounted(s, d, t) && s'.base[d].state.Finished? == s.base[d].state.Finished?
  {
    hide RowCounts, RowSettled, OwesEdges;
    assert EdgeKept(s, d, t) && RowLocks(s, d) && RowLocks(s, t);
    var s' := Ended(g, s, x, kept);
    forall y | 0 <= y < |s.txs| ensures (d, t) in s'.txs[y].owed <==> y != x && (d, t) in s.txs[y].owed {
    }
    if s.rows[d].state.Finished? && s.holder[d].Some? {
      assert s.holder[d].value < |s.txs|;
    }
  }

  /** The counts of t come out when x ends. */
  lemma EndKeepsCounts(g: seq<GraphTask>, s: State, x: nat, kept: bool, t: int)
    requires Kept(g, s) && MayEnd(s, x, kept) && 0 <= t < |g|
    ensures Fits(g, Ended(g, s, x, kept)) && RowCounts(g, Ended(g, s, x, kept), t)
    ensures RowSettled(g, Ended(g, s, x, kept).base, t)
  {
    hide EdgeKept, RowLocks, IsCounted, OwesEdges;
    var s' := Ended(g, s, x, kept);
    assert RowCounts(g, s, t) && RowSettled(g, s.base, t);
    forall d | IsEdge(g, d, t)
      ensures if s.holder[t] == Some(x) then
                if kept then IsCounted(s', d, t) == IsCounted(s, d, t)
                  && s'.base[d].state.Finished? == IsCounted(s, d, t)
                else IsCounted(s', d, t) == s.base[d].state.Finished?
              else IsCounted(s', d, t) == IsCounted(s, d, t) && s'.base[d].state.Finished? == s.base[d].state.Finished?
    {
      EndKeepsEdge(g, s, x, kept, d, t);
    }
    if s.holder[t] == Some(x) && kept {
      SameUncounted(g, s, s', t);
      SameOpen(g, s, s'.base, t);
    } else if s.holder[t] == Some(x) {
      SameOpen(g, s', s.base, t);
      assert s'.base == s.base;
    } else {
      SameUncounted(g, s, s', t);
      assert Open(g, s'.base, t) == Open(g, s.base, t) by {
        assert forall d :: d in g[t].deps && 0 <= d < |g| ==> IsEdge(g, d, t);
      }
    }
  }

  lemma SameOpen(g: seq<GraphTask>, s: State, base: seq<Row>, t: int)
    requires Fits(g, s) && |base| == |g| && 0 <= t < |g|
    requires forall d :: IsEdge(g, d, t) ==> (IsCounted(s, d, t) <==> base[d].state.Finished?)
    ensures Open(g, base, t) == Uncounted(g, s, t)
  {
    assert forall d :: d in g[t].deps && 0 <= d < |g| ==> IsEdge(g, d, t);
  }

  lemma EndKeeps(g: seq<GraphTask>, s: State, x: nat, kept: bool)
    requires Kept(g, s) && MayEnd(s, x, kept)
    ensures Kept(g, Ended(g, s, x, kept))
  {
    hide RowCounts, EdgeKept, RowLocks, RowSettled;
    var s' := Ended(g, s, x, kept);
    forall i | 0 <= i < |g| ensures RowLocks(s', i) { EndKeepsRow(g, s, x, kept, i); }
    forall d, t | IsEdge(g, d, t) ensures EdgeKept(s', d, t) { EndKeepsEdge(g, s, x, kept, d, t); }
    forall t | 0 <= t < |g|
      ensures RowCounts(g, s', t) && RowSettled(g, s'.base, t)
    {
      EndKeepsCounts(g, s, x, kept, t);
    }
  }

  // ---- any step

  /** A hit is a count-down that makes the task claimable, and the cache finishing it at once. */
  lemma HitIsCountThenFinish(g: seq<GraphTask>, s: State, x: nat, d: int, t: int, hit: bool, s': State)
    returns (mid: State)
    requires Kept(g, s) && Steps(g, s, CountDown(x, d, t, hit), s') && DepsMatch(g)
    ensures Counts(g, s, x, d, t, mid) && Kept(g, mid)
    ensures s' == mid || Finishes(g, mid, x, t, s')
  {
    hide RowCounts, EdgeKept, RowLocks, RowSettled, Settled;
    OwedWaits(g, s, x, d, t);
    mid := Written(s, x, t, CountedDown(s.rows[t], false), s.txs[x].(owed := s.txs[x].owed - {(d, t)}));
    assert Counts(g, s, x, d, t, mid);
    CountKeeps(g, s, x, d, t, mid);
    if s.rows[t].pending == 1 && hit {
      var tx := Finishing(g, s.txs[x].(owed := s.txs[x].owed - {(d, t)}), t);
      assert s' == Written(mid, x, t, mid.rows[t].(state := Finished), tx);
    }
  }

  lemma StepKeeps(g: seq<GraphTask>, s: State, a: Action, s': State)
    requires Kept(g, s) && Fits(g, s) && Steps(g, s, a, s') && DepsMatch(g)
    ensures Kept(g, s')
  {
    hide RowCounts, EdgeKept, RowLocks, RowSettled, OwesEdges, Settled;
    match a
    case Complete(x, i) => FinishKeeps(g, s, x, i, s');
    case Fail(x, i) => FailKeeps(g, s, x, i, s');
    case CountDown(x, d, t, hit) =>
      var mid := HitIsCountThenFinish(g, s, x, d, t, hit, s');
      if s' != mid { FinishKeeps(g, mid, x, t, s'); }
    case Check(x, z) => CheckKeeps(g, s, x, z, s');
    case Commit(x) => EndKeeps(g, s, x, true);
    case Abort(x) => EndKeeps(g, s, x, false);
  }

  lemma {:induction false} HistoryKeeps(g: seq<GraphTask>, h: History, k: nat)
    requires IsHistory(g, h) && DepsMatch(g) && k < |h.states|
    ensures Kept(g, h.states[k])
    decreases k
  {
    hide Kept;
    if k == 0 {
      StartIsKept(g, h.states[0]);
    } else {
      HistoryKeeps(g, h, k - 1);
      assert StepAt(g, h, k - 1);
      StepKeeps(g, h.states[k - 1], h.actions[k - 1], h.states[k]);
    }
  }
}
