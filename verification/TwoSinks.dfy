/**
  A history that overlooks the end, for any graph with two sinks: all the rest runs alone, then the two sinks complete
  in transactions that overlap, each looks before the other commits, and both see an unfinished task.
 */
module TwoSinks {
  import opened Wrappers
  import opened Graphs
  import opened Transactions
  import opened Locks
  import opened BuildMarks

  function Top(r: seq<nat>): (t: nat)
    ensures forall i :: 0 <= i < |r| ==> r[i] <= t
  {
    if r == [] then 0
    else
      var t := Top(r[..|r| - 1]);
      if r[|r| - 1] > t then r[|r| - 1] else t
  }

  lemma {:induction false} SinkAbove(g: seq<GraphTask>, r: seq<nat>, i: int) returns (z: int)
    requires IsRanking(g, r) && 0 <= i < |g|
    ensures IsSink(g, z)
    decreases Top(r) - r[i]
  {
    if IsSink(g, i) {
      z := i;
    } else {
      var k :| 0 <= k < |g| && i in g[k].deps;
      z := SinkAbove(g, r, k);
    }
  }

  function Last(h: History): State
    requires h.states != []
  {
    h.states[|h.states| - 1]
  }

  function Then(h: History, a: Action, s: State): History { History(h.states + [s], h.actions + [a]) }

  lemma ThenIsHistory(g: seq<GraphTask>, h: History, a: Action, s: State)
    requires IsHistory(g, h) && Fits(g, Last(h)) && Steps(g, Last(h), a, s)
    ensures IsHistory(g, Then(h, a, s)) && Last(Then(h, a, s)) == s
  {
    hide Steps, IsStart;
    var h' := Then(h, a, s);
    forall k | 0 <= k < |h'.actions| ensures StepAt(g, h', k) {
      if k < |h.actions| { assert StepAt(g, h, k); }
    }
  }

  /**
    No transaction is under way, of the two there are; some tasks, but none of a and b, are finished, and none has
    failed.
   */
  ghost predicate Quiet(g: seq<GraphTask>, s: State, finished: set<int>) {
    && Fits(g, s) && s.txs == [IDLE, IDLE] && (forall i :: 0 <= i < |g| ==> s.holder[i] == None)
    && forall i :: 0 <= i < |g| ==> !s.rows[i].state.Failed? && (s.rows[i].state.Finished? <==> i in finished)
  }

  /** The first connection completes a task; nothing else is under way, and the cache has nothing. */
  ghost predicate Alone(g: seq<GraphTask>, s: State, finished: set<int>) {
    && Fits(g, s) && |s.txs| == 2 && s.txs[1] == IDLE && !s.txs[0].sawFailed
    && (forall i :: 0 <= i < |g| ==> s.holder[i] == None || s.holder[i] == Some(0))
    && forall i :: 0 <= i < |g| ==> !s.rows[i].state.Failed? && (s.rows[i].state.Finished? <==> i in finished)
  }

  lemma AloneCountsOne(g: seq<GraphTask>, h: History, finished: set<int>, d: int, t: int) returns (h': History)
    requires IsHistory(g, h) && DepsMatch(g) && Alone(g, Last(h), finished) && (d, t) in Last(h).txs[0].owed
    ensures IsHistory(g, h') && Alone(g, Last(h'), finished)
    ensures Last(h').txs[0] == Last(h).txs[0].(owed := Last(h).txs[0].owed - {(d, t)})
  {
    hide RowCounts, EdgeKept, RowSettled, RowLocks;
    var s := Last(h);
    HistoryKeeps(g, h, |h.states| - 1);
    OwedWaits(g, s, 0, d, t);
    var s' := Written(s, 0, t, CountedDown(s.rows[t], false), s.txs[0].(owed := s.txs[0].owed - {(d, t)}));
    assert Steps(g, s, CountDown(0, d, t, false), s');
    ThenIsHistory(g, h, CountDown(0, d, t, false), s');
    h' := Then(h, CountDown(0, d, t, false), s');
  }

  lemma {:induction false} AloneCountsAll(g: seq<GraphTask>, h: History, finished: set<int>) returns (h': History)
    requires IsHistory(g, h) && DepsMatch(g) && Alone(g, Last(h), finished)
    ensures IsHistory(g, h') && Alone(g, Last(h'), finished) && Last(h').txs[0] == Last(h).txs[0].(owed := {})
    decreases |Last(h).txs[0].owed|
  {
    hide IsStart, StepAt;
    if Last(h).txs[0].owed == {} {
      h' := h;
    } else {
      var edge := Any(Last(h).txs[0].owed);
      var mid := AloneCountsOne(g, h, finished, edge.0, edge.1);
      h' := AloneCountsAll(g, mid, finished);
    }
  }

  ghost function Any<T>(s: set<T>): (x: T)
    requires s != {}
    ensures x in s
  {
    var x :| x in s;
    x
  }

  predicate MayRun(g: seq<GraphTask>, s: State, i: int) { 0 <= i < |g| == |s.rows| && s.rows[i].state.Unfinished? }

  /** One transaction completes task i, with nothing else under way. */
  lemma RunsAlone(g: seq<GraphTask>, h: History, finished: set<int>, i: int) returns (h': History)
    requires IsHistory(g, h) && DepsMatch(g) && Quiet(g, Last(h), finished) && MayRun(g, Last(h), i)
    ensures IsHistory(g, h') && Quiet(g, Last(h'), finished + {i})
  {
    hide RowCounts, EdgeKept, RowSettled, IsStart, StepAt;
    var s := Last(h);
    var s1 := Written(s, 0, i, s.rows[i].(state := Finished), Finishing(g, IDLE, i));
    assert Steps(g, s, Complete(0, i), s1);
    ThenIsHistory(g, h, Complete(0, i), s1);
    var h1 := Then(h, Complete(0, i), s1);
    assert Alone(g, s1, finished + {i});
    var h2 := AloneCountsAll(g, h1, finished + {i});
    var h3 := AloneChecks(g, h2, finished + {i}, i);
    h' := AloneCommits(g, h3, finished + {i});
  }

  lemma AloneChecks(g: seq<GraphTask>, h: History, finished: set<int>, i: int) returns (h': History)
    requires IsHistory(g, h) && Alone(g, Last(h), finished) && Last(h).txs[0].owed == {}
             && Last(h).txs[0].unchecked <= {i}
    ensures IsHistory(g, h') && Alone(g, Last(h'), finished) && Last(h').txs[0].owed == {}
            && Last(h').txs[0].unchecked == {}
  {
    hide IsStart, StepAt;
    var s := Last(h);
    if s.txs[0].unchecked == {} {
      h' := h;
    } else {
      assert i in s.txs[0].unchecked;
      assert !SeesFailed(s, 0);
      var tx := s.txs[0];
      var tx' := tx.(unchecked := tx.unchecked - {i}, sawDone := tx.sawDone || SeesAllFinished(s, 0));
      var s' := s.(txs := s.txs[0 := tx']);
      assert Steps(g, s, Check(0, i), s');
      ThenIsHistory(g, h, Check(0, i), s');
      h' := Then(h, Check(0, i), s');
    }
  }

  lemma AloneCommits(g: seq<GraphTask>, h: History, finished: set<int>) returns (h': History)
    requires IsHistory(g, h) && Alone(g, Last(h), finished) && Last(h).txs[0].owed == {}
             && Last(h).txs[0].unchecked == {}
    ensures IsHistory(g, h') && Quiet(g, Last(h'), finished)
  {
    hide IsStart, StepAt;
    var s := Last(h);
    var s' := Ended(g, s, 0, true);
    assert Steps(g, s, Commit(0), s');
    ThenIsHistory(g, h, Commit(0), s');
    h' := Then(h, Commit(0), s');
    assert s'.txs == [IDLE, IDLE];
  }

  /** Some task that is neither finished nor one of two sinks may run. */
  lemma {:induction false} NextToRun(g: seq<GraphTask>, r: seq<nat>, s: State, finished: set<int>, a: int, b: int,
                                     i: int)
    returns (t: int)
    requires IsRanking(g, r) && DepsMatch(g) && Kept(g, s) && Quiet(g, s, finished) && IsSink(g, a) && IsSink(g, b)
    requires 0 <= i < |g| && i !in finished && i != a && i != b
    ensures MayRun(g, s, t) && t !in finished && t != a && t != b
    decreases r[i]
  {
    hide Kept;
    if s.rows[i].state.Waiting? {
      var d := WaitsForSome(g, s, i);
      assert !s.rows[d].state.Finished?;
      NotASink(g, d, i);
      t := NextToRun(g, r, s, finished, a, b, d);
    } else {
      t := i;
    }
  }

  lemma NotASink(g: seq<GraphTask>, d: int, i: int)
    requires IsEdge(g, d, i)
    ensures !IsSink(g, d)
  {
  }

  lemma WaitsForSome(g: seq<GraphTask>, s: State, i: int) returns (d: int)
    requires Kept(g, s) && 0 <= i < |g| && s.rows[i].state.Waiting? && forall x :: 0 <= x < |s.txs| ==> s.txs[x] == IDLE
    ensures IsEdge(g, d, i) && !s.rows[d].state.Finished?
  {
    assert RowCounts(g, s, i);
    d := Any(Uncounted(g, s, i));
  }

  ghost function StartRows(g: seq<GraphTask>): seq<Row> {
    seq(|g|, t requires 0 <= t < |g| => Row(if InGraph(g, t) == {} then Unfinished else Waiting, |InGraph(g, t)|))
  }

  function InGraph(g: seq<GraphTask>, t: int): set<int>
    requires 0 <= t < |g|
  {
    set d | d in g[t].deps && 0 <= d < |g|
  }

  ghost function Start(g: seq<GraphTask>): State {
    State(StartRows(g), StartRows(g), seq(|g|, _ => None), [IDLE, IDLE], false, false)
  }

  lemma StartIsStart(g: seq<GraphTask>)
    requires g != []
    ensures IsStart(g, Start(g)) && Quiet(g, Start(g), {})
  {
    var rows := StartRows(g);
    forall t | 0 <= t < |g| ensures RowSettled(g, rows, t) {
      assert Open(g, rows, t) == InGraph(g, t);
    }
    assert !rows[0].state.Finished?;
    assert [IDLE, IDLE] == seq(2, _ => IDLE);
  }

  function Rest(g: seq<GraphTask>, finished: set<int>, a: int, b: int): set<int> {
    set i | 0 <= i < |g| && i !in finished && i != a && i != b
  }

  /** Everything but two sinks runs, one task after the other. */
  lemma {:induction false} OthersRun(g: seq<GraphTask>, h: History, finished: set<int>, a: int, b: int)
    returns (h': History, all: set<int>)
    requires IsHistory(g, h) && DepsMatch(g) && Acyclic(g) && IsSink(g, a) && IsSink(g, b)
    requires Quiet(g, Last(h), finished) && a !in finished && b !in finished
    ensures IsHistory(g, h') && Quiet(g, Last(h'), all) && a !in all && b !in all && Rest(g, all, a, b) == {}
    decreases Rest(g, finished, a, b)
  {
    hide IsStart, StepAt;
    if Rest(g, finished, a, b) == {} {
      h', all := h, finished;
    } else {
      var i := Any(Rest(g, finished, a, b));
      HistoryKeeps(g, h, |h.states| - 1);
      var t := NextToRun(g, RankOf(g), Last(h), finished, a, b, i);
      var mid := RunsAlone(g, h, finished, t);
      assert t in Rest(g, finished, a, b) && Rest(g, finished + {t}, a, b) <= Rest(g, finished, a, b) - {t};
      h', all := OthersRun(g, mid, finished + {t}, a, b);
    }
  }

  lemma NoEdgesFromSink(g: seq<GraphTask>, z: int)
    requires IsSink(g, z)
    ensures Finishing(g, IDLE, z) == Tx({}, {z}, false, false)
  {
    assert forall t :: 0 <= t < |g| ==> !IsEdge(g, z, t);
  }

  /** Each of two transactions has completed a sink, and neither has committed. */
  predicate Overlap(g: seq<GraphTask>, s: State, all: set<int>, a: int, b: int) {
    && Fits(g, s) && |s.txs| == 2 && !s.done && 0 <= a < |g| && 0 <= b < |g| && a != b && a !in all && b !in all
    && s.holder[a] == Some(0) && s.holder[b] == Some(1)
    && (forall i :: 0 <= i < |g| && i != a && i != b ==> s.holder[i] == None)
    && forall i :: 0 <= i < |g| ==>
         && (s.base[i].state.Finished? <==> i in all) && (s.rows[i].state.Finished? <==> i in all || i == a || i == b)
         && !s.rows[i].state.Failed? && !s.base[i].state.Failed? && (s.holder[i] == None ==> s.rows[i] == s.base[i])
  }

  lemma BothComplete(g: seq<GraphTask>, h: History, all: set<int>, a: int, b: int) returns (h': History)
    requires IsHistory(g, h) && DepsMatch(g) && IsSink(g, a) && IsSink(g, b) && a != b && !Last(h).done
    requires Quiet(g, Last(h), all) && MayRun(g, Last(h), a) && MayRun(g, Last(h), b)
    ensures IsHistory(g, h') && Overlap(g, Last(h'), all, a, b)
    ensures Last(h').txs == [Tx({}, {a}, false, false), Tx({}, {b}, false, false)]
  {
    hide IsStart, StepAt, IsSink;
    var s0 := Last(h);
    HistoryKeeps(g, h, |h.states| - 1);
    forall i | 0 <= i < |g| ensures s0.rows[i] == s0.base[i] && s0.holder[i] == None { KeptRow(g, s0, i); }
    NoEdgesFromSink(g, a);
    NoEdgesFromSink(g, b);
    var s1 := Written(s0, 0, a, s0.rows[a].(state := Finished), Tx({}, {a}, false, false));
    ThenIsHistory(g, h, Complete(0, a), s1);
    var s2 := Written(s1, 1, b, s1.rows[b].(state := Finished), Tx({}, {b}, false, false));
    ThenIsHistory(g, Then(h, Complete(0, a), s1), Complete(1, b), s2);
    h' := Then(Then(h, Complete(0, a), s1), Complete(1, b), s2);
  }

  /** A check by either finds the other's sink unfinished. */
  lemma OneChecks(g: seq<GraphTask>, h: History, all: set<int>, a: int, b: int, x: nat, z: int) returns (h': History)
    requires IsHistory(g, h) && Overlap(g, Last(h), all, a, b)
    requires x < 2 && z == (if x == 0 then a else b) && Last(h).txs[x] == Tx({}, {z}, false, false)
    ensures IsHistory(g, h') && Overlap(g, Last(h'), all, a, b) && Last(h').txs == Last(h).txs[x := IDLE]
  {
    hide IsStart, StepAt;
    var s := Last(h);
    assert !Sees(s, x, if x == 0 then b else a, Finished) && !SeesFailed(s, x);
    var s' := s.(txs := s.txs[x := IDLE]);
    assert Tx({}, {z}, false, false).(unchecked := {}) == IDLE && {z} - {z} == {};
    assert Steps(g, s, Check(x, z), s');
    ThenIsHistory(g, h, Check(x, z), s');
    h' := Then(h, Check(x, z), s');
  }

  /** Two transactions complete two sinks, and count what is left before either has committed. */
  lemma SinksOverlap(g: seq<GraphTask>, h: History, all: set<int>, a: int, b: int) returns (h': History)
    requires IsHistory(g, h) && DepsMatch(g) && IsSink(g, a) && IsSink(g, b) && a != b && !Last(h).done
    requires Quiet(g, Last(h), all) && MayRun(g, Last(h), a) && MayRun(g, Last(h), b)
    ensures IsHistory(g, h') && !Last(h').done
    ensures |Last(h').base| == |g|
    ensures forall i :: 0 <= i < |g| ==> (Last(h').base[i].state.Finished? <==> i in all || i == a || i == b)
  {
    hide IsStart, StepAt, IsSink;
    var h2 := BothComplete(g, h, all, a, b);
    var h3 := OneChecks(g, h2, all, a, b, 0, a);
    var h4 := OneChecks(g, h3, all, a, b, 1, b);
    assert Last(h4).txs == [IDLE, IDLE];
    h' := BothCommit(g, h4);
  }

  lemma BothCommit(g: seq<GraphTask>, h: History) returns (h': History)
    requires IsHistory(g, h) && Fits(g, Last(h)) && Last(h).txs == [IDLE, IDLE] && !Last(h).done
    requires forall i :: 0 <= i < |g| && Last(h).holder[i] == None ==> Last(h).base[i] == Last(h).rows[i]
    ensures IsHistory(g, h') && !Last(h').done && Last(h').base == Last(h).rows
  {
    hide IsStart, StepAt;
    var s4 := Last(h);
    var s5 := Ended(g, s4, 0, true);
    assert s5.txs == [IDLE, IDLE];
    ThenIsHistory(g, h, Commit(0), s5);
    var h5 := Then(h, Commit(0), s5);
    var s6 := Ended(g, s5, 1, true);
    ThenIsHistory(g, h5, Commit(1), s6);
    h' := Then(h5, Commit(1), s6);
    forall i | 0 <= i < |g| ensures s6.base[i] == s4.rows[i] {
      assert s4.holder[i] == None || s4.holder[i] == Some(0) || s4.holder[i] == Some(1);
    }
  }

  /**
    Two sinks whose transactions overlap each count the other as unfinished: everything finishes and nobody notices.
   */
  lemma Overlooked(g: seq<GraphTask>, a: int, b: int) returns (h: History)
    requires Acyclic(g) && DepsMatch(g) && IsSink(g, a) && IsSink(g, b) && a != b
    ensures IsHistory(g, h) && AllFinished(Last(h).base) && !Last(h).done
  {
    hide StartRows;
    var h0 := History([Start(g)], []);
    StartIsStart(g);
    var h1, all := OthersRun(g, h0, {}, a, b);
    hide IsStart, StepAt;
    HistoryMarks(g, h1, |h1.states| - 1);
    SinkMayRun(g, Last(h1), all, a, b, a);
    SinkMayRun(g, Last(h1), all, a, b, b);
    assert !Last(h1).base[a].state.Finished?;
    h := SinksOverlap(g, h1, all, a, b);
    forall i | 0 <= i < |g| ensures Last(h).base[i].state.Finished? {
      assert i !in Rest(g, all, a, b);
    }
  }

  lemma SinkMayRun(g: seq<GraphTask>, s: State, all: set<int>, a: int, b: int, z: int)
    requires Kept(g, s) && Quiet(g, s, all) && IsSink(g, a) && IsSink(g, b) && Rest(g, all, a, b) == {}
             && 0 <= z < |g| && z !in all
    requires DepsMatch(g)
    ensures MayRun(g, s, z) && s.rows[z] == s.base[z]
  {
    hide Kept;
    KeptRow(g, s, z);
    assert forall i :: 0 <= i < |g| && i != a && i != b ==> i in all by {
      assert forall i :: 0 <= i < |g| && i !in all && i != a && i != b ==> i in Rest(g, all, a, b);
    }
    if s.rows[z].state.Waiting? {
      var d := WaitsForSome(g, s, z);
      NotASink(g, d, z);
      assert false;
    }
  }

  lemma KeptRow(g: seq<GraphTask>, s: State, i: int)
    requires Kept(g, s) && 0 <= i < |g|
    ensures |s.rows| == |s.holder| == |s.base| == |g| && RowLocks(s, i)
  {
  }
}
