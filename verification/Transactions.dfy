/** Overlapping transactions: rows, locks, and what each statement sees. */
module Transactions {
  // A statement sees its own transaction's writes and what others have committed; a row that a transaction changed
  // stays locked until it commits or aborts, and a change that had to wait for the lock is made to the row as it is
  // then. Do the counts still come out, through cascades of cached tasks, and does the check that sinks make still
  // find the end?

  import opened Wrappers
  import opened Graphs

  // ---- rows, locks and transactions

  /** Unfinished stands for ready or running, Finished for done or cached. */
  datatype RowState = Waiting | Unfinished | Finished | Failed

  datatype Row = Row(state: RowState, pending: int)

  /**
    What a transaction still has to do before it can commit, and what it will mark the build as: the dependents it has
    yet to count down, as edges, the sinks it finished without having counted what is left, and what its counts found.
   */
  datatype Tx = Tx(owed: set<(int, int)>, unchecked: set<int>, sawDone: bool, sawFailed: bool)

  const IDLE := Tx({}, {}, false, false)

  /**
    The committed rows; the rows with all uncommitted changes; who locks which; the connections; the marks on the
    build.
   */
  datatype State = State(base: seq<Row>, rows: seq<Row>, holder: seq<Option<nat>>, txs: seq<Tx>, done: bool,
                         broken: bool)

  predicate IsSink(g: seq<GraphTask>, i: int) { 0 <= i < |g| && forall j :: 0 <= j < |g| ==> i !in g[j].deps }

  predicate IsEdge(g: seq<GraphTask>, d: int, t: int) { 0 <= t < |g| && 0 <= d < |g| && d in g[t].deps }

  function Edges(g: seq<GraphTask>, d: int): set<(int, int)> { set t | 0 <= t < |g| && IsEdge(g, d, t) :: (d, t) }

  predicate Fits(g: seq<GraphTask>, s: State) {
    |s.base| == |s.rows| == |s.holder| == |g|
      && forall i :: 0 <= i < |g| && s.holder[i].Some? ==> s.holder[i].value < |s.txs|
  }

  /** Transaction x may lock row i, or has. */
  predicate Free(s: State, x: nat, i: int)
    requires 0 <= i < |s.holder|
  {
    s.holder[i] == None || s.holder[i] == Some(x)
  }

  predicate Sees(s: State, x: nat, i: int, state: RowState)
    requires 0 <= i < |s.holder| == |s.rows| == |s.base|
  {
    if Free(s, x, i) then s.rows[i].state == state else s.base[i].state == state
  }

  predicate SeesAllFinished(s: State, x: nat)
    requires |s.holder| == |s.rows| == |s.base|
  {
    forall i :: 0 <= i < |s.rows| ==> Sees(s, x, i, Finished)
  }

  predicate SeesFailed(s: State, x: nat)
    requires |s.holder| == |s.rows| == |s.base|
  {
    exists i :: 0 <= i < |s.rows| && Sees(s, x, i, Failed)
  }

  // ---- what transactions do

  datatype Action =
    | Complete(x: nat, task: int)
    | Fail(x: nat, task: int)
    | CountDown(x: nat, dep: int, task: int, hit: bool)
    | Check(x: nat, task: int)
    | Commit(x: nat)
    | Abort(x: nat)

  /** The task has its output: its dependents are owed a count-down, or the build a check when it has none. */
  function Finishing(g: seq<GraphTask>, tx: Tx, i: int): Tx {
    tx.(owed := tx.owed + Edges(g, i), unchecked := if IsSink(g, i) then tx.unchecked + {i} else tx.unchecked)
  }

  function Written(s: State, x: nat, i: int, row: Row, tx: Tx): State
    requires x < |s.txs| && 0 <= i < |s.rows| == |s.holder|
  {
    s.(rows := s.rows[i := row], holder := s.holder[i := Some(x)], txs := s.txs[x := tx])
  }

  /** A row once its count is down: finished at once when the cache has its key, claimable otherwise. */
  function CountedDown(row: Row, hit: bool): Row {
    if row.pending != 1 then row.(pending := row.pending - 1) else Row(if hit then Finished else Unfinished, 0)
  }

  predicate Steps(g: seq<GraphTask>, s: State, a: Action, s': State)
    requires Fits(g, s)
  {
    a.x < |s.txs| && var x, tx := a.x, s.txs[a.x];
    match a
    case Complete(_, i) =>
      && 0 <= i < |g| && tx == IDLE && Free(s, x, i) && s.rows[i].state.Unfinished?
      && s' == Written(s, x, i, s.rows[i].(state := Finished), Finishing(g, IDLE, i))
    case Fail(_, i) =>
      && 0 <= i < |g| && tx == IDLE && Free(s, x, i) && s.rows[i].state.Unfinished?
      && s' == Written(s, x, i, s.rows[i].(state := Failed), IDLE.(sawFailed := true))
    case CountDown(_, d, t, hit) =>
      && 0 <= t < |g| && (d, t) in tx.owed && Free(s, x, t)
      && var rest, row := tx.(owed := tx.owed - {(d, t)}), CountedDown(s.rows[t], hit);
         s' == Written(s, x, t, row, if row.state.Finished? then Finishing(g, rest, t) else rest)
    case Check(_, z) =>
      z in tx.unchecked
      && s' == s.(txs := s.txs[x := tx.(unchecked := tx.unchecked - {z}, sawDone := tx.sawDone || SeesAllFinished(s, x),
                                        sawFailed := tx.sawFailed || SeesFailed(s, x))])
    case Commit(_) => tx.owed == {} && tx.unchecked == {} && s' == Ended(g, s, x, true)
    case Abort(_) => s' == Ended(g, s, x, false)
  }

  /** Transaction x is over: its changes are for all to see, or were never made. */
  function Ended(g: seq<GraphTask>, s: State, x: nat, kept: bool): State
    requires Fits(g, s) && x < |s.txs|
  {
    State(seq(|g|, i requires 0 <= i < |g| => if kept && s.holder[i] == Some(x) then s.rows[i] else s.base[i]),
          seq(|g|, i requires 0 <= i < |g| => if !kept && s.holder[i] == Some(x) then s.base[i] else s.rows[i]),
          seq(|g|, i requires 0 <= i < |g| => if s.holder[i] == Some(x) then None else s.holder[i]),
          s.txs[x := IDLE],
          s.done || (kept && s.txs[x].sawDone), s.broken || (kept && s.txs[x].sawFailed))
  }

  // ---- histories

  datatype History = History(states: seq<State>, actions: seq<Action>)

  predicate StepAt(g: seq<GraphTask>, h: History, k: nat)
    requires k < |h.actions| < |h.states|
  {
    Fits(g, h.states[k]) && Steps(g, h.states[k], h.actions[k], h.states[k + 1])
  }

  function Open(g: seq<GraphTask>, rows: seq<Row>, t: int): set<int>
    requires 0 <= t < |g| == |rows|
  {
    set d | d in g[t].deps && 0 <= d < |g| && !rows[d].state.Finished?
  }

  predicate RowSettled(g: seq<GraphTask>, rows: seq<Row>, t: int)
    requires 0 <= t < |g| == |rows|
  {
    rows[t].pending == |Open(g, rows, t)| && (rows[t].state.Waiting? <==> rows[t].pending > 0)
  }

  /** Every task counts its unfinished dependencies, and waits exactly while there are any. */
  ghost predicate Settled(g: seq<GraphTask>, rows: seq<Row>) {
    |rows| == |g| && forall t :: 0 <= t < |g| ==> RowSettled(g, rows, t)
  }

  predicate AllFinished(rows: seq<Row>) { forall i :: 0 <= i < |rows| ==> rows[i].state.Finished? }

  predicate SomeFailed(rows: seq<Row>) { exists i :: 0 <= i < |rows| && rows[i].state.Failed? }

  /** A build as submission leaves it: settled, nothing locked, the marks right. */
  ghost predicate IsStart(g: seq<GraphTask>, s: State) {
    && Settled(g, s.base) && s.rows == s.base
    && s.holder == seq(|g|, _ => None) && s.txs == seq(|s.txs|, _ => IDLE)
    && (s.done <==> AllFinished(s.base)) && (s.broken <==> SomeFailed(s.base))
  }

  ghost predicate IsHistory(g: seq<GraphTask>, h: History) {
    && |h.states| == |h.actions| + 1 && IsStart(g, h.states[0])
    && forall k :: 0 <= k < |h.actions| ==> StepAt(g, h, k)
  }
}
