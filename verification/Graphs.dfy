/** Task graphs, their orders and rankings. */
module Graphs {
  import opened HashInput

  datatype GraphTask = GraphTask(id: int, kind: Kind, cost: int, deps: seq<int>)

  /** Ids are positions. */
  predicate IdsMatch(g: seq<GraphTask>) {
    forall i :: 0 <= i < |g| ==> g[i].id == i
  }

  predicate GoodDep(g: seq<GraphTask>, i: int, d: int) { 0 <= d < |g| && d != i }

  predicate DepsMatch(g: seq<GraphTask>) {
    forall i, d :: 0 <= i < |g| && d in g[i].deps ==> GoodDep(g, i, d)
  }

  predicate WellFormed(g: seq<GraphTask>) { IdsMatch(g) && DepsMatch(g) }

  /** r numbers the tasks so that every dependency has a smaller number than the task that waits for it. */
  ghost predicate IsRanking(g: seq<GraphTask>, r: seq<nat>) {
    && |r| == |g|
    && forall i, d :: 0 <= i < |g| && d in g[i].deps && 0 <= d < |g| ==> r[d] < r[i]
  }

  ghost predicate Acyclic(g: seq<GraphTask>) { exists r :: IsRanking(g, r) }

  ghost function RankOf(g: seq<GraphTask>): (r: seq<nat>)
    requires Acyclic(g)
    ensures IsRanking(g, r)
  {
    var r :| IsRanking(g, r);
    r
  }

  predicate Distinct(s: seq<int>) { forall j, k :: 0 <= j < k < |s| ==> s[j] != s[k] }

  predicate InRange(s: seq<int>, n: int) { forall k :: 0 <= k < |s| ==> 0 <= s[k] < n }

  function ToSet(s: seq<int>): set<int> { set x | x in s }

  /** order lists every task once, each after all its dependencies. */
  ghost predicate IsTopological(g: seq<GraphTask>, order: seq<int>) {
    && |order| == |g|
    && Distinct(order)
    && InRange(order, |g|)
    && DepsFirst(g, order)
  }

  ghost predicate DepsFirst(g: seq<GraphTask>, order: seq<int>)
    requires InRange(order, |g|)
  {
    forall k :: 0 <= k < |order| ==> DepsBefore(g, order, k)
  }

  predicate DepsBefore(g: seq<GraphTask>, order: seq<int>, k: nat)
    requires k < |order| && InRange(order, |g|)
  {
    forall d :: d in g[order[k]].deps ==> d in order[..k]
  }

  // ---- counting

  lemma {:induction false} DistinctSize(s: seq<int>)
    requires Distinct(s)
    ensures |ToSet(s)| == |s|
  {
    if s != [] {
      var last := |s| - 1;
      assert ToSet(s) == ToSet(s[..last]) + {s[last]};
      DistinctSize(s[..last]);
    }
  }

  function Below(n: nat): (s: set<int>)
    ensures forall x :: x in s <==> 0 <= x < n
  {
    if n == 0 then {} else Below(n - 1) + {n - 1}
  }

  lemma {:induction false} RangeSize(n: nat)
    ensures |Below(n)| == n
  {
    if n > 0 {
      RangeSize(n - 1);
    }
  }

  lemma SubsetSize(a: set<int>, b: set<int>)
    requires a <= b
    ensures |a| <= |b|
    ensures |a| == |b| ==> a == b
  {
    assert b == a + (b - a);
  }

  /** n distinct numbers below n are all of them. */
  lemma Covers(s: seq<int>, n: nat)
    requires Distinct(s) && InRange(s, n)
    ensures |s| <= n
    ensures |s| == n ==> forall i :: 0 <= i < n ==> i in s
  {
    DistinctSize(s);
    RangeSize(n);
    SubsetSize(ToSet(s), Below(n));
    if |s| == n {
      forall i | 0 <= i < n ensures i in s {
        assert i in ToSet(s);
      }
    }
  }

  function PositionOf(s: seq<int>, x: int): (k: nat)
    ensures k <= |s|
    ensures x in s <==> k < |s|
    ensures k < |s| ==> s[k] == x && x !in s[..k]
  {
    if s == [] || s[0] == x then 0
    else
      var k := 1 + PositionOf(s[1..], x);
      assert s[..k] == [s[0]] + s[1..][..k - 1];
      k
  }

  /** A topological order ranks the tasks, so a graph that has one is acyclic. */
  lemma TopologicalMeansAcyclic(g: seq<GraphTask>, order: seq<int>)
    requires IsTopological(g, order)
    ensures Acyclic(g)
  {
    Covers(order, |g|);
    var r: seq<nat> := seq(|g|, i requires 0 <= i < |g| => PositionOf(order, i));
    forall i, d | 0 <= i < |g| && d in g[i].deps && 0 <= d < |g| ensures r[d] < r[i] {
      assert i in order;
      var k := r[i];
      assert DepsBefore(g, order, k) && d in order[..k];
      var j :| 0 <= j < k && order[j] == d;
      assert r[d] <= j;
    }
    assert IsRanking(g, r);
  }

  predicate WaitsOutside(g: seq<GraphTask>, done: set<int>, i: int)
    requires 0 <= i < |g|
  {
    exists d :: d in g[i].deps && 0 <= d < |g| && d !in done
  }

  /** When everything outside done waits for something outside done, no ranking exists. */
  lemma {:induction false} StuckSetHasNoRanking(g: seq<GraphTask>, done: set<int>, r: seq<nat>, x: int)
    requires forall i :: 0 <= i < |g| && i !in done ==> WaitsOutside(g, done, i)
    requires IsRanking(g, r) && 0 <= x < |g| && x !in done
    ensures false
    decreases if 0 <= x < |r| then r[x] else 0
  {
    assert WaitsOutside(g, done, x);
    var d :| d in g[x].deps && 0 <= d < |g| && d !in done;
    StuckSetHasNoRanking(g, done, r, d);
  }
}
