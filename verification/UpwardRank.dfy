/** Ranks: the greatest cost of a chain of dependents. */
module UpwardRank {
  import opened Graphs
  import TopoOrder

  /** c starts somewhere and moves from a task to one that depends on it. */
  ghost predicate IsChain(g: seq<GraphTask>, c: seq<int>) {
    && c != [] && InRange(c, |g|)
    && forall j :: 0 <= j < |c| - 1 ==> c[j] in g[c[j + 1]].deps
  }

  ghost function ChainCost(g: seq<GraphTask>, c: seq<int>): int
    requires InRange(c, |g|)
  {
    if c == [] then 0 else g[c[0]].cost + ChainCost(g, c[1..])
  }

  ghost predicate ChainFrom(g: seq<GraphTask>, i: int, c: seq<int>) { IsChain(g, c) && c[0] == i }

  /** rank[i] is the greatest cost of any chain that starts at i. */
  ghost predicate IsLongestChain(g: seq<GraphTask>, rank: seq<int>, i: nat)
    requires |rank| == |g| && i < |g|
  {
    && (exists c :: ChainFrom(g, i, c) && ChainCost(g, c) == rank[i])
    && (forall c :: ChainFrom(g, i, c) ==> ChainCost(g, c) <= rank[i])
  }

  ghost predicate AreUpwardRanks(g: seq<GraphTask>, rank: seq<int>) {
    |rank| == |g| && forall i :: 0 <= i < |g| ==> IsLongestChain(g, rank, i)
  }

  /** best is the highest rank among those that wait for i, or 0. */
  ghost predicate BestAbove(g: seq<GraphTask>, rank: seq<int>, i: nat, best: int)
    requires |rank| == |g| && i < |g|
  {
    && best >= 0
    && (forall s :: 0 <= s < |g| && i in g[s].deps ==> rank[s] <= best)
    && (best == 0 || exists s :: 0 <= s < |g| && i in g[s].deps && rank[s] == best)
  }

  ghost predicate RankedFrom(g: seq<GraphTask>, rank: seq<int>, i: nat)
    requires |rank| == |g| && i < |g|
  {
    exists best :: BestAbove(g, rank, i, best) && rank[i] == g[i].cost + best
  }

  lemma {:induction false} NoChainCostsMore(g: seq<GraphTask>, rank: seq<int>, c: seq<int>)
    requires |rank| == |g| && IsChain(g, c)
    requires forall i :: 0 <= i < |g| ==> RankedFrom(g, rank, i)
    ensures ChainCost(g, c) <= rank[c[0]]
  {
    assert RankedFrom(g, rank, c[0]);
    var best :| BestAbove(g, rank, c[0], best) && rank[c[0]] == g[c[0]].cost + best;
    if |c| > 1 {
      assert c[0] in g[c[1]].deps;
      assert rank[c[1]] <= best;
      NoChainCostsMore(g, rank, c[1..]);
    }
  }

  lemma LongerChain(g: seq<GraphTask>, i: int, c: seq<int>)
    requires IsChain(g, c) && 0 <= i < |g| && i in g[c[0]].deps
    ensures ChainFrom(g, i, [i] + c) && ChainCost(g, [i] + c) == g[i].cost + ChainCost(g, c)
  {
    var longer := [i] + c;
    assert longer[1..] == c;
    forall p | 0 <= p < |longer| - 1 ensures longer[p] in g[longer[p + 1]].deps {
      if p > 0 {
        assert c[p - 1] in g[c[p]].deps;
      }
    }
  }

  lemma DependentIsLater(g: seq<GraphTask>, order: seq<int>, i: int, s: int)
    requires IsTopological(g, order) && 0 <= i < |g| && 0 <= s < |g| && i in g[s].deps
    ensures PositionOf(order, i) < PositionOf(order, s) < |order|
  {
    Covers(order, |g|);
    assert s in order;
    var k := PositionOf(order, s);
    assert DepsBefore(g, order, k) && i in order[..k];
    var j :| 0 <= j < k && order[j] == i;
  }

  lemma {:induction false} SomeChainCosts(g: seq<GraphTask>, order: seq<int>, rank: seq<int>, i: int)
    returns (c: seq<int>)
    requires IsTopological(g, order) && |rank| == |g| && 0 <= i < |g|
    requires forall x :: 0 <= x < |g| ==> RankedFrom(g, rank, x)
    ensures ChainFrom(g, i, c) && ChainCost(g, c) == rank[i]
    decreases |order| - PositionOf(order, i)
  {
    assert RankedFrom(g, rank, i);
    var best :| BestAbove(g, rank, i, best) && rank[i] == g[i].cost + best;
    if best == 0 {
      c := [i];
      assert ChainCost(g, c) == g[i].cost + ChainCost(g, []);
    } else {
      var s :| 0 <= s < |g| && i in g[s].deps && rank[s] == best;
      DependentIsLater(g, order, i, s);
      var rest := SomeChainCosts(g, order, rank, s);
      LongerChain(g, i, rest);
      c := [i] + rest;
    }
  }

  lemma RanksAreLongestChains(g: seq<GraphTask>, order: seq<int>, rank: seq<int>)
    requires IsTopological(g, order) && |rank| == |g|
    requires forall i :: 0 <= i < |g| ==> RankedFrom(g, rank, i)
    ensures AreUpwardRanks(g, rank)
  {
    forall i | 0 <= i < |g| ensures IsLongestChain(g, rank, i) {
      var c := SomeChainCosts(g, order, rank, i);
      forall c' | ChainFrom(g, i, c') ensures ChainCost(g, c') <= rank[i] {
        NoChainCostsMore(g, rank, c');
      }
    }
  }

  /** A task ranks above whatever waits for it by at least its own cost. */
  lemma DependencyRanksHigher(g: seq<GraphTask>, rank: seq<int>, i: nat, d: nat)
    requires AreUpwardRanks(g, rank) && i < |g| && d < |g| && d in g[i].deps
    ensures rank[d] >= g[d].cost + rank[i]
  {
    assert IsLongestChain(g, rank, i) && IsLongestChain(g, rank, d);
    var c :| ChainFrom(g, i, c) && ChainCost(g, c) == rank[i];
    LongerChain(g, d, c);
    assert ChainFrom(g, d, [d] + c);
  }

  /**
    A rank is the task's own cost on top of the highest rank among its dependents, none counting as less than nothing.
   */
  lemma RankIs(g: seq<GraphTask>, rank: seq<int>, i: nat)
    requires AreUpwardRanks(g, rank) && i < |g|
    ensures rank[i] >= g[i].cost && forall s :: 0 <= s < |g| && i in g[s].deps ==> rank[i] >= g[i].cost + rank[s]
    ensures rank[i] == g[i].cost || exists s :: 0 <= s < |g| && i in g[s].deps && rank[i] == g[i].cost + rank[s]
  {
    assert IsLongestChain(g, rank, i);
    assert ChainFrom(g, i, [i]) && ChainCost(g, [i]) == g[i].cost + ChainCost(g, []);
    forall s | 0 <= s < |g| && i in g[s].deps ensures rank[i] >= g[i].cost + rank[s] {
      DependencyRanksHigher(g, rank, s, i);
    }
    var c :| ChainFrom(g, i, c) && ChainCost(g, c) == rank[i];
    if |c| > 1 {
      var s := c[1];
      assert i in g[s].deps && IsLongestChain(g, rank, s);
      assert ChainFrom(g, s, c[1..]) by {
        forall j | 0 <= j < |c| - 2 ensures c[1..][j] in g[c[1..][j + 1]].deps {
          assert c[j + 1] in g[c[j + 2]].deps;
        }
      }
      assert ChainCost(g, c[1..]) <= rank[s];
    } else {
      assert c == [i];
    }
  }

  /** The dependents of every task. */
  method Dependents(g: seq<GraphTask>) returns (succ: array<seq<int>>)
    requires WellFormed(g)
    ensures fresh(succ) && succ.Length == |g|
    ensures forall d :: 0 <= d < |g| ==> InRange(succ[d], |g|)
    ensures forall d, s :: 0 <= d < |g| && 0 <= s < |g| ==> (s in succ[d] <==> d in g[s].deps)
  {
    succ := new seq<int>[|g|](_ => []);
    for i := 0 to |g|
      invariant forall d :: 0 <= d < |g| ==> InRange(succ[d], |g|)
      invariant forall d, s :: 0 <= d < |g| && 0 <= s < |g| ==> (s in succ[d] <==> s < i && d in g[s].deps)
    {
      for j := 0 to |g[i].deps|
        invariant forall d :: 0 <= d < |g| ==> InRange(succ[d], |g|)
        invariant forall d, s :: 0 <= d < |g| && 0 <= s < |g| && s != i ==> (s in succ[d] <==> s < i && d in g[s].deps)
        invariant forall d :: 0 <= d < |g| ==> (i in succ[d] <==> d in g[i].deps[..j])
      {
        var d := g[i].deps[j];
        assert GoodDep(g, i, d);
        succ[d] := succ[d] + [g[i].id];
      }
      assert g[i].deps[..|g[i].deps|] == g[i].deps;
    }
  }

  method UpwardRanks(g: seq<GraphTask>) returns (rank: seq<int>)
    requires WellFormed(g)
    ensures Acyclic(g) ==> AreUpwardRanks(g, rank)
    ensures !Acyclic(g) ==> rank == seq(|g|, _ => 0)
  {
    var order, err := TopoOrder.TopologicalOrder(g);
    var succ := Dependents(g);
    rank := seq(|g|, _ => 0);
    if err.Some? {
      return;
    }
    Covers(order, |g|);
    var it := |order|;
    while it > 0
      invariant 0 <= it <= |order| && |rank| == |g|
      invariant forall d :: 0 <= d < |g| ==> InRange(succ[d], |g|)
      invariant forall d, s :: 0 <= d < |g| && 0 <= s < |g| ==> (s in succ[d] <==> d in g[s].deps)
      invariant forall q :: it <= q < |order| ==> RankedFrom(g, rank, order[q])
    {
      it := it - 1;
      var i := order[it];
      var best := 0;
      var after := succ[i];
      for j := 0 to |after|
        invariant best >= 0 && forall p :: 0 <= p < j ==> rank[after[p]] <= best
        invariant best == 0 || exists p :: 0 <= p < j && rank[after[p]] == best
      {
        best := if best < rank[after[j]] then rank[after[j]] else best;
      }
      assert BestAbove(g, rank, i, best);
      ghost var before := rank;
      rank := rank[i := g[i].cost + best];
      KeepsLaterRanks(g, order, before, rank, it);
      assert i !in g[i].deps;
      assert BestAbove(g, rank, i, best) by {
        if best != 0 {
          var s :| 0 <= s < |g| && i in g[s].deps && before[s] == best;
          assert rank[s] == best;
        }
      }
    }
    forall i | 0 <= i < |g| ensures RankedFrom(g, rank, i) {
      assert i in order;
    }
    RanksAreLongestChains(g, order, rank);
  }

  /** Ranking a task does not disturb those behind it in the order: none of them is below it. */
  lemma KeepsLaterRanks(g: seq<GraphTask>, order: seq<int>, before: seq<int>, after: seq<int>, k: nat)
    requires IsTopological(g, order) && k < |order| && |before| == |after| == |g|
    requires forall x :: 0 <= x < |g| && x != order[k] ==> after[x] == before[x]
    requires forall q :: k < q < |order| ==> RankedFrom(g, before, order[q])
    ensures forall q :: k < q < |order| ==> RankedFrom(g, after, order[q])
  {
    forall q | k < q < |order| ensures RankedFrom(g, after, order[q]) {
      var i := order[q];
      assert DepsBefore(g, order, k) && i !in order[..k];
      assert i !in g[order[k]].deps;
      assert RankedFrom(g, before, i);
      var best :| BestAbove(g, before, i, best) && before[i] == g[i].cost + best;
      assert BestAbove(g, after, i, best) by {
        if best != 0 {
          var s :| 0 <= s < |g| && i in g[s].deps && before[s] == best;
          assert after[s] == best;
        }
      }
    }
  }
}
