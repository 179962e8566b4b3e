/** Kahn's algorithm. */
module TopoOrder {
  import opened Wrappers
  import opened Graphs

  datatype GraphError = BadIds | BadDependency(task: int, dep: int) | DependencyCycle

  /** How often x occurs in s. */
  function Times(s: seq<int>, x: int): nat {
    if s == [] then 0
    else
      var last := |s| - 1;
      Times(s[..last], x) + if s[last] == x then 1 else 0
  }

  lemma TimesAppend(s: seq<int>, x: int, y: int)
    ensures Times(s + [x], y) == Times(s, y) + if x == y then 1 else 0
  {
    assert (s + [x])[..|s|] == s;
  }

  lemma {:induction false} TimesPrefix(s: seq<int>, j: nat, y: int)
    requires j < |s|
    ensures Times(s[..j + 1], y) == Times(s[..j], y) + if s[j] == y then 1 else 0
    ensures Times(s[..j + 1], y) <= Times(s, y)
    decreases |s|
  {
    assert s[..j + 1] == s[..j] + [s[j]];
    TimesAppend(s[..j], s[j], y);
    if j + 1 < |s| {
      assert s[..|s| - 1][..j + 1] == s[..j + 1] && s[..|s| - 1][..j] == s[..j];
      TimesPrefix(s[..|s| - 1], j, y);
    } else {
      assert s[..j + 1] == s;
    }
  }

  /** How many entries of deps lie outside done. */
  function Unmet(deps: seq<int>, done: set<int>): nat {
    if deps == [] then 0
    else
      var last := |deps| - 1;
      Unmet(deps[..last], done) + if deps[last] in done then 0 else 1
  }

  lemma {:induction false} UnmetZero(deps: seq<int>, done: set<int>)
    ensures Unmet(deps, done) == 0 <==> forall k :: 0 <= k < |deps| ==> deps[k] in done
  {
    if deps != [] {
      var last := |deps| - 1;
      UnmetZero(deps[..last], done);
      assert forall k :: 0 <= k < last ==> deps[..last][k] == deps[k];
    }
  }

  /** Meeting v takes away exactly the entries that are v. */
  lemma {:induction false} UnmetAfter(deps: seq<int>, done: set<int>, v: int)
    requires v !in done
    ensures Unmet(deps, done + {v}) + Times(deps, v) == Unmet(deps, done)
  {
    if deps != [] {
      UnmetAfter(deps[..|deps| - 1], done, v);
    }
  }

  lemma {:induction false} UnmetNothing(deps: seq<int>)
    ensures Unmet(deps, {}) == |deps|
  {
    if deps != [] {
      UnmetNothing(deps[..|deps| - 1]);
    }
  }

  // ---- the first pass: dependents of every task, and how many dependencies each has

  /** succ and indeg after the dependencies of tasks 0..i-1 and the first j of task i were entered. */
  ghost predicate Entered(g: seq<GraphTask>, succ: seq<seq<int>>, indeg: seq<int>, i: nat, j: nat)
    requires i <= |g| && j <= if i < |g| then |g[i].deps| else 0
  {
    && |succ| == |indeg| == |g|
    && (forall d :: 0 <= d < |g| ==> InRange(succ[d], |g|))
    && (forall d, x :: 0 <= d < |g| && 0 <= x < |g| ==> Times(succ[d], x) == Times(EnteredDeps(g, i, j, x), d))
    && (forall x :: 0 <= x < |g| ==> indeg[x] == |EnteredDeps(g, i, j, x)|)
  }

  ghost function EnteredDeps(g: seq<GraphTask>, i: nat, j: nat, x: nat): seq<int>
    requires i <= |g| && x < |g| && j <= if i < |g| then |g[i].deps| else 0
  {
    if x < i then g[x].deps else if x == i then g[i].deps[..j] else []
  }

  lemma EnterOne(g: seq<GraphTask>, succ: seq<seq<int>>, indeg: seq<int>, i: nat, j: nat)
    requires i < |g| && j < |g[i].deps| && Entered(g, succ, indeg, i, j)
    requires 0 <= g[i].deps[j] < |g|
    ensures var d := g[i].deps[j];
            Entered(g, succ[d := succ[d] + [i]], indeg[i := indeg[i] + 1], i, j + 1)
  {
    var d := g[i].deps[j];
    var succ' := succ[d := succ[d] + [i]];
    forall x | 0 <= x < |g| { TimesAppend(succ[d], i, x); }
    assert g[i].deps[..j + 1] == g[i].deps[..j] + [d];
    forall c | 0 <= c < |g| { TimesAppend(g[i].deps[..j], d, c); }
    forall x | 0 <= x < |g|
      ensures EnteredDeps(g, i, j + 1, x) == if x == i then EnteredDeps(g, i, j, x) + [d] else EnteredDeps(g, i, j, x)
    {
    }
    forall c, x | 0 <= c < |g| && 0 <= x < |g|
      ensures Times(succ'[c], x) == Times(EnteredDeps(g, i, j + 1, x), c)
    {
      assert Times(succ[c], x) == Times(EnteredDeps(g, i, j, x), c);
    }
  }

  lemma EnteredRow(g: seq<GraphTask>, succ: seq<seq<int>>, indeg: seq<int>, i: nat)
    requires i < |g| && Entered(g, succ, indeg, i, |g[i].deps|)
    ensures Entered(g, succ, indeg, i + 1, 0)
  {
    assert g[i].deps[..|g[i].deps|] == g[i].deps;
    if i + 1 < |g| {
      assert g[i + 1].deps[..0] == [];
    }
    forall x | 0 <= x < |g| ensures EnteredDeps(g, i + 1, 0, x) == EnteredDeps(g, i, |g[i].deps|, x) {
    }
    forall d, x | 0 <= d < |g| && 0 <= x < |g|
      ensures Times(succ[d], x) == Times(EnteredDeps(g, i + 1, 0, x), d)
    {
      assert Times(succ[d], x) == Times(EnteredDeps(g, i, |g[i].deps|, x), d);
    }
  }

  // ---- the scan: order grows while it is read

  /** indeg[s] once the tasks in done were processed, and those in seen counted down for the next one. */
  ghost function Remaining(g: seq<GraphTask>, done: set<int>, seen: seq<int>, s: nat): int
    requires s < |g|
  {
    Unmet(g[s].deps, done) - Times(seen, s)
  }

  ghost predicate Counted(g: seq<GraphTask>, indeg: seq<int>, done: set<int>, seen: seq<int>) {
    |indeg| == |g| && forall s :: 0 <= s < |g| ==> indeg[s] == Remaining(g, done, seen, s)
  }

  ghost predicate Ordered(g: seq<GraphTask>, order: seq<int>) {
    Distinct(order) && InRange(order, |g|) && DepsFirst(g, order)
  }

  ghost predicate Listed(indeg: seq<int>, order: seq<int>) {
    forall s :: 0 <= s < |indeg| ==> (s in order <==> indeg[s] == 0)
  }

  /** order[..k] is processed, and of order[k]'s dependents those in seen. */
  ghost predicate Scanning(g: seq<GraphTask>, indeg: seq<int>, order: seq<int>, k: nat, seen: seq<int>)
    requires k <= |order|
  {
    Ordered(g, order) && Counted(g, indeg, ToSet(order[..k]), seen) && Listed(indeg, order)
  }

  /** succ holds v once for every time s depends on v. */
  ghost predicate Dependents(g: seq<GraphTask>, succ: seq<int>, v: int) {
    InRange(succ, |g|) && forall s :: 0 <= s < |g| ==> Times(succ, s) == Times(g[s].deps, v)
  }

  /** A task whose count reaches zero waits for nothing but tasks already in the order. */
  lemma LastDependency(deps: seq<int>, order: seq<int>, k: nat)
    requires k < |order| && Distinct(order)
    requires Unmet(deps, ToSet(order[..k])) <= Times(deps, order[k])
    ensures forall d :: d in deps ==> d in order
  {
    var done := ToSet(order[..k]);
    UnmetAfter(deps, done, order[k]);
    UnmetZero(deps, done + {order[k]});
    forall d | d in deps ensures d in order {
      assert d in done + {order[k]};
    }
  }

  lemma AppendReady(g: seq<GraphTask>, order: seq<int>, s: nat)
    requires Ordered(g, order) && s < |g| && s !in order && forall d :: d in g[s].deps ==> d in order
    ensures Ordered(g, order + [s])
  {
    var order' := order + [s];
    forall q | 0 <= q < |order'| ensures DepsBefore(g, order', q) {
      if q < |order| {
        assert DepsBefore(g, order, q) && order'[..q] == order[..q];
      } else {
        assert order'[..q] == order;
      }
    }
  }

  lemma CountsDown(g: seq<GraphTask>, indeg: seq<int>, done: set<int>, succ: seq<int>, j: nat)
    requires j < |succ| && InRange(succ, |g|) && Counted(g, indeg, done, succ[..j])
    ensures Counted(g, indeg[succ[j] := indeg[succ[j]] - 1], done, succ[..j + 1])
  {
    var indeg' := indeg[succ[j] := indeg[succ[j]] - 1];
    forall s | 0 <= s < |g| ensures indeg'[s] == Remaining(g, done, succ[..j + 1], s) {
      assert indeg[s] == Remaining(g, done, succ[..j], s);
      TimesPrefix(succ, j, s);
    }
  }

  /** A task still to be counted down is not in the order, and its last count-down means it waits for nothing else. */
  lemma CountIsPositive(g: seq<GraphTask>, indeg: seq<int>, order: seq<int>, k: nat, succ: seq<int>, j: nat)
    requires k < |order| && j < |succ| && Dependents(g, succ, order[k])
    requires Scanning(g, indeg, order, k, succ[..j])
    ensures indeg[succ[j]] >= 1 && succ[j] !in order
    ensures indeg[succ[j]] == 1 ==> forall d :: d in g[succ[j]].deps ==> d in order
  {
    var s, done := succ[j], ToSet(order[..k]);
    UnmetAfter(g[s].deps, done, order[k]);
    TimesPrefix(succ, j, s);
    assert Times(succ, s) == Times(g[s].deps, order[k]);
    assert indeg[s] == Remaining(g, done, succ[..j], s);
    if indeg[s] == 1 {
      LastDependency(g[s].deps, order, k);
    }
  }

  /** One step of the inner loop keeps the scan's invariant. */
  lemma CountDown(g: seq<GraphTask>, indeg: seq<int>, order: seq<int>, k: nat, succ: seq<int>, j: nat)
    requires k < |order| && j < |succ| && Dependents(g, succ, order[k])
    requires Scanning(g, indeg, order, k, succ[..j])
    ensures var s := succ[j];
            var indeg' := indeg[s := indeg[s] - 1];
            var order' := if indeg'[s] == 0 then order + [s] else order;
            Scanning(g, indeg', order', k, succ[..j + 1])
  {
    var s := succ[j];
    var indeg' := indeg[s := indeg[s] - 1];
    var order' := if indeg'[s] == 0 then order + [s] else order;
    CountsDown(g, indeg, ToSet(order[..k]), succ, j);
    CountIsPositive(g, indeg, order, k, succ, j);
    if indeg'[s] == 0 {
      AppendReady(g, order, s);
    }
    assert order'[..k] == order[..k];
  }

  /** A task whose dependents were all counted down counts as processed. */
  lemma Processed(g: seq<GraphTask>, indeg: seq<int>, order: seq<int>, k: nat, succ: seq<int>)
    requires k < |order| && Scanning(g, indeg, order, k, succ) && Dependents(g, succ, order[k])
    ensures Scanning(g, indeg, order, k + 1, [])
  {
    var done := ToSet(order[..k]);
    assert order[..k + 1] == order[..k] + [order[k]];
    assert ToSet(order[..k + 1]) == done + {order[k]};
    forall s | 0 <= s < |g| ensures indeg[s] == Remaining(g, done + {order[k]}, [], s) {
      assert indeg[s] == Remaining(g, done, succ, s);
      UnmetAfter(g[s].deps, done, order[k]);
    }
  }

  /** A scan that ended early leaves tasks that all wait for each other: there is no ranking. */
  lemma EndedEarly(g: seq<GraphTask>, indeg: seq<int>, order: seq<int>)
    requires WellFormed(g) && Scanning(g, indeg, order, |order|, []) && |order| < |g|
    ensures !Acyclic(g)
  {
    var done := ToSet(order);
    assert order[..|order|] == order;
    var x := Missing(order, |g|);
    forall i | 0 <= i < |g| && i !in done
      ensures WaitsOutside(g, done, i)
    {
      assert indeg[i] == Remaining(g, done, [], i);
      UnmetZero(g[i].deps, done);
      var p :| 0 <= p < |g[i].deps| && g[i].deps[p] !in done;
      assert GoodDep(g, i, g[i].deps[p]);
    }
    forall r | IsRanking(g, r) ensures false {
      StuckSetHasNoRanking(g, done, r, x);
    }
  }

  lemma Missing(order: seq<int>, n: nat) returns (x: int)
    requires Distinct(order) && |order| < n
    ensures 0 <= x < n && x !in order
  {
    if forall y :: 0 <= y < n ==> y in order {
      RangeSize(n);
      DistinctSize(order);
      SubsetSize(Below(n), ToSet(order));
      assert false;
    }
    x :| 0 <= x < n && x !in order;
  }

  // ---- which error a graph gets

  predicate TaskOk(g: seq<GraphTask>, i: int)
    requires 0 <= i < |g|
  {
    g[i].id == i && forall p :: 0 <= p < |g[i].deps| ==> GoodDep(g, i, g[i].deps[p])
  }

  predicate FirstFaulty(g: seq<GraphTask>, i: int) {
    0 <= i < |g| && !TaskOk(g, i) && forall j :: 0 <= j < i ==> TaskOk(g, j)
  }

  /** d is the first bad one among the dependencies. */
  predicate FirstBadDep(g: seq<GraphTask>, i: int, deps: seq<int>, d: int) {
    exists p :: 0 <= p < |deps| && deps[p] == d && !GoodDep(g, i, d)
      && forall q :: 0 <= q < p ==> GoodDep(g, i, deps[q])
  }

  /** The error that tells what is wrong with the graph: what the first faulty task is rejected for, or a cycle. */
  ghost predicate Tells(g: seq<GraphTask>, e: GraphError) {
    match e
    case BadIds => exists i :: FirstFaulty(g, i) && g[i].id != i
    case BadDependency(i, d) => FirstFaulty(g, i) && g[i].id == i && FirstBadDep(g, i, g[i].deps, d)
    case DependencyCycle => WellFormed(g) && !Acyclic(g)
  }

  lemma AllOkIsWellFormed(g: seq<GraphTask>)
    requires forall i :: 0 <= i < |g| ==> TaskOk(g, i)
    ensures WellFormed(g)
  {
    assert forall i :: 0 <= i < |g| ==> TaskOk(g, i) ==> g[i].id == i;
    forall i, d | 0 <= i < |g| && d in g[i].deps ensures GoodDep(g, i, d) {
      assert TaskOk(g, i);
    }
  }

  lemma FaultyIsNotWellFormed(g: seq<GraphTask>, i: int)
    requires 0 <= i < |g| && !TaskOk(g, i)
    ensures !WellFormed(g)
  {
    if g[i].id == i {
      var p :| 0 <= p < |g[i].deps| && !GoodDep(g, i, g[i].deps[p]);
      assert g[i].deps[p] in g[i].deps;
    }
  }

  lemma OneFirst(g: seq<GraphTask>, i: int, j: int)
    requires FirstFaulty(g, i) && FirstFaulty(g, j)
    ensures i == j
  {
  }

  lemma OneFirstBad(g: seq<GraphTask>, i: int, deps: seq<int>, d: int, d': int)
    requires FirstBadDep(g, i, deps, d) && FirstBadDep(g, i, deps, d')
    ensures d == d'
  {
  }

  /** A graph is told one error at most, and none when there is nothing wrong. */
  lemma TellsOne(g: seq<GraphTask>, e: GraphError, e': GraphError)
    requires Tells(g, e)
    ensures !(WellFormed(g) && Acyclic(g)) && (Tells(g, e') ==> e' == e)
  {
    if i :| FirstFaulty(g, i) {
      FaultyIsNotWellFormed(g, i);
      forall j | FirstFaulty(g, j) ensures j == i {
        OneFirst(g, i, j);
      }
      if e.BadDependency? && e'.BadDependency? && Tells(g, e') {
        OneFirstBad(g, i, g[i].deps, e.dep, e'.dep);
      }
    }
  }

  /** Enters the edges of task i, up to the first bad dependency. */
  method EnterRow(g: seq<GraphTask>, i: nat, succ: array<seq<int>>, indeg: array<int>) returns (bad: Option<int>)
    requires i < |g| && Entered(g, succ[..], indeg[..], i, 0)
    modifies succ, indeg
    ensures bad.None? ==> Entered(g, succ[..], indeg[..], i + 1, 0)
    ensures bad.None? ==> forall p :: 0 <= p < |g[i].deps| ==> GoodDep(g, i, g[i].deps[p])
    ensures bad.Some? ==> FirstBadDep(g, i, g[i].deps, bad.value)
  {
    for j := 0 to |g[i].deps|
      invariant Entered(g, succ[..], indeg[..], i, j)
      invariant forall p :: 0 <= p < j ==> GoodDep(g, i, g[i].deps[p])
    {
      var d := g[i].deps[j];
      if d < 0 || d >= |g| || d == i {
        return Some(d);
      }
      EnterOne(g, succ[..], indeg[..], i, j);
      ghost var succ0, indeg0 := succ[..], indeg[..];
      succ[d] := succ[d] + [i];
      indeg[i] := indeg[i] + 1;
      assert succ[..] == succ0[d := succ0[d] + [i]];
      assert indeg[..] == indeg0[i := indeg0[i] + 1];
    }
    EnteredRow(g, succ[..], indeg[..], i);
    bad := None;
  }

  /** Checks the graph and enters every edge into the table of dependents and the counts. */
  method Enter(g: seq<GraphTask>) returns (succ: array<seq<int>>, indeg: array<int>, err: Option<GraphError>)
    ensures fresh(succ) && fresh(indeg)
    ensures err.None? ==> WellFormed(g) && Entered(g, succ[..], indeg[..], |g|, 0)
    ensures err.Some? ==> Tells(g, err.value) && !err.value.DependencyCycle?
  {
    indeg := new int[|g|](_ => 0);
    succ := new seq<int>[|g|](_ => []);
    for i := 0 to |g|
      invariant Entered(g, succ[..], indeg[..], i, 0)
      invariant forall x :: 0 <= x < i ==> TaskOk(g, x)
    {
      if g[i].id != i {
        assert FirstFaulty(g, i);
        return succ, indeg, Some(BadIds);
      }
      var bad := EnterRow(g, i, succ, indeg);
      if bad.Some? {
        assert FirstFaulty(g, i);
        return succ, indeg, Some(BadDependency(i, bad.value));
      }
    }
    AllOkIsWellFormed(g);
    err := None;
  }

  /** The tasks without dependencies start the order. */
  method Roots(g: seq<GraphTask>, indeg: array<int>, ghost succ: seq<seq<int>>) returns (order: seq<int>)
    requires WellFormed(g) && Entered(g, succ, indeg[..], |g|, 0)
    ensures Scanning(g, indeg[..], order, 0, [])
  {
    order := [];
    for i := 0 to indeg.Length
      invariant Distinct(order) && InRange(order, i)
      invariant forall s :: 0 <= s < |g| ==> (s in order <==> s < i && indeg[s] == 0)
      invariant forall q :: 0 <= q < |order| ==> g[order[q]].deps == []
    {
      if indeg[i] == 0 {
        order := order + [i];
      }
    }
    assert ToSet(order[..0]) == {};
    forall x | 0 <= x < |g| ensures indeg[x] == Remaining(g, {}, [], x) {
      UnmetNothing(g[x].deps);
    }
  }

  /** Counts down the j-th dependent of order[k]. */
  method CountDownOne(g: seq<GraphTask>, indeg: array<int>, order0: seq<int>, k: nat, after: seq<int>, j: nat)
    returns (order: seq<int>)
    requires k < |order0| && Dependents(g, after, order0[k]) && j < |after|
    requires Scanning(g, indeg[..], order0, k, after[..j])
    modifies indeg
    ensures |order| > k && order[k] == order0[k] && Scanning(g, indeg[..], order, k, after[..j + 1])
  {
    order := order0;
    CountDown(g, indeg[..], order, k, after, j);
    var s := after[j];
    ghost var before := indeg[..];
    indeg[s] := indeg[s] - 1;
    assert indeg[..] == before[s := before[s] - 1];
    if indeg[s] == 0 {
      order := order + [s];
    }
  }

  /** Counts down the dependents of order[k]. */
  method Process(g: seq<GraphTask>, indeg: array<int>, order0: seq<int>, k: nat, after: seq<int>)
    returns (order: seq<int>)
    requires k < |order0| && Dependents(g, after, order0[k])
    requires Scanning(g, indeg[..], order0, k, [])
    modifies indeg
    ensures |order| > k && Scanning(g, indeg[..], order, k + 1, [])
  {
    order := order0;
    assert after[..0] == [];
    for j := 0 to |after|
      invariant k < |order| && order[k] == order0[k]
      invariant Scanning(g, indeg[..], order, k, after[..j])
    {
      order := CountDownOne(g, indeg, order, k, after, j);
    }
    assert after[..|after|] == after;
    Processed(g, indeg[..], order, k, after);
  }

  method TopologicalOrder(g: seq<GraphTask>) returns (order: seq<int>, err: Option<GraphError>)
    ensures err.None? <==> WellFormed(g) && Acyclic(g)
    ensures err.None? ==> IsTopological(g, order)
    ensures err.Some? ==> order == []
    ensures forall e :: err == Some(e) <==> Tells(g, e)
  {
    var succ, indeg, bad := Enter(g);
    forall e, e' | Tells(g, e) ensures !(WellFormed(g) && Acyclic(g)) && (Tells(g, e') ==> e' == e) {
      TellsOne(g, e, e');
    }
    if bad.Some? {
      return [], bad;
    }
    order := Roots(g, indeg, succ[..]);
    ghost var succs := succ[..];
    forall d | 0 <= d < |g| ensures Dependents(g, succs[d], d) {
      assert forall s :: 0 <= s < |g| ==> EnteredDeps(g, |g|, 0, s) == g[s].deps;
    }
    var k := 0;
    while k < |order|
      invariant k <= |order| && succ[..] == succs
      invariant Scanning(g, indeg[..], order, k, [])
      decreases |g| - k
    {
      Covers(order, |g|);
      order := Process(g, indeg, order, k, succ[order[k]]);
      k := k + 1;
    }
    if |order| != |g| {
      Covers(order, |g|);
      EndedEarly(g, indeg[..], order);
      return [], Some(DependencyCycle);
    }
    err := None;
    TopologicalMeansAcyclic(g, order);
  }
}
