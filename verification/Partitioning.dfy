/** Groups tasks by their homes, and schedules the groups. */
module Partitioning {
  import opened HashInput
  import opened Graphs
  import opened Balance
  import opened Lpt

  predicate DepsInRange(g: seq<GraphTask>) {
    forall i, d :: 0 <= i < |g| && d in g[i].deps ==> 0 <= d < |g|
  }

  /** The lowest-numbered task of the given kind, from position a on, that lists i among its dependencies. */
  function FirstUser(g: seq<GraphTask>, kind: Kind, i: int, a: nat): (b: nat)
    requires a <= |g|
    ensures a <= b <= |g|
    ensures b < |g| ==> g[b].kind == kind && i in g[b].deps
    ensures forall c :: a <= c < b ==> !(g[c].kind == kind && i in g[c].deps)
    decreases |g| - a
  {
    if a == |g| || (g[a].kind == kind && i in g[a].deps) then a else FirstUser(g, kind, i, a + 1)
  }

  /**
    The task that i stays with: for a compile the first archive using it, else the first link using it, else itself.
   */
  function Home(g: seq<GraphTask>, i: nat): (h: nat)
    requires i < |g|
    ensures h < |g|
  {
    var archive := FirstUser(g, Archive, i, 0);
    var link := FirstUser(g, Link, i, 0);
    if g[i].kind != Compile then i
    else if archive < |g| then archive
    else if link < |g| then link
    else i
  }

  predicate KeepsTogether(g: seq<GraphTask>, part: seq<int>) {
    |part| == |g| && forall i :: 0 <= i < |g| ==> part[i] == part[Home(g, i)]
  }

  /** How far each of the three passes that hand out units has come. */
  datatype Progress = Progress(archives: nat, links: nat, rest: nat)

  predicate Taken(g: seq<GraphTask>, at: Progress, h: nat)
    requires h < |g|
  {
    match g[h].kind
    case Archive => h < at.archives
    case Link => h < at.links
    case Compile => h < at.rest
  }

  /** Exactly the tasks whose home was reached have a unit, and they share one when they share a home. */
  ghost predicate Grouped(g: seq<GraphTask>, unit: seq<int>, units: int, at: Progress) {
    && |unit| == |g|
    && (forall i :: 0 <= i < |g| ==> -1 <= unit[i] < units)
    && (forall i :: 0 <= i < |g| ==> (unit[i] >= 0 <==> Taken(g, at, Home(g, i))))
    && (forall i, j :: 0 <= i < |g| && 0 <= j < |g| && unit[i] >= 0 && unit[j] >= 0 ==>
          (unit[i] == unit[j] <==> Home(g, i) == Home(g, j)))
  }

  function After(kind: Kind, n: nat, i: nat): Progress {
    match kind
    case Archive => Progress(i, 0, 0)
    case Link => Progress(n, i, 0)
    case Compile => Progress(n, n, i)
  }

  /** unit after the task a and the first j of its dependencies were given the new unit u. */
  ghost predicate Claiming(g: seq<GraphTask>, before: seq<int>, unit: seq<int>, u: int, a: nat, j: nat)
    requires a < |g| && j <= |g[a].deps| && |before| == |g|
  {
    && |unit| == |g|
    && forall i :: 0 <= i < |g| ==>
      unit[i] == if i == a || (before[i] < 0 && g[i].kind == Compile && i in g[a].deps[..j]) then u else before[i]
  }

  /** Those claimed with a are exactly those whose home is a. */
  lemma ClaimedAreAtHome(g: seq<GraphTask>, before: seq<int>, unit: seq<int>, units: int, kind: Kind, a: nat)
    requires DepsInRange(g) && a < |g| && g[a].kind == kind && kind != Compile && units >= 0
    requires Grouped(g, before, units, After(kind, |g|, a))
    requires Claiming(g, before, unit, units, a, |g[a].deps|)
    ensures Grouped(g, unit, units + 1, After(kind, |g|, a + 1))
  {
    assert g[a].deps[..|g[a].deps|] == g[a].deps;
    assert Home(g, a) == a;
    forall i | 0 <= i < |g|
      ensures unit[i] == units <==> Home(g, i) == a
      ensures unit[i] != units ==> unit[i] == before[i]
      ensures Taken(g, After(kind, |g|, a + 1), Home(g, i)) <==>
                Taken(g, After(kind, |g|, a), Home(g, i)) || Home(g, i) == a
    {
      assert before[i] >= 0 <==> Taken(g, After(kind, |g|, a), Home(g, i));
    }
  }

  lemma NothingToClaim(g: seq<GraphTask>, unit: seq<int>, units: int, kind: Kind, a: nat)
    requires a < |g| && Grouped(g, unit, units, After(kind, |g|, a))
    requires g[a].kind != kind
    ensures Grouped(g, unit, units, After(kind, |g|, a + 1))
  {
    forall i | 0 <= i < |g|
      ensures Taken(g, After(kind, |g|, a + 1), Home(g, i)) <==> Taken(g, After(kind, |g|, a), Home(g, i))
    {
    }
  }

  lemma ClaimingStep(g: seq<GraphTask>, before: seq<int>, unit: seq<int>, u: int, a: nat, j: nat)
    requires a < |g| && j < |g[a].deps| && |before| == |g| && Claiming(g, before, unit, u, a, j) && u >= 0
    requires 0 <= g[a].deps[j] < |g|
    ensures var d := g[a].deps[j];
            Claiming(g, before, if g[d].kind == Compile && unit[d] < 0 then unit[d := u] else unit, u, a, j + 1)
  {
    assert g[a].deps[..j + 1] == g[a].deps[..j] + [g[a].deps[j]];
  }

  /** Gives task a, and those of its compiles that have no unit yet, the unit u. */
  method ClaimWithCompiles(g: seq<GraphTask>, unit: array<int>, u: int, a: nat)
    requires DepsInRange(g) && a < |g| == unit.Length && u >= 0
    modifies unit
    ensures Claiming(g, old(unit[..]), unit[..], u, a, |g[a].deps|)
  {
    unit[a] := u;
    for j := 0 to |g[a].deps|
      invariant Claiming(g, old(unit[..]), unit[..], u, a, j)
    {
      var d := g[a].deps[j];
      assert d in g[a].deps;
      ClaimingStep(g, old(unit[..]), unit[..], u, a, j);
      ghost var now := unit[..];
      if g[d].kind == Compile && unit[d] < 0 {
        unit[d] := u;
        assert unit[..] == now[d := u];
      }
    }
  }

  method Claim(g: seq<GraphTask>, kind: Kind, unit: array<int>, units0: int) returns (units: int)
    requires DepsInRange(g) && kind != Compile && units0 >= 0
    requires Grouped(g, unit[..], units0, After(kind, |g|, 0))
    modifies unit
    ensures units >= 0 && Grouped(g, unit[..], units, After(kind, |g|, |g|))
  {
    units := units0;
    for i := 0 to |g|
      invariant units >= 0 && Grouped(g, unit[..], units, After(kind, |g|, i))
    {
      assert g[i].kind == kind ==> Home(g, i) == i;
      if g[i].kind != kind || unit[i] >= 0 {
        NothingToClaim(g, unit[..], units, kind, i);
        continue;
      }
      ghost var before := unit[..];
      ClaimWithCompiles(g, unit, units, i);
      ClaimedAreAtHome(g, before, unit[..], units, kind, i);
      units := units + 1;
    }
  }

  // ---- from units to tasks

  /** The cost of every unit, from the first m tasks. */
  function UnitCosts(w: seq<int>, unit: seq<int>, units: nat, m: nat): (cost: seq<int>)
    requires m <= |w| == |unit| && forall i :: 0 <= i < m ==> 0 <= unit[i] < units
    ensures |cost| == units
  {
    if m == 0 then seq(units, _ => 0)
    else
      var cost := UnitCosts(w, unit, units, m - 1);
      cost[unit[m - 1] := cost[unit[m - 1]] + w[m - 1]]
  }

  lemma {:induction false} UnitCostsNonNegative(w: seq<int>, unit: seq<int>, units: nat, m: nat)
    requires m <= |w| == |unit| && forall i :: 0 <= i < m ==> 0 <= unit[i] < units
    requires NonNegative(w)
    ensures NonNegative(UnitCosts(w, unit, units, m))
  {
    if m > 0 {
      UnitCostsNonNegative(w, unit, units, m - 1);
    }
  }

  /** A part carries the same load whether it is counted by units or by tasks. */
  lemma {:induction false} SameLoad(w: seq<int>, unit: seq<int>, units: nat, m: nat, asg: seq<int>, part: seq<int>,
                                    p: int)
    requires m <= |w| == |unit| == |part| && |asg| == units
    requires forall i :: 0 <= i < |w| ==> 0 <= unit[i] < units && part[i] == asg[unit[i]]
    ensures SumIn(w, On(part, Below(|w|), p), m) == Total(UnitCosts(w, unit, units, m), On(asg, Below(units), p))
  {
    if m == 0 {
      NoCost(units, On(asg, Below(units), p), units);
    } else {
      SameLoad(w, unit, units, m - 1, asg, part, p);
      var cost := UnitCosts(w, unit, units, m - 1);
      SumInUpdate(cost, unit[m - 1], w[m - 1], On(asg, Below(units), p), units);
    }
  }

  lemma {:induction false} NoCost(units: nat, s: set<int>, n: nat)
    requires n <= units
    ensures SumIn(seq(units, _ => 0), s, n) == 0
  {
    if n > 0 {
      NoCost(units, s, n - 1);
    }
  }

  lemma {:induction false} UnitCostIs(w: seq<int>, unit: seq<int>, units: nat, m: nat, u: nat)
    requires m <= |w| == |unit| && u < units && forall i :: 0 <= i < |w| ==> 0 <= unit[i] < units
    ensures UnitCosts(w, unit, units, m)[u] == SumIn(w, On(unit, Below(|w|), u), m)
  {
    if m > 0 {
      UnitCostIs(w, unit, units, m - 1, u);
    }
  }

  /** What part p carries when the tasks cost w. */
  function TaskLoad(w: seq<int>, part: seq<int>, p: int): int { Load(w, part, Below(|w|), p) }

  /** Another way to split g that keeps together what this one does, with no load above limit. */
  ghost predicate Alternative(g: seq<GraphTask>, w: seq<int>, alt: seq<int>, parts: nat, limit: int) {
    && Assigns(alt, |g|, parts) && KeepsTogether(g, alt)
    && forall p :: 0 <= p < parts ==> TaskLoad(w, alt, p) <= limit
  }

  function Members(g: seq<GraphTask>, h: nat): set<int> {
    set i | i in Below(|g|) && Home(g, i) == h
  }

  /** No group of tasks that stay together costs more than largest. */
  ghost predicate GroupsCostAtMost(g: seq<GraphTask>, w: seq<int>, largest: int) {
    forall h :: 0 <= h < |g| ==> Total(w, Members(g, h)) <= largest
  }

  /** Every task has a unit, shared with exactly the tasks of the same home. */
  ghost predicate AllGrouped(g: seq<GraphTask>, unit: seq<int>, units: nat) {
    && |unit| == |g|
    && (forall i :: 0 <= i < |g| ==> 0 <= unit[i] < units)
    && (forall i, j :: 0 <= i < |g| && 0 <= j < |g| ==> (unit[i] == unit[j] <==> Home(g, i) == Home(g, j)))
  }

  /** An alternative for the tasks, read as an assignment of the units. */
  lemma AlternativeByUnits(g: seq<GraphTask>, w: seq<int>, unit: seq<int>, units: nat, alt: seq<int>, parts: nat,
                           limit: int)
    returns (asg: seq<int>)
    requires AllGrouped(g, unit, units) && |w| == |g| && Alternative(g, w, alt, parts, limit) && parts >= 1
    ensures Within(UnitCosts(w, unit, units, |g|), asg, parts, limit)
  {
    asg := seq(units, u =>
      var s := On(unit, Below(|g|), u);
      if s == {} || Pick(s) !in Below(|g|) then 0 else alt[Pick(s)]);
    forall i | 0 <= i < |g| ensures alt[i] == asg[unit[i]] {
      var s := On(unit, Below(|g|), unit[i]);
      assert i in s;
      assert alt[i] == alt[Home(g, i)] && alt[Pick(s)] == alt[Home(g, Pick(s))];
    }
    forall p | 0 <= p < parts ensures Load(UnitCosts(w, unit, units, |g|), asg, Below(units), p) <= limit {
      SameLoad(w, unit, units, |g|, asg, alt, p);
      assert TaskLoad(w, alt, p) <= limit;
    }
  }

  lemma UnitsCostAtMost(g: seq<GraphTask>, w: seq<int>, unit: seq<int>, units: nat, largest: int)
    requires AllGrouped(g, unit, units) && |w| == |g| && NonNegative(w) && GroupsCostAtMost(g, w, largest) && g != []
    ensures NoneAbove(UnitCosts(w, unit, units, |g|), largest)
  {
    forall u | 0 <= u < units ensures UnitCosts(w, unit, units, |g|)[u] <= largest {
      UnitCostIs(w, unit, units, |g|, u);
      var s := On(unit, Below(|g|), u);
      if s == {} {
        SumInEmpty(w, |g|);
        SumInMonotone(w, {}, Members(g, 0), |g|);
        assert Total(w, Members(g, 0)) <= largest;
      } else {
        var i := Pick(s);
        forall j | 0 <= j < |g| ensures j in s <==> j in Members(g, Home(g, i)) {
        }
        assert s == Members(g, Home(g, i));
      }
    }
  }

  lemma TotalByUnits(g: seq<GraphTask>, w: seq<int>, unit: seq<int>, units: nat)
    requires AllGrouped(g, unit, units) && |w| == |g|
    ensures Total(UnitCosts(w, unit, units, |g|), Below(units)) == Total(w, Below(|g|))
  {
    var asg, part := seq(units, _ => 0), seq(|g|, _ => 0);
    SameLoad(w, unit, units, |g|, asg, part, 0);
    assert On(asg, Below(units), 0) == Below(units);
    assert On(part, Below(|g|), 0) == Below(|g|);
  }

  /**
    No part carries more than 4/3 - 1/(3 * parts) of what some part carries in any other split that keeps groups
    together.
   */
  ghost predicate NearBest(g: seq<GraphTask>, w: seq<int>, part: seq<int>, parts: nat) {
    forall alt, limit, p :: Alternative(g, w, alt, parts, limit) && 0 <= p < parts ==>
                              3 * parts * TaskLoad(w, part, p) <= (4 * parts - 1) * limit
  }

  /** No part carries more than the average by over (1 - 1/parts) of the costliest group. */
  ghost predicate NearAverage(g: seq<GraphTask>, w: seq<int>, part: seq<int>, parts: nat) {
    forall largest, p :: GroupsCostAtMost(g, w, largest) && 0 <= p < parts ==>
                           parts * TaskLoad(w, part, p) <= Total(w, Below(|w|)) + (parts - 1) * largest
  }

  /** The bounds on the loads of the units are bounds on the loads of the tasks. */
  lemma BoundsByTasks(g: seq<GraphTask>, w: seq<int>, unit: seq<int>, units: nat, asg: seq<int>, part: seq<int>,
                      parts: nat)
    requires AllGrouped(g, unit, units) && g != [] && |w| == |g| && NonNegative(w) && |part| == |g| && parts >= 1
    requires Assigns(asg, units, parts) && forall i :: 0 <= i < |g| ==> part[i] == asg[unit[i]]
    requires var cost := UnitCosts(w, unit, units, |g|);
             GrahamBound(cost, Loads(cost, asg, Below(units), parts), parts) &&
             ListBound(cost, Loads(cost, asg, Below(units), parts), parts)
    ensures NearBest(g, w, part, parts) && NearAverage(g, w, part, parts)
  {
    var cost := UnitCosts(w, unit, units, |g|);
    var load := Loads(cost, asg, Below(units), parts);
    forall p | 0 <= p < parts ensures TaskLoad(w, part, p) == load[p] {
      SameLoad(w, unit, units, |g|, asg, part, p);
    }
    forall alt, limit, p | Alternative(g, w, alt, parts, limit) && 0 <= p < parts
      ensures 3 * parts * TaskLoad(w, part, p) <= (4 * parts - 1) * limit
    {
      var other := AlternativeByUnits(g, w, unit, units, alt, parts, limit);
      assert 3 * parts * load[p] <= (4 * parts - 1) * limit;
    }
    forall largest, p | GroupsCostAtMost(g, w, largest) && 0 <= p < parts
      ensures parts * TaskLoad(w, part, p) <= Total(w, Below(|w|)) + (parts - 1) * largest
    {
      UnitsCostAtMost(g, w, unit, units, largest);
      TotalByUnits(g, w, unit, units);
      assert parts * load[p] <= Total(cost, Below(units)) + (parts - 1) * largest;
    }
  }

  lemma ArchivesToLinks(g: seq<GraphTask>, unit: seq<int>, units: int)
    requires Grouped(g, unit, units, After(Archive, |g|, |g|))
    ensures Grouped(g, unit, units, After(Link, |g|, 0))
  {
    forall i | 0 <= i < |g|
      ensures Taken(g, After(Link, |g|, 0), Home(g, i)) <==> Taken(g, After(Archive, |g|, |g|), Home(g, i))
    {
    }
  }

  lemma LinksToCompiles(g: seq<GraphTask>, unit: seq<int>, units: int)
    requires Grouped(g, unit, units, After(Link, |g|, |g|))
    ensures Grouped(g, unit, units, After(Compile, |g|, 0))
  {
    forall i | 0 <= i < |g|
      ensures Taken(g, After(Compile, |g|, 0), Home(g, i)) <==> Taken(g, After(Link, |g|, |g|), Home(g, i))
    {
    }
  }

  lemma NoneTaken(g: seq<GraphTask>, unit: seq<int>)
    requires |unit| == |g| && forall i :: 0 <= i < |g| ==> unit[i] == -1
    ensures Grouped(g, unit, 0, After(Archive, |g|, 0))
  {
  }

  lemma AllTaken(g: seq<GraphTask>, unit: seq<int>, units: nat)
    requires Grouped(g, unit, units, After(Compile, |g|, |g|))
    ensures AllGrouped(g, unit, units)
  {
  }

  /** The three passes that give every task a unit. */
  method Group(g: seq<GraphTask>) returns (unit: seq<int>, units: int)
    requires DepsInRange(g)
    ensures units >= 0 && AllGrouped(g, unit, units)
  {
    hide Grouped, AllGrouped;
    var n := |g|;
    var table := new int[n](_ => -1);
    units := 0;
    NoneTaken(g, table[..]);
    units := Claim(g, Archive, table, units);
    ArchivesToLinks(g, table[..], units);
    units := Claim(g, Link, table, units);
    LinksToCompiles(g, table[..], units);
    units := TakeLeftOvers(g, table, units);
    unit := table[..];
    AllTaken(g, unit, units);
  }

  method TakeLeftOvers(g: seq<GraphTask>, unit: array<int>, units0: int) returns (units: int)
    requires units0 >= 0 && Grouped(g, unit[..], units0, After(Compile, |g|, 0))
    modifies unit
    ensures units >= 0 && Grouped(g, unit[..], units, After(Compile, |g|, |g|))
  {
    units := units0;
    for i := 0 to |g|
      invariant units >= 0 && Grouped(g, unit[..], units, After(Compile, |g|, i))
    {
      ghost var before, had := unit[..], units;
      if unit[i] < 0 {
        unit[i] := units;
        units := units + 1;
      }
      LeftOver(g, before, unit[..], i, had);
    }
  }

  /** A task nobody claimed is its own home, and the home of nothing else. */
  lemma LeftOver(g: seq<GraphTask>, before: seq<int>, unit: seq<int>, a: nat, units: int)
    requires a < |g| && Grouped(g, before, units, After(Compile, |g|, a)) && units >= 0
    requires unit == if before[a] < 0 then before[a := units] else before
    ensures Grouped(g, unit, if before[a] < 0 then units + 1 else units, After(Compile, |g|, a + 1))
  {
    forall i | 0 <= i < |g|
      ensures Home(g, i) == a && g[a].kind == Compile ==> i == a
      ensures Taken(g, After(Compile, |g|, a + 1), Home(g, i)) <==>
              Taken(g, After(Compile, |g|, a), Home(g, i)) || (Home(g, i) == a && g[a].kind == Compile)
    {
    }
    assert before[a] >= 0 <==> Taken(g, After(Compile, |g|, a), Home(g, a));
  }

  lemma HomeIsHome(g: seq<GraphTask>, i: nat)
    requires i < |g|
    ensures Home(g, Home(g, i)) == Home(g, i)
  {
  }

  /** Where a task belongs, in terms of who lists whom. */
  lemma HomeIs(g: seq<GraphTask>, i: nat, h: nat)
    requires i < |g| && h < |g|
    ensures Home(g, i) == h <==>
            if g[i].kind == Compile && (exists a :: 0 <= a < |g| && g[a].kind == Archive && i in g[a].deps) then
              && g[h].kind == Archive && i in g[h].deps
              && forall a :: 0 <= a < h ==> !(g[a].kind == Archive && i in g[a].deps)
            else if g[i].kind == Compile && (exists a :: 0 <= a < |g| && g[a].kind == Link && i in g[a].deps) then
              && g[h].kind == Link && i in g[h].deps
              && forall a :: 0 <= a < h ==> !(g[a].kind == Link && i in g[a].deps)
            else h == i
  {
  }

  lemma StaysTogether(g: seq<GraphTask>, unit: seq<int>, units: nat, unitPart: seq<int>, part: seq<int>)
    requires AllGrouped(g, unit, units) && |unitPart| == units && |part| == |g|
    requires forall i :: 0 <= i < |g| ==> part[i] == unitPart[unit[i]]
    ensures KeepsTogether(g, part)
  {
    forall i | 0 <= i < |g| ensures part[i] == part[Home(g, i)] {
      HomeIsHome(g, i);
    }
  }

  /** Both bounds, over the tasks' own costs, of which one below one counts as one. */
  ghost predicate Balanced(g: seq<GraphTask>, part: seq<int>, parts: int)
    requires parts >= 1 && Assigns(part, |g|, parts)
  {
    forall w: seq<int> ::
      |w| == |g| && (forall i :: 0 <= i < |g| ==> w[i] == if g[i].cost < 1 then 1 else g[i].cost) ==>
        NearBest(g, w, part, parts) && NearAverage(g, w, part, parts)
  }

  lemma OneWeighing(g: seq<GraphTask>, weights: seq<int>, part: seq<int>, parts: nat)
    requires parts >= 1 && Assigns(part, |g|, parts)
    requires |weights| == |g| && forall i :: 0 <= i < |g| ==> weights[i] == if g[i].cost < 1 then 1 else g[i].cost
    requires NearBest(g, weights, part, parts) && NearAverage(g, weights, part, parts)
    ensures Balanced(g, part, parts)
  {
    hide NearBest, NearAverage;
    forall w: seq<int> |
      |w| == |g| && (forall i :: 0 <= i < |g| ==> w[i] == if g[i].cost < 1 then 1 else g[i].cost)
      ensures w == weights
    {
    }
  }

  method Partition(g: seq<GraphTask>, parts: int) returns (part: seq<int>)
    requires DepsInRange(g)
    ensures KeepsTogether(g, part)
    ensures parts <= 1 ==> part == seq(|g|, _ => 0)
    ensures parts >= 1 ==> Assigns(part, |g|, parts)
    ensures parts > 1 && g != [] ==> Balanced(g, part, parts)
  {
    hide NearBest, NearAverage, Home, FirstUser, SumIn, GrahamBound, ListBound, Loads;
    var n := |g|;
    part := seq(n, _ => 0);
    if parts <= 1 || n == 0 {
      return;
    }
    var unit, units := Group(g);
    assert 0 <= unit[0] < units;
    ghost var weights := seq(n, i requires 0 <= i < n => if g[i].cost < 1 then 1 else g[i].cost);
    var cost := seq(units, _ => 0);
    for i := 0 to n
      invariant cost == UnitCosts(weights, unit, units, i)
    {
      cost := cost[unit[i] := cost[unit[i]] + if g[i].cost < 1 then 1 else g[i].cost];
    }
    UnitCostsNonNegative(weights, unit, units, n);
    var unitPart := Schedule(cost, parts);
    part := seq(n, i requires 0 <= i < n => unitPart[unit[i]]);
    BoundsByTasks(g, weights, unit, units, unitPart, part, parts);
    StaysTogether(g, unit, units, unitPart, part);
    OneWeighing(g, weights, part, parts);
  }
}
