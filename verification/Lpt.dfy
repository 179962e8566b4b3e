/** Places units in descending order of cost. */
module Lpt {
  import opened Graphs
  import opened Balance

  // ---- the order of the units: std::stable_sort by descending cost

  predicate Descending(cost: seq<int>, order: seq<int>)
    requires InRange(order, |cost|)
  {
    forall j, k :: 0 <= j < k < |order| ==> cost[order[j]] >= cost[order[k]]
  }

  predicate Sorted(cost: seq<int>, order: seq<int>) {
    InRange(order, |cost|) && Distinct(order) && Descending(cost, order)
  }

  lemma AppendCheapest(cost: seq<int>, order: seq<int>, x: nat)
    requires Sorted(cost, order) && x < |cost| && x !in order
    requires forall j :: 0 <= j < |order| ==> cost[order[j]] >= cost[x]
    ensures Sorted(cost, order + [x])
  {
  }

  /** x goes behind everything that costs at least as much. */
  function Insert(cost: seq<int>, order: seq<int>, x: nat): (r: seq<int>)
    requires x < |cost| && Sorted(cost, order) && x !in order
    ensures |r| == |order| + 1 && Sorted(cost, r)
    ensures forall y :: y in r <==> y in order || y == x
  {
    var last := |order| - 1;
    if order == [] || cost[order[last]] >= cost[x] then
      AppendCheapest(cost, order, x);
      order + [x]
    else
      var (front, z) := (order[..last], order[last]);
      var r := Insert(cost, front, x);
      assert order == front + [z];
      assert forall j :: 0 <= j < |r| ==> cost[r[j]] >= cost[z] by {
        forall j | 0 <= j < |r| ensures cost[r[j]] >= cost[z] {
          assert r[j] in r;
        }
      }
      AppendCheapest(cost, r, z);
      r + [z]
  }

  function ByCost(cost: seq<int>, n: nat): (r: seq<int>)
    requires n <= |cost|
    ensures |r| == n && Sorted(cost, r) && forall y :: y in r ==> y < n
  {
    if n == 0 then [] else Insert(cost, ByCost(cost, n - 1), n - 1)
  }

  // ---- the bound against any other way to place the units

  ghost predicate Within(cost: seq<int>, opt: seq<int>, parts: nat, limit: int) {
    Assigns(opt, |cost|, parts) && forall p :: 0 <= p < parts ==> Load(cost, opt, Below(|cost|), p) <= limit
  }

  /** No load exceeds 4/3 - 1/(3 * parts) of the greatest load of any other assignment. */
  ghost predicate GrahamBound(cost: seq<int>, load: seq<int>, parts: nat) {
    forall opt, limit, p :: Within(cost, opt, parts, limit) && 0 <= p < |load| ==>
                              3 * parts * load[p] <= (4 * parts - 1) * limit
  }

  predicate NoneAbove(cost: seq<int>, largest: int) { forall u :: 0 <= u < |cost| ==> cost[u] <= largest }

  /** No load exceeds the average by more than (1 - 1/parts) of the largest unit. */
  ghost predicate ListBound(cost: seq<int>, load: seq<int>, parts: nat) {
    forall largest, p :: NoneAbove(cost, largest) && 0 <= p < |load| ==>
                           parts * load[p] <= Total(cost, Below(|cost|)) + (parts - 1) * largest
  }

  predicate Lightest(load: seq<int>, q: int) {
    0 <= q < |load| && forall p :: 0 <= p < |load| ==> load[q] <= load[p]
  }

  lemma NothingPlaced(cost: seq<int>, asg: seq<int>, parts: nat)
    requires NonNegative(cost) && parts >= 1
    ensures Loads(cost, asg, {}, parts) == seq(parts, _ => 0)
    ensures cost != [] ==> GrahamBound(cost, seq(parts, _ => 0), parts) && ListBound(cost, seq(parts, _ => 0), parts)
  {
    forall p | 0 <= p < parts ensures Load(cost, asg, {}, p) == 0 {
      assert On(asg, {}, p) == {};
      SumInEmpty(cost, |cost|);
    }
    SumInMonotone(cost, {}, Below(|cost|), |cost|);
    SumInEmpty(cost, |cost|);
    if cost != [] {
      forall opt, limit | Within(cost, opt, parts, limit) ensures limit >= 0 {
        assert Load(cost, opt, Below(|cost|), 0) <= limit;
        SumInMonotone(cost, {}, On(opt, Below(|cost|), 0), |cost|);
      }
      forall opt, limit | Within(cost, opt, parts, limit) ensures 0 <= (4 * parts - 1) * limit {
      }
      forall largest | NoneAbove(cost, largest)
        ensures 0 <= (parts - 1) * largest
      {
        assert 0 <= cost[0] <= largest;
      }
    }
  }

  lemma PlacingKeepsGrahamBound(cost: seq<int>, asg: seq<int>, s: set<int>, x: int, q: int, parts: nat)
    requires NonNegative(cost) && Units(s, cost) && 0 <= x < |cost| && x !in s && Assigns(asg, |cost|, parts)
    requires Lightest(Loads(cost, asg, s, parts), q)
    requires forall u :: u in s ==> cost[u] >= cost[x]
    requires GrahamBound(cost, Loads(cost, asg, s, parts), parts)
    ensures var load := Loads(cost, asg, s, parts);
            GrahamBound(cost, load[q := load[q] + cost[x]], parts)
  {
    var load := Loads(cost, asg, s, parts);
    assert forall p :: 0 <= p < parts ==> load[p] == Load(cost, asg, s, p);
    forall opt, limit | Within(cost, opt, parts, limit)
      ensures 3 * parts * (load[q] + cost[x]) <= (4 * parts - 1) * limit
    {
      forall p | 0 <= p < parts ensures Load(cost, opt, s + {x}, p) <= limit {
        SumInMonotone(cost, On(opt, s + {x}, p), On(opt, Below(|cost|), p), |cost|);
        assert Load(cost, opt, Below(|cost|), p) <= limit;
      }
      GrahamStep(cost, asg, opt, s, x, q, parts, limit);
    }
  }

  lemma PlacingKeepsListBound(cost: seq<int>, asg: seq<int>, s: set<int>, x: int, q: int, parts: nat)
    requires NonNegative(cost) && Units(s, cost) && 0 <= x < |cost| && x !in s && Assigns(asg, |cost|, parts)
    requires Lightest(Loads(cost, asg, s, parts), q)
    requires ListBound(cost, Loads(cost, asg, s, parts), parts)
    ensures var load := Loads(cost, asg, s, parts);
            ListBound(cost, load[q := load[q] + cost[x]], parts)
  {
    var load := Loads(cost, asg, s, parts);
    assert forall p :: 0 <= p < parts ==> load[p] == Load(cost, asg, s, p);
    forall largest | NoneAbove(cost, largest)
      ensures parts * (load[q] + cost[x]) <= Total(cost, Below(|cost|)) + (parts - 1) * largest
    {
      ListStep(cost, asg, s, x, q, parts, Below(|cost|), largest);
    }
  }

  /** Where an unplaced unit would go does not matter to the loads. */
  lemma LoadsIgnoreUnplaced(cost: seq<int>, asg: seq<int>, s: set<int>, x: int, p: int, parts: nat)
    requires 0 <= x < |asg| && x !in s
    ensures Loads(cost, asg[x := p], s, parts) == Loads(cost, asg, s, parts)
  {
    forall q | 0 <= q < parts ensures Load(cost, asg[x := p], s, q) == Load(cost, asg, s, q) {
      assert On(asg[x := p], s, q) == On(asg, s, q);
    }
  }

  method LightestPart(load: array<int>) returns (p: int)
    requires load.Length > 0
    ensures Lightest(load[..], p)
    ensures forall q :: 0 <= q < p ==> load[q] > load[p]
  {
    p := 0;
    for q := 1 to load.Length
      invariant 0 <= p < q
      invariant forall r :: 0 <= r < q ==> load[p] <= load[r]
      invariant forall r :: 0 <= r < p ==> load[r] > load[p]
    {
      if load[q] < load[p] {
        p := q;
      }
    }
  }

  /** The units placed by the first k entries of the order. */
  lemma PlaceNext(cost: seq<int>, order: seq<int>, k: nat)
    requires Sorted(cost, order) && k < |order|
    ensures var s, x := ToSet(order[..k]), order[k];
            x !in s && ToSet(order[..k + 1]) == s + {x} && Units(s, cost) && forall u :: u in s ==> cost[u] >= cost[x]
  {
    assert order[..k + 1] == order[..k] + [order[k]];
  }

  /** The first k units of the order are placed, and the loads obey both bounds. */
  ghost predicate Placed(cost: seq<int>, order: seq<int>, asg: seq<int>, load: seq<int>, k: nat, parts: nat)
    requires k <= |order|
  {
    && Assigns(asg, |cost|, parts)
    && load == Loads(cost, asg, ToSet(order[..k]), parts)
    && GrahamBound(cost, load, parts) && ListBound(cost, load, parts)
  }

  lemma PlaceOne(cost: seq<int>, order: seq<int>, asg: seq<int>, load: seq<int>, k: nat, p: int, parts: nat)
    requires NonNegative(cost) && Sorted(cost, order)
    requires k < |order| && Placed(cost, order, asg, load, k, parts) && Lightest(load, p)
    ensures var u := order[k];
            Placed(cost, order, asg[u := p], load[p := load[p] + cost[u]], k + 1, parts)
  {
    var s, u := ToSet(order[..k]), order[k];
    PlaceNext(cost, order, k);
    PlacingKeepsGrahamBound(cost, asg, s, u, p, parts);
    PlacingKeepsListBound(cost, asg, s, u, p, parts);
    LoadsIgnoreUnplaced(cost, asg, s, u, p, parts);
    var asg' := asg[u := p];
    assert Assigns(asg', |cost|, parts);
    LoadsAdd(cost, asg', s, u, parts);
    assert Loads(cost, asg', s, parts)[p] == Load(cost, asg', s, p);
  }

  method Schedule(cost: seq<int>, parts: nat) returns (asg: seq<int>)
    requires NonNegative(cost) && parts >= 1 && cost != []
    ensures Assigns(asg, |cost|, parts)
    ensures GrahamBound(cost, Loads(cost, asg, Below(|cost|), parts), parts)
    ensures ListBound(cost, Loads(cost, asg, Below(|cost|), parts), parts)
  {
    var order := ByCost(cost, |cost|);
    var load := new int[parts](_ => 0);
    asg := seq(|cost|, _ => 0);
    NothingPlaced(cost, asg, parts);
    assert ToSet(order[..0]) == {};
    assert load[..] == seq(parts, _ => 0);
    for k := 0 to |order|
      invariant Placed(cost, order, asg, load[..], k, parts)
    {
      var u := order[k];
      var p := LightestPart(load);
      ghost var before := load[..];
      PlaceOne(cost, order, asg, before, k, p, parts);
      asg := asg[u := p];
      load[p] := load[p] + cost[u];
      assert load[..] == before[p := before[p] + cost[u]];
    }
    Covers(order, |cost|);
    assert order[..|order|] == order;
    assert ToSet(order) == Below(|cost|);
  }
}
