/** Sums of costs, the loads of parts, and the steps of two scheduling bounds. */
module Balance {
  // The 4/3 bound compares with any assignment: a unit above a third of its limit still fits, since parts that hold
  // one such unit cannot outnumber those of the assignment compared with.

  /** The costs of those of the first n units that lie in s. */
  function SumIn(cost: seq<int>, s: set<int>, n: nat): int
    requires n <= |cost|
  {
    if n == 0 then 0 else SumIn(cost, s, n - 1) + if n - 1 in s then cost[n - 1] else 0
  }

  function Total(cost: seq<int>, s: set<int>): int { SumIn(cost, s, |cost|) }

  predicate NonNegative(cost: seq<int>) { forall u :: 0 <= u < |cost| ==> cost[u] >= 0 }

  predicate Units(s: set<int>, cost: seq<int>) { forall u :: u in s ==> 0 <= u < |cost| }

  lemma {:induction false} SumInAdd(cost: seq<int>, s: set<int>, x: int, n: nat)
    requires n <= |cost| && x !in s
    ensures SumIn(cost, s + {x}, n) == SumIn(cost, s, n) + if 0 <= x < n then cost[x] else 0
  {
    if n > 0 {
      SumInAdd(cost, s, x, n - 1);
    }
  }

  lemma TotalAdd(cost: seq<int>, s: set<int>, x: int)
    requires 0 <= x < |cost| && x !in s
    ensures Total(cost, s + {x}) == Total(cost, s) + cost[x]
  {
    SumInAdd(cost, s, x, |cost|);
  }

  lemma {:induction false} SumInEmpty(cost: seq<int>, n: nat)
    requires n <= |cost|
    ensures SumIn(cost, {}, n) == 0
  {
    if n > 0 {
      SumInEmpty(cost, n - 1);
    }
  }

  lemma {:induction false} SumInMonotone(cost: seq<int>, s: set<int>, t: set<int>, n: nat)
    requires n <= |cost| && NonNegative(cost) && s <= t
    ensures 0 <= SumIn(cost, s, n) <= SumIn(cost, t, n)
  {
    if n > 0 {
      SumInMonotone(cost, s, t, n - 1);
    }
  }

  lemma {:induction false} SumInUpdate(cost: seq<int>, u: nat, w: int, s: set<int>, n: nat)
    requires n <= |cost| && u < |cost|
    ensures SumIn(cost[u := cost[u] + w], s, n) == SumIn(cost, s, n) + if u in s && u < n then w else 0
  {
    if n > 0 {
      SumInUpdate(cost, u, w, s, n - 1);
    }
  }

  /** What a part of s costs, one member taken out. */
  lemma TakeOut(cost: seq<int>, s: set<int>, x: int)
    requires Units(s, cost) && x in s
    ensures Total(cost, s) == Total(cost, s - {x}) + cost[x]
  {
    TotalAdd(cost, s - {x}, x);
    assert s - {x} + {x} == s;
  }

  ghost function Pick<T>(s: set<T>): (x: T)
    requires s != {}
    ensures x in s
  {
    var x :| x in s;
    x
  }

  // ---- assignments of units to parts

  predicate Assigns(asg: seq<int>, n: nat, parts: nat) {
    |asg| == n && forall u :: 0 <= u < n ==> 0 <= asg[u] < parts
  }

  /** The members of s that asg sends to part p. */
  function On(asg: seq<int>, s: set<int>, p: int): set<int> {
    set u | u in s && 0 <= u < |asg| && asg[u] == p
  }

  function Load(cost: seq<int>, asg: seq<int>, s: set<int>, p: int): int { Total(cost, On(asg, s, p)) }

  function Sum(v: seq<int>): int { if v == [] then 0 else v[0] + Sum(v[1..]) }

  lemma {:induction false} SumUpdate(v: seq<int>, p: nat, c: int)
    requires p < |v|
    ensures Sum(v[p := v[p] + c]) == Sum(v) + c
  {
    var v' := v[p := v[p] + c];
    if p == 0 {
      assert v'[1..] == v[1..];
    } else {
      assert v'[1..] == v[1..][p - 1 := v[1..][p - 1] + c];
      SumUpdate(v[1..], p - 1, c);
    }
  }

  function Loads(cost: seq<int>, asg: seq<int>, s: set<int>, parts: nat): (v: seq<int>)
    ensures |v| == parts
  {
    seq(parts, p => Load(cost, asg, s, p))
  }

  /** Placing x adds its cost to its own part only. */
  lemma LoadsAdd(cost: seq<int>, asg: seq<int>, s: set<int>, x: int, parts: nat)
    requires Assigns(asg, |cost|, parts) && Units(s, cost) && 0 <= x < |cost| && x !in s
    ensures var p := asg[x];
            Loads(cost, asg, s + {x}, parts) == Loads(cost, asg, s, parts)[p := Load(cost, asg, s, p) + cost[x]]
  {
    forall q | 0 <= q < parts
      ensures Load(cost, asg, s + {x}, q) == Load(cost, asg, s, q) + if q == asg[x] then cost[x] else 0
    {
      if q == asg[x] {
        assert On(asg, s + {x}, q) == On(asg, s, q) + {x};
        TotalAdd(cost, On(asg, s, q), x);
      } else {
        assert On(asg, s + {x}, q) == On(asg, s, q);
      }
    }
  }

  /** No load is lost or invented: the parts together carry all of s. */
  lemma {:induction false} LoadsConserve(cost: seq<int>, asg: seq<int>, s: set<int>, parts: nat)
    requires Assigns(asg, |cost|, parts) && Units(s, cost)
    ensures Sum(Loads(cost, asg, s, parts)) == Total(cost, s)
    decreases |s|
  {
    if s == {} {
      forall p | 0 <= p < parts ensures Load(cost, asg, s, p) == 0 {
        assert On(asg, s, p) == {};
        SumInEmpty(cost, |cost|);
      }
      SumInEmpty(cost, |cost|);
      SumOfZeros(Loads(cost, asg, s, parts));
    } else {
      var x := Pick(s);
      var rest := s - {x};
      assert rest + {x} == s;
      LoadsConserve(cost, asg, rest, parts);
      LoadsAdd(cost, asg, rest, x, parts);
      SumUpdate(Loads(cost, asg, rest, parts), asg[x], cost[x]);
      TotalAdd(cost, rest, x);
    }
  }

  lemma {:induction false} SumOfZeros(v: seq<int>)
    requires forall p :: 0 <= p < |v| ==> v[p] == 0
    ensures Sum(v) == 0
  {
    if v != [] {
      SumOfZeros(v[1..]);
    }
  }

  lemma {:induction false} SumBounds(v: seq<int>, lo: int, hi: int)
    requires forall p :: 0 <= p < |v| ==> lo <= v[p] <= hi
    ensures |v| * lo <= Sum(v) <= |v| * hi
  {
    if v != [] {
      SumBounds(v[1..], lo, hi);
      assert |v| * lo == lo + (|v| - 1) * lo && |v| * hi == hi + (|v| - 1) * hi;
    }
  }

  // ---- the counting argument for large units

  lemma {:induction false} ImageSize(s: set<int>, f: int -> int, t: set<int>)
    requires forall x :: x in s ==> f(x) in t
    requires forall x, y :: x in s && y in s && f(x) == f(y) ==> x == y
    ensures |s| <= |t|
  {
    if s != {} {
      var x := Pick(s);
      ImageSize(s - {x}, f, t - {f(x)});
    }
  }

  /** The units of s that asg sends below part k. */
  function OnBelow(asg: seq<int>, s: set<int>, k: int): set<int> {
    set u | u in s && 0 <= u < |asg| && asg[u] < k
  }

  function PartsBelow(single: set<int>, k: int): set<int> { set p | p in single && p < k }

  lemma OnBelowStep(asg: seq<int>, s: set<int>, k: nat)
    ensures |OnBelow(asg, s, k + 1)| == |OnBelow(asg, s, k)| + |On(asg, s, k)|
  {
    assert OnBelow(asg, s, k + 1) == OnBelow(asg, s, k) + On(asg, s, k);
    assert OnBelow(asg, s, k) !! On(asg, s, k);
  }

  lemma PartsBelowStep(single: set<int>, k: nat)
    ensures |PartsBelow(single, k + 1)| == |PartsBelow(single, k)| + if k in single then 1 else 0
  {
    if k in single {
      assert PartsBelow(single, k + 1) == PartsBelow(single, k) + {k};
    } else {
      assert PartsBelow(single, k + 1) == PartsBelow(single, k);
    }
  }

  /** Parts that carry at least two units, except the single ones, which carry one. */
  lemma {:induction false} AtLeast(asg: seq<int>, s: set<int>, single: set<int>, k: nat)
    requires forall u :: u in s && 0 <= u < |asg| ==> asg[u] >= 0
    requires forall p :: p in single ==> p >= 0
    requires forall p :: 0 <= p < k ==> |On(asg, s, p)| >= if p in single then 1 else 2
    ensures |OnBelow(asg, s, k)| >= 2 * k - |PartsBelow(single, k)|
  {
    if k > 0 {
      AtLeast(asg, s, single, k - 1);
      OnBelowStep(asg, s, k - 1);
      PartsBelowStep(single, k - 1);
    } else {
      assert OnBelow(asg, s, 0) == {} && PartsBelow(single, 0) == {};
    }
  }

  /** Parts that carry at most two units, except the single ones, which carry at most one. */
  lemma {:induction false} AtMost(asg: seq<int>, s: set<int>, single: set<int>, k: nat)
    requires forall u :: u in s && 0 <= u < |asg| ==> asg[u] >= 0
    requires forall p :: p in single ==> p >= 0
    requires forall p :: 0 <= p < k ==> |On(asg, s, p)| <= if p in single then 1 else 2
    ensures |OnBelow(asg, s, k)| <= 2 * k - |PartsBelow(single, k)|
  {
    if k > 0 {
      AtMost(asg, s, single, k - 1);
      OnBelowStep(asg, s, k - 1);
      PartsBelowStep(single, k - 1);
    } else {
      assert OnBelow(asg, s, 0) == {} && PartsBelow(single, 0) == {};
    }
  }

  /** Every unit of s costs at least c, and together they cost at most limit < 3 * c: there are at most two. */
  lemma AtMostTwo(cost: seq<int>, s: set<int>, c: int, limit: int)
    requires Units(s, cost) && NonNegative(cost)
    requires forall u :: u in s ==> cost[u] >= c
    requires Total(cost, s) <= limit < 3 * c
    ensures |s| <= 2
  {
    if |s| > 2 {
      var x := Pick(s);
      TakeOut(cost, s, x);
      var s1 := s - {x};
      assert |s1| == |s| - 1;
      var y := Pick(s1);
      TakeOut(cost, s1, y);
      var s2 := s1 - {y};
      assert |s2| == |s1| - 1;
      var z := Pick(s2);
      SumInEmpty(cost, |cost|);
      SumInMonotone(cost, {}, s2 - {z}, |cost|);
      TakeOut(cost, s2, z);
    }
  }

  /** A unit so large that nothing fits beside it is alone. */
  lemma Alone(cost: seq<int>, s: set<int>, x: int, c: int, limit: int)
    requires Units(s, cost) && NonNegative(cost) && x in s
    requires forall u :: u in s ==> cost[u] >= c
    requires Total(cost, s) <= limit && cost[x] + c > limit
    ensures s == {x}
  {
    if s != {x} {
      SumInEmpty(cost, |cost|);
      TakeOut(cost, s, x);
      var s1 := s - {x};
      assert s == s1 + {x};
      var y := Pick(s1);
      SumInMonotone(cost, {}, s1 - {y}, |cost|);
      TakeOut(cost, s1, y);
    }
  }

  /**
    The situation just before unit x goes to the lightest part q, with an alternative opt whose loads are at most
    limit.
   */
  ghost predicate Placing(cost: seq<int>, asg: seq<int>, opt: seq<int>, s: set<int>, x: int, q: int, parts: nat,
                          limit: int)
  {
    && NonNegative(cost) && Units(s, cost) && 0 <= x < |cost| && x !in s
    && Assigns(asg, |cost|, parts) && Assigns(opt, |cost|, parts)
    && 0 <= q < parts
    && (forall p :: 0 <= p < parts ==> Load(cost, asg, s, q) <= Load(cost, asg, s, p))
    && (forall u :: u in s ==> cost[u] >= cost[x])
    && (forall p :: 0 <= p < parts ==> Load(cost, opt, s + {x}, p) <= limit)
  }

  lemma LimitIsLarge(cost: seq<int>, asg: seq<int>, opt: seq<int>, s: set<int>, x: int, q: int, parts: nat, limit: int)
    requires Placing(cost, asg, opt, s, x, q, parts, limit)
    ensures limit >= cost[x]
  {
    var o := On(opt, s + {x}, opt[x]);
    assert Load(cost, opt, s + {x}, opt[x]) <= limit;
    TakeOut(cost, o, x);
    SumInMonotone(cost, {}, o - {x}, |cost|);
    SumInEmpty(cost, |cost|);
  }

  /** When x costs more than a third of limit, the lightest part has room for it below limit. */
  lemma LargeUnitFits(cost: seq<int>, asg: seq<int>, opt: seq<int>, s: set<int>, x: int, q: int, parts: nat, limit: int)
    requires Placing(cost, asg, opt, s, x, q, parts, limit)
    requires 3 * cost[x] > limit
    ensures Load(cost, asg, s, q) + cost[x] <= limit
  {
    if Load(cost, asg, s, q) + cost[x] > limit {
      var c, t := cost[x], s + {x};
      LimitIsLarge(cost, asg, opt, s, x, q, parts, limit);
      var single := set p | 0 <= p < parts && |On(asg, s, p)| == 1;
      var alone := set p | 0 <= p < parts && |On(opt, t, p)| <= 1;
      forall p | 0 <= p < parts ensures |On(asg, s, p)| >= if p in single then 1 else 2 {
        assert Load(cost, asg, s, p) > 0;
        if On(asg, s, p) == {} {
          SumInEmpty(cost, |cost|);
        }
      }
      forall p | 0 <= p < parts ensures |On(opt, t, p)| <= if p in alone then 1 else 2 {
        assert Load(cost, opt, t, p) <= limit;
        AtMostTwo(cost, On(opt, t, p), c, limit);
      }
      AtLeast(asg, s, single, parts);
      AtMost(opt, t, alone, parts);
      assert OnBelow(asg, s, parts) == s && OnBelow(opt, t, parts) == t;
      assert PartsBelow(single, parts) == single && PartsBelow(alone, parts) == alone;
      SinglesAreAlone(cost, asg, opt, s, x, q, parts, limit, single, alone);
    }
  }

  /** A unit alone on its part under asg is alone on its part under opt, so opt has at least as many such parts. */
  lemma SinglesAreAlone(cost: seq<int>, asg: seq<int>, opt: seq<int>, s: set<int>, x: int, q: int, parts: nat,
                        limit: int, single: set<int>, alone: set<int>)
    requires Placing(cost, asg, opt, s, x, q, parts, limit)
    requires Load(cost, asg, s, q) + cost[x] > limit
    requires single == set p | 0 <= p < parts && |On(asg, s, p)| == 1
    requires alone == set p | 0 <= p < parts && |On(opt, s + {x}, p)| <= 1
    ensures |single| <= |alone|
  {
    var t := s + {x};
    var f := (p: int) =>
      if On(asg, s, p) != {} && 0 <= Pick(On(asg, s, p)) < |opt| then opt[Pick(On(asg, s, p))] else 0;
    forall p | p in single
      ensures On(asg, s, p) != {} && f(p) in alone
      ensures On(opt, t, f(p)) == {Pick(On(asg, s, p))}
    {
      var a := On(asg, s, p);
      var u := Pick(a);
      assert a == {u} by {
        assert |a - {u}| == 0;
      }
      TakeOut(cost, a, u);
      assert a - {u} == {};
      SumInEmpty(cost, |cost|);
      assert Load(cost, asg, s, p) == cost[u];
      assert Load(cost, opt, t, opt[u]) <= limit;
      Alone(cost, On(opt, t, opt[u]), u, cost[x], limit);
    }
    forall p, p' | p in single && p' in single && f(p) == f(p') ensures p == p' {
      assert {Pick(On(asg, s, p))} == {Pick(On(asg, s, p'))};
      assert Pick(On(asg, s, p)) in {Pick(On(asg, s, p'))};
      assert asg[Pick(On(asg, s, p))] == p && asg[Pick(On(asg, s, p'))] == p';
    }
    ImageSize(single, f, alone);
  }

  /**
    Placing the next-cheapest unit on the lightest part keeps every load within 4/3 - 1/(3 * parts) of the alternative.
   */
  lemma GrahamStep(cost: seq<int>, asg: seq<int>, opt: seq<int>, s: set<int>, x: int, q: int, parts: nat, limit: int)
    requires Placing(cost, asg, opt, s, x, q, parts, limit)
    ensures 3 * parts * (Load(cost, asg, s, q) + cost[x]) <= (4 * parts - 1) * limit
  {
    var c, low := cost[x], Load(cost, asg, s, q);
    LimitIsLarge(cost, asg, opt, s, x, q, parts, limit);
    if 3 * c > limit {
      LargeUnitFits(cost, asg, opt, s, x, q, parts, limit);
      assert 3 * parts * (low + c) <= 3 * parts * limit;
      assert (4 * parts - 1) * limit == 3 * parts * limit + (parts - 1) * limit;
    } else {
      LoadsConserve(cost, asg, s, parts);
      LoadsConserve(cost, opt, s + {x}, parts);
      TotalAdd(cost, s, x);
      var most := MaxOf(Loads(cost, asg, s, parts));
      SumBounds(Loads(cost, asg, s, parts), low, most);
      var o := Loads(cost, opt, s + {x}, parts);
      forall p | 0 <= p < parts ensures 0 <= o[p] <= limit {
        SumInMonotone(cost, {}, On(opt, s + {x}, p), |cost|);
        SumInEmpty(cost, |cost|);
      }
      SumBounds(o, 0, limit);
      SmallUnitArithmetic(parts, low, c, limit);
    }
  }

  lemma SmallUnitArithmetic(parts: nat, low: int, c: int, limit: int)
    requires parts >= 1 && 3 * c <= limit && parts * low + c <= parts * limit
    ensures 3 * parts * (low + c) <= (4 * parts - 1) * limit
  {
    assert 3 * parts * (low + c) == 3 * (parts * low + c) + (parts - 1) * (3 * c);
    assert (parts - 1) * (3 * c) <= (parts - 1) * limit;
    assert (4 * parts - 1) * limit == 3 * (parts * limit) + (parts - 1) * limit;
  }

  function MaxOf(v: seq<int>): (m: int)
    requires v != []
    ensures forall p :: 0 <= p < |v| ==> v[p] <= m
  {
    if |v| == 1 then v[0]
    else
      var rest := MaxOf(v[1..]);
      if v[0] < rest then rest else v[0]
  }

  /** Placing x on the lightest part keeps parts * load within the total cost plus parts - 1 times the largest. */
  lemma ListStep(cost: seq<int>, asg: seq<int>, s: set<int>, x: int, q: int, parts: nat, all: set<int>, largest: int)
    requires NonNegative(cost) && Units(all, cost) && s + {x} <= all && x !in s && x in all
    requires Assigns(asg, |cost|, parts) && 0 <= q < parts
    requires forall p :: 0 <= p < parts ==> Load(cost, asg, s, q) <= Load(cost, asg, s, p)
    requires cost[x] <= largest
    ensures parts * (Load(cost, asg, s, q) + cost[x]) <= Total(cost, all) + (parts - 1) * largest
  {
    var c, low := cost[x], Load(cost, asg, s, q);
    LoadsConserve(cost, asg, s, parts);
    TotalAdd(cost, s, x);
    SumInMonotone(cost, s + {x}, all, |cost|);
    SumBounds(Loads(cost, asg, s, parts), low, MaxOf(Loads(cost, asg, s, parts)));
    ListArithmetic(parts, low, c, largest);
  }

  lemma ListArithmetic(parts: nat, low: int, c: int, largest: int)
    requires parts >= 1 && c <= largest
    ensures parts * (low + c) <= parts * low + c + (parts - 1) * largest
  {
    assert parts * (low + c) == parts * low + c + (parts - 1) * c;
    assert (parts - 1) * c <= (parts - 1) * largest;
  }
}
