/**
 Greedy matching against one side of an order book, by the exact worth of its prices: which
 shares an order takes, and that no other choice of as many shares is better.
 */
module Matching {
  import opened Common

  datatype Side = Buy | Sell
  datatype Level = Level(price: real, quantity: int)

  // ---------------------------------------------------------------- order books

  /** Smaller is better for the order's side. */
  function Key(side: Side, price: real): real {
    if side == Buy then price else -price
  }

  predicate ValidLevels(levels: seq<Level>) {
    forall k :: 0 <= k < |levels| ==> levels[k].price > 0.0 && levels[k].quantity > 0
  }

  predicate Sorted(levels: seq<Level>, side: Side) {
    forall i, k :: 0 <= i < k < |levels| ==> Key(side, levels[i].price) <= Key(side, levels[k].price)
  }

  /** Stable insertion: after every level at least as good. */
  function Insert(level: Level, levels: seq<Level>, side: Side): seq<Level> {
    if levels == [] || Key(side, level.price) < Key(side, levels[0].price) then [level] + levels
    else [levels[0]] + Insert(level, levels[1..], side)
  }

  function SortLevels(levels: seq<Level>, side: Side): seq<Level> {
    if levels == [] then [] else Insert(levels[|levels| - 1], SortLevels(levels[..|levels| - 1], side), side)
  }

  lemma {:induction false} InsertKeeps(level: Level, levels: seq<Level>, side: Side)
    ensures multiset(Insert(level, levels, side)) == multiset(levels) + multiset{level}
  {
    if levels != [] && Key(side, level.price) >= Key(side, levels[0].price) {
      InsertKeeps(level, levels[1..], side);
      assert levels == [levels[0]] + levels[1..];
    }
  }

  predicate AtLeast(levels: seq<Level>, side: Side, floor: real) {
    forall k :: 0 <= k < |levels| ==> floor <= Key(side, levels[k].price)
  }

  lemma {:induction false} InsertAtLeast(level: Level, levels: seq<Level>, side: Side, floor: real)
    requires AtLeast(levels, side, floor) && floor <= Key(side, level.price)
    ensures AtLeast(Insert(level, levels, side), side, floor)
  {
    if levels != [] && Key(side, level.price) >= Key(side, levels[0].price) {
      InsertAtLeast(level, levels[1..], side, floor);
    }
  }

  lemma {:induction false} InsertSorts(level: Level, levels: seq<Level>, side: Side)
    requires Sorted(levels, side)
    ensures Sorted(Insert(level, levels, side), side)
  {
    if levels != [] && Key(side, level.price) >= Key(side, levels[0].price) {
      InsertSorts(level, levels[1..], side);
      InsertAtLeast(level, levels[1..], side, Key(side, levels[0].price));
    }
  }

  /** Python's `sorted`: the same levels, best price first. */
  lemma {:induction false} SortLevelsSorts(levels: seq<Level>, side: Side)
    ensures Sorted(SortLevels(levels, side), side)
    ensures multiset(SortLevels(levels, side)) == multiset(levels)
  {
    hide Insert, Key;
    if levels != [] {
      SortLevelsSorts(levels[..|levels| - 1], side);
      InsertSorts(levels[|levels| - 1], SortLevels(levels[..|levels| - 1], side), side);
      InsertKeeps(levels[|levels| - 1], SortLevels(levels[..|levels| - 1], side), side);
      assert levels == levels[..|levels| - 1] + [levels[|levels| - 1]];
    }
  }

  // ---------------------------------------------------------------- greedy matching

  predicate Eligible(side: Side, limit: Option<real>, price: real) {
    limit.None? || Key(side, price) <= Key(side, limit.value)
  }

  /** How much each level gives to an order for `want`, stopping at the first ineligible price. */
  function Greedy(levels: seq<Level>, side: Side, limit: Option<real>, want: int): (amounts: seq<int>)
    ensures |amounts| == |levels|
  {
    if levels == [] then []
    else if want == 0 || !Eligible(side, limit, levels[0].price) then seq(|levels|, _ => 0)
    else [Min(want, levels[0].quantity)] + Greedy(levels[1..], side, limit, want - Min(want, levels[0].quantity))
  }

  function Sum(amounts: seq<int>): int {
    if amounts == [] then 0 else amounts[0] + Sum(amounts[1..])
  }

  /** The money that taking these amounts moves. */
  function Total(levels: seq<Level>, amounts: seq<int>): real
    requires |amounts| == |levels|
  {
    if levels == [] then 0.0 else levels[0].price * amounts[0] as real + Total(levels[1..], amounts[1..])
  }

  predicate Depth(levels: seq<Level>) {
    forall k :: 0 <= k < |levels| ==> levels[k].quantity >= 0
  }

  /** Some way of taking shares from the book. */
  predicate Takes(levels: seq<Level>, amounts: seq<int>) {
    |amounts| == |levels| && forall k :: 0 <= k < |levels| ==> 0 <= amounts[k] <= levels[k].quantity
  }

  lemma {:induction false} SumOfZeros(amounts: seq<int>)
    requires forall k :: 0 <= k < |amounts| ==> amounts[k] == 0
    ensures Sum(amounts) == 0
  {
    if amounts != [] { SumOfZeros(amounts[1..]); }
  }

  lemma {:induction false} PlanTakes(levels: seq<Level>, side: Side, limit: Option<real>, want: int)
    requires Depth(levels) && want >= 0
    ensures Takes(levels, Greedy(levels, side, limit, want))
    ensures 0 <= Sum(Greedy(levels, side, limit, want)) <= want
  {
    var a := Greedy(levels, side, limit, want);
    if levels == [] {
    } else if want == 0 || !Eligible(side, limit, levels[0].price) {
      SumOfZeros(a);
    } else {
      PlanTakes(levels[1..], side, limit, want - a[0]);
      assert a[1..] == Greedy(levels[1..], side, limit, want - a[0]);
      forall k | 1 <= k < |a|
        ensures 0 <= a[k] <= levels[k].quantity
      {
        assert a[k] == a[1..][k - 1] && levels[k] == levels[1..][k - 1];
      }
    }
  }

  lemma {:induction false} PlanEligible(levels: seq<Level>, side: Side, limit: Option<real>, want: int, k: nat)
    requires k < |levels| && Greedy(levels, side, limit, want)[k] != 0
    ensures Eligible(side, limit, levels[k].price)
  {
    if k > 0 {
      PlanEligible(levels[1..], side, limit, want - Min(want, levels[0].quantity), k - 1);
    }
  }

  /** A level before one that is touched is used up. */
  lemma {:induction false} PlanBestFirst(levels: seq<Level>, side: Side, limit: Option<real>, want: int, i: nat, k: nat)
    requires Depth(levels) && want >= 0 && i < k < |levels| && Greedy(levels, side, limit, want)[k] != 0
    ensures Greedy(levels, side, limit, want)[i] == levels[i].quantity
  {
    var first := Min(want, levels[0].quantity);
    if i == 0 {
      if first == want { NothingWanted(levels[1..], side, limit); }
    } else {
      PlanBestFirst(levels[1..], side, limit, want - first, i - 1, k - 1);
    }
  }

  /** While shares are still wanted, every eligible level is used up. */
  lemma {:induction false} PlanRemainder(levels: seq<Level>, side: Side, limit: Option<real>, want: int, k: nat)
    requires Depth(levels) && Sorted(levels, side) && want >= 0 && k < |levels|
    requires Sum(Greedy(levels, side, limit, want)) < want && Eligible(side, limit, levels[k].price)
    ensures Greedy(levels, side, limit, want)[k] == levels[k].quantity
  {
    var a := Greedy(levels, side, limit, want);
    assert Key(side, levels[0].price) <= Key(side, levels[k].price);
    var first := Min(want, levels[0].quantity);
    assert a[1..] == Greedy(levels[1..], side, limit, want - first);
    if k > 0 {
      PlanRemainder(levels[1..], side, limit, want - first, k - 1);
    } else if first == want {
      NothingWanted(levels[1..], side, limit);
    }
  }

  /**
   What the plan takes lies in the book, inside the limit and best price first; and a
   remainder is left only if every eligible level is used up.
   */
  lemma GreedyPlan(levels: seq<Level>, side: Side, limit: Option<real>, want: int)
    requires Depth(levels) && Sorted(levels, side) && want >= 0
    ensures var a := Greedy(levels, side, limit, want);
      && Takes(levels, a) && 0 <= Sum(a) <= want
      && (forall k :: 0 <= k < |a| && a[k] > 0 ==> Eligible(side, limit, levels[k].price))
      && (forall i, k :: 0 <= i < k < |a| && a[k] > 0 ==> a[i] == levels[i].quantity)
      && (Sum(a) < want ==> forall k :: 0 <= k < |a| && Eligible(side, limit, levels[k].price) ==>
          a[k] == levels[k].quantity)
  {
    var a := Greedy(levels, side, limit, want);
    PlanTakes(levels, side, limit, want);
    forall k | 0 <= k < |a| && a[k] > 0
      ensures Eligible(side, limit, levels[k].price)
    {
      PlanEligible(levels, side, limit, want, k);
    }
    forall i, k | 0 <= i < k < |a| && a[k] > 0
      ensures a[i] == levels[i].quantity
    {
      PlanBestFirst(levels, side, limit, want, i, k);
    }
    forall k | 0 <= k < |a| && Sum(a) < want && Eligible(side, limit, levels[k].price)
      ensures a[k] == levels[k].quantity
    {
      PlanRemainder(levels, side, limit, want, k);
    }
  }

  lemma NothingWanted(levels: seq<Level>, side: Side, limit: Option<real>)
    ensures forall k :: 0 <= k < |levels| ==> Greedy(levels, side, limit, 0)[k] == 0
    ensures Sum(Greedy(levels, side, limit, 0)) == 0
  {
    SumOfZeros(Greedy(levels, side, limit, 0));
  }

  /** The order's own view of money: what a buyer pays, or minus what a seller gets. */
  function Cost(levels: seq<Level>, side: Side, amounts: seq<int>): real
    requires |amounts| == |levels|
  {
    if levels == [] then 0.0
      else Key(side, levels[0].price) * amounts[0] as real + Cost(levels[1..], side, amounts[1..])
  }

  lemma {:induction false} CostIsTotal(levels: seq<Level>, side: Side, amounts: seq<int>)
    requires |amounts| == |levels|
    ensures Cost(levels, side, amounts) == Key(side, Total(levels, amounts))
  {
    if levels != [] {
      CostIsTotal(levels[1..], side, amounts[1..]);
    }
  }

  lemma ScaleMonotone(x: real, y: real, n: int)
    requires x <= y && n >= 0
    ensures x * n as real <= y * n as real
  {
  }

  lemma SplitProduct(x: real, a: int, b: int)
    ensures x * (a + b) as real == x * a as real + x * b as real
  {
    assert (a + b) as real == a as real + b as real;
  }

  /** Taking `b` costs at least what the plan `a` costs, and `floor` more for each extra share. */
  predicate CostsMore(levels: seq<Level>, side: Side, a: seq<int>, b: seq<int>, floor: real)
    requires |a| == |b| == |levels|
  {
    Cost(levels, side, b) >= Cost(levels, side, a) + floor * (Sum(b) - Sum(a)) as real
  }

  lemma CostsMoreStep(levels: seq<Level>, side: Side, a: seq<int>, b: seq<int>, floor: real)
    requires |a| == |b| == |levels| > 0 && floor <= Key(side, levels[0].price) && Sum(b) >= Sum(a)
    requires CostsMore(levels[1..], side, a[1..], b[1..], Key(side, levels[0].price))
    ensures CostsMore(levels, side, a, b, floor)
  {
    hide Key;
    var p, extra, total := Key(side, levels[0].price), Sum(b[1..]) - Sum(a[1..]), Sum(b) - Sum(a);
    WithFirstLevel(p, floor, a[0], b[0], extra, total, Cost(levels[1..], side, a[1..]),
                   Cost(levels[1..], side, b[1..]));
  }

  lemma CostsMoreEvenly(levels: seq<Level>, side: Side, a: seq<int>, b: seq<int>, floor: real)
    requires |a| == |b| == |levels| && Sum(a) == Sum(b) && CostsMore(levels, side, a, b, floor)
    ensures Cost(levels, side, b) >= Cost(levels, side, a)
  {
    assert (Sum(b) - Sum(a)) as real == 0.0;
  }

  lemma CostsMoreThanNothing(levels: seq<Level>, side: Side, a: seq<int>, b: seq<int>, floor: real)
    requires Takes(levels, b) && AtLeast(levels, side, floor)
    requires |a| == |levels| && forall k :: 0 <= k < |a| ==> a[k] == 0
    ensures CostsMore(levels, side, a, b, floor)
  {
    SumOfZeros(a);
    ZeroCost(levels, side, a);
    CostAtLeast(levels, side, b, floor);
  }

  /** The core of optimality, for any way of taking at least as many shares as the plan takes. */
  lemma {:induction false} GreedyBelow(levels: seq<Level>, side: Side, limit: Option<real>, want: int, b: seq<int>,
                                       floor: real)
    requires Depth(levels) && Sorted(levels, side) && want >= 0 && Takes(levels, b)
    requires Sum(b) >= Sum(Greedy(levels, side, limit, want)) && AtLeast(levels, side, floor)
    ensures CostsMore(levels, side, Greedy(levels, side, limit, want), b, floor)
  {
    var a := Greedy(levels, side, limit, want);
    if levels == [] || want == 0 || !Eligible(side, limit, levels[0].price) {
      CostsMoreThanNothing(levels, side, a, b, floor);
    } else {
      var p, rest := Key(side, levels[0].price), levels[1..];
      assert Takes(rest, b[1..]) && AtLeast(rest, side, p);
      assert a[1..] == Greedy(rest, side, limit, want - a[0]);
      if b[0] <= a[0] {
        GreedyBelow(rest, side, limit, want - a[0], b[1..], p);
      } else {
        NothingWanted(rest, side, limit);
        CostsMoreThanNothing(rest, side, a[1..], b[1..], p);
      }
      CostsMoreStep(levels, side, a, b, floor);
    }
  }

  /** Moving shares from the first level to later ones cannot make the total cheaper. */
  lemma FirstLevel(p: real, floor: real, a: int, b: int, extra: int, total: int)
    requires floor <= p && total == b + extra - a && total >= 0
    ensures p * b as real + p * extra as real >= p * a as real + floor * total as real
  {
    SplitProduct(p, b, extra);
    SplitProduct(p, a, total);
    assert b + extra == a + total;
    ScaleMonotone(floor, p, total);
  }

  lemma WithFirstLevel(p: real, floor: real, a: int, b: int, extra: int, total: int, costA: real, costB: real)
    requires floor <= p && total == b + extra - a && total >= 0 && costB >= costA + p * extra as real
    ensures p * b as real + costB >= p * a as real + costA + floor * total as real
  {
    FirstLevel(p, floor, a, b, extra, total);
  }

  lemma {:induction false} ZeroCost(levels: seq<Level>, side: Side, amounts: seq<int>)
    requires |amounts| == |levels| && forall k :: 0 <= k < |amounts| ==> amounts[k] == 0
    ensures Cost(levels, side, amounts) == 0.0
  {
    if levels != [] { ZeroCost(levels[1..], side, amounts[1..]); }
  }

  lemma {:induction false} CostAtLeast(levels: seq<Level>, side: Side, b: seq<int>, floor: real)
    requires Takes(levels, b) && AtLeast(levels, side, floor)
    ensures Cost(levels, side, b) >= floor * Sum(b) as real
  {
    if levels != [] {
      CostAtLeast(levels[1..], side, b[1..], floor);
      OneMoreLevel(Key(side, levels[0].price), floor, b[0], Sum(b[1..]), Cost(levels[1..], side, b[1..]));
    }
  }

  lemma OneMoreLevel(p: real, floor: real, n: int, others: int, cost: real)
    requires floor <= p && n >= 0 && cost >= floor * others as real
    ensures p * n as real + cost >= floor * (n + others) as real
  {
    ScaleMonotone(floor, p, n);
    SplitProduct(floor, n, others);
  }

  lemma GreedyCostsLeast(levels: seq<Level>, side: Side, limit: Option<real>, want: int, b: seq<int>)
    requires Depth(levels) && Sorted(levels, side) && want >= 0 && Takes(levels, b)
    requires Sum(b) == Sum(Greedy(levels, side, limit, want))
    ensures Cost(levels, side, Greedy(levels, side, limit, want)) <= Cost(levels, side, b)
  {
    var floor := if levels == [] then 0.0 else Key(side, levels[0].price);
    assert AtLeast(levels, side, floor);
    GreedyBelow(levels, side, limit, want, b, floor);
    CostsMoreEvenly(levels, side, Greedy(levels, side, limit, want), b, floor);
  }

  /**
   Greedy matching is optimal: over every way of taking the same number of shares from the
   book, a buyer pays the least and a seller gets the most.
   */
  lemma GreedyIsOptimal(levels: seq<Level>, side: Side, limit: Option<real>, want: int, b: seq<int>)
    requires Depth(levels) && Sorted(levels, side) && want >= 0 && Takes(levels, b)
    requires Sum(b) == Sum(Greedy(levels, side, limit, want))
    ensures var plan := Total(levels, Greedy(levels, side, limit, want));
      if side == Buy then plan <= Total(levels, b) else plan >= Total(levels, b)
  {
    GreedyCostsLeast(levels, side, limit, want, b);
    CostIsTotal(levels, side, Greedy(levels, side, limit, want));
    CostIsTotal(levels, side, b);
  }

  /** No choice of shares is worth more than as many at a price no level exceeds. */
  lemma {:induction false} TotalAtMost(levels: seq<Level>, amounts: seq<int>, top: real)
    requires Takes(levels, amounts) && forall k :: 0 <= k < |levels| ==> levels[k].price <= top
    ensures Total(levels, amounts) <= Sum(amounts) as real * top
  {
    if levels != [] {
      TotalAtMost(levels[1..], amounts[1..], top);
      ScaleMonotone(levels[0].price, top, amounts[0]);
      SplitProduct(top, amounts[0], Sum(amounts[1..]));
    }
  }

  // ---------------------------------------------------------------- planning level by level

  function Pad(amounts: seq<int>, size: nat): seq<int>
    requires |amounts| <= size
  {
    amounts + seq(size - |amounts|, _ => 0)
  }

  /** What the planning loop has taken, followed by the plan for the rest, is the whole plan. */
  ghost predicate PlanSoFar(levels: seq<Level>, side: Side, limit: Option<real>, want: int, taken: seq<int>,
                            remaining: int)
    requires |taken| <= |levels|
  {
    var rest := Greedy(levels[|taken|..], side, limit, remaining);
    var plan := Greedy(levels, side, limit, want);
    plan == taken + rest && Sum(plan) == want - remaining + Sum(rest)
  }

  lemma PlanRound(levels: seq<Level>, side: Side, limit: Option<real>, want: int, taken: seq<int>, remaining: int)
    requires |taken| < |levels| && PlanSoFar(levels, side, limit, want, taken, remaining)
    requires remaining != 0 && Eligible(side, limit, levels[|taken|].price)
    ensures var quantity := Min(remaining, levels[|taken|].quantity);
      PlanSoFar(levels, side, limit, want, taken + [quantity], remaining - quantity)
  {
    hide Greedy, Eligible, Sum;
    var index, quantity := |taken|, Min(remaining, levels[|taken|].quantity);
    var rest := Greedy(levels[index + 1..], side, limit, remaining - quantity);
    assert Greedy(levels[index..], side, limit, remaining) == [quantity] + rest by {
      FirstOfPlan(levels[index..], side, limit, remaining);
      assert levels[index..][1..] == levels[index + 1..];
    }
    FirstAndRest(taken, quantity, rest);
  }

  lemma FirstAndRest(taken: seq<int>, quantity: int, rest: seq<int>)
    ensures taken + ([quantity] + rest) == taken + [quantity] + rest
    ensures Sum([quantity] + rest) == quantity + Sum(rest)
  {
    assert ([quantity] + rest)[1..] == rest;
  }

  lemma StartOfPlan(levels: seq<Level>, side: Side, limit: Option<real>, want: int)
    ensures PlanSoFar(levels, side, limit, want, [], want)
  {
    assert levels[0..] == levels;
  }

  lemma FirstOfPlan(levels: seq<Level>, side: Side, limit: Option<real>, want: int)
    requires levels != [] && want != 0 && Eligible(side, limit, levels[0].price)
    ensures var first := Min(want, levels[0].quantity);
      Greedy(levels, side, limit, want) == [first] + Greedy(levels[1..], side, limit, want - first)
  {
  }

  lemma PlanStops(levels: seq<Level>, side: Side, limit: Option<real>, want: int, taken: seq<int>, remaining: int)
    requires |taken| <= |levels| && PlanSoFar(levels, side, limit, want, taken, remaining)
    requires |taken| == |levels| || remaining == 0 || !Eligible(side, limit, levels[|taken|].price)
    ensures Greedy(levels, side, limit, want) == Pad(taken, |levels|)
    ensures remaining == want - Sum(Greedy(levels, side, limit, want))
  {
    SumOfZeros(Greedy(levels[|taken|..], side, limit, remaining));
  }

  lemma {:induction false} SumNonNegative(amounts: seq<int>)
    requires forall k :: 0 <= k < |amounts| ==> amounts[k] >= 0
    ensures Sum(amounts) >= 0
  {
    if amounts != [] { SumNonNegative(amounts[1..]); }
  }

  lemma {:induction false} TotalNonNegative(levels: seq<Level>, amounts: seq<int>)
    requires Takes(levels, amounts) && forall k :: 0 <= k < |levels| ==> levels[k].price > 0.0
    ensures Total(levels, amounts) >= 0.0
  {
    if levels != [] {
      TotalNonNegative(levels[1..], amounts[1..]);
      ScaleMonotone(0.0, levels[0].price, amounts[0]);
    }
  }

  lemma {:induction false} NothingMoved(levels: seq<Level>, amounts: seq<int>)
    requires Takes(levels, amounts) && Sum(amounts) == 0
    ensures Total(levels, amounts) == 0.0
  {
    if levels != [] {
      SumNonNegative(amounts[1..]);
      NothingMoved(levels[1..], amounts[1..]);
    }
  }
}
