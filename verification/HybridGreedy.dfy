/** The greedy loop of `optimal_hybrid_index`: takes the kept points of all blocks in price order,
    overwriting each block's choice, until the space budget is passed. */
module HybridGreedy {
  import opened LambdaHull

  const NoPoint := Point(0, 0.0, 0, 0)

  ghost function OfBlock(pts: seq<LambdaPoint>, b: nat): seq<LambdaPoint> {
    if pts == [] then []
    else
      var rest := OfBlock(pts[..|pts| - 1], b);
      if pts[|pts| - 1].block == b then rest + [pts[|pts| - 1]] else rest
  }

  /** The last point taken for block b, or nothing. */
  ghost function Choice(pts: seq<LambdaPoint>, b: nat): Point {
    var own := OfBlock(pts, b);
    if own == [] then NoPoint else own[|own| - 1].st
  }

  ghost function Choices(pts: seq<LambdaPoint>, numBlocks: nat): seq<Point> {
    seq(numBlocks, b requires 0 <= b < numBlocks => Choice(pts, b))
  }

  function SpaceOf(s: seq<Point>): nat {
    if s == [] then 0 else s[0].space + SpaceOf(s[1..])
  }

  ghost function TimeOf(s: seq<Point>): real {
    if s == [] then 0.0 else s[0].time + TimeOf(s[1..])
  }

  ghost function CostOf(price: real, s: seq<Point>): real {
    if s == [] then 0.0 else Cost(price, s[0]) + CostOf(price, s[1..])
  }

  /** The input of the loop: block b's points are the hull of its candidates, in hull order, and all
      points together are in price order. */
  ghost predicate GreedyInput(pts: seq<LambdaPoint>, candidates: seq<seq<Point>>) {
    && (forall i :: 0 <= i < |pts| ==> pts[i].block < |candidates|)
    && (forall i, j :: 0 <= i < j < |pts| ==> pts[i].lambda <= pts[j].lambda)
    && (forall b :: 0 <= b < |candidates| ==> IsHull(OfBlock(pts, b), candidates[b], b))
  }

  /** One candidate for every block. */
  ghost predicate IsAssignment(a: seq<Point>, candidates: seq<seq<Point>>) {
    |a| == |candidates| && forall b :: 0 <= b < |a| ==> a[b] in candidates[b]
  }

  /** Every block has got a point among the first n. */
  ghost predicate AllStarted(pts: seq<LambdaPoint>, n: nat, numBlocks: nat)
    requires n <= |pts|
  {
    forall b :: 0 <= b < numBlocks ==> OfBlock(pts[..n], b) != []
  }

  // ----- prefixes of the price order are prefixes of every hull -----

  lemma {:induction false} OfBlockPrefix(pts: seq<LambdaPoint>, n: nat, b: nat)
    requires n <= |pts|
    ensures |OfBlock(pts[..n], b)| <= |OfBlock(pts, b)|
    ensures OfBlock(pts[..n], b) == OfBlock(pts, b)[..|OfBlock(pts[..n], b)|]
    decreases |pts| - n
  {
    if n < |pts| {
      OfBlockPrefix(pts, n + 1, b);
      assert pts[..n + 1][..n] == pts[..n];
    } else {
      assert pts[..n] == pts;
    }
  }

  /** Each element of a block's own points comes from the list. */
  lemma {:induction false} OfBlockMembers(pts: seq<LambdaPoint>, b: nat)
    ensures forall p <- OfBlock(pts, b) :: p in pts && p.block == b
  {
    if pts == [] {
    } else {
      OfBlockMembers(pts[..|pts| - 1], b);
      assert pts == pts[..|pts| - 1] + [pts[|pts| - 1]];
    }
  }

  /** What is after a prefix of the price order is at least as dear. */
  lemma {:induction false} LaterIsDearer(pts: seq<LambdaPoint>, n: nat, b: nat, price: real)
    requires n <= |pts| && forall i :: n <= i < |pts| ==> pts[i].lambda >= price
    ensures |OfBlock(pts[..n], b)| <= |OfBlock(pts, b)|
    ensures forall m :: |OfBlock(pts[..n], b)| <= m < |OfBlock(pts, b)| ==> OfBlock(pts, b)[m].lambda >= price
    decreases |pts|
  {
    if n < |pts| {
      var rest := pts[..|pts| - 1];
      assert rest[..n] == pts[..n];
      LaterIsDearer(rest, n, b, price);
    } else {
      assert pts[..n] == pts;
    }
  }

  /** After any prefix that has started every block, each block's choice is best at the last price taken. */
  lemma ChoiceIsBest(pts: seq<LambdaPoint>, candidates: seq<seq<Point>>, n: nat, b: nat, p: Point)
    requires GreedyInput(pts, candidates) && 0 < n <= |pts| && AllStarted(pts, n, |candidates|)
    requires b < |candidates| && p in candidates[b]
    ensures Cost(pts[n - 1].lambda, Choice(pts[..n], b)) <= Cost(pts[n - 1].lambda, p)
  {
    var price := pts[n - 1].lambda;
    var hull, own := OfBlock(pts, b), OfBlock(pts[..n], b);
    assert own != [];
    OfBlockPrefix(pts, n, b);
    var i := |own| - 1;
    assert own[i] == hull[i];
    OfBlockMembers(pts[..n], b);
    assert own[i] in pts[..n];
    var m :| 0 <= m < n && pts[m] == own[i];
    assert hull[i].lambda <= price;
    LaterIsDearer(pts, n, b, price);
    assert price >= 0.0 by { PricesAscend(hull, b, 0, i); }
    LastBelowPriceIsBest(hull, candidates[b], b, i, price, p);
  }

  /** The same at any price up to that of the next point. */
  lemma ChoiceIsBestFrom(pts: seq<LambdaPoint>, candidates: seq<seq<Point>>, n: nat, b: nat, price: real, p: Point)
    requires GreedyInput(pts, candidates) && 0 < n <= |pts| && AllStarted(pts, n, |candidates|)
    requires b < |candidates| && p in candidates[b] && price > 0.0
    requires pts[n - 1].lambda <= price && forall i :: n <= i < |pts| ==> pts[i].lambda >= price
    ensures Cost(price, Choice(pts[..n], b)) <= Cost(price, p)
  {
    hide Covers, Cost;
    var hull, own := OfBlock(pts, b), OfBlock(pts[..n], b);
    assert own != [];
    OfBlockPrefix(pts, n, b);
    var i := |own| - 1;
    assert own[i] == hull[i];
    OfBlockMembers(pts[..n], b);
    assert own[i] in pts[..n];
    var m :| 0 <= m < n && pts[m] == own[i];
    assert hull[i].lambda <= price;
    LaterIsDearer(pts, n, b, price);
    LastBelowPriceIsBest(hull, candidates[b], b, i, price, p);
  }

  lemma {:induction false} CostSplits(price: real, s: seq<Point>)
    ensures CostOf(price, s) == SpaceOf(s) as real + price * TimeOf(s)
  {
    if s == [] {
    } else {
      CostSplits(price, s[1..]);
      assert price * TimeOf(s) == price * s[0].time + price * TimeOf(s[1..]);
    }
  }

  lemma {:induction false} CostMonotone(price: real, s: seq<Point>, t: seq<Point>)
    requires |s| == |t| && forall b :: 0 <= b < |s| ==> Cost(price, s[b]) <= Cost(price, t[b])
    ensures CostOf(price, s) <= CostOf(price, t)
  {
    if s == [] {
    } else {
      CostMonotone(price, s[1..], t[1..]);
    }
  }

  /** While only zero prices have been taken, every block has its smallest candidate. */
  lemma ZeroPriceChoice(pts: seq<LambdaPoint>, candidates: seq<seq<Point>>, n: nat, b: nat)
    requires GreedyInput(pts, candidates) && 0 < n <= |pts| && AllStarted(pts, n, |candidates|)
    requires b < |candidates| && pts[n - 1].lambda == 0.0
    ensures forall p <- candidates[b] :: AtMost(Choice(pts[..n], b), p)
  {
    var hull, own := OfBlock(pts, b), OfBlock(pts[..n], b);
    assert own != [];
    OfBlockPrefix(pts, n, b);
    var i := |own| - 1;
    OfBlockMembers(pts[..n], b);
    assert own[i] in pts[..n];
    var m :| 0 <= m < n && pts[m] == own[i];
    assert pts[m].lambda <= pts[n - 1].lambda;
    PricesAscend(hull, b, 0, i);
    assert i == 0;
  }

  lemma {:induction false} SmallestIsLeast(s: seq<Point>, t: seq<Point>)
    requires |s| == |t| && forall b :: 0 <= b < |s| ==> AtMost(s[b], t[b])
    ensures SpaceOf(s) <= SpaceOf(t)
    ensures SpaceOf(t) <= SpaceOf(s) ==> TimeOf(s) <= TimeOf(t)
  {
    if s == [] {
    } else {
      SmallestIsLeast(s[1..], t[1..]);
      assert AtMost(s[0], t[0]);
    }
  }

  lemma LessTimeForNoMoreSpace(price: real, s: int, t: real, s': int, t': real)
    requires price > 0.0 && s as real + price * t <= s' as real + price * t' && s' <= s
    ensures t <= t'
  {
    assert (t - t') * price <= 0.0;
    SignOfProduct(t - t', price);
  }

  /** At every step of the greedy loop once each block has a point, no assignment that takes at most
      the current space takes less time than the current choices. */
  lemma {:induction false} GreedyIsOptimal(pts: seq<LambdaPoint>, candidates: seq<seq<Point>>, n: nat,
                                           other: seq<Point>)
    requires GreedyInput(pts, candidates) && 0 < n <= |pts| && AllStarted(pts, n, |candidates|)
    requires IsAssignment(other, candidates)
    requires SpaceOf(other) <= SpaceOf(Choices(pts[..n], |candidates|))
    ensures TimeOf(Choices(pts[..n], |candidates|)) <= TimeOf(other)
  {
    hide Cost, IsHull;
    var mine := Choices(pts[..n], |candidates|);
    var price := pts[n - 1].lambda;
    PriceNonNegative(pts, candidates, n);
    if price == 0.0 {
      forall b | 0 <= b < |mine| ensures AtMost(mine[b], other[b]) {
        ZeroPriceChoice(pts, candidates, n, b);
      }
      SmallestIsLeast(mine, other);
    } else {
      forall b | 0 <= b < |mine| ensures Cost(price, mine[b]) <= Cost(price, other[b]) {
        ChoiceIsBest(pts, candidates, n, b, other[b]);
      }
      CostMonotone(price, mine, other);
      CostSplits(price, mine);
      CostSplits(price, other);
      LessTimeForNoMoreSpace(price, SpaceOf(mine), TimeOf(mine), SpaceOf(other), TimeOf(other));
    }
  }

  lemma PriceNonNegative(pts: seq<LambdaPoint>, candidates: seq<seq<Point>>, n: nat)
    requires GreedyInput(pts, candidates) && 0 < n <= |pts|
    ensures pts[n - 1].lambda >= 0.0
  {
    var p, b := pts[n - 1], pts[n - 1].block;
    OwnPoint(pts[..n], b);
    var own, hull := OfBlock(pts[..n], b), OfBlock(pts, b);
    assert pts[..n][n - 1] == p;
    OfBlockPrefix(pts, n, b);
    assert own[|own| - 1] == p == hull[|own| - 1];
    PricesAscend(hull, b, 0, |own| - 1);
  }

  lemma {:induction false} OwnPoint(pts: seq<LambdaPoint>, b: nat)
    requires pts != [] && pts[|pts| - 1].block == b
    ensures OfBlock(pts, b) != [] && OfBlock(pts, b)[|OfBlock(pts, b)| - 1] == pts[|pts| - 1]
  {}

  // ----- one step -----

  lemma ChoiceStep(pts: seq<LambdaPoint>, n: nat, b: nat)
    requires n < |pts|
    ensures Choice(pts[..n + 1], b) == if pts[n].block == b then pts[n].st else Choice(pts[..n], b)
  {
    assert pts[..n + 1][..n] == pts[..n];
  }

  lemma {:induction false} ReplacedSums(s: seq<Point>, b: nat, p: Point)
    requires b < |s|
    ensures SpaceOf(s[b := p]) == SpaceOf(s) - s[b].space + p.space
    ensures TimeOf(s[b := p]) == TimeOf(s) - s[b].time + p.time
    ensures SpaceOf(s) >= s[b].space
  {
    if b == 0 {
      assert s[b := p][1..] == s[1..];
    } else {
      ReplacedSums(s[1..], b - 1, p);
      assert s[b := p][1..] == s[1..][b - 1 := p];
    }
  }

  lemma {:induction false} NothingChosen(numBlocks: nat)
    ensures SpaceOf(seq(numBlocks, b => NoPoint)) == 0 && TimeOf(seq(numBlocks, b => NoPoint)) == 0.0
  {
    if numBlocks == 0 {
    } else {
      NothingChosen(numBlocks - 1);
      assert seq(numBlocks, b => NoPoint)[1..] == seq(numBlocks - 1, b => NoPoint);
    }
  }

  lemma {:induction false} HasOwn(pts: seq<LambdaPoint>, m: nat, b: nat)
    requires m < |pts| && pts[m].block == b
    ensures OfBlock(pts, b) != []
  {
    var last := |pts| - 1;
    if m == last {
    } else {
      assert pts[..last][m] == pts[m];
      HasOwn(pts[..last], m, b);
    }
  }

  /** When the first positive price comes up, every block has got its first point. */
  lemma StartedBeforeFirstPrice(pts: seq<LambdaPoint>, candidates: seq<seq<Point>>, n: nat)
    requires GreedyInput(pts, candidates) && n < |pts| && pts[n].lambda > 0.0
    ensures AllStarted(pts, n, |candidates|)
  {
    hide OfBlock;
    forall b | 0 <= b < |candidates| ensures OfBlock(pts[..n], b) != [] {
      var hull := OfBlock(pts, b);
      OfBlockMembers(pts, b);
      assert hull[0] in pts;
      var m :| 0 <= m < |pts| && pts[m] == hull[0];
      assert m < n;
      assert pts[..n][m] == pts[m];
      HasOwn(pts[..n], m, b);
    }
  }

  /** Past the initial frontier each step buys time with space. */
  lemma StepTrades(pts: seq<LambdaPoint>, candidates: seq<seq<Point>>, n: nat)
    requires GreedyInput(pts, candidates) && n < |pts| && pts[n].lambda > 0.0
    ensures SpaceOf(Choices(pts[..n], |candidates|)) < SpaceOf(Choices(pts[..n + 1], |candidates|))
    ensures TimeOf(Choices(pts[..n], |candidates|)) > TimeOf(Choices(pts[..n + 1], |candidates|))
  {
    hide Cost, Covers;
    StartedBeforeFirstPrice(pts, candidates, n);
    var b := pts[n].block;
    var own, hull := OfBlock(pts[..n], b), OfBlock(pts, b);
    OfBlockPrefix(pts, n, b);
    OfBlockPrefix(pts, n + 1, b);
    assert pts[..n + 1][..n] == pts[..n];
    assert OfBlock(pts[..n + 1], b) == own + [pts[n]];
    assert hull[|own|] == pts[n] && hull[|own| - 1] == own[|own| - 1];
    PricesAscend(hull, b, |own| - 1, |own|);
    var before, after := Choices(pts[..n], |candidates|), Choices(pts[..n + 1], |candidates|);
    ChoicesStep(pts, n, |candidates|);
    ReplacedSums(before, b, pts[n].st);
  }

  lemma {:induction false} SpaceRises(pts: seq<LambdaPoint>, candidates: seq<seq<Point>>, a: nat, b: nat)
    requires GreedyInput(pts, candidates) && a <= b <= |pts| && (a < |pts| ==> pts[a].lambda > 0.0)
    ensures SpaceOf(Choices(pts[..a], |candidates|)) <= SpaceOf(Choices(pts[..b], |candidates|))
  {
    hide IsHull, Choices;
    if a == b {
    } else {
      SpaceRises(pts, candidates, a, b - 1);
      assert pts[a].lambda <= pts[b - 1].lambda;
      StepTrades(pts, candidates, b - 1);
    }
  }

  /** What the loop ends with, for a budget: all points taken, or a state past the frontier that is over the budget. */
  ghost predicate Outcome(pts: seq<LambdaPoint>, numBlocks: nat, spaceBase: nat, budget: nat, taken: nat) {
    taken <= |pts|
    && (taken < |pts| ==> taken > 0 && pts[taken - 1].lambda > 0.0 && spaceBase + SpaceOf(Choices(pts[..taken], numBlocks)) > budget)
  }

  /** Every state past the initial frontier before the given one is within the budget. */
  ghost predicate WithinBudget(pts: seq<LambdaPoint>, before: nat, numBlocks: nat, spaceBase: nat, budget: nat) {
    forall i :: 0 < i < before && i <= |pts| && pts[i - 1].lambda > 0.0 ==>
      spaceBase + SpaceOf(Choices(pts[..i], numBlocks)) <= budget
  }

  // ----- where the budget stops the loop -----

  /** No assignment costs less at the price. */
  ghost predicate Minimises(price: real, a: seq<Point>, candidates: seq<seq<Point>>) {
    && IsAssignment(a, candidates)
    && forall other :: IsAssignment(other, candidates) ==> CostOf(price, a) <= CostOf(price, other)
  }

  ghost predicate SmallestOf(p: Point, s: seq<Point>) {
    forall q <- s :: AtMost(p, q)
  }

  ghost predicate AllSmallest(a: seq<Point>, candidates: seq<seq<Point>>) {
    |a| == |candidates| && forall b :: 0 <= b < |a| ==> SmallestOf(a[b], candidates[b])
  }

  ghost predicate InBudget(a: seq<Point>, candidates: seq<seq<Point>>, spaceBase: nat, budget: nat) {
    spaceBase + SpaceOf(a) <= budget || AllSmallest(a, candidates)
  }

  /** A block whose choice had to be the last step: some smaller candidate is as good at the price, and with any
      such candidate in its place the budget is kept. */
  ghost predicate LastStepAt(price: real, chosen: seq<Point>, candidates: seq<seq<Point>>, spaceBase: nat, budget: nat,
                             b: nat)
    requires b < |chosen| == |candidates|
  {
    && (exists c :: c in candidates[b] && SmallerAsGood(price, c, chosen[b]))
    && forall c :: c in candidates[b] && SmallerAsGood(price, c, chosen[b]) ==>
         InBudget(chosen[b := c], candidates, spaceBase, budget)
  }

  ghost predicate SmallerAsGood(price: real, c: Point, p: Point) {
    c.space < p.space && Cost(price, c) <= Cost(price, p)
  }

  /** The price at which the choice is best, while whatever is best at a lower price keeps the budget, unless
      it is made of smallest candidates; and without the last step the budget would have been kept as well. */
  ghost predicate StopsAt(price: real, chosen: seq<Point>, candidates: seq<seq<Point>>, spaceBase: nat, budget: nat) {
    && Minimises(price, chosen, candidates)
    && (forall lower: real, a :: 0.0 < lower < price && Minimises(lower, a, candidates) ==>
          InBudget(a, candidates, spaceBase, budget))
    && (AllSmallest(chosen, candidates) ||
        (|chosen| == |candidates| &&
         exists b :: 0 <= b < |chosen| && LastStepAt(price, chosen, candidates, spaceBase, budget, b)))
  }

  lemma {:induction false} ReplacedCost(price: real, s: seq<Point>, b: nat, p: Point)
    requires b < |s|
    ensures CostOf(price, s[b := p]) == CostOf(price, s) - Cost(price, s[b]) + Cost(price, p)
  {
    hide Cost;
    if b == 0 {
      assert s[b := p][1..] == s[1..];
    } else {
      ReplacedCost(price, s[1..], b - 1, p);
      assert s[b := p][1..] == s[1..][b - 1 := p];
    }
  }

  /** What is best over all is best in every block. */
  lemma BestInBlock(price: real, a: seq<Point>, candidates: seq<seq<Point>>, b: nat, p: Point)
    requires Minimises(price, a, candidates) && b < |candidates| && p in candidates[b]
    ensures Cost(price, a[b]) <= Cost(price, p)
  {
    hide Cost, CostOf;
    var other := a[b := p];
    assert IsAssignment(other, candidates);
    ReplacedCost(price, a, b, p);
  }

  /** How many points are at or below a price. */
  lemma {:induction false} PointsAtPrice(pts: seq<LambdaPoint>, price: real) returns (n: nat)
    requires forall i, j :: 0 <= i < j < |pts| ==> pts[i].lambda <= pts[j].lambda
    ensures n <= |pts| && (forall i :: 0 <= i < n ==> pts[i].lambda <= price)
    ensures forall i :: n <= i < |pts| ==> pts[i].lambda > price
  {
    n := |pts|;
    while n > 0 && pts[n - 1].lambda > price
      invariant n <= |pts| && forall i :: n <= i < |pts| ==> pts[i].lambda > price
    {
      n := n - 1;
    }
  }

  /** In every block, what is best at a price is no larger than the last point at or below it. */
  lemma {:induction false} BestIsNotLarger(pts: seq<LambdaPoint>, candidates: seq<seq<Point>>, n: nat, price: real,
                                           a: seq<Point>, b: nat)
    requires GreedyInput(pts, candidates) && n <= |pts| && price > 0.0 && Minimises(price, a, candidates)
    requires (forall i :: 0 <= i < n ==> pts[i].lambda <= price) && forall i :: n <= i < |pts| ==> pts[i].lambda > price
    requires b < |candidates|
    ensures OfBlock(pts[..n], b) != []
    ensures a[b] in candidates[b] && a[b].space <= Choice(pts[..n], b).space
    ensures Cost(price, a[b]) <= Cost(price, Choice(pts[..n], b))
  {
    hide Cost, Covers, CostOf, OfBlock;
    var hull, own := OfBlock(pts, b), OfBlock(pts[..n], b);
    OfBlockPrefix(pts, n, b);
    CutAtPrice(pts, n, b, price);
    var i := |own| - 1;
    assert hull[0].lambda == 0.0;
    assert own != [];
    assert own[i] == hull[i] && Points(hull)[i] == hull[i].st;
    OfBlockMembers(pts[..n], b);
    assert own[i] in pts[..n];
    BestInBlock(price, a, candidates, b, hull[i].st);
    LastIsLargest(hull, candidates[b], b, i, price, a[b]);
  }

  lemma {:induction false} CutAtPrice(pts: seq<LambdaPoint>, n: nat, b: nat, price: real)
    requires n <= |pts| && forall i :: n <= i < |pts| ==> pts[i].lambda > price
    ensures |OfBlock(pts[..n], b)| <= |OfBlock(pts, b)|
    ensures forall m :: |OfBlock(pts[..n], b)| <= m < |OfBlock(pts, b)| ==> OfBlock(pts, b)[m].lambda > price
    decreases |pts|
  {
    if n == |pts| {
      assert pts[..n] == pts;
    } else {
      var rest := pts[..|pts| - 1];
      assert rest[..n] == pts[..n];
      CutAtPrice(rest, n, b, price);
    }
  }

  lemma {:induction false} NotLargerInAll(s: seq<Point>, t: seq<Point>)
    requires |s| == |t| && forall b :: 0 <= b < |s| ==> s[b].space <= t[b].space
    ensures SpaceOf(s) <= SpaceOf(t)
  {
    if s == [] {
    } else {
      NotLargerInAll(s[1..], t[1..]);
    }
  }

  /** What is best at a price below the one the loop stopped at. */
  lemma LowerKeepsBudget(pts: seq<LambdaPoint>, candidates: seq<seq<Point>>, spaceBase: nat, budget: nat, taken: nat,
                         price: real, a: seq<Point>)
    requires GreedyInput(pts, candidates) && taken <= |pts| && candidates != []
    requires WithinBudget(pts, taken, |candidates|, spaceBase, budget)
    requires forall i :: taken <= i < |pts| ==> pts[i].lambda > price
    requires taken > 0 ==> pts[taken - 1].lambda == 0.0 || pts[taken - 1].lambda > price
    requires price > 0.0 && Minimises(price, a, candidates)
    ensures InBudget(a, candidates, spaceBase, budget)
  {
    hide Cost, Covers, CostOf, OfBlock, Choice, Minimises;
    var n := PointsAtPrice(pts, price);
    AssignmentLength(price, a, candidates);
    forall b | 0 <= b < |candidates| ensures a[b] in candidates[b] && a[b].space <= Choice(pts[..n], b).space
      ensures OfBlock(pts[..n], b) != []
    {
      BestIsNotLarger(pts, candidates, n, price, a, b);
    }
    assert OfBlock(pts[..n], 0) != [];
    assert n > 0 by { if n == 0 { assert pts[..0] == []; NothingOfBlock(0); } }
    if pts[n - 1].lambda > 0.0 {
      assert n < taken;
      NotLargerInAll(a, Choices(pts[..n], |candidates|));
    } else {
      forall b | 0 <= b < |candidates| ensures SmallestOf(a[b], candidates[b]) {
        BestIsNotLarger(pts, candidates, n, price, a, b);
        ZeroIsSmallest(pts, candidates, n, price, a[b], b);
      }
    }
  }

  lemma {:induction false} NothingOfBlock(b: nat)
    ensures OfBlock([], b) == []
  {}

  lemma AssignmentLength(price: real, a: seq<Point>, candidates: seq<seq<Point>>)
    requires Minimises(price, a, candidates)
    ensures |a| == |candidates|
  {}

  /** Not larger and not dearer than the smallest candidate is as small as it. */
  lemma ZeroIsSmallest(pts: seq<LambdaPoint>, candidates: seq<seq<Point>>, n: nat, price: real, p: Point, b: nat)
    requires GreedyInput(pts, candidates) && 0 < n <= |pts| && AllStarted(pts, n, |candidates|) && b < |candidates|
    requires pts[n - 1].lambda <= 0.0 && price > 0.0 && p in candidates[b]
    requires p.space <= Choice(pts[..n], b).space && Cost(price, p) <= Cost(price, Choice(pts[..n], b))
    ensures SmallestOf(p, candidates[b])
  {
    hide Choice, OfBlock, GreedyInput;
    PriceNonNegative(pts, candidates, n);
    ZeroPriceChoice(pts, candidates, n, b);
    var least := Choice(pts[..n], b);
    assert AtMost(least, p);
    assert p.time <= least.time by {
      assert (least.time - p.time) * price >= 0.0;
      SignOfProduct(p.time - least.time, price);
    }
    forall q | q in candidates[b] ensures AtMost(p, q) {
      assert AtMost(least, q);
    }
  }

  /** The choice after a positive price is best at it; with only zero prices it is best at every price. */
  lemma BestAtLast(pts: seq<LambdaPoint>, candidates: seq<seq<Point>>, taken: nat, price: real)
    requires GreedyInput(pts, candidates) && 0 < taken <= |pts| && AllStarted(pts, taken, |candidates|)
    requires price > 0.0 && pts[taken - 1].lambda <= price && (taken < |pts| ==> price == pts[taken - 1].lambda)
    requires IsAssignment(Choices(pts[..taken], |candidates|), candidates)
    ensures Minimises(price, Choices(pts[..taken], |candidates|), candidates)
  {
    hide Cost, IsHull, OfBlock, Choice;
    var mine := Choices(pts[..taken], |candidates|);
    forall other | IsAssignment(other, candidates) ensures CostOf(price, mine) <= CostOf(price, other) {
      forall b | 0 <= b < |mine| ensures Cost(price, mine[b]) <= Cost(price, other[b]) {
        ChoiceIsBestFrom(pts, candidates, taken, b, price, other[b]);
      }
      CostMonotone(price, mine, other);
    }
  }

  /** The last point of a hull prefix and the one before it: the price makes them equally good, and no smaller candidate
      that is as good is larger than the one before. */
  lemma BeforeLast(hull: seq<LambdaPoint>, candidates: seq<Point>, block: nat, i: nat, c: Point)
    requires IsHull(hull, candidates, block) && 0 < i < |hull|
    requires c in candidates && SmallerAsGood(hull[i].lambda, c, hull[i].st)
    ensures c.space <= hull[i - 1].st.space
    ensures i == 1 ==> c.space == hull[0].st.space && c.time == hull[0].st.time
  {
    hide Cost, Covers, KeepsBest;
    var price := hull[i].lambda;
    PricesAscend(hull, block, i, i);
    assert Points(hull)[i] == hull[i].st;
    forall q | q in candidates ensures Cost(price, c) <= Cost(price, q) {
      BestAtOwnPrice(hull, candidates, block, i, q);
    }
    var m := BestIsKept(hull, candidates, block, price, c);
    if m >= i { PricesAscend(hull, block, i, m); }
    PricesAscend(hull, block, m, i - 1);
  }

  lemma BestAtOwnPrice(hull: seq<LambdaPoint>, candidates: seq<Point>, block: nat, i: nat, q: Point)
    requires IsHull(hull, candidates, block) && i < |hull| && q in candidates && hull[i].lambda > 0.0
    ensures Cost(hull[i].lambda, hull[i].st) <= Cost(hull[i].lambda, q)
  {
    hide Cost, Covers, KeepsBest;
    if i + 1 < |hull| { PricesAscend(hull, block, i, i + 1); }
    LastBelowPriceIsBest(hull, candidates, block, i, hull[i].lambda, q);
  }

  /** The place of a positively priced point in its hull: behind the choice its block had so far. */
  lemma LastOfHull(pts: seq<LambdaPoint>, candidates: seq<seq<Point>>, n: nat) returns (hull: seq<LambdaPoint>, i: nat)
    requires GreedyInput(pts, candidates) && n < |pts| && pts[n].lambda > 0.0
    requires AllStarted(pts, n, |candidates|)
    ensures var b := pts[n].block; b < |candidates| && hull == OfBlock(pts, b) && IsHull(hull, candidates[b], b)
                                   && i == |OfBlock(pts[..n], b)|
    ensures 0 < i < |hull| && hull[i] == pts[n] && hull[i - 1].st == Choice(pts[..n], pts[n].block)
    ensures n > 0 && hull[i - 1].lambda <= pts[n - 1].lambda
  {
    hide Cost, IsHull;
    var b := pts[n].block;
    var own := OfBlock(pts[..n], b);
    hull, i := OfBlock(pts, b), |own|;
    OfBlockPrefix(pts, n, b);
    OfBlockPrefix(pts, n + 1, b);
    assert pts[..n + 1][..n] == pts[..n];
    assert OfBlock(pts[..n + 1], b) == own + [pts[n]];
    assert hull[i] == pts[n] && hull[i - 1] == own[i - 1];
    OfBlockMembers(pts[..n], b);
    assert own[i - 1] in pts[..n];
    var m :| 0 <= m < n && pts[m] == own[i - 1];
  }

  lemma LinkedIsSmaller(hull: seq<LambdaPoint>, candidates: seq<Point>, block: nat, i: nat)
    requires IsHull(hull, candidates, block) && 0 < i < |hull|
    ensures hull[i - 1].st in candidates && SmallerAsGood(hull[i].lambda, hull[i - 1].st, hull[i].st)
  {
    hide Cost, Covers, KeepsBest;
    assert Points(hull)[i - 1] == hull[i - 1].st;
    PriceDecides(hull[i - 1], hull[i], hull[i].lambda);
  }

  lemma {:induction false} ReplacementInBudget(pts: seq<LambdaPoint>, candidates: seq<seq<Point>>, spaceBase: nat,
                                               budget: nat, n: nat, c: Point, hull: seq<LambdaPoint>, i: nat)
    requires GreedyInput(pts, candidates) && 0 < n < |pts| && pts[n].lambda > 0.0 && AllStarted(pts, n, |candidates|)
    requires WithinBudget(pts, n + 1, |candidates|, spaceBase, budget)
    requires hull == OfBlock(pts, pts[n].block) && 0 < i < |hull| && hull[i - 1].lambda <= pts[n - 1].lambda
    requires Choice(pts[..n], pts[n].block) == hull[i - 1].st
    requires c.space <= hull[i - 1].st.space && (i == 1 ==> c.space == hull[0].st.space && c.time == hull[0].st.time)
    ensures InBudget(Choices(pts[..n], |candidates|)[pts[n].block := c], candidates, spaceBase, budget)
  {
    hide Cost, OfBlock, Choice;
    var b, before := pts[n].block, Choices(pts[..n], |candidates|);
    ReplacedSums(before, b, c);
    PriceNonNegative(pts, candidates, n);
    if pts[n - 1].lambda == 0.0 {
      PricesAscend(hull, b, i - 1, i - 1);
      assert i == 1;
      forall a | 0 <= a < |before| ensures SmallestOf(before[b := c][a], candidates[a]) {
        ZeroPriceChoice(pts, candidates, n, a);
      }
    }
  }

  /** Where the loop stopped with a step at a positive price, that step was needed. */
  lemma StepWasNeeded(pts: seq<LambdaPoint>, candidates: seq<seq<Point>>, spaceBase: nat, budget: nat, taken: nat)
    returns (b: nat)
    requires GreedyInput(pts, candidates) && 0 < taken <= |pts| && pts[taken - 1].lambda > 0.0
    requires WithinBudget(pts, taken, |candidates|, spaceBase, budget)
    requires IsAssignment(Choices(pts[..taken], |candidates|), candidates)
    ensures var chosen := Choices(pts[..taken], |candidates|);
            b < |chosen| == |candidates|
            && LastStepAt(pts[taken - 1].lambda, chosen, candidates, spaceBase, budget, b)
  {
    hide Cost, Covers, KeepsBest, Choice, IsHull, SmallerAsGood, InBudget;
    var n := taken - 1;
    b := pts[n].block;
    var price := pts[n].lambda;
    var before, chosen := Choices(pts[..n], |candidates|), Choices(pts[..taken], |candidates|);
    StartedBeforeFirstPrice(pts, candidates, n);
    ChoicesStep(pts, n, |candidates|);
    var hull, i := LastOfHull(pts, candidates, n);
    LinkedIsSmaller(hull, candidates[b], b, i);
    assert chosen[b] == hull[i].st;
    forall c | c in candidates[b] && SmallerAsGood(price, c, chosen[b])
      ensures InBudget(chosen[b := c], candidates, spaceBase, budget)
    {
      BeforeLast(hull, candidates[b], b, i, c);
      assert chosen[b := c] == before[b := c];
      ReplacementInBudget(pts, candidates, spaceBase, budget, n, c, hull, i);
    }
  }

  /** Every block's fastest candidate. */
  function FastestPoints(candidates: seq<seq<Point>>): seq<Point>
    requires forall b :: 0 <= b < |candidates| ==> candidates[b] != []
  {
    seq(|candidates|, b requires 0 <= b < |candidates| => FastestPoint(candidates[b]))
  }

  /** With all points taken every block has its fastest candidate, or one like it. */
  lemma AllTaken(pts: seq<LambdaPoint>, candidates: seq<seq<Point>>)
    requires GreedyInput(pts, candidates) && forall b :: 0 <= b < |candidates| ==> candidates[b] != []
    ensures SpaceOf(Choices(pts, |candidates|)) == SpaceOf(FastestPoints(candidates))
    ensures TimeOf(Choices(pts, |candidates|)) == TimeOf(FastestPoints(candidates))
  {
    hide Covers, FastestPoint, Cost;
    forall b | 0 <= b < |candidates|
      ensures Choice(pts, b).space == FastestPoint(candidates[b]).space
      ensures Choice(pts, b).time == FastestPoint(candidates[b]).time
    {
      LastIsFastest(OfBlock(pts, b), candidates[b], b);
    }
    SameTotals(Choices(pts, |candidates|), FastestPoints(candidates));
  }

  lemma {:induction false} SameTotals(s: seq<Point>, t: seq<Point>)
    requires |s| == |t| && forall b :: 0 <= b < |s| ==> s[b].space == t[b].space && s[b].time == t[b].time
    ensures SpaceOf(s) == SpaceOf(t) && TimeOf(s) == TimeOf(t)
  {
    if s == [] {
    } else {
      SameTotals(s[1..], t[1..]);
    }
  }

  /** The loop tests the budget after taking a point, so what it ends with keeps the budget if and only if
      every block's fastest candidate together do. */
  lemma BudgetMet(pts: seq<LambdaPoint>, candidates: seq<seq<Point>>, spaceBase: nat, budget: nat, taken: nat)
    requires GreedyInput(pts, candidates) && Outcome(pts, |candidates|, spaceBase, budget, taken)
    requires forall b :: 0 <= b < |candidates| ==> candidates[b] != []
    ensures spaceBase + SpaceOf(Choices(pts[..taken], |candidates|)) <= budget <==>
            spaceBase + SpaceOf(FastestPoints(candidates)) <= budget
  {
    hide IsHull, Choices, FastestPoints;
    AllTaken(pts, candidates);
    assert pts[..|pts|] == pts;
    if taken < |pts| {
      SpaceRises(pts, candidates, taken, |pts|);
    }
  }

  lemma ChoicesStep(pts: seq<LambdaPoint>, n: nat, numBlocks: nat)
    requires n < |pts| && pts[n].block < numBlocks
    ensures Choices(pts[..n + 1], numBlocks) == Choices(pts[..n], numBlocks)[pts[n].block := pts[n].st]
  {
    var after := Choices(pts[..n + 1], numBlocks);
    forall b | 0 <= b < |after| ensures after[b] == Choices(pts[..n], numBlocks)[pts[n].block := pts[n].st][b] {
      ChoiceStep(pts, n, b);
    }
  }

  // ----- the loop -----

  /** The four per-block vectors the loop overwrites, and its running totals. */
  class GreedyState {
    const blockSpaces: array<nat>
    const blockTimes: array<real>
    const blockTypes: array<nat>
    const blockParams: array<nat>
    const spaceBase: nat
    var curSpace: nat
    var curTime: real

    constructor (numBlocks: nat, spaceBase: nat)
      ensures Holds([], numBlocks)
      ensures fresh(blockSpaces) && fresh(blockTimes) && fresh(blockTypes) && fresh(blockParams)
      ensures this.spaceBase == spaceBase
    {
      blockSpaces := new nat[numBlocks](_ => 0);
      blockTimes := new real[numBlocks](_ => 0.0);
      blockTypes := new nat[numBlocks](_ => 0);
      blockParams := new nat[numBlocks](_ => 0);
      this.spaceBase := spaceBase;
      curSpace, curTime := spaceBase, 0.0;
      new;
      NothingChosen(numBlocks);
      assert Choices([], numBlocks) == seq(numBlocks, b => NoPoint);
    }

    /** The arrays hold the choices after the given points; the totals are the base plus their sums. */
    ghost predicate Holds(pts: seq<LambdaPoint>, numBlocks: nat)
      reads this, blockSpaces, blockTimes, blockTypes, blockParams
    {
      && blockSpaces.Length == blockTimes.Length == blockTypes.Length == blockParams.Length == numBlocks
      && blockTypes != blockSpaces && blockTypes != blockParams && blockSpaces != blockParams
      && (forall b :: 0 <= b < numBlocks ==>
            Point(blockSpaces[b], blockTimes[b], blockTypes[b], blockParams[b]) == Choices(pts, numBlocks)[b])
      && curSpace == spaceBase + SpaceOf(Choices(pts, numBlocks))
      && curTime == TimeOf(Choices(pts, numBlocks))
    }

    method Take(p: LambdaPoint, ghost pts: seq<LambdaPoint>, ghost n: nat, ghost numBlocks: nat)
      requires n < |pts| && pts[n] == p && p.block < numBlocks && Holds(pts[..n], numBlocks)
      modifies this, blockSpaces, blockTimes, blockTypes, blockParams
      ensures Holds(pts[..n + 1], numBlocks)
    {
      var b := p.block;
      ReplacedSums(Choices(pts[..n], numBlocks), b, p.st);
      ChoicesStep(pts, n, numBlocks);
      assert Choices(pts[..n], numBlocks)[b].space == blockSpaces[b];
      curSpace := curSpace - blockSpaces[b];
      curTime := curTime - blockTimes[b];
      blockSpaces[b] := p.st.space;
      blockTimes[b] := p.st.time;
      blockTypes[b] := p.st.kind;
      blockParams[b] := p.st.param;
      curSpace := curSpace + blockSpaces[b];
      curTime := curTime + blockTimes[b];
    }

    /** Takes points in order; with a budget, stops at the first state beyond it past the initial frontier. */
    method Run(pts: seq<LambdaPoint>, numBlocks: nat, budget: nat) returns (taken: nat)
      requires Holds([], numBlocks) && forall i :: 0 <= i < |pts| ==> pts[i].block < numBlocks
      modifies this, blockSpaces, blockTimes, blockTypes, blockParams
      ensures taken <= |pts| && Holds(pts[..taken], numBlocks)
      ensures taken < |pts| ==> budget > 0 && taken > 0 && pts[taken - 1].lambda > 0.0 && curSpace > budget
      ensures budget > 0 ==> Outcome(pts, numBlocks, spaceBase, budget, taken)
      ensures budget > 0 ==> WithinBudget(pts, taken, numBlocks, spaceBase, budget)
    {
      taken := 0;
      assert pts[..0] == [];
      while taken < |pts|
        invariant taken <= |pts| && Holds(pts[..taken], numBlocks)
        invariant budget > 0 ==> WithinBudget(pts, taken + 1, numBlocks, spaceBase, budget)
      {
        var p := pts[taken];
        Take(p, pts, taken, numBlocks);
        taken := taken + 1;
        if p.lambda > 0.0 && budget != 0 && curSpace > budget {
          return;
        }
      }
    }
  }
}
