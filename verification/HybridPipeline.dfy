/** From the candidates of every block to the greedy loop's input: the buffer of all hulls, in price order. */
module HybridPipeline {
  import opened LambdaHull
  import opened HybridGreedy
  import Multisets

  lemma {:induction false} OfBlockConcat(s: seq<LambdaPoint>, t: seq<LambdaPoint>, b: nat)
    ensures OfBlock(s + t, b) == OfBlock(s, b) + OfBlock(t, b)
  {
    if t == [] {
      assert s + t == s;
    } else {
      assert (s + t)[..|s + t| - 1] == s + t[..|t| - 1];
      OfBlockConcat(s, t[..|t| - 1], b);
    }
  }

  lemma {:induction false} OfOneBlock(t: seq<LambdaPoint>, block: nat, b: nat)
    requires forall i :: 0 <= i < |t| ==> t[i].block == block
    ensures OfBlock(t, b) == if b == block then t else []
  {
    if t == [] {
    } else {
      OfOneBlock(t[..|t| - 1], block, b);
      assert t == t[..|t| - 1] + [t[|t| - 1]];
    }
  }

  /** The buffer holds the hulls of the first n blocks. */
  ghost predicate HullsOf(buf: seq<LambdaPoint>, candidates: seq<seq<Point>>, n: nat) {
    && n <= |candidates|
    && (forall i :: 0 <= i < |buf| ==> buf[i].block < n)
    && (forall b :: 0 <= b < n ==> IsHull(OfBlock(buf, b), candidates[b], b))
  }

  lemma AddHull(buf: seq<LambdaPoint>, hull: seq<LambdaPoint>, candidates: seq<seq<Point>>, n: nat)
    requires HullsOf(buf, candidates, n) && n < |candidates| && IsHull(hull, candidates[n], n)
    ensures HullsOf(buf + hull, candidates, n + 1)
  {
    forall b | 0 <= b < n + 1 ensures IsHull(OfBlock(buf + hull, b), candidates[b], b) {
      OfBlockConcat(buf, hull, b);
      OfOneBlock(hull, n, b);
      if b == n {
        NoneOfBlock(buf, n);
        assert OfBlock(buf, n) + hull == hull;
      } else {
        assert OfBlock(buf, b) + [] == OfBlock(buf, b);
      }
    }
  }

  lemma {:induction false} NoneOfBlock(s: seq<LambdaPoint>, b: nat)
    requires forall i :: 0 <= i < |s| ==> s[i].block != b
    ensures OfBlock(s, b) == []
  {
    if s == [] {
    } else {
      NoneOfBlock(s[..|s| - 1], b);
    }
  }

  /** Keeps the hull of every block's candidates, block after block. */
  method ComputeLambdas(candidates: seq<seq<Point>>) returns (buf: seq<LambdaPoint>)
    requires forall b :: 0 <= b < |candidates| ==> candidates[b] != []
    ensures HullsOf(buf, candidates, |candidates|)
  {
    var computer := new LambdasComputer();
    for b := 0 to |candidates|
      invariant HullsOf(computer.pointsBuf, candidates, b)
    {
      ghost var before := computer.pointsBuf;
      computer.AppendLambdas(candidates[b], b);
      ghost var hull := computer.pointsBuf[|before|..];
      assert computer.pointsBuf == before + hull;
      AddHull(before, hull, candidates, b);
    }
    buf := computer.pointsBuf;
  }

  ghost predicate ByPrice(s: seq<LambdaPoint>) {
    forall i, j :: 0 <= i < j < |s| ==> s[i].lambda <= s[j].lambda
  }

  /** A block's points, taken in buffer order, never get cheaper. */
  ghost predicate BlocksAscend(s: seq<LambdaPoint>) {
    forall i, j :: 0 <= i < j < |s| && s[i].block == s[j].block ==> s[i].lambda <= s[j].lambda
  }

  /** Putting a point behind all that are not dearer keeps each block's points in order, since no
      dearer point can be of its own block. */
  lemma {:induction false} InsertedOfBlock(s: seq<LambdaPoint>, j: nat, p: LambdaPoint, b: nat)
    requires j <= |s| && forall m :: j <= m < |s| ==> s[m].block != p.block
    ensures OfBlock(s[..j] + [p] + s[j..], b) == OfBlock(s + [p], b)
  {
    var low, high := s[..j], s[j..];
    assert s == low + high;
    OfBlockConcat(low, high, b);
    OfBlockConcat(s, [p], b);
    OfBlockConcat(low + [p], high, b);
    OfBlockConcat(low, [p], b);
    OfOneBlock([p], p.block, b);
    if b == p.block {
      NoneOfBlock(high, b);
    }
  }

  /** A price sort that keeps each block's own points in hull order. */
  method SortByPrice(pts: seq<LambdaPoint>) returns (r: seq<LambdaPoint>)
    requires BlocksAscend(pts)
    ensures ByPrice(r) && multiset(r) == multiset(pts)
    ensures forall b: nat :: OfBlock(r, b) == OfBlock(pts, b)
  {
    r := [];
    for i := 0 to |pts|
      invariant ByPrice(r) && multiset(r) == multiset(pts[..i])
      invariant forall b: nat :: OfBlock(r, b) == OfBlock(pts[..i], b)
    {
      CheaperBlockmates(pts, i, r);
      assert pts[..i + 1] == pts[..i] + [pts[i]];
      forall b: nat ensures OfBlock(r + [pts[i]], b) == OfBlock(pts[..i + 1], b) {
        OfBlockConcat(r, [pts[i]], b);
        OfBlockConcat(pts[..i], [pts[i]], b);
      }
      r := InsertByPrice(r, pts[i]);
    }
    assert pts[..|pts|] == pts;
  }

  lemma CheaperBlockmates(pts: seq<LambdaPoint>, i: nat, r: seq<LambdaPoint>)
    requires BlocksAscend(pts) && i < |pts| && multiset(r) == multiset(pts[..i])
    ensures forall m :: 0 <= m < |r| && r[m].block == pts[i].block ==> r[m].lambda <= pts[i].lambda
  {
    forall m | 0 <= m < |r| && r[m].block == pts[i].block ensures r[m].lambda <= pts[i].lambda {
      assert r[m] in multiset(pts[..i]);
      var a :| 0 <= a < i && pts[a] == r[m];
    }
  }

  method InsertByPrice(s: seq<LambdaPoint>, p: LambdaPoint) returns (r: seq<LambdaPoint>)
    requires ByPrice(s)
    requires forall m :: 0 <= m < |s| && s[m].block == p.block ==> s[m].lambda <= p.lambda
    ensures ByPrice(r) && multiset(r) == multiset(s) + multiset{p}
    ensures forall b: nat :: OfBlock(r, b) == OfBlock(s + [p], b)
  {
    var j := |s|;
    while j > 0 && s[j - 1].lambda > p.lambda
      invariant 0 <= j <= |s|
      invariant forall m :: j <= m < |s| ==> s[m].lambda > p.lambda
    {
      j := j - 1;
    }
    Multisets.OfInsertion(s, j, p);
    InsertedByPrice(s, j, p);
    forall b: nat ensures OfBlock(s[..j] + [p] + s[j..], b) == OfBlock(s + [p], b) {
      InsertedOfBlock(s, j, p, b);
    }
    r := s[..j] + [p] + s[j..];
  }

  lemma InsertedByPrice(s: seq<LambdaPoint>, j: nat, p: LambdaPoint)
    requires ByPrice(s) && j <= |s|
    requires j > 0 ==> s[j - 1].lambda <= p.lambda
    requires forall m :: j <= m < |s| ==> p.lambda <= s[m].lambda
    ensures ByPrice(s[..j] + [p] + s[j..])
  {
    var r := s[..j] + [p] + s[j..];
    forall a, b | 0 <= a < b < |r| ensures r[a].lambda <= r[b].lambda {
      if a < j && b >= j {
        assert a < j - 1 ==> s[a].lambda <= s[j - 1].lambda;
      }
    }
  }

  lemma HullsAscend(buf: seq<LambdaPoint>, candidates: seq<seq<Point>>)
    requires HullsOf(buf, candidates, |candidates|)
    ensures BlocksAscend(buf)
  {
    forall i, j | 0 <= i < j < |buf| && buf[i].block == buf[j].block ensures buf[i].lambda <= buf[j].lambda {
      var b := buf[i].block;
      var x, y := OrderWithinBlock(buf, b, i, j);
      PricesAscend(OfBlock(buf, b), b, x, y);
    }
  }

  /** Positions in the buffer become positions in a block's own points, in the same order. */
  lemma {:induction false} OrderWithinBlock(s: seq<LambdaPoint>, b: nat, i: nat, j: nat) returns (x: nat, y: nat)
    requires i < j < |s| && s[i].block == b == s[j].block
    ensures x < y < |OfBlock(s, b)| && OfBlock(s, b)[x] == s[i] && OfBlock(s, b)[y] == s[j]
  {
    hide OfBlock;
    y := PlaceInBlock(s, b, j);
    x := PlaceInBlock(s[..j], b, i);
    assert s[..j][i] == s[i];
  }

  lemma {:induction false} PlaceInBlock(s: seq<LambdaPoint>, b: nat, j: nat) returns (y: nat)
    requires j < |s| && s[j].block == b
    ensures y == |OfBlock(s[..j], b)| < |OfBlock(s, b)|
    ensures OfBlock(s, b)[y] == s[j] && OfBlock(s[..j], b) <= OfBlock(s, b)
  {
    var low, one, high := s[..j], [s[j]], s[j + 1..];
    y := |OfBlock(low, b)|;
    OfBlockConcat(low, one, b);
    OfBlockConcat(low + one, high, b);
    OfOneBlock(one, b, b);
    hide OfBlock;
    assert s == low + one + high;
  }

  /** The whole computation before the loop: hulls, then price order. Its result is a valid greedy input. */
  method Prepare(candidates: seq<seq<Point>>) returns (pts: seq<LambdaPoint>)
    requires forall b :: 0 <= b < |candidates| ==> candidates[b] != []
    ensures GreedyInput(pts, candidates)
  {
    var buf := ComputeLambdas(candidates);
    HullsAscend(buf, candidates);
    pts := SortByPrice(buf);
    forall i | 0 <= i < |pts| ensures pts[i].block < |candidates| {
      assert pts[i] in multiset(buf);
    }
  }

  // ----- from candidates to the chosen encodings -----

  lemma {:induction false} StartedAtEnd(pts: seq<LambdaPoint>, candidates: seq<seq<Point>>, taken: nat)
    requires GreedyInput(pts, candidates) && taken <= |pts|
    requires taken < |pts| ==> taken > 0 && pts[taken - 1].lambda > 0.0
    ensures AllStarted(pts, taken, |candidates|) && (candidates != [] ==> taken > 0)
  {
    if taken < |pts| {
      StartedBeforeFirstPrice(pts, candidates, taken);
    } else {
      assert pts[..taken] == pts;
      assert forall b :: 0 <= b < |candidates| ==> IsHull(OfBlock(pts, b), candidates[b], b);
    }
    if candidates != [] {
      assert OfBlock(pts[..taken], 0) != [];
    }
  }

  lemma ChosenAreCandidates(pts: seq<LambdaPoint>, candidates: seq<seq<Point>>, n: nat)
    requires GreedyInput(pts, candidates) && n <= |pts| && AllStarted(pts, n, |candidates|)
    ensures IsAssignment(Choices(pts[..n], |candidates|), candidates)
  {
    hide OfBlock, Cost;
    forall b | 0 <= b < |candidates| ensures Choice(pts[..n], b) in candidates[b] {
      var own, hull := OfBlock(pts[..n], b), OfBlock(pts, b);
      OfBlockPrefix(pts, n, b);
      var i := |own| - 1;
      assert own[i] == hull[i] && Points(hull)[i] == hull[i].st;
    }
  }

  /** The point every block is left with, read off the four vectors. */
  method ReadChoices(state: GreedyState, ghost pts: seq<LambdaPoint>, numBlocks: nat) returns (chosen: seq<Point>)
    requires state.Holds(pts, numBlocks)
    ensures chosen == Choices(pts, numBlocks)
  {
    hide Choice;
    chosen := [];
    for b := 0 to numBlocks
      invariant chosen == Choices(pts, numBlocks)[..b]
    {
      assert Choices(pts, numBlocks)[..b + 1] == Choices(pts, numBlocks)[..b] + [Choices(pts, numBlocks)[b]];
      chosen := chosen + [Point(state.blockSpaces[b], state.blockTimes[b], state.blockTypes[b], state.blockParams[b])];
    }
  }

  /** The optimiser as a whole: one candidate for every block, exact totals, and no choice of candidates
      that takes at most this space takes less time. A budget is kept if and only if the fastest candidates of
      all blocks keep it; where it is not, there is a price at which the choice is best while what is best at
      lower prices keeps the budget. */
  method Optimise(candidates: seq<seq<Point>>, spaceBase: nat, budget: nat)
    returns (chosen: seq<Point>, space: nat, time: real)
    requires forall b :: 0 <= b < |candidates| ==> candidates[b] != []
    ensures IsAssignment(chosen, candidates)
    ensures space == spaceBase + SpaceOf(chosen) && time == TimeOf(chosen)
    ensures forall other :: IsAssignment(other, candidates) && SpaceOf(other) <= SpaceOf(chosen) ==>
              TimeOf(chosen) <= TimeOf(other)
    ensures budget > 0 ==> (space <= budget <==> spaceBase + SpaceOf(FastestPoints(candidates)) <= budget)
    ensures budget > 0 && space > budget ==>
              exists price: real :: price > 0.0 && StopsAt(price, chosen, candidates, spaceBase, budget)
    ensures budget == 0 || space <= budget ==>
              SpaceOf(chosen) == SpaceOf(FastestPoints(candidates)) && TimeOf(chosen) == TimeOf(FastestPoints(candidates))
  {
    hide Choices, IsHull, FastestPoints, StopsAt, WithinBudget, OfBlock;
    var points := Prepare(candidates);
    var state := new GreedyState(|candidates|, spaceBase);
    var taken := state.Run(points, |candidates|, budget);
    StartedAtEnd(points, candidates, taken);
    ChosenAreCandidates(points, candidates, taken);
    chosen := ReadChoices(state, points[..taken], |candidates|);
    space, time := state.curSpace, state.curTime;
    forall other | IsAssignment(other, candidates) && SpaceOf(other) <= SpaceOf(chosen)
      ensures TimeOf(chosen) <= TimeOf(other)
    {
      if candidates != [] {
        GreedyIsOptimal(points, candidates, taken, other);
      }
    }
    if budget > 0 {
      BudgetMet(points, candidates, spaceBase, budget, taken);
      if space > budget {
        var price := StoppingPrice(points, candidates, spaceBase, budget, taken);
      }
    }
    if budget == 0 || space <= budget {
      AllTaken(points, candidates);
      assert points[..|points|] == points;
    }
  }

  lemma StoppingPrice(pts: seq<LambdaPoint>, candidates: seq<seq<Point>>, spaceBase: nat, budget: nat, taken: nat)
    returns (price: real)
    requires GreedyInput(pts, candidates) && taken <= |pts| && AllStarted(pts, taken, |candidates|)
    requires candidates != [] ==> taken > 0
    requires taken < |pts| ==> taken > 0 && pts[taken - 1].lambda > 0.0
    requires WithinBudget(pts, taken, |candidates|, spaceBase, budget)
    requires IsAssignment(Choices(pts[..taken], |candidates|), candidates)
    ensures price > 0.0 && StopsAt(price, Choices(pts[..taken], |candidates|), candidates, spaceBase, budget)
  {
    hide IsHull, Choices, OfBlock, AllSmallest, LastStepAt, InBudget;
    price := 1.0;
    var chosen := Choices(pts[..taken], |candidates|);
    if candidates == [] {
      NoBlocks(chosen, candidates, spaceBase, budget);
    } else {
      PriceNonNegative(pts, candidates, taken);
      if pts[taken - 1].lambda > 0.0 { price := pts[taken - 1].lambda; }
      BestAtLast(pts, candidates, taken, price);
      if pts[taken - 1].lambda > 0.0 {
        var b := StepWasNeeded(pts, candidates, spaceBase, budget, taken);
      } else {
        ChosenAreSmallest(pts, candidates, taken);
      }
      forall lower: real, a | 0.0 < lower < price && Minimises(lower, a, candidates)
        ensures InBudget(a, candidates, spaceBase, budget)
      {
        LowerKeepsBudget(pts, candidates, spaceBase, budget, taken, lower, a);
      }
    }
  }

  lemma ChosenAreSmallest(pts: seq<LambdaPoint>, candidates: seq<seq<Point>>, n: nat)
    requires GreedyInput(pts, candidates) && 0 < n <= |pts| && AllStarted(pts, n, |candidates|)
    requires pts[n - 1].lambda == 0.0
    ensures AllSmallest(Choices(pts[..n], |candidates|), candidates)
  {
    hide GreedyInput, AllStarted, OfBlock, Choice;
    forall b | 0 <= b < |candidates| ensures SmallestOf(Choice(pts[..n], b), candidates[b]) {
      ZeroPriceChoice(pts, candidates, n, b);
    }
  }

  lemma NoBlocks(chosen: seq<Point>, candidates: seq<seq<Point>>, spaceBase: nat, budget: nat)
    requires candidates == [] && IsAssignment(chosen, candidates)
    ensures StopsAt(1.0, chosen, candidates, spaceBase, budget)
  {
    forall other | IsAssignment(other, candidates) ensures CostOf(1.0, chosen) <= CostOf(1.0, other) {
      assert other == [] == chosen;
    }
  }

  /** One block of 1 or 5 units and a budget of 3: the result takes 5. */
  method OneStepTooFar() returns (space: nat)
    ensures space == 5
  {
    var small, fast := Point(1, 2.0, 0, 0), Point(5, 1.0, 0, 0);
    var candidates := [[small, fast]];
    var chosen, time;
    chosen, space, time := Optimise(candidates, 0, 3);
    assert chosen == [chosen[0]] && chosen[0] in candidates[0];
    OneBlock(chosen[0]);
    OneBlock(fast);
    assert FastestPoint(candidates[0]) == fast by {
      assert Faster(FastestPoint(candidates[0]), fast);
    }
    assert FastestPoints(candidates) == [fast];
  }

  lemma OneBlock(p: Point)
    ensures SpaceOf([p]) == p.space
  {
    assert [p][1..] == [];
  }
}
