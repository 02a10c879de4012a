/** `lambdas_computer::prepare`: the space/time points of one block worth keeping, with the price at
    which each becomes the best choice (`append_lambdas`, non-heuristic). */
module LambdaHull {
  import Multisets

  /** One way to encode a block: its size, its decoding time, and how. */
  datatype Point = Point(space: nat, time: real, kind: nat, param: nat)

  datatype LambdaPoint = LambdaPoint(block: nat, lambda: real, st: Point)

  /** What a point costs when a unit of time is worth `price` units of space. */
  ghost function Cost(price: real, p: Point): real {
    p.space as real + price * p.time
  }

  predicate AtMost(p: Point, q: Point) {
    p.space < q.space || (p.space == q.space && p.time <= q.time)
  }

  ghost predicate SortedPoints(s: seq<Point>) {
    forall i, j :: 0 <= i < j < |s| ==> AtMost(s[i], s[j])
  }

  ghost function Points(kept: seq<LambdaPoint>): seq<Point> {
    seq(|kept|, i requires 0 <= i < |kept| => kept[i].st)
  }

  /** Every point of p costs, at any price, at least as much as some point of s. */
  ghost predicate Covers(s: seq<Point>, p: seq<Point>) {
    forall price: real, i :: price >= 0.0 && 0 <= i < |p| ==> CoveredAt(s, price, p[i])
  }

  ghost predicate CoveredAt(s: seq<Point>, price: real, p: Point) {
    exists j :: 0 <= j < |s| && Cost(price, s[j]) <= Cost(price, p)
  }

  /** A point is kept, or one of the same space and time is. */
  ghost predicate HasLike(s: seq<Point>, p: Point) {
    exists j :: 0 <= j < |s| && s[j].space == p.space && s[j].time == p.time
  }

  /** At every price some point of s is cheaper. */
  ghost predicate Beaten(s: seq<Point>, p: Point) {
    forall price: real :: price > 0.0 ==> BeatenAt(s, price, p)
  }

  ghost predicate BeatenAt(s: seq<Point>, price: real, p: Point) {
    exists j :: 0 <= j < |s| && Cost(price, s[j]) < Cost(price, p)
  }

  /** Whatever is best at some price is kept. */
  ghost predicate KeepsBest(s: seq<Point>, p: seq<Point>) {
    forall x <- p :: HasLike(s, x) || Beaten(s, x)
  }

  /** Consecutive kept points: more space, less time, at the recorded price. */
  ghost predicate Linked(a: LambdaPoint, b: LambdaPoint) {
    && a.st.space < b.st.space && a.st.time > b.st.time
    && b.lambda * (a.st.time - b.st.time) == (b.st.space - a.st.space) as real
    && a.lambda <= b.lambda && b.lambda > 0.0
  }

  /** A chain of kept points of one block, starting with price zero. */
  ghost predicate Chain(kept: seq<LambdaPoint>, block: nat) {
    && kept != [] && kept[0].lambda == 0.0
    && (forall i :: 0 <= i < |kept| ==> kept[i].block == block)
    && (forall i :: 0 < i < |kept| ==> Linked(kept[i - 1], kept[i]))
  }

  /** What `append_lambdas` leaves for one block: a chain that starts with the smallest candidate,
      is made of candidates, covers them all, and misses none that is best at some price. */
  ghost predicate IsHull(kept: seq<LambdaPoint>, candidates: seq<Point>, block: nat) {
    && Chain(kept, block)
    && (forall p <- Points(kept) :: p in candidates)
    && (forall p <- candidates :: AtMost(kept[0].st, p))
    && Covers(Points(kept), candidates) && KeepsBest(Points(kept), candidates)
  }

  // ----- what the chain means -----

  /** The later of two linked points is the better one exactly from its price on. */
  lemma PriceDecides(a: LambdaPoint, b: LambdaPoint, price: real)
    requires Linked(a, b)
    ensures Cost(price, b.st) <= Cost(price, a.st) <==> b.lambda <= price
    ensures Cost(price, a.st) <= Cost(price, b.st) <==> price <= b.lambda
  {
    var d := a.st.time - b.st.time;
    assert Cost(price, b.st) - Cost(price, a.st) == (b.lambda - price) * d;
    SignOfProduct(b.lambda - price, d);
  }

  lemma SignOfProduct(x: real, d: real)
    requires d > 0.0
    ensures x * d <= 0.0 <==> x <= 0.0
    ensures x * d >= 0.0 <==> x >= 0.0
  {
    if x > 0.0 { assert x * d > 0.0; }
    if x < 0.0 { assert x * d < 0.0; }
  }

  lemma {:induction false} PricesAscend(kept: seq<LambdaPoint>, block: nat, i: nat, j: nat)
    requires Chain(kept, block) && i <= j < |kept|
    ensures kept[i].lambda <= kept[j].lambda && (j > 0 ==> kept[j].lambda > 0.0)
    ensures i < j ==> kept[i].st.space < kept[j].st.space && kept[i].st.time > kept[j].st.time
    decreases j - i
  {
    if i < j {
      PricesAscend(kept, block, i, j - 1);
      assert Linked(kept[j - 1], kept[j]);
    } else if j > 0 {
      assert Linked(kept[j - 1], kept[j]);
    }
  }

  /** Up to the price of the next point, a kept point is at least as good as every earlier one. */
  lemma {:induction false} BetterThanEarlier(kept: seq<LambdaPoint>, block: nat, i: nat, j: nat, price: real)
    requires Chain(kept, block) && i <= j < |kept| && kept[j].lambda <= price
    ensures Cost(price, kept[j].st) <= Cost(price, kept[i].st)
    decreases j - i
  {
    if i == j {
    } else {
      PricesAscend(kept, block, j - 1, j);
      BetterThanEarlier(kept, block, i, j - 1, price);
      PriceDecides(kept[j - 1], kept[j], price);
    }
  }

  lemma {:induction false} BetterThanLater(kept: seq<LambdaPoint>, block: nat, i: nat, j: nat, price: real)
    requires Chain(kept, block) && i <= j < |kept|
    requires i + 1 < |kept| ==> price <= kept[i + 1].lambda
    ensures Cost(price, kept[i].st) <= Cost(price, kept[j].st)
    decreases j - i
  {
    if i == j {
    } else {
      BetterThanLater(kept, block, i, j - 1, price);
      PricesAscend(kept, block, i + 1, j);
      assert Linked(kept[j - 1], kept[j]);
      PriceDecides(kept[j - 1], kept[j], price);
    }
  }

  /** At every price, the last kept point at or below it costs no more than any candidate. */
  lemma LastBelowPriceIsBest(kept: seq<LambdaPoint>, candidates: seq<Point>, block: nat, i: nat, price: real, p: Point)
    requires IsHull(kept, candidates, block) && i < |kept| && price >= 0.0 && p in candidates
    requires kept[i].lambda <= price && (i + 1 < |kept| ==> price <= kept[i + 1].lambda)
    ensures Cost(price, kept[i].st) <= Cost(price, p)
  {
    hide Cost, Linked;
    var m :| 0 <= m < |candidates| && candidates[m] == p;
    assert CoveredAt(Points(kept), price, candidates[m]);
    var j :| 0 <= j < |kept| && Cost(price, Points(kept)[j]) <= Cost(price, p);
    assert Points(kept)[j] == kept[j].st;
    if j <= i {
      BetterThanEarlier(kept, block, j, i, price);
    } else {
      BetterThanLater(kept, block, i, j, price);
    }
  }

  /** A candidate that costs no more than any other at some positive price is kept, or one like it. */
  lemma BestIsKept(kept: seq<LambdaPoint>, candidates: seq<Point>, block: nat, price: real, p: Point) returns (i: nat)
    requires IsHull(kept, candidates, block) && price > 0.0 && p in candidates
    requires forall q <- candidates :: Cost(price, p) <= Cost(price, q)
    ensures i < |kept| && kept[i].st.space == p.space && kept[i].st.time == p.time
  {
    hide Cost, Covers, Chain;
    var s := Points(kept);
    forall j | 0 <= j < |s| ensures Cost(price, p) <= Cost(price, s[j]) {
      assert s[j] in candidates;
    }
    assert !BeatenAt(s, price, p);
    i :| 0 <= i < |s| && s[i].space == p.space && s[i].time == p.time;
  }

  // ----- the steps of the construction -----

  lemma BeatenOrLikeMore(s: seq<Point>, p: seq<Point>, c: Point)
    requires KeepsBest(s, p)
    ensures KeepsBest(s + [c], p)
  {
    hide Cost;
    forall x | x in p ensures HasLike(s + [c], x) || Beaten(s + [c], x) {
      if HasLike(s, x) {
        var j :| 0 <= j < |s| && s[j].space == x.space && s[j].time == x.time;
        assert (s + [c])[j] == s[j];
      } else {
        forall price: real | price > 0.0 ensures BeatenAt(s + [c], price, x) {
          assert BeatenAt(s, price, x);
          var j :| 0 <= j < |s| && Cost(price, s[j]) < Cost(price, x);
          assert (s + [c])[j] == s[j];
        }
      }
    }
  }

  lemma KeepsCandidate(s: seq<Point>, p: seq<Point>, c: Point)
    requires KeepsBest(s + [c], p)
    ensures KeepsBest(s + [c], p + [c])
  {
    hide Cost, Beaten;
    assert (s + [c])[|s|] == c;
    assert HasLike(s + [c], c);
  }

  lemma DominatedIsBeaten(s: seq<Point>, p: seq<Point>, c: Point)
    requires KeepsBest(s, p) && s != []
    requires s[|s| - 1].space <= c.space && s[|s| - 1].time <= c.time
    ensures KeepsBest(s, p + [c])
  {
    var j := |s| - 1;
    if s[j].space < c.space || s[j].time < c.time {
      forall price: real | price > 0.0 ensures BeatenAt(s, price, c) {
        var later := c.time - s[j].time;
        assert price * later >= 0.0 && (later > 0.0 ==> price * later > 0.0);
        assert price * c.time == price * s[j].time + price * later;
        assert Cost(price, s[j]) < Cost(price, c);
      }
      hide Beaten;
    } else {
      assert HasLike(s, c);
    }
  }

  /** The popped point is beaten at every price by one of its neighbours. */
  lemma PoppedIsBeaten(a: LambdaPoint, b: LambdaPoint, c: LambdaPoint, price: real)
    requires Linked(a, b)
    requires b.st.time > c.st.time && c.lambda * (b.st.time - c.st.time) == (c.st.space - b.st.space) as real
    requires c.lambda < b.lambda
    ensures Cost(price, a.st) < Cost(price, b.st) || Cost(price, c.st) < Cost(price, b.st)
  {
    PriceDecides(a, b, price);
    if price >= b.lambda {
      var d := b.st.time - c.st.time;
      assert Cost(price, c.st) - Cost(price, b.st) == (c.lambda - price) * d;
      SignOfProduct(c.lambda - price, d);
    }
  }

  lemma PopKeepsBest(kept: seq<LambdaPoint>, c: LambdaPoint, p: seq<Point>)
    requires |kept| >= 2 && Linked(kept[|kept| - 2], kept[|kept| - 1])
    requires kept[|kept| - 1].st.time > c.st.time
    requires c.lambda * (kept[|kept| - 1].st.time - c.st.time) == (c.st.space - kept[|kept| - 1].st.space) as real
    requires c.lambda < kept[|kept| - 1].lambda
    requires KeepsBest(Points(kept) + [c.st], p)
    ensures KeepsBest(Points(kept[..|kept| - 1]) + [c.st], p)
  {
    hide Linked, KeepsBest, Beaten;
    var n := |kept|;
    var before, after := Points(kept) + [c.st], Points(kept[..n - 1]) + [c.st];
    var popped := kept[n - 1].st;
    assert after[n - 2] == kept[n - 2].st && after[n - 1] == c.st && before[n] == c.st && before[n - 1] == popped;
    assert forall j :: 0 <= j < n - 1 ==> after[j] == before[j];
    forall price: real ensures BeatenAt(after, price, popped) {
      PoppedIsBeaten(kept[n - 2], kept[n - 1], c, price);
    }
    OthersStay(before, after, popped, n - 1, p);
  }

  /** Without a point that is beaten by the others, what was kept or beaten still is. */
  lemma OthersStay(before: seq<Point>, after: seq<Point>, popped: Point, n: nat, p: seq<Point>)
    requires |before| == n + 2 && |after| == n + 1 && before[n] == popped
    requires (forall j :: 0 <= j < n ==> after[j] == before[j]) && after[n] == before[n + 1]
    requires forall price: real :: BeatenAt(after, price, popped)
    requires KeepsBest(before, p)
    ensures KeepsBest(after, p)
  {
    forall x | x in p ensures HasLike(after, x) || Beaten(after, x) {
      if HasLike(before, x) {
        var j :| 0 <= j < |before| && before[j].space == x.space && before[j].time == x.time;
        if j == n {
          forall price: real | price > 0.0 ensures BeatenAt(after, price, x) {
            assert BeatenAt(after, price, popped) && Cost(price, popped) == Cost(price, x);
          }
        } else {
          assert after[if j < n then j else n] == before[j];
        }
      } else {
        forall price: real | price > 0.0 ensures BeatenAt(after, price, x) {
          BeatenByOthers(before, after, popped, n, price, x);
        }
      }
    }
  }

  lemma BeatenByOthers(before: seq<Point>, after: seq<Point>, popped: Point, n: nat, price: real, x: Point)
    requires |before| == n + 2 && |after| == n + 1 && before[n] == popped
    requires (forall j :: 0 <= j < n ==> after[j] == before[j]) && after[n] == before[n + 1]
    requires BeatenAt(after, price, popped) && BeatenAt(before, price, x)
    ensures BeatenAt(after, price, x)
  {
    hide Cost;
    var j :| 0 <= j < |before| && Cost(price, before[j]) < Cost(price, x);
    if j == n {
      var m :| 0 <= m < |after| && Cost(price, after[m]) < Cost(price, popped);
      assert Cost(price, after[m]) < Cost(price, x);
    } else {
      assert after[if j < n then j else n] == before[j];
    }
  }

  lemma KeepsBestSame(s: seq<Point>, p: seq<Point>, r: seq<Point>)
    requires KeepsBest(s, p) && forall x :: x in r ==> x in p
    ensures KeepsBest(s, r)
  {
    hide HasLike, Beaten;
  }

  predicate Faster(p: Point, q: Point) {
    p.time < q.time || (p.time == q.time && p.space <= q.space)
  }

  /** The fastest of some points, and the smallest of those. */
  function FastestPoint(s: seq<Point>): (r: Point)
    requires s != []
    ensures r in s && forall p <- s :: Faster(r, p)
  {
    if |s| == 1 then s[0]
    else
      var r := FastestPoint(s[1..]);
      assert s == [s[0]] + s[1..];
      if Faster(s[0], r) then s[0] else r
  }

  /** The last kept point is the fastest of all candidates, and the smallest of the fastest. */
  lemma {:induction false} LastIsFastest(kept: seq<LambdaPoint>, candidates: seq<Point>, block: nat)
    requires IsHull(kept, candidates, block)
    ensures candidates != []
    ensures var last := kept[|kept| - 1].st; var fastest := FastestPoint(candidates);
            last.time == fastest.time && last.space == fastest.space
  {
    hide Covers;
    var i := |kept| - 1;
    var last := kept[i].st;
    assert Points(kept)[i] == last && last in candidates;
    var fastest := FastestPoint(candidates);
    PricesAscend(kept, block, 0, i);
    var least := kept[i].lambda;
    if fastest.time == last.time {
      LastBelowPriceIsBest(kept, candidates, block, i, least, fastest);
    } else {
      var price := PriceAbove(last, fastest, least);
      LastBelowPriceIsBest(kept, candidates, block, i, price, fastest);
      assert false;
    }
  }

  /** A price from a given one on at which a faster point is the cheaper one. */
  lemma PriceAbove(slow: Point, fast: Point, least: real) returns (price: real)
    requires fast.time < slow.time && least >= 0.0
    ensures price >= least && Cost(price, fast) < Cost(price, slow)
  {
    var d, gain := slow.time - fast.time, (fast.space - slow.space) as real;
    price := (if gain > 0.0 then gain / d else 0.0) + least + 1.0;
    assert price * d > gain by {
      if gain > 0.0 {
        assert gain / d * d == gain;
        assert (least + 1.0) * d > 0.0;
        assert price * d == gain / d * d + (least + 1.0) * d;
      } else {
        assert price * d > 0.0;
      }
    }
    assert price * slow.time - price * fast.time == price * d;
  }

  /** Among the candidates that cost least at a price, none is larger than the last kept point at or below it. */
  lemma LastIsLargest(kept: seq<LambdaPoint>, candidates: seq<Point>, block: nat, i: nat, price: real, p: Point)
    requires IsHull(kept, candidates, block) && i < |kept| && price > 0.0 && p in candidates
    requires kept[i].lambda <= price && (i + 1 < |kept| ==> price < kept[i + 1].lambda)
    requires Cost(price, p) <= Cost(price, kept[i].st)
    ensures p.space <= kept[i].st.space
  {
    hide IsHull;
    var q := kept[i].st;
    if p.space > q.space {
      var higher := if i + 1 < |kept| then kept[i + 1].lambda else price + 1.0;
      LastBelowPriceIsBest(kept, candidates, block, i, higher, p);
      LargerGains(p, q, price, higher);
      assert false;
    }
  }

  /** A larger point that is not dearer is the cheaper one at every higher price. */
  lemma LargerGains(p: Point, q: Point, price: real, higher: real)
    requires p.space > q.space && 0.0 < price < higher && Cost(price, p) <= Cost(price, q)
    ensures Cost(higher, p) < Cost(higher, q)
  {
    var gain := q.time - p.time;
    assert price * q.time - price * p.time == price * gain;
    assert higher * q.time - higher * p.time == higher * gain;
    assert gain > 0.0 by { SignOfProduct(gain, price); }
    assert (higher - price) * gain > 0.0;
    assert higher * gain == price * gain + (higher - price) * gain;
  }

  /** A point that is neither smaller nor faster than a kept one adds nothing. */
  lemma DominatedIsCovered(s: seq<Point>, p: seq<Point>, c: Point)
    requires Covers(s, p) && s != []
    requires s[|s| - 1].space <= c.space && s[|s| - 1].time <= c.time
    ensures Covers(s, p + [c])
  {
    forall price: real, i | price >= 0.0 && 0 <= i < |p + [c]| ensures CoveredAt(s, price, (p + [c])[i]) {
      if i < |p| {
        assert CoveredAt(s, price, p[i]);
      } else {
        DominatedCost(price, s[|s| - 1], c);
      }
    }
  }

  lemma DominatedCost(price: real, x: Point, y: Point)
    requires price >= 0.0 && x.space <= y.space && x.time <= y.time
    ensures Cost(price, x) <= Cost(price, y)
  {
    var later := y.time - x.time;
    assert price * later >= 0.0;
    assert price * y.time == price * x.time + price * later;
    assert Cost(price, x) == x.space as real + price * x.time;
    assert Cost(price, y) == y.space as real + price * y.time;
    assert x.space as real <= y.space as real;
  }

  lemma CoverAlso(s: seq<Point>, p: seq<Point>, c: Point)
    requires Covers(s + [c], p)
    ensures Covers(s + [c], p + [c])
  {
    forall price: real, i | price >= 0.0 && 0 <= i < |p + [c]| ensures CoveredAt(s + [c], price, (p + [c])[i]) {
      if i < |p| {
        assert CoveredAt(s + [c], price, p[i]);
      } else {
        assert (s + [c])[|s|] == c;
      }
    }
  }

  lemma CoverMore(s: seq<Point>, p: seq<Point>, c: Point)
    requires Covers(s, p)
    ensures Covers(s + [c], p)
  {
    forall price: real, i | price >= 0.0 && 0 <= i < |p| ensures CoveredAt(s + [c], price, p[i]) {
      assert CoveredAt(s, price, p[i]);
      var j :| 0 <= j < |s| && Cost(price, s[j]) <= Cost(price, p[i]);
      assert (s + [c])[j] == s[j];
    }
  }

  /** The point above the segment between its neighbours is never the only best one. */
  lemma PoppedIsCovered(a: LambdaPoint, b: LambdaPoint, c: LambdaPoint, price: real)
    requires Linked(a, b)
    requires b.st.time > c.st.time && c.lambda * (b.st.time - c.st.time) == (c.st.space - b.st.space) as real
    requires c.lambda < b.lambda
    ensures Cost(price, a.st) <= Cost(price, b.st) || Cost(price, c.st) <= Cost(price, b.st)
  {
    PriceDecides(a, b, price);
    if price >= b.lambda {
      var d := b.st.time - c.st.time;
      assert Cost(price, c.st) - Cost(price, b.st) == (c.lambda - price) * d;
      SignOfProduct(c.lambda - price, d);
    }
  }

  lemma PopKeepsCover(kept: seq<LambdaPoint>, c: LambdaPoint, p: seq<Point>)
    requires |kept| >= 2 && Linked(kept[|kept| - 2], kept[|kept| - 1])
    requires kept[|kept| - 1].st.time > c.st.time
    requires c.lambda * (kept[|kept| - 1].st.time - c.st.time) == (c.st.space - kept[|kept| - 1].st.space) as real
    requires c.lambda < kept[|kept| - 1].lambda
    requires Covers(Points(kept) + [c.st], p)
    ensures Covers(Points(kept[..|kept| - 1]) + [c.st], p)
  {
    hide Cost, Linked;
    var n := |kept|;
    var before, after := Points(kept) + [c.st], Points(kept[..n - 1]) + [c.st];
    forall price: real, i | price >= 0.0 && 0 <= i < |p| ensures CoveredAt(after, price, p[i]) {
      assert CoveredAt(before, price, p[i]);
      var j :| 0 <= j < |before| && Cost(price, before[j]) <= Cost(price, p[i]);
      PoppedIsCovered(kept[n - 2], kept[n - 1], c, price);
      assert after[n - 2] == kept[n - 2].st && after[n - 1] == c.st && before[n] == c.st && before[n - 1] == kept[n - 1].st;
      if j < n - 1 {
        assert after[j] == before[j];
      }
    }
  }

  // ----- the construction -----

  /** The contract of `std::sort` on points: the same points by space, then time. */
  method SortPoints(points: seq<Point>) returns (r: seq<Point>)
    ensures SortedPoints(r) && multiset(r) == multiset(points)
  {
    r := [];
    for i := 0 to |points|
      invariant SortedPoints(r) && multiset(r) == multiset(points[..i])
    {
      r := InsertPoint(r, points[i]);
      assert points[..i + 1] == points[..i] + [points[i]];
    }
    assert points[..|points|] == points;
  }

  method InsertPoint(s: seq<Point>, p: Point) returns (r: seq<Point>)
    requires SortedPoints(s)
    ensures SortedPoints(r) && multiset(r) == multiset(s) + multiset{p}
  {
    var j := |s|;
    while j > 0 && !AtMost(s[j - 1], p)
      invariant 0 <= j <= |s|
      invariant forall m :: j <= m < |s| ==> AtMost(p, s[m])
    {
      j := j - 1;
    }
    Multisets.OfInsertion(s, j, p);
    r := s[..j] + [p] + s[j..];
    InsertedInOrder(s, j, p);
  }

  lemma InsertedInOrder(s: seq<Point>, j: nat, p: Point)
    requires SortedPoints(s) && j <= |s|
    requires j > 0 ==> AtMost(s[j - 1], p)
    requires forall m :: j <= m < |s| ==> AtMost(p, s[m])
    ensures SortedPoints(s[..j] + [p] + s[j..])
  {
    var r := s[..j] + [p] + s[j..];
    forall a, b | 0 <= a < b < |r| ensures AtMost(r[a], r[b]) {
      if a < j && b >= j {
        assert a < j - 1 ==> AtMost(s[a], s[j - 1]);
      }
    }
  }

  /** The points kept so far for one block, while candidate `c` has just been compared. */
  ghost predicate Building(kept: seq<LambdaPoint>, done: seq<Point>, block: nat) {
    && Chain(kept, block)
    && (forall p <- Points(kept) :: p in done)
    && Covers(Points(kept), done) && KeepsBest(Points(kept), done)
  }

  class LambdasComputer {
    var pointsBuf: seq<LambdaPoint>

    constructor ()
      ensures pointsBuf == []
    {
      pointsBuf := [];
    }

    /** Appends the hull of one block's candidates. What was in the buffer before is never popped. */
    method AppendLambdas(points: seq<Point>, block: nat)
      requires points != []
      modifies this
      ensures old(pointsBuf) <= pointsBuf
      ensures IsHull(pointsBuf[|old(pointsBuf)|..], points, block)
    {
      var sorted := SortPoints(points);
      assert forall p :: p in points <==> p in sorted by { SameMembers(points, sorted); }
      ghost var before := pointsBuf;
      pointsBuf := pointsBuf + [LambdaPoint(block, 0.0, sorted[0])];
      ghost var kept := [LambdaPoint(block, 0.0, sorted[0])];
      StartBuilding(sorted, block);
      for i := 0 to |sorted|
        invariant pointsBuf == before + kept && Building(kept, Started(sorted, i), block)
        invariant kept[0] == LambdaPoint(block, 0.0, sorted[0])
      {
        kept := AddCandidate(sorted, i, block, before, kept);
      }
      assert sorted[..|sorted|] == sorted && Started(sorted, |sorted|) == sorted;
      assert pointsBuf[|before|..] == kept;
      HullOfSame(kept, sorted, points, block);
    }

    /** The inner loop: pops the points that the candidate makes useless, then keeps it unless it is dominated. */
    method AddCandidate(sorted: seq<Point>, i: nat, block: nat, ghost before: seq<LambdaPoint>,
                        ghost start: seq<LambdaPoint>)
      returns (ghost kept: seq<LambdaPoint>)
      requires SortedPoints(sorted) && i < |sorted|
      requires pointsBuf == before + start && Building(start, Started(sorted, i), block)
      requires start[0] == LambdaPoint(block, 0.0, sorted[0])
      modifies this
      ensures pointsBuf == before + kept && Building(kept, Started(sorted, i + 1), block)
      ensures kept[0] == LambdaPoint(block, 0.0, sorted[0])
    {
      hide Comparing, Building, Linked;
      kept := start;
      var cur := sorted[i];
      ComparingStarts(sorted, i, kept, block);
      while true
        invariant pointsBuf == before + kept && Comparing(sorted, i, kept, block)
        decreases |kept|
      {
        KeptIsSorted(sorted, i, kept, block);
        var prev := pointsBuf[|pointsBuf| - 1];
        assert prev == kept[|kept| - 1];
        if cur.time >= prev.st.time {
          CandidateDropped(sorted, i, kept, block);
          return;
        }
        var lambda := (cur.space - prev.st.space) as real / (prev.st.time - cur.time);
        ghost var c := LambdaPoint(block, lambda, cur);
        PriceOfStep(prev, c);
        if lambda < prev.lambda {
          LastPopped(sorted, i, kept, c, block);
          pointsBuf := pointsBuf[..|pointsBuf| - 1];
          assert pointsBuf == before + kept[..|kept| - 1];
          kept := kept[..|kept| - 1];
        } else {
          CandidateKept(sorted, i, kept, c, block);
          pointsBuf := pointsBuf + [LambdaPoint(block, lambda, cur)];
          kept := kept + [c];
          return;
        }
      }
    }
  }

  /** The kept points while candidate i is being compared with them: together with it they still cover and keep what
      they must, and without it as long as none has been popped. */
  ghost predicate Comparing(sorted: seq<Point>, i: nat, kept: seq<LambdaPoint>, block: nat)
    requires i < |sorted|
  {
    && Chain(kept, block) && kept[0] == LambdaPoint(block, 0.0, sorted[0])
    && (forall p <- Points(kept) :: p in Started(sorted, i))
    && Covers(Points(kept) + [sorted[i]], Started(sorted, i))
    && KeepsBest(Points(kept) + [sorted[i]], Started(sorted, i))
    && ((Covers(Points(kept), Started(sorted, i)) && KeepsBest(Points(kept), Started(sorted, i)))
        || kept[|kept| - 1].st.time > sorted[i].time)
  }

  lemma ComparingStarts(sorted: seq<Point>, i: nat, kept: seq<LambdaPoint>, block: nat)
    requires i < |sorted| && Building(kept, Started(sorted, i), block)
    requires kept[0] == LambdaPoint(block, 0.0, sorted[0])
    ensures Comparing(sorted, i, kept, block)
  {
    hide Covers, KeepsBest;
    CoverMore(Points(kept), Started(sorted, i), sorted[i]);
    BeatenOrLikeMore(Points(kept), Started(sorted, i), sorted[i]);
  }

  lemma KeptIsSorted(sorted: seq<Point>, i: nat, kept: seq<LambdaPoint>, block: nat)
    requires SortedPoints(sorted) && i < |sorted| && Comparing(sorted, i, kept, block)
    ensures kept != [] && AtMost(kept[|kept| - 1].st, sorted[i])
  {
    hide Covers, KeepsBest;
    KeptBeforeCandidate(sorted, i, kept);
  }

  lemma CandidateDropped(sorted: seq<Point>, i: nat, kept: seq<LambdaPoint>, block: nat)
    requires i < |sorted| && Comparing(sorted, i, kept, block)
    requires AtMost(kept[|kept| - 1].st, sorted[i]) && sorted[i].time >= kept[|kept| - 1].st.time
    ensures Building(kept, Started(sorted, i + 1), block) && kept[0] == LambdaPoint(block, 0.0, sorted[0])
  {
    hide Covers, KeepsBest, Building;
    KeepWithoutCandidate(sorted, i, kept, block);
  }

  lemma LastPopped(sorted: seq<Point>, i: nat, kept: seq<LambdaPoint>, c: LambdaPoint, block: nat)
    requires i < |sorted| && Comparing(sorted, i, kept, block) && c.st == sorted[i] && c.lambda > 0.0
    requires kept[|kept| - 1].st.time > c.st.time && c.lambda < kept[|kept| - 1].lambda
    requires c.lambda * (kept[|kept| - 1].st.time - c.st.time) == (c.st.space - kept[|kept| - 1].st.space) as real
    ensures |kept| >= 2 && Comparing(sorted, i, kept[..|kept| - 1], block)
  {
    hide Covers, KeepsBest;
    PopKeepsCover(kept, c, Started(sorted, i));
    PopKeepsBest(kept, c, Started(sorted, i));
    PopKeepsChain(sorted, i, kept, block);
  }

  lemma CandidateKept(sorted: seq<Point>, i: nat, kept: seq<LambdaPoint>, c: LambdaPoint, block: nat)
    requires i < |sorted| && Comparing(sorted, i, kept, block) && c.st == sorted[i] && c.block == block
    requires AtMost(kept[|kept| - 1].st, c.st) && kept[|kept| - 1].st.space < c.st.space
    requires kept[|kept| - 1].st.time > c.st.time && kept[|kept| - 1].lambda <= c.lambda && c.lambda > 0.0
    requires c.lambda * (kept[|kept| - 1].st.time - c.st.time) == (c.st.space - kept[|kept| - 1].st.space) as real
    ensures Building(kept + [c], Started(sorted, i + 1), block) && (kept + [c])[0] == LambdaPoint(block, 0.0, sorted[0])
  {
    hide Covers, KeepsBest, Building;
    KeepWithCandidate(sorted, i, kept, c, block);
  }

  /** The first i candidates; the very first is kept from the start. */
  ghost function Started(sorted: seq<Point>, i: nat): seq<Point>
    requires sorted != [] && i <= |sorted|
  {
    if i == 0 then [sorted[0]] else sorted[..i]
  }

  lemma SameMembers(a: seq<Point>, b: seq<Point>)
    requires multiset(a) == multiset(b)
    ensures forall p :: p in a <==> p in b
  {
    assert forall p :: p in a <==> p in multiset(a);
    assert forall p :: p in b <==> p in multiset(b);
  }

  lemma StartBuilding(sorted: seq<Point>, block: nat)
    requires sorted != []
    ensures Building([LambdaPoint(block, 0.0, sorted[0])], Started(sorted, 0), block)
  {
    var s := Points([LambdaPoint(block, 0.0, sorted[0])]);
    assert s == [sorted[0]];
    assert s[0].space == sorted[0].space && HasLike(s, sorted[0]);
    forall price: real, i | price >= 0.0 && 0 <= i < |[sorted[0]]| ensures CoveredAt(s, price, [sorted[0]][i]) {
      assert Cost(price, s[0]) <= Cost(price, sorted[0]);
    }
  }

  lemma KeptBeforeCandidate(sorted: seq<Point>, i: nat, kept: seq<LambdaPoint>)
    requires SortedPoints(sorted) && i < |sorted|
    requires forall p <- Points(kept) :: p in Started(sorted, i)
    ensures forall m :: 0 <= m < |kept| ==> AtMost(kept[m].st, sorted[i])
  {
    forall m | 0 <= m < |kept| ensures AtMost(kept[m].st, sorted[i]) {
      assert Points(kept)[m] in Started(sorted, i);
      var a :| 0 <= a < |Started(sorted, i)| && Started(sorted, i)[a] == kept[m].st;
      assert a <= i && sorted[a] == kept[m].st;
    }
  }

  lemma PriceOfStep(prev: LambdaPoint, c: LambdaPoint)
    requires prev.st.time > c.st.time && AtMost(prev.st, c.st)
    requires c.lambda == (c.st.space - prev.st.space) as real / (prev.st.time - c.st.time)
    ensures prev.st.space < c.st.space && c.lambda > 0.0
    ensures c.lambda * (prev.st.time - c.st.time) == (c.st.space - prev.st.space) as real
  {}

  lemma PopKeepsChain(sorted: seq<Point>, i: nat, kept: seq<LambdaPoint>, block: nat)
    requires Chain(kept, block) && |kept| >= 2 && sorted != [] && i <= |sorted|
    requires forall p <- Points(kept) :: p in Started(sorted, i)
    ensures Chain(kept[..|kept| - 1], block) && kept[|kept| - 2].st.time > kept[|kept| - 1].st.time
    ensures forall p <- Points(kept[..|kept| - 1]) :: p in Started(sorted, i)
  {
    assert Linked(kept[|kept| - 2], kept[|kept| - 1]);
    assert Points(kept[..|kept| - 1]) == Points(kept)[..|kept| - 1];
  }

  lemma KeepWithoutCandidate(sorted: seq<Point>, i: nat, kept: seq<LambdaPoint>, block: nat)
    requires i < |sorted| && Chain(kept, block)
    requires forall p <- Points(kept) :: p in Started(sorted, i)
    requires Covers(Points(kept), Started(sorted, i)) && KeepsBest(Points(kept), Started(sorted, i))
    requires kept[|kept| - 1].st.space <= sorted[i].space && kept[|kept| - 1].st.time <= sorted[i].time
    ensures Building(kept, Started(sorted, i + 1), block)
  {
    hide Covers, CoveredAt, KeepsBest;
    DominatedIsCovered(Points(kept), Started(sorted, i), sorted[i]);
    DominatedIsBeaten(Points(kept), Started(sorted, i), sorted[i]);
    StartedNext(sorted, i);
    KeepsBestSame(Points(kept), Started(sorted, i) + [sorted[i]], Started(sorted, i + 1));
    CoversSame(Points(kept), Started(sorted, i) + [sorted[i]], Started(sorted, i + 1));
  }

  lemma StartedNext(sorted: seq<Point>, i: nat)
    requires i < |sorted|
    ensures forall p :: p in Started(sorted, i + 1) <==> p in Started(sorted, i) + [sorted[i]]
  {
    assert sorted[..i + 1] == sorted[..i] + [sorted[i]];
  }

  lemma CoversSame(s: seq<Point>, p: seq<Point>, r: seq<Point>)
    requires Covers(s, p) && forall x :: x in r ==> x in p
    ensures Covers(s, r)
  {
    forall price: real, i | price >= 0.0 && 0 <= i < |r| ensures CoveredAt(s, price, r[i]) {
      assert r[i] in p;
      var j :| 0 <= j < |p| && p[j] == r[i];
      assert CoveredAt(s, price, p[j]);
    }
  }

  lemma KeepWithCandidate(sorted: seq<Point>, i: nat, kept: seq<LambdaPoint>, c: LambdaPoint, block: nat)
    requires i < |sorted| && Chain(kept, block) && c.st == sorted[i] && c.block == block
    requires forall p <- Points(kept) :: p in Started(sorted, i)
    requires Covers(Points(kept) + [c.st], Started(sorted, i)) && KeepsBest(Points(kept) + [c.st], Started(sorted, i))
    requires Linked(kept[|kept| - 1], c)
    ensures Building(kept + [c], Started(sorted, i + 1), block)
  {
    hide Covers, CoveredAt, KeepsBest, Linked;
    KeepsCandidate(Points(kept), Started(sorted, i), c.st);
    assert Points(kept + [c]) == Points(kept) + [c.st];
    CoverAlso(Points(kept), Started(sorted, i), c.st);
    StartedNext(sorted, i);
    CoversSame(Points(kept) + [c.st], Started(sorted, i) + [sorted[i]], Started(sorted, i + 1));
    KeepsBestSame(Points(kept) + [c.st], Started(sorted, i) + [sorted[i]], Started(sorted, i + 1));
  }

  lemma HullOfSame(kept: seq<LambdaPoint>, sorted: seq<Point>, points: seq<Point>, block: nat)
    requires Building(kept, sorted, block) && SortedPoints(sorted) && sorted != [] && kept[0].st == sorted[0]
    requires forall p :: p in points <==> p in sorted
    ensures IsHull(kept, points, block)
  {
    CoversSame(Points(kept), sorted, points);
    KeepsBestSame(Points(kept), sorted, points);
    hide Covers, KeepsBest;
    forall p | p in points ensures AtMost(kept[0].st, p) {
      var j :| 0 <= j < |sorted| && sorted[j] == p;
    }
  }
}
