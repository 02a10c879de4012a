/** `score_opt_partition`: partitions a posting list so that the scores in each block are close to the
    block's maximum, with windows that keep their maximum in a deque. Arithmetic is exact. */
module ScorePartition {
  import opened PartitionCosts
  import opened SortedLists
  import opened BlockData
  import Opt = OptimalPartition

  ghost function SumScores(scores: seq<real>, idf: real, i: nat, j: nat): real
    requires i <= j <= |scores|
  {
    if i == j then 0.0 else SumScores(scores, idf, i, j - 1) + scores[j - 1] * idf
  }

  /** The largest score of a non-empty stretch. */
  ghost function MaxScore(scores: seq<real>, i: nat, j: nat): real
    requires i < j <= |scores|
  {
    if i + 1 == j then scores[i] else Larger(MaxScore(scores, i, j - 1), scores[j - 1])
  }

  lemma {:induction false} MaxScoreIsMax(scores: seq<real>, i: nat, j: nat)
    requires i < j <= |scores|
    ensures IsMax(scores, i, j, MaxScore(scores, i, j))
  {
    if i + 1 == j {
      StartMax(scores, i);
    } else {
      MaxScoreIsMax(scores, i, j - 1);
      ExtendMax(scores, i, j - 1, MaxScore(scores, i, j - 1));
    }
  }

  /** The deque of a stretch: its scores that are not smaller than any later one. */
  ghost function SuffixMaxima(scores: seq<real>, i: nat, j: nat): seq<real>
    requires i <= j <= |scores|
    decreases j - i
  {
    if i == j then []
    else
      var rest := SuffixMaxima(scores, i + 1, j);
      if rest == [] || scores[i] >= rest[0] then [scores[i]] + rest else rest
  }

  lemma {:induction false} FrontIsMax(scores: seq<real>, i: nat, j: nat)
    requires i < j <= |scores|
    ensures SuffixMaxima(scores, i, j) != [] && IsMax(scores, i, j, SuffixMaxima(scores, i, j)[0])
    decreases j - i
  {
    if i + 1 == j {
      assert SuffixMaxima(scores, j, j) == [];
      StartMax(scores, i);
    } else {
      FrontIsMax(scores, i + 1, j);
      var rest := SuffixMaxima(scores, i + 1, j);
      if scores[i] >= rest[0] {
        assert scores[i] == SuffixMaxima(scores, i, j)[0];
      } else {
        var k :| i + 1 <= k < j && scores[k] == rest[0];
        assert i <= k < j && scores[k] == SuffixMaxima(scores, i, j)[0];
      }
    }
  }

  lemma MaxIsUnique(s: seq<real>, lo: nat, hi: nat, x: real, y: real)
    requires hi <= |s| && IsMax(s, lo, hi, x) && IsMax(s, lo, hi, y)
    ensures x == y
  {}

  /** Leaving the first element: the front goes exactly when it equals that element. */
  lemma PopFront(scores: seq<real>, i: nat, j: nat)
    requires i < j <= |scores|
    ensures var q := SuffixMaxima(scores, i, j);
            q != [] && SuffixMaxima(scores, i + 1, j) == if scores[i] == q[0] then q[1..] else q
  {
    FrontIsMax(scores, i, j);
    var q, rest := SuffixMaxima(scores, i, j), SuffixMaxima(scores, i + 1, j);
    if rest == [] || scores[i] >= rest[0] {
      assert q[1..] == rest;
    }
  }

  /** Drops the entries at the back that are smaller than v. */
  ghost function DropSmaller(q: seq<real>, v: real): seq<real> {
    if q != [] && q[|q| - 1] < v then DropSmaller(q[..|q| - 1], v) else q
  }

  ghost predicate NotAscending(q: seq<real>) {
    forall a, b :: 0 <= a < b < |q| ==> q[a] >= q[b]
  }

  lemma {:induction false} DequeDescends(scores: seq<real>, i: nat, j: nat)
    requires i <= j <= |scores|
    ensures NotAscending(SuffixMaxima(scores, i, j))
    decreases j - i
  {
    if i == j {
    } else {
      DequeDescends(scores, i + 1, j);
    }
  }

  lemma {:induction false} DropSmallerFront(x: real, q: seq<real>, v: real)
    requires NotAscending([x] + q)
    ensures DropSmaller([x] + q, v) == if DropSmaller(q, v) == [] && x < v then [] else [x] + DropSmaller(q, v)
    decreases |q|
  {
    if q == [] {
      assert [x] + q == [x];
      assert [x][..0] == [];
    } else {
      var last := |q| - 1;
      assert ([x] + q)[..|q|] == [x] + q[..last];
      assert ([x] + q)[|q|] == q[last];
      if q[last] < v {
        assert forall a :: 0 <= a < |q| ==> ([x] + q)[a] == ([x] + q[..last])[a];
        DropSmallerFront(x, q[..last], v);
      }
    }
  }

  lemma {:induction false} DropSmallerIsPrefix(q: seq<real>, v: real)
    ensures DropSmaller(q, v) <= q
    ensures DropSmaller(q, v) != [] ==> DropSmaller(q, v)[|DropSmaller(q, v)| - 1] >= v
  {
    if q != [] && q[|q| - 1] < v {
      DropSmallerIsPrefix(q[..|q| - 1], v);
    }
  }

  /** Taking in one more element: smaller entries leave from the back, then it is appended. */
  lemma {:induction false} PushBack(scores: seq<real>, i: nat, j: nat)
    requires i <= j < |scores|
    ensures SuffixMaxima(scores, i, j + 1) == DropSmaller(SuffixMaxima(scores, i, j), scores[j]) + [scores[j]]
    decreases j - i
  {
    var v := scores[j];
    if i == j {
      assert SuffixMaxima(scores, j + 1, j + 1) == [];
    } else {
      PushBack(scores, i + 1, j);
      var rest := SuffixMaxima(scores, i + 1, j);
      var kept := DropSmaller(rest, v);
      DequeDescends(scores, i, j);
      DropSmallerIsPrefix(rest, v);
      assert SuffixMaxima(scores, i + 1, j + 1) == kept + [v];
      if rest == [] || scores[i] >= rest[0] {
        DropSmallerFront(scores[i], rest, v);
        if kept == [] {
          assert kept + [v] == [v];
        } else {
          assert kept[0] == rest[0];
          assert [scores[i]] + (kept + [v]) == ([scores[i]] + kept) + [v];
        }
      } else {
        if kept != [] {
          assert kept[0] == rest[0];
        } else {
          AllSmaller(rest, v);
        }
      }
    }
  }

  lemma {:induction false} AllSmaller(q: seq<real>, v: real)
    requires DropSmaller(q, v) == []
    ensures forall a :: 0 <= a < |q| ==> q[a] < v
  {
    if q == [] {
    } else {
      AllSmaller(q[..|q| - 1], v);
      assert forall a :: 0 <= a < |q| - 1 ==> q[a] == q[..|q| - 1][a];
    }
  }

  // ----- block costs -----

  ghost function ScoreCost(scores: seq<real>, idf: real, fixedCost: real): Cost {
    (i: nat, j: nat) =>
      if !(i < j <= |scores|) || j - i < 2 then fixedCost
      else (j - i) as real * MaxScore(scores, i, j) * idf - SumScores(scores, idf, i, j) + fixedCost
  }

  lemma {:induction false} SumBelowMax(scores: seq<real>, idf: real, i: nat, j: nat, m: real)
    requires i <= j <= |scores| && idf >= 0.0 && forall k :: i <= k < j ==> scores[k] <= m
    ensures SumScores(scores, idf, i, j) <= (j - i) as real * m * idf
  {
    if i == j {
    } else {
      SumBelowMax(scores, idf, i, j - 1, m);
      assert scores[j - 1] * idf <= m * idf;
      assert (j - i) as real * m * idf == (j - 1 - i) as real * m * idf + m * idf;
    }
  }

  lemma ScoreCostNonNegative(scores: seq<real>, idf: real, fixedCost: real)
    requires idf >= 0.0 && fixedCost >= 0.0
    ensures NonNegative(ScoreCost(scores, idf, fixedCost), |scores|)
  {
    forall i, j | 0 <= i < j <= |scores| ensures ScoreCost(scores, idf, fixedCost)(i, j) >= 0.0 {
      MaxScoreIsMax(scores, i, j);
      SumBelowMax(scores, idf, i, j, MaxScore(scores, i, j));
    }
  }

  /** How far the scores of a stretch stay below m, in weighted total. */
  ghost function Excess(scores: seq<real>, idf: real, i: nat, j: nat, m: real): real
    requires i <= j <= |scores|
  {
    (j - i) as real * m * idf - SumScores(scores, idf, i, j)
  }

  lemma ExcessStep(scores: seq<real>, idf: real, i: nat, j: nat, m: real)
    requires i < j <= |scores|
    ensures Excess(scores, idf, i, j, m) == Excess(scores, idf, i, j - 1, m) + Times(m - scores[j - 1], idf)
  {
    assert (j - i) as real * m * idf == (j - 1 - i) as real * m * idf + m * idf;
  }

  lemma {:induction false} ExcessRaise(scores: seq<real>, idf: real, i: nat, j: nat, m: real, m': real)
    requires i <= j <= |scores| && idf >= 0.0 && m <= m'
    ensures Excess(scores, idf, i, j, m) <= Excess(scores, idf, i, j, m')
  {
    if i == j {
    } else {
      ExcessRaise(scores, idf, i, j - 1, m, m');
      ExcessStep(scores, idf, i, j, m);
      ExcessStep(scores, idf, i, j, m');
      Scaled(idf, m - scores[j - 1], m' - scores[j - 1]);
    }
  }

  lemma Scaled(idf: real, x: real, y: real)
    requires idf >= 0.0 && x <= y
    ensures x * idf <= y * idf
  {
    assert (y - x) * idf >= 0.0;
    assert (y - x) * idf == y * idf - x * idf;
  }

  ghost function Times(x: real, y: real): (p: real)
    ensures x >= 0.0 && y >= 0.0 ==> p >= 0.0
  {
    x * y
  }

  lemma {:induction false} ExcessWidenRight(scores: seq<real>, idf: real, i: nat, j: nat, j': nat, m: real)
    requires i <= j <= j' <= |scores| && idf >= 0.0 && forall k :: j <= k < j' ==> scores[k] <= m
    ensures Excess(scores, idf, i, j, m) <= Excess(scores, idf, i, j', m)
    decreases j' - j
  {
    hide Excess, Times;
    if j < j' {
      ExcessWidenRight(scores, idf, i, j, j' - 1, m);
      ExcessStep(scores, idf, i, j', m);
    }
  }

  lemma {:induction false} ExcessWidenLeft(scores: seq<real>, idf: real, i: nat, i': nat, j: nat, m: real)
    requires i <= i' <= j <= |scores| && idf >= 0.0 && forall k :: i <= k < i' ==> scores[k] <= m
    ensures Excess(scores, idf, i', j, m) <= Excess(scores, idf, i, j, m)
    decreases i' - i
  {
    if i < i' {
      ExcessWidenLeft(scores, idf, i + 1, i', j, m);
      SumWithoutFirst(scores, idf, i, j);
      assert (j - i) as real * m * idf == (j - (i + 1)) as real * m * idf + m * idf;
      Scaled(idf, scores[i], m);
    }
  }

  lemma {:induction false} CostIsExcess(scores: seq<real>, idf: real, fixedCost: real, i: nat, j: nat)
    requires i < j <= |scores|
    ensures ScoreCost(scores, idf, fixedCost)(i, j) == Excess(scores, idf, i, j, MaxScore(scores, i, j)) + fixedCost
  {
    if j - i == 1 {
      assert SumScores(scores, idf, i, i) == 0.0;
      assert (j - i) as real == 1.0;
    }
  }

  /** A block's cost is the fixed cost and, added up over its scores, how far each stays below the largest, times
      the weight: for any m, `Excess` starts from nothing and grows by (m - score) * idf with every score. */
  lemma CostIs(scores: seq<real>, idf: real, fixedCost: real, i: nat, j: nat, m: real)
    requires i < j <= |scores| && IsMax(scores, i, j, m)
    ensures ScoreCost(scores, idf, fixedCost)(i, j) == fixedCost + Excess(scores, idf, i, j, m)
    ensures Excess(scores, idf, i, i, m) == 0.0
    ensures Excess(scores, idf, i, j, m) == Excess(scores, idf, i, j - 1, m) + (m - scores[j - 1]) * idf
  {
    hide Excess, ScoreCost, SumScores, MaxScore;
    MaxScoreIsMax(scores, i, j);
    CostIsExcess(scores, idf, fixedCost, i, j);
    ExcessStep(scores, idf, i, j, m);
    NoExcess(scores, idf, i, m);
  }

  lemma NoExcess(scores: seq<real>, idf: real, i: nat, m: real)
    requires i <= |scores|
    ensures Excess(scores, idf, i, i, m) == 0.0
  {}

  /** A block of scores costs at least as much as any block inside it. */
  lemma ScoreCostMonotone(scores: seq<real>, idf: real, fixedCost: real)
    requires idf >= 0.0
    ensures Monotone(ScoreCost(scores, idf, fixedCost), |scores|)
  {
    hide Excess, MaxScore, ScoreCost, SumScores;
    var cost := ScoreCost(scores, idf, fixedCost);
    forall i, j, i', j' | 0 <= i <= i' < j' <= j <= |scores| ensures cost(i', j') <= cost(i, j) {
      var m, m' := MaxScore(scores, i, j), MaxScore(scores, i', j');
      MaxScoreIsMax(scores, i, j);
      MaxScoreIsMax(scores, i', j');
      CostIsExcess(scores, idf, fixedCost, i, j);
      CostIsExcess(scores, idf, fixedCost, i', j');
      ExcessRaise(scores, idf, i', j', m', m);
      ExcessWidenRight(scores, idf, i', j', j, m);
      ExcessWidenLeft(scores, idf, i, i', j, m);
    }
  }

  lemma {:induction false} EmptyWindow(scores: seq<real>, idf: real)
    ensures SumScores(scores, idf, 0, 0) == 0.0 && SuffixMaxima(scores, 0, 0) == []
  {}

  class ScoreWindow {
    const scores: seq<real>
    const idf: real
    const fixedCost: real
    const costUpperBound: real
    var start: nat
    var end: nat
    var maxQueue: seq<real>
    var sum: real

    /** The window is on [start, end), with the sum of its weighted scores and the deque of its maxima. */
    ghost predicate Valid()
      reads this
    {
      && start <= end <= |scores|
      && sum == SumScores(scores, idf, start, end)
      && maxQueue == SuffixMaxima(scores, start, end)
    }

    constructor (scores: seq<real>, idf: real, fixedCost: real, costUpperBound: real)
      ensures Valid() && start == end == 0
      ensures this.scores == scores && this.idf == idf && this.fixedCost == fixedCost
      ensures this.costUpperBound == costUpperBound
    {
      hide SumScores, SuffixMaxima;
      EmptyWindow(scores, idf);
      this.scores, this.idf, this.fixedCost, this.costUpperBound := scores, idf, fixedCost, costUpperBound;
      start, end, maxQueue, sum := 0, 0, [], 0.0;
    }

    method AdvanceStart()
      requires Valid() && start < end
      modifies this
      ensures Valid() && start == old(start) + 1 && end == old(end)
    {
      PopFront(scores, start, end);
      SumWithoutFirst(scores, idf, start, end);
      var v := scores[start] * idf;
      if scores[start] == maxQueue[0] {
        maxQueue := maxQueue[1..];
      }
      sum := sum - v;
      start := start + 1;
    }

    method AdvanceEnd()
      requires Valid() && end < |scores|
      modifies this
      ensures Valid() && start == old(start) && end == old(end) + 1
    {
      PushBack(scores, start, end);
      var v := scores[end] * idf;
      sum := sum + v;
      while |maxQueue| > 0 && maxQueue[|maxQueue| - 1] < scores[end]
        invariant sum == old(sum) + v && start == old(start) && end == old(end)
        invariant DropSmaller(maxQueue, scores[end]) == DropSmaller(old(maxQueue), scores[end])
        decreases |maxQueue|
      {
        maxQueue := maxQueue[..|maxQueue| - 1];
      }
      maxQueue := maxQueue + [scores[end]];
      end := end + 1;
    }

    /** At any time the front of the deque is the maximum of the window. */
    method Max() returns (m: real)
      requires Valid() && start < end
      ensures IsMax(scores, start, end, m)
    {
      FrontIsMax(scores, start, end);
      m := maxQueue[0];
    }

    method BlockCost() returns (c: real)
      requires Valid() && start < end
      ensures c == ScoreCost(scores, idf, fixedCost)(start, end)
    {
      FrontIsMax(scores, start, end);
      MaxScoreIsMax(scores, start, end);
      MaxIsUnique(scores, start, end, maxQueue[0], MaxScore(scores, start, end));
      if end - start < 2 {
        c := fixedCost;
      } else {
        c := (end - start) as real * maxQueue[0] * idf - sum + fixedCost;
      }
    }
  }

  lemma {:induction false} SumWithoutFirst(scores: seq<real>, idf: real, i: nat, j: nat)
    requires i < j <= |scores|
    ensures SumScores(scores, idf, i + 1, j) == SumScores(scores, idf, i, j) - scores[i] * idf
    decreases j
  {
    if i + 1 < j {
      SumWithoutFirst(scores, idf, i, j - 1);
    } else {
      assert SumScores(scores, idf, i, i) == 0.0;
    }
  }

  // ----- the sweep -----

  /** The maxima kept beside the tables: of the block that improved a node, or of the whole list. */
  ghost predicate MaximaOk(scores: seq<real>, initial: real, minCost: seq<real>, path: seq<nat>, maxs: seq<real>) {
    && |minCost| == |path| == |maxs| == |scores| + 1
    && forall j :: 0 < j <= |scores| ==> NodeMaxOk(scores, initial, minCost, path, maxs, j)
  }

  ghost predicate NodeMaxOk(scores: seq<real>, initial: real, minCost: seq<real>, path: seq<nat>, maxs: seq<real>,
                            j: nat)
    requires |minCost| == |path| == |maxs| == |scores| + 1 && 0 < j <= |scores|
  {
    || (minCost[j] == initial && path[j] == 0 && (j == |scores| ==> IsMax(scores, 0, j, maxs[j])))
    || (minCost[j] < initial && path[j] < j && IsMax(scores, path[j], j, maxs[j]))
  }

  lemma RelaxKeepsMaxima(scores: seq<real>, initial: real, minCost: seq<real>, path: seq<nat>, maxs: seq<real>, i: nat,
                         j: nat, value: real, m: real)
    requires MaximaOk(scores, initial, minCost, path, maxs) && i < j <= |scores| && value < minCost[j]
    requires IsMax(scores, i, j, m)
    ensures MaximaOk(scores, initial, minCost[j := value], path[j := i], maxs[j := m])
  {
    var c, p, mm := minCost[j := value], path[j := i], maxs[j := m];
    forall x | 0 < x <= |scores| ensures NodeMaxOk(scores, initial, c, p, mm, x) {
      assert NodeMaxOk(scores, initial, minCost, path, maxs, x);
      assert NodeMaxOk(scores, initial, minCost, path, maxs, j);
    }
  }

  /** The three tables of the sweep. */
  class ScoreTables {
    const minCost: array<real>
    const path: array<nat>
    const maxs: array<real>

    constructor (size: nat, initial: real, maxOfAll: real)
      ensures fresh(minCost) && fresh(path) && fresh(maxs)
      ensures minCost.Length == path.Length == maxs.Length == size + 1
      ensures minCost[0] == 0.0 && forall j :: 0 < j <= size ==> minCost[j] == initial
      ensures (forall j :: 0 <= j <= size ==> path[j] == 0) && maxs[size] == maxOfAll
      ensures minCost != maxs
    {
      minCost := new real[size + 1](_ => initial);
      path := new nat[size + 1](_ => 0);
      maxs := new real[size + 1](_ => 0.0);
      new;
      minCost[0] := 0.0;
      maxs[size] := maxOfAll;
    }

    ghost predicate Ok(scores: seq<real>, cost: Cost, initial: real, tried: set<(nat, nat)>, i: nat)
      reads minCost, path, maxs
    {
      && minCost != maxs
      && Opt.SweepState(cost, |scores|, initial, minCost[..], path[..], tried, i)
      && MaximaOk(scores, initial, minCost[..], path[..], maxs[..])
    }

    /** The block [i, j), of the given cost and maximum, improves node j or leaves it. */
    method Relax(i: nat, j: nat, blockCost: real, blockMax: real, ghost scores: seq<real>, ghost cost: Cost,
                 ghost initial: real, ghost tried: set<(nat, nat)>)
      requires Ok(scores, cost, initial, tried, i) && i < j <= |scores|
      requires blockCost == cost(i, j) && IsMax(scores, i, j, blockMax)
      modifies minCost, path, maxs
      ensures Ok(scores, cost, initial, tried + {(i, j)}, i)
    {
      Opt.RelaxStep(cost, |scores|, initial, minCost[..], path[..], tried, i, j);
      if minCost[i] + blockCost < minCost[j] {
        RelaxKeepsMaxima(scores, initial, minCost[..], path[..], maxs[..], i, j, minCost[i] + cost(i, j), blockMax);
      }
      hide Opt.SweepState, MaximaOk, IsMax;
      ghost var m, p, x := minCost[..], path[..], maxs[..];
      if minCost[i] + blockCost < minCost[j] {
        minCost[j] := minCost[i] + blockCost;
        path[j] := i;
        maxs[j] := blockMax;
        assert minCost[..] == m[j := m[i] + cost(i, j)] && path[..] == p[j := i] && maxs[..] == x[j := blockMax];
      }
    }
  }

  ghost predicate WindowAt(scores: seq<real>, idf: real, fixedCost: real, bound: real, w: ScoreWindow, end: nat,
                           start: nat)
    reads w
  {
    && w.scores == scores && w.idf == idf && w.fixedCost == fixedCost && w.costUpperBound == bound
    && w.Valid() && w.end == end && w.start == start
  }

  /** Distinct windows, one per bound, at the given ends; the first k have moved on from node i. */
  ghost predicate WindowsAt(scores: seq<real>, idf: real, fixedCost: real, bounds: seq<real>, windows: seq<ScoreWindow>,
                            ends: seq<nat>, k: nat, i: nat)
    reads windows
  {
    && |windows| == |bounds| == |ends|
    && (forall m, n :: 0 <= m < n < |windows| ==> windows[m] != windows[n])
    && forall m :: 0 <= m < |windows| ==>
         WindowAt(scores, idf, fixedCost, bounds[m], windows[m], ends[m], if m < k then i + 1 else i)
  }

  method CatchUp(w: ScoreWindow, lastEnd: nat)
    requires w.Valid() && lastEnd <= |w.scores|
    modifies w
    ensures w.Valid() && w.start == old(w.start) && w.end == if old(w.end) < lastEnd then lastEnd else old(w.end)
  {
    while w.end < lastEnd
      invariant w.Valid() && w.start == old(w.start)
      invariant old(w.end) <= w.end && (w.end == old(w.end) || w.end <= lastEnd)
    {
      w.AdvanceEnd();
    }
  }

  /** Relaxes the window's current block. */
  method RelaxCurrent(w: ScoreWindow, i: nat, t: ScoreTables, ghost cost: Cost, ghost initial: real,
                      ghost tried: set<(nat, nat)>)
    returns (windowCost: real)
    requires w.Valid() && w.start == i < w.end && cost == ScoreCost(w.scores, w.idf, w.fixedCost)
    requires t.Ok(w.scores, cost, initial, tried, i)
    modifies t.minCost, t.path, t.maxs
    ensures t.Ok(w.scores, cost, initial, tried + {(i, w.end)}, i) && windowCost == cost(i, w.end)
    ensures w.Valid()
  {
    hide ScoreCost;
    windowCost := w.BlockCost();
    var m := w.Max();
    t.Relax(i, w.end, windowCost, m, w.scores, cost, initial, tried);
  }

  /** Brings one window to at least `lastEnd` and relaxes blocks until its bound or the end is reached. */
  method RunWindow(w: ScoreWindow, i: nat, lastEnd: nat, t: ScoreTables, ghost cost: Cost, ghost initial: real,
                   ghost tried: set<(nat, nat)>)
    returns (newEnd: nat, ghost newTried: set<(nat, nat)>)
    requires w.Valid() && w.start == i < lastEnd <= |w.scores| && cost == ScoreCost(w.scores, w.idf, w.fixedCost)
    requires t.Ok(w.scores, cost, initial, tried, i)
    modifies w, t.minCost, t.path, t.maxs
    ensures w.Valid() && w.start == i + 1 && w.end == newEnd
    ensures newEnd ==
              FirstReaching(cost, |w.scores|, w.costUpperBound, i, if old(w.end) < lastEnd then lastEnd else old(w.end))
    ensures t.Ok(w.scores, cost, initial, newTried, i)
    ensures tried <= newTried && (i, newEnd) in newTried
  {
    hide ScoreCost, Opt.SweepState, MaximaOk;
    CatchUp(w, lastEnd);
    ghost var first := w.end;
    newTried := tried;
    while true
      invariant w.Valid() && w.start == i < w.end <= |w.scores|
      invariant FirstReaching(cost, |w.scores|, w.costUpperBound, i, w.end) ==
                  FirstReaching(cost, |w.scores|, w.costUpperBound, i, first)
      invariant t.Ok(w.scores, cost, initial, newTried, i) && tried <= newTried
      decreases |w.scores| - w.end
    {
      var windowCost := RelaxCurrent(w, i, t, cost, initial, newTried);
      newTried := newTried + {(i, w.end)};
      newEnd := w.end;
      if w.end == |w.scores| { break; }
      if windowCost >= w.costUpperBound { break; }
      w.AdvanceEnd();
    }
    w.AdvanceStart();
  }

  method RunWindowAt(windows: seq<ScoreWindow>, k: nat, i: nat, lastEnd: nat, t: ScoreTables, ghost scores: seq<real>,
                     ghost idf: real,
                     ghost fixedCost: real, ghost bounds: seq<real>, ghost initial: real, ghost tried: set<(nat, nat)>, ghost ends: seq<nat>)
    returns (newEnd: nat, ghost newTried: set<(nat, nat)>)
    requires WindowsAt(scores, idf, fixedCost, bounds, windows, ends, k, i) && k < |windows| && i < lastEnd <= |scores|
    requires t.Ok(scores, ScoreCost(scores, idf, fixedCost), initial, tried, i)
    modifies windows, t.minCost, t.path, t.maxs
    ensures WindowsAt(scores, idf, fixedCost, bounds, windows, ends[k := newEnd], k + 1, i)
    ensures newEnd ==
              FirstReaching(ScoreCost(scores, idf, fixedCost), |scores|, bounds[k], i,
                            if ends[k] < lastEnd then lastEnd else ends[k])
    ensures t.Ok(scores, ScoreCost(scores, idf, fixedCost), initial, newTried, i)
    ensures tried <= newTried && (i, newEnd) in newTried && ends[k] <= |scores|
  {
    hide FirstReaching, ScoreCost, Opt.SweepState, MaximaOk;
    newEnd, newTried := RunWindow(windows[k], i, lastEnd, t, ScoreCost(scores, idf, fixedCost), initial, tried);
  }

  lemma WindowCounts(scores: seq<real>, idf: real, fixedCost: real, bounds: seq<real>, windows: seq<ScoreWindow>,
                     ends: seq<nat>, k: nat, i: nat)
    requires WindowsAt(scores, idf, fixedCost, bounds, windows, ends, k, i)
    ensures |windows| == |bounds| == |ends|
  {}

  /** All windows work on node i, each handing its end to the next. */
  method RunNode(windows: seq<ScoreWindow>, i: nat, t: ScoreTables, ghost scores: seq<real>, ghost idf: real,
                 ghost fixedCost: real,
                 ghost bounds: seq<real>, ghost initial: real, ghost tried: set<(nat, nat)>, ghost ends: seq<nat>)
    returns (ghost newTried: set<(nat, nat)>, ghost newEnds: seq<nat>)
    requires WindowsAt(scores, idf, fixedCost, bounds, windows, ends, 0, i) && i < |scores|
    requires t.Ok(scores, ScoreCost(scores, idf, fixedCost), initial, tried, i)
    modifies windows, t.minCost, t.path, t.maxs
    ensures WindowsAt(scores, idf, fixedCost, bounds, windows, newEnds, |windows|, i)
    ensures t.Ok(scores, ScoreCost(scores, idf, fixedCost), initial, newTried, i)
    ensures tried <= newTried
    ensures Opt.Ascending(bounds) && Opt.NotBeyond(ScoreCost(scores, idf, fixedCost), |scores|, bounds, ends, i) ==>
              Opt.AtLeast(ScoreCost(scores, idf, fixedCost), |scores|, bounds, newEnds, |bounds|, i, newTried)
  {
    hide Opt.SweepState, Opt.Ascending, Opt.AtLeast, Opt.NotBeyond, FirstReaching, LeastEnd, ScoreCost, WindowsAt,
         MaximaOk;
    WindowCounts(scores, idf, fixedCost, bounds, windows, ends, 0, i);
    ghost var cost, size := ScoreCost(scores, idf, fixedCost), |scores|;
    var lastEnd := i + 1;
    newTried, newEnds := tried, ends;
    Opt.NoneAtLeast(cost, size, bounds, ends, i, tried);
    for k := 0 to |windows|
      invariant WindowsAt(scores, idf, fixedCost, bounds, windows, newEnds, k, i)
      invariant |ends| == |newEnds| == |windows| == |bounds| && newEnds[k..] == ends[k..]
      invariant i < lastEnd <= size && lastEnd == if k == 0 then i + 1 else newEnds[k - 1]
      invariant t.Ok(scores, cost, initial, newTried, i) && tried <= newTried
      invariant Opt.Ascending(bounds) && Opt.NotBeyond(cost, size, bounds, ends, i) ==>
                  Opt.AtLeast(cost, size, bounds, newEnds, k, i, newTried)
    {
      ghost var before, lastBefore := newTried, lastEnd;
      assert newEnds[k] == newEnds[k..][0] == ends[k..][0] == ends[k];
      lastEnd, newTried := RunWindowAt(windows, k, i, lastEnd, t, scores, idf, fixedCost, bounds, initial, newTried,
                                       newEnds);
      if Opt.Ascending(bounds) && Opt.NotBeyond(cost, size, bounds, ends, i) {
        Opt.OneMoreAtLeast(cost, size, bounds, newEnds, k, i, before, lastBefore, ends, lastEnd, newTried);
      }
      newEnds := newEnds[k := lastEnd];
      assert newEnds[k + 1..] == ends[k..][1..];
    }
  }

  lemma WindowsOfNext(scores: seq<real>, idf: real, fixedCost: real, bounds: seq<real>, windows: seq<ScoreWindow>,
                      ends: seq<nat>, i: nat)
    requires WindowsAt(scores, idf, fixedCost, bounds, windows, ends, |windows|, i)
    ensures WindowsAt(scores, idf, fixedCost, bounds, windows, ends, 0, i + 1)
  {}

  lemma TablesOfNext(t: ScoreTables, scores: seq<real>, cost: Cost, initial: real, tried: set<(nat, nat)>, i: nat)
    requires t.Ok(scores, cost, initial, tried, i)
    ensures t.Ok(scores, cost, initial, tried, i + 1)
  {
    Opt.StateOfNext(cost, |scores|, initial, t.minCost[..], t.path[..], tried, i);
  }

  /** The whole sweep. With ascending bounds every window stops, at every node, at the least end
      where its bound is reached. */
  method Sweep(windows: seq<ScoreWindow>, t: ScoreTables, size: nat, ghost scores: seq<real>, ghost idf: real,
               ghost fixedCost: real,
               ghost bounds: seq<real>, ghost initial: real)
    returns (ghost tried: set<(nat, nat)>)
    requires size == |scores| && idf >= 0.0
    requires WindowsAt(scores, idf, fixedCost, bounds, windows, seq(|bounds|, _ => 0), 0, 0)
    requires t.Ok(scores, ScoreCost(scores, idf, fixedCost), initial, {}, 0)
    modifies windows, t.minCost, t.path, t.maxs
    ensures t.Ok(scores, ScoreCost(scores, idf, fixedCost), initial, tried, size)
    ensures Opt.Ascending(bounds) ==> Opt.LeastBlocksTried(ScoreCost(scores, idf, fixedCost), size, bounds, tried, size)
  {
    hide Opt.SweepState, Opt.Ascending, Opt.AtLeast, FirstReaching, LeastEnd, ScoreCost, WindowsAt, Monotone,
         Opt.NotBeyond, Opt.LeastBlocksTried, MaximaOk;
    ghost var cost := ScoreCost(scores, idf, fixedCost);
    ScoreCostMonotone(scores, idf, fixedCost);
    ghost var ends := seq(|bounds|, _ => 0);
    tried := {};
    Opt.NothingTried(cost, size, bounds, ends);
    for i := 0 to size
      invariant WindowsAt(scores, idf, fixedCost, bounds, windows, ends, 0, i)
      invariant t.Ok(scores, cost, initial, tried, i)
      invariant Opt.Ascending(bounds) ==> Opt.LeastBlocksTried(cost, size, bounds, tried, i)
      invariant Opt.Ascending(bounds) && i < size ==> Opt.NotBeyond(cost, size, bounds, ends, i)
    {
      ghost var before := tried;
      tried, ends := RunNode(windows, i, t, scores, idf, fixedCost, bounds, initial, tried, ends);
      if Opt.Ascending(bounds) {
        Opt.NodeDone(cost, size, bounds, ends, i, before, tried);
      }
      TablesOfNext(t, scores, cost, initial, tried, i);
      WindowsOfNext(scores, idf, fixedCost, bounds, windows, ends, i);
    }
  }

  method MakeWindows(scores: seq<real>, idf: real, fixedCost: real, bounds: seq<real>)
    returns (windows: seq<ScoreWindow>)
    ensures WindowsAt(scores, idf, fixedCost, bounds, windows, seq(|bounds|, _ => 0), 0, 0) && fresh(windows)
  {
    windows := [];
    for m := 0 to |bounds|
      invariant |windows| == m && fresh(windows)
      invariant forall a, b :: 0 <= a < b < |windows| ==> windows[a] != windows[b]
      invariant forall a :: 0 <= a < m ==> WindowAt(scores, idf, fixedCost, bounds[a], windows[a], 0, 0)
    {
      var w := new ScoreWindow(scores, idf, fixedCost, bounds[m]);
      windows := windows + [w];
    }
  }

  /** The initial cost of a single block: without the fixed cost. */
  method SingleBlock(scores: seq<real>, idf: real) returns (cost: real, max: real)
    requires scores != [] && forall i :: 0 <= i < |scores| ==> scores[i] >= 0.0
    ensures IsMax(scores, 0, |scores|, max)
    ensures cost == Excess(scores, idf, 0, |scores|, max)
  {
    max := 0.0;
    var sum := 0.0;
    for i := 0 to |scores|
      invariant i == 0 ==> max == 0.0
      invariant i > 0 ==> IsMax(scores, 0, i, max)
      invariant sum == SumScores(scores, idf, 0, i)
    {
      if i == 0 { StartMax(scores, 0); } else { ExtendMax(scores, 0, i, max); }
      max := Larger(max, scores[i]);
      sum := sum + scores[i] * idf;
    }
    cost := |scores| as real * max * idf - sum;
  }

  /** Each block of the found partition carries the true maximum of its scores. */
  lemma {:induction false} MaximaOfBlocks(scores: seq<real>, initial: real, minCost: seq<real>, path: seq<nat>,
                                          maxs: seq<real>, cost: Cost, j: nat, b: nat)
    requires MaximaOk(scores, initial, minCost, path, maxs) && Backward(path)
    requires Tables(cost, |scores|, initial, minCost, path, |scores|) && NonNegative(cost, |scores|)
    requires 0 < j <= |scores| && b < |BlocksTo(path, j)|
    requires minCost[j] < initial || j == |scores|
    ensures BlocksTo(path, j)[b] <= |scores|
    ensures IsMax(scores, Begin(BlocksTo(path, j), b), BlocksTo(path, j)[b], maxs[BlocksTo(path, j)[b]])
    decreases j
  {
    assert NodeMaxOk(scores, initial, minCost, path, maxs, j);
    assert NodeOk(cost, initial, minCost, path, |scores|, j);
    var p := path[j];
    var before := BlocksTo(path, p);
    BlocksArePartition(path, p);
    if b < |before| {
      assert cost(p, j) >= 0.0;
      MaximaOfBlocks(scores, initial, minCost, path, maxs, cost, p, b);
    } else {
      assert Begin(BlocksTo(path, j), b) == p;
    }
  }

  /** `max_element` over a stretch. */
  method MaxElement(s: seq<real>, lo: nat, hi: nat) returns (m: real)
    requires lo < hi <= |s|
    ensures IsMax(s, lo, hi, m)
  {
    m := s[lo];
    StartMax(s, lo);
    for i := lo + 1 to hi
      invariant IsMax(s, lo, i, m)
    {
      ExtendMax(s, lo, i, m);
      m := Larger(m, s[i]);
    }
  }

  /** The largest document weight of every block. */
  method FillPartitionWeights(weights: seq<real>, partition: seq<nat>) returns (maxWeights: seq<real>)
    requires IsPartition(partition, |weights|)
    ensures |maxWeights| == |partition|
    ensures forall b :: 0 <= b < |partition| ==> MaxOfBlock(weights, partition, maxWeights, b)
  {
    hide IsMax;
    maxWeights := [];
    var lowerBound := 0;
    for i := 0 to |partition|
      invariant |maxWeights| == i && lowerBound == Begin(partition, i)
      invariant forall b :: 0 <= b < i ==> MaxOfBlock(weights, partition, maxWeights, b)
    {
      BlockRange(partition, |weights|, i);
      var m := MaxElement(weights, lowerBound, partition[i]);
      ghost var before := maxWeights;
      maxWeights := maxWeights + [m];
      forall b | 0 <= b < i + 1 ensures MaxOfBlock(weights, partition, maxWeights, b) {
        if b < i { assert MaxOfBlock(weights, partition, before, b); }
      }
      lowerBound := partition[i];
    }
  }

  ghost predicate MaxOfBlock(s: seq<real>, ends: seq<nat>, maxima: seq<real>, b: nat)
    requires b < |ends| && b < |maxima|
  {
    Begin(ends, b) < ends[b] <= |s| && IsMax(s, Begin(ends, b), ends[b], maxima[b])
  }

  lemma BlockRange(ends: seq<nat>, size: nat, b: nat)
    requires IsPartition(ends, size) && b < |ends|
    ensures Begin(ends, b) < ends[b] <= size && (b + 1 < |ends| ==> ends[b] < size)
  {
    assert ProperBlock(ends, b);
    EndsAscend(ends, size, b, b);
  }

  /** The block data read off the found partition. */
  method Emit(docs: seq<nat>, scores: seq<real>, weights: seq<real>, partition: seq<nat>, maxValues: seq<real>)
    returns (blocks: Blocks)
    requires Increasing(docs) && docs != [] && |scores| == |weights| == |docs| && IsPartition(partition, |docs|)
    requires |maxValues| == |partition| && forall b :: 0 <= b < |partition| ==>
               MaxOfBlock(scores, partition, maxValues, b)
    ensures Records(docs, scores, weights, partition, blocks)
  {
    hide IsMax, IsPartition, MaxOfBlock, Increasing;
    PartitionNotEmpty(partition, |docs|);
    var maxWeights := FillPartitionWeights(weights, partition);
    var docids, sizes := [], [];
    var current := 0;
    for i := 0 to |partition| - 1
      invariant |docids| == |sizes| == i && current == Begin(partition, i)
      invariant forall b :: 0 <= b < i ==> sizes[b] == partition[b] - Begin(partition, b)
      invariant forall b :: 0 <= b < i ==> docids[b] == Boundary(docs, partition, b)
    {
      BlockRange(partition, |docs|, i);
      BoundaryFits(docs, partition[i]);
      docids := docids + [docs[partition[i]] - 1];
      sizes := sizes + [partition[i] - current];
      current := partition[i];
    }
    BlockRange(partition, |docs|, |partition| - 1);
    sizes := sizes + [partition[|partition| - 1] - current];
    docids := docids + [docs[|docs| - 1]];
    blocks := Blocks(sizes, docids, maxValues, maxWeights);
    AllRecorded(docs, scores, weights, partition, blocks);
  }

  lemma PartitionNotEmpty(ends: seq<nat>, size: nat)
    requires IsPartition(ends, size) && size > 0
    ensures ends != []
  {}

  lemma BoundaryFits(docs: seq<nat>, i: nat)
    requires Increasing(docs) && 0 < i < |docs|
    ensures docs[i] > 0
  {
    assert docs[0] < docs[i];
  }

  lemma AllRecorded(docs: seq<nat>, scores: seq<real>, weights: seq<real>, ends: seq<nat>, blocks: Blocks)
    requires docs != [] && |scores| == |weights| == |docs| && IsPartition(ends, |docs|)
    requires |blocks.sizes| == |blocks.docids| == |blocks.maxValues| == |blocks.maxWeights| == |ends|
    requires forall b :: 0 <= b < |ends| ==> MaxOfBlock(scores, ends, blocks.maxValues, b)
    requires forall b :: 0 <= b < |ends| ==> MaxOfBlock(weights, ends, blocks.maxWeights, b)
    requires forall b :: 0 <= b < |ends| ==> blocks.sizes[b] == ends[b] - Begin(ends, b)
    requires forall b :: 0 <= b < |ends| ==> blocks.docids[b] == Boundary(docs, ends, b)
    ensures Records(docs, scores, weights, ends, blocks)
  {
    hide IsMax, IsPartition, Begin, Boundary;
    forall b | 0 <= b < |ends| ensures RecordsBlock(docs, scores, weights, ends, blocks, b) {
      assert MaxOfBlock(scores, ends, blocks.maxValues, b);
      assert MaxOfBlock(weights, ends, blocks.maxWeights, b);
    }
  }

  /** The constructor: the bounds first, then the sweep over their windows. */
  method ScoreOptPartition(docs: seq<nat>, scores: seq<real>, weights: seq<real>, idf: real, fixedCost: real,
                           eps1: real, eps2: real)
    returns (blocks: Blocks, costOpt: real, ghost ends: seq<nat>, ghost bounds: seq<real>)
    requires Increasing(docs) && docs != [] && |scores| == |weights| == |docs|
    requires idf >= 0.0 && fixedCost >= 0.0 && forall i :: 0 <= i < |scores| ==> scores[i] >= 0.0
    requires eps1 >= 0.0 && eps2 >= 0.0
    requires FinitelyMany(fixedCost, Excess(scores, idf, 0, |scores|, MaxScore(scores, 0, |scores|)), eps1, eps2)
    ensures BoundsListed(Bounds(fixedCost, eps2), fixedCost,
                         Excess(scores, idf, 0, |scores|, MaxScore(scores, 0, |scores|)), eps1, bounds)
    ensures Records(docs, scores, weights, ends, blocks)
    ensures costOpt <= Excess(scores, idf, 0, |scores|, MaxScore(scores, 0, |scores|))
    ensures costOpt == Excess(scores, idf, 0, |scores|, MaxScore(scores, 0, |scores|)) ==> ends == [|docs|]
    ensures costOpt == TotalCost(ScoreCost(scores, idf, fixedCost), ends) ||
            (ends == [|docs|] && costOpt == Excess(scores, idf, 0, |scores|, MaxScore(scores, 0, |scores|)))
    ensures forall other :: IsPartition(other, |docs|) && Opt.IntoLeastBlocks(ScoreCost(scores, idf, fixedCost), |docs|, bounds, other)
              ==> costOpt <= TotalCost(ScoreCost(scores, idf, fixedCost), other)
  {
    hide *;
    var single, max := SingleBlock(scores, idf);
    WholeMax(scores, max);
    var windowBounds := ScoreWindowBounds(fixedCost, single, eps1, eps2);
    bounds := windowBounds;
    blocks, costOpt, ends := PartitionWith(docs, scores, weights, idf, fixedCost, windowBounds);
  }

  /** The blocks tile the list and carry the true maximum of their scores and document weights and
      correct boundaries. The cost is exact unless nothing improved on the single block, never above
      it, and, for ascending bounds, no partition into blocks that end where a bound is first
      reached is cheaper. */
  method PartitionWith(docs: seq<nat>, scores: seq<real>, weights: seq<real>, idf: real, fixedCost: real,
                       bounds: seq<real>)
    returns (blocks: Blocks, costOpt: real, ghost ends: seq<nat>)
    requires Increasing(docs) && docs != [] && |scores| == |weights| == |docs|
    requires idf >= 0.0 && fixedCost >= 0.0 && forall i :: 0 <= i < |scores| ==> scores[i] >= 0.0
    ensures Records(docs, scores, weights, ends, blocks)
    ensures costOpt <= Excess(scores, idf, 0, |scores|, MaxScore(scores, 0, |scores|))
    ensures costOpt == Excess(scores, idf, 0, |scores|, MaxScore(scores, 0, |scores|)) ==> ends == [|docs|]
    ensures costOpt == TotalCost(ScoreCost(scores, idf, fixedCost), ends) ||
            (ends == [|docs|] && costOpt == Excess(scores, idf, 0, |scores|, MaxScore(scores, 0, |scores|)))
    ensures Opt.Ascending(bounds) ==>
              forall other :: IsPartition(other, |docs|) && Opt.IntoLeastBlocks(ScoreCost(scores, idf, fixedCost), |docs|, bounds, other)
                ==> costOpt <= TotalCost(ScoreCost(scores, idf, fixedCost), other)
  {
    hide Opt.SweepState, MaximaOk, WindowsAt, Opt.Ascending, Opt.LeastBlocksTried, ScoreCost, Opt.IntoLeastBlocks,
         IsMax, MaxScore, Excess, IsPartition, Increasing, Records, TotalCost;
    var size := |docs|;
    ghost var cost := ScoreCost(scores, idf, fixedCost);
    var single, max := SingleBlock(scores, idf);
    WholeMax(scores, max);
    ScoreCostNonNegative(scores, idf, fixedCost);
    var t := new ScoreTables(size, single, max);
    StartTables(t, scores, cost, single);
    var windows := MakeWindows(scores, idf, fixedCost, bounds);
    ghost var tried := Sweep(windows, t, size, scores, idf, fixedCost, bounds, single);
    ResultFacts(t, scores, idf, fixedCost, single, tried);
    var partition := FollowPath(t.path);
    var maxValues := seq(|partition|, i requires 0 <= i < |partition| reads t.maxs => if partition[i] < t.maxs.Length then t.maxs[partition[i]] else 0.0);
    BlockMaxima(t, scores, cost, single, tried, partition, maxValues);
    blocks := Emit(docs, scores, weights, partition, maxValues);
    ends := partition;
    costOpt := t.minCost[size];
    if Opt.Ascending(bounds) {
      forall other | IsPartition(other, size) && Opt.IntoLeastBlocks(cost, size, bounds, other)
        ensures costOpt <= TotalCost(cost, other)
      {
        Opt.NoCheaper(cost, size, single, t.minCost[..], t.path[..], tried, bounds, other);
      }
    }
  }

  lemma {:induction false} WholeMax(scores: seq<real>, max: real)
    requires scores != [] && IsMax(scores, 0, |scores|, max)
    ensures max == MaxScore(scores, 0, |scores|)
  {
    MaxScoreIsMax(scores, 0, |scores|);
    MaxIsUnique(scores, 0, |scores|, max, MaxScore(scores, 0, |scores|));
  }

  lemma StartTables(t: ScoreTables, scores: seq<real>, cost: Cost, initial: real)
    requires t.minCost.Length == t.path.Length == t.maxs.Length == |scores| + 1 && scores != [] && t.minCost != t.maxs
    requires t.minCost[0] == 0.0 && forall j :: 0 < j <= |scores| ==> t.minCost[j] == initial
    requires (forall j :: 0 <= j <= |scores| ==> t.path[j] == 0) && IsMax(scores, 0, |scores|, t.maxs[|scores|])
    ensures t.Ok(scores, cost, initial, {}, 0)
  {
    Opt.StartState(cost, |scores|, initial, t.minCost[..], t.path[..]);
  }

  lemma {:induction false} ResultFacts(t: ScoreTables, scores: seq<real>, idf: real, fixedCost: real, initial: real,
                                       tried: set<(nat, nat)>)
    requires idf >= 0.0 && fixedCost >= 0.0 && scores != []
    requires t.Ok(scores, ScoreCost(scores, idf, fixedCost), initial, tried, |scores|)
    ensures t.minCost.Length == t.path.Length == t.maxs.Length == |scores| + 1 && Backward(t.path[..])
    ensures var ends := BlocksTo(t.path[..], |scores|);
            IsPartition(ends, |scores|) &&
            (t.minCost[|scores|] == TotalCost(ScoreCost(scores, idf, fixedCost), ends) || (ends == [|scores|] && t.minCost[|scores|] == initial))
    ensures t.minCost[|scores|] <= initial
    ensures t.minCost[|scores|] == initial ==> BlocksTo(t.path[..], |scores|) == [|scores|]
    ensures Opt.SweepState(ScoreCost(scores, idf, fixedCost), |scores|, initial, t.minCost[..], t.path[..], tried,
                           |scores|)
  {
    hide ScoreCost;
    var cost, size := ScoreCost(scores, idf, fixedCost), |scores|;
    ScoreCostNonNegative(scores, idf, fixedCost);
    TablesGoBack(cost, size, initial, t.minCost[..], t.path[..], size);
    BlocksArePartition(t.path[..], size);
    assert NodeOk(cost, initial, t.minCost[..], t.path[..], size, size);
    if t.minCost[size] < initial {
      ImprovedCostIsExact(cost, size, initial, t.minCost[..], t.path[..], size, size);
    } else {
      assert BlocksTo(t.path[..], 0) + [size] == [size];
    }
  }

  lemma {:induction false} BlockMaxima(t: ScoreTables, scores: seq<real>, cost: Cost, initial: real,
                                       tried: set<(nat, nat)>, partition: seq<nat>, maxValues: seq<real>)
    requires t.Ok(scores, cost, initial, tried, |scores|) && NonNegative(cost, |scores|) && scores != []
    requires Backward(t.path[..]) && t.path.Length == t.maxs.Length == |scores| + 1
    requires partition == BlocksTo(t.path[..], |scores|)
    requires |maxValues| == |partition|
    requires forall i :: 0 <= i < |partition| && partition[i] < t.maxs.Length ==> maxValues[i] == t.maxs[partition[i]]
    ensures forall b :: 0 <= b < |partition| ==> MaxOfBlock(scores, partition, maxValues, b)
  {
    BlocksArePartition(t.path[..], |scores|);
    forall b | 0 <= b < |partition| ensures MaxOfBlock(scores, partition, maxValues, b) {
      BlockRange(partition, |scores|, b);
      MaximaOfBlocks(scores, initial, t.minCost[..], t.path[..], t.maxs[..], cost, |scores|, b);
    }
  }

  /** The list is not begun, or its first bound is already enough, or bounds grow at all. */
  predicate FinitelyMany(fixedCost: real, singleBlockCost: real, eps1: real, eps2: real) {
    || (eps1 != 0.0 && fixedCost >= fixedCost / eps1)
    || fixedCost >= singleBlockCost
    || fixedCost * eps2 > 0.0
  }

  /** The bound of the k-th pass, if the loop gets that far. */
  function BoundAt(fixedCost: real, eps2: real, k: nat): real {
    if k == 0 then fixedCost else BoundAt(fixedCost, eps2, k - 1) * (1.0 + eps2)
  }

  /** The loop ends with the k-th pass: it is not begun, or its bound is enough. */
  predicate EndsAt(fixedCost: real, singleBlockCost: real, eps1: real, eps2: real, k: nat) {
    || (eps1 != 0.0 && BoundAt(fixedCost, eps2, k) >= fixedCost / eps1)
    || BoundAt(fixedCost, eps2, k) >= singleBlockCost
  }

  /** The loop ends at all if and only if the list is finite by the test on its first bound. */
  lemma LoopEnds(fixedCost: real, singleBlockCost: real, eps1: real, eps2: real)
    requires fixedCost >= 0.0 && eps1 >= 0.0 && eps2 >= 0.0
    ensures FinitelyMany(fixedCost, singleBlockCost, eps1, eps2) <==>
              exists k: nat :: EndsAt(fixedCost, singleBlockCost, eps1, eps2, k)
  {
    var step := fixedCost * eps2;
    if !FinitelyMany(fixedCost, singleBlockCost, eps1, eps2) {
      forall k: nat ensures !EndsAt(fixedCost, singleBlockCost, eps1, eps2, k) {
        BoundStays(fixedCost, eps2, k);
      }
    } else if step > 0.0 && fixedCost < singleBlockCost {
      var k: nat := (singleBlockCost / step).Floor + 1;
      BoundClimbs(fixedCost, eps2, k);
      Reaches(singleBlockCost, step, k as real);
      assert EndsAt(fixedCost, singleBlockCost, eps1, eps2, k);
    } else {
      assert EndsAt(fixedCost, singleBlockCost, eps1, eps2, 0);
    }
  }

  lemma Reaches(goal: real, step: real, k: real)
    requires step > 0.0 && k >= goal / step
    ensures k * step >= goal
  {
    assert (k - goal / step) * step >= 0.0;
    assert goal / step * step == goal;
  }

  lemma {:induction false} BoundStays(fixedCost: real, eps2: real, k: nat)
    requires fixedCost >= 0.0 && eps2 >= 0.0 && fixedCost * eps2 <= 0.0
    ensures BoundAt(fixedCost, eps2, k) == fixedCost
  {
    if k == 0 {
    } else {
      BoundStays(fixedCost, eps2, k - 1);
      assert fixedCost * eps2 == 0.0;
      assert fixedCost * (1.0 + eps2) == fixedCost + fixedCost * eps2;
    }
  }

  lemma {:induction false} BoundClimbs(fixedCost: real, eps2: real, k: nat)
    requires fixedCost >= 0.0 && eps2 >= 0.0
    ensures BoundAt(fixedCost, eps2, k) >= fixedCost + k as real * (fixedCost * eps2)
  {
    if k == 0 {
    } else {
      BoundClimbs(fixedCost, eps2, k - 1);
      var b, step := BoundAt(fixedCost, eps2, k - 1), fixedCost * eps2;
      assert b >= fixedCost by { assert (k - 1) as real * step >= 0.0; }
      GrowsByStep(b, fixedCost, eps2);
      assert (k - 1) as real * step + step == k as real * step;
    }
  }

  lemma GrowsByStep(b: real, lb: real, eps2: real)
    requires b >= lb && eps2 >= 0.0
    ensures b * (1.0 + eps2) >= b + lb * eps2
  {
    assert (b - lb) * eps2 >= 0.0;
  }

  /** Without a fixed cost and without a largest bound, the bound stays at zero below any block cost. */
  lemma EndlessBounds()
    ensures !FinitelyMany(0.0, 1.0, 0.0, 0.5)
  {}

  ghost function Bounds(fixedCost: real, eps2: real): nat -> real {
    (k: nat) => BoundAt(fixedCost, eps2, k)
  }

  /** The bound of pass 0 is the fixed cost, and each is the one before it times 1 + eps2. */
  lemma BoundsAt(fixedCost: real, eps2: real, k: nat)
    ensures Bounds(fixedCost, eps2)(0) == fixedCost
    ensures Bounds(fixedCost, eps2)(k + 1) == Bounds(fixedCost, eps2)(k) * (1.0 + eps2)
  {}

  lemma PassBegins(fixedCost: real, eps1: real, eps2: real, bound: real, k: nat)
    requires bound == Bounds(fixedCost, eps2)(k)
    ensures Begins(Bounds(fixedCost, eps2), fixedCost, eps1, k) <==> eps1 == 0.0 || bound < fixedCost / eps1
  {
    hide Bounds;
  }

  /** One bound per power of the growth factor until the single block's cost is reached. */
  method ScoreWindowBounds(fixedCost: real, singleBlockCost: real, eps1: real, eps2: real) returns (bounds: seq<real>)
    requires fixedCost >= 0.0 && eps1 >= 0.0 && eps2 >= 0.0
    requires FinitelyMany(fixedCost, singleBlockCost, eps1, eps2)
    ensures Opt.Ascending(bounds)
    ensures BoundsListed(Bounds(fixedCost, eps2), fixedCost, singleBlockCost, eps1, bounds)
  {
    hide Bounds, BoundsBegun, BoundsListed, Begins, Opt.Ascending;
    bounds := [];
    var costBound := fixedCost;
    ghost var boundAt := Bounds(fixedCost, eps2);
    NoBounds(boundAt, fixedCost, singleBlockCost, eps1);
    BoundsAt(fixedCost, eps2, 0);
    Opt.NothingAscends();
    PassBegins(fixedCost, eps1, eps2, costBound, |bounds|);
    while eps1 == 0.0 || costBound < fixedCost / eps1
      invariant costBound >= fixedCost && Opt.Ascending(bounds) && costBound == boundAt(|bounds|)
      invariant costBound == fixedCost || fixedCost * eps2 > 0.0
      invariant forall m :: 0 <= m < |bounds| ==> bounds[m] <= costBound
      invariant BoundsBegun(boundAt, fixedCost, singleBlockCost, eps1, bounds)
      invariant Begins(boundAt, fixedCost, eps1, |bounds|) <==> eps1 == 0.0 || costBound < fixedCost / eps1
      decreases if fixedCost * eps2 > 0.0 then (singleBlockCost - costBound) / (fixedCost * eps2) else 0.0
    {
      OneMoreBound(boundAt, fixedCost, singleBlockCost, eps1, bounds);
      BoundsAt(fixedCost, eps2, |bounds|);
      Opt.AppendBound(bounds, costBound);
      bounds := bounds + [costBound];
      if costBound >= singleBlockCost { return; }
      Grows(costBound, fixedCost, eps2, singleBlockCost);
      costBound := costBound * (1.0 + eps2);
      PassBegins(fixedCost, eps1, eps2, costBound, |bounds|);
    }
    PassNotBegun(boundAt, fixedCost, singleBlockCost, eps1, bounds);
  }

  lemma Grows(b: real, lb: real, eps2: real, single: real)
    requires b >= lb >= 0.0 && eps2 >= 0.0 && lb * eps2 > 0.0 && b < single
    ensures b * (1.0 + eps2) >= b
    ensures (single - b * (1.0 + eps2)) / (lb * eps2) <= (single - b) / (lb * eps2) - 1.0
    ensures (single - b) / (lb * eps2) >= 0.0
  {
    var step := lb * eps2;
    GrowsByStep(b, lb, eps2);
    assert b * (1.0 + eps2) >= b + step;
    QuotientDrops(single - b * (1.0 + eps2), single - b, step);
    QuotientNonNegative(single - b, step);
  }

  lemma QuotientDrops(x: real, y: real, step: real)
    requires step > 0.0 && x <= y - step
    ensures x / step <= y / step - 1.0
  {
    var inverse := 1.0 / step;
    assert inverse > 0.0 && step * inverse == 1.0;
    assert x / step == x * inverse && y / step == y * inverse;
    assert (y - step - x) * inverse >= 0.0;
  }

  lemma QuotientNonNegative(x: real, step: real)
    requires step > 0.0 && x >= 0.0
    ensures x / step >= 0.0
  {}
}
