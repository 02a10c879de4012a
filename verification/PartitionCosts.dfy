/** Partitions of a sequence into blocks, their costs, and the tables of the sweep that relaxes
    one block at a time: `min_cost` and `path`. Costs are exact. */
module PartitionCosts {

  /** The cost of making one block of the elements from the first index up to the second. */
  type Cost = (nat, nat) -> real

  /** Block endpoints: strictly increasing, from above 0 up to `size`. */
  ghost predicate IsPartition(ends: seq<nat>, size: nat) {
    && (forall i :: 0 <= i < |ends| ==> ProperBlock(ends, i))
    && (if size == 0 then ends == [] else ends != [] && ends[|ends| - 1] == size)
  }

  ghost predicate ProperBlock(ends: seq<nat>, i: nat)
    requires i < |ends|
  {
    Begin(ends, i) < ends[i]
  }

  /** Where block i begins. */
  function Begin(ends: seq<nat>, i: nat): nat
    requires i <= |ends|
  {
    if i == 0 then 0 else ends[i - 1]
  }

  lemma {:induction false} EndsIncrease(ends: seq<nat>, size: nat, a: nat, b: nat)
    requires IsPartition(ends, size) && a <= b < |ends|
    ensures ends[a] <= ends[b] && (a < b ==> ends[a] < ends[b])
    decreases b - a
  {
    if a == b {
    } else {
      assert ProperBlock(ends, b);
      EndsIncrease(ends, size, a, b - 1);
    }
  }

  /** Ends of a partition ascend up to its size. */
  lemma EndsAscend(ends: seq<nat>, size: nat, a: nat, b: nat)
    requires IsPartition(ends, size) && a <= b < |ends|
    ensures ends[a] <= ends[b] && (a < b ==> ends[a] < ends[b])
    ensures (b + 1 < |ends| ==> ends[b] < size) && ends[b] <= size
  {
    EndsIncrease(ends, size, a, b);
    EndsIncrease(ends, size, b, |ends| - 1);
  }

  ghost function TotalCost(cost: Cost, ends: seq<nat>): real {
    if ends == [] then 0.0
    else TotalCost(cost, ends[..|ends| - 1]) + cost(Begin(ends, |ends| - 1), ends[|ends| - 1])
  }

  /** Every block costs what it costs from the end of the one before to its own. */
  lemma {:induction false} TotalIs(cost: Cost, ends: seq<nat>, end: nat)
    ensures TotalCost(cost, []) == 0.0
    ensures TotalCost(cost, ends + [end]) == TotalCost(cost, ends) + cost(if ends == [] then 0 else ends[|ends| - 1], end)
  {
    assert (ends + [end])[..|ends|] == ends;
  }

  ghost predicate NonNegative(cost: Cost, size: nat) {
    forall i, j :: 0 <= i < j <= size ==> cost(i, j) >= 0.0
  }

  /** A block inside another never costs more. */
  ghost predicate Monotone(cost: Cost, size: nat) {
    forall i, j, i', j' :: 0 <= i <= i' < j' <= j <= size ==> cost(i', j') <= cost(i, j)
  }

  /** The tables while the blocks that begin at node i are being relaxed: a node's entry is the
      initial cost until some block improves on it, and from then on the cost through its
      predecessor, which no longer changes. */
  ghost predicate Tables(cost: Cost, size: nat, initial: real, minCost: seq<real>, path: seq<nat>, i: nat) {
    && |minCost| == |path| == size + 1
    && minCost[0] == 0.0 && path[0] == 0
    && forall j :: 0 < j <= size ==> NodeOk(cost, initial, minCost, path, i, j)
  }

  ghost predicate NodeOk(cost: Cost, initial: real, minCost: seq<real>, path: seq<nat>, i: nat, j: nat)
    requires 0 < j < |minCost| == |path|
  {
    || (minCost[j] == initial && path[j] == 0)
    || (minCost[j] < initial && path[j] < j && path[j] <= i && minCost[j] == minCost[path[j]] + cost(path[j], j))
  }

  lemma InitialTables(cost: Cost, size: nat, initial: real, minCost: seq<real>, path: seq<nat>)
    requires |minCost| == |path| == size + 1 && minCost[0] == 0.0
    requires forall j :: 0 < j <= size ==> minCost[j] == initial
    requires forall j :: 0 <= j <= size ==> path[j] == 0
    ensures Tables(cost, size, initial, minCost, path, 0)
  {}

  /** Relaxing the block from i to j keeps the tables right. */
  lemma RelaxKeepsTables(cost: Cost, size: nat, initial: real, minCost: seq<real>, path: seq<nat>, i: nat, j: nat)
    requires Tables(cost, size, initial, minCost, path, i) && i < j <= size
    requires minCost[i] + cost(i, j) < minCost[j]
    ensures Tables(cost, size, initial, minCost[j := minCost[i] + cost(i, j)], path[j := i], i)
  {
    var m, p := minCost[j := minCost[i] + cost(i, j)], path[j := i];
    forall x | 0 < x <= size ensures NodeOk(cost, initial, m, p, i, x) {
      assert NodeOk(cost, initial, minCost, path, i, x);
      assert NodeOk(cost, initial, minCost, path, i, j);
    }
  }

  lemma NextNode(cost: Cost, size: nat, initial: real, minCost: seq<real>, path: seq<nat>, i: nat, next: nat)
    requires Tables(cost, size, initial, minCost, path, i) && i <= next
    ensures Tables(cost, size, initial, minCost, path, next)
  {
    forall x | 0 < x <= size ensures NodeOk(cost, initial, minCost, path, next, x) {
      assert NodeOk(cost, initial, minCost, path, i, x);
    }
  }

  /** Predecessors are smaller, so following them ends at 0. */
  ghost predicate Backward(path: seq<nat>) {
    forall j :: 0 < j < |path| ==> path[j] < j
  }

  /** The endpoints found by following the predecessors from node j. */
  ghost function BlocksTo(path: seq<nat>, j: nat): seq<nat>
    requires Backward(path) && j < |path|
  {
    if j == 0 then [] else BlocksTo(path, path[j]) + [j]
  }

  lemma TablesGoBack(cost: Cost, size: nat, initial: real, minCost: seq<real>, path: seq<nat>, i: nat)
    requires Tables(cost, size, initial, minCost, path, i)
    ensures Backward(path)
  {
    forall j | 0 < j < |path| ensures path[j] < j {
      assert NodeOk(cost, initial, minCost, path, i, j);
    }
  }

  lemma {:induction false} BlocksArePartition(path: seq<nat>, j: nat)
    requires Backward(path) && j < |path|
    ensures IsPartition(BlocksTo(path, j), j)
  {
    if j == 0 {
    } else {
      BlocksArePartition(path, path[j]);
      var before := BlocksTo(path, path[j]);
      var ends := before + [j];
      forall i | 0 <= i < |ends| ensures ProperBlock(ends, i) {
        if i < |before| { assert ProperBlock(before, i); }
      }
    }
  }

  /** Along the predecessors of an improved node every node is improved, and the entry is the exact
      total cost of the blocks. */
  lemma {:induction false} ImprovedCostIsExact(cost: Cost, size: nat, initial: real, minCost: seq<real>, path: seq<nat>,
                                               i: nat, j: nat)
    requires Tables(cost, size, initial, minCost, path, i) && NonNegative(cost, size)
    requires 0 < j <= size && minCost[j] < initial && Backward(path)
    ensures TotalCost(cost, BlocksTo(path, j)) == minCost[j]
    decreases j
  {
    assert NodeOk(cost, initial, minCost, path, i, j);
    var p := path[j];
    var before := BlocksTo(path, p);
    assert cost(p, j) >= 0.0;
    BlocksArePartition(path, p);
    if p > 0 {
      ImprovedCostIsExact(cost, size, initial, minCost, path, i, p);
    }
    OneMoreBlock(cost, before, p, j);
  }

  lemma {:induction false} OneMoreBlock(cost: Cost, before: seq<nat>, p: nat, j: nat)
    requires IsPartition(before, p)
    ensures TotalCost(cost, before + [j]) == TotalCost(cost, before) + cost(p, j)
  {
    var ends := before + [j];
    assert ends[..|ends| - 1] == before;
    assert Begin(ends, |before|) == p;
  }

  // ----- which blocks the sweep looks at -----

  /** The end of the first block from i that reaches the bound, or of the last one. */
  ghost function FirstReaching(cost: Cost, size: nat, bound: real, i: nat, j: nat): (r: nat)
    requires i < j <= size
    decreases size - j
    ensures j <= r <= size && (r == size || cost(i, r) >= bound)
    ensures forall x :: j <= x < r ==> cost(i, x) < bound
  {
    if j == size || cost(i, j) >= bound then j else FirstReaching(cost, size, bound, i, j + 1)
  }

  /** The least end after i at which the cost reaches the bound, or `size`. */
  ghost function LeastEnd(cost: Cost, size: nat, bound: real, i: nat): (r: nat)
    requires i < size
    ensures i < r <= size && (r == size || cost(i, r) >= bound)
    ensures forall x :: i < x < r ==> cost(i, x) < bound
  {
    FirstReaching(cost, size, bound, i, i + 1)
  }

  lemma LeastEndOfDearer(cost: Cost, size: nat, bound: real, dearer: real, i: nat)
    requires i < size && bound <= dearer
    ensures LeastEnd(cost, size, bound, i) <= LeastEnd(cost, size, dearer, i)
  {
    var b := LeastEnd(cost, size, dearer, i);
    assert b == size || cost(i, b) >= bound;
  }

  lemma LeastEndOfNext(cost: Cost, size: nat, bound: real, i: nat)
    requires i + 1 < size && Monotone(cost, size)
    ensures LeastEnd(cost, size, bound, i) <= LeastEnd(cost, size, bound, i + 1)
  {
    var b := LeastEnd(cost, size, bound, i + 1);
    assert cost(i + 1, b) <= cost(i, b);
    assert b == size || cost(i, b) >= bound;
  }

  /** Where the search of one window stops, starting from any end that is not beyond the least one. */
  lemma {:induction false} StopsAtLeastEnd(cost: Cost, size: nat, bound: real, i: nat, start: nat)
    requires i < size && i < start <= LeastEnd(cost, size, bound, i)
    ensures FirstReaching(cost, size, bound, i, start) == LeastEnd(cost, size, bound, i)
  {
    var a, b := FirstReaching(cost, size, bound, i, start), LeastEnd(cost, size, bound, i);
    assert a == size || cost(i, a) >= bound;
    assert b == size || cost(i, b) >= bound;
  }

  /** All blocks looked at so far are relaxed. */
  ghost predicate AllRelaxed(cost: Cost, minCost: seq<real>, tried: set<(nat, nat)>) {
    forall e <- tried :: RelaxedEdge(cost, minCost, e.0, e.1)
  }

  ghost predicate RelaxedEdge(cost: Cost, minCost: seq<real>, i: nat, j: nat) {
    i < j < |minCost| && minCost[j] <= minCost[i] + cost(i, j)
  }

  ghost predicate BlocksIn(ends: seq<nat>, tried: set<(nat, nat)>) {
    forall i :: 0 <= i < |ends| ==> (Begin(ends, i), ends[i]) in tried
  }

  lemma BlocksInPrefix(ends: seq<nat>, tried: set<(nat, nat)>)
    requires BlocksIn(ends, tried) && ends != []
    ensures BlocksIn(ends[..|ends| - 1], tried)
    ensures (Begin(ends, |ends| - 1), ends[|ends| - 1]) in tried
  {
    var rest := ends[..|ends| - 1];
    forall i | 0 <= i < |rest| ensures (Begin(rest, i), rest[i]) in tried {
      assert Begin(rest, i) == Begin(ends, i) && rest[i] == ends[i];
    }
  }

  /** No partition into blocks that were looked at is cheaper. */
  lemma {:induction false} CheapestOfTried(cost: Cost, minCost: seq<real>, tried: set<(nat, nat)>, ends: seq<nat>)
    requires AllRelaxed(cost, minCost, tried) && BlocksIn(ends, tried) && |minCost| > 0 && minCost[0] == 0.0
    ensures ends != [] ==> ends[|ends| - 1] < |minCost| && minCost[ends[|ends| - 1]] <= TotalCost(cost, ends)
    decreases |ends|
  {
    hide BlocksIn;
    if ends == [] {
    } else {
      var rest := ends[..|ends| - 1];
      BlocksInPrefix(ends, tried);
      CheapestOfTried(cost, minCost, tried, rest);
      var i, j := Begin(ends, |ends| - 1), ends[|ends| - 1];
      assert RelaxedEdge(cost, minCost, (i, j).0, (i, j).1);
      assert TotalCost(cost, ends) == TotalCost(cost, rest) + cost(i, j);
    }
  }

  /** Lowering the entry of a node whose blocks have not been looked at keeps the relaxed blocks relaxed. */
  lemma LoweringKeepsRelaxed(cost: Cost, minCost: seq<real>, tried: set<(nat, nat)>, i: nat, j: nat, value: real)
    requires AllRelaxed(cost, minCost, tried) && i < j < |minCost| && value <= minCost[j]
    requires forall e <- tried :: e.0 <= i
    ensures AllRelaxed(cost, minCost[j := value], tried)
  {
    forall e | e in tried ensures RelaxedEdge(cost, minCost[j := value], e.0, e.1) {
      assert RelaxedEdge(cost, minCost, e.0, e.1);
    }
  }

  lemma OneMoreTried(cost: Cost, minCost: seq<real>, tried: set<(nat, nat)>, i: nat, j: nat)
    requires AllRelaxed(cost, minCost, tried) && RelaxedEdge(cost, minCost, i, j)
    ensures AllRelaxed(cost, minCost, tried + {(i, j)})
  {
    forall e | e in tried + {(i, j)} ensures RelaxedEdge(cost, minCost, e.0, e.1) {
      if e != (i, j) { assert e in tried; }
    }
  }

  /** Follows the predecessors from the last node and turns the endpoints round. */
  method FollowPath(path: array<nat>) returns (partition: seq<nat>)
    requires path.Length > 0 && Backward(path[..])
    ensures partition == BlocksTo(path[..], path.Length - 1)
  {
    var size := path.Length - 1;
    var currPos: nat := size;
    partition := [];
    while currPos != 0
      invariant currPos <= size
      invariant BlocksTo(path[..], size) == BlocksTo(path[..], currPos) + Reversed(partition)
      decreases currPos
    {
      ReversedAppend(partition, currPos);
      partition := partition + [currPos];
      currPos := path[currPos];
    }
    assert BlocksTo(path[..], size) == Reversed(partition);
    partition := Reversed(partition);
  }

  function Reversed(s: seq<nat>): seq<nat> {
    if s == [] then [] else Reversed(s[1..]) + [s[0]]
  }

  lemma {:induction false} ReversedAppend(s: seq<nat>, x: nat)
    ensures Reversed(s + [x]) == [x] + Reversed(s)
  {
    if s == [] {
    } else {
      ReversedAppend(s[1..], x);
      assert (s + [x])[1..] == s[1..] + [x];
    }
  }

  // ----- the list of bounds -----

  /** The loop over bounds goes into its k-th pass. */
  ghost predicate Begins(boundAt: nat -> real, costLb: real, eps1: real, k: nat) {
    eps1 == 0.0 || boundAt(k) < costLb / eps1
  }

  /** One bound per pass so far, none of which was enough. */
  ghost predicate BoundsBegun(boundAt: nat -> real, costLb: real, single: real, eps1: real, bounds: seq<real>) {
    forall m :: 0 <= m < |bounds| ==> BoundPassed(boundAt, costLb, single, eps1, bounds[m], m)
  }

  ghost predicate BoundPassed(boundAt: nat -> real, costLb: real, single: real, eps1: real, bound: real, m: nat) {
    bound == boundAt(m) < single && Begins(boundAt, costLb, eps1, m)
  }

  /** One bound per pass, up to the first that reaches the single block's cost, or up to the pass that is not begun. */
  ghost predicate BoundsListed(boundAt: nat -> real, costLb: real, single: real, eps1: real, bounds: seq<real>) {
    var n := |bounds|;
    if n > 0 && bounds[n - 1] >= single then
      && BoundsBegun(boundAt, costLb, single, eps1, bounds[..n - 1])
      && bounds[n - 1] == boundAt(n - 1) && Begins(boundAt, costLb, eps1, n - 1)
    else
      BoundsBegun(boundAt, costLb, single, eps1, bounds) && !Begins(boundAt, costLb, eps1, n)
  }

  lemma NoBounds(boundAt: nat -> real, costLb: real, single: real, eps1: real)
    ensures BoundsBegun(boundAt, costLb, single, eps1, [])
  {}

  /** One more pass either ends the list or is not the last. */
  lemma OneMoreBound(boundAt: nat -> real, costLb: real, single: real, eps1: real, bounds: seq<real>)
    requires BoundsBegun(boundAt, costLb, single, eps1, bounds) && Begins(boundAt, costLb, eps1, |bounds|)
    ensures var more := bounds + [boundAt(|bounds|)];
            if boundAt(|bounds|) >= single then BoundsListed(boundAt, costLb, single, eps1, more)
            else BoundsBegun(boundAt, costLb, single, eps1, more)
  {
    hide Begins;
    var more := bounds + [boundAt(|bounds|)];
    assert more[..|bounds|] == bounds;
  }

  lemma PassNotBegun(boundAt: nat -> real, costLb: real, single: real, eps1: real, bounds: seq<real>)
    requires BoundsBegun(boundAt, costLb, single, eps1, bounds) && !Begins(boundAt, costLb, eps1, |bounds|)
    ensures BoundsListed(boundAt, costLb, single, eps1, bounds)
  {
    hide Begins;
    if bounds != [] {
      assert BoundPassed(boundAt, costLb, single, eps1, bounds[|bounds| - 1], |bounds| - 1);
    }
  }

  /** The passes determine the list. */
  lemma ListedOnce(boundAt: nat -> real, costLb: real, single: real, eps1: real, a: seq<real>, b: seq<real>)
    requires BoundsListed(boundAt, costLb, single, eps1, a) && BoundsListed(boundAt, costLb, single, eps1, b)
    ensures a == b
  {
    if |a| < |b| {
      NotLonger(boundAt, costLb, single, eps1, a, b);
    } else if |b| < |a| {
      NotLonger(boundAt, costLb, single, eps1, b, a);
    } else {
      forall m | 0 <= m < |a| ensures a[m] == boundAt(m) == b[m] {
        ListedAt(boundAt, costLb, single, eps1, a, m);
        ListedAt(boundAt, costLb, single, eps1, b, m);
      }
    }
  }

  lemma ListedAt(boundAt: nat -> real, costLb: real, single: real, eps1: real, bounds: seq<real>, m: nat)
    requires BoundsListed(boundAt, costLb, single, eps1, bounds) && m < |bounds|
    ensures bounds[m] == boundAt(m) && Begins(boundAt, costLb, eps1, m)
    ensures m + 1 < |bounds| ==> boundAt(m) < single
  {
    hide Begins;
    var n := |bounds|;
    if n > 0 && bounds[n - 1] >= single {
      if m < n - 1 {
        assert BoundPassed(boundAt, costLb, single, eps1, bounds[..n - 1][m], m);
      }
    } else {
      assert BoundPassed(boundAt, costLb, single, eps1, bounds[m], m);
    }
  }

  lemma NotLonger(boundAt: nat -> real, costLb: real, single: real, eps1: real, a: seq<real>, b: seq<real>)
    requires BoundsListed(boundAt, costLb, single, eps1, a) && BoundsListed(boundAt, costLb, single, eps1, b)
    ensures |a| >= |b|
  {
    hide Begins;
    if |a| < |b| {
      ListedAt(boundAt, costLb, single, eps1, b, |a|);
      if a != [] {
        ListedAt(boundAt, costLb, single, eps1, a, |a| - 1);
        ListedAt(boundAt, costLb, single, eps1, b, |a| - 1);
      }
      assert false;
    }
  }
}
