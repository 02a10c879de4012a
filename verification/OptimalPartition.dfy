/** `optimal_partition`: one forward sweep in which several windows, one per cost bound, relax the
    blocks that begin at each node. Costs are exact. */
module OptimalPartition {
  import opened PartitionCosts
  import opened SortedLists

  /** The element just before node i, plus one: what a block that begins there is measured from. */
  function Floor(docs: seq<nat>, base: nat, i: nat): nat
    requires i <= |docs|
  {
    if i == 0 then base else docs[i - 1] + 1
  }

  /** The cost function of the source applies to a universe and a number of elements. */
  type CostFun = (int, nat) -> real

  ghost function BlockCost(docs: seq<nat>, base: nat, f: CostFun): Cost {
    (i: nat, j: nat) => if i < j <= |docs| then f(docs[j - 1] - Floor(docs, base, i) + 1, j - i) else 0.0
  }

  class CostWindow {
    const docs: seq<nat>
    const base: nat
    const costUpperBound: real
    var start: nat
    var end: nat
    var minP: nat
    var maxP: nat

    /** The window is on the elements [start, end) and remembers what surrounds and what ends them. */
    ghost predicate Valid()
      reads this
    {
      && start <= end <= |docs|
      && minP == Floor(docs, base, start)
      && (end > 0 ==> maxP == docs[end - 1])
    }

    constructor (docs: seq<nat>, base: nat, costUpperBound: real)
      ensures Valid() && start == end == 0
      ensures this.docs == docs && this.base == base && this.costUpperBound == costUpperBound
    {
      this.docs, this.base, this.costUpperBound := docs, base, costUpperBound;
      start, end, minP, maxP := 0, 0, base, 0;
    }

    function Universe(): int
      reads this
    {
      maxP - minP + 1
    }

    method AdvanceStart()
      requires Valid() && start < end
      modifies this
      ensures Valid() && start == old(start) + 1 && end == old(end)
    {
      minP := docs[start] + 1;
      start := start + 1;
    }

    method AdvanceEnd()
      requires Valid() && end < |docs|
      modifies this
      ensures Valid() && start == old(start) && end == old(end) + 1
    {
      maxP := docs[end];
      end := end + 1;
    }
  }

  /** What holds of the tables and the blocks looked at while node i is being worked on. */
  ghost predicate SweepState(cost: Cost, size: nat, initial: real, minCost: seq<real>, path: seq<nat>,
                             tried: set<(nat, nat)>, i: nat) {
    && Tables(cost, size, initial, minCost, path, i)
    && AllRelaxed(cost, minCost, tried)
    && forall e <- tried :: e.0 <= i
  }

  lemma RelaxStep(cost: Cost, size: nat, initial: real, minCost: seq<real>, path: seq<nat>, tried: set<(nat, nat)>,
                  i: nat, j: nat)
    requires SweepState(cost, size, initial, minCost, path, tried, i) && i < j <= size
    ensures minCost[i] + cost(i, j) < minCost[j] ==>
              SweepState(cost, size, initial, minCost[j := minCost[i] + cost(i, j)], path[j := i], tried + {(i, j)}, i)
    ensures !(minCost[i] + cost(i, j) < minCost[j]) ==>
              SweepState(cost, size, initial, minCost, path, tried + {(i, j)}, i)
  {
    var w := minCost[i] + cost(i, j);
    if w < minCost[j] {
      RelaxKeepsTables(cost, size, initial, minCost, path, i, j);
      LoweringKeepsRelaxed(cost, minCost, tried, i, j, w);
      OneMoreTried(cost, minCost[j := w], tried, i, j);
    } else {
      OneMoreTried(cost, minCost, tried, i, j);
    }
  }

  /** One relaxation: the block [i, j) of the given cost improves node j or leaves it. */
  method Relax(ghost cost: Cost, i: nat, j: nat, blockCost: real, minCost: array<real>, path: array<nat>,
               ghost size: nat, ghost initial: real, ghost tried: set<(nat, nat)>)
    requires SweepState(cost, size, initial, minCost[..], path[..], tried, i) && i < j <= size
    requires blockCost == cost(i, j)
    modifies minCost, path
    ensures SweepState(cost, size, initial, minCost[..], path[..], tried + {(i, j)}, i)
  {
    RelaxStep(cost, size, initial, minCost[..], path[..], tried, i, j);
    hide SweepState;
    ghost var m, p := minCost[..], path[..];
    if minCost[i] + blockCost < minCost[j] {
      minCost[j] := minCost[i] + blockCost;
      path[j] := i;
      assert minCost[..] == m[j := m[i] + cost(i, j)] && path[..] == p[j := i];
    }
  }

  /** Distinct windows over the same elements, one per bound, at the given ends; the first k have
      already been moved on from node i. */
  ghost predicate WindowsAt(docs: seq<nat>, base: nat, bounds: seq<real>, windows: seq<CostWindow>, ends: seq<nat>,
                            k: nat, i: nat)
    reads windows
  {
    && |windows| == |bounds| == |ends|
    && (forall m, n :: 0 <= m < n < |windows| ==> windows[m] != windows[n])
    && forall m :: 0 <= m < |windows| ==>
         WindowAt(docs, base, bounds[m], windows[m], ends[m], if m < k then i + 1 else i)
  }

  ghost predicate WindowAt(docs: seq<nat>, base: nat, bound: real, w: CostWindow, end: nat, start: nat)
    reads w
  {
    w.docs == docs && w.base == base && w.costUpperBound == bound && w.Valid() && w.end == end && w.start == start
  }

  /** Brings one window to at least `lastEnd` and relaxes blocks until its bound or the end is reached. */
  method RunWindow(w: CostWindow, f: CostFun, i: nat, lastEnd: nat, minCost: array<real>, path: array<nat>,
                   ghost initial: real, ghost tried: set<(nat, nat)>)
    returns (newEnd: nat, ghost newTried: set<(nat, nat)>)
    requires w.Valid() && w.start == i < lastEnd <= |w.docs| && Increasing(w.docs)
    requires SweepState(BlockCost(w.docs, w.base, f), |w.docs|, initial, minCost[..], path[..], tried, i)
    modifies w, minCost, path
    ensures w.Valid() && w.start == i + 1 && w.end == newEnd
    ensures newEnd ==
              FirstReaching(BlockCost(w.docs, w.base, f), |w.docs|, w.costUpperBound, i,
                            if old(w.end) < lastEnd then lastEnd else old(w.end))
    ensures SweepState(BlockCost(w.docs, w.base, f), |w.docs|, initial, minCost[..], path[..], newTried, i)
    ensures tried <= newTried && (i, newEnd) in newTried
  {
    hide SweepState, Increasing, BlockCost;
    ghost var cost, size := BlockCost(w.docs, w.base, f), |w.docs|;
    CatchUp(w, lastEnd);
    ghost var first := w.end;
    newTried := tried;
    while true
      invariant w.Valid() && w.start == i < w.end <= size
      invariant FirstReaching(cost, size, w.costUpperBound, i, w.end) ==
                  FirstReaching(cost, size, w.costUpperBound, i, first)
      invariant SweepState(cost, size, initial, minCost[..], path[..], newTried, i) && tried <= newTried
      decreases size - w.end
    {
      var windowCost := WindowCost(w, f);
      Relax(cost, i, w.end, windowCost, minCost, path, size, initial, newTried);
      newTried := newTried + {(i, w.end)};
      newEnd := w.end;
      if w.end == |w.docs| { break; }
      if windowCost >= w.costUpperBound { break; }
      w.AdvanceEnd();
    }
    w.AdvanceStart();
  }

  method WindowCost(w: CostWindow, f: CostFun) returns (c: real)
    requires w.Valid() && w.start < w.end
    ensures c == BlockCost(w.docs, w.base, f)(w.start, w.end)
  {
    c := f(w.Universe(), w.end - w.start);
  }

  method CatchUp(w: CostWindow, lastEnd: nat)
    requires w.Valid() && lastEnd <= |w.docs|
    modifies w
    ensures w.Valid() && w.start == old(w.start) && w.end == if old(w.end) < lastEnd then lastEnd else old(w.end)
  {
    while w.end < lastEnd
      invariant w.Valid() && w.start == old(w.start)
      invariant old(w.end) <= w.end && (w.end == old(w.end) || w.end <= lastEnd)
    {
      w.AdvanceEnd();
    }
  }

  ghost predicate Ascending(bounds: seq<real>) {
    forall m, n :: 0 <= m <= n < |bounds| ==> bounds[m] <= bounds[n]
  }

  /** No window is beyond the least end at which its bound is reached. */
  ghost predicate NotBeyond(cost: Cost, size: nat, bounds: seq<real>, ends: seq<nat>, i: nat)
    requires i < size
  {
    |ends| == |bounds| && forall m :: 0 <= m < |ends| ==> ends[m] <= LeastEnd(cost, size, bounds[m], i)
  }

  /** The first k windows are exactly at that end, and the blocks up to it have been looked at. */
  ghost predicate AtLeast(cost: Cost, size: nat, bounds: seq<real>, ends: seq<nat>, k: nat, i: nat,
                          tried: set<(nat, nat)>)
    requires i < size
  {
    && k <= |ends| == |bounds|
    && forall m :: 0 <= m < k ==> ends[m] == LeastEnd(cost, size, bounds[m], i) && (i, ends[m]) in tried
  }

  lemma OneMoreAtLeast(cost: Cost, size: nat, bounds: seq<real>, ends: seq<nat>, k: nat, i: nat, tried: set<(nat, nat)>,
                       lastEnd: nat, first: seq<nat>, newEnd: nat, newTried: set<(nat, nat)>)
    requires i < size && k < |bounds| == |ends| && Ascending(bounds)
    requires AtLeast(cost, size, bounds, ends, k, i, tried) && tried <= newTried && (i, newEnd) in newTried
    requires lastEnd == if k == 0 then i + 1 else ends[k - 1]
    requires NotBeyond(cost, size, bounds, first, i) && i < lastEnd <= size && first[k] <= size
    requires newEnd == FirstReaching(cost, size, bounds[k], i, if first[k] < lastEnd then lastEnd else first[k])
    ensures AtLeast(cost, size, bounds, ends[k := newEnd], k + 1, i, newTried)
  {
    if k > 0 {
      LeastEndOfDearer(cost, size, bounds[k - 1], bounds[k], i);
    }
    StopsAtLeastEnd(cost, size, bounds[k], i, if first[k] < lastEnd then lastEnd else first[k]);
  }

  lemma NoneAtLeast(cost: Cost, size: nat, bounds: seq<real>, ends: seq<nat>, i: nat, tried: set<(nat, nat)>)
    requires i < size && |ends| == |bounds|
    ensures AtLeast(cost, size, bounds, ends, 0, i, tried)
  {}

  lemma WindowCounts(docs: seq<nat>, base: nat, bounds: seq<real>, windows: seq<CostWindow>, ends: seq<nat>, k: nat,
                     i: nat)
    requires WindowsAt(docs, base, bounds, windows, ends, k, i)
    ensures |windows| == |bounds| == |ends|
  {}

  method RunWindowAt(windows: seq<CostWindow>, k: nat, f: CostFun, i: nat, lastEnd: nat, minCost: array<real>,
                     path: array<nat>,
                     ghost docs: seq<nat>, ghost base: nat, ghost bounds: seq<real>, ghost initial: real,
                     ghost tried: set<(nat, nat)>, ghost ends: seq<nat>)
    returns (newEnd: nat, ghost newTried: set<(nat, nat)>)
    requires WindowsAt(docs, base, bounds, windows, ends, k, i)
    requires k < |windows| && i < lastEnd <= |docs| && Increasing(docs)
    requires SweepState(BlockCost(docs, base, f), |docs|, initial, minCost[..], path[..], tried, i)
    modifies windows, minCost, path
    ensures WindowsAt(docs, base, bounds, windows, ends[k := newEnd], k + 1, i)
    ensures newEnd ==
              FirstReaching(BlockCost(docs, base, f), |docs|, bounds[k], i,
                            if ends[k] < lastEnd then lastEnd else ends[k])
    ensures SweepState(BlockCost(docs, base, f), |docs|, initial, minCost[..], path[..], newTried, i)
    ensures tried <= newTried && (i, newEnd) in newTried && ends[k] <= |docs|
  {
    hide SweepState, Increasing, FirstReaching, BlockCost;
    newEnd, newTried := RunWindow(windows[k], f, i, lastEnd, minCost, path, initial, tried);
  }

  /** All windows work on node i, each handing its end to the next. */
  method RunNode(windows: seq<CostWindow>, f: CostFun, i: nat, minCost: array<real>, path: array<nat>,
                 ghost docs: seq<nat>, ghost base: nat, ghost bounds: seq<real>, ghost initial: real,
                 ghost tried: set<(nat, nat)>, ghost ends: seq<nat>)
    returns (ghost newTried: set<(nat, nat)>, ghost newEnds: seq<nat>)
    requires WindowsAt(docs, base, bounds, windows, ends, 0, i) && Increasing(docs) && i < |docs|
    requires SweepState(BlockCost(docs, base, f), |docs|, initial, minCost[..], path[..], tried, i)
    modifies windows, minCost, path
    ensures WindowsAt(docs, base, bounds, windows, newEnds, |windows|, i)
    ensures SweepState(BlockCost(docs, base, f), |docs|, initial, minCost[..], path[..], newTried, i)
    ensures tried <= newTried
    ensures Ascending(bounds) && NotBeyond(BlockCost(docs, base, f), |docs|, bounds, ends, i) ==>
              AtLeast(BlockCost(docs, base, f), |docs|, bounds, newEnds, |bounds|, i, newTried)
  {
    hide SweepState, Increasing, Ascending, AtLeast, NotBeyond, FirstReaching, LeastEnd, BlockCost, WindowsAt;
    WindowCounts(docs, base, bounds, windows, ends, 0, i);
    ghost var cost, size := BlockCost(docs, base, f), |docs|;
    var lastEnd := i + 1;
    newTried, newEnds := tried, ends;
    NoneAtLeast(cost, size, bounds, ends, i, tried);
    for k := 0 to |windows|
      invariant WindowsAt(docs, base, bounds, windows, newEnds, k, i)
      invariant |ends| == |newEnds| == |windows| == |bounds| && newEnds[k..] == ends[k..]
      invariant i < lastEnd <= size && lastEnd == if k == 0 then i + 1 else newEnds[k - 1]
      invariant SweepState(cost, size, initial, minCost[..], path[..], newTried, i) && tried <= newTried
      invariant Ascending(bounds) && NotBeyond(cost, size, bounds, ends, i) ==>
                  AtLeast(cost, size, bounds, newEnds, k, i, newTried)
    {
      ghost var before, lastBefore := newTried, lastEnd;
      assert newEnds[k] == newEnds[k..][0] == ends[k..][0] == ends[k];
      lastEnd, newTried := RunWindowAt(windows, k, f, i, lastEnd, minCost, path, docs, base, bounds, initial, newTried,
                                       newEnds);
      if Ascending(bounds) && NotBeyond(cost, size, bounds, ends, i) {
        OneMoreAtLeast(cost, size, bounds, newEnds, k, i, before, lastBefore, ends, lastEnd, newTried);
      }
      newEnds := newEnds[k := lastEnd];
      assert newEnds[k + 1..] == ends[k..][1..];
    }
  }

  /** All blocks from nodes below i to a least end have been looked at. */
  ghost predicate LeastBlocksTried(cost: Cost, size: nat, bounds: seq<real>, tried: set<(nat, nat)>, i: nat) {
    forall b, m :: 0 <= b < i && b < size && 0 <= m < |bounds| ==> (b, LeastEnd(cost, size, bounds[m], b)) in tried
  }

  lemma NodeDone(cost: Cost, size: nat, bounds: seq<real>, ends: seq<nat>, i: nat, before: set<(nat, nat)>,
                 tried: set<(nat, nat)>)
    requires i < size && LeastBlocksTried(cost, size, bounds, before, i) && before <= tried
    requires AtLeast(cost, size, bounds, ends, |bounds|, i, tried)
    ensures LeastBlocksTried(cost, size, bounds, tried, i + 1)
    ensures i + 1 < size && Monotone(cost, size) ==> NotBeyond(cost, size, bounds, ends, i + 1)
  {
    if i + 1 < size && Monotone(cost, size) {
      forall m | 0 <= m < |ends| ensures ends[m] <= LeastEnd(cost, size, bounds[m], i + 1) {
        LeastEndOfNext(cost, size, bounds[m], i);
      }
    }
  }

  lemma StateOfNext(cost: Cost, size: nat, initial: real, minCost: seq<real>, path: seq<nat>, tried: set<(nat, nat)>,
                    i: nat)
    requires SweepState(cost, size, initial, minCost, path, tried, i)
    ensures SweepState(cost, size, initial, minCost, path, tried, i + 1)
  {
    NextNode(cost, size, initial, minCost, path, i, i + 1);
  }

  /** The whole sweep over the nodes. With a cost that grows with the block and ascending bounds,
      every window stops, at every node, at the least end where its bound is reached. */
  method Sweep(windows: seq<CostWindow>, f: CostFun, size: nat, minCost: array<real>, path: array<nat>,
               ghost docs: seq<nat>, ghost base: nat, ghost bounds: seq<real>, ghost initial: real)
    returns (ghost tried: set<(nat, nat)>)
    requires size == |docs| && Increasing(docs)
    requires WindowsAt(docs, base, bounds, windows, seq(|bounds|, _ => 0), 0, 0)
    requires SweepState(BlockCost(docs, base, f), size, initial, minCost[..], path[..], {}, 0)
    modifies windows, minCost, path
    ensures SweepState(BlockCost(docs, base, f), size, initial, minCost[..], path[..], tried, size)
    ensures Ascending(bounds) && Monotone(BlockCost(docs, base, f), size) ==>
              LeastBlocksTried(BlockCost(docs, base, f), size, bounds, tried, size)
  {
    hide SweepState, Increasing, Ascending, AtLeast, FirstReaching, LeastEnd, BlockCost, WindowsAt, Monotone,
         NotBeyond, LeastBlocksTried;
    ghost var cost := BlockCost(docs, base, f);
    ghost var ends := seq(|bounds|, _ => 0);
    tried := {};
    NothingTried(cost, size, bounds, ends);
    for i := 0 to size
      invariant WindowsAt(docs, base, bounds, windows, ends, 0, i)
      invariant SweepState(cost, size, initial, minCost[..], path[..], tried, i)
      invariant Ascending(bounds) && Monotone(cost, size) ==> LeastBlocksTried(cost, size, bounds, tried, i)
      invariant Ascending(bounds) && Monotone(cost, size) && i < size ==> NotBeyond(cost, size, bounds, ends, i)
    {
      ghost var before := tried;
      tried, ends := RunNode(windows, f, i, minCost, path, docs, base, bounds, initial, tried, ends);
      if Ascending(bounds) && Monotone(cost, size) {
        NodeDone(cost, size, bounds, ends, i, before, tried);
      }
      StateOfNext(cost, size, initial, minCost[..], path[..], tried, i);
      WindowsOfNext(docs, base, bounds, windows, ends, i);
    }
  }

  lemma WindowsOfNext(docs: seq<nat>, base: nat, bounds: seq<real>, windows: seq<CostWindow>, ends: seq<nat>, i: nat)
    requires WindowsAt(docs, base, bounds, windows, ends, |windows|, i)
    ensures WindowsAt(docs, base, bounds, windows, ends, 0, i + 1)
  {}

  lemma NothingTried(cost: Cost, size: nat, bounds: seq<real>, ends: seq<nat>)
    requires ends == seq(|bounds|, _ => 0)
    ensures LeastBlocksTried(cost, size, bounds, {}, 0)
    ensures size > 0 ==> NotBeyond(cost, size, bounds, ends, 0)
  {}

  /** Every block of the partition goes to the least end at which some bound is reached. */
  ghost predicate IntoLeastBlocks(cost: Cost, size: nat, bounds: seq<real>, ends: seq<nat>) {
    forall i :: 0 <= i < |ends| ==> Begin(ends, i) < size && EndsLeast(cost, size, bounds, Begin(ends, i), ends[i])
  }

  ghost predicate EndsLeast(cost: Cost, size: nat, bounds: seq<real>, begin: nat, end: nat)
    requires begin < size
  {
    exists m :: 0 <= m < |bounds| && end == LeastEnd(cost, size, bounds[m], begin)
  }

  method MakeWindows(docs: seq<nat>, base: nat, bounds: seq<real>) returns (windows: seq<CostWindow>)
    ensures WindowsAt(docs, base, bounds, windows, seq(|bounds|, _ => 0), 0, 0) && fresh(windows)
  {
    windows := [];
    for m := 0 to |bounds|
      invariant |windows| == m && fresh(windows)
      invariant forall a, b :: 0 <= a < b < |windows| ==> windows[a] != windows[b]
      invariant forall a :: 0 <= a < m ==> WindowAt(docs, base, bounds[a], windows[a], 0, 0)
    {
      var w := new CostWindow(docs, base, bounds[m]);
      windows := windows + [w];
    }
  }

  /** The partition is valid; its cost is exact unless nothing improved on the single block; it never
      costs more than the single block, nor more than any partition into blocks that end where a
      bound is first reached. */
  method PartitionWith(docs: seq<nat>, base: nat, universe: nat, f: CostFun, bounds: seq<real>)
    returns (partition: seq<nat>, costOpt: real)
    requires Increasing(docs) && forall u: int, n: nat :: f(u, n) >= 0.0
    ensures IsPartition(partition, |docs|)
    ensures |docs| > 0 ==> costOpt <= f(universe - base, |docs|)
    ensures |docs| > 0 && costOpt == f(universe - base, |docs|) ==> partition == [|docs|]
    ensures costOpt == TotalCost(BlockCost(docs, base, f), partition) ||
            (partition == [|docs|] && costOpt == f(universe - base, |docs|))
    ensures Ascending(bounds) && Monotone(BlockCost(docs, base, f), |docs|) ==>
              forall ends :: IsPartition(ends, |docs|) && IntoLeastBlocks(BlockCost(docs, base, f), |docs|, bounds, ends)
                ==> costOpt <= TotalCost(BlockCost(docs, base, f), ends)
  {
    hide SweepState, Increasing, Ascending, BlockCost, WindowsAt, Monotone, LeastBlocksTried, IntoLeastBlocks,
         IsPartition;
    var size := |docs|;
    ghost var cost := BlockCost(docs, base, f);
    var singleBlockCost := f(universe - base, size);
    var minCost := new real[size + 1](_ => singleBlockCost);
    minCost[0] := 0.0;
    var path := new nat[size + 1](_ => 0);
    StartState(cost, size, singleBlockCost, minCost[..], path[..]);
    var windows := MakeWindows(docs, base, bounds);
    ghost var tried := Sweep(windows, f, size, minCost, path, docs, base, bounds, singleBlockCost);
    ResultFacts(docs, base, f, singleBlockCost, minCost[..], path[..], tried);
    partition := FollowPath(path);
    costOpt := minCost[size];
    if Ascending(bounds) && Monotone(cost, size) {
      forall ends | IsPartition(ends, size) && IntoLeastBlocks(cost, size, bounds, ends)
        ensures costOpt <= TotalCost(cost, ends)
      {
        NoCheaper(cost, size, singleBlockCost, minCost[..], path[..], tried, bounds, ends);
      }
    }
  }

  lemma StartState(cost: Cost, size: nat, initial: real, minCost: seq<real>, path: seq<nat>)
    requires |minCost| == |path| == size + 1 && minCost[0] == 0.0
    requires forall j :: 0 < j <= size ==> minCost[j] == initial
    requires forall j :: 0 <= j <= size ==> path[j] == 0
    ensures SweepState(cost, size, initial, minCost, path, {}, 0)
  {
    InitialTables(cost, size, initial, minCost, path);
  }

  lemma {:induction false} ResultFacts(docs: seq<nat>, base: nat, f: CostFun, initial: real, minCost: seq<real>,
                                       path: seq<nat>, tried: set<(nat, nat)>)
    requires forall u: int, n: nat :: f(u, n) >= 0.0
    requires SweepState(BlockCost(docs, base, f), |docs|, initial, minCost, path, tried, |docs|)
    ensures |minCost| == |path| == |docs| + 1 && Backward(path)
    ensures var ends := BlocksTo(path, |docs|);
            IsPartition(ends, |docs|) &&
            (minCost[|docs|] == TotalCost(BlockCost(docs, base, f), ends) || (ends == [|docs|] && minCost[|docs|] == initial))
    ensures |docs| > 0 ==>
              minCost[|docs|] <= initial && (minCost[|docs|] == initial ==> BlocksTo(path, |docs|) == [|docs|])
  {
    var cost, size := BlockCost(docs, base, f), |docs|;
    TablesGoBack(cost, size, initial, minCost, path, size);
    BlocksArePartition(path, size);
    if size > 0 {
      assert NodeOk(cost, initial, minCost, path, size, size);
      if minCost[size] < initial {
        ImprovedCostIsExact(cost, size, initial, minCost, path, size, size);
      } else {
        assert BlocksTo(path, 0) + [size] == [size];
      }
    }
  }

  lemma {:induction false} NoCheaper(cost: Cost, size: nat, initial: real, minCost: seq<real>, path: seq<nat>,
                                     tried: set<(nat, nat)>, bounds: seq<real>, ends: seq<nat>)
    requires SweepState(cost, size, initial, minCost, path, tried, size)
    requires LeastBlocksTried(cost, size, bounds, tried, size)
    requires IsPartition(ends, size) && IntoLeastBlocks(cost, size, bounds, ends)
    ensures minCost[size] <= TotalCost(cost, ends)
  {
    forall i | 0 <= i < |ends| ensures (Begin(ends, i), ends[i]) in tried {
      assert EndsLeast(cost, size, bounds, Begin(ends, i), ends[i]);
      var m :| 0 <= m < |bounds| && ends[i] == LeastEnd(cost, size, bounds[m], Begin(ends, i));
    }
    CheapestOfTried(cost, minCost, tried, ends);
  }

  // ----- the bounds, and the superblocks -----

  /** The list is not begun, or its first bound is already enough, or bounds grow by whole bits. */
  predicate FinitelyMany(costLb: real, singleBlockCost: real, eps1: real, eps2: real) {
    || (eps1 != 0.0 && costLb >= costLb / eps1)
    || costLb >= singleBlockCost
    || costLb * eps2 >= 1.0
  }

  ghost function Bounds(costLb: real, eps2: real): nat -> real {
    (k: nat) => BoundAt(costLb, eps2, k)
  }

  lemma BoundsAt(costLb: real, eps2: real, k: nat)
    ensures Bounds(costLb, eps2)(0) == costLb
    ensures Bounds(costLb, eps2)(k + 1) == NextBound(Bounds(costLb, eps2)(k), eps2)
  {}

  lemma PassBegins(costLb: real, eps1: real, eps2: real, bound: real, k: nat)
    requires bound == Bounds(costLb, eps2)(k)
    ensures Begins(Bounds(costLb, eps2), costLb, eps1, k) <==> eps1 == 0.0 || bound < costLb / eps1
  {
    hide Bounds;
  }

  lemma NothingAscends()
    ensures Ascending([])
  {}

  /** One bound per power of the growth factor, truncated to whole bits, until the single block's
      cost is reached. */
  method WindowBounds(costLb: real, singleBlockCost: real, eps1: real, eps2: real) returns (bounds: seq<real>)
    requires Whole(costLb) && costLb >= 0.0 && eps1 >= 0.0 && eps2 >= 0.0
    requires FinitelyMany(costLb, singleBlockCost, eps1, eps2)
    ensures Ascending(bounds)
    ensures BoundsListed(Bounds(costLb, eps2), costLb, singleBlockCost, eps1, bounds)
  {
    hide Bounds, BoundsBegun, BoundsListed, Begins, Ascending, NextBound;
    bounds := [];
    var costBound := costLb;
    ghost var boundAt := Bounds(costLb, eps2);
    NoBounds(boundAt, costLb, singleBlockCost, eps1);
    BoundsAt(costLb, eps2, 0);
    NothingAscends();
    PassBegins(costLb, eps1, eps2, costBound, |bounds|);
    while eps1 == 0.0 || costBound < costLb / eps1
      invariant costBound >= costLb && Whole(costBound) && Ascending(bounds) && costBound == boundAt(|bounds|)
      invariant costBound == costLb || costLb * eps2 >= 1.0
      invariant forall m :: 0 <= m < |bounds| ==> bounds[m] <= costBound
      invariant BoundsBegun(boundAt, costLb, singleBlockCost, eps1, bounds)
      invariant Begins(boundAt, costLb, eps1, |bounds|) <==> eps1 == 0.0 || costBound < costLb / eps1
      decreases singleBlockCost - costBound
    {
      OneMoreBound(boundAt, costLb, singleBlockCost, eps1, bounds);
      BoundsAt(costLb, eps2, |bounds|);
      AppendBound(bounds, costBound);
      bounds := bounds + [costBound];
      if costBound >= singleBlockCost { return; }
      NextFromLarger(costBound, costLb, eps2);
      BoundGrows(costBound, eps2);
      costBound := NextBound(costBound, eps2);
      PassBegins(costLb, eps1, eps2, costBound, |bounds|);
    }
    PassNotBegun(boundAt, costLb, singleBlockCost, eps1, bounds);
  }

  ghost predicate Whole(x: real) {
    x == x.Floor as real
  }

  lemma AppendBound(bounds: seq<real>, b: real)
    requires Ascending(bounds) && forall m :: 0 <= m < |bounds| ==> bounds[m] <= b
    ensures Ascending(bounds + [b])
  {}

  function NextBound(b: real, eps2: real): (r: real) {
    (b * (1.0 + eps2)).Floor as real
  }

  lemma NextFromLarger(b: real, lb: real, eps2: real)
    requires b >= lb && eps2 >= 0.0 && lb * eps2 >= 1.0
    ensures b * eps2 >= 1.0
  {
    assert (b - lb) * eps2 >= 0.0;
  }

  /** A bound grows exactly if its growth is worth a bit; otherwise it is its own successor. */
  lemma BoundGrows(b: real, eps2: real)
    requires Whole(b) && b >= 0.0 && eps2 >= 0.0
    ensures Whole(NextBound(b, eps2))
    ensures NextBound(b, eps2) <= b * (1.0 + eps2) < NextBound(b, eps2) + 1.0
    ensures b * eps2 >= 1.0 <==> NextBound(b, eps2) != b
    ensures b * eps2 >= 1.0 <==> NextBound(b, eps2) >= b + 1.0
  {
    hide NextBound, Whole;
    NextIs(b, eps2);
    FloorGrows(b, b * eps2);
  }

  lemma NextIs(b: real, eps2: real)
    requires b >= 0.0 && eps2 >= 0.0
    ensures NextBound(b, eps2) == (b + b * eps2).Floor as real && b * eps2 >= 0.0
    ensures b * (1.0 + eps2) == b + b * eps2
  {
    assert b * (1.0 + eps2) == b + b * eps2;
  }

  lemma FloorGrows(b: real, growth: real)
    requires Whole(b) && growth >= 0.0
    ensures var next := (b + growth).Floor as real;
            && next <= b + growth < next + 1.0 && Whole(next)
            && (growth >= 1.0 <==> next != b) && (growth >= 1.0 <==> next >= b + 1.0)
  {
    assert (b + growth).Floor >= b.Floor;
  }

  /** The bound of the k-th pass, if the loop gets that far. */
  function BoundAt(costLb: real, eps2: real, k: nat): real {
    if k == 0 then costLb else NextBound(BoundAt(costLb, eps2, k - 1), eps2)
  }

  /** The loop ends with the k-th pass: it is not begun, or its bound is enough. */
  predicate EndsAt(costLb: real, singleBlockCost: real, eps1: real, eps2: real, k: nat) {
    || (eps1 != 0.0 && BoundAt(costLb, eps2, k) >= costLb / eps1)
    || BoundAt(costLb, eps2, k) >= singleBlockCost
  }

  /** The loop ends at all if and only if the list is finite by the test on its first bound. */
  lemma LoopEnds(costLb: real, singleBlockCost: real, eps1: real, eps2: real)
    requires Whole(costLb) && costLb >= 0.0 && eps1 >= 0.0 && eps2 >= 0.0
    ensures FinitelyMany(costLb, singleBlockCost, eps1, eps2) <==>
              exists k: nat :: EndsAt(costLb, singleBlockCost, eps1, eps2, k)
  {
    if !FinitelyMany(costLb, singleBlockCost, eps1, eps2) {
      forall k: nat ensures !EndsAt(costLb, singleBlockCost, eps1, eps2, k) {
        BoundStays(costLb, eps2, k);
      }
    } else if costLb * eps2 >= 1.0 && costLb < singleBlockCost {
      var k: nat := (singleBlockCost - costLb).Floor + 1;
      BoundClimbs(costLb, eps2, k);
      assert EndsAt(costLb, singleBlockCost, eps1, eps2, k);
    } else {
      assert EndsAt(costLb, singleBlockCost, eps1, eps2, 0);
    }
  }

  lemma {:induction false} BoundStays(costLb: real, eps2: real, k: nat)
    requires Whole(costLb) && costLb >= 0.0 && eps2 >= 0.0 && costLb * eps2 < 1.0
    ensures BoundAt(costLb, eps2, k) == costLb
  {
    if k == 0 {
    } else {
      BoundStays(costLb, eps2, k - 1);
      BoundGrows(costLb, eps2);
    }
  }

  lemma {:induction false} BoundClimbs(costLb: real, eps2: real, k: nat)
    requires Whole(costLb) && costLb >= 0.0 && eps2 >= 0.0 && costLb * eps2 >= 1.0
    ensures BoundAt(costLb, eps2, k) >= costLb + k as real && Whole(BoundAt(costLb, eps2, k))
  {
    if k == 0 {
    } else {
      BoundClimbs(costLb, eps2, k - 1);
      NextFromLarger(BoundAt(costLb, eps2, k - 1), costLb, eps2);
      BoundGrows(BoundAt(costLb, eps2, k - 1), eps2);
    }
  }

  /** A least cost of one bit growing by half a bit stays where it is, below a block cost of ten. */
  lemma EndlessBounds()
    ensures !FinitelyMany(1.0, 10.0, 0.0, 0.5) && NextBound(1.0, 0.5) == 1.0
  {}

  ghost function Shifted(ends: seq<nat>, offset: nat): seq<nat> {
    seq(|ends|, i requires 0 <= i < |ends| => offset + ends[i])
  }

  lemma ShiftedStep(before: seq<nat>, ends: seq<nat>, offset: nat, i: nat)
    requires i < |ends|
    ensures before + Shifted(ends, offset)[..i] + [offset + ends[i]] == before + Shifted(ends, offset)[..i + 1]
  {}

  /** Partitions of two stretches, one after the other, make a partition of the whole. */
  lemma JoinedPartitions(a: seq<nat>, p: nat, b: seq<nat>, s: nat)
    requires IsPartition(a, p) && IsPartition(b, s) && s > 0
    ensures IsPartition(a + Shifted(b, p), p + s)
  {
    hide TotalCost;
    var ends := a + Shifted(b, p);
    forall i | 0 <= i < |ends| ensures ProperBlock(ends, i) {
      JoinedBegin(a, p, b, s, i);
    }
    assert ends[|ends| - 1] == Shifted(b, p)[|b| - 1] == p + b[|b| - 1];
  }

  lemma JoinedBegin(a: seq<nat>, p: nat, b: seq<nat>, s: nat, i: nat)
    requires IsPartition(a, p) && IsPartition(b, s) && i < |a| + |b|
    ensures ProperBlock(a + Shifted(b, p), i)
  {
    var ends := a + Shifted(b, p);
    if i < |a| {
      assert ProperBlock(a, i);
    } else {
      assert ends[i] == Shifted(b, p)[i - |a|] == p + b[i - |a|];
      assert ProperBlock(b, i - |a|);
      if i > |a| {
        assert ends[i - 1] == Shifted(b, p)[i - 1 - |a|] == p + b[i - 1 - |a|];
      }
    }
  }

  lemma TrivialPartitions(n: nat)
    requires n > 0
    ensures IsPartition([n], n) && IsPartition([], 0)
  {}

  /** The partition is valid; its cost is exact unless nothing improved on the single block, and is never
      above it; with a cost that grows with the block, no partition into blocks that end where one of the
      constructor's own bounds is first reached is cheaper. */
  ghost predicate Solved(docs: seq<nat>, base: nat, universe: nat, f: CostFun, eps1: real, eps2: real,
                         partition: seq<nat>, costOpt: real, bounds: seq<real>) {
    var cost, single := BlockCost(docs, base, f), f(universe - base, |docs|);
    && IsPartition(partition, |docs|)
    && Ascending(bounds) && BoundsListed(Bounds(f(1, 1), eps2), f(1, 1), single, eps1, bounds)
    && (|docs| > 0 ==> costOpt <= single && (costOpt == single ==> partition == [|docs|]))
    && (costOpt == TotalCost(cost, partition) || (partition == [|docs|] && costOpt == single))
    && (Monotone(cost, |docs|) ==> CheapestInto(cost, |docs|, bounds, costOpt))
  }

  ghost predicate CheapestInto(cost: Cost, size: nat, bounds: seq<real>, costOpt: real) {
    forall ends :: IsPartition(ends, size) && IntoLeastBlocks(cost, size, bounds, ends) ==> costOpt <= TotalCost(cost, ends)
  }

  /** The constructor: the bounds first, then the sweep over their windows. */
  method Partition(docs: seq<nat>, base: nat, universe: nat, f: CostFun, eps1: real, eps2: real)
    returns (partition: seq<nat>, costOpt: real, ghost bounds: seq<real>)
    requires Increasing(docs) && (forall u: int, n: nat :: f(u, n) >= 0.0) && Whole(f(1, 1))
    requires eps1 >= 0.0 && eps2 >= 0.0 && FinitelyMany(f(1, 1), f(universe - base, |docs|), eps1, eps2)
    ensures Solved(docs, base, universe, f, eps1, eps2, partition, costOpt, bounds)
    ensures IsPartition(partition, |docs|) && (|docs| > 0 ==> costOpt <= f(universe - base, |docs|))
    ensures costOpt == TotalCost(BlockCost(docs, base, f), partition) ||
            (partition == [|docs|] && costOpt == f(universe - base, |docs|))
  {
    hide Increasing, Whole, FinitelyMany, IsPartition, Ascending, BoundsListed, Monotone, IntoLeastBlocks, BlockCost,
         Bounds;
    var windowBounds := WindowBounds(f(1, 1), f(universe - base, |docs|), eps1, eps2);
    bounds := windowBounds;
    partition, costOpt := PartitionWith(docs, base, universe, f, windowBounds);
  }

  // ----- superblocks -----

  /** A superblock [lo, hi): where it is measured from and to, and the partition found for it. */
  datatype Superblock = Superblock(
    lo: nat, hi: nat, base: nat, universe: nat, ends: seq<nat>, cost: real, bounds: seq<real>)

  /** Superblock k follows the one before it, has the size the bound gives it, and is solved. */
  ghost predicate SuperblockOk(docs: seq<nat>, universe: nat, f: CostFun, superblockBound: nat, eps1: real, eps2: real,
                               blocks: seq<Superblock>, k: nat)
    requires k < |blocks| && docs != []
  {
    var b := blocks[k];
    && b.lo == (if k == 0 then 0 else blocks[k - 1].hi) < b.hi <= |docs|
    && b.base == (if k == 0 then docs[0] else blocks[k - 1].universe)
    && (if b.hi == |docs| then b.hi - b.lo < 2 * superblockBound && b.universe == universe
        else b.hi - b.lo == superblockBound <= |docs| - b.hi && b.universe == docs[b.hi - 1] + 1)
    && Solved(docs[b.lo..b.hi], b.base, b.universe, f, eps1, eps2, b.ends, b.cost, b.bounds)
  }

  /** The list up to a position, cut into solved superblocks. */
  ghost predicate SuperblocksOk(docs: seq<nat>, universe: nat, f: CostFun, superblockBound: nat, eps1: real, eps2: real,
                                blocks: seq<Superblock>, pos: nat)
    requires docs != []
  {
    && pos == (if blocks == [] then 0 else blocks[|blocks| - 1].hi)
    && forall k :: 0 <= k < |blocks| ==> SuperblockOk(docs, universe, f, superblockBound, eps1, eps2, blocks, k)
  }

  /** The ends of all superblocks, each from where it begins. */
  ghost function Strung(blocks: seq<Superblock>): seq<nat> {
    if blocks == [] then []
    else Strung(blocks[..|blocks| - 1]) + Shifted(blocks[|blocks| - 1].ends, blocks[|blocks| - 1].lo)
  }

  lemma {:induction false} OneMoreSuperblock(docs: seq<nat>, universe: nat, f: CostFun, superblockBound: nat,
                                             eps1: real, eps2: real,
                                             blocks: seq<Superblock>, pos: nat, b: Superblock)
    requires docs != [] && SuperblocksOk(docs, universe, f, superblockBound, eps1, eps2, blocks, pos)
    requires b.lo == pos && b.lo < b.hi <= |docs|
    requires b.base == if blocks == [] then docs[0] else blocks[|blocks| - 1].universe
    requires if b.hi == |docs| then b.hi - b.lo < 2 * superblockBound && b.universe == universe
             else b.hi - b.lo == superblockBound <= |docs| - b.hi && b.universe == docs[b.hi - 1] + 1
    requires Solved(docs[b.lo..b.hi], b.base, b.universe, f, eps1, eps2, b.ends, b.cost, b.bounds)
    ensures SuperblocksOk(docs, universe, f, superblockBound, eps1, eps2, blocks + [b], b.hi)
    ensures Strung(blocks + [b]) == Strung(blocks) + Shifted(b.ends, b.lo)
  {
    hide Solved, Shifted;
    var more := blocks + [b];
    assert more[..|blocks|] == blocks;
    forall k | 0 <= k < |more| ensures SuperblockOk(docs, universe, f, superblockBound, eps1, eps2, more, k) {
      if k < |blocks| {
        assert SuperblockOk(docs, universe, f, superblockBound, eps1, eps2, blocks, k);
      }
    }
  }

  lemma SolvedIsPartition(docs: seq<nat>, base: nat, universe: nat, f: CostFun, eps1: real, eps2: real,
                          partition: seq<nat>, costOpt: real, bounds: seq<real>)
    requires Solved(docs, base, universe, f, eps1, eps2, partition, costOpt, bounds)
    ensures IsPartition(partition, |docs|)
  {
    hide IsPartition, Ascending, BoundsListed, Monotone, CheapestInto;
  }

  /** `compute_partition`: cuts the list into superblocks, partitions each, and strings the results
      together. A short remainder is merged into the last superblock. */
  method ComputePartition(docs: seq<nat>, universe: nat, f: CostFun, wholeIsCheap: bool, superblockBound: nat,
                          eps1: real, eps2: real)
    returns (partition: seq<nat>, ghost blocks: seq<Superblock>)
    requires Increasing(docs) && docs != [] && superblockBound > 0
    requires (forall u: int, n: nat :: f(u, n) >= 0.0) && Whole(f(1, 1)) && eps1 >= 0.0 && eps2 >= 0.0
    requires forall u: int, n: nat :: FinitelyMany(f(1, 1), f(u, n), eps1, eps2)
    ensures IsPartition(partition, |docs|)
    ensures if wholeIsCheap then partition == [|docs|]
            else SuperblocksOk(docs, universe, f, superblockBound, eps1, eps2, blocks, |docs|) && partition == Strung(blocks)
  {
    hide Increasing, IsPartition, Solved, Whole, SuperblocksOk, Strung, FinitelyMany;
    TrivialPartitions(|docs|);
    partition, blocks := [], [];
    if wholeIsCheap {
      return [|docs|], [];
    }
    NoSuperblocks(docs, universe, f, superblockBound, eps1, eps2);
    var pos: nat, base: nat := 0, docs[0];
    while pos < |docs|
      invariant pos <= |docs| && IsPartition(partition, pos)
      invariant SuperblocksOk(docs, universe, f, superblockBound, eps1, eps2, blocks, pos)
      invariant partition == Strung(blocks)
      invariant base == if blocks == [] then docs[0] else blocks[|blocks| - 1].universe
    {
      var size := if superblockBound < |docs| - pos then superblockBound else |docs| - pos;
      if |docs| - (pos + size) < superblockBound {
        size := |docs| - pos;
      }
      var last := docs[pos + size - 1];
      var superblockUniverse := if pos + size == |docs| then universe else last + 1;
      SliceIncreases(docs, pos, pos + size);
      var ends, costOpt;
      ghost var bounds;
      ends, costOpt, bounds := Partition(docs[pos..pos + size], base, superblockUniverse, f, eps1, eps2);
      SolvedIsPartition(docs[pos..pos + size], base, superblockUniverse, f, eps1, eps2, ends, costOpt, bounds);
      JoinedPartitions(partition, pos, ends, size);
      ghost var b := Superblock(pos, pos + size, base, superblockUniverse, ends, costOpt, bounds);
      OneMoreSuperblock(docs, universe, f, superblockBound, eps1, eps2, blocks, pos, b);
      partition := AppendShifted(partition, ends, pos);
      blocks := blocks + [b];
      pos := pos + size;
      base := superblockUniverse;
    }
  }

  lemma NoSuperblocks(docs: seq<nat>, universe: nat, f: CostFun, superblockBound: nat, eps1: real, eps2: real)
    requires docs != []
    ensures SuperblocksOk(docs, universe, f, superblockBound, eps1, eps2, [], 0) && Strung([]) == []
  {}

  /** Appends a superblock's endpoints, counted from the beginning of the list. */
  method AppendShifted(partition: seq<nat>, ends: seq<nat>, pos: nat) returns (r: seq<nat>)
    ensures r == partition + Shifted(ends, pos)
  {
    r := partition;
    for i := 0 to |ends|
      invariant r == partition + Shifted(ends, pos)[..i]
    {
      ShiftedStep(partition, ends, pos, i);
      r := r + [pos + ends[i]];
    }
    assert Shifted(ends, pos)[..|ends|] == Shifted(ends, pos);
  }

  lemma SliceIncreases(docs: seq<nat>, lo: nat, hi: nat)
    requires Increasing(docs) && lo <= hi <= |docs|
    ensures Increasing(docs[lo..hi])
  {}
}
