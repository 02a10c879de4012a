/** The costs the partitioner minimises are what the writer stores: a block is priced for the universe and the
    number of values its encoding is made for. */
module StoredCosts {
  import opened GlobalParameters
  import opened OptimalPartition
  import opened PartitionCosts
  import opened PartitionedSequences
  import opened Partitions
  import opened SortedLists
  import opened BitVectors
  import EF = EliasFano
  import IS = IndexedSequences
  import RB = RankedBitvector

  /** A block is priced for the stretch of numbers from behind the element in front of it up to its last element. */
  lemma BlockCostIs(docs: seq<nat>, base: nat, f: CostFun, i: nat, j: nat)
    requires i < j <= |docs|
    ensures BlockCost(docs, base, f)(i, j) == f(docs[j - 1] + 1 - (if i == 0 then base else docs[i - 1] + 1), j - i)
  {
    assert docs[j - 1] - Floor(docs, base, i) + 1 == docs[j - 1] + 1 - (if i == 0 then base else docs[i - 1] + 1);
  }

  /** The whole list, when the universe ends right behind its last element. */
  lemma WholeBlockCost(docs: seq<nat>, base: nat, universe: nat, f: CostFun)
    requires docs != [] && universe == docs[|docs| - 1] + 1
    ensures BlockCost(docs, base, f)(0, |docs|) == f(universe - base, |docs|)
  {
    BlockCostIs(docs, base, f, 0, |docs|);
  }

  /** A block of a partition is priced for exactly the universe and the number of values of its piece. */
  lemma BlockCostIsPieceCost(vals: seq<nat>, universe: nat, ends: seq<nat>, p: nat, f: CostFun)
    requires Cut(vals, universe, ends) && p < |ends|
    ensures BlockCost(vals, vals[0], f)(Begin(ends, p), ends[p])
         == f(PieceUniverse(vals, universe, ends, p), |Piece(vals, universe, ends, p)|)
  {
    hide Cut, Piece, BlockCost;
    CutFacts(vals, universe, ends, p);
    BaseFits(vals, universe, ends, p);
    var i, j := Begin(ends, p), ends[p];
    BlockCostIs(vals, vals[0], f, i, j);
    assert PieceUniverse(vals, universe, ends, p)
        == vals[j - 1] + 1 - (if i == 0 then vals[0] else vals[i - 1] + 1);
  }

  /** The cost function of the two-level format: the size of the cheapest encoding and a fixed cost per partition. */
  function StoreCost(params: Parameters, fixCost: nat): CostFun {
    (u: int, n: nat) => if u > 0 && n > 0 then (IS.BitSize(params, u, n) + fixCost) as real else 0.0
  }

  ghost function FixedCosts(count: nat, fixCost: nat): nat {
    count * fixCost
  }

  lemma FixedCostsMore(p: nat, fixCost: nat)
    ensures FixedCosts(p + 1, fixCost) == FixedCosts(p, fixCost) + fixCost
  {}

  /** The cost of the first count blocks is the number of bits their encodings take and the fixed costs. */
  lemma {:induction false} CostIsStoredBits(vals: seq<nat>, universe: nat, ends: seq<nat>, params: Parameters,
                                            fixCost: nat, count: nat)
    requires Cut(vals, universe, ends) && count <= |ends|
    ensures TotalCost(BlockCost(vals, vals[0], StoreCost(params, fixCost)), ends[..count])
         == (PiecesBits(vals, universe, ends, params, count) + FixedCosts(count, fixCost)) as real
  {
    hide Cut, Piece, PieceUniverse, IS.BitSize, BlockCost, Begin, PiecesBits, TotalCost, StoreCost,
         FixedCosts;
    NothingStored(vals, universe, ends, params, fixCost);
    var f := StoreCost(params, fixCost);
    var cost := BlockCost(vals, vals[0], f);
    if count == 0 {
    } else {
      var p := count - 1;
      CostIsStoredBits(vals, universe, ends, params, fixCost, p);
      BitsMore(vals, universe, ends, params, p);
      OneMoreCost(cost, ends, p);
      BlockCostIsPieceCost(vals, universe, ends, p, f);
      StoreCostIs(params, fixCost, PieceUniverse(vals, universe, ends, p), |Piece(vals, universe, ends, p)|);
      FixedCostsMore(p, fixCost);
    }
  }

  lemma {:induction false} NothingStored(vals: seq<nat>, universe: nat, ends: seq<nat>, params: Parameters,
                                         fixCost: nat)
    requires Cut(vals, universe, ends)
    ensures vals != [] && PiecesBits(vals, universe, ends, params, 0) == 0 && FixedCosts(0, fixCost) == 0
    ensures TotalCost(BlockCost(vals, vals[0], StoreCost(params, fixCost)), ends[..0]) == 0.0
  {}

  lemma {:induction false} OneMoreCost(cost: Cost, ends: seq<nat>, p: nat)
    requires p < |ends|
    ensures TotalCost(cost, ends[..p + 1]) == TotalCost(cost, ends[..p]) + cost(Begin(ends, p), ends[p])
  {
    assert ends[..p + 1][..p] == ends[..p];
  }

  lemma StoreCostIs(params: Parameters, fixCost: nat, u: nat, n: nat)
    requires u > 0 && n > 0
    ensures StoreCost(params, fixCost)(u, n) == (IS.BitSize(params, u, n) + fixCost) as real
  {
    hide IS.BitSize;
  }

  /** Among partitions, a cheaper one takes fewer bits, all fixed costs included. */
  lemma {:induction false} CheaperIsSmaller(vals: seq<nat>, universe: nat, a: seq<nat>, b: seq<nat>,
                                            params: Parameters, fixCost: nat)
    requires Cut(vals, universe, a) && Cut(vals, universe, b)
    ensures var cost := BlockCost(vals, vals[0], StoreCost(params, fixCost));
            TotalCost(cost, a) <= TotalCost(cost, b) <==>
              PiecesBits(vals, universe, a, params, |a|) + FixedCosts(|a|, fixCost) <=
              PiecesBits(vals, universe, b, params, |b|) + FixedCosts(|b|, fixCost)
  {
    hide Cut, BlockCost, PiecesBits, TotalCost, FixedCosts;
    assert a[..|a|] == a && b[..|b|] == b;
    CostIsStoredBits(vals, universe, a, params, fixCost, |a|);
    CostIsStoredBits(vals, universe, b, params, fixCost, |b|);
  }

  // ----- superblocks -----

  /** A block inside a superblock is priced as that block of the whole list. */
  lemma InsideSuperblock(docs: seq<nat>, base: nat, lo: nat, hi: nat, inner: nat, f: CostFun, i: nat, j: nat)
    requires lo <= hi <= |docs| && i < j <= hi - lo
    requires inner == if lo == 0 then base else docs[lo - 1] + 1
    ensures BlockCost(docs[lo..hi], inner, f)(i, j) == BlockCost(docs, base, f)(lo + i, lo + j)
  {
    BlockCostIs(docs[lo..hi], inner, f, i, j);
    BlockCostIs(docs, base, f, lo + i, lo + j);
  }

  /** Ends strung behind others add the costs of their own blocks. */
  lemma {:induction false} StrungOn(docs: seq<nat>, base: nat, before: seq<nat>, lo: nat, hi: nat, inner: nat,
                                    f: CostFun, ends: seq<nat>, count: nat)
    requires lo <= hi <= |docs| && IsPartition(before, lo) && IsPartition(ends, hi - lo) && count <= |ends|
    requires inner == if lo == 0 then base else docs[lo - 1] + 1
    ensures TotalCost(BlockCost(docs, base, f), before + Shifted(ends, lo)[..count])
         == TotalCost(BlockCost(docs, base, f), before) + TotalCost(BlockCost(docs[lo..hi], inner, f), ends[..count])
  {
    hide BlockCost, IsPartition;
    var cost, own := BlockCost(docs, base, f), BlockCost(docs[lo..hi], inner, f);
    var moved := Shifted(ends, lo);
    if count == 0 {
      assert before + moved[..0] == before;
    } else {
      var p := count - 1;
      StrungOn(docs, base, before, lo, hi, inner, f, ends, p);
      OneMoreCost(own, ends, p);
      var all := before + moved[..count];
      assert all[..|all| - 1] == before + moved[..p];
      BlockInside(before, lo, ends, hi - lo, p);
      InsideSuperblock(docs, base, lo, hi, inner, f, Begin(ends, p), ends[p]);
      assert all[|all| - 1] == lo + ends[p];
      assert Begin(all, |all| - 1) == lo + Begin(ends, p);
    }
  }

  lemma BlockInside(before: seq<nat>, lo: nat, ends: seq<nat>, size: nat, p: nat)
    requires IsPartition(before, lo) && IsPartition(ends, size) && p < |ends|
    ensures Begin(ends, p) < ends[p] <= size
    ensures if before == [] then lo == 0 else before[|before| - 1] == lo
  {
    EndsAscend(ends, size, p, p);
    assert ProperBlock(ends, p);
  }

  /** What the superblocks' solutions cost, added up. */
  ghost function SolvedCosts(blocks: seq<Superblock>): real {
    if blocks == [] then 0.0 else SolvedCosts(blocks[..|blocks| - 1]) + blocks[|blocks| - 1].cost
  }

  /** Where the universe ends right behind the last element, the partition strung together from the superblocks' is a
      partition of the whole and costs exactly what their solutions do, added up. */
  lemma {:induction false} StrungCost(docs: seq<nat>, universe: nat, f: CostFun, superblockBound: nat, eps1: real,
                                      eps2: real, blocks: seq<Superblock>, pos: nat)
    requires docs != [] && universe == docs[|docs| - 1] + 1
    requires SuperblocksOk(docs, universe, f, superblockBound, eps1, eps2, blocks, pos)
    ensures pos <= |docs| && IsPartition(Strung(blocks), pos)
    ensures TotalCost(BlockCost(docs, docs[0], f), Strung(blocks)) == SolvedCosts(blocks)
  {
    hide BlockCost, Solved, IsPartition, Shifted;
    if blocks == [] {
      NoBlocksCost(BlockCost(docs, docs[0], f));
    } else {
      var rest, b := blocks[..|blocks| - 1], blocks[|blocks| - 1];
      WithoutLast(docs, universe, f, superblockBound, eps1, eps2, blocks, pos);
      StrungCost(docs, universe, f, superblockBound, eps1, eps2, rest, b.lo);
      SolvedCost(docs[b.lo..b.hi], b.base, b.universe, f, eps1, eps2, b.ends, b.cost, b.bounds);
      JoinedPartitions(Strung(rest), b.lo, b.ends, b.hi - b.lo);
      StrungOn(docs, docs[0], Strung(rest), b.lo, b.hi, b.base, f, b.ends, |b.ends|);
      AllOf(b.ends, b.lo);
    }
  }

  lemma AllOf(ends: seq<nat>, lo: nat)
    ensures Shifted(ends, lo)[..|ends|] == Shifted(ends, lo) && ends[..|ends|] == ends
  {}

  lemma NoBlocksCost(cost: Cost)
    ensures TotalCost(cost, Strung([])) == SolvedCosts([]) && IsPartition(Strung([]), 0)
  {}

  /** The last superblock follows the others and is measured tightly. */
  lemma WithoutLast(docs: seq<nat>, universe: nat, f: CostFun, superblockBound: nat, eps1: real, eps2: real,
                    blocks: seq<Superblock>, pos: nat)
    requires docs != [] && universe == docs[|docs| - 1] + 1 && blocks != []
    requires SuperblocksOk(docs, universe, f, superblockBound, eps1, eps2, blocks, pos)
    ensures var rest, b := blocks[..|blocks| - 1], blocks[|blocks| - 1];
            && SuperblocksOk(docs, universe, f, superblockBound, eps1, eps2, rest, b.lo)
            && b.lo < b.hi == pos <= |docs| && b.universe == docs[pos - 1] + 1
            && b.base == (if b.lo == 0 then docs[0] else docs[b.lo - 1] + 1)
            && Solved(docs[b.lo..b.hi], b.base, b.universe, f, eps1, eps2, b.ends, b.cost, b.bounds)
  {
    hide Solved;
    var n := |blocks|;
    var rest, b := blocks[..n - 1], blocks[n - 1];
    assert SuperblockOk(docs, universe, f, superblockBound, eps1, eps2, blocks, n - 1);
    if n > 1 {
      assert SuperblockOk(docs, universe, f, superblockBound, eps1, eps2, blocks, n - 2);
    }
    forall k | 0 <= k < |rest| ensures SuperblockOk(docs, universe, f, superblockBound, eps1, eps2, rest, k) {
      assert SuperblockOk(docs, universe, f, superblockBound, eps1, eps2, blocks, k);
    }
  }

  /** A solution's cost is that of its partition, where the universe is tight. */
  lemma {:induction false} SolvedCost(docs: seq<nat>, base: nat, universe: nat, f: CostFun, eps1: real, eps2: real,
                                      ends: seq<nat>, cost: real, bounds: seq<real>)
    requires Solved(docs, base, universe, f, eps1, eps2, ends, cost, bounds)
    requires docs != [] && universe == docs[|docs| - 1] + 1
    ensures IsPartition(ends, |docs|) && cost == TotalCost(BlockCost(docs, base, f), ends)
  {
    hide BlockCost, Ascending, BoundsListed, CheapestInto;
    if ends == [|docs|] {
      WholeBlockCost(docs, base, universe, f);
      assert ends[..0] == [] && Begin(ends, 0) == 0;
      assert TotalCost(BlockCost(docs, base, f), []) == 0.0;
    }
  }

  // ----- partitioning and writing -----

  lemma PricesAreSound(params: Parameters, fixCost: nat)
    ensures var f := StoreCost(params, fixCost); forall u: int, n: nat :: f(u, n) >= 0.0
    ensures StoreCost(params, fixCost)(1, 1) == fixCost as real && Whole(StoreCost(params, fixCost)(1, 1))
  {
    hide EF.BitSize, RB.BitSize;
  }

  /** The writer with its partitioner: one partition for a list that takes less than two fixed costs as a whole,
      else the partition found in superblocks; the bits hold the list in that partition. Where the universe is
      tight, the partitions' own bits and their fixed costs are what the superblocks' solutions cost together. */
  method WritePartitioned(bvb: BitVectorBuilder, vals: seq<nat>, universe: nat, params: Parameters, fixCost: nat,
                          superblockBound: nat, eps1: real, eps2: real)
    returns (ends: seq<nat>, ghost plan: Plan, ghost blocks: seq<Superblock>)
    requires vals != [] && Increasing(vals) && AllBelow(vals, universe) && superblockBound > 0
    requires eps1 >= 0.0 && eps2 >= 0.0
    requires forall u: int, n: nat :: FinitelyMany(fixCost as real, StoreCost(params, fixCost)(u, n), eps1, eps2)
    modifies bvb
    ensures Cut(vals, universe, ends) && old(bvb.bits) <= bvb.bits
    ensures Stored(bvb.bits, |old(bvb.bits)|, universe, params, vals, ends, plan)
    ensures |bvb.bits| == |old(bvb.bits)| + EncodedBits(vals, universe, ends, params)
    ensures universe > 0
    ensures IS.BitSize(params, universe, |vals|) < 2 * fixCost ==> ends == [|vals|]
    ensures IS.BitSize(params, universe, |vals|) >= 2 * fixCost ==>
              && ends == Strung(blocks)
              && SuperblocksOk(vals, universe, StoreCost(params, fixCost), superblockBound, eps1, eps2, blocks, |vals|)
              && (universe == vals[|vals| - 1] + 1 ==>
                    SolvedCosts(blocks) ==
                      (PiecesBits(vals, universe, ends, params, |ends|) + FixedCosts(|ends|, fixCost)) as real)
  {
    hide Increasing, StoreCost, IS.BitSize, Stored, EncodedBits, Strung, SuperblocksOk, FinitelyMany, PiecesBits,
         BlockCost, TotalCost, FixedCosts, IsPartition, Whole, AllBelow;
    assert universe > 0 by { SomeUniverse(vals, universe); }
    PricesAreSound(params, fixCost);
    var f := StoreCost(params, fixCost);
    ends, blocks := ComputePartition(vals, universe, f, IS.BitSize(params, universe, |vals|) < 2 * fixCost,
                                     superblockBound, eps1, eps2);
    plan := Write(bvb, vals, universe, ends, params);
    if IS.BitSize(params, universe, |vals|) >= 2 * fixCost && universe == vals[|vals| - 1] + 1 {
      StrungCost(vals, universe, f, superblockBound, eps1, eps2, blocks, |vals|);
      CostIsStoredBits(vals, universe, ends, params, fixCost, |ends|);
      assert ends[..|ends|] == ends;
    }
  }

  lemma SomeUniverse(vals: seq<nat>, universe: nat)
    requires vals != [] && AllBelow(vals, universe)
    ensures universe > 0
  {
    assert vals[0] < universe;
  }
}
