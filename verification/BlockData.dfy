/** The block-max data stored for a posting list: what a partition of the list into blocks records,
    `static_block_partition`, and the builder that lays the blocks of all lists out in flat vectors. */
module BlockData {
  import opened PartitionCosts
  import opened Postings
  import opened SortedLists
  import Arith

  /** Parallel vectors, one entry per block. */
  datatype Blocks = Blocks(sizes: seq<nat>, docids: seq<nat>, maxValues: seq<real>, maxWeights: seq<real>)

  ghost predicate IsMax(s: seq<real>, lo: nat, hi: nat, m: real)
    requires hi <= |s|
  {
    (forall k :: lo <= k < hi ==> s[k] <= m) && exists k :: lo <= k < hi && s[k] == m
  }

  /** The boundary stored for a block: one before the next block's first document, or the last document. */
  ghost function Boundary(docs: seq<nat>, ends: seq<nat>, b: nat): int
    requires docs != [] && b < |ends|
  {
    if b + 1 < |ends| && ends[b] < |docs| then docs[ends[b]] as int - 1 else docs[|docs| - 1] as int
  }

  /** The recorded data is that of the blocks with the given ends. */
  ghost predicate Records(docs: seq<nat>, scores: seq<real>, weights: seq<real>, ends: seq<nat>, blocks: Blocks) {
    && docs != [] && |scores| == |weights| == |docs| && IsPartition(ends, |docs|)
    && |blocks.sizes| == |blocks.docids| == |blocks.maxValues| == |blocks.maxWeights| == |ends|
    && forall b :: 0 <= b < |ends| ==> RecordsBlock(docs, scores, weights, ends, blocks, b)
  }

  ghost predicate RecordsBlock(docs: seq<nat>, scores: seq<real>, weights: seq<real>, ends: seq<nat>, blocks: Blocks,
                               b: nat)
    requires docs != [] && |scores| == |weights| == |docs| && b < |ends|
    requires |blocks.sizes| == |blocks.docids| == |blocks.maxValues| == |blocks.maxWeights| == |ends|
  {
    && ends[b] <= |docs|
    && blocks.sizes[b] == ends[b] - Begin(ends, b)
    && blocks.docids[b] == Boundary(docs, ends, b)
    && IsMax(scores, Begin(ends, b), ends[b], blocks.maxValues[b])
    && IsMax(weights, Begin(ends, b), ends[b], blocks.maxWeights[b])
  }

  /** Every element lies in exactly one block. */
  lemma {:induction false} BlockOf(ends: seq<nat>, size: nat, i: nat, n: nat) returns (b: nat)
    requires IsPartition(ends, size) && n < |ends| && i < ends[n]
    ensures b <= n && Begin(ends, b) <= i < ends[b]
    decreases n
  {
    if n > 0 && i < ends[n - 1] {
      b := BlockOf(ends, size, i, n - 1);
    } else {
      b := n;
    }
  }

  /** A boundary is at or after every document of its block and before the next block's first. */
  lemma BoundarySeparates(docs: seq<nat>, ends: seq<nat>, b: nat, i: nat)
    requires Increasing(docs) && docs != [] && IsPartition(ends, |docs|) && b < |ends| && i < |docs|
    ensures i < ends[b] ==> docs[i] <= Boundary(docs, ends, b)
    ensures i >= ends[b] ==> Boundary(docs, ends, b) < docs[i]
  {
    EndsAscend(ends, |docs|, b, b);
    if b + 1 < |ends| {
      OrderedIndices(docs, i, ends[b]);
    } else {
      OrderedIndices(docs, i, |docs| - 1);
    }
  }

  /** Recorded blocks are sound for pruning: boundaries increase, the last covers the list, and each
      maximum bounds what lies between the previous boundary and its own. */
  lemma RecordedBlocksSound(docs: seq<nat>, scores: seq<real>, weights: seq<real>, ends: seq<nat>, blocks: Blocks)
    requires Increasing(docs) && Records(docs, scores, weights, ends, blocks)
    requires forall i :: 0 <= i < |scores| ==> scores[i] >= 0.0
    ensures BlocksSound(docs, scores, blocks.docids, blocks.maxValues)
    ensures forall b :: 0 <= b < |blocks.docids| ==> blocks.docids[b] <= docs[|docs| - 1]
  {
    var last, bd, bm := blocks.docids, blocks.docids, blocks.maxValues;
    forall b | 0 <= b < |ends| ensures bm[b] >= 0.0 && bd[b] == Boundary(docs, ends, b) && bd[b] <= docs[|docs| - 1] {
      assert RecordsBlock(docs, scores, weights, ends, blocks, b);
      EndsAscend(ends, |docs|, b, b);
      if b + 1 < |ends| { OrderedIndices(docs, ends[b], |docs| - 1); }
    }
    forall a, b | 0 <= a < b < |bd| ensures bd[a] < bd[b] {
      EndsAscend(ends, |docs|, a, b);
      EndsAscend(ends, |docs|, a, a);
      BoundarySeparates(docs, ends, a, ends[a]);
      BoundarySeparates(docs, ends, b, ends[a]);
    }
    forall i | 0 <= i < |docs| ensures docs[i] <= bd[|bd| - 1] {
      BoundarySeparates(docs, ends, |ends| - 1, i);
    }
    forall i, b | 0 <= i < |docs| && 0 <= b < |bd| && WithinBlock(docs, bd, i, b)
      ensures scores[i] <= bm[b]
    {
      PostingInBlock(docs, ends, bd, b, i);
      assert RecordsBlock(docs, scores, weights, ends, blocks, b);
    }
  }

  lemma PostingInBlock(docs: seq<nat>, ends: seq<nat>, bd: seq<nat>, b: nat, i: nat)
    requires Increasing(docs) && docs != [] && IsPartition(ends, |docs|) && b < |ends| == |bd| && i < |docs|
    requires forall x :: 0 <= x < |ends| ==> bd[x] == Boundary(docs, ends, x)
    requires docs[i] <= bd[b] && (b == 0 || bd[b - 1] < docs[i])
    ensures Begin(ends, b) <= i < ends[b]
  {
    BoundarySeparates(docs, ends, b, i);
    if b > 0 {
      BoundarySeparates(docs, ends, b - 1, i);
    }
  }

  // ----- static blocks -----

  /** The ends of blocks of a fixed size, over the first n elements: every full block but the last. */
  ghost function FullEnds(blockSize: nat, count: nat): seq<nat> {
    seq(count, b requires 0 <= b < count => (b + 1) * blockSize)
  }

  lemma FullEndsPartition(blockSize: nat, count: nat, size: nat)
    requires blockSize > 0 && count * blockSize < size <= (count + 1) * blockSize
    ensures IsPartition(FullEnds(blockSize, count) + [size], size)
  {
    var ends := FullEnds(blockSize, count) + [size];
    forall b | 0 <= b < |ends| ensures ProperBlock(ends, b) {
      if b == 0 {
      } else {
        assert ends[b - 1] == b * blockSize;
      }
    }
  }

  function Larger(x: real, y: real): real {
    if x < y then y else x
  }

  /** While scanning element i: the finished blocks are recorded, the running maxima are those of the
      block being scanned. */
  ghost predicate Scanning(docs: seq<nat>, scores: seq<real>, weights: seq<real>, blockSize: nat, blocks: Blocks,
                           current: nat, i: nat, maxScore: real, maxWeight: real) {
    && docs != [] && |scores| == |weights| == |docs| && 0 < i <= |docs|
    && |blocks.sizes| == |blocks.docids| == |blocks.maxValues| == |blocks.maxWeights| == current
    && blockSize > 0 && current * blockSize < i <= (current + 1) * blockSize
    && (forall b :: 0 <= b < current ==> ScannedBlock(docs, scores, weights, blockSize, blocks, b))
    && IsMax(scores, current * blockSize, i, maxScore)
    && IsMax(weights, current * blockSize, i, maxWeight)
  }

  ghost predicate ScannedBlock(docs: seq<nat>, scores: seq<real>, weights: seq<real>, blockSize: nat, blocks: Blocks,
                               b: nat)
    requires |scores| == |weights| == |docs|
    requires b < |blocks.sizes| == |blocks.docids| == |blocks.maxValues| == |blocks.maxWeights|
  {
    && (b + 1) * blockSize < |docs|
    && blocks.sizes[b] == blockSize
    && blocks.docids[b] == docs[(b + 1) * blockSize] as int - 1
    && IsMax(scores, b * blockSize, (b + 1) * blockSize, blocks.maxValues[b])
    && IsMax(weights, b * blockSize, (b + 1) * blockSize, blocks.maxWeights[b])
  }

  lemma ExtendMax(s: seq<real>, lo: nat, hi: nat, m: real)
    requires hi < |s| && lo <= hi && IsMax(s, lo, hi, m)
    ensures IsMax(s, lo, hi + 1, Larger(m, s[hi]))
  {
    if m < s[hi] {
      assert s[hi] == Larger(m, s[hi]);
    } else {
      var k :| lo <= k < hi && s[k] == m;
      assert lo <= k < hi + 1 && s[k] == Larger(m, s[hi]);
    }
  }

  lemma StartMax(s: seq<real>, lo: nat)
    requires lo < |s|
    ensures IsMax(s, lo, lo + 1, s[lo])
  {
    assert s[lo] == s[lo];
  }

  lemma SameBlockStep(docs: seq<nat>, scores: seq<real>, weights: seq<real>, blockSize: nat, blocks: Blocks,
                      current: nat, i: nat, maxScore: real, maxWeight: real)
    requires Scanning(docs, scores, weights, blockSize, blocks, current, i, maxScore, maxWeight)
    requires i < |docs| && i / blockSize == current
    ensures Scanning(docs, scores, weights, blockSize, blocks, current, i + 1, Larger(maxScore, scores[i]),
                     Larger(maxWeight, weights[i]))
  {
    Arith.DivisionRange(i, blockSize);
    ExtendMax(scores, current * blockSize, i, maxScore);
    ExtendMax(weights, current * blockSize, i, maxWeight);
  }

  lemma NewBlockStep(docs: seq<nat>, scores: seq<real>, weights: seq<real>, blockSize: nat, blocks: Blocks,
                     current: nat, i: nat, maxScore: real, maxWeight: real)
    requires Scanning(docs, scores, weights, blockSize, blocks, current, i, maxScore, maxWeight)
    requires i < |docs| && i / blockSize != current && docs[i] > 0
    ensures i == (current + 1) * blockSize
    ensures Scanning(docs, scores, weights, blockSize,
                     Blocks(blocks.sizes + [blockSize], blocks.docids + [docs[i] - 1], blocks.maxValues + [maxScore],
                            blocks.maxWeights + [maxWeight]),
                     current + 1, i + 1, scores[i], weights[i])
  {
    LeavesBlock(i, blockSize, current);
    StartMax(scores, i);
    StartMax(weights, i);
    var after := Blocks(blocks.sizes + [blockSize], blocks.docids + [docs[i] - 1], blocks.maxValues + [maxScore],
                        blocks.maxWeights + [maxWeight]);
    forall b | 0 <= b < current + 1 ensures ScannedBlock(docs, scores, weights, blockSize, after, b) {
      if b < current {
        assert ScannedBlock(docs, scores, weights, blockSize, blocks, b);
      }
    }
    assert (current + 1) * blockSize < i + 1 <= (current + 2) * blockSize;
  }

  /** Leaving the current block means standing exactly at the next one. */
  lemma LeavesBlock(i: nat, n: nat, c: nat)
    requires n > 0 && c * n < i <= (c + 1) * n && i / n != c
    ensures i == (c + 1) * n
  {
    if i < (c + 1) * n {
      Arith.DivUnique(i, n, c);
    }
  }

  lemma FinishedRecords(docs: seq<nat>, scores: seq<real>, weights: seq<real>, blockSize: nat, blocks: Blocks,
                        current: nat, maxScore: real, maxWeight: real, tail: nat)
    requires Scanning(docs, scores, weights, blockSize, blocks, current, |docs|, maxScore, maxWeight)
    requires tail == |docs| - current * blockSize
    ensures Records(docs, scores, weights, FullEnds(blockSize, current) + [|docs|],
                    Blocks(blocks.sizes + [tail], blocks.docids + [docs[|docs| - 1]], blocks.maxValues + [maxScore],
                           blocks.maxWeights + [maxWeight]))
  {
    var ends := FullEnds(blockSize, current) + [|docs|];
    var all := Blocks(blocks.sizes + [tail], blocks.docids + [docs[|docs| - 1]], blocks.maxValues + [maxScore],
                      blocks.maxWeights + [maxWeight]);
    FullEndsPartition(blockSize, current, |docs|);
    forall b | 0 <= b < |ends| ensures RecordsBlock(docs, scores, weights, ends, all, b) {
      assert Begin(ends, b) == b * blockSize;
      if b < current {
        assert ScannedBlock(docs, scores, weights, blockSize, blocks, b);
        assert ends[b] == (b + 1) * blockSize;
        assert (b + 1) * blockSize - b * blockSize == blockSize;
      }
    }
  }

  lemma TailSize(n: nat, blockSize: nat, current: nat)
    requires blockSize > 0 && current * blockSize < n <= (current + 1) * blockSize
    ensures (if n % blockSize != 0 then n % blockSize else blockSize) == n - current * blockSize
  {
    if n < (current + 1) * blockSize {
      Arith.DivUnique(n, blockSize, current);
    } else {
      Arith.DivUnique(n, blockSize, current + 1);
    }
  }

  /** The ends of blocks of a fixed size over n elements; the last one may be short. */
  ghost function StaticEnds(blockSize: nat, n: nat): seq<nat>
    requires blockSize > 0 && n > 0
  {
    FullEnds(blockSize, (n - 1) / blockSize) + [n]
  }

  /** Block k ends at (k + 1) * blockSize, the last one at n. */
  lemma StaticEndsAre(blockSize: nat, n: nat)
    requires blockSize > 0 && n > 0
    ensures var ends := StaticEnds(blockSize, n);
            && (|ends| - 1) * blockSize < n <= |ends| * blockSize
            && ends[|ends| - 1] == n
            && forall k :: 0 <= k < |ends| - 1 ==> ends[k] == (k + 1) * blockSize
  {
    Arith.DivisionRange(n - 1, blockSize);
  }

  /** What is recorded of a block: its size; its boundary, one before the next block's first document or the last
      document; and the largest score and weight in it. */
  lemma RecordsAre(docs: seq<nat>, scores: seq<real>, weights: seq<real>, ends: seq<nat>, blocks: Blocks, b: nat)
    returns (begin: nat)
    requires Records(docs, scores, weights, ends, blocks) && b < |ends|
    ensures |blocks.sizes| == |blocks.docids| == |blocks.maxValues| == |blocks.maxWeights| == |ends|
    ensures begin == (if b == 0 then 0 else ends[b - 1]) < ends[b] <= |docs| == |scores| == |weights|
    ensures blocks.sizes[b] == ends[b] - begin && (b + 1 == |ends| <==> ends[b] == |docs|)
    ensures blocks.docids[b] == if ends[b] < |docs| then docs[ends[b]] as int - 1 else docs[|docs| - 1]
    ensures forall k :: begin <= k < ends[b] ==> scores[k] <= blocks.maxValues[b] && weights[k] <= blocks.maxWeights[b]
    ensures blocks.maxValues[b] in scores[begin..ends[b]] && blocks.maxWeights[b] in weights[begin..ends[b]]
  {
    begin := Begin(ends, b);
    assert ProperBlock(ends, b) && RecordsBlock(docs, scores, weights, ends, blocks, b);
    EndsAscend(ends, |docs|, b, b);
    AttainedIn(scores, begin, ends[b], blocks.maxValues[b]);
    AttainedIn(weights, begin, ends[b], blocks.maxWeights[b]);
  }

  lemma AttainedIn(s: seq<real>, lo: nat, hi: nat, m: real)
    requires hi <= |s| && IsMax(s, lo, hi, m)
    ensures lo < hi && m in s[lo..hi]
  {
    var k :| lo <= k < hi && s[k] == m;
    assert s[lo..hi][k - lo] == m;
  }

  /** Fixed-size blocks: every `blockSize` postings, a boundary and the maxima. */
  method StaticBlockPartition(docs: seq<nat>, scores: seq<real>, weights: seq<real>, blockSize: nat)
    returns (blocks: Blocks)
    requires Increasing(docs) && docs != [] && |scores| == |weights| == |docs| && blockSize > 0
    requires forall i :: 0 <= i < |scores| ==> scores[i] >= 0.0
    ensures Records(docs, scores, weights, StaticEnds(blockSize, |docs|), blocks)
  {
    hide ScannedBlock, IsMax, Scanning;
    var sizes, docids, maxValues, maxWeights := [], [], [], [];
    // scanning the first posting: the running maxima start from 0 and from the lowest float
    var blockMaxScore := Larger(0.0, scores[0]);
    var blockMaxWeight := weights[0];
    var currentBlock := 0;
    FirstScanned(docs, scores, weights, blockSize);
    for i := 1 to |docs|
      invariant currentBlock >= 0
      invariant Scanning(docs, scores, weights, blockSize, Blocks(sizes, docids, maxValues, maxWeights), currentBlock,
                         i, blockMaxScore, blockMaxWeight)
    {
      if i / blockSize == currentBlock {
        SameBlockStep(docs, scores, weights, blockSize, Blocks(sizes, docids, maxValues, maxWeights), currentBlock, i,
                      blockMaxScore, blockMaxWeight);
        blockMaxScore := Larger(blockMaxScore, scores[i]);
        blockMaxWeight := Larger(blockMaxWeight, weights[i]);
      } else {
        assert docs[0] < docs[i];
        NewBlockStep(docs, scores, weights, blockSize, Blocks(sizes, docids, maxValues, maxWeights), currentBlock, i,
                     blockMaxScore, blockMaxWeight);
        docids := docids + [docs[i] - 1];
        maxValues := maxValues + [blockMaxScore];
        maxWeights := maxWeights + [blockMaxWeight];
        currentBlock := currentBlock + 1;
        blockMaxScore := Larger(0.0, scores[i]);
        blockMaxWeight := weights[i];
        sizes := sizes + [blockSize];
      }
    }
    ScanningRange(docs, scores, weights, blockSize, Blocks(sizes, docids, maxValues, maxWeights), currentBlock, |docs|,
                  blockMaxScore, blockMaxWeight);
    TailSize(|docs|, blockSize, currentBlock);
    var tail := if |docs| % blockSize != 0 then |docs| % blockSize else blockSize;
    FinishedRecords(docs, scores, weights, blockSize, Blocks(sizes, docids, maxValues, maxWeights), currentBlock,
                    blockMaxScore, blockMaxWeight, tail);
    Arith.DivUnique(|docs| - 1, blockSize, currentBlock);
    blocks := Blocks(sizes + [tail], docids + [docs[|docs| - 1]], maxValues + [blockMaxScore],
                     maxWeights + [blockMaxWeight]);
  }

  lemma FirstScanned(docs: seq<nat>, scores: seq<real>, weights: seq<real>, blockSize: nat)
    requires docs != [] && |scores| == |weights| == |docs| && blockSize > 0 && scores[0] >= 0.0
    ensures Scanning(docs, scores, weights, blockSize, Blocks([], [], [], []), 0, 1, Larger(0.0, scores[0]), weights[0])
  {
    StartMax(scores, 0);
    StartMax(weights, 0);
  }

  lemma ScanningRange(docs: seq<nat>, scores: seq<real>, weights: seq<real>, blockSize: nat, blocks: Blocks,
                      current: nat, i: nat, maxScore: real, maxWeight: real)
    requires Scanning(docs, scores, weights, blockSize, blocks, current, i, maxScore, maxWeight)
    ensures blockSize > 0 && current * blockSize < i <= (current + 1) * blockSize
  {}
}
