/** `wand_data_raw`: the builder that appends every list's blocks to flat vectors, the enumerator that
    reads one list's blocks back, and why the stored bounds are sound for the query algorithms. */
module WandData {
  import opened Postings
  import opened BlockData
  import opened ScoredEnums

  /** A list's blocks, parallel and not empty. */
  ghost predicate Parallel(b: Blocks) {
    |b.docids| == |b.maxValues| == |b.maxWeights| > 0
  }

  class Builder {
    var blocksStart: seq<nat>
    var blockDocid: seq<nat>
    var blockMaxTermWeight: seq<real>
    var blockMaxDocumentWeight: seq<real>
    /** The lists added so far. */
    ghost var lists: seq<Blocks>

    ghost predicate Valid()
      reads this
    {
      && |blocksStart| == |lists| + 1 && blocksStart[0] == 0
      && |blockDocid| == |blockMaxTermWeight| == |blockMaxDocumentWeight| == blocksStart[|lists|]
      && forall l :: 0 <= l < |lists| ==> ListStored(l)
    }

    /** List l occupies the flat vectors from its start to the next list's. */
    ghost predicate ListStored(l: nat)
      requires |blocksStart| == |lists| + 1 && |blockDocid| == |blockMaxTermWeight| == |blockMaxDocumentWeight|
      requires l < |lists|
      reads this
    {
      && Parallel(lists[l]) && blocksStart[l] + |lists[l].docids| == blocksStart[l + 1] <= |blockDocid|
      && blockDocid[blocksStart[l]..blocksStart[l + 1]] == lists[l].docids
      && blockMaxTermWeight[blocksStart[l]..blocksStart[l + 1]] == lists[l].maxValues
      && blockMaxDocumentWeight[blocksStart[l]..blocksStart[l + 1]] == lists[l].maxWeights
    }

    constructor ()
      ensures Valid() && lists == []
    {
      blocksStart, blockDocid, blockMaxTermWeight, blockMaxDocumentWeight := [0], [], [], [];
      lists := [];
    }

    /** Appends a list's blocks and returns the largest of each kind of bound. */
    method AddSequence(blocks: Blocks) returns (maxTermWeight: real, maxDocumentWeight: real)
      requires Valid() && Parallel(blocks)
      modifies this
      ensures Valid() && lists == old(lists) + [blocks]
      ensures IsMax(blocks.maxValues, 0, |blocks.maxValues|, maxTermWeight)
      ensures IsMax(blocks.maxWeights, 0, |blocks.maxWeights|, maxDocumentWeight)
    {
      label before:
      var start := blocksStart[|blocksStart| - 1];
      blockMaxTermWeight := blockMaxTermWeight + blocks.maxValues;
      blockDocid := blockDocid + blocks.docids;
      maxTermWeight := Largest(blocks.maxValues);
      blocksStart := blocksStart + [|blocks.docids| + start];
      blockMaxDocumentWeight := blockMaxDocumentWeight + blocks.maxWeights;
      maxDocumentWeight := Largest(blocks.maxWeights);
      lists := lists + [blocks];
      forall l | 0 <= l < |lists| ensures ListStored(l) {
        if l < |lists| - 1 {
          assert old@before(ListStored(l));
          SliceOfLonger(old(blockDocid), blocks.docids, blocksStart[l], blocksStart[l + 1]);
          SliceOfLonger(old(blockMaxTermWeight), blocks.maxValues, blocksStart[l], blocksStart[l + 1]);
          SliceOfLonger(old(blockMaxDocumentWeight), blocks.maxWeights, blocksStart[l], blocksStart[l + 1]);
        }
      }
    }

    /** `get_enum`: a cursor over the blocks of list l. */
    method GetEnum(l: nat) returns (e: Enumerator)
      requires Valid() && l < |lists|
      ensures e.Valid(lists[l]) && e.curPos == 0
    {
      assert ListStored(l);
      e := new Enumerator(blocksStart[l], blocksStart[l + 1] - blocksStart[l], blockMaxTermWeight,
                          blockMaxDocumentWeight, blockDocid);
    }
  }

  lemma SliceOfLonger<T>(s: seq<T>, t: seq<T>, lo: nat, hi: nat)
    requires lo <= hi <= |s|
    ensures (s + t)[lo..hi] == s[lo..hi]
  {}

  method Largest(s: seq<real>) returns (m: real)
    requires s != []
    ensures IsMax(s, 0, |s|, m)
  {
    m := s[0];
    StartMax(s, 0);
    for i := 1 to |s|
      invariant IsMax(s, 0, i, m)
    {
      ExtendMax(s, 0, i, m);
      m := Larger(m, s[i]);
    }
  }

  /** A cursor over one list's stretch of the shared vectors. */
  class Enumerator {
    const blockStart: nat
    const blockNumber: nat
    const maxTermWeight: seq<real>
    const maxDocumentWeight: seq<real>
    const blockDocid: seq<nat>
    var curPos: nat

    ghost predicate Valid(blocks: Blocks)
      reads this
    {
      && Parallel(blocks) && blockNumber == |blocks.docids| && curPos < blockNumber
      && blockStart + blockNumber <= |blockDocid| == |maxTermWeight| == |maxDocumentWeight|
      && blockDocid[blockStart..blockStart + blockNumber] == blocks.docids
      && maxTermWeight[blockStart..blockStart + blockNumber] == blocks.maxValues
      && maxDocumentWeight[blockStart..blockStart + blockNumber] == blocks.maxWeights
    }

    constructor (blockStart: nat, blockNumber: nat, maxTermWeight: seq<real>, maxDocumentWeight: seq<real>,
                 blockDocid: seq<nat>)
      ensures this.blockStart == blockStart && this.blockNumber == blockNumber && curPos == 0
      ensures this.maxTermWeight == maxTermWeight
      ensures this.maxDocumentWeight == maxDocumentWeight && this.blockDocid == blockDocid
    {
      this.blockStart, this.blockNumber := blockStart, blockNumber;
      this.maxTermWeight, this.maxDocumentWeight, this.blockDocid := maxTermWeight, maxDocumentWeight, blockDocid;
      curPos := 0;
    }

    /** Moves exactly as the query algorithms' block cursors do on the list's own boundaries. */
    method NextGeq(lowerBound: nat, ghost blocks: Blocks)
      requires Valid(blocks)
      modifies this
      ensures Valid(blocks) && curPos == SeekBlock(blocks.docids, old(curPos), lowerBound)
    {
      while curPos + 1 < blockNumber && blockDocid[blockStart + curPos] < lowerBound
        invariant Valid(blocks)
        invariant SeekBlock(blocks.docids, curPos, lowerBound) == SeekBlock(blocks.docids, old(curPos), lowerBound)
        decreases blockNumber - curPos
      {
        assert blockDocid[blockStart + curPos] == blocks.docids[curPos];
        curPos := curPos + 1;
      }
      assert blockDocid[blockStart + curPos] == blocks.docids[curPos];
    }

    method Score(ghost blocks: Blocks) returns (s: real)
      requires Valid(blocks)
      ensures s == blocks.maxValues[curPos]
    {
      s := maxTermWeight[blockStart + curPos];
      assert s == maxTermWeight[blockStart..blockStart + blockNumber][curPos];
    }

    method Docid(ghost blocks: Blocks) returns (d: nat)
      requires Valid(blocks)
      ensures d == blocks.docids[curPos]
    {
      d := blockDocid[blockStart + curPos];
      assert d == blockDocid[blockStart..blockStart + blockNumber][curPos];
    }
  }

  /** The weights of a list's documents, as the partitioners see them. */
  ghost function WeightsOf(q: Query, docs: seq<nat>): seq<real>
    requires |q.docWeight| == q.numDocs && forall i :: 0 <= i < |docs| ==> docs[i] < q.numDocs
  {
    seq(|docs|, i requires 0 <= i < |docs| => q.docWeight[docs[i]])
  }

  /** A term whose bounds were recorded by either partitioner and summarised by the builder meets
      everything the pruning algorithms require. */
  lemma RecordedTermOk(q: Query, t: Term, ends: seq<nat>, blocks: Blocks)
    requires |q.docWeight| == q.numDocs && ListOk(q, t) && t.docs != []
    requires Records(t.docs, t.weights, WeightsOf(q, t.docs), ends, blocks)
    requires t.blockLast == blocks.docids && t.blockMax == blocks.maxValues
    requires IsMax(blocks.maxValues, 0, |blocks.maxValues|, t.maxTermWeight)
    requires IsMax(blocks.maxWeights, 0, |blocks.maxWeights|, t.maxDocWeight)
    ensures TermOk(q, t)
    ensures BlocksSound(t.docs, t.weights, t.blockLast, t.blockMax)
    ensures forall b :: 0 <= b < |t.blockLast| ==> t.blockLast[b] < q.numDocs
  {
    RecordedBlocksSound(t.docs, t.weights, WeightsOf(q, t.docs), ends, blocks);
    forall i | 0 <= i < |t.docs| ensures t.weights[i] <= t.maxTermWeight && q.docWeight[t.docs[i]] <= t.maxDocWeight {
      var b := BlockOf(ends, |t.docs|, i, |ends| - 1);
      assert RecordsBlock(t.docs, t.weights, WeightsOf(q, t.docs), ends, blocks, b);
      assert WeightsOf(q, t.docs)[i] == q.docWeight[t.docs[i]];
      assert blocks.maxValues[b] <= t.maxTermWeight && blocks.maxWeights[b] <= t.maxDocWeight;
    }
  }
}
