/** `block_posting_list::document_enumerator`: one decoded block of documents, frequencies decoded when asked for. */
module BlockListEnumerators {
  import opened Bits
  import opened BlockCodecs
  import opened BlockLists
  import opened ByteStrings
  import opened Slices
  import opened SortedLists

  lemma {:induction false} BlockIsStored(data: seq<nat>, start: nat, docs: seq<nat>, freqs: seq<nat>, starts: seq<nat>,
                                         bytes: seq<BlockBytes>, b: nat)
    requires Stored(data, start, docs, freqs, starts, bytes) && b < BlockCount(|docs|)
    ensures var blocks := BlockCount(|docs|);
            var base := start + |VByte(|docs|)|;
            && |starts| == |bytes| == blocks > 0 && AllBytes(data)
            && MaxStored(data, base, docs, b) && StartStored(data, base, blocks, starts, b)
            && BlockEncoded(bytes[b], docs, freqs, b) && BytesStored(data, DataAt(base, blocks) + starts[b], bytes[b])
  {
    hide MaxStored, StartStored, BlockEncoded, BytesStored, ListOk, AllBytes, VByte;
    assert BlockStored(data, start + |VByte(|docs|)|, docs, freqs, starts, bytes, b);
  }

  /** The sum the cursor computes is the one the writer used. */
  lemma SumAgrees(docs: seq<nat>, b: nat)
    requires Increasing(docs) && AllBelow(docs, WORD) && b < BlockCount(|docs|)
    ensures b > 0 ==> (BlockLast(docs, b - 1) + 1) % WORD == BlockBase(docs, b)
    ensures b == 0 ==> (SENTINEL + 1) % WORD == BlockBase(docs, b)
    ensures BlockBase(docs, b) + Gap(docs, BlockBegin(b)) == docs[BlockBegin(b)]
    ensures 0 < BlockLength(|docs|, b) && BlockBegin(b) < |docs|
  {
    BlockBounds(|docs|, b);
    if b > 0 {
      BlockBounds(|docs|, b - 1);
      OrderedIndices(docs, BlockBegin(b) - 1, BlockBegin(b));
    }
  }

  class DocumentEnumerator {
    const data: seq<nat>
    const universe: nat
    const n: nat
    const blocks: nat
    const maxsOffset: nat
    const blocksData: nat
    const docsBuf: array<nat>
    const freqsBuf: array<nat>
    var curBlock: nat
    var posInBlock: nat
    var curBlockMax: nat
    var curBlockSize: nat
    var curDocid: nat
    var freqsBlockData: nat
    var freqsDecoded: bool
    ghost const start: nat
    ghost const docs: seq<nat>
    ghost const freqs: seq<nat>
    ghost const starts: seq<nat>
    ghost const bytes: seq<BlockBytes>

    /** The list is stored where the fields say. */
    ghost predicate Laid() {
      && Stored(data, start, docs, freqs, starts, bytes) && AllBelow(docs, universe) && universe < WORD
      && n == |docs| && blocks == BlockCount(n) == |starts| == |bytes| && blocks > 0
      && maxsOffset == start + |VByte(n)| && blocksData == DataAt(maxsOffset, blocks)
      && docsBuf.Length == freqsBuf.Length == BLOCK_SIZE && docsBuf != freqsBuf
    }

    /** The current block's documents are decoded, and its frequencies if the flag says so. */
    ghost predicate Loaded()
      requires Laid()
      reads this, docsBuf, freqsBuf
    {
      && curBlock < blocks && curBlockSize == BlockLength(n, curBlock) <= BLOCK_SIZE
      && curBlockMax == BlockLast(docs, curBlock)
      && BlockBegin(curBlock) + curBlockSize <= n
      && (forall i :: 1 <= i < curBlockSize ==> docsBuf[i] == Gap(docs, BlockBegin(curBlock) + i))
      && freqsBlockData == blocksData + starts[curBlock] + |bytes[curBlock].docs|
      && (freqsDecoded ==> forall i :: 0 <= i < curBlockSize ==> freqsBuf[i] == LessOne(freqs[BlockBegin(curBlock) + i]))
    }

    /** Standing on a posting. */
    ghost predicate Standing()
      requires Laid()
      reads this, docsBuf, freqsBuf
    {
      Loaded() && posInBlock < curBlockSize && curDocid == docs[BlockBegin(curBlock) + posInBlock]
    }

    ghost predicate Valid()
      reads this, docsBuf, freqsBuf
    {
      Laid() && (Standing() || (Loaded() && curDocid == universe))
    }

    function Position(): nat
      reads this
    {
      curBlock * BLOCK_SIZE + posInBlock
    }

    /** What the header's words for a block say. */
    lemma Header(b: nat)
      requires Laid() && b < blocks
      ensures WordAt(data, MaxAt(maxsOffset, b), BlockLast(docs, b))
      ensures if b == 0 then starts[0] == 0 else WordAt(data, EndpointAt(maxsOffset, blocks, b), starts[b])
    {
      hide ListOk, AllBytes, At, BlockEncoded, BytesStored, WordAt, BlockLast, VByte, Stored;
      BlockIsStored(data, start, docs, freqs, starts, bytes, b);
    }

    /** The maximum of a block, from its four bytes. */
    function BlockMax(b: nat): (m: nat)
      requires Laid() && b < blocks
      ensures m == BlockLast(docs, b)
    {
      hide Stored, BlockLast, WordOf, VByte;
      Header(b);
      var at := MaxAt(maxsOffset, b);
      WordOf(data[at], data[at + 1], data[at + 2], data[at + 3])
    }

    function Endpoint(b: nat): (e: nat)
      requires Laid() && b < blocks
      ensures e == starts[b]
    {
      hide Stored, BlockLast, WordOf, VByte;
      Header(b);
      if b == 0 then 0
      else
        var at := EndpointAt(maxsOffset, blocks, b);
        WordOf(data[at], data[at + 1], data[at + 2], data[at + 3])
    }

    method DecodeDocsBlock(block: nat)
      requires Laid() && block < blocks
      modifies this, docsBuf
      ensures Standing() && curBlock == block && posInBlock == 0
    {
      hide Stored, AllBelow, VByte, Gap, DataAt, BlockBase, BlockLast;
      StoredFacts();
      BlockBounds(n, block);
      SumAgrees(docs, block);
      curBlock := block;
      posInBlock := 0;
      curBlockSize := BlockLength(n, block);
      var curBase := CurBase(block);
      curBlockMax := BlockMax(block);
      freqsBlockData := DecodeDocs(block);
      docsBuf[0] := (docsBuf[0] + curBase) % WORD;
      curDocid := docsBuf[0];
      freqsDecoded := false;
    }

    /** One more than the last document before a block; the wrapped minus one in front of the first. */
    function CurBase(block: nat): (base: nat)
      requires Laid() && block < blocks
      ensures base == BlockBase(docs, block)
    {
      StoredFacts();
      SumAgrees(docs, block);
      ((if block > 0 then BlockMax(block - 1) else SENTINEL) + 1) % WORD
    }

    /** Decodes a block's gaps; the frequencies follow. */
    method DecodeDocs(block: nat) returns (next: nat)
      requires Laid() && block < blocks
      modifies docsBuf
      ensures next == blocksData + starts[block] + |bytes[block].docs|
      ensures BlockBegin(block) + BlockLength(n, block) <= n && BlockLength(n, block) <= BLOCK_SIZE
      ensures forall i :: 0 <= i < BlockLength(n, block) ==> docsBuf[i] == Gap(docs, BlockBegin(block) + i)
    {
      hide Stored, ListOk, BlockOk, GapsOf, FreqsOf, Increasing, AllBelow, AllBytes, Encodes, At, VByte, Gap, WordAt,
           DataAt, MaxAt, BlockBase, BlockLast;
      StoredFacts();
      BlockIsStored(data, start, docs, freqs, starts, bytes, block);
      BlockBounds(n, block);
      DocsSumIsTotal(docs, block);
      FirstHalf(block);
      var blockData := blocksData + Endpoint(block);
      next := DecodeBlock(data, blockData, docsBuf,
                          Sub32(Sub32(BlockMax(block), CurBase(block)),
                                Sub32(BlockLength(n, block), 1)), BlockLength(n, block),
                          GapsOf(docs, block), bytes[block].docs);
      GapsIn(docsBuf[..], block);
    }

    lemma StoredFacts()
      requires Laid()
      ensures ListOk(docs, freqs) && AllBytes(data) && Increasing(docs)
      ensures AllBelow(docs, WORD) && AllBelow(docs, universe)
    {}

    /** Where the two halves of a block are. */
    lemma FirstHalf(b: nat)
      requires Laid() && b < blocks
      ensures At(data, blocksData + starts[b], bytes[b].docs)
      ensures At(data, blocksData + starts[b] + |bytes[b].docs|, bytes[b].freqs)
    {
      hide Stored, MaxStored, StartStored, BlockEncoded, ListOk, AllBytes, VByte, At;
      BlockIsStored(data, start, docs, freqs, starts, bytes, b);
      AtParts(data, blocksData + starts[b], bytes[b].docs, bytes[b].freqs);
    }

    lemma GapsIn(buf: seq<nat>, b: nat)
      requires Laid() && b < blocks && |buf| == BLOCK_SIZE && BlockLength(n, b) <= BLOCK_SIZE
      requires buf[..BlockLength(n, b)] == GapsOf(docs, b)
      ensures BlockBegin(b) + BlockLength(n, b) <= n && forall i :: 0 <= i < BlockLength(n, b) ==>
                buf[i] == Gap(docs, BlockBegin(b) + i)
    {
      hide Stored, AllBelow, VByte, DataAt, Gap;
      BlockBounds(n, b);
      assert forall i :: 0 <= i < BlockLength(n, b) ==> buf[i] == buf[..BlockLength(n, b)][i];
    }
  
    lemma FreqsIn(buf: seq<nat>, b: nat)
      requires Laid() && b < blocks && |buf| == BLOCK_SIZE && BlockLength(n, b) <= BLOCK_SIZE && |freqs| == n
      requires buf[..BlockLength(n, b)] == FreqsOf(freqs, b)
      ensures BlockBegin(b) + BlockLength(n, b) <= n
      ensures forall i :: 0 <= i < BlockLength(n, b) ==> buf[i] == LessOne(freqs[BlockBegin(b) + i])
    {
      hide Stored, AllBelow, VByte, DataAt;
      BlockBounds(n, b);
      assert forall i :: 0 <= i < BlockLength(n, b) ==> buf[i] == buf[..BlockLength(n, b)][i];
    }

    /** Starts on the first posting. */
    constructor (data: seq<nat>, start: nat, universe: nat, ghost docs: seq<nat>, ghost freqs: seq<nat>,
                 ghost starts: seq<nat>, ghost bytes: seq<BlockBytes>)
      requires Stored(data, start, docs, freqs, starts, bytes) && AllBelow(docs, universe) && universe < WORD
      ensures Valid() && Position() == 0 && curDocid == docs[0] && Standing()
      ensures this.docs == docs && this.freqs == freqs && this.universe == universe
      ensures fresh(docsBuf) && fresh(freqsBuf)
    {
      hide ListOk, AllBytes, AllBelow, At, VByte, MaxStored, StartStored, BlockEncoded, BytesStored;
      OneVByte(|docs|);
      var counts, base := Decode(data, start, 1, [|docs|]);
      this.data, this.start, this.universe, this.docs, this.freqs, this.starts, this.bytes := data, start, universe, docs, freqs, starts, bytes;
      n := counts[0];
      blocks := BlockCount(counts[0]);
      maxsOffset := base;
      blocksData := DataAt(base, BlockCount(counts[0]));
      docsBuf := new nat[BLOCK_SIZE];
      freqsBuf := new nat[BLOCK_SIZE];
      new;
      Reset();
    }

    /** Goes back to the first posting, from anywhere. */
    method Reset()
      requires Laid()
      modifies this, docsBuf
      ensures Valid() && Standing() && Position() == 0 < n && curDocid == docs[0]
    {
      hide Stored, AllBelow;
      DecodeDocsBlock(0);
    }

    method Next()
      requires Valid() && curDocid != universe
      modifies this, docsBuf
      ensures Valid()
      ensures old(Position()) + 1 < n ==>
                Standing() && Position() == old(Position()) + 1 && curDocid == docs[Position()]
      ensures old(Position()) + 1 == n ==> curDocid == universe && Position() == n
    {
      hide Stored, AllBelow, VByte, Gap, DataAt, BlockLast;
      BlockBounds(n, curBlock);
      posInBlock := posInBlock + 1;
      if posInBlock == curBlockSize {
        if curBlock + 1 == blocks {
          curDocid := universe;
          return;
        }
        DecodeDocsBlock(curBlock + 1);
      } else {
        NextDoc(BlockBegin(curBlock) + posInBlock);
        curDocid := curDocid + docsBuf[posInBlock] + 1;
      }
    }

    lemma NextDoc(j: nat)
      requires Laid() && 0 < j < n
      ensures docs[j - 1] + Gap(docs, j) + 1 == docs[j]
    {
      StoredFacts();
    }

    /** Steps inside the current block up to the first document at or above a bound. */
    method StepTo(lowerBound: nat)
      requires Laid() && Standing() && lowerBound <= curBlockMax
      modifies this`posInBlock, this`curDocid
      ensures Standing() && lowerBound <= curDocid && posInBlock >= old(posInBlock)
      ensures posInBlock > old(posInBlock) ==> 0 < Position() <= n && docs[Position() - 1] < lowerBound
      ensures old(curDocid) >= lowerBound ==> posInBlock == old(posInBlock)
    {
      hide Stored, AllBelow, VByte, Gap, DataAt, LessOne;
      BlockBounds(n, curBlock);
      var p, docid := posInBlock, curDocid;
      while docid < lowerBound
        invariant posInBlock == old(posInBlock) && curDocid == old(curDocid) && Standing()
        invariant posInBlock <= p < curBlockSize && docid == docs[BlockBegin(curBlock) + p]
        invariant curDocid >= lowerBound ==> p == posInBlock
        invariant p > posInBlock ==> docs[BlockBegin(curBlock) + p - 1] < lowerBound
        decreases curBlockSize - p
      {
        p := p + 1;
        NextDoc(BlockBegin(curBlock) + p);
        docid := docid + docsBuf[p] + 1;
      }
      posInBlock, curDocid := p, docid;
    }

    lemma {:induction false} DocsBelow(lowerBound: nat)
      requires Laid() && docs[n - 1] < lowerBound
      ensures LowerBound(docs, lowerBound) == n
    {
      StoredFacts();
      assert forall i :: 0 <= i < n ==> docs[i] <= docs[n - 1];
      LowerBoundIsUnique(docs, lowerBound, n);
    }

    lemma {:induction false} FirstMatch(p: nat, lowerBound: nat)
      requires Laid() && p < n && docs[p] >= lowerBound && (p > 0 ==> docs[p - 1] < lowerBound)
      ensures LowerBound(docs, lowerBound) == p
    {
      StoredFacts();
      FirstMatchIs(docs, lowerBound, p);
    }

    lemma BlockLasts(b: nat)
      requires Laid() && b < blocks
      ensures BlockBegin(b) + BlockLength(n, b) <= n
      ensures b + 1 < blocks ==> BlockLast(docs, b) == docs[BlockBegin(b + 1) - 1] && BlockBegin(b + 1) < n
      ensures b + 1 == blocks ==> BlockLast(docs, b) == docs[n - 1]
      ensures forall p :: BlockBegin(b) <= p < BlockBegin(b) + BlockLength(n, b) ==> docs[p] <= BlockLast(docs, b)
    {
      hide Stored, VByte, DataAt;
      StoredFacts();
      BlockBounds(n, b);
    }

    /** Goes to the first later block whose maximum reaches the bound. */
    method FindBlock(lowerBound: nat) returns (block: nat)
      requires Laid() && Loaded() && curBlockMax < lowerBound <= BlockLast(docs, blocks - 1)
      ensures 0 < block < blocks && lowerBound <= BlockLast(docs, block)
      ensures BlockBegin(block) <= n && docs[BlockBegin(block) - 1] < lowerBound
    {
      hide Stored, AllBelow, VByte, DataAt, BlockLast, BlockLength, Gap;
      BlockLasts(curBlock);
      block := curBlock + 1;
      while BlockMax(block) < lowerBound
        invariant curBlock < block < blocks && BlockBegin(block) < n && docs[BlockBegin(block) - 1] < lowerBound
        decreases blocks - block
      {
        BlockLasts(block);
        block := block + 1;
      }
    }

    /** The first document at or above the bound, which is not below the current one (or the cursor is at its start). */
    method NextGeq(lowerBound: nat)
      requires Valid() && (lowerBound >= curDocid || (Position() == 0 && curDocid != universe))
      modifies this, docsBuf
      ensures Valid()
      ensures old(curDocid) >= lowerBound ==> curDocid == old(curDocid) && Position() == old(Position())
      ensures old(curDocid) < lowerBound ==> curDocid == ElementAt(docs, universe, LowerBound(docs, lowerBound))
      ensures old(curDocid) < lowerBound && curDocid != universe ==>
                Standing() && Position() == LowerBound(docs, lowerBound)
    {
      hide Stored, AllBelow, VByte, DataAt, BlockLast, BlockLength, Gap, LessOne, LowerBound, BlockCount;
      StandsInBlock();
      if lowerBound > curBlockMax {
        if lowerBound > BlockMax(blocks - 1) {
          BlockLasts(blocks - 1);
          DocsBelow(lowerBound);
          curDocid := universe;
          return;
        }
        var block := FindBlock(lowerBound);
        DecodeDocsBlock(block);
        StepTo(lowerBound);
        FirstMatch(BlockBegin(curBlock) + posInBlock, lowerBound);
      } else {
        StepTo(lowerBound);
        if old(curDocid) < lowerBound {
          FirstMatch(BlockBegin(curBlock) + posInBlock, lowerBound);
        }
      }
    }

    /** A document stood on is at most the block's maximum; all documents are below the universe. */
    lemma StandsInBlock()
      requires Laid() && Loaded()
      ensures Standing() ==> curDocid <= curBlockMax
      ensures curBlockMax < universe && BlockLast(docs, blocks - 1) < universe
      ensures forall i :: 0 <= i < n ==> docs[i] < universe
    {
      hide Stored, VByte, DataAt, BlockCount;
      StoredFacts();
      BlockBounds(n, curBlock);
      BlockLasts(curBlock);
      BlockLasts(blocks - 1);
    }

    /** Moves forward to a position. */
    method Move(pos: nat)
      requires Valid() && curDocid != universe && Position() <= pos < n
      modifies this, docsBuf
      ensures Valid() && Standing() && Position() == pos
    {
      hide Stored, AllBelow, VByte, DataAt, BlockLast, Gap, LessOne;
      BlockOfPosition(pos);
      var block := pos / BLOCK_SIZE;
      if block != curBlock {
        DecodeDocsBlock(block);
      }
      StepForward(pos);
    }

    lemma BlockOfPosition(pos: nat)
      requires Laid() && pos < n
      ensures pos / BLOCK_SIZE < blocks
      ensures BlockBegin(pos / BLOCK_SIZE) <= pos < BlockBegin(pos / BLOCK_SIZE) + BlockLength(n, pos / BLOCK_SIZE)
    {
      hide Stored, AllBelow, VByte, DataAt;
    }

    method StepForward(pos: nat)
      requires Laid() && Standing() && Position() <= pos < BlockBegin(curBlock) + curBlockSize
      modifies this`posInBlock, this`curDocid
      ensures Standing() && Position() == pos
    {
      hide Stored, AllBelow, VByte, Gap, DataAt, LessOne;
      var p, docid := posInBlock, curDocid;
      while curBlock * BLOCK_SIZE + p < pos
        invariant posInBlock <= p < curBlockSize && docid == docs[BlockBegin(curBlock) + p]
        invariant curBlock * BLOCK_SIZE + p <= pos
        decreases curBlockSize - p
      {
        p := p + 1;
        NextDoc(BlockBegin(curBlock) + p);
        docid := docid + docsBuf[p] + 1;
      }
      posInBlock, curDocid := p, docid;
    }

    /** The frequency of the current posting; its block is decoded at the first call. */
    method Freq() returns (freq: nat)
      requires Valid() && curDocid != universe
      modifies this`freqsDecoded, freqsBuf
      ensures Valid() && Position() == old(Position()) && curDocid == old(curDocid) && freqsDecoded
      ensures Position() < n == |freqs| && freq == freqs[Position()]
    {
      hide Stored, AllBelow, VByte, Gap, DataAt, BlockLast, BlockLength;
      PositiveFreqs();
      if !freqsDecoded {
        DecodeFreqsBlock();
      }
      freq := freqsBuf[posInBlock] + 1;
    }

    lemma PositiveFreqs()
      requires Laid()
      ensures |freqs| == n && forall i :: 0 <= i < n ==> freqs[i] >= 1
    {}

    method DecodeFreqsBlock()
      requires Laid() && Standing()
      modifies this`freqsDecoded, freqsBuf
      ensures Laid() && Standing() && freqsDecoded
    {
      hide Stored, ListOk, BlockOk, GapsOf, FreqsOf, Increasing, AllBelow, AllBytes, Encodes, At, VByte, Gap, WordAt,
           DataAt, MaxAt, BlockLast;
      StoredFacts();
      PositiveFreqs();
      FreqsEncoded(curBlock);
      FirstHalf(curBlock);
      BlockBounds(n, curBlock);
      var nextBlock := DecodeBlock(data, freqsBlockData, freqsBuf, SENTINEL, curBlockSize, FreqsOf(freqs, curBlock),
                                   bytes[curBlock].freqs);
      FreqsIn(freqsBuf[..], curBlock);
      freqsDecoded := true;
    }

    lemma FreqsEncoded(b: nat)
      requires Laid() && b < blocks && |freqs| == n
      ensures BlockOk(FreqsOf(freqs, b)) && Encodes(bytes[b].freqs, FreqsOf(freqs, b), SENTINEL)
    {
      hide Encodes, BlockOk, AllBytes, At, VByte, DataAt, MaxStored, StartStored, BytesStored;
      BlockIsStored(data, start, docs, freqs, starts, bytes, b);
    }
  }
}
