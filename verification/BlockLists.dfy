/** `block_posting_list` over interpolative blocks: what a list's bytes hold, and the two writers. */
module BlockLists {
  import opened Arith
  import opened Bits
  import opened BlockCodecs
  import opened ByteStrings
  import opened Slices
  import opened SortedLists

  const BLOCK_SIZE := 128

  function BlockCount(n: nat): nat {
    CeilDiv(n, BLOCK_SIZE)
  }

  function BlockBegin(b: nat): nat {
    BLOCK_SIZE * b
  }

  function BlockLength(n: nat, b: nat): nat {
    if (b + 1) * BLOCK_SIZE <= n then BLOCK_SIZE else n % BLOCK_SIZE
  }

  lemma BlockBounds(n: nat, b: nat)
    requires b < BlockCount(n)
    ensures 0 < BlockLength(n, b) <= BLOCK_SIZE && BlockBegin(b) + BlockLength(n, b) <= n
    ensures b + 1 < BlockCount(n) ==>
              BlockLength(n, b) == BLOCK_SIZE && BlockBegin(b + 1) == BlockBegin(b) + BLOCK_SIZE < n
    ensures b + 1 == BlockCount(n) ==> BlockBegin(b) + BlockLength(n, b) == n
  {}

  /** Subtraction of 32-bit numbers, which wraps. */
  function Sub32(a: nat, b: nat): (r: nat)
    ensures r < WORD
  {
    (a - b) % WORD
  }

  /** A posting list the format can hold. */
  ghost predicate ListOk(docs: seq<nat>, freqs: seq<nat>) {
    && 0 < |docs| == |freqs| < WORD
    && Increasing(docs) && AllBelow(docs, WORD)
    && (forall i :: 0 <= i < |freqs| ==> 1 <= freqs[i])
    && forall b :: 0 <= b < BlockCount(|docs|) ==> BlockOk(FreqsOf(freqs, b))
  }

  /** How many documents are skipped in front of posting j; the difference of two documents in order. */
  function Gap(docs: seq<nat>, j: nat): nat
    requires j < |docs|
  {
    if j == 0 then docs[0] else if docs[j] > docs[j - 1] then docs[j] - docs[j - 1] - 1 else 0
  }

  function GapsOf(docs: seq<nat>, b: nat): (g: seq<nat>)
    requires b < BlockCount(|docs|)
    ensures |g| == BlockLength(|docs|, b)
  {
    BlockBounds(|docs|, b);
    GapsFrom(docs, BlockBegin(b), BlockLength(|docs|, b))
  }

  function GapsFrom(docs: seq<nat>, from: nat, count: nat): (g: seq<nat>)
    requires from + count <= |docs|
    ensures |g| == count && forall i :: 0 <= i < count ==> g[i] == Gap(docs, from + i)
  {
    if count == 0 then [] else GapsFrom(docs, from, count - 1) + [Gap(docs, from + count - 1)]
  }

  /** A frequency less one, the way it is stored. */
  function LessOne(freq: nat): nat {
    if freq > 0 then freq - 1 else 0
  }

  function FreqsOf(freqs: seq<nat>, b: nat): (g: seq<nat>)
    requires b < BlockCount(|freqs|)
    ensures |g| == BlockLength(|freqs|, b)
  {
    BlockBounds(|freqs|, b);
    FreqsFrom(freqs, BlockBegin(b), BlockLength(|freqs|, b))
  }

  function FreqsFrom(freqs: seq<nat>, from: nat, count: nat): (g: seq<nat>)
    requires from + count <= |freqs|
    ensures |g| == count && forall i :: 0 <= i < count ==> g[i] == LessOne(freqs[from + i])
  {
    if count == 0 then [] else FreqsFrom(freqs, from, count - 1) + [LessOne(freqs[from + count - 1])]
  }

  /** The first document a block may hold. */
  function BlockBase(docs: seq<nat>, b: nat): nat
    requires b < BlockCount(|docs|)
  {
    BlockBounds(|docs|, b);
    if b == 0 then 0 else docs[BlockBegin(b) - 1] + 1
  }

  function BlockLast(docs: seq<nat>, b: nat): nat
    requires b < BlockCount(|docs|)
  {
    BlockBounds(|docs|, b);
    docs[BlockBegin(b) + BlockLength(|docs|, b) - 1]
  }

  lemma GapsAt(docs: seq<nat>, b: nat, i: nat)
    requires b < BlockCount(|docs|) && i < BlockLength(|docs|, b)
    ensures BlockBegin(b) + i < |docs| && GapsOf(docs, b)[i] == Gap(docs, BlockBegin(b) + i)
  {
    BlockBounds(|docs|, b);
  }

  /** A gap is what lies between two documents in order. */
  lemma GapInOrder(docs: seq<nat>, j: nat)
    requires Increasing(docs) && j < |docs|
    ensures Gap(docs, j) == if j == 0 then docs[0] else docs[j] - docs[j - 1] - 1
  {}

  /** Running sums of a block's gaps are documents, less the base and the steps. */
  lemma {:induction false} GapsSum(docs: seq<nat>, b: nat, i: nat)
    requires Increasing(docs) && b < BlockCount(|docs|) && 0 < i <= BlockLength(|docs|, b)
    ensures BlockBegin(b) + i <= |docs|
    ensures Total(GapsOf(docs, b)[..i]) + BlockBase(docs, b) + (i - 1) == docs[BlockBegin(b) + i - 1]
  {
    hide Increasing, GapsOf, Gap, Total, BlockLength, BlockCount;
    var g := GapsOf(docs, b);
    BlockBounds(|docs|, b);
    GapsAt(docs, b, i - 1);
    GapInOrder(docs, BlockBegin(b) + i - 1);
    TotalStep(g, i - 1);
    if i > 1 {
      GapsSum(docs, b, i - 1);
    }
  }

  /** The sum the writer passes for a block's documents. */
  function DocsSum(docs: seq<nat>, b: nat): nat
    requires b < BlockCount(|docs|)
  {
    Sub32(Sub32(BlockLast(docs, b), BlockBase(docs, b)), Sub32(BlockLength(|docs|, b), 1))
  }

  lemma DocsSumIsTotal(docs: seq<nat>, b: nat)
    requires Increasing(docs) && AllBelow(docs, WORD) && b < BlockCount(|docs|)
    ensures DocsSum(docs, b) == Total(GapsOf(docs, b)) && BlockOk(GapsOf(docs, b))
    ensures BlockBase(docs, b) < WORD && BlockLast(docs, b) < WORD
  {
    hide Total, GapsOf, Gap, Sub32, BlockLength, BlockCount;
    BlockBounds(|docs|, b);
    var n := BlockLength(|docs|, b);
    GapsSum(docs, b, n);
    assert GapsOf(docs, b)[..n] == GapsOf(docs, b);
    var last, base := BlockLast(docs, b), BlockBase(docs, b);
    assert last == docs[BlockBegin(b) + n - 1];
    Sub32Exact(last, base);
    Sub32Exact(n, 1);
    Sub32Exact(last - base, n - 1);
  }

  lemma Sub32Exact(a: nat, b: nat)
    requires b <= a < WORD
    ensures Sub32(a, b) == a - b
  {}

  lemma DocsFit(docs: seq<nat>, freqs: seq<nat>, b: nat)
    requires ListOk(docs, freqs) && b < BlockCount(|docs|)
    ensures BlockOk(GapsOf(docs, b)) && DocsSum(docs, b) == Total(GapsOf(docs, b)) && BlockOk(FreqsOf(freqs, b))
    ensures BlockBase(docs, b) < WORD && Increasing(docs) && AllBelow(docs, WORD) && |docs| < WORD
  {
    hide BlockOk, GapsOf, FreqsOf, DocsSum, Total, BlockBase, BlockLast;
    DocsSumIsTotal(docs, b);
  }

  /** How many bytes a block takes. */
  ghost function OneBlockSize(docs: seq<nat>, freqs: seq<nat>, b: nat): nat
    requires ListOk(docs, freqs) && b < BlockCount(|docs|)
  {
    hide GapsOf, FreqsOf, DocsSum, BlockOk, EncodedSize, ListOk;
    DocsFit(docs, freqs, b);
    EncodedSize(GapsOf(docs, b), DocsSum(docs, b)) + EncodedSize(FreqsOf(freqs, b), SENTINEL)
  }

  /** How many bytes the blocks in front of block b take. */
  ghost function BlockSizes(docs: seq<nat>, freqs: seq<nat>, b: nat): nat
    requires ListOk(docs, freqs) && b <= BlockCount(|docs|)
  {
    hide ListOk, OneBlockSize, BlockCount;
    if b == 0 then 0 else BlockSizes(docs, freqs, b - 1) + OneBlockSize(docs, freqs, b - 1)
  }

  /** Length, header and blocks. */
  ghost function ListSize(docs: seq<nat>, freqs: seq<nat>): int
    requires ListOk(docs, freqs)
  {
    |VByte(|docs|)| + 4 * BlockCount(|docs|) + 4 * (BlockCount(|docs|) - 1) + BlockSizes(docs, freqs, BlockCount(|docs|))
  }

  // ----- the layout -----

  /** A block's two halves as bytes. */
  datatype BlockBytes = BlockBytes(docs: seq<nat>, freqs: seq<nat>)

  ghost predicate BlockEncoded(bb: BlockBytes, docs: seq<nat>, freqs: seq<nat>, b: nat)
    requires ListOk(docs, freqs) && b < BlockCount(|docs|)
  {
    DocsSumIsTotal(docs, b);
    && Encodes(bb.docs, GapsOf(docs, b), DocsSum(docs, b))
    && Encodes(bb.freqs, FreqsOf(freqs, b), SENTINEL)
  }

  ghost predicate WordAt(data: seq<nat>, at: nat, v: nat) {
    at + 4 <= |data| && WordOf(data[at], data[at + 1], data[at + 2], data[at + 3]) == v
  }

  /** Where the parts of a list of n postings are, behind its length. */
  function MaxAt(base: nat, b: nat): nat {
    base + 4 * b
  }

  function EndpointAt(base: nat, blocks: nat, b: nat): nat
    requires 0 < b
  {
    base + 4 * blocks + 4 * (b - 1)
  }

  function DataAt(base: nat, blocks: nat): nat
    requires blocks > 0
  {
    base + 4 * blocks + 4 * (blocks - 1)
  }

  /** Block b has its maximum, its place and its bytes. */
  ghost predicate MaxStored(data: seq<nat>, base: nat, docs: seq<nat>, b: nat)
    requires b < BlockCount(|docs|)
  {
    WordAt(data, MaxAt(base, b), BlockLast(docs, b))
  }

  ghost predicate StartStored(data: seq<nat>, base: nat, blocks: nat, starts: seq<nat>, b: nat)
    requires b < |starts|
  {
    if b == 0 then starts[0] == 0 else WordAt(data, EndpointAt(base, blocks, b), starts[b])
  }

  ghost predicate BytesStored(data: seq<nat>, at: nat, bb: BlockBytes) {
    At(data, at, bb.docs + bb.freqs)
  }

  /** The data holds the list from a position on, its blocks in any order. */
  ghost predicate Stored(data: seq<nat>, start: nat, docs: seq<nat>, freqs: seq<nat>, starts: seq<nat>,
                         bytes: seq<BlockBytes>) {
    && ListOk(docs, freqs) && AllBytes(data) && At(data, start, VByte(|docs|))
    && var blocks := BlockCount(|docs|);
    && var base := start + |VByte(|docs|)|;
    && |starts| == |bytes| == blocks > 0
    && forall b :: 0 <= b < blocks ==> BlockStored(data, base, docs, freqs, starts, bytes, b)
  }

  /** One block's entries in the header, and its bytes. */
  ghost predicate BlockStored(data: seq<nat>, base: nat, docs: seq<nat>, freqs: seq<nat>, starts: seq<nat>,
                              bytes: seq<BlockBytes>, b: nat)
    requires ListOk(docs, freqs) && |starts| == |bytes| == BlockCount(|docs|) && b < BlockCount(|docs|)
  {
    && MaxStored(data, base, docs, b) && StartStored(data, base, BlockCount(|docs|), starts, b)
    && BlockEncoded(bytes[b], docs, freqs, b)
    && BytesStored(data, DataAt(base, BlockCount(|docs|)) + starts[b], bytes[b])
  }
}
