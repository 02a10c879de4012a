/** The two writers of block posting lists: from postings, and from finished blocks in any physical order. */
module BlockListWriters {
  import opened Arith
  import opened Bits
  import opened BlockCodecs
  import opened BlockLists
  import opened ByteStrings
  import opened Slices
  import opened SortedLists

  /** *((uint32_t*)&out[at]) = v */
  function PutWord(out: seq<nat>, at: nat, v: nat): (r: seq<nat>)
    requires at + 4 <= |out|
    ensures |r| == |out|
  {
    out[..at] + WordBytes(v) + out[at + 4..]
  }

  lemma {:induction false} PutWordFacts(out: seq<nat>, at: nat, v: nat)
    requires at + 4 <= |out| && AllBytes(out)
    ensures var r := PutWord(out, at, v);
            && WordAt(r, at, Low(v, 32)) && AllBytes(r)
            && forall i :: 0 <= i < |out| && !(at <= i < at + 4) ==> r[i] == out[i]
  {
    hide WordBytes, WordOf, Low;
    WordOfItsBytes(v);
    WordBytesBits(v);
    var r := PutWord(out, at, v);
    assert r[at] == WordBytes(v)[0] && r[at + 1] == WordBytes(v)[1] && r[at + 2] == WordBytes(v)[2] && r[at + 3] == WordBytes(v)[3];
  }

  /** The place of block b is written, cut to 32 bits. */
  ghost predicate PlaceWritten(out: seq<nat>, base: nat, blocks: nat, starts: seq<nat>, b: nat)
    requires b < |starts|
  {
    if b == 0 then starts[0] == 0 else WordAt(out, EndpointAt(base, blocks, b), Low(starts[b], 32))
  }

  ghost predicate BlockWritten(out: seq<nat>, base: nat, docs: seq<nat>, freqs: seq<nat>, starts: seq<nat>,
                               bytes: seq<BlockBytes>, b: nat)
    requires ListOk(docs, freqs) && b < BlockCount(|docs|) && |starts| == |bytes| == BlockCount(|docs|)
  {
    && BlockEncoded(bytes[b], docs, freqs, b)
    && BytesStored(out, DataAt(base, BlockCount(|docs|)) + starts[b], bytes[b])
    && DataAt(base, BlockCount(|docs|)) + starts[b] <= |out|
  }

  /** The parts written so far: maxima, places and bytes of the blocks listed. */
  ghost predicate Progress(out: seq<nat>, head: seq<nat>, docs: seq<nat>, freqs: seq<nat>, starts: seq<nat>,
                           bytes: seq<BlockBytes>,
                           maxs: set<nat>, places: set<nat>, done: set<nat>) {
    && ListOk(docs, freqs) && AllBytes(out) && head <= out
    && var blocks := BlockCount(|docs|);
    && |starts| == |bytes| == blocks > 0 && DataAt(|head|, blocks) <= |out|
    && (forall b <- maxs :: b < blocks && MaxStored(out, |head|, docs, b))
    && (forall b <- places :: b < blocks && PlaceWritten(out, |head|, blocks, starts, b))
    && (forall b <- done :: b < blocks && BlockWritten(out, |head|, docs, freqs, starts, bytes, b))
  }

  lemma WordKept(a: seq<nat>, b: seq<nat>, at: nat, v: nat, w: nat)
    requires WordAt(a, at, v) && |a| <= |b| && (w + 4 <= at || at + 4 <= w)
    requires forall i :: 0 <= i < |a| && !(w <= i < w + 4) ==> b[i] == a[i]
    ensures WordAt(b, at, v)
  {
    hide WordOf;
  }

  lemma BytesKept(a: seq<nat>, b: seq<nat>, at: nat, bb: BlockBytes, w: nat)
    requires BytesStored(a, at, bb) && |a| <= |b| && w + 4 <= at
    requires forall i :: 0 <= i < |a| && !(w <= i < w + 4) ==> b[i] == a[i]
    ensures BytesStored(b, at, bb)
  {
    var code := bb.docs + bb.freqs;
    assert b[at..at + |code|] == a[at..at + |code|];
  }

  /** Writing the maximum of one more block. */
  lemma MaxWritten(out: seq<nat>, head: seq<nat>, docs: seq<nat>, freqs: seq<nat>, starts: seq<nat>,
                   bytes: seq<BlockBytes>,
                   maxs: set<nat>, places: set<nat>, done: set<nat>, b: nat)
    requires Progress(out, head, docs, freqs, starts, bytes, maxs, places, done) && b < BlockCount(|docs|)
    ensures MaxAt(|head|, b) + 4 <= |out|
    ensures Progress(PutWord(out, MaxAt(|head|, b), BlockLast(docs, b)), head, docs, freqs, starts, bytes, maxs + {b},
                     places, done)
  {
    hide ListOk, AllBytes, BlockEncoded, BytesStored, WordAt, BlockLast, PutWord, Low, BlockCount;
    var at := MaxAt(|head|, b);
    PutWordFacts(out, at, BlockLast(docs, b));
    LastFits(docs, freqs, b);
    var r := PutWord(out, at, BlockLast(docs, b));
    forall c | c in maxs + {b} ensures MaxStored(r, |head|, docs, c) {
      if c != b { WordKept(out, r, MaxAt(|head|, c), BlockLast(docs, c), at); }
    }
    PlacesKept(out, r, head, docs, starts, places, at);
    BlocksKept(out, r, head, docs, freqs, starts, bytes, done, at);
  }

  lemma LastFits(docs: seq<nat>, freqs: seq<nat>, b: nat)
    requires ListOk(docs, freqs) && b < BlockCount(|docs|)
    ensures Low(BlockLast(docs, b), 32) == BlockLast(docs, b)
  {
    hide Low, BlockOk;
    BlockBounds(|docs|, b);
    WordIsPower();
    LowOfSmall(BlockLast(docs, b), 32);
  }

  lemma PlacesKept(out: seq<nat>, r: seq<nat>, head: seq<nat>, docs: seq<nat>, starts: seq<nat>, places: set<nat>,
                   w: nat)
    requires var blocks := BlockCount(|docs|);
             && |starts| == blocks > 0 && |out| <= |r|
             && (forall b <- places :: b < blocks && PlaceWritten(out, |head|, blocks, starts, b))
             && w + 4 <= |head| + 4 * blocks && forall i :: 0 <= i < |out| && !(w <= i < w + 4) ==> r[i] == out[i]
    ensures forall b <- places :: b < BlockCount(|docs|) && PlaceWritten(r, |head|, BlockCount(|docs|), starts, b)
  {
    hide WordAt, Low, BlockCount;
    forall b | b in places ensures PlaceWritten(r, |head|, BlockCount(|docs|), starts, b) {
      if b > 0 { WordKept(out, r, EndpointAt(|head|, BlockCount(|docs|), b), Low(starts[b], 32), w); }
    }
  }

  lemma BlocksKept(out: seq<nat>, r: seq<nat>, head: seq<nat>, docs: seq<nat>, freqs: seq<nat>, starts: seq<nat>,
                   bytes: seq<BlockBytes>, done: set<nat>, w: nat)
    requires ListOk(docs, freqs) && |out| <= |r|
    requires var blocks := BlockCount(|docs|);
             && |starts| == |bytes| == blocks > 0 && w + 4 <= DataAt(|head|, blocks)
             && (forall b <- done :: b < blocks && BlockWritten(out, |head|, docs, freqs, starts, bytes, b))
    requires forall i :: 0 <= i < |out| && !(w <= i < w + 4) ==> r[i] == out[i]
    ensures forall b <- done :: b < BlockCount(|docs|) && BlockWritten(r, |head|, docs, freqs, starts, bytes, b)
  {
    hide ListOk, BlockEncoded, BytesStored, BlockCount;
    forall b | b in done ensures BlockWritten(r, |head|, docs, freqs, starts, bytes, b) {
      BytesKept(out, r, DataAt(|head|, BlockCount(|docs|)) + starts[b], bytes[b], w);
    }
  }

  /** Fixing where a block starts, and writing it down unless it is the first. */
  lemma PlaceAdded(out: seq<nat>, r: seq<nat>, head: seq<nat>, docs: seq<nat>, freqs: seq<nat>, starts: seq<nat>,
                   bytes: seq<BlockBytes>,
                   maxs: set<nat>, places: set<nat>, done: set<nat>, b: nat, place: nat)
    requires Progress(out, head, docs, freqs, starts, bytes, maxs, places, done) && b < BlockCount(|docs|)
    requires b !in places && b !in done && (b == 0 ==> place == 0 && r == out)
    requires b > 0 ==>
               EndpointAt(|head|, BlockCount(|docs|), b) + 4 <= |out| && r == PutWord(out, EndpointAt(|head|, BlockCount(|docs|), b), place)
    ensures Progress(r, head, docs, freqs, starts[b := place], bytes, maxs, places + {b}, done)
  {
    hide ListOk, AllBytes, BlockEncoded, BytesStored, WordAt, BlockLast, PutWord, Low, BlockCount;
    if b > 0 {
      PlaceWord(out, r, head, docs, freqs, starts, bytes, maxs, places, done, b, place);
    }
  }

  lemma PlaceWord(out: seq<nat>, r: seq<nat>, head: seq<nat>, docs: seq<nat>, freqs: seq<nat>, starts: seq<nat>,
                  bytes: seq<BlockBytes>,
                  maxs: set<nat>, places: set<nat>, done: set<nat>, b: nat, place: nat)
    requires Progress(out, head, docs, freqs, starts, bytes, maxs, places, done) && 0 < b < BlockCount(|docs|)
    requires b !in places && b !in done
    requires EndpointAt(|head|, BlockCount(|docs|), b) + 4 <= |out|
    requires r == PutWord(out, EndpointAt(|head|, BlockCount(|docs|), b), place)
    ensures Progress(r, head, docs, freqs, starts[b := place], bytes, maxs, places + {b}, done)
  {
    hide ListOk, AllBytes, BlockEncoded, BytesStored, WordAt, BlockLast, PutWord, Low, BlockCount;
    var blocks := BlockCount(|docs|);
    var at := EndpointAt(|head|, blocks, b);
    PutWordFacts(out, at, place);
    forall c | c in maxs ensures MaxStored(r, |head|, docs, c) {
      WordKept(out, r, MaxAt(|head|, c), BlockLast(docs, c), at);
    }
    forall c | c in places + {b} ensures PlaceWritten(r, |head|, blocks, starts[b := place], c) {
      if c != b && c > 0 { WordKept(out, r, EndpointAt(|head|, blocks, c), Low(starts[c], 32), at); }
    }
    forall c | c in done ensures BlockWritten(r, |head|, docs, freqs, starts[b := place], bytes, c) {
      BytesKept(out, r, DataAt(|head|, blocks) + starts[c], bytes[c], at);
    }
  }

  /** Appending a block's bytes at the place fixed for it. */
  lemma BytesAdded(out: seq<nat>, head: seq<nat>, docs: seq<nat>, freqs: seq<nat>, starts: seq<nat>,
                   bytes: seq<BlockBytes>,
                   maxs: set<nat>, places: set<nat>, done: set<nat>, b: nat, bb: BlockBytes)
    requires Progress(out, head, docs, freqs, starts, bytes, maxs, places, done) && b < BlockCount(|docs|) && b !in done
    requires BlockEncoded(bb, docs, freqs, b) && |out| == DataAt(|head|, BlockCount(|docs|)) + starts[b]
    ensures Progress(out + (bb.docs + bb.freqs), head, docs, freqs, starts, bytes[b := bb], maxs, places, done + {b})
  {
    hide ListOk, BlockEncoded, WordOf, BlockLast, Low, BlockCount;
    var r := out + (bb.docs + bb.freqs);
    EncodedBytes(bb, docs, freqs, b);
    forall c | c in maxs ensures MaxStored(r, |head|, docs, c) {
      WordExtended(out, r, MaxAt(|head|, c), BlockLast(docs, c));
    }
    forall c | c in places ensures PlaceWritten(r, |head|, BlockCount(|docs|), starts, c) {
      if c > 0 { WordExtended(out, r, EndpointAt(|head|, BlockCount(|docs|), c), Low(starts[c], 32)); }
    }
    forall c | c in done + {b} ensures BlockWritten(r, |head|, docs, freqs, starts, bytes[b := bb], c) {
      if c != b { BytesExtended(out, r, DataAt(|head|, BlockCount(|docs|)) + starts[c], bytes[c]); }
    }
  }

  lemma WordExtended(a: seq<nat>, b: seq<nat>, at: nat, v: nat)
    requires WordAt(a, at, v) && a <= b
    ensures WordAt(b, at, v)
  {
    hide WordOf;
  }

  lemma BytesExtended(a: seq<nat>, b: seq<nat>, at: nat, bb: BlockBytes)
    requires BytesStored(a, at, bb) && a <= b
    ensures BytesStored(b, at, bb)
  {
    var code := bb.docs + bb.freqs;
    assert b[at..at + |code|] == a[at..at + |code|];
  }

  lemma EncodedBytes(bb: BlockBytes, docs: seq<nat>, freqs: seq<nat>, b: nat)
    requires ListOk(docs, freqs) && b < BlockCount(|docs|) && BlockEncoded(bb, docs, freqs, b)
    ensures AllBytes(bb.docs) && AllBytes(bb.freqs)
  {
    hide BlockOk, AllBytes, Encodes, DocsSum, GapsOf, FreqsOf, Increasing, AllBelow, BlockLast, BlockBase;
    DocsSumIsTotal(docs, b);
    EncodesBytes(bb.docs, GapsOf(docs, b), DocsSum(docs, b));
    EncodesBytes(bb.freqs, FreqsOf(freqs, b), SENTINEL);
  }

  /** The header, still empty. */
  lemma Started(head: seq<nat>, docs: seq<nat>, freqs: seq<nat>, starts: seq<nat>, bytes: seq<BlockBytes>)
    requires ListOk(docs, freqs) && AllBytes(head) && |starts| == |bytes| == BlockCount(|docs|)
    ensures BlockCount(|docs|) > 0
    ensures Progress(head + seq(DataAt(|head|, BlockCount(|docs|)) - |head|, i => 0), head, docs, freqs, starts, bytes,
                     {}, {}, {})
  {
    hide BlockOk;
  }

  /** All parts of all blocks, in less than 2^32 bytes, are the list. */
  lemma {:induction false} Finished(out: seq<nat>, before: seq<nat>, docs: seq<nat>, freqs: seq<nat>, starts: seq<nat>,
                                    bytes: seq<BlockBytes>,
                 maxs: set<nat>, places: set<nat>, done: set<nat>)
    requires Progress(out, before + VByte(|docs|), docs, freqs, starts, bytes, maxs, places, done)
    requires forall b :: 0 <= b < BlockCount(|docs|) ==> b in maxs && b in places && b in done
    ensures before <= out
    ensures |out| - |before| < WORD ==> Stored(out, |before|, docs, freqs, starts, bytes)
  {
    hide Progress, BlockStored, VByte, BlockCount, ListOk, AllBytes, At;
    var head := before + VByte(|docs|);
    ProgressHead(out, head, docs, freqs, starts, bytes, maxs, places, done);
    HeadStands(out, before, VByte(|docs|));
    if |out| - |before| < WORD {
      var base := |before| + |VByte(|docs|)|;
      forall b | 0 <= b < BlockCount(|docs|) ensures BlockStored(out, base, docs, freqs, starts, bytes, b) {
        FinishedBlock(out, head, docs, freqs, starts, bytes, maxs, places, done, b);
      }
    }
  }

  lemma ProgressHead(out: seq<nat>, head: seq<nat>, docs: seq<nat>, freqs: seq<nat>, starts: seq<nat>,
                     bytes: seq<BlockBytes>,
                     maxs: set<nat>, places: set<nat>, done: set<nat>)
    requires Progress(out, head, docs, freqs, starts, bytes, maxs, places, done)
    ensures ListOk(docs, freqs) && AllBytes(out) && head <= out && |starts| == |bytes| == BlockCount(|docs|) > 0
  {}

  lemma HeadStands(out: seq<nat>, before: seq<nat>, code: seq<nat>)
    requires before + code <= out
    ensures before <= out && At(out, |before|, code)
  {
    assert out[|before|..|before| + |code|] == code;
  }

  lemma FinishedBlock(out: seq<nat>, head: seq<nat>, docs: seq<nat>, freqs: seq<nat>, starts: seq<nat>,
                      bytes: seq<BlockBytes>,
                      maxs: set<nat>, places: set<nat>, done: set<nat>, b: nat)
    requires Progress(out, head, docs, freqs, starts, bytes, maxs, places, done)
    requires b < BlockCount(|docs|) == |starts| == |bytes| && b in maxs && b in places && b in done
    requires ListOk(docs, freqs) && |out| - |head| < WORD
    ensures BlockStored(out, |head|, docs, freqs, starts, bytes, b)
  {
    hide ListOk, AllBytes, BlockEncoded, BytesStored, MaxStored, Low, BlockCount, WordOf, Pow2;
    WordIsPower();
    assert PlaceWritten(out, |head|, BlockCount(|docs|), starts,
                        b) && BlockWritten(out, |head|, docs, freqs, starts, bytes, b);
    LowOfSmall(starts[b], 32);
  }

  /** Reads one block's postings as gaps and frequencies less one. */
  method FillBuffers(docs: seq<nat>, freqs: seq<nat>, b: nat, lastDoc: nat)
    returns (docsBuf: seq<nat>, freqsBuf: seq<nat>, last: nat)
    requires ListOk(docs, freqs) && b < BlockCount(|docs|)
    requires BlockBegin(b) < |docs| && lastDoc == if b == 0 then SENTINEL else docs[BlockBegin(b) - 1]
    ensures docsBuf == GapsOf(docs, b) && freqsBuf == FreqsOf(freqs, b) && last == BlockLast(docs, b)
  {
    hide BlockOk, Increasing, AllBelow, Gap;
    BlockBounds(|docs|, b);
    docsBuf, freqsBuf, last := [], [], lastDoc;
    for i := 0 to BlockLength(|docs|, b)
      invariant |docsBuf| == |freqsBuf| == i
      invariant last == if b == 0 && i == 0 then SENTINEL else docs[BlockBegin(b) + i - 1]
      invariant forall j :: 0 <= j < i ==> docsBuf[j] == Gap(docs, BlockBegin(b) + j)
      invariant forall j :: 0 <= j < i ==> freqsBuf[j] == LessOne(freqs[BlockBegin(b) + j])
    {
      WrappedGap(docs, BlockBegin(b) + i);
      var doc := docs[BlockBegin(b) + i];
      docsBuf := docsBuf + [Sub32(Sub32(doc, last), 1)];
      last := doc;
      freqsBuf := freqsBuf + [freqs[BlockBegin(b) + i] - 1];
    }
  }

  /** The wrapped difference to the document before, or to minus one, is the gap. */
  lemma WrappedGap(docs: seq<nat>, j: nat)
    requires Increasing(docs) && AllBelow(docs, WORD) && j < |docs|
    ensures Sub32(Sub32(docs[j], if j == 0 then SENTINEL else docs[j - 1]), 1) == Gap(docs, j)
  {}

  /** The bookkeeping of a writer: places and bytes of blocks, and which parts are written. */
  datatype Parts = Parts(starts: seq<nat>, bytes: seq<BlockBytes>, maxs: set<nat>, places: set<nat>, done: set<nat>)

  ghost predicate Holds(out: seq<nat>, head: seq<nat>, docs: seq<nat>, freqs: seq<nat>, p: Parts) {
    Progress(out, head, docs, freqs, p.starts, p.bytes, p.maxs, p.places, p.done)
  }

  ghost predicate UpTo(s: set<nat>, count: nat) {
    forall b :: b in s <==> 0 <= b < count
  }

  lemma HoldsFacts(out: seq<nat>, head: seq<nat>, docs: seq<nat>, freqs: seq<nat>, p: Parts)
    requires Holds(out, head, docs, freqs, p)
    ensures ListOk(docs, freqs) && |p.starts| == |p.bytes| == BlockCount(|docs|) > 0
    ensures DataAt(|head|, BlockCount(|docs|)) <= |out|
  {}

  /** Appends a block's two halves. */
  method AppendBlock(out: seq<nat>, docs: seq<nat>, freqs: seq<nat>, b: nat, docsBuf: seq<nat>, freqsBuf: seq<nat>,
                     sum: nat, ghost head: seq<nat>, ghost p: Parts)
    returns (r: seq<nat>, ghost q: Parts)
    requires Holds(out, head, docs, freqs, p) && b < BlockCount(|docs|) && b !in p.done && b < |p.starts|
    requires |out| == DataAt(|head|, BlockCount(|docs|)) + p.starts[b]
    requires ListOk(docs, freqs) && docsBuf == GapsOf(docs, b)
    requires freqsBuf == FreqsOf(freqs, b) && sum == DocsSum(docs, b)
    ensures Holds(r, head, docs, freqs, q)
    ensures q.maxs == p.maxs && q.places == p.places && q.done == p.done + {b} && q.starts == p.starts
    ensures |r| == |out| + BlockSizes(docs, freqs, b + 1) - BlockSizes(docs, freqs, b)
  {
    hide ListOk, Progress, GapsOf, FreqsOf, DocsSum, Encodes, BlockOk, BlockCount, EncodedSize;
    HoldsFacts(out, head, docs, freqs, p);
    DocsFit(docs, freqs, b);
    ghost var first, second;
    r, first := EncodeBlock(docsBuf, sum, out);
    r, second := EncodeBlock(freqsBuf, SENTINEL, r);
    EncodesSize(first, docsBuf, sum);
    EncodesSize(second, freqsBuf, SENTINEL);
    ghost var bb := BlockBytes(first, second);
    BytesAdded(out, head, docs, freqs, p.starts, p.bytes, p.maxs, p.places, p.done, b, bb);
    assert r == out + (first + second);
    q := p.(bytes := p.bytes[b := bb], done := p.done + {b});
  }

  /** Writes one block: its maximum, its bytes, and where the next block will start. */
  method WriteBlock(out: seq<nat>, docs: seq<nat>, freqs: seq<nat>, b: nat, lastDoc: nat, blockBase: nat, base: nat,
                    ghost head: seq<nat>, ghost p: Parts)
    returns (r: seq<nat>, last: nat, ghost q: Parts)
    requires Holds(out, head, docs, freqs, p) && ListOk(docs, freqs)
    requires b < BlockCount(|docs|) == |p.starts| && base == |head|
    requires UpTo(p.maxs, b) && UpTo(p.places, b + 1) && UpTo(p.done, b)
    requires |out| == DataAt(base, BlockCount(|docs|)) + p.starts[b]
    requires BlockBegin(b) < |docs| && lastDoc == (if b == 0 then SENTINEL else docs[BlockBegin(b) - 1])
    requires blockBase == BlockBase(docs, b)
    ensures Holds(r, head, docs, freqs, q) && last == BlockLast(docs, b) && |q.starts| == |p.starts|
    ensures |r| == |out| + BlockSizes(docs, freqs, b + 1) - BlockSizes(docs, freqs, b)
    ensures UpTo(q.maxs, b + 1) && UpTo(q.done, b + 1)
    ensures b + 1 < |p.starts| ==> UpTo(q.places, b + 2) && |r| == DataAt(base, BlockCount(|docs|)) + q.starts[b + 1]
    ensures b + 1 == |p.starts| ==> UpTo(q.places, b + 1)
  {
    hide ListOk, Progress, GapsOf, FreqsOf, BlockOk, BlockCount, PutWord, BlockLast, BlockBase, BlockLength, BlockSizes;
    HoldsFacts(out, head, docs, freqs, p);
    var docsBuf, freqsBuf;
    docsBuf, freqsBuf, last := FillBuffers(docs, freqs, b, lastDoc);
    MaxWritten(out, head, docs, freqs, p.starts, p.bytes, p.maxs, p.places, p.done, b);
    r := PutWord(out, MaxAt(base, b), last);
    q := p.(maxs := p.maxs + {b});
    var sum := Sub32(Sub32(last, blockBase), Sub32(BlockLength(|docs|, b), 1));
    r, q := AppendBlock(r, docs, freqs, b, docsBuf, freqsBuf, sum, head, q);
    SizesGrow(docs, freqs, b);
    HoldsFacts(r, head, docs, freqs, q);
    if b != BlockCount(|docs|) - 1 {
      var place := |r| - DataAt(base, BlockCount(|docs|));
      PlaceAdded(r, PutWord(r, EndpointAt(base, BlockCount(|docs|), b + 1), place), head, docs, freqs, q.starts,
                 q.bytes, q.maxs, q.places, q.done, b + 1, place);
      r := PutWord(r, EndpointAt(base, BlockCount(|docs|), b + 1), place);
      q := q.(starts := q.starts[b + 1 := place], places := q.places + {b + 1});
    }
  }

  lemma SizesGrow(docs: seq<nat>, freqs: seq<nat>, b: nat)
    requires ListOk(docs, freqs) && b < BlockCount(|docs|)
    ensures BlockSizes(docs, freqs, b) <= BlockSizes(docs, freqs, b + 1)
  {
    hide ListOk, GapsOf, FreqsOf, DocsSum, EncodedSize, BlockOk, BlockCount;
  }

  lemma {:induction false} HeadIsBytes(out: seq<nat>, docs: seq<nat>, freqs: seq<nat>)
    requires ListOk(docs, freqs) && AllBytes(out)
    ensures AllBytes(out + VByte(|docs|)) && |docs| < WORD
  {
    hide VByte, BlockOk;
    VByteIsBytes(|docs|);
  }

  /** Writes a list from its postings, block after block. */
  method Write(out: seq<nat>, docs: seq<nat>, freqs: seq<nat>)
    returns (r: seq<nat>, ghost starts: seq<nat>, ghost bytes: seq<BlockBytes>)
    requires ListOk(docs, freqs) && AllBytes(out)
    ensures out <= r && |r| == |out| + ListSize(docs, freqs)
    ensures ListSize(docs, freqs) < WORD ==> Stored(r, |out|, docs, freqs, starts, bytes)
  {
    hide ListOk, AllBytes, Progress, VByte, BlockEncoded, GapsOf, FreqsOf, BlockLast, BlockBase, DocsSum, BlockCount,
         BlockLength, EncodedSize;
    var n := |docs|;
    var blocks := BlockCount(n);
    HeadIsBytes(out, docs, freqs);
    r := EncodeSingle(n, out);
    ghost var head := r;
    var base := |r|;
    ghost var p := Parts(seq(blocks, i => 0), seq(blocks, i => BlockBytes([], [])), {}, {}, {});
    Started(head, docs, freqs, p.starts, p.bytes);
    r := r + seq(DataAt(base, blocks) - base, i => 0);
    PlaceAdded(r, r, head, docs, freqs, p.starts, p.bytes, p.maxs, p.places, p.done, 0, 0);
    p := p.(starts := p.starts[0 := 0], places := p.places + {0});
    var lastDoc, blockBase := SENTINEL, 0;
    FirstBase(docs);
    for b := 0 to blocks
      invariant Holds(r, head, docs, freqs, p) && |p.starts| == blocks
      invariant UpTo(p.maxs, b) && UpTo(p.done, b) && |r| == DataAt(base, blocks) + BlockSizes(docs, freqs, b)
      invariant b < blocks ==> UpTo(p.places, b + 1) && |r| == DataAt(base, blocks) + p.starts[b]
      invariant b == blocks ==> UpTo(p.places, b)
      invariant b < blocks ==>
                  BlockBegin(b) < n && lastDoc == (if b == 0 then SENTINEL else docs[BlockBegin(b) - 1]) && blockBase == BlockBase(docs, b)
    {
      r, lastDoc, p := WriteBlock(r, docs, freqs, b, lastDoc, blockBase, base, head, p);
      NextBase(docs, freqs, b);
      blockBase := (lastDoc + 1) % WORD;
    }
    starts, bytes := p.starts, p.bytes;
    Finished(r, out, docs, freqs, p.starts, p.bytes, p.maxs, p.places, p.done);
  }

  lemma FirstBase(docs: seq<nat>)
    requires BlockCount(|docs|) > 0
    ensures BlockBase(docs, 0) == 0 && BlockBegin(0) < |docs|
  {}

  lemma NextBase(docs: seq<nat>, freqs: seq<nat>, b: nat)
    requires ListOk(docs, freqs) && b < BlockCount(|docs|)
    ensures b + 1 < BlockCount(|docs|) ==>
              && BlockBegin(b + 1) < |docs| && docs[BlockBegin(b + 1) - 1] == BlockLast(docs, b)
              && (BlockLast(docs, b) + 1) % WORD == BlockBase(docs, b + 1)
  {
    hide BlockOk;
    BlockBounds(|docs|, b);
    if b + 1 < BlockCount(|docs|) {
      BlockBounds(|docs|, b + 1);
      OrderedIndices(docs, BlockBegin(b + 1) - 1, BlockBegin(b + 1));
    }
  }

  // ----- finished blocks in any order -----

  /** A block as another writer left it. */
  datatype BlockData = BlockData(index: nat, max: nat, docs: seq<nat>, freqs: seq<nat>)

  ghost predicate IsBlock(d: BlockData, docs: seq<nat>, freqs: seq<nat>)
    requires ListOk(docs, freqs)
  {
    && d.index < BlockCount(|docs|) && d.max == BlockLast(docs, d.index)
    && BlockEncoded(BlockBytes(d.docs, d.freqs), docs, freqs, d.index)
  }

  /** Every block of the list once, block 0 first. */
  ghost predicate InputOk(input: seq<BlockData>, docs: seq<nat>, freqs: seq<nat>) {
    && ListOk(docs, freqs) && |input| == BlockCount(|docs|) > 0 && input[0].index == 0
    && (forall i :: 0 <= i < |input| ==> IsBlock(input[i], docs, freqs))
    && forall i, j :: 0 <= i < j < |input| ==> input[i].index != input[j].index
  }

  method PlaceBlock(out: seq<nat>, d: BlockData, blocks: nat, base: nat, ghost docs: seq<nat>, ghost freqs: seq<nat>,
                    ghost head: seq<nat>, ghost p: Parts)
    returns (r: seq<nat>, ghost q: Parts)
    requires Holds(out, head, docs, freqs, p) && ListOk(docs, freqs)
    requires IsBlock(d, docs, freqs) && base == |head| && blocks == BlockCount(|docs|)
    requires d.index !in p.maxs && d.index !in p.places && d.index !in p.done
    requires d.index == 0 ==> |out| == DataAt(base, blocks)
    ensures Holds(r, head, docs, freqs, q) && |r| == |out| + |d.docs| + |d.freqs|
    ensures q.maxs == p.maxs + {d.index} && q.places == p.places + {d.index} && q.done == p.done + {d.index}
  {
    hide ListOk, Progress, BlockCount, PutWord, BlockLast, BlockEncoded;
    HoldsFacts(out, head, docs, freqs, p);
    var b := d.index;
    var place := |out| - DataAt(base, blocks);
    r := out;
    if b != 0 {
      r := PutWord(r, EndpointAt(base, blocks, b), place);
    }
    PlaceAdded(out, r, head, docs, freqs, p.starts, p.bytes, p.maxs, p.places, p.done, b, place);
    q := p.(starts := p.starts[b := place], places := p.places + {b});
    MaxWritten(r, head, docs, freqs, q.starts, q.bytes, q.maxs, q.places, q.done, b);
    r := PutWord(r, MaxAt(base, b), d.max);
    q := q.(maxs := q.maxs + {b});
    BytesAdded(r, head, docs, freqs, q.starts, q.bytes, q.maxs, q.places, q.done, b, BlockBytes(d.docs, d.freqs));
    r := r + (d.docs + d.freqs);
    q := q.(bytes := q.bytes[b := BlockBytes(d.docs, d.freqs)], done := q.done + {b});
  }

  ghost function InputBytes(input: seq<BlockData>, count: nat): nat
    requires count <= |input|
  {
    if count == 0 then 0 else InputBytes(input, count - 1) + |input[count - 1].docs| + |input[count - 1].freqs|
  }

  /** Length, header and blocks. */
  ghost function InputSize(n: nat, input: seq<BlockData>): int {
    |VByte(n)| + 4 * |input| + 4 * (|input| - 1) + InputBytes(input, |input|)
  }

  /** Lays finished blocks out in the order given. */
  method WriteBlocks(out: seq<nat>, n: nat, input: seq<BlockData>, ghost docs: seq<nat>, ghost freqs: seq<nat>)
    returns (r: seq<nat>, ghost starts: seq<nat>, ghost bytes: seq<BlockBytes>)
    requires InputOk(input, docs, freqs) && n == |docs| && AllBytes(out)
    ensures out <= r && |r| == |out| + InputSize(n, input)
    ensures InputSize(n, input) < WORD ==> Stored(r, |out|, docs, freqs, starts, bytes)
  {
    hide ListOk, AllBytes, Progress, VByte, IsBlock, BlockCount;
    var blocks := |input|;
    HeadIsBytes(out, docs, freqs);
    r := EncodeSingle(n, out);
    ghost var head := r;
    var base := |r|;
    ghost var p := Parts(seq(blocks, i => 0), seq(blocks, i => BlockBytes([], [])), {}, {}, {});
    Started(head, docs, freqs, p.starts, p.bytes);
    r := r + seq(DataAt(base, blocks) - base, i => 0);
    ghost var seen: set<nat> := {};
    for i := 0 to blocks
      invariant Holds(r, head, docs, freqs, p) && p.maxs == p.places == p.done == seen
      invariant |r| == DataAt(base, blocks) + InputBytes(input, i)
      invariant (forall j :: 0 <= j < i ==> input[j].index in seen) && forall b <- seen :: exists j :: 0 <= j < i && input[j].index == b
    {
      r, p := PlaceBlock(r, input[i], blocks, base, docs, freqs, head, p);
      seen := seen + {input[i].index};
    }
    AllPlaced(input, docs, freqs, seen);
    starts, bytes := p.starts, p.bytes;
    Finished(r, out, docs, freqs, p.starts, p.bytes, p.maxs, p.places, p.done);
  }

  /** As many different blocks as there are are all of them. */
  lemma AllPlaced(input: seq<BlockData>, docs: seq<nat>, freqs: seq<nat>, seen: set<nat>)
    requires InputOk(input, docs, freqs) && forall j :: 0 <= j < |input| ==> input[j].index in seen
    ensures forall b :: 0 <= b < BlockCount(|docs|) ==> b in seen
  {
    hide ListOk, BlockCount, BlockEncoded, BlockLast;
    var indices := seq(|input|, i requires 0 <= i < |input| => input[i].index);
    forall i | 0 <= i < |indices| ensures indices[i] < |indices| {
      assert IsBlock(input[i], docs, freqs);
    }
    forall b | 0 <= b < BlockCount(|docs|) ensures b in seen {
      var j := Pigeon(indices, b);
      assert input[j].index == b;
    }
  }

  ghost function Below(n: nat): (s: set<nat>)
    ensures |s| == n && forall i: nat :: i in s <==> i < n
  {
    if n == 0 then {} else Below(n - 1) + {n - 1}
  }

  /** A list of distinct numbers below its length has every such number. */
  lemma Pigeon(s: seq<nat>, b: nat) returns (j: nat)
    requires b < |s| && (forall i :: 0 <= i < |s| ==> s[i] < |s|) && forall i, k :: 0 <= i < k < |s| ==> s[i] != s[k]
    ensures j < |s| && s[j] == b
  {
    if forall i :: 0 <= i < |s| ==> s[i] != b {
      Distinct(s, Below(|s|) - {b});
    }
    j :| 0 <= j < |s| && s[j] == b;
  }

  lemma {:induction false} Distinct(s: seq<nat>, within: set<nat>)
    requires (forall i :: 0 <= i < |s| ==> s[i] in within) && forall i, k :: 0 <= i < k < |s| ==> s[i] != s[k]
    ensures |s| <= |within|
  {
    if s == [] {
    } else {
      var n := |s| - 1;
      Distinct(s[..n], within - {s[n]});
    }
  }
}
