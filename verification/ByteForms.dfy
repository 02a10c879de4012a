/** The stored forms of blocks, block posting lists and QMX stripes, byte by byte and in plain arithmetic. */
module ByteForms {
  import opened Arith
  import opened Bits
  import opened BlockCodecs
  import opened BlockLists
  import opened ByteStrings
  import opened InterpolativeCoding
  import opened QmxCodec
  import opened QmxLanes
  import opened QmxStripes
  import opened QmxWidths
  import opened Slices
  import opened SortedLists

  // ----- bytes -----

  /** The bits of bytes: eight a byte, the lowest first. */
  lemma {:induction false} ByteBit(bytes: seq<nat>, i: nat)
    requires i < 8 * |bytes|
    ensures BytesBits(bytes)[i] <==> ToBits(bytes[i / 8], 8)[i % 8]
  {
    hide ToBits;
    var n := |bytes| - 1;
    if i < 8 * n {
      ByteBit(bytes[..n], i);
      assert BytesBits(bytes)[i] == BytesBits(bytes[..n])[i];
    } else {
      assert i / 8 == n && i % 8 == i - 8 * n;
    }
  }

  lemma WordIs(a: nat, b: nat, c: nat, d: nat)
    ensures WordOf(a, b, c, d) == a + 256 * b + 0x1_0000 * c + 0x100_0000 * d
  {
    hide Shl;
    assert Pow2(8) == 256;
    ShlIsTimes(d, 8);
    ShlIsTimes(c + 256 * d, 8);
    ShlIsTimes(b + 256 * (c + 256 * d), 8);
  }

  /** Variable bytes: digits to the base 128, lowest first, and 128 more on the last one. */
  lemma {:induction false} VByteIs(v: nat)
    ensures v < 128 ==> VByte(v) == [128 + v]
    ensures v >= 128 ==> VByte(v) == [v % 128] + VByte(v / 128)
  {}

  // ----- interpolative blocks -----

  /** Truncated binary of a value up to u - 1: with b the bits u has below its highest and m = 2^(b+1) - u, the first m
      values take b bits, the others one more. */
  lemma IntCodeIs(val: nat, u: nat) returns (b: nat, m: nat)
    requires val < u
    ensures Pow2(b) <= u < Pow2(b + 1) && m == Pow2(b + 1) - u
    ensures val < m ==> IntCode(val, u) == ToBits(val, b)
    ensures val >= m ==> IntCode(val, u) == ToBits((val + m) / 2, b) + [(val + m) % 2 == 1]
  {
    hide Pow2;
    b := Msb(u);
    m := Pow2(b + 1) - u;
    assert ToBits((val + m) % 2, 1) == [(val + m) % 2 == 1] by { OneBitOf((val + m) % 2); }
  }

  lemma {:induction false} OneBitOf(x: nat)
    requires x < 2
    ensures ToBits(x, 1) == [x == 1]
  {
    assert ToBits(x, 1) == [x % 2 == 1] + ToBits(x / 2, 0);
  }

  /** The middle value in its range, then the values before it in the range up to it, then those behind it in the
      range from it. */
  lemma CodeIs(vals: seq<nat>, low: nat, high: nat) returns (h: nat)
    requires Codable(vals, low, high)
    ensures vals == [] ==> Code(vals, low, high) == []
    ensures vals != [] ==>
              && h == |vals| / 2 && h < |vals| && low <= vals[h] <= high
              && Codable(vals[..h], low, vals[h]) && Codable(vals[h + 1..], vals[h], high)
              && Code(vals, low, high) ==
                   IntCode(vals[h] - low, high - low + 1) + Code(vals[..h], low, vals[h]) + Code(vals[h + 1..], vals[h], high)
  {
    hide IntCode, Codable;
    h := |vals| / 2;
    if vals != [] {
      HalvesCodable(vals, low, high);
    }
  }

  /** A block: its sum as variable bytes where the reader is not told it, then the code of the running sums but the
      last, between 0 and the sum, in as few whole bytes as hold it. */
  lemma BlockIs(bytes: seq<nat>, gaps: seq<nat>, sum: nat) returns (head: nat, sums: seq<nat>, code: BitString)
    requires BlockOk(gaps) && Encodes(bytes, gaps, sum)
    ensures sum != 0xFFFF_FFFF ==> head == 0
    ensures sum == 0xFFFF_FFFF ==> head == |VByte(Total(gaps))| && VByte(Total(gaps)) <= bytes
    ensures |sums| == |gaps| - 1 && forall i :: 0 <= i < |sums| ==> sums[i] == Total(gaps[..i + 1])
    ensures Codable(sums, 0, Total(gaps)) && code == Code(sums, 0, Total(gaps))
    ensures head <= |bytes| && code <= BytesBits(bytes[head..])
    ensures 8 * (|bytes| - head) - 8 < |code| <= 8 * (|bytes| - head)
    ensures |bytes| == EncodedSize(gaps, sum)
  {
    InnerCodable(gaps);
    sums, code := Inner(gaps), Code(Inner(gaps), 0, Total(gaps));
    head := if sum == 0xFFFF_FFFF then |VByte(Total(gaps))| else 0;
    EncodedIs(bytes, gaps, sum);
  }

  lemma EncodedIs(bytes: seq<nat>, gaps: seq<nat>, sum: nat)
    requires BlockOk(gaps) && Encodes(bytes, gaps, sum)
    ensures |bytes| == EncodedSize(gaps, sum)
  {}

  lemma {:induction false} TotalIs(s: seq<nat>, v: nat)
    ensures Total([]) == 0 && Total(s + [v]) == Total(s) + v
  {
    assert (s + [v])[..|s|] == s;
  }

  // ----- block posting lists -----

  /** Blocks of 128 postings; the last one has what is left. */
  lemma BlocksAre(n: nat, b: nat)
    requires n > 0
    ensures var count := BlockCount(n); 128 * (count - 1) < n <= 128 * count
    ensures BlockBegin(b) == 128 * b
    ensures b + 1 < BlockCount(n) ==> BlockLength(n, b) == 128
    ensures b + 1 == BlockCount(n) ==> BlockLength(n, b) == n - 128 * b
  {}

  /** What a block holds: of every document its distance from the one before, less one, the first document of the list
      itself; of every frequency one less. */
  lemma GapsAre(docs: seq<nat>, freqs: seq<nat>, b: nat, i: nat)
    requires ListOk(docs, freqs) && b < BlockCount(|docs|) && i < BlockLength(|docs|, b)
    ensures var j := 128 * b + i;
            && j < |docs| && GapsOf(docs, b)[i] == (if j == 0 then docs[0] else docs[j] - docs[j - 1] - 1)
            && FreqsOf(freqs, b)[i] == freqs[j] - 1
  {
    hide BlockOk;
    BlockBounds(|docs|, b);
    BlockBounds(|freqs|, b);
    var j := BlockBegin(b) + i;
    assert j == 0 || docs[j - 1] < docs[j];
  }

  /** Where things stand in a list: its length, every block's last document, where every block but the first begins,
      counted from the end of these, and the blocks, documents before frequencies. */
  lemma ListIs(data: seq<nat>, start: nat, docs: seq<nat>, freqs: seq<nat>, starts: seq<nat>, bytes: seq<BlockBytes>,
               b: nat)
    returns (count: nat, maxs: nat, blocks: nat)
    requires Stored(data, start, docs, freqs, starts, bytes) && b < BlockCount(|docs|)
    ensures count == BlockCount(|docs|) == |starts| == |bytes| && maxs == start + |VByte(|docs|)|
    ensures At(data, start, VByte(|docs|))
    ensures blocks == maxs + 4 * count + 4 * (count - 1)
    ensures WordStands(data, maxs + 4 * b, docs[if b + 1 < count then 128 * b + 127 else |docs| - 1])
    ensures starts[0] == 0 && (b > 0 ==> WordStands(data, maxs + 4 * count + 4 * (b - 1), starts[b]))
    ensures At(data, blocks + starts[b], bytes[b].docs + bytes[b].freqs)
    ensures DocsSum(docs, b) == Total(GapsOf(docs, b)) && BlockOk(GapsOf(docs, b)) && BlockOk(FreqsOf(freqs, b))
    ensures Encodes(bytes[b].docs, GapsOf(docs, b), DocsSum(docs, b))
    ensures Encodes(bytes[b].freqs, FreqsOf(freqs, b), 0xFFFF_FFFF)
  {
    hide WordOf, At, VByte, GapsOf, FreqsOf, DocsSum, BlockOk, ListOk, Encodes, AllBytes;
    count, maxs := BlockCount(|docs|), start + |VByte(|docs|)|;
    blocks := maxs + 4 * count + 4 * (count - 1);
    BlocksAre(|docs|, b);
    assert BlockStored(data, maxs, docs, freqs, starts, bytes, b);
    assert BlockStored(data, maxs, docs, freqs, starts, bytes, 0);
    WordStandsAt(data, maxs + 4 * b, BlockLast(docs, b));
    if b > 0 { WordStandsAt(data, maxs + 4 * count + 4 * (b - 1), starts[b]); }
    DocsFit(docs, freqs, b);
  }

  lemma WordStandsAt(data: seq<nat>, at: nat, v: nat)
    requires BlockLists.WordAt(data, at, v)
    ensures WordStands(data, at, v)
  {
    WordIs(data[at], data[at + 1], data[at + 2], data[at + 3]);
  }

  /** A list takes its length, four bytes for every block and four more for every block but the first, and the
      blocks. */
  lemma {:induction false} ListSizeIs(docs: seq<nat>, freqs: seq<nat>, b: nat)
    requires ListOk(docs, freqs) && b < BlockCount(|docs|)
    ensures ListSize(docs, freqs)
         == |VByte(|docs|)| + 8 * BlockCount(|docs|) - 4 + BlockSizes(docs, freqs, BlockCount(|docs|))
    ensures BlockSizes(docs, freqs, 0) == 0
    ensures BlockOk(GapsOf(docs, b)) && BlockOk(FreqsOf(freqs, b))
    ensures BlockSizes(docs, freqs, b + 1) == BlockSizes(docs, freqs, b)
              + EncodedSize(GapsOf(docs, b), Total(GapsOf(docs, b))) + EncodedSize(FreqsOf(freqs, b), 0xFFFF_FFFF)
  {
    hide ListOk, BlockOk, EncodedSize, GapsOf, FreqsOf, DocsSum, BlockCount, VByte;
    DocsFit(docs, freqs, b);
  }

  ghost predicate WordStands(data: seq<nat>, at: nat, v: nat) {
    at + 4 <= |data| && data[at] + 256 * data[at + 1] + 0x1_0000 * data[at + 2] + 0x100_0000 * data[at + 3] == v
  }

  // ----- QMX stripes -----

  /** The widths in the order of their types, and which integers each takes. */
  lemma TypesAre(t: nat, v: nat)
    requires t < 16
    ensures var w := [0, 1, 2, 3, 4, 5, 6, 7, 8, 9, 10, 12, 16, 21, 32, 128][t];
            && WidthOf(t) == w && IsWidth(w) && TypeOf(w) == t
            && (Fits(w, v) <==> if w == 0 then v == 1 else if w == 128 then v < 0x1_0000_0000 else v < Pow2(w))
  {
    hide Pow2;
    WordIsPower();
  }

  /** A stripe of width 0 takes no bytes and stands for 256 ones, one of width 128 is a single integer. All others are
      four lanes of 32 bits, or pairs of such lanes, as full as they get. */
  lemma StripesAreFull(w: nat)
    requires IsWidth(w)
    ensures w == 0 ==> Size(w) == 256 && StripeBytes(w) == 0
    ensures w == 128 ==> Size(w) == 1 && StripeBytes(w) == 4
    ensures 0 < w < 128 ==>
              StripeBytes(w) == (if w in {7, 9, 12, 21} then 32 else 16) && Size(w) == 4 * (2 * StripeBytes(w) / w)
  {}

  /** The top four bits of a key are the type, the low four say 16 less the number of stripes. */
  lemma KeyIs(c: Chunk)
    requires ChunkOk(c)
    ensures KeyOf(c) == 16 * TypeOf(c.width) + 16 - c.batch
  {
    hide Or, Shl;
    assert Pow2(4) == 16;
    OrOverClear(15 - (c.batch - 1), TypeOf(c.width), 4);
    ShlIsTimes(TypeOf(c.width), 4);
  }

  /** Integer 4 * j + l of a stripe stands in lane l, behind the j before it there. */
  lemma {:induction false} LaneHolds(w: nat, c: seq<nat>, j: nat)
    requires AllFitIn(c, w) && j < |c|
    ensures Lane(w, c) / Pow2(j * w) % Pow2(w) == c[j]
  {
    hide Shr, Low, Pow2, Lane;
    ShiftedLane(w, c, j);
    ShrIsDivision(Lane(w, c), j * w);
    ShrIsDivision(Lane(w, c[j..]), w);
    LaneShift(w, c[j..]);
  }

  lemma {:induction false} ShiftedLane(w: nat, c: seq<nat>, j: nat)
    requires AllFitIn(c, w) && j < |c|
    ensures Shr(Lane(w, c), j * w) == Lane(w, c[j..])
  {
    hide Low, Pow2, Lane, Shr;
    if j == 0 {
      assert c[0..] == c;
      NoShift(Lane(w, c));
    } else {
      ShiftedLane(w, c, j - 1);
      LaneShift(w, c[j - 1..]);
      assert c[j - 1..][1..] == c[j..];
      assert (j - 1) * w + w == j * w;
      ShrShr(Lane(w, c), (j - 1) * w, w);
    }
  }

  lemma {:induction false} NoShift(v: nat)
    ensures Shr(v, 0) == v
  {}

  /** In a stripe of one word a lane, that is where the integers are. */
  lemma {:induction false} PlainStripe(bytes: seq<nat>, w: nat, vs: seq<nat>, i: nat)
    requires IsPlain(w) && StripeStored(bytes, w, vs) && i < |vs|
    ensures |bytes| == 16 && WordsOf(bytes)[i % 4] / Pow2(i / 4 * w) % Pow2(w) == vs[i]
  {
    hide Lane, Pow2, Column;
    var l, j, groups := i % 4, i / 4, Groups(w);
    ColumnAt(vs, l, groups, j);
    FitsIn(w, vs);
    ColumnFits(vs, l, groups, w);
    LaneHolds(w, Column(vs, l, groups), j);
  }

  lemma FitsIn(w: nat, vs: seq<nat>)
    requires 0 < w < 128 && AllFits(w, vs)
    ensures AllFitIn(vs, w)
  {
    forall i | 0 <= i < |vs| ensures vs[i] < Pow2(w) { assert Fits(w, vs[i]); }
  }

  /** In a split stripe the lanes of the first word hold p.first groups, the last of them only its p.kept low bits;
      the lanes of the second word begin with what is missing and go on, from bit p.offset, with the other groups. */
  lemma SplitStripe(bytes: seq<nat>, w: nat, vs: seq<nat>, l: nat, j: nat) returns (p: Split, first: nat, second: nat)
    requires IsSplit(w) && StripeStored(bytes, w, vs) && l < 4 && 4 * j + l < |vs|
    ensures |bytes| == 32 && first == WordsOf(bytes[..16])[l] && second == WordsOf(bytes[16..])[l]
    ensures w == 7 ==> p == Split(7, 5, 4, 3, 4)
    ensures w == 9 ==> p == Split(9, 4, 5, 4, 3)
    ensures w == 12 ==> p == Split(12, 3, 8, 8, 2)
    ensures w == 21 ==> p == Split(21, 2, 11, 11, 1)
    ensures j + 1 < p.first ==> first / Pow2(j * w) % Pow2(w) == vs[4 * j + l]
    ensures j + 1 == p.first ==>
              first / Pow2(j * w) % Pow2(w) == vs[4 * j + l] % Pow2(p.kept) &&
              second % Pow2(p.offset) == vs[4 * j + l] / Pow2(p.kept)
    ensures j >= p.first ==> second / Pow2(p.offset) / Pow2((j - p.first) * w) % Pow2(w) == vs[4 * j + l]
  {
    hide Pow2, Packs, PacksSecond, Cut, Spill, AllFits, AllFitIn;
    p := SplitOf(w);
    first, second := WordsOf(bytes[..16])[l], WordsOf(bytes[16..])[l];
    FitsIn(w, vs);
    if j < p.first { FirstOfPair(WordsOf(bytes[..16]), vs, p, l, j); }
    PartsOfSecond(WordsOf(bytes[16..]), vs, p, l);
    if j >= p.first { SecondOfPair(WordsOf(bytes[16..]), vs, p, l, j); }
  }

  lemma {:induction false} FirstOfPair(words: seq<nat>, vs: seq<nat>, p: Split, l: nat, j: nat)
    requires Sound(p) && |vs| == 4 * (p.first + p.second) && AllFitIn(vs, p.w) && l < 4 && j < p.first
    requires Packs(words, Cut(vs, p), p.w, p.first)
    ensures words[l] / Pow2(j * p.w) % Pow2(p.w) ==
            if j + 1 < p.first then vs[4 * j + l] else vs[4 * j + l] % Pow2(p.kept)
  {
    hide Lane, Pow2, Column, Low;
    CutFits(vs, p);
    ColumnAt(Cut(vs, p), l, p.first, j);
    ColumnFits(Cut(vs, p), l, p.first, p.w);
    LaneHolds(p.w, Column(Cut(vs, p), l, p.first), j);
    ShrIsDivision(vs[4 * j + l], p.kept);
  }

  /** A second word in two parts: what was missing, and its lane from there on. */
  lemma {:induction false} PartsOfSecond(words: seq<nat>, vs: seq<nat>, p: Split, l: nat)
    requires Sound(p) && p.w <= 32 && |vs| == 4 * (p.first + p.second) && AllFitIn(vs, p.w) && l < 4
    requires PacksSecond(words, Spill(vs, p), vs[4 * p.first..], p, 4 * p.second)
    ensures |words| == 4 && words[l] % Pow2(p.offset) == vs[4 * (p.first - 1) + l] / Pow2(p.kept)
    ensures words[l] / Pow2(p.offset) == Lane(p.w, Column(vs[4 * p.first..], l, p.second))
  {
    hide Lane, Pow2, Column, Low, Shr, Shl, Or, PacksSecond, Cut;
    var spilled, rest := vs[4 * (p.first - 1) + l], Lane(p.w, Column(vs[4 * p.first..], l, p.second));
    SecondOf(words, vs, p, l);
    SplitBack(spilled, rest, p);
    PartsOfSum(Shr(spilled, p.kept), rest, p.offset);
    ShrIsDivision(words[l], p.offset);
    ShrIsDivision(spilled, p.kept);
  }

  lemma {:induction false} SecondOfPair(words: seq<nat>, vs: seq<nat>, p: Split, l: nat, j: nat)
    requires Sound(p) && p.w <= 32 && |vs| == 4 * (p.first + p.second) && AllFitIn(vs, p.w) && l < 4
    requires p.first <= j < p.first + p.second
    requires PacksSecond(words, Spill(vs, p), vs[4 * p.first..], p, 4 * p.second)
    ensures words[l] / Pow2(p.offset) / Pow2((j - p.first) * p.w) % Pow2(p.w) == vs[4 * j + l]
  {
    hide Lane, Pow2, Column, PacksSecond, Cut, Spill;
    var us := vs[4 * p.first..];
    CutFits(vs, p);
    ColumnFits(us, l, p.second, p.w);
    PartsOfSecond(words, vs, p, l);
    ColumnAt(us, l, p.second, j - p.first);
    LaneHolds(p.w, Column(us, l, p.second), j - p.first);
  }

  lemma {:induction false} SecondOf(second: seq<nat>, vs: seq<nat>, p: Split, l: nat)
    requires p.first > 0 && |vs| == 4 * (p.first + p.second) && l < 4
    requires PacksSecond(second, Spill(vs, p), vs[4 * p.first..], p, 4 * p.second)
    ensures |second| == 4 && second[l] == Shr(vs[4 * (p.first - 1) + l], p.kept)
                                        + Shl(Lane(p.w, Column(vs[4 * p.first..], l, p.second)), p.offset)
  {
    hide Lane, Shl, Shr, Column;
    AllCounted(p.second, l);
    assert SecondLane(second[l], Spill(vs, p), vs[4 * p.first..], p, 4 * p.second, l);
    SpillAt(vs, p, l);
  }

  lemma AllCounted(n: nat, l: nat)
    requires l < 4
    ensures CountIn(4 * n, l) == n
  {}

  lemma SpillAt(vs: seq<nat>, p: Split, l: nat)
    requires p.first > 0 && |vs| == 4 * (p.first + p.second) && l < 4
    ensures Spill(vs, p)[l] == Shr(vs[4 * (p.first - 1) + l], p.kept)
  {
    hide Shr;
  }

  /** Widths 8, 16, 32 and 128 are bytes, pairs and fours of bytes, the lowest first. */
  lemma WholeBytes(bytes: seq<nat>, w: nat, vs: seq<nat>, i: nat)
    requires w in {8, 16, 32, 128} && StripeStored(bytes, w, vs) && i < |vs|
    ensures w == 8 ==> |bytes| == |vs| && bytes[i] == vs[i]
    ensures w == 16 ==> |bytes| == 2 * |vs| && bytes[2 * i] + 256 * bytes[2 * i + 1] == vs[i]
    ensures w >= 32 ==> |bytes| == 4 * |vs| && WordStands(bytes, 4 * i, vs[i])
  {
    hide WordOf, Shl;
    if w == 16 {
      assert PairAt(bytes, vs, i);
      assert Pow2(8) == 256;
      ShlIsTimes(bytes[2 * i + 1], 8);
    }
    if w >= 32 { WordsAre(bytes, i); }
  }

  /** Four bytes a word, the lowest first. */
  lemma {:induction false} WordsAre(bytes: seq<nat>, i: nat)
    requires |bytes| % 4 == 0 && 4 * i < |bytes|
    ensures WordStands(bytes, 4 * i, WordsOf(bytes)[i])
  {
    hide WordOf;
    var n := |bytes|;
    if 4 * i == n - 4 {
      WordIs(bytes[n - 4], bytes[n - 3], bytes[n - 2], bytes[n - 1]);
    } else {
      WordsAre(bytes[..n - 4], i);
    }
  }
}
