/** `compact_ranked_bitvector`: layout and writer. */
module RankedBitvector {
  import opened Arith
  import opened Bits
  import opened BitVectors
  import opened GlobalParameters
  import opened Sampling
  import opened Slices
  import opened SortedLists

  datatype Offsets = Offsets(
    universe: nat, n: nat, logRank1Sampling: nat, logSampling1: nat,
    rankSize: nat, pointerSize: nat, rankSamples: nat, pointers1: nat,
    rankOffset: nat, pointers1Offset: nat, bitsOffset: nat, end: nat)

  function MakeOffsets(base: nat, universe: nat, n: nat, params: Parameters): Offsets
    requires universe > 0
  {
    hide Shr, Pow2, CeilLog2;
    var rankSize := CeilLog2(n + 1);
    var pointerSize := CeilLog2(universe);
    var rankSamples := Shr(universe, params.rbLogRank1Sampling);
    var pointers1 := Shr(n, params.rbLogSampling1);
    var pointers1Offset := base + rankSamples * rankSize;
    var bitsOffset := pointers1Offset + pointers1 * pointerSize;
    Offsets(universe, n, params.rbLogRank1Sampling, params.rbLogSampling1,
            rankSize, pointerSize, rankSamples, pointers1, base, pointers1Offset, bitsOffset, bitsOffset + universe)
  }

  /** How the fields hang together. */
  ghost predicate Consistent(o: Offsets) {
    && o.n + 1 <= Pow2(o.rankSize) && o.universe <= Pow2(o.pointerSize)
    && o.rankSamples == Shr(o.universe, o.logRank1Sampling) && o.pointers1 == Shr(o.n, o.logSampling1)
    && o.pointers1Offset == o.rankOffset + o.rankSamples * o.rankSize
    && o.bitsOffset == o.pointers1Offset + o.pointers1 * o.pointerSize
    && o.end == o.bitsOffset + o.universe
  }

  lemma MadeConsistent(base: nat, universe: nat, n: nat, params: Parameters)
    requires universe > 0
    ensures var o := MakeOffsets(base, universe, n, params);
            Consistent(o) && o.rankOffset == base && o.universe == universe && o.n == n
  {
    hide Shr, Pow2, CeilLog2;
  }

  function BitSize(params: Parameters, universe: nat, n: nat): nat
    requires universe > 0
  {
    MakeOffsets(0, universe, n, params).end
  }

  lemma OffsetsShift(base: nat, universe: nat, n: nat, params: Parameters)
    requires universe > 0
    ensures MakeOffsets(base, universe, n, params).end == base + BitSize(params, universe, n)
  {}

  lemma RegionsOrdered(o: Offsets)
    requires Consistent(o)
    ensures o.rankOffset <= o.pointers1Offset <= o.bitsOffset <= o.end == o.bitsOffset + o.universe
  {}

  ghost predicate IncreasingUpTo(vals: seq<nat>, n: nat)
    requires n <= |vals|
  {
    forall i, j :: 0 <= i < j < n ==> vals[i] < vals[j]
  }

  ghost predicate SizedFor(o: Offsets, vals: seq<nat>) {
    Consistent(o) && |vals| == o.n && AllBelow(vals, o.universe)
  }

  ghost predicate Fits(o: Offsets, vals: seq<nat>) {
    SizedFor(o, vals) && Increasing(vals)
  }

  function BitPosition(o: Offsets, v: nat): nat {
    o.bitsOffset + v
  }

  ghost function Ones(o: Offsets, vals: seq<nat>): (ones: seq<nat>)
    ensures |ones| == |vals|
  {
    seq(|vals|, i requires 0 <= i < |vals| => BitPosition(o, vals[i]))
  }

  function Pointer1At(o: Offsets, ptr: nat): nat
    requires ptr > 0
  {
    o.pointers1Offset + (ptr - 1) * o.pointerSize
  }

  function RankAt(o: Offsets, sample: nat): nat
    requires sample > 0
  {
    o.rankOffset + (sample - 1) * o.rankSize
  }

  ghost predicate Pointer1Stored(bits: BitString, o: Offsets, vals: seq<nat>, ptr: nat)
    requires ptr > 0
  {
    var i := Shl(ptr, o.logSampling1);
    i < |vals| && FieldStored(bits, Pointer1At(o, ptr), o.pointerSize, vals[i])
  }

  /** A rank sample holds the number of values below its place. */
  ghost predicate RankStored(bits: BitString, o: Offsets, vals: seq<nat>, sample: nat)
    requires sample > 0
  {
    FieldStored(bits, RankAt(o, sample), o.rankSize, LowerBound(vals, Shl(sample, o.logRank1Sampling)))
  }

  ghost predicate Pointers1Done(bits: BitString, o: Offsets, vals: seq<nat>, count: nat) {
    forall ptr :: 1 <= ptr < count ==> Pointer1Stored(bits, o, vals, ptr)
  }

  ghost predicate RanksDone(bits: BitString, o: Offsets, vals: seq<nat>, count: nat) {
    forall sample :: 1 <= sample < count ==> RankStored(bits, o, vals, sample)
  }

  ghost predicate OnesDone(bits: BitString, o: Offsets, vals: seq<nat>, i: nat)
    requires i <= |vals|
  {
    OnesAre(bits, o.bitsOffset, o.end, Ones(o, vals)[..i])
  }

  /** The bits hold the whole sequence. */
  ghost predicate Stored(bits: BitString, o: Offsets, vals: seq<nat>) {
    && Fits(o, vals) && o.end <= |bits|
    && OnesAre(bits, o.bitsOffset, o.end, Ones(o, vals))
    && Pointers1Done(bits, o, vals, CeilDiv(o.n, Pow2(o.logSampling1)))
    && RanksDone(bits, o, vals, CeilDiv(o.universe, Pow2(o.logRank1Sampling)))
  }

  // ----- what a write elsewhere leaves alone -----

  lemma OnesKept(a: BitString, b: BitString, o: Offsets, vals: seq<nat>, i: nat, from: nat, to: nat)
    requires i <= |vals| && OnesDone(b, o, vals, i) && SameOutside(a, b, from, to) && to <= o.bitsOffset
    ensures OnesDone(a, o, vals, i)
  {
    hide Ones;
  }

  lemma Pointers1Kept(a: BitString, b: BitString, o: Offsets, vals: seq<nat>, count: nat, from: nat, to: nat)
    requires Pointers1Done(b, o, vals, count) && SameOutside(a, b, from, to)
    requires to <= o.pointers1Offset || (count > 1 ==> Pointer1At(o, count) <= from)
    ensures Pointers1Done(a, o, vals, count)
  {
    hide FieldStored, Shl, SameOutside;
    forall ptr | 1 <= ptr < count ensures Pointer1Stored(a, o, vals, ptr) {
      assert Pointer1Stored(b, o, vals, ptr);
      FieldInside(ptr - 1, count - 1, o.pointerSize);
      FieldKept(a, b, Pointer1At(o, ptr), o.pointerSize, vals[Shl(ptr, o.logSampling1)], from, to);
    }
  }

  lemma RanksKept(a: BitString, b: BitString, o: Offsets, vals: seq<nat>, count: nat, from: nat, to: nat)
    requires RanksDone(b, o, vals, count) && SameOutside(a, b, from, to)
    requires count > 1 ==> RankAt(o, count) <= from
    ensures RanksDone(a, o, vals, count)
  {
    hide FieldStored, Shl, SameOutside, LowerBound;
    forall sample | 1 <= sample < count ensures RankStored(a, o, vals, sample) {
      assert RankStored(b, o, vals, sample);
      FieldInside(sample - 1, count - 1, o.rankSize);
      FieldKept(a, b, RankAt(o, sample), o.rankSize, LowerBound(vals, Shl(sample, o.logRank1Sampling)), from, to);
    }
  }

  lemma Pointers1KeptHigher(a: BitString, b: BitString, o: Offsets, vals: seq<nat>, count: nat, from: nat, to: nat)
    requires Consistent(o) && Pointers1Done(b, o, vals, count) && SameOutside(a, b, from, to)
    requires o.bitsOffset <= from && count <= o.pointers1 + 1
    ensures Pointers1Done(a, o, vals, count)
  {
    hide SameOutside, Pointers1Done;
    if count > 1 {
      MulMonotone(count - 1, o.pointers1, o.pointerSize);
    }
    Pointers1Kept(a, b, o, vals, count, from, to);
  }

  lemma RanksKeptHigher(a: BitString, b: BitString, o: Offsets, vals: seq<nat>, count: nat, from: nat, to: nat)
    requires Consistent(o) && RanksDone(b, o, vals, count) && SameOutside(a, b, from, to)
    requires o.pointers1Offset <= from && count <= o.rankSamples + 1
    ensures RanksDone(a, o, vals, count)
  {
    hide SameOutside, RanksDone;
    if count > 1 {
      MulMonotone(count - 1, o.rankSamples, o.rankSize);
    }
    RanksKept(a, b, o, vals, count, from, to);
  }

  lemma {:induction false} SamplesInRange(o: Offsets, ptr: nat)
    requires Consistent(o)
    ensures Shl(ptr, o.logSampling1) < o.n ==> ptr <= o.pointers1
    ensures Shl(ptr, o.logRank1Sampling) < o.universe ==> ptr <= o.rankSamples
  {
    hide Shl, CeilDiv;
    SampleCount(o.n, o.logSampling1);
    SampleCount(o.universe, o.logRank1Sampling);
    PtrBelow(ptr, o.n, o.logSampling1);
    PtrBelow(ptr, o.universe, o.logRank1Sampling);
  }

  lemma Pointer1Field(o: Offsets, ptr: nat)
    requires Consistent(o) && 0 < ptr <= o.pointers1
    ensures o.pointers1Offset <= Pointer1At(o, ptr) && Pointer1At(o, ptr) + o.pointerSize <= o.bitsOffset
  {
    hide Shr, Pow2;
    FieldInside(ptr - 1, o.pointers1, o.pointerSize);
  }

  lemma RankField(o: Offsets, sample: nat)
    requires Consistent(o) && 0 < sample <= o.rankSamples
    ensures o.rankOffset <= RankAt(o, sample) && RankAt(o, sample) + o.rankSize <= o.pointers1Offset
  {
    hide Shr, Pow2;
    FieldInside(sample - 1, o.rankSamples, o.rankSize);
  }

  // ----- the writer -----

  ghost predicate Progress(start: BitString, bits: BitString, o: Offsets, vals: seq<nat>, ones: nat, count1: nat,
                           ranks: nat) {
    && SizedFor(o, vals) && ones <= |vals|
    && |start| == o.rankOffset && |bits| == o.end && start <= bits
    && OnesDone(bits, o, vals, ones)
    && Pointers1Done(bits, o, vals, count1) && RanksDone(bits, o, vals, ranks)
    && count1 <= o.pointers1 + 1 && ranks <= o.rankSamples + 1
  }

  lemma OneWritten(start: BitString, b: BitString, o: Offsets, vals: seq<nat>, i: nat, count1: nat, ranks: nat)
    requires Progress(start, b, o, vals, i, count1, ranks) && i < |vals| && IncreasingUpTo(vals, i + 1)
    ensures o.bitsOffset + vals[i] < |b|
    ensures Progress(start, b[o.bitsOffset + vals[i] := true], o, vals, i + 1, count1, ranks)
  {
    hide Consistent, Pointers1Done, RanksDone, OnesAre;
    RegionsOrdered(o);
    var p := o.bitsOffset + vals[i];
    var a := b[p := true];
    assert SameOutside(a, b, p, p + 1);
    PrefixKept(start, a, b, p, p + 1);
    Pointers1KeptHigher(a, b, o, vals, count1, p, p + 1);
    RanksKeptHigher(a, b, o, vals, ranks, p, p + 1);
    var ones := Ones(o, vals);
    OneMore(b, o.bitsOffset, o.end, ones[..i], p);
    assert ones[..i + 1] == ones[..i] + [p];
  }

  lemma {:induction false} Pointer1Written(start: BitString, b: BitString, o: Offsets, vals: seq<nat>, ones: nat,
                                           ptr: nat, ranks: nat)
    requires Progress(start, b, o, vals, ones, ptr, ranks) && 0 < ptr
    requires Shl(ptr, o.logSampling1) < |vals|
    ensures Pointer1At(o, ptr) + o.pointerSize <= |b|
    ensures Progress(start, SetBits(b, Pointer1At(o, ptr), vals[Shl(ptr, o.logSampling1)], o.pointerSize), o, vals,
                     ones, ptr + 1, ranks)
  {
    hide SetBits, SameOutside, Pointers1Done, RanksDone, OnesDone, Shl, Shr, Pow2, FieldStored, Pointer1At;
    RegionsOrdered(o);
    SamplesInRange(o, ptr);
    Pointer1Field(o, ptr);
    var v := vals[Shl(ptr, o.logSampling1)];
    var from, to := Pointer1At(o, ptr), Pointer1At(o, ptr) + o.pointerSize;
    FieldWritten(b, from, v, o.pointerSize);
    var a := SetBits(b, from, v, o.pointerSize);
    PrefixKept(start, a, b, from, to);
    OnesKept(a, b, o, vals, ones, from, to);
    RanksKeptHigher(a, b, o, vals, ranks, from, to);
    Pointers1Kept(a, b, o, vals, ptr, from, to);
    Pointers1More(a, o, vals, ptr);
  }

  lemma Pointers1More(a: BitString, o: Offsets, vals: seq<nat>, ptr: nat)
    requires ptr > 0 && Pointers1Done(a, o, vals, ptr) && Pointer1Stored(a, o, vals, ptr)
    ensures Pointers1Done(a, o, vals, ptr + 1)
  {
    hide Pointer1Stored;
  }

  lemma RanksMore(a: BitString, o: Offsets, vals: seq<nat>, sample: nat)
    requires sample > 0 && RanksDone(a, o, vals, sample) && RankStored(a, o, vals, sample)
    ensures RanksDone(a, o, vals, sample + 1)
  {
    hide RankStored;
  }

  lemma {:induction false} RankWritten(start: BitString, b: BitString, o: Offsets, vals: seq<nat>, ones: nat,
                                       count1: nat, sample: nat, rank: nat)
    requires Progress(start, b, o, vals, ones, count1, sample) && 0 < sample
    requires Shl(sample, o.logRank1Sampling) < o.universe && rank == LowerBound(vals, Shl(sample, o.logRank1Sampling))
    ensures RankAt(o, sample) + o.rankSize <= |b|
    ensures Progress(start, SetBits(b, RankAt(o, sample), rank, o.rankSize), o, vals, ones, count1, sample + 1)
  {
    hide SetBits, SameOutside, Pointers1Done, RanksDone, OnesDone, Shl, Shr, Pow2, FieldStored, RankAt, AllBelow;
    RegionsOrdered(o);
    SamplesInRange(o, sample);
    RankField(o, sample);
    var from, to := RankAt(o, sample), RankAt(o, sample) + o.rankSize;
    FieldWritten(b, from, rank, o.rankSize);
    var a := SetBits(b, from, rank, o.rankSize);
    PrefixKept(start, a, b, from, to);
    OnesKept(a, b, o, vals, ones, from, to);
    Pointers1Kept(a, b, o, vals, count1, from, to);
    RanksKept(a, b, o, vals, sample, from, to);
    RanksMore(a, o, vals, sample);
  }

  /** From behind value i - 1 up to value i, i values are passed. */
  ghost predicate SameRank(o: Offsets, vals: seq<nat>, begin: nat, end: nat, rank: nat) {
    && 0 < begin && end <= o.universe && rank <= |vals|
    && forall q :: begin <= q < end ==> LowerBound(vals, q) == rank
  }

  method SetRank1Samples(bvb: BitVectorBuilder, o: Offsets, begin: nat, end: nat, rank: nat,
                         ghost start: BitString, ghost vals: seq<nat>, ghost ones: nat, ghost count1: nat)
    requires begin <= end && SameRank(o, vals, begin, end, rank)
    requires Progress(start, bvb.bits, o, vals, ones, count1, CeilDiv(begin, Pow2(o.logRank1Sampling)))
    modifies bvb
    ensures Progress(start, bvb.bits, o, vals, ones, count1, CeilDiv(end, Pow2(o.logRank1Sampling)))
  {
    hide Progress, Shl, Pow2, CeilDiv, SetBits, RankAt, LowerBound;
    var sample := CeilDiv(begin, Pow2(o.logRank1Sampling));
    CeilDivMonotone(begin, end, Pow2(o.logRank1Sampling));
    PtrBelow(sample, end, o.logRank1Sampling);
    FirstPointer(begin, o.logRank1Sampling);
    while Shl(sample, o.logRank1Sampling) < end
      invariant CeilDiv(begin, Pow2(o.logRank1Sampling)) <= sample <= CeilDiv(end, Pow2(o.logRank1Sampling))
      invariant Progress(start, bvb.bits, o, vals, ones, count1, sample)
      invariant Shl(sample, o.logRank1Sampling) < end <==> sample < CeilDiv(end, Pow2(o.logRank1Sampling))
      decreases CeilDiv(end, Pow2(o.logRank1Sampling)) - sample
    {
      if sample != 0 {
        PtrBelow(sample, begin, o.logRank1Sampling);
        assert LowerBound(vals, Shl(sample, o.logRank1Sampling)) == rank;
        RankWritten(start, bvb.bits, o, vals, ones, count1, sample, rank);
        bvb.SetField(RankAt(o, sample), rank, o.rankSize);
      }
      sample := sample + 1;
      PtrBelow(sample, end, o.logRank1Sampling);
    }
  }

  ghost function LastBit(vals: seq<nat>, i: nat): nat
    requires i <= |vals|
  {
    if i == 0 then 0 else vals[i - 1]
  }

  lemma RankBefore(o: Offsets, vals: seq<nat>, i: nat)
    requires SizedFor(o, vals) && i < |vals| && IncreasingUpTo(vals, i + 1)
    ensures SameRank(o, vals, LastBit(vals, i) + 1, vals[i] + 1, i) && LastBit(vals, i) <= vals[i]
  {
    hide Consistent;
    forall q | LastBit(vals, i) + 1 <= q < vals[i] + 1 ensures LowerBound(vals, q) == i {
      LowerBoundIsUnique(vals, q, i);
    }
  }

  lemma RankBehind(o: Offsets, vals: seq<nat>)
    requires Fits(o, vals) && o.universe > 0
    ensures SameRank(o, vals, LastBit(vals, |vals|) + 1, o.universe, |vals|) && LastBit(vals, |vals|) + 1 <= o.universe
  {
    hide Consistent;
    forall q | LastBit(vals, |vals|) + 1 <= q < o.universe ensures LowerBound(vals, q) == |vals| {
      LowerBoundIsUnique(vals, q, |vals|);
    }
  }

  lemma Started(start: BitString, o: Offsets, vals: seq<nat>)
    requires SizedFor(o, vals) && |start| == o.rankOffset
    ensures o.end >= |start|
    ensures Progress(start, start + seq(o.end - |start|, i => false), o, vals, 0, CeilDiv(0, Pow2(o.logSampling1)),
                     CeilDiv(1, Pow2(o.logRank1Sampling)))
  {
    hide Consistent, AllBelow, CeilDiv, Pow2;
    RegionsOrdered(o);
    BelowCeilDiv(0, 0, Pow2(o.logSampling1));
    BelowCeilDiv(1, 1, Pow2(o.logRank1Sampling));
  }

  lemma ProgressKeepsStart(start: BitString, bits: BitString, o: Offsets, vals: seq<nat>, ones: nat, count1: nat,
                           ranks: nat)
    requires Progress(start, bits, o, vals, ones, count1, ranks)
    ensures start <= bits && |bits| == o.end
  {}

  lemma ProgressDone(start: BitString, bits: BitString, o: Offsets, vals: seq<nat>)
    requires Increasing(vals)
    requires Progress(start, bits, o, vals, |vals|, CeilDiv(o.n, Pow2(o.logSampling1)),
                      CeilDiv(o.universe, Pow2(o.logRank1Sampling)))
    ensures Stored(bits, o, vals)
  {
    hide Consistent, AllBelow, CeilDiv, Pow2, OnesAre, Pointers1Done, RanksDone;
    assert Ones(o, vals)[..|vals|] == Ones(o, vals);
  }

  /** Pointer 0 is never written. */
  lemma FirstCounted(start: BitString, bits: BitString, o: Offsets, vals: seq<nat>, ranks: nat)
    requires Progress(start, bits, o, vals, 1, 0, ranks)
    ensures Progress(start, bits, o, vals, 1, 1, ranks)
  {}

  method WriteValue(bvb: BitVectorBuilder, o: Offsets, vals: seq<nat>, i: nat, ghost start: BitString, ghost ranks: nat)
    requires i < |vals| && IncreasingUpTo(vals, i + 1)
    requires Progress(start, bvb.bits, o, vals, i, CeilDiv(i, Pow2(o.logSampling1)), ranks)
    modifies bvb
    ensures Progress(start, bvb.bits, o, vals, i + 1, CeilDiv(i + 1, Pow2(o.logSampling1)), ranks)
  {
    hide Progress, Shl, Shr, Low, Pow2, CeilDiv, SetBits, Pointer1At, IncreasingUpTo;
    ghost var c1 := CeilDiv(i, Pow2(o.logSampling1));
    OneWritten(start, bvb.bits, o, vals, i, c1, ranks);
    bvb.Set(o.bitsOffset + vals[i]);
    SampleStep(i, o.logSampling1);
    if i != 0 && Low(i, o.logSampling1) == 0 {
      var ptr := Shr(i, o.logSampling1);
      ShlOfZero(o.logSampling1);
      Pointer1Written(start, bvb.bits, o, vals, i + 1, ptr, ranks);
      bvb.SetField(Pointer1At(o, ptr), vals[i], o.pointerSize);
    } else if i == 0 {
      LowOfSmall(0, o.logSampling1);
      FirstCounted(start, bvb.bits, o, vals, ranks);
    }
  }

  datatype WriteResult = Written | DuplicateElement | NotSorted

  /** What the first value out of order does to the result. */
  ghost predicate Explains(r: WriteResult, vals: seq<nat>, i: nat) {
    && 0 < i < |vals| && IncreasingUpTo(vals, i)
    && (if vals[i] == vals[i - 1] then r == DuplicateElement else vals[i] < vals[i - 1] && r == NotSorted)
  }

  /** Appends the encoding, or reports the first value that repeats or falls below its predecessor. */
  method Write(bvb: BitVectorBuilder, vals: seq<nat>, universe: nat, params: Parameters) returns (r: WriteResult)
    requires AllBelow(vals, universe) && universe > 0
    modifies bvb
    ensures r == Written <==> Increasing(vals)
    ensures r != Written ==> exists i :: Explains(r, vals, i)
    ensures old(bvb.bits) <= bvb.bits && |bvb.bits| == |old(bvb.bits)| + BitSize(params, universe, |vals|)
    ensures r == Written ==> Stored(bvb.bits, MakeOffsets(|old(bvb.bits)|, universe, |vals|, params), vals)
  {
    hide Consistent, AllBelow, Increasing, MakeOffsets, Progress, Stored, Pow2, CeilDiv, LastBit, IncreasingUpTo,
         SameRank, BitSize, Explains;
    ghost var start := bvb.bits;
    var o := MakeOffsets(|bvb.bits|, universe, |vals|, params);
    MadeConsistent(|bvb.bits|, universe, |vals|, params);
    OffsetsShift(|bvb.bits|, universe, |vals|, params);
    Started(start, o, vals);
    NoneWritten(vals);
    bvb.ZeroExtend(o.end - |bvb.bits|);
    var last := 0;
    for i := 0 to |vals|
      invariant IncreasingUpTo(vals, i) && last == LastBit(vals, i)
      invariant Progress(start, bvb.bits, o, vals, i, CeilDiv(i, Pow2(o.logSampling1)),
                         CeilDiv(last + 1, Pow2(o.logRank1Sampling)))
    {
      var v := vals[i];
      NextInOrder(vals, i);
      if i != 0 && v <= last {
        r := if v == last then DuplicateElement else NotSorted;
        assert Explains(r, vals, i);
        ProgressKeepsStart(start, bvb.bits, o, vals, i, CeilDiv(i, Pow2(o.logSampling1)),
                           CeilDiv(last + 1, Pow2(o.logRank1Sampling)));
        return;
      }
      RankBefore(o, vals, i);
      WriteValue(bvb, o, vals, i, start, CeilDiv(last + 1, Pow2(o.logRank1Sampling)));
      SetRank1Samples(bvb, o, last + 1, v + 1, i, start, vals, i + 1, CeilDiv(i + 1, Pow2(o.logSampling1)));
      last := v;
    }
    AllInOrder(vals);
    RankBehind(o, vals);
    SetRank1Samples(bvb, o, last + 1, universe, |vals|, start, vals, |vals|, CeilDiv(|vals|, Pow2(o.logSampling1)));
    ProgressDone(start, bvb.bits, o, vals);
    ProgressKeepsStart(start, bvb.bits, o, vals, |vals|, CeilDiv(o.n, Pow2(o.logSampling1)),
                       CeilDiv(o.universe, Pow2(o.logRank1Sampling)));
    r := Written;
  }

  lemma NoneWritten(vals: seq<nat>)
    ensures LastBit(vals, 0) == 0 && IncreasingUpTo(vals, 0)
  {}

  lemma AllInOrder(vals: seq<nat>)
    ensures Increasing(vals) == IncreasingUpTo(vals, |vals|)
  {}

  lemma NextInOrder(vals: seq<nat>, i: nat)
    requires i < |vals| && IncreasingUpTo(vals, i)
    ensures LastBit(vals, i + 1) == vals[i]
    ensures i == 0 || vals[i] > LastBit(vals, i) ==> IncreasingUpTo(vals, i + 1)
    ensures i > 0 && vals[i] <= LastBit(vals, i) ==>
              !Increasing(vals) && Explains(if vals[i] == LastBit(vals, i) then DuplicateElement else NotSorted, vals, i)
  {}

  // ----- moving an encoding -----

  ghost predicate Further(m: Offsets, o: Offsets, d: nat) {
    && m.universe == o.universe && m.n == o.n
    && m.logRank1Sampling == o.logRank1Sampling && m.logSampling1 == o.logSampling1
    && m.rankSize == o.rankSize && m.pointerSize == o.pointerSize
    && m.rankOffset == d + o.rankOffset && m.pointers1Offset == d + o.pointers1Offset
    && m.bitsOffset == d + o.bitsOffset && m.end == d + o.end
  }

  lemma MovedOffsets(d: nat, base: nat, universe: nat, n: nat, params: Parameters)
    requires universe > 0
    ensures Further(MakeOffsets(d + base, universe, n, params), MakeOffsets(base, universe, n, params), d)
  {
    hide Shr, CeilLog2;
  }

  /** An encoding copied into a longer bit vector is an encoding at its new place. */
  lemma Moved(whole: BitString, d: nat, part: BitString, base: nat, universe: nat, n: nat, params: Parameters,
              vals: seq<nat>)
    requires universe > 0 && At(whole, d, part) && Stored(part, MakeOffsets(base, universe, n, params), vals)
    ensures Stored(whole, MakeOffsets(d + base, universe, n, params), vals)
  {
    hide At, OnesAre, Pointers1Done, RanksDone, AllBelow, Increasing, CeilDiv, Pow2, MakeOffsets;
    var o, m := MakeOffsets(base, universe, n, params), MakeOffsets(d + base, universe, n, params);
    MadeConsistent(base, universe, n, params);
    MadeConsistent(d + base, universe, n, params);
    MovedOffsets(d, base, universe, n, params);
    AtLength(whole, d, part);
    EmbeddedOnes(whole, d, part, o.bitsOffset, o.end, Ones(o, vals), Ones(m, vals));
    MovedPointers1(whole, d, part, o, m, vals, CeilDiv(o.n, Pow2(o.logSampling1)));
    MovedRanks(whole, d, part, o, m, vals, CeilDiv(o.universe, Pow2(o.logRank1Sampling)));
  }

  lemma MovedPointers1(whole: BitString, d: nat, part: BitString, o: Offsets, m: Offsets, vals: seq<nat>, count: nat)
    requires At(whole, d, part) && Further(m, o, d) && Pointers1Done(part, o, vals, count)
    ensures Pointers1Done(whole, m, vals, count)
  {
    hide At, FieldStored, Shl;
    forall ptr | 1 <= ptr < count ensures Pointer1Stored(whole, m, vals, ptr) {
      assert Pointer1Stored(part, o, vals, ptr);
      FieldMoved(whole, d, part, Pointer1At(o, ptr), o.pointerSize, vals[Shl(ptr, o.logSampling1)]);
    }
  }

  lemma MovedRanks(whole: BitString, d: nat, part: BitString, o: Offsets, m: Offsets, vals: seq<nat>, count: nat)
    requires At(whole, d, part) && Further(m, o, d) && RanksDone(part, o, vals, count)
    ensures RanksDone(whole, m, vals, count)
  {
    hide At, FieldStored, Shl, LowerBound;
    forall sample | 1 <= sample < count ensures RankStored(whole, m, vals, sample) {
      assert RankStored(part, o, vals, sample);
      FieldMoved(whole, d, part, RankAt(o, sample), o.rankSize, LowerBound(vals, Shl(sample, o.logRank1Sampling)));
    }
  }
}
