/** The stored forms of numbers and sequences, bit by bit and in plain arithmetic. */
module BitForms {
  import opened Arith
  import opened Bits
  import opened BitVectors
  import opened GlobalParameters
  import opened IntegerCodes
  import opened Sampling
  import opened SortedLists
  import opened PartitionCosts
  import opened Partitions
  import opened Slices
  import EF = EliasFano
  import IS = IndexedSequences
  import PS = PartitionedSequences
  import RB = RankedBitvector

  // ----- numbers -----

  /** Bit i of a number stands at place i. */
  lemma {:induction false} BitOf(v: nat, len: nat, i: nat)
    requires i < len
    ensures ToBits(v, len)[i] <==> v / Pow2(i) % 2 == 1
  {
    if i > 0 {
      BitOf(v / 2, len - 1, i - 1);
      QuotientOfHalf(v, Pow2(i - 1));
    }
  }

  lemma QuotientOfHalf(v: nat, p: nat)
    requires p > 0
    ensures v / 2 / p == v / (2 * p)
  {
    var q := v / 2 / p;
    DivisionRange(v / 2, p);
    DivisionRange(v, 2);
    DivUnique(v, 2 * p, q);
  }

  lemma PowersOfTwo(e: nat)
    ensures Pow2(0) == 1 && Pow2(e + 1) == 2 * Pow2(e)
  {}

  lemma {:induction false} ToFromBits(b: BitString)
    ensures ToBits(FromBits(b), |b|) == b
  {
    if b != [] {
      ToFromBits(b[1..]);
      assert b == [b[0]] + b[1..];
    }
  }

  /** A number stored in a field: it fits, and its bits stand there. */
  lemma {:induction false} FieldBit(bits: BitString, at: nat, size: nat, v: nat, k: nat)
    requires FieldStored(bits, at, size, v) && k < size
    ensures at + size <= |bits| && v < Pow2(size) && (bits[at + k] <==> v / Pow2(k) % 2 == 1)
  {
    hide Pow2, FromBits, ToBits;
    var field := bits[at..at + size];
    ToFromBits(field);
    BitOf(v, size, k);
    assert bits[at + k] == field[k];
  }

  /** The gamma code of n: l zeros and a one, where 2^l is the last power of two up to n + 1, and the
      l bits of n + 1 below its highest. */
  lemma GammaIs(n: nat) returns (l: nat)
    ensures Pow2(l) <= n + 1 < Pow2(l + 1) && |Gamma(n)| == 2 * l + 1
    ensures forall i :: 0 <= i < l ==> !Gamma(n)[i]
    ensures Gamma(n)[l]
    ensures forall i :: 0 <= i < l ==> (Gamma(n)[l + 1 + i] <==> (n + 1) / Pow2(i) % 2 == 1)
  {
    hide Pow2, ToBits, Low;
    l := Msb(n + 1);
    var unary := ToBits(Pow2(l), l + 1);
    forall i | 0 <= i <= l ensures unary[i] == (i == l) { OneBit(l, i); }
    ToBitsOfLow(n + 1, l, l);
    forall i | 0 <= i < l ensures ToBits(n + 1, l)[i] <==> (n + 1) / Pow2(i) % 2 == 1 { BitOf(n + 1, l, i); }
  }

  /** The delta code of n: the gamma code of that l, and the same l bits. */
  lemma DeltaIs(n: nat) returns (l: nat)
    ensures Pow2(l) <= n + 1 < Pow2(l + 1) && |Delta(n)| == |Gamma(l)| + l && Gamma(l) <= Delta(n)
    ensures forall i :: 0 <= i < l ==> (Delta(n)[|Gamma(l)| + i] <==> (n + 1) / Pow2(i) % 2 == 1)
  {
    hide Pow2, ToBits, Low, Gamma;
    l := Msb(n + 1);
    ToBitsOfLow(n + 1, l, l);
    forall i | 0 <= i < l ensures ToBits(n + 1, l)[i] <==> (n + 1) / Pow2(i) % 2 == 1 { BitOf(n + 1, l, i); }
  }

  // ----- Elias-Fano -----

  /** The width of the low parts is the largest whose power of two times n is not above the universe, so
      that fewer than 2 n high parts remain; 0 where the universe is not above n. */
  lemma LowWidth(universe: nat, n: nat) returns (p: nat)
    requires n > 0
    ensures p == Pow2(EF.LowerBitsFor(universe, n))
    ensures universe <= n ==> EF.LowerBitsFor(universe, n) == 0
    ensures universe > n ==> p * n <= universe < 2 * p * n
    ensures universe > 0 ==> universe / p < 2 * n
  {
    hide Pow2;
    p := Pow2(EF.LowerBitsFor(universe, n));
    if universe > n {
      DivisionRange(universe, n);
      PowersOfTwo(Msb(universe / n));
      QuotientBounds(universe, n, p);
    } else {
      PowersOfTwo(0);
      assert universe / p == universe;
    }
  }

  lemma QuotientBounds(universe: nat, n: nat, p: nat)
    requires n > 0 && p <= universe / n < 2 * p
    ensures p * n <= universe < 2 * p * n && universe / p < 2 * n
  {
    DivisionRange(universe, n);
    MulMonotone(p, universe / n, n);
    MulMonotone(universe / n + 1, 2 * p, n);
    DivisionRange(universe, p);
    assert 2 * p * n == 2 * n * p;
    if universe / p >= 2 * n { MulMonotone(2 * n, universe / p, p); }
  }

  /** Where everything stands, from the parameters: pointers to zeros, pointers to ones, the high bits with
      one position more at either end, the low bits. Pointers are as narrow as the high bits allow. */
  lemma EliasFanoLayout(base: nat, universe: nat, n: nat, params: Parameters)
    requires n > 0
    ensures var o := EF.MakeOffsets(base, universe, n, params);
            && o.lowerBits == EF.LowerBitsFor(universe, n)
            && o.higherLength == n + universe / Pow2(o.lowerBits) + 2
            && (forall s :: o.pointerSize <= s <==> o.higherLength <= Pow2(s))
            && o.pointers0Offset == base
            && o.pointers1Offset == base + (o.higherLength - n) / Pow2(params.efLogSampling0) * o.pointerSize
            && o.higherOffset == o.pointers1Offset + n / Pow2(params.efLogSampling1) * o.pointerSize
            && o.lowerOffset == o.higherOffset + o.higherLength
            && o.end == o.lowerOffset + n * o.lowerBits
            && o.logSampling0 == params.efLogSampling0 && o.logSampling1 == params.efLogSampling1
  {
    hide Shr, CeilLog2, Pow2, EF.LowerBitsFor;
    var o := EF.MakeOffsets(base, universe, n, params);
    ShrIsDivision(universe, o.lowerBits);
    ShrIsDivision(o.higherLength - n, params.efLogSampling0);
    ShrIsDivision(n, params.efLogSampling1);
    forall s ensures o.pointerSize <= s <==> o.higherLength <= Pow2(s) { WidthFor(o.higherLength, s); }
  }

  /** The width computed for x numbers is the least that holds them. */
  lemma {:induction false} WidthFor(x: nat, s: nat)
    requires x > 0
    ensures CeilLog2(x) <= s <==> x <= Pow2(s)
  {
    hide Pow2;
    var r := CeilLog2(x);
    if r <= s { Pow2Monotone(r, s); }
    if s < r {
      PowersOfTwo(0);
      Pow2Monotone(s, r - 1);
    }
  }

  /** The high bits: value i sets the one at its high part + i + 1, and no other bit is set. */
  lemma EliasFanoHigh(bits: BitString, o: EF.Offsets, vals: seq<nat>, p: nat)
    requires EF.Stored(bits, o, vals) && o.higherOffset <= p < o.lowerOffset
    ensures p < o.end <= |bits|
    ensures bits[p] <==> exists i :: 0 <= i < |vals| && p == o.higherOffset + vals[i] / Pow2(o.lowerBits) + i + 1
  {
    hide Pow2, Shr, AllBelow, NonDecreasing, EF.LowsDone, EF.Pointers1Done, EF.Pointers0Done;
    var ones := EF.HighOnes(o, vals);
    forall i | 0 <= i < |vals| ensures ones[i] == o.higherOffset + vals[i] / Pow2(o.lowerBits) + i + 1 {
      ShrIsDivision(vals[i], o.lowerBits);
    }
    if bits[p] {
      assert p in ones;
    }
  }

  /** Field i of the low bits holds those of value i. */
  lemma {:induction false} EliasFanoLow(bits: BitString, o: EF.Offsets, vals: seq<nat>, i: nat, k: nat)
    requires EF.Stored(bits, o, vals) && i < |vals| && k < o.lowerBits
    ensures var p := o.lowerOffset + i * o.lowerBits + k;
            p < |bits| && (bits[p] <==> vals[i] / Pow2(k) % 2 == 1)
  {
    hide Pow2, GetBits;
    assert EF.LowStored(bits, o, vals, i);
    FieldBit(bits, o.lowerOffset + i * o.lowerBits, o.lowerBits, Low(vals[i], o.lowerBits), k);
    LowBit(vals[i], o.lowerBits, k);
  }

  lemma {:induction false} LowBit(v: nat, w: nat, k: nat)
    requires k < w
    ensures Low(v, w) / Pow2(k) % 2 == v / Pow2(k) % 2
  {
    BitOf(v, w, k);
    BitOf(Low(v, w), w, k);
    ToBitsOfLow(v, w, w);
  }

  /** Pointer j to the ones tells the place of the one of value j * 2^sampling. */
  lemma EliasFanoPointer1(bits: BitString, o: EF.Offsets, vals: seq<nat>, j: nat, i: nat)
    requires EF.Stored(bits, o, vals) && j > 0 && i == j * Pow2(o.logSampling1) && i < |vals|
    ensures FieldStored(bits, o.pointers1Offset + (j - 1) * o.pointerSize, o.pointerSize,
                        vals[i] / Pow2(o.lowerBits) + i + 1)
  {
    hide Pow2, GetBits;
    ShlIsTimes(j, o.logSampling1);
    PtrBelow(j, o.n, o.logSampling1);
    assert EF.Pointer1Stored(bits, o, vals, j);
    ShrIsDivision(vals[i], o.lowerBits);
  }

  /** Pointer j to the zeros tells the place of the zero behind j * 2^sampling others: as many values have
      their ones in front of it as make up the place. */
  lemma EliasFanoPointer0(bits: BitString, o: EF.Offsets, vals: seq<nat>, j: nat, z: nat) returns (ones: nat)
    requires EF.Stored(bits, o, vals) && j > 0 && z == j * Pow2(o.logSampling0) && z < o.higherLength - o.n
    ensures FieldStored(bits, o.pointers0Offset + (j - 1) * o.pointerSize, o.pointerSize, z + ones)
    ensures z + ones < o.higherLength && ones <= |vals|
    ensures ones > 0 ==> vals[ones - 1] / Pow2(o.lowerBits) + ones < z + ones
    ensures ones < |vals| ==> z + ones < vals[ones] / Pow2(o.lowerBits) + ones + 1
  {
    hide Pow2, GetBits, Shr, EF.Fits, OnesAre;
    ShlIsTimes(j, o.logSampling0);
    PtrBelow(j, o.higherLength - o.n, o.logSampling0);
    assert EF.Pointer0Stored(bits, o, vals, j);
    ones :| EF.Pointer0Behind(bits, o, vals, j, ones);
    if ones > 0 { ShrIsDivision(vals[ones - 1], o.lowerBits); }
    if ones < |vals| { ShrIsDivision(vals[ones], o.lowerBits); }
  }

  // ----- ranked bit vectors -----

  lemma RankedLayout(base: nat, universe: nat, n: nat, params: Parameters)
    requires universe > 0
    ensures var o := RB.MakeOffsets(base, universe, n, params);
            && (forall s :: o.rankSize <= s <==> n + 1 <= Pow2(s))
            && (forall s :: o.pointerSize <= s <==> universe <= Pow2(s))
            && o.rankOffset == base
            && o.pointers1Offset == base + universe / Pow2(params.rbLogRank1Sampling) * o.rankSize
            && o.bitsOffset == o.pointers1Offset + n / Pow2(params.rbLogSampling1) * o.pointerSize
            && o.end == o.bitsOffset + universe
            && o.logRank1Sampling == params.rbLogRank1Sampling && o.logSampling1 == params.rbLogSampling1
  {
    hide Shr, CeilLog2, Pow2;
    ShrIsDivision(universe, params.rbLogRank1Sampling);
    ShrIsDivision(n, params.rbLogSampling1);
    forall s ensures CeilLog2(n + 1) <= s <==> n + 1 <= Pow2(s) { WidthFor(n + 1, s); }
    forall s ensures CeilLog2(universe) <= s <==> universe <= Pow2(s) { WidthFor(universe, s); }
  }

  /** Bit v of the vector says whether v is one of the values. */
  lemma RankedBit(bits: BitString, o: RB.Offsets, vals: seq<nat>, v: nat)
    requires RB.Stored(bits, o, vals) && v < o.universe
    ensures o.bitsOffset + v < o.end <= |bits|
    ensures bits[o.bitsOffset + v] <==> v in vals
  {
    hide Pow2, AllBelow, Increasing, RB.Pointers1Done, RB.RanksDone, CeilDiv;
    var ones := RB.Ones(o, vals);
    assert forall i :: 0 <= i < |vals| ==> ones[i] == o.bitsOffset + vals[i];
    if v in vals {
      var i :| 0 <= i < |vals| && vals[i] == v;
      assert bits[ones[i]];
    }
    if bits[o.bitsOffset + v] {
      assert o.bitsOffset + v in ones;
    }
  }

  /** Sample j tells how many values are below j * 2^sampling, pointer j which value is number j * 2^sampling. */
  lemma {:induction false} RankedSample(bits: BitString, o: RB.Offsets, vals: seq<nat>, j: nat, place: nat)
    requires RB.Stored(bits, o, vals) && j > 0 && place == j * Pow2(o.logRank1Sampling) && place < o.universe
    ensures FieldStored(bits, o.rankOffset + (j - 1) * o.rankSize, o.rankSize, LowerBound(vals, place))
  {
    hide Pow2, GetBits, LowerBound;
    ShlIsTimes(j, o.logRank1Sampling);
    PtrBelow(j, o.universe, o.logRank1Sampling);
    assert RB.RankStored(bits, o, vals, j);
  }

  lemma RankedPointer(bits: BitString, o: RB.Offsets, vals: seq<nat>, j: nat, i: nat)
    requires RB.Stored(bits, o, vals) && j > 0 && i == j * Pow2(o.logSampling1) && i < |vals|
    ensures FieldStored(bits, o.pointers1Offset + (j - 1) * o.pointerSize, o.pointerSize, vals[i])
  {
    hide Pow2, GetBits;
    ShlIsTimes(j, o.logSampling1);
    PtrBelow(j, o.n, o.logSampling1);
    assert RB.Pointer1Stored(bits, o, vals, j);
  }

  // ----- sequences in partitions -----

  /** One partition: a one bit, the first value in as many bits as the universe needs, the distance to the last
      value, or 0 where the last value ends the universe, and the values as distances from the first. */
  lemma OnePartition(bits: BitString, offset: nat, universe: nat, params: Parameters, vals: seq<nat>)
    returns (width: nat, inside: nat)
    requires PS.Stored(bits, offset, universe, params, vals, [|vals|], PS.Plan(0, []))
    ensures vals != [] && vals[0] <= vals[|vals| - 1] < universe
    ensures forall s :: width <= s <==> universe <= Pow2(s)
    ensures offset < |bits| && bits[offset] && FieldStored(bits, offset + 1, width, vals[0])
    ensures |vals| == 1 ==> inside == offset + 1 + width
    ensures |vals| > 1 ==>
              var stated := if vals[|vals| - 1] + 1 == universe then 0 else vals[|vals| - 1] - vals[0];
              At(bits, offset + 1 + width, Delta(stated)) && inside == offset + 1 + width + |Delta(stated)|
    ensures IS.Stored(bits, inside, vals[|vals| - 1] - vals[0] + 1, params, Less(vals, vals[0]))
    ensures PS.EncodedBits(vals, universe, [|vals|], params)
         == inside - offset + IS.BitSize(params, vals[|vals| - 1] - vals[0] + 1, |vals|)
  {
    hide Pow2, CeilLog2, IS.Stored, Delta, ToBits, Gamma, IS.BitSize;
    PS.OnlyEnd(vals, universe, [|vals|]);
    PS.OnePiece(vals, universe);
    width := CeilLog2(universe);
    forall s ensures width <= s <==> universe <= Pow2(s) { WidthFor(universe, s); }
    assert Gamma(0) == [true] by { GammaOfZero(); }
    AtPlace(bits, offset, Gamma(0), 0);
    FieldReads(bits, offset + 1, vals[0], width);
    inside := PS.OnlyPieceAt(offset, vals, universe);
    PS.BitsMore(vals, universe, [|vals|], params, 0);
    assert vals[0..|vals|] == vals;
  }

  lemma GammaOfZero()
    ensures Gamma(0) == [true]
  {
    assert Msb(1) == 0;
    assert ToBits(Pow2(0), 1) == [true];
    assert ToBits(Low(1, 0), 0) == [];
  }

  /** Several partitions: their number less one and the width of endpoints as gamma codes, the ends of all
      partitions but the last, the first value and every partition's last, endpoints, and the partitions
      back to back. */
  lemma SeveralPartitions(bits: BitString, offset: nat, universe: nat, params: Parameters, vals: seq<nat>,
                          ends: seq<nat>, plan: PS.Plan)
    returns (k: nat, sizesAt: nat, uppersAt: nat, endpointsAt: nat, piecesAt: nat, width: nat, pieces: nat)
    requires PS.Stored(bits, offset, universe, params, vals, ends, plan) && |ends| > 1
    requires PS.Planned(plan, vals, universe, ends, params)
    ensures Cut(vals, universe, ends) && k == |ends| - 1
    ensures pieces == PS.PiecesBits(vals, universe, ends, params, k + 1)
    ensures forall s :: width <= s <==> pieces + 1 <= Pow2(s)
    ensures At(bits, offset, Gamma(k)) && At(bits, offset + |Gamma(k)|, Gamma(width))
    ensures sizesAt == offset + |Gamma(k)| + |Gamma(width)|
    ensures EF.Stored(bits, EF.MakeOffsets(sizesAt, |vals|, k, params), ends[..k])
    ensures uppersAt == sizesAt + EF.BitSize(params, |vals|, k)
    ensures EF.Stored(bits, EF.MakeOffsets(uppersAt, universe, k + 2, params), Uppers(vals, universe, ends))
    ensures endpointsAt == uppersAt + EF.BitSize(params, universe, k + 2)
    ensures forall p :: 0 < p <= k ==>
              FieldStored(bits, PS.EndpointAt(endpointsAt, width, p), width, PS.PiecesBits(vals, universe, ends, params, p))
    ensures piecesAt == endpointsAt + width * k
    ensures forall p :: 0 <= p <= k ==>
              PS.PieceStored(bits, piecesAt + PS.PiecesBits(vals, universe, ends, params, p), vals, universe, params, ends, p)
    ensures PS.EncodedBits(vals, universe, ends, params) == piecesAt + pieces - offset
  {
    hide Pow2, CeilLog2, IS.Stored, EF.Stored, EF.MakeOffsets, EF.BitSize, Gamma, Cut, PS.PiecesBits, FieldStored,
         PS.PieceStored, At, Uppers;
    k, width := |ends| - 1, plan.endpointBits;
    sizesAt := PS.SizesAt(offset, |ends|, plan);
    uppersAt := PS.UppersAt(offset, |ends|, plan, |vals|, params);
    endpointsAt := PS.EndpointsAt(offset, |ends|, plan, |vals|, universe, params);
    piecesAt := PS.SequencesAt(offset, |ends|, plan, |vals|, universe, params);
    pieces := PS.PiecesBits(vals, universe, ends, params, |ends|);
    forall s ensures width <= s <==> pieces + 1 <= Pow2(s) { WidthFor(pieces + 1, s); }
  }

  /** A partition: the values of its stretch as distances from the one behind the previous partition's last,
      below the distance of its own last value and one more. */
  lemma PartitionIs(bits: BitString, at: nat, vals: seq<nat>, universe: nat, params: Parameters, ends: seq<nat>, p: nat)
    returns (begin: nat, base: nat)
    requires Cut(vals, universe, ends) && p < |ends| && PS.PieceStored(bits, at, vals, universe, params, ends, p)
    ensures begin == (if p == 0 then 0 else ends[p - 1]) && begin < ends[p] <= |vals| && (p > 0 ==> begin > 0)
    ensures base == if p == 0 then vals[0] else vals[begin - 1] + 1
    ensures forall i :: begin <= i < ends[p] ==> base <= vals[i] <= vals[ends[p] - 1]
    ensures IS.Stored(bits, at, vals[ends[p] - 1] - base + 1, params, Less(vals[begin..ends[p]], base))
  {
    hide Cut, IS.Stored, Less;
    CutFacts(vals, universe, ends, p);
    BaseFits(vals, universe, ends, p);
    begin, base := Begin(ends, p), Base(vals, ends, p);
    assert Increasing(vals) by { CutIncreases(vals, universe, ends); }
    SliceAbove(vals, base, begin, ends[p]);
  }

  lemma CutIncreases(vals: seq<nat>, universe: nat, ends: seq<nat>)
    requires Cut(vals, universe, ends)
    ensures Increasing(vals)
  {}
}
