/** `indexed_sequence`: the cheapest of the three encodings, and a cursor that goes by the stored type. */
module IndexedSequences {
  import opened Bits
  import opened BitVectors
  import opened GlobalParameters
  import opened Slices
  import opened SortedLists
  import AO = AllOnes
  import EF = EliasFano
  import EFE = EliasFanoEnumerators
  import RB = RankedBitvector
  import RBE = RankedBitvectorEnumerators

  datatype IndexType = EliasFano | RankedBitvector | AllOnes

  const TYPE_BITS := 1

  function BestCost(params: Parameters, universe: nat, n: nat): (c: AO.Cost)
    requires n > 0 && universe > 0
    ensures c.Cost?
  {
    var allOnes := AO.BitSize(universe, n);
    var efCost := EF.BitSize(params, universe, n) + TYPE_BITS;
    var withEf := if allOnes.Above(efCost) then AO.Cost(efCost) else allOnes;
    var rbCost := RB.BitSize(params, universe, n) + TYPE_BITS;
    if withEf.Above(rbCost) then AO.Cost(rbCost) else withEf
  }

  function BitSize(params: Parameters, universe: nat, n: nat): (bits: nat)
    requires n > 0 && universe > 0
    ensures bits <= EF.BitSize(params, universe, n) + 1 && bits <= RB.BitSize(params, universe, n) + 1
    ensures bits == 0 <==> AO.Usable(universe, n)
    ensures bits == 0 || bits == EF.BitSize(params, universe, n) + 1 || bits == RB.BitSize(params, universe, n) + 1
  {
    BestCost(params, universe, n).bits
  }

  /** A sequence that fills its universe, or is a single value, takes no bits; any other one bit more than the
      smaller of its two encodings. */
  lemma BitSizeIs(params: Parameters, universe: nat, n: nat)
    requires n > 0 && universe > 0
    ensures universe == n || n == 1 ==> BitSize(params, universe, n) == 0
    ensures universe != n > 1 ==>
              BitSize(params, universe, n) == 1 + var ef, rb := EF.BitSize(params, universe, n), RB.BitSize(params, universe, n);
                                                  if rb < ef then rb else ef
  {
    hide EF.BitSize, RB.BitSize;
  }

  /** What the writer is given: increasing values below the universe, ending right below it where no bits are needed. */
  ghost predicate Fits(universe: nat, vals: seq<nat>) {
    && vals != [] && Increasing(vals) && AllBelow(vals, universe)
    && (AO.Usable(universe, |vals|) ==> vals[|vals| - 1] == universe - 1)
  }

  ghost predicate Stored(bits: BitString, offset: nat, universe: nat, params: Parameters, vals: seq<nat>) {
    && Fits(universe, vals) && universe > 0
    && (!AO.Usable(universe, |vals|) ==>
          && offset < |bits|
          && (if bits[offset]
              then RB.Stored(bits, RB.MakeOffsets(offset + TYPE_BITS, universe, |vals|, params), vals)
              else EF.Stored(bits, EF.MakeOffsets(offset + TYPE_BITS, universe, |vals|, params), vals)))
  }

  lemma FitsFacts(universe: nat, vals: seq<nat>)
    requires Fits(universe, vals)
    ensures universe > 0 && NonDecreasing(vals) && AllBelow(vals, universe) && Increasing(vals)
    ensures AO.Usable(universe, |vals|) ==> AO.Fits(vals, universe)
  {
    assert vals[0] < universe;
  }

  method Write(bvb: BitVectorBuilder, vals: seq<nat>, universe: nat, params: Parameters)
    requires Fits(universe, vals)
    modifies bvb
    ensures universe > 0 && old(bvb.bits) <= bvb.bits
    ensures |bvb.bits| == |old(bvb.bits)| + BitSize(params, universe, |vals|)
    ensures Stored(bvb.bits, |old(bvb.bits)|, universe, params, vals)
    ensures universe != |vals| > 1 ==>
              |old(bvb.bits)| < |bvb.bits| &&
              (bvb.bits[|old(bvb.bits)|] <==> RB.BitSize(params, universe, |vals|) < EF.BitSize(params, universe, |vals|))
  {
    hide EF.BitSize, RB.BitSize, Increasing, AllBelow, EF.Stored, RB.Stored, EF.MakeOffsets, RB.MakeOffsets,
         NonDecreasing;
    FitsFacts(universe, vals);
    var bestCost := AO.BitSize(universe, |vals|);
    var bestType := AllOnes;
    ghost var start := bvb.bits;
    if bestCost != AO.Cost(0) {
      var efCost := EF.BitSize(params, universe, |vals|) + TYPE_BITS;
      if bestCost.Above(efCost) {
        bestCost, bestType := AO.Cost(efCost), EliasFano;
      }
      var rbCost := RB.BitSize(params, universe, |vals|) + TYPE_BITS;
      if bestCost.Above(rbCost) {
        bestCost, bestType := AO.Cost(rbCost), RankedBitvector;
      }
      bvb.AppendBits(if bestType == RankedBitvector then 1 else 0, TYPE_BITS);
    }
    ghost var typed := bvb.bits;
    match bestType
    case EliasFano =>
      var ok := EF.Write(bvb, vals, universe, params);
    case RankedBitvector =>
      var r := RB.Write(bvb, vals, universe, params);
    case AllOnes =>
    PrefixesAgree(start, typed, bvb.bits);
  }

  lemma PrefixesAgree(a: BitString, b: BitString, c: BitString)
    requires a <= b <= c
    ensures a <= c && (|a| < |b| ==> c[|a|] == b[|a|])
  {}

  /** An encoding copied into a longer bit vector is an encoding at its new place. */
  lemma Moved(whole: BitString, d: nat, part: BitString, offset: nat, universe: nat, params: Parameters, vals: seq<nat>)
    requires At(whole, d, part) && Stored(part, offset, universe, params, vals)
    ensures Stored(whole, d + offset, universe, params, vals)
  {
    hide At, Fits, EF.Stored, RB.Stored, EF.MakeOffsets, RB.MakeOffsets;
    if !AO.Usable(universe, |vals|) {
      AtPlace(whole, d, part, offset);
      NonEmpty(universe, vals);
      if part[offset] {
        RB.Moved(whole, d, part, offset + TYPE_BITS, universe, |vals|, params, vals);
      } else {
        EF.Moved(whole, d, part, offset + TYPE_BITS, universe, |vals|, params, vals);
      }
    }
  }

  lemma NonEmpty(universe: nat, vals: seq<nat>)
    requires Fits(universe, vals)
    ensures |vals| > 0
  {}

  /** The value shown at a position: behind the last value the universe, except that a sequence
      of a single implicit value goes on showing it. */
  ghost function Shown(kind: IndexType, universe: nat, vals: seq<nat>, p: nat): nat
    requires |vals| > 0 && universe > 0
  {
    if p == |vals| == 1 && kind == AllOnes then universe - 1 else ElementAt(vals, universe, p)
  }

  class Enumerator {
    const kind: IndexType
    const universe: nat
    const n: nat
    ghost const vals: seq<nat>
    const ef: EFE.Enumerator?
    const rb: RBE.Enumerator?
    const ao: AO.Enumerator?

    ghost function Repr(): set<object> {
      {this} + (if ef == null then {} else {ef}) + (if rb == null then {} else {rb}) + (if ao == null then {} else {ao})
    }

    ghost predicate Valid()
      reads Repr()
    {
      && Fits(universe, vals) && universe > 0 && n == |vals|
      && match kind
         case EliasFano => ef != null && ef.Valid() && ef.vals == vals && ef.o.universe == universe && ef.o.n == n
         case RankedBitvector => rb != null && rb.Valid() && rb.vals == vals && rb.o.universe == universe && rb.o.n == n
         case AllOnes => ao != null && ao.Valid() && ao.vals == vals && ao.universe == universe && ao.n == n
    }

    ghost function Position(): (p: nat)
      requires Valid()
      reads Repr()
      ensures p <= n
    {
      match kind
      case EliasFano => ef.position
      case RankedBitvector => rb.position
      case AllOnes => ao.position
    }

    /** Starts at the end, as the cursors it holds do. */
    constructor (bits: BitString, offset: nat, universe: nat, n: nat, params: Parameters, ghost vals: seq<nat>)
      requires n == |vals| && Stored(bits, offset, universe, params, vals)
      ensures Valid() && this.vals == vals && this.universe == universe && Position() == n
      ensures fresh(Repr())
    {
      hide EF.Stored, RB.Stored, EF.MakeOffsets, RB.MakeOffsets, Fits, EF.Consistent, RB.Consistent;
      FitsFacts(universe, vals);
      NonEmpty(universe, vals);
      this.universe, this.n, this.vals := universe, n, vals;
      ef, rb, ao := null, null, null;
      if AO.Usable(universe, n) {
        kind := AllOnes;
        ao := new AO.Enumerator(universe, n, vals);
      } else if bits[offset] {
        RB.MadeConsistent(offset + TYPE_BITS, universe, n, params);
        kind := RankedBitvector;
        rb := new RBE.Enumerator(bits, offset + TYPE_BITS, universe, n, params, vals);
      } else {
        EF.MadeConsistent(offset + TYPE_BITS, universe, n, params);
        kind := EliasFano;
        ef := new EFE.Enumerator(bits, offset + TYPE_BITS, universe, n, params, vals);
      }
    }

    method Move(p: nat) returns (q: nat, v: nat)
      requires Valid() && p <= n
      modifies Repr()
      ensures Valid() && q == Position() == p && v == Shown(kind, universe, vals, p)
    {
      hide EF.Stored, RB.Stored, AO.Fits, Fits;
      NonEmpty(universe, vals);
      match kind
      case EliasFano => ef.Move(p); q, v := ef.position, ef.value;
      case RankedBitvector => rb.Move(p); q, v := rb.position, rb.value;
      case AllOnes => ao.Move(p); q, v := ao.position, ao.Value();
    }

    method Next() returns (q: nat, v: nat)
      requires Valid() && Position() < n
      modifies Repr()
      ensures Valid() && q == Position() == old(Position()) + 1 && v == Shown(kind, universe, vals, q)
    {
      hide EF.Stored, RB.Stored, AO.Fits, Fits;
      NonEmpty(universe, vals);
      match kind
      case EliasFano => ef.Next(); q, v := ef.position, ef.value;
      case RankedBitvector => rb.Next(); q, v := rb.position, rb.value;
      case AllOnes => ao.Next(); q, v := ao.position, ao.Value();
    }

    /** The first value at or above the bound; a bound at the universe itself is answered unless the sequence
        is a single implicit value. */
    method NextGeq(lowerBound: nat) returns (q: nat, v: nat)
      requires Valid() && lowerBound <= universe && (kind == AllOnes && n == 1 ==> lowerBound < universe)
      modifies Repr()
      ensures Valid() && q == Position() == LowerBound(vals, lowerBound) && v == Shown(kind, universe, vals, q)
    {
      hide EF.Stored, RB.Stored, AO.Fits, Fits, LowerBound, Increasing, AllBelow, NonDecreasing;
      NonEmpty(universe, vals);
      FitsFacts(universe, vals);
      match kind
      case EliasFano =>
        StaysPut(vals, universe, ef.position);
        ef.NextGeq(lowerBound);
        q, v := ef.position, ef.value;
      case RankedBitvector =>
        rb.NextGeq(lowerBound);
        q, v := rb.position, rb.value;
      case AllOnes =>
        ao.NextGeq(lowerBound);
        q, v := ao.position, ao.Value();
    }

    method PrevValue() returns (prev: nat)
      requires Valid()
      ensures prev == if Position() == 0 then 0 else vals[Position() - 1]
    {
      hide EF.Stored, RB.Stored, AO.Fits, Fits;
      match kind
      case EliasFano => prev := ef.PrevValue();
      case RankedBitvector => prev := rb.PrevValue();
      case AllOnes => prev := ao.PrevValue();
    }
  }
}
