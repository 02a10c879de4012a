/** `partitioned_sequence`: layout and writer. One partition is stored inline behind a short header; several are
    stored as a sequence of sizes, a sequence of upper bounds, endpoints, and the partitions' own encodings. */
module PartitionedSequences {
  import opened Arith
  import opened Bits
  import opened BitVectors
  import opened GlobalParameters
  import opened IntegerCodes
  import opened PartitionCosts
  import opened Partitions
  import opened Slices
  import opened SortedLists
  import EF = EliasFano
  import IS = IndexedSequences

  /** What the writer chose: the width of the endpoints and where each partition's encoding starts. */
  datatype Plan = Plan(endpointBits: nat, starts: seq<nat>)

  ghost predicate PieceStored(bits: BitString, at: nat, vals: seq<nat>, universe: nat, params: Parameters,
                              ends: seq<nat>, p: nat)
    requires Cut(vals, universe, ends) && p < |ends|
  {
    IS.Stored(bits, at, PieceUniverse(vals, universe, ends, p), params, Piece(vals, universe, ends, p))
  }

  // ----- one partition -----

  /** What the header says about the universe: nothing to say is a zero. */
  function HeaderUniverse(vals: seq<nat>, universe: nat): nat
    requires vals != [] && vals[0] <= vals[|vals| - 1]
  {
    if vals[|vals| - 1] + 1 == universe then 0 else vals[|vals| - 1] - vals[0]
  }

  lemma FirstNotAboveLast(vals: seq<nat>, universe: nat, ends: seq<nat>)
    requires Cut(vals, universe, ends)
    ensures vals[0] <= vals[|vals| - 1] < universe && (|vals| > 1 ==> vals[0] < vals[|vals| - 1])
  {}

  ghost function HeaderAt(offset: nat, universe: nat): nat
    requires universe > 0
  {
    offset + |Gamma(0)| + CeilLog2(universe)
  }

  ghost function OnlyPieceAt(offset: nat, vals: seq<nat>, universe: nat): nat
    requires vals != [] && vals[0] <= vals[|vals| - 1] && universe > 0
  {
    HeaderAt(offset, universe) + if |vals| > 1 then |Delta(HeaderUniverse(vals, universe))| else 0
  }

  ghost predicate StoredOne(bits: BitString, offset: nat, universe: nat, params: Parameters, vals: seq<nat>) {
    && Cut(vals, universe, [|vals|]) && vals[0] <= vals[|vals| - 1] && universe > 0
    && At(bits, offset, Gamma(0))
    && At(bits, offset + |Gamma(0)|, ToBits(vals[0], CeilLog2(universe)))
    && (|vals| > 1 ==> At(bits, HeaderAt(offset, universe), Delta(HeaderUniverse(vals, universe))))
    && PieceStored(bits, OnlyPieceAt(offset, vals, universe), vals, universe, params, [|vals|], 0)
  }

  // ----- several partitions -----

  ghost function SizesAt(offset: nat, partitions: nat, plan: Plan): nat
    requires partitions > 1
  {
    offset + |Gamma(partitions - 1)| + |Gamma(plan.endpointBits)|
  }

  ghost function UppersAt(offset: nat, partitions: nat, plan: Plan, n: nat, params: Parameters): nat
    requires partitions > 1
  {
    SizesAt(offset, partitions, plan) + EF.BitSize(params, n, partitions - 1)
  }

  ghost function EndpointsAt(offset: nat, partitions: nat, plan: Plan, n: nat, universe: nat, params: Parameters): nat
    requires partitions > 1
  {
    UppersAt(offset, partitions, plan, n, params) + EF.BitSize(params, universe, partitions + 1)
  }

  ghost function SequencesAt(offset: nat, partitions: nat, plan: Plan, n: nat, universe: nat, params: Parameters): nat
    requires partitions > 1
  {
    hide EF.MakeOffsets, EF.BitSize, Gamma;
    EndpointsAt(offset, partitions, plan, n, universe, params) + plan.endpointBits * (partitions - 1)
  }

  function EndpointAt(endpointsAt: nat, endpointBits: nat, p: nat): nat
    requires p > 0
  {
    endpointsAt + (p - 1) * endpointBits
  }

  ghost predicate EndpointsStored(bits: BitString, at: nat, plan: Plan, count: nat) {
    forall p :: 0 < p < count && p < |plan.starts| ==> FieldStored(bits, EndpointAt(at, plan.endpointBits, p), plan.endpointBits, plan.starts[p])
  }

  ghost predicate PiecesStored(bits: BitString, at: nat, starts: seq<nat>, count: nat,
                               vals: seq<nat>, universe: nat, params: Parameters, ends: seq<nat>)
    requires Cut(vals, universe, ends) && count <= |ends| && count <= |starts|
  {
    forall p :: 0 <= p < count ==> PieceStored(bits, at + starts[p], vals, universe, params, ends, p)
  }

  ghost predicate HeadersStored(bits: BitString, offset: nat, partitions: nat, plan: Plan)
    requires partitions > 1
  {
    && At(bits, offset, Gamma(partitions - 1))
    && At(bits, offset + |Gamma(partitions - 1)|, Gamma(plan.endpointBits))
  }

  ghost predicate StoredMany(bits: BitString, offset: nat, universe: nat, params: Parameters, vals: seq<nat>,
                             ends: seq<nat>, plan: Plan) {
    && Cut(vals, universe, ends) && |ends| > 1 && |plan.starts| == |ends| && plan.starts[0] == 0
    && HeadersStored(bits, offset, |ends|, plan)
    && EF.Stored(bits, EF.MakeOffsets(SizesAt(offset, |ends|, plan), |vals|, |ends| - 1, params), ends[..|ends| - 1])
    && EF.Stored(bits, EF.MakeOffsets(UppersAt(offset, |ends|, plan, |vals|, params), universe, |ends| + 1, params),
                 Uppers(vals, universe, ends))
    && EndpointsStored(bits, EndpointsAt(offset, |ends|, plan, |vals|, universe, params), plan, |ends|)
    && PiecesStored(bits, SequencesAt(offset, |ends|, plan, |vals|, universe, params), plan.starts, |ends|, vals,
                    universe, params, ends)
  }

  /** The bits from the offset on hold the sequence in the given partitions. */
  ghost predicate Stored(bits: BitString, offset: nat, universe: nat, params: Parameters, vals: seq<nat>,
                         ends: seq<nat>, plan: Plan) {
    if |ends| == 1 then ends == [|vals|] && StoredOne(bits, offset, universe, params, vals)
    else StoredMany(bits, offset, universe, params, vals, ends, plan)
  }

  // ----- writing -----

  lemma PieceExtended(a: BitString, b: BitString, at: nat, vals: seq<nat>, universe: nat, params: Parameters,
                      ends: seq<nat>, p: nat)
    requires Cut(vals, universe, ends) && p < |ends| && a <= b && PieceStored(a, at, vals, universe, params, ends, p)
    ensures PieceStored(b, at, vals, universe, params, ends, p)
  {
    hide IS.Stored, Piece, PieceUniverse, Cut;
    PrefixAt(a, b);
    IS.Moved(b, 0, a, at, PieceUniverse(vals, universe, ends, p), params, Piece(vals, universe, ends, p));
  }

  lemma PiecesMoved(whole: BitString, d: nat, part: BitString, starts: seq<nat>, count: nat,
                    vals: seq<nat>, universe: nat, params: Parameters, ends: seq<nat>)
    requires Cut(vals, universe, ends) && count <= |ends| && count <= |starts|
    requires At(whole, d, part) && PiecesStored(part, 0, starts, count, vals, universe, params, ends)
    ensures PiecesStored(whole, d, starts, count, vals, universe, params, ends)
  {
    hide IS.Stored, Piece, PieceUniverse, Cut, At;
    forall p | 0 <= p < count ensures PieceStored(whole, d + starts[p], vals, universe, params, ends, p) {
      assert PieceStored(part, 0 + starts[p], vals, universe, params, ends, p);
      IS.Moved(whole, d, part, starts[p], PieceUniverse(vals, universe, ends, p), params,
               Piece(vals, universe, ends, p));
    }
  }

  /** Collects a partition's values as offsets from its base. */
  method CutPiece(vals: seq<nat>, universe: nat, ends: seq<nat>, p: nat, begin: nat, base: nat)
    returns (piece: seq<nat>)
    requires Cut(vals, universe, ends) && p < |ends| && begin == Begin(ends, p)
    requires p > 0 ==> 0 < ends[p - 1] <= |vals|
    requires base == Base(vals, ends, p)
    ensures piece == Piece(vals, universe, ends, p)
  {
    hide Cut, Piece, Base;
    CutFacts(vals, universe, ends, p);
    piece := [];
    for i := begin to ends[p]
      invariant |piece| == i - begin
      invariant forall k :: 0 <= k < |piece| ==> piece[k] == Piece(vals, universe, ends, p)[k]
    {
      PieceAt(vals, universe, ends, p, i - begin);
      piece := piece + [vals[i] - base];
    }
  }

  /** Adds one more piece to those written. */
  lemma PiecesMore(a: BitString, b: BitString, starts: seq<nat>, p: nat, vals: seq<nat>, universe: nat,
                   params: Parameters, ends: seq<nat>)
    requires Cut(vals, universe, ends) && p < |ends| && |starts| == p + 1 && a <= b
    requires PiecesStored(a, 0, starts, p, vals, universe, params, ends)
    requires starts[p] == |a| && PieceStored(b, |a|, vals, universe, params, ends, p)
    ensures PiecesStored(b, 0, starts + [|b|], p + 1, vals, universe, params, ends)
  {
    hide Cut, PieceStored;
    var more := starts + [|b|];
    forall q | 0 <= q < p + 1 ensures PieceStored(b, 0 + more[q], vals, universe, params, ends, q) {
      if q < p {
        assert PieceStored(a, 0 + starts[q], vals, universe, params, ends, q);
        PieceExtended(a, b, starts[q], vals, universe, params, ends, q);
      }
    }
  }

  /** How many bits the first count pieces take. */
  ghost function PiecesBits(vals: seq<nat>, universe: nat, ends: seq<nat>, params: Parameters, count: nat): nat
    requires Cut(vals, universe, ends) && count <= |ends|
  {
    hide Cut, Piece, PieceUniverse;
    if count == 0 then 0
    else
      PieceSized(vals, universe, ends, count - 1);
      PiecesBits(vals, universe, ends, params, count - 1)
      + IS.BitSize(params, PieceUniverse(vals, universe, ends, count - 1), |Piece(vals, universe, ends, count - 1)|)
  }

  lemma BitsMore(vals: seq<nat>, universe: nat, ends: seq<nat>, params: Parameters, p: nat)
    requires Cut(vals, universe, ends) && p < |ends|
    ensures PiecesBits(vals, universe, ends, params, 0) == 0
    ensures |Piece(vals, universe, ends, p)| > 0
    ensures PiecesBits(vals, universe, ends, params, p + 1) == PiecesBits(vals, universe, ends, params, p)
         + IS.BitSize(params, PieceUniverse(vals, universe, ends, p), |Piece(vals, universe, ends, p)|)
  {
    hide Cut, Piece, PieceUniverse, IS.BitSize;
    PieceSized(vals, universe, ends, p);
  }

  lemma PieceSized(vals: seq<nat>, universe: nat, ends: seq<nat>, p: nat)
    requires Cut(vals, universe, ends) && p < |ends|
    ensures |Piece(vals, universe, ends, p)| > 0
  {
    hide Cut, Piece;
    CutFacts(vals, universe, ends, p);
  }

  /** Endpoints are as wide as the bits of all pieces together need. */
  function WidthOfEndpoints(piecesBits: nat): nat {
    CeilLog2(piecesBits + 1)
  }

  ghost function OneBits(vals: seq<nat>, universe: nat, params: Parameters): nat
    requires Cut(vals, universe, [|vals|]) && vals[0] <= vals[|vals| - 1] && universe > 0
  {
    hide Cut, Gamma, Delta, CeilLog2, PiecesBits;
    OnlyPieceAt(0, vals, universe) + PiecesBits(vals, universe, [|vals|], params, 1)
  }

  ghost function ManyBits(vals: seq<nat>, universe: nat, ends: seq<nat>, params: Parameters): nat
    requires Cut(vals, universe, ends) && |ends| > 1
  {
    hide Cut, Gamma, PiecesBits, CeilLog2, EF.BitSize;
    var pieces := PiecesBits(vals, universe, ends, params, |ends|);
    SequencesAt(0, |ends|, Plan(WidthOfEndpoints(pieces), []), |vals|, universe, params) + pieces
  }

  /** The plan the writer must come to: pieces back to back, endpoints just wide enough. */
  ghost predicate Planned(plan: Plan, vals: seq<nat>, universe: nat, ends: seq<nat>, params: Parameters)
    requires Cut(vals, universe, ends)
  {
    && |plan.starts| == |ends|
    && plan.endpointBits == WidthOfEndpoints(PiecesBits(vals, universe, ends, params, |ends|))
    && forall p :: 0 <= p < |ends| ==> plan.starts[p] == PiecesBits(vals, universe, ends, params, p)
  }

  /** Writes one piece behind the others, and gives its last value. */
  method WritePiece(sequences: BitVectorBuilder, vals: seq<nat>, universe: nat, ends: seq<nat>, p: nat, begin: nat,
                    base: nat, params: Parameters)
    returns (upperBound: nat)
    requires Cut(vals, universe, ends) && p < |ends| && begin == Begin(ends, p)
    requires (p > 0 ==> 0 < ends[p - 1] <= |vals|) && base == Base(vals, ends, p)
    requires |sequences.bits| == PiecesBits(vals, universe, ends, params, p)
    modifies sequences
    ensures old(sequences.bits) <= sequences.bits
    ensures PieceStored(sequences.bits, |old(sequences.bits)|, vals, universe, params, ends, p)
    ensures |sequences.bits| == PiecesBits(vals, universe, ends, params, p + 1)
    ensures 0 < ends[p] <= |vals| && upperBound == Upper(vals, ends, p)
  {
    hide Cut, Piece, PieceUniverse, IS.Fits, IS.Stored, Base, Upper, IS.BitSize, Begin, PiecesBits;
    NextPiece(vals, universe, ends, p);
    PieceFits(vals, universe, ends, p);
    BitsMore(vals, universe, ends, params, p);
    var piece := CutPiece(vals, universe, ends, p, begin, base);
    upperBound := vals[ends[p] - 1];
    IS.Write(sequences, piece, piece[|piece| - 1] + 1, params);
  }

  /** The pieces one behind the other, where each ends, and the bounds between them. */
  method WritePieces(vals: seq<nat>, universe: nat, ends: seq<nat>, params: Parameters)
    returns (bits: BitString, endpoints: seq<nat>, uppers: seq<nat>)
    requires Cut(vals, universe, ends)
    ensures |endpoints| == |ends| && uppers == Uppers(vals, universe, ends)
    ensures forall p :: 0 <= p < |ends| ==> endpoints[p] <= |bits|
    ensures PiecesStored(bits, 0, [0] + endpoints, |ends|, vals, universe, params, ends)
    ensures |bits| == PiecesBits(vals, universe, ends, params, |ends|)
    ensures forall p :: 0 <= p < |ends| ==> endpoints[p] == PiecesBits(vals, universe, ends, params, p + 1)
  {
    hide Cut, PieceStored, PiecesStored, Base, Upper, Begin, PiecesBits;
    NoPieces(vals, universe, params, ends);
    var sequences := new BitVectorBuilder();
    var curBase, curI := vals[0], 0;
    endpoints, uppers := [], [vals[0]];
    FirstPiece(vals, universe, ends);
    BitsMore(vals, universe, ends, params, 0);
    for p := 0 to |ends|
      invariant |endpoints| == p && |uppers| == p + 1
      invariant forall q :: 0 <= q < p ==> endpoints[q] <= |sequences.bits|
      invariant forall q :: 0 <= q < p ==> endpoints[q] == PiecesBits(vals, universe, ends, params, q + 1)
      invariant ([0] + endpoints)[p] == |sequences.bits| == PiecesBits(vals, universe, ends, params, p)
      invariant curI == Begin(ends, p)
      invariant p < |ends| ==> (p > 0 ==> 0 < ends[p - 1] <= |vals|) && curBase == Base(vals, ends, p)
      invariant forall q :: 0 <= q <= p ==> uppers[q] == Uppers(vals, universe, ends)[q]
      invariant PiecesStored(sequences.bits, 0, [0] + endpoints, p, vals, universe, params, ends)
    {
      NextPiece(vals, universe, ends, p);
      ghost var before := sequences.bits;
      var upperBound := WritePiece(sequences, vals, universe, ends, p, curI, curBase, params);
      curI := ends[p];
      PiecesMore(before, sequences.bits, [0] + endpoints, p, vals, universe, params, ends);
      assert [0] + endpoints + [|sequences.bits|] == [0] + (endpoints + [|sequences.bits|]);
      endpoints := endpoints + [|sequences.bits|];
      uppers := uppers + [upperBound];
      curBase := upperBound + 1;
    }
    bits := sequences.bits;
  }

  lemma NoPieces(vals: seq<nat>, universe: nat, params: Parameters, ends: seq<nat>)
    requires Cut(vals, universe, ends)
    ensures PiecesStored([], 0, [0] + [], 0, vals, universe, params, ends) && vals != []
  {}

  lemma FirstPiece(vals: seq<nat>, universe: nat, ends: seq<nat>)
    requires Cut(vals, universe, ends)
    ensures |ends| > 0 && Base(vals, ends, 0) == vals[0] && Begin(ends, 0) == 0
  {}

  /** What the bookkeeping variables become behind a piece. */
  lemma NextPiece(vals: seq<nat>, universe: nat, ends: seq<nat>, p: nat)
    requires Cut(vals, universe, ends) && p < |ends|
    ensures Begin(ends, p) < ends[p] <= |vals| && Begin(ends, p + 1) == ends[p]
    ensures Upper(vals, ends, p) == vals[ends[p] - 1]
    ensures p + 1 < |ends| ==> Base(vals, ends, p + 1) == vals[ends[p] - 1] + 1
    ensures var piece := Piece(vals, universe, ends, p);
            |piece| > 0 && piece[|piece| - 1] + 1 == PieceUniverse(vals, universe, ends, p)
  {
    hide Cut, Piece;
    CutFacts(vals, universe, ends, p);
    PieceAt(vals, universe, ends, p, ends[p] - Begin(ends, p) - 1);
  }

  lemma OnePiece(vals: seq<nat>, universe: nat)
    requires Cut(vals, universe, [|vals|])
    ensures vals != [] && vals[0] <= vals[|vals| - 1] < universe
    ensures Begin([|vals|], 0) == 0 && Base(vals, [|vals|], 0) == vals[0]
    ensures var piece := Piece(vals, universe, [|vals|], 0);
            && |piece| == |vals| && piece[|piece| - 1] == vals[|vals| - 1] - vals[0]
            && PieceUniverse(vals, universe, [|vals|], 0) == piece[|piece| - 1] + 1
    ensures vals[0] < Pow2(CeilLog2(universe))
  {
    hide Cut, Piece, Pow2;
    FirstNotAboveLast(vals, universe, [|vals|]);
    CutFacts(vals, universe, [|vals|], 0);
    PieceAt(vals, universe, [|vals|], 0, |vals| - 1);
  }

  /** The whole sequence inline, behind its first value and, unless it is tight, its universe. */
  method WriteOne(bvb: BitVectorBuilder, vals: seq<nat>, universe: nat, params: Parameters)
    requires Cut(vals, universe, [|vals|])
    modifies bvb
    ensures old(bvb.bits) <= bvb.bits && StoredOne(bvb.bits, |old(bvb.bits)|, universe, params, vals)
    ensures |bvb.bits| == |old(bvb.bits)| + OneBits(vals, universe, params)
  {
    hide PiecesBits, Cut, Piece, PieceUniverse, IS.Fits, IS.Stored, Base, Upper, IS.BitSize, Begin, At, Gamma, Delta, ToBits,
         CeilLog2, Pow2;
    OnePiece(vals, universe);
    BitsMore(vals, universe, [|vals|], params, 0);
    ghost var b0 := bvb.bits;
    WriteGammaNonzero(bvb, 1);
    ghost var b1 := bvb.bits;
    var curBase := vals[0];
    var piece := CutPiece(vals, universe, [|vals|], 0, 0, curBase);
    var last := piece[|piece| - 1];
    bvb.AppendBits(curBase, CeilLog2(universe));
    ghost var b2 := bvb.bits;
    if |vals| > 1 {
      if curBase + last + 1 == universe {
        WriteDelta(bvb, 0);
      } else {
        WriteDelta(bvb, last);
      }
    }
    ghost var b3 := bvb.bits;
    PieceFits(vals, universe, [|vals|], 0);
    IS.Write(bvb, piece, last + 1, params);
    AtAppended(b0, Gamma(0));
    AtExtended(b1, bvb.bits, |b0|, Gamma(0));
    AtAppended(b1, ToBits(curBase, CeilLog2(universe)));
    AtExtended(b2, bvb.bits, |b1|, ToBits(curBase, CeilLog2(universe)));
    if |vals| > 1 {
      AtAppended(b2, Delta(HeaderUniverse(vals, universe)));
      AtExtended(b3, bvb.bits, |b2|, Delta(HeaderUniverse(vals, universe)));
    }
  }

  method AppendEndpoints(bvb: BitVectorBuilder, endpoints: seq<nat>, ghost plan: Plan, endpointBits: nat)
    requires endpoints != [] && plan.endpointBits == endpointBits && |plan.starts| == |endpoints|
    requires forall p :: 0 < p < |endpoints| ==> plan.starts[p] == endpoints[p - 1]
    requires forall p :: 0 <= p < |endpoints| ==> endpoints[p] < Pow2(endpointBits)
    modifies bvb
    ensures old(bvb.bits) <= bvb.bits && |bvb.bits| == |old(bvb.bits)| + endpointBits * (|endpoints| - 1)
    ensures EndpointsStored(bvb.bits, |old(bvb.bits)|, plan, |endpoints|)
  {
    hide ToBits, Pow2, FieldStored;
    ghost var start := bvb.bits;
    for p := 0 to |endpoints| - 1
      invariant start <= bvb.bits && |bvb.bits| == |start| + p * endpointBits
      invariant EndpointsStored(bvb.bits, |start|, plan, p + 1)
    {
      ghost var before := bvb.bits;
      bvb.AppendBits(endpoints[p], endpointBits);
      FieldAppended(before, endpoints[p], endpointBits);
      OneMoreEndpoint(before, bvb.bits, |start|, plan, p + 1);
      NextMultiple(p, endpointBits);
    }
  }

  lemma OneMoreEndpoint(a: BitString, b: BitString, at: nat, plan: Plan, count: nat)
    requires a <= b && 0 < count && EndpointsStored(a, at, plan, count)
    requires count < |plan.starts| ==>
               FieldStored(b, EndpointAt(at, plan.endpointBits, count), plan.endpointBits, plan.starts[count])
    ensures EndpointsStored(b, at, plan, count + 1)
  {
    hide FieldStored, EndpointAt;
    forall p | 0 < p < count + 1 && p < |plan.starts|
      ensures FieldStored(b, EndpointAt(at, plan.endpointBits, p), plan.endpointBits, plan.starts[p])
    {
      if p < count {
        FieldExtended(a, b, EndpointAt(at, plan.endpointBits, p), plan.endpointBits, plan.starts[p]);
      }
    }
  }

  lemma EndpointsExtended(a: BitString, b: BitString, at: nat, plan: Plan, count: nat)
    requires a <= b && EndpointsStored(a, at, plan, count)
    ensures EndpointsStored(b, at, plan, count)
  {
    hide FieldStored, EndpointAt;
    forall p | 0 < p < count && p < |plan.starts|
      ensures FieldStored(b, EndpointAt(at, plan.endpointBits, p), plan.endpointBits, plan.starts[p])
    {
      FieldExtended(a, b, EndpointAt(at, plan.endpointBits, p), plan.endpointBits, plan.starts[p]);
    }
  }

  /** A finished Elias-Fano encoding, appended and then followed by more. */
  lemma AppendedEncoding(before: BitString, code: BitString, after: BitString, universe: nat, n: nat,
                         params: Parameters, s: seq<nat>)
    requires n > 0 && before + code <= after && EF.Stored(code, EF.MakeOffsets(0, universe, n, params), s)
    ensures EF.Stored(after, EF.MakeOffsets(|before|, universe, n, params), s)
  {
    hide EF.Stored, EF.MakeOffsets;
    AtAppended(before, code);
    AtExtended(before + code, after, |before|, code);
    EF.Moved(after, |before|, code, 0, universe, n, params, s);
  }

  lemma PlanOf(endpoints: seq<nat>, endpointBits: nat) returns (plan: Plan)
    requires endpoints != []
    ensures plan.endpointBits == endpointBits && |plan.starts| == |endpoints| && plan.starts[0] == 0
    ensures forall p :: 0 < p < |endpoints| ==> plan.starts[p] == endpoints[p - 1]
    ensures plan.starts == ([0] + endpoints)[..|endpoints|]
  {
    plan := Plan(endpointBits, ([0] + endpoints)[..|endpoints|]);
  }

  lemma PiecesOfPlan(bits: BitString, endpoints: seq<nat>, starts: seq<nat>, vals: seq<nat>, universe: nat,
                     params: Parameters, ends: seq<nat>)
    requires Cut(vals, universe, ends) && |endpoints| == |ends| && starts == ([0] + endpoints)[..|endpoints|]
    requires PiecesStored(bits, 0, [0] + endpoints, |ends|, vals, universe, params, ends)
    ensures PiecesStored(bits, 0, starts, |ends|, vals, universe, params, ends)
  {
    hide PieceStored, Cut;
    forall p | 0 <= p < |ends| ensures PieceStored(bits, 0 + starts[p], vals, universe, params, ends, p) {
      assert PieceStored(bits, 0 + ([0] + endpoints)[p], vals, universe, params, ends, p);
    }
  }

  lemma EndpointsFit(endpoints: seq<nat>, size: nat)
    requires forall p :: 0 <= p < |endpoints| ==> endpoints[p] <= size
    ensures forall p :: 0 <= p < |endpoints| ==> endpoints[p] < Pow2(WidthOfEndpoints(size))
  {}

  /** Several partitions: sizes, upper bounds, endpoints, and the pieces. */
  method WriteMany(bvb: BitVectorBuilder, vals: seq<nat>, universe: nat, ends: seq<nat>, params: Parameters)
    returns (ghost plan: Plan)
    requires Cut(vals, universe, ends) && |ends| > 1
    modifies bvb
    ensures old(bvb.bits) <= bvb.bits && StoredMany(bvb.bits, |old(bvb.bits)|, universe, params, vals, ends, plan)
    ensures Planned(plan, vals, universe, ends, params)
    ensures |bvb.bits| == |old(bvb.bits)| + ManyBits(vals, universe, ends, params)
  {
    hide Cut, PiecesStored, EndpointsStored, IS.Stored, EF.Stored, EF.MakeOffsets, EF.BitSize, At, Gamma, Pow2,
         CeilLog2, Uppers, NonDecreasing, AllBelow, PiecesBits;
    SizesFit(vals, universe, ends);
    UppersFit(vals, universe, ends);
    var partitions := |ends|;
    ghost var b0 := bvb.bits;
    WriteGammaNonzero(bvb, partitions);
    ghost var b1 := bvb.bits;
    var sequences, endpoints, uppers := WritePieces(vals, universe, ends, params);
    var sizes := new BitVectorBuilder();
    var ok := EF.Write(sizes, ends[..partitions - 1], |vals|, params);
    var upperBounds := new BitVectorBuilder();
    ok := EF.Write(upperBounds, uppers, universe, params);
    var endpointBits := WidthOfEndpoints(|sequences|);
    plan := PlanOf(endpoints, endpointBits);
    EndpointsFit(endpoints, |sequences|);
    WriteGamma(bvb, endpointBits);
    ghost var b2 := bvb.bits;
    bvb.Append(sizes.bits);
    ghost var b3 := bvb.bits;
    bvb.Append(upperBounds.bits);
    ghost var b4 := bvb.bits;
    AppendEndpoints(bvb, endpoints, plan, endpointBits);
    ghost var b5 := bvb.bits;
    bvb.Append(sequences);
    ghost var b6 := bvb.bits;
    HeadersAppended(b0, b1, b2, b6, partitions, plan);
    AppendedEncoding(b2, sizes.bits, b6, |vals|, partitions - 1, params, ends[..partitions - 1]);
    AppendedEncoding(b3, upperBounds.bits, b6, universe, partitions + 1, params, Uppers(vals, universe, ends));
    EndpointsExtended(b5, b6, |b4|, plan, partitions);
    PiecesOfPlan(sequences, endpoints, plan.starts, vals, universe, params, ends);
    AtAppended(b5, sequences);
    PiecesMoved(b6, |b5|, sequences, plan.starts, partitions, vals, universe, params, ends);
    BitsMore(vals, universe, ends, params, 0);
  }

  lemma HeadersAppended(b0: BitString, b1: BitString, b2: BitString, b: BitString, partitions: nat, plan: Plan)
    requires partitions > 1 && b1 == b0 + Gamma(partitions - 1) && b2 == b1 + Gamma(plan.endpointBits) && b2 <= b
    ensures HeadersStored(b, |b0|, partitions, plan)
  {
    hide Gamma, At;
    AtAppended(b0, Gamma(partitions - 1));
    AtExtended(b1, b, |b0|, Gamma(partitions - 1));
    AtAppended(b1, Gamma(plan.endpointBits));
    AtExtended(b2, b, |b1|, Gamma(plan.endpointBits));
  }

  /** What a sequence in the given partitions takes. */
  ghost function EncodedBits(vals: seq<nat>, universe: nat, ends: seq<nat>, params: Parameters): nat
    requires Cut(vals, universe, ends)
  {
    if |ends| > 1 then ManyBits(vals, universe, ends, params)
    else
      OnlyEnd(vals, universe, ends);
      OneBits(vals, universe, params)
  }

  lemma OnlyEnd(vals: seq<nat>, universe: nat, ends: seq<nat>)
    requires Cut(vals, universe, ends) && |ends| <= 1
    ensures ends == [|vals|] && vals != [] && vals[0] <= vals[|vals| - 1] < universe
  {
    FirstNotAboveLast(vals, universe, ends);
    CutFacts(vals, universe, ends, 0);
  }

  /** Appends a sequence in the given partitions. */
  method Write(bvb: BitVectorBuilder, vals: seq<nat>, universe: nat, ends: seq<nat>, params: Parameters)
    returns (ghost plan: Plan)
    requires Cut(vals, universe, ends)
    modifies bvb
    ensures old(bvb.bits) <= bvb.bits && Stored(bvb.bits, |old(bvb.bits)|, universe, params, vals, ends, plan)
    ensures |bvb.bits| == |old(bvb.bits)| + EncodedBits(vals, universe, ends, params)
    ensures |ends| > 1 ==> Planned(plan, vals, universe, ends, params)
  {
    hide Cut, StoredOne, StoredMany, OneBits, ManyBits, Planned;
    SizesFit(vals, universe, ends);
    CutFacts(vals, universe, ends, 0);
    if |ends| == 1 {
      assert ends == [|vals|];
      WriteOne(bvb, vals, universe, params);
      plan := Plan(0, []);
    } else {
      plan := WriteMany(bvb, vals, universe, ends, params);
    }
  }
}
