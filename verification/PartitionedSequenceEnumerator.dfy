/** `partitioned_sequence::enumerator`: a cursor over the current partition, switched by position or by bound. */
module PartitionedSequenceEnumerators {
  import opened Arith
  import opened Bits
  import opened BitVectors
  import opened GlobalParameters
  import opened IntegerCodes
  import opened PartitionCosts
  import opened Partitions
  import opened PartitionedSequences
  import opened Slices
  import opened SortedLists
  import EF = EliasFano
  import EFE = EliasFanoEnumerators
  import IS = IndexedSequences

  /** What a 32-bit `int` makes of a number. */
  function ToInt32(x: int): int {
    var low := x % 0x1_0000_0000;
    if low < 0x8000_0000 then low else low - 0x1_0000_0000
  }

  lemma ToInt32Exact(x: nat)
    ensures ToInt32(x) == x <==> x < 0x8000_0000
  {}

  /** A single partition keeps its upper bound, and one more, in an `int`. */
  ghost predicate UpperFitsInt(vals: seq<nat>, ends: seq<nat>)
    requires vals != []
  {
    |ends| == 1 && |vals| > 1 ==> vals[|vals| - 1] < vals[0] + 0x7FFF_FFFF
  }

  /** What the reader makes of a single partition's upper bound, and of the universe it hands on, is
      right exactly if the values fit. The first pair of values that does not is 0 and 2^31 - 1. */
  lemma UpperExactly(vals: seq<nat>)
    requires vals != [] && vals[0] <= vals[|vals| - 1] && (|vals| == 1 ==> vals[0] == vals[|vals| - 1])
    ensures var ub := vals[|vals| - 1] - vals[0];
            UpperFitsInt(vals, [|vals|]) <==> |vals| == 1 || (ToInt32(ub) == ub && ToInt32(ToInt32(ub) + 1) == ub + 1)
    ensures ToInt32(1) == 1
    ensures !UpperFitsInt([0, 0x7FFF_FFFF], [2]) && ToInt32(0x7FFF_FFFF + 1) < 0
  {
    var ub := vals[|vals| - 1] - vals[0];
    ToInt32Exact(ub);
    ToInt32Exact(ub + 1);
  }

  lemma BetweenPieces(vals: seq<nat>, universe: nat, ends: seq<nat>, p: nat)
    requires Cut(vals, universe, ends) && 0 < p < |ends|
    ensures 0 < Begin(ends, p) <= |vals| && 0 < ends[p - 1] <= |vals|
    ensures Base(vals, ends, p) - 1 == vals[Begin(ends, p) - 1]
  {
    CutFacts(vals, universe, ends, p - 1);
  }

  /** The bound that m_upper_bounds.next_geq finds is that of the partition the bound falls into. */
  lemma {:induction false} UpperFound(vals: seq<nat>, universe: nat, ends: seq<nat>, lowerBound: nat, i: nat)
    requires Cut(vals, universe, ends) && 0 < i <= |ends|
    requires i == LowerBound(Uppers(vals, universe, ends), lowerBound) || Uppers(vals, universe, ends)[i] == lowerBound
    ensures var p := i - 1;
            && 0 < ends[p] <= |vals| && (p > 0 ==> 0 < ends[p - 1] <= |vals|)
            && Base(vals, ends, p) <= lowerBound <= Upper(vals, ends, p)
  {
    hide Cut;
    var p := i - 1;
    BaseFits(vals, universe, ends, p);
    var uppers := Uppers(vals, universe, ends);
    assert uppers[p + 1] == Upper(vals, ends, p);
    if p > 0 {
      BaseFits(vals, universe, ends, p - 1);
      assert uppers[p - 1 + 1] == Upper(vals, ends, p - 1);
    }
  }

  /** No bound is found: it is below the first value, or above the last. */
  lemma {:induction false} UpperMissed(vals: seq<nat>, universe: nat, ends: seq<nat>, lowerBound: nat)
    requires Cut(vals, universe, ends)
    ensures lowerBound <= vals[0] ==> LowerBound(vals, lowerBound) == 0
    ensures LowerBound(Uppers(vals, universe, ends), lowerBound) == |ends| + 1 ==>
              LowerBound(vals, lowerBound) == |vals|
    ensures lowerBound > vals[|vals| - 1] ==> LowerBound(vals, lowerBound) == |vals|
  {
    hide Cut;
    SizesFit(vals, universe, ends);
    CutFacts(vals, universe, ends, |ends| - 1);
    if lowerBound <= vals[0] {
      LowerBoundIsUnique(vals, lowerBound, 0);
    }
    var last := |ends| - 1;
    assert Uppers(vals, universe, ends)[last + 1] == Upper(vals, ends, last) == vals[|vals| - 1];
    if lowerBound > vals[|vals| - 1] {
      forall k | 0 <= k < |vals| ensures vals[k] < lowerBound { InOrder(vals, universe, ends, k, |vals| - 1); }
      LowerBoundIsUnique(vals, lowerBound, |vals|);
    }
  }

  /** The partition whose end is the first above a position holds it. */
  lemma PartitionFound(vals: seq<nat>, universe: nat, ends: seq<nat>, position: nat, p: nat)
    requires Cut(vals, universe, ends) && position < |vals|
    requires p == LowerBound(ends[..|ends| - 1], position + 1)
    ensures p < |ends| && Begin(ends, p) <= position < ends[p]
  {
    hide Cut;
    SizesFit(vals, universe, ends);
    CutFacts(vals, universe, ends, |ends| - 1);
    var sizes := ends[..|ends| - 1];
    if p > 0 { assert sizes[p - 1] < position + 1; }
    if p < |sizes| { assert sizes[p] >= position + 1; }
  }

  /** The value shown inside a piece is the sequence's value there. */
  lemma ShownInPiece(vals: seq<nat>, universe: nat, ends: seq<nat>, p: nat, kind: IS.IndexType, q: nat)
    requires Cut(vals, universe, ends) && p < |ends| && Begin(ends, p) <= q < ends[p]
    requires p > 0 ==> 0 < ends[p - 1] <= |vals|
    ensures |Piece(vals, universe, ends, p)| > 0 && q < |vals|
    ensures Base(vals, ends, p) + IS.Shown(kind, PieceUniverse(vals, universe, ends, p), Piece(vals, universe, ends, p), q - Begin(ends, p)) == vals[q]
  {
    hide Cut, Piece;
    PieceAt(vals, universe, ends, p, q - Begin(ends, p));
    CutFacts(vals, universe, ends, p);
  }

  class Enumerator {
    const bits: BitString
    const params: Parameters
    const n: nat
    const universe: nat
    const partitions: nat
    const endpointsOffset: nat
    const endpointBits: nat
    const sequencesOffset: nat
    const sizes: EFE.Enumerator?
    const upperBounds: EFE.Enumerator?
    var position: nat
    var curPartition: nat
    var curBegin: nat
    var curEnd: nat
    var curBase: nat
    var curUpperBound: nat
    var partitionEnum: IS.Enumerator?
    ghost const vals: seq<nat>
    ghost const ends: seq<nat>
    ghost const offset: nat
    ghost const plan: Plan

    ghost function Cursors(): (s: set<object>)
      ensures this !in s
    {
      (if sizes == null then {} else {sizes}) + (if upperBounds == null then {} else {upperBounds})
    }

    ghost function PieceRepr(): (s: set<object>)
      reads this`partitionEnum
      ensures this !in s
    {
      if partitionEnum == null then {} else partitionEnum.Repr()
    }

    /** The sequence is stored where the fields say. */
    ghost predicate Laid() {
      && Cut(vals, universe, ends) && Stored(bits, offset, universe, params, vals, ends, plan)
      && n == |vals| && partitions == |ends|
      && (partitions > 1 ==>
            && endpointBits == plan.endpointBits
            && endpointsOffset == EndpointsAt(offset, partitions, plan, n, universe, params)
            && sequencesOffset == SequencesAt(offset, partitions, plan, n, universe, params))
    }

    /** The cursors over sizes and upper bounds are usable; the second one is not at its end. */
    ghost predicate Opened()
      reads Cursors()
    {
      && Laid()
      && (partitions > 1 ==>
            && sizes != null && upperBounds != null && sizes != upperBounds
            && sizes.Valid() && sizes.vals == ends[..partitions - 1]
            && sizes.o.universe == n && sizes.o.n == partitions - 1
            && upperBounds.Valid() && upperBounds.vals == Uppers(vals, universe, ends)
            && upperBounds.o.universe == universe && upperBounds.o.n == partitions + 1)
    }

    ghost predicate OnPartition(p: nat)
      requires Laid()
      reads this`curPartition, this`curBegin, this`curEnd, this`curBase, this`curUpperBound, this`partitionEnum,
            PieceRepr()
    {
      && OnBounds(p)
      && partitionEnum != null && partitionEnum.Valid()
      && partitionEnum.vals == Piece(vals, universe, ends, p)
      && partitionEnum.universe == PieceUniverse(vals, universe, ends, p)
      && partitionEnum.n == ends[p] - Begin(ends, p)
      && PieceRepr() !! {this} + Cursors()
    }

    ghost predicate Valid()
      reads this, Cursors(), PieceRepr()
    {
      && Opened() && OnPartition(curPartition)
      && (partitions > 1 ==> upperBounds.position <= partitions)
      && curBegin <= position <= curEnd && (position == curEnd ==> position == n)
      && partitionEnum.Position() == position - curBegin
    }

    /** Reads the headers, opens the cursors they lead to, and goes to the end. */
    constructor (bits: BitString, offset: nat, universe: nat, n: nat, params: Parameters,
                 ghost vals: seq<nat>, ghost ends: seq<nat>, ghost plan: Plan)
      requires Cut(vals, universe, ends) && Stored(bits, offset, universe, params, vals, ends, plan)
      requires n == |vals| && UpperFitsInt(vals, ends)
      ensures Valid() && position == n
      ensures this.vals == vals && this.universe == universe && this.n == n
      ensures fresh(Cursors()) && fresh(PieceRepr())
    {
      hide Cut, Stored, StoredOne, StoredMany, EF.Stored, IS.Stored, Gamma, Delta, At, Piece, PieceUniverse, Uppers,
           IS.Fits,
           EF.MakeOffsets, EF.BitSize, Pow2, CeilLog2, ToBits, EF.Consistent, UpperFitsInt, Begin, Base, Upper,
           SequencesAt, EndpointsAt,
           UppersAt, SizesAt, Valid, ElementAt;
      this.bits, this.offset, this.universe, this.n, this.params := bits, offset, universe, n, params;
      this.vals, this.ends, this.plan := vals, ends, plan;
      position := n;
      PartitionCount(bits, offset, universe, params, vals, ends, plan);
      var it := new BitEnumerator(bits, offset);
      var count := ReadGammaNonzero(it, |ends|);
      partitions := count;
      if count == 1 {
        var base, ub, pieceUniverse := ReadOneHeader(it, offset, n, universe, params, vals);
        OnlyPartition(vals, universe, ends);
        curPartition, curBegin, curEnd, curBase, curUpperBound := 0, 0, n, base, base + ub;
        partitionEnum := new IS.Enumerator(bits, it.pos, pieceUniverse, n, params, Piece(vals, universe, ends, 0));
        sizes, upperBounds := null, null;
        endpointsOffset, endpointBits, sequencesOffset := 0, 0, 0;
      } else {
        var width, atSizes, atUppers, at, atSequences := ReadManyHeaders(it, offset, n, universe, count, params, vals,
                                                                         ends, plan);
        sizes := new EFE.Enumerator(bits, atSizes, n, count - 1, params, ends[..count - 1]);
        upperBounds := new EFE.Enumerator(bits, atUppers, universe, count + 1, params, Uppers(vals, universe, ends));
        endpointsOffset, endpointBits, sequencesOffset := at, width, atSequences;
        curPartition, curBegin, curEnd, curBase, curUpperBound := 0, 0, 0, 0, 0;
        partitionEnum := null;
      }
      new;
      var v := SlowMove(n);
    }

    /** The current partition's bounds are those of partition p. */
    ghost predicate OnBounds(p: nat)
      requires Laid()
      reads this`curPartition, this`curBegin, this`curEnd, this`curBase, this`curUpperBound
    {
      && curPartition == p < partitions
      && 0 < ends[p] <= n && (p > 0 ==> 0 < ends[p - 1] <= n)
      && curBegin == Begin(ends, p) && curEnd == ends[p]
      && curBase == Base(vals, ends, p) && curUpperBound == Upper(vals, ends, p)
    }

    method SwitchPartition(p: nat)
      requires Opened() && partitions > 1 && p < partitions
      modifies this`curPartition, this`curBegin, this`curEnd, this`curBase, this`curUpperBound, this`partitionEnum,
               Cursors()
      ensures Opened() && OnPartition(p) && upperBounds.position <= partitions
      ensures curPartition == p && fresh(PieceRepr()) && PieceRepr() !! Cursors()
    {
      hide Cut, EF.Stored, IS.Stored, Stored, StoredMany, Begin, Base, Upper, Piece, PieceUniverse, Uppers, EndpointAt,
           IS.Fits, EndpointsAt, SequencesAt;
      var partitionBegin := PieceBegin(p);
      SwitchBounds(p);
      SwitchFacts(vals, universe, ends, p);
      partitionEnum := new IS.Enumerator(bits, partitionBegin, curUpperBound - curBase + 1, curEnd - curBegin, params,
                                         Piece(vals, universe, ends, p));
    }

    /** Where a partition's encoding starts. */
    method PieceBegin(p: nat) returns (at: nat)
      requires Laid() && partitions > 1 && p < partitions
      ensures IS.Stored(bits, at, PieceUniverse(vals, universe, ends, p), params, Piece(vals, universe, ends, p))
    {
      hide Cut, IS.Stored, Stored, Piece, PieceUniverse, EndpointAt, GetBits, EndpointsAt, SequencesAt;
      PartitionStored(bits, offset, universe, params, vals, ends, plan, p);
      var endpoint := 0;
      if p > 0 {
        endpoint := GetBits(bits, EndpointAt(endpointsOffset, endpointBits, p), endpointBits);
      }
      at := sequencesOffset + endpoint;
    }

    method SwitchBounds(p: nat)
      requires Opened() && partitions > 1 && p < partitions
      modifies this`curPartition, this`curBegin, this`curEnd, this`curBase, this`curUpperBound, Cursors()
      ensures Opened() && OnBounds(p) && upperBounds.position <= partitions
    {
      hide Cut, EF.Stored, Stored, Begin, Base, Upper, Piece, PieceUniverse, Uppers, EndpointsAt, SequencesAt;
      SwitchFacts(vals, universe, ends, p);
      curPartition := p;
      sizes.Move(p);
      curEnd := sizes.value;
      curBegin := sizes.PrevValue();
      upperBounds.Move(p + 1);
      curUpperBound := upperBounds.value;
      curBase := upperBounds.PrevValue();
      if p > 0 { curBase := curBase + 1; }
    }

    /** What the current partition's bounds say about its positions. */
    lemma BoundsFacts()
      requires Laid() && OnBounds(curPartition)
      ensures curBegin < curEnd <= n && universe > 0 && n > 0
      ensures partitions == 1 ==>
                curPartition == 0 && curBegin == 0 && curEnd == n && curBase == vals[0] && curUpperBound == vals[n - 1]
      ensures curEnd < n ==> curPartition + 1 < partitions && Begin(ends, curPartition + 1) == curEnd
    {
      hide Cut, Stored, Base, Upper;
      CutFacts(vals, universe, ends, curPartition);
      LastEnd(vals, universe, ends);
      if curEnd < n { NotLast(vals, universe, ends, curPartition); }
    }

    lemma Facts()
      requires Opened() && OnPartition(curPartition)
      ensures Laid() && n == |vals| && partitions == |ends| > 0 && OnBounds(curPartition) && PieceRepr() !! Cursors()
      ensures curBegin < curEnd <= n && universe > 0 && n > 0
      ensures partitions == 1 ==>
                curPartition == 0 && curBegin == 0 && curEnd == n && curBase == vals[0] && curUpperBound == vals[n - 1]
      ensures curEnd < n ==> curPartition + 1 < partitions && Begin(ends, curPartition + 1) == curEnd
    {
      hide Stored;
      BoundsFacts();
    }

    /** What the partition's cursor shows is the sequence's value. */
    lemma ValueInPiece(q: nat, w: nat)
      requires Laid() && OnPartition(curPartition) && curBegin <= q < curEnd && partitionEnum.vals != []
      requires w == IS.Shown(partitionEnum.kind, partitionEnum.universe, partitionEnum.vals, q - curBegin)
      ensures q < n && curBase + w == vals[q]
    {
      hide IS.Enumerator.Valid, Cut, Stored, Base, Upper, Piece, PieceUniverse, Uppers, IS.Fits, IS.Shown;
      ShownInPiece(vals, universe, ends, curPartition, partitionEnum.kind, q);
    }

    lemma PieceSize()
      requires Laid() && OnPartition(curPartition)
      ensures partitionEnum != null && partitionEnum.Valid()
      ensures partitionEnum.n == curEnd - curBegin && curBegin < curEnd
      ensures partitionEnum.vals != []
    {
      hide Cut, Stored, Base, Upper, Piece, PieceUniverse, Uppers;
      CutFacts(vals, universe, ends, curPartition);
    }

    /** Goes to a position of the current partition. */
    method MoveInPiece(p: nat) returns (v: nat)
      requires Opened() && OnPartition(curPartition) && (partitions > 1 ==> upperBounds.position <= partitions)
      requires curBegin <= p < curEnd
      modifies this`position, PieceRepr()
      ensures Valid() && position == p < n && v == vals[p]
      ensures curPartition == old(curPartition) && partitionEnum == old(partitionEnum)
    {
      hide Laid, OnBounds, Piece, PieceUniverse, Uppers, IS.Fits, IS.Shown, IS.Stored;
      position := p;
      PieceSize();
      var q, w := partitionEnum.Move(p - curBegin);
      ValueInPiece(p, w);
      v := curBase + w;
    }

    /** Between two calls the cursor is valid; a search that found no upper bound only needs it to be open. */
    method Move(p: nat) returns (q: nat, v: nat)
      requires Opened() && OnPartition(curPartition) && p <= n
      requires partitions > 1 ==> upperBounds.position <= partitions || p == n
      modifies this, Cursors(), PieceRepr()
      ensures Valid() && q == position == p && v == ElementAt(vals, universe, p)
      ensures PieceRepr() == old(PieceRepr()) || fresh(PieceRepr())
    {
      hide Opened, OnPartition, Valid, Laid, PieceRepr, Cursors;
      Facts();
      q := p;
      if curBegin <= p < curEnd {
        v := MoveInPiece(p);
      } else {
        v := SlowMove(p);
      }
    }

    /** Goes to a position outside the current partition. */
    method SlowMove(p: nat) returns (v: nat)
      requires Opened() && p <= n && (partitions > 1 || (p == n && OnPartition(0)))
      modifies this, Cursors(), PieceRepr()
      ensures Valid() && position == p && v == ElementAt(vals, universe, p)
      ensures PieceRepr() == old(PieceRepr()) || fresh(PieceRepr())
    {
      hide Opened, OnPartition, Valid, Laid, Cursors;
      OpenedIsLaid();
      position := p;
      if p == n {
        v := MoveToEnd();
      } else {
        v := MoveAcross(p);
      }
    }

    lemma OpenedIsLaid()
      requires Opened()
      ensures Laid() && n == |vals| && partitions == |ends|
    {}

    method MoveToEnd() returns (v: nat)
      requires Opened() && (partitions > 1 || OnPartition(0)) && position == n
      modifies this, Cursors(), PieceRepr()
      ensures Valid() && position == n && v == universe
      ensures PieceRepr() == old(PieceRepr()) || fresh(PieceRepr())
    {
      hide Opened, OnPartition, Valid, Laid, PieceRepr, Cursors;
      OpenedIsLaid();
      Counted();
      if partitions > 1 {
        SwitchPartition(partitions - 1);
      }
      EndOfPiece();
      v := universe;
    }

    /** Moves the last partition's cursor to its end. */
    method EndOfPiece()
      requires Opened() && OnPartition(partitions - 1)
      requires (partitions > 1 ==> upperBounds.position <= partitions) && position == n
      modifies PieceRepr()
      ensures Valid() && PieceRepr() == old(PieceRepr())
    {
      hide IS.Enumerator.Valid, Laid, OnBounds, Piece, PieceUniverse, Uppers, IS.Shown, IS.Stored, IS.Fits;
      Counted();
      AtLastEnd();
      PieceSize();
      var q, w := partitionEnum.Move(partitionEnum.n);
    }

    lemma Counted()
      requires Laid()
      ensures partitions > 0 && n == |vals|
    {
      LastEnd(vals, universe, ends);
    }

    lemma AtLastEnd()
      requires Laid() && partitions > 0 && OnBounds(partitions - 1)
      ensures curPartition == partitions - 1 && curEnd == n
    {
      LastEnd(vals, universe, ends);
    }

    method MoveAcross(p: nat) returns (v: nat)
      requires Opened() && partitions > 1 && p < n
      modifies this, Cursors(), PieceRepr()
      ensures Valid() && position == p < |vals| && v == vals[p]
      ensures PieceRepr() == old(PieceRepr()) || fresh(PieceRepr())
    {
      hide OnPartition, Valid, Opened, Laid, PieceRepr, Cursors;
      OpenedIsLaid();
      var i := FindPartition(p);
      SwitchPartition(i);
      InPartition(p);
      v := MoveInPiece(p);
    }

    lemma InPartition(p: nat)
      requires Laid() && OnPartition(curPartition) && Begin(ends, curPartition) <= p < ends[curPartition]
      ensures curBegin <= p < curEnd
    {}

    /** The partition of a position, by the first end above it. */
    method FindPartition(p: nat) returns (i: nat)
      requires Opened() && partitions > 1 && p < n
      modifies Cursors()
      ensures Opened() && i < partitions == |ends| && Begin(ends, i) <= p < ends[i]
    {
      hide Cut, EF.Stored, Stored, Begin, Base, Upper, Uppers, EndpointsAt, SequencesAt, LowerBound;
      SizesAscend(vals, universe, ends, sizes.position);
      sizes.NextGeq(p + 1);
      i := sizes.position;
      PartitionFound(vals, universe, ends, p, i);
    }

    method Next() returns (q: nat, v: nat)
      requires Valid() && position < n
      modifies this, Cursors(), PieceRepr()
      ensures Valid() && q == position == old(position) + 1 && v == ElementAt(vals, universe, position)
      ensures PieceRepr() == old(PieceRepr()) || fresh(PieceRepr())
    {
      hide IS.Enumerator.Valid, Laid, OnBounds, Piece, PieceUniverse, Uppers, IS.Shown, IS.Stored, IS.Fits;
      Counted();
      if position + 1 < curEnd {
        v := NextInPiece();
      } else {
        v := SlowNext();
      }
      q := position;
    }

    method NextInPiece() returns (v: nat)
      requires Valid() && position + 1 < curEnd
      modifies this`position, PieceRepr()
      ensures Valid() && position == old(position) + 1 < |vals|
      ensures v == vals[position] && partitionEnum == old(partitionEnum)
    {
      hide IS.Enumerator.Valid, Laid, OnBounds, Piece, PieceUniverse, Uppers, IS.Shown, IS.Stored, IS.Fits;
      Counted();
      position := position + 1;
      PieceSize();
      var r, w := partitionEnum.Next();
      ValueInPiece(position, w);
      v := curBase + w;
    }

    /** Leaves the current partition at its end. */
    method SlowNext() returns (v: nat)
      requires Valid() && position < n && position + 1 == curEnd
      modifies this, Cursors(), PieceRepr()
      ensures Valid() && position == old(position) + 1 && v == ElementAt(vals, universe, position)
      ensures PieceRepr() == old(PieceRepr()) || fresh(PieceRepr())
    {
      hide Opened, OnPartition, Laid, Cursors;
      Facts();
      if position + 1 == n {
        NextAtEnd();
        v := universe;
      } else {
        position := position + 1;
        v := NextPartition();
      }
    }

    /** Takes the last partition's cursor to its end. */
    method NextAtEnd()
      requires Valid() && position + 1 == curEnd == n
      modifies this`position, PieceRepr()
      ensures Valid() && position == n && PieceRepr() == old(PieceRepr())
    {
      hide IS.Enumerator.Valid, Laid, OnBounds, Piece, PieceUniverse, Uppers, IS.Shown, IS.Stored, IS.Fits;
      PieceSize();
      position := position + 1;
      var r, w := partitionEnum.Next();
    }

    method NextPartition() returns (v: nat)
      requires Opened() && OnPartition(curPartition) && curPartition + 1 < partitions == |ends|
      requires position < n && Begin(ends, curPartition + 1) == position
      modifies this, Cursors(), PieceRepr()
      ensures Valid() && position == old(position) < |vals| && v == vals[position]
      ensures PieceRepr() == old(PieceRepr()) || fresh(PieceRepr())
    {
      hide OnPartition, Valid, Opened, Laid, PieceRepr, Cursors;
      OpenedIsLaid();
      SwitchPartition(curPartition + 1);
      FirstOfPiece();
      v := MoveInPiece(position);
    }

    lemma FirstOfPiece()
      requires Laid() && OnPartition(curPartition)
      ensures curBegin == Begin(ends, curPartition) < curEnd
    {
      PieceSize();
    }

    /** The bound lies in the current partition. */
    predicate InRange(lowerBound: nat)
      reads this
    {
      curBase <= lowerBound <= curUpperBound
    }

    /** The first value at or above any bound, or the end. */
    method NextGeq(lowerBound: nat) returns (q: nat, v: nat)
      requires Opened() && OnPartition(curPartition)
      requires partitions > 1 ==> upperBounds.position <= partitions
      modifies this, Cursors(), PieceRepr()
      ensures Valid() && q == position == LowerBound(vals, lowerBound) && v == ElementAt(vals, universe, position)
      ensures PieceRepr() == old(PieceRepr()) || fresh(PieceRepr())
      ensures old(InRange(lowerBound)) ==> PieceRepr() == old(PieceRepr())
      decreases if InRange(lowerBound) then 0 else 1, 1
    {
      hide Opened, OnPartition, OnBounds, Valid, Laid, PieceRepr, Cursors, LowerBound;
      Facts();
      if InRange(lowerBound) {
        v := NextGeqInPiece(lowerBound);
        q := position;
      } else {
        q, v := SlowNextGeq(lowerBound);
      }
    }

    method NextGeqInPiece(lowerBound: nat) returns (v: nat)
      requires Opened() && OnPartition(curPartition) && InRange(lowerBound)
      requires partitions > 1 ==> upperBounds.position <= partitions
      modifies this`position, PieceRepr()
      ensures Valid() && position == LowerBound(vals, lowerBound) < |vals| && v == vals[position]
      ensures PieceRepr() == old(PieceRepr())
    {
      hide IS.Enumerator.Valid, Laid, OnBounds, Piece, PieceUniverse, Uppers, IS.Shown, IS.Stored, IS.Fits, LowerBound;
      PieceSize();
      BoundHere(lowerBound);
      var r, w := partitionEnum.NextGeq(lowerBound - curBase);
      position := curBegin + r;
      ValueInPiece(position, w);
      v := curBase + w;
    }

    lemma {:induction false} BoundHere(lowerBound: nat)
      requires Laid() && OnPartition(curPartition) && InRange(lowerBound)
      ensures n == |vals| && lowerBound - curBase < partitionEnum.universe
      ensures var r := LowerBound(partitionEnum.vals, lowerBound - curBase);
              r < curEnd - curBegin && curBegin + r == LowerBound(vals, lowerBound)
    {
      hide IS.Enumerator.Valid, Cut, Stored, Base, Upper, Piece, PieceUniverse, LowerBound;
      BoundInPiece(vals, universe, ends, curPartition, lowerBound);
    }

    /** The first upper bound at or above the bound, or one that equals it. */
    method FindUpper(lowerBound: nat) returns (i: nat)
      requires Opened() && OnPartition(curPartition) && partitions > 1 && upperBounds.position <= partitions
      modifies Cursors()
      ensures Opened() && OnPartition(curPartition) && i == upperBounds.position <= partitions + 1
      ensures PieceRepr() == old(PieceRepr())
      ensures i == LowerBound(Uppers(vals, universe, ends), lowerBound)
              || (i <= partitions && Uppers(vals, universe, ends)[i] == lowerBound)
    {
      hide Cut, EF.Stored, Stored, Begin, Base, Upper, Piece, PieceUniverse, Uppers, EndpointsAt, SequencesAt,
           LowerBound;
      upperBounds.NextGeq(lowerBound);
      i := upperBounds.position;
    }

    method SlowNextGeq(lowerBound: nat) returns (q: nat, v: nat)
      requires Opened() && OnPartition(curPartition) && !InRange(lowerBound)
      requires partitions > 1 ==> upperBounds.position <= partitions
      modifies this, Cursors(), PieceRepr()
      ensures Valid() && q == position == LowerBound(vals, lowerBound) && v == ElementAt(vals, universe, position)
      ensures PieceRepr() == old(PieceRepr()) || fresh(PieceRepr())
      decreases 1, 0
    {
      hide Opened, OnPartition, OnBounds, Valid, Laid, PieceRepr, Cursors, LowerBound;
      Facts();
      if partitions == 1 {
        OutOfRange(lowerBound);
        if lowerBound < curBase {
          q, v := Move(0);
        } else {
          q, v := Move(n);
        }
      } else {
        q, v := NextGeqAcross(lowerBound);
      }
    }

    lemma {:induction false} OutOfRange(lowerBound: nat)
      requires Laid() && n > 0
      ensures n == |vals|
      ensures lowerBound < vals[0] ==> LowerBound(vals, lowerBound) == 0
      ensures lowerBound > vals[n - 1] ==> LowerBound(vals, lowerBound) == n
    {
      UpperMissed(vals, universe, ends, lowerBound);
    }

    method NextGeqAcross(lowerBound: nat) returns (q: nat, v: nat)
      requires Opened() && OnPartition(curPartition) && partitions > 1 && !InRange(lowerBound)
      requires upperBounds.position <= partitions
      modifies this, Cursors(), PieceRepr()
      ensures Valid() && q == position == LowerBound(vals, lowerBound) && v == ElementAt(vals, universe, position)
      ensures PieceRepr() == old(PieceRepr()) || fresh(PieceRepr())
      decreases 0, 2
    {
      hide Opened, OnPartition, Valid, Laid, LowerBound, InRange, Cursors, PieceRepr;
      OpenedIsLaid();
      var i := FindUpper(lowerBound);
      BoundFound(lowerBound, i);
      if i == 0 {
        q, v := Move(0);
      } else if i == partitions + 1 {
        q, v := Move(n);
      } else {
        SwitchPartition(i - 1);
        NowInRange(lowerBound);
        q, v := NextGeq(lowerBound);
      }
    }

    /** The bound falls into the partition found, or before or behind all of them. */
    lemma {:induction false} BoundFound(lowerBound: nat, i: nat)
      requires Laid() && i <= partitions + 1
      requires i == LowerBound(Uppers(vals, universe, ends), lowerBound)
              || (i <= partitions && Uppers(vals, universe, ends)[i] == lowerBound)
      ensures i == 0 ==> LowerBound(vals, lowerBound) == 0
      ensures i == partitions + 1 ==> LowerBound(vals, lowerBound) == n
      ensures 0 < i <= partitions ==> RangeOf(i - 1, lowerBound)
    {
      hide Cut, Stored;
      UpperMissed(vals, universe, ends, lowerBound);
      if 0 < i <= partitions {
        UpperFound(vals, universe, ends, lowerBound, i);
      }
    }

    /** The bound lies in partition p. */
    ghost predicate RangeOf(p: nat, lowerBound: nat)
      requires Laid() && p < partitions
    {
      && 0 < ends[p] <= n && (p > 0 ==> 0 < ends[p - 1] <= n)
      && Base(vals, ends, p) <= lowerBound <= Upper(vals, ends, p)
    }

    lemma NowInRange(lowerBound: nat)
      requires Laid() && OnPartition(curPartition) && RangeOf(curPartition, lowerBound)
      ensures InRange(lowerBound)
    {}

    /** The value before the current position; zero at the start. */
    method PrevValue() returns (prev: nat)
      requires Valid()
      ensures Valid() && PieceRepr() == old(PieceRepr())
      ensures prev == if position == 0 then 0 else vals[position - 1]
    {
      hide IS.Enumerator.Valid, Cut, EF.Stored, Stored, Base, Upper, Piece, PieceUniverse, Uppers, IS.Fits,
           EndpointsAt, SequencesAt;
      if position == curBegin {
        if curPartition > 0 { BetweenPieces(vals, universe, ends, curPartition); }
        return if curPartition > 0 then curBase - 1 else 0;
      }
      PieceAt(vals, universe, ends, curPartition, position - 1 - curBegin);
      var w := partitionEnum.PrevValue();
      prev := curBase + w;
    }
  }

  lemma LastEnd(vals: seq<nat>, universe: nat, ends: seq<nat>)
    requires Cut(vals, universe, ends)
    ensures |ends| > 0 && ends[|ends| - 1] == |vals| > 0 && Begin(ends, |ends| - 1) < |vals|
    ensures Base(vals, ends, 0) == vals[0] && Upper(vals, ends, |ends| - 1) == vals[|vals| - 1]
  {
    SizesFit(vals, universe, ends);
    CutFacts(vals, universe, ends, |ends| - 1);
  }

  lemma NotLast(vals: seq<nat>, universe: nat, ends: seq<nat>, p: nat)
    requires Cut(vals, universe, ends) && p < |ends| && ends[p] < |vals|
    ensures p + 1 < |ends| && Begin(ends, p + 1) == ends[p] < ends[p + 1]
  {
    LastEnd(vals, universe, ends);
    CutFacts(vals, universe, ends, p + 1);
  }

  /** Where the cursor over the sizes stands is the first match for what it shows. */
  lemma SizesAscend(vals: seq<nat>, universe: nat, ends: seq<nat>, p: nat)
    requires Cut(vals, universe, ends) && p < |ends|
    ensures LowerBound(ends[..|ends| - 1], ElementAt(ends[..|ends| - 1], |vals|, p)) == p
  {
    SizesFit(vals, universe, ends);
    StaysPut(ends[..|ends| - 1], |vals|, p);
  }

  lemma PartitionCount(bits: BitString, offset: nat, universe: nat, params: Parameters, vals: seq<nat>, ends: seq<nat>,
                       plan: Plan)
    requires Cut(vals, universe, ends) && Stored(bits, offset, universe, params, vals, ends, plan)
    ensures |ends| > 0 && At(bits, offset, Gamma(|ends| - 1)) && |vals| > 0
    ensures |ends| == 1 ==> StoredOne(bits, offset, universe, params, vals) && ends == [|vals|]
    ensures |ends| != 1 ==> StoredMany(bits, offset, universe, params, vals, ends, plan)
  {
    SizesFit(vals, universe, ends);
    CutFacts(vals, universe, ends, 0);
  }

  lemma OnlyPartition(vals: seq<nat>, universe: nat, ends: seq<nat>)
    requires Cut(vals, universe, ends) && ends == [|vals|]
    ensures 0 < ends[0] <= |vals| && Begin(ends, 0) == 0
    ensures Base(vals, ends, 0) == vals[0] && Upper(vals, ends, 0) == vals[|vals| - 1]
    ensures |Piece(vals, universe, ends, 0)| == |vals| && vals[0] <= vals[|vals| - 1]
    ensures PieceUniverse(vals, universe, ends, 0) == vals[|vals| - 1] - vals[0] + 1
  {
    hide Cut, Piece;
    CutFacts(vals, universe, ends, 0);
    FirstNotAboveLast(vals, universe, ends);
  }

  /** The base, the upper bound as the `int` it is kept in, and the universe handed on, one more in an `int`.
      Both numbers are right exactly if the values fit. */
  method ReadOneHeader(it: BitEnumerator, ghost offset: nat, n: nat, universe: nat, ghost params: Parameters,
                       ghost vals: seq<nat>)
    returns (base: nat, ub: int, pieceUniverse: int)
    requires StoredOne(it.bits, offset, universe, params, vals) && it.pos == offset + |Gamma(0)|
    requires n == |vals|
    modifies it
    ensures base == vals[0]
    ensures UpperFitsInt(vals, [|vals|]) <==>
              base + ub == vals[n - 1] && pieceUniverse == PieceUniverse(vals, universe, [|vals|], 0)
    ensures IS.Stored(it.bits, it.pos, PieceUniverse(vals, universe, [|vals|], 0), params,
                      Piece(vals, universe, [|vals|], 0))
  {
    hide Cut, IS.Stored, Gamma, Delta, At, Piece, PieceUniverse, ToBits, CeilLog2, Pow2, UpperFitsInt, ToInt32;
    OnePiece(vals, universe);
    FirstNotAboveLast(vals, universe, [|vals|]);
    FieldReads(it.bits, it.pos, vals[0], CeilLog2(universe));
    base := it.Take(CeilLog2(universe));
    ub := 0;
    if n > 1 {
      var delta := ReadDelta(it, HeaderUniverse(vals, universe));
      ub := ToInt32(if delta != 0 then delta else universe - base - 1);
    }
    pieceUniverse := ToInt32(ub + 1);
    UpperExactly(vals);
  }

  /** The width of an endpoint, and where the sizes, the upper bounds, the endpoints and the encodings start. */
  method ReadManyHeaders(it: BitEnumerator, ghost offset: nat, n: nat, universe: nat, count: nat, params: Parameters,
                         ghost vals: seq<nat>, ghost ends: seq<nat>, ghost plan: Plan)
    returns (width: nat, atSizes: nat, atUppers: nat, at: nat, atSequences: nat)
    requires StoredMany(it.bits, offset, universe, params, vals, ends, plan) && count == |ends| > 1 && n == |vals| > 0
    requires it.pos == offset + |Gamma(|ends| - 1)|
    modifies it
    ensures EF.Stored(it.bits, EF.MakeOffsets(atSizes, n, count - 1, params), ends[..count - 1])
    ensures EF.Stored(it.bits, EF.MakeOffsets(atUppers, universe, count + 1, params), Uppers(vals, universe, ends))
    ensures EF.MakeOffsets(atSizes, n, count - 1, params).universe == n
    ensures EF.MakeOffsets(atSizes, n, count - 1, params).n == count - 1
    ensures EF.MakeOffsets(atUppers, universe, count + 1, params).universe == universe
    ensures EF.MakeOffsets(atUppers, universe, count + 1, params).n == count + 1
    ensures width == plan.endpointBits && at == EndpointsAt(offset, count, plan, n, universe, params)
    ensures atSequences == SequencesAt(offset, count, plan, n, universe, params)
  {
    hide Cut, StoredMany, EF.Stored, Gamma, At, Uppers, EF.MakeOffsets, EF.BitSize, EF.Consistent, SizesAt, UppersAt,
         EndpointsAt, SequencesAt;
    ManyHeaders(it.bits, offset, universe, params, vals, ends, plan);
    width := ReadGamma(it, plan.endpointBits);
    atSizes := it.pos;
    atUppers := atSizes + EF.BitSize(params, n, count - 1);
    at := atUppers + EF.BitSize(params, universe, count + 1);
    atSequences := at + width * (count - 1);
    EF.MadeConsistent(atSizes, n, count - 1, params);
    EF.MadeConsistent(atUppers, universe, count + 1, params);
  }

  /** The headers of several partitions. */
  lemma ManyHeaders(bits: BitString, offset: nat, universe: nat, params: Parameters, vals: seq<nat>, ends: seq<nat>,
                    plan: Plan)
    requires StoredMany(bits, offset, universe, params, vals, ends, plan)
    ensures At(bits, offset + |Gamma(|ends| - 1)|, Gamma(plan.endpointBits))
    ensures offset + |Gamma(|ends| - 1)| + |Gamma(plan.endpointBits)| == SizesAt(offset, |ends|, plan)
    ensures EF.Stored(bits, EF.MakeOffsets(SizesAt(offset, |ends|, plan), |vals|, |ends| - 1, params),
                      ends[..|ends| - 1])
    ensures EF.Stored(bits,
                      EF.MakeOffsets(UppersAt(offset, |ends|, plan, |vals|, params), universe, |ends| + 1,
                                     params), Uppers(vals, universe, ends))
    ensures UppersAt(offset, |ends|, plan, |vals|, params) ==
              SizesAt(offset, |ends|, plan) + EF.BitSize(params, |vals|, |ends| - 1)
    ensures EndpointsAt(offset, |ends|, plan, |vals|, universe, params) ==
            UppersAt(offset, |ends|, plan, |vals|, params) + EF.BitSize(params, universe, |ends| + 1)
    ensures SequencesAt(offset, |ends|, plan, |vals|, universe, params) ==
            EndpointsAt(offset, |ends|, plan, |vals|, universe, params) + plan.endpointBits * (|ends| - 1)
  {
    hide Cut, EF.Stored, EF.MakeOffsets, EF.BitSize, Gamma, Uppers, At;
  }

  /** What the header fields lead to for partition p. */
  lemma PartitionStored(bits: BitString, offset: nat, universe: nat, params: Parameters, vals: seq<nat>, ends: seq<nat>,
                        plan: Plan, p: nat)
    requires Cut(vals, universe, ends) && Stored(bits, offset, universe, params, vals, ends, plan)
    requires p < |ends| && |ends| > 1
    ensures |plan.starts| == |ends| && plan.starts[0] == 0
    ensures p > 0 ==>
              FieldStored(bits,
                          EndpointAt(EndpointsAt(offset, |ends|, plan, |vals|, universe, params), plan.endpointBits, p),
                                  plan.endpointBits, plan.starts[p])
    ensures IS.Stored(bits, SequencesAt(offset, |ends|, plan, |vals|, universe, params) + plan.starts[p],
                      PieceUniverse(vals, universe, ends, p), params, Piece(vals, universe, ends, p))
  {
    hide Cut, EF.Stored, IS.Stored, Piece, PieceUniverse, Uppers, EF.MakeOffsets, FieldStored, EndpointAt, EndpointsAt,
         SequencesAt, HeadersStored, SizesAt, UppersAt;
    assert PieceStored(bits, SequencesAt(offset, |ends|, plan, |vals|, universe, params) + plan.starts[p], vals,
                       universe, params, ends, p);
  }

  /** The values the cursors over sizes and bounds show for partition p. */
  lemma SwitchFacts(vals: seq<nat>, universe: nat, ends: seq<nat>, p: nat)
    requires Cut(vals, universe, ends) && p < |ends|
    ensures 0 < ends[p] <= |vals| && (p > 0 ==> 0 < ends[p - 1] <= |vals|)
    ensures ElementAt(ends[..|ends| - 1], |vals|, p) == ends[p]
    ensures Begin(ends, p) == (if p == 0 then 0 else ends[..|ends| - 1][p - 1]) < ends[p]
    ensures ElementAt(Uppers(vals, universe, ends), universe, p + 1) == Upper(vals, ends, p)
    ensures Base(vals, ends, p) == Uppers(vals, universe, ends)[p] + (if p > 0 then 1 else 0) <= Upper(vals, ends, p)
    ensures PieceUniverse(vals, universe, ends, p) == Upper(vals, ends, p) - Base(vals, ends, p) + 1
    ensures |Piece(vals, universe, ends, p)| == ends[p] - Begin(ends, p)
  {
    hide Cut, Piece;
    BaseFits(vals, universe, ends, p);
    SizesFit(vals, universe, ends);
    if p > 0 {
      BaseFits(vals, universe, ends, p - 1);
      assert Uppers(vals, universe, ends)[p - 1 + 1] == Upper(vals, ends, p - 1);
    }
  }
}
