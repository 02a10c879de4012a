/** A sequence cut into partitions, each measured from the value before it: the pieces a partitioned
    sequence stores, and where positions and bounds fall among them. */
module Partitions {
  import opened PartitionCosts
  import opened SortedLists
  import IS = IndexedSequences

  /** What is cut: increasing values below the universe, in non-empty partitions. */
  ghost predicate Cut(vals: seq<nat>, universe: nat, ends: seq<nat>) {
    vals != [] && Increasing(vals) && AllBelow(vals, universe) && IsPartition(ends, |vals|)
  }

  lemma CutFacts(vals: seq<nat>, universe: nat, ends: seq<nat>, p: nat)
    requires Cut(vals, universe, ends) && p < |ends|
    ensures Begin(ends, p) < ends[p] <= |vals| && ends[|ends| - 1] == |vals|
    ensures p + 1 < |ends| ==> ends[p] < |vals|
    ensures universe > 0 && |ends| > 0
  {
    assert ProperBlock(ends, p);
    EndsAscend(ends, |vals|, p, p);
    assert vals[0] < universe;
  }

  /** The last value of partition p. */
  function Upper(vals: seq<nat>, ends: seq<nat>, p: nat): nat
    requires p < |ends| && 0 < ends[p] <= |vals|
  {
    vals[ends[p] - 1]
  }

  /** What partition p is measured from. */
  function Base(vals: seq<nat>, ends: seq<nat>, p: nat): nat
    requires p < |ends| && vals != [] && (p > 0 ==> 0 < ends[p - 1] <= |vals|)
  {
    if p == 0 then vals[0] else vals[ends[p - 1] - 1] + 1
  }

  lemma BaseFits(vals: seq<nat>, universe: nat, ends: seq<nat>, p: nat)
    requires Cut(vals, universe, ends) && p < |ends|
    ensures p > 0 ==> 0 < ends[p - 1] <= |vals|
    ensures 0 < ends[p] <= |vals| && Begin(ends, p) < ends[p]
    ensures Base(vals, ends, p) <= vals[Begin(ends, p)] <= Upper(vals, ends, p) < universe
  {
    CutFacts(vals, universe, ends, p);
    if p > 0 { CutFacts(vals, universe, ends, p - 1); }
  }

  function Less(vals: seq<nat>, base: nat): (r: seq<nat>)
    requires forall i :: 0 <= i < |vals| ==> base <= vals[i]
    ensures |r| == |vals| && forall i :: 0 <= i < |vals| ==> r[i] == vals[i] - base
  {
    if vals == [] then [] else Less(vals[..|vals| - 1], base) + [vals[|vals| - 1] - base]
  }

  /** The values of partition p, as offsets from its base. */
  ghost function Piece(vals: seq<nat>, universe: nat, ends: seq<nat>, p: nat): (r: seq<nat>)
    requires Cut(vals, universe, ends) && p < |ends|
    ensures |r| == ends[p] - Begin(ends, p)
  {
    BaseFits(vals, universe, ends, p);
    CutFacts(vals, universe, ends, p);
    SliceAbove(vals, Base(vals, ends, p), Begin(ends, p), ends[p]);
    Less(vals[Begin(ends, p)..ends[p]], Base(vals, ends, p))
  }

  lemma SliceAbove(vals: seq<nat>, base: nat, lo: nat, hi: nat)
    requires Increasing(vals) && lo < hi <= |vals| && base <= vals[lo]
    ensures forall i :: 0 <= i < hi - lo ==> base <= vals[lo..hi][i]
  {}

  ghost function PieceUniverse(vals: seq<nat>, universe: nat, ends: seq<nat>, p: nat): (u: nat)
    requires Cut(vals, universe, ends) && p < |ends|
    ensures u > 0
  {
    BaseFits(vals, universe, ends, p);
    Upper(vals, ends, p) - Base(vals, ends, p) + 1
  }

  lemma PieceAt(vals: seq<nat>, universe: nat, ends: seq<nat>, p: nat, i: nat)
    requires Cut(vals, universe, ends) && p < |ends| && i < ends[p] - Begin(ends, p)
    ensures Begin(ends, p) + i < |vals|
    ensures p > 0 ==> 0 < ends[p - 1] <= |vals|
    ensures Piece(vals, universe, ends, p)[i] == vals[Begin(ends, p) + i] - Base(vals, ends, p)
  {
    BaseFits(vals, universe, ends, p);
    CutFacts(vals, universe, ends, p);
    SliceAbove(vals, Base(vals, ends, p), Begin(ends, p), ends[p]);
  }

  /** Every piece can be stored, with a universe that ends right behind its last value. */
  lemma PieceFits(vals: seq<nat>, universe: nat, ends: seq<nat>, p: nat)
    requires Cut(vals, universe, ends) && p < |ends|
    ensures IS.Fits(PieceUniverse(vals, universe, ends, p), Piece(vals, universe, ends, p))
  {
    hide Piece, Cut;
    BaseFits(vals, universe, ends, p);
    CutFacts(vals, universe, ends, p);
    var piece, u := Piece(vals, universe, ends, p), PieceUniverse(vals, universe, ends, p);
    var n := |piece|;
    forall i | 0 <= i < n ensures piece[i] < u && (i + 1 == n ==> piece[i] == u - 1) {
      PieceAt(vals, universe, ends, p, i);
      InOrder(vals, universe, ends, Begin(ends, p) + i, ends[p] - 1);
    }
    forall i, j | 0 <= i < j < n ensures piece[i] < piece[j] {
      PieceAt(vals, universe, ends, p, i);
      PieceAt(vals, universe, ends, p, j);
      InOrder(vals, universe, ends, Begin(ends, p) + i, Begin(ends, p) + j);
    }
  }

  lemma InOrder(vals: seq<nat>, universe: nat, ends: seq<nat>, i: nat, j: nat)
    requires Cut(vals, universe, ends) && i <= j < |vals|
    ensures vals[i] <= vals[j] && (i < j ==> vals[i] < vals[j])
  {}

  /** A bound within a partition's range is found in its piece. */
  lemma BoundInPiece(vals: seq<nat>, universe: nat, ends: seq<nat>, p: nat, lowerBound: nat)
    requires Cut(vals, universe, ends) && p < |ends|
    requires 0 < ends[p] <= |vals| && (p > 0 ==> 0 < ends[p - 1] <= |vals|)
    requires Base(vals, ends, p) <= lowerBound <= Upper(vals, ends, p)
    ensures lowerBound - Base(vals, ends, p) < PieceUniverse(vals, universe, ends, p)
    ensures var i := LowerBound(Piece(vals, universe, ends, p), lowerBound - Base(vals, ends, p));
            i < |Piece(vals, universe, ends, p)| && Begin(ends, p) + i == LowerBound(vals, lowerBound)
  {
    hide Piece, Cut;
    BaseFits(vals, universe, ends, p);
    CutFacts(vals, universe, ends, p);
    var piece := Piece(vals, universe, ends, p);
    var i := LowerBound(piece, lowerBound - Base(vals, ends, p));
    var last := |piece| - 1;
    PieceAt(vals, universe, ends, p, last);
    assert i <= last;
    PieceAt(vals, universe, ends, p, i);
    forall k | 0 <= k < Begin(ends, p) + i ensures vals[k] < lowerBound {
      if k < Begin(ends, p) {
        InOrder(vals, universe, ends, k, Begin(ends, p) - 1);
      } else {
        PieceAt(vals, universe, ends, p, k - Begin(ends, p));
      }
    }
    LowerBoundIsUnique(vals, lowerBound, Begin(ends, p) + i);
  }

  /** The first value and every partition's last value. */
  ghost function Uppers(vals: seq<nat>, universe: nat, ends: seq<nat>): (r: seq<nat>)
    requires Cut(vals, universe, ends)
    ensures |r| == |ends| + 1 && r[0] == vals[0]
    ensures forall p :: 0 <= p < |ends| ==> 0 < ends[p] <= |vals| && r[p + 1] == Upper(vals, ends, p)
  {
    forall p | 0 <= p < |ends| ensures 0 < ends[p] <= |vals| { BaseFits(vals, universe, ends, p); }
    [vals[0]] + seq(|ends|, p requires 0 <= p < |ends| => Upper(vals, ends, p))
  }

  lemma UpperOrdered(vals: seq<nat>, universe: nat, ends: seq<nat>, p: nat, q: nat)
    requires Cut(vals, universe, ends) && p <= q < |ends|
    ensures 0 < ends[p] <= ends[q] <= |vals| && vals[0] <= Upper(vals, ends, p) <= Upper(vals, ends, q) < universe
  {
    hide Cut;
    BaseFits(vals, universe, ends, p);
    BaseFits(vals, universe, ends, q);
    EndsInOrder(vals, universe, ends, p, q);
    InOrder(vals, universe, ends, ends[p] - 1, ends[q] - 1);
    InOrder(vals, universe, ends, 0, ends[p] - 1);
  }

  lemma EndsInOrder(vals: seq<nat>, universe: nat, ends: seq<nat>, p: nat, q: nat)
    requires Cut(vals, universe, ends) && p <= q < |ends|
    ensures ends[p] <= ends[q] <= |vals| && (p < q ==> ends[p] < ends[q])
  {
    EndsAscend(ends, |vals|, p, q);
  }

  lemma UppersFit(vals: seq<nat>, universe: nat, ends: seq<nat>)
    requires Cut(vals, universe, ends)
    ensures NonDecreasing(Uppers(vals, universe, ends)) && AllBelow(Uppers(vals, universe, ends), universe)
  {
    hide Cut;
    var r := Uppers(vals, universe, ends);
    FirstBelow(vals, universe, ends);
    forall i, j | 0 <= i <= j < |r| ensures r[i] <= r[j] < universe {
      if j > 0 { UpperOrdered(vals, universe, ends, if i == 0 then 0 else i - 1, j - 1); }
    }
  }

  lemma FirstBelow(vals: seq<nat>, universe: nat, ends: seq<nat>)
    requires Cut(vals, universe, ends)
    ensures vals[0] < universe
  {}

  /** All ends but the last, which is the size. */
  lemma SizesFit(vals: seq<nat>, universe: nat, ends: seq<nat>)
    requires Cut(vals, universe, ends)
    ensures |ends| > 0 && Increasing(ends[..|ends| - 1])
    ensures NonDecreasing(ends[..|ends| - 1]) && AllBelow(ends[..|ends| - 1], |vals|)
    ensures forall p :: 0 <= p < |ends| ==> ElementAt(ends[..|ends| - 1], |vals|, p) == ends[p]
  {
    CutFacts(vals, universe, ends, |ends| - 1);
    forall p, q | 0 <= p <= q < |ends| ensures ends[p] <= ends[q] <= |vals| && (p < q ==> ends[p] < ends[q]) {
      EndsInOrder(vals, universe, ends, p, q);
    }
  }
}
