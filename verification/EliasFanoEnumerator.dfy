/** `compact_elias_fano::enumerator`: move, next, next_geq and prev_value over the stored bits. */
module EliasFanoEnumerators {
  import opened Arith
  import opened Bits
  import opened BitVectors
  import opened GlobalParameters
  import opened Sampling
  import opened SortedLists
  import opened EliasFano

  const LINEAR_SCAN_THRESHOLD := 8

  /** The enumerator of ones has passed exactly the first i of them. */
  ghost predicate Ready(o: Offsets, vals: seq<nat>, u: Unary, i: nat) {
    o.higherOffset <= u.From() <= o.lowerOffset && AfterOnes(HighOnes(o, vals), i, u.From())
  }

  lemma NextOneIs(bits: BitString, o: Offsets, vals: seq<nat>, u: Unary, i: nat)
    requires Stored(bits, o, vals) && Ready(o, vals, u, i) && i < |vals|
    ensures u.Next(bits) == Unary(HighPosition(o, vals, i), true)
    ensures Ready(o, vals, u.Next(bits), i + 1)
  {
    hide Consistent, LowsDone, Pointers1Done, Pointers0Done, OnesAre, AllBelow, NonDecreasing, HighPosition;
    NthOneIs(bits, o.higherOffset, o.lowerOffset, HighOnes(o, vals), i, u.From(), 0);
    PassedIsReady(o, vals, i);
  }

  lemma PassedIsReady(o: Offsets, vals: seq<nat>, i: nat)
    requires Fits(o, vals) && i < |vals|
    ensures Ready(o, vals, Unary(HighPosition(o, vals, i), true), i + 1)
    ensures Ready(o, vals, Unary(HighPosition(o, vals, i), false), i)
  {
    hide Consistent, AllBelow, HighPosition;
    HighInRange(o, vals, i);
    RegionsOrdered(o);
    if i + 1 < |vals| { HighsOrdered(o, vals, |vals|, i, i + 1); }
    if i > 0 { HighsOrdered(o, vals, |vals|, i - 1, i); }
  }

  lemma SkipIs(bits: BitString, o: Offsets, vals: seq<nat>, u: Unary, i: nat, k: nat)
    requires Stored(bits, o, vals) && Ready(o, vals, u, i) && i + k < |vals|
    ensures u.Skip(bits, k) == Unary(HighPosition(o, vals, i + k), false)
    ensures Ready(o, vals, u.Skip(bits, k), i + k)
  {
    hide Consistent, LowsDone, Pointers1Done, Pointers0Done, OnesAre, AllBelow, NonDecreasing, HighPosition;
    NthOneIs(bits, o.higherOffset, o.lowerOffset, HighOnes(o, vals), i, u.From(), k);
    PassedIsReady(o, vals, i + k);
  }

  /** The value read from a one's place and the low part. */
  function Joined(o: Offsets, highPosition: int, i: nat, low: nat): nat
    requires highPosition - o.higherOffset - i - 1 >= 0
  {
    Or(low, Shl(highPosition - o.higherOffset - i - 1, o.lowerBits))
  }

  lemma JoinedIs(bits: BitString, o: Offsets, vals: seq<nat>, i: nat)
    requires Stored(bits, o, vals) && i < |vals|
    ensures LowAt(o, i) + o.lowerBits <= |bits|
    ensures HighPosition(o, vals, i) - o.higherOffset - i - 1 >= 0
    ensures Joined(o, HighPosition(o, vals, i), i, GetBits(bits, LowAt(o, i), o.lowerBits)) == vals[i]
  {
    hide Consistent, Pointers1Done, Pointers0Done, OnesAre, AllBelow, NonDecreasing, HighOnes, Shl, Shr, Low, Or,
         LowAt, GetBits;
    assert LowStored(bits, o, vals, i);
    OrOfParts(vals[i], o.lowerBits);
  }

  /** The predecessor of the one at position i (or of the end) is the one before. */
  lemma {:induction false} PredecessorOne(bits: BitString, o: Offsets, vals: seq<nat>, i: nat, p: nat)
    requires Stored(bits, o, vals) && 0 < i <= |vals|
    requires p == if i < |vals| then HighPosition(o, vals, i) - 1 else o.lowerOffset - 1
    ensures p < |bits| && Predecessor1(bits, p) == HighPosition(o, vals, i - 1)
  {
    hide Consistent, LowsDone, Pointers1Done, Pointers0Done, OnesAre, AllBelow, HighPosition;
    HighInRange(o, vals, i - 1);
    RegionsOrdered(o);
    if i < |vals| {
      HighInRange(o, vals, i);
      HighsOrdered(o, vals, |vals|, i - 1, i);
    }
    InStretch(bits, o.higherOffset, o.lowerOffset, HighOnes(o, vals), i - 1);
    PredecessorIs(bits, o.higherOffset, o.lowerOffset, HighOnes(o, vals), i, p);
  }

  /** Where a pointer to a one leads. */
  lemma {:induction false} Pointer1Leads(bits: BitString, o: Offsets, vals: seq<nat>, position: nat)
    requires Stored(bits, o, vals) && position < |vals|
    ensures var ptr := Shr(position, o.logSampling1);
            && Shl(ptr, o.logSampling1) <= position
            && (ptr == 0 ==> Shl(ptr, o.logSampling1) == 0 && Ready(o, vals, Unary(o.higherOffset, false), 0))
            && (ptr > 0 ==>
                  && Pointer1At(o, ptr) + o.pointerSize <= |bits|
                  && Ready(o, vals, Unary(o.higherOffset + GetBits(bits, Pointer1At(o, ptr), o.pointerSize), false),
                           Shl(ptr, o.logSampling1)))
  {
    hide Consistent, LowsDone, Pointers0Done, OnesAre, AllBelow, HighPosition, Shl, Shr, Pointer1At, GetBits,
         NonDecreasing, CeilDiv, Pow2;
    var ptr := Shr(position, o.logSampling1);
    LowPlusHigh(position, o.logSampling1);
    if ptr == 0 {
      ShlIsTimes(0, o.logSampling1);
      HighInRange(o, vals, 0);
      RegionsOrdered(o);
    } else {
      PtrBelow(ptr, o.n, o.logSampling1);
      assert Pointer1Stored(bits, o, vals, ptr);
      PassedIsReady(o, vals, Shl(ptr, o.logSampling1));
    }
  }

  /** The enumerator of ones stands on the zero behind h zeros, with j ones passed. */
  ghost predicate AtZero(o: Offsets, vals: seq<nat>, u: Unary, h: nat, j: nat) {
    && j <= |vals| && Ready(o, vals, u, j)
    && u.pos == o.higherOffset + h + j && u.From() == u.pos
  }

  /** Skipping zeros from the one just given out, which counts as a zero itself. */
  lemma SkipZerosFromOne(bits: BitString, o: Offsets, vals: seq<nat>, i: nat, h: nat) returns (j: nat)
    requires Stored(bits, o, vals) && i < |vals| && Shr(vals[i], o.lowerBits) < h <= Shr(o.universe, o.lowerBits)
    ensures AtZero(o, vals, Unary(HighPosition(o, vals, i), true).Skip0(bits, h - Shr(vals[i], o.lowerBits)), h, j)
  {
    hide LowsDone, Pointers1Done, Pointers0Done, OnesAre, AllBelow, NonDecreasing, Shr;
    PassedIsReady(o, vals, i);
    j := NthZeroIs(bits, o.higherOffset, o.lowerOffset, HighOnes(o, vals), i + 1, HighPosition(o, vals, i) + 1,
                   h - Shr(vals[i], o.lowerBits) - 1);
  }

  /** Skipping zeros from the sampled zero before the wanted one. */
  lemma SkipZerosFromPointer(bits: BitString, o: Offsets, vals: seq<nat>, h: nat) returns (j: nat)
    requires Stored(bits, o, vals) && h <= Shr(o.universe, o.lowerBits)
    ensures var ptr := Shr(h, o.logSampling0);
            && Shl(ptr, o.logSampling0) <= h
            && (ptr == 0 ==> Shl(ptr, o.logSampling0) == 0 && AtZero(o, vals, Unary(o.higherOffset, false).Skip0(bits, h), h, j))
            && (ptr > 0 ==>
                  && Pointer0At(o, ptr) + o.pointerSize <= |bits|
                  && AtZero(o, vals, Unary(o.higherOffset + GetBits(bits, Pointer0At(o, ptr), o.pointerSize), false)
                                      .Skip0(bits, h - Shl(ptr, o.logSampling0)), h, j))
  {
    hide LowsDone, Pointers1Done, OnesAre, AllBelow, HighPosition, Shl, Shr, Pointer0At, GetBits, NonDecreasing,
         CeilDiv, Pow2;
    var ptr := Shr(h, o.logSampling0);
    var z := Shl(ptr, o.logSampling0);
    LowPlusHigh(h, o.logSampling0);
    if ptr == 0 {
      ShlIsTimes(0, o.logSampling0);
      HighInRange(o, vals, 0);
      j := NthZeroIs(bits, o.higherOffset, o.lowerOffset, HighOnes(o, vals), 0, o.higherOffset, h);
    } else {
      PtrBelow(ptr, o.higherLength - o.n, o.logSampling0);
      assert Pointer0Stored(bits, o, vals, ptr);
      var i :| Pointer0Behind(bits, o, vals, ptr, i);
      j := NthZeroIs(bits, o.higherOffset, o.lowerOffset, HighOnes(o, vals), i, o.higherOffset + z + i, h - z);
    }
  }

  /** Every value in front of the zero behind h zeros has a smaller high part than h. */
  lemma {:induction false} BelowTheZero(o: Offsets, vals: seq<nat>, u: Unary, lowerBound: nat, j: nat)
    requires Fits(o, vals) && AtZero(o, vals, u, Shr(lowerBound, o.lowerBits), j)
    ensures j > 0 ==> vals[j - 1] < lowerBound
  {
    hide Shr, AllBelow, Consistent;
    if j > 0 && vals[j - 1] >= lowerBound {
      ShrMonotone(lowerBound, vals[j - 1], o.lowerBits);
    }
  }

  /** A bound above the universe, asked for at the end and close to it, pushes the position past the end. */
  predicate OverrunsAt(o: Offsets, position: nat, lowerBound: nat) {
    && position == o.n && lowerBound > o.universe
    && Shr(lowerBound, o.lowerBits) - Shr(o.universe, o.lowerBits) <= LINEAR_SCAN_THRESHOLD
  }

  /** A cursor at its end, as a new one is, always overruns on the bound one above the universe. */
  lemma OneAboveOverruns(o: Offsets)
    ensures OverrunsAt(o, o.n, o.universe + 1)
  {
    ShrOfNext(o.universe, o.lowerBits);
  }

  lemma {:induction false} ShrOfNext(v: nat, p: nat)
    ensures Shr(v + 1, p) <= Shr(v, p) + 1
  {
    if p == 0 {
    } else if v % 2 == 1 {
      assert (v + 1) / 2 == v / 2 + 1;
      ShrOfNext(v / 2, p - 1);
    } else {
      assert (v + 1) / 2 == v / 2;
    }
  }

  class Enumerator {
    const bits: BitString
    const o: Offsets
    ghost const vals: seq<nat>
    var position: nat
    var value: nat
    var high: Unary

    ghost predicate Valid()
      reads this
    {
      && Stored(bits, o, vals)
      && position <= |vals| == o.n && value == ElementAt(vals, o.universe, position)
      && (position < |vals| ==> high == Unary(HighPosition(o, vals, position), true))
    }

    /** The enumerator of ones is left unset until the first move. */
    constructor (bits: BitString, offset: nat, universe: nat, n: nat, params: Parameters, ghost vals: seq<nat>)
      requires n > 0 && Stored(bits, MakeOffsets(offset, universe, n, params), vals)
      ensures Valid() && this.vals == vals && this.bits == bits && position == n
      ensures o == MakeOffsets(offset, universe, n, params)
    {
      MadeConsistent(offset, universe, n, params);
      this.bits, this.vals := bits, vals;
      o := MakeOffsets(offset, universe, n, params);
      position, value := n, universe;
    }

    method ReadLow(i: nat) returns (low: nat)
      requires Stored(bits, o, vals) && i < |vals|
      ensures LowAt(o, i) + o.lowerBits <= |bits| && low == GetBits(bits, LowAt(o, i), o.lowerBits)
    {
      JoinedIs(bits, o, vals, i);
      low := GetBits(bits, LowAt(o, i), o.lowerBits);
    }

    /** Reads the value at the current position from the next one. */
    method ReadNext()
      requires Stored(bits, o, vals) && position < |vals| && |vals| == o.n && Ready(o, vals, high, position)
      modifies this`value, this`high
      ensures Valid()
    {
      hide Stored, Ready, HighPosition, Joined;
      NextOneIs(bits, o, vals, high, position);
      JoinedIs(bits, o, vals, position);
      high := high.Next(bits);
      var low := ReadLow(position);
      value := Joined(o, high.pos, position, low);
    }

    method Next()
      requires Valid() && position < |vals|
      modifies this
      ensures Valid() && position == old(position) + 1
    {
      hide Stored, Ready, HighPosition;
      StoredFits(bits, o, vals);
      PassedIsReady(o, vals, position);
      position := position + 1;
      if position < o.n {
        ReadNext();
      } else {
        value := o.universe;
      }
    }

    method Move(p: nat)
      requires Valid() && p <= o.n
      modifies this
      ensures Valid() && position == p
    {
      hide Stored, Ready, HighPosition;
      if p == position { return; }
      if p > position && p - position <= LINEAR_SCAN_THRESHOLD {
        MoveNear(p);
      } else {
        SlowMove(p);
      }
    }

    /** Takes one bit after the other. */
    method MoveNear(p: nat)
      requires Valid() && position < p <= o.n
      modifies this
      ensures Valid() && position == p
    {
      hide Stored, Ready, HighPosition, Joined;
      var he := NextOnes(p - position);
      position := p;
      if position == o.n {
        value := o.universe;
      } else {
        JoinedIs(bits, o, vals, position);
        var low := ReadLow(position);
        value := Joined(o, he.pos, position, low);
        high := he;
      }
    }

    /** A copy of the enumerator of ones, taken that many ones further. */
    method NextOnes(skip: nat) returns (he: Unary)
      requires Valid() && position + skip <= o.n
      ensures position < position + skip < o.n ==> he == Unary(HighPosition(o, vals, position + skip), true)
    {
      hide Stored, Ready, HighPosition;
      he := high;
      if position + skip == o.n { return; }
      StoredFits(bits, o, vals);
      PassedIsReady(o, vals, position);
      for i := 0 to skip
        invariant Ready(o, vals, he, position + 1 + i)
        invariant he == Unary(HighPosition(o, vals, position + i), true)
      {
        NextOneIs(bits, o, vals, he, position + 1 + i);
        he := he.Next(bits);
      }
    }

    method SlowMove(p: nat)
      requires Valid() && p <= o.n
      modifies this
      ensures Valid() && position == p
    {
      hide Stored, Ready, HighPosition, Shr, Shl, Pointer1At, GetBits;
      if p == o.n {
        position, value := p, o.universe;
        return;
      }
      StoredFits(bits, o, vals);
      var toSkip;
      if p > position && Shr(p - position, o.logSampling1) == 0 {
        PassedIsReady(o, vals, position);
        toSkip := p - position - 1;
        SkipIs(bits, o, vals, high, position + 1, toSkip);
      } else {
        Pointer1Leads(bits, o, vals, p);
        var ptr := Shr(p, o.logSampling1);
        var highPos := if ptr == 0 then 0 else GetBits(bits, Pointer1At(o, ptr), o.pointerSize);
        high := Unary(o.higherOffset + highPos, false);
        toSkip := p - Shl(ptr, o.logSampling1);
        SkipIs(bits, o, vals, high, Shl(ptr, o.logSampling1), toSkip);
      }
      high := high.Skip(bits, toSkip);
      position := p;
      ReadNext();
    }

    /** `next_reader`: the value at a position, from the next one of a copied enumerator. */
    method ReadAt(u: Unary, i: nat) returns (he: Unary, val: nat)
      requires Stored(bits, o, vals) && i < |vals| && Ready(o, vals, u, i)
      ensures he == Unary(HighPosition(o, vals, i), true) && Ready(o, vals, he, i + 1) && val == vals[i]
    {
      hide Stored, Ready, HighPosition, Joined;
      NextOneIs(bits, o, vals, u, i);
      JoinedIs(bits, o, vals, i);
      he := u.Next(bits);
      var low := ReadLow(i);
      val := Joined(o, he.pos, i, low);
    }

    predicate Overruns(lowerBound: nat)
      reads this
    {
      OverrunsAt(o, position, lowerBound)
    }

    /** The place the cursor goes to: it stays on an equal value, else it goes to the first match. */
    ghost function Target(lowerBound: nat): nat
      reads this
    {
      if lowerBound == value then position else LowerBound(vals, lowerBound)
    }

    method NextGeq(lowerBound: nat)
      requires Valid()
      modifies this
      ensures old(Overruns(lowerBound)) ==> position == o.n + 1 && value == o.universe
      ensures !old(Overruns(lowerBound)) ==> Valid() && position == old(Target(lowerBound))
      ensures position == old(Target(lowerBound)) <==> !old(Overruns(lowerBound))
    {
      hide Stored, Ready, HighPosition, Shr, NonDecreasing;
      if lowerBound == value { return; }
      StoredFits(bits, o, vals);
      if lowerBound > value && Shr(lowerBound, o.lowerBits) - Shr(value, o.lowerBits) <= LINEAR_SCAN_THRESHOLD {
        var p, val, he := ScanNear(lowerBound);
        position, value, high := p, val, he;
      } else {
        SlowNextGeq(lowerBound);
      }
    }

    /** Reads on, one value after the other, starting behind the current one. */
    method ScanNear(lowerBound: nat) returns (p: nat, val: nat, he: Unary)
      requires Valid() && lowerBound > value
      ensures position == o.n ==> p == o.n + 1 && val == o.universe
      ensures position < o.n ==> p == LowerBound(vals, lowerBound) && val == ElementAt(vals, o.universe, p)
      ensures p < o.n ==> he == Unary(HighPosition(o, vals, p), true)
    {
      hide Stored, Ready, HighPosition, NonDecreasing;
      StoredFits(bits, o, vals);
      he, p := high, position;
      if position < o.n { PassedIsReady(o, vals, position); }
      while true
        invariant position <= p
        invariant p == position || p < o.n
        invariant p < o.n ==> Ready(o, vals, he, p + 1) && vals[p] < lowerBound
        decreases o.n - p
      {
        p := p + 1;
        if p < o.n {
          he, val := ReadAt(he, p);
        } else {
          val := o.universe;
          break;
        }
        if val >= lowerBound { break; }
      }
      if position < o.n { FirstMatchIs(vals, lowerBound, p); }
    }

    method SlowNextGeq(lowerBound: nat)
      requires Valid() && lowerBound != value
      requires lowerBound > value ==> Shr(lowerBound, o.lowerBits) - Shr(value, o.lowerBits) > LINEAR_SCAN_THRESHOLD
      modifies this
      ensures Valid() && position == LowerBound(vals, lowerBound)
    {
      hide Stored, Ready, HighPosition, Shr, Shl, NonDecreasing, AtZero, GetBits, Pointer0At;
      StoredFits(bits, o, vals);
      if lowerBound >= o.universe {
        AllBelowBound(o, vals, lowerBound);
        Move(o.n);
        return;
      }
      var h := Shr(lowerBound, o.lowerBits);
      ShrMonotone(lowerBound, o.universe, o.lowerBits);
      ghost var j;
      var toSkip;
      if lowerBound > value && Shr(h - Shr(value, o.lowerBits), o.logSampling0) == 0 {
        j := SkipZerosFromOne(bits, o, vals, position, h);
        toSkip := h - Shr(value, o.lowerBits);
      } else {
        j := SkipZerosFromPointer(bits, o, vals, h);
        var ptr := Shr(h, o.logSampling0);
        var highPos := if ptr == 0 then 0 else GetBits(bits, Pointer0At(o, ptr), o.pointerSize);
        high := Unary(o.higherOffset + highPos, false);
        toSkip := h - Shl(ptr, o.logSampling0);
      }
      high := high.Skip0(bits, toSkip);
      AtZeroFacts(o, vals, high, h, j);
      BelowTheZero(o, vals, high, lowerBound, j);
      var p := high.pos - o.higherOffset - h;
      var val, he;
      p, val, he := ScanFrom(high, p, lowerBound);
      position, value, high := p, val, he;
    }

    /** Reads on from a position before which everything is too small. */
    method ScanFrom(u: Unary, start: nat, lowerBound: nat) returns (p: nat, val: nat, he: Unary)
      requires Stored(bits, o, vals) && Ready(o, vals, u, start) && start <= |vals| == o.n
      requires start > 0 ==> vals[start - 1] < lowerBound
      ensures p == LowerBound(vals, lowerBound) && val == ElementAt(vals, o.universe, p)
      ensures p < o.n ==> he == Unary(HighPosition(o, vals, p), true)
    {
      hide Stored, Ready, HighPosition, NonDecreasing;
      StoredFits(bits, o, vals);
      he, p := u, start;
      while true
        invariant start <= p <= o.n && Ready(o, vals, he, p)
        invariant p > 0 ==> vals[p - 1] < lowerBound
        decreases o.n - p
      {
        if p == o.n {
          val := o.universe;
          break;
        }
        he, val := ReadAt(he, p);
        if val >= lowerBound { break; }
        p := p + 1;
      }
      FirstMatchIs(vals, lowerBound, p);
    }

    /** The value before the current position; zero at the start. */
    method PrevValue() returns (prev: nat)
      requires Valid()
      ensures prev == if position == 0 then 0 else vals[position - 1]
    {
      hide Stored, Ready, HighPosition, Joined;
      if position == 0 { return 0; }
      StoredFits(bits, o, vals);
      ghost var at := if position < |vals| then HighPosition(o, vals, position) - 1 else o.lowerOffset - 1;
      InnerPositions(o, vals, position);
      PredecessorOne(bits, o, vals, position, at);
      var prevHigh;
      if position < o.n {
        prevHigh := Predecessor1(bits, high.pos - 1);
      } else {
        prevHigh := Predecessor1(bits, o.lowerOffset - 1);
      }
      JoinedIs(bits, o, vals, position - 1);
      var low := ReadLow(position - 1);
      prev := Joined(o, prevHigh, position - 1, low);
    }
  }

  lemma StoredFits(bits: BitString, o: Offsets, vals: seq<nat>)
    requires Stored(bits, o, vals)
    ensures Fits(o, vals)
  {}

  lemma AtZeroFacts(o: Offsets, vals: seq<nat>, u: Unary, h: nat, j: nat)
    requires AtZero(o, vals, u, h, j)
    ensures j <= |vals| && Ready(o, vals, u, j) && u.pos - o.higherOffset - h == j
  {}

  lemma {:induction false} AllBelowBound(o: Offsets, vals: seq<nat>, lowerBound: nat)
    requires Fits(o, vals) && lowerBound >= o.universe
    ensures LowerBound(vals, lowerBound) == |vals|
  {}

  lemma InnerPositions(o: Offsets, vals: seq<nat>, i: nat)
    requires Fits(o, vals)
    ensures o.lowerOffset > 0 && (i < |vals| ==> HighPosition(o, vals, i) > 0)
  {}
}
