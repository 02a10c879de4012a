/** `compact_elias_fano`: layout and writer. */
module EliasFano {
  import opened Arith
  import opened Bits
  import opened BitVectors
  import opened GlobalParameters
  import opened Sampling
  import opened Slices
  import opened SortedLists

  datatype Offsets = Offsets(
    universe: nat, n: nat, logSampling0: nat, logSampling1: nat,
    lowerBits: nat, higherLength: nat, pointerSize: nat, pointers0: nat, pointers1: nat,
    pointers0Offset: nat, pointers1Offset: nat, higherOffset: nat, lowerOffset: nat, end: nat)

  function LowerBitsFor(universe: nat, n: nat): nat
    requires n > 0
  {
    if universe > n then
      DivisionRange(universe, n);
      Msb(universe / n)
    else 0
  }

  function MakeOffsets(base: nat, universe: nat, n: nat, params: Parameters): Offsets
    requires n > 0
  {
    hide Shr, Pow2, LowerBitsFor, CeilLog2;
    var lowerBits := LowerBitsFor(universe, n);
    var higherLength := n + Shr(universe, lowerBits) + 2;
    var pointerSize := CeilLog2(higherLength);
    var pointers0 := Shr(higherLength - n, params.efLogSampling0);
    var pointers1 := Shr(n, params.efLogSampling1);
    var pointers1Offset := base + pointers0 * pointerSize;
    var higherOffset := pointers1Offset + pointers1 * pointerSize;
    var lowerOffset := higherOffset + higherLength;
    Offsets(universe, n, params.efLogSampling0, params.efLogSampling1,
            lowerBits, higherLength, pointerSize, pointers0, pointers1,
            base, pointers1Offset, higherOffset, lowerOffset, lowerOffset + n * lowerBits)
  }

  /** How the fields hang together. */
  ghost predicate Consistent(o: Offsets) {
    && o.n > 0
    && o.higherLength == o.n + Shr(o.universe, o.lowerBits) + 2 <= Pow2(o.pointerSize)
    && o.pointers0 == Shr(o.higherLength - o.n, o.logSampling0) && o.pointers1 == Shr(o.n, o.logSampling1)
    && o.pointers1Offset == o.pointers0Offset + o.pointers0 * o.pointerSize
    && o.higherOffset == o.pointers1Offset + o.pointers1 * o.pointerSize
    && o.lowerOffset == o.higherOffset + o.higherLength
    && o.end == o.lowerOffset + o.n * o.lowerBits
  }

  lemma MadeConsistent(base: nat, universe: nat, n: nat, params: Parameters)
    requires n > 0
    ensures var o := MakeOffsets(base, universe, n, params);
            Consistent(o) && o.pointers0Offset == base && o.universe == universe && o.n == n
  {
    hide Shr, LowerBitsFor, Pow2, CeilLog2;
  }

  function BitSize(params: Parameters, universe: nat, n: nat): nat
    requires n > 0
  {
    MakeOffsets(0, universe, n, params).end
  }

  /** The layout shifts with its base. */
  lemma OffsetsShift(base: nat, universe: nat, n: nat, params: Parameters)
    requires n > 0
    ensures MakeOffsets(base, universe, n, params).end == base + BitSize(params, universe, n)
  {}

  ghost predicate SortedUpTo(vals: seq<nat>, n: nat)
    requires n <= |vals|
  {
    forall i, j :: 0 <= i <= j < n ==> vals[i] <= vals[j]
  }

  ghost predicate SizedFor(o: Offsets, vals: seq<nat>) {
    Consistent(o) && |vals| == o.n && AllBelow(vals, o.universe)
  }

  /** A sequence the layout can hold. */
  ghost predicate Fits(o: Offsets, vals: seq<nat>) {
    SizedFor(o, vals) && NonDecreasing(vals)
  }

  /** Where the i-th value's one bit stands. */
  function HighPosition(o: Offsets, vals: seq<nat>, i: nat): nat
    requires i < |vals|
  {
    o.higherOffset + Shr(vals[i], o.lowerBits) + i + 1
  }

  ghost function HighOnes(o: Offsets, vals: seq<nat>): (ones: seq<nat>)
    ensures |ones| == |vals|
  {
    seq(|vals|, i requires 0 <= i < |vals| => HighPosition(o, vals, i))
  }

  lemma HighInRange(o: Offsets, vals: seq<nat>, i: nat)
    requires SizedFor(o, vals) && i < |vals|
    ensures o.higherOffset + i < HighPosition(o, vals, i) < o.lowerOffset - 1
    ensures HighPosition(o, vals, i) - o.higherOffset - i < o.higherLength - o.n
  {
    hide Shr;
    ShrMonotone(vals[i], o.universe, o.lowerBits);
  }

  lemma HighsOrdered(o: Offsets, vals: seq<nat>, n: nat, i: nat, j: nat)
    requires n <= |vals| && SortedUpTo(vals, n) && i < j < n
    ensures HighPosition(o, vals, i) < HighPosition(o, vals, j)
  {
    ShrMonotone(vals[i], vals[j], o.lowerBits);
  }

  // ----- the four regions -----

  ghost predicate LowStored(bits: BitString, o: Offsets, vals: seq<nat>, i: nat)
    requires i < |vals|
  {
    FieldStored(bits, LowAt(o, i), o.lowerBits, Low(vals[i], o.lowerBits))
  }

  /** Where the low part of value i, and the pointers of both kinds, stand. */
  function LowAt(o: Offsets, i: nat): nat {
    o.lowerOffset + i * o.lowerBits
  }

  function Pointer1At(o: Offsets, ptr: nat): nat
    requires ptr > 0
  {
    o.pointers1Offset + (ptr - 1) * o.pointerSize
  }

  function Pointer0At(o: Offsets, ptr: nat): nat
    requires ptr > 0
  {
    o.pointers0Offset + (ptr - 1) * o.pointerSize
  }

  ghost predicate Pointer1Stored(bits: BitString, o: Offsets, vals: seq<nat>, ptr: nat)
    requires ptr > 0
  {
    var i := Shl(ptr, o.logSampling1);
    i < |vals| && FieldStored(bits, Pointer1At(o, ptr), o.pointerSize, HighPosition(o, vals, i) - o.higherOffset)
  }

  /** The zero behind z zeros stands at the given place, behind j ones. */
  ghost predicate ZeroBehind(o: Offsets, vals: seq<nat>, place: nat, z: nat, j: nat) {
    && place == z + j && place < o.higherLength
    && AfterOnes(HighOnes(o, vals), j, o.higherOffset + place)
    && (j < |vals| ==> o.higherOffset + place < HighPosition(o, vals, j))
  }

  ghost predicate Pointer0Stored(bits: BitString, o: Offsets, vals: seq<nat>, ptr: nat)
    requires ptr > 0
  {
    exists j :: Pointer0Behind(bits, o, vals, ptr, j)
  }

  ghost predicate Pointer0Behind(bits: BitString, o: Offsets, vals: seq<nat>, ptr: nat, j: nat)
    requires ptr > 0
  {
    var z := Shl(ptr, o.logSampling0);
    ZeroBehind(o, vals, z + j, z, j) && FieldStored(bits, Pointer0At(o, ptr), o.pointerSize, z + j)
  }

  /** What the first i values and the pointers below the two counts have left in the bits. */
  ghost predicate LowsDone(bits: BitString, o: Offsets, vals: seq<nat>, i: nat)
    requires i <= |vals|
  {
    forall j :: 0 <= j < i ==> LowStored(bits, o, vals, j)
  }

  ghost predicate Pointers1Done(bits: BitString, o: Offsets, vals: seq<nat>, count: nat) {
    forall ptr :: 1 <= ptr < count ==> Pointer1Stored(bits, o, vals, ptr)
  }

  ghost predicate Pointers0Done(bits: BitString, o: Offsets, vals: seq<nat>, count: nat) {
    forall ptr :: 1 <= ptr < count ==> Pointer0Stored(bits, o, vals, ptr)
  }

  ghost predicate OnesDone(bits: BitString, o: Offsets, vals: seq<nat>, i: nat)
    requires i <= |vals|
  {
    OnesAre(bits, o.higherOffset, o.lowerOffset, HighOnes(o, vals)[..i])
  }

  /** The bits hold the whole sequence. */
  ghost predicate Stored(bits: BitString, o: Offsets, vals: seq<nat>) {
    && Fits(o, vals) && o.end <= |bits|
    && OnesAre(bits, o.higherOffset, o.lowerOffset, HighOnes(o, vals))
    && LowsDone(bits, o, vals, |vals|)
    && Pointers1Done(bits, o, vals, CeilDiv(o.n, Pow2(o.logSampling1)))
    && Pointers0Done(bits, o, vals, CeilDiv(o.higherLength - o.n, Pow2(o.logSampling0)))
  }

  // ----- what a write elsewhere leaves alone -----

  lemma OnesKept(a: BitString, b: BitString, o: Offsets, vals: seq<nat>, i: nat, from: nat, to: nat)
    requires i <= |vals| && OnesDone(b, o, vals, i) && SameOutside(a, b, from, to)
    requires to <= o.higherOffset || o.lowerOffset <= from
    ensures OnesDone(a, o, vals, i)
  {
    hide HighOnes;
  }

  lemma LowsKept(a: BitString, b: BitString, o: Offsets, vals: seq<nat>, i: nat, from: nat, to: nat)
    requires i <= |vals| && LowsDone(b, o, vals, i) && SameOutside(a, b, from, to)
    requires to <= o.lowerOffset || LowAt(o, i) <= from
    ensures LowsDone(a, o, vals, i)
  {
    hide SameOutside, FieldStored, Low;
    forall j | 0 <= j < i ensures LowStored(a, o, vals, j) {
      assert LowStored(b, o, vals, j);
      FieldInside(j, i, o.lowerBits);
      FieldKept(a, b, LowAt(o, j), o.lowerBits, Low(vals[j], o.lowerBits), from, to);
    }
  }

  /** All pointers of one kind survive a write outside their region, or to the field of a later pointer. */
  lemma Pointers1Kept(a: BitString, b: BitString, o: Offsets, vals: seq<nat>, count: nat, from: nat, to: nat)
    requires Pointers1Done(b, o, vals, count) && SameOutside(a, b, from, to)
    requires to <= o.pointers1Offset || (count > 1 ==> Pointer1At(o, count) <= from)
    ensures Pointers1Done(a, o, vals, count)
  {
    hide FieldStored, HighPosition, Shl, SameOutside;
    forall ptr | 1 <= ptr < count ensures Pointer1Stored(a, o, vals, ptr) {
      assert Pointer1Stored(b, o, vals, ptr);
      FieldInside(ptr - 1, count - 1, o.pointerSize);
      FieldKept(a, b, Pointer1At(o, ptr), o.pointerSize,
                HighPosition(o, vals, Shl(ptr, o.logSampling1)) - o.higherOffset, from, to);
    }
  }

  lemma Pointers0Kept(a: BitString, b: BitString, o: Offsets, vals: seq<nat>, count: nat, from: nat, to: nat)
    requires Pointers0Done(b, o, vals, count) && SameOutside(a, b, from, to)
    requires count > 1 ==> Pointer0At(o, count) <= from
    ensures Pointers0Done(a, o, vals, count)
  {
    hide FieldStored, Shl, SameOutside, ZeroBehind;
    forall ptr | 1 <= ptr < count ensures Pointer0Stored(a, o, vals, ptr) {
      assert Pointer0Stored(b, o, vals, ptr);
      FieldInside(ptr - 1, count - 1, o.pointerSize);
      var j :| Pointer0Behind(b, o, vals, ptr, j);
      FieldKept(a, b, Pointer0At(o, ptr), o.pointerSize, Shl(ptr, o.logSampling0) + j, from, to);
      assert Pointer0Behind(a, o, vals, ptr, j);
    }
  }

  /** Every pointer has its field. */
  lemma PointerCounts(o: Offsets)
    requires Consistent(o)
    ensures CeilDiv(o.n, Pow2(o.logSampling1)) <= o.pointers1 + 1
    ensures CeilDiv(o.higherLength - o.n, Pow2(o.logSampling0)) <= o.pointers0 + 1
  {
    SampleCount(o.n, o.logSampling1);
    SampleCount(o.higherLength - o.n, o.logSampling0);
  }

  // ----- the writer -----

  /** How far the writer has come: so many low parts, high bits, and pointers of both kinds. */
  ghost predicate Progress(start: BitString, bits: BitString, o: Offsets, vals: seq<nat>, lows: nat, ones: nat,
                           count1: nat, count0: nat) {
    && SizedFor(o, vals) && lows <= |vals| && ones <= |vals|
    && |start| == o.pointers0Offset && |bits| == o.end && start <= bits
    && LowsDone(bits, o, vals, lows) && OnesDone(bits, o, vals, ones)
    && Pointers1Done(bits, o, vals, count1) && Pointers0Done(bits, o, vals, count0)
    && count1 <= o.pointers1 + 1 && count0 <= o.pointers0 + 1
  }

  lemma RegionsOrdered(o: Offsets)
    requires Consistent(o)
    ensures o.pointers0Offset <= o.pointers1Offset <= o.higherOffset <= o.lowerOffset <= o.end
  {}

  lemma LowField(o: Offsets, i: nat)
    requires Consistent(o) && i < o.n
    ensures o.lowerOffset <= LowAt(o, i) && LowAt(o, i) + o.lowerBits <= o.end
  {
    hide Shr, Pow2;
    FieldInside(i, o.n, o.lowerBits);
  }

  lemma Pointer1Field(o: Offsets, ptr: nat)
    requires Consistent(o) && 0 < ptr <= o.pointers1
    ensures o.pointers1Offset <= Pointer1At(o, ptr) && Pointer1At(o, ptr) + o.pointerSize <= o.higherOffset
  {
    hide Shr, Pow2;
    FieldInside(ptr - 1, o.pointers1, o.pointerSize);
  }

  lemma Pointer0Field(o: Offsets, ptr: nat)
    requires Consistent(o) && 0 < ptr <= o.pointers0
    ensures o.pointers0Offset <= Pointer0At(o, ptr) && Pointer0At(o, ptr) + o.pointerSize <= o.pointers1Offset
  {
    hide Shr, Pow2;
    FieldInside(ptr - 1, o.pointers0, o.pointerSize);
  }

  /** A write behind the pointer regions leaves the pointers alone. */
  lemma Pointers1KeptHigher(a: BitString, b: BitString, o: Offsets, vals: seq<nat>, count: nat, from: nat, to: nat)
    requires Consistent(o) && Pointers1Done(b, o, vals, count) && SameOutside(a, b, from, to)
    requires o.higherOffset <= from && count <= o.pointers1 + 1
    ensures Pointers1Done(a, o, vals, count)
  {
    hide SameOutside, Pointers1Done;
    if count > 1 {
      MulMonotone(count - 1, o.pointers1, o.pointerSize);
    }
    Pointers1Kept(a, b, o, vals, count, from, to);
  }

  lemma Pointers0KeptHigher(a: BitString, b: BitString, o: Offsets, vals: seq<nat>, count: nat, from: nat, to: nat)
    requires Consistent(o) && Pointers0Done(b, o, vals, count) && SameOutside(a, b, from, to)
    requires o.pointers1Offset <= from && count <= o.pointers0 + 1
    ensures Pointers0Done(a, o, vals, count)
  {
    hide SameOutside, Pointers0Done;
    if count > 1 {
      MulMonotone(count - 1, o.pointers0, o.pointerSize);
    }
    Pointers0Kept(a, b, o, vals, count, from, to);
  }

  lemma LowWritten(start: BitString, b: BitString, o: Offsets, vals: seq<nat>, i: nat, ones: nat, count1: nat,
                   count0: nat)
    requires Progress(start, b, o, vals, i, ones, count1, count0) && i < |vals|
    ensures LowAt(o, i) + o.lowerBits <= |b|
    ensures Progress(start, SetBits(b, LowAt(o, i), Low(vals[i], o.lowerBits), o.lowerBits), o, vals, i + 1, ones,
                     count1, count0)
  {
    hide Consistent, SetBits, SameOutside, Pointers1Done, Pointers0Done, OnesDone, Low, AllBelow, FieldStored, LowAt,
         LowsDone;
    RegionsOrdered(o);
    LowField(o, i);
    FieldWritten(b, LowAt(o, i), Low(vals[i], o.lowerBits), o.lowerBits);
    var from, to := LowAt(o, i), LowAt(o, i) + o.lowerBits;
    var a := SetBits(b, from, Low(vals[i], o.lowerBits), o.lowerBits);
    PrefixKept(start, a, b, from, to);
    OnesKept(a, b, o, vals, ones, from, to);
    Pointers1KeptHigher(a, b, o, vals, count1, from, to);
    Pointers0KeptHigher(a, b, o, vals, count0, from, to);
    LowsKept(a, b, o, vals, i, from, to);
    LowsMore(a, o, vals, i);
  }

  lemma LowsMore(a: BitString, o: Offsets, vals: seq<nat>, i: nat)
    requires i < |vals| && LowsDone(a, o, vals, i) && LowStored(a, o, vals, i)
    ensures LowsDone(a, o, vals, i + 1)
  {
    hide LowStored;
  }

  lemma HighWritten(start: BitString, b: BitString, o: Offsets, vals: seq<nat>, lows: nat, i: nat, count1: nat,
                    count0: nat)
    requires Progress(start, b, o, vals, lows, i, count1, count0) && i < |vals| && SortedUpTo(vals, i + 1)
    ensures HighPosition(o, vals, i) < |b|
    ensures Progress(start, b[HighPosition(o, vals, i) := true], o, vals, lows, i + 1, count1, count0)
  {
    hide Consistent, Pointers1Done, Pointers0Done, OnesDone, AllBelow, LowsDone, HighPosition, SortedUpTo;
    RegionsOrdered(o);
    HighInRange(o, vals, i);
    var p := HighPosition(o, vals, i);
    var a := b[p := true];
    assert SameOutside(a, b, p, p + 1);
    PrefixKept(start, a, b, p, p + 1);
    LowsKept(a, b, o, vals, lows, p, p + 1);
    Pointers1KeptHigher(a, b, o, vals, count1, p, p + 1);
    Pointers0KeptHigher(a, b, o, vals, count0, p, p + 1);
    OnesExtended(b, o, vals, i);
  }

  lemma OnesExtended(b: BitString, o: Offsets, vals: seq<nat>, i: nat)
    requires SizedFor(o, vals) && i < |vals| && SortedUpTo(vals, i + 1) && OnesDone(b, o, vals, i)
    requires HighPosition(o, vals, i) < |b|
    ensures OnesDone(b[HighPosition(o, vals, i) := true], o, vals, i + 1)
  {
    hide Consistent, HighPosition, SortedUpTo, AllBelow;
    HighInRange(o, vals, i);
    RegionsOrdered(o);
    var p := HighPosition(o, vals, i);
    var ones := HighOnes(o, vals);
    assert ones[i] == p;
    forall j | 0 <= j < i ensures ones[j] < p {
      HighsOrdered(o, vals, i + 1, j, i);
    }
    OneMore(b, o.higherOffset, o.lowerOffset, ones[..i], p);
    assert ones[..i + 1] == ones[..i] + [p];
  }

  lemma PointerFits(o: Offsets, v: int)
    requires Consistent(o) && 0 <= v < o.higherLength
    ensures v < Pow2(o.pointerSize)
  {}

  lemma {:induction false} PointersInRange(o: Offsets, ptr: nat)
    requires Consistent(o)
    ensures Shl(ptr, o.logSampling1) < o.n ==> ptr <= o.pointers1
    ensures Shl(ptr, o.logSampling0) < o.higherLength - o.n ==> ptr <= o.pointers0
  {
    hide Consistent, Shl;
    HigherLonger(o);
    PtrBelow(ptr, o.n, o.logSampling1);
    PtrBelow(ptr, o.higherLength - o.n, o.logSampling0);
    PointerCounts(o);
  }

  lemma HigherLonger(o: Offsets)
    requires Consistent(o)
    ensures o.higherLength >= o.n + 2
  {}

  /** The value of pointer ptr to a one. */
  ghost function Pointer1Value(o: Offsets, vals: seq<nat>, ptr: nat): int
    requires Shl(ptr, o.logSampling1) < |vals|
  {
    HighPosition(o, vals, Shl(ptr, o.logSampling1)) - o.higherOffset
  }

  lemma {:induction false} Pointer1ValueFits(o: Offsets, vals: seq<nat>, ptr: nat)
    requires SizedFor(o, vals) && Shl(ptr, o.logSampling1) < |vals|
    ensures 0 <= Pointer1Value(o, vals, ptr) < Pow2(o.pointerSize)
  {
    hide Consistent, HighPosition, Shl, AllBelow;
    RegionsOrdered(o);
    LowerIsBehindHigher(o);
    HighInRange(o, vals, Shl(ptr, o.logSampling1));
    PointerFits(o, Pointer1Value(o, vals, ptr));
  }

  lemma LowerIsBehindHigher(o: Offsets)
    requires Consistent(o)
    ensures o.lowerOffset == o.higherOffset + o.higherLength
  {}

  lemma {:induction false} Pointer1Written(start: BitString, b: BitString, o: Offsets, vals: seq<nat>, lows: nat,
                                           ones: nat, ptr: nat, count0: nat, v: nat)
    requires Progress(start, b, o, vals, lows, ones, ptr, count0) && 0 < ptr
    requires Shl(ptr, o.logSampling1) < |vals| && v == Pointer1Value(o, vals, ptr)
    ensures Pointer1At(o, ptr) + o.pointerSize <= |b|
    ensures Progress(start, SetBits(b, Pointer1At(o, ptr), v, o.pointerSize), o, vals, lows, ones, ptr + 1, count0)
  {
    hide Consistent, SetBits, SameOutside, Pointers1Done, Pointers0Done, OnesDone, AllBelow, LowsDone, HighPosition,
         Shl, FieldStored, Pointer1At;
    RegionsOrdered(o);
    PointersInRange(o, ptr);
    Pointer1Field(o, ptr);
    Pointer1ValueFits(o, vals, ptr);
    var from, to := Pointer1At(o, ptr), Pointer1At(o, ptr) + o.pointerSize;
    FieldWritten(b, from, v, o.pointerSize);
    var a := SetBits(b, from, v, o.pointerSize);
    PrefixKept(start, a, b, from, to);
    LowsKept(a, b, o, vals, lows, from, to);
    OnesKept(a, b, o, vals, ones, from, to);
    Pointers0KeptHigher(a, b, o, vals, count0, from, to);
    Pointers1Kept(a, b, o, vals, ptr, from, to);
    Pointers1More(a, o, vals, ptr);
  }

  lemma Pointers1More(a: BitString, o: Offsets, vals: seq<nat>, ptr: nat)
    requires ptr > 0 && Pointers1Done(a, o, vals, ptr) && Pointer1Stored(a, o, vals, ptr)
    ensures Pointers1Done(a, o, vals, ptr + 1)
  {
    hide Pointer1Stored;
  }

  lemma Pointers0More(a: BitString, o: Offsets, vals: seq<nat>, ptr: nat)
    requires ptr > 0 && Pointers0Done(a, o, vals, ptr) && Pointer0Stored(a, o, vals, ptr)
    ensures Pointers0Done(a, o, vals, ptr + 1)
  {
    hide Pointer0Stored;
  }

  lemma {:induction false} Pointer0Written(start: BitString, b: BitString, o: Offsets, vals: seq<nat>, lows: nat,
                                           ones: nat, count1: nat, ptr: nat, rank: nat)
    requires Progress(start, b, o, vals, lows, ones, count1, ptr) && 0 < ptr
    requires Shl(ptr, o.logSampling0) < o.higherLength - o.n
    requires ZeroBehind(o, vals, Shl(ptr, o.logSampling0) + rank, Shl(ptr, o.logSampling0), rank)
    ensures Pointer0At(o, ptr) + o.pointerSize <= |b|
    ensures Progress(start, SetBits(b, Pointer0At(o, ptr), Shl(ptr, o.logSampling0) + rank, o.pointerSize),
                     o, vals, lows, ones, count1, ptr + 1)
  {
    hide Consistent, SetBits, SameOutside, Pointers1Done, Pointers0Done, OnesDone, AllBelow, LowsDone, AfterOnes, Shl,
         FieldStored, Pointer0At, Pointer1At;
    RegionsOrdered(o);
    PointersInRange(o, ptr);
    Pointer0Field(o, ptr);
    var v := Shl(ptr, o.logSampling0) + rank;
    PointerFits(o, v);
    var from, to := Pointer0At(o, ptr), Pointer0At(o, ptr) + o.pointerSize;
    FieldWritten(b, from, v, o.pointerSize);
    var a := SetBits(b, from, v, o.pointerSize);
    PrefixKept(start, a, b, from, to);
    LowsKept(a, b, o, vals, lows, from, to);
    OnesKept(a, b, o, vals, ones, from, to);
    Pointers1Kept(a, b, o, vals, count1, from, to);
    Pointers0Kept(a, b, o, vals, ptr, from, to);
    assert Pointer0Behind(a, o, vals, ptr, rank);
    Pointers0More(a, o, vals, ptr);
  }

  /** Between two neighbouring ones (or before the first, or behind the last) there are only zeros. */
  ghost predicate Gap(o: Offsets, vals: seq<nat>, begin: nat, end: nat, rank: nat) {
    && rank < begin <= end <= o.higherLength && rank <= |vals|
    && end - rank <= o.higherLength - o.n
    && (rank > 0 ==> HighPosition(o, vals, rank - 1) < o.higherOffset + begin)
    && (rank < |vals| ==> o.higherOffset + end <= HighPosition(o, vals, rank))
  }

  lemma ZeroInGap(o: Offsets, vals: seq<nat>, begin: nat, end: nat, rank: nat, z: nat)
    requires Gap(o, vals, begin, end, rank) && begin - rank <= z < end - rank
    ensures ZeroBehind(o, vals, z + rank, z, rank) && z < o.higherLength - o.n
  {
    hide HighPosition;
  }

  method SetPointers0(bvb: BitVectorBuilder, o: Offsets, begin: nat, end: nat, rank: nat,
                      ghost start: BitString, ghost vals: seq<nat>, ghost lows: nat, ghost ones: nat, ghost count1: nat)
    requires Gap(o, vals, begin, end, rank)
    requires Progress(start, bvb.bits, o, vals, lows, ones, count1, CeilDiv(begin - rank, Pow2(o.logSampling0)))
    modifies bvb
    ensures Progress(start, bvb.bits, o, vals, lows, ones, count1, CeilDiv(end - rank, Pow2(o.logSampling0)))
  {
    hide Progress, ZeroBehind, Shl, Pow2, CeilDiv, SetBits, Pointer0At;
    var beginZeros, endZeros := begin - rank, end - rank;
    var ptr := CeilDiv(beginZeros, Pow2(o.logSampling0));
    CeilDivMonotone(beginZeros, endZeros, Pow2(o.logSampling0));
    PtrBelow(ptr, endZeros, o.logSampling0);
    FirstPointer(beginZeros, o.logSampling0);
    while Shl(ptr, o.logSampling0) < endZeros
      invariant CeilDiv(beginZeros, Pow2(o.logSampling0)) <= ptr <= CeilDiv(endZeros, Pow2(o.logSampling0))
      invariant Progress(start, bvb.bits, o, vals, lows, ones, count1, ptr)
      invariant Shl(ptr, o.logSampling0) < endZeros <==> ptr < CeilDiv(endZeros, Pow2(o.logSampling0))
      decreases CeilDiv(endZeros, Pow2(o.logSampling0)) - ptr
    {
      if ptr != 0 {
        PtrBelow(ptr, beginZeros, o.logSampling0);
        ZeroInGap(o, vals, begin, end, rank, Shl(ptr, o.logSampling0));
        Pointer0Written(start, bvb.bits, o, vals, lows, ones, count1, ptr, rank);
        bvb.SetField(Pointer0At(o, ptr), Shl(ptr, o.logSampling0) + rank, o.pointerSize);
      }
      ptr := ptr + 1;
      PtrBelow(ptr, endZeros, o.logSampling0);
    }
  }

  /** The end of the run of ones written so far, as a place in the higher bits. */
  ghost function LastHigh(o: Offsets, vals: seq<nat>, i: nat): int
    requires i <= |vals|
  {
    if i == 0 then 0 else HighPosition(o, vals, i - 1) - o.higherOffset
  }

  lemma GapBefore(o: Offsets, vals: seq<nat>, i: nat)
    requires SizedFor(o, vals) && i < |vals| && SortedUpTo(vals, i + 1)
    ensures LastHigh(o, vals, i) >= 0 && LastHigh(o, vals, i + 1) >= 0
    ensures Gap(o, vals, LastHigh(o, vals, i) + 1, LastHigh(o, vals, i + 1), i)
  {
    hide Consistent, HighPosition, SortedUpTo, AllBelow;
    LowerIsBehindHigher(o);
    HigherLonger(o);
    HighInRange(o, vals, i);
    if i > 0 {
      HighInRange(o, vals, i - 1);
      HighsOrdered(o, vals, i + 1, i - 1, i);
    }
  }

  lemma GapBehind(o: Offsets, vals: seq<nat>)
    requires SizedFor(o, vals) && vals != []
    ensures LastHigh(o, vals, |vals|) >= 0
    ensures Gap(o, vals, LastHigh(o, vals, |vals|) + 1, o.higherLength, |vals|)
  {
    hide Consistent, HighPosition, AllBelow;
    LowerIsBehindHigher(o);
    HigherLonger(o);
    HighInRange(o, vals, |vals| - 1);
  }

  lemma ZerosBeforeGap(o: Offsets, vals: seq<nat>, i: nat)
    requires i <= |vals|
    ensures ZerosBefore(o, vals, i) == LastHigh(o, vals, i) + 1 - i
  {}

  lemma GapsMeet(o: Offsets, vals: seq<nat>, i: nat)
    requires SizedFor(o, vals) && i < |vals|
    ensures LastHigh(o, vals, i + 1) >= i + 1
    ensures LastHigh(o, vals, i + 1) - i == LastHigh(o, vals, i + 1) + 1 - (i + 1)
  {
    hide Consistent, HighPosition, AllBelow;
    HighInRange(o, vals, i);
  }

  /** The empty layout. */
  lemma Started(start: BitString, o: Offsets, vals: seq<nat>)
    requires SizedFor(o, vals) && |start| == o.pointers0Offset
    ensures o.end >= |start|
    ensures Progress(start, start + seq(o.end - |start|, i => false), o, vals, 0, 0, CeilDiv(0, Pow2(o.logSampling1)),
                     CeilDiv(1, Pow2(o.logSampling0)))
  {
    hide Consistent, AllBelow, CeilDiv, Pow2;
    RegionsOrdered(o);
    BelowCeilDiv(0, 0, Pow2(o.logSampling1));
    BelowCeilDiv(1, 1, Pow2(o.logSampling0));
  }

  lemma ProgressKeepsStart(start: BitString, bits: BitString, o: Offsets, vals: seq<nat>, lows: nat, ones: nat,
                           count1: nat, count0: nat)
    requires Progress(start, bits, o, vals, lows, ones, count1, count0)
    ensures start <= bits && |bits| == o.end
  {}

  lemma ProgressDone(start: BitString, bits: BitString, o: Offsets, vals: seq<nat>)
    requires NonDecreasing(vals) && o.higherLength >= o.n
    requires Progress(start, bits, o, vals, |vals|, |vals|,
                      CeilDiv(o.n, Pow2(o.logSampling1)), CeilDiv(o.higherLength - o.n, Pow2(o.logSampling0)))
    ensures Stored(bits, o, vals)
  {
    hide Consistent, AllBelow, CeilDiv, Pow2, OnesAre, LowsDone, Pointers1Done, Pointers0Done, SortedUpTo;
    assert HighOnes(o, vals)[..|vals|] == HighOnes(o, vals);
  }

  lemma SortedSoFar(vals: seq<nat>, i: nat)
    requires i < |vals| && SortedUpTo(vals, i) && (i > 0 ==> vals[i - 1] <= vals[i])
    ensures SortedUpTo(vals, i + 1)
  {}

  lemma NotSorted(vals: seq<nat>, i: nat)
    requires 0 < i < |vals| && vals[i] < vals[i - 1]
    ensures !NonDecreasing(vals)
  {}

  lemma NoneWritten(o: Offsets, vals: seq<nat>)
    ensures LastHigh(o, vals, 0) == 0 && SortedUpTo(vals, 0)
  {}

  /** Writes one value: its high bit, its low part, and a pointer to it when it is sampled. */
  method WriteValue(bvb: BitVectorBuilder, o: Offsets, vals: seq<nat>, i: nat, ghost start: BitString)
    returns (high: nat)
    requires i < |vals| && SortedUpTo(vals, i + 1)
    requires Progress(start, bvb.bits, o, vals, i, i, CeilDiv(i, Pow2(o.logSampling1)),
                      CeilDiv(ZerosBefore(o, vals, i), Pow2(o.logSampling0)))
    modifies bvb
    ensures high == LastHigh(o, vals, i + 1)
    ensures Progress(start, bvb.bits, o, vals, i + 1, i + 1, CeilDiv(i + 1, Pow2(o.logSampling1)),
                     CeilDiv(ZerosBefore(o, vals, i), Pow2(o.logSampling0)))
  {
    hide Progress, Shl, Shr, Low, Pow2, CeilDiv, SetBits, LowAt, Pointer1At, SortedUpTo, ZerosBefore;
    var v := vals[i];
    high := Shr(v, o.lowerBits) + i + 1;
    ghost var c1, c0 := CeilDiv(i, Pow2(o.logSampling1)), CeilDiv(ZerosBefore(o, vals, i), Pow2(o.logSampling0));
    HighWritten(start, bvb.bits, o, vals, i, i, c1, c0);
    bvb.Set(o.higherOffset + high);
    LowWritten(start, bvb.bits, o, vals, i, i + 1, c1, c0);
    bvb.SetField(LowAt(o, i), Low(v, o.lowerBits), o.lowerBits);
    SampleStep(i, o.logSampling1);
    if i != 0 && Low(i, o.logSampling1) == 0 {
      var ptr := Shr(i, o.logSampling1);
      ShlOfZero(o.logSampling1);
      Pointer1Written(start, bvb.bits, o, vals, i + 1, i + 1, ptr, c0, high);
      bvb.SetField(Pointer1At(o, ptr), high, o.pointerSize);
    } else if i == 0 {
      LowOfSmall(0, o.logSampling1);
      FirstCounted(start, bvb.bits, o, vals, c0);
    }
  }

  /** The number of zeros in front of the gap before value i. */
  ghost function ZerosBefore(o: Offsets, vals: seq<nat>, i: nat): nat
    requires i <= |vals|
  {
    if i == 0 then 1 else Shr(vals[i - 1], o.lowerBits) + 1
  }

  /** Pointer 0 is never written. */
  lemma FirstCounted(start: BitString, bits: BitString, o: Offsets, vals: seq<nat>, c0: nat)
    requires Progress(start, bits, o, vals, 1, 1, 0, c0)
    ensures Progress(start, bits, o, vals, 1, 1, 1, c0)
  {}

  /** Appends the encoding of a sequence below the universe, or refuses one that is not sorted. */
  method Write(bvb: BitVectorBuilder, vals: seq<nat>, universe: nat, params: Parameters) returns (ok: bool)
    requires vals != [] && AllBelow(vals, universe)
    modifies bvb
    ensures ok <==> NonDecreasing(vals)
    ensures old(bvb.bits) <= bvb.bits && |bvb.bits| == |old(bvb.bits)| + BitSize(params, universe, |vals|)
    ensures ok ==> Stored(bvb.bits, MakeOffsets(|old(bvb.bits)|, universe, |vals|, params), vals)
  {
    hide Consistent, AllBelow, NonDecreasing, MakeOffsets, Progress, Stored, Pow2, CeilDiv, LastHigh, SortedUpTo, Gap,
         BitSize, ZerosBefore;
    ghost var start := bvb.bits;
    var o := MakeOffsets(|bvb.bits|, universe, |vals|, params);
    MadeConsistent(|bvb.bits|, universe, |vals|, params);
    OffsetsShift(|bvb.bits|, universe, |vals|, params);
    Started(start, o, vals);
    NoneWritten(o, vals);
    bvb.ZeroExtend(o.end - |bvb.bits|);
    var last, lastHigh := 0, 0;
    for i := 0 to |vals|
      invariant SortedUpTo(vals, i) && lastHigh == LastHigh(o, vals, i)
      invariant i > 0 ==> last == vals[i - 1]
      invariant lastHigh + 1 >= i
      invariant Progress(start, bvb.bits, o, vals, i, i, CeilDiv(i, Pow2(o.logSampling1)),
                         CeilDiv(lastHigh + 1 - i, Pow2(o.logSampling0)))
    {
      var v := vals[i];
      if i != 0 && v < last {
        NotSorted(vals, i);
        ProgressKeepsStart(start, bvb.bits, o, vals, i, i, CeilDiv(i, Pow2(o.logSampling1)),
                           CeilDiv(lastHigh + 1 - i, Pow2(o.logSampling0)));
        return false;
      }
      SortedSoFar(vals, i);
      GapBefore(o, vals, i);
      GapsMeet(o, vals, i);
      ZerosBeforeGap(o, vals, i);
      var high := WriteValue(bvb, o, vals, i, start);
      SetPointers0(bvb, o, lastHigh + 1, high, i, start, vals, i + 1, i + 1, CeilDiv(i + 1, Pow2(o.logSampling1)));
      lastHigh := high;
      last := v;
    }
    GapBehind(o, vals);
    HigherLonger(o);
    SetPointers0(bvb, o, lastHigh + 1, o.higherLength, |vals|, start, vals, |vals|, |vals|,
                 CeilDiv(|vals|, Pow2(o.logSampling1)));
    AllSorted(vals);
    ProgressDone(start, bvb.bits, o, vals);
    ProgressKeepsStart(start, bvb.bits, o, vals, |vals|, |vals|, CeilDiv(o.n, Pow2(o.logSampling1)),
                       CeilDiv(o.higherLength - o.n, Pow2(o.logSampling0)));
    ok := true;
  }

  lemma AllSorted(vals: seq<nat>)
    ensures NonDecreasing(vals) == SortedUpTo(vals, |vals|)
  {}

  // ----- moving an encoding -----

  /** An encoding copied into a longer bit vector is an encoding at its new place. */
  lemma Moved(whole: BitString, d: nat, part: BitString, base: nat, universe: nat, n: nat, params: Parameters,
              vals: seq<nat>)
    requires n > 0 && At(whole, d, part) && Stored(part, MakeOffsets(base, universe, n, params), vals)
    ensures Stored(whole, MakeOffsets(d + base, universe, n, params), vals)
  {
    hide At, OnesAre, LowsDone, Pointers1Done, Pointers0Done, AllBelow, NonDecreasing, HighPosition, CeilDiv, Pow2,
         MakeOffsets;
    var o, m := MakeOffsets(base, universe, n, params), MakeOffsets(d + base, universe, n, params);
    MadeConsistent(base, universe, n, params);
    MadeConsistent(d + base, universe, n, params);
    MovedOffsets(d, base, universe, n, params);
    AtLength(whole, d, part);
    MovedOnes(whole, d, part, o, m, vals);
    MovedLows(whole, d, part, o, m, vals);
    MovedPointers1(whole, d, part, o, m, vals, CeilDiv(o.n, Pow2(o.logSampling1)));
    MovedPointers0(whole, d, part, o, m, vals, CeilDiv(o.higherLength - o.n, Pow2(o.logSampling0)));
  }

  /** The same layout, d bits further on. */
  ghost predicate Further(m: Offsets, o: Offsets, d: nat) {
    && m.universe == o.universe && m.n == o.n && m.logSampling0 == o.logSampling0 && m.logSampling1 == o.logSampling1
    && m.lowerBits == o.lowerBits && m.higherLength == o.higherLength && m.pointerSize == o.pointerSize
    && m.pointers0Offset == d + o.pointers0Offset && m.pointers1Offset == d + o.pointers1Offset
    && m.higherOffset == d + o.higherOffset && m.lowerOffset == d + o.lowerOffset && m.end == d + o.end
  }

  lemma MovedOffsets(d: nat, base: nat, universe: nat, n: nat, params: Parameters)
    requires n > 0
    ensures Further(MakeOffsets(d + base, universe, n, params), MakeOffsets(base, universe, n, params), d)
  {
    hide Shr, LowerBitsFor, CeilLog2;
  }

  lemma MovedOnes(whole: BitString, d: nat, part: BitString, o: Offsets, m: Offsets, vals: seq<nat>)
    requires At(whole, d, part) && Further(m, o, d) && OnesAre(part, o.higherOffset, o.lowerOffset, HighOnes(o, vals))
    ensures OnesAre(whole, m.higherOffset, m.lowerOffset, HighOnes(m, vals))
  {
    hide At, OnesAre;
    EmbeddedOnes(whole, d, part, o.higherOffset, o.lowerOffset, HighOnes(o, vals), HighOnes(m, vals));
  }

  lemma MovedLows(whole: BitString, d: nat, part: BitString, o: Offsets, m: Offsets, vals: seq<nat>)
    requires At(whole, d, part) && Further(m, o, d) && LowsDone(part, o, vals, |vals|)
    ensures LowsDone(whole, m, vals, |vals|)
  {
    hide At, FieldStored, Low;
    forall i | 0 <= i < |vals| ensures LowStored(whole, m, vals, i) {
      assert LowStored(part, o, vals, i);
      FieldMoved(whole, d, part, LowAt(o, i), o.lowerBits, Low(vals[i], o.lowerBits));
    }
  }

  lemma MovedPointers1(whole: BitString, d: nat, part: BitString, o: Offsets, m: Offsets, vals: seq<nat>, count: nat)
    requires At(whole, d, part) && Further(m, o, d) && Pointers1Done(part, o, vals, count)
    ensures Pointers1Done(whole, m, vals, count)
  {
    hide At, FieldStored, Shl;
    forall ptr | 1 <= ptr < count ensures Pointer1Stored(whole, m, vals, ptr) {
      assert Pointer1Stored(part, o, vals, ptr);
      FieldMoved(whole, d, part, Pointer1At(o, ptr), o.pointerSize,
                 HighPosition(o, vals, Shl(ptr, o.logSampling1)) - o.higherOffset);
    }
  }

  lemma MovedPointers0(whole: BitString, d: nat, part: BitString, o: Offsets, m: Offsets, vals: seq<nat>, count: nat)
    requires At(whole, d, part) && Further(m, o, d) && Pointers0Done(part, o, vals, count)
    ensures Pointers0Done(whole, m, vals, count)
  {
    hide At, FieldStored, Shl, HighOnes;
    forall ptr | 1 <= ptr < count ensures Pointer0Stored(whole, m, vals, ptr) {
      assert Pointer0Stored(part, o, vals, ptr);
      var j :| Pointer0Behind(part, o, vals, ptr, j);
      FieldMoved(whole, d, part, Pointer0At(o, ptr), o.pointerSize, Shl(ptr, o.logSampling0) + j);
      AfterOnesMoved(o, m, d, vals, j, o.higherOffset + Shl(ptr, o.logSampling0) + j);
      assert Pointer0Behind(whole, m, vals, ptr, j);
    }
  }

  lemma AfterOnesMoved(o: Offsets, m: Offsets, d: nat, vals: seq<nat>, j: nat, p: nat)
    requires Further(m, o, d) && AfterOnes(HighOnes(o, vals), j, p)
    ensures AfterOnes(HighOnes(m, vals), j, d + p)
  {}
}
