/** `compact_ranked_bitvector::enumerator`: a rank sample or the current position, then popcounts word by word. */
module RankedBitvectorEnumerators {
  import opened Arith
  import opened Bits
  import opened BitVectors
  import opened GlobalParameters
  import opened Sampling
  import opened SortedLists
  import opened RankedBitvector

  const LINEAR_SCAN_THRESHOLD := 8

  // ----- counting ones in words -----

  function Popcount(b: BitString): nat {
    if b == [] then 0 else (if b[0] then 1 else 0) + Popcount(b[1..])
  }

  lemma {:induction false} PopcountConcat(a: BitString, b: BitString)
    ensures Popcount(a + b) == Popcount(a) + Popcount(b)
  {
    if a == [] {
      assert a + b == b;
    } else {
      PopcountConcat(a[1..], b);
      assert (a + b)[1..] == a[1..] + b;
    }
  }

  function Zeros(k: nat): (b: BitString)
    ensures |b| == k
  {
    seq(k, i => false)
  }

  lemma {:induction false} PopcountZeros(k: nat)
    ensures Popcount(Zeros(k)) == 0
  {
    if k == 0 {
    } else {
      PopcountZeros(k - 1);
      assert Zeros(k)[1..] == Zeros(k - 1);
    }
  }

  /** Word w of the data, lowest bit first, zeros behind the end. */
  function Word(bits: BitString, w: nat): (b: BitString)
    ensures |b| == 64
  {
    seq(64, k => k >= 0 && 64 * w + k < |bits| && bits[64 * w + k])
  }

  /** (word >> s) << s */
  function ClearLow(word: BitString, s: nat): (r: BitString)
    requires s <= |word|
    ensures |r| == |word|
  {
    Zeros(s) + word[s..]
  }

  /** word << (|word| - e) */
  function ShiftOut(word: BitString, e: nat): (r: BitString)
    requires e <= |word|
    ensures |r| == |word|
  {
    Zeros(|word| - e) + word[..e]
  }

  lemma WordSlice(bits: BitString, w: nat, s: nat, e: nat)
    requires s <= e <= 64 && 64 * w + e <= |bits|
    ensures Word(bits, w)[s..e] == bits[64 * w + s..64 * w + e]
  {}

  lemma PopcountOfCleared(bits: BitString, w: nat, s: nat)
    requires s <= 64 && 64 * w + 64 <= |bits|
    ensures Popcount(ClearLow(Word(bits, w), s)) == Popcount(bits[64 * w + s..64 * w + 64])
  {
    hide Popcount, Word;
    PopcountZeros(s);
    PopcountConcat(Zeros(s), Word(bits, w)[s..]);
    WordSlice(bits, w, s, 64);
    assert Word(bits, w)[s..] == Word(bits, w)[s..64];
  }

  lemma PopcountOfMiddle(bits: BitString, w: nat, s: nat, e: nat)
    requires s <= e <= 64 && 64 * w + e <= |bits|
    ensures Popcount(ShiftOut(ClearLow(Word(bits, w), s), e)) == Popcount(bits[64 * w + s..64 * w + e])
  {
    hide Popcount, Word;
    var word := Word(bits, w);
    PopcountZeros(s);
    PopcountZeros(64 - e);
    assert ClearLow(word, s)[..e] == Zeros(s) + word[s..e];
    PopcountConcat(Zeros(64 - e), ClearLow(word, s)[..e]);
    PopcountConcat(Zeros(s), word[s..e]);
    WordSlice(bits, w, s, e);
  }

  lemma PopcountSplit(bits: BitString, a: nat, b: nat, c: nat)
    requires a <= b <= c <= |bits|
    ensures Popcount(bits[a..c]) == Popcount(bits[a..b]) + Popcount(bits[b..c])
  {
    assert bits[a..c] == bits[a..b] + bits[b..c];
    PopcountConcat(bits[a..b], bits[b..c]);
  }

  /** The ones between two places are those passed on the way. */
  lemma {:induction false} OnesBetween(bits: BitString, lo: nat, hi: nat, ones: seq<nat>, i: nat, a: nat, j: nat,
                                       b: nat)
    requires OnesAre(bits, lo, hi, ones) && AfterOnes(ones, i, a) && AfterOnes(ones, j, b) && lo <= a <= b <= hi
    ensures b <= |bits| && Popcount(bits[a..b]) == j - i
    decreases b - a
  {
    hide OnesAre;
    InStretch(bits, lo, hi, ones, i);
    if a == b {
      SamePlace(bits, lo, hi, ones, i, j, a);
    } else {
      BetweenOnes(bits, lo, hi, ones, i, a);
      OnesBetween(bits, lo, hi, ones, if bits[a] then i + 1 else i, a + 1, j, b);
      assert bits[a..b][1..] == bits[a + 1..b];
    }
  }

  lemma SamePlace(bits: BitString, lo: nat, hi: nat, ones: seq<nat>, i: nat, j: nat, a: nat)
    requires OnesAre(bits, lo, hi, ones) && AfterOnes(ones, i, a) && AfterOnes(ones, j, a)
    ensures i == j
  {}

  /** Adds up whole words, then the low part of the last one. */
  method CountOnes(bits: BitString, begin: nat, end: nat) returns (count: nat)
    requires begin <= end <= |bits|
    ensures count == Popcount(bits[begin..end])
  {
    hide Popcount, Word, ClearLow, ShiftOut;
    var w, beginShift := begin / 64, begin % 64;
    var endWord, endShift := end / 64, end % 64;
    var word := ClearLow(Word(bits, w), beginShift);
    ghost var s: nat := beginShift;
    count := 0;
    assert bits[begin..begin] == [];
    assert Popcount([]) == 0 by { PopcountZeros(0); assert Zeros(0) == []; }
    while w < endWord
      invariant w <= endWord && s <= 64 && begin <= 64 * w + s <= end
      invariant word == ClearLow(Word(bits, w), s)
      invariant count == Popcount(bits[begin..64 * w + s])
    {
      PopcountOfCleared(bits, w, s);
      PopcountSplit(bits, begin, 64 * w + s, 64 * w + 64);
      count := count + Popcount(word);
      w := w + 1;
      word := Word(bits, w);
      s := 0;
      ClearNone(word);
    }
    if endShift != 0 {
      PopcountOfMiddle(bits, w, s, endShift);
      PopcountSplit(bits, begin, 64 * w + s, end);
      count := count + Popcount(ShiftOut(word, endShift));
    }
  }

  lemma ClearNone(word: BitString)
    ensures ClearLow(word, 0) == word
  {}

  // ----- the cursor -----

  /** The enumerator of ones has passed exactly the first i of them. */
  ghost predicate Ready(o: Offsets, vals: seq<nat>, u: Unary, i: nat) {
    o.bitsOffset <= u.From() <= o.end && AfterOnes(Ones(o, vals), i, u.From())
  }

  lemma StoredFits(bits: BitString, o: Offsets, vals: seq<nat>)
    requires Stored(bits, o, vals)
    ensures Fits(o, vals) && o.n == |vals| && o.end <= |bits|
  {}

  lemma PassedIsReady(o: Offsets, vals: seq<nat>, i: nat)
    requires Fits(o, vals) && i < |vals|
    ensures Ready(o, vals, Unary(BitPosition(o, vals[i]), true), i + 1)
    ensures Ready(o, vals, Unary(BitPosition(o, vals[i]), false), i)
  {
    RegionsOrdered(o);
  }

  lemma NextOneIs(bits: BitString, o: Offsets, vals: seq<nat>, u: Unary, i: nat)
    requires Stored(bits, o, vals) && Ready(o, vals, u, i) && i < |vals|
    ensures u.Next(bits) == Unary(BitPosition(o, vals[i]), true)
    ensures Ready(o, vals, u.Next(bits), i + 1)
  {
    hide Consistent, Pointers1Done, RanksDone, OnesAre, AllBelow, Increasing;
    NthOneIs(bits, o.bitsOffset, o.end, Ones(o, vals), i, u.From(), 0);
    PassedIsReady(o, vals, i);
  }

  lemma SkipIs(bits: BitString, o: Offsets, vals: seq<nat>, u: Unary, i: nat, k: nat)
    requires Stored(bits, o, vals) && Ready(o, vals, u, i) && i + k < |vals|
    ensures Ready(o, vals, u.Skip(bits, k), i + k)
  {
    hide Consistent, Pointers1Done, RanksDone, OnesAre, AllBelow, Increasing;
    NthOneIs(bits, o.bitsOffset, o.end, Ones(o, vals), i, u.From(), k);
    PassedIsReady(o, vals, i + k);
  }

  lemma {:induction false} PredecessorOne(bits: BitString, o: Offsets, vals: seq<nat>, i: nat, p: int)
    requires Stored(bits, o, vals) && 0 < i <= |vals|
    requires p == if i < |vals| then BitPosition(o, vals[i]) - 1 else o.end - 1
    ensures 0 <= p < |bits| && Predecessor1(bits, p) == BitPosition(o, vals[i - 1])
  {
    hide Pointers1Done, RanksDone, OnesAre, Consistent;
    RegionsOrdered(o);
    assert vals[i - 1] < ElementAt(vals, o.universe, i);
    assert BitPosition(o, vals[i - 1]) <= p;
    PredecessorIs(bits, o.bitsOffset, o.end, Ones(o, vals), i, p);
  }

  lemma {:induction false} Pointer1Leads(bits: BitString, o: Offsets, vals: seq<nat>, position: nat)
    requires Stored(bits, o, vals) && position < |vals|
    ensures var ptr := Shr(position, o.logSampling1);
            && Shl(ptr, o.logSampling1) <= position
            && (ptr == 0 ==> Shl(ptr, o.logSampling1) == 0 && Ready(o, vals, Unary(o.bitsOffset, false), 0))
            && (ptr > 0 ==>
                  && Pointer1At(o, ptr) + o.pointerSize <= |bits|
                  && Ready(o, vals, Unary(o.bitsOffset + GetBits(bits, Pointer1At(o, ptr), o.pointerSize), false),
                           Shl(ptr, o.logSampling1)))
  {
    hide Consistent, RanksDone, OnesAre, Shl, Shr, Pointer1At, GetBits, Increasing, CeilDiv, Pow2, AllBelow;
    var ptr := Shr(position, o.logSampling1);
    LowPlusHigh(position, o.logSampling1);
    if ptr == 0 {
      ShlIsTimes(0, o.logSampling1);
      RegionsOrdered(o);
    } else {
      PtrBelow(ptr, o.n, o.logSampling1);
      assert Pointer1Stored(bits, o, vals, ptr);
      PassedIsReady(o, vals, Shl(ptr, o.logSampling1));
    }
  }

  /** Behind the values below a bound the enumerator may start at the bound itself. */
  lemma {:induction false} BoundIsReady(o: Offsets, vals: seq<nat>, lowerBound: nat)
    requires Fits(o, vals) && lowerBound <= o.universe
    ensures Ready(o, vals, Unary(o.bitsOffset + lowerBound, false), LowerBound(vals, lowerBound))
  {
    RegionsOrdered(o);
  }

  /** The ones from a place behind `rank` values up to the bound lead to the bound's rank. */
  lemma {:induction false} RankByCount(bits: BitString, o: Offsets, vals: seq<nat>, rank: nat, from: nat,
                                       lowerBound: nat)
    requires Stored(bits, o, vals) && from <= lowerBound <= o.universe
    requires rank == LowerBound(vals, from)
    ensures o.bitsOffset + lowerBound <= |bits|
    ensures rank + Popcount(bits[o.bitsOffset + from..o.bitsOffset + lowerBound]) == LowerBound(vals, lowerBound)
  {
    hide Consistent, Pointers1Done, RanksDone, OnesAre, AllBelow, Increasing, Popcount;
    RegionsOrdered(o);
    BoundIsReady(o, vals, from);
    BoundIsReady(o, vals, lowerBound);
    OnesBetween(bits, o.bitsOffset, o.end, Ones(o, vals), rank, o.bitsOffset + from, LowerBound(vals, lowerBound),
                o.bitsOffset + lowerBound);
  }

  /** What the sample in front of a bound says. */
  lemma {:induction false} SampleLeads(bits: BitString, o: Offsets, vals: seq<nat>, lowerBound: nat)
    requires Stored(bits, o, vals) && lowerBound < o.universe
    ensures var block := Shr(lowerBound, o.logRank1Sampling);
            && Shl(block, o.logRank1Sampling) <= lowerBound
            && (block == 0 ==> Shl(block, o.logRank1Sampling) == 0 && LowerBound(vals, 0) == 0)
            && (block > 0 ==> FieldStored(bits, RankAt(o, block), o.rankSize, LowerBound(vals, Shl(block, o.logRank1Sampling))))
  {
    hide Consistent, Pointers1Done, OnesAre, Shl, Shr, RankAt, FieldStored, CeilDiv, Pow2, AllBelow, Increasing;
    var block := Shr(lowerBound, o.logRank1Sampling);
    LowPlusHigh(lowerBound, o.logRank1Sampling);
    if block == 0 {
      ShlIsTimes(0, o.logRank1Sampling);
    } else {
      PtrBelow(block, o.universe, o.logRank1Sampling);
      assert RankStored(bits, o, vals, block);
    }
  }

  /** A bound above the universe, asked for at the end and close to it, pushes the position past the end. */
  predicate OverrunsAt(o: Offsets, position: nat, lowerBound: nat) {
    position == o.n && o.universe < lowerBound <= o.universe + LINEAR_SCAN_THRESHOLD
  }

  class Enumerator {
    const bits: BitString
    const o: Offsets
    ghost const vals: seq<nat>
    var position: nat
    var value: nat
    var ones: Unary

    ghost predicate Valid()
      reads this
    {
      && Stored(bits, o, vals)
      && position <= |vals| == o.n && value == ElementAt(vals, o.universe, position)
      && (position < |vals| ==> ones == Unary(BitPosition(o, vals[position]), true))
    }

    /** The enumerator of ones is left unset until the first move. */
    constructor (bits: BitString, offset: nat, universe: nat, n: nat, params: Parameters, ghost vals: seq<nat>)
      requires universe > 0 && Stored(bits, MakeOffsets(offset, universe, n, params), vals)
      ensures Valid() && this.vals == vals && this.bits == bits && position == n
      ensures o == MakeOffsets(offset, universe, n, params)
    {
      MadeConsistent(offset, universe, n, params);
      this.bits, this.vals := bits, vals;
      o := MakeOffsets(offset, universe, n, params);
      position, value := n, universe;
    }

    method ReadNext()
      requires Stored(bits, o, vals) && position < |vals| && |vals| == o.n && Ready(o, vals, ones, position)
      modifies this`value, this`ones
      ensures Valid()
    {
      hide Stored, Ready;
      NextOneIs(bits, o, vals, ones, position);
      ones := ones.Next(bits);
      value := ones.pos - o.bitsOffset;
    }

    method Next()
      requires Valid() && position < |vals|
      modifies this
      ensures Valid() && position == old(position) + 1
    {
      hide Stored, Ready;
      StoredFits(bits, o, vals);
      PassedIsReady(o, vals, position);
      position := position + 1;
      if position < o.n {
        ReadNext();
      } else {
        value := o.universe;
      }
    }

    /** A copy of the enumerator of ones, taken that many ones further. */
    method NextOnes(skip: nat) returns (he: Unary)
      requires Valid() && position + skip <= o.n
      ensures position < position + skip < o.n ==> he == Unary(BitPosition(o, vals[position + skip]), true)
    {
      hide Stored, Ready, BitPosition;
      he := ones;
      if position + skip == o.n { return; }
      StoredFits(bits, o, vals);
      PassedIsReady(o, vals, position);
      for i := 0 to skip
        invariant Ready(o, vals, he, position + 1 + i)
        invariant he == Unary(BitPosition(o, vals[position + i]), true)
      {
        NextOneIs(bits, o, vals, he, position + 1 + i);
        he := he.Next(bits);
      }
    }

    method Move(p: nat)
      requires Valid() && p <= o.n
      modifies this
      ensures Valid() && position == p
    {
      hide Stored, Ready;
      if p == position { return; }
      if p > position && p - position <= LINEAR_SCAN_THRESHOLD {
        var he := NextOnes(p - position);
        position := p;
        if position == o.n {
          value := o.universe;
        } else {
          value := he.pos - o.bitsOffset;
          ones := he;
        }
      } else {
        SlowMove(p);
      }
    }

    method SlowMove(p: nat)
      requires Valid() && p <= o.n
      modifies this
      ensures Valid() && position == p
    {
      hide Stored, Ready, Shr, Shl, Pointer1At, GetBits, BitPosition;
      if p == o.n {
        position, value := p, o.universe;
        return;
      }
      StoredFits(bits, o, vals);
      var toSkip;
      if p > position && Shr(p - position, o.logSampling1) == 0 {
        PassedIsReady(o, vals, position);
        toSkip := p - position - 1;
        SkipIs(bits, o, vals, ones, position + 1, toSkip);
      } else {
        Pointer1Leads(bits, o, vals, p);
        var ptr := Shr(p, o.logSampling1);
        var ptrPos := if ptr == 0 then 0 else GetBits(bits, Pointer1At(o, ptr), o.pointerSize);
        ones := Unary(o.bitsOffset + ptrPos, false);
        toSkip := p - Shl(ptr, o.logSampling1);
        SkipIs(bits, o, vals, ones, Shl(ptr, o.logSampling1), toSkip);
      }
      ones := ones.Skip(bits, toSkip);
      position := p;
      ReadNext();
    }

    predicate Overruns(lowerBound: nat)
      reads this
    {
      OverrunsAt(o, position, lowerBound)
    }

    method NextGeq(lowerBound: nat)
      requires Valid()
      modifies this
      ensures old(Overruns(lowerBound)) ==> position == o.n + 1 && value == o.universe
      ensures !old(Overruns(lowerBound)) ==> Valid() && position == LowerBound(vals, lowerBound)
      ensures position == LowerBound(vals, lowerBound) <==> !old(Overruns(lowerBound))
    {
      hide Stored, Ready, Increasing;
      StoredFits(bits, o, vals);
      if lowerBound == value { StaysPut(vals, o.universe, position); return; }
      if lowerBound > value && lowerBound - value <= LINEAR_SCAN_THRESHOLD {
        var p, val, he := ScanNear(lowerBound);
        position, value, ones := p, val, he;
      } else {
        SlowNextGeq(lowerBound);
      }
    }

    /** Reads on, one value after the other, starting behind the current one. */
    method ScanNear(lowerBound: nat) returns (p: nat, val: nat, he: Unary)
      requires Valid() && lowerBound > value
      ensures position == o.n ==> p == o.n + 1 && val == o.universe
      ensures position < o.n ==> p == LowerBound(vals, lowerBound) && val == ElementAt(vals, o.universe, p)
      ensures p < o.n ==> he == Unary(BitPosition(o, vals[p]), true)
    {
      hide Stored, Ready;
      StoredFits(bits, o, vals);
      he, p := ones, position;
      if position < o.n { PassedIsReady(o, vals, position); }
      while true
        invariant position <= p
        invariant p == position || p < o.n
        invariant p < o.n ==> Ready(o, vals, he, p + 1) && vals[p] < lowerBound
        decreases o.n - p
      {
        p := p + 1;
        if p < o.n {
          NextOneIs(bits, o, vals, he, p);
          he := he.Next(bits);
          val := he.pos - o.bitsOffset;
        } else {
          val := o.universe;
          break;
        }
        if val >= lowerBound { break; }
      }
      if position < o.n { FirstMatchIs(vals, lowerBound, p); }
    }

    method SlowNextGeq(lowerBound: nat)
      requires Valid() && lowerBound != value
      modifies this
      ensures Valid() && position == LowerBound(vals, lowerBound)
    {
      hide Stored, Ready, Shr, Shl, Increasing, RankAt, GetBits, Popcount, Consistent, LowerBound;
      StoredFits(bits, o, vals);
      RegionsOrdered(o);
      if lowerBound >= o.universe {
        AllBelowBound(o, vals, lowerBound);
        Move(o.n);
        return;
      }
      ones := Unary(o.bitsOffset + lowerBound, false);
      BoundIsReady(o, vals, lowerBound);
      var begin;
      if lowerBound > value && Shr(lowerBound - value, o.logRank1Sampling) == 0 {
        begin := o.bitsOffset + value;
        StaysPut(vals, o.universe, position);
        RankByCount(bits, o, vals, position, value, lowerBound);
      } else {
        SampleLeads(bits, o, vals, lowerBound);
        var block := Shr(lowerBound, o.logRank1Sampling);
        position := if block == 0 then 0 else GetBits(bits, RankAt(o, block), o.rankSize);
        begin := o.bitsOffset + Shl(block, o.logRank1Sampling);
        RankByCount(bits, o, vals, position, Shl(block, o.logRank1Sampling), lowerBound);
      }
      var count := CountOnes(bits, begin, o.bitsOffset + lowerBound);
      position := position + count;
      if position < o.n {
        ReadNext();
      } else {
        value := o.universe;
      }
    }

    /** The value before the current position; zero at the start. */
    method PrevValue() returns (prev: nat)
      requires Valid()
      ensures prev == if position == 0 then 0 else vals[position - 1]
    {
      hide Stored, Ready;
      if position == 0 { return 0; }
      PredecessorOne(bits, o, vals, position,
                     if position < |vals| then BitPosition(o, vals[position]) - 1 else o.end - 1);
      var pos;
      if position < o.n {
        pos := Predecessor1(bits, ones.pos - 1);
      } else {
        pos := Predecessor1(bits, o.end - 1);
      }
      prev := pos - o.bitsOffset;
    }
  }

  lemma {:induction false} AllBelowBound(o: Offsets, vals: seq<nat>, lowerBound: nat)
    requires Fits(o, vals) && lowerBound >= o.universe
    ensures LowerBound(vals, lowerBound) == |vals|
  {}
}
