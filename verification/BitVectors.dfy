/** Bit vectors: the builder's writes, reads of bit fields, and the enumerators of one bits and zero bits.
    The enumerator's rules are those its callers rely on: a one that was consumed reads as a zero. */
module BitVectors {
  import opened Arith
  import opened Bits
  import opened Slices
  import opened SortedLists

  // ----- fields of bits -----

  function GetBits(bits: BitString, offset: nat, len: nat): nat
    requires offset + len <= |bits|
  {
    FromBits(bits[offset..offset + len])
  }

  function SetBits(bits: BitString, offset: nat, v: nat, len: nat): (r: BitString)
    requires offset + len <= |bits|
    ensures |r| == |bits|
  {
    bits[..offset] + ToBits(v, len) + bits[offset + len..]
  }

  /** The builder's bits agree outside one stretch. */
  ghost predicate SameOutside(a: BitString, b: BitString, from: nat, to: nat) {
    |a| == |b| && forall p :: 0 <= p < |a| && !(from <= p < to) ==> a[p] == b[p]
  }

  lemma {:induction false} SetThenGet(bits: BitString, offset: nat, v: nat, len: nat)
    requires offset + len <= |bits| && v < Pow2(len)
    ensures GetBits(SetBits(bits, offset, v, len), offset, len) == v
    ensures SameOutside(SetBits(bits, offset, v, len), bits, offset, offset + len)
  {
    hide ToBits, FromBits;
    var r := SetBits(bits, offset, v, len);
    assert r[offset..offset + len] == ToBits(v, len);
    FromToBits(v, len);
    LowOfSmall(v, len);
  }

  lemma GetElsewhere(a: BitString, b: BitString, from: nat, to: nat, offset: nat, len: nat)
    requires SameOutside(a, b, from, to) && offset + len <= |a| && (offset + len <= from || to <= offset)
    ensures GetBits(a, offset, len) == GetBits(b, offset, len)
  {
    hide FromBits;
    assert a[offset..offset + len] == b[offset..offset + len];
  }

  /** The bits hold the number v in a field. */
  ghost predicate FieldStored(bits: BitString, at: nat, size: nat, v: int) {
    at + size <= |bits| && GetBits(bits, at, size) == v
  }

  lemma FieldKept(a: BitString, b: BitString, at: nat, size: nat, v: int, from: nat, to: nat)
    requires FieldStored(b, at, size, v) && SameOutside(a, b, from, to) && (to <= at || at + size <= from)
    ensures FieldStored(a, at, size, v)
  {
    GetElsewhere(a, b, from, to, at, size);
  }

  lemma {:induction false} FieldWritten(b: BitString, at: nat, v: nat, size: nat)
    requires at + size <= |b| && v < Pow2(size)
    ensures var a := SetBits(b, at, v, size);
            SameOutside(a, b, at, at + size) && FieldStored(a, at, size, v)
  {
    SetThenGet(b, at, v, size);
  }

  lemma PrefixKept(start: BitString, a: BitString, b: BitString, from: nat, to: nat)
    requires start <= b && SameOutside(a, b, from, to) && |start| <= from
    ensures start <= a
  {}

  /** `bit_vector_builder`. */
  class BitVectorBuilder {
    var bits: BitString

    constructor ()
      ensures bits == []
    {
      bits := [];
    }

    method ZeroExtend(n: nat)
      modifies this
      ensures bits == old(bits) + seq(n, i => false)
    {
      bits := bits + seq(n, i => false);
    }

    method Set(p: nat)
      requires p < |bits|
      modifies this
      ensures bits == old(bits)[p := true]
    {
      bits := bits[p := true];
    }

    method SetField(offset: nat, v: nat, len: nat)
      requires offset + len <= |bits|
      modifies this
      ensures bits == SetBits(old(bits), offset, v, len)
    {
      bits := SetBits(bits, offset, v, len);
    }

    method AppendBits(v: nat, len: nat)
      modifies this
      ensures bits == old(bits) + ToBits(v, len)
    {
      bits := bits + ToBits(v, len);
    }

    method Append(other: BitString)
      modifies this
      ensures bits == old(bits) + other
    {
      bits := bits + other;
    }
  }

  lemma EmbeddedField(whole: BitString, d: nat, part: BitString, at: nat, len: nat)
    requires At(whole, d, part) && at + len <= |part|
    ensures GetBits(whole, d + at, len) == GetBits(part, at, len)
  {
    hide FromBits, At;
    AtLength(whole, d, part);
    var a, b := whole[d + at..d + at + len], part[at..at + len];
    forall k | 0 <= k < len ensures a[k] == b[k] {
      AtPlace(whole, d, part, at + k);
    }
    assert a == b;
  }

  lemma FieldMoved(whole: BitString, d: nat, part: BitString, at: nat, size: nat, v: int)
    requires At(whole, d, part) && FieldStored(part, at, size, v)
    ensures FieldStored(whole, d + at, size, v)
  {
    AtLength(whole, d, part);
    EmbeddedField(whole, d, part, at, size);
  }

  /** What stands in a bit vector stays when more is appended. */
  lemma AtExtended(a: BitString, b: BitString, pos: nat, code: BitString)
    requires a <= b && At(a, pos, code)
    ensures At(b, pos, code)
  {
    assert b[pos..pos + |code|] == a[pos..pos + |code|];
  }

  lemma AtAppended(a: BitString, code: BitString)
    ensures At(a + code, |a|, code)
  {}

  lemma PrefixAt(a: BitString, b: BitString)
    requires a <= b
    ensures At(b, 0, a)
  {}

  lemma FieldExtended(a: BitString, b: BitString, at: nat, size: nat, v: int)
    requires a <= b && FieldStored(a, at, size, v)
    ensures FieldStored(b, at, size, v)
  {
    assert b[at..at + size] == a[at..at + size];
  }

  lemma {:induction false} FieldAppended(a: BitString, v: nat, size: nat)
    requires v < Pow2(size)
    ensures FieldStored(a + ToBits(v, size), |a|, size, v)
  {
    assert (a + ToBits(v, size))[|a|..|a| + size] == ToBits(v, size);
    FromToBits(v, size);
    LowOfSmall(v, size);
  }

  // ----- ones and zeros -----

  function NthOne(bits: BitString, from: nat, k: nat): (p: nat)
    decreases |bits| - from
  {
    if from >= |bits| then |bits|
    else if !bits[from] then NthOne(bits, from + 1, k)
    else if k == 0 then from
    else NthOne(bits, from + 1, k - 1)
  }

  function NthZero(bits: BitString, from: nat, k: nat): (p: nat)
    decreases |bits| - from
  {
    if from >= |bits| then |bits|
    else if bits[from] then NthZero(bits, from + 1, k)
    else if k == 0 then from
    else NthZero(bits, from + 1, k - 1)
  }

  /** `unary_enumerator`: stands on a bit, which may be a one it has already given out. */
  datatype Unary = Unary(pos: nat, consumed: bool) {
    function From(): nat {
      if consumed then pos + 1 else pos
    }

    function Next(bits: BitString): Unary {
      Unary(NthOne(bits, From(), 0), true)
    }

    function Skip(bits: BitString, k: nat): Unary {
      Unary(NthOne(bits, From(), k), false)
    }

    function Skip0(bits: BitString, k: nat): Unary {
      if !consumed then Unary(NthZero(bits, pos, k), false)
      else if k == 0 then this
      else Unary(NthZero(bits, pos + 1, k - 1), false)
    }
  }

  /** The last one at or below a position. */
  function Predecessor1(bits: BitString, p: nat): nat
    requires p < |bits|
  {
    if bits[p] || p == 0 then p else Predecessor1(bits, p - 1)
  }

  /** In the stretch [lo, hi) the ones are exactly those listed. */
  ghost predicate OnesAre(bits: BitString, lo: nat, hi: nat, ones: seq<nat>) {
    && lo <= hi <= |bits| && Increasing(ones)
    && (forall i :: 0 <= i < |ones| ==> lo <= ones[i] < hi && bits[ones[i]])
    && (forall p :: lo <= p < hi && bits[p] ==> p in ones)
  }

  /** Position p comes after exactly i of the ones. */
  ghost predicate AfterOnes(ones: seq<nat>, i: nat, p: nat) {
    i <= |ones| && (i > 0 ==> ones[i - 1] < p) && (i < |ones| ==> p <= ones[i])
  }

  lemma BetweenOnes(bits: BitString, lo: nat, hi: nat, ones: seq<nat>, i: nat, p: nat)
    requires OnesAre(bits, lo, hi, ones) && AfterOnes(ones, i, p) && lo <= p < hi
    ensures bits[p] <==> i < |ones| && p == ones[i]
    ensures AfterOnes(ones, if bits[p] then i + 1 else i, p + 1)
  {
    if bits[p] {
      var j :| 0 <= j < |ones| && ones[j] == p;
      assert j >= i;
    }
    if bits[p] && i + 1 < |ones| {
      assert ones[i] < ones[i + 1];
    }
  }

  /** From behind i ones, the k-th one met is number i + k. */
  lemma {:induction false} NthOneIs(bits: BitString, lo: nat, hi: nat, ones: seq<nat>, i: nat, from: nat, k: nat)
    requires OnesAre(bits, lo, hi, ones) && AfterOnes(ones, i, from) && lo <= from <= hi && i + k < |ones|
    ensures NthOne(bits, from, k) == ones[i + k]
    decreases hi - from
  {
    hide OnesAre;
    InStretch(bits, lo, hi, ones, i);
    BetweenOnes(bits, lo, hi, ones, i, from);
    if !bits[from] {
      NthOneIs(bits, lo, hi, ones, i, from + 1, k);
    } else if k > 0 {
      NthOneIs(bits, lo, hi, ones, i + 1, from + 1, k - 1);
    }
  }

  lemma InStretch(bits: BitString, lo: nat, hi: nat, ones: seq<nat>, i: nat)
    requires OnesAre(bits, lo, hi, ones)
    ensures hi <= |bits| && (i < |ones| ==> lo <= ones[i] < hi)
  {}

  /** From a position behind i ones and z zeros, the k-th zero met is the one behind z + k zeros. */
  lemma {:induction false} NthZeroIs(bits: BitString, lo: nat, hi: nat, ones: seq<nat>, i: nat, from: nat, k: nat)
    returns (j: nat)
    requires OnesAre(bits, lo, hi, ones) && AfterOnes(ones, i, from) && lo <= from <= hi
    requires from - i + k < hi - |ones|
    ensures var p := NthZero(bits, from, k);
            from <= p < hi && !bits[p] && i <= j <= |ones| && AfterOnes(ones, j, p) && p - j == from - i + k
    decreases hi - from
  {
    hide OnesAre;
    InStretch(bits, lo, hi, ones, i);
    if from == hi {
      AllPassed(bits, lo, hi, ones, i);
    }
    BetweenOnes(bits, lo, hi, ones, i, from);
    if bits[from] {
      j := NthZeroIs(bits, lo, hi, ones, i + 1, from + 1, k);
    } else if k > 0 {
      j := NthZeroIs(bits, lo, hi, ones, i, from + 1, k - 1);
    } else {
      j := i;
    }
  }

  lemma AllPassed(bits: BitString, lo: nat, hi: nat, ones: seq<nat>, i: nat)
    requires OnesAre(bits, lo, hi, ones) && AfterOnes(ones, i, hi)
    ensures i == |ones|
  {}

  lemma {:induction false} PredecessorIs(bits: BitString, lo: nat, hi: nat, ones: seq<nat>, i: nat, p: nat)
    requires OnesAre(bits, lo, hi, ones) && 0 < i <= |ones| && AfterOnes(ones, i, p + 1) && lo <= p < hi
    ensures Predecessor1(bits, p) == ones[i - 1]
    decreases p
  {
    hide OnesAre;
    InStretch(bits, lo, hi, ones, i - 1);
    if p == ones[i - 1] {
      OneIsSet(bits, lo, hi, ones, i - 1);
    } else {
      BetweenOnes(bits, lo, hi, ones, i, p);
      PredecessorIs(bits, lo, hi, ones, i, p - 1);
    }
  }

  lemma EmbeddedOnes(whole: BitString, d: nat, part: BitString, lo: nat, hi: nat, ones: seq<nat>, moved: seq<nat>)
    requires At(whole, d, part) && OnesAre(part, lo, hi, ones)
    requires |moved| == |ones| && forall i :: 0 <= i < |ones| ==> moved[i] == d + ones[i]
    ensures OnesAre(whole, d + lo, d + hi, moved)
  {
    hide At;
    assert d + hi <= |whole| by { AtLength(whole, d, part); }
    forall i | 0 <= i < |moved| ensures d + lo <= moved[i] < d + hi && whole[moved[i]] {
      AtPlace(whole, d, part, ones[i]);
    }
    forall p | d + lo <= p < d + hi && whole[p] ensures p in moved {
      AtPlace(whole, d, part, p - d);
      var i :| 0 <= i < |ones| && ones[i] == p - d;
      assert moved[i] == p;
    }
  }

  lemma OneMore(b: BitString, lo: nat, hi: nat, ones: seq<nat>, p: nat)
    requires OnesAre(b, lo, hi, ones) && lo <= p < hi && forall j :: 0 <= j < |ones| ==> ones[j] < p
    ensures OnesAre(b[p := true], lo, hi, ones + [p])
  {
    var a, more := b[p := true], ones + [p];
    forall q | lo <= q < hi && a[q] ensures q in more {
      if q == p {
        assert more[|ones|] == q;
      } else {
        var j :| 0 <= j < |ones| && ones[j] == q;
        assert more[j] == q;
      }
    }
  }

  lemma OneIsSet(bits: BitString, lo: nat, hi: nat, ones: seq<nat>, i: nat)
    requires OnesAre(bits, lo, hi, ones) && i < |ones|
    ensures lo <= ones[i] < hi <= |bits| && bits[ones[i]]
  {}
}
