/** Gamma and delta codes, appended to a bit vector and read back by a forward enumerator of its bits. */
module IntegerCodes {
  import opened Arith
  import opened Bits
  import opened BitVectors
  import opened Slices

  /** As many zeros as n + 1 has bits below its highest, a one, and those bits. */
  ghost function Gamma(n: nat): BitString {
    var l := Msb(n + 1);
    ToBits(Pow2(l), l + 1) + ToBits(Low(n + 1, l), l)
  }

  ghost function Delta(n: nat): BitString {
    var l := Msb(n + 1);
    Gamma(l) + ToBits(Low(n + 1, l), l)
  }

  /** nn ^ hb, where hb is the highest bit of nn. */
  function WithoutHighBit(nn: nat): nat
    requires nn > 0
  {
    nn - Pow2(Msb(nn))
  }

  lemma {:induction false} WithoutHighBitIsLow(nn: nat)
    requires nn > 0
    ensures WithoutHighBit(nn) == Low(nn, Msb(nn)) < Pow2(Msb(nn))
    ensures Or(Low(nn, Msb(nn)), Shl(1, Msb(nn))) == nn
  {
    hide Low, Or, Shl;
    var l := Msb(nn);
    ShlIsTimes(1, l);
    PartsOfSum(nn - Pow2(l), 1, l);
    OrOverClear(Low(nn, l), 1, l);
  }

  method WriteGamma(bvb: BitVectorBuilder, n: nat)
    modifies bvb
    ensures bvb.bits == old(bvb.bits) + Gamma(n)
  {
    hide ToBits, Pow2, Msb;
    var l := Msb(n + 1);
    WithoutHighBitIsLow(n + 1);
    bvb.AppendBits(Pow2(l), l + 1);
    bvb.AppendBits(WithoutHighBit(n + 1), l);
    Regroup(old(bvb.bits), ToBits(Pow2(l), l + 1), ToBits(Low(n + 1, l), l), []);
  }

  method WriteGammaNonzero(bvb: BitVectorBuilder, n: nat)
    requires n > 0
    modifies bvb
    ensures bvb.bits == old(bvb.bits) + Gamma(n - 1)
  {
    WriteGamma(bvb, n - 1);
  }

  method WriteDelta(bvb: BitVectorBuilder, n: nat)
    modifies bvb
    ensures bvb.bits == old(bvb.bits) + Delta(n)
  {
    hide ToBits, Pow2, Msb, Gamma;
    var l := Msb(n + 1);
    WithoutHighBitIsLow(n + 1);
    WriteGamma(bvb, l);
    bvb.AppendBits(WithoutHighBit(n + 1), l);
    Regroup(old(bvb.bits), Gamma(l), ToBits(Low(n + 1, l), l), []);
  }

  /** `bit_vector::enumerator`. */
  class BitEnumerator {
    const bits: BitString
    var pos: nat

    constructor (bits: BitString, pos: nat)
      ensures this.bits == bits && this.pos == pos
    {
      this.bits, this.pos := bits, pos;
    }

    method Take(len: nat) returns (v: nat)
      requires pos + len <= |bits|
      modifies this
      ensures pos == old(pos) + len && v == GetBits(bits, old(pos), len)
    {
      v := GetBits(bits, pos, len);
      pos := pos + len;
    }

    /** Counts the zeros up to the next one and goes behind it. */
    method SkipZeros(ghost l: nat) returns (zeros: nat)
      requires At(bits, pos, ToBits(Pow2(l), l + 1))
      modifies this
      ensures zeros == l && pos == old(pos) + l + 1
    {
      hide ToBits, At, Pow2;
      AtLength(bits, pos, ToBits(Pow2(l), l + 1));
      zeros := 0;
      ghost var start := pos;
      AtPlace(bits, start, ToBits(Pow2(l), l + 1), 0);
      OneBit(l, 0);
      while !bits[pos]
        invariant zeros <= l && pos == start + zeros && pos < |bits|
        invariant bits[pos] == (zeros == l)
        decreases l - zeros
      {
        OneBit(l, zeros + 1);
        AtPlace(bits, start, ToBits(Pow2(l), l + 1), zeros + 1);
        zeros, pos := zeros + 1, pos + 1;
      }
      pos := pos + 1;
    }
  }

  /** A power of two is zeros and then a one. */
  lemma {:induction false} OneBit(l: nat, i: nat)
    requires i <= l
    ensures ToBits(Pow2(l), l + 1)[i] == (i == l)
  {
    if l == 0 {
    } else {
      assert Pow2(l) / 2 == Pow2(l - 1) && Pow2(l) % 2 == 0;
      if i > 0 {
        OneBit(l - 1, i - 1);
      }
    }
  }

  /** A number standing in the bits is read back. */
  lemma {:induction false} FieldReads(bits: BitString, pos: nat, v: nat, len: nat)
    requires At(bits, pos, ToBits(v, len)) && v < Pow2(len)
    ensures pos + len <= |bits| && GetBits(bits, pos, len) == v
  {
    FromToBits(v, len);
    LowOfSmall(v, len);
  }

  method ReadGamma(it: BitEnumerator, ghost n: nat) returns (r: nat)
    requires At(it.bits, it.pos, Gamma(n))
    modifies it
    ensures r == n && it.pos == old(it.pos) + |Gamma(n)|
  {
    hide ToBits, Pow2, Msb, At, Or, Shl, Low;
    ghost var nn := n + 1;
    ghost var k := Msb(nn);
    WithoutHighBitIsLow(nn);
    AtParts(it.bits, it.pos, ToBits(Pow2(k), k + 1), ToBits(Low(nn, k), k));
    FieldReads(it.bits, it.pos + k + 1, Low(nn, k), k);
    var l := it.SkipZeros(k);
    var low := it.Take(l);
    r := Or(low, Shl(1, l)) - 1;
  }

  method ReadGammaNonzero(it: BitEnumerator, ghost n: nat) returns (r: nat)
    requires n > 0 && At(it.bits, it.pos, Gamma(n - 1))
    modifies it
    ensures r == n && it.pos == old(it.pos) + |Gamma(n - 1)|
  {
    r := ReadGamma(it, n - 1);
    r := r + 1;
  }

  method ReadDelta(it: BitEnumerator, ghost n: nat) returns (r: nat)
    requires At(it.bits, it.pos, Delta(n))
    modifies it
    ensures r == n && it.pos == old(it.pos) + |Delta(n)|
  {
    hide ToBits, Pow2, Msb, At, Or, Shl, Low, Gamma;
    ghost var nn := n + 1;
    ghost var k := Msb(nn);
    WithoutHighBitIsLow(nn);
    AtParts(it.bits, it.pos, Gamma(k), ToBits(Low(nn, k), k));
    FieldReads(it.bits, it.pos + |Gamma(k)|, Low(nn, k), k);
    var l := ReadGamma(it, k);
    var low := it.Take(l);
    r := Or(low, Shl(1, l)) - 1;
  }

  /** Both codes, one behind the other, among any other bits, are read back with exactly their bits. */
  method RoundTrip(n: nat, m: nat, before: BitString, behind: BitString) returns (gamma: nat, delta: nat, used: nat)
    ensures gamma == n && delta == m && used == |Gamma(n)| + |Delta(m)|
  {
    hide Gamma, Delta;
    var bvb := new BitVectorBuilder();
    bvb.Append(before);
    WriteGamma(bvb, n);
    WriteDelta(bvb, m);
    bvb.Append(behind);
    assert [] + before == before;
    assert At(bvb.bits, |before|, Gamma(n)) && At(bvb.bits, |before| + |Gamma(n)|, Delta(m));
    var it := new BitEnumerator(bvb.bits, |before|);
    gamma := ReadGamma(it, n);
    delta := ReadDelta(it, m);
    used := it.pos - |before|;
  }
}
