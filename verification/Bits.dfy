/** Numbers as little-endian bit strings, with the shifts and masks of the source. */
module Bits {
  import opened Arith

  type BitString = seq<bool>

  function ToBits(v: nat, len: nat): (r: BitString)
    ensures |r| == len
  {
    if len == 0 then [] else [v % 2 == 1] + ToBits(v / 2, len - 1)
  }

  function FromBits(b: BitString): (v: nat)
    ensures v < Pow2(|b|)
  {
    if b == [] then 0 else (if b[0] then 1 else 0) + 2 * FromBits(b[1..])
  }

  /** v >> p */
  function Shr(v: nat, p: nat): nat {
    if p == 0 then v else Shr(v / 2, p - 1)
  }

  /** v << p */
  function Shl(v: nat, p: nat): nat {
    if p == 0 then v else 2 * Shl(v, p - 1)
  }

  /** v & (2^p - 1) */
  function Low(v: nat, p: nat): (r: nat)
    ensures r < Pow2(p)
  {
    if p == 0 then 0 else v % 2 + 2 * Low(v / 2, p - 1)
  }

  lemma {:induction false} FromToBits(v: nat, len: nat)
    ensures FromBits(ToBits(v, len)) == Low(v, len)
  {
    if len == 0 {
    } else {
      FromToBits(v / 2, len - 1);
      assert ToBits(v, len)[1..] == ToBits(v / 2, len - 1);
    }
  }

  lemma {:induction false} LowOfSmall(v: nat, p: nat)
    requires v < Pow2(p)
    ensures Low(v, p) == v && Shr(v, p) == 0
  {
    if p == 0 {
    } else {
      LowOfSmall(v / 2, p - 1);
    }
  }

  /** A number is its low part plus its high part shifted back. */
  lemma {:induction false} LowPlusHigh(v: nat, p: nat)
    ensures v == Low(v, p) + Shl(Shr(v, p), p)
  {
    if p == 0 {
    } else {
      LowPlusHigh(v / 2, p - 1);
    }
  }

  lemma {:induction false} ShlIsTimes(v: nat, p: nat)
    ensures Shl(v, p) == v * Pow2(p)
  {
    if p == 0 {
    } else {
      ShlIsTimes(v, p - 1);
      assert v * (2 * Pow2(p - 1)) == 2 * (v * Pow2(p - 1));
    }
  }

  /** Shifting and masking are division and remainder by the power of two. */
  lemma {:induction false} ShrIsDivision(v: nat, p: nat)
    ensures Shr(v, p) == v / Pow2(p) && Low(v, p) == v % Pow2(p)
  {
    LowPlusHigh(v, p);
    ShlIsTimes(Shr(v, p), p);
    NextMultiple(Shr(v, p), Pow2(p));
    DivUnique(v, Pow2(p), Shr(v, p));
  }

  lemma NextMultiple(q: nat, n: nat)
    ensures (q + 1) * n == q * n + n
  {}

  /** A number put together from a low and a high part has these parts. */
  lemma {:induction false} PartsOfSum(low: nat, high: nat, p: nat)
    requires low < Pow2(p)
    ensures Low(low + Shl(high, p), p) == low && Shr(low + Shl(high, p), p) == high
  {
    if p == 0 {
    } else {
      PartsOfSum(low / 2, high, p - 1);
      var v := low + Shl(high, p);
      assert v / 2 == low / 2 + Shl(high, p - 1) && v % 2 == low % 2;
    }
  }

  lemma {:induction false} ShrSmall(v: nat, p: nat, q: nat)
    requires v < Pow2(p + q)
    ensures Shr(v, p) < Pow2(q)
  {
    if p == 0 {
    } else {
      ShrSmall(v / 2, p - 1, q);
    }
  }

  /** The low p bits, then the rest. */
  lemma {:induction false} ToBitsSplit(v: nat, p: nat, len: nat)
    requires p <= len
    ensures ToBits(v, len) == ToBits(v, p) + ToBits(Shr(v, p), len - p)
  {
    if p == 0 {
    } else {
      ToBitsSplit(v / 2, p - 1, len - 1);
    }
  }

  lemma {:induction false} ToBitsParts(v: nat, p: nat, len: nat)
    requires p <= len
    ensures ToBits(v, len)[..p] == ToBits(v, p) && ToBits(v, len)[p..] == ToBits(Shr(v, p), len - p)
  {
    ToBitsSplit(v, p, len);
  }

  /** Bits above the length do not matter. */
  lemma {:induction false} ToBitsOfLow(v: nat, p: nat, len: nat)
    requires len <= p
    ensures ToBits(Low(v, p), len) == ToBits(v, len)
  {
    if len == 0 {
    } else {
      ToBitsOfLow(v / 2, p - 1, len - 1);
      assert Low(v, p) / 2 == Low(v / 2, p - 1);
    }
  }

  lemma ToBitsSum(low: nat, high: nat, p: nat, len: nat)
    requires low < Pow2(p) && p <= len
    ensures ToBits(low + Shl(high, p), len) == ToBits(low, p) + ToBits(high, len - p)
  {
    var v := low + Shl(high, p);
    PartsOfSum(low, high, p);
    ToBitsSplit(v, p, len);
    ToBitsOfLow(v, p, p);
    ToBitsOfLow(low, p, p);
    LowOfSmall(low, p);
  }

  /** Bitwise or of two numbers. */
  function Or(a: nat, b: nat): nat
    decreases a + b
  {
    if a == 0 then b
    else if b == 0 then a
    else (if a % 2 == 1 || b % 2 == 1 then 1 else 0) + 2 * Or(a / 2, b / 2)
  }

  /** Or-ing a shifted number over clear bits adds it. */
  lemma {:induction false} OrOverClear(low: nat, high: nat, p: nat)
    requires low < Pow2(p)
    ensures Or(low, Shl(high, p)) == low + Shl(high, p)
  {
    if p > 0 && low > 0 && high > 0 {
      OrOverClear(low / 2, high, p - 1);
    }
    if high == 0 {
      ShlIsTimes(0, p);
    }
  }

  /** The index of the highest one bit. */
  function Msb(u: nat): (b: nat)
    requires u > 0
    ensures Pow2(b) <= u < Pow2(b + 1)
  {
    if u == 1 then 0 else 1 + Msb(u / 2)
  }

  lemma {:induction false} LowOfShl(v: nat, p: nat, n: nat)
    requires p <= n
    ensures Low(Shl(v, p), n) == Shl(Low(v, n - p), p)
  {
    if p == 0 {
    } else {
      LowOfShl(v, p - 1, n - 1);
      assert Shl(v, p) / 2 == Shl(v, p - 1) && Shl(v, p) % 2 == 0;
    }
  }

  lemma {:induction false} SumBelow(low: nat, high: nat, p: nat, q: nat)
    requires low < Pow2(p) && high < Pow2(q)
    ensures low + Shl(high, p) < Pow2(p + q)
  {
    if p == 0 {
    } else {
      SumBelow(low / 2, high, p - 1, q);
    }
  }

  lemma {:induction false} ShrMonotone(a: nat, b: nat, p: nat)
    requires a <= b
    ensures Shr(a, p) <= Shr(b, p)
  {
    if p == 0 {
    } else {
      ShrMonotone(a / 2, b / 2, p - 1);
    }
  }

  /** The two parts of a number, put together again by shift and or. */
  lemma {:induction false} OrOfParts(v: nat, p: nat)
    ensures Or(Low(v, p), Shl(Shr(v, p), p)) == v
  {
    hide Or, Low, Shl, Shr;
    LowPlusHigh(v, p);
    OrOverClear(Low(v, p), Shr(v, p), p);
  }

  /** The number of bits that hold every number below x. */
  function CeilLog2(x: nat): (r: nat)
    requires x > 0
    ensures x <= Pow2(r) && (x > 1 ==> r > 0 && Pow2(r - 1) < x)
  {
    if x > 1 then Msb(x - 1) + 1 else 0
  }

  // ----- 32-bit words -----

  const WORD := 0x1_0000_0000

  lemma WordIsPower()
    ensures Pow2(32) == WORD
  {
    assert Pow2(8) == 256;
    Pow2Adds(8, 8);
    Pow2Adds(16, 16);
  }

  ghost predicate AllWords(s: seq<nat>) {
    forall i :: 0 <= i < |s| ==> s[i] < Pow2(32)
  }
}
