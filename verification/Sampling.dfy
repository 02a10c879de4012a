/** Counting samples taken at every multiple of a power of two. */
module Sampling {
  import opened Arith
  import opened Bits

  lemma {:induction false} PtrBelow(ptr: nat, n: nat, log: nat)
    ensures Shl(ptr, log) < n <==> ptr < CeilDiv(n, Pow2(log))
  {
    ShlIsTimes(ptr, log);
    BelowCeilDiv(ptr, n, Pow2(log));
  }

  lemma {:induction false} SampleCount(n: nat, log: nat)
    ensures CeilDiv(n, Pow2(log)) <= Shr(n, log) + 1
  {
    var d := Pow2(log);
    ShrIsDivision(n, log);
    DivisionRange(n, d);
    BelowCeilDiv(n / d + 1, n, d);
  }

  lemma CeilDivMonotone(a: nat, b: nat, d: nat)
    requires d > 0 && a <= b
    ensures CeilDiv(a, d) <= CeilDiv(b, d)
  {
    hide CeilDiv;
    if CeilDiv(b, d) < CeilDiv(a, d) {
      BelowCeilDiv(CeilDiv(b, d), a, d);
      BelowCeilDiv(CeilDiv(b, d), b, d);
    }
  }

  lemma {:induction false} FirstPointer(zeros: nat, log: nat)
    requires zeros > 0
    ensures CeilDiv(zeros, Pow2(log)) > 0
  {
    BelowCeilDiv(0, zeros, Pow2(log));
  }

  /** The count of sampled ones grows exactly at a multiple of the sampling. */
  lemma SampleStep(i: nat, log: nat)
    ensures Low(i, log) == 0 ==> CeilDiv(i, Pow2(log)) == Shr(i, log) && Shl(Shr(i, log), log) == i
                                 && CeilDiv(i + 1, Pow2(log)) == Shr(i, log) + 1
    ensures Low(i, log) != 0 ==> CeilDiv(i + 1, Pow2(log)) == CeilDiv(i, Pow2(log))
  {
    hide Low, Shr, Shl, Pow2, CeilDiv;
    var d, q := Pow2(log), Shr(i, log);
    LowPlusHigh(i, log);
    PtrBelow(q, i, log);
    PtrBelow(q, i + 1, log);
    PtrBelow(q + 1, i, log);
    PtrBelow(q + 1, i + 1, log);
    NextShl(q, log);
    if Low(i, log) == 0 && q > 0 {
      PtrBelow(q - 1, i, log);
      NextShl(q - 1, log);
    }
  }

  lemma NextShl(q: nat, log: nat)
    ensures Shl(q + 1, log) == Shl(q, log) + Pow2(log) && Pow2(log) > 0
  {
    ShlIsTimes(q + 1, log);
    ShlIsTimes(q, log);
    NextMultiple(q, Pow2(log));
  }

  lemma {:induction false} ShlOfZero(log: nat)
    ensures Shl(0, log) == 0
  {
    ShlIsTimes(0, log);
  }
}
