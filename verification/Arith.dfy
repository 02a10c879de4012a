/** Division by a variable and powers of two. */
module Arith {

  lemma MulMonotone(a: nat, b: nat, n: nat)
    requires a <= b
    ensures a * n <= b * n
  {
    assert (b - a) * n >= 0;
  }

  lemma DivisionRange(x: nat, n: nat)
    requires n > 0
    ensures (x / n) * n <= x < (x / n + 1) * n && x % n == x - (x / n) * n
  {}

  /** The quotient is the only number whose multiple is the last at or below x. */
  lemma DivUnique(x: nat, n: nat, q: nat)
    requires n > 0 && q * n <= x < (q + 1) * n
    ensures x / n == q && x % n == x - q * n
  {
    var d := x / n;
    DivisionRange(x, n);
    if d < q {
      MulMonotone(d + 1, q, n);
    }
    if q < d {
      MulMonotone(q + 1, d, n);
    }
  }

  function Pow2(e: nat): (p: nat)
    ensures p > 0
  {
    if e == 0 then 1 else 2 * Pow2(e - 1)
  }

  lemma {:induction false} Pow2Adds(a: nat, b: nat)
    ensures Pow2(a + b) == Pow2(a) * Pow2(b)
  {
    if a == 0 {
    } else {
      Pow2Adds(a - 1, b);
      assert Pow2(a + b) == 2 * Pow2(a - 1 + b);
    }
  }

  lemma {:induction false} Pow2Monotone(a: nat, b: nat)
    requires a <= b
    ensures Pow2(a) <= Pow2(b)
  {
    if a == b {
    } else {
      Pow2Monotone(a, b - 1);
    }
  }

  function CeilDiv(n: nat, d: nat): nat
    requires d > 0
  {
    (n + d - 1) / d
  }

  /** The multiples of d below n are those of the numbers below the rounded-up quotient. */
  lemma BelowCeilDiv(q: nat, n: nat, d: nat)
    requires d > 0
    ensures q < CeilDiv(n, d) <==> q * d < n
  {
    var c := CeilDiv(n, d);
    DivisionRange(n + d - 1, d);
    if q < c {
      MulMonotone(q + 1, c, d);
    } else {
      MulMonotone(c, q, d);
    }
  }

  /** The i-th of n fields of the given size ends inside the stretch of all of them. */
  lemma FieldInside(i: nat, n: nat, size: nat)
    requires i < n
    ensures i * size + size <= n * size
  {
    MulMonotone(i + 1, n, size);
  }
}
