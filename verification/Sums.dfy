/** Sums of a real-valued function over a sequence, independent of the sequence's order. */
module Sums {
  import Multisets

  ghost function SumBy<X(!new)>(f: X -> real, s: seq<X>): real {
    if s == [] then 0.0 else f(s[0]) + SumBy(f, s[1..])
  }

  lemma {:induction false} SumByConcat<X(!new)>(f: X -> real, a: seq<X>, b: seq<X>)
    ensures SumBy(f, a + b) == SumBy(f, a) + SumBy(f, b)
  {
    if a == [] {
      assert a + b == b;
    } else {
      assert (a + b)[1..] == a[1..] + b;
      SumByConcat(f, a[1..], b);
    }
  }

  lemma {:induction false} SumByAppend<X(!new)>(f: X -> real, s: seq<X>, x: X)
    ensures SumBy(f, s + [x]) == SumBy(f, s) + f(x)
  {
    SumByConcat(f, s, [x]);
    assert [x][1..] == [];
  }

  lemma {:induction false} SumBySplitAt<X(!new)>(f: X -> real, s: seq<X>, i: nat)
    requires i < |s|
    ensures SumBy(f, s) == SumBy(f, s[..i]) + f(s[i]) + SumBy(f, s[i + 1..])
    ensures SumBy(f, s[..i + 1]) == SumBy(f, s[..i]) + f(s[i])
  {
    assert s == s[..i + 1] + s[i + 1..];
    assert s[..i + 1] == s[..i] + [s[i]];
    SumByConcat(f, s[..i + 1], s[i + 1..]);
    SumByAppend(f, s[..i], s[i]);
  }

  lemma SumByUpdate<X(!new)>(f: X -> real, s: seq<X>, i: nat, x: X)
    requires i < |s|
    ensures SumBy(f, s[i := x]) == SumBy(f, s) - f(s[i]) + f(x)
  {
    var t := s[i := x];
    SumBySplitAt(f, s, i);
    SumBySplitAt(f, t, i);
    assert t[..i] == s[..i] && t[i + 1..] == s[i + 1..];
  }

  /** A pointwise smaller function has a smaller sum. */
  lemma {:induction false} SumByMonotone<X(!new)>(f: X -> real, g: X -> real, s: seq<X>)
    requires forall x <- s :: f(x) <= g(x)
    ensures SumBy(f, s) <= SumBy(g, s)
  {
    if s == [] {
    } else {
      assert s[0] in s;
      assert forall x <- s[1..] :: x in s;
      SumByMonotone(f, g, s[1..]);
    }
  }

  lemma {:induction false} SumByNonNegative<X(!new)>(f: X -> real, s: seq<X>)
    requires forall x <- s :: f(x) >= 0.0
    ensures SumBy(f, s) >= 0.0
  {
    if s == [] {
    } else {
      assert s[0] in s;
      assert forall x <- s[1..] :: x in s;
      SumByNonNegative(f, s[1..]);
    }
  }

  /** Two orders of the same elements have the same sum. */
  lemma {:induction false} SumByPermutation<X(!new)>(f: X -> real, a: seq<X>, b: seq<X>)
    requires multiset(a) == multiset(b)
    ensures SumBy(f, a) == SumBy(f, b)
    decreases |a|
  {
    if a == [] {
      assert |b| == |multiset(b)| == 0;
    } else {
      var j := Multisets.Match(a, b);
      var c := b[..j] + b[j + 1..];
      SumByPermutation(f, a[1..], c);
      SumByConcat(f, b[..j], b[j + 1..]);
      SumBySplitAt(f, b, j);
    }
  }

  /** Summing over the image of a map of elements is summing the composition. */
  lemma {:induction false} SumByImage<X(!new), Y(!new)>(f: X -> real, g: Y -> real, a: seq<X>, b: seq<Y>)
    requires |a| == |b| && forall i :: 0 <= i < |a| ==> f(a[i]) == g(b[i])
    ensures SumBy(f, a) == SumBy(g, b)
  {
    if a == [] {
    } else {
      SumByImage(f, g, a[1..], b[1..]);
    }
  }
}
