/** The multiset of a sequence under the cuts the proofs make. */
module Multisets {

  lemma OfRemoval<X>(s: seq<X>, j: nat)
    requires j < |s|
    ensures multiset(s[..j] + s[j + 1..]) == multiset(s) - multiset{s[j]}
    ensures multiset(s) == multiset(s[..j] + s[j + 1..]) + multiset{s[j]}
  {
    assert s == (s[..j] + [s[j]]) + s[j + 1..];
    var a, b := multiset(s[..j]), multiset(s[j + 1..]);
    assert multiset(s) == (a + multiset{s[j]}) + b;
    assert (a + multiset{s[j]}) + b == (a + b) + multiset{s[j]};
  }

  lemma OfTail<X>(s: seq<X>)
    requires s != []
    ensures multiset(s[1..]) == multiset(s) - multiset{s[0]}
    ensures multiset(s) == multiset(s[1..]) + multiset{s[0]}
  {
    OfRemoval(s, 0);
    assert s[..0] + s[1..] == s[1..];
  }

  lemma OfInit<X>(s: seq<X>)
    requires s != []
    ensures multiset(s[..|s| - 1]) == multiset(s) - multiset{s[|s| - 1]}
    ensures multiset(s) == multiset(s[..|s| - 1]) + multiset{s[|s| - 1]}
  {
    OfRemoval(s, |s| - 1);
    assert s[..|s| - 1] + s[|s|..] == s[..|s| - 1];
  }

  lemma OfInsertion<X>(s: seq<X>, j: nat, x: X)
    requires j <= |s|
    ensures multiset(s[..j] + [x] + s[j..]) == multiset(s) + multiset{x}
  {
    var t := s[..j] + [x] + s[j..];
    OfRemoval(t, j);
    assert t[..j] + t[j + 1..] == s;
  }

  lemma OfSwap<X>(s: seq<X>, i: nat, j: nat)
    requires i < |s| && j < |s|
    ensures multiset(s[i := s[j]][j := s[i]]) == multiset(s)
  {}

  /** The first element of one order has a place in any other; taking both out leaves orders of the same rest. */
  lemma Match<X>(a: seq<X>, b: seq<X>) returns (j: nat)
    requires a != [] && multiset(a) == multiset(b)
    ensures j < |b| && b[j] == a[0]
    ensures multiset(a[1..]) == multiset(b[..j] + b[j + 1..])
    ensures |a| == |b|
  {
    assert |a| == |multiset(a)| == |multiset(b)| == |b|;
    assert a[0] in multiset(b);
    j :| 0 <= j < |b| && b[j] == a[0];
    OfTail(a);
    OfRemoval(b, j);
  }
}
