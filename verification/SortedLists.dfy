/** Sorted lists of numbers and where a bound falls in them. */
module SortedLists {
  ghost predicate Increasing(s: seq<nat>) {
    forall i, j :: 0 <= i < j < |s| ==> s[i] < s[j]
  }

  /** The position of the first posting with docid at least d. */
  ghost function LowerBound(docs: seq<nat>, d: nat): (i: nat)
    ensures i <= |docs|
    ensures forall j :: 0 <= j < i ==> docs[j] < d
    ensures i < |docs| ==> docs[i] >= d
  {
    if docs == [] || docs[0] >= d then 0 else 1 + LowerBound(docs[1..], d)
  }

  lemma {:induction false} LowerBoundIsUnique(docs: seq<nat>, d: nat, i: nat)
    requires i <= |docs|
    requires forall j :: 0 <= j < i ==> docs[j] < d
    requires i < |docs| ==> docs[i] >= d
    ensures i == LowerBound(docs, d)
  {
    var l := LowerBound(docs, d);
    assert l < |docs| ==> docs[l] >= d;
    assert i < |docs| ==> docs[i] >= d;
  }

  lemma OrderedIndices(s: seq<nat>, i: nat, j: nat)
    requires Increasing(s) && i < |s| && j < |s|
    ensures s[i] < s[j] <==> i < j
  {}

  ghost predicate NonDecreasing(s: seq<nat>) {
    forall i, j :: 0 <= i <= j < |s| ==> s[i] <= s[j]
  }

  lemma {:induction false} FirstMatchIs(s: seq<nat>, b: nat, i: nat)
    requires NonDecreasing(s) && i <= |s|
    requires i > 0 ==> s[i - 1] < b
    requires i < |s| ==> s[i] >= b
    ensures i == LowerBound(s, b)
  {
    var l := LowerBound(s, b);
  }

  /** The element at a position; behind the last one stands the universe. */
  function ElementAt(s: seq<nat>, universe: nat, i: nat): nat {
    if i < |s| then s[i] else universe
  }

  ghost predicate AllBelow(vals: seq<nat>, universe: nat) {
    forall i :: 0 <= i < |vals| ==> vals[i] < universe
  }

  /** A position is the first match for its own value. */
  lemma {:induction false} StaysPut(s: seq<nat>, universe: nat, p: nat)
    requires Increasing(s) && AllBelow(s, universe) && p <= |s|
    ensures LowerBound(s, ElementAt(s, universe, p)) == p
  {
    LowerBoundIsUnique(s, ElementAt(s, universe, p), p);
  }
}
