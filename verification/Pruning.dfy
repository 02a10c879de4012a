/** Why documents may be passed over: upper bounds of the cursors that stand before them. */
module Pruning {
  import opened Sums
  import opened TopK
  import opened Postings
  import opened SortedLists
  import opened ScoredEnums
  import opened CursorSteps
  import Multisets

  function MaxOf(x: real, y: real): real {
    if x < y then y else x
  }

  /** The largest stored document weight among the cursors' lists. */
  ghost function StaticMax(cs: seq<Cursor>): real
    requires cs != []
  {
    var last := cs[|cs| - 1].term.maxDocWeight;
    if |cs| == 1 then last else MaxOf(StaticMax(cs[..|cs| - 1]), last)
  }

  lemma {:induction false} StaticMaxBounds(cs: seq<Cursor>)
    requires cs != []
    ensures forall c <- cs :: c.term.maxDocWeight <= StaticMax(cs)
    ensures exists c <- cs :: c.term.maxDocWeight == StaticMax(cs)
  {
    var rest, last := cs[..|cs| - 1], cs[|cs| - 1];
    assert cs == rest + [last];
    assert last in cs;
    if rest == [] {
    } else {
      StaticMaxBounds(rest);
    }
  }

  lemma StaticMaxStep(cs: seq<Cursor>, i: nat)
    requires 0 < i < |cs|
    ensures StaticMax(cs[..i + 1]) == MaxOf(StaticMax(cs[..i]), cs[i].term.maxDocWeight)
  {
    assert cs[..i + 1][..i] == cs[..i];
  }

  /** The bound on any document whose terms are all among the given cursors' lists. */
  ghost function PrefixBound(q: Query, cs: seq<Cursor>): real
    requires cs != []
  {
    StaticBound(q, StaticMax(cs)) + SumBy(CursorListMax(), cs)
  }

  ghost predicate Enters(q: Query, k: nat, log: seq<Entry>, cs: seq<Cursor>) {
    cs != [] && WouldEnter(k, log, PrefixBound(q, cs))
  }

  ghost function ListMassBelow(n: nat, f: nat): Cursor -> real {
    (c: Cursor) => if Docid(n, c) < f then ListMax(c.term) else 0.0
  }

  /** The lists whose cursors stand before f cannot together lift a document into the queue;
      m bounds the document weights they can bring. */
  ghost predicate LowDead(q: Query, k: nat, cs: seq<Cursor>, log: seq<Entry>, f: nat, m: real) {
    || (forall c <- cs :: Docid(q.numDocs, c) >= f)
    || (&& (forall c <- cs :: Docid(q.numDocs, c) < f ==> c.term.maxDocWeight <= m)
        && !WouldEnter(k, log, StaticBound(q, m) + SumBy(ListMassBelow(q.numDocs, f), cs)))
  }

  lemma ListMassNonNegative(q: Query, cs: seq<Cursor>)
    requires QueryOk(q) && (forall c <- cs :: TermOk(q, c.term))
    ensures forall c <- cs :: ListMax(c.term) >= 0.0
  {
    forall c | c in cs ensures ListMax(c.term) >= 0.0 {
      ProductMonotone(c.term.qWeight, 0.0, c.term.maxTermWeight);
    }
  }

  /** The bound of a prefix that stands before f is part of the bound of everything before f. */
  lemma {:induction false} PrefixWithinLow(q: Query, cs: seq<Cursor>, f: nat, m: real, p: nat)
    requires QueryOk(q) && p < |cs| && (forall c <- cs :: TermOk(q, c.term))
    requires forall i :: 0 <= i <= p ==> Docid(q.numDocs, cs[i]) < f
    requires forall c <- cs :: Docid(q.numDocs, c) < f ==> c.term.maxDocWeight <= m
    ensures PrefixBound(q, cs[..p + 1]) <= StaticBound(q, m) + SumBy(ListMassBelow(q.numDocs, f), cs)
  {
    hide QueryOk, TermOk, StaticBound;
    var a, b := cs[..p + 1], cs[p + 1..];
    var g := ListMassBelow(q.numDocs, f);
    assert cs == a + b;
    assert StaticBound(q, StaticMax(a)) <= StaticBound(q, m) by {
      StaticMaxBounds(a);
      var c :| c in a && c.term.maxDocWeight == StaticMax(a);
      assert c in cs;
      StaticBoundMonotone(q, StaticMax(a), m);
    }
    assert SumBy(CursorListMax(), a) <= SumBy(g, cs) by {
      ListMassNonNegative(q, cs);
      SumByMonotone(CursorListMax(), g, a);
      SumByNonNegative(g, b);
      SumByConcat(g, a, b);
    }
  }

  /** A prefix whose bound enters cannot end before f. */
  lemma PivotNotBelow(q: Query, k: nat, cs: seq<Cursor>, log: seq<Entry>, f: nat, m: real, p: nat)
    requires QueryOk(q) && multiset(Terms(cs)) == multiset(q.terms) && p < |cs|
    requires SortedByDocid(q.numDocs, cs) && LowDead(q, k, cs, log, f, m)
    requires Enters(q, k, log, cs[..p + 1])
    ensures f <= Docid(q.numDocs, cs[p])
  {
    CursorTermsOk(q, cs);
    if Docid(q.numDocs, cs[p]) < f {
      forall i | 0 <= i <= p ensures Docid(q.numDocs, cs[i]) < f {
        if i < p { assert Docid(q.numDocs, cs[i]) <= Docid(q.numDocs, cs[p]); }
      }
      assert cs[p] in cs;
      PrefixWithinLow(q, cs, f, m, p);
    }
  }

  ghost function BoundOrZero(cs: seq<Cursor>): real {
    if cs == [] then 0.0 else StaticMax(cs)
  }

  lemma LowInPrefix(n: nat, cs: seq<Cursor>, p: nat, f: nat)
    requires p <= |cs| && forall i :: p <= i < |cs| ==> Docid(n, cs[i]) >= f
    ensures forall c <- cs :: Docid(n, c) < f ==> c in cs[..p]
  {
    forall c <- cs | Docid(n, c) < f
      ensures c in cs[..p]
    {
      var i :| 0 <= i < |cs| && cs[i] == c;
      assert cs[..p][i] == c;
    }
  }

  /** The lists standing before f are all in the prefix. */
  lemma {:induction false} MassInPrefix(q: Query, cs: seq<Cursor>, p: nat, f: nat)
    requires QueryOk(q) && multiset(Terms(cs)) == multiset(q.terms) && p <= |cs|
    requires forall i :: p <= i < |cs| ==> Docid(q.numDocs, cs[i]) >= f
    ensures SumBy(ListMassBelow(q.numDocs, f), cs) <= SumBy(CursorListMax(), cs[..p])
  {
    CursorTermsOk(q, cs);
    hide QueryOk, TermOk, Terms, SumBy;
    var a, b := cs[..p], cs[p..];
    var g := ListMassBelow(q.numDocs, f);
    assert cs == a + b;
    ListMassNonNegative(q, cs);
    SumByMonotone(g, CursorListMax(), a);
    SumByConcat(g, a, b);
    SumOfZeros(g, b);
  }

  /** If a prefix's bound does not enter and everything after it stands at or beyond f, f is dead. */
  lemma PrefixDead(q: Query, k: nat, cs: seq<Cursor>, log: seq<Entry>, p: nat, f: nat)
    requires QueryOk(q) && multiset(Terms(cs)) == multiset(q.terms) && p <= |cs|
    requires !Enters(q, k, log, cs[..p])
    requires forall i :: p <= i < |cs| ==> Docid(q.numDocs, cs[i]) >= f
    ensures LowDead(q, k, cs, log, f, BoundOrZero(cs[..p]))
  {
    hide QueryOk, TermOk, WouldEnter, StaticBound, Terms, SumBy;
    if p > 0 {
      var a := cs[..p];
      var g := ListMassBelow(q.numDocs, f);
      MassInPrefix(q, cs, p, f);
      assert forall c <- cs :: Docid(q.numDocs, c) < f ==> c.term.maxDocWeight <= StaticMax(a) by {
        StaticMaxBounds(a);
        LowInPrefix(q.numDocs, cs, p, f);
      }
      AntitoneRefusal(k, log, StaticBound(q, StaticMax(a)) + SumBy(g, cs), PrefixBound(q, a));
    }
  }

  lemma {:induction false} SumOfZeros(g: Cursor -> real, cs: seq<Cursor>)
    requires forall i :: 0 <= i < |cs| ==> g(cs[i]) == 0.0
    ensures SumBy(g, cs) == 0.0
  {
    if cs == [] {
    } else {
      SumOfZeros(g, cs[1..]);
    }
  }

  /** Documents before a dead frontier that no cursor has passed are all refused. */
  lemma LowDeadRefuses(q: Query, k: nat, cs: seq<Cursor>, log: seq<Entry>, f: nat, hi: nat, m: real)
    requires QueryOk(q) && CursorsOf(q, cs, f) && LowDead(q, k, cs, log, hi, m)
    ensures forall d :: f <= d < hi && Matches(q, d) ==> Refused(q, k, log, d)
  {
    forall d | f <= d < hi && Matches(q, d) ensures Refused(q, k, log, d) {
      var c := MatchingCursor(q, cs, f, d);
      LowMassBounds(q, cs, f, hi, d);
      ScoreBound(q, cs, f, d, m, ListMassBelow(q.numDocs, hi));
      AntitoneRefusal(k, log, FullScore(q, d), StaticBound(q, m) + SumBy(ListMassBelow(q.numDocs, hi), cs));
    }
  }

  lemma LowMassBounds(q: Query, cs: seq<Cursor>, f: nat, hi: nat, d: nat)
    requires QueryOk(q) && CursorsOf(q, cs, f) && f <= d < hi
    ensures forall c <- cs :: Contribution(c.term, d) <= ListMassBelow(q.numDocs, hi)(c)
  {
    CursorTermsOk(q, cs);
    forall c | c in cs ensures Contribution(c.term, d) <= ListMassBelow(q.numDocs, hi)(c) {
      ContributionBounded(q, c.term, d);
      if Docid(q.numDocs, c) >= hi {
        BeyondAddsNothing(q, c, f, d);
      }
    }
  }

  /** Moving one cursor forward keeps a dead frontier dead. */
  lemma LowDeadAfterMove(q: Query, k: nat, cs: seq<Cursor>, log: seq<Entry>, f: nat, m: real, j: nat, c: Cursor)
    requires QueryOk(q) && multiset(Terms(cs)) == multiset(q.terms) && j < |cs|
    requires LowDead(q, k, cs, log, f, m)
    requires c.term == cs[j].term && Docid(q.numDocs, c) >= Docid(q.numDocs, cs[j])
    ensures LowDead(q, k, cs[j := c], log, f, m)
  {
    CursorTermsOk(q, cs);
    var g := ListMassBelow(q.numDocs, f);
    ListMassNonNegative(q, cs);
    SumByUpdate(g, cs, j, c);
    assert cs[j] in cs;
    assert forall x <- cs[j := c] :: x in cs || x == c;
    if exists x <- cs[j := c] :: Docid(q.numDocs, x) < f {
      assert g(c) <= g(cs[j]);
      if Docid(q.numDocs, cs[j]) >= f {
        var x :| x in cs[j := c] && Docid(q.numDocs, x) < f;
        assert x in cs;
      }
      AntitoneRefusal(k, log, StaticBound(q, m) + SumBy(g, cs[j := c]), StaticBound(q, m) + SumBy(g, cs));
    }
  }

  lemma LowDeadOfPermutation(q: Query, k: nat, a: seq<Cursor>, b: seq<Cursor>, log: seq<Entry>, f: nat, m: real)
    requires multiset(a) == multiset(b) && LowDead(q, k, a, log, f, m)
    ensures LowDead(q, k, b, log, f, m)
  {
    SumByPermutation(ListMassBelow(q.numDocs, f), a, b);
    assert forall x :: x in b ==> x in multiset(b);
    assert forall x :: x in multiset(a) ==> x in a;
  }

  lemma CursorsOfPermutation(q: Query, a: seq<Cursor>, b: seq<Cursor>, f: nat)
    requires multiset(a) == multiset(b) && CursorsOf(q, a, f)
    ensures CursorsOf(q, b, f)
  {
    TermsOfPermutation(a, b);
    assert forall x :: x in b ==> x in multiset(b);
    assert forall x :: x in multiset(a) ==> x in a;
  }

  lemma {:induction false} TermsOfPermutation(a: seq<Cursor>, b: seq<Cursor>)
    requires multiset(a) == multiset(b)
    ensures multiset(Terms(a)) == multiset(Terms(b))
    decreases |a|
  {
    if a == [] {
      assert |b| == |multiset(b)| == 0;
    } else {
      var j := Multisets.Match(a, b);
      var c := b[..j] + b[j + 1..];
      TermsOfPermutation(a[1..], c);
      assert Terms(a)[1..] == Terms(a[1..]);
      assert Terms(b)[..j] + Terms(b)[j + 1..] == Terms(c);
      Multisets.OfTail(Terms(a));
      Multisets.OfRemoval(Terms(b), j);
    }
  }

  /** Advancing a cursor passes only postings below the bound it is sent to. */
  lemma AdvancedCursor(q: Query, c: Cursor, lowerBound: nat, f: nat)
    requires |q.docWeight| == q.numDocs && TermOk(q, c.term) && NothingSkipped(c, f)
    ensures NothingSkipped(Advanced(c, lowerBound), if f < lowerBound then lowerBound else f)
    ensures Docid(q.numDocs, Advanced(c, lowerBound)) >= Docid(q.numDocs, c)
    ensures Docid(q.numDocs, Advanced(c, lowerBound)) >= lowerBound || Docid(q.numDocs, Advanced(c, lowerBound)) == q.numDocs
  {
    var l := LowerBound(c.term.docs, lowerBound);
    var a := Advanced(c, lowerBound);
    if a.pos < |c.term.docs| {
      OrderedAgainstBound(c.term.docs, lowerBound, a.pos);
      if c.pos < |c.term.docs| {
        OrderedIndices(c.term.docs, c.pos, a.pos);
      }
    }
  }

  lemma AdvanceOne(q: Query, cs: seq<Cursor>, f: nat, j: nat, lowerBound: nat)
    requires QueryOk(q) && CursorsOf(q, cs, f) && j < |cs|
    ensures CursorsOf(q, cs[j := Advanced(cs[j], lowerBound)], if f < lowerBound then lowerBound else f)
  {
    var after := cs[j := Advanced(cs[j], lowerBound)];
    assert Terms(after) == Terms(cs);
    CursorTermsOk(q, cs);
    assert cs[j] in cs;
    AdvancedCursor(q, cs[j], lowerBound, f);
    assert forall c <- after :: c in cs || c == Advanced(cs[j], lowerBound);
  }

  // ----- what makes the loops stop -----

  ghost function Left(): Cursor -> real {
    (c: Cursor) => if c.pos < |c.term.docs| then (|c.term.docs| - c.pos) as real else 0.0
  }

  /** The number of postings not yet passed. */
  ghost function Remaining(cs: seq<Cursor>): (r: real)
    ensures r >= 0.0
  {
    SumByNonNegative(Left(), cs);
    SumBy(Left(), cs)
  }

  lemma RemainingAfterMove(q: Query, cs: seq<Cursor>, j: nat, lowerBound: nat)
    requires QueryOk(q) && multiset(Terms(cs)) == multiset(q.terms) && j < |cs|
    requires Docid(q.numDocs, cs[j]) < lowerBound && Docid(q.numDocs, cs[j]) < q.numDocs
    ensures Remaining(cs[j := Advanced(cs[j], lowerBound)]) <= Remaining(cs) - 1.0
  {
    CursorTermsOk(q, cs);
    assert cs[j] in cs;
    OrderedAgainstBound(cs[j].term.docs, lowerBound, cs[j].pos);
    SumByUpdate(Left(), cs, j, Advanced(cs[j], lowerBound));
  }

  lemma RemainingOfPermutation(a: seq<Cursor>, b: seq<Cursor>)
    requires multiset(a) == multiset(b)
    ensures Remaining(a) == Remaining(b)
  {
    SumByPermutation(Left(), a, b);
  }

  lemma {:induction false} StepAllLeft(n: nat, d: nat, cs: seq<Cursor>)
    ensures SumBy(Left(), StepAll(n, d, cs)) <= SumBy(Left(), cs)
  {
    if cs == [] {
    } else {
      assert StepAll(n, d, cs)[1..] == StepAll(n, d, cs[1..]);
      StepAllLeft(n, d, cs[1..]);
    }
  }

  lemma RemainingAfterStep(n: nat, d: nat, cs: seq<Cursor>)
    requires cs != [] && Docid(n, cs[0]) == d < n
    ensures Remaining(StepAll(n, d, cs)) <= Remaining(cs) - 1.0
  {
    assert StepAll(n, d, cs)[1..] == StepAll(n, d, cs[1..]);
    StepAllLeft(n, d, cs[1..]);
  }
}
