/** Posting lists with their score bounds, the cursors that run over them, and the exhaustive
    meaning of a query: which documents are offered to the queue, with which scores. */
module Postings {
  import opened SortedLists
  import opened Sums
  import opened TopK

  /** One query term: its posting list, the ranker's weight of each posting, and the bounds stored
      for pruning. `blockLast[b]` is the boundary docid of block b. */
  datatype Term = Term(
    docs: seq<nat>, weights: seq<real>, qWeight: real,
    maxTermWeight: real, maxDocWeight: real,
    blockLast: seq<nat>, blockMax: seq<real>)

  /** `docWeight[d]` is the document-only part of the ranker, added once per query term. */
  datatype Query = Query(numDocs: nat, docWeight: seq<real>, qLen: nat, terms: seq<Term>)

  /** The posting list itself is in order and weighted by non-negative numbers. */
  ghost predicate ListOk(q: Query, t: Term) {
    && Increasing(t.docs)
    && |t.weights| == |t.docs|
    && (forall i :: 0 <= i < |t.docs| ==> t.docs[i] < q.numDocs)
    && (forall i :: 0 <= i < |t.docs| ==> t.weights[i] >= 0.0)
    && t.qWeight >= 0.0
  }

  /** The list-wide bounds hold for every posting. */
  ghost predicate ListBoundsSound(q: Query, t: Term)
    requires ListOk(q, t) && |q.docWeight| == q.numDocs
  {
    && t.maxTermWeight >= 0.0
    && (forall i :: 0 <= i < |t.docs| ==> t.weights[i] <= t.maxTermWeight)
    && (forall i :: 0 <= i < |t.docs| ==> q.docWeight[t.docs[i]] <= t.maxDocWeight)
  }

  /** The block boundaries increase, the last one covers the list, and each block's maximum
      bounds the postings between the previous boundary and its own. */
  ghost predicate BlocksSound(docs: seq<nat>, weights: seq<real>, blockLast: seq<nat>, blockMax: seq<real>)
    requires |weights| == |docs|
  {
    && |blockLast| == |blockMax| >= 1
    && Increasing(blockLast)
    && (forall i :: 0 <= i < |docs| ==> docs[i] <= blockLast[|blockLast| - 1])
    && (forall b :: 0 <= b < |blockMax| ==> blockMax[b] >= 0.0)
    && (forall i, b :: 0 <= i < |docs| && 0 <= b < |blockLast| && WithinBlock(docs, blockLast, i, b)
          ==> weights[i] <= blockMax[b])
  }

  /** Posting i lies behind the boundary before block b's and not behind its own. */
  ghost predicate WithinBlock(docs: seq<nat>, blockLast: seq<nat>, i: nat, b: nat)
    requires i < |docs| && b < |blockLast|
  {
    docs[i] <= blockLast[b] && (b == 0 || blockLast[b - 1] < docs[i])
  }

  ghost predicate TermOk(q: Query, t: Term)
    requires |q.docWeight| == q.numDocs
  {
    ListOk(q, t) && ListBoundsSound(q, t)
  }

  ghost predicate QueryOk(q: Query) {
    && |q.docWeight| == q.numDocs
    && forall t <- q.terms :: TermOk(q, t)
  }

  /** What the block-max algorithms need on top. Docids and boundaries are 32-bit. */
  ghost predicate BlockQueryOk(q: Query) {
    && QueryOk(q)
    && q.numDocs < 0x1_0000_0000
    && forall t <- q.terms ::
         && BlocksSound(t.docs, t.weights, t.blockLast, t.blockMax)
         && forall b :: 0 <= b < |t.blockLast| ==> t.blockLast[b] < q.numDocs
  }

  /** What term t adds to the score of document d. */
  ghost function Contribution(t: Term, d: nat): real {
    var i := LowerBound(t.docs, d);
    if i < |t.docs| && i < |t.weights| && t.docs[i] == d then t.qWeight * t.weights[i] else 0.0
  }

  lemma ContributionAt(t: Term, i: nat)
    requires Increasing(t.docs) && i < |t.docs| == |t.weights|
    ensures Contribution(t, t.docs[i]) == t.qWeight * t.weights[i]
  {
    LowerBoundIsUnique(t.docs, t.docs[i], i);
  }

  lemma ContributionElsewhere(t: Term, d: nat)
    requires d !in t.docs
    ensures Contribution(t, d) == 0.0
  {}

  function ListMax(t: Term): real {
    t.qWeight * t.maxTermWeight
  }

  lemma ContributionBounded(q: Query, t: Term, d: nat)
    requires |q.docWeight| == q.numDocs && TermOk(q, t)
    ensures 0.0 <= Contribution(t, d) <= ListMax(t)
  {
    var i := LowerBound(t.docs, d);
    if i < |t.docs| {
      ProductMonotone(t.qWeight, t.weights[i], t.maxTermWeight);
      ProductMonotone(t.qWeight, 0.0, t.weights[i]);
    }
    ProductMonotone(t.qWeight, 0.0, t.maxTermWeight);
  }

  lemma ProductMonotone(w: real, x: real, y: real)
    requires w >= 0.0 && x <= y
    ensures w * x <= w * y
  {
    assert w * (y - x) >= 0.0;
  }

  // ----- the exhaustive meaning of a query -----

  ghost predicate Matches(q: Query, d: nat) {
    exists t <- q.terms :: d in t.docs
  }

  ghost function TermContribution(d: nat): Term -> real {
    (t: Term) => Contribution(t, d)
  }

  /** A document weight, counted once for every query term. */
  ghost function StaticBound(q: Query, m: real): real {
    q.qLen as real * m
  }

  lemma StaticBoundMonotone(q: Query, x: real, y: real)
    requires x <= y
    ensures StaticBound(q, x) <= StaticBound(q, y)
  {
    ProductMonotone(q.qLen as real, x, y);
  }

  ghost function StaticScore(q: Query, d: nat): real {
    if d < |q.docWeight| then StaticBound(q, q.docWeight[d]) else 0.0
  }

  ghost function FullScore(q: Query, d: nat): real {
    StaticScore(q, d) + SumBy(TermContribution(d), q.terms)
  }

  /** Every document below n that contains a query term, in docid order, with its full score. */
  ghost function Offers(q: Query, n: nat): seq<Entry> {
    if n == 0 then []
    else if Matches(q, n - 1) then Offers(q, n - 1) + [Entry(FullScore(q, n - 1), n - 1)]
    else Offers(q, n - 1)
  }

  /** The insertions the exhaustive loop gets accepted among documents below n. */
  ghost function AcceptedBelow(q: Query, k: nat, n: nat): seq<Entry> {
    Accepted(k, Offers(q, n))
  }

  ghost predicate Refused(q: Query, k: nat, log: seq<Entry>, d: nat) {
    !WouldEnter(k, log, FullScore(q, d))
  }

  lemma AcceptedStep(q: Query, k: nat, n: nat)
    ensures AcceptedBelow(q, k, n + 1) ==
            if Matches(q, n) && !Refused(q, k, AcceptedBelow(q, k, n), n)
            then AcceptedBelow(q, k, n) + [Entry(FullScore(q, n), n)]
            else AcceptedBelow(q, k, n)
  {
    var o := Offers(q, n);
    if Matches(q, n) {
      var e := Entry(FullScore(q, n), n);
      assert (o + [e])[..|o|] == o;
    }
  }

  /** A stretch of documents that are all refused adds nothing. */
  lemma {:induction false} RefusedStretch(q: Query, k: nat, log: seq<Entry>, lo: nat, hi: nat)
    requires lo <= hi && log == AcceptedBelow(q, k, lo)
    requires forall d :: lo <= d < hi && Matches(q, d) ==> Refused(q, k, log, d)
    ensures log == AcceptedBelow(q, k, hi)
  {
    if lo == hi {
    } else {
      RefusedStretch(q, k, log, lo, hi - 1);
      AcceptedStep(q, k, hi - 1);
    }
  }

  // ----- cursors as values -----

  datatype Cursor = Cursor(term: Term, pos: nat, block: nat)

  ghost function Docid(n: nat, c: Cursor): nat {
    if c.pos < |c.term.docs| then c.term.docs[c.pos] else n
  }

  ghost function Terms(cs: seq<Cursor>): seq<Term> {
    seq(|cs|, i requires 0 <= i < |cs| => cs[i].term)
  }

  /** The cursors of query q, in some order, none of which has passed a posting at or above f. */
  ghost predicate CursorsOf(q: Query, cs: seq<Cursor>, f: nat) {
    && multiset(Terms(cs)) == multiset(q.terms)
    && forall c <- cs :: NothingSkipped(c, f)
  }

  ghost predicate NothingSkipped(c: Cursor, f: nat) {
    c.pos <= |c.term.docs| && forall i :: 0 <= i < c.pos ==> c.term.docs[i] < f
  }

  ghost predicate SortedByDocid(n: nat, cs: seq<Cursor>) {
    forall i, j :: 0 <= i < j < |cs| ==> Docid(n, cs[i]) <= Docid(n, cs[j])
  }

  lemma CursorTermsOk(q: Query, cs: seq<Cursor>)
    requires QueryOk(q) && multiset(Terms(cs)) == multiset(q.terms)
    ensures forall c <- cs :: TermOk(q, c.term) && c.term in q.terms
  {
    forall c | c in cs
      ensures TermOk(q, c.term) && c.term in q.terms
    {
      var i :| 0 <= i < |cs| && cs[i] == c;
      assert Terms(cs)[i] in multiset(q.terms);
    }
  }

  ghost function CursorContribution(d: nat): Cursor -> real {
    (c: Cursor) => Contribution(c.term, d)
  }

  ghost function CursorListMax(): Cursor -> real {
    (c: Cursor) => ListMax(c.term)
  }

  lemma {:induction false} ScoreOverCursors(q: Query, cs: seq<Cursor>, d: nat)
    requires multiset(Terms(cs)) == multiset(q.terms)
    ensures FullScore(q, d) == StaticScore(q, d) + SumBy(CursorContribution(d), cs)
  {
    SumByPermutation(TermContribution(d), Terms(cs), q.terms);
    SumByImage(CursorContribution(d), TermContribution(d), cs, Terms(cs));
  }

  /** Some cursor stands at or before a matching document that has not been passed. */
  lemma MatchingCursor(q: Query, cs: seq<Cursor>, f: nat, d: nat) returns (c: Cursor)
    requires QueryOk(q) && CursorsOf(q, cs, f) && f <= d && Matches(q, d)
    ensures c in cs && d in c.term.docs && Docid(q.numDocs, c) <= d
    ensures d < q.numDocs && q.docWeight[d] <= c.term.maxDocWeight
  {
    var t :| t in q.terms && d in t.docs;
    assert t in multiset(Terms(cs));
    var i :| 0 <= i < |cs| && Terms(cs)[i] == t;
    c := cs[i];
    assert TermOk(q, t) && c.term == t && NothingSkipped(c, f);
    var j :| 0 <= j < |t.docs| && t.docs[j] == d;
    if c.pos < |t.docs| {
      OrderedIndices(t.docs, c.pos, j);
    }
  }

  /** A cursor beyond d adds nothing to d's score. */
  lemma BeyondAddsNothing(q: Query, c: Cursor, f: nat, d: nat)
    requires |q.docWeight| == q.numDocs && TermOk(q, c.term) && NothingSkipped(c, f) && f <= d < Docid(q.numDocs, c)
    ensures Contribution(c.term, d) == 0.0
  {
    forall j | 0 <= j < |c.term.docs| ensures c.term.docs[j] != d {
      if c.pos < |c.term.docs| {
        OrderedIndices(c.term.docs, c.pos, j);
      }
    }
    ContributionElsewhere(c.term, d);
  }

  /** A pointwise bound on the contributions, and a bound on the document weights of the cursors
      that can hold d, bound the score of d. */
  lemma {:induction false} ScoreBound(q: Query, cs: seq<Cursor>, f: nat, d: nat, m: real, bound: Cursor -> real)
    requires QueryOk(q) && CursorsOf(q, cs, f) && f <= d && Matches(q, d)
    requires forall c <- cs :: Docid(q.numDocs, c) <= d ==> c.term.maxDocWeight <= m
    requires forall c <- cs :: Contribution(c.term, d) <= bound(c)
    ensures FullScore(q, d) <= StaticBound(q, m) + SumBy(bound, cs)
  {
    var c := MatchingCursor(q, cs, f, d);
    assert StaticScore(q, d) <= StaticBound(q, m) by {
      StaticBoundMonotone(q, q.docWeight[d], m);
    }
    assert FullScore(q, d) == StaticScore(q, d) + SumBy(CursorContribution(d), cs) by {
      ScoreOverCursors(q, cs, d);
    }
    SumByMonotone(CursorContribution(d), bound, cs);
  }

  lemma AntitoneRefusal(k: nat, log: seq<Entry>, low: real, high: real)
    requires low <= high && !WouldEnter(k, log, high)
    ensures !WouldEnter(k, log, low)
  {}
}
