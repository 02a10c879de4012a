/** What the specification of a query says in terms of its parts. */
module ScoreMeaning {
  import opened Postings
  import opened SortedLists
  import opened Sums
  import opened TopK

  /** A document's score: its own weight once for every query term, and what each list with it adds. */
  lemma ScoreIs(q: Query, d: nat)
    requires d < |q.docWeight|
    ensures FullScore(q, d) == q.qLen as real * q.docWeight[d] + SumBy(TermContribution(d), q.terms)
  {}

  /** What a list adds: the query's weight times the posting's, if it has the document. */
  lemma AddedByList(t: Term, d: nat, i: nat)
    requires Increasing(t.docs) && |t.weights| == |t.docs| && i < |t.docs|
    ensures t.docs[i] == d ==> TermContribution(d)(t) == t.qWeight * t.weights[i]
    ensures d !in t.docs ==> TermContribution(d)(t) == 0.0
  {
    if t.docs[i] == d { ContributionAt(t, i); }
    if d !in t.docs { ContributionElsewhere(t, d); }
  }

  lemma {:induction false} SumIs<X(!new)>(f: X -> real, s: seq<X>, x: X)
    ensures SumBy(f, []) == 0.0 && SumBy(f, s + [x]) == SumBy(f, s) + f(x)
  {
    SumByAppend(f, s, x);
  }

  /** The offers are the documents that some list has, each once, in order, with their scores. */
  lemma {:induction false} OffersAre(q: Query, n: nat)
    ensures forall i, j :: 0 <= i < j < |Offers(q, n)| ==> Offers(q, n)[i].docid < Offers(q, n)[j].docid
    ensures forall i :: 0 <= i < |Offers(q, n)| ==> OfferIs(q, n, Offers(q, n)[i])
    ensures forall d, t :: 0 <= d < n && t in q.terms && d in t.docs ==> Entry(FullScore(q, d), d) in Offers(q, n)
  {
    hide FullScore;
    if n == 0 {
    } else {
      OffersAre(q, n - 1);
      var rest := Offers(q, n - 1);
      forall i | 0 <= i < |rest| ensures OfferIs(q, n, rest[i]) {
        assert OfferIs(q, n - 1, rest[i]);
      }
    }
  }

  ghost predicate OfferIs(q: Query, n: nat, e: Entry) {
    e.docid < n && e.score == FullScore(q, e.docid) && exists t :: t in q.terms && e.docid in t.docs
  }

  /** The accepted insertions: every offer is let in or not by the ones let in before it. */
  lemma {:induction false} AcceptedIs(q: Query, k: nat, n: nat)
    ensures AcceptedBelow(q, k, 0) == []
    ensures AcceptedBelow(q, k, n + 1)
         == var log := AcceptedBelow(q, k, n); var e := Entry(FullScore(q, n), n);
            if Matches(q, n) && multiset(Best(k, log + [e])) != multiset(Best(k, log)) then log + [e] else log
  {
    var log, e := AcceptedBelow(q, k, n), Entry(FullScore(q, n), n);
    AcceptedStep(q, k, n);
    EntersIffChanges(k, log, e);
  }

  /** Equal scores: the first k documents of the largest score are let in, and no later one of that score. */
  lemma {:induction false} TieIsRefused(k: nat, offers: seq<Entry>, e: Entry)
    requires k > 0 && |Best(k, offers)| == k && e.score == Best(k, offers)[0]
    ensures !WouldEnter(k, offers, e.score) && Accepted(k, offers + [e]) == Accepted(k, offers)
  {
    AcceptedKeepsBest(k, offers);
    AcceptedAfter(k, offers, e);
  }
}
