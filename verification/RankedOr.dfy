/** `ranked_or_query`: every matching document is scored and offered, in docid order. */
module RankedOr {
  import opened Sums
  import opened TopK
  import opened TopKQueues
  import opened Postings
  import opened ScoredEnums
  import opened CursorSteps

  ghost function LeastDocid(n: nat, cs: seq<Cursor>): nat {
    if cs == [] then n
    else
      var rest := LeastDocid(n, cs[..|cs| - 1]);
      var last := Docid(n, cs[|cs| - 1]);
      if last < rest then last else rest
  }

  lemma {:induction false} LeastDocidIsLeast(n: nat, cs: seq<Cursor>)
    ensures LeastDocid(n, cs) <= n && AllFrom(n, cs, LeastDocid(n, cs))
    ensures LeastDocid(n, cs) < n ==> exists c <- cs :: Docid(n, c) == LeastDocid(n, cs)
  {
    if cs == [] {
    } else {
      var rest := cs[..|cs| - 1];
      LeastDocidIsLeast(n, rest);
      assert cs == rest + [cs[|cs| - 1]];
    }
  }

  /** The least docid on show is the next document, if it is not the end. */
  lemma {:induction false} NextDocument(q: Query, cs: seq<Cursor>, f: nat)
    requires QueryOk(q) && CursorsOf(q, cs, f) && AllFrom(q.numDocs, cs, f) && f <= q.numDocs
    ensures f <= LeastDocid(q.numDocs, cs) <= q.numDocs
    ensures CursorsOf(q, cs, LeastDocid(q.numDocs, cs)) && AllFrom(q.numDocs, cs, LeastDocid(q.numDocs, cs))
    ensures forall d :: f <= d < LeastDocid(q.numDocs, cs) ==> !Matches(q, d)
    ensures LeastDocid(q.numDocs, cs) < q.numDocs ==> Matches(q, LeastDocid(q.numDocs, cs))
  {
    var next := LeastDocid(q.numDocs, cs);
    LeastDocidIsLeast(q.numDocs, cs);
    CursorTermsOk(q, cs);
    if next < q.numDocs {
      var c :| c in cs && Docid(q.numDocs, c) == next;
      assert next in c.term.docs;
    }
    NothingBetween(q, cs, f, next);
  }

  /** `min_element` over the enumerators, by docid. */
  method MinDocid(es: seq<ScoredEnum>, numDocs: nat, ghost cs: seq<Cursor>) returns (d: nat)
    requires Shows(numDocs, es, cs)
    ensures d == LeastDocid(numDocs, cs)
  {
    d := numDocs;
    for i := 0 to |es|
      invariant d == LeastDocid(numDocs, cs[..i])
    {
      assert cs[..i + 1][..i] == cs[..i];
      if es[i].Docid() < d { d := es[i].Docid(); }
    }
    assert cs[..|es|] == cs;
  }

  /** Scores `curDoc` in every list, passing its postings, and finds the least docid then on show. */
  method ScoreAll(q: Query, es: seq<ScoredEnum>, curDoc: nat, ghost cs: seq<Cursor>) returns (score: real, nextDoc: nat)
    requires QueryOk(q) && Shows(q.numDocs, es, cs) && CursorsOf(q, cs, curDoc)
    requires AllFrom(q.numDocs, cs, curDoc) && curDoc < q.numDocs
    modifies es
    ensures Shows(q.numDocs, es, StepAll(q.numDocs, curDoc, cs))
    ensures score == StaticScore(q, curDoc) + SumBy(CursorContribution(curDoc), cs)
    ensures nextDoc == LeastDocid(q.numDocs, StepAll(q.numDocs, curDoc, cs))
  {
    ghost var stepped := StepAll(q.numDocs, curDoc, cs);
    ghost var now := cs;
    score := q.docWeight[curDoc] * q.qLen as real;
    nextDoc := q.numDocs;
    for i := 0 to |es|
      invariant |now| == |cs| && Shows(q.numDocs, es, now)
      invariant now[..i] == stepped[..i] && now[i..] == cs[i..]
      invariant score == StaticScore(q, curDoc) + SumBy(CursorContribution(curDoc), cs[..i])
      invariant nextDoc == LeastDocid(q.numDocs, stepped[..i])
    {
      assert now[i] == now[i..][0] == cs[i..][0] == cs[i];
      ScoreStep(q, cs, curDoc, curDoc, i);
      var part := ScoreIfHere(es, i, curDoc, q.numDocs, now);
      score := score + part;
      OneMoreStepped(now, cs, stepped, i);
      now := now[i := stepped[i]];
      assert stepped[..i + 1][..i] == stepped[..i];
      if es[i].Docid() < nextDoc {
        nextDoc := es[i].Docid();
      }
    }
    assert cs[..|es|] == cs && stepped[..|es|] == stepped && now[..|es|] == now;
  }

  class RankedOrQuery {
    const topk: TopKQueue

    constructor (k: nat)
      requires k >= 1
      ensures topk.Valid() && topk.k == k && fresh(topk)
    {
      topk := new TopKQueue(k);
    }

    /** Scores one document in every list and offers it. */
    method Round(q: Query, es: seq<ScoredEnum>, curDoc: nat, ghost cs: seq<Cursor>)
      returns (nextDoc: nat, ghost after: seq<Cursor>)
      requires QueryOk(q) && topk.Valid() && Shows(q.numDocs, es, cs)
      requires AtDocument(q, cs, curDoc) && curDoc < q.numDocs
      requires topk.accepted == AcceptedBelow(q, topk.k, curDoc)
      modifies topk, es
      ensures topk.Valid() && Shows(q.numDocs, es, after)
      ensures AtDocument(q, after, nextDoc) && nextDoc > curDoc
      ensures topk.accepted == AcceptedBelow(q, topk.k, nextDoc)
    {
      hide QueryOk, QueueOk, AllFrom, Shows, LeastDocid, StepAll, WouldEnter, FullScore, Matches, AcceptedBelow;
      var score;
      score, nextDoc := ScoreAll(q, es, curDoc, cs);
      after := StepAll(q.numDocs, curDoc, cs);
      ScoreOverCursors(q, cs, curDoc);
      NextRound(q, cs, curDoc, after, nextDoc);
      OfferOne(q, topk.k, curDoc, nextDoc);
      var _ := topk.Insert(score, curDoc);
    }

    method OfferAll(q: Query, es: seq<ScoredEnum>, ghost start: seq<Cursor>)
      requires QueryOk(q) && topk.Valid() && topk.accepted == []
      requires Shows(q.numDocs, es, start) && CursorsOf(q, start, 0)
      modifies topk, es
      ensures topk.accepted == AcceptedBelow(q, topk.k, q.numDocs) && topk.Valid()
    {
      hide QueryOk, QueueOk, CursorsOf, AllFrom, Shows, LeastDocid, WouldEnter, Matches;
      ghost var cs := start;
      var curDoc := MinDocid(es, q.numDocs, cs);
      FirstDocument(q, cs);
      while curDoc < q.numDocs
        invariant topk.Valid() && Shows(q.numDocs, es, cs) && AtDocument(q, cs, curDoc)
        invariant topk.accepted == AcceptedBelow(q, topk.k, curDoc)
        decreases q.numDocs - curDoc
      {
        curDoc, cs := Round(q, es, curDoc, cs);
      }
    }

    /** The reference run: its accepted insertions are those of offering every matching document. */
    method Run(q: Query)
      requires QueryOk(q) && topk.k >= 1
      modifies topk
      ensures topk.accepted == AcceptedBelow(q, topk.k, q.numDocs)
      ensures Scores(topk.entries) == FinalScores(topk.k, Offers(q, q.numDocs))
      ensures multiset(topk.entries) <= multiset(topk.accepted)
    {
      topk.Clear();
      if q.terms == [] {
        NoTermsNoOffers(q, q.numDocs);
        return;
      }
      var es := MakeEnums(q);
      InitialCursors(q);
      OfferAll(q, es, FirstPostings(q.terms));
      AcceptedKeepsBest(topk.k, Offers(q, q.numDocs));
      topk.Finalize();
    }
  }

  /** The loop's value-level state: every cursor is at or after the current document, which matches unless it is the
      end. */
  ghost predicate AtDocument(q: Query, cs: seq<Cursor>, d: nat) {
    && CursorsOf(q, cs, d) && AllFrom(q.numDocs, cs, d)
    && d <= q.numDocs && (d < q.numDocs ==> Matches(q, d))
  }

  /** One round of the loop steps to the next document that matches. */
  lemma {:induction false} NextRound(q: Query, cs: seq<Cursor>, d: nat, after: seq<Cursor>, next: nat)
    requires QueryOk(q) && AtDocument(q, cs, d) && d < q.numDocs
    requires after == StepAll(q.numDocs, d, cs) && next == LeastDocid(q.numDocs, after)
    ensures next > d && AtDocument(q, after, next)
    ensures forall x :: d < x < next ==> !Matches(q, x)
  {
    SteppedPast(q, cs, after, d);
    NextDocument(q, after, d + 1);
  }

  /** Offering one matching document and then going to the next one that matches. */
  lemma OfferOne(q: Query, k: nat, d: nat, next: nat)
    requires Matches(q, d) && d < next && forall x :: d < x < next ==> !Matches(q, x)
    ensures AcceptedBelow(q, k, next) ==
            if WouldEnter(k, AcceptedBelow(q, k, d), FullScore(q, d))
            then AcceptedBelow(q, k, d) + [Entry(FullScore(q, d), d)] else AcceptedBelow(q, k, d)
  {
    AcceptedStep(q, k, d);
    RefusedStretch(q, k, AcceptedBelow(q, k, d + 1), d + 1, next);
  }

  lemma {:induction false} FirstDocument(q: Query, cs: seq<Cursor>)
    requires QueryOk(q) && CursorsOf(q, cs, 0)
    ensures AtDocument(q, cs, LeastDocid(q.numDocs, cs))
    ensures forall k: nat :: AcceptedBelow(q, k, LeastDocid(q.numDocs, cs)) == []
  {
    NextDocument(q, cs, 0);
    forall k: nat ensures AcceptedBelow(q, k, LeastDocid(q.numDocs, cs)) == [] {
      RefusedStretch(q, k, [], 0, LeastDocid(q.numDocs, cs));
    }
  }

  lemma InitialCursors(q: Query)
    ensures CursorsOf(q, FirstPostings(q.terms), 0)
  {
    assert Terms(FirstPostings(q.terms)) == q.terms;
  }

  lemma {:induction false} NoTermsNoOffers(q: Query, n: nat)
    requires q.terms == []
    ensures Offers(q, n) == []
  {
    if n == 0 {
    } else {
      NoTermsNoOffers(q, n - 1);
    }
  }
}
