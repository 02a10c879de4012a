/** `wand_query`: skips to the pivot, the first document whose lists' maxima could enter the queue. */
module Wand {
  import opened Sums
  import opened TopK
  import opened TopKQueues
  import opened Postings
  import opened SortedLists
  import opened ScoredEnums
  import opened CursorSteps
  import opened Pruning
  import RankedOr

  /** Everything below document f is decided exactly as the exhaustive loop decides it, no cursor has
      passed a posting at or above f, and the lists whose cursors still stand below f are dead. */
  ghost predicate WandState(q: Query, k: nat, cs: seq<Cursor>, log: seq<Entry>, f: nat, m: real) {
    && SortedByDocid(q.numDocs, cs)
    && CursorsOf(q, cs, f)
    && log == AcceptedBelow(q, k, f) && f <= q.numDocs
    && LowDead(q, k, cs, log, f, m)
  }

  /** The pivot search stopped at position p: the lists before p cannot enter, those up to p can. */
  ghost predicate PivotAt(q: Query, k: nat, log: seq<Entry>, cs: seq<Cursor>, p: nat) {
    p < |cs| && Docid(q.numDocs, cs[p]) < q.numDocs
    && !Enters(q, k, log, cs[..p]) && Enters(q, k, log, cs[..p + 1])
  }

  /** The pivot search found none: what is left from p on is exhausted. */
  ghost predicate NoPivot(q: Query, k: nat, log: seq<Entry>, cs: seq<Cursor>, p: nat) {
    p <= |cs| && !Enters(q, k, log, cs[..p])
    && forall i :: p <= i < |cs| ==> Docid(q.numDocs, cs[i]) >= q.numDocs
  }

  /** The last list that lags behind the pivot has moved up to it. */
  ghost predicate MovedUp(q: Query, cs: seq<Cursor>, p: nat, d: nat, rs: seq<Cursor>) {
    exists j: nat :: j < p < |cs| && LastLagging(q, cs, p, d, j) &&
                     multiset(rs) == multiset(cs[j := Advanced(cs[j], d)])
  }

  ghost predicate LastLagging(q: Query, cs: seq<Cursor>, p: nat, d: nat, j: nat)
    requires j < p < |cs|
  {
    Docid(q.numDocs, cs[j]) < d && forall i :: j < i <= p ==> Docid(q.numDocs, cs[i]) == d
  }

  // ----- value-level steps -----

  lemma PivotAdvances(q: Query, k: nat, cs: seq<Cursor>, log: seq<Entry>, f: nat, m: real, p: nat)
    requires QueryOk(q) && WandState(q, k, cs, log, f, m) && PivotAt(q, k, log, cs, p)
    ensures f <= Docid(q.numDocs, cs[p])
    ensures log == AcceptedBelow(q, k, Docid(q.numDocs, cs[p]))
    ensures LowDead(q, k, cs, log, Docid(q.numDocs, cs[p]), BoundOrZero(cs[..p]))
    ensures CursorsOf(q, cs, Docid(q.numDocs, cs[p]))
  {
    hide QueryOk, WouldEnter, Enters, StaticMax, LowDead;
    var d := Docid(q.numDocs, cs[p]);
    PivotNotBelow(q, k, cs, log, f, m, p);
    PrefixDead(q, k, cs, log, p, d);
    LowDeadRefuses(q, k, cs, log, f, d, BoundOrZero(cs[..p]));
    RefusedStretch(q, k, log, f, d);
  }

  /** Without a pivot, nothing that is left can enter. */
  lemma NoPivotEnds(q: Query, k: nat, cs: seq<Cursor>, log: seq<Entry>, f: nat, m: real, p: nat)
    requires QueryOk(q) && WandState(q, k, cs, log, f, m) && NoPivot(q, k, log, cs, p)
    ensures log == AcceptedBelow(q, k, q.numDocs)
  {
    hide QueryOk, WouldEnter, Enters, StaticMax, LowDead;
    PrefixDead(q, k, cs, log, p, q.numDocs);
    LowDeadRefuses(q, k, cs, log, f, q.numDocs, BoundOrZero(cs[..p]));
    RefusedStretch(q, k, log, f, q.numDocs);
  }

  /** Moving a cursor before the pivot up to it. */
  lemma MoveToPivot(q: Query, k: nat, cs: seq<Cursor>, log: seq<Entry>, f: nat, m: real, p: nat, j: nat)
    requires QueryOk(q) && WandState(q, k, cs, log, f, m) && PivotAt(q, k, log, cs, p)
    requires j < p && Docid(q.numDocs, cs[j]) < Docid(q.numDocs, cs[p])
    ensures var d := Docid(q.numDocs, cs[p]);
            var after := cs[j := Advanced(cs[j], d)];
            && CursorsOf(q, after, d) && log == AcceptedBelow(q, k, d)
            && LowDead(q, k, after, log, d, BoundOrZero(cs[..p]))
            && SortedExcept(q.numDocs, after, j)
            && Remaining(after) <= Remaining(cs) - 1.0
  {
    hide QueryOk, WouldEnter, Enters, StaticMax, LowDead, Remaining;
    var d := Docid(q.numDocs, cs[p]);
    PivotAdvances(q, k, cs, log, f, m, p);
    AdvanceOne(q, cs, d, j, d);
    assert |q.docWeight| == q.numDocs && TermOk(q, cs[j].term) by {
      QueryShape(q);
      CursorTermsOk(q, cs);
      assert cs[j] in cs;
    }
    assert NothingSkipped(cs[j], d) by { assert cs[j] in cs; }
    AdvancedCursor(q, cs[j], d, d);
    LowDeadAfterMove(q, k, cs, log, d, BoundOrZero(cs[..p]), j, Advanced(cs[j], d));
    RemainingAfterMove(q, cs, j, d);
    assert SortedExcept(q.numDocs, cs[j := Advanced(cs[j], d)], j);
  }

  lemma QueryShape(q: Query)
    requires QueryOk(q)
    ensures |q.docWeight| == q.numDocs
  {}

  lemma AllFromFirst(q: Query, cs: seq<Cursor>)
    requires SortedByDocid(q.numDocs, cs) && cs != []
    ensures AllFrom(q.numDocs, cs, Docid(q.numDocs, cs[0]))
  {}

  /** Offering the pivot document and stepping past it. */
  lemma OfferPivot(q: Query, k: nat, cs: seq<Cursor>, log: seq<Entry>, f: nat, m: real, p: nat)
    requires QueryOk(q) && WandState(q, k, cs, log, f, m) && PivotAt(q, k, log, cs, p)
    requires Docid(q.numDocs, cs[0]) == Docid(q.numDocs, cs[p])
    ensures var d := Docid(q.numDocs, cs[p]);
            var after := StepAll(q.numDocs, d, cs);
            && CursorsOf(q, after, d + 1) && AllFrom(q.numDocs, after, d + 1)
            && AcceptedBelow(q, k, d + 1) ==
                 (if WouldEnter(k, log, FullScore(q, d)) then log + [Entry(FullScore(q, d), d)] else log)
            && Remaining(after) <= Remaining(cs) - 1.0
  {
    hide WouldEnter, Enters, StaticMax, LowDead, Remaining;
    var d := Docid(q.numDocs, cs[p]);
    PivotAdvances(q, k, cs, log, f, m, p);
    AllFromFirst(q, cs);
    SteppedPast(q, cs, StepAll(q.numDocs, d, cs), d);
    RemainingAfterStep(q.numDocs, d, cs);
    AcceptedStep(q, k, d);
    assert Matches(q, d) by { PivotMatches(q, cs, p); }
  }

  lemma PivotMatches(q: Query, cs: seq<Cursor>, p: nat)
    requires QueryOk(q) && multiset(Terms(cs)) == multiset(q.terms)
    requires p < |cs| && Docid(q.numDocs, cs[p]) < q.numDocs
    ensures Matches(q, Docid(q.numDocs, cs[p]))
  {
    CursorTermsOk(q, cs);
    assert cs[p] in cs && cs[p].term in q.terms;
    assert Docid(q.numDocs, cs[p]) in cs[p].term.docs;
  }

  // ----- the loops -----

  /** Finds the pivot: adds up list maxima in docid order until the bound would enter. */
  method FindPivot(q: Query, es: seq<ScoredEnum>, topk: TopKQueue, ghost cs: seq<Cursor>)
    returns (found: bool, pivot: nat)
    requires QueryOk(q) && Shows(q.numDocs, es, cs) && topk.Valid()
    requires SortedByDocid(q.numDocs, cs) && multiset(Terms(cs)) == multiset(q.terms)
    ensures found ==> PivotAt(q, topk.k, topk.accepted, cs, pivot)
    ensures !found ==> NoPivot(q, topk.k, topk.accepted, cs, pivot)
  {
    hide QueryOk, WouldEnter, StaticBound, QueueOk;
    var upperBound := 0.0;
    var maxStatic := 0.0;  // stands for the lowest double until the first list is seen
    pivot, found := 0, false;
    while pivot < |es|
      invariant pivot <= |es|
      invariant upperBound == SumBy(CursorListMax(), cs[..pivot])
      invariant maxStatic == BoundOrZero(cs[..pivot])
      invariant !Enters(q, topk.k, topk.accepted, cs[..pivot])
    {
      if es[pivot].Docid() == q.numDocs {
        assert forall i :: pivot <= i < |cs| ==> Docid(q.numDocs, cs[i]) >= Docid(q.numDocs, cs[pivot]);
        return;
      }
      var t := es[pivot].term;
      maxStatic := if pivot == 0 then t.maxDocWeight else MaxOf(maxStatic, t.maxDocWeight);
      upperBound := upperBound + t.qWeight * t.maxTermWeight;
      PrefixStep(q, cs, pivot);
      var bound := q.qLen as real * maxStatic + upperBound;
      assert bound == PrefixBound(q, cs[..pivot + 1]) by { StaticBoundIs(q, maxStatic); }
      topk.AdmitsIsWouldEnter(bound);
      if topk.Admits(bound) {
        DocidBelowEnd(q, cs, pivot);
        return true, pivot;
      }
      pivot := pivot + 1;
    }
  }

  lemma PrefixStep(q: Query, cs: seq<Cursor>, p: nat)
    requires p < |cs|
    ensures SumBy(CursorListMax(), cs[..p + 1]) == SumBy(CursorListMax(), cs[..p]) + ListMax(cs[p].term)
    ensures BoundOrZero(cs[..p + 1]) ==
            if p == 0 then cs[p].term.maxDocWeight else MaxOf(BoundOrZero(cs[..p]), cs[p].term.maxDocWeight)
  {
    SumBySplitAt(CursorListMax(), cs, p);
    if p > 0 { StaticMaxStep(cs, p); }
  }

  lemma DocidBelowEnd(q: Query, cs: seq<Cursor>, p: nat)
    requires QueryOk(q) && multiset(Terms(cs)) == multiset(q.terms) && p < |cs|
    requires Docid(q.numDocs, cs[p]) != q.numDocs
    ensures Docid(q.numDocs, cs[p]) < q.numDocs
  {
    CursorTermsOk(q, cs);
    assert cs[p] in cs;
  }

  lemma StaticBoundIs(q: Query, m: real)
    ensures StaticBound(q, m) == q.qLen as real * m
  {}

  /** Cursors beyond document d neither add to it nor are stepped past it. */
  lemma RestStays(n: nat, cs: seq<Cursor>, d: nat, i: nat)
    requires i <= |cs|
    requires forall j :: i <= j < |cs| ==> Docid(n, cs[j]) > d
    ensures StepAll(n, d, cs)[i..] == cs[i..]
  {}

  lemma {:induction false} RestAddsNothing(q: Query, cs: seq<Cursor>, d: nat, i: nat)
    requires QueryOk(q) && CursorsOf(q, cs, d) && i <= |cs| && d < q.numDocs
    requires forall j :: i <= j < |cs| ==> Docid(q.numDocs, cs[j]) > d
    ensures SumBy(CursorContribution(d), cs) == SumBy(CursorContribution(d), cs[..i])
    ensures StepAll(q.numDocs, d, cs)[i..] == cs[i..]
  {
    RestStays(q.numDocs, cs, d, i);
    hide StepAll, QueryOk;
    assert cs == cs[..i] + cs[i..];
    SumByConcat(CursorContribution(d), cs[..i], cs[i..]);
    CursorTermsOk(q, cs);
    forall j | 0 <= j < |cs[i..]| ensures CursorContribution(d)(cs[i..][j]) == 0.0 {
      assert cs[i + j] in cs;
      BeyondAddsNothing(q, cs[i + j], d, d);
    }
    SumOfZeros(CursorContribution(d), cs[i..]);
  }

  /** Scores document d in the lists at the front of the order, stepping them past it. */
  method ScoreFront(q: Query, es: seq<ScoredEnum>, d: nat, ghost cs: seq<Cursor>) returns (score: real)
    requires QueryOk(q) && Shows(q.numDocs, es, cs) && CursorsOf(q, cs, d) && d < q.numDocs
    requires SortedByDocid(q.numDocs, cs) && AllFrom(q.numDocs, cs, d)
    modifies es
    ensures Shows(q.numDocs, es, StepAll(q.numDocs, d, cs))
    ensures score == StaticScore(q, d) + SumBy(CursorContribution(d), cs)
  {
    ghost var stepped, now := StepAll(q.numDocs, d, cs), cs;
    score := q.docWeight[d] * q.qLen as real;
    var i := 0;
    while i < |es|
      invariant i <= |es| && |now| == |cs| && Shows(q.numDocs, es, now)
      invariant now[..i] == stepped[..i] && now[i..] == cs[i..]
      invariant score == StaticScore(q, d) + SumBy(CursorContribution(d), cs[..i])
    {
      hide SortedByDocid, CursorsOf, QueryOk, StaticScore;
      assert now[i] == now[i..][0] == cs[i..][0] == cs[i];
      if es[i].Docid() != d { break; }
      StepFacts(q, cs, d, i);
      var part := ScoreIfHere(es, i, d, q.numDocs, now);
      score := score + part;
      OneMoreStepped(now, cs, stepped, i);
      now := now[i := stepped[i]];
      i := i + 1;
    }
    assert now == now[..i] + now[i..] && stepped == stepped[..i] + stepped[i..];
    if i < |es| {
      assert now[i] == now[i..][0] == cs[i..][0] == cs[i];
      BeyondFront(q, cs, d, i);
    }
    RestAddsNothing(q, cs, d, i);
  }

  lemma BeyondFront(q: Query, cs: seq<Cursor>, d: nat, i: nat)
    requires SortedByDocid(q.numDocs, cs) && AllFrom(q.numDocs, cs, d) && i < |cs| && Docid(q.numDocs, cs[i]) != d
    ensures forall j :: i <= j < |cs| ==> Docid(q.numDocs, cs[j]) > d
  {
    assert cs[i] in cs;
    forall j | i <= j < |cs| ensures Docid(q.numDocs, cs[j]) > d {
      assert Docid(q.numDocs, cs[i]) <= Docid(q.numDocs, cs[j]);
    }
  }

  lemma StepFacts(q: Query, cs: seq<Cursor>, d: nat, i: nat)
    requires QueryOk(q) && CursorsOf(q, cs, d) && i < |cs| && AllFrom(q.numDocs, cs, d) && d < q.numDocs
    ensures |cs[i].term.weights| == |cs[i].term.docs|
    ensures SumBy(CursorContribution(d), cs[..i + 1]) ==
            SumBy(CursorContribution(d), cs[..i]) + PartAt(q.numDocs, d, cs[i])
  {
    assert cs[i] in cs;
    ScoreStep(q, cs, d, d, i);
  }

  class WandQuery {
    const topk: TopKQueue

    constructor (k: nat)
      requires k >= 1
      ensures topk.Valid() && topk.k == k && fresh(topk)
    {
      topk := new TopKQueue(k);
    }

    /** The pivot document is the first on show: score it, offer it, sort again. */
    method Evaluate(q: Query, es: seq<ScoredEnum>, pivot: nat, ghost cs: seq<Cursor>, ghost f: nat, ghost m: real,
                    ghost objects: set<ScoredEnum>)
      returns (r: seq<ScoredEnum>, ghost rs: seq<Cursor>, ghost rf: nat)
      requires QueryOk(q) && topk.Valid() && Shows(q.numDocs, es, cs)
      requires WandState(q, topk.k, cs, topk.accepted, f, m) && PivotAt(q, topk.k, topk.accepted, cs, pivot)
      requires Docid(q.numDocs, cs[0]) == Docid(q.numDocs, cs[pivot]) && pivot < |es|
      requires forall e <- es :: e in objects
      modifies topk, objects
      ensures topk.Valid() && Shows(q.numDocs, r, rs) && (forall e <- r :: e in objects)
      ensures WandState(q, topk.k, rs, topk.accepted, rf, 0.0)
      ensures multiset(rs) == multiset(StepAll(q.numDocs, Docid(q.numDocs, cs[pivot]), cs))
      ensures Remaining(rs) <= Remaining(cs) - 1.0
    {
      hide QueryOk, QueueOk, Enters, WouldEnter, LowDead, Remaining, AllFrom, Shows, StepAll, FullScore, AcceptedBelow,
           StaticScore;
      var d := es[pivot].Docid();
      AboutPivot(q, topk.k, cs, topk.accepted, f, m, pivot, es, d);
      OfferPivot(q, topk.k, cs, topk.accepted, f, m, pivot);
      ScoreOverCursors(q, cs, d);
      var score := ScoreFront(q, es, d, cs);
      ghost var after := StepAll(q.numDocs, d, cs);
      var _ := topk.Insert(score, d);
      r, rs := SortEnums(es, q.numDocs, after);
      rf := d + 1;
      SameObjects(es, r);
      SortedAfterStep(q, topk.k, after, rs, topk.accepted, rf);
    }

    /** The pivot document is not the first on show: move a list before it up to it. */
    method Move(q: Query, es: seq<ScoredEnum>, pivot: nat, ghost cs: seq<Cursor>, ghost f: nat, ghost m: real,
                ghost objects: set<ScoredEnum>)
      returns (r: seq<ScoredEnum>, ghost rs: seq<Cursor>, ghost rf: nat, ghost rm: real)
      requires QueryOk(q) && topk.Valid() && Shows(q.numDocs, es, cs)
      requires WandState(q, topk.k, cs, topk.accepted, f, m) && PivotAt(q, topk.k, topk.accepted, cs, pivot)
      requires Docid(q.numDocs, cs[0]) != Docid(q.numDocs, cs[pivot])
      requires forall e <- es :: e in objects
      modifies objects
      ensures topk.Valid() && Shows(q.numDocs, r, rs) && (forall e <- r :: e in objects)
      ensures WandState(q, topk.k, rs, topk.accepted, rf, rm)
      ensures MovedUp(q, cs, pivot, Docid(q.numDocs, cs[pivot]), rs)
      ensures Remaining(rs) <= Remaining(cs) - 1.0
    {
      hide QueryOk, QueueOk, Enters, WouldEnter, LowDead, Remaining, AcceptedBelow, CursorsOf;
      var d := es[pivot].Docid();
      var nextList := LastBefore(q, es, pivot, cs);
      CursorsTerms(q, cs, f);
      assert Increasing(cs[nextList].term.docs) by { DocsIncrease(q, cs, nextList); }
      MoveToPivot(q, topk.k, cs, topk.accepted, f, m, pivot, nextList);
      NextGeqAt(es, nextList, d, q.numDocs, cs);
      ghost var after := cs[nextList := Advanced(cs[nextList], d)];
      assert LastLagging(q, cs, pivot, d, nextList);
      r, rs := BubbleDown(es, nextList, false, q.numDocs, after);
      SameObjects(es, r);
      rf, rm := d, BoundOrZero(cs[..pivot]);
      StateOfPermutation(q, topk.k, after, rs, topk.accepted, rf, rm);
    }

    method Search(q: Query, start: seq<ScoredEnum>, ghost startCs: seq<Cursor>, ghost objects: set<ScoredEnum>)
      requires QueryOk(q) && topk.Valid() && topk.accepted == []
      requires Shows(q.numDocs, start, startCs) && CursorsOf(q, startCs, 0)
      requires forall e <- start :: e in objects
      modifies topk, objects
      ensures topk.Valid() && topk.accepted == AcceptedBelow(q, topk.k, q.numDocs)
    {
      hide QueryOk, QueueOk, Enters, WouldEnter, LowDead, Remaining, CursorsOf, Shows;
      var es;
      ghost var cs, f, m := startCs, 0, 0.0;
      es, cs := SortEnums(start, q.numDocs, startCs);
      StartState(q, topk.k, startCs, cs);
      SameObjects(start, es);
      while true
        invariant topk.Valid() && Shows(q.numDocs, es, cs) && forall e <- es :: e in objects
        invariant WandState(q, topk.k, cs, topk.accepted, f, m)
        decreases Remaining(cs)
      {
        CursorsTerms(q, cs, f);
        var found, pivot := FindPivot(q, es, topk, cs);
        if !found {
          NoPivotEnds(q, topk.k, cs, topk.accepted, f, m, pivot);
          return;
        }
        var first := IsFirst(q, es, pivot, cs);
        PivotInRange(q, es, cs, pivot);
        if first {
          es, cs, f := Evaluate(q, es, pivot, cs, f, m, objects);
          m := 0.0;
        } else {
          es, cs, f, m := Move(q, es, pivot, cs, f, m, objects);
        }
      }
    }

    /** WAND accepts exactly the insertions of the exhaustive run and leaves the same scores. */
    method Run(q: Query)
      requires QueryOk(q) && topk.k >= 1
      modifies topk
      ensures topk.accepted == AcceptedBelow(q, topk.k, q.numDocs)
      ensures Scores(topk.entries) == FinalScores(topk.k, Offers(q, q.numDocs))
      ensures multiset(topk.entries) <= multiset(topk.accepted)
    {
      topk.Clear();
      if q.terms == [] {
        RankedOr.NoTermsNoOffers(q, q.numDocs);
        return;
      }
      var es := MakeEnums(q);
      RankedOr.InitialCursors(q);
      Search(q, es, FirstPostings(q.terms), set e | e in es);
      AcceptedKeepsBest(topk.k, Offers(q, q.numDocs));
      topk.Finalize();
    }
  }

  lemma PivotInRange(q: Query, es: seq<ScoredEnum>, cs: seq<Cursor>, pivot: nat)
    requires Shows(q.numDocs, es, cs) && pivot < |cs|
    ensures pivot < |es|
  {}

  method IsFirst(q: Query, es: seq<ScoredEnum>, pivot: nat, ghost cs: seq<Cursor>) returns (first: bool)
    requires Shows(q.numDocs, es, cs) && pivot < |cs|
    ensures first <==> Docid(q.numDocs, cs[0]) == Docid(q.numDocs, cs[pivot])
  {
    first := es[pivot].Docid() == es[0].Docid();
  }

  /** The last list before the pivot that does not stand on the pivot document. */
  method LastBefore(q: Query, es: seq<ScoredEnum>, pivot: nat, ghost cs: seq<Cursor>) returns (j: nat)
    requires Shows(q.numDocs, es, cs) && SortedByDocid(q.numDocs, cs) && pivot < |cs|
    requires Docid(q.numDocs, cs[0]) != Docid(q.numDocs, cs[pivot])
    ensures j < pivot && Docid(q.numDocs, cs[j]) < Docid(q.numDocs, cs[pivot])
    ensures forall i :: j < i <= pivot ==> Docid(q.numDocs, cs[i]) == Docid(q.numDocs, cs[pivot])
  {
    j := pivot;
    while es[j].Docid() == es[pivot].Docid()
      invariant j <= pivot && forall i :: j < i <= pivot ==> Docid(q.numDocs, cs[i]) == Docid(q.numDocs, cs[pivot])
      decreases j
    {
      assert j > 0;
      j := j - 1;
    }
    assert Docid(q.numDocs, cs[j]) <= Docid(q.numDocs, cs[pivot]);
  }

  lemma DocsIncrease(q: Query, cs: seq<Cursor>, j: nat)
    requires QueryOk(q) && multiset(Terms(cs)) == multiset(q.terms) && j < |cs|
    ensures Increasing(cs[j].term.docs)
  {
    CursorTermsOk(q, cs);
    assert cs[j] in cs;
  }

  lemma CursorsTerms(q: Query, cs: seq<Cursor>, f: nat)
    requires CursorsOf(q, cs, f)
    ensures multiset(Terms(cs)) == multiset(q.terms)
  {}

  lemma SameObjects(a: seq<ScoredEnum>, b: seq<ScoredEnum>)
    requires multiset(a) == multiset(b)
    ensures forall e <- b :: e in a
  {
    forall e | e in b ensures e in a {
      assert e in multiset(a);
    }
  }

  lemma AboutPivot(q: Query, k: nat, cs: seq<Cursor>, log: seq<Entry>, f: nat, m: real, p: nat, es: seq<ScoredEnum>,
                   d: nat)
    requires QueryOk(q) && WandState(q, k, cs, log, f, m) && PivotAt(q, k, log, cs, p)
    requires Shows(q.numDocs, es, cs) && d == es[p].Docid()
    requires Docid(q.numDocs, cs[0]) == Docid(q.numDocs, cs[p])
    ensures d == Docid(q.numDocs, cs[p]) && CursorsOf(q, cs, d) && AllFrom(q.numDocs, cs, d)
  {
    hide QueryOk, WouldEnter, Enters, StaticMax, LowDead;
    PivotAdvances(q, k, cs, log, f, m, p);
    AllFromFirst(q, cs);
  }

  lemma SortedAfterStep(q: Query, k: nat, after: seq<Cursor>, rs: seq<Cursor>, log: seq<Entry>, f: nat)
    requires multiset(rs) == multiset(after) && SortedByDocid(q.numDocs, rs)
    requires CursorsOf(q, after, f) && AllFrom(q.numDocs, after, f) && f <= q.numDocs
    requires log == AcceptedBelow(q, k, f)
    ensures WandState(q, k, rs, log, f, 0.0) && Remaining(rs) == Remaining(after)
  {
    CursorsOfPermutation(q, after, rs, f);
    LowDeadOfPermutation(q, k, after, rs, log, f, 0.0);
    RemainingOfPermutation(after, rs);
  }

  lemma StateOfPermutation(q: Query, k: nat, after: seq<Cursor>, rs: seq<Cursor>, log: seq<Entry>, f: nat, m: real)
    requires multiset(rs) == multiset(after) && SortedByDocid(q.numDocs, rs)
    requires CursorsOf(q, after, f) && LowDead(q, k, after, log, f, m) && f <= q.numDocs
    requires log == AcceptedBelow(q, k, f)
    ensures WandState(q, k, rs, log, f, m) && Remaining(rs) == Remaining(after)
  {
    CursorsOfPermutation(q, after, rs, f);
    LowDeadOfPermutation(q, k, after, rs, log, f, m);
    RemainingOfPermutation(after, rs);
  }

  lemma StartState(q: Query, k: nat, start: seq<Cursor>, cs: seq<Cursor>)
    requires CursorsOf(q, start, 0) && multiset(cs) == multiset(start) && SortedByDocid(q.numDocs, cs)
    ensures WandState(q, k, cs, [], 0, 0.0)
  {
    CursorsOfPermutation(q, start, cs, 0);
  }
}
