/** Stepping the cursors past a document while summing what they add to its score. */
module CursorSteps {
  import opened Sums
  import opened Postings
  import opened ScoredEnums

  ghost function StepPast(n: nat, d: nat, c: Cursor): Cursor {
    if c.pos < |c.term.docs| && Docid(n, c) == d then OnePast(c) else c
  }

  /** What the posting under the cursor adds to document d. */
  ghost function PartAt(n: nat, d: nat, c: Cursor): real {
    if c.pos < |c.term.docs| && c.pos < |c.term.weights| && Docid(n, c) == d
    then c.term.qWeight * c.term.weights[c.pos] else 0.0
  }

  /** All cursors stand at or after document d. */
  ghost predicate AllFrom(n: nat, cs: seq<Cursor>, d: nat) {
    forall c <- cs :: Docid(n, c) >= d
  }

  lemma DocidContribution(q: Query, c: Cursor, f: nat, d: nat)
    requires |q.docWeight| == q.numDocs && TermOk(q, c.term) && NothingSkipped(c, f)
    requires f <= d <= Docid(q.numDocs, c) && d < q.numDocs
    ensures Contribution(c.term, d) ==
            PartAt(q.numDocs, d, c)
  {
    if Docid(q.numDocs, c) == d {
      ContributionAt(c.term, c.pos);
    } else {
      BeyondAddsNothing(q, c, f, d);
    }
  }

  /** Stepping every cursor past document d, when none is before it, leaves them from the least docid they show. */
  lemma SteppedPast(q: Query, cs: seq<Cursor>, after: seq<Cursor>, d: nat)
    requires QueryOk(q) && CursorsOf(q, cs, d) && AllFrom(q.numDocs, cs, d) && d < q.numDocs
    requires |after| == |cs| && forall i :: 0 <= i < |cs| ==> after[i] == StepPast(q.numDocs, d, cs[i])
    ensures CursorsOf(q, after, d + 1) && AllFrom(q.numDocs, after, d + 1)
  {
    hide TermOk, StepPast, NothingSkipped;
    CursorTermsOk(q, cs);
    assert forall c :: StepPast(q.numDocs, d, c).term == c.term by { StepKeepsTerm(q.numDocs, d); }
    assert Terms(after) == Terms(cs);
    forall c | c in after ensures NothingSkipped(c, d + 1) && Docid(q.numDocs, c) >= d + 1 {
      var i :| 0 <= i < |after| && after[i] == c;
      assert cs[i] in cs;
      OneSteppedPast(q, cs[i], d);
    }
  }

  lemma StepKeepsTerm(n: nat, d: nat)
    ensures forall c :: StepPast(n, d, c).term == c.term
  {}

  lemma OneSteppedPast(q: Query, c: Cursor, d: nat)
    requires |q.docWeight| == q.numDocs && TermOk(q, c.term) && NothingSkipped(c, d)
    requires d < q.numDocs && Docid(q.numDocs, c) >= d
    ensures var a := StepPast(q.numDocs, d, c); NothingSkipped(a, d + 1) && Docid(q.numDocs, a) >= d + 1
  {
    var a := StepPast(q.numDocs, d, c);
    if a.pos < |a.term.docs| && a != c {
      assert a.term.docs[c.pos] < a.term.docs[a.pos];
    }
  }

  /** If all cursors stand from document `next` on, nothing in between matches. */
  lemma NothingBetween(q: Query, cs: seq<Cursor>, f: nat, next: nat)
    requires QueryOk(q) && CursorsOf(q, cs, f) && AllFrom(q.numDocs, cs, next) && f <= next
    ensures CursorsOf(q, cs, next)
    ensures forall d :: f <= d < next ==> !Matches(q, d)
  {
    forall d | f <= d < next ensures !Matches(q, d) {
      if Matches(q, d) {
        var c := MatchingCursor(q, cs, f, d);
      }
    }
  }

  /** One step of summing a document's score over the cursors. */
  lemma ScoreStep(q: Query, cs: seq<Cursor>, f: nat, d: nat, i: nat)
    requires QueryOk(q) && CursorsOf(q, cs, f) && i < |cs|
    requires f <= d <= Docid(q.numDocs, cs[i]) && d < q.numDocs
    ensures TermOk(q, cs[i].term)
    ensures SumBy(CursorContribution(d), cs[..i + 1]) == SumBy(CursorContribution(d), cs[..i])
              + PartAt(q.numDocs, d, cs[i])
  {
    CursorTermsOk(q, cs);
    assert cs[i] in cs;
    SumBySplitAt(CursorContribution(d), cs, i);
    DocidContribution(q, cs[i], f, d);
  }

  ghost function StepAll(n: nat, d: nat, cs: seq<Cursor>): seq<Cursor> {
    seq(|cs|, i requires 0 <= i < |cs| => StepPast(n, d, cs[i]))
  }

  /** Scores and passes the posting if the i-th enumerator stands at document d. */
  method ScoreIfHere(es: seq<ScoredEnum>, i: nat, d: nat, numDocs: nat, ghost cs: seq<Cursor>) returns (part: real)
    requires Shows(numDocs, es, cs) && i < |es| && d < numDocs
    requires |cs[i].term.weights| == |cs[i].term.docs|
    modifies es
    ensures Shows(numDocs, es, cs[i := StepPast(numDocs, d, cs[i])])
    ensures part == PartAt(numDocs, d, cs[i])
  {
    part := 0.0;
    if es[i].Docid() == d {
      part := es[i].term.qWeight * es[i].term.weights[es[i].pos];
      NextAt(es, i, numDocs, cs);
    } else {
      assert cs[i := cs[i]] == cs;
    }
  }

  lemma OneMoreStepped<X>(now: seq<X>, cs: seq<X>, stepped: seq<X>, i: nat)
    requires |now| == |cs| == |stepped| && i < |cs|
    requires now[..i] == stepped[..i] && now[i..] == cs[i..]
    ensures now[i := stepped[i]][..i + 1] == stepped[..i + 1]
    ensures now[i := stepped[i]][i + 1..] == cs[i + 1..]
  {
    assert now[i + 1..] == now[i..][1..] == cs[i..][1..];
    assert stepped[..i + 1] == stepped[..i] + [stepped[i]];
    assert now[i := stepped[i]][..i + 1] == now[..i] + [stepped[i]];
  }

  /** Position by position, the first i are changed and the others are as before. */
  ghost predicate Halfway<X(!new)>(now: seq<X>, before: seq<X>, changed: seq<X>, i: nat) {
    && |now| == |before| == |changed| && i <= |before|
    && now[..i] == changed[..i] && now[i..] == before[i..]
  }

  lemma HalfwayNext<X(!new)>(now: seq<X>, before: seq<X>, changed: seq<X>, i: nat)
    requires Halfway(now, before, changed, i) && i < |before|
    ensures now[i] == before[i] && Halfway(now[i := changed[i]], before, changed, i + 1)
  {
    assert now[i] == now[i..][0] == before[i..][0];
    OneMoreStepped(now, before, changed, i);
  }

  lemma HalfwayStart<X(!new)>(before: seq<X>, changed: seq<X>, i: nat)
    requires |before| == |changed| && i <= |before| && changed[..i] == before[..i]
    ensures Halfway(before, before, changed, i)
  {}

  lemma HalfwayDone<X(!new)>(now: seq<X>, before: seq<X>, changed: seq<X>, i: nat)
    requires Halfway(now, before, changed, i) && i <= |before| && changed[i..] == before[i..]
    ensures now == changed
  {
    assert now == now[..i] + now[i..] && changed == changed[..i] + changed[i..];
  }
}
