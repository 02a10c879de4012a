/** `maxscore_query`: lists whose maxima together cannot enter stop driving the search and are only
    looked up to complete a document's score, as long as the rest could still lift it into the queue. */
module MaxScore {
  import opened Sums
  import opened TopK
  import opened TopKQueues
  import opened Postings
  import opened SortedLists
  import opened ScoredEnums
  import opened CursorSteps
  import opened Pruning
  import RankedOr
  import Wand
  import Multisets

  /** Documents below `cur` are decided as the exhaustive loop decides them; the first `ne` lists
      cannot enter by themselves and every other list stands at or after `cur`. */
  ghost predicate MaxScoreState(q: Query, k: nat, cs: seq<Cursor>, log: seq<Entry>, ne: nat, cur: nat) {
    && ne <= |cs| && cur <= q.numDocs
    && CursorsOf(q, cs, cur)
    && log == AcceptedBelow(q, k, cur)
    && !Enters(q, k, log, cs[..ne])
    && (forall i :: ne <= i < |cs| ==> Docid(q.numDocs, cs[i]) >= cur)
    && (cur < q.numDocs ==> Matches(q, cur))
  }

  /** Steps the essential lists past document d. */
  ghost function StepFrom(n: nat, d: nat, ne: nat, cs: seq<Cursor>): seq<Cursor> {
    seq(|cs|, i requires 0 <= i < |cs| => if i < ne then cs[i] else StepPast(n, d, cs[i]))
  }

  /** The same lists, some of them looked up at document d. */
  ghost predicate LookedUp(a: seq<Cursor>, b: seq<Cursor>, ne: nat, d: nat) {
    && |a| == |b|
    && (forall i :: 0 <= i < |a| && i < ne ==> b[i] == a[i] || b[i] == Advanced(a[i], d))
    && (forall i :: ne <= i < |a| ==> b[i] == a[i])
  }

  /** The non-essential lists from number left on have been looked up, the others left where they were. */
  ghost predicate LookedFrom(a: seq<Cursor>, b: seq<Cursor>, left: nat, ne: nat, d: nat) {
    |a| == |b| && forall i :: 0 <= i < |a| ==> b[i] == if left <= i < ne then Advanced(a[i], d) else a[i]
  }

  /** A document's score from the lists from number i on. */
  ghost function ScoreFrom(q: Query, cs: seq<Cursor>, d: nat, i: nat): real
    requires d < |q.docWeight| && i <= |cs|
  {
    StaticScore(q, d) + SumBy(CursorContribution(d), cs[i..])
  }

  /** What the score may still come to when the lists in front of number i have not been looked up. */
  ghost predicate MayEnter(q: Query, k: nat, log: seq<Entry>, cs: seq<Cursor>, d: nat, upper: seq<real>, i: nat)
    requires d < |q.docWeight| && 0 < i <= |cs| == |upper|
  {
    WouldEnter(k, log, ScoreFrom(q, cs, d, i) + upper[i - 1])
  }

  /** Lists are looked up downwards from number ne as long as the score may enter, and no longer. */
  ghost predicate LookedWhileEntering(q: Query, k: nat, log: seq<Entry>, cs: seq<Cursor>, d: nat, upper: seq<real>,
                                      ne: nat, left: nat)
    requires d < |q.docWeight| && |cs| == |upper|
  {
    && left <= ne <= |cs| && (forall i :: left < i <= ne ==> MayEnter(q, k, log, cs, d, upper, i))
    && (left > 0 ==> !MayEnter(q, k, log, cs, d, upper, left))
  }

  /** A document was scored by the lists from number left on, and these are the only ones that moved. */
  ghost predicate DocumentScored(q: Query, k: nat, log: seq<Entry>, cs: seq<Cursor>, d: nat, upper: seq<real>, ne: nat,
                                 left: nat, score: real, rs: seq<Cursor>) {
    && d < |q.docWeight| && |cs| == |upper|
    && LookedWhileEntering(q, k, log, cs, d, upper, ne, left)
    && LookedFrom(cs, rs, left, ne, d) && score == ScoreFrom(q, cs, d, left)
  }

  /** All demoted lists and one more could enter. */
  ghost predicate NoMoreToDemote(q: Query, k: nat, log: seq<Entry>, cs: seq<Cursor>, ne: nat) {
    ne < |cs| ==> Enters(q, k, log, cs[..ne + 1])
  }

  // ----- value-level steps -----

  lemma WeakerBound(q: Query, cs: seq<Cursor>, f: nat, g: nat)
    requires CursorsOf(q, cs, f) && f <= g
    ensures CursorsOf(q, cs, g)
  {
    forall c | c in cs ensures NothingSkipped(c, g) {
      assert NothingSkipped(c, f);
    }
  }

  lemma SteppedCursors(q: Query, cs: seq<Cursor>, ne: nat, d: nat)
    requires QueryOk(q) && CursorsOf(q, cs, d) && d < q.numDocs
    requires forall i :: ne <= i < |cs| ==> Docid(q.numDocs, cs[i]) >= d
    ensures CursorsOf(q, StepFrom(q.numDocs, d, ne, cs), d + 1)
    ensures forall i :: ne <= i < |cs| ==> Docid(q.numDocs, StepFrom(q.numDocs, d, ne, cs)[i]) >= d + 1
  {
    CursorTermsOk(q, cs);
    var after := StepFrom(q.numDocs, d, ne, cs);
    assert Terms(after) == Terms(cs);
    forall i | 0 <= i < |cs|
      ensures NothingSkipped(after[i], d + 1) && (ne <= i ==> Docid(q.numDocs, after[i]) >= d + 1)
    {
      assert cs[i] in cs && NothingSkipped(cs[i], d);
      StepOnce(q, cs[i], d);
    }
  }

  lemma StepOnce(q: Query, c: Cursor, d: nat)
    requires |q.docWeight| == q.numDocs && TermOk(q, c.term) && NothingSkipped(c, d) && d < q.numDocs
    ensures NothingSkipped(StepPast(q.numDocs, d, c), d + 1)
    ensures Docid(q.numDocs, c) >= d ==> Docid(q.numDocs, StepPast(q.numDocs, d, c)) >= d + 1
  {
    var s := StepPast(q.numDocs, d, c);
    if s.pos < |c.term.docs| && c.pos < |c.term.docs| {
      OrderedIndices(c.term.docs, c.pos, s.pos);
    }
  }

  lemma LookedUpCursors(q: Query, a: seq<Cursor>, b: seq<Cursor>, ne: nat, d: nat)
    requires QueryOk(q) && CursorsOf(q, a, d + 1) && LookedUp(a, b, ne, d)
    ensures CursorsOf(q, b, d + 1) && Terms(b) == Terms(a)
  {
    CursorTermsOk(q, a);
    assert Terms(b) == Terms(a);
    forall i | 0 <= i < |b| ensures NothingSkipped(b[i], d + 1) {
      assert a[i] in a && NothingSkipped(a[i], d + 1);
      AdvancedCursor(q, a[i], d, d + 1);
    }
  }

  /** Bounds of a prefix depend on the lists only, not on where the cursors stand. */
  lemma SameTermsSameBound(q: Query, a: seq<Cursor>, b: seq<Cursor>)
    requires Terms(a) == Terms(b)
    ensures |a| == |b| && (a != [] ==> PrefixBound(q, a) == PrefixBound(q, b))
  {
    assert |a| == |Terms(a)| == |b|;
    assert forall i :: 0 <= i < |a| ==> a[i].term == Terms(a)[i] == b[i].term;
    if a != [] {
      SumByImage(CursorListMax(), CursorListMax(), a, b);
      SameStaticMax(a, b);
    }
  }

  lemma {:induction false} SameStaticMax(a: seq<Cursor>, b: seq<Cursor>)
    requires |a| == |b| > 0 && forall i :: 0 <= i < |a| ==> a[i].term == b[i].term
    ensures StaticMax(a) == StaticMax(b)
  {
    if |a| > 1 {
      SameStaticMax(a[..|a| - 1], b[..|b| - 1]);
    }
  }

  lemma EntersByTerms(q: Query, k: nat, log: seq<Entry>, a: seq<Cursor>, b: seq<Cursor>, ne: nat)
    requires Terms(a) == Terms(b) && ne <= |a|
    ensures |a| == |b| && (Enters(q, k, log, a[..ne]) <==> Enters(q, k, log, b[..ne]))
  {
    assert |a| == |Terms(a)| == |b|;
    assert Terms(a[..ne]) == Terms(a)[..ne] == Terms(b[..ne]);
    SameTermsSameBound(q, a[..ne], b[..ne]);
  }

  lemma StillNoMore(q: Query, k: nat, log: seq<Entry>, a: seq<Cursor>, b: seq<Cursor>, ne: nat)
    requires Terms(a) == Terms(b) && NoMoreToDemote(q, k, log, a, ne)
    ensures NoMoreToDemote(q, k, log, b, ne)
  {
    hide Enters;
    assert |a| == |Terms(a)| == |b|;
    if ne < |a| { EntersByTerms(q, k, log, a, b, ne + 1); }
  }

  /** The empty queue lets anything in. */
  lemma NoneToDemote(q: Query, k: nat, cs: seq<Cursor>)
    requires k > 0
    ensures NoMoreToDemote(q, k, [], cs, 0)
  {}

  /** The documents between one round and the next lie only in lists that cannot enter by themselves. */
  lemma BetweenRounds(q: Query, k: nat, cs: seq<Cursor>, log: seq<Entry>, ne: nat, f: nat, next: nat)
    requires QueryOk(q) && CursorsOf(q, cs, f) && f <= next && ne <= |cs|
    requires !Enters(q, k, log, cs[..ne])
    requires forall i :: ne <= i < |cs| ==> Docid(q.numDocs, cs[i]) >= next
    requires log == AcceptedBelow(q, k, f)
    ensures log == AcceptedBelow(q, k, next)
  {
    hide QueryOk, WouldEnter, Enters, StaticMax, LowDead;
    PrefixDead(q, k, cs, log, ne, next);
    LowDeadRefuses(q, k, cs, log, f, next, BoundOrZero(cs[..ne]));
    RefusedStretch(q, k, log, f, next);
  }

  lemma InsertKeepsRefusal(q: Query, k: nat, log: seq<Entry>, e: Entry, cs: seq<Cursor>)
    requires !Enters(q, k, log, cs)
    ensures !Enters(q, k, log + [e], cs)
  {
    if cs != [] {
      RefusedStaysRefused(k, log, e, PrefixBound(q, cs));
    }
  }

  /** The full score, split at the essential lists. */
  lemma SplitScore(q: Query, cs: seq<Cursor>, d: nat, ne: nat, i: nat)
    requires QueryOk(q) && multiset(Terms(cs)) == multiset(q.terms) && i <= ne <= |cs|
    ensures FullScore(q, d) == StaticScore(q, d) + SumBy(CursorContribution(d), cs[ne..])
                               + SumBy(CursorContribution(d), cs[i..ne]) + SumBy(CursorContribution(d), cs[..i])
    ensures SumBy(CursorContribution(d), cs[..i]) <= SumBy(CursorListMax(), cs[..i])
    ensures SumBy(CursorListMax(), cs[..i]) >= 0.0
  {
    ScoreOverCursors(q, cs, d);
    CursorTermsOk(q, cs);
    hide QueryOk, StaticScore, FullScore;
    var g := CursorContribution(d);
    assert cs == (cs[..i] + cs[i..ne]) + cs[ne..];
    SumByConcat(g, cs[..i] + cs[i..ne], cs[ne..]);
    SumByConcat(g, cs[..i], cs[i..ne]);
    forall c | c in cs[..i] ensures g(c) <= CursorListMax()(c) && CursorListMax()(c) >= 0.0 {
      assert c in cs;
      ContributionBounded(q, c.term, d);
    }
    SumByMonotone(g, CursorListMax(), cs[..i]);
    SumByNonNegative(CursorListMax(), cs[..i]);
  }

  // ----- the loops -----

  method InsertByListMax(es: seq<ScoredEnum>, e: ScoredEnum, ghost n: nat, ghost cs: seq<Cursor>, ghost c: Cursor)
    returns (r: seq<ScoredEnum>, ghost rs: seq<Cursor>)
    requires Shows(n, es, cs) && e !in es && e.numDocs == n && e.View() == c
    requires ByListMax(cs)
    ensures Shows(n, r, rs) && ByListMax(rs)
    ensures multiset(rs) == multiset(cs) + multiset{c}
    ensures multiset(r) == multiset(es) + multiset{e}
  {
    hide ListMax, ByListMax;
    var j := |es|;
    while j > 0 && ListMax(e.term) < ListMax(es[j - 1].term)
      invariant 0 <= j <= |es|
      invariant j < |es| ==> ListMax(c.term) < ListMax(cs[j].term)
    {
      assert es[j - 1].View() == cs[j - 1];
      j := j - 1;
    }
    Multisets.OfInsertion(es, j, e);
    Multisets.OfInsertion(cs, j, c);
    if j > 0 {
      assert es[j - 1].View() == cs[j - 1];
    }
    InsertedByListMax(cs, j, c);
    InsertedShows(n, es, cs, j, e, c);
    r := es[..j] + [e] + es[j..];
    rs := cs[..j] + [c] + cs[j..];
  }

  ghost predicate ByListMax(cs: seq<Cursor>) {
    forall i, j :: 0 <= i < j < |cs| ==> ListMax(cs[i].term) <= ListMax(cs[j].term)
  }

  lemma InsertedByListMax(cs: seq<Cursor>, j: nat, c: Cursor)
    requires ByListMax(cs) && j <= |cs|
    requires j > 0 ==> ListMax(cs[j - 1].term) <= ListMax(c.term)
    requires j < |cs| ==> ListMax(c.term) <= ListMax(cs[j].term)
    ensures ByListMax(cs[..j] + [c] + cs[j..])
  {
    hide ListMax;
    var r := cs[..j] + [c] + cs[j..];
    forall a, b | 0 <= a < b < |r| ensures ListMax(r[a].term) <= ListMax(r[b].term) {
      if a < j && b >= j {
        assert ListMax(cs[a].term) <= ListMax(cs[j - 1].term);
      }
      if b > j && a <= j {
        assert ListMax(cs[j].term) <= ListMax(cs[b - 1].term);
      }
    }
  }

  /** The contract of sorting the enumerators by increasing list maximum. */
  method SortByListMax(es: seq<ScoredEnum>, ghost n: nat, ghost cs: seq<Cursor>)
    returns (r: seq<ScoredEnum>, ghost rs: seq<Cursor>)
    requires Shows(n, es, cs)
    ensures Shows(n, r, rs) && ByListMax(rs)
    ensures multiset(rs) == multiset(cs) && multiset(r) == multiset(es)
  {
    r, rs := [], [];
    for i := 0 to |es|
      invariant multiset(r) == multiset(es[..i]) && multiset(rs) == multiset(cs[..i])
      invariant Shows(n, r, rs) && ByListMax(rs)
    {
      hide ByListMax;
      NotAmongEarlier(es, i, r);
      r, rs := InsertByListMax(r, es[i], n, rs, cs[i]);
      assert es[..i + 1] == es[..i] + [es[i]];
      assert cs[..i + 1] == cs[..i] + [cs[i]];
    }
    assert es[..|es|] == es && cs[..|cs|] == cs;
  }

  ghost predicate BoundsAre(q: Query, cs: seq<Cursor>, upper: seq<real>, docWeight: seq<real>) {
    && |upper| == |docWeight| == |cs|
    && (forall i :: 0 <= i < |cs| ==> upper[i] == SumBy(CursorListMax(), cs[..i + 1]))
    && (forall i :: 0 <= i < |cs| ==> docWeight[i] == StaticBound(q, StaticMax(cs[..i + 1])))
  }

  /** Running sums of list maxima and running maxima of document weights. */
  method PrefixBounds(q: Query, es: seq<ScoredEnum>, ghost cs: seq<Cursor>)
    returns (upper: seq<real>, docWeight: seq<real>)
    requires Shows(q.numDocs, es, cs)
    ensures BoundsAre(q, cs, upper, docWeight)
  {
    upper, docWeight := [], [];
    var maxStatic := 0.0;  // stands for the lowest double until the first list is seen
    var sum := 0.0;
    for i := 0 to |es|
      invariant |upper| == |docWeight| == i
      invariant sum == SumBy(CursorListMax(), cs[..i]) && maxStatic == BoundOrZero(cs[..i])
      invariant forall j :: 0 <= j < i ==> upper[j] == SumBy(CursorListMax(), cs[..j + 1])
      invariant forall j :: 0 <= j < i ==> docWeight[j] == StaticBound(q, StaticMax(cs[..j + 1]))
    {
      hide SumBy, StaticMax, StaticBound, ListMax;
      assert es[i].View() == cs[i];
      Wand.PrefixStep(q, cs, i);
      sum := sum + ListMax(es[i].term);
      maxStatic := if i == 0 then es[i].term.maxDocWeight else MaxOf(maxStatic, es[i].term.maxDocWeight);
      Wand.StaticBoundIs(q, maxStatic);
      upper := upper + [sum];
      docWeight := docWeight + [maxStatic * q.qLen as real];
    }
  }

  /** Scores document `cur` in the essential lists and finds the next document among them. */
  method ScoreEssential(q: Query, es: seq<ScoredEnum>, ne: nat, cur: nat, ghost cs: seq<Cursor>)
    returns (score: real, nextDoc: nat)
    requires QueryOk(q) && Shows(q.numDocs, es, cs) && CursorsOf(q, cs, cur) && cur < q.numDocs
    requires ne <= |es| && forall i :: ne <= i < |cs| ==> Docid(q.numDocs, cs[i]) >= cur
    modifies es
    ensures Shows(q.numDocs, es, StepFrom(q.numDocs, cur, ne, cs))
    ensures score == StaticScore(q, cur) + SumBy(CursorContribution(cur), cs[ne..])
    ensures nextDoc == RankedOr.LeastDocid(q.numDocs, StepFrom(q.numDocs, cur, ne, cs)[ne..])
  {
    hide CursorsOf, QueryOk, StaticScore, StepFrom, SumBy, CursorContribution, StepPast, PartAt, Lesser, Halfway,
         RankedOr.LeastDocid;
    ghost var stepped, now := StepFrom(q.numDocs, cur, ne, cs), cs;
    StepFromFacts(q.numDocs, cur, ne, cs);
    EmptySum(CursorContribution(cur));
    assert cs[ne..ne] == [] && stepped[ne..ne] == [];
    HalfwayStart(cs, stepped, ne);
    NoneIsEnd(q.numDocs);
    score := StaticPart(q, cur);
    nextDoc := q.numDocs;
    for i := ne to |es|
      invariant |now| == |cs| && Shows(q.numDocs, es, now) && Halfway(now, cs, stepped, i)
      invariant score == StaticScore(q, cur) + SumBy(CursorContribution(cur), cs[ne..i])
      invariant nextDoc == RankedOr.LeastDocid(q.numDocs, stepped[ne..i])
    {
      HalfwayNext(now, cs, stepped, i);
      EssentialStep(q, cs, cur, ne, i);
      LeastStep(q.numDocs, stepped, ne, i);
      var part;
      part, nextDoc := StepEssential(es, i, cur, nextDoc, q.numDocs, now);
      score := score + part;
      now := now[i := stepped[i]];
    }
    HalfwayDone(now, cs, stepped, |es|);
    assert cs[ne..|es|] == cs[ne..] && stepped[ne..|es|] == stepped[ne..];
  }

  method StepEssential(es: seq<ScoredEnum>, i: nat, d: nat, next: nat, numDocs: nat, ghost cs: seq<Cursor>)
    returns (part: real, r: nat)
    requires Shows(numDocs, es, cs) && i < |es| && d < numDocs
    requires |cs[i].term.weights| == |cs[i].term.docs|
    modifies es
    ensures Shows(numDocs, es, cs[i := StepPast(numDocs, d, cs[i])])
    ensures part == PartAt(numDocs, d, cs[i])
    ensures r == Lesser(next, Docid(numDocs, StepPast(numDocs, d, cs[i])))
  {
    part := ScoreIfHere(es, i, d, numDocs, cs);
    r := next;
    if es[i].Docid() < r {
      r := es[i].Docid();
    }
  }

  lemma {:induction false} NoneIsEnd(n: nat)
    ensures RankedOr.LeastDocid(n, []) == n
  {}

  ghost function Lesser(a: nat, b: nat): nat {
    if b < a then b else a
  }

  lemma {:induction false} LeastStep(n: nat, cs: seq<Cursor>, ne: nat, i: nat)
    requires ne <= i < |cs|
    ensures RankedOr.LeastDocid(n, cs[ne..i + 1]) == Lesser(RankedOr.LeastDocid(n, cs[ne..i]), Docid(n, cs[i]))
  {
    assert cs[ne..i + 1][..i - ne] == cs[ne..i];
  }

  method StaticPart(q: Query, d: nat) returns (score: real)
    requires QueryOk(q) && d < q.numDocs
    ensures score == StaticScore(q, d)
  {
    score := q.docWeight[d] * q.qLen as real;
  }

  lemma StepFromFacts(n: nat, d: nat, ne: nat, cs: seq<Cursor>)
    requires ne <= |cs|
    ensures |StepFrom(n, d, ne, cs)| == |cs| && StepFrom(n, d, ne, cs)[..ne] == cs[..ne]
    ensures forall i :: ne <= i < |cs| ==> StepFrom(n, d, ne, cs)[i] == StepPast(n, d, cs[i])
  {}

  lemma EssentialStep(q: Query, cs: seq<Cursor>, d: nat, ne: nat, i: nat)
    requires QueryOk(q) && CursorsOf(q, cs, d) && ne <= i < |cs| && d < q.numDocs && Docid(q.numDocs, cs[i]) >= d
    ensures |cs[i].term.weights| == |cs[i].term.docs|
    ensures SumBy(CursorContribution(d), cs[ne..i + 1]) ==
            SumBy(CursorContribution(d), cs[ne..i]) + PartAt(q.numDocs, d, cs[i])
  {
    assert cs[i] in cs;
    CursorTermsOk(q, cs);
    DocidContribution(q, cs[i], d, d);
    assert cs[ne..i + 1] == cs[ne..i] + [cs[i]];
    SumByAppend(CursorContribution(d), cs[ne..i], cs[i]);
  }

  /** Looks one list up at document d and adds its contribution. */
  method LookUp(q: Query, es: seq<ScoredEnum>, i: nat, d: nat, ghost cs: seq<Cursor>)
    returns (part: real, ghost rs: seq<Cursor>)
    requires QueryOk(q) && Shows(q.numDocs, es, cs) && i < |es| && d < q.numDocs
    requires |q.docWeight| == q.numDocs && TermOk(q, cs[i].term) && NothingSkipped(cs[i], d)
    modifies es
    ensures rs == cs[i := Advanced(cs[i], d)] && Shows(q.numDocs, es, rs)
    ensures part == Contribution(cs[i].term, d)
  {
    NextGeqAt(es, i, d, q.numDocs, cs);
    rs := cs[i := Advanced(cs[i], d)];
    AdvancedCursor(q, cs[i], d, d);
    DocidContribution(q, rs[i], d, d);
    part := 0.0;
    if es[i].Docid() == d {
      part := es[i].term.qWeight * es[i].term.weights[es[i].pos];
    }
  }

  /** Completes the score with the non-essential lists, stopping when it can no longer enter. */
  method Complete(q: Query, es: seq<ScoredEnum>, ne: nat, d: nat, start: real, upper: seq<real>, topk: TopKQueue,
                  ghost cs: seq<Cursor>, ghost docWeight: seq<real>)
    returns (score: real, ghost rs: seq<Cursor>, ghost left: nat)
    requires QueryOk(q) && topk.Valid() && Shows(q.numDocs, es, cs) && ne <= |es| && d < q.numDocs
    requires multiset(Terms(cs)) == multiset(q.terms) && BoundsAre(q, cs, upper, docWeight)
    requires forall i :: 0 <= i < ne ==> NothingSkipped(cs[i], d)
    requires start == StaticScore(q, d) + SumBy(CursorContribution(d), cs[ne..])
    modifies es
    ensures Shows(q.numDocs, es, rs) && LookedUp(cs, rs, ne, d)
    ensures d < |q.docWeight| && |cs| == |upper|
    ensures LookedWhileEntering(q, topk.k, topk.accepted, cs, d, upper, ne, left)
    ensures LookedFrom(cs, rs, left, ne, d) && score == ScoreFrom(q, cs, d, left)
    ensures score == FullScore(q, d) ||
            (!WouldEnter(topk.k, topk.accepted, score) && !WouldEnter(topk.k, topk.accepted, FullScore(q, d)))
  {
    hide QueryOk, QueueOk, WouldEnter, FullScore, StaticScore, SumBy, NothingSkipped, ScoreFrom, MayEnter, LookedFrom;
    CompleteFacts(q, cs, d, ne, upper, docWeight);
    score, rs, left := start, cs, ne;
    var i := ne - 1;
    while i >= 0
      invariant -1 <= i < ne && left == i + 1
      invariant Shows(q.numDocs, es, rs) && LookedFrom(cs, rs, left, ne, d)
      invariant score == ScoreFrom(q, cs, d, left)
      invariant forall j :: left < j <= ne ==> MayEnter(q, topk.k, topk.accepted, cs, d, upper, j)
    {
      SplitFrom(q, cs, d, left);
      topk.AdmitsIsWouldEnter(score + upper[i]);
      MayEnterIs(q, topk.k, topk.accepted, cs, d, upper, left);
      if !topk.Admits(score + upper[i]) {
        AntitoneRefusal(topk.k, topk.accepted, score, score + upper[i]);
        AntitoneRefusal(topk.k, topk.accepted, FullScore(q, d), score + upper[i]);
        LookedFromUp(cs, rs, left, ne, d);
        return;
      }
      ListTermOk(q, cs, i);
      NextLookUp(cs, rs, left, ne, d);
      var part;
      part, rs := LookUp(q, es, i, d, rs);
      ScoreFromStep(q, cs, d, i);
      score := score + part;
      i, left := i - 1, i;
    }
    SplitFrom(q, cs, d, 0);
    LookedFromUp(cs, rs, 0, ne, d);
    NothingBefore(q, cs, d);
  }

  lemma CompleteFacts(q: Query, cs: seq<Cursor>, d: nat, ne: nat, upper: seq<real>, docWeight: seq<real>)
    requires QueryOk(q) && d < q.numDocs && ne <= |cs| && BoundsAre(q, cs, upper, docWeight)
    ensures d < |q.docWeight| && |upper| == |cs| && LookedFrom(cs, cs, ne, ne, d)
    ensures ScoreFrom(q, cs, d, ne) == StaticScore(q, d) + SumBy(CursorContribution(d), cs[ne..])
    ensures forall i :: 0 <= i < |cs| ==> upper[i] == SumBy(CursorListMax(), cs[..i + 1])
  {}

  lemma MayEnterIs(q: Query, k: nat, log: seq<Entry>, cs: seq<Cursor>, d: nat, upper: seq<real>, i: nat)
    requires d < |q.docWeight| && 0 < i <= |cs| == |upper|
    ensures MayEnter(q, k, log, cs, d, upper, i) <==> WouldEnter(k, log, ScoreFrom(q, cs, d, i) + upper[i - 1])
  {}

  lemma LookedFromUp(a: seq<Cursor>, b: seq<Cursor>, left: nat, ne: nat, d: nat)
    requires LookedFrom(a, b, left, ne, d)
    ensures LookedUp(a, b, ne, d)
  {}

  lemma NextLookUp(cs: seq<Cursor>, rs: seq<Cursor>, left: nat, ne: nat, d: nat)
    requires LookedFrom(cs, rs, left, ne, d) && 0 < left <= ne <= |cs|
    ensures |rs| == |cs| && rs[left - 1] == cs[left - 1]
    ensures LookedFrom(cs, rs[left - 1 := Advanced(cs[left - 1], d)], left - 1, ne, d)
  {}

  lemma NothingBefore(q: Query, cs: seq<Cursor>, d: nat)
    ensures cs[..0] == [] && SumBy(CursorContribution(d), []) == 0.0
  {}

  /** The full score in two parts, the second no larger than the list maxima allow. */
  lemma SplitFrom(q: Query, cs: seq<Cursor>, d: nat, i: nat)
    requires QueryOk(q) && multiset(Terms(cs)) == multiset(q.terms) && i <= |cs| && d < |q.docWeight|
    ensures FullScore(q, d) == ScoreFrom(q, cs, d, i) + SumBy(CursorContribution(d), cs[..i])
    ensures SumBy(CursorContribution(d), cs[..i]) <= SumBy(CursorListMax(), cs[..i])
    ensures SumBy(CursorListMax(), cs[..i]) >= 0.0
  {
    hide QueryOk, FullScore, StaticScore;
    SplitScore(q, cs, d, |cs|, i);
    assert cs[|cs|..] == [] && cs[i..|cs|] == cs[i..];
    EmptySum(CursorContribution(d));
  }

  lemma ScoreFromStep(q: Query, cs: seq<Cursor>, d: nat, i: nat)
    requires i < |cs| && d < |q.docWeight|
    ensures ScoreFrom(q, cs, d, i) == ScoreFrom(q, cs, d, i + 1) + Contribution(cs[i].term, d)
  {
    hide StaticScore;
    PrependSum(CursorContribution(d), cs, i, |cs|);
    assert cs[i..|cs|] == cs[i..] && cs[i + 1..|cs|] == cs[i + 1..];
  }

  lemma EmptySum(g: Cursor -> real)
    ensures SumBy(g, []) == 0.0
  {}

  lemma ListTermOk(q: Query, cs: seq<Cursor>, i: nat)
    requires QueryOk(q) && multiset(Terms(cs)) == multiset(q.terms) && i < |cs|
    ensures |q.docWeight| == q.numDocs && TermOk(q, cs[i].term)
  {
    CursorTermsOk(q, cs);
    assert cs[i] in cs;
  }

  lemma PrependSum(g: Cursor -> real, cs: seq<Cursor>, i: nat, ne: nat)
    requires i < ne <= |cs|
    ensures SumBy(g, cs[i..ne]) == g(cs[i]) + SumBy(g, cs[i + 1..ne])
  {
    assert cs[i..ne][1..] == cs[i + 1..ne];
  }

  /** Demotes lists while the bound of all demoted ones cannot enter. */
  method Demote(q: Query, from: nat, upper: seq<real>, docWeight: seq<real>, topk: TopKQueue, ghost cs: seq<Cursor>)
    returns (ne: nat)
    requires topk.Valid() && BoundsAre(q, cs, upper, docWeight) && from <= |cs|
    requires !Enters(q, topk.k, topk.accepted, cs[..from])
    ensures from <= ne <= |cs| && !Enters(q, topk.k, topk.accepted, cs[..ne])
    ensures NoMoreToDemote(q, topk.k, topk.accepted, cs, ne)
  {
    hide QueueOk, WouldEnter, StaticBound, StaticMax, SumBy;
    ne := from;
    while ne < |upper|
      invariant from <= ne <= |cs| && !Enters(q, topk.k, topk.accepted, cs[..ne])
    {
      topk.AdmitsIsWouldEnter(upper[ne] + docWeight[ne]);
      if topk.Admits(upper[ne] + docWeight[ne]) { break; }
      ne := ne + 1;
    }
  }

  /** What one round does to the state, at the level of values. */
  lemma RoundState(q: Query, k: nat, cs: seq<Cursor>, log: seq<Entry>, ne: nat, cur: nat, rs: seq<Cursor>,
                   log': seq<Entry>, next: nat, ne': nat)
    requires QueryOk(q) && MaxScoreState(q, k, cs, log, ne, cur) && cur < q.numDocs
    requires LookedUp(StepFrom(q.numDocs, cur, ne, cs), rs, ne, cur)
    requires next == RankedOr.LeastDocid(q.numDocs, StepFrom(q.numDocs, cur, ne, cs)[ne..])
    requires log' == AcceptedBelow(q, k, cur + 1)
    requires ne <= ne' <= |cs| && !Enters(q, k, log', rs[..ne']) && !Enters(q, k, log', rs[..ne])
    ensures next > cur && MaxScoreState(q, k, rs, log', ne', next)
  {
    hide QueryOk, WouldEnter, Enters, CursorsOf, AcceptedBelow, RankedOr.LeastDocid;
    var after := StepFrom(q.numDocs, cur, ne, cs);
    SteppedCursors(q, cs, ne, cur);
    LookedUpCursors(q, after, rs, ne, cur);
    RankedOr.LeastDocidIsLeast(q.numDocs, after[ne..]);
    NextIsBeyond(q, after, ne, cur, next);
    assert forall i :: ne <= i < |rs| ==> rs[i] == after[i];
    BetweenRounds(q, k, rs, log', ne, cur + 1, next);
    WeakerBound(q, rs, cur + 1, next);
    if next < q.numDocs {
      NextMatches(q, after, ne, cur + 1, next);
    }
  }

  lemma NextIsBeyond(q: Query, after: seq<Cursor>, ne: nat, cur: nat, next: nat)
    requires ne <= |after| && cur < q.numDocs
    requires forall i :: ne <= i < |after| ==> Docid(q.numDocs, after[i]) >= cur + 1
    requires next <= q.numDocs && AllFrom(q.numDocs, after[ne..], next)
    requires next < q.numDocs ==> exists c <- after[ne..] :: Docid(q.numDocs, c) == next
    ensures next > cur
    ensures forall i :: ne <= i < |after| ==> Docid(q.numDocs, after[i]) >= next
  {
    forall i | ne <= i < |after| ensures Docid(q.numDocs, after[i]) >= next {
      assert after[ne..][i - ne] in after[ne..];
    }
    if next < q.numDocs {
      var c :| c in after[ne..] && Docid(q.numDocs, c) == next;
      var i :| 0 <= i < |after[ne..]| && after[ne..][i] == c;
      assert after[ne + i] == c;
    }
  }

  lemma NextMatches(q: Query, after: seq<Cursor>, ne: nat, f: nat, next: nat)
    requires QueryOk(q) && CursorsOf(q, after, f) && ne <= |after| && next < q.numDocs
    requires exists c <- after[ne..] :: Docid(q.numDocs, c) == next
    ensures Matches(q, next)
  {
    var c :| c in after[ne..] && Docid(q.numDocs, c) == next;
    CursorTermsOk(q, after);
    assert c in after && c.term in q.terms && next in c.term.docs;
  }

  /** When every list is demoted, or the documents are used up, nothing is left to accept. */
  lemma FinalState(q: Query, k: nat, cs: seq<Cursor>, log: seq<Entry>, ne: nat, cur: nat)
    requires QueryOk(q) && MaxScoreState(q, k, cs, log, ne, cur)
    requires ne == |cs| || cur >= q.numDocs
    ensures log == AcceptedBelow(q, k, q.numDocs)
  {
    if cur < q.numDocs {
      BetweenRounds(q, k, cs, log, ne, cur, q.numDocs);
    }
  }

  lemma {:induction false} StartMaxScore(q: Query, k: nat, start: seq<Cursor>, cs: seq<Cursor>)
    requires QueryOk(q) && CursorsOf(q, start, 0) && multiset(cs) == multiset(start)
    ensures MaxScoreState(q, k, cs, [], 0, RankedOr.LeastDocid(q.numDocs, start))
  {
    var cur := RankedOr.LeastDocid(q.numDocs, start);
    CursorsOfPermutation(q, start, cs, 0);
    RankedOr.NextDocument(q, start, 0);
    RefusedStretch(q, k, [], 0, cur);
    WeakerBound(q, cs, 0, cur);
    forall i | 0 <= i < |cs| ensures Docid(q.numDocs, cs[i]) >= cur {
      assert cs[i] in multiset(start);
    }
  }

  lemma OfferedAtCurrent(q: Query, k: nat, cs: seq<Cursor>, log: seq<Entry>, ne: nat, cur: nat)
    requires MaxScoreState(q, k, cs, log, ne, cur) && cur < q.numDocs
    ensures AcceptedBelow(q, k, cur + 1) ==
            if WouldEnter(k, log, FullScore(q, cur)) then log + [Entry(FullScore(q, cur), cur)] else log
    ensures CursorsOf(q, cs, cur) && ne <= |cs| && multiset(Terms(cs)) == multiset(q.terms)
    ensures forall i :: ne <= i < |cs| ==> Docid(q.numDocs, cs[i]) >= cur
    ensures forall i :: 0 <= i < |cs| ==> NothingSkipped(cs[i], cur)
    ensures !Enters(q, k, log, cs[..ne])
  {
    AcceptedStep(q, k, cur);
    forall i | 0 <= i < |cs| ensures NothingSkipped(cs[i], cur) {
      assert cs[i] in cs;
    }
  }

  lemma SteppedTerms(n: nat, d: nat, ne: nat, cs: seq<Cursor>, rs: seq<Cursor>)
    ensures |StepFrom(n, d, ne, cs)| == |cs| && Terms(StepFrom(n, d, ne, cs)) == Terms(cs)
    ensures forall i :: 0 <= i < |cs| && i < ne ==> StepFrom(n, d, ne, cs)[i] == cs[i]
    ensures LookedUp(StepFrom(n, d, ne, cs), rs, ne, d) ==> Terms(rs) == Terms(cs)
  {}

  lemma SameBounds(q: Query, a: seq<Cursor>, b: seq<Cursor>, upper: seq<real>, docWeight: seq<real>)
    requires Terms(a) == Terms(b) && BoundsAre(q, a, upper, docWeight)
    ensures BoundsAre(q, b, upper, docWeight)
  {
    assert |a| == |Terms(a)| == |b|;
    assert forall i :: 0 <= i < |a| ==> a[i].term == Terms(a)[i] == b[i].term;
    forall i | 0 <= i < |b|
      ensures upper[i] == SumBy(CursorListMax(), b[..i + 1]) && docWeight[i] == StaticBound(q, StaticMax(b[..i + 1]))
    {
      SumByImage(CursorListMax(), CursorListMax(), a[..i + 1], b[..i + 1]);
      SameStaticMax(a[..i + 1], b[..i + 1]);
    }
  }

  lemma SumOfRest(q: Query, d: nat, ne: nat, cs: seq<Cursor>, after: seq<Cursor>)
    requires ne <= |cs| && Terms(after) == Terms(cs)
    ensures ne <= |after| && SumBy(CursorContribution(d), after[ne..]) == SumBy(CursorContribution(d), cs[ne..])
  {
    assert |cs| == |Terms(cs)| == |after|;
    assert forall i :: 0 <= i < |cs| ==> after[i].term == Terms(cs)[i] == cs[i].term;
    SumByImage(CursorContribution(d), CursorContribution(d), after[ne..], cs[ne..]);
  }

  class MaxScoreQuery {
    const topk: TopKQueue

    constructor (k: nat)
      requires k >= 1
      ensures topk.Valid() && topk.k == k && fresh(topk)
    {
      topk := new TopKQueue(k);
    }

    /** Scores one document: completely, or until it is known not to enter. */
    method ScoreDocument(q: Query, es: seq<ScoredEnum>, ne: nat, cur: nat, upper: seq<real>,
                         ghost cs: seq<Cursor>, ghost docWeight: seq<real>)
      returns (score: real, nextDoc: nat, ghost rs: seq<Cursor>, ghost left: nat)
      requires QueryOk(q) && topk.Valid() && Shows(q.numDocs, es, cs)
      requires MaxScoreState(q, topk.k, cs, topk.accepted, ne, cur) && cur < q.numDocs
      requires BoundsAre(q, cs, upper, docWeight)
      modifies es
      ensures topk.Valid() && Shows(q.numDocs, es, rs)
      ensures LookedUp(StepFrom(q.numDocs, cur, ne, cs), rs, ne, cur)
      ensures DocumentScored(q, topk.k, topk.accepted, StepFrom(q.numDocs, cur, ne, cs), cur, upper, ne, left, score,
                             rs)
      ensures nextDoc == RankedOr.LeastDocid(q.numDocs, StepFrom(q.numDocs, cur, ne, cs)[ne..])
      ensures score == FullScore(q, cur) ||
              (!WouldEnter(topk.k, topk.accepted, score) && !WouldEnter(topk.k, topk.accepted, FullScore(q, cur)))
    {
      hide QueryOk, QueueOk, WouldEnter, Enters, CursorsOf, FullScore, StaticScore, MaxScoreState, BoundsAre,
           NothingSkipped, StepFrom, LookedUp, LookedFrom, LookedWhileEntering, ScoreFrom, RankedOr.LeastDocid, SumBy;
      OfferedAtCurrent(q, topk.k, cs, topk.accepted, ne, cur);
      ShownLength(q.numDocs, es, cs);
      ghost var after := StepFrom(q.numDocs, cur, ne, cs);
      SteppedTerms(q.numDocs, cur, ne, cs, after);
      SameBounds(q, cs, after, upper, docWeight);
      SumOfRest(q, cur, ne, cs, after);
      var part;
      part, nextDoc := ScoreEssential(q, es, ne, cur, cs);
      score, rs, left := Complete(q, es, ne, cur, part, upper, topk, after, docWeight);
    }

    /** One round: score a document, offer it, demote lists if it entered. */
    method Round(q: Query, es: seq<ScoredEnum>, ne: nat, cur: nat, upper: seq<real>, docWeight: seq<real>,
                 ghost cs: seq<Cursor>)
      returns (ne': nat, nextDoc: nat, ghost rs: seq<Cursor>, ghost left: nat, ghost offered: real)
      requires QueryOk(q) && topk.Valid() && Shows(q.numDocs, es, cs)
      requires NoMoreToDemote(q, topk.k, topk.accepted, cs, ne)
      requires MaxScoreState(q, topk.k, cs, topk.accepted, ne, cur) && cur < q.numDocs
      requires BoundsAre(q, cs, upper, docWeight)
      modifies topk, es
      ensures topk.Valid() && Shows(q.numDocs, es, rs) && nextDoc > cur
      ensures MaxScoreState(q, topk.k, rs, topk.accepted, ne', nextDoc)
      ensures BoundsAre(q, rs, upper, docWeight)
      ensures NoMoreToDemote(q, topk.k, topk.accepted, rs, ne')
      ensures DocumentScored(q, topk.k, old(topk.accepted), StepFrom(q.numDocs, cur, ne, cs), cur, upper, ne, left,
                             offered, rs)
    {
      hide QueryOk, QueueOk, WouldEnter, Enters, CursorsOf, FullScore, MaxScoreState, BoundsAre, NothingSkipped,
           NoMoreToDemote, DocumentScored, StepFrom, LookedUp, RankedOr.LeastDocid, Shows, AcceptedBelow;
      OfferedAtCurrent(q, topk.k, cs, topk.accepted, ne, cur);
      ghost var log := topk.accepted;
      var score;
      score, nextDoc, rs, left := ScoreDocument(q, es, ne, cur, upper, cs, docWeight);
      offered := score;
      SteppedTerms(q.numDocs, cur, ne, cs, rs);
      EntersByTerms(q, topk.k, log, cs, rs, ne);
      SameBounds(q, cs, rs, upper, docWeight);
      var entered := topk.Insert(score, cur);
      if entered {
        InsertKeepsRefusal(q, topk.k, log, Entry(score, cur), rs[..ne]);
        ne' := Demote(q, ne, upper, docWeight, topk, rs);
      } else {
        ne' := ne;
        StillNoMore(q, topk.k, log, cs, rs, ne);
      }
      RoundState(q, topk.k, cs, log, ne, cur, rs, topk.accepted, nextDoc, ne');
    }

    method Search(q: Query, start: seq<ScoredEnum>, ghost startCs: seq<Cursor>, ghost objects: set<ScoredEnum>)
      requires QueryOk(q) && topk.Valid() && topk.accepted == [] && topk.k >= 1
      requires Shows(q.numDocs, start, startCs) && CursorsOf(q, startCs, 0)
      requires objects == set e | e in start
      modifies topk, objects
      ensures topk.Valid() && topk.accepted == AcceptedBelow(q, topk.k, q.numDocs)
    {
      hide QueryOk, QueueOk, WouldEnter, Enters, CursorsOf, MaxScoreState, BoundsAre, RankedOr.LeastDocid, ByListMax;
      var cur := RankedOr.MinDocid(start, q.numDocs, startCs);
      var es;
      ghost var cs;
      es, cs := SortByListMax(start, q.numDocs, startCs);
      Wand.SameObjects(start, es);
      StartMaxScore(q, topk.k, startCs, cs);
      var upper, docWeight := PrefixBounds(q, es, cs);
      NoneToDemote(q, topk.k, cs);
      Loop(q, es, cur, upper, docWeight, cs, objects);
    }

    method Loop(q: Query, es: seq<ScoredEnum>, firstDoc: nat, upper: seq<real>, docWeight: seq<real>,
                ghost startCs: seq<Cursor>, ghost objects: set<ScoredEnum>)
      requires QueryOk(q) && topk.Valid() && Shows(q.numDocs, es, startCs) && forall e <- es :: e in objects
      requires MaxScoreState(q, topk.k, startCs, topk.accepted, 0, firstDoc)
      requires NoMoreToDemote(q, topk.k, topk.accepted, startCs, 0) && ByListMax(startCs)
      requires BoundsAre(q, startCs, upper, docWeight)
      modifies topk, objects
      ensures topk.Valid() && topk.accepted == AcceptedBelow(q, topk.k, q.numDocs)
    {
      hide QueryOk, QueueOk, WouldEnter, Enters, CursorsOf, MaxScoreState, BoundsAre, NoMoreToDemote, DocumentScored;
      var cur: nat, nonEssential: nat := firstDoc, 0;
      ghost var cs := startCs;
      while nonEssential < |es| && cur < q.numDocs
        invariant topk.Valid() && Shows(q.numDocs, es, cs)
        invariant MaxScoreState(q, topk.k, cs, topk.accepted, nonEssential, cur)
        invariant BoundsAre(q, cs, upper, docWeight) && NoMoreToDemote(q, topk.k, topk.accepted, cs, nonEssential)
        decreases q.numDocs - cur
      {
        ghost var left, offered;
        nonEssential, cur, cs, left, offered := Round(q, es, nonEssential, cur, upper, docWeight, cs);
      }
      DemotedInRange(q, topk.k, cs, topk.accepted, nonEssential, cur);
      FinalState(q, topk.k, cs, topk.accepted, nonEssential, cur);
    }

    /** MaxScore accepts exactly the insertions of the exhaustive run and leaves the same scores. */
    method Run(q: Query)
      requires QueryOk(q) && topk.k >= 1
      modifies topk
      ensures topk.accepted == AcceptedBelow(q, topk.k, q.numDocs)
      ensures Scores(topk.entries) == FinalScores(topk.k, Offers(q, q.numDocs))
      ensures multiset(topk.entries) <= multiset(topk.accepted)
    {
      topk.Clear();
      if q.terms == [] {
        RankedOr.NoTermsNoOffers(q, q.numDocs);
        return;
      }
      var es := MakeEnums(q);
      RankedOr.InitialCursors(q);
      Search(q, es, FirstPostings(q.terms), set e | e in es);
      AcceptedKeepsBest(topk.k, Offers(q, q.numDocs));
      topk.Finalize();
    }
  }

  lemma ShownLength(n: nat, es: seq<ScoredEnum>, cs: seq<Cursor>)
    requires Shows(n, es, cs)
    ensures |es| == |cs|
  {}

  lemma DemotedInRange(q: Query, k: nat, cs: seq<Cursor>, log: seq<Entry>, ne: nat, cur: nat)
    requires MaxScoreState(q, k, cs, log, ne, cur)
    ensures ne <= |cs|
  {}
}
