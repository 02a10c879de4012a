/** `block_max_wand_query`: WAND that also tests the bounds of the blocks under the pivot, jumps over
    whole blocks when they fail, and stops scoring a document early. */
module BlockMaxWand {
  import opened SortedLists
  import opened Sums
  import opened TopK
  import opened TopKQueues
  import opened Postings
  import opened ScoredEnums
  import opened CursorSteps
  import opened Pruning
  import opened Wand
  import opened BlockMaxState
  import RankedOr

  // ----- value-level transitions -----

  /** A block cursor that reaches the pivot without being past it is where a search from the first block would stop. */
  lemma {:induction false} OnFirstReachingBlock(c: Cursor, d: nat)
    requires BlockBehind(c, d) && BlockReaches(c, d)
    ensures c.block == SeekBlock(c.term.blockLast, 0, d)
  {
    var s := SeekBlock(c.term.blockLast, 0, d);
    assert c.term.blockLast[s] >= d || s + 1 == |c.term.blockLast|;
  }

  /** Scoring the pivot document completely or giving up on it leaves the queue as the exhaustive loop would. */
  lemma EvaluatedState(q: Query, k: nat, cs: seq<Cursor>, log: seq<Entry>, d: nat, done: nat, p: nat, m: real, bm: real)
    requires QueryOk(q) && AtPivot(q, k, cs, log, d, done, p, m, bm) && done <= d && Docid(q.numDocs, cs[0]) == d
    ensures var after := StepAll(q.numDocs, d, cs);
            && CursorsOf(q, after, d + 1) && AllFrom(q.numDocs, after, d + 1) && BlocksBehind(after, d + 1)
            && Remaining(after) <= Remaining(cs) - 1.0
    ensures AcceptedBelow(q, k, d + 1) ==
            if WouldEnter(k, log, FullScore(q, d)) then log + [Entry(FullScore(q, d), d)] else log
  {
    hide QueryOk, WouldEnter, LowDead, BlockDead, Remaining, BlockBehind;
    UndecidedPivot(q, k, cs, log, d, done, p, m, bm);
    AllFromFirst(q, cs);
    SteppedPast(q, cs, StepAll(q.numDocs, d, cs), d);
    RemainingAfterStep(q.numDocs, d, cs);
    AcceptedStep(q, k, d);
    PivotMatches(q, cs, p);
    SteppedBlocks(q.numDocs, cs, d);
  }

  lemma SteppedBlocks(n: nat, cs: seq<Cursor>, d: nat)
    requires BlocksBehind(cs, d)
    ensures BlocksBehind(StepAll(n, d, cs), d + 1)
  {
    forall c | c in StepAll(n, d, cs) ensures BlockBehind(c, d + 1) {
      var i :| 0 <= i < |cs| && StepAll(n, d, cs)[i] == c;
      assert cs[i] in cs;
    }
  }

  /** The parts of `AtPivot` that a move of one cursor needs. */
  lemma MoveFacts(q: Query, k: nat, cs: seq<Cursor>, log: seq<Entry>, d: nat, done: nat, p: nat, m: real, bm: real,
                  j: nat, target: nat)
    requires QueryOk(q) && AtPivot(q, k, cs, log, d, done, p, m, bm) && j <= p && target >= d
    requires Docid(q.numDocs, cs[j]) < target
    ensures var after := cs[j := Advanced(cs[j], target)];
            && CursorsOf(q, after, if done < target then target else done)
            && LowDead(q, k, after, log, d, m)
            && SortedExcept(q.numDocs, after, j)
            && BlocksBehind(after, d)
            && Remaining(after) <= Remaining(cs) - 1.0
            && Docid(q.numDocs, after[j]) >= Docid(q.numDocs, cs[j])
  {
    hide WouldEnter, LowDead, BlockDead, Remaining, BlockReaches, StaticBound;
    assert cs[j] in cs && TermOk(q, cs[j].term) by { CursorTermsOk(q, cs); }
    hide QueryOk, TermOk;
    var c := Advanced(cs[j], target);
    AdvancedCursor(q, cs[j], target, done);
    AdvanceOne(q, cs, done, j, target);
    LowDeadAfterMove(q, k, cs, log, d, m, j, c);
    RemainingAfterMove(q, cs, j, target);
    assert forall x <- cs[j := c] :: x in cs || x == c;
    assert BlockBehind(cs[j], d);
  }

  /** Jumping a list to `next`, when nothing before `next` can enter. */
  lemma SkippedState(q: Query, k: nat, cs: seq<Cursor>, log: seq<Entry>, d: nat, done: nat, p: nat, m: real, bm: real,
                     j: nat, next: nat)
    requires BlockQueryOk(q) && AtPivot(q, k, cs, log, d, done, p, m, bm) && j <= p
    requires !WouldEnter(k, log, PivotBlockBound(q, cs, p))
    requires d < next <= q.numDocs
    requires forall i :: p < i < |cs| ==> Docid(q.numDocs, cs[i]) >= next
    requires forall i :: 0 <= i <= p ==> BlockReaches(cs[i], next - 1)
    ensures var after := cs[j := Advanced(cs[j], next)];
            var beyond := if done < next then next else done;
            && CursorsOf(q, after, beyond) && log == AcceptedBelow(q, k, beyond)
            && BlockDead(q, k, after, log, beyond, if done < next then StaticMax(cs[..p + 1]) else bm)
  {
    assert QueryOk(q);
    hide BlockQueryOk, QueryOk, WouldEnter, LowDead, BlockDead, Remaining, BlockReaches, StaticBound, PivotBlockBound,
         StaticMax;
    var after := cs[j := Advanced(cs[j], next)];
    AdvanceOne(q, cs, done, j, next);
    assert Docid(q.numDocs, after[j]) >= Docid(q.numDocs, cs[j]) by { AdvancedNotBefore(q, cs, done, j, next); }
    if done < next {
      FailedTestDead(q, k, cs, log, p, next);
      assert log == AcceptedBelow(q, k, next) by { SkipRefuses(q, k, cs, log, d, done, p, m, bm, next); }
      BlockDeadAfterMove(q, k, cs, log, next, StaticMax(cs[..p + 1]), j, after[j]);
    } else {
      BlockDeadAfterMove(q, k, cs, log, done, bm, j, after[j]);
    }
  }

  lemma AdvancedNotBefore(q: Query, cs: seq<Cursor>, f: nat, j: nat, target: nat)
    requires QueryOk(q) && CursorsOf(q, cs, f) && j < |cs|
    ensures Docid(q.numDocs, Advanced(cs[j], target)) >= Docid(q.numDocs, cs[j])
  {
    CursorTermsOk(q, cs);
    assert cs[j] in cs;
    AdvancedCursor(q, cs[j], target, f);
  }

  lemma SkipRefuses(q: Query, k: nat, cs: seq<Cursor>, log: seq<Entry>, d: nat, done: nat, p: nat, m: real, bm: real,
                    next: nat)
    requires BlockQueryOk(q) && AtPivot(q, k, cs, log, d, done, p, m, bm) && done < next && d < next
    requires BlockDead(q, k, cs, log, next, StaticMax(cs[..p + 1]))
    ensures log == AcceptedBelow(q, k, next)
  {
    hide BlockQueryOk, WouldEnter, LowDead, BlockDead, BlockReaches, StaticMax;
    BlockDeadRefuses(q, k, cs, log, done, d, next, StaticMax(cs[..p + 1]));
    assert QueryOk(q) by { BlockQueryFacts(q, cs); }
    LowDeadRefuses(q, k, cs, log, done, d, m);
    RefusedStretch(q, k, log, done, next);
  }

  /** The state after a move or a jump, once the cursors are in order again. */
  lemma ReorderedState(q: Query, k: nat, after: seq<Cursor>, rs: seq<Cursor>, log: seq<Entry>, f: nat, done: nat,
                       m: real, bm: real)
    requires multiset(rs) == multiset(after) && SortedByDocid(q.numDocs, rs)
    requires CursorsOf(q, after, done) && log == AcceptedBelow(q, k, done) && f <= done <= q.numDocs
    requires LowDead(q, k, after, log, f, m) && BlocksBehind(after, f)
    requires done == f || BlockDead(q, k, after, log, done, bm)
    ensures BlockState(q, k, rs, log, f, done, m, bm) && Remaining(rs) == Remaining(after)
  {
    hide LowDead, BlockDead, BlocksBehind, CursorsOf;
    CursorsOfPermutation(q, after, rs, done);
    LowDeadOfPermutation(q, k, after, rs, log, f, m);
    BlocksBehindOfPermutation(after, rs, f);
    if done != f { BlockDeadOfPermutation(q, k, after, rs, log, done, bm); }
    RemainingOfPermutation(after, rs);
  }

  /** What has been added up so far and the block bounds of the rest bound the whole score. */
  lemma PartialScoreBounded(q: Query, cs: seq<Cursor>, d: nat, p: nat, i: nat)
    requires BlockQueryOk(q) && CursorsOf(q, cs, d) && BlocksBehind(cs, d) && d < q.numDocs
    requires i <= p + 1 <= |cs|
    requires forall j :: 0 <= j <= p ==> BlockReaches(cs[j], d)
    requires forall j :: p < j < |cs| ==> Docid(q.numDocs, cs[j]) > d
    ensures var so := StaticScore(q, d) + SumBy(CursorContribution(d), cs[..i]);
            so <= so + SumBy(CursorBlockBound(), cs[i..p + 1]) && FullScore(q, d) <= so + SumBy(CursorBlockBound(), cs[i..p + 1])
  {
    hide BlockQueryOk, QueryOk, CursorBlockBound, CursorContribution, TermOk, BlocksSound, BlockBound, NothingSkipped,
         BlocksBehind, BlockReaches, StaticScore, FullScore, SumBy;
    BlockQueryIsQuery(q);
    BlockQueryFacts(q, cs);
    ScoreOverCursors(q, cs, d);
    RestAddsNothing(q, cs, d, p + 1);
    assert cs[..p + 1] == cs[..i] + cs[i..p + 1];
    SumByConcat(CursorContribution(d), cs[..i], cs[i..p + 1]);
    MiddleBounded(q, cs, d, i, p);
  }

  lemma BlockQueryIsQuery(q: Query)
    requires BlockQueryOk(q)
    ensures QueryOk(q)
  {}

  lemma MiddleBounded(q: Query, cs: seq<Cursor>, d: nat, i: nat, p: nat)
    requires BlockQueryOk(q) && CursorsOf(q, cs, d) && BlocksBehind(cs, d) && d < q.numDocs
    requires i <= p + 1 <= |cs|
    requires forall j :: 0 <= j <= p ==> BlockReaches(cs[j], d)
    ensures SumBy(CursorContribution(d), cs[i..p + 1]) <= SumBy(CursorBlockBound(), cs[i..p + 1])
    ensures SumBy(CursorBlockBound(), cs[i..p + 1]) >= 0.0
  {
    BlockQueryFacts(q, cs);
    BlockBoundsNonNegative(q, cs);
    hide BlockQueryOk, QueryOk, TermOk, BlocksSound, BlockBound, BlockReaches, SumBy;
    SumByNonNegative(CursorBlockBound(), cs[i..p + 1]);
    forall c | c in cs[i..p + 1] ensures CursorContribution(d)(c) <= CursorBlockBound()(c) {
      var j :| i <= j <= p && cs[j] == c;
      assert c in cs;
      BlockBounds(q, c, d, d);
    }
    SumByMonotone(CursorContribution(d), CursorBlockBound(), cs[i..p + 1]);
  }

  // ----- the loops -----

  /** Moves the pivot to the last list standing on the pivot document. */
  method ExtendPivot(q: Query, es: seq<ScoredEnum>, pivot: nat, ghost cs: seq<Cursor>) returns (p: nat)
    requires Shows(q.numDocs, es, cs) && SortedByDocid(q.numDocs, cs) && pivot < |cs|
    ensures pivot <= p < |cs| && Docid(q.numDocs, cs[p]) == Docid(q.numDocs, cs[pivot])
    ensures forall i :: p < i < |cs| ==> Docid(q.numDocs, cs[i]) > Docid(q.numDocs, cs[p])
  {
    p := pivot;
    while p + 1 < |es| && es[p + 1].Docid() == es[pivot].Docid()
      invariant pivot <= p < |cs| && Docid(q.numDocs, cs[p]) == Docid(q.numDocs, cs[pivot])
    {
      p := p + 1;
    }
    if p + 1 < |es| {
      assert Docid(q.numDocs, cs[p]) <= Docid(q.numDocs, cs[p + 1]);
      forall i | p < i < |cs| ensures Docid(q.numDocs, cs[i]) > Docid(q.numDocs, cs[p]) {
        assert Docid(q.numDocs, cs[p + 1]) <= Docid(q.numDocs, cs[i]);
      }
    }
  }

  ghost predicate BlocksInRange(q: Query, cs: seq<Cursor>) {
    forall c <- cs :: c.block < |c.term.blockLast| == |c.term.blockMax|
  }

  lemma BlocksAreInRange(q: Query, cs: seq<Cursor>, f: nat)
    requires BlockQueryOk(q) && multiset(Terms(cs)) == multiset(q.terms) && BlocksBehind(cs, f)
    ensures BlocksInRange(q, cs)
  {
    BlockQueryFacts(q, cs);
  }

  /** Moves one block cursor to document d if it is before it, and gives its block's bound and its list's weight bound.
      */
  method SeekAt(es: seq<ScoredEnum>, i: nat, d: nat, ghost n: nat, ghost cs: seq<Cursor>)
    returns (score: real, weight: real)
    requires Shows(n, es, cs) && i < |es| && cs[i].block < |cs[i].term.blockLast| == |cs[i].term.blockMax|
    modifies es
    ensures Shows(n, es, cs[i := AtBlock(cs[i], d)])
    ensures score == BlockBound(AtBlock(cs[i], d)) && weight == cs[i].term.maxDocWeight
  {
    if es[i].BlockDocid() < d {
      BlockNextGeqAt(es, i, d, n, cs);
    } else {
      SeekStays(cs[i], d);
      assert cs[i := cs[i]] == cs;
    }
    score, weight := es[i].BlockScore() * es[i].term.qWeight, es[i].term.maxDocWeight;
  }

  /** Moves the block cursors of the lists up to the pivot to its document, adding up their bounds. */
  method AdvanceBlocks(q: Query, es: seq<ScoredEnum>, p: nat, d: nat, ghost cs: seq<Cursor>)
    returns (bound: real, staticBound: real)
    requires Shows(q.numDocs, es, cs) && p < |es| && BlocksInRange(q, cs)
    modifies es
    ensures Shows(q.numDocs, es, AtBlocks(cs, p, d))
    ensures bound == SumBy(CursorBlockBound(), AtBlocks(cs, p, d)[..p + 1])
    ensures staticBound == StaticMax(AtBlocks(cs, p, d)[..p + 1])
  {
    ghost var moved, now := AtBlocks(cs, p, d), cs;
    hide AtBlocks, AtBlock, SumBy, StaticMax, BoundOrZero, Shows, BlockBound, BlocksInRange, MaxOf, Halfway;
    ShowsLength(q.numDocs, es, cs);
    RestOfBlocks(cs, p, d);
    bound, staticBound := 0.0, 0.0;
    NoBounds();
    assert moved[..0] == [];
    HalfwayBegins(cs, moved);
    for i := 0 to p + 1
      invariant Shows(q.numDocs, es, now) && Halfway(now, cs, moved, i)
      invariant bound == SumBy(CursorBlockBound(), moved[..i])
      invariant staticBound == BoundOrZero(moved[..i])
    {
      HalfwayOn(now, cs, moved, i);
      BlockAt(q, cs, p, d, i);
      var score, weight := SeekAt(es, i, d, q.numDocs, now);
      now := now[i := moved[i]];
      BlockPrefixStep(moved, i);
      bound := bound + score;
      staticBound := if i == 0 then weight else MaxOf(staticBound, weight);
    }
    HalfwayEnds(now, cs, moved, p + 1);
    assert BoundOrZero(moved[..p + 1]) == StaticMax(moved[..p + 1]) by { BoundOfSome(moved[..p + 1]); }
  }

  lemma RestOfBlocks(cs: seq<Cursor>, p: nat, d: nat)
    requires p < |cs|
    ensures |AtBlocks(cs, p, d)| == |cs| && AtBlocks(cs, p, d)[p + 1..] == cs[p + 1..]
  {}

  lemma BlockAt(q: Query, cs: seq<Cursor>, p: nat, d: nat, i: nat)
    requires i <= p < |cs| && BlocksInRange(q, cs)
    ensures cs[i].block < |cs[i].term.blockLast| == |cs[i].term.blockMax|
    ensures |AtBlocks(cs, p, d)| == |cs| && AtBlocks(cs, p, d)[i] == AtBlock(cs[i], d)
    ensures AtBlock(cs[i], d).term == cs[i].term
  {
    assert cs[i] in cs;
  }

  lemma ShowsLength(n: nat, es: seq<ScoredEnum>, cs: seq<Cursor>)
    requires Shows(n, es, cs)
    ensures |es| == |cs|
  {}

  lemma NoBounds()
    ensures SumBy(CursorBlockBound(), []) == 0.0 && BoundOrZero([]) == 0.0
  {}

  lemma {:induction false} BoundOfSome(cs: seq<Cursor>)
    requires cs != []
    ensures BoundOrZero(cs) == StaticMax(cs)
  {}

  /** The first i cursors have been replaced, the others not yet. */
  ghost predicate Halfway(now: seq<Cursor>, before: seq<Cursor>, after: seq<Cursor>, i: nat) {
    && i <= |now| == |before| == |after|
    && now[..i] == after[..i] && now[i..] == before[i..]
  }

  lemma HalfwayBegins(before: seq<Cursor>, after: seq<Cursor>)
    requires |before| == |after|
    ensures Halfway(before, before, after, 0)
  {}

  lemma HalfwayOn(now: seq<Cursor>, before: seq<Cursor>, after: seq<Cursor>, i: nat)
    requires Halfway(now, before, after, i) && i < |before|
    ensures i < |now| == |after| && now[i] == before[i] && before[i] in before
    ensures Halfway(now[i := after[i]], before, after, i + 1)
  {
    assert now[i] == now[i..][0] == before[i..][0];
    OneMoreStepped(now, before, after, i);
  }

  lemma HalfwayEnds(now: seq<Cursor>, before: seq<Cursor>, after: seq<Cursor>, i: nat)
    requires Halfway(now, before, after, i) && before[i..] == after[i..]
    ensures now == after
  {
    assert now == now[..i] + now[i..] && after == after[..i] + after[i..];
  }

  lemma AtBlocksFacts(cs: seq<Cursor>, p: nat, d: nat)
    requires p < |cs|
    ensures |AtBlocks(cs, p, d)| == |cs| && AtBlocks(cs, p, d)[p + 1..] == cs[p + 1..]
    ensures forall i :: 0 <= i <= p ==> AtBlocks(cs, p, d)[i] == AtBlock(cs[i], d)
    ensures forall i :: 0 <= i <= p ==> AtBlocks(cs, p, d)[i].term == cs[i].term
  {}

  lemma BlockPrefixStep(cs: seq<Cursor>, p: nat)
    requires p < |cs|
    ensures SumBy(CursorBlockBound(), cs[..p + 1]) == SumBy(CursorBlockBound(), cs[..p]) + BlockBound(cs[p])
    ensures BoundOrZero(cs[..p + 1]) ==
            if p == 0 then cs[p].term.maxDocWeight else MaxOf(BoundOrZero(cs[..p]), cs[p].term.maxDocWeight)
  {
    SumBySplitAt(CursorBlockBound(), cs, p);
    if p > 0 { StaticMaxStep(cs, p); }
  }

  /** Document d is the first on show, in the lists up to position p and no others, on blocks that reach it. */
  ghost predicate FrontOk(q: Query, cs: seq<Cursor>, d: nat, p: nat) {
    && CursorsOf(q, cs, d) && BlocksBehind(cs, d) && p < |cs| && d < q.numDocs
    && SortedByDocid(q.numDocs, cs) && AllFrom(q.numDocs, cs, d)
    && Docid(q.numDocs, cs[p]) == d
    && (forall i :: 0 <= i <= p ==> BlockReaches(cs[i], d))
    && (forall i :: p < i < |cs| ==> Docid(q.numDocs, cs[i]) > d)
  }

  /** The bound once the first i lists' blocks are replaced by what the lists add. */
  ghost function Tightened(q: Query, cs: seq<Cursor>, d: nat, p: nat, i: nat): real
    requires d < |q.docWeight| && i <= p + 1 <= |cs|
  {
    PartlyScored(q, cs, d, i) + SumBy(CursorBlockBound(), cs[i..p + 1])
  }

  ghost function PartlyScored(q: Query, cs: seq<Cursor>, d: nat, i: nat): real
    requires d < |q.docWeight| && i <= |cs|
  {
    StaticScore(q, d) + SumBy(CursorContribution(d), cs[..i])
  }

  /** The first i lists stand on the document, and the bound would enter behind each of them. */
  ghost predicate EnteringUpTo(q: Query, k: nat, log: seq<Entry>, cs: seq<Cursor>, d: nat, p: nat, i: nat)
    requires d < |q.docWeight| && p < |cs|
  {
    && i <= p + 1 && (forall a :: 0 <= a < i ==> Docid(q.numDocs, cs[a]) == d)
    && forall a :: 0 < a <= i ==> WouldEnter(k, log, Tightened(q, cs, d, p, a))
  }

  /** The first i lists have been scored: the last of them was the first behind which the bound would not enter, or
      no further list stands on the document. */
  ghost predicate ScoredWhileEntering(q: Query, k: nat, log: seq<Entry>, cs: seq<Cursor>, d: nat, p: nat, i: nat)
    requires d < |q.docWeight| && p < |cs|
  {
    || (EnteringUpTo(q, k, log, cs, d, p, i) && (i < |cs| ==> Docid(q.numDocs, cs[i]) != d))
    || (&& 0 < i <= p + 1 && EnteringUpTo(q, k, log, cs, d, p, i - 1) && Docid(q.numDocs, cs[i - 1]) == d
        && !WouldEnter(k, log, Tightened(q, cs, d, p, i)))
  }

  lemma EnteringMore(q: Query, k: nat, log: seq<Entry>, cs: seq<Cursor>, d: nat, p: nat, i: nat)
    requires d < |q.docWeight| && i <= p < |cs|
    ensures EnteringUpTo(q, k, log, cs, d, p, 0)
    ensures EnteringUpTo(q, k, log, cs, d, p, i) && Docid(q.numDocs, cs[i]) == d ==>
              if WouldEnter(k, log, Tightened(q, cs, d, p, i + 1)) then EnteringUpTo(q, k, log, cs, d, p, i + 1)
              else ScoredWhileEntering(q, k, log, cs, d, p, i + 1)
  {
    hide WouldEnter, Tightened;
  }

  lemma EnteringLast(q: Query, k: nat, log: seq<Entry>, cs: seq<Cursor>, d: nat, p: nat, i: nat)
    requires d < |q.docWeight| && p < |cs| && EnteringUpTo(q, k, log, cs, d, p, i)
    requires i < |cs| ==> Docid(q.numDocs, cs[i]) != d
    ensures ScoredWhileEntering(q, k, log, cs, d, p, i)
  {
    hide EnteringUpTo;
  }

  /** Scores document d in the lists standing on it, giving up as soon as the tightened bound cannot enter. */
  method ScoreWithinBound(q: Query, es: seq<ScoredEnum>, d: nat, p: nat, bound: real, topk: TopKQueue,
                          ghost cs: seq<Cursor>)
    returns (score: real, ghost lists: nat)
    requires BlockQueryOk(q) && Shows(q.numDocs, es, cs) && topk.Valid()
    requires FrontOk(q, cs, d, p)
    requires bound == SumBy(CursorBlockBound(), cs[..p + 1])
    ensures score == FullScore(q, d) ||
            (!WouldEnter(topk.k, topk.accepted, score) && !WouldEnter(topk.k, topk.accepted, FullScore(q, d)))
    ensures d < |q.docWeight| && ScoredWhileEntering(q, topk.k, topk.accepted, cs, d, p, lists)
    ensures score == PartlyScored(q, cs, d, lists)
  {
    hide WouldEnter, FullScore, QueueOk, BlockQueryOk, BlocksBehind, BlockReaches, CursorsOf, AllFrom, EnteringUpTo,
         ScoredWhileEntering;
    ScoreFacts(q, cs, d, p);
    EnteringMore(q, topk.k, topk.accepted, cs, d, p, 0);
    score := q.qLen as real * q.docWeight[d];
    var blockUpperBound := bound + score;
    assert cs[0..p + 1] == cs[..p + 1];
    var i := 0;
    while i < |es|
      invariant i <= p + 1 && |es| == |cs|
      invariant i < |cs| || i == |cs|
      invariant score == StaticScore(q, d) + SumBy(CursorContribution(d), cs[..i])
      invariant blockUpperBound == score + SumBy(CursorBlockBound(), cs[i..p + 1])
      invariant EnteringUpTo(q, topk.k, topk.accepted, cs, d, p, i)
    {
      hide StaticScore, SumBy, SortedByDocid, PartAt, BlockBound, Shows;
      var here := StandsOn(q, es, i, d, cs);
      if !here { break; }
      assert i <= p;
      FrontStep(q, cs, d, p, i);
      var partScore, blockScore := PartAndBound(q, es, i, d, cs);
      score := score + partScore;
      blockUpperBound := blockUpperBound - (blockScore - partScore);
      i := i + 1;
      topk.AdmitsIsWouldEnter(blockUpperBound);
      EnteringMore(q, topk.k, topk.accepted, cs, d, p, i - 1);
      lists := i;
      if !topk.Admits(blockUpperBound) {
        PartialScoreBounded(q, cs, d, p, i);
        AntitoneRefusal(topk.k, topk.accepted, score, blockUpperBound);
        AntitoneRefusal(topk.k, topk.accepted, FullScore(q, d), blockUpperBound);
        return;
      }
    }
    lists := i;
    EnteringLast(q, topk.k, topk.accepted, cs, d, p, i);
    FrontIsAll(q, cs, d, p, i);
  }

  lemma ScoreFacts(q: Query, cs: seq<Cursor>, d: nat, p: nat)
    requires BlockQueryOk(q) && d < q.numDocs
    ensures d < |q.docWeight| && StaticScore(q, d) == q.qLen as real * q.docWeight[d]
  {}

  lemma FrontStep(q: Query, cs: seq<Cursor>, d: nat, p: nat, i: nat)
    requires BlockQueryOk(q) && CursorsOf(q, cs, d) && BlocksBehind(cs, d) && AllFrom(q.numDocs, cs, d)
    requires i <= p < |cs| && d < q.numDocs && Docid(q.numDocs, cs[i]) == d
    ensures cs[i].pos < |cs[i].term.docs| == |cs[i].term.weights| && cs[i].block < |cs[i].term.blockMax|
    ensures SumBy(CursorContribution(d), cs[..i + 1]) ==
            SumBy(CursorContribution(d), cs[..i]) + PartAt(q.numDocs, d, cs[i])
    ensures SumBy(CursorBlockBound(), cs[i..p + 1]) ==
            BlockBound(cs[i]) + SumBy(CursorBlockBound(), cs[i + 1..p + 1])
  {
    BlockQueryFacts(q, cs);
    assert cs[i] in cs;
    assert BlockBehind(cs[i], d);
    hide BlockBound, PartAt, BlockQueryOk, CursorsOf;
    assert CursorsOf(q, cs, d);
    StepFacts(q, cs, d, i);
    assert cs[i..p + 1][1..] == cs[i + 1..p + 1];
  }

  method StandsOn(q: Query, es: seq<ScoredEnum>, i: nat, d: nat, ghost cs: seq<Cursor>) returns (here: bool)
    requires Shows(q.numDocs, es, cs) && i < |es|
    ensures here <==> Docid(q.numDocs, cs[i]) == d
  {
    here := es[i].Docid() == d;
  }

  /** What a list adds to the document it stands on, and the bound of its block. */
  method PartAndBound(q: Query, es: seq<ScoredEnum>, i: nat, d: nat, ghost cs: seq<Cursor>)
    returns (partScore: real, blockScore: real)
    requires Shows(q.numDocs, es, cs) && i < |es| && Docid(q.numDocs, cs[i]) == d
    requires cs[i].pos < |cs[i].term.docs| == |cs[i].term.weights| && cs[i].block < |cs[i].term.blockMax|
    ensures partScore == PartAt(q.numDocs, d, cs[i]) && blockScore == BlockBound(cs[i])
  {
    partScore := es[i].term.qWeight * es[i].term.weights[es[i].pos];
    blockScore := es[i].BlockScore() * es[i].term.qWeight;
  }

  lemma FrontIsAll(q: Query, cs: seq<Cursor>, d: nat, p: nat, i: nat)
    requires BlockQueryOk(q) && CursorsOf(q, cs, d) && d < q.numDocs && i <= p + 1 <= |cs|
    requires SortedByDocid(q.numDocs, cs) && AllFrom(q.numDocs, cs, d)
    requires i < |cs| ==> Docid(q.numDocs, cs[i]) != d
    ensures FullScore(q, d) == StaticScore(q, d) + SumBy(CursorContribution(d), cs[..i])
  {
    if i < |cs| { BeyondFront(q, cs, d, i); }
    RestAddsNothing(q, cs, d, i);
    ScoreOverCursors(q, cs, d);
  }

  /** Steps every list standing on document d past it. */
  method PassFront(q: Query, es: seq<ScoredEnum>, d: nat, ghost cs: seq<Cursor>)
    requires QueryOk(q) && Shows(q.numDocs, es, cs) && CursorsOf(q, cs, d) && d < q.numDocs
    requires SortedByDocid(q.numDocs, cs) && AllFrom(q.numDocs, cs, d)
    modifies es
    ensures Shows(q.numDocs, es, StepAll(q.numDocs, d, cs))
  {
    ghost var stepped, now := StepAll(q.numDocs, d, cs), cs;
    var i := 0;
    while i < |es|
      invariant i <= |es| && |now| == |cs| && Shows(q.numDocs, es, now)
      invariant now[..i] == stepped[..i] && now[i..] == cs[i..]
    {
      hide SortedByDocid, CursorsOf, QueryOk, AllFrom;
      assert now[i] == now[i..][0] == cs[i..][0] == cs[i];
      if es[i].Docid() != d { break; }
      NextAt(es, i, q.numDocs, now);
      OneMoreStepped(now, cs, stepped, i);
      now := now[i := stepped[i]];
      i := i + 1;
    }
    assert now == now[..i] + now[i..] && stepped == stepped[..i] + stepped[i..];
    if i < |es| {
      assert now[i] == now[i..][0] == cs[i..][0] == cs[i];
      BeyondFront(q, cs, d, i);
    }
    RestAddsNothing(q, cs, d, i);
  }

  method ScoreAndPass(q: Query, es: seq<ScoredEnum>, p: nat, d: nat, bound: real, topk: TopKQueue,
                      ghost cs: seq<Cursor>, ghost objects: set<ScoredEnum>)
    returns (score: real)
    requires BlockQueryOk(q) && Shows(q.numDocs, es, cs) && topk.Valid() && forall e <- es :: e in objects
    requires FrontOk(q, cs, d, p)
    requires bound == SumBy(CursorBlockBound(), cs[..p + 1])
    modifies objects
    ensures Shows(q.numDocs, es, StepAll(q.numDocs, d, cs))
    ensures score == FullScore(q, d) ||
            (!WouldEnter(topk.k, topk.accepted, score) && !WouldEnter(topk.k, topk.accepted, FullScore(q, d)))
  {
    assert QueryOk(q);
    hide BlockQueryOk, QueryOk, QueueOk, WouldEnter, BlocksBehind, AllFrom, Shows, StepAll, FullScore, CursorsOf,
         BlockReaches, SumBy, SortedByDocid;
    ghost var lists;
    score, lists := ScoreWithinBound(q, es, d, p, bound, topk, cs);
    PassFront(q, es, d, cs);
  }

  /** Number j is the list of the largest query weight up to the pivot, the pivot's own if no other is larger, else
      the first. */
  ghost predicate Heaviest(cs: seq<Cursor>, p: nat, j: nat) {
    && j <= p < |cs| && (forall i :: 0 <= i <= p ==> cs[i].term.qWeight <= cs[j].term.qWeight)
    && (j < p ==> cs[p].term.qWeight < cs[j].term.qWeight)
    && (j < p ==> forall i :: 0 <= i < j ==> cs[i].term.qWeight < cs[j].term.qWeight)
  }

  /** What the search for the nearest boundary starts from. */
  const FARTHEST := 0xFFFF_FFFF_FFFF_FFFE

  /** The jump goes as far as it may: behind the nearest boundary of the blocks used, to the next list's document if
      that is nearer, and in any case beyond the pivot; the search for the nearest starts from 2^64 - 2. */
  ghost predicate JumpIs(q: Query, cs: seq<Cursor>, p: nat, d: nat, j: nat, next: nat) {
    && Heaviest(cs, p, j) && d < next
    && (forall i :: 0 <= i <= p ==> cs[i].block < |cs[i].term.blockLast|)
    && (next > d + 1 ==> forall i :: 0 <= i <= p ==> next <= cs[i].term.blockLast[cs[i].block] + 1)
    && (p + 1 < |cs| ==> next <= Docid(q.numDocs, cs[p + 1]))
    && (|| (p + 1 < |cs| && next == Docid(q.numDocs, cs[p + 1]))
        || next == 0xFFFF_FFFF_FFFF_FFFF
        || exists i :: 0 <= i <= p && next > cs[i].term.blockLast[cs[i].block])
  }

  /** The list to jump (the one with the largest query weight up to the pivot) and where to. */
  method JumpTarget(q: Query, es: seq<ScoredEnum>, p: nat, d: nat, ghost cs: seq<Cursor>) returns (j: nat, next: nat)
    requires BlockQueryOk(q) && multiset(Terms(cs)) == multiset(q.terms) && Shows(q.numDocs, es, cs)
    requires p < |es| && Docid(q.numDocs, cs[p]) == d < q.numDocs && BlocksInRange(q, cs)
    requires forall i :: p < i < |cs| ==> Docid(q.numDocs, cs[i]) > d
    requires SortedByDocid(q.numDocs, cs)
    requires forall i :: 0 <= i <= p ==> BlockReaches(cs[i], d)
    ensures j <= p && d < next <= q.numDocs
    ensures forall i :: p < i < |cs| ==> Docid(q.numDocs, cs[i]) >= next
    ensures forall i :: 0 <= i <= p ==> BlockReaches(cs[i], next - 1)
    ensures JumpIs(q, cs, p, d, j, next)
  {
    j := HeaviestList(es, p);
    var nextJump := LeastBoundary(q, es, p, cs);
    next := nextJump + 1;
    if p + 1 < |es| && next > es[p + 1].Docid() {
      next := es[p + 1].Docid();
    }
    if next <= es[p].Docid() {
      next := es[p].Docid() + 1;
    }
    NextBeforeRest(q, cs, p, d, next);
  }

  method HeaviestList(es: seq<ScoredEnum>, p: nat) returns (j: nat)
    requires p < |es|
    ensures j <= p
    ensures forall i :: 0 <= i <= p ==> es[i].term.qWeight <= es[j].term.qWeight
    ensures j < p ==> es[p].term.qWeight < es[j].term.qWeight
    ensures j < p ==> forall i :: 0 <= i < j ==> es[i].term.qWeight < es[j].term.qWeight
  {
    j := p;
    var w := es[p].term.qWeight;
    for i := 0 to p
      invariant j <= p && w == es[j].term.qWeight >= es[p].term.qWeight
      invariant forall a :: 0 <= a < i ==> es[a].term.qWeight <= w
      invariant j < p ==> w > es[p].term.qWeight && forall a :: 0 <= a < j ==> es[a].term.qWeight < w
    {
      if es[i].term.qWeight > w {
        j, w := i, es[i].term.qWeight;
      }
    }
  }

  /** The nearest block boundary of the lists up to the pivot, or the next list's document if nearer. */
  method LeastBoundary(q: Query, es: seq<ScoredEnum>, p: nat, ghost cs: seq<Cursor>) returns (nextJump: nat)
    requires BlockQueryOk(q) && multiset(Terms(cs)) == multiset(q.terms) && Shows(q.numDocs, es, cs)
    requires p < |es| && BlocksInRange(q, cs)
    ensures forall i :: 0 <= i <= p ==> nextJump <= cs[i].term.blockLast[cs[i].block]
    ensures nextJump < q.numDocs
    ensures p + 1 < |cs| ==> nextJump <= Docid(q.numDocs, cs[p + 1])
    ensures (p + 1 < |cs| && nextJump == Docid(q.numDocs, cs[p + 1])) || nextJump == FARTHEST ||
            exists i :: 0 <= i <= p && nextJump == cs[i].term.blockLast[cs[i].block]
  {
    BlockQueryFacts(q, cs);
    hide BlockQueryOk, QueryOk, TermOk, BlocksSound;
    nextJump := FARTHEST;
    if p + 1 < |es| {
      nextJump := es[p + 1].Docid();
    }
    for i := 0 to p + 1
      invariant forall a :: 0 <= a < i ==> nextJump <= cs[a].term.blockLast[cs[a].block]
      invariant i > 0 ==> nextJump < q.numDocs
      invariant p + 1 < |cs| ==> nextJump <= Docid(q.numDocs, cs[p + 1])
      invariant (p + 1 < |cs| && nextJump == Docid(q.numDocs, cs[p + 1])) || nextJump == FARTHEST ||
                exists a :: 0 <= a < i && nextJump == cs[a].term.blockLast[cs[a].block]
    {
      assert cs[i] in cs && es[i].View() == cs[i];
      if es[i].BlockDocid() < nextJump {
        nextJump := es[i].BlockDocid();
      }
    }
  }

  lemma NextBeforeRest(q: Query, cs: seq<Cursor>, p: nat, d: nat, next: nat)
    requires p < |cs| && SortedByDocid(q.numDocs, cs)
    requires p + 1 < |cs| ==> next <= Docid(q.numDocs, cs[p + 1])
    ensures forall i :: p < i < |cs| ==> Docid(q.numDocs, cs[i]) >= next
  {
    forall i | p < i < |cs| ensures Docid(q.numDocs, cs[i]) >= next {
      if i > p + 1 { assert Docid(q.numDocs, cs[p + 1]) <= Docid(q.numDocs, cs[i]); }
    }
  }

  // ----- what one round does -----

  /** One list has jumped. */
  ghost predicate Jumped(q: Query, cs: seq<Cursor>, p: nat, d: nat, rs: seq<Cursor>) {
    exists j: nat, next: nat :: j < |cs| && JumpIs(q, cs, p, d, j, next) &&
                                multiset(rs) == multiset(cs[j := Advanced(cs[j], next)])
  }

  /** With d the pivot's document and p the last position that stands on it, the block cursors up to p go to d. If
      the sum of their bounds would enter, the document is scored by all lists standing on it, or a list is
      moved up to it; if not, a list jumps. */
  ghost predicate RoundIs(q: Query, k: nat, log: seq<Entry>, cs: seq<Cursor>, first: nat, rs: seq<Cursor>)
    requires first < |cs|
  {
    var d := Docid(q.numDocs, cs[first]);
    exists p :: LastOn(q, cs, first, p) && RoundAt(q, k, log, AtBlocks(cs, p, d), p, d, rs)
  }

  ghost predicate LastOn(q: Query, cs: seq<Cursor>, first: nat, p: nat)
    requires first < |cs|
  {
    && first <= p < |cs| && Docid(q.numDocs, cs[p]) == Docid(q.numDocs, cs[first])
    && forall i :: p < i < |cs| ==> Docid(q.numDocs, cs[i]) > Docid(q.numDocs, cs[first])
  }

  ghost predicate RoundAt(q: Query, k: nat, log: seq<Entry>, at: seq<Cursor>, p: nat, d: nat, rs: seq<Cursor>) {
    && p < |at| && SortedByDocid(q.numDocs, rs)
    && if !WouldEnter(k, log, PivotBlockBound(q, at, p)) then Jumped(q, at, p, d, rs)
       else if Docid(q.numDocs, at[0]) == d then multiset(rs) == multiset(StepAll(q.numDocs, d, at))
       else MovedUp(q, at, p, d, rs)
  }

  class BlockMaxWandQuery {
    const topk: TopKQueue
    /** The pivot documents in the order the run met them. */
    ghost var pivots: seq<nat>

    constructor (k: nat)
      requires k >= 1
      ensures topk.Valid() && topk.k == k && fresh(topk)
    {
      topk := new TopKQueue(k);
      pivots := [];
    }

    /** The block test passed and the pivot document is the first on show: score it and offer it. */
    method Evaluate(q: Query, es: seq<ScoredEnum>, p: nat, d: nat, bound: real, ghost cs: seq<Cursor>,
                    ghost done: nat, ghost m: real, ghost bm: real, ghost objects: set<ScoredEnum>)
      returns (r: seq<ScoredEnum>, ghost rs: seq<Cursor>)
      requires BlockQueryOk(q) && topk.Valid() && Shows(q.numDocs, es, cs) && forall e <- es :: e in objects
      requires AtPivot(q, topk.k, cs, topk.accepted, d, done, p, m, bm) && done <= d
      requires Docid(q.numDocs, cs[0]) == d && bound == SumBy(CursorBlockBound(), cs[..p + 1])
      modifies topk, objects
      ensures topk.Valid() && Shows(q.numDocs, r, rs) && forall e <- r :: e in objects
      ensures BlockState(q, topk.k, rs, topk.accepted, d + 1, d + 1, 0.0, 0.0)
      ensures multiset(rs) == multiset(StepAll(q.numDocs, d, cs)) && SortedByDocid(q.numDocs, rs)
      ensures Remaining(rs) <= Remaining(cs) - 1.0
    {
      hide BlockQueryOk, QueryOk, QueueOk, WouldEnter, LowDead, BlockDead, BlocksBehind, Remaining, AllFrom, Shows,
           StepAll, FullScore, AcceptedBelow, CursorsOf, AtPivot, BlockState;
      EvaluateFacts(q, topk.k, cs, topk.accepted, d, done, p, m, bm);
      EvaluatedState(q, topk.k, cs, topk.accepted, d, done, p, m, bm);
      var score := ScoreAndPass(q, es, p, d, bound, topk, cs, objects);
      ghost var after := StepAll(q.numDocs, d, cs);
      var _ := topk.Insert(score, d);
      r, rs := SortEnums(es, q.numDocs, after);
      SameObjects(es, r);
      EvaluatedReordered(q, topk.k, after, rs, topk.accepted, d + 1);
    }

    /** The block test passed but lists before the pivot lag behind: move one of them up to it. */
    method Move(q: Query, es: seq<ScoredEnum>, p: nat, d: nat, ghost cs: seq<Cursor>,
                ghost done: nat, ghost m: real, ghost bm: real, ghost objects: set<ScoredEnum>)
      returns (r: seq<ScoredEnum>, ghost rs: seq<Cursor>)
      requires BlockQueryOk(q) && topk.Valid() && Shows(q.numDocs, es, cs) && forall e <- es :: e in objects
      requires AtPivot(q, topk.k, cs, topk.accepted, d, done, p, m, bm) && done <= d
      requires Docid(q.numDocs, cs[0]) != d
      modifies objects
      ensures topk.Valid() && Shows(q.numDocs, r, rs) && forall e <- r :: e in objects
      ensures BlockState(q, topk.k, rs, topk.accepted, d, d, m, bm)
      ensures MovedUp(q, cs, p, d, rs) && SortedByDocid(q.numDocs, rs)
      ensures Remaining(rs) <= Remaining(cs) - 1.0
    {
      assert QueryOk(q);
      hide BlockQueryOk, QueryOk, QueueOk, WouldEnter, LowDead, BlockDead, BlocksBehind, Remaining, AcceptedBelow,
           CursorsOf, BlockReaches;
      UndecidedPivot(q, topk.k, cs, topk.accepted, d, done, p, m, bm);
      CursorsTerms(q, cs, d);
      var nextList := LastBefore(q, es, p, cs);
      DocsIncrease(q, cs, nextList);
      MoveFacts(q, topk.k, cs, topk.accepted, d, done, p, m, bm, nextList, d);
      NextGeqAt(es, nextList, d, q.numDocs, cs);
      ghost var after := cs[nextList := Advanced(cs[nextList], d)];
      assert LastLagging(q, cs, p, d, nextList);
      r, rs := BubbleDown(es, nextList, true, q.numDocs, after);
      SameObjects(es, r);
      AtOrBelow(done, d);
      ReorderedState(q, topk.k, after, rs, topk.accepted, d, d, m, bm);
    }

    /** The block test failed: jump a list beyond the blocks. */
    method Jump(q: Query, es: seq<ScoredEnum>, p: nat, d: nat, ghost cs: seq<Cursor>,
                ghost done: nat, ghost m: real, ghost bm: real, ghost objects: set<ScoredEnum>)
      returns (r: seq<ScoredEnum>, ghost rs: seq<Cursor>, ghost beyond: nat, ghost rbm: real)
      requires BlockQueryOk(q) && topk.Valid() && Shows(q.numDocs, es, cs) && forall e <- es :: e in objects
      requires AtPivot(q, topk.k, cs, topk.accepted, d, done, p, m, bm)
      requires !WouldEnter(topk.k, topk.accepted, PivotBlockBound(q, cs, p))
      modifies objects
      ensures topk.Valid() && Shows(q.numDocs, r, rs) && forall e <- r :: e in objects
      ensures BlockState(q, topk.k, rs, topk.accepted, d, beyond, m, rbm)
      ensures Jumped(q, cs, p, d, rs) && SortedByDocid(q.numDocs, rs)
      ensures Remaining(rs) <= Remaining(cs) - 1.0
    {
      hide BlockQueryOk, QueryOk, QueueOk, WouldEnter, LowDead, BlockDead, BlocksBehind, Remaining, AcceptedBelow,
           CursorsOf, BlockReaches, PivotBlockBound, BlocksInRange, StaticMax;
      JumpFacts(q, topk.k, cs, topk.accepted, d, done, p, m, bm, es);
      var nextList, next := JumpTarget(q, es, p, d, cs);
      DocsIncrease(q, cs, nextList);
      DocidUpToPivot(q, cs, p, nextList);
      MoveFacts(q, topk.k, cs, topk.accepted, d, done, p, m, bm, nextList, next);
      SkippedState(q, topk.k, cs, topk.accepted, d, done, p, m, bm, nextList, next);
      NextGeqAt(es, nextList, next, q.numDocs, cs);
      ghost var after := cs[nextList := Advanced(cs[nextList], next)];
      beyond := if done < next then next else done;
      rbm := if done < next then StaticMax(cs[..p + 1]) else bm;
      assert JumpIs(q, cs, p, d, nextList, next);
      r, rs := BubbleDown(es, nextList, false, q.numDocs, after);
      SameObjects(es, r);
      ReorderedState(q, topk.k, after, rs, topk.accepted, d, beyond, m, rbm);
    }

    /** Moves the block cursors to the pivot and tests the sum of their bounds. */
    method BlockTest(q: Query, es: seq<ScoredEnum>, first: nat, ghost cs: seq<Cursor>, ghost f: nat,
                     ghost done: nat, ghost m: real, ghost bm: real, ghost objects: set<ScoredEnum>)
      returns (p: nat, d: nat, bound: real, passed: bool, ghost at: seq<Cursor>)
      requires BlockQueryOk(q) && topk.Valid() && Shows(q.numDocs, es, cs) && forall e <- es :: e in objects
      requires BlockState(q, topk.k, cs, topk.accepted, f, done, m, bm)
      requires PivotAt(q, topk.k, topk.accepted, cs, first)
      modifies objects
      ensures topk.Valid() && Shows(q.numDocs, es, at) && d == Docid(q.numDocs, cs[first]) >= f
      ensures AtPivot(q, topk.k, at, topk.accepted, d, done, p, BoundOrZero(cs[..first]), bm)
      ensures Remaining(at) == Remaining(cs)
      ensures bound == SumBy(CursorBlockBound(), at[..p + 1])
      ensures LastOn(q, cs, first, p) && at == AtBlocks(cs, p, d)
      ensures passed <==> WouldEnter(topk.k, topk.accepted, PivotBlockBound(q, at, p))
    {
      hide BlockQueryOk, QueryOk, QueueOk, WouldEnter, BlockState, Remaining, SumBy, StaticMax, PivotBlockBound,
           SortedByDocid, Enters, AtBlocks, AtPivot;
      BlocksReady(q, topk.k, cs, topk.accepted, f, done, m, bm);
      p := ExtendPivot(q, es, first, cs);
      d := es[p].Docid();
      ReachPivot(q, topk.k, cs, topk.accepted, f, done, m, bm, first, p);
      at := AtBlocks(cs, p, d);
      AtBlockKeeps(cs, p, d);
      AtBlocksFacts(cs, p, d);
      RemainingOfSamePositions(cs, at);
      var staticBound;
      bound, staticBound := AdvanceBlocks(q, es, p, d, cs);
      var total := TotalBound(q, at, p, bound, staticBound);
      topk.AdmitsIsWouldEnter(total);
      passed := topk.Admits(total);
    }

    /** One round of the loop from a found pivot. */
    method Round(q: Query, es: seq<ScoredEnum>, first: nat, ghost cs: seq<Cursor>, ghost f: nat,
                 ghost done: nat, ghost m: real, ghost bm: real, ghost objects: set<ScoredEnum>)
      returns (r: seq<ScoredEnum>, ghost rs: seq<Cursor>, ghost d: nat, ghost rf: nat, ghost rdone: nat, ghost rm: real,
               ghost rbm: real)
      requires BlockQueryOk(q) && topk.Valid() && Shows(q.numDocs, es, cs) && forall e <- es :: e in objects
      requires BlockState(q, topk.k, cs, topk.accepted, f, done, m, bm)
      requires PivotAt(q, topk.k, topk.accepted, cs, first)
      modifies topk, objects
      ensures topk.Valid() && Shows(q.numDocs, r, rs) && forall e <- r :: e in objects
      ensures BlockState(q, topk.k, rs, topk.accepted, rf, rdone, rm, rbm)
      ensures Remaining(rs) <= Remaining(cs) - 1.0
      ensures d == Docid(q.numDocs, cs[first]) && f <= d <= rf
      ensures RoundIs(q, topk.k, old(topk.accepted), cs, first, rs)
    {
      hide BlockQueryOk, QueueOk, WouldEnter, BlockState, Remaining, SumBy, StaticMax, PivotBlockBound, BoundOrZero,
           Enters, AtPivot, Shows;
      var p, pivotId, bound, passed;
      ghost var at;
      p, pivotId, bound, passed, at := BlockTest(q, es, first, cs, f, done, m, bm, objects);
      d := pivotId;
      rm := BoundOrZero(cs[..first]);
      PivotIndices(q, topk.k, at, topk.accepted, pivotId, done, p, rm, bm, es);
      if passed {
        if pivotId < done { DecidedPivotSkips(q, topk.k, at, topk.accepted, pivotId, done, p, rm, bm); }
        var onFirst := StandsOn(q, es, 0, pivotId, at);
        if onFirst {
          r, rs := Evaluate(q, es, p, pivotId, bound, at, done, rm, bm, objects);
          rf, rdone, rm, rbm := d + 1, d + 1, 0.0, 0.0;
        } else {
          r, rs := Move(q, es, p, pivotId, at, done, rm, bm, objects);
          rf, rdone, rbm := d, d, bm;
        }
      } else {
        r, rs, rdone, rbm := Jump(q, es, p, pivotId, at, done, rm, bm, objects);
        rf := d;
      }
      assert RoundAt(q, topk.k, old(topk.accepted), at, p, pivotId, rs);
    }

    method Search(q: Query, start: seq<ScoredEnum>, ghost startCs: seq<Cursor>, ghost objects: set<ScoredEnum>)
      requires BlockQueryOk(q) && topk.Valid() && topk.accepted == []
      requires Shows(q.numDocs, start, startCs) && CursorsOf(q, startCs, 0) && BlocksBehind(startCs, 0)
      requires forall e <- start :: e in objects
      modifies topk, objects, this`pivots
      ensures topk.Valid() && topk.accepted == AcceptedBelow(q, topk.k, q.numDocs)
      ensures NonDecreasing(pivots)
    {
      assert QueryOk(q);
      hide BlockQueryOk, QueryOk, QueueOk, WouldEnter, LowDead, BlockDead, Remaining, CursorsOf, BlocksBehind, Enters,
           Shows, PivotsUpTo;
      pivots := [];
      NoPivots();
      var es;
      ghost var cs, f, done, m, bm := startCs, 0, 0, 0.0, 0.0;
      es, cs := SortEnums(start, q.numDocs, startCs);
      SameObjects(start, es);
      StartBlockState(q, topk.k, startCs, cs);
      while true
        invariant topk.Valid() && Shows(q.numDocs, es, cs) && forall e <- es :: e in objects
        invariant BlockState(q, topk.k, cs, topk.accepted, f, done, m, bm)
        invariant PivotsUpTo(pivots, f)
        decreases Remaining(cs)
      {
        CursorsTerms(q, cs, done);
        var found, pivot := FindPivot(q, es, topk, cs);
        hide SortedByDocid;
        if !found {
          InOrder(pivots, f);
          NoBlockPivotEnds(q, topk.k, cs, topk.accepted, f, done, m, bm, pivot);
          return;
        }
        ghost var d, before := 0, f;
        es, cs, d, f, done, m, bm := Round(q, es, pivot, cs, f, done, m, bm, objects);
        AppendKeepsOrder(pivots, before, d, f);
        pivots := pivots + [d];
      }
    }

    /** Block-Max WAND accepts exactly the insertions of the exhaustive run, meets its pivots in
        order, and leaves the same scores. */
    method Run(q: Query)
      requires BlockQueryOk(q) && topk.k >= 1
      modifies topk, this`pivots
      ensures topk.accepted == AcceptedBelow(q, topk.k, q.numDocs)
      ensures Scores(topk.entries) == FinalScores(topk.k, Offers(q, q.numDocs))
      ensures multiset(topk.entries) <= multiset(topk.accepted)
      ensures NonDecreasing(pivots)
    {
      topk.Clear();
      pivots := [];
      if q.terms == [] {
        RankedOr.NoTermsNoOffers(q, q.numDocs);
        return;
      }
      var es := MakeEnums(q);
      RankedOr.InitialCursors(q);
      FirstBlocksBehind(q);
      Search(q, es, FirstPostings(q.terms), set e | e in es);
      AcceptedKeepsBest(topk.k, Offers(q, q.numDocs));
      topk.Finalize();
    }
  }

  /** The pivots met so far are in order and none is beyond f. */
  ghost predicate PivotsUpTo(s: seq<nat>, f: nat) {
    NonDecreasing(s) && forall x <- s :: x <= f
  }

  lemma NoPivots()
    ensures PivotsUpTo([], 0)
  {}

  lemma InOrder(s: seq<nat>, f: nat)
    requires PivotsUpTo(s, f)
    ensures NonDecreasing(s)
  {}

  lemma AppendKeepsOrder(s: seq<nat>, f: nat, d: nat, f': nat)
    requires PivotsUpTo(s, f) && f <= d <= f'
    ensures PivotsUpTo(s + [d], f')
  {
    assert forall i :: 0 <= i < |s| ==> s[i] in s;
  }

  lemma PivotIndices(q: Query, k: nat, cs: seq<Cursor>, log: seq<Entry>, d: nat, done: nat, p: nat, m: real, bm: real,
                     es: seq<ScoredEnum>)
    requires AtPivot(q, k, cs, log, d, done, p, m, bm) && Shows(q.numDocs, es, cs)
    ensures p < |cs| == |es|
  {}

  method TotalBound(q: Query, ghost cs: seq<Cursor>, ghost p: nat, bound: real, staticBound: real) returns (total: real)
    requires p < |cs| && bound == SumBy(CursorBlockBound(), cs[..p + 1]) && staticBound == StaticMax(cs[..p + 1])
    ensures total == PivotBlockBound(q, cs, p)
  {
    total := bound + staticBound * q.qLen as real;
  }

  lemma AtOrBelow(done: nat, d: nat)
    requires done <= d
    ensures (if done < d then d else done) == d
  {}

  lemma EvaluateFacts(q: Query, k: nat, cs: seq<Cursor>, log: seq<Entry>, d: nat, done: nat, p: nat, m: real, bm: real)
    requires BlockQueryOk(q) && AtPivot(q, k, cs, log, d, done, p, m, bm) && done <= d && Docid(q.numDocs, cs[0]) == d
    ensures QueryOk(q) && FrontOk(q, cs, d, p)
  {
    UndecidedPivot(q, k, cs, log, d, done, p, m, bm);
    AllFromFirst(q, cs);
  }

  lemma EvaluatedReordered(q: Query, k: nat, after: seq<Cursor>, rs: seq<Cursor>, log: seq<Entry>, f: nat)
    requires multiset(rs) == multiset(after) && SortedByDocid(q.numDocs, rs)
    requires CursorsOf(q, after, f) && log == AcceptedBelow(q, k, f) && f <= q.numDocs
    requires AllFrom(q.numDocs, after, f) && BlocksBehind(after, f)
    ensures BlockState(q, k, rs, log, f, f, 0.0, 0.0) && Remaining(rs) == Remaining(after)
  {
    assert LowDead(q, k, after, log, f, 0.0);
    ReorderedState(q, k, after, rs, log, f, f, 0.0, 0.0);
  }

  lemma JumpFacts(q: Query, k: nat, cs: seq<Cursor>, log: seq<Entry>, d: nat, done: nat, p: nat, m: real, bm: real,
                  es: seq<ScoredEnum>)
    requires BlockQueryOk(q) && AtPivot(q, k, cs, log, d, done, p, m, bm) && Shows(q.numDocs, es, cs)
    ensures QueryOk(q) && multiset(Terms(cs)) == multiset(q.terms) && BlocksInRange(q, cs) && p < |es|
  {
    BlocksAreInRange(q, cs, d);
  }

  lemma DocidUpToPivot(q: Query, cs: seq<Cursor>, p: nat, j: nat)
    requires SortedByDocid(q.numDocs, cs) && j <= p < |cs|
    ensures Docid(q.numDocs, cs[j]) <= Docid(q.numDocs, cs[p])
  {}

  lemma BlocksReady(q: Query, k: nat, cs: seq<Cursor>, log: seq<Entry>, f: nat, done: nat, m: real, bm: real)
    requires BlockQueryOk(q) && BlockState(q, k, cs, log, f, done, m, bm)
    ensures QueryOk(q) && BlocksInRange(q, cs) && SortedByDocid(q.numDocs, cs)
  {
    BlocksAreInRange(q, cs, f);
  }

  lemma RemainingOfSamePositions(a: seq<Cursor>, b: seq<Cursor>)
    requires |a| == |b| && forall i :: 0 <= i < |a| ==> a[i].term == b[i].term && a[i].pos == b[i].pos
    ensures Remaining(a) == Remaining(b)
  {
    SumByImage(Left(), Left(), a, b);
  }

  lemma NoBlockPivotEnds(q: Query, k: nat, cs: seq<Cursor>, log: seq<Entry>, f: nat, done: nat, m: real, bm: real,
                         p: nat)
    requires QueryOk(q) && BlockState(q, k, cs, log, f, done, m, bm) && NoPivot(q, k, log, cs, p)
    ensures log == AcceptedBelow(q, k, q.numDocs)
  {
    hide QueryOk, WouldEnter, Enters, StaticMax, LowDead, BlockDead;
    PrefixDead(q, k, cs, log, p, q.numDocs);
    LowDeadRefuses(q, k, cs, log, done, q.numDocs, BoundOrZero(cs[..p]));
    RefusedStretch(q, k, log, done, q.numDocs);
  }

  lemma StartBlockState(q: Query, k: nat, start: seq<Cursor>, cs: seq<Cursor>)
    requires CursorsOf(q, start, 0) && multiset(cs) == multiset(start) && SortedByDocid(q.numDocs, cs)
    requires BlocksBehind(start, 0)
    ensures BlockState(q, k, cs, [], 0, 0, 0.0, 0.0)
  {
    CursorsOfPermutation(q, start, cs, 0);
    BlocksBehindOfPermutation(start, cs, 0);
  }

  lemma FirstBlocksBehind(q: Query)
    requires BlockQueryOk(q)
    ensures BlocksBehind(FirstPostings(q.terms), 0)
  {
    forall c | c in FirstPostings(q.terms) ensures BlockBehind(c, 0) {
      var i :| 0 <= i < |q.terms| && c == Cursor(q.terms[i], 0, 0);
      assert q.terms[i] in q.terms;
    }
  }
}
