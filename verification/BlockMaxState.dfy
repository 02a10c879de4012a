/** Why Block-Max WAND may jump over blocks: the bounds of the blocks its cursors are on. */
module BlockMaxState {
  import opened Sums
  import opened TopK
  import opened Postings
  import opened SortedLists
  import opened ScoredEnums
  import opened Pruning
  import opened Wand

  /** The bound stored for the block a cursor is on. */
  ghost function BlockBound(c: Cursor): real {
    if c.block < |c.term.blockMax| then c.term.blockMax[c.block] * c.term.qWeight else 0.0
  }

  ghost function CursorBlockBound(): Cursor -> real {
    (c: Cursor) => BlockBound(c)
  }

  ghost function BlockMassBelow(n: nat, f: nat): Cursor -> real {
    (c: Cursor) => if Docid(n, c) < f then BlockBound(c) else 0.0
  }

  /** No block cursor is past the first block whose boundary reaches f. */
  ghost predicate BlocksBehind(cs: seq<Cursor>, f: nat) {
    forall c <- cs :: BlockBehind(c, f)
  }

  ghost predicate BlockBehind(c: Cursor, f: nat) {
    c.block < |c.term.blockLast| && forall b :: 0 <= b < c.block ==> c.term.blockLast[b] < f
  }

  /** The block a cursor is on reaches document d, or is the last one. */
  ghost predicate BlockReaches(c: Cursor, d: int) {
    c.block < |c.term.blockLast| && (c.term.blockLast[c.block] >= d || c.block + 1 == |c.term.blockLast|)
  }

  /** The lists whose cursors stand before f are on blocks that reach f and cannot together lift a
      document into the queue. */
  ghost predicate BlockDead(q: Query, k: nat, cs: seq<Cursor>, log: seq<Entry>, f: nat, m: real) {
    || (forall c <- cs :: Docid(q.numDocs, c) >= f)
    || (&& (forall c <- cs :: Docid(q.numDocs, c) < f ==> c.term.maxDocWeight <= m && BlockReaches(c, f - 1))
        && !WouldEnter(k, log, StaticBound(q, m) + SumBy(BlockMassBelow(q.numDocs, f), cs)))
  }

  /** Documents below `done` are decided as the exhaustive loop decides them. The lists below f cannot
      enter by their list maxima; when `done` is beyond f, those below `done` cannot by their blocks. */
  ghost predicate BlockState(q: Query, k: nat, cs: seq<Cursor>, log: seq<Entry>, f: nat, done: nat, m: real, bm: real) {
    && SortedByDocid(q.numDocs, cs)
    && CursorsOf(q, cs, done)
    && log == AcceptedBelow(q, k, done) && f <= done <= q.numDocs
    && LowDead(q, k, cs, log, f, m)
    && BlocksBehind(cs, f)
    && (done == f || BlockDead(q, k, cs, log, done, bm))
  }

  /** The block cursors of the lists up to the last one on the pivot document have been moved to it. */
  ghost predicate AtPivot(q: Query, k: nat, cs: seq<Cursor>, log: seq<Entry>, d: nat, done: nat, p: nat, m: real,
                          bm: real) {
    && SortedByDocid(q.numDocs, cs) && p < |cs|
    && Docid(q.numDocs, cs[p]) == d < q.numDocs
    && (forall i :: p < i < |cs| ==> Docid(q.numDocs, cs[i]) > d)
    && (forall i :: 0 <= i <= p ==> BlockReaches(cs[i], d))
    && CursorsOf(q, cs, done) && log == AcceptedBelow(q, k, done) && done <= q.numDocs
    && LowDead(q, k, cs, log, d, m)
    && BlocksBehind(cs, d)
    && (done <= d || BlockDead(q, k, cs, log, done, bm))
  }

  ghost function AtBlocks(cs: seq<Cursor>, p: nat, d: nat): seq<Cursor> {
    seq(|cs|, i requires 0 <= i < |cs| => if i <= p then AtBlock(cs[i], d) else cs[i])
  }

  // ----- block bounds are sound -----

  lemma BlockQueryFacts(q: Query, cs: seq<Cursor>)
    requires BlockQueryOk(q) && multiset(Terms(cs)) == multiset(q.terms)
    ensures QueryOk(q) && |q.docWeight| == q.numDocs
    ensures forall c <- cs :: TermOk(q, c.term) && BlocksSound(c.term.docs, c.term.weights, c.term.blockLast, c.term.blockMax)
    ensures forall c <- cs, b | 0 <= b < |c.term.blockLast| :: c.term.blockLast[b] < q.numDocs
  {
    CursorTermsOk(q, cs);
  }

  lemma BlockBoundNonNegative(q: Query, c: Cursor)
    requires |q.docWeight| == q.numDocs && TermOk(q, c.term)
    requires BlocksSound(c.term.docs, c.term.weights, c.term.blockLast, c.term.blockMax)
    ensures BlockBound(c) >= 0.0
  {
    if c.block < |c.term.blockMax| {
      ProductMonotone(c.term.qWeight, 0.0, c.term.blockMax[c.block]);
    }
  }

  /** A block cursor at the right block bounds what its list adds to a document. */
  lemma BlockBounds(q: Query, c: Cursor, f: nat, d: nat)
    requires |q.docWeight| == q.numDocs && TermOk(q, c.term)
    requires BlocksSound(c.term.docs, c.term.weights, c.term.blockLast, c.term.blockMax)
    requires BlockBehind(c, f) && f <= d && BlockReaches(c, d)
    ensures Contribution(c.term, d) <= BlockBound(c)
  {
    BlockBoundNonNegative(q, c);
    var t, b, i := c.term, c.block, LowerBound(c.term.docs, d);
    if i < |t.docs| && t.docs[i] == d {
      assert t.docs[i] <= t.blockLast[b];
      assert b > 0 ==> t.blockLast[b - 1] < f;
      assert WithinBlock(t.docs, t.blockLast, i, b);
      ProductMonotone(t.qWeight, t.weights[i], t.blockMax[b]);
    }
  }

  /** Documents from d on up to a block-dead frontier are refused. */
  lemma BlockDeadRefuses(q: Query, k: nat, cs: seq<Cursor>, log: seq<Entry>, done: nat, d0: nat, hi: nat, m: real)
    requires BlockQueryOk(q) && CursorsOf(q, cs, done) && BlocksBehind(cs, d0)
    requires BlockDead(q, k, cs, log, hi, m)
    ensures forall d :: done <= d < hi && d0 <= d && Matches(q, d) ==> Refused(q, k, log, d)
  {
    hide WouldEnter, BlockQueryOk, QueryOk, TermOk, StaticBound;
    forall d | done <= d < hi && d0 <= d && Matches(q, d) ensures Refused(q, k, log, d) {
      BlockQueryFacts(q, cs);
      var c := MatchingCursor(q, cs, done, d);
      BlockMassBounds(q, cs, done, d0, hi, d);
      ScoreBound(q, cs, done, d, m, BlockMassBelow(q.numDocs, hi));
      AntitoneRefusal(k, log, FullScore(q, d), StaticBound(q, m) + SumBy(BlockMassBelow(q.numDocs, hi), cs));
    }
  }

  lemma BlockMassBounds(q: Query, cs: seq<Cursor>, done: nat, d0: nat, hi: nat, d: nat)
    requires BlockQueryOk(q) && CursorsOf(q, cs, done) && BlocksBehind(cs, d0)
    requires done <= d < hi && d0 <= d
    requires forall c <- cs :: Docid(q.numDocs, c) < hi ==> BlockReaches(c, hi - 1)
    ensures forall c <- cs :: Contribution(c.term, d) <= BlockMassBelow(q.numDocs, hi)(c)
  {
    BlockQueryFacts(q, cs);
    hide BlockQueryOk, QueryOk, TermOk, BlocksSound, BlockBound;
    forall c | c in cs ensures Contribution(c.term, d) <= BlockMassBelow(q.numDocs, hi)(c) {
      if Docid(q.numDocs, c) >= hi {
        BeyondAddsNothing(q, c, done, d);
      } else {
        BlockBounds(q, c, d0, d);
      }
    }
  }

  // ----- the steps -----

  /** Moving block cursors changes neither documents nor list bounds. */
  lemma LowDeadOfSamePositions(q: Query, k: nat, a: seq<Cursor>, b: seq<Cursor>, log: seq<Entry>, f: nat, m: real)
    requires |a| == |b| && forall i :: 0 <= i < |a| ==> a[i].term == b[i].term && a[i].pos == b[i].pos
    requires LowDead(q, k, a, log, f, m)
    ensures LowDead(q, k, b, log, f, m)
  {
    hide WouldEnter, StaticBound;
    var g := ListMassBelow(q.numDocs, f);
    SumByImage(g, g, a, b);
    forall c | c in b && !(forall x <- a :: Docid(q.numDocs, x) >= f)
      ensures Docid(q.numDocs, c) < f ==> c.term.maxDocWeight <= m
    {
      var i :| 0 <= i < |b| && b[i] == c;
      assert a[i] in a;
    }
    forall c | c in b && (forall x <- a :: Docid(q.numDocs, x) >= f) ensures Docid(q.numDocs, c) >= f {
      var i :| 0 <= i < |b| && b[i] == c;
      assert a[i] in a;
    }
  }

  lemma CursorsOfSamePositions(q: Query, a: seq<Cursor>, b: seq<Cursor>, f: nat)
    requires |a| == |b| && forall i :: 0 <= i < |a| ==> a[i].term == b[i].term && a[i].pos == b[i].pos
    requires CursorsOf(q, a, f)
    ensures CursorsOf(q, b, f)
  {
    assert Terms(a) == Terms(b);
    forall c | c in b ensures NothingSkipped(c, f) {
      var i :| 0 <= i < |b| && b[i] == c;
      assert a[i] in a;
    }
  }

  /** A block that already reaches the bound is not left. */
  lemma SeekStays(c: Cursor, d: nat)
    requires BlockReaches(c, d)
    ensures AtBlock(c, d) == c
  {}

  lemma SeekFacts(c: Cursor, f: nat, d: nat)
    requires BlockBehind(c, f) && f <= d
    ensures BlockBehind(AtBlock(c, d), d) && BlockReaches(AtBlock(c, d), d)
  {}

  /** After the block cursors have been moved to the pivot, everything holds for the pivot. */
  lemma ReachPivot(q: Query, k: nat, cs: seq<Cursor>, log: seq<Entry>, f: nat, done: nat, m: real, bm: real, p0: nat,
                   p: nat)
    requires QueryOk(q) && BlockState(q, k, cs, log, f, done, m, bm) && PivotAt(q, k, log, cs, p0)
    requires p0 <= p < |cs| && Docid(q.numDocs, cs[p]) == Docid(q.numDocs, cs[p0])
    requires forall i :: p < i < |cs| ==> Docid(q.numDocs, cs[i]) > Docid(q.numDocs, cs[p])
    ensures f <= Docid(q.numDocs, cs[p])
    ensures AtPivot(q, k, AtBlocks(cs, p, Docid(q.numDocs, cs[p])), log, Docid(q.numDocs, cs[p]), done, p,
                    BoundOrZero(cs[..p0]), bm)
  {
    hide WouldEnter, StaticBound, QueryOk, Enters, BlockReaches, BlockBehind, StaticMax, AtBlock, LowDead, BlockBound;
    var d := Docid(q.numDocs, cs[p]);
    var b := AtBlocks(cs, p, d);
    PivotNotBelow(q, k, cs, log, f, m, p0);
    PrefixDead(q, k, cs, log, p0, d);
    AtBlockKeeps(cs, p, d);
    LowDeadOfSamePositions(q, k, cs, b, log, d, BoundOrZero(cs[..p0]));
    CursorsOfSamePositions(q, cs, b, done);
    BlocksAtPivot(cs, f, p, d);
    if d < done {
      NoBlockMoves(q, k, cs, log, done, bm, p, d);
    }
  }

  lemma AtBlockKeeps(cs: seq<Cursor>, p: nat, d: nat)
    ensures forall i :: 0 <= i < |cs| ==>
              AtBlocks(cs, p, d)[i].term == cs[i].term && AtBlocks(cs, p, d)[i].pos == cs[i].pos
  {}

  lemma BlocksAtPivot(cs: seq<Cursor>, f: nat, p: nat, d: nat)
    requires BlocksBehind(cs, f) && f <= d && p < |cs|
    ensures BlocksBehind(AtBlocks(cs, p, d), d)
    ensures forall i :: 0 <= i <= p ==> BlockReaches(AtBlocks(cs, p, d)[i], d)
  {
    hide BlockReaches, AtBlock;
    var b := AtBlocks(cs, p, d);
    forall i | 0 <= i < |b| ensures BlockBehind(b[i], d) && (i <= p ==> BlockReaches(b[i], d)) {
      assert cs[i] in cs;
      SeekFacts(cs[i], f, d);
    }
  }

  /** For a pivot inside the stretch already decided by blocks, no block cursor moves. */
  lemma NoBlockMoves(q: Query, k: nat, cs: seq<Cursor>, log: seq<Entry>, done: nat, bm: real, p: nat, d: nat)
    requires SortedByDocid(q.numDocs, cs) && p < |cs| && Docid(q.numDocs, cs[p]) == d < done
    requires BlockDead(q, k, cs, log, done, bm)
    ensures AtBlocks(cs, p, d) == cs
  {
    hide WouldEnter, StaticBound;
    assert cs[p] in cs;
    forall i | 0 <= i <= p ensures AtBlock(cs[i], d) == cs[i] {
      assert Docid(q.numDocs, cs[i]) <= d && cs[i] in cs;
      assert BlockReaches(cs[i], done - 1);
      SeekStays(cs[i], d);
    }
  }

  /** The bound the code computes from the blocks of the lists up to the pivot. */
  ghost function PivotBlockBound(q: Query, cs: seq<Cursor>, p: nat): real
    requires p < |cs|
  {
    SumBy(CursorBlockBound(), cs[..p + 1]) + StaticBound(q, StaticMax(cs[..p + 1]))
  }

  lemma BlockBoundsNonNegative(q: Query, cs: seq<Cursor>)
    requires BlockQueryOk(q) && multiset(Terms(cs)) == multiset(q.terms)
    ensures forall c <- cs :: BlockBound(c) >= 0.0
  {
    BlockQueryFacts(q, cs);
    hide BlockQueryOk, QueryOk, TermOk, BlocksSound, BlockBound;
    forall c | c in cs ensures BlockBound(c) >= 0.0 {
      BlockBoundNonNegative(q, c);
    }
  }

  /** A pivot below `done` always fails the block test. */
  lemma DecidedPivotSkips(q: Query, k: nat, cs: seq<Cursor>, log: seq<Entry>, d: nat, done: nat, p: nat, m: real,
                          bm: real)
    requires BlockQueryOk(q) && AtPivot(q, k, cs, log, d, done, p, m, bm) && d < done
    ensures !WouldEnter(k, log, PivotBlockBound(q, cs, p))
  {
    hide BlockQueryOk, QueryOk, WouldEnter, StaticBound, BlockBound, BlockReaches, LowDead, BlocksBehind,
         AcceptedBelow, StaticMax, SumBy;
    BlockBoundsNonNegative(q, cs);
    assert cs[p] in cs;
    assert forall i :: 0 <= i <= p ==> Docid(q.numDocs, cs[i]) <= d;
    BlockPrefixWithin(q, cs, done, bm, p);
    AntitoneRefusal(k, log, PivotBlockBound(q, cs, p), StaticBound(q, bm) + SumBy(BlockMassBelow(q.numDocs, done), cs));
  }

  /** The block bound of a prefix that stands before f is part of the block bound of everything before f. */
  lemma {:induction false} BlockPrefixWithin(q: Query, cs: seq<Cursor>, f: nat, m: real, p: nat)
    requires p < |cs| && (forall c <- cs :: BlockBound(c) >= 0.0)
    requires forall i :: 0 <= i <= p ==> Docid(q.numDocs, cs[i]) < f
    requires forall c <- cs :: Docid(q.numDocs, c) < f ==> c.term.maxDocWeight <= m
    ensures PivotBlockBound(q, cs, p) <= StaticBound(q, m) + SumBy(BlockMassBelow(q.numDocs, f), cs)
  {
    hide StaticBound, BlockBound;
    var a, b := cs[..p + 1], cs[p + 1..];
    var g := BlockMassBelow(q.numDocs, f);
    assert cs == a + b;
    assert StaticBound(q, StaticMax(a)) <= StaticBound(q, m) by {
      StaticMaxBounds(a);
      var c :| c in a && c.term.maxDocWeight == StaticMax(a);
      assert c in cs;
      StaticBoundMonotone(q, StaticMax(a), m);
    }
    assert SumBy(CursorBlockBound(), a) <= SumBy(g, cs) by {
      SumByMonotone(CursorBlockBound(), g, a);
      SumByNonNegative(g, b);
      SumByConcat(g, a, b);
    }
  }

  /** For a pivot not yet decided, everything before it is refused. */
  lemma UndecidedPivot(q: Query, k: nat, cs: seq<Cursor>, log: seq<Entry>, d: nat, done: nat, p: nat, m: real, bm: real)
    requires QueryOk(q) && AtPivot(q, k, cs, log, d, done, p, m, bm) && done <= d
    ensures log == AcceptedBelow(q, k, d) && CursorsOf(q, cs, d)
  {
    hide QueryOk, WouldEnter, LowDead, BlockReaches, BlocksBehind, BlockDead;
    LowDeadRefuses(q, k, cs, log, done, d, m);
    RefusedStretch(q, k, log, done, d);
  }

  /** When the block test fails, everything before `next` is refused by the blocks. */
  lemma FailedTestDead(q: Query, k: nat, cs: seq<Cursor>, log: seq<Entry>, p: nat, next: nat)
    requires BlockQueryOk(q) && multiset(Terms(cs)) == multiset(q.terms) && p < |cs|
    requires SortedByDocid(q.numDocs, cs)
    requires !WouldEnter(k, log, PivotBlockBound(q, cs, p))
    requires forall i :: p < i < |cs| ==> Docid(q.numDocs, cs[i]) >= next
    requires forall i :: 0 <= i <= p ==> BlockReaches(cs[i], next - 1)
    requires next > 0
    ensures BlockDead(q, k, cs, log, next, StaticMax(cs[..p + 1]))
  {
    BlockBoundsNonNegative(q, cs);
    hide BlockQueryOk, WouldEnter, StaticBound, BlockBound, BlockReaches, SortedByDocid;
    var a, b := cs[..p + 1], cs[p + 1..];
    var g := BlockMassBelow(q.numDocs, next);
    assert cs == a + b;
    assert SumBy(g, cs) <= SumBy(CursorBlockBound(), a) by {
      SumByMonotone(g, CursorBlockBound(), a);
      SumByConcat(g, a, b);
      SumOfZeros(g, b);
    }
    forall c | c in cs && Docid(q.numDocs, c) < next
      ensures c.term.maxDocWeight <= StaticMax(a) && BlockReaches(c, next - 1)
    {
      var i :| 0 <= i < |cs| && cs[i] == c;
      assert i <= p && a[i] == c;
      StaticMaxBounds(a);
    }
    AntitoneRefusal(k, log, StaticBound(q, StaticMax(a)) + SumBy(g, cs), PivotBlockBound(q, cs, p));
  }

  /** Moving one cursor forward keeps a block-dead frontier dead. */
  lemma BlockDeadAfterMove(q: Query, k: nat, cs: seq<Cursor>, log: seq<Entry>, f: nat, m: real, j: nat, c: Cursor)
    requires BlockQueryOk(q) && multiset(Terms(cs)) == multiset(q.terms) && j < |cs|
    requires BlockDead(q, k, cs, log, f, m)
    requires c.term == cs[j].term && c.block == cs[j].block && Docid(q.numDocs, c) >= Docid(q.numDocs, cs[j])
    ensures BlockDead(q, k, cs[j := c], log, f, m)
  {
    BlockBoundsNonNegative(q, cs);
    assert cs[j] in cs;
    assert BlockBound(c) == BlockBound(cs[j]) && (BlockReaches(c, f - 1) <==> BlockReaches(cs[j], f - 1));
    hide BlockQueryOk, WouldEnter, StaticBound, BlockBound, BlockReaches;
    var g := BlockMassBelow(q.numDocs, f);
    SumByUpdate(g, cs, j, c);
    assert forall x <- cs[j := c] :: x in cs || x == c;
    if exists x <- cs[j := c] :: Docid(q.numDocs, x) < f {
      assert g(c) <= g(cs[j]);
      if Docid(q.numDocs, cs[j]) >= f {
        var x :| x in cs[j := c] && Docid(q.numDocs, x) < f;
        assert x in cs;
      }
      AntitoneRefusal(k, log, StaticBound(q, m) + SumBy(g, cs[j := c]), StaticBound(q, m) + SumBy(g, cs));
    }
  }

  lemma BlockDeadOfPermutation(q: Query, k: nat, a: seq<Cursor>, b: seq<Cursor>, log: seq<Entry>, f: nat, m: real)
    requires multiset(a) == multiset(b) && BlockDead(q, k, a, log, f, m)
    ensures BlockDead(q, k, b, log, f, m)
  {
    hide WouldEnter, StaticBound, BlockReaches, BlockBound;
    SumByPermutation(BlockMassBelow(q.numDocs, f), a, b);
    assert forall x :: x in b ==> x in multiset(b);
    assert forall x :: x in multiset(a) ==> x in a;
  }

  lemma BlocksBehindOfPermutation(a: seq<Cursor>, b: seq<Cursor>, f: nat)
    requires multiset(a) == multiset(b) && BlocksBehind(a, f)
    ensures BlocksBehind(b, f)
  {
    forall x | x in b ensures BlockBehind(x, f) {
      assert x in multiset(b);
      assert x in multiset(a);
    }
  }
}
