/** `scored_enum`: a term's document and block cursors, updated in place, and the operations the
    query algorithms perform on the vector of pointers to them. */
module ScoredEnums {
  import opened Postings
  import opened SortedLists
  import Multisets

  /** The cursor moved forward to the first posting at or above the bound (or left alone). */
  ghost function Advanced(c: Cursor, lowerBound: nat): Cursor {
    var l := LowerBound(c.term.docs, lowerBound);
    c.(pos := if c.pos < l then l else c.pos)
  }

  /** The block reached from b: the first one with boundary at or above the bound, or the last. */
  ghost function SeekBlock(blockLast: seq<nat>, b: nat, lowerBound: nat): (r: nat)
    decreases |blockLast| - b
    ensures r >= b && (b < |blockLast| ==> r < |blockLast|)
    ensures forall j :: b <= j < r && j < |blockLast| ==> blockLast[j] < lowerBound
    ensures r < |blockLast| ==> blockLast[r] >= lowerBound || r + 1 == |blockLast|
  {
    if b + 1 < |blockLast| && blockLast[b] < lowerBound then SeekBlock(blockLast, b + 1, lowerBound) else b
  }

  ghost function AtBlock(c: Cursor, lowerBound: nat): Cursor {
    c.(block := SeekBlock(c.term.blockLast, c.block, lowerBound))
  }

  ghost function OnePast(c: Cursor): Cursor {
    c.(pos := c.pos + 1)
  }

  class ScoredEnum {
    const term: Term
    const numDocs: nat
    var pos: nat
    var block: nat

    constructor (term: Term, numDocs: nat)
      ensures this.term == term && this.numDocs == numDocs && pos == 0 && block == 0
    {
      this.term, this.numDocs, pos, block := term, numDocs, 0, 0;
    }

    ghost function View(): Cursor
      reads this
    {
      Cursor(term, pos, block)
    }

    function Docid(): nat
      reads this
    {
      if pos < |term.docs| then term.docs[pos] else numDocs
    }

    method Next()
      modifies this`pos
      ensures View() == OnePast(old(View()))
    {
      pos := pos + 1;
    }

    method NextGeq(lowerBound: nat)
      requires Increasing(term.docs)
      modifies this`pos
      ensures View() == Advanced(old(View()), lowerBound)
    {
      ghost var start := pos;
      while pos < |term.docs| && term.docs[pos] < lowerBound
        invariant start <= pos && (pos == start || pos <= LowerBound(term.docs, lowerBound))
        invariant forall j :: start <= j < pos ==> j < |term.docs| && term.docs[j] < lowerBound
        decreases |term.docs| - pos
      {
        OrderedAgainstBound(term.docs, lowerBound, pos);
        pos := pos + 1;
      }
      if pos < |term.docs| {
        OrderedAgainstBound(term.docs, lowerBound, pos);
      }
    }

    function BlockDocid(): nat
      requires block < |term.blockLast|
      reads this
    {
      term.blockLast[block]
    }

    function BlockScore(): real
      requires block < |term.blockMax|
      reads this
    {
      term.blockMax[block]
    }

    method BlockNextGeq(lowerBound: nat)
      modifies this`block
      ensures View() == AtBlock(old(View()), lowerBound)
    {
      while block + 1 < |term.blockLast| && term.blockLast[block] < lowerBound
        invariant SeekBlock(term.blockLast, block, lowerBound) == SeekBlock(term.blockLast, old(block), lowerBound)
        decreases |term.blockLast| - block
      {
        block := block + 1;
      }
    }
  }

  lemma {:induction false} OrderedAgainstBound(docs: seq<nat>, lowerBound: nat, i: nat)
    requires Increasing(docs) && i < |docs|
    ensures docs[i] < lowerBound <==> i < LowerBound(docs, lowerBound)
  {
    var l := LowerBound(docs, lowerBound);
    if l < |docs| {
      OrderedIndices(docs, l, i);
    }
  }

  ghost predicate Distinct(es: seq<ScoredEnum>) {
    forall i, j :: 0 <= i < j < |es| ==> es[i] != es[j]
  }

  /** Distinct enumerators over an index with n documents, standing where the given cursors say. */
  ghost predicate Shows(n: nat, es: seq<ScoredEnum>, cs: seq<Cursor>)
    reads es
  {
    && |es| == |cs| && Distinct(es)
    && forall i :: 0 <= i < |es| ==> es[i].numDocs == n && es[i].View() == cs[i]
  }

  method NextAt(es: seq<ScoredEnum>, i: nat, ghost n: nat, ghost cs: seq<Cursor>)
    requires Shows(n, es, cs) && i < |es|
    modifies es
    ensures Shows(n, es, cs[i := OnePast(cs[i])])
  {
    es[i].Next();
  }

  method NextGeqAt(es: seq<ScoredEnum>, i: nat, lowerBound: nat, ghost n: nat, ghost cs: seq<Cursor>)
    requires Shows(n, es, cs) && i < |es| && Increasing(cs[i].term.docs)
    modifies es
    ensures Shows(n, es, cs[i := Advanced(cs[i], lowerBound)])
  {
    es[i].NextGeq(lowerBound);
  }

  method BlockNextGeqAt(es: seq<ScoredEnum>, i: nat, lowerBound: nat, ghost n: nat, ghost cs: seq<Cursor>)
    requires Shows(n, es, cs) && i < |es|
    modifies es
    ensures Shows(n, es, cs[i := AtBlock(cs[i], lowerBound)])
  {
    es[i].BlockNextGeq(lowerBound);
  }

  ghost function FirstPostings(terms: seq<Term>): seq<Cursor> {
    seq(|terms|, i requires 0 <= i < |terms| => Cursor(terms[i], 0, 0))
  }

  /** One fresh enumerator per query term, at its first posting and first block. */
  method MakeEnums(q: Query) returns (es: seq<ScoredEnum>)
    ensures Shows(q.numDocs, es, FirstPostings(q.terms)) && fresh(es)
  {
    es := [];
    for i := 0 to |q.terms|
      invariant |es| == i && Distinct(es) && fresh(es)
      invariant forall j :: 0 <= j < i ==> es[j].numDocs == q.numDocs && es[j].View() == Cursor(q.terms[j], 0, 0)
    {
      var e := new ScoredEnum(q.terms[i], q.numDocs);
      es := es + [e];
    }
  }

  method InsertByDocid(es: seq<ScoredEnum>, e: ScoredEnum, ghost n: nat, ghost cs: seq<Cursor>, ghost c: Cursor)
    returns (r: seq<ScoredEnum>, ghost rs: seq<Cursor>)
    requires Shows(n, es, cs) && e !in es && SortedByDocid(n, cs)
    requires e.numDocs == n && e.View() == c
    ensures Shows(n, r, rs) && SortedByDocid(n, rs)
    ensures multiset(rs) == multiset(cs) + multiset{c}
    ensures multiset(r) == multiset(es) + multiset{e}
  {
    var j := |es|;
    while j > 0 && e.Docid() < es[j - 1].Docid()
      invariant 0 <= j <= |es|
      invariant j < |es| ==> Docid(n, c) < Docid(n, cs[j])
    {
      j := j - 1;
    }
    Multisets.OfInsertion(es, j, e);
    Multisets.OfInsertion(cs, j, c);
    InsertedSorted(n, cs, j, c);
    InsertedShows(n, es, cs, j, e, c);
    r := es[..j] + [e] + es[j..];
    rs := cs[..j] + [c] + cs[j..];
  }

  lemma InsertedShows(n: nat, es: seq<ScoredEnum>, cs: seq<Cursor>, j: nat, e: ScoredEnum, c: Cursor)
    requires Shows(n, es, cs) && e !in es && j <= |es| && e.numDocs == n && e.View() == c
    ensures Shows(n, es[..j] + [e] + es[j..], cs[..j] + [c] + cs[j..])
  {}

  lemma InsertedSorted(n: nat, cs: seq<Cursor>, j: nat, c: Cursor)
    requires SortedByDocid(n, cs) && j <= |cs|
    requires j > 0 ==> Docid(n, cs[j - 1]) <= Docid(n, c)
    requires j < |cs| ==> Docid(n, c) <= Docid(n, cs[j])
    ensures SortedByDocid(n, cs[..j] + [c] + cs[j..])
  {
    var r := cs[..j] + [c] + cs[j..];
    forall a, b | 0 <= a < b < |r| ensures Docid(n, r[a]) <= Docid(n, r[b]) {
      if a < j && b >= j {
        assert Docid(n, cs[a]) <= Docid(n, cs[j - 1]);
      }
      if b > j && a <= j {
        assert Docid(n, cs[j]) <= Docid(n, cs[b - 1]);
      }
    }
  }

  /** The contract of `sort_enums`: the same enumerators by increasing docid, ties in any order. */
  method SortEnums(es: seq<ScoredEnum>, ghost n: nat, ghost cs: seq<Cursor>)
    returns (r: seq<ScoredEnum>, ghost rs: seq<Cursor>)
    requires Shows(n, es, cs)
    ensures Shows(n, r, rs) && SortedByDocid(n, rs)
    ensures multiset(rs) == multiset(cs) && multiset(r) == multiset(es)
  {
    r, rs := [], [];
    for i := 0 to |es|
      invariant multiset(r) == multiset(es[..i]) && multiset(rs) == multiset(cs[..i])
      invariant Shows(n, r, rs) && SortedByDocid(n, rs)
    {
      NotAmongEarlier(es, i, r);
      r, rs := InsertByDocid(r, es[i], n, rs, cs[i]);
      assert es[..i + 1] == es[..i] + [es[i]];
      assert cs[..i + 1] == cs[..i] + [cs[i]];
    }
    assert es[..|es|] == es && cs[..|cs|] == cs;
  }

  lemma NotAmongEarlier(es: seq<ScoredEnum>, i: nat, r: seq<ScoredEnum>)
    requires Distinct(es) && i < |es| && multiset(r) == multiset(es[..i])
    ensures es[i] !in r
  {
    assert es[i] !in es[..i];
    assert es[i] !in multiset(es[..i]);
    assert es[i] !in multiset(r);
  }

  ghost predicate SortedExcept(n: nat, cs: seq<Cursor>, x: nat) {
    forall i, j :: 0 <= i < j < |cs| && i != x ==> Docid(n, cs[i]) <= Docid(n, cs[j])
  }

  ghost function Swapped<X>(s: seq<X>, i: nat): (r: seq<X>)
    requires 0 < i < |s|
    ensures |r| == |s|
  {
    s[i := s[i - 1]][i - 1 := s[i]]
  }

  lemma SwapSorts(n: nat, cs: seq<Cursor>, i: nat)
    requires 0 < i < |cs| && SortedExcept(n, cs, i - 1) && Docid(n, cs[i]) <= Docid(n, cs[i - 1])
    ensures SortedExcept(n, Swapped(cs, i), i) && multiset(Swapped(cs, i)) == multiset(cs)
  {
    Multisets.OfSwap(cs, i, i - 1);
  }

  lemma SwapShows(n: nat, es: seq<ScoredEnum>, cs: seq<Cursor>, i: nat)
    requires Shows(n, es, cs) && 0 < i < |es|
    ensures Shows(n, Swapped(es, i), Swapped(cs, i)) && multiset(Swapped(es, i)) == multiset(es)
  {
    Multisets.OfSwap(es, i, i - 1);
    var rs, rc := Swapped(es, i), Swapped(cs, i);
    assert Distinct(rs) by { SwapDistinct(es, i); }
    assert rs[i] == es[i - 1] && rs[i - 1] == es[i] && rc[i] == cs[i - 1] && rc[i - 1] == cs[i];
    forall j | 0 <= j < |rs|
      ensures rs[j].numDocs == n && rs[j].View() == rc[j]
    {
      if j != i && j != i - 1 {
        assert rs[j] == es[j] && rc[j] == cs[j];
      }
    }
  }

  lemma SwapDistinct(es: seq<ScoredEnum>, i: nat)
    requires Distinct(es) && 0 < i < |es|
    ensures Distinct(Swapped(es, i))
  {}

  /** Swaps the enumerator at `from`, just moved forward, down to its place among the others.
      `passEqual` is the one place where the comparison is `<=` instead of `<`. */
  method BubbleDown(es: seq<ScoredEnum>, from: nat, passEqual: bool, ghost n: nat, ghost cs: seq<Cursor>)
    returns (r: seq<ScoredEnum>, ghost rs: seq<Cursor>)
    requires Shows(n, es, cs) && from < |es| && SortedExcept(n, cs, from)
    ensures Shows(n, r, rs) && SortedByDocid(n, rs)
    ensures multiset(rs) == multiset(cs) && multiset(r) == multiset(es)
  {
    r, rs := es, cs;
    var i := from + 1;
    while i < |r|
      invariant from < i <= |r| == |es|
      invariant multiset(rs) == multiset(cs) && multiset(r) == multiset(es)
      invariant Shows(n, r, rs) && SortedExcept(n, rs, i - 1)
    {
      if r[i].Docid() < r[i - 1].Docid() || (passEqual && r[i].Docid() == r[i - 1].Docid()) {
        SwapSorts(n, rs, i);
        SwapShows(n, r, rs, i);
        r, rs := r[i := r[i - 1]][i - 1 := r[i]], Swapped(rs, i);
      } else {
        break;
      }
      i := i + 1;
    }
    BubbledIsSorted(n, rs, i);
  }

  lemma BubbledIsSorted(n: nat, cs: seq<Cursor>, i: nat)
    requires 0 < i <= |cs| && SortedExcept(n, cs, i - 1)
    requires i < |cs| ==> Docid(n, cs[i - 1]) <= Docid(n, cs[i])
    ensures SortedByDocid(n, cs)
  {
    forall a, b | 0 <= a < b < |cs| ensures Docid(n, cs[a]) <= Docid(n, cs[b]) {
      if a == i - 1 && b > i {
        assert Docid(n, cs[i]) <= Docid(n, cs[b]);
      }
    }
  }
}
