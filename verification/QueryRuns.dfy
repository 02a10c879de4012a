/** Queries as callers pose them, plain or weighted, over an index of posting lists: all four algorithms,
    run one after the other, leave the same scores. */
module QueryRuns {
  import opened Postings
  import opened QueryTerms
  import opened TopK
  import RankedOr
  import Wand
  import BlockMaxWand
  import MaxScore

  /** What is stored for a term, whatever query it occurs in. */
  datatype Stored = Stored(
    docs: seq<nat>, weights: seq<real>, maxTermWeight: real, maxDocWeight: real,
    blockLast: seq<nat>, blockMax: seq<real>)

  datatype Index = Index(numDocs: nat, docWeight: seq<real>, lists: seq<Stored>)

  function TermFor(s: Stored, qWeight: real): Term {
    Term(s.docs, s.weights, qWeight, s.maxTermWeight, s.maxDocWeight, s.blockLast, s.blockMax)
  }

  /** Every list is in order and its list and block bounds are sound. */
  ghost predicate IndexOk(index: Index) {
    BlockQueryOk(Query(index.numDocs, index.docWeight, 0, AllTerms(index)))
  }

  ghost function AllTerms(index: Index): seq<Term> {
    seq(|index.lists|, i requires 0 <= i < |index.lists| => TermFor(index.lists[i], 1.0))
  }

  /** A term of a sound index, at any weight that is not negative. */
  lemma TermSound(index: Index, i: nat, qWeight: real, q: Query)
    requires IndexOk(index) && i < |index.lists| && qWeight >= 0.0
    requires q.numDocs == index.numDocs && q.docWeight == index.docWeight
    ensures var t := TermFor(index.lists[i], qWeight);
            && |q.docWeight| == q.numDocs && TermOk(q, t) && BlocksSound(t.docs, t.weights, t.blockLast, t.blockMax)
            && forall b :: 0 <= b < |t.blockLast| ==> t.blockLast[b] < q.numDocs
  {
    var all := Query(index.numDocs, index.docWeight, 0, AllTerms(index));
    var t := TermFor(index.lists[i], 1.0);
    assert AllTerms(index)[i] == t && t in all.terms;
    assert TermOk(all, t);
  }

  lemma QuerySound(index: Index, q: Query)
    requires IndexOk(index) && q.numDocs == index.numDocs && q.docWeight == index.docWeight
    requires forall t <- q.terms :: exists i :: 0 <= i < |index.lists| && t == TermFor(index.lists[i], t.qWeight) && t.qWeight >= 0.0
    ensures BlockQueryOk(q)
  {
    assert |q.docWeight| == q.numDocs && q.numDocs < 0x1_0000_0000;
    forall t | t in q.terms
      ensures TermOk(q, t) && BlocksSound(t.docs, t.weights, t.blockLast, t.blockMax)
      ensures forall b :: 0 <= b < |t.blockLast| ==> t.blockLast[b] < q.numDocs
    {
      hide TermOk, BlocksSound, IndexOk;
      var i :| 0 <= i < |index.lists| && t == TermFor(index.lists[i], t.qWeight);
      TermSound(index, i, t.qWeight, q);
    }
  }

  // ----- plain queries -----

  /** Each distinct term once, in ascending order, weighted by how often it occurs; the query's length counts every
      occurrence. The order is that of the terms the built lists belong to. */
  method PlainQuery(index: Index, terms: seq<nat>, queryTermWeight: (nat, nat) -> real)
    returns (q: Query, ghost order: seq<nat>)
    requires IndexOk(index) && forall t <- terms :: t < |index.lists|
    requires forall freq, size :: queryTermWeight(freq, size) >= 0.0
    ensures BlockQueryOk(q) && q.numDocs == index.numDocs && q.docWeight == index.docWeight && q.qLen == |terms|
    ensures |order| == |q.terms| && (forall t :: t in order <==> t in terms)
    ensures forall i, j :: 0 <= i < j < |order| ==> order[i] < order[j]
    ensures forall i :: 0 <= i < |order| ==> order[i] < |index.lists| && IsList(index.lists[order[i]], q.terms[i])
    ensures forall i :: 0 <= i < |order| ==>
              q.terms[i].qWeight == queryTermWeight(multiset(terms)[order[i]], |index.lists[order[i]].docs|)
  {
    hide IndexOk, BlockQueryOk, Distinct, Expanded;
    var freqs := QueryFreqs(terms);
    forall i | 0 <= i < |freqs| ensures freqs[i].term < |index.lists| {
      assert freqs[i].term in multiset(terms);
      assert freqs[i].term in terms;
    }
    var built := BuildTerms(index, freqs, queryTermWeight);
    q := Query(index.numDocs, index.docWeight, |terms|, built);
    QuerySound(index, q);
    order := seq(|freqs|, i requires 0 <= i < |freqs| => freqs[i].term);
    OrderIsTerms(terms, freqs, order);
    OrderAscends(freqs, order);
  }

  method BuildTerms(index: Index, freqs: seq<TermFreq>, queryTermWeight: (nat, nat) -> real) returns (built: seq<Term>)
    requires forall i :: 0 <= i < |freqs| ==> freqs[i].term < |index.lists|
    ensures |built| == |freqs|
    ensures forall i :: 0 <= i < |built| ==>
              built[i] == TermFor(index.lists[freqs[i].term],
                                  queryTermWeight(freqs[i].freq, |index.lists[freqs[i].term].docs|))
  {
    built := [];
    for i := 0 to |freqs|
      invariant |built| == i
      invariant forall j :: 0 <= j < i ==>
                  built[j] == TermFor(index.lists[freqs[j].term],
                                      queryTermWeight(freqs[j].freq, |index.lists[freqs[j].term].docs|))
    {
      var list := index.lists[freqs[i].term];
      built := built + [TermFor(list, queryTermWeight(freqs[i].freq, |list.docs|))];
    }
  }

  lemma OrderAscends(freqs: seq<TermFreq>, order: seq<nat>)
    requires Distinct(freqs) && |order| == |freqs| && forall i :: 0 <= i < |order| ==> order[i] == freqs[i].term
    ensures forall i, j :: 0 <= i < j < |order| ==> order[i] < order[j]
  {}

  /** The list of the term is the stored one, bounds and blocks included. */
  ghost predicate IsList(s: Stored, t: Term) {
    && t.docs == s.docs && t.weights == s.weights && t.maxTermWeight == s.maxTermWeight
    && t.maxDocWeight == s.maxDocWeight && t.blockLast == s.blockLast && t.blockMax == s.blockMax
  }

  lemma OrderIsTerms(terms: seq<nat>, freqs: seq<TermFreq>, order: seq<nat>)
    requires |order| == |freqs| && forall i :: 0 <= i < |order| ==> order[i] == freqs[i].term
    requires forall i :: 0 <= i < |freqs| ==> freqs[i].freq == multiset(terms)[freqs[i].term] > 0
    requires forall t <- terms :: exists i :: 0 <= i < |freqs| && freqs[i].term == t
    ensures forall t :: t in order <==> t in terms
  {
    forall t | t in order ensures t in terms {
      var i :| 0 <= i < |order| && order[i] == t;
      assert freqs[i].term in multiset(terms);
      assert freqs[i].term in terms;
    }
    forall t | t in terms ensures t in order {
      var i :| 0 <= i < |freqs| && freqs[i].term == t;
      assert order[i] == t;
    }
  }

  // ----- weighted queries -----

  /** Every given pair of a term and a weight becomes a list of its own, also when a term is given twice. */
  method WeightedQuery(index: Index, terms: seq<(nat, real)>, queryTermWeight: (nat, nat) -> real) returns (q: Query)
    requires IndexOk(index) && forall t <- terms :: t.0 < |index.lists| && t.1 >= 0.0
    requires forall freq, size :: queryTermWeight(freq, size) >= 0.0
    ensures BlockQueryOk(q) && q.numDocs == index.numDocs && q.docWeight == index.docWeight
    ensures q.qLen == |q.terms| == |terms|
    ensures forall i :: 0 <= i < |terms| ==> terms[i].0 < |index.lists| && IsList(index.lists[terms[i].0], q.terms[i])
    ensures forall i :: 0 <= i < |terms| ==>
              q.terms[i].qWeight == queryTermWeight(1, |index.lists[terms[i].0].docs|) * terms[i].1
  {
    var built: seq<Term> := [];
    for i := 0 to |terms|
      invariant |built| == i
      invariant forall j :: 0 <= j < i ==> terms[j].0 < |index.lists| && IsList(index.lists[terms[j].0], built[j])
      invariant forall j :: 0 <= j < i ==>
                  built[j].qWeight == queryTermWeight(1, |index.lists[terms[j].0].docs|) * terms[j].1
      invariant forall j :: 0 <= j < i ==> built[j].qWeight >= 0.0
    {
      assert terms[i] in terms;
      var list := index.lists[terms[i].0];
      ProductMonotone(queryTermWeight(1, |list.docs|), 0.0, terms[i].1);
      built := built + [TermFor(list, queryTermWeight(1, |list.docs|) * terms[i].1)];
    }
    q := Query(index.numDocs, index.docWeight, |terms|, built);
    QuerySound(index, q);
  }

  // ----- all algorithms -----

  /** The four algorithms accept the same insertions in the same order and leave the same scores. */
  method RunAll(q: Query, k: nat)
    returns (exhaustive: seq<real>, wand: seq<real>, blockMax: seq<real>, maxScore: seq<real>)
    requires BlockQueryOk(q) && k >= 1
    ensures wand == blockMax == maxScore == exhaustive == FinalScores(k, Offers(q, q.numDocs))
  {
    hide BlockQueryOk, FinalScores, Offers, AcceptedBelow;
    BlockMaxWand.BlockQueryIsQuery(q);
    var a := new RankedOr.RankedOrQuery(k);
    a.Run(q);
    exhaustive := ScoresOf(a.topk.entries);
    var b := new Wand.WandQuery(k);
    b.Run(q);
    wand := ScoresOf(b.topk.entries);
    var c := new BlockMaxWand.BlockMaxWandQuery(k);
    c.Run(q);
    blockMax := ScoresOf(c.topk.entries);
    var d := new MaxScore.MaxScoreQuery(k);
    d.Run(q);
    maxScore := ScoresOf(d.topk.entries);
  }

  method ScoresOf(entries: seq<Entry>) returns (s: seq<real>)
    ensures s == Scores(entries)
  {
    s := [];
    for i := 0 to |entries|
      invariant s == Scores(entries)[..i]
    {
      s := s + [entries[i].score];
    }
  }
}
