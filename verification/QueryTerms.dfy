/** The distinct terms of a query with the number of times each occurs. */
module QueryTerms {
  import opened SortedLists
  import Multisets

  datatype TermFreq = TermFreq(term: nat, freq: nat)

  function Copies(t: nat, count: nat): (s: seq<nat>)
    ensures |s| == count
  {
    if count == 0 then [] else Copies(t, count - 1) + [t]
  }

  /** Every term as often as it was counted. */
  ghost function Expanded(freqs: seq<TermFreq>): seq<nat> {
    if freqs == [] then []
    else Expanded(freqs[..|freqs| - 1]) + Copies(freqs[|freqs| - 1].term, freqs[|freqs| - 1].freq)
  }

  ghost predicate Distinct(freqs: seq<TermFreq>) {
    && (forall i :: 0 <= i < |freqs| ==> freqs[i].freq >= 1)
    && forall i, j :: 0 <= i < j < |freqs| ==> freqs[i].term < freqs[j].term
  }

  /** The contract of `std::sort` on term identifiers. */
  method SortTerms(terms: seq<nat>) returns (r: seq<nat>)
    ensures NonDecreasing(r) && multiset(r) == multiset(terms)
  {
    r := [];
    for i := 0 to |terms|
      invariant NonDecreasing(r) && multiset(r) == multiset(terms[..i])
    {
      var p: nat := |r|;
      while p > 0 && r[p - 1] > terms[i]
        invariant p <= |r| && forall j :: p <= j < |r| ==> r[j] > terms[i]
      {
        p := p - 1;
      }
      Multisets.OfInsertion(r, p, terms[i]);
      assert terms[..i + 1] == terms[..i] + [terms[i]];
      r := r[..p] + [terms[i]] + r[p..];
    }
    assert terms[..|terms|] == terms;
  }

  /** Each term once, in ascending order; written out as often as counted they are the query's terms. */
  method QueryFreqs(terms: seq<nat>) returns (freqs: seq<TermFreq>)
    ensures Distinct(freqs)
    ensures multiset(Expanded(freqs)) == multiset(terms)
    ensures forall i :: 0 <= i < |freqs| ==> freqs[i].freq == multiset(terms)[freqs[i].term] > 0
    ensures forall t <- terms :: exists i :: 0 <= i < |freqs| && freqs[i].term == t
  {
    var sorted := SortTerms(terms);
    freqs := [];
    assert sorted[..0] == [];
    for i := 0 to |sorted|
      invariant Distinct(freqs) && Expanded(freqs) == sorted[..i]
      invariant if i == 0 then freqs == [] else freqs != [] && freqs[|freqs| - 1].term == sorted[i - 1]
    {
      hide Expanded;
      assert sorted[..i + 1] == sorted[..i] + [sorted[i]];
      if i == 0 || sorted[i] != sorted[i - 1] {
        NewTerm(freqs, sorted[i]);
        freqs := freqs + [TermFreq(sorted[i], 1)];
      } else {
        OneMore(freqs);
        var last := freqs[|freqs| - 1];
        freqs := freqs[|freqs| - 1 := last.(freq := last.freq + 1)];
      }
    }
    assert sorted[..|sorted|] == sorted;
    CountsAre(terms, freqs);
  }

  /** The counts are those of the query's terms, and no term is left out. */
  lemma {:induction false} CountsAre(terms: seq<nat>, freqs: seq<TermFreq>)
    requires Distinct(freqs) && multiset(Expanded(freqs)) == multiset(terms)
    ensures forall i :: 0 <= i < |freqs| ==> freqs[i].freq == multiset(terms)[freqs[i].term] > 0
    ensures forall t <- terms :: exists i :: 0 <= i < |freqs| && freqs[i].term == t
  {
    hide Expanded;
    forall i | 0 <= i < |freqs| ensures freqs[i].freq == multiset(terms)[freqs[i].term] > 0 {
      CountOf(freqs, i);
    }
    forall t | t in terms ensures exists i :: 0 <= i < |freqs| && freqs[i].term == t {
      assert t in multiset(terms);
      assert t in Expanded(freqs);
      var i := Counted(freqs, t);
    }
  }

  lemma {:induction false} CountOf(freqs: seq<TermFreq>, i: nat)
    requires Distinct(freqs) && i < |freqs|
    ensures multiset(Expanded(freqs))[freqs[i].term] == freqs[i].freq
  {
    var n := |freqs| - 1;
    var rest := freqs[..n];
    CopiesCount(freqs[n].term, freqs[n].freq, freqs[i].term);
    assert multiset(Expanded(freqs)) == multiset(Expanded(rest)) + multiset(Copies(freqs[n].term, freqs[n].freq));
    if i == n {
      NotAmongSmaller(rest, freqs[n].term);
    } else {
      CountOf(rest, i);
    }
  }

  lemma {:induction false} CopiesCount(t: nat, count: nat, u: nat)
    ensures multiset(Copies(t, count))[u] == if u == t then count else 0
  {
    if count == 0 {
    } else {
      CopiesCount(t, count - 1, u);
      assert multiset(Copies(t, count)) == multiset(Copies(t, count - 1)) + multiset{t};
    }
  }

  lemma {:induction false} NotAmongSmaller(freqs: seq<TermFreq>, t: nat)
    requires forall i :: 0 <= i < |freqs| ==> freqs[i].term < t
    ensures multiset(Expanded(freqs))[t] == 0
  {
    if freqs == [] {
    } else {
      var n := |freqs| - 1;
      var rest, last := Expanded(freqs[..n]), Copies(freqs[n].term, freqs[n].freq);
      NotAmongSmaller(freqs[..n], t);
      CopiesCount(freqs[n].term, freqs[n].freq, t);
      assert Expanded(freqs) == rest + last;
      hide Expanded, Copies;
      assert multiset(rest + last) == multiset(rest) + multiset(last);
    }
  }

  lemma {:induction false} Counted(freqs: seq<TermFreq>, t: nat) returns (i: nat)
    requires t in Expanded(freqs)
    ensures i < |freqs| && freqs[i].term == t
  {
    var n := |freqs| - 1;
    if t in Expanded(freqs[..n]) {
      i := Counted(freqs[..n], t);
    } else {
      i := n;
      AllCopies(freqs[n].term, freqs[n].freq, t);
    }
  }

  lemma {:induction false} AllCopies(t: nat, count: nat, u: nat)
    ensures u in Copies(t, count) ==> u == t
  {
    if count == 0 {
    } else {
      AllCopies(t, count - 1, u);
    }
  }

  lemma {:induction false} NewTerm(freqs: seq<TermFreq>, t: nat)
    requires Distinct(freqs) && (freqs != [] ==> freqs[|freqs| - 1].term < t)
    ensures Expanded(freqs + [TermFreq(t, 1)]) == Expanded(freqs) + [t]
    ensures Distinct(freqs + [TermFreq(t, 1)])
  {
    assert Copies(t, 1) == Copies(t, 0) + [t] == [t];
    assert (freqs + [TermFreq(t, 1)])[..|freqs|] == freqs;
  }

  lemma {:induction false} OneMore(freqs: seq<TermFreq>)
    requires freqs != [] && Distinct(freqs)
    ensures var n := |freqs| - 1; var more := freqs[n := freqs[n].(freq := freqs[n].freq + 1)];
            Expanded(more) == Expanded(freqs) + [freqs[n].term] && Distinct(more)
  {
    var n := |freqs| - 1;
    assert freqs[n := freqs[n].(freq := freqs[n].freq + 1)][..n] == freqs[..n];
  }
}
