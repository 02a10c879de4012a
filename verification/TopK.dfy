/** The queue that keeps the k best scored documents, and the meaning of a run of offers to it. */
module TopK {
  import Multisets

  datatype Entry = Entry(score: real, docid: nat)

  // ----- the value-level meaning -----

  ghost predicate Ascending(s: seq<real>) {
    forall i, j :: 0 <= i < j < |s| ==> s[i] <= s[j]
  }

  ghost function SortedInsert(s: seq<real>, x: real): seq<real> {
    if s == [] || x <= s[0] then [x] + s else [s[0]] + SortedInsert(s[1..], x)
  }

  lemma {:induction false} SortedInsertContents(s: seq<real>, x: real)
    ensures multiset(SortedInsert(s, x)) == multiset(s) + multiset{x}
    ensures |SortedInsert(s, x)| == |s| + 1
  {
    if s == [] || x <= s[0] {
      assert multiset([x] + s) == multiset{x} + multiset(s);
    } else {
      SortedInsertContents(s[1..], x);
      var r := SortedInsert(s[1..], x);
      assert multiset([s[0]] + r) == multiset{s[0]} + multiset(r);
      assert s == [s[0]] + s[1..];
      assert multiset(s) == multiset{s[0]} + multiset(s[1..]);
    }
  }

  lemma {:induction false} SortedInsertAscends(s: seq<real>, x: real)
    requires Ascending(s)
    ensures Ascending(SortedInsert(s, x))
    ensures SortedInsert(s, x)[0] == if s == [] || x <= s[0] then x else s[0]
  {
    if s == [] || x <= s[0] {
    } else {
      SortedInsertAscends(s[1..], x);
      var r := SortedInsert(s[1..], x);
      assert forall i :: 0 <= i < |r| ==> s[0] <= r[i];
    }
  }

  /** The k largest scores of the given entries, in ascending order. */
  ghost function Best(k: nat, offers: seq<Entry>): (top: seq<real>)
    ensures |top| <= k
  {
    if offers == [] then []
    else
      var t := SortedInsert(Best(k, offers[..|offers| - 1]), offers[|offers| - 1].score);
      if |t| > k then t[|t| - k..] else t
  }

  ghost predicate WouldEnter(k: nat, offers: seq<Entry>, score: real) {
    var top := Best(k, offers);
    |top| < k || (k > 0 && score > top[0])
  }

  /** The offers the queue lets in, in the order they are made. */
  ghost function Accepted(k: nat, offers: seq<Entry>): seq<Entry> {
    if offers == [] then []
    else
      var log := Accepted(k, offers[..|offers| - 1]);
      var e := offers[|offers| - 1];
      if WouldEnter(k, log, e.score) then log + [e] else log
  }

  ghost function Scores(entries: seq<Entry>): seq<real> {
    seq(|entries|, i requires 0 <= i < |entries| => entries[i].score)
  }

  lemma {:induction false} BestAscends(k: nat, offers: seq<Entry>)
    ensures Ascending(Best(k, offers))
    ensures |Best(k, offers)| == if |offers| < k then |offers| else k
  {
    if offers == [] {
    } else {
      var rest := offers[..|offers| - 1];
      BestAscends(k, rest);
      SortedInsertAscends(Best(k, rest), offers[|offers| - 1].score);
      SortedInsertContents(Best(k, rest), offers[|offers| - 1].score);
    }
  }

  function Surplus(k: nat, t: seq<real>): (cut: nat)
    ensures cut <= |t|
  {
    if |t| > k then |t| - k else 0
  }

  /** The scores that fell out of the k best. */
  ghost function Dropped(k: nat, offers: seq<Entry>): multiset<real> {
    if offers == [] then multiset{}
    else
      var rest := offers[..|offers| - 1];
      var t := SortedInsert(Best(k, rest), offers[|offers| - 1].score);
      Dropped(k, rest) + multiset(t[..Surplus(k, t)])
  }

  lemma CutKeepsAll(before: multiset<real>, best: multiset<real>, dropped: multiset<real>, t: seq<real>, x: real,
                    cut: nat)
    requires before == best + dropped && multiset(t) == best + multiset{x} && cut <= |t|
    ensures before + multiset{x} == multiset(t[cut..]) + (dropped + multiset(t[..cut]))
  {
    var low, high := multiset(t[..cut]), multiset(t[cut..]);
    assert multiset(t) == low + high by { assert t == t[..cut] + t[cut..]; }
    assert before + multiset{x} == (best + multiset{x}) + dropped;
    assert (low + high) + dropped == high + (dropped + low);
  }

  lemma ScoresAppend(entries: seq<Entry>, e: Entry)
    ensures Scores(entries + [e]) == Scores(entries) + [e.score]
    ensures multiset(Scores(entries + [e])) == multiset(Scores(entries)) + multiset{e.score}
  {
    assert Scores(entries + [e]) == Scores(entries) + [e.score];
  }

  /** The k best and the dropped scores together are exactly the offered scores. */
  lemma {:induction false} BestAndDroppedAreAll(k: nat, offers: seq<Entry>)
    ensures multiset(Scores(offers)) == multiset(Best(k, offers)) + Dropped(k, offers)
  {
    hide Scores, SortedInsert;
    if offers == [] {
      NoScores();
    } else {
      var rest, e := offers[..|offers| - 1], offers[|offers| - 1];
      BestAndDroppedAreAll(k, rest);
      var t := SortedInsert(Best(k, rest), e.score);
      var cut := if |t| > k then |t| - k else 0;
      SortedInsertContents(Best(k, rest), e.score);
      assert multiset(Scores(offers)) == multiset(Scores(rest)) + multiset{e.score} by {
        assert offers == rest + [e];
        ScoresAppend(rest, e);
      }
      CutKeepsAll(multiset(Scores(rest)), multiset(Best(k, rest)), Dropped(k, rest), t, e.score, cut);
      BestAndDroppedStep(k, offers, t, cut);
    }
  }

  lemma NoScores()
    ensures Scores([]) == []
  {}

  lemma {:induction false} BestAndDroppedStep(k: nat, offers: seq<Entry>, t: seq<real>, cut: nat)
    requires offers != []
    requires t == SortedInsert(Best(k, offers[..|offers| - 1]), offers[|offers| - 1].score)
    requires cut == if |t| > k then |t| - k else 0
    ensures Best(k, offers) == t[cut..] && cut <= |t|
    ensures Dropped(k, offers) == Dropped(k, offers[..|offers| - 1]) + multiset(t[..cut])
  {
    hide Best, Dropped, SortedInsert;
    BestCut(k, offers, t);
    DroppedCut(k, offers, t);
  }

  lemma {:induction false} BestCut(k: nat, offers: seq<Entry>, t: seq<real>)
    requires offers != []
    requires t == SortedInsert(Best(k, offers[..|offers| - 1]), offers[|offers| - 1].score)
    ensures Best(k, offers) == t[Surplus(k, t)..]
  {
    hide SortedInsert;
  }

  lemma {:induction false} DroppedCut(k: nat, offers: seq<Entry>, t: seq<real>)
    requires offers != []
    requires t == SortedInsert(Best(k, offers[..|offers| - 1]), offers[|offers| - 1].score)
    ensures Dropped(k, offers) == Dropped(k, offers[..|offers| - 1]) + multiset(t[..Surplus(k, t)])
  {
    hide Best, SortedInsert;
  }

  /** The k best after one more offer depend on the k best before it and the offer alone. */
  lemma {:induction false} BestAfter(k: nat, offers: seq<Entry>, e: Entry)
    ensures var t := SortedInsert(Best(k, offers), e.score);
            Best(k, offers + [e]) == if |t| > k then t[|t| - k..] else t
  {
    hide SortedInsert;
    assert (offers + [e])[..|offers|] == offers;
  }

  lemma {:induction false} AcceptedAfter(k: nat, offers: seq<Entry>, e: Entry)
    ensures Accepted(k, offers + [e])
         == var log := Accepted(k, offers); if WouldEnter(k, log, e.score) then log + [e] else log
  {
    hide Best, WouldEnter;
    assert (offers + [e])[..|offers|] == offers;
  }

  /** No dropped score is larger than any of the k best. */
  lemma {:induction false} BestAreLargest(k: nat, offers: seq<Entry>)
    ensures forall x, i :: x in Dropped(k, offers) && 0 <= i < |Best(k, offers)| ==> x <= Best(k, offers)[i]
  {
    if offers != [] && k > 0 {
      var rest := offers[..|offers| - 1];
      var e := offers[|offers| - 1].score;
      BestAscends(k, rest);
      BestAreLargest(k, rest);
      var b := Best(k, rest);
      SortedInsertAscends(b, e);
      SortedInsertContents(b, e);
      var t := SortedInsert(b, e);
      if |t| > k {
        assert |t| == k + 1;
        assert Dropped(k, offers) == Dropped(k, rest) + multiset{t[0]} by { assert t[..1] == [t[0]]; }
        forall x, i | x in Dropped(k, offers) && 0 <= i < k
          ensures x <= t[1..][i]
        {
          if x in Dropped(k, rest) {
            // the new minimum is at least the old one
            assert x <= b[0];
            assert b[0] <= t[1] by { LargerAfterInsert(b, e); }
            assert t[1] <= t[i + 1];
          }
        }
      } else {
        assert |rest| < k;
        NothingDropped(k, offers);
      }
    }
  }

  lemma {:induction false} LargerAfterInsert(s: seq<real>, x: real)
    requires s != [] && Ascending(s)
    ensures |SortedInsert(s, x)| > 1 && SortedInsert(s, x)[1] >= s[0]
  {
    SortedInsertContents(s, x);
    if x > s[0] && |s| > 1 {
      SortedInsertAscends(s[1..], x);
    }
  }

  lemma {:induction false} NothingDropped(k: nat, offers: seq<Entry>)
    requires |offers| <= k
    ensures Dropped(k, offers) == multiset{}
  {
    if offers != [] {
      var rest := offers[..|offers| - 1];
      NothingDropped(k, rest);
      BestAscends(k, rest);
      SortedInsertContents(Best(k, rest), offers[|offers| - 1].score);
    }
  }

  /** A refused offer leaves the k best scores as they were. */
  lemma {:induction false} RefusedKeepsBest(k: nat, offers: seq<Entry>, e: Entry)
    requires !WouldEnter(k, offers, e.score)
    ensures Best(k, offers + [e]) == Best(k, offers)
  {
    assert (offers + [e])[..|offers|] == offers;
  }

  /** An offer is let in exactly if the k best scores are others with it than without it: a tie with the
      smallest of them is refused. */
  lemma {:induction false} EntersIffChanges(k: nat, offers: seq<Entry>, e: Entry)
    ensures WouldEnter(k, offers, e.score) <==> multiset(Best(k, offers + [e])) != multiset(Best(k, offers))
  {
    hide SortedInsert, Best;
    if !WouldEnter(k, offers, e.score) {
      RefusedKeepsBest(k, offers, e);
    } else {
      EnteringChanges(k, offers, e);
    }
  }

  lemma {:induction false} EnteringChanges(k: nat, offers: seq<Entry>, e: Entry)
    requires WouldEnter(k, offers, e.score)
    ensures multiset(Best(k, offers + [e])) != multiset(Best(k, offers))
  {
    hide SortedInsert, Best, Ascending;
    var top := Best(k, offers);
    var t := SortedInsert(top, e.score);
    BestAfter(k, offers, e);
    BestAscends(k, offers);
    SortedInsertContents(top, e.score);
    SortedInsertAscends(top, e.score);
    if |top| < k {
      OtherLength(t, top);
    } else {
      assert t[0] == top[0] != e.score;
      OtherTail(top, t, e.score);
    }
  }

  lemma OtherLength(s: seq<real>, t: seq<real>)
    requires |s| != |t|
    ensures multiset(s) != multiset(t)
  {
    assert |multiset(s)| == |s| && |multiset(t)| == |t|;
  }

  lemma OtherTail(top: seq<real>, t: seq<real>, x: real)
    requires t != [] && multiset(t) == multiset(top) + multiset{x} && t[0] != x
    ensures multiset(t[1..]) != multiset(top)
  {
    Multisets.OfTail(t);
    OneForAnother(multiset(top), multiset(t[1..]), x, t[0]);
  }

  lemma OneForAnother(a: multiset<real>, b: multiset<real>, x: real, y: real)
    requires x != y && b + multiset{y} == a + multiset{x}
    ensures a != b
  {
    assert (b + multiset{y})[x] == b[x] && (a + multiset{x})[x] == a[x] + 1;
  }

  /** Dropping the refused offers changes no later decision. */
  lemma {:induction false} AcceptedKeepsBest(k: nat, offers: seq<Entry>)
    ensures Best(k, Accepted(k, offers)) == Best(k, offers)
  {
    hide SortedInsert, WouldEnter;
    if offers == [] {
    } else {
      var rest := offers[..|offers| - 1];
      var e := offers[|offers| - 1];
      AcceptedKeepsBest(k, rest);
      var log := Accepted(k, rest);
      assert offers == rest + [e];
      AcceptedAfter(k, rest, e);
      BestAfter(k, rest, e);
      if WouldEnter(k, log, e.score) {
        BestAfter(k, log, e);
      } else {
        RefusedKeepsBest(k, log, e);
        BestAfter(k, log, e);
      }
    }
  }

  /** The threshold never goes down: what is refused once stays refused. */
  lemma {:induction false} RefusedStaysRefused(k: nat, offers: seq<Entry>, e: Entry, score: real)
    requires !WouldEnter(k, offers, score)
    ensures !WouldEnter(k, offers + [e], score)
  {
    var top := Best(k, offers);
    assert (offers + [e])[..|offers|] == offers;
    BestAscends(k, offers);
    SortedInsertContents(top, e.score);
    if k > 0 {
      LargerAfterInsert(top, e.score);
    }
  }

  /** What `finalize` leaves: the positive ones among the k best scores, largest first. */
  ghost function FinalScores(k: nat, offers: seq<Entry>): seq<real> {
    PositiveDescending(Best(k, offers))
  }

  ghost function PositiveDescending(s: seq<real>): seq<real> {
    if s == [] then []
    else PositiveDescending(s[1..]) + (if s[0] > 0.0 then [s[0]] else [])
  }

  ghost predicate Descending(s: seq<real>) {
    forall i, j :: 0 <= i < j < |s| ==> s[i] >= s[j]
  }

  lemma {:induction false} PositiveContents(s: seq<real>)
    ensures forall x :: multiset(PositiveDescending(s))[x] == if x > 0.0 then multiset(s)[x] else 0
    ensures |PositiveDescending(s)| <= |s|
    ensures (forall i :: 0 <= i < |s| ==> s[i] > 0.0) ==> |PositiveDescending(s)| == |s|
  {
    if s == [] {
    } else {
      var rest := s[1..];
      PositiveContents(rest);
      var r := PositiveDescending(rest);
      assert multiset(s) == multiset{s[0]} + multiset(rest) by { assert s == [s[0]] + rest; }
      assert multiset(r + [s[0]]) == multiset(r) + multiset{s[0]};
    }
  }

  lemma {:induction false} PositiveDescends(s: seq<real>)
    requires Ascending(s)
    ensures Descending(PositiveDescending(s))
  {
    if s == [] {
    } else {
      var rest := s[1..];
      PositiveDescends(rest);
      PositiveContents(rest);
      var r := PositiveDescending(rest);
      forall i | 0 <= i < |r|
        ensures r[i] >= s[0]
      {
        assert r[i] in multiset(r);
        assert r[i] in multiset(rest);
      }
    }
  }

  /** After `finalize` the queue holds the k largest scores offered, as far as they are positive, largest first. */
  lemma {:induction false} FinalScoresAreLargest(k: nat, offers: seq<Entry>)
    ensures Descending(FinalScores(k, offers)) && |FinalScores(k, offers)| <= k
    ensures multiset(FinalScores(k, offers)) <= multiset(Scores(offers))
    ensures var left := multiset(Scores(offers)) - multiset(FinalScores(k, offers));
            forall x :: x in left ==>
              && (forall y :: y in FinalScores(k, offers) ==> 0.0 < y && x <= y)
              && (|FinalScores(k, offers)| < k ==> x <= 0.0)
  {
    hide Scores, SortedInsert, Best, Dropped, PositiveDescending;
    var best, kept := Best(k, offers), FinalScores(k, offers);
    BestAscends(k, offers);
    BestAndDroppedAreAll(k, offers);
    BestAreLargest(k, offers);
    PositiveContents(best);
    PositiveDescends(best);
    var left := multiset(Scores(offers)) - multiset(kept);
    assert multiset(kept) <= multiset(best);
    forall x | x in left
      ensures forall y :: y in kept ==> 0.0 < y && x <= y
      ensures |kept| < k ==> x <= 0.0
    {
      if x > 0.0 {
        assert x in Dropped(k, offers);
        if |offers| <= k {
          NothingDropped(k, offers);
        }
      }
      forall y | y in kept
        ensures 0.0 < y && x <= y
      {
        assert y in multiset(kept);
        assert y in multiset(best);
      }
    }
  }
}
