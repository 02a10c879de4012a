/** `topk_queue`: the min-heap vector with its threshold. The std heap algorithms appear
    through their contracts: after a push or pop the smallest score is at the front, and which
    of several equal scores is evicted is left open. */
module TopKQueues {
  import opened TopK
  import Multisets

  ghost predicate FrontIsMin(s: seq<Entry>) {
    forall i :: 0 <= i < |s| ==> s[0].score <= s[i].score
  }

  /** The contract of `push_heap`, `pop_heap`: some order of the same entries with a smallest first. */
  method Reheap(s: seq<Entry>) returns (r: seq<Entry>)
    ensures multiset(r) == multiset(s) && |r| == |s|
    ensures multiset(Scores(r)) == multiset(Scores(s))
    ensures FrontIsMin(r)
  {
    if s == [] { return s; }
    var m := 0;
    for i := 1 to |s|
      invariant 0 <= m < |s|
      invariant forall j :: 0 <= j < i ==> s[m].score <= s[j].score
    {
      if s[i].score < s[m].score { m := i; }
    }
    r := s[0 := s[m]][m := s[0]];
    SwapEntries(s, m);
  }

  lemma SwapEntries(s: seq<Entry>, m: nat)
    requires m < |s|
    ensures var r := s[0 := s[m]][m := s[0]];
      multiset(r) == multiset(s) && multiset(Scores(r)) == multiset(Scores(s))
  {
    var r := s[0 := s[m]][m := s[0]];
    Multisets.OfSwap(s, 0, m);
    assert Scores(r) == Scores(s)[0 := Scores(s)[m]][m := Scores(s)[0]];
    Multisets.OfSwap(Scores(s), 0, m);
  }

  ghost predicate ByScoreDown(s: seq<Entry>) {
    forall i, j :: 0 <= i < j < |s| ==> s[i].score >= s[j].score
  }

  /** The contract of `sort_heap` with the greater-than comparator. */
  method SortDescending(s: seq<Entry>) returns (r: seq<Entry>)
    ensures multiset(r) == multiset(s)
    ensures ByScoreDown(r)
  {
    r := [];
    for i := 0 to |s|
      invariant |r| == i && multiset(r) == multiset(s[..i])
      invariant ByScoreDown(r)
    {
      r := InsertDescending(r, s[i]);
      assert s[..i + 1] == s[..i] + [s[i]];
    }
    assert s[..|s|] == s;
  }

  method InsertDescending(s: seq<Entry>, e: Entry) returns (r: seq<Entry>)
    requires ByScoreDown(s)
    ensures ByScoreDown(r) && |r| == |s| + 1
    ensures multiset(r) == multiset(s) + multiset{e}
  {
    var j := 0;
    while j < |s| && s[j].score >= e.score
      invariant j <= |s|
      invariant forall m :: 0 <= m < j ==> s[m].score >= e.score
    {
      j := j + 1;
    }
    Multisets.OfInsertion(s, j, e);
    r := s[..j] + [e] + s[j..];
  }

  ghost function PositivePrefix(d: seq<real>): seq<real> {
    if d == [] || d[|d| - 1] > 0.0 then d else PositivePrefix(d[..|d| - 1])
  }

  /** An ascending and a descending listing of the same scores are each other's reverse, so
      cutting the descending one at the first non-positive score gives the final scores. */
  lemma {:induction false} CutIsFinal(top: seq<real>, d: seq<real>)
    requires Ascending(top) && Descending(d) && multiset(top) == multiset(d)
    ensures PositivePrefix(d) == PositiveDescending(top)
    ensures d != [] && d[|d| - 1] > 0.0 ==> PositiveDescending(top) == d
    decreases |top|
  {
    hide Ascending, Descending;
    if top == [] {
      assert |d| == |multiset(d)| == 0;
    } else {
      TakeMinimum(top, d);
      var rest := d[..|d| - 1];
      CutIsFinal(top[1..], rest);
      if d[|d| - 1] > 0.0 {
        LastTwo(d);
        assert PositiveDescending(top[1..]) == rest;
        assert d == rest + [top[0]];
      }
    }
  }

  lemma LastTwo(d: seq<real>)
    requires Descending(d) && d != []
    ensures var rest := d[..|d| - 1]; rest != [] ==> rest[|rest| - 1] >= d[|d| - 1]
  {}

  lemma TakeMinimum(top: seq<real>, d: seq<real>)
    requires top != [] && Ascending(top) && Descending(d) && multiset(top) == multiset(d)
    ensures d != [] && top[0] == d[|d| - 1]
    ensures multiset(top[1..]) == multiset(d[..|d| - 1])
    ensures Ascending(top[1..]) && Descending(d[..|d| - 1])
  {
    SameMinimum(top, d);
    Multisets.OfTail(top);
    Multisets.OfInit(d);
  }

  lemma SameMinimum(top: seq<real>, d: seq<real>)
    requires top != [] && Ascending(top) && Descending(d) && multiset(top) == multiset(d)
    ensures d != [] && top[0] == d[|d| - 1]
  {
    assert top[0] in multiset(d);
    var i :| 0 <= i < |d| && d[i] == top[0];
    assert d[|d| - 1] in multiset(top);
  }

  /** The vector holds, in heap order, entries let in earlier whose scores are the k best let in. */
  ghost predicate QueueOk(k: nat, entries: seq<Entry>, threshold: real, accepted: seq<Entry>) {
    && k >= 1
    && multiset(Scores(entries)) == multiset(Best(k, accepted))
    && multiset(entries) <= multiset(accepted)
    && FrontIsMin(entries)
    && (entries != [] ==> threshold == entries[0].score)
  }

  class TopKQueue {
    const k: nat
    var entries: seq<Entry>
    var threshold: real
    /** Every entry ever let in since the last `Clear`, in order. */
    ghost var accepted: seq<Entry>

    ghost predicate Valid()
      reads this
    {
      QueueOk(k, entries, threshold, accepted)
    }

    constructor (k: nat)
      requires k >= 1
      ensures Valid() && this.k == k && accepted == []
    {
      this.k := k;
      entries, accepted := [], [];
    }

    predicate Admits(score: real)
      reads this
    {
      |entries| < k || score > threshold
    }

    /** The size-and-threshold test decides exactly whether a score belongs among the k best. */
    lemma AdmitsIsWouldEnter(score: real)
      requires Valid()
      ensures Admits(score) <==> WouldEnter(k, accepted, score)
    {
      var top := Best(k, accepted);
      assert |entries| == |multiset(Scores(entries))| == |top|;
      BestAscends(k, accepted);
      if entries != [] {
        FrontIsLeast(entries, top);
      }
    }

    method Clear()
      requires k >= 1
      modifies this
      ensures Valid() && accepted == []
    {
      entries := [];
      accepted := [];
    }

    method Insert(score: real, docid: nat) returns (entered: bool)
      requires Valid()
      modifies this
      ensures Valid()
      ensures entered == WouldEnter(k, old(accepted), score)
      ensures accepted == if entered then old(accepted) + [Entry(score, docid)] else old(accepted)
      ensures entered == old(Admits(score))
    {
      AdmitsIsWouldEnter(score);
      var e := Entry(score, docid);
      if |entries| < k {
        var grown := entries + [e];
        GrowKeepsBest(k, accepted, entries, e);
        entries := Reheap(grown);
      } else if score > threshold {
        var replaced := entries[1..] + [e];
        EvictKeepsBest(k, accepted, entries, e);
        entries := Reheap(replaced);
      } else {
        return false;
      }
      accepted := accepted + [e];
      threshold := entries[0].score;
      return true;
    }

    method Finalize()
      requires Valid()
      modifies this`entries
      ensures Scores(entries) == FinalScores(k, accepted)
      ensures multiset(entries) <= multiset(accepted)
    {
      var sorted := SortDescending(entries);
      ScoresAreMultisetOnly(sorted, entries);
      BestAscends(k, accepted);
      CutIsFinal(Best(k, accepted), Scores(sorted));
      entries := CutAtZero(sorted);
    }
  }

  /** The contract of `lower_bound` with the test `score > 0` on descending scores, and the resize. */
  method CutAtZero(sorted: seq<Entry>) returns (r: seq<Entry>)
    ensures Scores(r) == PositivePrefix(Scores(sorted))
    ensures multiset(r) <= multiset(sorted)
  {
    var size := |sorted|;
    assert Scores(sorted)[..size] == Scores(sorted);
    while size > 0 && !(sorted[size - 1].score > 0.0)
      invariant size <= |sorted| == |Scores(sorted)|
      invariant PositivePrefix(Scores(sorted)[..size]) == PositivePrefix(Scores(sorted))
    {
      assert Scores(sorted)[..size][..size - 1] == Scores(sorted)[..size - 1];
      size := size - 1;
    }
    r := sorted[..size];
    assert sorted == r + sorted[size..];
    assert Scores(r) == Scores(sorted)[..size];
  }

  /** While the queue is not full, pushing an entry keeps exactly the k best scores. */
  lemma {:induction false} GrowKeepsBest(k: nat, log: seq<Entry>, entries: seq<Entry>, e: Entry)
    requires multiset(Scores(entries)) == multiset(Best(k, log)) && |entries| < k
    requires multiset(entries) <= multiset(log)
    ensures multiset(Scores(entries + [e])) == multiset(Best(k, log + [e]))
    ensures multiset(entries + [e]) <= multiset(log + [e])
  {
    assert |Scores(entries)| == |multiset(Scores(entries))| == |Best(k, log)|;
    SortedInsertContents(Best(k, log), e.score);
    assert (log + [e])[..|log|] == log;
    ScoresAppend(entries, e);
  }

  /** In a full queue, replacing the front by a better entry keeps exactly the k best scores. */
  lemma {:induction false} EvictKeepsBest(k: nat, log: seq<Entry>, entries: seq<Entry>, e: Entry)
    requires multiset(Scores(entries)) == multiset(Best(k, log)) && |entries| >= k >= 1
    requires multiset(entries) <= multiset(log) && FrontIsMin(entries)
    requires e.score > entries[0].score
    ensures multiset(Scores(entries[1..] + [e])) == multiset(Best(k, log + [e]))
    ensures multiset(entries[1..] + [e]) <= multiset(log + [e])
  {
    assert |Scores(entries)| == |multiset(Scores(entries))| == |Best(k, log)|;
    BestAscends(k, log);
    EvictFront(entries, Best(k, log), e);
    SortedInsertContents(Best(k, log), e.score);
    assert (log + [e])[..|log|] == log;
    Multisets.OfTail(entries);
  }

  lemma {:induction false} ScoresAreMultisetOnly(a: seq<Entry>, b: seq<Entry>)
    requires multiset(a) == multiset(b)
    ensures multiset(Scores(a)) == multiset(Scores(b))
    decreases |a|
  {
    if a == [] {
      assert |b| == |multiset(b)| == 0;
    } else {
      var j := Multisets.Match(a, b);
      var d := b[..j] + b[j + 1..];
      ScoresAreMultisetOnly(a[1..], d);
      assert Scores(a)[1..] == Scores(a[1..]);
      assert Scores(b)[..j] + Scores(b)[j + 1..] == Scores(d);
      Multisets.OfTail(Scores(a));
      Multisets.OfRemoval(Scores(b), j);
    }
  }

  /** Replacing the front of a full heap by a better entry keeps exactly the k best scores. */
  lemma {:induction false} EvictFront(entries: seq<Entry>, top: seq<real>, e: Entry)
    requires entries != [] && FrontIsMin(entries) && Ascending(top)
    requires multiset(Scores(entries)) == multiset(top)
    requires e.score > entries[0].score
    ensures multiset(Scores(entries[1..] + [e])) == multiset(SortedInsert(top, e.score)[1..])
  {
    hide FrontIsMin, Ascending;
    FrontIsLeast(entries, top);
    var t := SortedInsert(top, e.score);
    SortedInsertContents(top, e.score);
    assert t[0] == top[0];
    hide SortedInsert, Scores;
    Multisets.OfTail(t);
    ScoresTail(entries);
    ScoresAppend(entries[1..], e);
    TakenAndAdded(multiset(top), top[0], e.score);
  }

  lemma ScoresTail(entries: seq<Entry>)
    requires entries != []
    ensures multiset(Scores(entries[1..])) == multiset(Scores(entries)) - multiset{entries[0].score}
  {
    Multisets.OfTail(Scores(entries));
    assert Scores(entries)[1..] == Scores(entries[1..]);
  }

  lemma TakenAndAdded(m: multiset<real>, x: real, y: real)
    requires x in m
    ensures m - multiset{x} + multiset{y} == m + multiset{y} - multiset{x}
  {}

  lemma FrontIsLeast(entries: seq<Entry>, top: seq<real>)
    requires entries != [] && FrontIsMin(entries) && Ascending(top)
    requires multiset(Scores(entries)) == multiset(top)
    ensures top != [] && entries[0].score == top[0]
  {
    assert Scores(entries)[0] in multiset(top);
    assert top[0] in multiset(Scores(entries));
    var i :| 0 <= i < |entries| && Scores(entries)[i] == top[0];
  }
}
