/** Whole runs over a block posting list: any legal calls answer as the plain list does, however its blocks are laid
    out. */
module PostingRuns {
  import opened BlockLists
  import opened BlockListEnumerators
  import opened BlockListWriters
  import opened Bits
  import opened SortedLists

  datatype Call = Next | NextGeq(bound: nat) | Move(position: nat) | Freq | Reset

  datatype Answer = Docid(docid: nat) | Frequency(freq: nat)

  /** Where a call leads; the length of the list stands for its end. */
  ghost function Goal(docs: seq<nat>, at: nat, c: Call): nat {
    match c
    case Next => at + 1
    case NextGeq(b) => if at >= |docs| || docs[at] >= b then at else LowerBound(docs, b)
    case Move(p) => p
    case Freq => at
    case Reset => 0
  }

  /** Bounds and positions go forward, except that a bound is no matter at the very start. Behind
      the last posting there is nothing to step to and no frequency. */
  ghost predicate Allowed(docs: seq<nat>, universe: nat, at: nat, c: Call) {
    match c
    case Next => at < |docs|
    case NextGeq(b) => b >= ElementAt(docs, universe, at) || (at == 0 && docs != [])
    case Move(p) => at <= p < |docs|
    case Freq => at < |docs|
    case Reset => true
  }

  ghost predicate Legal(docs: seq<nat>, universe: nat, at: nat, calls: seq<Call>)
    decreases |calls|
  {
    calls == [] || (Allowed(docs, universe, at, calls[0]) && Legal(docs, universe, Goal(docs, at, calls[0]), calls[1..]))
  }

  ghost function AnswerTo(docs: seq<nat>, freqs: seq<nat>, universe: nat, at: nat, c: Call): Answer
    requires |docs| == |freqs| && Allowed(docs, universe, at, c)
  {
    if c == Freq then Frequency(freqs[at]) else Docid(ElementAt(docs, universe, Goal(docs, at, c)))
  }

  ghost function Expected(docs: seq<nat>, freqs: seq<nat>, universe: nat, at: nat,
                          calls: seq<Call>): (answers: seq<Answer>)
    requires |docs| == |freqs| && Legal(docs, universe, at, calls)
    ensures |answers| == |calls|
    decreases |calls|
  {
    if calls == [] then []
    else [AnswerTo(docs, freqs, universe, at, calls[0])] + Expected(docs, freqs, universe, Goal(docs, at, calls[0]), calls[1..])
  }

  /** The cursor is where the plain list is. */
  ghost predicate Tracks(e: DocumentEnumerator, at: nat)
    reads e, e.docsBuf, e.freqsBuf
  {
    && e.Valid() && at <= |e.docs| == |e.freqs| == e.n
    && (if at < |e.docs| then e.Standing() && e.Position() == at && e.curDocid != e.universe else e.curDocid == e.universe)
  }

  lemma TracksFacts(e: DocumentEnumerator, at: nat)
    requires Tracks(e, at)
    ensures e.Laid() && at <= |e.docs| == e.n && (forall i :: 0 <= i < e.n ==> e.docs[i] < e.universe)
    ensures e.Valid() && (at == |e.docs| ==> e.curDocid == e.universe)
    ensures (at < |e.docs| ==> e.Valid() && e.Standing() && e.Position() == at && e.curDocid == e.docs[at] != e.universe)
  {
    hide Stored, BlockLast, BlockLength, BlockCount;
  }

  lemma NowTracks(e: DocumentEnumerator, at: nat)
    requires e.Valid() && at <= e.n
    requires if at < e.n then e.Standing() && e.Position() == at else e.curDocid == e.universe
    ensures Tracks(e, at) && e.curDocid == ElementAt(e.docs, e.universe, at)
  {
    e.PositiveFreqs();
    if e.Standing() { e.StandsInBlock(); }
  }

  lemma {:induction false} BehindTheEnd(docs: seq<nat>, universe: nat, bound: nat)
    requires bound >= universe && forall i :: 0 <= i < |docs| ==> docs[i] < universe
    ensures LowerBound(docs, bound) == |docs|
  {
    LowerBoundIsUnique(docs, bound, |docs|);
  }

  method MakeCall(e: DocumentEnumerator, c: Call, ghost at: nat) returns (a: Answer)
    requires Tracks(e, at) && |e.docs| == |e.freqs| && Allowed(e.docs, e.universe, at, c)
    modifies e, e.docsBuf, e.freqsBuf
    ensures Tracks(e, Goal(e.docs, at, c)) && a == AnswerTo(e.docs, e.freqs, e.universe, at, c)
  {
    hide Tracks, DocumentEnumerator.Standing, DocumentEnumerator.Laid, LowerBound;
    TracksFacts(e, at);
    match c {
      case Next =>
        e.Next();
        NowTracks(e, at + 1);
        a := Docid(e.curDocid);
      case NextGeq(b) =>
        e.NextGeq(b);
        if at == e.n { BehindTheEnd(e.docs, e.universe, b); }
        NowTracks(e, Goal(e.docs, at, c));
        a := Docid(e.curDocid);
      case Move(p) =>
        e.Move(p);
        NowTracks(e, p);
        a := Docid(e.curDocid);
      case Freq =>
        var f := e.Freq();
        NowTracks(e, at);
        a := Frequency(f);
      case Reset =>
        e.Reset();
        NowTracks(e, 0);
        a := Docid(e.curDocid);
    }
  }

  /** Makes the calls one after the other. */
  method RunCalls(e: DocumentEnumerator, calls: seq<Call>) returns (answers: seq<Answer>)
    requires Tracks(e, 0) && |e.docs| == |e.freqs| && Legal(e.docs, e.universe, 0, calls)
    modifies e, e.docsBuf, e.freqsBuf
    ensures answers == Expected(e.docs, e.freqs, e.universe, 0, calls)
  {
    hide Tracks, Goal, Allowed, AnswerTo;
    answers := [];
    ghost var at, rest := 0, calls;
    for i := 0 to |calls|
      invariant rest == calls[i..] && Tracks(e, at) && Legal(e.docs, e.universe, at, rest)
      invariant Expected(e.docs, e.freqs, e.universe, 0, calls) ==
                  answers + Expected(e.docs, e.freqs, e.universe, at, rest)
    {
      assert rest[0] == calls[i];
      var a := MakeCall(e, calls[i], at);
      answers := answers + [a];
      at, rest := Goal(e.docs, at, calls[i]), rest[1..];
    }
    assert Expected(e.docs, e.freqs, e.universe, at, rest) == [];
  }

  /** Any stored list, in whatever order its blocks are. */
  method RunStored(data: seq<nat>, start: nat, universe: nat, calls: seq<Call>,
                   ghost docs: seq<nat>, ghost freqs: seq<nat>, ghost starts: seq<nat>, ghost bytes: seq<BlockBytes>)
    returns (answers: seq<Answer>)
    requires Stored(data, start, docs, freqs, starts, bytes) && AllBelow(docs, universe) && universe < WORD
    requires |docs| == |freqs| && Legal(docs, universe, 0, calls)
    ensures answers == Expected(docs, freqs, universe, 0, calls)
  {
    hide Stored, Legal, Tracks;
    var e := new DocumentEnumerator(data, start, universe, docs, freqs, starts, bytes);
    StartTracks(e);
    answers := RunCalls(e, calls);
  }

  lemma StartTracks(e: DocumentEnumerator)
    requires e.Valid() && e.Standing() && e.Position() == 0
    ensures Tracks(e, 0)
  {
    hide Stored, BlockLast, BlockLength, BlockCount;
    e.StandsInBlock();
    e.PositiveFreqs();
  }

  /** Writing a list and running over it; lists of 2^32 bytes and more do not fit their own header. */
  method WriteAndRun(docs: seq<nat>, freqs: seq<nat>, universe: nat, calls: seq<Call>)
    returns (fits: bool, answers: seq<Answer>)
    requires ListOk(docs, freqs) && AllBelow(docs, universe) && universe < WORD && Legal(docs, universe, 0, calls)
    ensures fits <==> ListSize(docs, freqs) < WORD
    ensures fits ==> answers == Expected(docs, freqs, universe, 0, calls)
  {
    hide ListOk, Legal, Stored, Expected, ListSize;
    SameLength(docs, freqs);
    var data;
    ghost var starts, bytes;
    data, starts, bytes := Write([], docs, freqs);
    fits, answers := |data| < WORD, [];
    if fits {
      answers := RunStored(data, 0, universe, calls, docs, freqs, starts, bytes);
    }
  }

  lemma SameLength(docs: seq<nat>, freqs: seq<nat>)
    requires ListOk(docs, freqs)
    ensures |docs| == |freqs|
  {}

  /** The same when the blocks were laid out in another order. */
  method WriteBlocksAndRun(n: nat, input: seq<BlockData>, universe: nat, calls: seq<Call>, ghost docs: seq<nat>,
                           ghost freqs: seq<nat>)
    returns (fits: bool, answers: seq<Answer>)
    requires InputOk(input, docs, freqs) && n == |docs| && AllBelow(docs, universe)
    requires universe < WORD && Legal(docs, universe, 0, calls)
    ensures fits <==> InputSize(n, input) < WORD
    ensures |docs| == |freqs| && (fits ==> answers == Expected(docs, freqs, universe, 0, calls))
  {
    hide ListOk, Legal, Stored, Expected, IsBlock, InputSize;
    SameLength(docs, freqs);
    var data;
    ghost var starts, bytes;
    data, starts, bytes := WriteBlocks([], n, input, docs, freqs);
    fits, answers := |data| < WORD, [];
    if fits {
      answers := RunStored(data, 0, universe, calls, docs, freqs, starts, bytes);
    }
  }

  /** The first call of a legal run, where it leads and what it answers; the run goes on from there. */
  lemma RunStep(docs: seq<nat>, freqs: seq<nat>, universe: nat, at: nat, calls: seq<Call>) returns (q: nat)
    requires |docs| == |freqs| && calls != [] && Legal(docs, universe, at, calls)
    ensures Legal(docs, universe, q, calls[1..])
    ensures match calls[0]
            case Next => at < |docs| && q == at + 1
            case NextGeq(b) => if at < |docs| && docs[at] < b then q == LowerBound(docs, b) else q == at
            case Move(p) => at <= p < |docs| && q == p
            case Freq => at < |docs| && q == at
            case Reset => q == 0
    ensures Expected(docs, freqs, universe, at, calls)[0] ==
            if calls[0] == Freq then Frequency(freqs[at]) else Docid(if q < |docs| then docs[q] else universe)
    ensures Expected(docs, freqs, universe, at, calls)[1..] == Expected(docs, freqs, universe, q, calls[1..])
  {
    q := Goal(docs, at, calls[0]);
  }
}
