/** Whole runs: a sequence is written, a cursor is opened on the bits, and any list of calls is made on it.
    The answers are those of the plain list. */
module SequenceRuns {
  import opened Arith
  import opened Bits
  import opened BitVectors
  import opened GlobalParameters
  import opened Partitions
  import opened SortedLists
  import EF = EliasFano
  import EFE = EliasFanoEnumerators
  import RB = RankedBitvector
  import RBE = RankedBitvectorEnumerators
  import PS = PartitionedSequences
  import PSE = PartitionedSequenceEnumerators

  datatype Call = Move(position: nat) | NextGeq(bound: nat) | Next

  /** What a call shows: the new position, the value there, and the value before it. */
  datatype Answer = Answer(position: nat, value: nat, prev: nat)

  ghost function AnswerAt(vals: seq<nat>, universe: nat, p: nat): Answer
    requires p <= |vals|
  {
    Answer(p, ElementAt(vals, universe, p), if p == 0 then 0 else vals[p - 1])
  }

  /** Where a call leads on the plain list: a bound that equals the current value stays put. */
  ghost function Goal(vals: seq<nat>, universe: nat, at: nat, c: Call): nat {
    match c
    case Move(p) => p
    case NextGeq(b) => if b == ElementAt(vals, universe, at) then at else LowerBound(vals, b)
    case Next => at + 1
  }

  /** The calls a caller may make: positions up to the end, and no step beyond it. */
  ghost predicate Allowed(vals: seq<nat>, at: nat, c: Call) {
    match c
    case Move(p) => p <= |vals|
    case NextGeq(b) => true
    case Next => at < |vals|
  }

  ghost predicate Legal(vals: seq<nat>, universe: nat, at: nat, calls: seq<Call>)
    decreases |calls|
  {
    calls == [] || (Allowed(vals, at, calls[0]) && Legal(vals, universe, Goal(vals, universe, at, calls[0]), calls[1..]))
  }

  lemma GoalInRange(vals: seq<nat>, universe: nat, at: nat, c: Call)
    requires at <= |vals| && Allowed(vals, at, c)
    ensures Goal(vals, universe, at, c) <= |vals|
  {}

  /** The answers of the plain list. */
  ghost function Expected(vals: seq<nat>, universe: nat, at: nat, calls: seq<Call>): (answers: seq<Answer>)
    requires at <= |vals| && Legal(vals, universe, at, calls)
    ensures |answers| == |calls|
    decreases |calls|
  {
    if calls == [] then []
    else
      GoalInRange(vals, universe, at, calls[0]);
      var p := Goal(vals, universe, at, calls[0]);
      [AnswerAt(vals, universe, p)] + Expected(vals, universe, p, calls[1..])
  }

  /** Only the first calls, and the place they lead to. */
  lemma {:induction false} ExpectedStep(vals: seq<nat>, universe: nat, at: nat, calls: seq<Call>, done: seq<Answer>,
                                        p: nat, rest: seq<Call>)
    requires p <= |vals| && Legal(vals, universe, p, rest) && rest != []
    requires at <= |vals| && Legal(vals, universe, at, calls)
    requires Expected(vals, universe, at, calls) == done + Expected(vals, universe, p, rest)
    ensures Allowed(vals, p, rest[0])
    ensures var q := Goal(vals, universe, p, rest[0]);
            && q <= |vals| && Legal(vals, universe, q, rest[1..])
            && Expected(vals, universe, at, calls) ==
                 done + [AnswerAt(vals, universe, q)] + Expected(vals, universe, q, rest[1..])
  {
    GoalInRange(vals, universe, p, rest[0]);
  }

  /** In increasing lists staying put and going to the first match are the same. */
  lemma {:induction false} GoalIsFirstMatch(vals: seq<nat>, universe: nat, at: nat, b: nat)
    requires Increasing(vals) && AllBelow(vals, universe) && at <= |vals|
    ensures Goal(vals, universe, at, NextGeq(b)) == LowerBound(vals, b)
  {
    if b == ElementAt(vals, universe, at) {
      StaysPut(vals, universe, at);
    }
  }

  // ----- partitioned sequences -----

  method MakeCall(e: PSE.Enumerator, c: Call) returns (q: nat, v: nat)
    requires e.Valid() && Increasing(e.vals) && AllBelow(e.vals, e.universe) && e.position <= |e.vals| == e.n
    requires Allowed(e.vals, e.position, c)
    modifies e, e.Cursors(), e.PieceRepr()
    ensures e.Valid() && q == e.position == Goal(e.vals, e.universe, old(e.position), c) <= |e.vals|
    ensures v == ElementAt(e.vals, e.universe, q)
    ensures e.PieceRepr() == old(e.PieceRepr()) || fresh(e.PieceRepr())
  {
    hide Increasing, AllBelow, LowerBound, PSE.Enumerator.Valid, PSE.Enumerator.Opened, PSE.Enumerator.OnPartition,
         PSE.Enumerator.PieceRepr, PSE.Enumerator.Cursors;
    OpenWhenValid(e);
    match c {
      case Move(p) => q, v := e.Move(p);
      case NextGeq(b) =>
        GoalIsFirstMatch(e.vals, e.universe, e.position, b);
        q, v := e.NextGeq(b);
      case Next => q, v := e.Next();
    }
  }

  method PartitionedCall(e: PSE.Enumerator, c: Call) returns (a: Answer)
    requires e.Valid() && Increasing(e.vals) && AllBelow(e.vals, e.universe) && e.position <= |e.vals| == e.n
    requires Allowed(e.vals, e.position, c)
    modifies e, e.Cursors(), e.PieceRepr()
    ensures e.Valid() && e.position == Goal(e.vals, e.universe, old(e.position), c) <= |e.vals|
    ensures a == AnswerAt(e.vals, e.universe, e.position)
    ensures e.PieceRepr() == old(e.PieceRepr()) || fresh(e.PieceRepr())
  {
    hide Increasing, AllBelow, Goal, Allowed, PSE.Enumerator.Valid, PSE.Enumerator.PieceRepr, PSE.Enumerator.Cursors;
    var q, v := MakeCall(e, c);
    var prev := e.PrevValue();
    a := Answer(q, v, prev);
  }

  lemma OpenWhenValid(e: PSE.Enumerator)
    requires e.Valid()
    ensures e.Opened() && e.OnPartition(e.curPartition) && (e.partitions > 1 ==> e.upperBounds.position <= e.partitions)
  {}

  /** Any strictly increasing sequence, any partition of it, any legal run of calls. */
  method PartitionedRun(vals: seq<nat>, universe: nat, ends: seq<nat>, params: Parameters, calls: seq<Call>)
    returns (answers: seq<Answer>)
    requires Cut(vals, universe, ends) && PSE.UpperFitsInt(vals, ends) && Legal(vals, universe, |vals|, calls)
    ensures answers == Expected(vals, universe, |vals|, calls)
  {
    hide PSE.Enumerator.Valid, PSE.Enumerator.PieceRepr, PSE.Enumerator.Cursors, PS.Stored, Legal, Goal, Allowed,
         AnswerAt, Increasing, AllBelow, PSE.UpperFitsInt;
    var bvb := new BitVectorBuilder();
    ghost var plan := PS.Write(bvb, vals, universe, ends, params);
    var e := new PSE.Enumerator(bvb.bits, 0, universe, |vals|, params, vals, ends, plan);
    answers := [];
    ghost var rest := calls;
    for i := 0 to |calls|
      invariant rest == calls[i..]
      invariant e.Valid() && e.position <= |vals| && e.vals == vals && e.universe == universe && e.n == |vals|
      invariant fresh(e) && fresh(e.Cursors()) && fresh(e.PieceRepr())
      invariant Legal(vals, universe, e.position, rest)
      invariant Expected(vals, universe, |vals|, calls) == answers + Expected(vals, universe, e.position, rest)
    {
      ExpectedStep(vals, universe, |vals|, calls, answers, e.position, rest);
      assert rest[0] == calls[i];
      var a := PartitionedCall(e, calls[i]);
      answers := answers + [a];
      rest := rest[1..];
    }
    assert Expected(vals, universe, e.position, rest) == [];
  }

  // ----- the base sequences -----

  /** No search of the run meets the overrun condition of the cursor it is made on. */
  ghost predicate NoOverrun(vals: seq<nat>, universe: nat, overruns: (nat, nat) -> bool, at: nat, calls: seq<Call>)
    decreases |calls|
  {
    calls == [] || (!Overrunning(overruns, at, calls[0]) && NoOverrun(vals, universe, overruns, Goal(vals, universe, at, calls[0]), calls[1..]))
  }

  ghost predicate Overrunning(overruns: (nat, nat) -> bool, at: nat, c: Call) {
    c.NextGeq? && overruns(at, c.bound)
  }

  /** The overrun conditions of the two base cursors, from place and bound alone. */
  function EliasFanoOverruns(universe: nat, n: nat, params: Parameters): (nat, nat) -> bool
    requires n > 0
  {
    (at: nat, b: nat) => EFE.OverrunsAt(EF.MakeOffsets(0, universe, n, params), at, b)
  }

  function RankedBitvectorOverruns(universe: nat, n: nat, params: Parameters): (nat, nat) -> bool
    requires universe > 0
  {
    (at: nat, b: nat) => RBE.OverrunsAt(RB.MakeOffsets(0, universe, n, params), at, b)
  }

  /** So many answers have been given, the cursor is at the place the calls made so far lead to, and the rest are to
      come. */
  ghost predicate Follows(vals: seq<nat>, universe: nat, overruns: (nat, nat) -> bool, calls: seq<Call>,
                          answers: seq<Answer>, at: nat, rest: seq<Call>) {
    && at <= |vals| && Legal(vals, universe, |vals|, calls) && Legal(vals, universe, at, rest)
    && |calls| == |answers| + |rest|
    && Expected(vals, universe, |vals|, calls) == answers + Expected(vals, universe, at, rest)
    && (NoOverrun(vals, universe, overruns, |vals|, calls) <==> NoOverrun(vals, universe, overruns, at, rest))
  }

  lemma {:induction false} FollowsFirst(vals: seq<nat>, universe: nat, overruns: (nat, nat) -> bool, calls: seq<Call>)
    requires Legal(vals, universe, |vals|, calls)
    ensures Follows(vals, universe, overruns, calls, [], |vals|, calls)
  {}

  /** The next call either overruns, and then so does the run, or leads on. */
  lemma {:induction false} FollowsNext(vals: seq<nat>, universe: nat, overruns: (nat, nat) -> bool, calls: seq<Call>,
                    answers: seq<Answer>, at: nat, rest: seq<Call>)
    requires Follows(vals, universe, overruns, calls, answers, at, rest) && rest != []
    ensures Allowed(vals, at, rest[0])
    ensures Overrunning(overruns, at, rest[0]) ==>
              !NoOverrun(vals, universe, overruns, |vals|, calls) && answers <= Expected(vals, universe, |vals|, calls)
    ensures var q := Goal(vals, universe, at, rest[0]);
            q <= |vals| && (!Overrunning(overruns, at, rest[0]) ==>
              Follows(vals, universe, overruns, calls, answers + [AnswerAt(vals, universe, q)], q, rest[1..]))
  {
    hide AnswerAt, Goal, Overrunning;
    ExpectedStep(vals, universe, |vals|, calls, answers, at, rest);
  }

  lemma {:induction false} FollowsLast(vals: seq<nat>, universe: nat, overruns: (nat, nat) -> bool, calls: seq<Call>,
                                       answers: seq<Answer>, at: nat)
    requires Follows(vals, universe, overruns, calls, answers, at, [])
    ensures answers == Expected(vals, universe, |vals|, calls) && NoOverrun(vals, universe, overruns, |vals|, calls)
  {
    assert Expected(vals, universe, at, []) == [];
  }

  lemma EliasFanoCondition(universe: nat, n: nat, params: Parameters, at: nat, c: Call)
    requires n > 0
    ensures Overrunning(EliasFanoOverruns(universe, n, params), at, c) <==>
            c.NextGeq? && EFE.OverrunsAt(EF.MakeOffsets(0, universe, n, params), at, c.bound)
  {}

  /** One call; a search that meets the overrun condition spoils the cursor. */
  method EliasFanoCall(e: EFE.Enumerator, c: Call) returns (a: Answer, overrun: bool)
    requires e.Valid() && Allowed(e.vals, e.position, c)
    modifies e
    ensures overrun <==> c.NextGeq? && old(EFE.OverrunsAt(e.o, e.position, c.bound))
    ensures !overrun ==> e.Valid() && e.position == old(Goal(e.vals, e.o.universe, e.position, c)) <= |e.vals|
    ensures !overrun ==> a == AnswerAt(e.vals, e.o.universe, e.position)
  {
    hide EF.Stored, EF.MakeOffsets, NonDecreasing, Increasing, AllBelow, EF.HighPosition, LowerBound, EFE.OverrunsAt;
    a, overrun := Answer(0, 0, 0), false;
    match c {
      case Move(p) => e.Move(p);
      case NextGeq(b) =>
        e.NextGeq(b);
        if e.position > e.o.n { return a, true; }
      case Next => e.Next();
    }
    var prev := e.PrevValue();
    a := Answer(e.position, e.value, prev);
  }

  /** Any non-decreasing sequence below the universe, any sampling, any legal run of calls: the answers are those of
      the plain list up to the first overrun, and there is one exactly if the run meets the cursor's condition. */
  method EliasFanoRun(vals: seq<nat>, universe: nat, params: Parameters, calls: seq<Call>)
    returns (answers: seq<Answer>, overrun: bool)
    requires vals != [] && NonDecreasing(vals) && AllBelow(vals, universe)
    requires Legal(vals, universe, |vals|, calls)
    ensures overrun <==> !NoOverrun(vals, universe, EliasFanoOverruns(universe, |vals|, params), |vals|, calls)
    ensures !overrun ==> answers == Expected(vals, universe, |vals|, calls)
    ensures overrun ==> |answers| < |calls| && answers <= Expected(vals, universe, |vals|, calls)
  {
    hide EF.Stored, Legal, AnswerAt, NonDecreasing, Increasing, AllBelow, EF.HighPosition, NoOverrun, Expected,
         Overrunning, Goal, Follows;
    ghost var overruns := EliasFanoOverruns(universe, |vals|, params);
    var bvb := new BitVectorBuilder();
    var written := EF.Write(bvb, vals, universe, params);
    EF.MadeConsistent(0, universe, |vals|, params);
    var e := new EFE.Enumerator(bvb.bits, 0, universe, |vals|, params, vals);
    hide EF.MakeOffsets, EFE.Enumerator.Valid;
    answers, overrun := [], false;
    ghost var rest := calls;
    FollowsFirst(vals, universe, overruns, calls);
    for i := 0 to |calls|
      invariant rest == calls[i..] && |answers| == i && fresh(e)
      invariant e.Valid() && e.vals == vals && e.o == EF.MakeOffsets(0, universe, |vals|, params)
      invariant Follows(vals, universe, overruns, calls, answers, e.position, rest)
    {
      ghost var at := e.position;
      FollowsNext(vals, universe, overruns, calls, answers, at, rest);
      assert rest[0] == calls[i];
      var answer, missed := EliasFanoCall(e, calls[i]);
      EliasFanoCondition(universe, |vals|, params, at, calls[i]);
      if missed { return answers, true; }
      answers := answers + [answer];
      rest := rest[1..];
    }
    FollowsLast(vals, universe, overruns, calls, answers, e.position);
  }

  /** On a new cursor the search for the bound one above the universe overruns, whatever the sequence. */
  lemma {:induction false} NewCursorOverruns(vals: seq<nat>, universe: nat, params: Parameters)
    requires vals != [] && universe > 0
    ensures !NoOverrun(vals, universe, EliasFanoOverruns(universe, |vals|, params), |vals|, [NextGeq(universe + 1)])
    ensures !NoOverrun(vals, universe, RankedBitvectorOverruns(universe, |vals|, params), |vals|, [NextGeq(universe + 1)])
  {
    EF.MadeConsistent(0, universe, |vals|, params);
    RB.MadeConsistent(0, universe, |vals|, params);
    EFE.OneAboveOverruns(EF.MakeOffsets(0, universe, |vals|, params));
  }

  lemma RankedBitvectorCondition(universe: nat, n: nat, params: Parameters, at: nat, c: Call)
    requires universe > 0
    ensures Overrunning(RankedBitvectorOverruns(universe, n, params), at, c) <==>
            c.NextGeq? && RBE.OverrunsAt(RB.MakeOffsets(0, universe, n, params), at, c.bound)
  {}

  /** One call; a search that meets the overrun condition spoils the cursor. */
  method RankedBitvectorCall(e: RBE.Enumerator, c: Call) returns (a: Answer, overrun: bool)
    requires e.Valid() && Allowed(e.vals, e.position, c) && Increasing(e.vals) && AllBelow(e.vals, e.o.universe)
    modifies e
    ensures overrun <==> c.NextGeq? && old(RBE.OverrunsAt(e.o, e.position, c.bound))
    ensures !overrun ==> e.Valid() && e.position == old(Goal(e.vals, e.o.universe, e.position, c)) <= |e.vals|
    ensures !overrun ==> a == AnswerAt(e.vals, e.o.universe, e.position)
  {
    hide RB.Stored, RB.MakeOffsets, NonDecreasing, Increasing, AllBelow, RB.BitPosition, LowerBound, RBE.OverrunsAt;
    a, overrun := Answer(0, 0, 0), false;
    match c {
      case Move(p) => e.Move(p);
      case NextGeq(b) =>
        GoalIsFirstMatch(e.vals, e.o.universe, e.position, b);
        e.NextGeq(b);
        if e.position > e.o.n { return a, true; }
      case Next => e.Next();
    }
    var prev := e.PrevValue();
    a := Answer(e.position, e.value, prev);
  }

  /** Any increasing sequence below the universe, any sampling, any legal run of calls: the answers are those of
      the plain list up to the first overrun, and there is one exactly if the run meets the cursor's condition. */
  method RankedBitvectorRun(vals: seq<nat>, universe: nat, params: Parameters, calls: seq<Call>)
    returns (answers: seq<Answer>, overrun: bool)
    requires universe > 0 && Increasing(vals) && AllBelow(vals, universe)
    requires Legal(vals, universe, |vals|, calls)
    ensures overrun <==> !NoOverrun(vals, universe, RankedBitvectorOverruns(universe, |vals|, params), |vals|, calls)
    ensures !overrun ==> answers == Expected(vals, universe, |vals|, calls)
    ensures overrun ==> |answers| < |calls| && answers <= Expected(vals, universe, |vals|, calls)
  {
    hide RB.Stored, Legal, AnswerAt, NonDecreasing, Increasing, AllBelow, RB.BitPosition, NoOverrun, Expected,
         Overrunning, Goal, Follows;
    ghost var overruns := RankedBitvectorOverruns(universe, |vals|, params);
    var bvb := new BitVectorBuilder();
    var written := RB.Write(bvb, vals, universe, params);
    RB.MadeConsistent(0, universe, |vals|, params);
    var e := new RBE.Enumerator(bvb.bits, 0, universe, |vals|, params, vals);
    hide RB.MakeOffsets, RBE.Enumerator.Valid;
    answers, overrun := [], false;
    ghost var rest := calls;
    FollowsFirst(vals, universe, overruns, calls);
    for i := 0 to |calls|
      invariant rest == calls[i..] && |answers| == i && fresh(e)
      invariant e.Valid() && e.vals == vals && e.o == RB.MakeOffsets(0, universe, |vals|, params)
      invariant Follows(vals, universe, overruns, calls, answers, e.position, rest)
    {
      ghost var at := e.position;
      FollowsNext(vals, universe, overruns, calls, answers, at, rest);
      assert rest[0] == calls[i];
      var answer, missed := RankedBitvectorCall(e, calls[i]);
      RankedBitvectorCondition(universe, |vals|, params, at, calls[i]);
      if missed { return answers, true; }
      answers := answers + [answer];
      rest := rest[1..];
    }
    FollowsLast(vals, universe, overruns, calls, answers, e.position);
  }

  // ----- what runs and overruns are, in plain terms -----

  /** The first call of a legal run and its answer: the place, the value there or the universe, and the value in
      front of it or 0; the run goes on from there. */
  lemma RunStep(vals: seq<nat>, universe: nat, at: nat, calls: seq<Call>) returns (q: nat)
    requires at <= |vals| && calls != [] && Legal(vals, universe, at, calls)
    ensures q == Goal(vals, universe, at, calls[0]) <= |vals| && Legal(vals, universe, q, calls[1..])
    ensures match calls[0]
            case Move(p) => q == p
            case Next => q == at + 1
            case NextGeq(b) =>
              if b == (if at < |vals| then vals[at] else universe) then q == at else q == LowerBound(vals, b)
    ensures Expected(vals, universe, at, calls)[0] ==
            Answer(q, if q < |vals| then vals[q] else universe, if q > 0 then vals[q - 1] else 0)
    ensures Expected(vals, universe, at, calls)[1..] == Expected(vals, universe, q, calls[1..])
  {
    GoalInRange(vals, universe, at, calls[0]);
    q := Goal(vals, universe, at, calls[0]);
  }

  /** Behind the last value a bound overruns if it is above the universe, but by no more than 8; in Elias-Fano
      by no more than 8 once both are cut to their high parts. */
  lemma OverrunConditions(universe: nat, n: nat, params: Parameters, at: nat, b: nat)
    requires n > 0 && universe > 0
    ensures RankedBitvectorOverruns(universe, n, params)(at, b) <==> at == n && universe < b <= universe + 8
    ensures var w := Pow2(EF.LowerBitsFor(universe, n));
            EliasFanoOverruns(universe, n, params)(at, b) <==> at == n && universe < b && b / w <= universe / w + 8
  {
    hide Shr, Pow2, EF.LowerBitsFor, CeilLog2;
    ShrIsDivision(b, EF.LowerBitsFor(universe, n));
    ShrIsDivision(universe, EF.LowerBitsFor(universe, n));
  }

  /** Where the cursor of a run stands before call i: where it began, or where the last answer says. */
  ghost function PlaceBefore(at: nat, answers: seq<Answer>, i: nat): nat
    requires i <= |answers|
  {
    if i == 0 then at else answers[i - 1].position
  }

  /** A run overruns if and only if one of its searches does, from the place it is made at. */
  lemma {:induction false} OverrunsSomewhere(vals: seq<nat>, universe: nat, overruns: (nat, nat) -> bool, at: nat,
                                             calls: seq<Call>)
    requires at <= |vals| && Legal(vals, universe, at, calls)
    ensures var answers := Expected(vals, universe, at, calls);
            !NoOverrun(vals, universe, overruns, at, calls) <==>
            exists i :: 0 <= i < |calls| && calls[i].NextGeq? && overruns(PlaceBefore(at, answers, i), calls[i].bound)
    decreases |calls|
  {
    if calls != [] {
      var answers := Expected(vals, universe, at, calls);
      var q := RunStep(vals, universe, at, calls);
      OverrunsSomewhere(vals, universe, overruns, q, calls[1..]);
      var later, rest := answers[1..], calls[1..];
      forall i | 1 <= i < |calls| ensures PlaceBefore(at, answers, i) == PlaceBefore(q, later, i - 1) {}
      if i :| 0 <= i < |rest| && rest[i].NextGeq? && overruns(PlaceBefore(q, later, i), rest[i].bound) {
        assert overruns(PlaceBefore(at, answers, i + 1), calls[i + 1].bound);
      }
      if i :| 1 <= i < |calls| && calls[i].NextGeq? && overruns(PlaceBefore(at, answers, i), calls[i].bound) {
        assert overruns(PlaceBefore(q, later, i - 1), rest[i - 1].bound);
      }
      assert PlaceBefore(at, answers, 0) == at;
    }
  }
}
