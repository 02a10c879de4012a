/** `all_ones_sequence`: a sequence that fills its universe, or a single value at its end, needs no bits. */
module AllOnes {
  import opened SortedLists

  predicate Usable(universe: nat, n: nat) {
    universe == n || n == 1
  }

  /** What an encoding costs; the largest number of the source stands for one that cannot be used. */
  datatype Cost = Cost(bits: nat) | Unusable {
    predicate Above(other: nat) {
      Unusable? || other < bits
    }
  }

  function BitSize(universe: nat, n: nat): Cost {
    if Usable(universe, n) then Cost(0) else Unusable
  }

  /** The sequences it stands for: increasing, below the universe, ending right below it. */
  ghost predicate Fits(vals: seq<nat>, universe: nat) {
    && Usable(universe, |vals|) && Increasing(vals) && AllBelow(vals, universe)
    && vals != [] && vals[|vals| - 1] == universe - 1
  }

  /** A sequence that fills its universe is its own list of positions. */
  lemma ValuesArePositions(vals: seq<nat>, universe: nat)
    requires Fits(vals, universe) && |vals| > 1
    ensures forall i :: 0 <= i < |vals| ==> vals[i] == i
  {
    forall i | 0 <= i < |vals| ensures vals[i] == i {
      AtLeastPosition(vals, i);
      AtMostPosition(vals, universe, i);
    }
  }

  lemma {:induction false} AtLeastPosition(vals: seq<nat>, i: nat)
    requires Increasing(vals) && i < |vals|
    ensures vals[i] >= i
  {
    if i == 0 {
    } else {
      AtLeastPosition(vals, i - 1);
    }
  }

  lemma {:induction false} AtMostPosition(vals: seq<nat>, universe: nat, i: nat)
    requires Fits(vals, universe) && i < |vals| && |vals| > 1
    ensures vals[i] <= i
    decreases |vals| - i
  {
    if i + 1 < |vals| {
      AtMostPosition(vals, universe, i + 1);
    }
  }

  class Enumerator {
    const n: nat
    const universe: nat
    ghost const vals: seq<nat>
    var position: nat

    ghost predicate Valid()
      reads this
    {
      Fits(vals, universe) && n == |vals| && position <= n
    }

    constructor (universe: nat, n: nat, ghost vals: seq<nat>)
      requires Fits(vals, universe) && n == |vals|
      ensures Valid() && this.vals == vals && this.universe == universe && position == n
    {
      this.universe, this.n, this.vals := universe, n, vals;
      position := n;
    }

    /** The current value; a single value is shown even at the end. */
    function Value(): (v: nat)
      requires Valid()
      reads this
      ensures position < n ==> v == vals[position]
      ensures position == n ==> v == if n == 1 then universe - 1 else universe
    {
      if n == 1 then universe - 1
      else
        ValuesArePositions(vals, universe);
        position
    }

    method Move(p: nat)
      requires Valid() && p <= n
      modifies this
      ensures Valid() && position == p
    {
      position := p;
    }

    method Next()
      requires Valid() && position < n
      modifies this
      ensures Valid() && position == old(position) + 1
    {
      position := position + 1;
    }

    /** The first match, unless a single value is asked for more than it has. */
    method NextGeq(lowerBound: nat)
      requires Valid() && lowerBound <= universe
      modifies this
      ensures Valid()
      ensures position == LowerBound(vals, lowerBound) <==> !(n == 1 && lowerBound >= universe)
    {
      if n == 1 {
        position := 0;
      } else {
        position := lowerBound;
        PositionIsBound(vals, universe, lowerBound);
      }
    }

    method PrevValue() returns (prev: nat)
      requires Valid()
      ensures prev == if position == 0 then 0 else vals[position - 1]
    {
      if position == 0 { return 0; }
      if n == 1 { return universe - 1; }
      ValuesArePositions(vals, universe);
      return position - 1;
    }
  }

  /** The one value of a single implicit sequence is shown for a bound above it, too: the position is 0
      where the first match is the end. */
  method SingleValueMisses(universe: nat) returns (position: nat)
    requires universe > 0
    ensures position == 0 && LowerBound([universe - 1], universe) == 1
  {
    var e := new Enumerator(universe, 1, [universe - 1]);
    e.NextGeq(universe);
    position := e.position;
    LowerBoundIsUnique([universe - 1], universe, 1);
  }

  lemma {:induction false} PositionIsBound(vals: seq<nat>, universe: nat, lowerBound: nat)
    requires Fits(vals, universe) && |vals| > 1 && lowerBound <= universe
    ensures lowerBound == LowerBound(vals, lowerBound)
  {
    ValuesArePositions(vals, universe);
    LowerBoundIsUnique(vals, lowerBound, lowerBound);
  }
}
