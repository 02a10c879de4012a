/** Packing QMX stripes: integers go round-robin into the four 32-bit lanes of a 128-bit word, and come back
    group by group as the lanes are shifted. Four widths use two words and split one integer per lane. */
module QmxLanes {
  import opened Arith
  import opened Bits

  /** One lane holding a column of integers, the first in the lowest bits. */
  function Lane(w: nat, c: seq<nat>): nat {
    if c == [] then 0 else c[0] + Shl(Lane(w, c[1..]), w)
  }

  /** Every fourth integer, starting with number l. */
  function Column(vs: seq<nat>, l: nat, count: nat): (c: seq<nat>)
    requires l < 4 && (count > 0 ==> 4 * (count - 1) + l < |vs|)
    ensures |c| == count
  {
    if count == 0 then [] else Column(vs, l, count - 1) + [vs[4 * (count - 1) + l]]
  }

  lemma {:induction false} ColumnAt(vs: seq<nat>, l: nat, count: nat, j: nat)
    requires l < 4 && j < count && 4 * (count - 1) + l < |vs|
    ensures Column(vs, l, count)[j] == vs[4 * j + l]
  {
    if j < count - 1 {
      ColumnAt(vs, l, count - 1, j);
    }
  }

  ghost predicate AllFitIn(vs: seq<nat>, w: nat) {
    forall i :: 0 <= i < |vs| ==> vs[i] < Pow2(w)
  }

  lemma {:induction false} ColumnFits(vs: seq<nat>, l: nat, count: nat, w: nat)
    requires l < 4 && (count > 0 ==> 4 * (count - 1) + l < |vs|) && AllFitIn(vs, w)
    ensures AllFitIn(Column(vs, l, count), w)
  {
    forall j | 0 <= j < count ensures Column(vs, l, count)[j] < Pow2(w) {
      ColumnAt(vs, l, count, j);
    }
  }

  lemma {:induction false} ShlShl(v: nat, a: nat, b: nat)
    ensures Shl(Shl(v, a), b) == Shl(v, a + b)
  {
    if b == 0 {
    } else {
      ShlShl(v, a, b - 1);
    }
  }

  lemma {:induction false} ShrShr(v: nat, a: nat, b: nat)
    ensures Shr(Shr(v, a), b) == Shr(v, a + b)
  {
    if a == 0 {
    } else {
      ShrShr(v / 2, a - 1, b);
    }
  }

  lemma {:induction false} ShlAdds(x: nat, y: nat, p: nat)
    ensures Shl(x + y, p) == Shl(x, p) + Shl(y, p)
  {
    if p == 0 {
    } else {
      ShlAdds(x, y, p - 1);
    }
  }

  /** One more integer in a lane goes above the others. */
  lemma {:induction false} LaneMore(w: nat, c: seq<nat>, v: nat)
    ensures Lane(w, c + [v]) == Lane(w, c) + Shl(v, |c| * w)
  {
    hide Shl;
    if c == [] {
      ShlIsTimes(v, 0);
      ShlIsTimes(0, w);
      assert [] + [v] == [v] && [v][1..] == [];
    } else {
      LaneMore(w, c[1..], v);
      assert (c + [v])[1..] == c[1..] + [v];
      ShlAdds(Lane(w, c[1..]), Shl(v, |c[1..]| * w), w);
      ShlShl(v, |c[1..]| * w, w);
      assert |c[1..]| * w + w == |c| * w;
    }
  }

  lemma {:induction false} LaneBelow(w: nat, c: seq<nat>)
    requires AllFitIn(c, w)
    ensures Lane(w, c) < Pow2(|c| * w)
  {
    hide Shl;
    if c == [] {
    } else {
      LaneBelow(w, c[1..]);
      assert w + |c[1..]| * w == |c| * w;
      SumBelow(c[0], Lane(w, c[1..]), w, |c[1..]| * w);
    }
  }

  /** Shifting a lane by the width gives out its first integer. */
  lemma {:induction false} LaneShift(w: nat, c: seq<nat>)
    requires c != [] && c[0] < Pow2(w)
    ensures Low(Lane(w, c), w) == c[0] && Shr(Lane(w, c), w) == Lane(w, c[1..])
  {
    PartsOfSum(c[0], Lane(w, c[1..]), w);
  }

  /** Or-ing the next integer into a lane appends what fits of it. */
  lemma {:induction false} OrIntoLane(w: nat, c: seq<nat>, v: nat, room: nat)
    requires AllFitIn(c, w) && |c| * w + room == 32
    ensures Or(Lane(w, c), Low(Shl(v, |c| * w), 32)) == Lane(w, c + [Low(v, room)])
  {
    hide Lane, Low, Shl, Or;
    var at := |c| * w;
    LaneBelow(w, c);
    LaneMore(w, c, Low(v, room));
    LowOfShl(v, at, 32);
    OrOverClear(Lane(w, c), Low(v, room), at);
  }

  /** How many integers of lane l are among the first `value`. */
  function CountIn(value: nat, l: nat): nat
    requires l < 4
  {
    (value + 3 - l) / 4
  }

  lemma CountStep(value: nat, l: nat)
    requires l < 4
    ensures CountIn(value + 1, l) == if l == value % 4 then value / 4 + 1 else CountIn(value, l)
    ensures l == value % 4 ==> CountIn(value, l) == value / 4
    ensures CountIn(value, l) > 0 ==> 4 * (CountIn(value, l) - 1) + l < value
    ensures CountIn(4 * value, l) == value
  {
    CountIs(value / 4, value % 4, l);
    CountIs(value / 4, value % 4 + 1, l);
    CountIs(value, 0, l);
  }

  lemma CountIs(g: nat, r: nat, l: nat)
    requires l < 4 && r <= 4
    ensures CountIn(4 * g + r, l) == if l < r then g + 1 else g
  {
    assert 4 * g + r + 3 - l == 4 * g + (r + 3 - l);
  }

  /** How far up its lane an integer goes. */
  function ShiftOf(value: nat, w: nat): nat {
    value / 4 * w
  }

  // ----- one word -----

  /** The first `value` integers are in their lanes. */
  ghost predicate PackedTo(words: seq<nat>, vs: seq<nat>, w: nat, value: nat)
    requires value <= |vs|
  {
    |words| == 4 && forall l :: 0 <= l < 4 ==> LanePacked(words[l], vs, w, value, l)
  }

  ghost predicate LanePacked(word: nat, vs: seq<nat>, w: nat, value: nat, l: nat)
    requires l < 4 && value <= |vs|
  {
    CountStep(value, l);
    word == Lane(w, Column(vs, l, CountIn(value, l)))
  }

  ghost predicate Packs(words: seq<nat>, vs: seq<nat>, w: nat, groups: nat)
    requires |vs| >= 4 * groups
  {
    |words| == 4 && forall l :: 0 <= l < 4 ==> words[l] == Lane(w, Column(vs, l, groups))
  }

  lemma {:induction false} OrBelow(a: nat, b: nat, p: nat)
    requires a < Pow2(p) && b < Pow2(p)
    ensures Or(a, b) < Pow2(p)
    decreases p
  {
    if a != 0 && b != 0 {
      OrBelow(a / 2, b / 2, p - 1);
    }
  }

  /** What is left of each integer when the last group runs over the end of the lane. */
  ghost predicate Trimmed(vs: seq<nat>, w: nat, groups: nat, ts: seq<nat>) {
    && |vs| == |ts| == 4 * groups && AllFitIn(ts, w)
    && forall i :: 0 <= i < |vs| ==> ShiftOf(i, w) <= 32 && ts[i] == Low(vs[i], 32 - ShiftOf(i, w))
  }

  /** Shifts every integer to its place in its lane; what runs over the end is cut off. */
  method Pack(vs: seq<nat>, w: nat, groups: nat, ghost ts: seq<nat>) returns (words: seq<nat>)
    requires Trimmed(vs, w, groups, ts)
    ensures Packs(words, ts, w, groups) && AllWords(words)
  {
    hide Lane, Low, Shl, Or, PackedTo, Packs, Pow2;
    words := [0, 0, 0, 0];
    NonePacked(ts, w);
    for value := 0 to 4 * groups
      invariant |words| == 4 && AllWords(words) && PackedTo(words, ts, w, value)
    {
      OrBelow(words[value % 4], Low(Shl(vs[value], ShiftOf(value, w)), 32), 32);
      PackStep(words, vs[value], ts, w, value, 32 - ShiftOf(value, w));
      words := words[value % 4 := Or(words[value % 4], Low(Shl(vs[value], ShiftOf(value, w)), 32))];
    }
    AllPacked(words, ts, w, groups);
  }

  lemma NonePacked(vs: seq<nat>, w: nat)
    ensures PackedTo([0, 0, 0, 0], vs, w, 0)
  {}

  lemma AllPacked(words: seq<nat>, vs: seq<nat>, w: nat, groups: nat)
    requires 4 * groups <= |vs| && PackedTo(words, vs, w, 4 * groups)
    ensures Packs(words, vs, w, groups)
  {
    forall l | 0 <= l < 4 ensures words[l] == Lane(w, Column(vs, l, groups)) {
      CountStep(groups, l);
      assert LanePacked(words[l], vs, w, 4 * groups, l);
    }
  }

  /** Nothing is cut off when all groups fit. */
  lemma NothingTrimmed(vs: seq<nat>, w: nat, groups: nat)
    requires |vs| == 4 * groups && AllFitIn(vs, w) && groups * w <= 32
    ensures Trimmed(vs, w, groups, vs)
  {
    hide Low, Pow2;
    forall i | 0 <= i < |vs| ensures ShiftOf(i, w) <= 32 && vs[i] == Low(vs[i], 32 - ShiftOf(i, w)) {
      FieldInside(i / 4, groups, w);
      Pow2Monotone(w, 32 - ShiftOf(i, w));
      LowOfSmall(vs[i], 32 - ShiftOf(i, w));
    }
  }

  /** One more integer, of which ts holds what fits. */
  lemma {:induction false} PackStep(words: seq<nat>, v: nat, ts: seq<nat>, w: nat, value: nat, room: nat)
    requires value < |ts| && AllFitIn(ts, w) && PackedTo(words, ts, w, value)
    requires ShiftOf(value, w) + room == 32 && Low(v, room) == ts[value]
    ensures PackedTo(words[value % 4 := Or(words[value % 4], Low(Shl(v, ShiftOf(value, w)), 32))], ts, w, value + 1)
  {
    hide Lane, Low, Shl, Or, Pow2, CountIn, AllFitIn;
    var k, j := value % 4, value / 4;
    CountStep(value, k);
    assert LanePacked(words[k], ts, w, value, k);
    ColumnFits(ts, k, j, w);
    OrIntoLane(w, Column(ts, k, j), v, room);
    var next := words[k := Or(words[k], Low(Shl(v, j * w), 32))];
    forall l | 0 <= l < 4 ensures LanePacked(next[l], ts, w, value + 1, l) {
      CountStep(value, l);
      assert LanePacked(words[l], ts, w, value, l);
    }
  }

  // ----- reading one word -----

  /** Half a register: two lanes side by side, the lower one holding column c from integer j on. */
  ghost predicate HalfAt(half: nat, w: nat, c: seq<nat>, d: seq<nat>, j: nat, x1: nat)
    requires j <= |c| == |d| && j * w <= 32
  {
    half == Lane(w, c[j..]) + Shl(x1, 32 - j * w) && Shr(half, 32) == Lane(w, d[j..])
  }

  lemma {:induction false} HalfStart(w: nat, c: seq<nat>, d: seq<nat>)
    requires |c| == |d| && AllFitIn(c, w) && |c| * w <= 32
    ensures HalfAt(Lane(w, c) + Shl(Lane(w, d), 32), w, c, d, 0, Lane(w, d))
  {
    hide Lane, Shl, Shr, Pow2;
    LaneBelow(w, c);
    Pow2Monotone(|c| * w, 32);
    PartsOfSum(Lane(w, c), Lane(w, d), 32);
    assert c[0..] == c && d[0..] == d;
  }

  /** What the mask lets through, and what the shift leaves. */
  lemma {:induction false} HalfStep(half: nat, w: nat, c: seq<nat>, d: seq<nat>, j: nat, x1: nat)
    requires j < |c| == |d| && AllFitIn(c, w) && AllFitIn(d, w) && |c| * w <= 32 && j * w + w <= |c| * w
    requires HalfAt(half, w, c, d, j, x1)
    ensures Low(Low(half, 32), w) == c[j] && Low(Shr(half, 32), w) == d[j]
    ensures (j + 1) * w <= 32 && HalfAt(Shr(half, w), w, c, d, j + 1, x1)
  {
    hide Shl, Shr, Low, Pow2, AllFitIn;
    assert c[j] < Pow2(w) && d[j] < Pow2(w) by { InColumn(c, w, j); InColumn(d, w, j); }
    var rest := 32 - j * w - w;
    assert (j + 1) * w == j * w + w;
    assert c[j..][1..] == c[j + 1..] && d[j..][1..] == d[j + 1..];
    ShlShl(x1, rest, w);
    ShlAdds(Lane(w, c[j + 1..]), Shl(x1, rest), w);
    assert half == c[j] + Shl(Lane(w, c[j + 1..]) + Shl(x1, rest), w);
    PartsOfSum(c[j], Lane(w, c[j + 1..]) + Shl(x1, rest), w);
    LowLow(half, 32, w);
    LaneShift(w, d[j..]);
    ShrShr(half, w, 32);
    ShrShr(half, 32, w);
  }

  lemma {:induction false} InColumn(c: seq<nat>, w: nat, j: nat)
    requires AllFitIn(c, w) && j < |c|
    ensures c[j] < Pow2(w)
  {}

  lemma {:induction false} LowLow(v: nat, p: nat, q: nat)
    requires q <= p
    ensures Low(Low(v, p), q) == Low(v, q)
  {
    if q == 0 {
    } else {
      LowLow(v / 2, p - 1, q - 1);
      assert Low(v, p) / 2 == Low(v / 2, p - 1) && Low(v, p) % 2 == v % 2;
    }
  }

  /** _mm_srli_epi64: the register as two halves of 64 bits, shifted one group at a time. */
  method Unpack(words: seq<nat>, w: nat, groups: nat, ghost vs: seq<nat>) returns (out: seq<nat>)
    requires |vs| == 4 * groups && AllFitIn(vs, w) && groups * w <= 32 && Packs(words, vs, w, groups)
    ensures out == vs
  {
    hide Lane, Low, Shl, Shr, AllFitIn, HalfAt;
    ghost var c0, c1, c2, c3 := Column(vs, 0, groups), Column(vs, 1,
                                                              groups), Column(vs, 2, groups), Column(vs, 3, groups);
    ColumnsFit(vs, w, groups);
    HalfStart(w, c0, c1);
    HalfStart(w, c2, c3);
    var lo: nat, hi: nat := words[0] + Shl(words[1], 32), words[2] + Shl(words[3], 32);
    out := [];
    for j := 0 to groups
      invariant j * w <= 32 && HalfAt(lo, w, c0, c1, j, words[1]) && HalfAt(hi, w, c2, c3, j, words[3])
      invariant out == vs[..4 * j]
    {
      FieldInside(j, groups, w);
      HalfStep(lo, w, c0, c1, j, words[1]);
      HalfStep(hi, w, c2, c3, j, words[3]);
      GroupOf(vs, groups, j);
      out := out + [Low(Low(lo, 32), w), Low(Shr(lo, 32), w), Low(Low(hi, 32), w), Low(Shr(hi, 32), w)];
      lo, hi := Shr(lo, w), Shr(hi, w);
    }
  }

  lemma {:induction false} ColumnsFit(vs: seq<nat>, w: nat, groups: nat)
    requires |vs| == 4 * groups && AllFitIn(vs, w)
    ensures AllFitIn(Column(vs, 0, groups), w) && AllFitIn(Column(vs, 1, groups), w)
    ensures AllFitIn(Column(vs, 2, groups), w) && AllFitIn(Column(vs, 3, groups), w)
  {
    ColumnFits(vs, 0, groups, w);
    ColumnFits(vs, 1, groups, w);
    ColumnFits(vs, 2, groups, w);
    ColumnFits(vs, 3, groups, w);
  }

  /** Group j is number j of every column. */
  lemma {:induction false} GroupOf(vs: seq<nat>, groups: nat, j: nat)
    requires |vs| == 4 * groups && j < groups
    ensures vs[..4 * (j + 1)] ==
              vs[..4 * j] + [Column(vs, 0, groups)[j], Column(vs, 1, groups)[j], Column(vs, 2, groups)[j], Column(vs, 3, groups)[j]]
  {
    ColumnAt(vs, 0, groups, j);
    ColumnAt(vs, 1, groups, j);
    ColumnAt(vs, 2, groups, j);
    ColumnAt(vs, 3, groups, j);
  }

  // ----- two words -----

  /** How a pair of words holds a width: groups that start in the first word, bits of the last of them that fit it,
      where the whole groups of the second word start, and how many they are. */
  datatype Split = Split(w: nat, first: nat, kept: nat, offset: nat, second: nat)

  ghost predicate Sound(p: Split) {
    && p.first > 0 && (p.first - 1) * p.w + p.kept == 32 && p.kept < p.w <= p.kept + p.offset
    && p.offset + p.second * p.w <= 32
  }

  /** What the first word holds of the integers that start in it. */
  function Cut(vs: seq<nat>, p: Split): (ts: seq<nat>)
    requires p.first > 0 && |vs| == 4 * (p.first + p.second)
    ensures |ts| == 4 * p.first
  {
    var at := 4 * (p.first - 1);
    vs[..at] + [Low(vs[at], p.kept), Low(vs[at + 1], p.kept), Low(vs[at + 2], p.kept), Low(vs[at + 3], p.kept)]
  }

  lemma CutIsTrimmed(vs: seq<nat>, p: Split)
    requires Sound(p) && |vs| == 4 * (p.first + p.second) && AllFitIn(vs, p.w)
    ensures Trimmed(vs[..4 * p.first], p.w, p.first, Cut(vs, p))
  {
    hide Low, Pow2;
    var at := 4 * (p.first - 1);
    Pow2Monotone(p.kept, p.w);
    forall i | 0 <= i < 4 * p.first
      ensures ShiftOf(i, p.w) <= 32 && Cut(vs, p)[i] == Low(vs[i], 32 - ShiftOf(i, p.w)) < Pow2(p.w)
    {
      if i < at {
        FieldInside(i / 4, p.first - 1, p.w);
        Pow2Monotone(p.w, 32 - ShiftOf(i, p.w));
        LowOfSmall(vs[i], 32 - ShiftOf(i, p.w));
      } else {
        assert i / 4 == p.first - 1;
      }
    }
  }

  /** The second word: the rest of the split integers, then whole ones. */
  ghost predicate PacksSecond(words: seq<nat>, spill: seq<nat>, us: seq<nat>, p: Split, value: nat)
    requires |spill| == 4 && value <= |us|
  {
    |words| == 4 && forall l :: 0 <= l < 4 ==> SecondLane(words[l], spill, us, p, value, l)
  }

  ghost predicate SecondLane(word: nat, spill: seq<nat>, us: seq<nat>, p: Split, value: nat, l: nat)
    requires |spill| == 4 && l < 4 && value <= |us|
  {
    CountStep(value, l);
    word == spill[l] + Shl(Lane(p.w, Column(us, l, CountIn(value, l))), p.offset)
  }

  method PackSecond(source: seq<nat>, us: seq<nat>, p: Split, ghost spill: seq<nat>) returns (words: seq<nat>)
    requires Sound(p) && |source| == |spill| == 4 && |us| == 4 * p.second
    requires AllFitIn(us, p.w) && AllFitIn(spill, p.offset)
    requires forall l :: 0 <= l < 4 ==> spill[l] == Shr(source[l], p.kept)
    ensures PacksSecond(words, spill, us, p, |us|) && AllWords(words)
  {
    hide Lane, Low, Shl, Shr, PacksSecond, Pow2, ShiftOf;
    Pow2Monotone(p.offset, 32);
    words := [0, 0, 0, 0];
    for value := 0 to 4
      invariant |words| == 4 && forall l :: 0 <= l < 4 ==> words[l] == if l < value then spill[l] else 0
    {
      words := words[value := Or(words[value], Shr(source[value], p.kept))];
    }
    SpillPacked(words, spill, us, p);
    for value := 0 to |us|
      invariant |words| == 4 && AllWords(words) && PacksSecond(words, spill, us, p, value)
    {
      OrBelow(words[value % 4], Low(Shl(us[value], ShiftOf(value, p.w) + p.offset), 32), 32);
      var word := Or(words[value % 4], Low(Shl(us[value], ShiftOf(value, p.w) + p.offset), 32));
      SecondStep(words, spill, us, p, value, word);
      words := words[value % 4 := word];
    }
  }

  lemma SpillPacked(words: seq<nat>, spill: seq<nat>, us: seq<nat>, p: Split)
    requires |words| == |spill| == 4 && words == spill
    ensures PacksSecond(words, spill, us, p, 0)
  {
    ShlIsTimes(0, p.offset);
  }

  lemma SecondStep(words: seq<nat>, spill: seq<nat>, us: seq<nat>, p: Split, value: nat, word: nat)
    requires Sound(p) && |spill| == 4 && |us| == 4 * p.second && AllFitIn(us, p.w) && AllFitIn(spill, p.offset)
    requires value < |us| && PacksSecond(words, spill, us, p, value)
    requires word == Or(words[value % 4], Low(Shl(us[value], ShiftOf(value, p.w) + p.offset), 32))
    ensures PacksSecond(words[value % 4 := word], spill, us, p, value + 1)
  {
    hide Lane, Low, Shl, Or, Pow2, CountIn, AllFitIn, SecondLane, Column;
    var k := value % 4;
    NextSecond(words[k], spill, us, p, value, word);
    var next := words[k := word];
    forall l | 0 <= l < 4 ensures SecondLane(next[l], spill, us, p, value + 1, l) {
      if l != k { SameSecond(words[l], spill, us, p, value, l); }
    }
  }

  lemma SameSecond(word: nat, spill: seq<nat>, us: seq<nat>, p: Split, value: nat, l: nat)
    requires |spill| == 4 && l < 4 && l != value % 4 && value < |us| && SecondLane(word, spill, us, p, value, l)
    ensures SecondLane(word, spill, us, p, value + 1, l)
  {
    hide Lane, Shl, CountIn;
    CountStep(value, l);
  }

  lemma {:induction false} NextSecond(word: nat, spill: seq<nat>, us: seq<nat>, p: Split, value: nat, next: nat)
    requires Sound(p) && |spill| == 4 && |us| == 4 * p.second && AllFitIn(us, p.w) && AllFitIn(spill, p.offset)
    requires value < |us| && SecondLane(word, spill, us, p, value, value % 4)
    requires next == Or(word, Low(Shl(us[value], ShiftOf(value, p.w) + p.offset), 32))
    ensures SecondLane(next, spill, us, p, value + 1, value % 4)
  {
    hide Lane, Low, Shl, Or, Pow2, CountIn;
    var k, j := value % 4, value / 4;
    CountStep(value, k);
    FieldInside(j, p.second, p.w);
    ColumnFits(us, k, j, p.w);
    OrAboveSpill(spill[k], p.offset, p.w, Column(us, k, j), us[value]);
  }

  lemma OrAboveSpill(b: nat, offset: nat, w: nat, c: seq<nat>, v: nat)
    requires b < Pow2(offset) && AllFitIn(c, w) && v < Pow2(w) && |c| * w + w + offset <= 32
    ensures Or(b + Shl(Lane(w, c), offset), Low(Shl(v, |c| * w + offset), 32)) == b + Shl(Lane(w, c + [v]), offset)
  {
    hide Lane, Low, Shl, Or, Pow2;
    var at := |c| * w;
    LaneBelow(w, c);
    SumBelow(b, Lane(w, c), offset, at);
    LowOfShl(v, at + offset, 32);
    Pow2Monotone(w, 32 - at - offset);
    LowOfSmall(v, 32 - at - offset);
    OrOverClear(b + Shl(Lane(w, c), offset), v, at + offset);
    LaneMore(w, c, v);
    ShlShl(v, at, offset);
    ShlAdds(Lane(w, c), Shl(v, at), offset);
  }

  // ----- reading two words -----

  ghost predicate LanesAt(lanes: seq<nat>, ts: seq<nat>, w: nat, groups: nat, j: nat)
    requires |ts| == 4 * groups && j <= groups
  {
    |lanes| == 4 && forall l :: 0 <= l < 4 ==> lanes[l] == Lane(w, Column(ts, l, groups)[j..])
  }

  function Masked(lanes: seq<nat>, w: nat): seq<nat>
    requires |lanes| == 4
  {
    [Low(lanes[0], w), Low(lanes[1], w), Low(lanes[2], w), Low(lanes[3], w)]
  }

  /** _mm_srli_epi32: every lane by itself. */
  function Shifted(lanes: seq<nat>, k: nat): (r: seq<nat>)
    requires |lanes| == 4
    ensures |r| == 4
  {
    [Shr(lanes[0], k), Shr(lanes[1], k), Shr(lanes[2], k), Shr(lanes[3], k)]
  }

  lemma {:induction false} LaneStep(lane: nat, ts: seq<nat>, w: nat, groups: nat, j: nat, l: nat)
    requires |ts| == 4 * groups && j < groups && l < 4 && AllFitIn(ts, w)
    requires lane == Lane(w, Column(ts, l, groups)[j..])
    ensures Low(lane, w) == ts[4 * j + l] && Shr(lane, w) == Lane(w, Column(ts, l, groups)[j + 1..])
  {
    hide Lane, Low, Shr, Pow2;
    var c := Column(ts, l, groups);
    ColumnAt(ts, l, groups, j);
    assert c[j..][1..] == c[j + 1..];
    LaneShift(w, c[j..]);
  }

  lemma LanesStep(lanes: seq<nat>, ts: seq<nat>, w: nat, groups: nat, j: nat)
    requires |ts| == 4 * groups && j < groups && AllFitIn(ts, w) && LanesAt(lanes, ts, w, groups, j)
    ensures ts[..4 * (j + 1)] == ts[..4 * j] + Masked(lanes, w)
    ensures LanesAt(Shifted(lanes, w), ts, w, groups, j + 1)
  {
    hide Lane, Low, Shr, AllFitIn;
    LaneStep(lanes[0], ts, w, groups, j, 0);
    LaneStep(lanes[1], ts, w, groups, j, 1);
    LaneStep(lanes[2], ts, w, groups, j, 2);
    LaneStep(lanes[3], ts, w, groups, j, 3);
  }

  /** Gives out whole groups from the lanes, one after the other. */
  method Drain(start: seq<nat>, w: nat, count: nat, ghost ts: seq<nat>, ghost groups: nat)
    returns (out: seq<nat>, lanes: seq<nat>)
    requires |ts| == 4 * groups && count <= groups && AllFitIn(ts, w) && LanesAt(start, ts, w, groups, 0)
    ensures out == ts[..4 * count] && LanesAt(lanes, ts, w, groups, count)
  {
    hide Low, Shr, AllFitIn, LanesAt;
    out, lanes := [], start;
    FourLanes(start, ts, w, groups, 0);
    for j := 0 to count
      invariant |lanes| == 4 && LanesAt(lanes, ts, w, groups, j) && out == ts[..4 * j]
    {
      LanesStep(lanes, ts, w, groups, j);
      out := out + Masked(lanes, w);
      lanes := Shifted(lanes, w);
    }
  }

  lemma FourLanes(lanes: seq<nat>, ts: seq<nat>, w: nat, groups: nat, j: nat)
    requires |ts| == 4 * groups && j <= groups && LanesAt(lanes, ts, w, groups, j)
    ensures |lanes| == 4
  {}

  lemma PacksIsStart(words: seq<nat>, ts: seq<nat>, w: nat, groups: nat)
    requires |ts| == 4 * groups && Packs(words, ts, w, groups)
    ensures LanesAt(words, ts, w, groups, 0)
  {
    hide Lane;
    forall l | 0 <= l < 4 ensures words[l] == Lane(w, Column(ts, l, groups)[0..]) {
      assert Column(ts, l, groups)[0..] == Column(ts, l, groups);
    }
  }

  lemma {:induction false} LowOfSum(low: nat, high: nat, p: nat, n: nat)
    requires p <= n && low < Pow2(p)
    ensures Low(low + Shl(high, p), n) == low + Shl(Low(high, n - p), p)
  {
    if p == 0 {
    } else {
      LowOfSum(low / 2, high, p - 1, n - 1);
      var v := low + Shl(high, p);
      assert v / 2 == low / 2 + Shl(high, p - 1) && v % 2 == low % 2;
    }
  }

  /** The two halves of a split integer, put together and masked. */
  lemma {:induction false} SplitBack(x: nat, rest: nat, p: Split)
    requires Sound(p) && x < Pow2(p.w) && p.w <= 32
    ensures Low(Or(Low(x, p.kept), Low(Shl(Shr(x, p.kept) + Shl(rest, p.offset), p.kept), 32)), p.w) == x
    ensures Shr(Shr(x, p.kept) + Shl(rest, p.offset), p.offset) == rest
    ensures Shr(x, p.kept) < Pow2(p.offset)
  {
    hide Low, Shr, Shl, Or, Pow2;
    var b := Shr(x, p.kept) + Shl(rest, p.offset);
    var need := p.w - p.kept;
    ShrSmall(x, p.kept, need);
    Pow2Monotone(need, p.offset);
    PartsOfSum(Shr(x, p.kept), rest, p.offset);
    LowOfShl(b, p.kept, 32);
    OrOverClear(Low(x, p.kept), Low(b, 32 - p.kept), p.kept);
    LowOfSum(Low(x, p.kept), Low(b, 32 - p.kept), p.kept, p.w);
    LowLow(b, 32 - p.kept, need);
    LowLow(b, p.offset, need);
    LowOfSmall(Shr(x, p.kept), need);
    LowPlusHigh(x, p.kept);
  }

  function Spill(vs: seq<nat>, p: Split): (s: seq<nat>)
    requires p.first > 0 && |vs| == 4 * (p.first + p.second)
    ensures |s| == 4
  {
    var at := 4 * (p.first - 1);
    [Shr(vs[at], p.kept), Shr(vs[at + 1], p.kept), Shr(vs[at + 2], p.kept), Shr(vs[at + 3], p.kept)]
  }

  ghost predicate PacksSplit(first: seq<nat>, second: seq<nat>, vs: seq<nat>, p: Split)
    requires p.first > 0 && |vs| == 4 * (p.first + p.second)
  {
    Packs(first, Cut(vs, p), p.w, p.first) && PacksSecond(second, Spill(vs, p), vs[4 * p.first..], p, 4 * p.second)
  }

  method PackSplit(vs: seq<nat>, p: Split) returns (first: seq<nat>, second: seq<nat>)
    requires Sound(p) && p.w <= 32 && |vs| == 4 * (p.first + p.second) && AllFitIn(vs, p.w)
    ensures PacksSplit(first, second, vs, p) && AllWords(first) && AllWords(second)
  {
    hide Low, Shr, Packs, PacksSecond, Pow2, Trimmed;
    CutIsTrimmed(vs, p);
    first := Pack(vs[..4 * p.first], p.w, p.first, Cut(vs, p));
    var at := 4 * (p.first - 1);
    SplitBack(vs[at], 0, p);
    SplitBack(vs[at + 1], 0, p);
    SplitBack(vs[at + 2], 0, p);
    SplitBack(vs[at + 3], 0, p);
    second := PackSecond(vs[at..at + 4], vs[4 * p.first..], p, Spill(vs, p));
  }

  method UnpackSplit(first: seq<nat>, second: seq<nat>, p: Split, ghost vs: seq<nat>) returns (out: seq<nat>)
    requires Sound(p) && p.w <= 32 && |vs| == 4 * (p.first + p.second)
    requires AllFitIn(vs, p.w) && PacksSplit(first, second, vs, p)
    ensures out == vs
  {
    hide Low, Shr, Shl, Or, Packs, PacksSecond, AllFitIn, LanesAt, Cut;
    ghost var us := vs[4 * p.first..];
    CutFits(vs, p);
    PacksIsStart(first, Cut(vs, p), p.w, p.first);
    var lanes;
    out, lanes := Drain(first, p.w, p.first - 1, Cut(vs, p), p.first);
    FourLanes(lanes, Cut(vs, p), p.w, p.first, p.first - 1);
    SecondParts(second, vs, p, lanes);
    out := out + Masked([Or(lanes[0], Low(Shl(second[0], p.kept), 32)), Or(lanes[1], Low(Shl(second[1], p.kept), 32)),
                         Or(lanes[2], Low(Shl(second[2], p.kept), 32)), Or(lanes[3],
                                                                           Low(Shl(second[3], p.kept), 32))], p.w);
    var rest;
    rest, lanes := Drain(Shifted(second, p.offset), p.w, p.second, us, p.second);
    out := out + rest;
    JoinedParts(vs, p);
  }

  lemma JoinedParts(vs: seq<nat>, p: Split)
    requires p.first > 0 && |vs| == 4 * (p.first + p.second)
    ensures var at := 4 * (p.first - 1);
            && vs == Cut(vs, p)[..at] + [vs[at], vs[at + 1], vs[at + 2], vs[at + 3]] + vs[4 * p.first..]
            && vs[4 * p.first..][..4 * p.second] == vs[4 * p.first..]
  {}

  lemma CutFits(vs: seq<nat>, p: Split)
    requires Sound(p) && |vs| == 4 * (p.first + p.second) && AllFitIn(vs, p.w)
    ensures AllFitIn(Cut(vs, p), p.w) && AllFitIn(vs[4 * p.first..], p.w)
  {
    CutIsTrimmed(vs, p);
  }

  /** What the second word and the leftovers of the first give. */
  lemma SecondParts(second: seq<nat>, vs: seq<nat>, p: Split, lanes: seq<nat>)
    requires Sound(p) && p.w <= 32 && |vs| == 4 * (p.first + p.second) && AllFitIn(vs, p.w)
    requires PacksSecond(second, Spill(vs, p), vs[4 * p.first..], p, 4 * p.second)
    requires LanesAt(lanes, Cut(vs, p), p.w, p.first, p.first - 1)
    ensures |second| == 4 && |lanes| == 4
    ensures var at := 4 * (p.first - 1);
            forall l :: 0 <= l < 4 ==> Low(Or(lanes[l], Low(Shl(second[l], p.kept), 32)), p.w) == vs[at + l]
    ensures LanesAt(Shifted(second, p.offset), vs[4 * p.first..], p.w, p.second, 0)
  {
    hide Low, Shr, Shl, Or, Pow2, Lane, CountIn, AllFitIn, SecondLane, Column, Cut;
    forall l | 0 <= l < 4
      ensures Low(Or(lanes[l], Low(Shl(second[l], p.kept), 32)), p.w) == vs[4 * (p.first - 1) + l]
      ensures Shr(second[l], p.offset) == Lane(p.w, Column(vs[4 * p.first..], l, p.second)[0..])
    {
      SecondPart(second[l], lanes[l], vs, p, l);
    }
  }

  lemma {:induction false} SecondPart(second: nat, lane: nat, vs: seq<nat>, p: Split, l: nat)
    requires Sound(p) && p.w <= 32 && |vs| == 4 * (p.first + p.second) && AllFitIn(vs, p.w) && l < 4
    requires SecondLane(second, Spill(vs, p), vs[4 * p.first..], p, 4 * p.second, l)
    requires lane == Lane(p.w, Column(Cut(vs, p), l, p.first)[p.first - 1..])
    ensures Low(Or(lane, Low(Shl(second, p.kept), 32)), p.w) == vs[4 * (p.first - 1) + l]
    ensures Shr(second, p.offset) == Lane(p.w, Column(vs[4 * p.first..], l, p.second)[0..])
  {
    hide Low, Shr, Shl, Or, Pow2, Lane, CountIn, Column, Cut;
    var us := vs[4 * p.first..];
    var d := Column(us, l, p.second);
    LastOfCut(vs, p, l);
    CountStep(p.second, l);
    SplitBack(vs[4 * (p.first - 1) + l], Lane(p.w, d), p);
    assert d[0..] == d;
  }

  lemma {:induction false} LastOfCut(vs: seq<nat>, p: Split, l: nat)
    requires p.first > 0 && |vs| == 4 * (p.first + p.second) && l < 4
    ensures Lane(p.w, Column(Cut(vs, p), l, p.first)[p.first - 1..]) == Low(vs[4 * (p.first - 1) + l], p.kept)
  {
    hide Low;
    var c := Column(Cut(vs, p), l, p.first);
    ColumnAt(Cut(vs, p), l, p.first, p.first - 1);
    assert c[p.first - 1..] == [c[p.first - 1]] && [c[p.first - 1]][1..] == [];
    ShlIsTimes(0, p.w);
  }
}
