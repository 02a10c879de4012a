/** The first half of the QMX encoder: every integer gets a width, groups of four share one, and widths are
    promoted until the whole input is tiled by full stripes. */
module QmxLengths {
  import opened Arith
  import opened Bits
  import opened QmxWidths

  const WASTAGE := 512

  function Repeat(w: nat, count: nat): (r: seq<nat>)
    ensures |r| == count
  {
    seq(count, i => w)
  }

  ghost predicate Tiles(tiles: seq<nat>) {
    forall k :: 0 <= k < |tiles| ==> IsWidth(tiles[k])
  }

  /** The widths of all integers when the stripes have the given widths. */
  ghost function Spread(tiles: seq<nat>): seq<nat>
    requires Tiles(tiles)
  {
    if tiles == [] then [] else Spread(tiles[..|tiles| - 1]) + Repeat(tiles[|tiles| - 1], Size(tiles[|tiles| - 1]))
  }

  lemma {:induction false} SpreadMore(tiles: seq<nat>, w: nat)
    requires Tiles(tiles) && IsWidth(w)
    ensures Tiles(tiles + [w]) && Spread(tiles + [w]) == Spread(tiles) + Repeat(w, Size(w))
  {
    assert (tiles + [w])[..|tiles|] == tiles;
  }

  /** Every integer so far has a width that fits it. */
  ghost predicate AllFit(lengths: seq<nat>, source: seq<nat>) {
    && |lengths| == |source| + WASTAGE
    && (forall i :: 0 <= i < |lengths| ==> IsWidth(lengths[i]))
    && forall i :: 0 <= i < |source| ==> Fits(lengths[i], source[i])
  }

  predicate SameFour(lengths: seq<nat>, g: nat)
    requires g + 4 <= |lengths|
  {
    lengths[g] == lengths[g + 1] == lengths[g + 2] == lengths[g + 3]
  }

  /** Groups of four from a place on share their width, and none is the last resort. */
  ghost predicate Grouped(lengths: seq<nat>, n: nat, at: nat)
    requires |lengths| == n + WASTAGE
  {
    && (forall i :: at <= i < |lengths| ==> lengths[i] <= 32)
    && forall g :: at <= g < n && g % 4 == 0 ==> SameFour(lengths, g)
  }

  /** Fewer than four integers are left, all of them with the last resort. */
  ghost predicate LastResort(lengths: seq<nat>, n: nat, at: nat)
    requires |lengths| == n + WASTAGE
  {
    n - at < 4 && forall i :: at <= i < n ==> lengths[i] == 128
  }

  ghost predicate TiledUpTo(lengths: seq<nat>, at: nat, tiles: seq<nat>) {
    at <= |lengths| && Tiles(tiles) && lengths[..at] == Spread(tiles)
  }

  // ----- the least width -----

  /** A full stripe of a width may begin at a place: it lies inside the input and none of its integers needs more. */
  ghost predicate Possible(source: seq<nat>, at: nat, w: nat)
    requires IsWidth(w)
  {
    w <= 32 && at + Size(w) <= |source| && forall i :: at <= i < at + Size(w) ==> BitsNeededFor(source[i]) <= w
  }

  /** No narrower stripe may begin there. */
  ghost predicate NoneNarrower(source: seq<nat>, at: nat, w: nat) {
    forall v :: 0 <= v < w && IsWidth(v) ==> !Possible(source, at, v)
  }

  /** A stripe has the least width that is possible where it begins; single integers stand only where none is. */
  ghost predicate LeastStripe(source: seq<nat>, at: nat, w: nat)
    requires IsWidth(w)
  {
    NoneNarrower(source, at, w) && if w == 128 then |source| - at < 4 else Possible(source, at, w)
  }

  /** Where stripe k begins. */
  ghost function Place(tiles: seq<nat>, k: nat): nat
    requires Tiles(tiles) && k <= |tiles|
  {
    |Spread(tiles[..k])|
  }

  ghost predicate LeastStripes(source: seq<nat>, tiles: seq<nat>)
    requires Tiles(tiles)
  {
    forall k :: 0 <= k < |tiles| ==> LeastStripe(source, Place(tiles, k), tiles[k])
  }

  /** Some integer of the group of four needs exactly that width. */
  ghost predicate NeedsExactly(source: seq<nat>, g: nat, w: nat) {
    exists j :: g <= j < g + 4 && j < |source| && BitsNeededFor(source[j]) == w
  }

  /** With fewer than sixteen integers left a group may have been widened to eight bits without need. */
  function Slack(left: int): nat {
    if left < 16 then 8 else 0
  }

  ghost predicate GroupTight(lengths: seq<nat>, source: seq<nat>, g: nat, slack: nat)
    requires g < |lengths|
  {
    lengths[g] <= slack || NeedsExactly(source, g, lengths[g])
  }

  /** At the place nothing narrower is possible; the groups behind it are as wide as they need to be. */
  ghost predicate Trying(lengths: seq<nat>, source: seq<nat>, at: nat)
    requires |lengths| == |source| + WASTAGE && at <= |source|
  {
    && NoneNarrower(source, at, lengths[at])
    && forall g :: at + 4 <= g < |source| && g % 4 == 0 ==> GroupTight(lengths, source, g, Slack(|source| - at))
  }

  /** Narrow stripes are long. */
  lemma LongStripes(source: seq<nat>, at: nat, v: nat)
    requires IsWidth(v) && Possible(source, at, v)
    ensures |source| - at >= 4 && (v < 10 ==> |source| - at >= 16)
  {}

  lemma GroupNeeds(source: seq<nat>, at: nat, g: nat, w: nat, v: nat)
    requires IsWidth(v) && NeedsExactly(source, g, w) && v < w
    requires at <= g && g + 4 <= at + Size(v)
    ensures !Possible(source, at, v)
  {
    var j :| g <= j < g + 4 && j < |source| && BitsNeededFor(source[j]) == w;
  }

  /** Where the groups are as wide as they need to be, nothing narrower than the first of them is possible. */
  lemma FirstGroup(lengths: seq<nat>, source: seq<nat>, at: nat, left: int)
    requires |lengths| == |source| + WASTAGE && at < |source|
    requires GroupTight(lengths, source, at, Slack(left)) && |source| - at <= left
    ensures NoneNarrower(source, at, lengths[at])
  {
    forall v | 0 <= v < lengths[at] && IsWidth(v) ensures !Possible(source, at, v) {
      if Possible(source, at, v) {
        LongStripes(source, at, v);
        GroupNeeds(source, at, at, lengths[at], v);
      }
    }
  }

  /** Widening near the end makes nothing possible that was not. */
  lemma WidenKeepsTrying(before: seq<nat>, after: seq<nat>, source: seq<nat>, at: nat, to: nat, w: nat)
    requires |before| == |source| + WASTAGE && at < |source| && Trying(before, source, at)
    requires Filled(before, after, at, to, w) && at < to && w <= 32
    requires |source| - at < 4 || (w == 8 && |source| - at < 16)
    ensures Trying(after, source, at)
  {
    forall v | 0 <= v < w && IsWidth(v) ensures !Possible(source, at, v) {
      if Possible(source, at, v) { LongStripes(source, at, v); }
    }
    forall g | at + 4 <= g < |source| && g % 4 == 0 ensures GroupTight(after, source, g, Slack(|source| - at)) {
      assert GroupTight(before, source, g, Slack(|source| - at));
    }
  }

  /** The next wider width, when this one is not possible. */
  lemma PromoteKeepsTrying(before: seq<nat>, after: seq<nat>, source: seq<nat>, at: nat, w: nat)
    requires |before| == |source| + WASTAGE && at < |source| && Trying(before, source, at)
    requires IsWidth(w) && w < 32 && NoneNarrower(source, at, w) && !Possible(source, at, w)
    requires Filled(before, after, at, at + 4, Promoted(w))
    ensures Trying(after, source, at)
  {
    forall v | 0 <= v < Promoted(w) && IsWidth(v) ensures !Possible(source, at, v) {
      assert v <= w;
    }
    forall g | at + 4 <= g < |source| && g % 4 == 0 ensures GroupTight(after, source, g, Slack(|source| - at)) {
      assert GroupTight(before, source, g, Slack(|source| - at));
    }
  }

  /** A wider group inside the stripe rules its width out. */
  lemma MixedIsImpossible(lengths: seq<nat>, source: seq<nat>, at: nat, w: nat, g: nat)
    requires |lengths| == |source| + WASTAGE && at < |source| && Trying(lengths, source, at)
    requires IsWidth(w) && w <= 32 && at + 4 <= g && g % 4 == 0 && g + 4 <= at + Size(w) && lengths[g] > w
    ensures !Possible(source, at, w)
  {
    if Possible(source, at, w) {
      LongStripes(source, at, w);
      assert GroupTight(lengths, source, g, Slack(|source| - at));
      GroupNeeds(source, at, g, lengths[g], w);
    }
  }

  /** A stripe whose integers have at most its width is possible. */
  lemma FullIsPossible(lengths: seq<nat>, source: seq<nat>, at: nat, w: nat)
    requires AllFit(lengths, source) && AllWords(source) && IsWidth(w) && w <= 32 && at + Size(w) <= |source|
    requires forall i :: at <= i < at + Size(w) ==> lengths[i] <= w
    ensures Possible(source, at, w)
  {
    hide Fits, BitsNeededFor, Pow2;
    forall i | at <= i < at + Size(w) ensures BitsNeededFor(source[i]) <= w {
      BitsNeededIsLeast(source[i], lengths[i]);
    }
  }

  /** Behind a stripe the search begins anew. */
  lemma TryingBehind(before: seq<nat>, after: seq<nat>, source: seq<nat>, at: nat, next: nat, w: nat)
    requires |before| == |source| + WASTAGE && at < next <= |source| && next % 4 == at % 4 == 0
    requires Trying(before, source, at) && Filled(before, after, at, next, w)
    requires next == |source| ==> after[next] <= 128 && NoneNarrower(source, next, after[next])
    ensures Trying(after, source, next)
  {
    forall g | next <= g < |source| && g % 4 == 0 ensures GroupTight(after, source, g, Slack(|source| - at)) {
      assert GroupTight(before, source, g, Slack(|source| - at));
    }
    if next < |source| {
      FirstGroup(after, source, next, |source| - at);
    }
    forall g | next + 4 <= g < |source| && g % 4 == 0 ensures GroupTight(after, source, g, Slack(|source| - next)) {
      assert GroupTight(after, source, g, Slack(|source| - at));
    }
  }

  lemma NothingLeft(source: seq<nat>, w: nat)
    ensures NoneNarrower(source, |source|, w)
  {}

  lemma {:induction false} MoreLeast(source: seq<nat>, tiles: seq<nat>, w: nat)
    requires Tiles(tiles) && IsWidth(w) && LeastStripes(source, tiles) && LeastStripe(source, |Spread(tiles)|, w)
    ensures Tiles(tiles + [w]) && LeastStripes(source, tiles + [w])
  {
    hide LeastStripe, Spread;
    var more := tiles + [w];
    forall k | 0 <= k < |more| ensures LeastStripe(source, Place(more, k), more[k]) {
      if k < |tiles| {
        assert more[..k] == tiles[..k];
        assert LeastStripe(source, Place(tiles, k), tiles[k]);
      } else {
        assert more[..k] == tiles;
      }
    }
  }

  lemma LeastIsUnique(source: seq<nat>, at: nat, v: nat, w: nat)
    requires IsWidth(v) && IsWidth(w) && LeastStripe(source, at, v) && LeastStripe(source, at, w)
    ensures v == w
  {
    hide Possible;
  }

  /** The input alone determines the stripes. */
  lemma {:induction false} StripesDetermined(source: seq<nat>, a: seq<nat>, b: seq<nat>)
    requires Tiles(a) && Tiles(b) && LeastStripes(source, a) && LeastStripes(source, b)
    requires |Spread(a)| == |Spread(b)|
    ensures a == b
  {
    assert a[..|a|] == a && b[..|b|] == b;
    if |a| <= |b| {
      PrefixDetermined(source, a, b, |a|);
      if |a| < |b| { SpreadOfPrefix(b, |a|); }
    } else {
      PrefixDetermined(source, b, a, |b|);
      SpreadOfPrefix(a, |b|);
    }
  }

  lemma {:induction false} PrefixDetermined(source: seq<nat>, a: seq<nat>, b: seq<nat>, k: nat)
    requires Tiles(a) && Tiles(b) && LeastStripes(source, a) && LeastStripes(source, b) && k <= |a| && k <= |b|
    ensures a[..k] == b[..k]
  {
    hide LeastStripe, Spread;
    if k == 0 {
    } else {
      PrefixDetermined(source, a, b, k - 1);
      assert Place(a, k - 1) == Place(b, k - 1);
      LeastIsUnique(source, Place(a, k - 1), a[k - 1], b[k - 1]);
    }
  }

  lemma {:induction false} SpreadOfPrefix(tiles: seq<nat>, k: nat)
    requires Tiles(tiles) && k < |tiles|
    ensures |Spread(tiles[..k])| < |Spread(tiles)|
  {
    var n := |tiles| - 1;
    if k == n {
    } else {
      SpreadOfPrefix(tiles[..n], k);
      assert tiles[..n][..k] == tiles[..k];
    }
  }

  /** Sets the same width in a stretch. */
  method Fill(lengths: array<nat>, from: nat, to: nat, w: nat)
    requires from <= to <= lengths.Length
    modifies lengths
    ensures forall i :: 0 <= i < lengths.Length ==> lengths[i] == if from <= i < to then w else old(lengths[i])
  {
    for i := from to to
      invariant forall j :: 0 <= j < lengths.Length ==> lengths[j] == if from <= j < i then w else old(lengths[j])
    {
      lengths[i] := w;
    }
  }

  function Max(a: nat, b: nat): nat {
    if a > b then a else b
  }

  /** The width each integer needs, with room behind the last one, widened to what its group of four needs. */
  method InitialLengths(source: seq<nat>) returns (lengths: array<nat>)
    requires AllWords(source)
    ensures fresh(lengths) && AllFit(lengths[..], source) && Grouped(lengths[..], |source|, 0)
    ensures Trying(lengths[..], source, 0)
  {
    var n := |source|;
    lengths := NeededLengths(source);
    ghost var needed := lengths[..];
    var at := 0;
    while at < n + 4
      invariant at % 4 == 0 && at < n + 8
      invariant Widened(needed, lengths[..], at)
    {
      WidenGroup(lengths, at, needed);
      at := at + 4;
    }
    WidenedFits(source, needed, lengths[..], at);
    BeganTrying(lengths[..], source);
  }

  method NeededLengths(source: seq<nat>) returns (lengths: array<nat>)
    ensures fresh(lengths) && lengths.Length == |source| + WASTAGE
    ensures forall j :: 0 <= j < |source| ==> lengths[j] == BitsNeededFor(source[j])
    ensures forall j :: |source| <= j < lengths.Length ==> lengths[j] == 0
  {
    var n := |source|;
    lengths := new nat[n + WASTAGE];
    for i := 0 to n
      invariant forall j :: 0 <= j < i ==> lengths[j] == BitsNeededFor(source[j])
    {
      lengths[i] := BitsNeededFor(source[i]);
    }
    Fill(lengths, n, n + WASTAGE, 0);
  }

  /** Groups before a place share the largest of their widths; the rest is untouched. */
  ghost predicate Widened(needed: seq<nat>, lengths: seq<nat>, at: nat) {
    && |needed| == |lengths|
    && (forall j :: 0 <= j < |needed| ==> IsWidth(needed[j]) && needed[j] <= 32)
    && (forall j :: 0 <= j < |lengths| ==> IsWidth(lengths[j]) && needed[j] <= lengths[j] <= 32)
    && (forall j :: at <= j < |lengths| ==> lengths[j] == needed[j])
    && (forall g :: 0 <= g < at && g % 4 == 0 && g + 4 <= |lengths| ==> SameFour(lengths, g))
    && forall g :: 0 <= g < at && g % 4 == 0 && g + 4 <= |lengths| ==> WidestOfFour(needed, lengths[g], g)
  }

  ghost predicate WidestOfFour(needed: seq<nat>, w: nat, g: nat)
    requires g + 4 <= |needed|
  {
    w == needed[g] || w == needed[g + 1] || w == needed[g + 2] || w == needed[g + 3]
  }

  method WidenGroup(lengths: array<nat>, at: nat, ghost needed: seq<nat>)
    requires Widened(needed, lengths[..], at) && at % 4 == 0 && at + 4 <= lengths.Length
    modifies lengths
    ensures Widened(needed, lengths[..], at + 4)
  {
    ghost var before := lengths[..];
    var widest := Max(Max(lengths[at], lengths[at + 1]), Max(lengths[at + 2], lengths[at + 3]));
    lengths[at], lengths[at + 1], lengths[at + 2], lengths[at + 3] := widest, widest, widest, widest;
    GroupsKept(before, lengths[..], at);
    forall g | 0 <= g < at + 4 && g % 4 == 0 && g + 4 <= lengths.Length ensures WidestOfFour(needed, lengths[g], g) {
      if g < at { assert WidestOfFour(needed, before[g], g); }
    }
  }

  /** Groups in front of a changed one stay as they are. */
  lemma GroupsKept(a: seq<nat>, b: seq<nat>, at: nat)
    requires |a| == |b| && at % 4 == 0 && at + 4 <= |b| && forall j :: 0 <= j < at ==> a[j] == b[j]
    requires forall g :: 0 <= g < at && g % 4 == 0 && g + 4 <= |a| ==> SameFour(a, g)
    requires SameFour(b, at)
    ensures forall g :: 0 <= g < at + 4 && g % 4 == 0 && g + 4 <= |b| ==> SameFour(b, g)
  {
    forall g | 0 <= g < at + 4 && g % 4 == 0 && g + 4 <= |b| ensures SameFour(b, g) {
      if g < at { assert SameFour(a, g); }
    }
  }

  lemma WidenedFits(source: seq<nat>, needed: seq<nat>, lengths: seq<nat>, at: nat)
    requires Widened(needed, lengths, at) && |needed| == |source| + WASTAGE && at >= |source| + 4
    requires AllWords(source) && forall i :: 0 <= i < |source| ==> needed[i] == BitsNeededFor(source[i])
    requires forall i :: |source| <= i < |needed| ==> needed[i] == 0
    ensures AllFit(lengths, source) && Grouped(lengths, |source|, 0)
    ensures forall g :: 0 <= g < |source| && g % 4 == 0 ==> NeedsExactly(source, g, lengths[g])
  {
    hide Pow2, BitsNeededFor, Fits;
    forall i | 0 <= i < |source| ensures Fits(lengths[i], source[i]) {
      BitsNeededIsLeast(source[i], lengths[i]);
    }
    forall g | 0 <= g < |source| && g % 4 == 0 ensures NeedsExactly(source, g, lengths[g]) {
      assert WidestOfFour(needed, lengths[g], g);
      var j :| g <= j < g + 4 && needed[j] == lengths[g];
      if j >= |source| {
        assert BitsNeededFor(source[g]) == needed[g] == lengths[g];
      } else {
        assert BitsNeededFor(source[j]) == lengths[g];
      }
    }
  }

  lemma BeganTrying(lengths: seq<nat>, source: seq<nat>)
    requires |lengths| == |source| + WASTAGE
    requires forall g :: 0 <= g < |source| && g % 4 == 0 ==> NeedsExactly(source, g, lengths[g])
    ensures Trying(lengths, source, 0)
  {
    hide NeedsExactly;
    if source == [] {
      NothingLeft(source, lengths[0]);
    } else {
      assert NeedsExactly(source, 0, lengths[0]);
      FirstGroup(lengths, source, 0, |source|);
    }
  }

  // ----- promotion -----

  /** The state between two steps: stripes up to a place, and behind it either groups of four or the last resort. */
  ghost predicate Promoting(lengths: seq<nat>, source: seq<nat>, at: nat, tiles: seq<nat>) {
    && AllFit(lengths, source) && AllWords(source) && at <= |source|
    && TiledUpTo(lengths, at, tiles)
    && ((at % 4 == 0 && Grouped(lengths, |source|, at)) || LastResort(lengths, |source|, at))
  }

  ghost predicate Filled(before: seq<nat>, after: seq<nat>, from: nat, to: nat, w: nat) {
    |after| == |before| && forall i :: 0 <= i < |after| ==> after[i] == if from <= i < to then w else before[i]
  }

  /** Widening whole groups keeps the state. */
  lemma WidenKeeps(before: seq<nat>, after: seq<nat>, source: seq<nat>, at: nat, to: nat, w: nat, tiles: seq<nat>)
    requires Promoting(before, source, at, tiles) && !LastResort(before, |source|, at)
    requires at <= to <= |before| && to % 4 == 0 && IsWidth(w) && w <= 32
    requires forall i :: at <= i < to ==> before[i] <= w
    requires Filled(before, after, at, to, w)
    ensures Promoting(after, source, at, tiles) && at % 4 == 0 && Grouped(after, |source|, at)
  {
    hide Fits, Spread, Pow2;
    assert after[..at] == before[..at];
    forall i | 0 <= i < |source| ensures Fits(after[i], source[i]) {
      if at <= i < to { FitsWider(source[i], before[i], w); }
    }
    forall g | at <= g < |source| && g % 4 == 0 ensures SameFour(after, g) {
      assert SameFour(before, g);
    }
  }

  /** A stretch as long as a stripe, filled with its width, is one more stripe. */
  lemma TakeKeeps(lengths: seq<nat>, source: seq<nat>, at: nat, w: nat, tiles: seq<nat>)
    requires Promoting(lengths, source, at, tiles) && at % 4 == 0 && Grouped(lengths, |source|, at)
    requires IsWidth(w) && w <= 32 && at + Size(w) <= |source|
    requires forall i :: at <= i < at + Size(w) ==> lengths[i] == w
    ensures Promoting(lengths, source, at + Size(w), tiles + [w])
  {
    hide Fits, Spread, Pow2;
    SpreadMore(tiles, w);
    assert lengths[..at + Size(w)] == lengths[..at] + Repeat(w, Size(w));
  }

  /** The widest of some lengths. */
  method Largest(lengths: array<nat>, at: nat, count: nat) returns (largest: nat)
    requires at + count <= lengths.Length
    ensures forall i :: at <= i < at + count ==> lengths[i] <= largest
    ensures largest == 0 || exists i :: at <= i < at + count && lengths[i] == largest
  {
    largest := 0;
    for block := 0 to count
      invariant forall i :: at <= i < at + block ==> lengths[i] <= largest
      invariant largest == 0 || exists i :: at <= i < at + block && lengths[i] == largest
    {
      largest := Max(largest, lengths[at + block]);
    }
  }

  /** Fewer than sixteen integers left: they are widened together. */
  method WidenTail(lengths: array<nat>, source: seq<nat>, at: nat, ghost tiles: seq<nat>)
    requires Promoting(lengths[..], source, at, tiles) && at < |source|
    modifies lengths
    ensures Promoting(lengths[..], source, at, tiles) && lengths[at] >= old(lengths[at])
    ensures |source| - at >= 4 ==> at % 4 == 0 && Grouped(lengths[..], |source|, at)
    ensures old(Trying(lengths[..], source, at)) ==> Trying(lengths[..], source, at)
  {
    hide Trying;
    var left := |source| - at;
    if left < 4 {
      var largest := Largest(lengths, at, 8);
      if largest <= 8 {
        WidenTo(lengths, source, at, 8, 8, tiles);
      } else if largest <= 16 {
        WidenTo(lengths, source, at, 8, 16, tiles);
      } else if largest <= 32 {
        WidenTo(lengths, source, at, 8, 32, tiles);
      }
    } else if left < 8 {
      // the source follows up with the same test again, for width 16, which is never reached
      var largest := Largest(lengths, at, 8);
      if largest <= 8 {
        WidenTo(lengths, source, at, 8, 8, tiles);
      }
    } else if left < 16 {
      var largest := Largest(lengths, at, 16);
      if largest <= 8 {
        WidenTo(lengths, source, at, 16, 8, tiles);
      }
    }
  }

  method WidenTo(lengths: array<nat>, source: seq<nat>, at: nat, count: nat, w: nat, ghost tiles: seq<nat>)
    requires Promoting(lengths[..], source, at, tiles) && at < |source| && count % 4 == 0 && 0 < count <= 16
    requires IsWidth(w) && w <= 32 && forall i :: at <= i < at + count ==> i < lengths.Length && lengths[i] <= w
    modifies lengths
    ensures Promoting(lengths[..], source, at, tiles) && lengths[at] >= old(lengths[at]) && lengths[at] == w
    ensures at % 4 == 0 && Grouped(lengths[..], |source|, at)
    ensures (|source| - at < 4 || (w == 8 && |source| - at < 16)) && old(Trying(lengths[..], source, at)) ==>
              Trying(lengths[..], source, at)
  {
    hide Promoting, Grouped, Trying;
    ghost var before := lengths[..];
    PromotingFacts(before, source, at, tiles);
    assert before[at] <= w;
    Fill(lengths, at, at + count, w);
    WidenKeeps(before, lengths[..], source, at, at + count, w, tiles);
    if (|source| - at < 4 || (w == 8 && |source| - at < 16)) && Trying(before, source, at) {
      WidenKeepsTrying(before, lengths[..], source, at, at + count, w);
    }
  }

  lemma PromotingFacts(lengths: seq<nat>, source: seq<nat>, at: nat, tiles: seq<nat>)
    requires Promoting(lengths, source, at, tiles)
    ensures |lengths| == |source| + WASTAGE
    ensures at < |source| ==> IsWidth(lengths[at])
    ensures at < |source| && lengths[at] <= 32 ==>
              !LastResort(lengths, |source|, at) && at % 4 == 0 && Grouped(lengths, |source|, at)
    ensures at < |source| && lengths[at] > 32 ==> lengths[at] == 128 && LastResort(lengths, |source|, at)
    ensures at < |source| && lengths[at] <= 32 ==> SameFour(lengths, at)
  {}

  /** Promotes the four integers at the place if any group of a full stripe is wider than they are. */
  method PromoteIfMixed(lengths: array<nat>, source: seq<nat>, at: nat, w: nat, ghost tiles: seq<nat>)
    requires Promoting(lengths[..], source, at, tiles) && at < |source| && lengths[at] == w <= 32
    requires at + Size(w) <= |source|
    modifies lengths
    ensures Promoting(lengths[..], source, at, tiles) && at % 4 == 0 && Grouped(lengths[..], |source|, at)
    ensures lengths[at] == w || (w < 32 && lengths[at] == Promoted(w))
    ensures lengths[at] == w ==> forall i :: at <= i < at + Size(w) ==> lengths[i] <= w
    ensures old(Trying(lengths[..], source, at)) ==> Trying(lengths[..], source, at)
  {
    hide Promoting, Grouped, AllFit, TiledUpTo, Trying, NoneNarrower, Possible;
    ghost var start := lengths[..];
    PromotingFacts(start, source, at, tiles);
    ghost var trying := Trying(start, source, at);
    var block := 0;
    while block < Size(w)
      invariant block % 4 == 0 && block <= Size(w)
      invariant Promoting(lengths[..], source, at, tiles) && at % 4 == 0 && Grouped(lengths[..], |source|, at)
      invariant forall i :: at + 4 <= i < lengths.Length ==> lengths[i] == start[i]
      invariant lengths[at] == w || (w < 32 && lengths[at] == Promoted(w))
      invariant lengths[at] == w ==> lengths[..] == start
      invariant lengths[at] == w ==> forall i :: at <= i < at + block && i % 4 == 0 ==> lengths[i] <= w
      invariant block == 0 ==> lengths[at] == w
      invariant trying ==> Trying(lengths[..], source, at)
    {
      if lengths[at + block] > w {
        GroupedBelow32(lengths[..], |source|, at, at + block);
        if trying && block > 0 {
          TryingFirst(start, source, at);
          MixedIsImpossible(start, source, at, w, at + block);
        }
        PromoteFour(lengths, source, at, w, tiles);
      }
      block := block + 4;
    }
    if lengths[at] == w {
      GroupsBelow(lengths[..], source, at, w);
    }
  }

  lemma TryingFirst(lengths: seq<nat>, source: seq<nat>, at: nat)
    requires |lengths| == |source| + WASTAGE && at <= |source| && Trying(lengths, source, at)
    ensures NoneNarrower(source, at, lengths[at])
  {}

  /** If the first of every group is at most w, all are. */
  lemma GroupsBelow(lengths: seq<nat>, source: seq<nat>, at: nat, w: nat)
    requires |lengths| == |source| + WASTAGE && Grouped(lengths, |source|, at) && at % 4 == 0 && IsWidth(w)
    requires w != 128 && at + Size(w) <= |source|
    requires forall i :: at <= i < at + Size(w) && i % 4 == 0 ==> lengths[i] <= w
    ensures forall i :: at <= i < at + Size(w) ==> lengths[i] <= w
  {
    forall i | at <= i < at + Size(w) ensures lengths[i] <= w {
      var g := i - i % 4;
      assert SameFour(lengths, g) && lengths[g] <= w;
    }
  }

  lemma GroupedBelow32(lengths: seq<nat>, n: nat, at: nat, i: nat)
    requires |lengths| == n + WASTAGE && Grouped(lengths, n, at) && at <= i < |lengths|
    ensures lengths[i] <= 32
  {}

  method PromoteFour(lengths: array<nat>, source: seq<nat>, at: nat, w: nat, ghost tiles: seq<nat>)
    requires Promoting(lengths[..], source, at, tiles) && at < |source|
    requires lengths[at] == w < 32 || (w < 32 && IsWidth(w) && lengths[at] == Promoted(w))
    modifies lengths
    ensures Promoting(lengths[..], source, at, tiles) && at % 4 == 0 && Grouped(lengths[..], |source|, at)
    ensures forall i :: at + 4 <= i < lengths.Length ==> lengths[i] == old(lengths[i])
    ensures w < 32 && lengths[at] == Promoted(w)
    ensures old(Trying(lengths[..], source, at)) && NoneNarrower(source, at, w) && !Possible(source, at, w) ==>
              Trying(lengths[..], source, at)
  {
    hide Promoting, Grouped, Trying, NoneNarrower, Possible;
    ghost var before := lengths[..];
    PromotingFacts(before, source, at, tiles);
    Fill(lengths, at, at + 4, Promoted(w));
    WidenKeeps(before, lengths[..], source, at, at + 4, Promoted(w), tiles);
    if Trying(before, source, at) && NoneNarrower(source, at, w) && !Possible(source, at, w) {
      PromoteKeepsTrying(before, lengths[..], source, at, w);
    }
  }

  /** All stripes hold as many integers as their width allows. */
  ghost predicate FullStripes(tiles: seq<nat>) {
    forall k :: 0 <= k < |tiles| ==> tiles[k] != 128
  }

  /** Full stripes, and behind them fewer than four single integers. */
  ghost predicate ShortFrom(tiles: seq<nat>, full: nat) {
    && full <= |tiles| < full + 4 && FullStripes(tiles[..full])
    && forall k :: full <= k < |tiles| ==> tiles[k] == 128
  }

  /** One pass over the switch: the integers at the place are promoted, or a stripe is taken. */
  method Step(lengths: array<nat>, source: seq<nat>, at: nat, ghost tiles: seq<nat>)
    returns (next: nat, ghost more: seq<nat>)
    requires Promoting(lengths[..], source, at, tiles) && at < |source| && FullStripes(tiles)
    requires Trying(lengths[..], source, at) && Tiles(tiles) && LeastStripes(source, tiles)
    modifies lengths
    ensures Promoting(lengths[..], source, next, more)
    ensures Tiles(more) && LeastStripes(source, more)
    ensures next < |source| ==> Trying(lengths[..], source, next)
    ensures FullStripes(more) || (next == |source| && ShortFrom(more, |tiles|))
    ensures next > at || (next == at && lengths[at] > old(lengths[at]))
  {
    hide Promoting, Grouped, LastResort, Trying, LeastStripes, NoneNarrower, Possible, Spread, LeastStripe;
    PromotingFacts(lengths[..], source, at, tiles);
    TryingFirst(lengths[..], source, at);
    var w := lengths[at];
    var left := |source| - at;
    if w == 128 {
      more := TakeLast(lengths[..], source, at, tiles);
      next := |source|;
    } else if left < Size(w) {
      if w == 32 {
        LastFew(lengths, source, at, tiles);
      } else {
        TooLong(source, at, w);
        PromoteFour(lengths, source, at, w, tiles);
      }
      next, more := at, tiles;
    } else {
      PromoteIfMixed(lengths, source, at, w, tiles);
      if lengths[at] == w {
        ghost var before := lengths[..];
        PromotingFacts(before, source, at, tiles);
        Fill(lengths, at, at + Size(w), w);
        WidenKeeps(before, lengths[..], source, at, at + Size(w), w, tiles);
        TakeKeeps(lengths[..], source, at, w, tiles);
        LeastTaken(before, lengths[..], source, at, w, tiles);
        next, more := at + Size(w), tiles + [w];
      } else {
        next, more := at, tiles;
      }
    }
  }

  lemma TooLong(source: seq<nat>, at: nat, w: nat)
    requires IsWidth(w) && at + Size(w) > |source|
    ensures !Possible(source, at, w)
  {}

  /** The stripe taken is the least, and the search begins anew behind it. */
  lemma LeastTaken(before: seq<nat>, after: seq<nat>, source: seq<nat>, at: nat, w: nat, tiles: seq<nat>)
    requires Promoting(before, source, at, tiles) && LeastStripes(source, tiles) && Trying(before, source, at)
    requires IsWidth(w) && w <= 32 && before[at] == w && at % 4 == 0 && at + Size(w) <= |source|
    requires forall i :: at <= i < at + Size(w) ==> before[i] <= w
    requires Filled(before, after, at, at + Size(w), w)
    ensures Tiles(tiles + [w]) && LeastStripes(source, tiles + [w])
    ensures at + Size(w) < |source| ==> Trying(after, source, at + Size(w))
  {
    hide Spread, Fits, Pow2, BitsNeededFor, Size, Grouped, LastResort, NoneNarrower, Possible, GroupTight;
    TryingFirst(before, source, at);
    FullIsPossible(before, source, at, w);
    assert |before[..at]| == |Spread(tiles)|;
    MoreLeast(source, tiles, w);
    if at + Size(w) < |source| {
      TryingBehind(before, after, source, at, at + Size(w), w);
    }
  }

  /** Fewer than four integers that need 32 bits: the last resort. */
  method LastFew(lengths: array<nat>, source: seq<nat>, at: nat, ghost tiles: seq<nat>)
    requires Promoting(lengths[..], source, at, tiles) && at < |source| < at + 4 && lengths[at] == 32
    modifies lengths
    ensures Promoting(lengths[..], source, at, tiles) && lengths[at] == 128
    ensures Trying(lengths[..], source, at)
  {
    NoneFits(source, at);
    ghost var before := lengths[..];
    Fill(lengths, at, |source|, 128);
    assert lengths[..at] == before[..at];
    WordFits(source);
  }

  /** Where fewer than four integers are left no full stripe is possible. */
  lemma NoneFits(source: seq<nat>, at: nat)
    requires at <= |source| < at + 4
    ensures NoneNarrower(source, at, 128)
  {
    forall v | 0 <= v < 128 && IsWidth(v) ensures !Possible(source, at, v) {
      if Possible(source, at, v) { LongStripes(source, at, v); }
    }
  }

  lemma WordFits(source: seq<nat>)
    requires AllWords(source)
    ensures forall i :: 0 <= i < |source| ==> Fits(128, source[i])
  {}

  /** The last integers are stripes of one. */
  lemma TakeLast(lengths: seq<nat>, source: seq<nat>, at: nat, tiles: seq<nat>) returns (more: seq<nat>)
    requires Promoting(lengths, source, at, tiles) && at < |source| && lengths[at] == 128 && FullStripes(tiles)
    ensures Promoting(lengths, source, |source|, more) && ShortFrom(more, |tiles|)
    ensures Tiles(tiles) && Tiles(more) && (LeastStripes(source, tiles) ==> LeastStripes(source, more))
  {
    hide Fits, Spread, LeastStripes;
    ghost var least := LeastStripes(source, tiles);
    more := tiles;
    assert |lengths[..at]| == |Spread(tiles)|;
    for i := at to |source|
      invariant Tiles(more) && |Spread(more)| == i && (least ==> LeastStripes(source, more))
      invariant |more| == |tiles| + i - at && more[..|tiles|] == tiles && forall k :: |tiles| <= k < |more| ==>
                  more[k] == 128
      invariant Tiles(more) && lengths[..i] == Spread(more)
    {
      SpreadMore(more, 128);
      assert lengths[..i + 1] == lengths[..i] + Repeat(128, 1);
      NoneFits(source, i);
      if least { MoreLeast(source, more, 128); }
      more := more + [128];
    }
  }

  /** All widths, such that the whole input is tiled by stripes, every stripe's width fits its integers, and no
      narrower stripe may begin where a stripe does. */
  method ComputeLengths(source: seq<nat>) returns (lengths: array<nat>, ghost tiles: seq<nat>)
    requires AllWords(source)
    ensures fresh(lengths) && AllFit(lengths[..], source) && Tiles(tiles)
    ensures lengths[..|source|] == Spread(tiles)
    ensures exists full :: ShortFrom(tiles, full)
    ensures LeastStripes(source, tiles)
  {
    hide Promoting, AllFit, Grouped, AllWords, Spread, Trying, LeastStripe;
    lengths := InitialLengths(source);
    tiles := [];
    Began(lengths[..], source);
    var at := 0;
    while at < |source|
      invariant at <= |source| && Promoting(lengths[..], source, at, tiles)
      invariant lengths.Length == |source| + WASTAGE
      invariant FullStripes(tiles) || (at == |source| && exists full :: ShortFrom(tiles, full))
      invariant Tiles(tiles) && LeastStripes(source, tiles) && (at < |source| ==> Trying(lengths[..], source, at))
      decreases |source| - at, 128 - lengths[at] as int
    {
      PromotingFacts(lengths[..], source, at, tiles);
      WidenTail(lengths, source, at, tiles);
      PromotingFacts(lengths[..], source, at, tiles);
      at, tiles := Step(lengths, source, at, tiles);
      Bounded(lengths[..], source, at, tiles);
    }
    Finished(lengths[..], source, tiles);
    if FullStripes(tiles) {
      assert tiles[..|tiles|] == tiles;
      assert ShortFrom(tiles, |tiles|);
    }
  }

  lemma Began(lengths: seq<nat>, source: seq<nat>)
    requires AllWords(source) && AllFit(lengths, source) && Grouped(lengths, |source|, 0)
    ensures Promoting(lengths, source, 0, []) && |lengths| == |source| + WASTAGE
  {}

  lemma Bounded(lengths: seq<nat>, source: seq<nat>, at: nat, tiles: seq<nat>)
    requires Promoting(lengths, source, at, tiles)
    ensures at <= |source| && at < |lengths| && lengths[at] <= 128
  {}

  lemma {:induction false} Finished(lengths: seq<nat>, source: seq<nat>, tiles: seq<nat>)
    requires Promoting(lengths, source, |source|, tiles)
    ensures AllFit(lengths, source) && Tiles(tiles) && |lengths| >= |source| && lengths[..|source|] == Spread(tiles)
  {}
}
