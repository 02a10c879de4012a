/** One QMX stripe as bytes: what the encoder's cases write and the decoder's cases read back. */
module QmxStripes {
  import opened Arith
  import opened Bits
  import opened ByteStrings
  import opened QmxLanes
  import opened QmxWidths

  /** Widths whose stripe is one word of groups. */
  predicate IsPlain(w: nat) {
    1 <= w <= 6 || w == 10
  }

  predicate IsSplit(w: nat) {
    w == 7 || w == 9 || w == 12 || w == 21
  }

  function Groups(w: nat): (g: nat)
    requires IsPlain(w)
    ensures g * w <= 32 && 4 * g == Size(w)
  {
    match w
    case 1 => 32
    case 2 => 16
    case 3 => 10
    case 4 => 8
    case 5 => 6
    case 6 => 5
    case _ => 3
  }

  function SplitOf(w: nat): (p: Split)
    requires IsSplit(w)
    ensures Sound(p) && p.w == w && 4 * (p.first + p.second) == Size(w)
  {
    match w
    case 7 => Split(7, 5, 4, 3, 4)
    case 9 => Split(9, 4, 5, 4, 3)
    case 12 => Split(12, 3, 8, 8, 2)
    case _ => Split(21, 2, 11, 11, 1)
  }

  function StripeBytes(w: nat): nat
    requires IsWidth(w)
  {
    if w == 0 then 0 else if w == 128 then 4 else if IsSplit(w) then 32 else 16
  }

  ghost predicate AllFits(w: nat, vs: seq<nat>) {
    forall i :: 0 <= i < |vs| ==> Fits(w, vs[i])
  }

  /** The bytes hold the stripe. */
  ghost predicate StripeStored(bytes: seq<nat>, w: nat, vs: seq<nat>)
    requires IsWidth(w)
  {
    && |vs| == Size(w) && AllFits(w, vs) && |bytes| == StripeBytes(w) && AllBytes(bytes)
    && (w != 0 ==>
          if w == 8 then bytes == vs
          else if w == 16 then HalvesStored(bytes, vs)
          else if IsPlain(w) then Packs(WordsOf(bytes), vs, w, Groups(w))
          else if IsSplit(w) then PacksSplit(WordsOf(bytes[..16]), WordsOf(bytes[16..]), vs, SplitOf(w))
          else WordsOf(bytes) == vs)
  }

  ghost predicate HalvesStored(bytes: seq<nat>, vs: seq<nat>) {
    |bytes| == 2 * |vs| && forall i :: 0 <= i < |vs| ==> PairAt(bytes, vs, i)
  }

  ghost predicate PairAt(bytes: seq<nat>, vs: seq<nat>, i: nat)
    requires |bytes| == 2 * |vs| && i < |vs|
  {
    bytes[2 * i] + Shl(bytes[2 * i + 1], 8) == vs[i]
  }

  lemma FitsIn(w: nat, vs: seq<nat>)
    requires IsWidth(w) && AllFits(w, vs)
    ensures 0 < w < 128 ==> AllFitIn(vs, w)
    ensures w == 128 ==> AllWords(vs)
  {}

  method EncodeStripe(w: nat, vs: seq<nat>) returns (bytes: seq<nat>)
    requires IsWidth(w) && |vs| == Size(w) && AllFits(w, vs)
    ensures StripeStored(bytes, w, vs)
  {
    hide AllFits, Packs, PacksSplit, WordsOf, BytesOf, Pow2;
    FitsIn(w, vs);
    if w == 0 {
      bytes := [];
    } else if w == 8 {
      bytes := EncodeBytes(vs);
    } else if w == 16 {
      bytes := EncodeHalves(vs);
    } else if IsPlain(w) {
      NothingTrimmed(vs, w, Groups(w));
      var words := Pack(vs, w, Groups(w), vs);
      bytes := BytesOf(words);
      PlainWords(words, vs, w);
    } else if IsSplit(w) {
      var first, second := PackSplit(vs, SplitOf(w));
      bytes := BytesOf(first) + BytesOf(second);
      SplitWords(first, second, vs, w);
    } else {
      bytes := BytesOf(vs);
      WholeWords(vs);
    }
  }

  lemma {:induction false} PlainWords(words: seq<nat>, vs: seq<nat>, w: nat)
    requires IsPlain(w) && |vs| == Size(w) && Packs(words, vs, w, Groups(w)) && AllWords(words)
    ensures |BytesOf(words)| == 16 && WordsOf(BytesOf(words)) == words && AllBytes(BytesOf(words))
  {
    hide Lane, BytesOf, WordsOf, Pow2, BytesBits;
    BytesOfBits(words);
    WordsOfTheirBytes(words);
  }

  lemma {:induction false} SplitWords(first: seq<nat>, second: seq<nat>, vs: seq<nat>, w: nat)
    requires IsSplit(w) && |vs| == Size(w) && PacksSplit(first, second, vs, SplitOf(w))
    requires AllWords(first) && AllWords(second)
    ensures var bytes := BytesOf(first) + BytesOf(second);
            |bytes| == 32 && WordsOf(bytes[..16]) == first && WordsOf(bytes[16..]) == second && AllBytes(bytes)
  {
    hide Lane, BytesOf, WordsOf, Pow2, BytesBits, Cut, Spill, SecondLane;
    BytesOfBits(first);
    BytesOfBits(second);
    WordsOfTheirBytes(first);
    WordsOfTheirBytes(second);
    var bytes := BytesOf(first) + BytesOf(second);
    assert bytes[..16] == BytesOf(first) && bytes[16..] == BytesOf(second);
  }

  lemma {:induction false} WholeWords(vs: seq<nat>)
    requires AllWords(vs)
    ensures WordsOf(BytesOf(vs)) == vs && AllBytes(BytesOf(vs))
  {
    hide BytesOf, WordsOf, Pow2, BytesBits;
    BytesOfBits(vs);
    WordsOfTheirBytes(vs);
  }

  method EncodeBytes(vs: seq<nat>) returns (bytes: seq<nat>)
    requires AllFitIn(vs, 8)
    ensures bytes == vs && AllBytes(bytes)
  {
    hide Low, Pow2;
    bytes := [];
    for instance := 0 to |vs|
      invariant bytes == vs[..instance] && AllBytes(bytes)
    {
      LowOfSmall(vs[instance], 8);
      LowIsByte(vs[instance]);
      bytes := bytes + [Low(vs[instance], 8)];
    }
  }

  method EncodeHalves(vs: seq<nat>) returns (bytes: seq<nat>)
    requires AllFitIn(vs, 16)
    ensures HalvesStored(bytes, vs) && AllBytes(bytes)
  {
    hide Low, Shr, Shl, Pow2, HalvesStored;
    bytes := [];
    NoHalves();
    for instance := 0 to |vs|
      invariant |bytes| == 2 * instance && HalvesStored(bytes, vs[..instance]) && AllBytes(bytes)
    {
      var v := vs[instance];
      LowIsByte(v);
      LowIsByte(Shr(v, 8));
      HalfParts(v);
      HalvesMore(bytes, vs[..instance], Low(v, 8), Low(Shr(v, 8), 8), v);
      assert vs[..instance + 1] == vs[..instance] + [v];
      bytes := bytes + [Low(v, 8), Low(Shr(v, 8), 8)];
    }
    assert vs[..|vs|] == vs;
  }

  lemma NoHalves()
    ensures HalvesStored([], [])
  {}

  lemma {:induction false} HalfParts(v: nat)
    requires v < Pow2(16)
    ensures Low(v, 8) + Shl(Low(Shr(v, 8), 8), 8) == v
  {
    ShrSmall(v, 8, 8);
    LowOfSmall(Shr(v, 8), 8);
    LowPlusHigh(v, 8);
  }

  lemma {:induction false} HalvesMore(bytes: seq<nat>, vs: seq<nat>, a: nat, b: nat, v: nat)
    requires HalvesStored(bytes, vs) && a + Shl(b, 8) == v
    ensures HalvesStored(bytes + [a, b], vs + [v])
  {
    hide Shl;
    forall i | 0 <= i < |vs| + 1 ensures PairAt(bytes + [a, b], vs + [v], i) {
      if i < |vs| { assert PairAt(bytes, vs, i); }
    }
  }

  /** Reads a stripe from a place in the data. */
  method DecodeStripe(data: seq<nat>, at: nat, w: nat, ghost vs: seq<nat>) returns (out: seq<nat>)
    requires IsWidth(w) && at + StripeBytes(w) <= |data| && StripeStored(data[at..at + StripeBytes(w)], w, vs)
    ensures out == vs
  {
    hide AllFits, Packs, PacksSplit, WordsOf, Pow2, HalvesStored, Low, Shl;
    FitsIn(w, vs);
    var bytes := data[at..at + StripeBytes(w)];
    if w == 0 {
      out := Ones(vs);
    } else if w == 8 {
      out := bytes;
    } else if w == 16 {
      out := DecodeHalves(bytes, vs);
    } else if IsPlain(w) {
      out := Unpack(WordsOf(bytes), w, Groups(w), vs);
    } else if IsSplit(w) {
      out := UnpackSplit(WordsOf(bytes[..16]), WordsOf(bytes[16..]), SplitOf(w), vs);
    } else {
      out := WordsOf(bytes);
    }
  }

  method Ones(ghost vs: seq<nat>) returns (out: seq<nat>)
    requires |vs| == 256 && AllFits(0, vs)
    ensures out == vs
  {
    out := seq(256, i => 1);
  }

  method DecodeHalves(bytes: seq<nat>, ghost vs: seq<nat>) returns (out: seq<nat>)
    requires HalvesStored(bytes, vs)
    ensures out == vs
  {
    hide Shl;
    out := [];
    var i := 0;
    while i < |bytes|
      invariant i % 2 == 0 && i <= |bytes| && out == vs[..i / 2]
      decreases |bytes| - i
    {
      assert PairAt(bytes, vs, i / 2);
      out := out + [bytes[i] + Shl(bytes[i + 1], 8)];
      i := i + 2;
    }
  }
}
