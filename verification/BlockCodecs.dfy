/** `TightVariableByte` and `interpolative_block`. */
module BlockCodecs {
  import opened Arith
  import opened Bits
  import opened ByteStrings
  import opened InterpolativeCoding
  import opened Slices

  const SENTINEL := 0xFFFF_FFFF

  // ----- variable bytes -----

  /** Seven bits a byte, lowest first; the last byte carries the high bit. */
  function VByte(v: nat): (r: seq<nat>)
    ensures r != []
  {
    if v < 128 then [v + 128] else [v % 128] + VByte(v / 128)
  }

  function VBytes(vs: seq<nat>): seq<nat> {
    if vs == [] then [] else VBytes(vs[..|vs| - 1]) + VByte(vs[|vs| - 1])
  }

  function Extract7Bits(val: nat, i: nat): nat {
    Low(Shr(val, 7 * i), 7)
  }

  function Extract7BitsMaskless(val: nat, i: nat): nat {
    Low(Shr(val, 7 * i), 8)
  }

  lemma Sevens()
    ensures Pow2(0) == 1 && Pow2(7) == 128 && Pow2(8) == 256 && Pow2(14) == 0x4000
    ensures Pow2(21) == 0x20_0000 && Pow2(28) == 0x1000_0000
  {
    assert Pow2(7) == 128;
    Pow2Adds(7, 7);
    Pow2Adds(14, 7);
    Pow2Adds(14, 14);
  }

  /** The extracted pieces are the base-128 digits. */
  lemma {:induction false} ExtractIsDigit(val: nat, i: nat)
    ensures Extract7Bits(val, i) == val / Pow2(7 * i) % 128
    ensures val / Pow2(7 * i) < 128 ==> Or(Extract7BitsMaskless(val, i), 128) == val / Pow2(7 * i) + 128
  {
    hide Or, Low, Shr;
    var d := val / Pow2(7 * i);
    Sevens();
    ShrIsDivision(val, 7 * i);
    ShrIsDivision(d, 7);
    ShrIsDivision(d, 8);
    if d < 128 {
      HighBit(d);
    }
  }

  lemma {:induction false} HighBit(x: nat)
    requires x < 128
    ensures Or(x, 128) == x + 128
  {
    Sevens();
    ShlIsTimes(1, 7);
    OrOverClear(x, 1, 7);
  }

  lemma {:induction false} VByteDigits(val: nat)
    ensures val < 0x80 ==> VByte(val) == [val + 128]
    ensures 0x80 <= val < 0x4000 ==> VByte(val) == [val % 128, val / 0x80 + 128]
    ensures 0x4000 <= val < 0x20_0000 ==> VByte(val) == [val % 128, val / 0x80 % 128, val / 0x4000 + 128]
    ensures 0x20_0000 <= val < 0x1000_0000 ==>
              VByte(val) == [val % 128, val / 0x80 % 128, val / 0x4000 % 128, val / 0x20_0000 + 128]
    ensures 0x1000_0000 <= val < 0x8_0000_0000 ==>
              VByte(val) == [val % 128, val / 0x80 % 128, val / 0x4000 % 128, val / 0x20_0000 % 128, val / 0x1000_0000 + 128]
  {
    var v1 := val / 128;
    var v2 := v1 / 128;
    var v3 := v2 / 128;
    var v4 := v3 / 128;
    assert v2 == val / 0x4000 && v3 == val / 0x20_0000 && v4 == val / 0x1000_0000;
    if v1 > 0 { assert VByte(val) == [val % 128] + VByte(v1); }
    if v2 > 0 { assert VByte(v1) == [v1 % 128] + VByte(v2); }
    if v3 > 0 { assert VByte(v2) == [v2 % 128] + VByte(v3); }
    if v4 > 0 { assert VByte(v3) == [v3 % 128] + VByte(v4); }
  }

  method EncodeOne(val: nat) returns (out: seq<nat>)
    requires val < WORD
    ensures out == VByte(val)
  {
    hide Or, Extract7Bits, Extract7BitsMaskless, VByte, Pow2;
    Sevens();
    VByteDigits(val);
    if val < 0x80 {
      HighBit(val);
      out := [Or(val, 128)];
    } else {
      ExtractIsDigit(val, 0);
      ExtractIsDigit(val, 1);
      if val < 0x4000 {
        out := [Extract7Bits(val, 0), Or(Extract7BitsMaskless(val, 1), 128)];
      } else {
        ExtractIsDigit(val, 2);
        if val < 0x20_0000 {
          out := [Extract7Bits(val, 0), Extract7Bits(val, 1), Or(Extract7BitsMaskless(val, 2), 128)];
        } else {
          ExtractIsDigit(val, 3);
          if val < 0x1000_0000 {
            out := [Extract7Bits(val, 0), Extract7Bits(val, 1), Extract7Bits(val,
                                                                             2), Or(Extract7BitsMaskless(val, 3), 128)];
          } else {
            ExtractIsDigit(val, 4);
            out := [Extract7Bits(val, 0), Extract7Bits(val, 1), Extract7Bits(val, 2), Extract7Bits(val, 3), Or(Extract7BitsMaskless(val, 4), 128)];
          }
        }
      }
    }
  }

  method Encode(vals: seq<nat>) returns (out: seq<nat>)
    requires AllWords(vals)
    ensures out == VBytes(vals)
  {
    hide VByte;
    WordIsPower();
    out := [];
    for k := 0 to |vals|
      invariant out == VBytes(vals[..k])
    {
      var bytes := EncodeOne(vals[k]);
      assert vals[..k + 1][..k] == vals[..k];
      out := out + bytes;
    }
    assert vals[..|vals|] == vals;
  }

  method EncodeSingle(val: nat, out: seq<nat>) returns (r: seq<nat>)
    requires val < WORD
    ensures r == out + VByte(val)
  {
    WordIsPower();
    var bytes := Encode([val]);
    assert [val][..0] == [];
    r := out + bytes;
  }

  lemma VByteStep(v: nat, shift: nat)
    requires v >= 128
    ensures VByte(v) == [v % 128] + VByte(v / 128)
    ensures v * Pow2(shift) == v % 128 * Pow2(shift) + v / 128 * Pow2(shift + 7)
  {
    hide Pow2, VByte;
    VByteUnfolds(v);
    Sevens();
    Pow2Adds(shift, 7);
    var q, p := v / 128, Pow2(shift);
    ThreeFactors(q, p);
    assert v == v % 128 + q * 128;
    assert v * p == v % 128 * p + q * 128 * p;
  }

  lemma {:induction false} VByteUnfolds(v: nat)
    requires v >= 128
    ensures VByte(v) == [v % 128] + VByte(v / 128)
  {}

  lemma ThreeFactors(q: nat, p: nat)
    ensures q * (p * 128) == q * 128 * p
  {}

  /** Reads one value, whatever follows its bytes. */
  method DecodeOne(data: seq<nat>, pos: nat, ghost val: nat) returns (v: nat, next: nat)
    requires At(data, pos, VByte(val))
    ensures v == val && next == pos + |VByte(val)|
  {
    hide VByte, Pow2, At;
    var shift := 0;
    v, next := 0, pos;
    ghost var left: nat := val;
    assert Pow2(0) == 1 by { Sevens(); }
    while true
      invariant v + left * Pow2(shift) == val
      invariant At(data, next, VByte(left)) && next + |VByte(left)| == pos + |VByte(val)|
      decreases left
    {
      FirstByte(data, next, left);
      if left >= 128 { VByteStep(left, shift); }
      var c := data[next];
      next := next + 1;
      v := v + Low(c, 7) * Pow2(shift);
      if c >= 128 { return; }
      shift := shift + 7;
      left := left / 128;
    }
  }

  lemma {:induction false} FirstByte(data: seq<nat>, pos: nat, v: nat)
    requires At(data, pos, VByte(v))
    ensures pos < |data| && |VByte(v)| > 0
    ensures v < 128 ==> data[pos] == v + 128 && Low(data[pos], 7) == v && |VByte(v)| == 1
    ensures v >= 128 ==> data[pos] == v % 128 && Low(data[pos], 7) == v % 128 && |VByte(v)| == 1 + |VByte(v / 128)|
    ensures v >= 128 ==> At(data, pos + 1, VByte(v / 128))
  {
    hide Pow2, Low, Shr;
    Sevens();
    ShrIsDivision(data[pos], 7);
    assert data[pos] == data[pos..pos + |VByte(v)|][0];
    if v >= 128 {
      AtParts(data, pos, [v % 128], VByte(v / 128));
    }
  }

  method Decode(data: seq<nat>, pos: nat, n: nat, ghost vals: seq<nat>) returns (out: seq<nat>, next: nat)
    requires |vals| == n && At(data, pos, VBytes(vals))
    ensures out == vals && next == pos + |VBytes(vals)|
  {
    hide VByte, At;
    out, next := [], pos;
    for i := 0 to n
      invariant out == vals[..i] && next == pos + |VBytes(vals[..i])|
    {
      VBytesStand(data, pos, vals, i);
      var v;
      v, next := DecodeOne(data, next, vals[i]);
      assert vals[..i + 1][..i] == vals[..i];
      out := out + [v];
    }
    assert vals[..n] == vals;
  }

  lemma {:induction false} VBytesStand(data: seq<nat>, pos: nat, vals: seq<nat>, i: nat)
    requires i < |vals| && At(data, pos, VBytes(vals))
    ensures At(data, pos + |VBytes(vals[..i])|, VByte(vals[i]))
    decreases |vals|
  {
    hide VByte, At;
    var n := |vals| - 1;
    AtParts(data, pos, VBytes(vals[..n]), VByte(vals[n]));
    if i < n {
      VBytesStand(data, pos, vals[..n], i);
      assert vals[..n][..i] == vals[..i];
    }
  }

  // ----- interpolative blocks -----

  function Total(s: seq<nat>): nat {
    if s == [] then 0 else Total(s[..|s| - 1]) + s[|s| - 1]
  }

  /** The running sums of a list. */
  function Prefixes(s: seq<nat>): (r: seq<nat>)
    ensures |r| == |s|
  {
    seq(|s|, i requires 0 <= i < |s| => Total(s[..i + 1]))
  }

  /** What a block of gaps must satisfy: 32-bit sums, and the sum itself below the sentinel unless it stands alone. */
  predicate BlockOk(gaps: seq<nat>) {
    gaps != [] && Total(gaps) < WORD && (|gaps| > 1 ==> Total(gaps) < SENTINEL)
  }

  lemma {:induction false} PrefixesOrdered(s: seq<nat>, i: nat, j: nat)
    requires i <= j <= |s|
    ensures Total(s[..i]) <= Total(s[..j])
  {
    if i == j {
    } else {
      PrefixesOrdered(s, i, j - 1);
      assert s[..j][..j - 1] == s[..j - 1];
    }
  }

  /** All running sums but the last. */
  function Inner(gaps: seq<nat>): seq<nat>
    requires gaps != []
  {
    Prefixes(gaps)[..|gaps| - 1]
  }

  lemma {:induction false} InnerCodable(gaps: seq<nat>)
    requires BlockOk(gaps)
    ensures Codable(Inner(gaps), 0, Total(gaps))
  {
    hide Total;
    var ps := Inner(gaps);
    assert gaps[..|gaps|] == gaps;
    forall i, j | 0 <= i <= j < |ps| ensures ps[i] <= ps[j] {
      PrefixesOrdered(gaps, i + 1, j + 1);
    }
    forall i | 0 <= i < |ps| ensures ps[i] <= Total(gaps) {
      PrefixesOrdered(gaps, i + 1, |gaps|);
    }
  }

  /** The bytes of a block: the sum if the reader will not know it, then the code of the inner sums in whole bytes. */
  ghost predicate Encodes(bytes: seq<nat>, gaps: seq<nat>, sum: nat)
    requires BlockOk(gaps)
  {
    InnerCodable(gaps);
    var head := if sum == SENTINEL then VByte(Total(gaps)) else [];
    var code := Code(Inner(gaps), 0, Total(gaps));
    && head <= bytes && AllBytes(bytes)
    && |bytes| == |head| + CeilDiv(|code|, 8)
    && code <= BytesBits(bytes[|head|..])
  }

  /** How many bytes a block takes. */
  ghost function EncodedSize(gaps: seq<nat>, sum: nat): nat
    requires BlockOk(gaps)
  {
    InnerCodable(gaps);
    (if sum == SENTINEL then |VByte(Total(gaps))| else 0) + CeilDiv(|Code(Inner(gaps), 0, Total(gaps))|, 8)
  }

  lemma EncodesSize(bytes: seq<nat>, gaps: seq<nat>, sum: nat)
    requires BlockOk(gaps) && Encodes(bytes, gaps, sum)
    ensures |bytes| == EncodedSize(gaps, sum)
  {
    hide Codable, Code, Inner, Prefixes, Total, VByte, AllBytes, BytesBits;
  }

  lemma EncodesBytes(bytes: seq<nat>, gaps: seq<nat>, sum: nat)
    requires BlockOk(gaps) && Encodes(bytes, gaps, sum)
    ensures AllBytes(bytes)
  {
    hide Codable, Code, Inner, Prefixes, Total, VByte, AllBytes, BytesBits;
  }

  lemma {:induction false} VByteIsBytes(v: nat)
    ensures AllBytes(VByte(v))
  {
    if v >= 128 {
      VByteIsBytes(v / 128);
    }
  }

  method PrefixSums(gaps: seq<nat>) returns (sums: seq<nat>)
    requires gaps != []
    ensures sums == Prefixes(gaps)
  {
    sums := [gaps[0]];
    assert gaps[..1][..0] == [];
    for i := 1 to |gaps|
      invariant |sums| == i && forall j :: 0 <= j < i ==> sums[j] == Total(gaps[..j + 1])
    {
      assert gaps[..i + 1][..i] == gaps[..i];
      sums := sums + [sums[i - 1] + gaps[i]];
    }
  }

  method EncodeBlock(gaps: seq<nat>, sum: nat, out: seq<nat>) returns (r: seq<nat>, ghost bytes: seq<nat>)
    requires BlockOk(gaps) && (sum == Total(gaps) || sum == SENTINEL)
    ensures out <= r && Encodes(r[|out|..], gaps, sum)
    ensures bytes == r[|out|..]
  {
    hide Total, Prefixes, VByte, Codable, Code, Packed, Stream, BytesBits, BytesOf, VByte;
    InnerCodable(gaps);
    var sums := PrefixSums(gaps);
    assert gaps[..|gaps|] == gaps;
    r := out;
    var high := sum;
    ghost var head := [];
    if sum == SENTINEL {
      high := LastPrefix(gaps, sums);
      r := EncodeSingle(high, r);
      head := VByte(high);
      VByteIsBytes(high);
    }
    var bw := new BitWriter();
    bw.WriteInterpolative(sums[..|gaps| - 1], 0, high);
    BytesOfStream(bw.buf, bw.size);
    var tail := BytesOf(bw.buf)[..CeilDiv(bw.size, 8)];
    r := r + tail;
    bytes := head + tail;
    assert bytes[|head|..] == tail && r[|out|..] == bytes;
    assert [] + Code(Inner(gaps), 0, Total(gaps)) == Code(Inner(gaps), 0, Total(gaps));
  }

  function LastPrefix(gaps: seq<nat>, sums: seq<nat>): (t: nat)
    requires gaps != [] && sums == Prefixes(gaps)
    ensures t == Total(gaps)
  {
    assert gaps[..|gaps|] == gaps;
    sums[|gaps| - 1]
  }

  /** The first whole bytes of a packed buffer hold all its bits. */
  lemma {:induction false} BytesOfStream(buf: seq<nat>, size: nat)
    requires Packed(buf, size)
    ensures CeilDiv(size, 8) <= 4 * |buf|
    ensures var tail := BytesOf(buf)[..CeilDiv(size, 8)]; AllBytes(tail) && Stream(buf, size) <= BytesBits(tail)
  {
    hide Packed, Stream, BytesBits, BytesOf, WordsBits;
    StreamIsPrefix(buf, size);
    BytesOfBits(buf);
    var m := CeilDiv(size, 8);
    var all := BytesOf(buf);
    BitsOfPrefix(all[..m], all);
  }

  /** The code of a block's inner sums stands at the start of the words read from behind its head. */
  lemma {:induction false} CodeStands(data: seq<nat>, pos: nat, bytes: seq<nat>, gaps: seq<nat>, sum: nat)
    requires AllBytes(data) && BlockOk(gaps) && At(data, pos, bytes) && Encodes(bytes, gaps, sum)
    ensures var head := if sum == SENTINEL then VByte(Total(gaps)) else [];
            && pos + |head| <= |data| && At(data, pos, head)
            && Codable(Inner(gaps), 0, Total(gaps))
            && var words := WordsOf(Padded(data[pos + |head|..]));
            && AllWords(words) && At(WordsBits(words), 0, Code(Inner(gaps), 0, Total(gaps)))
  {
    hide Total, Prefixes, VByte, Codable, Code, BytesBits, WordsBits, WordsOf, Padded, Inner, AllWords, BlockOk,
         AllBytes;
    InnerCodable(gaps);
    var head := if sum == SENTINEL then VByte(Total(gaps)) else [];
    var tail := bytes[|head|..];
    assert bytes == head + tail;
    AtParts(data, pos, head, tail);
    AtLength(data, pos, head);
    BytesFrom(data, pos + |head|);
    var rest := Padded(data[pos + |head|..]);
    assert tail <= rest by { AtBegins(data, pos + |head|, tail); }
    BitsOfPrefix(tail, rest);
    WordsOfBits(rest);
  }

  lemma AtBegins(data: seq<nat>, p: nat, bytes: seq<nat>)
    requires p <= |data| && At(data, p, bytes)
    ensures bytes <= Padded(data[p..])
  {}

  lemma BytesFrom(data: seq<nat>, p: nat)
    requires AllBytes(data) && p <= |data|
    ensures AllBytes(data[p..]) && AllBytes(Padded(data[p..])) && data[p..] <= Padded(data[p..])
  {}

  lemma EncodedLength(bytes: seq<nat>, gaps: seq<nat>, sum: nat)
    requires BlockOk(gaps) && Encodes(bytes, gaps, sum)
    ensures var head := if sum == SENTINEL then VByte(Total(gaps)) else [];
            && Codable(Inner(gaps), 0, Total(gaps))
            && |bytes| == |head| + CeilDiv(|Code(Inner(gaps), 0, Total(gaps))|, 8)
            && (|gaps| == 1 ==> |bytes| == |head|)
  {
    hide Total, VByte, Codable, BytesBits;
    InnerCodable(gaps);
  }

  /** Turns running sums back into the gaps, from the end. */
  method Differences(out: array<nat>, n: nat, ghost gaps: seq<nat>)
    requires 0 < n == |gaps| && n <= out.Length
    requires forall k :: 0 <= k < n ==> out[k] == Prefixes(gaps)[k]
    modifies out
    ensures out[..n] == gaps && out[n..] == old(out[n..])
  {
    hide Total;
    var i := n - 1;
    while i > 0
      invariant i < n
      invariant forall k :: 0 <= k <= i ==> out[k] == Total(gaps[..k + 1])
      invariant forall k :: i < k < n ==> out[k] == gaps[k]
      invariant out[n..] == old(out[n..])
    {
      TotalStep(gaps, i);
      out[i] := out[i] - out[i - 1];
      i := i - 1;
    }
    TotalStep(gaps, 0);
  }

  lemma TotalStep(s: seq<nat>, i: nat)
    requires i < |s|
    ensures Total(s[..i + 1]) == Total(s[..i]) + s[i] && Total(s[..0]) == 0
  {
    assert s[..i + 1][..i] == s[..i];
  }

  /** Reads a block back and stops at its last byte, whatever follows it. */
  method DecodeBlock(data: seq<nat>, pos: nat, out: array<nat>, sum: nat, n: nat, ghost gaps: seq<nat>,
                     ghost bytes: seq<nat>)
    returns (next: nat)
    requires BlockOk(gaps) && |gaps| == n <= out.Length && (sum == Total(gaps) || sum == SENTINEL)
    requires AllBytes(data) && At(data, pos, bytes) && Encodes(bytes, gaps, sum)
    modifies out
    ensures out[..n] == gaps && out[n..] == old(out[n..])
    ensures next == pos + |bytes|
  {
    hide Total, Prefixes, VByte, VBytes, Codable, Code, Encodes, BytesBits, WordsBits, WordsOf, Padded, AllWords,
         AllBytes, At;
    CodeStands(data, pos, bytes, gaps, sum);
    EncodedLength(bytes, gaps, sum);
    ghost var start := out[..];
    var inPos, high := pos, sum;
    if sum == SENTINEL {
      OneVByte(Total(gaps));
      var vals;
      vals, inPos := Decode(data, pos, 1, [Total(gaps)]);
      high := vals[0];
    }
    out[n - 1] := high;
    next := inPos;
    if n > 1 {
      var br := new BitReader(WordsOf(Padded(data[inPos..])));
      br.ReadInterpolative(out, 0, n - 1, 0, high, Inner(gaps));
      SumsInPlace(start, n, gaps, out[..]);
      Differences(out, n, gaps);
      next := inPos + CeilDiv(br.pos, 8);
    } else {
      OneGap(gaps);
    }
    assert out[n..] == start[n..];
  }

  /** A block written anywhere and followed by anything is read back, and reading stops at its last byte. */
  method RoundTrip(gaps: seq<nat>, sum: nat, before: seq<nat>, behind: seq<nat>) returns (back: seq<nat>, used: nat)
    requires BlockOk(gaps) && (sum == Total(gaps) || sum == SENTINEL) && AllBytes(before) && AllBytes(behind)
    ensures back == gaps && used == EncodedSize(gaps, sum)
  {
    hide Total, BlockOk, Encodes, EncodedSize, AllBytes;
    var data;
    ghost var bytes;
    data, bytes := EncodeBlock(gaps, sum, before);
    EncodesSize(bytes, gaps, sum);
    EncodesBytes(bytes, gaps, sum);
    AllOfThree(before, bytes, behind);
    assert data == before + bytes;
    var out := new nat[|gaps|];
    var next := DecodeBlock(data + behind, |before|, out, sum, |gaps|, gaps, bytes);
    back, used := out[..|gaps|], next - |before|;
  }

  lemma AllOfThree(a: seq<nat>, b: seq<nat>, c: seq<nat>)
    requires AllBytes(a) && AllBytes(b) && AllBytes(c)
    ensures AllBytes(a + b + c) && At(a + b + c, |a|, b)
  {}

  lemma {:induction false} OneVByte(v: nat)
    ensures VBytes([v]) == VByte(v)
  {
    assert [v][..0] == [];
  }

  lemma {:induction false} OneGap(gaps: seq<nat>)
    requires |gaps| == 1
    ensures Total(gaps) == gaps[0]
  {}

  lemma {:induction false} SumsInPlace(start: seq<nat>, n: nat, gaps: seq<nat>, s: seq<nat>)
    requires 0 < n == |gaps| && n <= |start|
    requires s == Overwritten(start[n - 1 := Total(gaps)], 0, Inner(gaps))
    ensures |s| == |start| && s[n..] == start[n..]
    ensures forall k :: 0 <= k < n ==> s[k] == Prefixes(gaps)[k]
  {
    hide Total, Overwritten, Inner;
    assert gaps[..n] == gaps;
    InnerAt(gaps);
    OverwrittenAt(start[n - 1 := Total(gaps)], Inner(gaps));
  }

  lemma InnerAt(gaps: seq<nat>)
    requires gaps != []
    ensures |Inner(gaps)| == |gaps| - 1 && forall k :: 0 <= k < |gaps| - 1 ==> Inner(gaps)[k] == Prefixes(gaps)[k]
  {
    hide Prefixes;
  }

  lemma OverwrittenAt(s: seq<nat>, vals: seq<nat>)
    requires |vals| <= |s|
    ensures var r := Overwritten(s, 0, vals);
            && (forall k :: 0 <= k < |vals| ==> r[k] == vals[k])
            && (forall k :: |vals| <= k < |s| ==> r[k] == s[k])
  {}
}
