/** Bytes and 32-bit little-endian words as one string of bits. */
module ByteStrings {
  import opened Arith
  import opened Bits
  import opened InterpolativeCoding
  import opened Slices

  ghost predicate AllBytes(s: seq<nat>) {
    forall i :: 0 <= i < |s| ==> s[i] < 256
  }

  ghost function BytesBits(bytes: seq<nat>): (b: BitString)
    ensures |b| == 8 * |bytes|
  {
    if bytes == [] then [] else BytesBits(bytes[..|bytes| - 1]) + ToBits(bytes[|bytes| - 1], 8)
  }

  lemma {:induction false} BytesBitsConcat(a: seq<nat>, b: seq<nat>)
    ensures BytesBits(a + b) == BytesBits(a) + BytesBits(b)
  {
    hide ToBits;
    if b == [] {
      assert a + b == a;
    } else {
      assert (a + b)[..|a + b| - 1] == a + b[..|b| - 1];
      BytesBitsConcat(a, b[..|b| - 1]);
    }
  }

  /** The four bytes of a word, lowest first. */
  function WordBytes(w: nat): (r: seq<nat>)
    ensures |r| == 4
  {
    [Low(w, 8), Low(Shr(w, 8), 8), Low(Shr(Shr(w, 8), 8), 8), Low(Shr(Shr(Shr(w, 8), 8), 8), 8)]
  }

  function BytesOf(words: seq<nat>): (r: seq<nat>)
    ensures |r| == 4 * |words|
  {
    if words == [] then [] else BytesOf(words[..|words| - 1]) + WordBytes(words[|words| - 1])
  }

  lemma {:induction false} LowIsByte(v: nat)
    ensures Low(v, 8) < 256
  {
    assert Pow2(8) == 256;
  }

  lemma {:induction false} OneMoreByte(s: seq<nat>, x: nat)
    ensures BytesBits(s + [x]) == BytesBits(s) + ToBits(x, 8)
  {
    hide ToBits;
    assert (s + [x])[..|s|] == s;
  }

  lemma {:induction false} FourBytesBits(a: nat, b: nat, c: nat, d: nat)
    ensures BytesBits([a, b, c, d]) == ToBits(a, 8) + (ToBits(b, 8) + (ToBits(c, 8) + ToBits(d, 8)))
  {
    hide ToBits, BytesBits;
    NoBytes();
    OneMoreByte([], a);
    OneMoreByte([a], b);
    OneMoreByte([a, b], c);
    OneMoreByte([a, b, c], d);
    Regroup(ToBits(a, 8), ToBits(b, 8), ToBits(c, 8), ToBits(d, 8));
    Regroup(ToBits(a, 8), ToBits(b, 8), ToBits(c, 8) + ToBits(d, 8), []);
    assert [] + [a] == [a] && [a] + [b] == [a, b] && [a, b] + [c] == [a, b, c] && [a, b, c] + [d] == [a, b, c, d];
  }

  lemma {:induction false} WordBytesBits(w: nat)
    ensures BytesBits(WordBytes(w)) == ToBits(w, 32)
    ensures AllBytes(WordBytes(w))
  {
    hide ToBits, Shr, Low;
    assert Pow2(8) == 256;
    var w1 := Shr(w, 8);
    var w2 := Shr(w1, 8);
    var w3 := Shr(w2, 8);
    FourBytesBits(Low(w, 8), Low(w1, 8), Low(w2, 8), Low(w3, 8));
    ToBitsSplit(w, 8, 32);
    ToBitsSplit(w1, 8, 24);
    ToBitsSplit(w2, 8, 16);
    ToBitsOfLow(w, 8, 8);
    ToBitsOfLow(w1, 8, 8);
    ToBitsOfLow(w2, 8, 8);
    ToBitsOfLow(w3, 8, 8);
  }

  lemma {:induction false} BytesOfBits(words: seq<nat>)
    ensures BytesBits(BytesOf(words)) == WordsBits(words) && AllBytes(BytesOf(words))
  {
    hide ToBits, WordBytes, BytesBits;
    if words == [] {
      NoBytes();
    } else {
      var n := |words| - 1;
      BytesOfBits(words[..n]);
      WordBytesBits(words[n]);
      BytesBitsConcat(BytesOf(words[..n]), WordBytes(words[n]));
    }
  }

  lemma NoBytes()
    ensures BytesBits([]) == []
  {}

  /** The word of four bytes, lowest first. */
  function WordOf(a: nat, b: nat, c: nat, d: nat): nat {
    a + Shl(b + Shl(c + Shl(d, 8), 8), 8)
  }

  function WordsOf(bytes: seq<nat>): (r: seq<nat>)
    requires |bytes| % 4 == 0
    ensures 4 * |r| == |bytes|
  {
    var n := |bytes|;
    if n == 0 then [] else WordsOf(bytes[..n - 4]) + [WordOf(bytes[n - 4], bytes[n - 3], bytes[n - 2], bytes[n - 1])]
  }

  lemma WordOfBits(a: nat, b: nat, c: nat, d: nat)
    requires a < 256 && b < 256 && c < 256 && d < 256
    ensures ToBits(WordOf(a, b, c, d), 32) == BytesBits([a, b, c, d]) && WordOf(a, b, c, d) < Pow2(32)
  {
    hide ToBits, Shl, BytesBits;
    assert Pow2(8) == 256;
    hide Pow2;
    var w3 := c + Shl(d, 8);
    var w2 := b + Shl(w3, 8);
    FourBytesBits(a, b, c, d);
    ToBitsSum(c, d, 8, 16);
    ToBitsSum(b, w3, 8, 24);
    ToBitsSum(a, w2, 8, 32);
    SumBelow(c, d, 8, 8);
    SumBelow(b, w3, 8, 16);
    SumBelow(a, w2, 8, 24);
    Regroup4(ToBits(a, 8), ToBits(b, 8), ToBits(c, 8), ToBits(d, 8));
  }

  lemma Regroup4(a: seq<bool>, b: seq<bool>, c: seq<bool>, d: seq<bool>)
    ensures a + (b + (c + d)) == a + b + c + d
  {}

  lemma NoWords()
    ensures WordsBits([]) == []
  {}

  lemma {:induction false} OneMoreWord(ws: seq<nat>, w: nat)
    ensures WordsBits(ws + [w]) == WordsBits(ws) + ToBits(w, 32)
  {
    hide ToBits;
    assert (ws + [w])[..|ws|] == ws;
  }

  lemma {:induction false} WordsOfBits(bytes: seq<nat>)
    requires |bytes| % 4 == 0 && AllBytes(bytes)
    ensures WordsBits(WordsOf(bytes)) == BytesBits(bytes) && AllWords(WordsOf(bytes))
  {
    hide ToBits, BytesBits, WordOf, WordsBits;
    var n := |bytes|;
    if n == 0 {
      NoBytes();
      NoWords();
    } else {
      var init, last := bytes[..n - 4], [bytes[n - 4], bytes[n - 3], bytes[n - 2], bytes[n - 1]];
      WordsOfBits(init);
      WordOfBits(bytes[n - 4], bytes[n - 3], bytes[n - 2], bytes[n - 1]);
      BytesBitsConcat(init, last);
      assert bytes == init + last;
      OneMoreWord(WordsOf(init), WordOf(bytes[n - 4], bytes[n - 3], bytes[n - 2], bytes[n - 1]));
    }
  }

  /** The bytes from a position on, filled up with zeros to whole words. */
  function Padded(bytes: seq<nat>): (r: seq<nat>)
    ensures |r| % 4 == 0 && bytes <= r
    ensures AllBytes(bytes) ==> AllBytes(r)
  {
    var over := |bytes| % 4;
    if over == 0 then bytes
    else if over == 1 then bytes + [0, 0, 0]
    else if over == 2 then bytes + [0, 0]
    else bytes + [0]
  }

  /** The first bytes of a stream give its first bits, whatever follows. */
  lemma {:induction false} BitsOfPrefix(a: seq<nat>, s: seq<nat>)
    requires a <= s
    ensures BytesBits(a) <= BytesBits(s)
  {
    BytesBitsConcat(a, s[|a|..]);
    assert s == a + s[|a|..];
  }

  /** A number's four bytes make the number again, as far as 32 bits go. */
  lemma {:induction false} WordOfItsBytes(w: nat)
    ensures var b := WordBytes(w); |b| == 4 && WordOf(b[0], b[1], b[2], b[3]) == Low(w, 32)
    ensures w < Pow2(32) ==> Low(w, 32) == w
  {
    hide ToBits, FromBits, BytesBits, WordOf, Low, Shr, Pow2;
    var b := WordBytes(w);
    WordBytesBits(w);
    assert b == [b[0], b[1], b[2], b[3]];
    WordOfBits(b[0], b[1], b[2], b[3]);
    var v := WordOf(b[0], b[1], b[2], b[3]);
    FromToBits(w, 32);
    FromToBits(v, 32);
    if w < Pow2(32) { LowOfSmall(w, 32); }
    LowOfSmall(v, 32);
  }

  lemma {:induction false} WordsOfTheirBytes(words: seq<nat>)
    requires AllWords(words)
    ensures WordsOf(BytesOf(words)) == words
  {
    hide WordOf, WordBytes, Pow2;
    if words == [] {
    } else {
      var n := |words| - 1;
      WordsOfTheirBytes(words[..n]);
      WordOfItsBytes(words[n]);
      var b := WordBytes(words[n]);
      assert BytesOf(words) == BytesOf(words[..n]) + b;
      assert BytesOf(words)[..4 * n] == BytesOf(words[..n]);
    }
  }
}
