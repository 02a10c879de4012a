/** `bit_writer` and `bit_reader` over 32-bit words, truncated binary, and the recursive interpolative code. */
module InterpolativeCoding {
  import opened Arith
  import opened Bits
  import opened Slices

  /** The bits of a word buffer, word after word. */
  ghost function WordsBits(words: seq<nat>): (b: BitString)
    ensures |b| == 32 * |words|
  {
    if words == [] then [] else WordsBits(words[..|words| - 1]) + ToBits(words[|words| - 1], 32)
  }

  lemma {:induction false} WordAt(words: seq<nat>, i: nat)
    requires i < |words|
    ensures WordsBits(words)[32 * i..32 * (i + 1)] == ToBits(words[i], 32)
  {
    var n := |words| - 1;
    if i < n {
      WordAt(words[..n], i);
      assert WordsBits(words)[32 * i..32 * (i + 1)] == WordsBits(words[..n])[32 * i..32 * (i + 1)];
    }
  }

  /** A buffer of `size` bits: every word in use, no bit set beyond the end. */
  ghost predicate Packed(buf: seq<nat>, size: nat) {
    && AllWords(buf)
    && (size == 0 <==> buf == [])
    && (buf != [] ==> 32 * (|buf| - 1) < size <= 32 * |buf| && buf[|buf| - 1] < Pow2(size - 32 * (|buf| - 1)))
  }

  ghost function Stream(buf: seq<nat>, size: nat): (b: BitString)
    requires Packed(buf, size)
    ensures |b| == size
  {
    if buf == [] then [] else WordsBits(buf[..|buf| - 1]) + ToBits(buf[|buf| - 1], size - 32 * (|buf| - 1))
  }

  lemma {:induction false} PackedAligned(buf: seq<nat>, size: nat)
    requires Packed(buf, size) && size % 32 == 0
    ensures size == 32 * |buf| && Stream(buf, size) == WordsBits(buf)
  {
    hide ToBits, AllWords;
  }

  lemma {:induction false} AppendAligned(buf: seq<nat>, size: nat, bits: nat, len: nat)
    requires Packed(buf, size) && size % 32 == 0 && 0 < len <= 32 && bits < Pow2(len)
    ensures Packed(buf + [bits], size + len)
    ensures Stream(buf + [bits], size + len) == Stream(buf, size) + ToBits(bits, len)
  {
    hide WordsBits, ToBits, Pow2;
    PackedAligned(buf, size);
    Pow2Monotone(len, 32);
    assert (buf + [bits])[..|buf|] == buf;
  }

  lemma LastWordUpdated(buf: seq<nat>, w: nat)
    requires buf != []
    ensures var last := |buf| - 1; buf[last := w][..last] == buf[..last]
  {}

  lemma {:induction false} AppendInside(buf: seq<nat>, size: nat, bits: nat, len: nat)
    requires Packed(buf, size) && size % 32 != 0 && 0 < len <= 32 - size % 32 && bits < Pow2(len)
    ensures var last := |buf| - 1;
            var next := buf[last := Or(buf[last], Low(Shl(bits, size % 32), 32))];
            Packed(next, size + len) && Stream(next, size + len) == Stream(buf, size) + ToBits(bits, len)
  {
    hide WordsBits, ToBits, Pow2, Or, Low, Shl, Packed, Stream, AllWords;
    PackedPartly(buf, size);
    var last, p := |buf| - 1, size % 32;
    OrIntoWord(buf[last], bits, p, len);
    PackInside(buf, size + len, Or(buf[last], Low(Shl(bits, p), 32)));
    Regroup(WordsBits(buf[..last]), ToBits(buf[last], p), ToBits(bits, len), []);
  }

  /** A new last word in a buffer. */
  lemma PackInside(buf: seq<nat>, size: nat, w: nat)
    requires AllWords(buf) && buf != [] && w < Pow2(32)
    requires 0 < size - 32 * (|buf| - 1) <= 32 && w < Pow2(size - 32 * (|buf| - 1))
    ensures var next := buf[|buf| - 1 := w];
            Packed(next, size) && Stream(next, size) == WordsBits(buf[..|buf| - 1]) + ToBits(w, size - 32 * (|buf| - 1))
  {
    hide WordsBits, ToBits, Pow2;
    LastWordUpdated(buf, w);
  }

  lemma {:induction false} AppendAcross(buf: seq<nat>, size: nat, bits: nat, len: nat)
    requires Packed(buf, size) && size % 32 != 0 && 32 - size % 32 < len <= 32 && bits < Pow2(len)
    ensures var last := |buf| - 1;
            var next := buf[last := Or(buf[last], Low(Shl(bits, size % 32), 32))] + [Shr(bits, 32 - size % 32)];
            Packed(next, size + len) && Stream(next, size + len) == Stream(buf, size) + ToBits(bits, len)
  {
    hide WordsBits, ToBits, Pow2, Or, Low, Shl, Shr, Packed, Stream, AllWords;
    PackedPartly(buf, size);
    var last, p := |buf| - 1, size % 32;
    var w, spill := Or(buf[last], Low(Shl(bits, p), 32)), Shr(bits, 32 - p);
    OrIntoWord(buf[last], bits, p, len);
    SpillIntoNext(bits, 32 - p, len);
    WordsBitsOfUpdated(buf, w);
    PackAcross(buf[last := w], size + len, spill);
    Regroup(WordsBits(buf[..last]), ToBits(buf[last], p), ToBits(bits, 32 - p), ToBits(spill, len - (32 - p)));
  }

  /** The last word of a buffer that ends inside a word. */
  lemma {:induction false} PackedPartly(buf: seq<nat>, size: nat)
    requires Packed(buf, size) && size % 32 != 0
    ensures buf != [] && AllWords(buf) && size == 32 * (|buf| - 1) + size % 32
    ensures buf[|buf| - 1] < Pow2(size % 32)
    ensures Stream(buf, size) == WordsBits(buf[..|buf| - 1]) + ToBits(buf[|buf| - 1], size % 32)
  {
    hide WordsBits, ToBits, Pow2, AllWords;
  }

  /** One more word behind a buffer of whole words. */
  lemma {:induction false} PackAcross(buf: seq<nat>, size: nat, spill: nat)
    requires AllWords(buf) && buf != [] && 0 < size - 32 * |buf| <= 32 && spill < Pow2(size - 32 * |buf|) <= Pow2(32)
    ensures Packed(buf + [spill], size)
    ensures Stream(buf + [spill], size) == WordsBits(buf) + ToBits(spill, size - 32 * |buf|)
  {
    hide WordsBits, ToBits, Pow2;
    assert (buf + [spill])[..|buf|] == buf;
  }

  lemma {:induction false} StreamIsPrefix(buf: seq<nat>, size: nat)
    requires Packed(buf, size)
    ensures size <= 32 * |buf| && Stream(buf, size) == WordsBits(buf)[..size]
  {
    hide ToBits, AllWords, Pow2;
    if buf != [] {
      ToBitsPrefix(buf[|buf| - 1], size - 32 * (|buf| - 1), 32);
    }
  }

  lemma {:induction false} ToBitsPrefix(v: nat, p: nat, len: nat)
    requires p <= len
    ensures ToBits(v, len)[..p] == ToBits(v, p)
  {
    ToBitsParts(v, p, len);
  }

  lemma {:induction false} WordsBitsOfUpdated(buf: seq<nat>, w: nat)
    requires buf != []
    ensures var last := |buf| - 1; WordsBits(buf[last := w]) == WordsBits(buf[..last]) + ToBits(w, 32)
    ensures AllWords(buf) && w < Pow2(32) ==> AllWords(buf[|buf| - 1 := w])
  {
    LastWordUpdated(buf, w);
  }

  class BitWriter {
    var buf: seq<nat>
    var size: nat

    ghost predicate Valid()
      reads this
    {
      Packed(buf, size)
    }

    /** The bits written so far. */
    ghost function Written(): (b: BitString)
      requires Valid()
      ensures |b| == size
      reads this
    {
      Stream(buf, size)
    }

    constructor ()
      ensures Valid() && Written() == []
    {
      buf, size := [], 0;
    }

    /** Appends the low `len` bits of a number that has no higher ones. */
    method Write(bits: nat, len: nat)
      requires Valid() && len <= 32 && bits < Pow2(len)
      modifies this
      ensures Valid() && Written() == old(Written()) + ToBits(bits, len)
    {
      hide WordsBits, ToBits, Pow2, Or, Low, Shl, Shr, Stream, AllWords;
      if len == 0 { return; }
      var posInWord := size % 32;
      if posInWord == 0 {
        AppendAligned(buf, size, bits, len);
        buf := buf + [bits];
      } else {
        if len > 32 - posInWord { AppendAcross(buf, size, bits, len); } else { AppendInside(buf, size, bits, len); }
        var last := |buf| - 1;
        buf := buf[last := Or(buf[last], Low(Shl(bits, posInWord), 32))];
        if len > 32 - posInWord {
          buf := buf + [Shr(bits, 32 - posInWord)];
        }
      }
      size := size + len;
    }

    /** Truncated binary: one of u values in the fewest bits, short codes first. */
    method WriteInt(val: nat, u: nat)
      requires Valid() && 0 < u < WORD && val < u
      modifies this
      ensures Valid() && Written() == old(Written()) + IntCode(val, u)
    {
      hide ToBits, Pow2, IntCode, Packed, Stream;
      IntCodeFacts(val, u);
      var b := Msb(u);
      var m := Pow2(b + 1) - u;
      if val < m {
        Write(val, b);
      } else {
        var v := val + m;
        Write(v / 2, b);
        Write(v % 2, 1);
      }
    }

    /** The middle value first, then the two halves within the bounds it sets. */
    method WriteInterpolative(vals: seq<nat>, low: nat, high: nat)
      requires Valid() && Codable(vals, low, high)
      modifies this
      ensures Valid() && Written() == old(Written()) + Code(vals, low, high)
      decreases |vals|
    {
      hide ToBits, IntCode, Packed, Stream, Codable, Code;
      if |vals| == 0 { EmptyCode(vals, low, high); return; }
      var h := |vals| / 2;
      var val := vals[h];
      HalvesCodable(vals, low, high);
      CodeOfHalves(vals, low, high);
      ghost var before := Written();
      ghost var first, left, right := IntCode(val - low, high - low + 1), Code(vals[..h], low,
                                                                               val), Code(vals[h + 1..], val, high);
      Regroup(before, first, left, right);
      Regroup(before, first + left, right, []);
      WriteInt(val - low, high - low + 1);
      WriteInterpolative(vals[..h], low, val);
      WriteInterpolative(vals[h + 1..], val, high);
    }
  }

  /** Or-ing new bits into a partly used word appends as many as fit. */
  lemma OrIntoWord(low: nat, bits: nat, p: nat, len: nat)
    requires 0 < p < 32 && low < Pow2(p) && 0 < len <= 32 && bits < Pow2(len)
    ensures var w := Or(low, Low(Shl(bits, p), 32));
            && w < Pow2(32)
            && (len <= 32 - p ==> w < Pow2(p + len) && ToBits(w, p + len) == ToBits(low, p) + ToBits(bits, len))
            && (len > 32 - p ==> ToBits(w, 32) == ToBits(low, p) + ToBits(bits, 32 - p))
  {
    hide ToBits, Or, Low, Shl, Pow2;
    var room := 32 - p;
    var fit := Low(bits, room);
    LowOfShl(bits, p, 32);
    OrOverClear(low, fit, p);
    SumBelow(low, fit, p, room);
    if len <= room {
      Pow2Monotone(len, room);
      LowOfSmall(bits, room);
      SumBelow(low, fit, p, len);
      ToBitsSum(low, fit, p, p + len);
    } else {
      ToBitsSum(low, fit, p, 32);
      ToBitsOfLow(bits, room, room);
    }
  }

  lemma SpillIntoNext(bits: nat, room: nat, len: nat)
    requires 0 < room < len <= 32 && bits < Pow2(len)
    ensures Shr(bits, room) < Pow2(len - room) <= Pow2(32)
    ensures ToBits(bits, len) == ToBits(bits, room) + ToBits(Shr(bits, room), len - room)
  {
    ShrSmall(bits, room, len - room);
    Pow2Monotone(len - room, 32);
    ToBitsSplit(bits, room, len);
  }

  ghost function IntCode(val: nat, u: nat): BitString
    requires u > 0
  {
    var b := Msb(u);
    var m := Pow2(b + 1) - u;
    if val < m then ToBits(val, b) else ToBits((val + m) / 2, b) + ToBits((val + m) % 2, 1)
  }

  /** The two shapes of a truncated binary code. */
  lemma {:induction false} IntCodeFacts(val: nat, u: nat)
    requires 0 < u < WORD && val < u
    ensures Msb(u) < 32 && Pow2(1) == 2 && u < Pow2(Msb(u) + 1)
    ensures var m := Pow2(Msb(u) + 1) - u;
            && (val < m ==> val < Pow2(Msb(u)) && IntCode(val, u) == ToBits(val, Msb(u)))
            && (val >= m ==>
                  && m <= (val + m) / 2 < Pow2(Msb(u)) && (val + m) % 2 < Pow2(1)
                  && IntCode(val, u) == ToBits((val + m) / 2, Msb(u)) + ToBits((val + m) % 2, 1))
  {
    hide ToBits;
    WordIsPower();
    if Msb(u) >= 32 { Pow2Monotone(32, Msb(u)); }
  }

  /** Non-decreasing values within the bounds. */
  ghost predicate Codable(vals: seq<nat>, low: nat, high: nat) {
    && (vals != [] ==> low <= high && high - low + 1 < WORD)
    && (forall i :: 0 <= i < |vals| ==> low <= vals[i] <= high)
    && forall i, j :: 0 <= i < j < |vals| ==> vals[i] <= vals[j]
  }

  lemma HalvesCodable(vals: seq<nat>, low: nat, high: nat)
    requires Codable(vals, low, high) && vals != []
    ensures low <= vals[|vals| / 2] <= high && high - low + 1 < WORD
    ensures Codable(vals[..|vals| / 2], low, vals[|vals| / 2])
    ensures Codable(vals[|vals| / 2 + 1..], vals[|vals| / 2], high)
  {}

  ghost function Code(vals: seq<nat>, low: nat, high: nat): BitString
    requires Codable(vals, low, high)
  {
    if vals == [] then []
    else
      var h := |vals| / 2;
      HalvesCodable(vals, low, high);
      IntCode(vals[h] - low, high - low + 1) + Code(vals[..h], low, vals[h]) + Code(vals[h + 1..], vals[h], high)
  }

  lemma {:induction false} EmptyCode(vals: seq<nat>, low: nat, high: nat)
    requires Codable(vals, low, high) && vals == []
    ensures Code(vals, low, high) == []
  {}

  lemma {:induction false} CodeOfHalves(vals: seq<nat>, low: nat, high: nat)
    requires Codable(vals, low, high) && vals != []
    ensures var h := |vals| / 2;
            && Codable(vals[..h], low, vals[h]) && Codable(vals[h + 1..], vals[h], high)
            && low <= vals[h] <= high
            && Code(vals, low, high) ==
                 IntCode(vals[h] - low, high - low + 1) + Code(vals[..h], low,
                                                               vals[h]) + Code(vals[h + 1..], vals[h], high)
  {
    hide Codable, IntCode;
    HalvesCodable(vals, low, high);
  }

  class BitReader {
    const words: seq<nat>
    var inPos: nat
    var avail: nat
    var buf: nat
    var pos: nat

    /** The buffer holds the next `avail` bits of the stream. */
    ghost predicate Valid()
      reads this
    {
      && AllWords(words)
      && pos + avail == 32 * inPos <= 32 * |words| && avail < 32
      && Holds(words, buf, avail, pos)
    }

    constructor (words: seq<nat>)
      requires AllWords(words)
      ensures Valid() && this.words == words && pos == 0
    {
      this.words, inPos, avail, buf, pos := words, 0, 0, 0, 0;
    }

    /** Takes in one more word. */
    method Refill()
      requires Valid() && inPos < |words|
      modifies this
      ensures avail == old(avail) + 32 && pos == old(pos) && inPos == old(inPos) + 1
      ensures Holds(words, buf, avail, pos)
    {
      hide WordsBits, ToBits, Or, Shl, Pow2, AllWords;
      Refilled(words, inPos, avail, buf, pos);
      buf := Or(buf, Shl(words[inPos], avail));
      inPos := inPos + 1;
      avail := avail + 32;
    }

    method Read(len: nat) returns (val: nat)
      requires Valid() && len <= 32 && pos + len <= 32 * |words|
      modifies this
      ensures Valid() && pos == old(pos) + len
      ensures val == FromBits(WordsBits(words)[old(pos)..old(pos) + len])
    {
      hide WordsBits, ToBits, FromBits, Low, Shr, Pow2, AllWords, Holds;
      if len == 0 {
        NoBits(WordsBits(words), pos);
        return 0;
      }
      if avail < len {
        Refill();
      }
      TakeLow(words, buf, avail, pos, len);
      val := Low(buf, len);
      buf := Shr(buf, len);
      avail := avail - len;
      pos := pos + len;
    }

    method ReadInt(u: nat, ghost val: nat) returns (r: nat)
      requires Valid() && 0 < u < WORD && val < u && At(WordsBits(words), pos, IntCode(val, u))
      modifies this
      ensures Valid() && r == val && pos == old(pos) + |IntCode(val, u)|
    {
      hide WordsBits, ToBits, FromBits, Pow2, AllWords, Holds, IntCode, At;
      IntCodeFacts(val, u);
      var b := Msb(u);
      var m := Pow2(b + 1) - u;
      if val < m {
        ReadsBack(WordsBits(words), pos, val, b);
      } else {
        AtParts(WordsBits(words), pos, ToBits((val + m) / 2, b), ToBits((val + m) % 2, 1));
        ReadsBack(WordsBits(words), pos, (val + m) / 2, b);
        ReadsBack(WordsBits(words), pos + b, (val + m) % 2, 1);
      }
      r := Read(b);
      if r >= m {
        var low := Read(1);
        r := 2 * r + low - m;
      }
    }

    /** Reads a code back into a stretch of the output. */
    method ReadInterpolative(out: array<nat>, off: nat, n: nat, low: nat, high: nat, ghost vals: seq<nat>)
      requires Valid() && n > 0 && off + n <= out.Length && |vals| == n
      requires Codable(vals, low, high) && At(WordsBits(words), pos, Code(vals, low, high))
      modifies this, out
      ensures Valid() && pos == old(pos) + |Code(vals, low, high)|
      ensures out[..] == Overwritten(old(out[..]), off, vals)
      decreases n
    {
      hide WordsBits, ToBits, AllWords, Holds, IntCode, At, Code, Codable, Overwritten;
      var h := n / 2;
      CodeOfHalves(vals, low, high);
      HalvesCodable(vals, low, high);
      AtThree(WordsBits(words), pos, IntCode(vals[h] - low, high - low + 1), Code(vals[..h], low, vals[h]),
              Code(vals[h + 1..], vals[h], high));
      OverwrittenInThree(out[..], off, vals, h);
      var v := ReadInt(high - low + 1, vals[h] - low);
      var val := low + v;
      out[off + h] := val;
      if n == 1 {
        EmptyCode(vals[..0], low, val);
        EmptyCode(vals[1..], val, high);
        return;
      }
      if h != 0 {
        ReadInterpolative(out, off, h, low, val, vals[..h]);
      }
      if n - h - 1 != 0 {
        ReadInterpolative(out, off + h + 1, n - h - 1, val, high, vals[h + 1..]);
      } else {
        EmptyCode(vals[h + 1..], val, high);
      }
    }
  }

  /** Reading what was written gives the values back and uses exactly the bits written. */
  method RoundTrip(vals: seq<nat>, low: nat, high: nat) returns (back: seq<nat>, written: nat, used: nat)
    requires vals != [] && Codable(vals, low, high)
    ensures back == vals && used == written == |Code(vals, low, high)|
  {
    hide WordsBits, Code, Codable, Packed, Stream, AllWords;
    var w := new BitWriter();
    w.WriteInterpolative(vals, low, high);
    assert [] + Code(vals, low, high) == Code(vals, low, high);
    StreamIsPrefix(w.buf, w.size);
    PackedWords(w.buf, w.size);
    var r := new BitReader(w.buf);
    var out := new nat[|vals|];
    r.ReadInterpolative(out, 0, |vals|, low, high, vals);
    back, written, used := out[..], w.size, r.pos;
  }

  lemma PackedWords(buf: seq<nat>, size: nat)
    requires Packed(buf, size)
    ensures AllWords(buf)
  {
    hide Pow2;
  }

  function Overwritten(s: seq<nat>, off: nat, vals: seq<nat>): (r: seq<nat>)
    requires off + |vals| <= |s|
    ensures |r| == |s|
  {
    s[..off] + vals + s[off + |vals|..]
  }

  lemma OverwrittenInThree(s: seq<nat>, off: nat, vals: seq<nat>, h: nat)
    requires off + |vals| <= |s| && h < |vals|
    ensures var s1 := s[off + h := vals[h]];
            var s2 := Overwritten(s1, off, vals[..h]);
            && Overwritten(s2, off + h + 1, vals[h + 1..]) == Overwritten(s, off, vals)
            && Overwritten(s1, off, []) == s1 && Overwritten(s2, off + h + 1, []) == s2
  {}

  lemma NoBits(stream: BitString, pos: nat)
    requires pos <= |stream|
    ensures FromBits(stream[pos..pos + 0]) == 0
  {}

  /** A number that stands in the stream is what its bits give back. */
  lemma {:induction false} ReadsBack(stream: BitString, pos: nat, v: nat, len: nat)
    requires At(stream, pos, ToBits(v, len)) && v < Pow2(len)
    ensures pos + len <= |stream| && FromBits(stream[pos..pos + len]) == v
  {
    FromToBits(v, len);
    LowOfSmall(v, len);
  }

  /** The word holds the next bits of the stream. */
  ghost predicate Holds(words: seq<nat>, buf: nat, avail: nat, pos: nat) {
    && pos + avail <= 32 * |words|
    && buf < Pow2(avail)
    && ToBits(buf, avail) == WordsBits(words)[pos..pos + avail]
  }

  lemma Refilled(words: seq<nat>, inPos: nat, avail: nat, buf: nat, pos: nat)
    requires AllWords(words) && inPos < |words| && pos + avail == 32 * inPos
    requires Holds(words, buf, avail, pos)
    ensures Holds(words, Or(buf, Shl(words[inPos], avail)), avail + 32, pos)
  {
    hide WordsBits, ToBits, Or, Shl, Pow2;
    OrOverClear(buf, words[inPos], avail);
    SumBelow(buf, words[inPos], avail, 32);
    ToBitsSum(buf, words[inPos], avail, avail + 32);
    WordAt(words, inPos);
    JoinSlices(WordsBits(words), pos, 32 * inPos, 32 * (inPos + 1));
  }

  lemma {:induction false} TakeLow(words: seq<nat>, buf: nat, avail: nat, pos: nat, len: nat)
    requires len <= avail && Holds(words, buf, avail, pos)
    ensures Low(buf, len) == FromBits(WordsBits(words)[pos..pos + len])
    ensures Holds(words, Shr(buf, len), avail - len, pos + len)
  {
    hide WordsBits, ToBits, FromBits, Shr, Low, Pow2;
    ToBitsParts(buf, len, avail);
    FromToBits(buf, len);
    ShrSmall(buf, len, avail - len);
    JoinSlices(WordsBits(words), pos, pos + len, pos + avail);
  }
}
