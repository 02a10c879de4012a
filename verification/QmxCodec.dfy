/** The QMX codec: runs of equal stripes become keys of up to sixteen stripes each, the stripes' bytes are followed by
    the keys from last to first, and the decoder walks both towards each other. */
module QmxCodec {
  import opened Arith
  import opened Bits
  import opened ByteStrings
  import opened QmxLengths
  import opened QmxStripes
  import opened QmxWidths

  /** A key: so many stripes of one width. */
  datatype Chunk = Chunk(width: nat, batch: nat)

  ghost predicate ChunkOk(c: Chunk) {
    IsWidth(c.width) && 1 <= c.batch <= 16
  }

  /** (type << 4) | (~(batch - 1) & 0x0F) */
  function KeyOf(c: Chunk): nat
    requires IsWidth(c.width) && 1 <= c.batch <= 16
  {
    Or(15 - (c.batch - 1), Shl(TypeOf(c.width), 4))
  }

  lemma KeyParts(c: Chunk)
    requires ChunkOk(c)
    ensures Shr(KeyOf(c), 4) == TypeOf(c.width) && 16 - Low(KeyOf(c), 4) == c.batch && KeyOf(c) < 256
  {
    hide Shr, Low, Or, Shl;
    assert Pow2(4) == 16;
    OrOverClear(16 - c.batch, TypeOf(c.width), 4);
    PartsOfSum(16 - c.batch, TypeOf(c.width), 4);
    assert Pow2(8) == 256;
    SumBelow(16 - c.batch, TypeOf(c.width), 4, 4);
  }

  // ----- where stripes begin -----

  /** The integers and the bytes of the first k stripes. */
  ghost function Values(tiles: seq<nat>, k: nat): nat
    requires k <= |tiles| && Tiles(tiles)
  {
    if k == 0 then 0 else Values(tiles, k - 1) + Size(tiles[k - 1])
  }

  ghost function Bytes(tiles: seq<nat>, k: nat): nat
    requires k <= |tiles| && Tiles(tiles)
  {
    if k == 0 then 0 else Bytes(tiles, k - 1) + StripeBytes(tiles[k - 1])
  }

  lemma {:induction false} ValuesOrdered(tiles: seq<nat>, a: nat, b: nat)
    requires Tiles(tiles) && a <= b <= |tiles|
    ensures Values(tiles, a) + (b - a) <= Values(tiles, b) && Bytes(tiles, a) <= Bytes(tiles, b)
  {
    hide Size, StripeBytes;
    if a == b {
    } else {
      ValuesOrdered(tiles, a, b - 1);
    }
  }

  lemma {:induction false} ValuesOfPrefix(tiles: seq<nat>, n: nat, k: nat)
    requires Tiles(tiles) && k <= n <= |tiles|
    ensures Tiles(tiles[..n]) && Values(tiles[..n], k) == Values(tiles, k)
  {
    hide Size;
    if k == 0 {
    } else {
      ValuesOfPrefix(tiles, n, k - 1);
    }
  }

  lemma {:induction false} SpreadLength(tiles: seq<nat>)
    requires Tiles(tiles)
    ensures |Spread(tiles)| == Values(tiles, |tiles|)
  {
    hide Size;
    if tiles == [] {
    } else {
      var n := |tiles| - 1;
      SpreadLength(tiles[..n]);
      ValuesOfPrefix(tiles, n, n);
    }
  }

  /** The stripe an integer belongs to. */
  lemma {:induction false} StripeOf(tiles: seq<nat>, p: nat) returns (k: nat)
    requires Tiles(tiles) && p < |Spread(tiles)|
    ensures k < |tiles| && Values(tiles, k) <= p < Values(tiles, k + 1) && Spread(tiles)[p] == tiles[k]
    decreases |tiles|
  {
    hide Size;
    var n := |tiles| - 1;
    SpreadLength(tiles);
    SpreadLength(tiles[..n]);
    ValuesOfPrefix(tiles, n, n);
    if p < |Spread(tiles[..n])| {
      k := StripeOf(tiles[..n], p);
      ValuesOfPrefix(tiles, n, k);
      ValuesOfPrefix(tiles, n, k + 1);
    } else {
      k := n;
    }
  }

  /** Where the width changes, and at the end, a stripe begins. */
  lemma StripeBegins(tiles: seq<nat>, p: nat) returns (k: nat)
    requires Tiles(tiles) && p <= |Spread(tiles)|
    requires p == 0 || p == |Spread(tiles)| || Spread(tiles)[p - 1] != Spread(tiles)[p]
    ensures k <= |tiles| && Values(tiles, k) == p
  {
    hide Size, Spread;
    SpreadLength(tiles);
    if p == 0 {
      k := 0;
    } else if p == |Spread(tiles)| {
      k := |tiles|;
    } else {
      k := StripeOf(tiles, p);
      var before := StripeOf(tiles, p - 1);
      if before != k {
        ValuesOrdered(tiles, if before < k then before + 1 else k + 1, if before < k then k else before);
      }
    }
  }

  /** The stripes of a run all have its width. */
  lemma {:induction false} RunStripes(tiles: seq<nat>, t: nat, j: nat, w: nat)
    requires Tiles(tiles) && t <= j <= |tiles| && Values(tiles, j) <= |Spread(tiles)|
    requires forall i :: Values(tiles, t) <= i < Values(tiles, j) ==> Spread(tiles)[i] == w
    ensures forall k :: t <= k < j ==> tiles[k] == w
  {
    hide Size, Spread;
    forall k | t <= k < j ensures tiles[k] == w {
      ValuesOrdered(tiles, t, k);
      ValuesOrdered(tiles, k + 1, j);
      FirstOfStripe(tiles, k);
    }
  }

  lemma FirstOfStripe(tiles: seq<nat>, k: nat)
    requires Tiles(tiles) && k < |tiles| && Values(tiles, k + 1) <= |Spread(tiles)|
    ensures Values(tiles, k) < Values(tiles, k + 1) && Spread(tiles)[Values(tiles, k)] == tiles[k]
  {
    hide Spread;
    var found := StripeOf(tiles, Values(tiles, k));
    if found < k { ValuesOrdered(tiles, found + 1, k); }
    if k < found { ValuesOrdered(tiles, k + 1, found); }
  }

  lemma {:induction false} RunLength(tiles: seq<nat>, t: nat, j: nat, w: nat)
    requires Tiles(tiles) && t <= j <= |tiles| && IsWidth(w) && forall k :: t <= k < j ==> tiles[k] == w
    ensures Values(tiles, j) == Values(tiles, t) + (j - t) * Size(w)
  {
    hide Size;
    if t == j {
    } else {
      RunLength(tiles, t, j - 1, w);
      assert (j - t) * Size(w) == (j - 1 - t) * Size(w) + Size(w);
    }
  }

  lemma ExactCount(count: nat, size: nat)
    requires size > 0
    ensures CeilDiv(count * size, size) == count
  {
    BelowCeilDiv(count, count * size, size);
    if count > 0 {
      BelowCeilDiv(count - 1, count * size, size);
      MulMonotone(count - 1, count, size);
      assert (count - 1) * size + size == count * size;
    }
  }

  // ----- what the encoder leaves -----

  /** The stripes cover the input, each with integers its width fits. */
  ghost predicate Covers(tiles: seq<nat>, source: seq<nat>) {
    Tiles(tiles) && |Spread(tiles)| == |source| && forall i :: 0 <= i < |source| ==> Fits(Spread(tiles)[i], source[i])
  }

  ghost predicate StripeAt(data: seq<nat>, source: seq<nat>, tiles: seq<nat>, i: nat)
    requires Tiles(tiles) && i < |tiles|
  {
    && Values(tiles, i) <= Values(tiles, i + 1) <= |source| && Bytes(tiles, i) <= Bytes(tiles, i + 1) <= |data|
    && StripeStored(data[Bytes(tiles, i)..Bytes(tiles, i + 1)], tiles[i],
                    source[Values(tiles, i)..Values(tiles, i + 1)])
  }

  /** The data holds the first k stripes. */
  ghost predicate StripesDone(data: seq<nat>, source: seq<nat>, tiles: seq<nat>, k: nat)
    requires Tiles(tiles)
  {
    k <= |tiles| && |data| == Bytes(tiles, k) && AllBytes(data) && forall i :: 0 <= i < k ==> StripeAt(data, source, tiles, i)
  }

  /** The stripes of the first c keys. */
  ghost function Keyed(chunks: seq<Chunk>, c: nat): nat
    requires c <= |chunks|
  {
    if c == 0 then 0 else Keyed(chunks, c - 1) + chunks[c - 1].batch
  }

  ghost predicate ChunkCovers(chunks: seq<Chunk>, tiles: seq<nat>, c: nat)
    requires c < |chunks|
  {
    && ChunkOk(chunks[c]) && Keyed(chunks, c) + chunks[c].batch <= |tiles|
    && forall k :: Keyed(chunks, c) <= k < Keyed(chunks, c) + chunks[c].batch ==> tiles[k] == chunks[c].width
  }

  /** The keys so far stand for the first k stripes. */
  ghost predicate KeysDone(keys: seq<nat>, chunks: seq<Chunk>, tiles: seq<nat>, k: nat) {
    && |keys| == |chunks| && Keyed(chunks, |chunks|) == k && AllBytes(keys)
    && (forall c :: 0 <= c < |chunks| ==> ChunkCovers(chunks, tiles, c))
    && forall c :: 0 <= c < |chunks| ==> ChunkOk(chunks[c]) && keys[c] == KeyOf(chunks[c])
  }

  /** Keys of one width in a row are full but for the last. */
  ghost predicate KeysFull(chunks: seq<Chunk>) {
    forall c :: 0 <= c < |chunks| - 1 ==> KeyFull(chunks, c)
  }

  ghost predicate KeyFull(chunks: seq<Chunk>, c: nat)
    requires c + 1 < |chunks|
  {
    chunks[c].width == chunks[c + 1].width ==> chunks[c].batch == 16
  }

  lemma KeysFullMore(chunks: seq<Chunk>, c: Chunk)
    requires KeysFull(chunks)
    requires chunks != [] ==> chunks[|chunks| - 1].width != c.width || chunks[|chunks| - 1].batch == 16
    ensures KeysFull(chunks + [c])
  {
    var more := chunks + [c];
    forall k | 0 <= k < |more| - 1 ensures KeyFull(more, k) {
      if k < |chunks| - 1 { assert KeyFull(chunks, k); }
    }
  }

  lemma StripeMore(data: seq<nat>, bytes: seq<nat>, source: seq<nat>, tiles: seq<nat>, k: nat)
    requires Tiles(tiles) && k < |tiles| && StripesDone(data, source, tiles, k)
    requires Values(tiles, k + 1) <= |source| && Values(tiles, k) <= Values(tiles, k + 1)
    requires StripeStored(bytes, tiles[k], source[Values(tiles, k)..Values(tiles, k + 1)])
    ensures StripesDone(data + bytes, source, tiles, k + 1)
  {
    hide StripeStored, Values;
    StoredLength(bytes, tiles[k], source[Values(tiles, k)..Values(tiles, k + 1)]);
    var more := data + bytes;
    forall i | 0 <= i < k + 1 ensures StripeAt(more, source, tiles, i) {
      if i < k {
        assert StripeAt(data, source, tiles, i);
        assert more[Bytes(tiles, i)..Bytes(tiles, i + 1)] == data[Bytes(tiles, i)..Bytes(tiles, i + 1)];
      } else {
        assert more[Bytes(tiles, k)..Bytes(tiles, k + 1)] == bytes;
      }
    }
  }

  lemma StoredLength(bytes: seq<nat>, w: nat, vs: seq<nat>)
    requires IsWidth(w) && StripeStored(bytes, w, vs)
    ensures |bytes| == StripeBytes(w) && AllBytes(bytes)
  {}

  lemma StripeFits(tiles: seq<nat>, source: seq<nat>, k: nat)
    requires Covers(tiles, source) && k < |tiles|
    ensures Values(tiles, k) <= Values(tiles, k + 1) <= |source|
    ensures Values(tiles, k + 1) == Values(tiles, k) + Size(tiles[k])
    ensures AllFits(tiles[k], source[Values(tiles, k)..Values(tiles, k + 1)])
  {
    hide Fits, Spread, Size;
    SpreadLength(tiles);
    ValuesOrdered(tiles, k + 1, |tiles|);
    forall i | Values(tiles, k) <= i < Values(tiles, k + 1) ensures Fits(tiles[k], source[i]) {
      var found := StripeOf(tiles, i);
      if found < k { ValuesOrdered(tiles, found + 1, k); }
      if k < found { ValuesOrdered(tiles, k + 1, found); }
    }
  }

  lemma {:induction false} KeyedPrefix(chunks: seq<Chunk>, more: seq<Chunk>, c: nat)
    requires chunks <= more && c <= |chunks|
    ensures Keyed(chunks, c) == Keyed(more, c)
  {
    if c == 0 {
    } else {
      KeyedPrefix(chunks, more, c - 1);
    }
  }

  lemma KeyMore(keys: seq<nat>, chunks: seq<Chunk>, tiles: seq<nat>, k: nat, c: Chunk)
    requires KeysDone(keys, chunks, tiles, k) && ChunkOk(c) && k + c.batch <= |tiles|
    requires forall i :: k <= i < k + c.batch ==> tiles[i] == c.width
    ensures KeysDone(keys + [KeyOf(c)], chunks + [c], tiles, k + c.batch)
  {
    hide KeyOf;
    KeyParts(c);
    var more := chunks + [c];
    KeyedPrefix(chunks, more, |chunks|);
    forall i | 0 <= i < |more| ensures ChunkCovers(more, tiles, i) {
      if i < |chunks| {
        assert ChunkCovers(chunks, tiles, i);
        KeyedPrefix(chunks, more, i);
      }
    }
  }

  /** Writes one key's stripes. */
  method WriteStripes(source: seq<nat>, from: nat, data: seq<nat>, batch: nat, w: nat, ghost tiles: seq<nat>,
                      ghost t: nat)
    returns (more: seq<nat>, next: nat)
    requires Covers(tiles, source) && IsWidth(w) && t + batch <= |tiles| && StripesDone(data, source, tiles, t)
    requires (forall k :: t <= k < t + batch ==> tiles[k] == w) && from == Values(tiles, t)
    ensures StripesDone(more, source, tiles, t + batch) && next == Values(tiles, t + batch)
  {
    hide Covers, StripesDone, StripeStored, AllFits, Size, Values;
    CoversTiles(tiles, source);
    more, next := data, from;
    for current := 0 to batch
      invariant StripesDone(more, source, tiles, t + current) && next == Values(tiles, t + current)
    {
      StripeFits(tiles, source, t + current);
      var bytes := EncodeStripe(w, source[next..next + Size(w)]);
      StripeMore(more, bytes, source, tiles, t + current);
      more := more + bytes;
      next := next + Size(w);
    }
  }

  lemma {:induction false} CoversTiles(tiles: seq<nat>, source: seq<nat>)
    requires Covers(tiles, source)
    ensures Tiles(tiles) && |Spread(tiles)| == |source| && Values(tiles, |tiles|) == |source|
  {
    SpreadLength(tiles);
  }

  /** Writes a run of integers of one width: keys into the front of the length buffer, stripes behind the data.
      The run is a whole number of stripes, so no stripe is cut short at its end. */
  method WriteOut(lengths: array<nat>, keyCount: nat, source: seq<nat>, data: seq<nat>, from: nat, rawCount: nat,
                  w: nat,
                  ghost tiles: seq<nat>, ghost t: nat, ghost j: nat, ghost chunks: seq<Chunk>)
    returns (newCount: nat, more: seq<nat>, ghost newChunks: seq<Chunk>)
    requires Covers(tiles, source) && IsWidth(w) && t <= j <= |tiles| && |source| <= lengths.Length
    requires from == Values(tiles, t) && from + rawCount == Values(tiles, j) && forall k :: t <= k < j ==> tiles[k] == w
    requires keyCount <= from <= lengths.Length && KeysDone(lengths[..keyCount], chunks, tiles, t)
    requires StripesDone(data, source, tiles, t)
    requires KeysFull(chunks) && (chunks != [] ==> chunks[|chunks| - 1].width != w)
    modifies lengths
    ensures KeysFull(newChunks) && (rawCount > 0 ==> newChunks != [] && newChunks[|newChunks| - 1].width == w)
    ensures newCount <= from + rawCount <= lengths.Length
    ensures KeysDone(lengths[..newCount], newChunks, tiles, j) && StripesDone(more, source, tiles, j)
    ensures forall i :: from + rawCount <= i < lengths.Length ==> lengths[i] == old(lengths[i])
  {
    hide Covers, StripesDone, KeysDone, KeyOf, Size, Values, Tiles, Spread, KeysFull;
    CoversTiles(tiles, source);
    ValuesOrdered(tiles, j, |tiles|);
    RunLength(tiles, t, j, w);
    ExactCount(j - t, Size(w));
    var count: nat := CeilDiv(rawCount, Size(w));
    newCount, more, newChunks := keyCount, data, chunks;
    var at := from;
    while count > 0
      invariant count <= j - t && at == Values(tiles, j - count) && newCount <= at <= from + rawCount
      invariant KeysDone(lengths[..newCount], newChunks, tiles, j - count)
      invariant StripesDone(more, source, tiles, j - count)
      invariant KeysFull(newChunks) && (count < j - t ==> newChunks != [] && newChunks[|newChunks| - 1].width == w)
      invariant count > 0 && newChunks != [] ==>
                  newChunks[|newChunks| - 1].width != w || newChunks[|newChunks| - 1].batch == 16
      invariant forall i :: from + rawCount <= i < lengths.Length ==> lengths[i] == old(lengths[i])
    {
      var batch := if count > 16 then 16 else count;
      ghost var k := j - count;
      ValuesOrdered(tiles, k, k + batch);
      ValuesOrdered(tiles, k + batch, j);
      KeyMore(lengths[..newCount], newChunks, tiles, k, Chunk(w, batch));
      KeysFullMore(newChunks, Chunk(w, batch));
      lengths[newCount] := KeyOf(Chunk(w, batch));
      assert lengths[..newCount + 1] == lengths[..newCount] + [KeyOf(Chunk(w, batch))];
      newCount, newChunks := newCount + 1, newChunks + [Chunk(w, batch)];
      count := count - batch;
      more, at := WriteStripes(source, at, more, batch, w, tiles, k);
    }
  }

  /** The bytes of an encoded list: all stripes, then all keys from last to first. */
  ghost predicate Encoded(bytes: seq<nat>, source: seq<nat>, tiles: seq<nat>, chunks: seq<Chunk>, keys: seq<nat>) {
    && AllBytes(bytes) && Covers(tiles, source) && KeysDone(keys, chunks, tiles, |tiles|)
    && |bytes| == Bytes(tiles, |tiles|) + |keys| && StripesDone(bytes[..Bytes(tiles, |tiles|)], source, tiles, |tiles|)
    && forall c :: 0 <= c < |keys| ==> bytes[|bytes| - 1 - c] == keys[c]
  }

  /** Some stripes and some keys make the bytes an encoding of the list. */
  ghost predicate IsEncoding(bytes: seq<nat>, source: seq<nat>) {
    exists tiles: seq<nat>, chunks: seq<Chunk>, keys: seq<nat> :: Encoded(bytes, source, tiles, chunks, keys)
  }

  lemma MakesEncoding(bytes: seq<nat>, source: seq<nat>, tiles: seq<nat>, chunks: seq<Chunk>, keys: seq<nat>)
    requires Encoded(bytes, source, tiles, chunks, keys)
    ensures IsEncoding(bytes, source)
  {
    hide Encoded;
  }

  method EncodeArray(source: seq<nat>)
    returns (bytes: seq<nat>, ghost tiles: seq<nat>, ghost chunks: seq<Chunk>, ghost keys: seq<nat>)
    requires source != [] && AllWords(source)
    ensures IsEncoding(bytes, source)
    ensures Encoded(bytes, source, tiles, chunks, keys)
    ensures Tiles(tiles) && LeastStripes(source, tiles) && KeysFull(chunks)
  {
    hide Fits, Spread, StripesDone, KeysDone, Covers, AllWords, Values, LeastStripes, KeysFull;
    var lengths;
    lengths, tiles := ComputeLengths(source);
    LengthsCover(lengths[..], source, tiles);
    CoversTiles(tiles, source);
    var data, keyCount;
    data, keyCount, chunks := EncodeRuns(lengths, source, tiles);
    keys := lengths[..keyCount];
    DataLength(data, source, tiles);
    KeysAreBytes(keys, chunks, tiles, |tiles|);
    bytes := CopyKeys(data, lengths[..keyCount]);
    MakesEncoding(bytes, source, tiles, chunks, keys);
  }

  /** Copies the keys behind the data, backwards. */
  method CopyKeys(data: seq<nat>, keys: seq<nat>) returns (bytes: seq<nat>)
    requires AllBytes(data) && AllBytes(keys)
    ensures AllBytes(bytes)
    ensures |bytes| == |data| + |keys| && bytes[..|data|] == data
    ensures forall c :: 0 <= c < |keys| ==> bytes[|bytes| - 1 - c] == keys[c]
  {
    bytes := data;
    for pos := 0 to |keys|
      invariant |bytes| == |data| + pos && bytes[..|data|] == data && AllBytes(bytes)
      invariant forall c :: |keys| - pos <= c < |keys| ==> bytes[|data| + |keys| - 1 - c] == keys[c]
    {
      bytes := bytes + [keys[|keys| - 1 - pos]];
    }
  }

  lemma {:induction false} DataLength(data: seq<nat>, source: seq<nat>, tiles: seq<nat>)
    requires Tiles(tiles) && StripesDone(data, source, tiles, |tiles|)
    ensures |data| == Bytes(tiles, |tiles|) && AllBytes(data)
  {}

  lemma KeysAreBytes(keys: seq<nat>, chunks: seq<Chunk>, tiles: seq<nat>, k: nat)
    requires KeysDone(keys, chunks, tiles, k)
    ensures AllBytes(keys)
  {}

  lemma {:induction false} LengthsCover(lengths: seq<nat>, source: seq<nat>, tiles: seq<nat>)
    requires AllFit(lengths, source) && Tiles(tiles) && lengths[..|source|] == Spread(tiles)
    ensures Covers(tiles, source) && |lengths| == |source| + WASTAGE
  {
    hide Fits, Spread;
  }

  /** Collects runs of equal widths and writes each out. The keys take the place of widths already read. */
  method EncodeRuns(lengths: array<nat>, source: seq<nat>, ghost tiles: seq<nat>)
    returns (data: seq<nat>, keyCount: nat, ghost chunks: seq<Chunk>)
    requires source != [] && Covers(tiles, source) && lengths.Length >= |source| && lengths[..|source|] == Spread(tiles)
    modifies lengths
    ensures keyCount <= lengths.Length && Tiles(tiles)
    ensures KeysDone(lengths[..keyCount], chunks, tiles, |tiles|) && StripesDone(data, source, tiles, |tiles|)
    ensures KeysFull(chunks)
  {
    hide Fits, Spread, StripesDone, KeysDone, Values, Covers, Tiles;
    CoversTiles(tiles, source);
    ghost var widths := Spread(tiles);
    var runLength: nat := 1;
    var bits := lengths[0];
    ghost var t: nat := 0;
    data, keyCount, chunks := [], 0, [];
    NothingWritten(source, tiles);
    WidthAt(tiles, 0);
    for current := 1 to |source|
      invariant 1 <= runLength <= current && keyCount <= current - runLength
      invariant t <= |tiles| && Values(tiles, t) == current - runLength && IsWidth(bits)
      invariant forall i :: current - runLength <= i < current ==> widths[i] == bits
      invariant forall i :: current - runLength <= i < |source| ==> lengths[i] == widths[i]
      invariant KeysDone(lengths[..keyCount], chunks, tiles, t) && StripesDone(data, source, tiles, t)
      invariant KeysFull(chunks) && (chunks != [] ==> chunks[|chunks| - 1].width != bits)
    {
      var newNeeded := lengths[current];
      if newNeeded == bits {
        runLength := runLength + 1;
      } else {
        ghost var j := StripeBegins(tiles, current);
        RunIsStripes(tiles, t, j, current - runLength, current, bits);
        keyCount, data, chunks := WriteOut(lengths, keyCount, source, data, current - runLength, runLength, bits, tiles,
                                           t, j, chunks);
        t := j;
        WidthAt(tiles, current);
        bits := newNeeded;
        runLength := 1;
      }
    }
    RunIsStripes(tiles, t, |tiles|, |source| - runLength, |source|, bits);
    keyCount, data, chunks := WriteOut(lengths, keyCount, source, data, |source| - runLength, runLength, bits, tiles, t,
                                       |tiles|, chunks);
  }

  lemma {:induction false} NothingWritten(source: seq<nat>, tiles: seq<nat>)
    requires Tiles(tiles)
    ensures KeysDone([], [], tiles, 0) && StripesDone([], source, tiles, 0) && Values(tiles, 0) == 0
  {}

  lemma {:induction false} WidthAt(tiles: seq<nat>, p: nat)
    requires Tiles(tiles) && p < |Spread(tiles)|
    ensures IsWidth(Spread(tiles)[p])
  {
    hide Spread, Values;
    var k := StripeOf(tiles, p);
  }

  /** A run between two places where stripes begin is made of the stripes between them. */
  lemma {:induction false} RunIsStripes(tiles: seq<nat>, t: nat, j: nat, from: nat, to: nat, w: nat)
    requires Tiles(tiles) && t <= |tiles| && j <= |tiles| && from < to <= |Spread(tiles)|
    requires Values(tiles, t) == from && Values(tiles, j) == to
    requires forall i :: from <= i < to ==> Spread(tiles)[i] == w
    ensures t <= j && forall k :: t <= k < j ==> tiles[k] == w
  {
    hide Spread, Values;
    if j < t { ValuesOrdered(tiles, j, t); }
    RunStripes(tiles, t, j, w);
  }

  // ----- decoding -----

  /** Reads one key's stripes. */
  method ReadStripes(bytes: seq<nat>, start: nat, w: nat, run: nat, ghost source: seq<nat>, ghost tiles: seq<nat>,
                     ghost t: nat)
    returns (out: seq<nat>, next: nat)
    requires Covers(tiles, source) && t + run <= |tiles| && IsWidth(w) && forall k :: t <= k < t + run ==> tiles[k] == w
    requires Bytes(tiles, |tiles|) <= |bytes| && StripesDone(bytes[..Bytes(tiles, |tiles|)], source, tiles, |tiles|)
    requires start == Bytes(tiles, t)
    ensures next == Bytes(tiles, t + run)
    ensures Values(tiles, t) <= Values(tiles, t + run) <= |source|
    ensures out == source[Values(tiles, t)..Values(tiles, t + run)]
  {
    hide StripesDone, StripeStored, Values, Covers, Size, Spread, StripeAt;
    CoversTiles(tiles, source);
    ValuesOrdered(tiles, t, |tiles|);
    out, next := [], start;
    for i := 0 to run
      invariant next == Bytes(tiles, t + i) && Values(tiles, t) <= Values(tiles, t + i) <= |source|
      invariant out == source[Values(tiles, t)..Values(tiles, t + i)]
    {
      ReadableStripe(bytes, source, tiles, t + i);
      var vs := DecodeStripe(bytes, next, w, source[Values(tiles, t + i)..Values(tiles, t + i + 1)]);
      out := out + vs;
      next := next + StripeBytes(w);
    }
  }

  lemma ReadableStripe(bytes: seq<nat>, source: seq<nat>, tiles: seq<nat>, k: nat)
    requires Tiles(tiles) && k < |tiles| && Bytes(tiles, |tiles|) <= |bytes|
    requires StripesDone(bytes[..Bytes(tiles, |tiles|)], source, tiles, |tiles|)
    ensures Values(tiles, k) <= Values(tiles, k + 1) <= |source|
    ensures Bytes(tiles, k + 1) == Bytes(tiles, k) + StripeBytes(tiles[k]) <= |bytes|
    ensures StripeStored(bytes[Bytes(tiles, k)..Bytes(tiles, k) + StripeBytes(tiles[k])], tiles[k],
                         source[Values(tiles, k)..Values(tiles, k + 1)])
  {
    hide StripeStored, Values;
    var data := bytes[..Bytes(tiles, |tiles|)];
    assert StripeAt(data, source, tiles, k);
    assert bytes[Bytes(tiles, k)..Bytes(tiles, k + 1)] == data[Bytes(tiles, k)..Bytes(tiles, k + 1)];
  }

  /** What the next key says, and that it is there exactly while keys are left. */
  lemma NextKey(bytes: seq<nat>, source: seq<nat>, tiles: seq<nat>, chunks: seq<Chunk>, keys: seq<nat>, c: nat)
    requires Encoded(bytes, source, tiles, chunks, keys) && c <= |chunks|
    ensures |keys| == |chunks| && Keyed(chunks, c) <= |tiles|
    ensures Bytes(tiles, Keyed(chunks, c)) <= |bytes| - 1 - c <==> c < |chunks|
    ensures c < |chunks| ==> 0 <= |bytes| - 1 - c && ChunkOk(chunks[c]) && bytes[|bytes| - 1 - c] == KeyOf(chunks[c])
    ensures c < |chunks| ==> Keyed(chunks, c + 1) == Keyed(chunks, c) + chunks[c].batch <= |tiles|
    ensures c < |chunks| ==> forall k :: Keyed(chunks, c) <= k < Keyed(chunks, c + 1) ==> tiles[k] == chunks[c].width
    ensures c == |chunks| ==> Keyed(chunks, c) == |tiles|
  {
    hide StripesDone, Spread, Fits, KeyOf, StripeBytes, Size;
    if c < |chunks| {
      assert ChunkCovers(chunks, tiles, c);
      ValuesOrdered(tiles, Keyed(chunks, c), |tiles|);
    }
  }

  /** Data from the front, keys from the back, until they meet. */
  method DecodeArray(bytes: seq<nat>, ghost source: seq<nat>, ghost tiles: seq<nat>, ghost chunks: seq<Chunk>,
                     ghost keyBytes: seq<nat>)
    returns (to: seq<nat>)
    requires Encoded(bytes, source, tiles, chunks, keyBytes)
    ensures to == source
  {
    hide Encoded, StripesDone, KeysDone, Covers, Tiles, Values, Bytes, Keyed, KeyOf, Low, Shr, Spread;
    EncodedFacts(bytes, source, tiles, chunks, keyBytes);
    to := [];
    var at := 0;
    var keys: int := |bytes| - 1;
    ghost var c := 0;
    NextKey(bytes, source, tiles, chunks, keyBytes, 0);
    while at <= keys
      invariant c <= |chunks| && keys == |bytes| - 1 - c && Keyed(chunks, c) <= |tiles|
      invariant at == Bytes(tiles, Keyed(chunks, c)) && Values(tiles, Keyed(chunks, c)) <= |source|
      invariant to == source[..Values(tiles, Keyed(chunks, c))]
      invariant at <= keys <==> c < |chunks|
      decreases |chunks| - c
    {
      NextKey(bytes, source, tiles, chunks, keyBytes, c);
      KeyParts(chunks[c]);
      TypesMatch(chunks[c].width);
      var key := bytes[keys];
      keys := keys - 1;
      // in the source type 15 falls through from case to case, one integer each, up to the last case
      var out;
      out, at := ReadStripes(bytes, at, WidthOf(Shr(key, 4)), 16 - Low(key, 4), source, tiles, Keyed(chunks, c));
      to := to + out;
      c := c + 1;
      NextKey(bytes, source, tiles, chunks, keyBytes, c);
    }
    NextKey(bytes, source, tiles, chunks, keyBytes, c);
  }

  lemma {:induction false} EncodedFacts(bytes: seq<nat>, source: seq<nat>, tiles: seq<nat>, chunks: seq<Chunk>,
                                        keys: seq<nat>)
    requires Encoded(bytes, source, tiles, chunks, keys)
    ensures Covers(tiles, source) && Tiles(tiles) && Bytes(tiles, |tiles|) <= |bytes|
    ensures Values(tiles, |tiles|) == |source|
    ensures StripesDone(bytes[..Bytes(tiles, |tiles|)], source, tiles, |tiles|)
    ensures Keyed(chunks, 0) == 0 && Values(tiles, 0) == 0 && Bytes(tiles, 0) == 0
  {
    CoversTiles(tiles, source);
  }

  /** Decoding what was encoded gives the list back. */
  method RoundTrip(source: seq<nat>) returns (decoded: seq<nat>)
    requires source != [] && AllWords(source)
    ensures decoded == source
  {
    hide Encoded;
    var bytes;
    ghost var tiles, chunks, keys;
    bytes, tiles, chunks, keys := EncodeArray(source);
    decoded := DecodeArray(bytes, source, tiles, chunks, keys);
  }

  /** 256 ones are one stripe of width 0, which takes no bytes, and its key. */
  method OnesTakeOneByte() returns (bytes: seq<nat>)
    ensures |bytes| == 1
  {
    var source := seq(256, i => 1);
    var out;
    ghost var tiles, chunks, keys;
    OnesFit(source);
    out, tiles, chunks, keys := EncodeArray(source);
    bytes := out;
    OneStripe(source);
    EncodedFacts(bytes, source, tiles, chunks, keys);
    CoversTiles(tiles, source);
    StripesDetermined(source, tiles, [0]);
    OneKey(bytes, source, chunks, keys);
  }

  lemma OnesFit(source: seq<nat>)
    requires forall i :: 0 <= i < |source| ==> source[i] == 1
    ensures AllWords(source)
  {
    assert Pow2(32) > 1;
  }

  lemma OneStripe(source: seq<nat>)
    requires source == seq(256, i => 1)
    ensures Tiles([0]) && LeastStripes(source, [0]) && |Spread([0])| == 256
  {
    assert [0][..0] == [];
    SpreadMore([], 0);
    assert [] + [0] == [0];
  }

  lemma OneKey(bytes: seq<nat>, source: seq<nat>, chunks: seq<Chunk>, keys: seq<nat>)
    requires Encoded(bytes, source, [0], chunks, keys)
    ensures |bytes| == 1
  {
    hide Covers, StripesDone, Spread;
    assert [0][..0] == [];
    assert Bytes([0], 1) == Bytes([0], 0) + 0;
    assert |keys| == |chunks| && Keyed(chunks, |chunks|) == 1;
    forall c | 0 <= c < |chunks| ensures chunks[c].batch >= 1 { assert ChunkCovers(chunks, [0], c); }
    KeyedAtLeast(chunks);
  }

  lemma {:induction false} KeyedAtLeast(chunks: seq<Chunk>)
    requires forall c :: 0 <= c < |chunks| ==> chunks[c].batch >= 1
    ensures Keyed(chunks, |chunks|) >= |chunks|
  {
    if chunks == [] {
    } else {
      var n := |chunks| - 1;
      KeyedAtLeast(chunks[..n]);
      KeyedPrefix(chunks[..n], chunks, n);
    }
  }
}
