/** Stretches of longer sequences. */
module Slices {
  /** `code` stands in `stream` at the given position. */
  ghost predicate At<T>(stream: seq<T>, pos: nat, code: seq<T>) {
    pos + |code| <= |stream| && stream[pos..pos + |code|] == code
  }

  lemma AtParts<T>(stream: seq<T>, pos: nat, a: seq<T>, b: seq<T>)
    requires At(stream, pos, a + b)
    ensures At(stream, pos, a) && At(stream, pos + |a|, b)
  {
    assert stream[pos..pos + |a|] == (a + b)[..|a|];
    assert stream[pos + |a|..pos + |a| + |b|] == (a + b)[|a|..];
  }

  lemma AtThree<T>(stream: seq<T>, pos: nat, a: seq<T>, b: seq<T>, c: seq<T>)
    requires At(stream, pos, a + b + c)
    ensures At(stream, pos, a) && At(stream, pos + |a|, b) && At(stream, pos + |a| + |b|, c)
  {
    hide At;
    AtParts(stream, pos, a + b, c);
    AtParts(stream, pos, a, b);
  }

  lemma AtPlace<T>(stream: seq<T>, pos: nat, code: seq<T>, k: nat)
    requires At(stream, pos, code) && k < |code|
    ensures pos + |code| <= |stream| && stream[pos + k] == code[k]
  {
    assert stream[pos + k] == stream[pos..pos + |code|][k];
  }

  lemma AtLength<T>(stream: seq<T>, pos: nat, code: seq<T>)
    requires At(stream, pos, code)
    ensures pos + |code| <= |stream|
  {}

  lemma JoinSlices<T>(s: seq<T>, a: nat, b: nat, c: nat)
    requires a <= b <= c <= |s|
    ensures s[a..c] == s[a..b] + s[b..c]
  {}

  lemma Regroup<T>(a: seq<T>, b: seq<T>, c: seq<T>, d: seq<T>)
    ensures a + (b + c) + d == a + b + (c + d)
    ensures a + b + c == a + (b + c)
  {}
}
