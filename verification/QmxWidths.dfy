/** The stripe widths of QMX: how many integers a stripe holds, which integers a width fits, and the narrowest width. */
module QmxWidths {
  import opened Arith

  /** The widths a stripe can have; 128 stands for single 32-bit integers at the very end. */
  predicate IsWidth(w: nat) {
    w <= 10 || w == 12 || w == 16 || w == 21 || w == 32 || w == 128
  }

  /** How many integers a stripe of a width holds. */
  function Size(w: nat): (s: nat)
    requires IsWidth(w)
    ensures s > 0 && (w != 128 ==> s % 4 == 0 && s <= 256)
  {
    match w
    case 0 => 256
    case 1 => 128
    case 2 => 64
    case 3 => 40
    case 4 => 32
    case 5 => 24
    case 6 => 20
    case 7 => 36
    case 8 => 16
    case 9 => 28
    case 10 => 12
    case 12 => 20
    case 16 => 8
    case 21 => 12
    case 32 => 4
    case _ => 1
  }

  /** The width a stripe is promoted to when it cannot be filled. */
  function Promoted(w: nat): (p: nat)
    requires IsWidth(w) && w < 32
    ensures IsWidth(p) && w < p <= 32
  {
    if w == 10 then 12
    else if w == 12 then 16
    else if w == 16 then 21
    else if w == 21 then 32
    else w + 1
  }

  function TypeOf(w: nat): (t: nat)
    requires IsWidth(w)
    ensures t < 16
  {
    if w <= 10 then w
    else if w == 12 then 11
    else if w == 16 then 12
    else if w == 21 then 13
    else if w == 32 then 14
    else 15
  }

  /** The width of a type, as the decoder's cases have it. */
  function WidthOf(t: nat): (w: nat)
    requires t < 16
    ensures IsWidth(w)
  {
    if t <= 10 then t
    else if t == 11 then 12
    else if t == 12 then 16
    else if t == 13 then 21
    else if t == 14 then 32
    else 128
  }

  lemma TypesMatch(w: nat)
    requires IsWidth(w)
    ensures WidthOf(TypeOf(w)) == w
  {}

  /** A stripe of width 0 stands for ones; otherwise the integer has at most that many bits. */
  predicate Fits(w: nat, v: nat) {
    if w == 0 then v == 1
    else if w == 128 then v < Pow2(32)
    else v < Pow2(w)
  }

  function BitsNeededFor(v: nat): (w: nat)
    ensures IsWidth(w) && w <= 32
  {
    if v == 0x01 then 0
    else if v <= 0x01 then 1
    else if v <= 0x03 then 2
    else if v <= 0x07 then 3
    else if v <= 0x0F then 4
    else if v <= 0x1F then 5
    else if v <= 0x3F then 6
    else if v <= 0x7F then 7
    else if v <= 0xFF then 8
    else if v <= 0x1FF then 9
    else if v <= 0x3FF then 10
    else if v <= 0xFFF then 12
    else if v <= 0xFFFF then 16
    else if v <= 0x1F_FFFF then 21
    else 32
  }

  lemma Powers()
    ensures Pow2(1) == 2 && Pow2(2) == 4 && Pow2(3) == 8 && Pow2(4) == 16
    ensures Pow2(5) == 32 && Pow2(6) == 64 && Pow2(7) == 128
    ensures Pow2(8) == 0x100 && Pow2(9) == 0x200 && Pow2(10) == 0x400 && Pow2(12) == 0x1000 && Pow2(16) == 0x1_0000
    ensures Pow2(21) == 0x20_0000 && Pow2(32) == 0x1_0000_0000
  {
    assert Pow2(4) == 16;
    Pow2Adds(4, 4);
    Pow2Adds(8, 1);
    Pow2Adds(8, 2);
    Pow2Adds(8, 4);
    Pow2Adds(8, 8);
    Pow2Adds(16, 5);
    Pow2Adds(16, 16);
  }

  /** The width found fits, and no narrower one does. */
  lemma BitsNeededIsLeast(v: nat, w: nat)
    requires v < Pow2(32) && IsWidth(w)
    ensures Fits(BitsNeededFor(v), v)
    ensures Fits(w, v) <==> BitsNeededFor(v) <= w
  {
    hide Pow2;
    Powers();
  }

  /** What fits a width fits every wider one. */
  lemma FitsWider(v: nat, w: nat, wider: nat)
    requires v < Pow2(32) && IsWidth(w) && IsWidth(wider) && w <= wider && Fits(w, v)
    ensures Fits(wider, v)
  {
    BitsNeededIsLeast(v, w);
    BitsNeededIsLeast(v, wider);
  }
}
