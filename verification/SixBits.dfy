/** Four 6-bit fields in three bytes: the two lane layouts the K-quant formats use. */
module SixBits {

  /** Low nibbles in x and y, high bit pairs in z: Q3_K scales and Q6_K quants. */
  function First(x: bv8, z: bv8): bv8 { (x & 0x0F) | ((z & 0x03) << 4) }

  function Second(y: bv8, z: bv8): bv8 { (y & 0x0F) | (((z >> 2) & 0x03) << 4) }

  function Third(x: bv8, z: bv8): bv8 { (x >> 4) | (((z >> 4) & 0x03) << 4) }

  function Fourth(y: bv8, z: bv8): bv8 { (y >> 4) | (((z >> 6) & 0x03) << 4) }

  /** Inverse of the lane: the bytes that hold fields a, b, c, d. */
  function PackX(a: bv8, c: bv8): bv8 { (a & 0x0F) | ((c & 0x0F) << 4) }

  function PackZ(a: bv8, b: bv8, c: bv8, d: bv8): bv8 { (a >> 4) | ((b >> 4) << 2) | ((c >> 4) << 4) | ((d >> 4) << 6) }

  predicate IsSix(a: bv8) { a < 64 }

  lemma LaneUnpacks(a: bv8, b: bv8, c: bv8, d: bv8)
    requires IsSix(a) && IsSix(b) && IsSix(c) && IsSix(d)
    ensures var x, y, z := PackX(a, c), PackX(b, d), PackZ(a, b, c, d);
            First(x, z) == a && Second(y, z) == b && Third(x, z) == c && Fourth(y, z) == d
  {
  }

  lemma LanePacks(x: bv8, y: bv8, z: bv8)
    ensures IsSix(First(x, z)) && IsSix(Second(y, z)) && IsSix(Third(x, z)) && IsSix(Fourth(y, z))
    ensures PackX(First(x, z), Third(x, z)) == x && PackX(Second(y, z), Fourth(y, z)) == y
    ensures PackZ(First(x, z), Second(y, z), Third(x, z), Fourth(y, z)) == z
  {
  }

  /** Q4_K: two whole 6-bit fields with 2 spare bits each, and a byte of two nibbles they complete. */
  function Whole(u: bv8): bv8 { u & 0x3F }

  function LowSplit(w: bv8, u: bv8): bv8 { (w & 0x0F) | ((u >> 6) << 4) }

  function HighSplit(w: bv8, v: bv8): bv8 { (w >> 4) | ((v >> 6) << 4) }

  function PackWhole(a: bv8, c: bv8): bv8 { a | ((c >> 4) << 6) }

  function PackNibbles(c: bv8, d: bv8): bv8 { (c & 0x0F) | ((d & 0x0F) << 4) }

  lemma SplitUnpacks(a: bv8, b: bv8, c: bv8, d: bv8)
    requires IsSix(a) && IsSix(b) && IsSix(c) && IsSix(d)
    ensures var u, v, w := PackWhole(a, c), PackWhole(b, d), PackNibbles(c, d);
            Whole(u) == a && Whole(v) == b && LowSplit(w, u) == c && HighSplit(w, v) == d
  {
  }

  lemma SplitPacks(u: bv8, v: bv8, w: bv8)
    ensures IsSix(Whole(u)) && IsSix(Whole(v)) && IsSix(LowSplit(w, u)) && IsSix(HighSplit(w, v))
    ensures PackWhole(Whole(u), LowSplit(w, u)) == u && PackWhole(Whole(v), HighSplit(w, v)) == v
    ensures PackNibbles(LowSplit(w, u), HighSplit(w, v)) == w
  {
  }

  /** Little-endian 32-bit words and their bytes. */
  function Word(b0: bv8, b1: bv8, b2: bv8, b3: bv8): bv32 {
    (b0 as bv32) | ((b1 as bv32) << 8) | ((b2 as bv32) << 16) | ((b3 as bv32) << 24)
  }

  function Byte0(w: bv32): bv8 { (w & 0xFF) as bv8 }

  function Byte1(w: bv32): bv8 { ((w >> 8) & 0xFF) as bv8 }

  function Byte2(w: bv32): bv8 { ((w >> 16) & 0xFF) as bv8 }

  function Byte3(w: bv32): bv8 { ((w >> 24) & 0xFF) as bv8 }

  /** The word-parallel forms, lane by lane. */
  function LowWord(a: bv32, t: bv32, shift: nat): bv32
    requires shift <= 6
  {
    (a & 0x0F0F0F0F) | (((t >> shift) & 0x03030303) << 4)
  }

  function HighWord(a: bv32, t: bv32, shift: nat): bv32
    requires shift <= 6
  {
    ((a >> 4) & 0x0F0F0F0F) | (((t >> shift) & 0x03030303) << 4)
  }

  lemma FirstWord(x0: bv8, x1: bv8, x2: bv8, x3: bv8, z0: bv8, z1: bv8, z2: bv8, z3: bv8)
    ensures var w := LowWord(Word(x0, x1, x2, x3), Word(z0, z1, z2, z3), 0);
            Byte0(w) == First(x0, z0) && Byte1(w) == First(x1, z1) && Byte2(w) == First(x2, z2)
                && Byte3(w) == First(x3, z3)
  {
  }

  lemma SecondWord(y0: bv8, y1: bv8, y2: bv8, y3: bv8, z0: bv8, z1: bv8, z2: bv8, z3: bv8)
    ensures var w := LowWord(Word(y0, y1, y2, y3), Word(z0, z1, z2, z3), 2);
            Byte0(w) == Second(y0, z0) && Byte1(w) == Second(y1, z1) && Byte2(w) == Second(y2, z2)
                && Byte3(w) == Second(y3, z3)
  {
  }

  lemma ThirdWord(x0: bv8, x1: bv8, x2: bv8, x3: bv8, z0: bv8, z1: bv8, z2: bv8, z3: bv8)
    ensures var w := HighWord(Word(x0, x1, x2, x3), Word(z0, z1, z2, z3), 4);
            Byte0(w) == Third(x0, z0) && Byte1(w) == Third(x1, z1) && Byte2(w) == Third(x2, z2)
                && Byte3(w) == Third(x3, z3)
  {
  }

  lemma FourthWord(y0: bv8, y1: bv8, y2: bv8, y3: bv8, z0: bv8, z1: bv8, z2: bv8, z3: bv8)
    ensures var w := HighWord(Word(y0, y1, y2, y3), Word(z0, z1, z2, z3), 6);
            Byte0(w) == Fourth(y0, z0) && Byte1(w) == Fourth(y1, z1) && Byte2(w) == Fourth(y2, z2)
                && Byte3(w) == Fourth(y3, z3)
  {
  }
}
