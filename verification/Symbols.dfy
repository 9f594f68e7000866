/** Length and distance symbols with their extra bits. */
module Symbols {
  import opened Prelude

  const MIN_MATCH: nat := 3
  const MAX_MATCH: nat := 258
  const NUM_LL: nat := 288
  const NUM_D: nat := 32
  const WINDOW_SIZE: nat := 32768
  const END_OF_BLOCK: nat := 256

  // ---- The tables of section 3.2.5 of RFC 1951, symbol by symbol ----

  /** The first length that symbol 257 + i stands for, and its number of extra bits. */
  const LENGTH_BASE: seq<nat> :=
    [3, 4, 5, 6, 7, 8, 9, 10, 11, 13, 15, 17, 19, 23, 27, 31, 35, 43, 51, 59, 67, 83, 99, 115, 131, 163, 195, 227, 258]

  const LENGTH_EXTRA: seq<nat> :=
    [0, 0, 0, 0, 0, 0, 0, 0, 1, 1, 1, 1, 2, 2, 2, 2, 3, 3, 3, 3, 4, 4, 4, 4, 5, 5, 5, 5, 0]

  /** The first distance that a distance symbol stands for, and its number of extra bits. */
  const DIST_BASE: seq<nat> :=
    [1, 2, 3, 4, 5, 7, 9, 13, 17, 25, 33, 49, 65, 97, 129, 193, 257, 385, 513, 769, 1025, 1537, 2049, 3073, 4097, 6145,
     8193, 12289, 16385, 24577]

  const DIST_EXTRA: seq<nat> :=
    [0, 0, 0, 0, 1, 1, 2, 2, 3, 3, 4, 4, 5, 5, 6, 6, 7, 7, 8, 8, 9, 9, 10, 10, 11, 11, 12, 12, 13, 13]

  // ---- The compressor's tables by length (in closed form) ----

  function LengthSymbol(length: nat): nat {
    if length < 3 then 0
    else if length < 11 then length + 254
    else if length < 19 then 265 + (length - 11) / 2
    else if length < 35 then 269 + (length - 19) / 4
    else if length < 67 then 273 + (length - 35) / 8
    else if length < 131 then 277 + (length - 67) / 16
    else if length < 258 then 281 + (length - 131) / 32
    else 285
  }

  /** The last length that has the same symbol. */
  function LengthSymbolRunEnd(length: nat): (e: nat)
    requires length <= MAX_MATCH
    ensures length <= e <= MAX_MATCH && forall k :: length <= k <= e ==> LengthSymbol(k) == LengthSymbol(length)
    decreases MAX_MATCH - length
  {
    if length < MAX_MATCH && LengthSymbol(length + 1) == LengthSymbol(length) then LengthSymbolRunEnd(length + 1)
      else length
  }

  function LengthExtraBits(length: nat): nat {
    if length < 11 then 0
    else if length < 19 then 1
    else if length < 35 then 2
    else if length < 67 then 3
    else if length < 131 then 4
    else if length < 258 then 5
    else 0
  }

  function LengthExtraValue(length: nat): nat {
    if length < 11 then 0
    else if length < 19 then (length - 11) % 2
    else if length < 35 then (length - 19) % 4
    else if length < 67 then (length - 35) % 8
    else if length < 131 then (length - 67) % 16
    else if length < 258 then (length - 131) % 32
    else 0
  }

  function LengthSymbolExtraBits(symbol: nat): nat
    requires 257 <= symbol <= 285
  {
    LENGTH_EXTRA[symbol - 257]
  }

  function DistSymbolExtraBits(symbol: nat): nat
    requires symbol < 30
  {
    DIST_EXTRA[symbol]
  }

  /** The symbols of one group of lengths: four runs of `w` lengths from `a` on, `g` extra bits. */
  ghost predicate LengthGroup(a: nat, w: nat, g: nat) {
    (g == 1 && a == 11 && w == 2) || (g == 2 && a == 19 && w == 4) || (g == 3 && a == 35 && w == 8)
    || (g == 4 && a == 67 && w == 16) || (g == 5 && a == 131 && w == 32)
  }

  lemma LengthTable(a: nat, w: nat, g: nat, q: nat)
    requires LengthGroup(a, w, g) && q < 4
    ensures LENGTH_BASE[4 + 4 * g + q]
            == (if q == 0 then a else if q == 1 then a + w else if q == 2 then a + 2 * w else a + 3 * w)
    ensures LENGTH_EXTRA[4 + 4 * g + q] == g
  {
  }

  lemma LengthInGroup(length: nat, a: nat, w: nat, g: nat)
    requires LengthGroup(a, w, g) && a <= length < a + 4 * w && length < 258
    ensures var q := (length - a) / w;
            && q < 4 && LengthSymbol(length) == 261 + 4 * g + q
            && LengthExtraBits(length) == g && LengthExtraValue(length) == (length - a) % w < w
            && length == (if q == 0 then a else if q == 1 then a + w else if q == 2 then a + 2 * w else a + 3 * w)
               + (length - a) % w
  {
  }

  lemma ShortLengthTable(length: nat)
    requires length == 258 || 3 <= length < 11
    ensures LENGTH_BASE[LengthSymbol(length) - 257] == length && LENGTH_EXTRA[LengthSymbol(length) - 257] == 0
  {
  }

  /** Every length is the base of its symbol plus the value of its extra bits, which fits them. */
  lemma LengthDecodes(length: nat)
    requires MIN_MATCH <= length <= MAX_MATCH
    ensures var s := LengthSymbol(length);
            && 257 <= s <= 285
            && LengthExtraBits(length) == LENGTH_EXTRA[s - 257] == LengthSymbolExtraBits(s)
            && LengthExtraValue(length) < Pow2(LengthExtraBits(length))
            && LENGTH_BASE[s - 257] + LengthExtraValue(length) == length
  {
    hide LENGTH_BASE, LENGTH_EXTRA, Pow2;
    PowersToFive();
    if length < 11 || length == 258 {
      ShortLengthTable(length);
    } else {
      var g := if length < 19 then 1 else if length < 35 then 2 else if length < 67 then 3 else if length < 131 then 4
        else 5;
      var w := if g == 1 then 2 else if g == 2 then 4 else if g == 3 then 8 else if g == 4 then 16 else 32;
      var a := if g == 1 then 11 else if g == 2 then 19 else if g == 3 then 35 else if g == 4 then 67 else 131;
      LengthInGroup(length, a, w, g);
      LengthTable(a, w, g, (length - a) / w);
    }
  }

  lemma PowersToFive()
    ensures Pow2(0) == 1 && Pow2(1) == 2 && Pow2(2) == 4 && Pow2(3) == 8 && Pow2(4) == 16 && Pow2(5) == 32
  {
    Pow2Next(0);
    Pow2Next(1);
    Pow2Next(2);
    Pow2Next(3);
    Pow2Next(4);
  }

  // ---- Distances ----

  /** The number of bits of `v`. */
  function BitLen(v: nat): (n: nat)
    ensures v > 0 ==> n > 0 && Pow2(n - 1) <= v
    ensures v < Pow2(n)
  {
    if v == 0 then 0 else BitLen(v / 2) + 1
  }

  datatype DistCode = DistCode(symbol: nat, extraBits: nat, extraValue: nat)

  /** Symbol, number of extra bits and their value, from the top two bits of dist - 1. */
  function ComputeDistCode(dist: nat): DistCode
    requires dist > 0
  {
    if dist < 5 then DistCode(dist - 1, 0, 0)
    else
      var l := BitLen(dist - 1) - 1;
      assert l >= 2 by { LongDistance(dist); }
      var r := (dist - 1) / Pow2(l - 1) % 2;
      DistCode(l * 2 + r, l - 1, (dist - (1 + Pow2(l))) % Pow2(l - 1))
  }

  lemma LongDistance(dist: nat)
    requires dist >= 5
    ensures BitLen(dist - 1) >= 3
  {
    PowersToFive();
    if BitLen(dist - 1) < 3 { Pow2Mono(BitLen(dist - 1), 2); }
  }

  lemma BitLenIs(v: nat, n: nat)
    requires n > 0 && Pow2(n - 1) <= v < Pow2(n)
    ensures BitLen(v) == n
  {
    var m := BitLen(v);
    if m < n {
      Pow2Mono(m, n - 1);
    } else if m > n {
      Pow2Mono(n, m - 1);
    }
  }

  const POWERS: seq<nat> := [1, 2, 4, 8, 16, 32, 64, 128, 256, 512, 1024, 2048, 4096, 8192, 16384, 32768]

  lemma {:induction false} PowersAre(i: nat)
    requires i < 16
    ensures Pow2(i) == POWERS[i]
  {
    if i > 0 {
      PowersAre(i - 1);
      assert POWERS[i] == 2 * POWERS[i - 1];
    }
  }

  lemma DistCodeIs(dist: nat, l: nat)
    requires dist >= 5 && l >= 2 && BitLen(dist - 1) == l + 1
    ensures dist >= 1 + Pow2(l)
    ensures ComputeDistCode(dist)
            == DistCode(l * 2 + (dist - 1) / Pow2(l - 1) % 2, l - 1, (dist - (1 + Pow2(l))) % Pow2(l - 1))
  {
    hide Pow2, BitLen;
  }

  /** For distances with top bit l: one of two symbols, by the next bit. */
  lemma DistCodeByHalf(dist: nat, l: nat)
    requires 2 <= l <= 14 && Pow2(l) < dist <= 2 * Pow2(l)
    ensures var c, h := ComputeDistCode(dist), Pow2(l - 1);
            && c.extraBits == l - 1 && c.extraValue < h
            && (if dist <= 3 * h then c.symbol == 2 * l && 1 + 2 * h + c.extraValue == dist
                else c.symbol == 2 * l + 1 && 1 + 3 * h + c.extraValue == dist)
  {
    hide *;
    var h := Pow2(l - 1);
    Pow2Next(l - 1);
    Pow2Next(l);
    PowersToFive();
    Pow2Mono(2, l);
    BitLenIs(dist - 1, l + 1);
    DistCodeIs(dist, l);
    if dist <= 3 * h {
      QuotientIs(dist - 1, h, 2);
      QuotientIs(dist - (1 + 2 * h), h, 0);
    } else {
      QuotientIs(dist - 1, h, 3);
      QuotientIs(dist - (1 + 2 * h), h, 1);
    }
  }

  lemma QuotientIs(v: nat, h: nat, q: nat)
    requires h > 0 && q <= 3 && q * h <= v < (q + 1) * h
    ensures v / h == q && v % h == v - q * h
  {
    var d := v / h;
    assert h * d + v % h == v;
    assert d >= q + 1 ==> h * d >= (q + 1) * h;
    assert d <= q - 1 ==> h * d <= (q - 1) * h;
  }

  /** Every distance in the window is the base of its symbol plus the value of its extra bits. */
  lemma DistDecodes(dist: nat)
    requires 1 <= dist <= WINDOW_SIZE
    ensures var c := ComputeDistCode(dist);
            && c.symbol < 30
            && c.extraBits == DIST_EXTRA[c.symbol] == DistSymbolExtraBits(c.symbol)
            && c.extraValue < Pow2(c.extraBits)
            && DIST_BASE[c.symbol] + c.extraValue == dist
  {
    if dist < 5 {
      FirstDistances(dist);
    } else {
      LongDistDecodes(dist);
    }
  }

  lemma LongDistDecodes(dist: nat)
    requires 5 <= dist <= WINDOW_SIZE
    ensures var c := ComputeDistCode(dist);
            && c.symbol < 30
            && c.extraBits == DIST_EXTRA[c.symbol]
            && c.extraValue < Pow2(c.extraBits)
            && DIST_BASE[c.symbol] + c.extraValue == dist
  {
    hide *;
    var l := TopBit(dist);
    DistCodeByHalf(dist, l);
    BaseByHalf(l);
  }

  lemma TopBit(dist: nat) returns (l: nat)
    requires 5 <= dist <= WINDOW_SIZE
    ensures 2 <= l <= 14 && Pow2(l) < dist <= 2 * Pow2(l)
  {
    l := BitLen(dist - 1) - 1;
    LongDistance(dist);
    PowersAre(15);
    Pow2Next(l);
    if l >= 15 { Pow2Mono(15, l); }
  }

  lemma FirstDistances(dist: nat)
    requires 1 <= dist < 5
    ensures DIST_BASE[dist - 1] == dist && DIST_EXTRA[dist - 1] == 0
  {
  }

  lemma EvenBases(l: nat)
    requires 2 <= l <= 14
    ensures DIST_BASE[2 * l] == 1 + 2 * POWERS[l - 1]
  {
    hide DIST_EXTRA;
  }

  lemma OddBases(l: nat)
    requires 2 <= l <= 14
    ensures DIST_BASE[2 * l + 1] == 1 + 3 * POWERS[l - 1]
  {
    hide DIST_EXTRA;
  }

  lemma ExtraTable(l: nat)
    requires 2 <= l <= 14
    ensures DIST_EXTRA[2 * l] == DIST_EXTRA[2 * l + 1] == l - 1
  {
    hide DIST_BASE, POWERS;
  }

  lemma BaseByHalf(l: nat)
    requires 2 <= l <= 14
    ensures DIST_BASE[2 * l] == 1 + 2 * Pow2(l - 1) && DIST_BASE[2 * l + 1] == 1 + 3 * Pow2(l - 1)
    ensures DIST_EXTRA[2 * l] == DIST_EXTRA[2 * l + 1] == l - 1
  {
    hide *;
    EvenBases(l);
    OddBases(l);
    ExtraTable(l);
    PowersAre(l - 1);
  }
}
