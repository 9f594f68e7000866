/** The header of a dynamic block: code lengths, run-length coded and then Huffman coded. */
module TreeCode {
  import opened Prelude
  import opened Bits
  import opened Symbols
  import opened Inflate
  import opened PrefixCode
  import opened LeafOrder
  import opened HuffmanLengths
  import opened Tokens

  /** A code length symbol and the value of its extra bits. */
  datatype Rle = Rle(symbol: nat, extra: nat)

  /** Which of the three repeat symbols may be used. */
  datatype Repeats = Repeats(use16: bool, use17: bool, use18: bool)

  // ---- What a list of code length symbols means ----

  ghost predicate ValidRle(r: Rle) {
    && r.symbol <= 18
    && r.extra < Pow2(ExtraBits(r.symbol))
  }

  function ExtraBits(symbol: nat): nat {
    if symbol == 16 then 2 else if symbol == 17 then 3 else if symbol == 18 then 7 else 0
  }

  ghost predicate Meaningful(known: seq<nat>, r: Rle) {
    ValidRle(r) && (r.symbol == 16 ==> known != [])
  }

  ghost function Apply(known: seq<nat>, r: Rle): (k: seq<nat>)
    requires Meaningful(known, r)
    ensures |k| > |known|
  {
    if r.symbol < 16 then known + [r.symbol]
    else if r.symbol == 16 then known + Repeat(known[|known| - 1], 3 + r.extra)
    else if r.symbol == 17 then known + Repeat(0, 3 + r.extra)
    else known + Repeat(0, 11 + r.extra)
  }

  /** The symbols `rs`, read after the lengths `known`, complete them to `all`. */
  ghost predicate Unrolls(known: seq<nat>, rs: seq<Rle>, all: seq<nat>)
    decreases |rs|
  {
    if |rs| == 0 then known == all
    else Meaningful(known, rs[0]) && Unrolls(Apply(known, rs[0]), rs[1..], all)
  }

  lemma {:induction false} UnrollsAppend(known: seq<nat>, rs: seq<Rle>, mid: seq<nat>, ss: seq<Rle>, all: seq<nat>)
    requires Unrolls(known, rs, mid) && Unrolls(mid, ss, all)
    ensures Unrolls(known, rs + ss, all)
    decreases |rs|
  {
    if |rs| == 0 {
      assert rs + ss == ss;
    } else {
      UnrollsAppend(Apply(known, rs[0]), rs[1..], mid, ss, all);
      assert (rs + ss)[1..] == rs[1..] + ss;
    }
  }

  // ---- The compressor's choice of symbols for one run ----

  function Zeros18(count: nat): seq<Rle> {
    if count < 11 then [] else [Rle(18, Min(count, 138) - 11)] + Zeros18(count - Min(count, 138))
  }

  function After18(count: nat): (left: nat)
    ensures left <= count && left < 11
  {
    if count < 11 then count else After18(count - Min(count, 138))
  }

  function Zeros17(count: nat): seq<Rle> {
    if count < 3 then [] else [Rle(17, Min(count, 10) - 3)] + Zeros17(count - Min(count, 10))
  }

  function After17(count: nat): (left: nat)
    ensures left <= count && left < 3
  {
    if count < 3 then count else After17(count - Min(count, 10))
  }

  function Repeats16(count: nat): seq<Rle> {
    if count < 3 then [] else [Rle(16, Min(count, 6) - 3)] + Repeats16(count - Min(count, 6))
  }

  function After16(count: nat): (left: nat)
    ensures left <= count && left < 3
  {
    if count < 3 then count else After16(count - Min(count, 6))
  }

  function Plain(symbol: nat, count: nat): (r: seq<Rle>)
    ensures |r| == count && forall i :: 0 <= i < count ==> r[i] == Rle(symbol, 0)
  {
    seq(count, i => Rle(symbol, 0))
  }

  /** The rest of a run once zeros have been dealt with. */
  function RunRest(symbol: nat, count: nat, use16: bool): seq<Rle> {
    if use16 && count >= 4
    then [Rle(symbol, 0)] + Repeats16(count - 1) + Plain(symbol, After16(count - 1))
    else Plain(symbol, count)
  }

  function RunSymbols(symbol: nat, count: nat, use: Repeats): seq<Rle> {
    if symbol == 0 && count >= 3 then
      var s18, c18 := if use.use18 then Zeros18(count) else [], if use.use18 then After18(count) else count;
      var s17, c17 := if use.use17 then Zeros17(c18) else [], if use.use17 then After17(c18) else c18;
      s18 + s17 + RunRest(symbol, c17, use.use16)
    else RunRest(symbol, count, use.use16)
  }

  lemma RepeatSplit(x: nat, a: nat, b: nat)
    ensures Repeat(x, a) + Repeat(x, b) == Repeat(x, a + b)
  {
  }

  lemma UnrollStep(known: seq<nat>, r: Rle, rest: seq<Rle>, all: seq<nat>)
    requires Meaningful(known, r) && Unrolls(Apply(known, r), rest, all)
    ensures Unrolls(known, [r] + rest, all)
  {
    assert ([r] + rest)[1..] == rest;
  }

  lemma ExtraPowers()
    ensures Pow2(ExtraBits(16)) == 4 && Pow2(ExtraBits(17)) == 8 && Pow2(ExtraBits(18)) == 128 && Pow2(0) == 1
  {
    PowersToFive();
    Pow2Next(5);
    Pow2Next(6);
  }

  lemma {:induction false} Zeros18Unroll(known: seq<nat>, count: nat)
    ensures Unrolls(known, Zeros18(count), known + Repeat(0, count - After18(count)))
    decreases count
  {
    if count < 11 {
      assert known + Repeat(0, 0) == known;
    } else {
      var m := Min(count, 138);
      ExtraPowers();
      Zeros18Unroll(known + Repeat(0, m), count - m);
      RepeatSplit(0, m, count - m - After18(count - m));
      assert known + Repeat(0, m) + Repeat(0, count - m - After18(count - m))
        == known + Repeat(0, count - After18(count));
      UnrollStep(known, Rle(18, m - 11), Zeros18(count - m), known + Repeat(0, count - After18(count)));
    }
  }

  lemma {:induction false} Zeros17Unroll(known: seq<nat>, count: nat)
    ensures Unrolls(known, Zeros17(count), known + Repeat(0, count - After17(count)))
    decreases count
  {
    if count < 3 {
      assert known + Repeat(0, 0) == known;
    } else {
      var m := Min(count, 10);
      ExtraPowers();
      Zeros17Unroll(known + Repeat(0, m), count - m);
      RepeatSplit(0, m, count - m - After17(count - m));
      assert known + Repeat(0, m) + Repeat(0, count - m - After17(count - m))
        == known + Repeat(0, count - After17(count));
      UnrollStep(known, Rle(17, m - 3), Zeros17(count - m), known + Repeat(0, count - After17(count)));
    }
  }

  lemma {:induction false} Repeats16Unroll(known: seq<nat>, x: nat, count: nat)
    requires known != [] && known[|known| - 1] == x
    ensures Unrolls(known, Repeats16(count), known + Repeat(x, count - After16(count)))
    decreases count
  {
    if count < 3 {
      assert known + Repeat(x, 0) == known;
    } else {
      var m := Min(count, 6);
      ExtraPowers();
      Repeats16Unroll(known + Repeat(x, m), x, count - m);
      RepeatSplit(x, m, count - m - After16(count - m));
      assert known + Repeat(x, m) + Repeat(x, count - m - After16(count - m))
        == known + Repeat(x, count - After16(count));
      UnrollStep(known, Rle(16, m - 3), Repeats16(count - m), known + Repeat(x, count - After16(count)));
    }
  }

  lemma {:induction false} PlainUnroll(known: seq<nat>, x: nat, count: nat)
    requires x < 16
    ensures Unrolls(known, Plain(x, count), known + Repeat(x, count))
    decreases count
  {
    if count == 0 {
      assert known + Repeat(x, 0) == known;
    } else {
      PlainUnroll(known + [x], x, count - 1);
      assert known + [x] + Repeat(x, count - 1) == known + Repeat(x, count);
      assert Pow2(0) == 1;
      UnrollStep(known, Rle(x, 0), Plain(x, count - 1), known + Repeat(x, count));
      assert [Rle(x, 0)] + Plain(x, count - 1) == Plain(x, count);
    }
  }

  lemma RunRestUnroll(known: seq<nat>, x: nat, count: nat, use16: bool)
    requires x < 16
    ensures Unrolls(known, RunRest(x, count, use16), known + Repeat(x, count))
  {
    hide Unrolls, Plain, Repeats16, After16;
    if use16 && count >= 4 {
      var k1 := known + Repeat(x, 1);
      PlainUnroll(known, x, 1);
      assert Plain(x, 1) == [Rle(x, 0)];
      Repeats16Unroll(k1, x, count - 1);
      var left := After16(count - 1);
      var k2 := k1 + Repeat(x, count - 1 - left);
      PlainUnroll(k2, x, left);
      UnrollsAppend(known, [Rle(x, 0)], k1, Repeats16(count - 1), k2);
      UnrollsAppend(known, [Rle(x, 0)] + Repeats16(count - 1), k2, Plain(x, left), k2 + Repeat(x, left));
      assert k2 + Repeat(x, left) == known + Repeat(x, count);
    } else {
      PlainUnroll(known, x, count);
    }
  }

  /** Whatever symbols are chosen for a run, they mean the run. */
  lemma RunUnrolls(known: seq<nat>, x: nat, count: nat, use: Repeats)
    requires x < 16
    ensures Unrolls(known, RunSymbols(x, count, use), known + Repeat(x, count))
  {
    hide Unrolls, RunRest, Zeros18, After18, Zeros17, After17;
    if x == 0 && count >= 3 {
      var s18, c18 := if use.use18 then Zeros18(count) else [], if use.use18 then After18(count) else count;
      var s17, c17 := if use.use17 then Zeros17(c18) else [], if use.use17 then After17(c18) else c18;
      Zeros18Unroll(known, count);
      NothingUnrolls(known);
      assert known + Repeat(0, 0) == known;
      var k1 := known + Repeat(0, count - c18);
      Zeros17Unroll(k1, c18);
      NothingUnrolls(k1);
      assert k1 + Repeat(0, 0) == k1;
      var k2 := k1 + Repeat(0, c18 - c17);
      RunRestUnroll(k2, 0, c17, use.use16);
      UnrollsAppend(known, s18, k1, s17, k2);
      UnrollsAppend(known, s18 + s17, k2, RunRest(0, c17, use.use16), k2 + Repeat(0, c17));
      assert k2 + Repeat(0, c17) == known + Repeat(0, count);
    } else {
      RunRestUnroll(known, x, count, use.use16);
    }
  }

  lemma NothingUnrolls(known: seq<nat>)
    ensures Unrolls(known, [], known)
  {
  }

  // ---- The whole vector ----

  /** The length of the run of equal values that starts at `i`. */
  function RunLength(s: seq<nat>, i: nat): (n: nat)
    requires i < |s|
    ensures 1 <= n <= |s| - i && forall k :: i <= k < i + n ==> s[k] == s[i]
    decreases |s| - i
  {
    if i + 1 < |s| && s[i + 1] == s[i] then 1 + RunLength(s, i + 1) else 1
  }

  /** Runs are only looked for when some repeat symbol could be used. */
  function RunAt(s: seq<nat>, i: nat, use: Repeats): (n: nat)
    requires i < |s|
    ensures 1 <= n <= |s| - i && forall k :: i <= k < i + n ==> s[k] == s[i]
  {
    if use.use16 || (s[i] == 0 && (use.use17 || use.use18)) then RunLength(s, i) else 1
  }

  /** The code length symbols for s[i..]. */
  function RleFrom(s: seq<nat>, i: nat, use: Repeats): seq<Rle>
    requires i <= |s|
    decreases |s| - i
  {
    if i == |s| then [] else RunSymbols(s[i], RunAt(s, i, use), use) + RleFrom(s, i + RunAt(s, i, use), use)
  }

  lemma {:induction false} RleUnrolls(s: seq<nat>, i: nat, use: Repeats)
    requires i <= |s| && forall k :: 0 <= k < |s| ==> s[k] < 16
    ensures Unrolls(s[..i], RleFrom(s, i, use), s)
    decreases |s| - i
  {
    hide *;
    if i == |s| {
      assert s[..i] == s;
      EndUnrolls(s, use);
    } else {
      var n := RunAt(s, i, use);
      RunIs(s, i, n);
      RleUnrolls(s, i + n, use);
      RleFromStep(s, i, use);
      RunUnrolls(s[..i], s[i], n, use);
      UnrollsAppend(s[..i], RunSymbols(s[i], n, use), s[..i + n], RleFrom(s, i + n, use), s);
    }
  }

  lemma EndUnrolls(s: seq<nat>, use: Repeats)
    ensures Unrolls(s, RleFrom(s, |s|, use), s)
  {
  }

  lemma RleFromStep(s: seq<nat>, i: nat, use: Repeats)
    requires i < |s|
    ensures RleFrom(s, i, use) == RunSymbols(s[i], RunAt(s, i, use), use) + RleFrom(s, i + RunAt(s, i, use), use)
  {
    hide RunSymbols, RunAt;
  }

  lemma RunIs(s: seq<nat>, i: nat, n: nat)
    requires i + n <= |s| && i < |s| && forall k :: i <= k < i + n ==> s[k] == s[i]
    ensures s[..i] + Repeat(s[i], n) == s[..i + n]
  {
  }

  // ---- Bits ----

  ghost predicate CodedRle(cl: seq<nat>, r: Rle) {
    ValidRle(r) && r.symbol < |cl| && cl[r.symbol] != 0
  }

  ghost predicate CodedRles(cl: seq<nat>, rs: seq<Rle>) {
    forall r :: r in rs ==> CodedRle(cl, r)
  }

  function RleBits(cl: seq<nat>, r: Rle): seq<bit> {
    if r.symbol < |cl| then Codeword(cl, r.symbol) + Lsb(r.extra, ExtraBits(r.symbol)) else []
  }

  function RlesBits(cl: seq<nat>, rs: seq<Rle>): seq<bit>
    decreases |rs|
  {
    if |rs| == 0 then [] else RleBits(cl, rs[0]) + RlesBits(cl, rs[1..])
  }

  lemma {:induction false} RlesBitsNext(cl: seq<nat>, rs: seq<Rle>, i: nat)
    requires i < |rs|
    ensures RlesBits(cl, rs[..i + 1]) == RlesBits(cl, rs[..i]) + RleBits(cl, rs[i])
    decreases i
  {
    hide RleBits;
    if i == 0 {
      assert rs[..1] == [rs[0]] && rs[..1][1..] == [] && rs[..0] == [];
      assert RlesBits(cl, rs[..1]) == RleBits(cl, rs[0]) + [];
    } else {
      RlesBitsNext(cl, rs[1..], i - 1);
      assert rs[..i + 1][1..] == rs[1..][..i] && rs[..i][1..] == rs[1..][..i - 1];
    }
  }

  lemma ReadLengthsStep(cl: seq<nat>, bits: seq<bit>, pos: nat, total: nat, known: seq<nat>, r: Rle, p1: nat, p2: nat)
    requires |cl| == 19 && Meaningful(known, r) && |known| < total
    requires DecodeSymbol(cl, bits, pos) == Got(r.symbol, p1)
    requires ReadBits(bits, p1, ExtraBits(r.symbol)) == Got(r.extra, p2) && (r.symbol < 16 ==> p2 == p1)
    ensures ReadLengths(cl, bits, pos, total, known) == ReadLengths(cl, bits, p2, total, Apply(known, r))
  {
    hide DecodeSymbol, ReadBits;
  }

  /** The decoder, on one code length symbol. */
  lemma ReadOneRle(cl: seq<nat>, bits: seq<bit>, pos: nat, total: nat, known: seq<nat>, r: Rle)
    requires |cl| == 19 && Feasible(cl, 7) && CodedRle(cl, r) && Meaningful(known, r) && |known| < total
    requires At(bits, pos, RleBits(cl, r))
    ensures ReadLengths(cl, bits, pos, total, known)
            == ReadLengths(cl, bits, pos + |RleBits(cl, r)|, total, Apply(known, r))
  {
    hide *;
    var s := r.symbol;
    CodedRleIs(cl, r);
    AtSplit(bits, pos, Codeword(cl, s), Lsb(r.extra, ExtraBits(s)));
    DecodeCodeword(cl, 7, bits, pos, s);
    ReadLsb(bits, pos + cl[s], r.extra, ExtraBits(s));
    ReadLengthsStep(cl, bits, pos, total, known, r, pos + cl[s], pos + cl[s] + ExtraBits(s));
  }

  lemma CodedRleIs(cl: seq<nat>, r: Rle)
    requires |cl| == 19 && CodedRle(cl, r)
    ensures r.symbol < 19 && cl[r.symbol] != 0 && r.extra < Pow2(ExtraBits(r.symbol))
    ensures RleBits(cl, r) == Codeword(cl, r.symbol) + Lsb(r.extra, ExtraBits(r.symbol))
    ensures r.symbol < 16 ==> ExtraBits(r.symbol) == 0
  {
    hide Codeword, Lsb;
  }

  lemma {:induction false} UnrollsGrow(known: seq<nat>, rs: seq<Rle>, all: seq<nat>)
    requires Unrolls(known, rs, all)
    ensures |known| + |rs| <= |all|
    decreases |rs|
  {
    if |rs| > 0 { UnrollsGrow(Apply(known, rs[0]), rs[1..], all); }
  }

  /** Decoding code length symbols yields the lengths they mean. */
  lemma {:induction false} ReadRles(cl: seq<nat>, bits: seq<bit>, pos: nat, known: seq<nat>, rs: seq<Rle>,
                                    all: seq<nat>)
    requires |cl| == 19 && Feasible(cl, 7) && CodedRles(cl, rs) && Unrolls(known, rs, all)
    requires At(bits, pos, RlesBits(cl, rs))
    ensures ReadLengths(cl, bits, pos, |all|, known) == Got(all, pos + |RlesBits(cl, rs)|)
    decreases |rs|
  {
    hide *;
    if |rs| == 0 {
      NoRles(cl, bits, pos, known, rs, all);
    } else {
      FirstRle(cl, known, rs, all);
      var r := rs[0];
      UnrollsGrow(known, rs, all);
      AtSplit(bits, pos, RleBits(cl, r), RlesBits(cl, rs[1..]));
      ReadOneRle(cl, bits, pos, |all|, known, r);
      ReadRles(cl, bits, pos + |RleBits(cl, r)|, Apply(known, r), rs[1..], all);
    }
  }

  lemma NoRles(cl: seq<nat>, bits: seq<bit>, pos: nat, known: seq<nat>, rs: seq<Rle>, all: seq<nat>)
    requires |cl| == 19 && |rs| == 0 && Unrolls(known, rs, all)
    ensures ReadLengths(cl, bits, pos, |all|, known) == Got(all, pos + |RlesBits(cl, rs)|)
  {
  }

  lemma FirstRle(cl: seq<nat>, known: seq<nat>, rs: seq<Rle>, all: seq<nat>)
    requires |rs| > 0 && CodedRles(cl, rs) && Unrolls(known, rs, all)
    ensures CodedRle(cl, rs[0]) && CodedRles(cl, rs[1..])
    ensures Meaningful(known, rs[0]) && Unrolls(Apply(known, rs[0]), rs[1..], all)
    ensures RlesBits(cl, rs) == RleBits(cl, rs[0]) + RlesBits(cl, rs[1..])
  {
    hide CodedRle, RleBits, Apply;
  }

  // ---- The code for the code length symbols ----

  /** How often symbol `x` occurs. */
  function RleCount(rs: seq<Rle>, x: nat): nat
    decreases |rs|
  {
    if |rs| == 0 then 0 else RleCount(rs[..|rs| - 1], x) + (if rs[|rs| - 1].symbol == x then 1 else 0)
  }

  function RleCounts(rs: seq<Rle>): (c: seq<nat>)
    ensures |c| == 19 && forall x :: 0 <= x < 19 ==> c[x] == RleCount(rs, x)
  {
    seq(19, x requires 0 <= x < 19 => RleCount(rs, x))
  }

  lemma {:induction false} OccursCounts(rs: seq<Rle>, r: Rle)
    requires r in rs
    ensures RleCount(rs, r.symbol) > 0
    decreases |rs|
  {
    if rs[|rs| - 1] != r { OccursCounts(rs[..|rs| - 1], r); }
  }

  ghost function CodeLengthCode(rs: seq<Rle>): (cl: seq<nat>)
    ensures |cl| == 19
  {
    CodeLengths(RleCounts(rs), 7)
  }

  lemma RankedAtMost(frequencies: seq<nat>)
    ensures |Ranked(frequencies)| <= |frequencies|
  {
  }

  /** The number of code length codes that are sent, less four: trailing unused ones are not. */
  function TrimOrder(counts: seq<nat>, hclen: nat): (h: nat)
    requires |counts| == 19 && hclen <= 15
    ensures h <= hclen && (h > 0 ==> counts[CodeLengthOrder(h + 3)] != 0)
    ensures forall i :: h + 4 <= i < hclen + 4 ==> counts[CodeLengthOrder(i)] == 0
  {
    if hclen > 0 && counts[CodeLengthOrder(hclen + 3)] == 0 then TrimOrder(counts, hclen - 1) else hclen
  }

  function OrderBits(cl: seq<nat>, n: nat): seq<bit>
    requires |cl| == 19 && n <= 19
  {
    if n == 0 then [] else OrderBits(cl, n - 1) + Lsb(cl[CodeLengthOrder(n - 1)], 3)
  }

  lemma OrderIsPermutation(s: nat)
    requires s < 19
    ensures exists i :: 0 <= i < 19 && CodeLengthOrder(i) == s
  {
    var order := [16, 17, 18, 0, 8, 7, 9, 6, 10, 5, 11, 4, 12, 3, 13, 2, 14, 1, 15];
    var inverse := [3, 17, 15, 13, 11, 9, 7, 5, 4, 6, 8, 10, 12, 14, 16, 18, 0, 1, 2];
    assert order[inverse[s]] == s;
    assert CodeLengthOrder(inverse[s]) == s;
  }

  /** What the decoder knows after n code length codes. */
  ghost predicate FirstCodes(cl: seq<nat>, known: seq<nat>, n: nat)
    requires |cl| == 19 && n <= 19
  {
    && |known| == 19
    && (forall i :: 0 <= i < n ==> known[CodeLengthOrder(i)] == cl[CodeLengthOrder(i)])
    && (forall i :: n <= i < 19 ==> known[CodeLengthOrder(i)] == 0)
  }

  lemma OrderInjective(i: nat, j: nat)
    requires i < j < 19
    ensures CodeLengthOrder(i) != CodeLengthOrder(j)
  {
  }

  lemma {:induction false} ReadOrder(cl: seq<nat>, bits: seq<bit>, pos: nat, n: nat)
    requires |cl| == 19 && n <= 19 && forall s :: 0 <= s < 19 ==> cl[s] < 8
    requires At(bits, pos, OrderBits(cl, n))
    ensures ReadCodeLengthCode(bits, pos, n).Got? && FirstCodes(cl, ReadCodeLengthCode(bits, pos, n).value, n)
    ensures |OrderBits(cl, n)| == 3 * n
  {
    hide CodeLengthOrder;
    if n > 0 {
      AtSplit(bits, pos, OrderBits(cl, n - 1), Lsb(cl[CodeLengthOrder(n - 1)], 3));
      ReadOrder(cl, bits, pos, n - 1);
      PowersToFive();
      ReadLsb(bits, pos + 3 * (n - 1), cl[CodeLengthOrder(n - 1)], 3);
      forall i | 0 <= i < 19 && i != n - 1 ensures CodeLengthOrder(i) != CodeLengthOrder(n - 1) {
        if i < n - 1 { OrderInjective(i, n - 1); } else { OrderInjective(n - 1, i); }
      }
    }
  }

  lemma KnownIsCode(cl: seq<nat>, known: seq<nat>, n: nat)
    requires |cl| == 19 && n <= 19 && FirstCodes(cl, known, n)
    requires forall i :: n <= i < 19 ==> cl[CodeLengthOrder(i)] == 0
    ensures known == cl
  {
    hide CodeLengthOrder;
    forall s | 0 <= s < 19 ensures known[s] == cl[s] { OrderIsPermutation(s); }
  }

  // ---- The header ----

  /** Drop trailing zeros, but keep the first `base` entries. */
  function TrimEnd(l: seq<nat>, base: nat, h: nat): (r: nat)
    requires base + h <= |l|
    ensures r <= h && (forall i :: base + r <= i < base + h ==> l[i] == 0) && (r > 0 ==> l[base + r - 1] != 0)
  {
    if h > 0 && l[base + h - 1] == 0 then TrimEnd(l, base, h - 1) else h
  }

  /** A literal/length code and a distance code, by their code lengths. */
  ghost predicate CodePair(ll: seq<nat>, d: seq<nat>) {
    |ll| == NUM_LL && |d| == NUM_D && Within(ll, 15) && Within(d, 15)
  }

  lemma PairSizes(ll: seq<nat>, d: seq<nat>)
    requires CodePair(ll, d)
    ensures |ll| == 288 && |d| == 32
  {
  }

  function Hlit(ll: seq<nat>): (h: nat)
    requires |ll| == NUM_LL
    ensures h <= 29 && (forall i :: 257 + h <= i < 286 ==> ll[i] == 0) && (h > 0 ==> ll[257 + h - 1] != 0)
  {
    TrimEnd(ll, 257, 29)
  }

  function Hdist(d: seq<nat>): (h: nat)
    requires |d| == NUM_D
    ensures h <= 29 && (forall i :: 1 + h <= i < 30 ==> d[i] == 0) && (h > 0 ==> d[h] != 0)
  {
    TrimEnd(d, 1, 29)
  }

  function HeaderLengths(ll: seq<nat>, d: seq<nat>): (r: seq<nat>)
    requires |ll| == NUM_LL && |d| == NUM_D
    ensures |r| == 257 + Hlit(ll) + 1 + Hdist(d)
  {
    ll[..257 + Hlit(ll)] + d[..1 + Hdist(d)]
  }

  function HeaderRles(ll: seq<nat>, d: seq<nat>, use: Repeats): seq<Rle>
    requires |ll| == NUM_LL && |d| == NUM_D
  {
    RleFrom(HeaderLengths(ll, d), 0, use)
  }

  ghost function RleHeader(hlit: nat, hdist: nat, rs: seq<Rle>): seq<bit> {
    var cl, hclen := CodeLengthCode(rs), TrimOrder(RleCounts(rs), 15);
    Lsb(hlit, 5) + (Lsb(hdist, 5) + (Lsb(hclen, 4) + (OrderBits(cl, hclen + 4) + RlesBits(cl, rs))))
  }

  /** The bits that describe the two codes. */
  ghost function HeaderBits(ll: seq<nat>, d: seq<nat>, use: Repeats): seq<bit>
    requires |ll| == NUM_LL && |d| == NUM_D
  {
    RleHeader(Hlit(ll), Hdist(d), HeaderRles(ll, d, use))
  }

  lemma {:induction false} UnrolledAreValid(known: seq<nat>, rs: seq<Rle>, all: seq<nat>)
    requires Unrolls(known, rs, all)
    ensures forall r :: r in rs ==> ValidRle(r)
    decreases |rs|
  {
    if |rs| > 0 {
      UnrolledAreValid(Apply(known, rs[0]), rs[1..], all);
      forall r | r in rs ensures ValidRle(r) { assert r == rs[0] || r in rs[1..]; }
    }
  }

  /** The code length code has a word for every symbol that occurs. */
  lemma CodeLengthCodeFits(rs: seq<Rle>)
    requires forall r :: r in rs ==> ValidRle(r)
    ensures Feasible(CodeLengthCode(rs), 7) && CodedRles(CodeLengthCode(rs), rs)
    ensures forall x :: 0 <= x < 19 ==>
            CodeLengthCode(rs)[x] <= 7 && (CodeLengthCode(rs)[x] != 0 <==> RleCount(rs, x) != 0)
  {
    var c := RleCounts(rs);
    RankedAtMost(c);
    Pow2Mono(5, 7);
    PowersToFive();
    LengthsFeasible(c, 7);
    LengthsInRange(c, 7);
    forall r | r in rs ensures CodedRle(CodeLengthCode(rs), r) { OccursCounts(rs, r); }
  }

  // A dynamic block's header always uses two code length symbols, so its code is complete.

  lemma {:induction false} KraftConstant(l: seq<nat>, x: nat, L: nat)
    requires 0 < x <= L && forall i :: 0 <= i < |l| ==> l[i] == x
    ensures KraftSum(l, L) == |l| * Pow2(L - x)
  {
    if |l| > 0 {
      KraftConstant(l[..|l| - 1], x, L);
      Distributes(|l| - 1, 1, Pow2(L - x));
    }
  }

  /** No complete code has between 257 and 286 words, all of one length. */
  lemma NotConstant(l: seq<nat>, x: nat)
    requires 257 <= |l| <= 286 && 0 < x <= 15 && forall i :: 0 <= i < |l| ==> l[i] == x
    ensures KraftSum(l, 15) != Pow2(15)
  {
    KraftConstant(l, x, 15);
    Pow2Add(x, 15 - x);
    PowersToFive();
    Pow2Next(5);
    Pow2Next(6);
    Pow2Next(7);
    Pow2Next(8);
    if x <= 8 { Pow2Mono(x, 8); } else { Pow2Mono(9, x); }
    if |l| * Pow2(15 - x) == Pow2(x) * Pow2(15 - x) { Cancel(|l|, Pow2(x), Pow2(15 - x)); }
  }

  /** If all symbols are x, all lengths are x, or all are zero. */
  lemma {:induction false} OneSymbolUnrolls(known: seq<nat>, rs: seq<Rle>, all: seq<nat>, x: nat)
    requires Unrolls(known, rs, all) && forall r :: r in rs ==> r.symbol == x
    requires forall i :: 0 <= i < |known| ==> known[i] == (if x < 16 then x else 0)
    ensures forall i :: 0 <= i < |all| ==> all[i] == (if x < 16 then x else 0)
    decreases |rs|
  {
    if |rs| > 0 {
      assert rs[0] in rs;
      forall r | r in rs[1..] ensures r.symbol == x { assert r in rs; }
      OneSymbolUnrolls(Apply(known, rs[0]), rs[1..], all, x);
    }
  }

  lemma TwoSymbolsRanked(rs: seq<Rle>, r: Rle, r': Rle)
    requires r in rs && r' in rs && r.symbol < 19 && r'.symbol < 19 && r.symbol != r'.symbol
    ensures |Ranked(RleCounts(rs))| >= 2
  {
    OccursCounts(rs, r);
    OccursCounts(rs, r');
    TwoUsedRanked(RleCounts(rs), r.symbol, r'.symbol);
  }

  lemma TwoUsedRanked(c: seq<nat>, s: nat, t: nat)
    requires s < |c| && t < |c| && s != t && c[s] != 0 && c[t] != 0
    ensures |Ranked(c)| >= 2
  {
    hide *;
    RankedLeaves(c);
    assert Node(c[s], s, NO_NODE) in Ranked(c) && Node(c[t], t, NO_NODE) in Ranked(c);
  }

  lemma HeaderCodeComplete(rs: seq<Rle>, all: seq<nat>, n: nat)
    requires Unrolls([], rs, all) && 257 <= n <= 286 && n <= |all|
    requires Complete(all[..n], 15) && all[256] != 0
    ensures Complete(CodeLengthCode(rs), 7)
  {
    UnrolledAreValid([], rs, all);
    CodeLengthCodeFits(rs);
    UnrollsGrow([], rs, all);
    assert |rs| > 0;
    var x := rs[0].symbol;
    if r :| r in rs && r.symbol != x {
      TwoSymbolsRanked(rs, rs[0], r);
      RankedAtMost(RleCounts(rs));
      Pow2Mono(5, 7);
      PowersToFive();
      LengthsComplete(RleCounts(rs), 7);
    } else {
      OneSymbolUnrolls([], rs, all, x);
      assert all[256] == x;
      NotConstant(all[..n], x);
    }
  }

  lemma {:induction false} KraftTrim(l: seq<nat>, n: nat, L: nat)
    requires n <= |l| && Within(l, L) && forall i :: n <= i < |l| ==> l[i] == 0
    ensures KraftSum(l, L) == KraftSum(l[..n], L)
    decreases |l|
  {
    if n < |l| {
      KraftTrim(l[..|l| - 1], n, L);
      assert l[..|l| - 1][..n] == l[..n];
    } else {
      assert l[..n] == l;
    }
  }

  /** The codes of a dynamic block: complete, with an end-of-block word, nothing beyond what a
      header can describe. */
  ghost predicate DynamicPair(ll: seq<nat>, d: seq<nat>) {
    && CodePair(ll, d)
    && KraftSum(ll, 15) == Pow2(15) && KraftSum(d, 15) == Pow2(15)
    && ll[END_OF_BLOCK] != 0
    && ll[286] == ll[287] == 0 && d[30] == d[31] == 0
  }

  ghost function TrimmedLL(ll: seq<nat>): seq<nat>
    requires |ll| == NUM_LL
  {
    ll[..257 + Hlit(ll)]
  }

  ghost function TrimmedD(d: seq<nat>): seq<nat>
    requires |d| == NUM_D
  {
    d[..1 + Hdist(d)]
  }

  lemma TrimmedComplete(ll: seq<nat>, d: seq<nat>)
    requires DynamicPair(ll, d)
    ensures Complete(TrimmedLL(ll), 15) && Complete(TrimmedD(d), 15) && TrimmedLL(ll)[END_OF_BLOCK] == ll[END_OF_BLOCK]
    ensures Feasible(ll, 15) && Feasible(d, 15)
  {
    KraftTrim(ll, 257 + Hlit(ll), 15);
    KraftTrim(d, 1 + Hdist(d), 15);
  }

  lemma HeaderLengthsAre(ll: seq<nat>, d: seq<nat>)
    requires CodePair(ll, d)
    ensures HeaderLengths(ll, d) == TrimmedLL(ll) + TrimmedD(d)
    ensures |TrimmedLL(ll)| == 257 + Hlit(ll) && |TrimmedD(d)| == 1 + Hdist(d)
    ensures HeaderLengths(ll, d)[..257 + Hlit(ll)] == TrimmedLL(ll)
    ensures HeaderLengths(ll, d)[256] == ll[256] == TrimmedLL(ll)[256]
    ensures |ll| == NUM_LL == 288 && |d| == NUM_D && Hlit(ll) <= 29
  {
  }

  /** The symbols chosen for a header mean its lengths. */
  lemma HeaderUnrolls(ll: seq<nat>, d: seq<nat>, use: Repeats)
    requires CodePair(ll, d)
    ensures Unrolls([], HeaderRles(ll, d, use), HeaderLengths(ll, d))
    ensures forall r :: r in HeaderRles(ll, d, use) ==> ValidRle(r)
  {
    var all := HeaderLengths(ll, d);
    forall k | 0 <= k < |all| ensures all[k] < 16 {
      assert all[k] == (if k < 257 + Hlit(ll) then ll[k] else d[k - 257 - Hlit(ll)]);
    }
    hide ValidRle, RleFrom;
    RleUnrolls(all, 0, use);
    assert all[..0] == [];
    UnrolledAreValid([], HeaderRles(ll, d, use), all);
  }

  /** The code length code itself is read back. */
  lemma ReadHeaderCode(rs: seq<Rle>, bits: seq<bit>, pos: nat)
    requires forall r :: r in rs ==> ValidRle(r)
    requires At(bits, pos, OrderBits(CodeLengthCode(rs), TrimOrder(RleCounts(rs), 15) + 4))
    ensures var hclen := TrimOrder(RleCounts(rs), 15);
            ReadCodeLengthCode(bits, pos, hclen + 4) == Got(CodeLengthCode(rs), pos + 3 * (hclen + 4))
            && |OrderBits(CodeLengthCode(rs), hclen + 4)| == 3 * (hclen + 4)
  {
    hide CodeLengthOrder, CodeLengthCode;
    var cl, hclen := CodeLengthCode(rs), TrimOrder(RleCounts(rs), 15);
    CodeLengthCodeFits(rs);
    ReadOrder(cl, bits, pos, hclen + 4);
    forall i | hclen + 4 <= i < 19 ensures cl[CodeLengthOrder(i)] == 0 {
      assert RleCounts(rs)[CodeLengthOrder(i)] == 0;
    }
    KnownIsCode(cl, ReadCodeLengthCode(bits, pos, hclen + 4).value, hclen + 4);
  }

  lemma ReadRleHeader(ll: seq<nat>, d: seq<nat>, hlit: nat, hdist: nat, rs: seq<Rle>, all: seq<nat>, bits: seq<bit>,
                      pos: nat)
    requires hlit <= 29 && hdist <= 29 && |ll| == 257 + hlit && |d| == 1 + hdist && all == ll + d
    requires Unrolls([], rs, all) && At(bits, pos, RleHeader(hlit, hdist, rs))
    ensures ReadDynamicHeader(bits, pos) == Got(Header(CodeLengthCode(rs), ll, d), pos + |RleHeader(hlit, hdist, rs)|)
  {
    hide *;
    var cl, hclen := CodeLengthCode(rs), TrimOrder(RleCounts(rs), 15);
    var order, symbols := OrderBits(cl, hclen + 4), RlesBits(cl, rs);
    RleHeaderIs(hlit, hdist, rs);
    SplitHeader(bits, pos, hlit, hdist, hclen, order, symbols);
    UnrolledAreValid([], rs, all);
    ReadHeaderCode(rs, bits, pos + 14);
    CodeLengthCodeFits(rs);
    ReadRles(cl, bits, pos + 14 + |order|, [], rs, all);
    ReadDynamicSteps(bits, pos, hlit, hdist, hclen, cl, ll, d, pos + 14 + |order| + |symbols|);
  }

  lemma RleHeaderIs(hlit: nat, hdist: nat, rs: seq<Rle>)
    ensures var cl, hclen := CodeLengthCode(rs), TrimOrder(RleCounts(rs), 15);
            RleHeader(hlit, hdist, rs)
              == Lsb(hlit, 5) + (Lsb(hdist, 5) + (Lsb(hclen, 4) + (OrderBits(cl, hclen + 4) + RlesBits(cl, rs))))
  {
    hide Lsb, CodeLengthCode, TrimOrder, OrderBits, RlesBits;
  }

  /** A header, decoded by section 3.2.7 of RFC 1951, gives back the lengths of both codes, without
      their trailing zeros: for any lengths up to 15, complete codes or not, and whichever repeat
      symbols were used. */
  lemma ReadHeaderLengths(ll: seq<nat>, d: seq<nat>, use: Repeats, bits: seq<bit>, pos: nat)
    requires CodePair(ll, d) && At(bits, pos, HeaderBits(ll, d, use))
    ensures ReadDynamicHeader(bits, pos)
            == Got(Header(CodeLengthCode(HeaderRles(ll, d, use)), TrimmedLL(ll), TrimmedD(d)),
                   pos + |HeaderBits(ll, d, use)|)
  {
    HeaderUnrolls(ll, d, use);
    HeaderLengthsAre(ll, d);
    ReadRleHeader(TrimmedLL(ll), TrimmedD(d), Hlit(ll), Hdist(d), HeaderRles(ll, d, use), HeaderLengths(ll, d), bits,
                  pos);
  }

  /** A strict decoder takes the header exactly if both codes are complete and blocks can end: the code
      length code is no obstacle. */
  lemma ReadHeader(ll: seq<nat>, d: seq<nat>, use: Repeats, bits: seq<bit>, pos: nat)
    requires CodePair(ll, d) && At(bits, pos, HeaderBits(ll, d, use))
    ensures ReadDynamicCodes(bits, pos)
            == if Complete(TrimmedLL(ll), 15) && Complete(TrimmedD(d), 15) && ll[END_OF_BLOCK] != 0
               then Got((TrimmedLL(ll), TrimmedD(d)), pos + |HeaderBits(ll, d, use)|) else Fail
  {
    hide *;
    ReadHeaderLengths(ll, d, use, bits, pos);
    HeaderLengthsAre(ll, d);
    HeaderUnrolls(ll, d, use);
    if Complete(TrimmedLL(ll), 15) && ll[256] != 0 {
      HeaderCodeComplete(HeaderRles(ll, d, use), HeaderLengths(ll, d), 257 + Hlit(ll));
    }
    CodesOfHeader(bits, pos);
  }

  lemma CodesOfHeader(bits: seq<bit>, pos: nat)
    ensures END_OF_BLOCK == 256
    ensures ReadDynamicHeader(bits, pos).Got? ==>
              var h, end := ReadDynamicHeader(bits, pos).value, ReadDynamicHeader(bits, pos).pos;
              && |h.ll| > END_OF_BLOCK
              && ReadDynamicCodes(bits, pos)
                 == if Complete(h.cl, 7) && Complete(h.ll, 15) && Complete(h.d, 15) && h.ll[END_OF_BLOCK] != 0
                    then Got((h.ll, h.d), end) else Fail
  {
    hide ReadDynamicHeader, Complete;
  }

  lemma SplitHeader(bits: seq<bit>, pos: nat, hlit: nat, hdist: nat, hclen: nat, order: seq<bit>, symbols: seq<bit>)
    requires hlit <= 29 && hdist <= 29 && hclen <= 15
    requires At(bits, pos, Lsb(hlit, 5) + (Lsb(hdist, 5) + (Lsb(hclen, 4) + (order + symbols))))
    ensures ReadBits(bits, pos, 5) == Got(hlit, pos + 5)
    ensures ReadBits(bits, pos + 5, 5) == Got(hdist, pos + 10)
    ensures ReadBits(bits, pos + 10, 4) == Got(hclen, pos + 14)
    ensures At(bits, pos + 14, order) && At(bits, pos + 14 + |order|, symbols)
  {
    PowersToFive();
    hide At, ReadBits;
    AtSplit(bits, pos, Lsb(hlit, 5), Lsb(hdist, 5) + (Lsb(hclen, 4) + (order + symbols)));
    AtSplit(bits, pos + 5, Lsb(hdist, 5), Lsb(hclen, 4) + (order + symbols));
    AtSplit(bits, pos + 10, Lsb(hclen, 4), order + symbols);
    AtSplit(bits, pos + 14, order, symbols);
    ReadLsb(bits, pos, hlit, 5);
    ReadLsb(bits, pos + 5, hdist, 5);
    ReadLsb(bits, pos + 10, hclen, 4);
  }

  lemma ReadDynamicSteps(bits: seq<bit>, pos: nat, hlit: nat, hdist: nat, hclen: nat, cl: seq<nat>, ll: seq<nat>,
                         d: seq<nat>, end: nat)
    requires hlit <= 29 && hdist <= 29 && hclen <= 15 && |ll| == 257 + hlit && |d| == 1 + hdist && |cl| == 19
    requires ReadBits(bits, pos, 5) == Got(hlit, pos + 5) && ReadBits(bits, pos + 5, 5) == Got(hdist, pos + 10)
    requires ReadBits(bits, pos + 10, 4) == Got(hclen, pos + 14)
    requires ReadCodeLengthCode(bits, pos + 14, hclen + 4) == Got(cl, pos + 14 + 3 * (hclen + 4))
    requires ReadLengths(cl, bits, pos + 14 + 3 * (hclen + 4), 257 + hlit + 1 + hdist, []) == Got(ll + d, end)
    ensures ReadDynamicHeader(bits, pos) == Got(Header(cl, ll, d), end)
  {
    hide Complete, ReadLengths, ReadCodeLengthCode, ReadBits;
    assert (ll + d)[..257 + hlit] == ll && (ll + d)[257 + hlit..] == d;
  }
}
