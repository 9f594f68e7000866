/** Writing the header of a dynamic block, and predicting its size. */
module TreeWriter {
  import opened Prelude
  import opened Bits
  import opened Symbols
  import opened Inflate
  import opened PrefixCode
  import opened LeafOrder
  import opened HuffmanLengths
  import opened TreeCode
  import Katajainen
  import Tree

  /** lengthLimitedCodeLengths for callers whose symbols always fit. */
  method CalculateBitLengths(count: seq<nat>, n: nat, maxBits: nat, bitlengths: array<nat>)
    requires n == |count| <= bitlengths.Length && n <= Pow2(maxBits)
    modifies bitlengths
    ensures bitlengths[..n] == CodeLengths(count, maxBits)
    ensures bitlengths[n..] == old(bitlengths[n..])
  {
    RankedAtMost(count);
    var ok := Katajainen.LengthLimitedCodeLengths(count, n, maxBits, bitlengths);
  }

  // ---- Sizes ----

  lemma {:induction false} DotIncrement(w: seq<nat>, w': seq<nat>, l: seq<nat>, i: nat)
    requires |w| == |w'| == |l| && i < |w| && w' == w[i := w[i] + 1]
    ensures Dot(w', l) == Dot(w, l) + l[i]
    decreases |w|
  {
    var n := |w| - 1;
    if i < n {
      DotIncrement(w[..n], w'[..n], l[..n], i);
    } else {
      assert w'[..n] == w[..n];
      Distributes(w[n], 1, l[n]);
    }
  }

  lemma {:induction false} DotZero(w: seq<nat>, l: seq<nat>)
    requires |w| == |l| && forall i :: 0 <= i < |w| ==> w[i] == 0
    ensures Dot(w, l) == 0
  {
    if |w| > 0 { DotZero(w[..|w| - 1], l[..|l| - 1]); }
  }

  /** The size of run-length coded lengths, from the counts of the symbols alone. */
  function RlesSize(counts: seq<nat>, cl: seq<nat>): nat
    requires |counts| == |cl| == 19
  {
    Dot(counts, cl) + counts[16] * 2 + counts[17] * 3 + counts[18] * 7
  }

  lemma CountsNext(rs: seq<Rle>)
    requires |rs| > 0 && rs[|rs| - 1].symbol < 19
    ensures var c, x := RleCounts(rs[..|rs| - 1]), rs[|rs| - 1].symbol;
            RleCounts(rs) == c[x := c[x] + 1]
  {
  }

  lemma NoSize(rs: seq<Rle>, cl: seq<nat>)
    requires |cl| == 19 && |rs| == 0
    ensures RlesSize(RleCounts(rs), cl) == 0
  {
    DotZero(RleCounts(rs), cl);
  }

  lemma {:induction false} RlesSizeIs(rs: seq<Rle>, cl: seq<nat>)
    requires |cl| == 19 && forall r :: r in rs ==> r.symbol < 19
    ensures |RlesBits(cl, rs)| == RlesSize(RleCounts(rs), cl)
    decreases |rs|
  {
    hide RlesSize, RleBits;
    if |rs| == 0 {
      NoSize(rs, cl);
    } else {
      var n := |rs| - 1;
      assert rs[n] in rs;
      RlesSizeIs(rs[..n], cl);
      RlesBitsNext(cl, rs, n);
      assert rs[..n + 1] == rs;
      CountsNext(rs);
      OneMoreSize(RleCounts(rs[..n]), cl, rs[n]);
    }
  }

  lemma OneMoreSize(counts: seq<nat>, cl: seq<nat>, r: Rle)
    requires |counts| == |cl| == 19 && r.symbol < 19
    ensures RlesSize(counts[r.symbol := counts[r.symbol] + 1], cl) == RlesSize(counts, cl) + |RleBits(cl, r)|
  {
    hide Dot, Lsb, Codeword;
    DotIncrement(counts, counts[r.symbol := counts[r.symbol] + 1], cl, r.symbol);
  }

  ghost function HeaderSize(rs: seq<Rle>): nat {
    14 + (TrimOrder(RleCounts(rs), 15) + 4) * 3 + RlesSize(RleCounts(rs), CodeLengthCode(rs))
  }

  lemma {:induction false} OrderBitsSize(cl: seq<nat>, n: nat)
    requires |cl| == 19 && n <= 19
    ensures |OrderBits(cl, n)| == 3 * n
  {
    if n > 0 { OrderBitsSize(cl, n - 1); }
  }

  /** The predicted size of a header is its size. */
  lemma HeaderSizeIs(hlit: nat, hdist: nat, rs: seq<Rle>)
    requires forall r :: r in rs ==> r.symbol < 19
    ensures |RleHeader(hlit, hdist, rs)| == HeaderSize(rs)
  {
    hide Lsb, OrderBits, RlesBits, CodeLengthCode, TrimOrder, RlesSize;
    OrderBitsSize(CodeLengthCode(rs), TrimOrder(RleCounts(rs), 15) + 4);
    RlesSizeIs(rs, CodeLengthCode(rs));
  }

  // ---- Collecting the symbols ----

  /** The counts are those of the symbols collected so far. */
  ghost predicate Counted(rs: seq<Rle>, counts: seq<nat>) {
    |counts| == 19 && forall x :: 0 <= x < 19 ==> counts[x] == RleCount(rs, x)
  }

  lemma CountOneMore(rs: seq<Rle>, counts: seq<nat>, r: Rle)
    requires Counted(rs, counts) && r.symbol < 19
    ensures Counted(rs + [r], counts[r.symbol := counts[r.symbol] + 1])
  {
    assert (rs + [r])[..|rs|] == rs;
  }

  method Append(rle: seq<Rle>, r: Rle, clCounts: array<nat>) returns (rle': seq<Rle>)
    requires clCounts.Length == 19 && Counted(rle, clCounts[..]) && r.symbol < 19
    modifies clCounts
    ensures rle' == rle + [r] && Counted(rle', clCounts[..])
  {
    CountOneMore(rle, clCounts[..], r);
    ghost var before := clCounts[..];
    clCounts[r.symbol] := clCounts[r.symbol] + 1;
    assert clCounts[..] == before[r.symbol := before[r.symbol] + 1];
    rle' := rle + [r];
  }

  method EmitZeros18(rle: seq<Rle>, n: nat, clCounts: array<nat>) returns (rle': seq<Rle>, count: nat)
    requires clCounts.Length == 19 && Counted(rle, clCounts[..])
    modifies clCounts
    ensures rle' == rle + Zeros18(n) && count == After18(n) && Counted(rle', clCounts[..])
  {
    rle', count := rle, n;
    while count >= 11
      invariant Counted(rle', clCounts[..])
      invariant rle' + Zeros18(count) == rle + Zeros18(n) && After18(count) == After18(n)
    {
      var count2 := Min(count, 138);
      ghost var before := rle';
      rle' := Append(rle', Rle(18, count2 - 11), clCounts);
      assert before + ([Rle(18, count2 - 11)] + Zeros18(count - count2)) == rle' + Zeros18(count - count2);
      count := count - count2;
    }
  }

  method EmitZeros17(rle: seq<Rle>, n: nat, clCounts: array<nat>) returns (rle': seq<Rle>, count: nat)
    requires clCounts.Length == 19 && Counted(rle, clCounts[..])
    modifies clCounts
    ensures rle' == rle + Zeros17(n) && count == After17(n) && Counted(rle', clCounts[..])
  {
    rle', count := rle, n;
    while count >= 3
      invariant Counted(rle', clCounts[..])
      invariant rle' + Zeros17(count) == rle + Zeros17(n) && After17(count) == After17(n)
    {
      var count2 := Min(count, 10);
      ghost var before := rle';
      rle' := Append(rle', Rle(17, count2 - 3), clCounts);
      assert before + ([Rle(17, count2 - 3)] + Zeros17(count - count2)) == rle' + Zeros17(count - count2);
      count := count - count2;
    }
  }

  method EmitRepeats16(rle: seq<Rle>, n: nat, clCounts: array<nat>) returns (rle': seq<Rle>, count: nat)
    requires clCounts.Length == 19 && Counted(rle, clCounts[..])
    modifies clCounts
    ensures rle' == rle + Repeats16(n) && count == After16(n) && Counted(rle', clCounts[..])
  {
    rle', count := rle, n;
    while count >= 3
      invariant Counted(rle', clCounts[..])
      invariant rle' + Repeats16(count) == rle + Repeats16(n) && After16(count) == After16(n)
    {
      var count2 := Min(count, 6);
      ghost var before := rle';
      rle' := Append(rle', Rle(16, count2 - 3), clCounts);
      assert before + ([Rle(16, count2 - 3)] + Repeats16(count - count2)) == rle' + Repeats16(count - count2);
      count := count - count2;
    }
  }

  method EmitPlain(rle: seq<Rle>, symbol: nat, n: nat, clCounts: array<nat>) returns (rle': seq<Rle>)
    requires clCounts.Length == 19 && Counted(rle, clCounts[..]) && symbol < 19
    modifies clCounts
    ensures rle' == rle + Plain(symbol, n) && Counted(rle', clCounts[..])
  {
    rle' := rle;
    var count := n;
    while count > 0
      invariant 0 <= count <= n && Counted(rle', clCounts[..])
      invariant rle' == rle + Plain(symbol, n - count)
    {
      rle' := Append(rle', Rle(symbol, 0), clCounts);
      count := count - 1;
    }
  }

  /** The symbols for one run. */
  method EmitRun(rle: seq<Rle>, symbol: nat, n: nat, use: Repeats, clCounts: array<nat>) returns (rle': seq<Rle>)
    requires clCounts.Length == 19 && Counted(rle, clCounts[..]) && symbol < 16
    modifies clCounts
    ensures rle' == rle + RunSymbols(symbol, n, use) && Counted(rle', clCounts[..])
  {
    hide Zeros18, Zeros17, Repeats16, After18, After17, After16, Plain, Counted;
    rle' := rle;
    var count := n;
    if symbol == 0 && count >= 3 {
      if use.use18 {
        rle', count := EmitZeros18(rle', count, clCounts);
      }
      if use.use17 {
        rle', count := EmitZeros17(rle', count, clCounts);
      }
    }
    if use.use16 && count >= 4 {
      count := count - 1;
      rle' := Append(rle', Rle(symbol, 0), clCounts);
      rle', count := EmitRepeats16(rle', count, clCounts);
    }
    rle' := EmitPlain(rle', symbol, count, clCounts);
  }

  /** All symbols for a vector of lengths. */
  method CollectRles(lengths: seq<nat>, use: Repeats, clCounts: array<nat>) returns (rle: seq<Rle>)
    requires clCounts.Length == 19 && forall x :: 0 <= x < 19 ==> clCounts[x] == 0
    requires forall k :: 0 <= k < |lengths| ==> lengths[k] < 16
    modifies clCounts
    ensures rle == RleFrom(lengths, 0, use) && Counted(rle, clCounts[..])
  {
    hide RleFrom, RunSymbols, Counted, RunLength;
    rle := [];
    var i := 0;
    NoneCollected(lengths, use, clCounts[..]);
    while i < |lengths|
      invariant i <= |lengths| && Counted(rle, clCounts[..])
      invariant rle + RleFrom(lengths, i, use) == RleFrom(lengths, 0, use)
    {
      var symbol := lengths[i];
      var count := 1;
      if use.use16 || (symbol == 0 && (use.use17 || use.use18)) {
        count := CountRun(lengths, i);
      }
      RleFromStep(lengths, i, use);
      ghost var before := rle;
      rle := EmitRun(rle, symbol, count, use, clCounts);
      assert before + (RunSymbols(symbol, count, use) + RleFrom(lengths, i + count, use))
        == rle + RleFrom(lengths, i + count, use);
      i := i + count;
    }
  }

  lemma NoneCollected(lengths: seq<nat>, use: Repeats, counts: seq<nat>)
    requires |counts| == 19 && forall x :: 0 <= x < 19 ==> counts[x] == 0
    ensures Counted([], counts) && RleFrom(lengths, |lengths|, use) == []
  {
  }

  method CountRun(lengths: seq<nat>, i: nat) returns (count: nat)
    requires i < |lengths|
    ensures count == RunLength(lengths, i)
  {
    count := 1;
    var j := i + 1;
    while j < |lengths| && lengths[j] == lengths[i]
      invariant i < j <= |lengths| && count == j - i && lengths[j - 1] == lengths[i]
      invariant RunLength(lengths, i) == j - 1 - i + RunLength(lengths, j - 1)
    {
      count := count + 1;
      j := j + 1;
    }
  }

  // ---- Writing ----

  method TrimLengths(l: seq<nat>, base: nat) returns (h: nat)
    requires base + 29 <= |l|
    ensures h == TrimEnd(l, base, 29)
  {
    h := 29;
    while h > 0 && l[base + h - 1] == 0
      invariant h <= 29 && TrimEnd(l, base, h) == TrimEnd(l, base, 29)
    {
      h := h - 1;
    }
  }

  method WriteOrder(cl: seq<nat>, n: nat, w: BitWriter)
    requires |cl| == 19 && n <= 19 && w.Valid()
    modifies w
    ensures w.Valid() && w.written == old(w.written) + OrderBits(cl, n)
  {
    hide Packs, Lsb;
    for i := 0 to n
      invariant w.Valid() && w.written == old(w.written) + OrderBits(cl, i)
    {
      w.AddBits(cl[CodeLengthOrder(i)], 3);
    }
  }

  method WriteRles(rle: seq<Rle>, clSymbols: seq<nat>, cl: seq<nat>, w: BitWriter)
    requires |cl| == 19 <= |clSymbols| && w.Valid()
    requires forall r :: r in rle ==> r.symbol < 19 && clSymbols[r.symbol] == Code(cl, r.symbol)
    modifies w
    ensures w.Valid() && w.written == old(w.written) + RlesBits(cl, rle)
  {
    hide Packs, RleBits, RlesBits, Code;
    assert RlesBits(cl, rle[..0]) == [] by { NoBits(cl, rle); }
    for i := 0 to |rle|
      invariant w.Valid() && w.written == old(w.written) + RlesBits(cl, rle[..i])
    {
      RlesBitsNext(cl, rle, i);
      assert rle[i] in rle;
      WriteRle(rle[i], clSymbols[rle[i].symbol], cl, w);
    }
    assert rle[..|rle|] == rle;
  }

  lemma NoBits(cl: seq<nat>, rle: seq<Rle>)
    ensures RlesBits(cl, rle[..0]) == []
  {
  }

  method WriteRle(r: Rle, code: nat, cl: seq<nat>, w: BitWriter)
    requires |cl| == 19 && r.symbol < 19 && code == Code(cl, r.symbol) && w.Valid()
    modifies w
    ensures w.Valid() && w.written == old(w.written) + RleBits(cl, r)
  {
    hide Packs, Code, Lsb;
    w.AddHuffmanBits(code, cl[r.symbol]);
    match r.symbol {
      case 16 => w.AddBits(r.extra, 2);
      case 17 => w.AddBits(r.extra, 3);
      case 18 => w.AddBits(r.extra, 7);
      case _ =>
    }
  }

  /** The code for the code length symbols, and its code words. */
  method BuildCodeLengthCode(rle: seq<Rle>, clCounts: seq<nat>) returns (cl: seq<nat>, clSymbols: seq<nat>)
    requires Counted(rle, clCounts) && forall r :: r in rle ==> ValidRle(r)
    ensures cl == CodeLengthCode(rle) && |cl| == |clSymbols| == 19
    ensures forall r :: r in rle ==> r.symbol < 19 && clSymbols[r.symbol] == Code(cl, r.symbol)
  {
    assert clCounts == RleCounts(rle);
    var clcl := new nat[19](_ => 0);
    Pow2Mono(5, 7);
    PowersToFive();
    CalculateBitLengths(clCounts, 19, 7, clcl);
    assert clcl[..19] == clcl[..];
    CodeLengthCodeFits(rle);
    var symbols := new nat[19](_ => 0);
    Tree.LengthsToSymbols(clcl[..], 7, symbols);
    cl, clSymbols := clcl[..], symbols[..];
  }

  method TrimCodeLengthCode(clCounts: seq<nat>) returns (hclen: nat)
    requires |clCounts| == 19
    ensures hclen == TrimOrder(clCounts, 15)
  {
    hclen := 15;
    while hclen > 0 && clCounts[CodeLengthOrder(hclen + 3)] == 0
      invariant hclen <= 15 && TrimOrder(clCounts, hclen) == TrimOrder(clCounts, 15)
    {
      hclen := hclen - 1;
    }
  }

  method SumSizes(counts: seq<nat>, cl: seq<nat>) returns (result: nat)
    requires |counts| == |cl| == 19
    ensures result == RlesSize(counts, cl)
  {
    result := 0;
    for i := 0 to 19
      invariant result == Dot(counts[..i], cl[..i])
    {
      assert counts[..i + 1][..i] == counts[..i] && cl[..i + 1][..i] == cl[..i];
      result := result + counts[i] * cl[i];
    }
    assert counts[..19] == counts && cl[..19] == cl;
    result := result + counts[16] * 2 + counts[17] * 3 + counts[18] * 7;
  }

  /** The header for collected symbols. */
  method EncodeRles(hlit: nat, hdist: nat, rle: seq<Rle>, clCounts: seq<nat>, w: BitWriter?) returns (result: nat)
    requires Counted(rle, clCounts) && forall r :: r in rle ==> ValidRle(r)
    requires w != null ==> w.Valid()
    modifies if w == null then {} else {w}
    ensures result == |RleHeader(hlit, hdist, rle)|
    ensures w != null ==> w.Valid() && w.written == old(w.written) + RleHeader(hlit, hdist, rle)
  {
    CountedIs(rle, clCounts);
    hide *;
    HeaderSizeIs(hlit, hdist, rle);
    RleHeaderIs(hlit, hdist, rle);
    var cl, clSymbols := BuildCodeLengthCode(rle, clCounts);
    var hclen := TrimCodeLengthCode(clCounts);
    var sum := SumSizes(clCounts, cl);
    result := 14 + (hclen + 4) * 3 + sum;
    HeaderSizeOf(rle);
    if w != null {
      WriteHeader(hlit, hdist, hclen, cl, clSymbols, rle, w);
    }
  }

  lemma CountedIs(rle: seq<Rle>, clCounts: seq<nat>)
    requires Counted(rle, clCounts) && forall r :: r in rle ==> ValidRle(r)
    ensures clCounts == RleCounts(rle) && forall r :: r in rle ==> r.symbol < 19
  {
  }

  lemma HeaderSizeOf(rs: seq<Rle>)
    ensures HeaderSize(rs) == 14 + (TrimOrder(RleCounts(rs), 15) + 4) * 3 + RlesSize(RleCounts(rs), CodeLengthCode(rs))
  {
  }

  method WriteHeader(hlit: nat, hdist: nat, hclen: nat, cl: seq<nat>, clSymbols: seq<nat>, rle: seq<Rle>, w: BitWriter)
    requires w.Valid() && hclen <= 15 && |cl| == 19 <= |clSymbols|
    requires forall r :: r in rle ==> r.symbol < 19 && clSymbols[r.symbol] == Code(cl, r.symbol)
    modifies w
    ensures w.Valid()
    ensures w.written == old(w.written)
            + (Lsb(hlit, 5) + (Lsb(hdist, 5) + (Lsb(hclen, 4) + (OrderBits(cl, hclen + 4) + RlesBits(cl, rle)))))
  {
    hide *;
    w.AddBits(hlit, 5);
    w.AddBits(hdist, 5);
    w.AddBits(hclen, 4);
    WriteOrder(cl, hclen + 4, w);
    WriteRles(rle, clSymbols, cl, w);
  }

  lemma HeaderParts(ll: seq<nat>, d: seq<nat>, use: Repeats)
    requires CodePair(ll, d)
    ensures var hlit, hdist := TrimEnd(ll, 257, 29), TrimEnd(d, 1, 29);
            var lengths := ll[..257 + hlit] + d[..1 + hdist];
            && (forall k :: 0 <= k < |lengths| ==> lengths[k] < 16)
            && HeaderRles(ll, d, use) == RleFrom(lengths, 0, use)
            && HeaderBits(ll, d, use) == RleHeader(hlit, hdist, HeaderRles(ll, d, use))
  {
    hide RleFrom, RleHeader, TrimEnd;
    var hlit, hdist := TrimEnd(ll, 257, 29), TrimEnd(d, 1, 29);
    var lengths := ll[..257 + hlit] + d[..1 + hdist];
    forall k | 0 <= k < |lengths| ensures lengths[k] < 16 {
      assert lengths[k] == (if k < 257 + hlit then ll[k] else d[k - 257 - hlit]);
    }
  }

  /** Describe two codes with the given repeat symbols: the number of bits that takes, and the bits
      themselves if there is a writer. */
  method EncodeTree(llLengths: seq<nat>, dLengths: seq<nat>, use: Repeats, w: BitWriter?) returns (result: nat)
    requires CodePair(llLengths, dLengths) && (w != null ==> w.Valid())
    modifies if w == null then {} else {w}
    ensures result == |HeaderBits(llLengths, dLengths, use)|
    ensures w != null ==> w.Valid() && w.written == old(w.written) + HeaderBits(llLengths, dLengths, use)
  {
    hide *;
    PairSizes(llLengths, dLengths);
    var hlit := TrimLengths(llLengths, 257);
    var hdist := TrimLengths(dLengths, 1);
    HeaderParts(llLengths, dLengths, use);
    HeaderUnrolls(llLengths, dLengths, use);
    var lengths := llLengths[..257 + hlit] + dLengths[..1 + hdist];
    var clCounts := new nat[19](_ => 0);
    var rle := CollectRles(lengths, use, clCounts);
    result := EncodeRles(hlit, hdist, rle, clCounts[..], w);
  }

  // ---- The best of the eight settings ----

  function Setting(i: nat): Repeats {
    Repeats(i % 2 != 0, i / 2 % 2 != 0, i / 4 % 2 != 0)
  }

  /** The first of the first n settings that gives the smallest header. */
  ghost function BestSetting(ll: seq<nat>, d: seq<nat>, n: nat): (b: nat)
    requires CodePair(ll, d) && n > 0
    ensures b < n
  {
    if n == 1 then 0
    else
      var b := BestSetting(ll, d, n - 1);
      if |HeaderBits(ll, d, Setting(n - 1))| < |HeaderBits(ll, d, Setting(b))| then n - 1 else b
  }

  lemma {:induction false} BestIsSmallest(ll: seq<nat>, d: seq<nat>, n: nat, i: nat)
    requires CodePair(ll, d) && i < n
    ensures |HeaderBits(ll, d, Setting(BestSetting(ll, d, n)))| <= |HeaderBits(ll, d, Setting(i))|
    ensures i < BestSetting(ll, d, n) ==>
              |HeaderBits(ll, d, Setting(BestSetting(ll, d, n)))| < |HeaderBits(ll, d, Setting(i))|
  {
    hide HeaderBits;
    if i < n - 1 { BestIsSmallest(ll, d, n - 1, i); }
  }

  /** The bits that a dynamic block's header gets. */
  ghost function DynamicHeader(ll: seq<nat>, d: seq<nat>): seq<bit>
    requires CodePair(ll, d)
  {
    HeaderBits(ll, d, Setting(BestSetting(ll, d, 8)))
  }

  /** Whichever repeat symbols are allowed, the header does not get smaller. */
  lemma HeaderIsSmallest(ll: seq<nat>, d: seq<nat>, use: Repeats)
    requires CodePair(ll, d)
    ensures |DynamicHeader(ll, d)| <= |HeaderBits(ll, d, use)|
  {
    hide HeaderBits, CodePair, BestSetting;
    var i := (if use.use16 then 1 else 0) + (if use.use17 then 2 else 0) + if use.use18 then 4 else 0;
    assert Setting(i) == use;
    BestIsSmallest(ll, d, 8, i);
  }

  lemma DynamicHeaderIs(ll: seq<nat>, d: seq<nat>)
    requires CodePair(ll, d)
    ensures |ll| == NUM_LL && |d| == NUM_D
    ensures DynamicHeader(ll, d) == HeaderBits(ll, d, Setting(BestSetting(ll, d, 8)))
  {
    hide HeaderBits, BestSetting;
  }

  lemma NextSetting(ll: seq<nat>, d: seq<nat>, n: nat)
    requires CodePair(ll, d)
    ensures n == 0 ==> BestSetting(ll, d, 1) == 0
    ensures n > 0 ==>
              var b := BestSetting(ll, d, n);
              BestSetting(ll, d, n + 1) == if |HeaderBits(ll, d, Setting(n))| < |HeaderBits(ll, d, Setting(b))| then n
                else b
  {
    hide HeaderBits, Setting;
  }

  lemma HeaderNotEmpty(ll: seq<nat>, d: seq<nat>, use: Repeats)
    requires CodePair(ll, d)
    ensures |HeaderBits(ll, d, use)| >= 14
  {
    hide CodeLengthCode, TrimOrder, OrderBits, RlesBits, HeaderRles;
  }

  method AddDynamicTree(llLengths: seq<nat>, dLengths: seq<nat>, w: BitWriter)
    requires CodePair(llLengths, dLengths) && w.Valid()
    modifies w
    ensures w.Valid() && w.written == old(w.written) + DynamicHeader(llLengths, dLengths)
  {
    hide *;
    DynamicHeaderIs(llLengths, dLengths);
    var best: nat := 0;
    var bestSize := 0;
    for i := 0 to 8
      invariant i == 0 ==> bestSize == 0
      invariant i > 0 ==> best == BestSetting(llLengths, dLengths, i)
      invariant i > 0 ==> bestSize == |HeaderBits(llLengths, dLengths, Setting(best))|
      invariant w.Valid() && w.written == old(w.written)
    {
      HeaderNotEmpty(llLengths, dLengths, Setting(best));
      NextSetting(llLengths, dLengths, i);
      var size := EncodeTree(llLengths, dLengths, Setting(i), null);
      if bestSize == 0 || size < bestSize {
        bestSize := size;
        best := i;
      }
    }
    var _ := EncodeTree(llLengths, dLengths, Setting(best), w);
  }

  method CalculateTreeSize(llLengths: seq<nat>, dLengths: seq<nat>) returns (result: nat)
    requires CodePair(llLengths, dLengths)
    ensures result == |DynamicHeader(llLengths, dLengths)|
  {
    hide *;
    DynamicHeaderIs(llLengths, dLengths);
    result := 0;
    for i := 0 to 8
      invariant i == 0 ==> result == 0
      invariant i > 0 ==> result == |HeaderBits(llLengths, dLengths, Setting(BestSetting(llLengths, dLengths, i)))|
    {
      if i > 0 { HeaderNotEmpty(llLengths, dLengths, Setting(BestSetting(llLengths, dLengths, i))); }
      NextSetting(llLengths, dLengths, i);
      var size := EncodeTree(llLengths, dLengths, Setting(i), null);
      if result == 0 || size < result {
        result := size;
      }
    }
  }
}
