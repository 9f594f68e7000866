/** The code lengths of a dynamic block: from the counts of its symbols as they are or smoothed,
    whichever makes the block smaller; and the sizes of blocks. */
module DynamicLengths {
  import opened Prelude
  import opened Bits
  import opened PrefixCode
  import opened Symbols
  import opened Tokens
  import opened LeafOrder
  import opened HuffmanLengths
  import opened TreeCode
  import opened TreeWriter
  import opened Smoothing
  import opened Store
  import Histogram

  // ---- The patch for buggy decoders ----

  /** How many of the first n distance symbols have a code word. */
  ghost function UsedDistances(d: seq<nat>, n: nat): (c: nat)
    requires n <= |d|
    ensures c <= n
  {
    if n == 0 then 0 else UsedDistances(d, n - 1) + (if d[n - 1] != 0 then 1 else 0)
  }

  /** At least two distance symbols have a code word. */
  ghost function Patched(d: seq<nat>): (r: seq<nat>)
    requires |d| == NUM_D
    ensures |r| == NUM_D
  {
    if UsedDistances(d, 30) >= 2 then d
    else if UsedDistances(d, 30) == 0 then d[0 := 1][1 := 1]
    else if d[0] != 0 then d[1 := 1]
    else d[0 := 1]
  }

  lemma {:induction false} UsedGrows(d: seq<nat>, n: nat, m: nat)
    requires n <= m <= |d|
    ensures UsedDistances(d, n) <= UsedDistances(d, m)
    decreases m - n
  {
    if n < m { UsedGrows(d, n, m - 1); }
  }

  method PatchDistanceCodesForBuggyDecoders(dLengths: array<nat>)
    requires dLengths.Length == NUM_D
    modifies dLengths
    ensures dLengths[..] == Patched(old(dLengths[..]))
  {
    ghost var d := dLengths[..];
    var numDistCodes := 0;
    for i := 0 to 30
      invariant numDistCodes == UsedDistances(d, i) && dLengths[..] == d
    {
      if dLengths[i] != 0 {
        numDistCodes := numDistCodes + 1;
      }
      if numDistCodes >= 2 {
        UsedGrows(d, i + 1, 30);
        return;
      }
    }
    if numDistCodes == 0 {
      dLengths[0], dLengths[1] := 1, 1;
    } else if numDistCodes == 1 {
      if dLengths[0] != 0 {
        dLengths[1] := 1;
      } else {
        dLengths[0] := 1;
      }
    }
  }

  lemma {:induction false} NoneUsed(d: seq<nat>, n: nat, i: nat)
    requires i < n <= |d| && UsedDistances(d, n) == 0
    ensures d[i] == 0
  {
    if i < n - 1 { NoneUsed(d, n - 1, i); }
  }

  lemma {:induction false} UsedAtLeastOne(d: seq<nat>, n: nat, j: nat)
    requires j < n <= |d| && d[j] != 0
    ensures UsedDistances(d, n) >= 1
  {
    if j < n - 1 { UsedAtLeastOne(d, n - 1, j); }
  }

  lemma {:induction false} OneUsed(d: seq<nat>, n: nat, i: nat, j: nat)
    requires i < j < n <= |d| && UsedDistances(d, n) == 1 && d[j] != 0
    ensures d[i] == 0
  {
    if j < n - 1 {
      UsedAtLeastOne(d, n - 1, j);
      OneUsed(d, n - 1, i, j);
    } else {
      NoneUsed(d, n - 1, i);
    }
  }

  /** Kraft's sum when the first two symbols, or the first and one other, have words of one bit. */
  lemma {:induction false} KraftOf(d: seq<nat>, i: nat, j: nat, n: nat)
    requires i < j < |d| && n <= |d| && d[i] == d[j] == 1 && forall k :: 0 <= k < |d| && k != i && k != j ==> d[k] == 0
    ensures KraftSum(d[..n], 15) == (if i < n then Pow2(14) else 0) + (if j < n then Pow2(14) else 0)
  {
    hide KraftSum, KraftTerm, Pow2;
    if n == 0 {
      NoKraft(d);
    } else {
      KraftOf(d, i, j, n - 1);
      KraftNext(d, n);
    }
  }

  lemma NoKraft(d: seq<nat>)
    ensures KraftSum(d[..0], 15) == 0
  {
  }

  lemma KraftNext(d: seq<nat>, n: nat)
    requires 0 < n <= |d| && forall k :: 0 <= k < |d| ==> d[k] <= 1
    ensures KraftSum(d[..n], 15) == KraftSum(d[..n - 1], 15) + (if d[n - 1] == 0 then 0 else Pow2(14))
  {
    assert d[..n][..n - 1] == d[..n - 1];
  }

  lemma TwoWordsComplete(d: seq<nat>, i: nat, j: nat)
    requires i < j < |d| && d[i] == d[j] == 1 && forall k :: 0 <= k < |d| && k != i && k != j ==> d[k] == 0
    ensures KraftSum(d, 15) == Pow2(15)
  {
    KraftOf(d, i, j, |d|);
    assert d[..|d|] == d;
    Pow2Next(14);
  }

  lemma {:induction false} TwoUsed(d: seq<nat>, n: nat) returns (i: nat, j: nat)
    requires n <= |d| && UsedDistances(d, n) >= 2
    ensures i < j < n && d[i] != 0 && d[j] != 0
  {
    if d[n - 1] == 0 || UsedDistances(d, n - 1) >= 2 {
      i, j := TwoUsed(d, n - 1);
    } else {
      j := n - 1;
      i := SomeUsed(d, n - 1);
    }
  }

  lemma {:induction false} SomeUsed(d: seq<nat>, n: nat) returns (i: nat)
    requires n <= |d| && UsedDistances(d, n) >= 1
    ensures i < n && d[i] != 0
  {
    if d[n - 1] != 0 { i := n - 1; } else { i := SomeUsed(d, n - 1); }
  }

  /** However few distances a block uses, the patched code for them is complete. */
  lemma PatchedComplete(counts: seq<nat>)
    requires |counts| == NUM_D && counts[30] == counts[31] == 0
    ensures var d := CodeLengths(counts, 15);
            Within(Patched(d), 15) && KraftSum(Patched(d), 15) == Pow2(15) && Patched(d)[30] == Patched(d)[31] == 0
            && forall s :: 0 <= s < NUM_D && counts[s] != 0 ==> Patched(d)[s] != 0
  {
    var d := CodeLengths(counts, 15);
    RankedAtMost(counts);
    PowersAre(15);
    LengthsInRange(counts, 15);
    hide CodeLengths;
    if UsedDistances(d, 30) >= 2 {
      var i, j := TwoUsed(d, 30);
      TwoUsedRanked(counts, i, j);
      LengthsComplete(counts, 15);
    } else if UsedDistances(d, 30) == 0 {
      forall k | 0 <= k < 30 ensures d[k] == 0 { NoneUsed(d, 30, k); }
      TwoWordsComplete(Patched(d), 0, 1);
    } else {
      OneWordPatched(counts, d);
    }
  }

  lemma OneWordPatched(counts: seq<nat>, d: seq<nat>)
    requires |counts| == NUM_D && d == CodeLengths(counts, 15) && counts[30] == counts[31] == 0
    requires UsedDistances(d, 30) == 1
    requires forall s :: 0 <= s < NUM_D ==> (d[s] != 0 <==> counts[s] != 0)
    ensures Within(Patched(d), 15) && KraftSum(Patched(d), 15) == Pow2(15)
  {
    var i := SomeUsed(d, 30);
    forall k | 0 <= k < 30 && k != i ensures d[k] == 0 {
      if k < i { OneUsed(d, 30, k, i); } else if d[k] != 0 { OneUsed(d, 30, i, k); }
    }
    OneLength(counts, i);
    TwoWordsComplete(Patched(d), 0, if i == 0 then 1 else i);
  }

  /** A lone symbol gets a word of one bit. */
  lemma OneLength(counts: seq<nat>, i: nat)
    requires i < |counts| && counts[i] != 0 && forall k :: 0 <= k < |counts| && k != i ==> counts[k] == 0
    ensures CodeLengths(counts, 15)[i] == 1
  {
    RankedLeaves(counts);
    OneLeaf(counts, i, |counts|);
    LengthOfFew(counts, i);
  }

  lemma {:induction false} OneLeaf(counts: seq<nat>, i: nat, n: nat)
    requires n <= |counts| && forall k :: 0 <= k < |counts| && k != i ==> counts[k] == 0
    ensures |UsedLeaves(counts, n)| <= if i < n then 1 else 0
  {
    if n > 0 { OneLeaf(counts, i, n - 1); }
  }

  lemma LengthOfFew(counts: seq<nat>, i: nat)
    requires i < |counts| && counts[i] != 0 && |Ranked(counts)| <= 2
    ensures CodeLengths(counts, 15)[i] == 1
  {
  }

  // ---- The counts of a block's symbols ----

  /** How often the literal/length symbols occur; the end-of-block symbol occurs once. */
  ghost function LLHist(us: seq<Token>): (c: seq<nat>)
    ensures |c| == NUM_LL
  {
    seq(NUM_LL, s requires 0 <= s < NUM_LL => if s == END_OF_BLOCK then 1 else Histogram.Count(LLSymbols(us), |us|, s))
  }

  ghost function DHist(us: seq<Token>): (c: seq<nat>)
    ensures |c| == NUM_D
  {
    seq(NUM_D, s requires 0 <= s < NUM_D => Histogram.Count(DSymbols(us), |us|, s))
  }

  lemma {:induction false} CountZero(symbols: seq<int>, n: nat, s: int)
    requires n <= |symbols| && forall i :: 0 <= i < n ==> symbols[i] != s
    ensures Histogram.Count(symbols, n, s) == 0
  {
    if n > 0 { CountZero(symbols, n - 1, s); }
  }

  /** Used symbols are counted, unusable ones are not. */
  lemma HistsFit(us: seq<Token>)
    requires ValidTokens(us)
    ensures LLHist(us)[END_OF_BLOCK] != 0 && LLHist(us)[286] == LLHist(us)[287] == 0
    ensures DHist(us)[30] == DHist(us)[31] == 0
    ensures forall t :: t in us ==>
            LitLenSymbol(t) < 286 && LitLenSymbol(t) != END_OF_BLOCK && LLHist(us)[LitLenSymbol(t)] != 0
    ensures forall t :: t in us && t.dist > 0 ==> DistSymbol(t) < 30 && DHist(us)[DistSymbol(t)] != 0
  {
    hide LitLenSymbol, DistSymbol, ValidToken;
    forall i | 0 <= i < |us|
      ensures LLSymbols(us)[i] < 286 && DSymbols(us)[i] < 30 && us[i] in us
      ensures LitLenSymbol(us[i]) < 286 && LitLenSymbol(us[i]) != END_OF_BLOCK && LLHist(us)[LitLenSymbol(us[i])] != 0
      ensures us[i].dist > 0 ==> DistSymbol(us[i]) < 30 && DHist(us)[DistSymbol(us[i])] != 0
    {
      SymbolsInRange(us[i]);
      Histogram.CountOccurs(LLSymbols(us), |us|, i);
      Histogram.CountOccurs(DSymbols(us), |us|, i);
    }
    CountZero(LLSymbols(us), |us|, 286);
    CountZero(LLSymbols(us), |us|, 287);
    CountZero(DSymbols(us), |us|, 30);
    CountZero(DSymbols(us), |us|, 31);
  }

  /** Counts that are zero exactly for the symbols that cannot be used, and not for those that are. */
  ghost predicate CountsFor(us: seq<Token>, llCounts: seq<nat>, dCounts: seq<nat>) {
    && |llCounts| == NUM_LL && |dCounts| == NUM_D
    && llCounts[END_OF_BLOCK] != 0 && llCounts[286] == llCounts[287] == 0 && dCounts[30] == dCounts[31] == 0
    && (forall t :: t in us ==>
        LitLenSymbol(t) < 286 && LitLenSymbol(t) != END_OF_BLOCK && llCounts[LitLenSymbol(t)] != 0)
    && (forall t :: t in us && t.dist > 0 ==> DistSymbol(t) < 30 && dCounts[DistSymbol(t)] != 0)
  }

  lemma TrimmedEnd(c: seq<nat>, n: nat, k: nat)
    requires k <= n <= |c| && forall i :: k <= i < n ==> c[i] == 0
    ensures Trimmed(c, n) <= k
  {
  }

  /** Smoothing keeps counts fit for their block. */
  lemma SmoothedFit(us: seq<Token>, llCounts: seq<nat>, dCounts: seq<nat>)
    requires CountsFor(us, llCounts, dCounts)
    ensures CountsFor(us, Smoothed(llCounts), Smoothed(dCounts))
  {
    SmoothedKeeps(llCounts);
    SmoothedKeeps(dCounts);
    TrimmedEnd(llCounts, NUM_LL, 286);
    TrimmedEnd(dCounts, NUM_D, 30);
    hide Smoothed, Trimmed, LitLenSymbol, DistSymbol;
  }

  // ---- The lengths ----

  ghost function LLLengths(llCounts: seq<nat>): (l: seq<nat>)
    ensures |l| == |llCounts|
  {
    CodeLengths(llCounts, 15)
  }

  ghost function DLengths(dCounts: seq<nat>): (l: seq<nat>)
    requires |dCounts| == NUM_D
    ensures |l| == NUM_D
  {
    Patched(CodeLengths(dCounts, 15))
  }

  lemma LengthsWithin(counts: seq<nat>)
    requires |counts| <= 288
    ensures Within(CodeLengths(counts, 15), 15) && |Ranked(counts)| <= Pow2(15)
    ensures forall s :: 0 <= s < |counts| ==> (CodeLengths(counts, 15)[s] != 0 <==> counts[s] != 0)
  {
    RankedAtMost(counts);
    PowersAre(15);
    LengthsInRange(counts, 15);
  }

  lemma PairWithin(llCounts: seq<nat>, dCounts: seq<nat>)
    requires |llCounts| == NUM_LL && |dCounts| == NUM_D
    ensures CodePair(LLLengths(llCounts), DLengths(dCounts))
  {
    LengthsWithin(llCounts);
    LengthsWithin(dCounts);
    hide CodeLengths, Patched;
    PatchedWithin(CodeLengths(dCounts, 15));
  }

  lemma PatchedWithin(d: seq<nat>)
    requires |d| == NUM_D && Within(d, 15)
    ensures Within(Patched(d), 15)
  {
  }

  /** Every symbol of a nonempty block gets a code word, and both codes are complete. */
  lemma LengthsServe(us: seq<Token>, llCounts: seq<nat>, dCounts: seq<nat>)
    requires |us| > 0 && CountsFor(us, llCounts, dCounts)
    ensures DynamicPair(LLLengths(llCounts), DLengths(dCounts)) && HaveCodes(LLLengths(llCounts), DLengths(dCounts), us)
  {
    LengthsWithin(llCounts);
    LengthsWithin(dCounts);
    PatchedComplete(dCounts);
    hide CodeLengths, Patched, LitLenSymbol, DistSymbol;
    assert us[0] in us;
    TwoUsedRanked(llCounts, END_OF_BLOCK, LitLenSymbol(us[0]));
    LengthsComplete(llCounts, 15);
  }

  // ---- Sizes ----

  /** The number of bits that a token takes. */
  function TokenSize(ll: seq<nat>, d: seq<nat>, t: Token): nat
    requires |ll| == NUM_LL && |d| == NUM_D
  {
    if t.dist == 0 then (if t.litlen < NUM_LL then ll[t.litlen] else 0)
    else if LengthSymbol(t.litlen) < NUM_LL && ComputeDistCode(t.dist).symbol < NUM_D then
      ll[LengthSymbol(t.litlen)] + LengthExtraBits(t.litlen)
        + (d[ComputeDistCode(t.dist).symbol] + ComputeDistCode(t.dist).extraBits)
    else 0
  }

  function TokensSize(ll: seq<nat>, d: seq<nat>, us: seq<Token>): nat
    requires |ll| == NUM_LL && |d| == NUM_D
  {
    if |us| == 0 then 0 else TokensSize(ll, d, us[..|us| - 1]) + TokenSize(ll, d, us[|us| - 1])
  }

  /** The number of bits that a block's tokens and its end take. */
  function SymbolSize(ll: seq<nat>, d: seq<nat>, us: seq<Token>): nat
    requires |ll| == NUM_LL && |d| == NUM_D
  {
    TokensSize(ll, d, us) + ll[END_OF_BLOCK]
  }

  lemma TokenSizeIs(ll: seq<nat>, d: seq<nat>, t: Token)
    requires |ll| == NUM_LL && |d| == NUM_D && HasCode(ll, d, t)
    ensures |TokenBits(ll, d, t)| == TokenSize(ll, d, t)
  {
    hide LengthSymbol, LengthExtraBits, LengthExtraValue, ComputeDistCode, Codeword, Lsb;
  }

  /** The predicted size is the size. */
  lemma {:induction false} TokensSizeIs(ll: seq<nat>, d: seq<nat>, us: seq<Token>)
    requires |ll| == NUM_LL && |d| == NUM_D && HaveCodes(ll, d, us)
    ensures |TokensBits(ll, d, us)| == TokensSize(ll, d, us)
  {
    hide TokenBits, TokenSize, HasCode;
    if |us| > 0 {
      var n := |us| - 1;
      assert us[n] in us && forall t :: t in us[..n] ==> t in us;
      TokensSizeIs(ll, d, us[..n]);
      TokensBitsNext(ll, d, us, n);
      assert us[..n + 1] == us;
      TokenSizeIs(ll, d, us[n]);
    }
  }

  /** Count the bits token by token. */
  method CalculateBlockSymbolSizeSmall(ll: seq<nat>, d: seq<nat>, store: LZ77Store, lstart: nat, lend: nat)
    returns (result: nat)
    requires |ll| == NUM_LL && |d| == NUM_D && store.Valid() && lstart <= lend <= store.size
    ensures result == SymbolSize(ll, d, store.tokens[lstart..lend])
  {
    hide LengthSymbol, ComputeDistCode, LengthExtraBits, LengthSymbolExtraBits, DistSymbolExtraBits, LZ77Store.Valid;
    result := 0;
    StoreSize(store);
    ghost var us := store.tokens[lstart..lend];
    for i := lstart to lend
      invariant result == TokensSize(ll, d, us[..i - lstart])
    {
      assert us[..i + 1 - lstart][..i - lstart] == us[..i - lstart];
      TokenInStore(store, i);
      if store.dists[i] == 0 {
        result := result + ll[store.litlens[i]];
      } else {
        var llSymbol := LengthSymbol(store.litlens[i]);
        var dSymbol := ComputeDistCode(store.dists[i]).symbol;
        result := result + ll[llSymbol];
        result := result + d[dSymbol];
        result := result + LengthSymbolExtraBits(llSymbol);
        result := result + DistSymbolExtraBits(dSymbol);
      }
    }
    assert us[..lend - lstart] == us;
    result := result + ll[END_OF_BLOCK];
  }

  lemma StoreSize(store: LZ77Store)
    requires store.Valid()
    ensures store.size == |store.tokens| == |store.litlens| == |store.dists| == |store.pos|
  {
  }

  lemma TokenInStore(store: LZ77Store, i: nat)
    requires store.Valid() && i < store.size
    ensures i < |store.tokens| == |store.litlens| == |store.dists|
    ensures store.tokens[i] == Token(store.litlens[i], store.dists[i])
    ensures var t := store.tokens[i];
            && ValidToken(t)
            && (t.dist == 0 ==> t.litlen < 256)
            && (t.dist > 0 ==>
                  && 257 <= LengthSymbol(t.litlen) <= 285
                  && LengthSymbolExtraBits(LengthSymbol(t.litlen)) == LengthExtraBits(t.litlen))
            && (t.dist > 0 ==> ComputeDistCode(t.dist).symbol < 30)
            && (t.dist > 0 ==> DistSymbolExtraBits(ComputeDistCode(t.dist).symbol) == ComputeDistCode(t.dist).extraBits)
  {
    var t := store.tokens[i];
    assert ValidToken(t);
    if t.dist > 0 {
      LengthDecodes(t.litlen);
      DistDecodes(t.dist);
    }
  }

  // ---- The size from the histogram ----

  /** What one occurrence of a symbol costs, extra bits included. */
  ghost function LLWeights(ll: seq<nat>): (w: seq<nat>)
    requires |ll| == NUM_LL
    ensures |w| == NUM_LL && forall s :: 0 <= s < NUM_LL ==> w[s] == LLWeight(ll, s)
  {
    seq(NUM_LL, s requires 0 <= s < NUM_LL => LLWeight(ll, s))
  }

  ghost function LLWeight(ll: seq<nat>, s: nat): nat
    requires |ll| == NUM_LL && s < NUM_LL
  {
    if s < 256 then ll[s] else if 257 <= s <= 285 then ll[s] + LengthSymbolExtraBits(s) else 0
  }

  ghost function DWeights(d: seq<nat>): (w: seq<nat>)
    requires |d| == NUM_D
    ensures |w| == NUM_D && forall s :: 0 <= s < NUM_D ==> w[s] == DWeight(d, s)
  {
    seq(NUM_D, s requires 0 <= s < NUM_D => DWeight(d, s))
  }

  ghost function DWeight(d: seq<nat>, s: nat): nat
    requires |d| == NUM_D && s < NUM_D
  {
    if s < 30 then d[s] + DistSymbolExtraBits(s) else 0
  }

  lemma {:induction false} DotAgrees(c: seq<nat>, c': seq<nat>, w: seq<nat>)
    requires |c| == |c'| == |w| && forall i :: 0 <= i < |w| ==> c[i] == c'[i] || w[i] == 0
    ensures Dot(c, w) == Dot(c', w)
  {
    if |c| > 0 {
      var n := |c| - 1;
      DotAgrees(c[..n], c'[..n], w[..n]);
      if c[n] != c'[n] { assert c[n] * 0 == 0 == c'[n] * 0; }
    }
  }

  lemma HistNext(us: seq<Token>, t: Token)
    requires ValidToken(t)
    ensures LitLenSymbol(t) < NUM_LL && LitLenSymbol(t) != END_OF_BLOCK
    ensures LLHist(us + [t]) == LLHist(us)[LitLenSymbol(t) := LLHist(us)[LitLenSymbol(t)] + 1]
    ensures if t.dist == 0 then DHist(us + [t]) == DHist(us)
            else DistSymbol(t) < NUM_D && DHist(us + [t]) == DHist(us)[DistSymbol(t) := DHist(us)[DistSymbol(t)] + 1]
  {
    SymbolsInRange(t);
    AppendSymbols(us, t);
    hide LitLenSymbol, DistSymbol;
    var l, l', n := LLSymbols(us), LLSymbols(us + [t]), |us|;
    forall s | 0 <= s < NUM_LL && s != END_OF_BLOCK
      ensures LLHist(us + [t])[s] == LLHist(us)[s] + (if s == LitLenSymbol(t) then 1 else 0) {
      Histogram.CountPrefix(l, [LitLenSymbol(t)], n, s);
    }
    forall s | 0 <= s < NUM_D ensures DHist(us + [t])[s] == DHist(us)[s] + (if s == DSymbolOf(t) then 1 else 0) {
      Histogram.CountPrefix(DSymbols(us), [DSymbolOf(t)], n, s);
    }
  }

  lemma WeightIs(ll: seq<nat>, d: seq<nat>, t: Token)
    requires |ll| == NUM_LL && |d| == NUM_D && ValidToken(t)
    ensures LitLenSymbol(t) < NUM_LL && (t.dist > 0 ==> DistSymbol(t) < NUM_D)
    ensures TokenSize(ll, d, t) == LLWeights(ll)[LitLenSymbol(t)] + if t.dist == 0 then 0
            else DWeights(d)[DistSymbol(t)]
  {
    if t.dist > 0 {
      LengthDecodes(t.litlen);
      DistDecodes(t.dist);
      hide LengthSymbol, LengthExtraBits, ComputeDistCode;
    }
  }

  /** The weighted histogram is the size, whatever is counted for the end of the block. */
  lemma {:induction false} HistSize(ll: seq<nat>, d: seq<nat>, us: seq<Token>)
    requires |ll| == NUM_LL && |d| == NUM_D && ValidTokens(us)
    ensures Dot(LLHist(us), LLWeights(ll)) + Dot(DHist(us), DWeights(d)) == TokensSize(ll, d, us)
  {
    hide ValidToken, LitLenSymbol, DistSymbol, TokenSize, LLHist, DHist, LLWeights, DWeights, Dot;
    if |us| == 0 {
      NoHist(ll, d, us);
    } else {
      var n := |us| - 1;
      var t := us[n];
      HistSize(ll, d, us[..n]);
      assert us == us[..n] + [t];
      HistNext(us[..n], t);
      DotIncrement(LLHist(us[..n]), LLHist(us), LLWeights(ll), LitLenSymbol(t));
      if t.dist > 0 { DotIncrement(DHist(us[..n]), DHist(us), DWeights(d), DistSymbol(t)); }
      WeightIs(ll, d, t);
    }
  }

  lemma NoHist(ll: seq<nat>, d: seq<nat>, us: seq<Token>)
    requires |ll| == NUM_LL && |d| == NUM_D && |us| == 0
    ensures Dot(LLHist(us), LLWeights(ll)) == 0 && Dot(DHist(us), DWeights(d)) == 0
  {
    var zero := seq(NUM_LL, i => 0);
    DotAgrees(LLHist(us), zero, LLWeights(ll));
    DotZero(zero, LLWeights(ll));
    DotZero(DHist(us), DWeights(d));
  }

  /** Sum up the weighted counts. */
  method WeightedSize(llCounts: seq<nat>, dCounts: seq<nat>, ll: seq<nat>, d: seq<nat>) returns (result: nat)
    requires |llCounts| == |ll| == NUM_LL && |dCounts| == |d| == NUM_D
    ensures result == Dot(llCounts, LLWeights(ll)) + Dot(dCounts, DWeights(d))
  {
    hide LLWeights, DWeights, LengthSymbolExtraBits, DistSymbolExtraBits, Dot;
    ghost var w, v := LLWeights(ll), DWeights(d);
    WeightsAre(ll, d);
    result := 0;
    EmptyDot(llCounts, w);
    for i := 0 to 256
      invariant result == Dot(llCounts[..i], w[..i])
    {
      DotNext(llCounts, w, i);
      result := result + ll[i] * llCounts[i];
    }
    DotNext(llCounts, w, 256);
    for i := 257 to 286
      invariant result == Dot(llCounts[..i], w[..i])
    {
      DotNext(llCounts, w, i);
      Distributes(ll[i], LengthSymbolExtraBits(i), llCounts[i]);
      result := result + ll[i] * llCounts[i];
      result := result + LengthSymbolExtraBits(i) * llCounts[i];
    }
    DotNext(llCounts, w, 286);
    DotNext(llCounts, w, 287);
    ghost var llPart := result;
    EmptyDot(dCounts, v);
    for i := 0 to 30
      invariant result == llPart + Dot(dCounts[..i], v[..i])
    {
      DotNext(dCounts, v, i);
      Distributes(d[i], DistSymbolExtraBits(i), dCounts[i]);
      result := result + d[i] * dCounts[i];
      result := result + DistSymbolExtraBits(i) * dCounts[i];
    }
    DotNext(dCounts, v, 30);
    DotNext(dCounts, v, 31);
    assert llCounts[..288] == llCounts && w[..288] == w && dCounts[..32] == dCounts && v[..32] == v;
  }

  lemma WeightsAre(ll: seq<nat>, d: seq<nat>)
    requires |ll| == NUM_LL && |d| == NUM_D
    ensures NUM_LL == 288 && NUM_D == 32
    ensures forall s :: 0 <= s < 256 ==> LLWeights(ll)[s] == ll[s]
    ensures forall s :: 257 <= s < 286 ==> LLWeights(ll)[s] == ll[s] + LengthSymbolExtraBits(s)
    ensures LLWeights(ll)[256] == LLWeights(ll)[286] == LLWeights(ll)[287] == 0
    ensures forall s :: 0 <= s < 30 ==> DWeights(d)[s] == d[s] + DistSymbolExtraBits(s)
    ensures DWeights(d)[30] == DWeights(d)[31] == 0
  {
    hide LengthSymbolExtraBits, DistSymbolExtraBits;
  }

  lemma EmptyDot(c: seq<nat>, w: seq<nat>)
    ensures Dot(c[..0], w[..0]) == 0
  {
  }

  lemma DotNext(c: seq<nat>, w: seq<nat>, i: nat)
    requires i < |c| == |w|
    ensures Dot(c[..i + 1], w[..i + 1]) == Dot(c[..i], w[..i]) + w[i] * c[i]
    ensures w[i] == 0 ==> Dot(c[..i + 1], w[..i + 1]) == Dot(c[..i], w[..i])
  {
    assert c[..i + 1][..i] == c[..i] && w[..i + 1][..i] == w[..i];
  }

  /** The counts are those of a block; for the end-of-block symbol they may say anything. */
  ghost predicate CountsOf(llCounts: seq<nat>, dCounts: seq<nat>, us: seq<Token>) {
    && |llCounts| == NUM_LL && dCounts == DHist(us)
    && forall s :: 0 <= s < NUM_LL && s != END_OF_BLOCK ==> llCounts[s] == LLHist(us)[s]
  }

  lemma CountsGiveSize(llCounts: seq<nat>, dCounts: seq<nat>, ll: seq<nat>, d: seq<nat>, us: seq<Token>)
    requires |ll| == NUM_LL && |d| == NUM_D && ValidTokens(us) && CountsOf(llCounts, dCounts, us)
    ensures Dot(llCounts, LLWeights(ll)) + Dot(dCounts, DWeights(d)) == TokensSize(ll, d, us)
  {
    hide LLHist, DHist, ValidToken, Dot;
    HistSize(ll, d, us);
    DotAgrees(llCounts, LLHist(us), LLWeights(ll));
  }

  lemma SliceValid(store: LZ77Store, lstart: nat, lend: nat)
    requires store.Valid() && lstart <= lend <= store.size
    ensures store.size == |store.tokens| && ValidTokens(store.tokens[lstart..lend])
  {
    hide ValidToken;
  }

  /** The size from given counts if the block is long, token by token if it is short. */
  method CalculateBlockSymbolSizeGivenCounts(llCounts: seq<nat>, dCounts: seq<nat>, ll: seq<nat>, d: seq<nat>,
                                             store: LZ77Store, lstart: nat, lend: nat)
    returns (result: nat)
    requires |ll| == NUM_LL && |d| == NUM_D && store.Valid() && lstart <= lend <= store.size
    requires lend <= |store.tokens| && CountsOf(llCounts, dCounts, store.tokens[lstart..lend])
    ensures result == SymbolSize(ll, d, store.tokens[lstart..lend])
  {
    SliceValid(store, lstart, lend);
    hide CountsOf, DHist, LLHist, LZ77Store.Valid, ValidTokens;
    if lstart + NUM_LL * 3 > lend {
      result := CalculateBlockSymbolSizeSmall(ll, d, store, lstart, lend);
      return;
    }
    CountSizes(llCounts, dCounts, store.tokens[lstart..lend]);
    result := WeightedSize(llCounts, dCounts, ll, d);
    CountsGiveSize(llCounts, dCounts, ll, d, store.tokens[lstart..lend]);
    result := result + ll[END_OF_BLOCK];
  }

  lemma CountSizes(llCounts: seq<nat>, dCounts: seq<nat>, us: seq<Token>)
    requires CountsOf(llCounts, dCounts, us)
    ensures |llCounts| == NUM_LL && |dCounts| == NUM_D
  {
    hide LLHist;
  }

  lemma {:induction false} CountSlice(symbols: seq<int>, a: nat, b: nat, s: int)
    requires a <= b <= |symbols|
    ensures Histogram.Count(symbols[a..b], b - a, s) == Histogram.Count(symbols, b, s) - Histogram.Count(symbols, a, s)
    decreases b
  {
    if a < b {
      CountSlice(symbols, a, b - 1, s);
      assert symbols[a..b] == symbols[a..b - 1] + [symbols[b - 1]];
      Histogram.CountPrefix(symbols[a..b - 1], [symbols[b - 1]], b - 1 - a, s);
    }
  }

  lemma SliceCounts(ts: seq<Token>, lstart: nat, lend: nat)
    requires lstart <= lend <= |ts|
    ensures forall s :: 0 <= s < NUM_LL && s != END_OF_BLOCK ==>
            LLHist(ts[lstart..lend])[s] == LLCount(ts, lstart, lend, s)
    ensures forall s :: 0 <= s < NUM_D ==> DHist(ts[lstart..lend])[s] == DCount(ts, lstart, lend, s)
  {
    var us := ts[lstart..lend];
    hide LitLenSymbol, DSymbolOf;
    assert LLSymbols(us) == LLSymbols(ts)[lstart..lend] && DSymbols(us) == DSymbols(ts)[lstart..lend];
    forall s | 0 <= s < NUM_LL && s != END_OF_BLOCK
      ensures LLHist(us)[s] == LLCount(ts, lstart, lend, s) { CountSlice(LLSymbols(ts), lstart, lend, s); }
    forall s | 0 <= s < NUM_D
      ensures DHist(us)[s] == DCount(ts, lstart, lend, s) { CountSlice(DSymbols(ts), lstart, lend, s); }
  }

  /** The counts of a block's symbols. */
  method BlockCounts(store: LZ77Store, lstart: nat, lend: nat) returns (llCounts: array<nat>, dCounts: array<nat>)
    requires store.Valid() && lstart <= lend <= store.size
    ensures fresh(llCounts) && fresh(dCounts) && llCounts != dCounts && lend <= |store.tokens|
    ensures CountsOf(llCounts[..], dCounts[..], store.tokens[lstart..lend])
  {
    hide LZ77Store.Valid, LLCount, DCount, LLHist, DHist;
    StoreSize(store);
    llCounts := new nat[NUM_LL](_ => 0);
    dCounts := new nat[NUM_D](_ => 0);
    store.GetHistogram(lstart, lend, llCounts, dCounts);
    SliceCounts(store.tokens, lstart, lend);
    assert dCounts[..] == DHist(store.tokens[lstart..lend]);
  }

  method CalculateBlockSymbolSize(ll: seq<nat>, d: seq<nat>, store: LZ77Store, lstart: nat, lend: nat)
    returns (result: nat)
    requires |ll| == NUM_LL && |d| == NUM_D && store.Valid() && lstart <= lend <= store.size
    ensures lend <= |store.tokens| && result == SymbolSize(ll, d, store.tokens[lstart..lend])
  {
    hide *;
    StoreSize(store);
    if lstart + NUM_LL * 3 > lend {
      result := CalculateBlockSymbolSizeSmall(ll, d, store, lstart, lend);
      return;
    }
    var llCounts, dCounts := BlockCounts(store, lstart, lend);
    result := CalculateBlockSymbolSizeGivenCounts(llCounts[..], dCounts[..], ll, d, store, lstart, lend);
  }

  // ---- The better of two pairs of codes ----

  datatype Pair = Pair(ll: seq<nat>, d: seq<nat>)

  ghost predicate ValidPair(p: Pair) {
    CodePair(p.ll, p.d)
  }

  /** The number of bits of a dynamic block, without the three bits that start it. */
  ghost function DynamicSize(p: Pair, us: seq<Token>): nat
    requires ValidPair(p)
  {
    |DynamicHeader(p.ll, p.d)| + SymbolSize(p.ll, p.d, us)
  }

  /** The codes from the counts as they are, and from the smoothed counts. */
  ghost function PlainPair(us: seq<Token>): Pair {
    Pair(LLLengths(LLHist(us)), DLengths(DHist(us)))
  }

  ghost function SmoothPair(us: seq<Token>): Pair {
    Pair(LLLengths(Smoothed(LLHist(us))), DLengths(Smoothed(DHist(us))))
  }

  lemma PairsValid(us: seq<Token>)
    ensures ValidPair(PlainPair(us)) && ValidPair(SmoothPair(us))
  {
    hide LLHist, DHist, Smoothed, LLLengths, DLengths, CodePair;
    PairWithin(LLHist(us), DHist(us));
    PairWithin(Smoothed(LLHist(us)), Smoothed(DHist(us)));
  }

  lemma PairsAre(us: seq<Token>)
    ensures PlainPair(us) == Pair(LLLengths(LLHist(us)), DLengths(DHist(us)))
    ensures SmoothPair(us) == Pair(LLLengths(Smoothed(LLHist(us))), DLengths(Smoothed(DHist(us))))
  {
    hide LLHist, DHist, Smoothed, LLLengths, DLengths;
  }

  ghost function BestPair(us: seq<Token>): (p: Pair)
    ensures ValidPair(p)
  {
    PairsValid(us);
    if DynamicSize(SmoothPair(us), us) < DynamicSize(PlainPair(us), us) then SmoothPair(us) else PlainPair(us)
  }

  lemma HistsServe(us: seq<Token>)
    requires ValidTokens(us)
    ensures CountsFor(us, LLHist(us), DHist(us))
  {
    HistsFit(us);
    hide LLHist, DHist, LitLenSymbol, DistSymbol;
  }

  /** Whichever codes are chosen for a nonempty block: they are complete, and every symbol that the
      block uses has a code word. */
  lemma BestPairServes(us: seq<Token>)
    requires |us| > 0 && ValidTokens(us)
    ensures DynamicPair(BestPair(us).ll, BestPair(us).d) && HaveCodes(BestPair(us).ll, BestPair(us).d, us)
  {
    hide CountsFor, DynamicPair, HaveCodes, LLLengths, DLengths, LLHist, DHist, Smoothed, DynamicSize, CodePair;
    HistsServe(us);
    LengthsServe(us, LLHist(us), DHist(us));
    SmoothedFit(us, LLHist(us), DHist(us));
    LengthsServe(us, Smoothed(LLHist(us)), Smoothed(DHist(us)));
  }

  /** The chosen pair of codes is that of the counts or that of the smoothed counts, and neither of them
      makes the block smaller. */
  lemma BestPairIsSmaller(us: seq<Token>)
    ensures var plain := Pair(LLLengths(LLHist(us)), DLengths(DHist(us)));
            var smooth := Pair(LLLengths(Smoothed(LLHist(us))), DLengths(Smoothed(DHist(us))));
            && ValidPair(plain) && ValidPair(smooth) && (BestPair(us) == plain || BestPair(us) == smooth)
            && DynamicSize(BestPair(us), us) <= DynamicSize(plain, us)
            && DynamicSize(BestPair(us), us) <= DynamicSize(smooth, us)
  {
    PairsAre(us);
    PairsValid(us);
    hide PlainPair, SmoothPair, DynamicSize, ValidPair;
  }

  method PairFrom(llCounts: seq<nat>, dCounts: seq<nat>) returns (ll: seq<nat>, d: seq<nat>)
    requires |llCounts| == NUM_LL && |dCounts| == NUM_D
    ensures ll == LLLengths(llCounts) && d == DLengths(dCounts) && CodePair(ll, d)
  {
    PowersAre(15);
    PairWithin(llCounts, dCounts);
    hide CodeLengths, Pow2, Patched, CodePair;
    var llLengths := new nat[NUM_LL](_ => 0);
    var dLengths := new nat[NUM_D](_ => 0);
    CalculateBitLengths(llCounts, NUM_LL, 15, llLengths);
    CalculateBitLengths(dCounts, NUM_D, 15, dLengths);
    assert llLengths[..NUM_LL] == llLengths[..] && dLengths[..NUM_D] == dLengths[..];
    PatchDistanceCodesForBuggyDecoders(dLengths);
    ll, d := llLengths[..], dLengths[..];
  }

  /** The codes from smoothed copies of the counts. */
  method PairFromSmoothed(llCounts: seq<nat>, dCounts: seq<nat>) returns (ll: seq<nat>, d: seq<nat>)
    requires |llCounts| == NUM_LL && |dCounts| == NUM_D
    ensures ll == LLLengths(Smoothed(llCounts)) && d == DLengths(Smoothed(dCounts)) && CodePair(ll, d)
  {
    hide LLLengths, DLengths, Smoothed, CodePair;
    var llCounts2 := new nat[NUM_LL](i requires 0 <= i < |llCounts| => llCounts[i]);
    var dCounts2 := new nat[NUM_D](i requires 0 <= i < |dCounts| => dCounts[i]);
    assert llCounts2[..] == llCounts && dCounts2[..] == dCounts;
    OptimizeHuffmanForRLE(llCounts2);
    OptimizeHuffmanForRLE(dCounts2);
    ll, d := PairFrom(llCounts2[..], dCounts2[..]);
  }

  /** The size of a block with given codes. */
  method SizeWith(llCounts: seq<nat>, dCounts: seq<nat>, ll: seq<nat>, d: seq<nat>, store: LZ77Store, lstart: nat,
                  lend: nat) returns (size: nat)
    requires CodePair(ll, d) && store.Valid() && lstart <= lend <= store.size
    requires lend <= |store.tokens| && CountsOf(llCounts, dCounts, store.tokens[lstart..lend])
    ensures ValidPair(Pair(ll, d)) && size == DynamicSize(Pair(ll, d), store.tokens[lstart..lend])
  {
    hide DynamicHeader, SymbolSize, LZ77Store.Valid, CountsOf;
    var treeSize := CalculateTreeSize(ll, d);
    var dataSize := CalculateBlockSymbolSizeGivenCounts(llCounts, dCounts, ll, d, store, lstart, lend);
    size := treeSize + dataSize;
  }

  /** Try whether smoothed counts give a smaller block. */
  method TryOptimizeHuffmanForRLE(store: LZ77Store, lstart: nat, lend: nat, llCounts: seq<nat>, dCounts: seq<nat>,
                                  llLengths: seq<nat>, dLengths: seq<nat>)
    returns (ll: seq<nat>, d: seq<nat>, size: nat)
    requires store.Valid() && lstart <= lend <= store.size && lend <= |store.tokens|
    requires llCounts == LLHist(store.tokens[lstart..lend]) && dCounts == DHist(store.tokens[lstart..lend])
    requires Pair(llLengths, dLengths) == PlainPair(store.tokens[lstart..lend])
    ensures Pair(ll, d) == BestPair(store.tokens[lstart..lend])
    ensures size == DynamicSize(BestPair(store.tokens[lstart..lend]), store.tokens[lstart..lend])
  {
    ghost var us := store.tokens[lstart..lend];
    PairsValid(us);
    HistsAreCounts(us);
    hide LLHist, DHist, LLLengths, DLengths, CountsOf, DynamicSize, LZ77Store.Valid, Smoothed, CodePair;
    var size1 := SizeWith(llCounts, dCounts, llLengths, dLengths, store, lstart, lend);
    var llLengths2, dLengths2 := PairFromSmoothed(llCounts, dCounts);
    var size2 := SizeWith(llCounts, dCounts, llLengths2, dLengths2, store, lstart, lend);
    if size2 < size1 {
      return llLengths2, dLengths2, size2;
    }
    return llLengths, dLengths, size1;
  }

  lemma HistsAreCounts(us: seq<Token>)
    ensures CountsOf(LLHist(us), DHist(us), us)
  {
    hide DHist;
  }

  /** The codes for a dynamic block, and the block's size. */
  method GetDynamicLengths(store: LZ77Store, lstart: nat, lend: nat) returns (ll: seq<nat>, d: seq<nat>, size: nat)
    requires store.Valid() && lstart <= lend <= store.size
    ensures lend <= |store.tokens| && Pair(ll, d) == BestPair(store.tokens[lstart..lend])
    ensures size == DynamicSize(BestPair(store.tokens[lstart..lend]), store.tokens[lstart..lend])
  {
    hide *;
    StoreSize(store);
    var llCounts, dCounts := BlockCounts(store, lstart, lend);
    ghost var counts := llCounts[..];
    HistsFrom(counts, dCounts[..], store.tokens[lstart..lend]);
    llCounts[256] := 1;
    assert llCounts[..] == counts[256 := 1];
    ll, d := PairFrom(llCounts[..], dCounts[..]);
    PlainPairIs(store.tokens[lstart..lend]);
    ll, d, size := TryOptimizeHuffmanForRLE(store, lstart, lend, llCounts[..], dCounts[..], ll, d);
  }

  lemma HistsFrom(llCounts: seq<nat>, dCounts: seq<nat>, us: seq<Token>)
    requires CountsOf(llCounts, dCounts, us)
    ensures |llCounts| == NUM_LL && |dCounts| == NUM_D && NUM_LL == 288
    ensures llCounts[256 := 1] == LLHist(us) && dCounts == DHist(us)
  {
    hide DHist;
  }

  lemma PlainPairIs(us: seq<Token>)
    ensures PlainPair(us) == Pair(LLLengths(LLHist(us)), DLengths(DHist(us)))
  {
  }
}
