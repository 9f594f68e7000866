/** Length-limited Huffman code lengths for a vector of symbol frequencies: what
    lengthLimitedCodeLengths computes, and why those lengths are valid and optimal. */
module HuffmanLengths {
  import opened Prelude
  import opened LeafOrder
  import opened PackageMerge

  /** With n leaves no optimal code is longer than n - 1. */
  function Limit(n: nat, maxBits: nat): nat
    requires n > 0
  {
    if n - 1 < maxBits then n - 1 else maxBits
  }

  ghost function RankOf(leaves: seq<Node>, symbol: nat): (i: nat)
    requires exists x :: x in leaves && x.count == symbol
    ensures i < |leaves| && leaves[i].count == symbol
  {
    var x :| x in leaves && x.count == symbol;
    var i :| 0 <= i < |leaves| && leaves[i] == x;
    i
  }

  /** Positive, ascending weights. */
  lemma RankedWeights(frequencies: seq<nat>)
    requires |Ranked(frequencies)| >= 2
    ensures Weights(WeightsOf(Ranked(frequencies)))
  {
    RankedLeaves(frequencies);
    var r := Ranked(frequencies);
    forall i | 0 <= i < |r| ensures r[i].weight > 0 { assert r[i] in r; }
    forall i, j | 0 <= i <= j < |r| ensures r[i].weight <= r[j].weight {
      if i < j { assert CompareLeaves(r[i], r[j]) <= 0; }
    }
  }

  ghost function DepthsOf(frequencies: seq<nat>, maxBits: nat): (d: seq<nat>)
    requires |Ranked(frequencies)| > 2
    ensures |d| == |Ranked(frequencies)|
  {
    RankedWeights(frequencies);
    LeafDepths(WeightsOf(Ranked(frequencies)), Limit(|Ranked(frequencies)|, maxBits))
  }

  lemma UsedIsRanked(frequencies: seq<nat>, s: nat)
    requires s < |frequencies| && frequencies[s] != 0
    ensures exists x :: x in Ranked(frequencies) && x.count == s
  {
    RankedLeaves(frequencies);
    assert Node(frequencies[s], s, NO_NODE) in Ranked(frequencies);
  }

  ghost function LengthOf(frequencies: seq<nat>, maxBits: nat, s: nat): nat
    requires s < |frequencies|
  {
    if frequencies[s] == 0 then 0
    else if |Ranked(frequencies)| <= 2 then 1
    else UsedIsRanked(frequencies, s); DepthsOf(frequencies, maxBits)[RankOf(Ranked(frequencies), s)]
  }

  /** The code lengths, symbol by symbol. */
  ghost function CodeLengths(frequencies: seq<nat>, maxBits: nat): (l: seq<nat>)
    ensures |l| == |frequencies|
    ensures forall s :: 0 <= s < |l| ==> l[s] == LengthOf(frequencies, maxBits, s)
  {
    seq(|frequencies|, s requires 0 <= s < |frequencies| => LengthOf(frequencies, maxBits, s))
  }

  /** The leaf at rank i gets depth i. */
  lemma LengthAtRank(frequencies: seq<nat>, maxBits: nat, i: nat)
    requires |Ranked(frequencies)| > 2 && i < |Ranked(frequencies)|
    ensures Ranked(frequencies)[i].count < |frequencies|
    ensures CodeLengths(frequencies, maxBits)[Ranked(frequencies)[i].count] == DepthsOf(frequencies, maxBits)[i]
  {
    RankedLeaves(frequencies);
    var r := Ranked(frequencies);
    assert r[i] in r;
    UsedIsRanked(frequencies, r[i].count);
    assert RankOf(r, r[i].count) == i;
  }

  lemma LimitIsEnough(n: nat, maxBits: nat)
    requires n >= 2 && n <= Pow2(maxBits)
    ensures 0 < Limit(n, maxBits) <= maxBits && n <= Pow2(Limit(n, maxBits))
  {
    Pow2Exceeds(n - 1);
    assert maxBits == 0 ==> Pow2(maxBits) == 1;
  }

  // ---- Validity ----

  /** Within the limit, used symbols and only those get a code word. */
  lemma LengthsInRange(frequencies: seq<nat>, maxBits: nat)
    requires maxBits > 0 && |Ranked(frequencies)| <= Pow2(maxBits)
    ensures forall s :: 0 <= s < |frequencies| ==>
              && CodeLengths(frequencies, maxBits)[s] <= maxBits
              && (CodeLengths(frequencies, maxBits)[s] != 0 <==> frequencies[s] != 0)
  {
    var n := |Ranked(frequencies)|;
    forall s | 0 <= s < |frequencies|
      ensures LengthOf(frequencies, maxBits, s) <= maxBits
      ensures LengthOf(frequencies, maxBits, s) != 0 <==> frequencies[s] != 0
    {
      if frequencies[s] != 0 && n > 2 {
        RankedWeights(frequencies);
        LimitIsEnough(n, maxBits);
        LeafDepthsComplete(WeightsOf(Ranked(frequencies)), Limit(n, maxBits));
      }
    }
  }

  ghost function KraftAt(l: seq<nat>, L: nat): Node -> nat {
    (x: Node) => if x.count < |l| && l[x.count] <= L then KraftTerm(l[x.count], L) else 0
  }

  ghost function CostAt(l: seq<nat>): Node -> nat {
    (x: Node) => if x.count < |l| then x.weight * l[x.count] else 0
  }

  /** Sums over the leaves are sums over the lengths listed in leaf order. */
  lemma {:induction false} SumsByRank(leaves: seq<Node>, l: seq<nat>, d: seq<nat>, L: nat)
    requires |d| == |leaves|
    requires forall i :: 0 <= i < |d| ==> leaves[i].count < |l| && l[leaves[i].count] == d[i] <= L
    ensures LeafSum(KraftAt(l, L), leaves) == KraftSum(d, L)
    ensures LeafSum(CostAt(l), leaves) == Dot(WeightsOf(leaves), d)
  {
    if |leaves| > 0 {
      SumsByRank(leaves[..|leaves| - 1], l, d[..|d| - 1], L);
      assert WeightsOf(leaves)[..|leaves| - 1] == WeightsOf(leaves[..|leaves| - 1]);
    }
  }

  lemma {:induction false} SumsBySymbol(frequencies: seq<nat>, l: seq<nat>, L: nat, n: nat)
    requires n <= |l| == |frequencies| && forall s :: 0 <= s < |l| ==> l[s] <= L
    ensures SymbolSum(KraftAt(l, L), frequencies, n) <= KraftSum(l[..n], L)
    ensures (forall s :: 0 <= s < |l| && frequencies[s] == 0 ==> l[s] == 0) ==>
              SymbolSum(KraftAt(l, L), frequencies, n) == KraftSum(l[..n], L)
    ensures SymbolSum(CostAt(l), frequencies, n) == Dot(frequencies[..n], l[..n])
  {
    if n > 0 {
      SumsBySymbol(frequencies, l, L, n - 1);
      assert l[..n][..n - 1] == l[..n - 1] && frequencies[..n][..n - 1] == frequencies[..n - 1];
    }
  }

  /** Sums over all symbols, in leaf order. */
  lemma SumsInLeafOrder(frequencies: seq<nat>, l: seq<nat>, d: seq<nat>, L: nat)
    requires |l| == |frequencies| && forall s :: 0 <= s < |l| ==> l[s] <= L
    requires |d| == |Ranked(frequencies)|
    requires forall i :: 0 <= i < |d| ==>
             Ranked(frequencies)[i].count < |l| && l[Ranked(frequencies)[i].count] == d[i] <= L
    ensures KraftSum(d, L) <= KraftSum(l, L)
    ensures (forall s :: 0 <= s < |l| && frequencies[s] == 0 ==> l[s] == 0) ==> KraftSum(d, L) == KraftSum(l, L)
    ensures Dot(WeightsOf(Ranked(frequencies)), d) == Dot(frequencies, l)
  {
    SumsByRank(Ranked(frequencies), l, d, L);
    RankedSum(KraftAt(l, L), frequencies);
    RankedSum(CostAt(l), frequencies);
    SumsBySymbol(frequencies, l, L, |l|);
    assert l[..|l|] == l && frequencies[..|l|] == frequencies;
  }

  lemma {:induction false} KraftScale(l: seq<nat>, L: nat, M: nat)
    requires L <= M && forall s :: 0 <= s < |l| ==> l[s] <= L
    ensures KraftSum(l, M) == KraftSum(l, L) * Pow2(M - L)
  {
    if |l| > 0 {
      var rest, last := l[..|l| - 1], l[|l| - 1];
      KraftScale(rest, L, M);
      if last > 0 { Pow2Add(L - last, M - L); }
      Distributes(KraftSum(rest, L), KraftTerm(last, L), Pow2(M - L));
    }
  }

  /** The depths in leaf order. */
  ghost function RankedLengths(frequencies: seq<nat>, maxBits: nat): (d: seq<nat>)
    ensures |d| == |Ranked(frequencies)|
  {
    if |Ranked(frequencies)| <= 2 then seq(|Ranked(frequencies)|, i => 1) else DepthsOf(frequencies, maxBits)
  }

  lemma RankedLengthIs(frequencies: seq<nat>, maxBits: nat, i: nat)
    requires i < |Ranked(frequencies)|
    ensures Ranked(frequencies)[i].count < |frequencies|
    ensures CodeLengths(frequencies, maxBits)[Ranked(frequencies)[i].count] == RankedLengths(frequencies, maxBits)[i]
  {
    RankedLeaves(frequencies);
    var r := Ranked(frequencies);
    assert r[i] in r;
    if |r| > 2 { LengthAtRank(frequencies, maxBits, i); }
  }

  lemma RankedLengthsAre(frequencies: seq<nat>, maxBits: nat)
    ensures forall i :: 0 <= i < |Ranked(frequencies)| ==>
              && Ranked(frequencies)[i].count < |frequencies|
              && CodeLengths(frequencies, maxBits)[Ranked(frequencies)[i].count]
                 == RankedLengths(frequencies, maxBits)[i]
  {
    hide *;
    forall i | 0 <= i < |Ranked(frequencies)|
      ensures Ranked(frequencies)[i].count < |frequencies|
      ensures CodeLengths(frequencies, maxBits)[Ranked(frequencies)[i].count] == RankedLengths(frequencies, maxBits)[i]
    {
      RankedLengthIs(frequencies, maxBits, i);
    }
  }

  lemma RankedComplete(frequencies: seq<nat>, maxBits: nat)
    requires 2 <= |Ranked(frequencies)| <= Pow2(maxBits)
    ensures forall i :: 0 <= i < |Ranked(frequencies)| ==> 1 <= RankedLengths(frequencies, maxBits)[i] <= maxBits
    ensures KraftSum(RankedLengths(frequencies, maxBits), maxBits) == Pow2(maxBits)
  {
    LimitIsEnough(|Ranked(frequencies)|, maxBits);
    if |Ranked(frequencies)| == 2 {
      TwoWords(RankedLengths(frequencies, maxBits), maxBits);
    } else {
      DepthsComplete(frequencies, maxBits);
    }
  }

  lemma TwoWords(d: seq<nat>, L: nat)
    requires d == [1, 1] && L > 0
    ensures KraftSum(d, L) == Pow2(L)
  {
    assert d[..1] == [1] && [1][..0] == [];
    assert KraftSum([], L) == 0;
    assert KraftSum([1], L) == Pow2(L - 1);
  }

  lemma DepthsComplete(frequencies: seq<nat>, maxBits: nat)
    requires 2 < |Ranked(frequencies)| <= Pow2(maxBits)
    ensures forall i :: 0 <= i < |Ranked(frequencies)| ==> 1 <= DepthsOf(frequencies, maxBits)[i] <= maxBits
    ensures KraftSum(DepthsOf(frequencies, maxBits), maxBits) == Pow2(maxBits)
  {
    hide *;
    var n, w := |Ranked(frequencies)|, WeightsOf(Ranked(frequencies));
    LimitIsEnough(n, maxBits);
    var L := Limit(n, maxBits);
    DepthsAre(frequencies, maxBits);
    LeafDepthsComplete(w, L);
    KraftScale(LeafDepths(w, L), L, maxBits);
    Pow2Add(L, maxBits - L);
  }

  lemma DepthsAre(frequencies: seq<nat>, maxBits: nat)
    requires 2 < |Ranked(frequencies)|
    ensures var n, w := |Ranked(frequencies)|, WeightsOf(Ranked(frequencies));
            Weights(w) && |w| == n && DepthsOf(frequencies, maxBits) == LeafDepths(w, Limit(n, maxBits))
  {
    RankedWeights(frequencies);
    hide LeafDepths;
  }

  /** With two or more used symbols the code is complete: Kraft's sum is exactly 1. */
  lemma LengthsComplete(frequencies: seq<nat>, maxBits: nat)
    requires 2 <= |Ranked(frequencies)| <= Pow2(maxBits)
    ensures forall s :: 0 <= s < |frequencies| ==> CodeLengths(frequencies, maxBits)[s] <= maxBits
    ensures KraftSum(CodeLengths(frequencies, maxBits), maxBits) == Pow2(maxBits)
  {
    LimitIsEnough(|Ranked(frequencies)|, maxBits);
    LengthsInRange(frequencies, maxBits);
    RankedComplete(frequencies, maxBits);
    RankedLengthsAre(frequencies, maxBits);
    SumsInLeafOrder(frequencies, CodeLengths(frequencies, maxBits), RankedLengths(frequencies, maxBits), maxBits);
  }

  /** Any number of used symbols leaves a code that is not oversubscribed. */
  lemma LengthsFeasible(frequencies: seq<nat>, maxBits: nat)
    requires maxBits > 0 && |Ranked(frequencies)| <= Pow2(maxBits)
    ensures forall s :: 0 <= s < |frequencies| ==> CodeLengths(frequencies, maxBits)[s] <= maxBits
    ensures KraftSum(CodeLengths(frequencies, maxBits), maxBits) <= Pow2(maxBits)
  {
    hide *;
    LengthsInRange(frequencies, maxBits);
    if |Ranked(frequencies)| >= 2 {
      LengthsComplete(frequencies, maxBits);
    } else {
      RankedLengthsAre(frequencies, maxBits);
      FewRanked(frequencies, maxBits);
      SumsInLeafOrder(frequencies, CodeLengths(frequencies, maxBits), RankedLengths(frequencies, maxBits), maxBits);
    }
  }

  lemma FewRanked(frequencies: seq<nat>, maxBits: nat)
    requires maxBits > 0 && |Ranked(frequencies)| < 2
    ensures var d := RankedLengths(frequencies, maxBits);
            && |d| == |Ranked(frequencies)| && |CodeLengths(frequencies, maxBits)| == |frequencies|
            && (forall i :: 0 <= i < |d| ==> d[i] <= maxBits) && KraftSum(d, maxBits) <= Pow2(maxBits)
  {
    hide Ranked, CodeLengths;
    var d := RankedLengths(frequencies, maxBits);
    if |d| == 1 {
      assert d == [1] && [1][..0] == [];
      assert KraftSum([], maxBits) == 0;
      Pow2Mono(maxBits - 1, maxBits);
    }
  }

  /** A strictly more frequent symbol never gets a longer code word. */
  lemma FrequentIsShort(frequencies: seq<nat>, maxBits: nat, s: nat, t: nat)
    requires |Ranked(frequencies)| <= Pow2(maxBits)
    requires s < |frequencies| && t < |frequencies| && frequencies[s] > frequencies[t] > 0
    ensures CodeLengths(frequencies, maxBits)[s] <= CodeLengths(frequencies, maxBits)[t]
  {
    var r := Ranked(frequencies);
    UsedIsRanked(frequencies, s);
    UsedIsRanked(frequencies, t);
    if |r| > 2 {
      RankedLeaves(frequencies);
      var i, j := RankOf(r, s), RankOf(r, t);
      assert r[i] in r && r[j] in r;
      assert i < j ==> CompareLeaves(r[i], r[j]) <= 0;
      LimitIsEnough(|r|, maxBits);
      RankedWeights(frequencies);
      LeafDepthsComplete(WeightsOf(r), Limit(|r|, maxBits));
    }
  }

  // ---- A complete code for n symbols has no word longer than n - 1 ----

  ghost function LongKraft(l: seq<nat>, L: nat, t: nat, m: nat): nat
    requires m <= |l| && forall i :: 0 <= i < |l| ==> l[i] <= L
  {
    if m == 0 then 0 else LongKraft(l, L, t, m - 1) + (if l[m - 1] >= t then Pow2(L - l[m - 1]) else 0)
  }

  /** The number of inner nodes at depth t - 1 of the code tree. */
  ghost function InnerNodes(l: seq<nat>, t: nat): int {
    if t <= 1 then 1 else 2 * InnerNodes(l, t - 1) - (AtLeast(l, t - 1, |l|) - AtLeast(l, t, |l|))
  }

  lemma {:induction false} LongKraftNext(l: seq<nat>, L: nat, t: nat, m: nat)
    requires m <= |l| && t <= L && forall i :: 0 <= i < |l| ==> l[i] <= L
    ensures LongKraft(l, L, t, m) == LongKraft(l, L, t + 1, m) + (AtLeast(l, t, m) - AtLeast(l, t + 1, m)) * Pow2(L - t)
    ensures LongKraft(l, L, t, m) <= AtLeast(l, t, m) * Pow2(L - t)
  {
    if m > 0 {
      LongKraftNext(l, L, t, m - 1);
      Distributes(AtLeast(l, t, m - 1), 1, Pow2(L - t));
      Distributes(AtLeast(l, t, m - 1) - AtLeast(l, t + 1, m - 1), 1, Pow2(L - t));
      if l[m - 1] >= t { Pow2Mono(L - l[m - 1], L - t); }
    }
  }

  lemma {:induction false} LongKraftAll(l: seq<nat>, L: nat, m: nat)
    requires m <= |l| && forall i :: 0 <= i < |l| ==> 1 <= l[i] <= L
    ensures LongKraft(l, L, 1, m) == KraftSum(l[..m], L)
  {
    if m > 0 {
      LongKraftAll(l, L, m - 1);
      assert l[..m][..m - 1] == l[..m - 1];
    }
  }

  lemma {:induction false} LongKraftIsInner(l: seq<nat>, L: nat, t: nat)
    requires forall i :: 0 <= i < |l| ==> 1 <= l[i] <= L
    requires KraftSum(l, L) == Pow2(L) && 1 <= t <= L + 1
    ensures LongKraft(l, L, t, |l|) == InnerNodes(l, t) * Pow2(L - t + 1)
  {
    if t == 1 {
      LongKraftAll(l, L, |l|);
      assert l[..|l|] == l;
    } else {
      LongKraftIsInner(l, L, t - 1);
      LongKraftNext(l, L, t - 1, |l|);
      hide *;
      Pow2Next(L - t + 1);
      assert InnerNodes(l, t) == 2 * InnerNodes(l, t - 1) - (AtLeast(l, t - 1, |l|) - AtLeast(l, t, |l|)) by {
        InnerNext(l, t); }
      TwiceLess(InnerNodes(l, t - 1), AtLeast(l, t - 1, |l|) - AtLeast(l, t, |l|), Pow2(L - t + 1));
    }
  }

  lemma InnerNext(l: seq<nat>, t: nat)
    requires t > 1
    ensures InnerNodes(l, t) == 2 * InnerNodes(l, t - 1) - (AtLeast(l, t - 1, |l|) - AtLeast(l, t, |l|))
  {
  }

  lemma TwiceLess(a: int, b: int, x: int)
    ensures a * (2 * x) - b * x == (2 * a - b) * x
  {
  }

  lemma {:induction false} LongKraftPositive(l: seq<nat>, L: nat, t: nat, i: nat, m: nat)
    requires i < m <= |l| && forall j :: 0 <= j < |l| ==> l[j] <= L
    requires l[i] >= t
    ensures LongKraft(l, L, t, m) > 0
  {
    if m - 1 > i { LongKraftPositive(l, L, t, i, m - 1); }
  }

  lemma {:induction false} InnerNodesCount(l: seq<nat>, L: nat, i: nat, t: nat)
    requires forall j :: 0 <= j < |l| ==> 1 <= l[j] <= L
    requires KraftSum(l, L) == Pow2(L) && i < |l| && 1 <= t <= l[i] + 1
    ensures |l| - AtLeast(l, t, |l|) + InnerNodes(l, t) >= t
  {
    if t > 1 {
      InnerNodesCount(l, L, i, t - 1);
      LongKraftPositive(l, L, t - 1, i, |l|);
      LongKraftIsInner(l, L, t - 1);
      assert InnerNodes(l, t - 1) >= 1 by { PositiveFactor(InnerNodes(l, t - 1), Pow2(L - t + 2)); }
    } else {
      AtLeastAll(l, |l|);
    }
  }

  lemma PositiveFactor(a: int, x: int)
    requires a * x > 0 && x > 0
    ensures a > 0
  {
    assert a <= 0 ==> a * x <= 0;
  }

  lemma {:induction false} AtLeastAll(l: seq<nat>, m: nat)
    requires m <= |l| && forall j :: 0 <= j < |l| ==> 1 <= l[j]
    ensures AtLeast(l, 1, m) == m
  {
    if m > 0 { AtLeastAll(l, m - 1); }
  }

  lemma CompleteCodeIsShallow(l: seq<nat>, L: nat, i: nat)
    requires forall j :: 0 <= j < |l| ==> 1 <= l[j] <= L
    requires KraftSum(l, L) == Pow2(L) && i < |l|
    ensures l[i] <= |l| - 1
  {
    hide *;
    var t := l[i] + 1;
    InnerNodesCount(l, L, i, t);
    LongKraftIsInner(l, L, t);
    if t <= L {
      LongKraftNext(l, L, t, |l|);
      Pow2Next(L - t);
      HalfBound(InnerNodes(l, t), AtLeast(l, t, |l|), Pow2(L - t));
    } else {
      NothingLonger(l, L, |l|);
      NoPower();
    }
  }

  lemma NoPower()
    ensures Pow2(0) == 1
  {
  }

  lemma {:induction false} NothingLonger(l: seq<nat>, L: nat, m: nat)
    requires m <= |l| && forall i :: 0 <= i < |l| ==> l[i] <= L
    ensures LongKraft(l, L, L + 1, m) == 0 && AtLeast(l, L + 1, m) == 0
  {
    if m > 0 { NothingLonger(l, L, m - 1); }
  }

  lemma HalfBound(q: int, c: nat, x: int)
    requires q * (2 * x) <= c * x && x > 0
    ensures q <= c
  {
    assert q * (2 * x) == 2 * (q * x);
    assert q > c ==> q * x > c * x;
  }

  // ---- Optimality ----

  lemma Cancel(a: int, b: int, x: int)
    requires a * x == b * x && x > 0
    ensures a == b
  {
  }

  /** Limiting lengths to n - 1 loses nothing. */
  lemma LimitLosesNothing(w: seq<nat>, maxBits: nat)
    requires Weights(w) && |w| <= Pow2(maxBits)
    ensures Dot(w, LeafDepths(w, Limit(|w|, maxBits))) <= Dot(w, LeafDepths(w, maxBits))
  {
    var L := Limit(|w|, maxBits);
    LimitIsEnough(|w|, maxBits);
    if L < maxBits {
      var d := LeafDepths(w, maxBits);
      LeafDepthsComplete(w, maxBits);
      ShallowAndFeasible(d, L, maxBits);
      LeafDepthsOptimal(w, L, d);
    }
  }

  lemma ShallowAndFeasible(d: seq<nat>, L: nat, maxBits: nat)
    requires L <= maxBits && L == |d| - 1
    requires forall i :: 0 <= i < |d| ==> 1 <= d[i] <= maxBits
    requires KraftSum(d, maxBits) == Pow2(maxBits)
    ensures forall i :: 0 <= i < |d| ==> 1 <= d[i] <= L
    ensures KraftSum(d, L) == Pow2(L)
  {
    hide *;
    forall i | 0 <= i < |d| ensures 1 <= d[i] <= L {
      CompleteCodeIsShallow(d, maxBits, i);
    }
    KraftScale(d, L, maxBits);
    Pow2Add(L, maxBits - L);
    Cancel(KraftSum(d, L), Pow2(L), Pow2(maxBits - L));
  }

  lemma {:induction false} OnesAreCheapest(w: seq<nat>, ones: seq<nat>, d: seq<nat>)
    requires |w| == |d| == |ones|
    requires forall i :: 0 <= i < |w| ==> ones[i] == 1 <= d[i]
    ensures Dot(w, ones) <= Dot(w, d)
  {
    if |w| > 0 {
      var n := |w| - 1;
      OnesAreCheapest(w[..n], ones[..n], d[..n]);
      assert w[n] * 1 <= w[n] * d[n];
    }
  }

  /** No prefix code for the used symbols with words of at most maxBits bits beats these lengths. */
  lemma LengthsOptimal(frequencies: seq<nat>, maxBits: nat, l: seq<nat>)
    requires |Ranked(frequencies)| <= Pow2(maxBits)
    requires |l| == |frequencies|
    requires forall s :: 0 <= s < |l| ==> l[s] <= maxBits && (frequencies[s] != 0 ==> l[s] >= 1)
    requires KraftSum(l, maxBits) <= Pow2(maxBits)
    ensures Dot(frequencies, CodeLengths(frequencies, maxBits)) <= Dot(frequencies, l)
  {
    var r := Ranked(frequencies);
    RankedLengthsAre(frequencies, maxBits);
    var d := seq(|r|, i requires 0 <= i < |r| => l[r[i].count]);
    RankedLeaves(frequencies);
    forall i | 0 <= i < |d| ensures 1 <= d[i] <= maxBits { assert r[i] in r; }
    SumsInLeafOrder(frequencies, l, d, maxBits);
    RankedOptimal(frequencies, maxBits, d);
    CostInLeafOrder(frequencies, CodeLengths(frequencies, maxBits), RankedLengths(frequencies, maxBits), maxBits);
  }

  /** Optimality, stated for lengths in leaf order. */
  lemma RankedOptimal(frequencies: seq<nat>, maxBits: nat, d: seq<nat>)
    requires |d| == |Ranked(frequencies)| <= Pow2(maxBits)
    requires forall i :: 0 <= i < |d| ==> 1 <= d[i] <= maxBits
    requires KraftSum(d, maxBits) <= Pow2(maxBits)
    ensures Dot(WeightsOf(Ranked(frequencies)), RankedLengths(frequencies, maxBits))
            <= Dot(WeightsOf(Ranked(frequencies)), d)
  {
    var r := Ranked(frequencies);
    var w := WeightsOf(r);
    if |r| <= 2 {
      OnesAreCheapest(w, RankedLengths(frequencies, maxBits), d);
    } else {
      RankedWeights(frequencies);
      LimitIsEnough(|r|, maxBits);
      LimitLosesNothing(w, maxBits);
      LeafDepthsOptimal(w, maxBits, d);
    }
  }

  lemma CostInLeafOrder(frequencies: seq<nat>, l: seq<nat>, d: seq<nat>, maxBits: nat)
    requires |l| == |frequencies| && l == CodeLengths(frequencies, maxBits)
    requires |Ranked(frequencies)| <= Pow2(maxBits)
    requires d == RankedLengths(frequencies, maxBits)
    ensures Dot(WeightsOf(Ranked(frequencies)), d) == Dot(frequencies, l)
  {
    RankedLengthsAre(frequencies, maxBits);
    if maxBits == 0 {
      CodeLengthsAtMost(frequencies);
      SumsInLeafOrder(frequencies, l, d, 1);
    } else {
      LengthsInRange(frequencies, maxBits);
      SumsInLeafOrder(frequencies, l, d, maxBits);
    }
  }

  /** With no room for a bit there is at most one used symbol. */
  lemma CodeLengthsAtMost(frequencies: seq<nat>)
    requires |Ranked(frequencies)| <= 1
    ensures forall s :: 0 <= s < |frequencies| ==> CodeLengths(frequencies, 0)[s] <= 1
  {
  }
}
