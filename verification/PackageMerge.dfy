/** The package-merge algorithm for length-limited prefix codes, as pure functions over a
    sorted list of positive leaf weights, and the theory that makes it correct.

    Level 0 is the deepest level and holds only leaves. An item of a higher level is either the
    next leaf or a package of two consecutive items of the level below; the leaf goes first
    exactly when its weight is below that of the package. */
module PackageMerge {
  import opened Prelude

  ghost predicate Weights(w: seq<nat>) {
    && |w| >= 2
    && (forall i :: 0 <= i < |w| ==> w[i] > 0)
    && (forall i, j :: 0 <= i <= j < |w| ==> w[i] <= w[j])
  }

  lemma AtLeastTwo(w: seq<nat>)
    requires Weights(w)
    ensures |w| >= 2
  {
  }

  /** Level 0 beyond its last leaf. The boundary algorithm leaves the last two leaves in place as
      the pair to package once the leaves are exhausted; every pair of neighbours from item
      n - 1 on therefore weighs as much as the last two leaves together. */
  ghost function BottomWeight(w: seq<nat>, j: nat): nat
    requires Weights(w)
  {
    if j < |w| then w[j]
    else if (j - |w|) % 2 == 0 then w[|w| - 2]
    else w[|w| - 1]
  }

  /** The number of leaves among the first `j` items of level `i`. */
  ghost function Leaves(w: seq<nat>, i: nat, j: nat): (c: nat)
    requires Weights(w)
    ensures c <= j && c <= |w|
    decreases i, j, 0
  {
    if i == 0 then Min(j, |w|)
    else if j == 0 then 0
    else if TakesLeaf(w, i, j - 1) then Leaves(w, i, j - 1) + 1
    else Leaves(w, i, j - 1)
  }

  /** The weight of package `q` of the items of level `i`: its items 2q and 2q + 1 together. */
  ghost function Pair(w: seq<nat>, i: nat, q: nat): nat
    requires Weights(w)
    decreases i, 2 * q + 1, 3
  {
    Weight(w, i, 2 * q) + Weight(w, i, 2 * q + 1)
  }

  /** Is item `j` of level `i` a leaf? */
  ghost predicate TakesLeaf(w: seq<nat>, i: nat, j: nat)
    requires Weights(w)
    decreases i, j, 1
  {
    var c := Leaves(w, i, j);
    c < |w| && (i == 0 || Pair(w, i - 1, j - c) > w[c])
  }

  /** The weight of item `j` of level `i`. */
  ghost function Weight(w: seq<nat>, i: nat, j: nat): nat
    requires Weights(w)
    decreases i, j, 2
  {
    if i == 0 then BottomWeight(w, j)
    else if TakesLeaf(w, i, j) then w[Leaves(w, i, j)]
    else Pair(w, i - 1, j - Leaves(w, i, j))
  }

  /** The number of packages among the first `j` items of level `i`. */
  ghost function Packages(w: seq<nat>, i: nat, j: nat): nat
    requires Weights(w)
  {
    j - Leaves(w, i, j)
  }

  lemma {:induction false} WeightPositive(w: seq<nat>, i: nat, j: nat)
    requires Weights(w)
    ensures Weight(w, i, j) > 0
    decreases i, j
  {
    if i > 0 && !TakesLeaf(w, i, j) {
      var q := Packages(w, i, j);
      WeightPositive(w, i - 1, 2 * q);
      WeightPositive(w, i - 1, 2 * q + 1);
    }
  }

  /** Item `j` is a leaf exactly when the leaf count grows there, and then it weighs that leaf. */
  lemma LeafStep(w: seq<nat>, i: nat, j: nat)
    requires Weights(w)
    ensures Leaves(w, i, j + 1) == Leaves(w, i, j) + (if TakesLeaf(w, i, j) then 1 else 0)
    ensures TakesLeaf(w, i, j) ==> Leaves(w, i, j) < |w| && Weight(w, i, j) == w[Leaves(w, i, j)]
  {
  }

  /** Every level starts with the two lightest leaves. */
  lemma FirstTwo(w: seq<nat>, i: nat)
    requires Weights(w)
    ensures Leaves(w, i, 1) == 1 && Leaves(w, i, 2) == 2
    ensures Weight(w, i, 0) == w[0] && Weight(w, i, 1) == w[1]
    decreases i
  {
    if i > 0 {
      FirstTwo(w, i - 1);
      assert Pair(w, i - 1, 0) == w[0] + w[1];
      LeafStep(w, i, 0);
      LeafStep(w, i, 1);
    }
  }

  /** Package weights never decrease along a level, and neither do item weights above the bottom. */
  lemma {:induction false} PairsAscend(w: seq<nat>, i: nat, q: nat)
    requires Weights(w)
    ensures Pair(w, i, q) <= Pair(w, i, q + 1)
    decreases i, 1
  {
    if i > 0 {
      hide Weight, Weights;
      ItemsAscend(w, i, 2 * q);
      ItemsAscend(w, i, 2 * q + 1);
      ItemsAscend(w, i, 2 * q + 2);
      assert 2 * (q + 1) == 2 * q + 2;
    } else {
      BottomPairsAscend(w, q);
    }
  }

  lemma BottomPairsAscend(w: seq<nat>, q: nat)
    requires Weights(w)
    ensures Pair(w, 0, q) <= Pair(w, 0, q + 1)
  {
    assert Pair(w, 0, q) == BottomWeight(w, 2 * q) + BottomWeight(w, 2 * q + 1);
    assert Pair(w, 0, q + 1) == BottomWeight(w, 2 * q + 2) + BottomWeight(w, 2 * q + 3);
    hide Pair;
  }

  lemma {:induction false} ItemsAscend(w: seq<nat>, i: nat, j: nat)
    requires Weights(w) && i > 0
    ensures Weight(w, i, j) <= Weight(w, i, j + 1)
    decreases i, 0
  {
    LeafStep(w, i, j);
    PairsAscend(w, i - 1, Packages(w, i, j));
  }

  lemma {:induction false} PairsAscendTo(w: seq<nat>, i: nat, p: nat, q: nat)
    requires Weights(w) && p <= q
    ensures Pair(w, i, p) <= Pair(w, i, q)
    decreases q - p
  {
    if p < q {
      PairsAscendTo(w, i, p, q - 1);
      PairsAscend(w, i, q - 1);
    }
  }

  /** The items packaged by a prefix of level `i` use no leaf that the prefix lacks. */
  lemma {:induction false} LeavesDescend(w: seq<nat>, i: nat, j: nat)
    requires Weights(w) && i > 0
    ensures Leaves(w, i - 1, 2 * Packages(w, i, j)) <= Leaves(w, i, j)
    decreases j
  {
    if j == 0 {
      assert Packages(w, i, 0) == 0;
    } else {
      LeavesDescend(w, i, j - 1);
      LeafStep(w, i, j - 1);
      if !TakesLeaf(w, i, j - 1) { PackageWithinLeaves(w, i, j - 1); }
    }
  }

  lemma PackageIsLight(w: seq<nat>, i: nat, j: nat)
    requires Weights(w) && i > 0 && !TakesLeaf(w, i, j)
    ensures var c, q := Leaves(w, i, j), Packages(w, i, j);
            && c <= |w| && (c < |w| ==> Pair(w, i - 1, q) <= w[c])
            && Pair(w, i - 1, q) == Weight(w, i - 1, 2 * q) + Weight(w, i - 1, 2 * q + 1)
  {
    hide Leaves, Weight;
  }

  /** A package placed before leaf c holds no leaf from c on: it would outweigh it. */
  lemma PackageWithinLeaves(w: seq<nat>, i: nat, j: nat)
    requires Weights(w) && i > 0 && !TakesLeaf(w, i, j)
    requires Leaves(w, i - 1, 2 * Packages(w, i, j)) <= Leaves(w, i, j)
    ensures Leaves(w, i - 1, 2 * Packages(w, i, j) + 2) <= Leaves(w, i, j)
  {
    PackageIsLight(w, i, j);
    hide *;
    var c, q := Leaves(w, i, j), Packages(w, i, j);
    LeafStep(w, i - 1, 2 * q);
    LeafStep(w, i - 1, 2 * q + 1);
    WeightPositive(w, i - 1, 2 * q);
    WeightPositive(w, i - 1, 2 * q + 1);
  }

  /** Until a level has taken all leaves it holds fewer packages than leaves. */
  lemma {:induction false} FewPackages(w: seq<nat>, i: nat, j: nat)
    requires Weights(w) && j > 0
    ensures Leaves(w, i, j) == |w| || Packages(w, i, j) < Leaves(w, i, j)
    decreases i, j
  {
    if i == 0 {
    } else if j == 1 {
      FirstTwo(w, i);
    } else {
      FewPackages(w, i, j - 1);
      LeafStep(w, i, j - 1);
      LeavesDescend(w, i, j);
      var p := Packages(w, i, j);
      if p > 0 {
        FewPackages(w, i - 1, 2 * p);
      }
    }
  }

  /** A level of at most 2n - 2 items asks the level below for at most 2n - 2 items, the two of
      lookahead included. */
  lemma LookaheadFits(w: seq<nat>, i: nat, j: nat)
    requires Weights(w) && 0 < j <= 2 * |w| - 2
    ensures 2 * Packages(w, i, j) + 2 <= 2 * |w| - 2
  {
    FewPackages(w, i, j);
  }

  // ---- The chain of the last item: leaf counts by depth ----

  /** The number of items the solution uses at depth `k`; the top level, L - 1, is depth 0. */
  ghost function Used(w: seq<nat>, L: nat, k: nat): nat
    requires Weights(w) && k <= L
  {
    if k == 0 then 2 * |w| - 2 else 2 * Packages(w, L - k, Used(w, L, k - 1))
  }

  /** The number of leaves the solution uses at depth `k`. */
  ghost function ChainLeaves(w: seq<nat>, L: nat, k: nat): (c: nat)
    requires Weights(w) && k < L
    ensures c <= |w|
  {
    Leaves(w, L - 1 - k, Used(w, L, k))
  }

  lemma {:induction false} ChainDescends(w: seq<nat>, L: nat, j: nat, k: nat)
    requires Weights(w) && j <= k < L
    ensures ChainLeaves(w, L, k) <= ChainLeaves(w, L, j)
    decreases k - j
  {
    if j < k {
      ChainDescends(w, L, j, k - 1);
      LeavesDescend(w, L - k, Used(w, L, k - 1));
    }
  }

  /** While every depth uses all leaves, depth k uses exactly 2n - 2^(k+1) items. */
  lemma {:induction false} FullDepths(w: seq<nat>, L: nat, k: nat)
    requires Weights(w) && k < L
    requires ChainLeaves(w, L, k) == |w|
    ensures Used(w, L, k) == 2 * |w| - Pow2(k + 1)
  {
    if k > 0 {
      ChainDescends(w, L, k - 1, k);
      FullDepths(w, L, k - 1);
      assert Packages(w, L - k, Used(w, L, k - 1)) == Used(w, L, k - 1) - |w|;
    }
  }

  /** With n <= 2^L the solution never reaches past the last leaf of the deepest level, so no
      package of leftover leaves is part of it. */
  lemma NoStaleItems(w: seq<nat>, L: nat)
    requires Weights(w) && 0 < L && |w| <= Pow2(L)
    ensures Used(w, L, L - 1) <= |w|
    ensures ChainLeaves(w, L, L - 1) == Used(w, L, L - 1)
    ensures Used(w, L, L) == 0
  {
    if Used(w, L, L - 1) > |w| {
      FullDepths(w, L, L - 1);
    }
  }

  // ---- Code lengths and Kraft's equality ----

  /** How many of the first `k` depths contain leaf `i`. */
  ghost function Depth(w: seq<nat>, L: nat, k: nat, i: nat): (d: nat)
    requires Weights(w) && k <= L
    ensures d <= k
  {
    if k == 0 then 0
    else Depth(w, L, k - 1, i) + (if i < ChainLeaves(w, L, k - 1) then 1 else 0)
  }

  lemma {:induction false} DepthFull(w: seq<nat>, L: nat, k: nat, i: nat)
    requires Weights(w) && k < L && i < ChainLeaves(w, L, k)
    ensures Depth(w, L, k, i) == k
  {
    if k > 0 {
      ChainDescends(w, L, k - 1, k);
      DepthFull(w, L, k - 1, i);
    }
  }

  /** A heavier leaf is never deeper than a lighter one. */
  lemma {:induction false} DepthDescends(w: seq<nat>, L: nat, k: nat, i: nat, j: nat)
    requires Weights(w) && k <= L && i <= j
    ensures Depth(w, L, k, j) <= Depth(w, L, k, i)
  {
    if k > 0 { DepthDescends(w, L, k - 1, i, j); }
  }

  /** Sum of 2^(L - depth) over the first `m` leaves, counting the first `k` depths only. */
  ghost function KraftOver(w: seq<nat>, L: nat, k: nat, m: nat): nat
    requires Weights(w) && k <= L
  {
    if m == 0 then 0 else KraftOver(w, L, k, m - 1) + Pow2(L - Depth(w, L, k, m - 1))
  }

  lemma {:induction false} KraftNextDepth(w: seq<nat>, L: nat, k: nat, m: nat)
    requires Weights(w) && k < L
    ensures KraftOver(w, L, k, m) == KraftOver(w, L, k + 1, m) + Min(m, ChainLeaves(w, L, k)) * Pow2(L - 1 - k)
  {
    hide *;
    KraftOverNext(w, L, k, m);
    KraftOverNext(w, L, k + 1, m);
    var c, x := ChainLeaves(w, L, k), Pow2(L - 1 - k);
    if m == 0 {
      assert Min(m, c) == 0;
    } else {
      KraftNextDepth(w, L, k, m - 1);
      KraftTermNext(w, L, k, m - 1);
      MinNext(m - 1, c, x);
    }
  }

  lemma KraftOverNext(w: seq<nat>, L: nat, k: nat, m: nat)
    requires Weights(w) && k <= L
    ensures KraftOver(w, L, k, m) == (if m == 0 then 0 else KraftOver(w, L, k, m - 1) + Pow2(L - Depth(w, L, k, m - 1)))
  {
  }

  lemma MinNext(m: nat, c: nat, x: nat)
    ensures Min(m + 1, c) * x == Min(m, c) * x + (if m < c then x else 0)
  {
    OneMore(m, x);
  }

  /** One more depth halves the term of every leaf that has it. */
  lemma KraftTermNext(w: seq<nat>, L: nat, k: nat, i: nat)
    requires Weights(w) && k < L
    ensures Pow2(L - Depth(w, L, k, i))
            == Pow2(L - Depth(w, L, k + 1, i)) + (if i < ChainLeaves(w, L, k) then Pow2(L - 1 - k) else 0)
  {
    hide ChainLeaves;
    if i < ChainLeaves(w, L, k) {
      DepthFull(w, L, k, i);
      Pow2Next(L - 1 - k);
    }
  }

  lemma OneMore(a: int, x: int)
    ensures (a + 1) * x == a * x + x
  {
  }

  /** What depths k and beyond contribute to Kraft's sum. */
  ghost function Below(w: seq<nat>, L: nat, k: nat): nat
    requires Weights(w) && k <= L
  {
    if k == L then 0 else Used(w, L, k) * Pow2(L - 1 - k)
  }

  lemma BelowNext(w: seq<nat>, L: nat, k: nat)
    requires Weights(w) && |w| <= Pow2(L) && k < L
    ensures Below(w, L, k) == Below(w, L, k + 1) + ChainLeaves(w, L, k) * Pow2(L - 1 - k)
  {
    hide ChainLeaves, Leaves;
    if k + 1 == L {
      NoStaleItems(w, L);
    } else {
      UsedBelow(w, L, k + 1);
      Halve(Used(w, L, k), ChainLeaves(w, L, k), Pow2(L - 2 - k));
    }
  }

  lemma BelowAtTop(w: seq<nat>, L: nat)
    requires Weights(w) && 0 < L
    ensures Below(w, L, 0) == (2 * |w| - 2) * Pow2(L - 1)
  {
  }

  lemma KraftAndBelow(w: seq<nat>, L: nat, k: nat)
    requires Weights(w) && |w| <= Pow2(L) && k < L
    ensures KraftOver(w, L, k + 1, |w|) - Below(w, L, k + 1) == KraftOver(w, L, k, |w|) - Below(w, L, k)
  {
    hide *;
    KraftNextDepth(w, L, k, |w|);
    BelowNext(w, L, k);
    assert Min(|w|, ChainLeaves(w, L, k)) == ChainLeaves(w, L, k);
  }

  lemma {:induction false} KraftUpTo(w: seq<nat>, L: nat, k: nat)
    requires Weights(w) && 0 < L && |w| <= Pow2(L) && k <= L
    ensures KraftOver(w, L, k, |w|) - Below(w, L, k) == |w| * Pow2(L) - (2 * |w| - 2) * Pow2(L - 1)
  {
    hide *;
    if k == 0 {
      KraftAtTop(w, L, |w|);
      BelowAtTop(w, L);
    } else {
      KraftUpTo(w, L, k - 1);
      KraftAndBelow(w, L, k - 1);
    }
  }

  lemma UsedBelow(w: seq<nat>, L: nat, k: nat)
    requires Weights(w) && 0 < k < L
    ensures Used(w, L, k) == 2 * (Used(w, L, k - 1) - ChainLeaves(w, L, k - 1))
  {
  }

  lemma Halve(u: int, c: int, x: int)
    ensures u * (2 * x) == (2 * (u - c)) * x + c * (2 * x)
  {
  }

  lemma {:induction false} KraftAtTop(w: seq<nat>, L: nat, m: nat)
    requires Weights(w)
    ensures KraftOver(w, L, 0, m) == m * Pow2(L)
  {
    if m > 0 { KraftAtTop(w, L, m - 1); }
  }

  /** Kraft's equality: the depths of all leaves describe a complete prefix code. */
  lemma KraftEquality(w: seq<nat>, L: nat)
    requires Weights(w) && 0 < L && |w| <= Pow2(L)
    ensures KraftOver(w, L, L, |w|) == Pow2(L)
  {
    KraftUpTo(w, L, L);
    assert Below(w, L, L) == 0;
    hide *;
    assert Pow2(L) == 2 * Pow2(L - 1) by { Pow2Next(L - 1); }
    TopIdentity(|w|, Pow2(L - 1));
  }

  lemma TopIdentity(n: int, x: int)
    ensures n * (2 * x) - (2 * n - 2) * x == 2 * x
  {
  }

  lemma {:induction false} KraftGrows(w: seq<nat>, L: nat, m: nat, m': nat)
    requires Weights(w) && m <= m'
    ensures KraftOver(w, L, L, m) + (m' - m) <= KraftOver(w, L, L, m')
    decreases m' - m
  {
    if m < m' { KraftGrows(w, L, m, m' - 1); }
  }

  /** Every leaf gets a code word. */
  lemma DepthPositive(w: seq<nat>, L: nat, i: nat)
    requires Weights(w) && 0 < L && |w| <= Pow2(L) && i < |w|
    ensures 1 <= Depth(w, L, L, i) <= L
  {
    if Depth(w, L, L, i) == 0 {
      KraftEquality(w, L);
      KraftGrows(w, L, 0, i);
      KraftGrows(w, L, i + 1, |w|);
    }
  }

  // ---- Optimality ----

  /** The total weight of the first `m` items of level `i`. */
  ghost function ItemsWeight(w: seq<nat>, i: nat, m: nat): nat
    requires Weights(w)
  {
    if m == 0 then 0 else ItemsWeight(w, i, m - 1) + Weight(w, i, m - 1)
  }

  lemma LeavesWeightNext(w: seq<nat>, c: nat)
    requires c < |w|
    ensures Sum(w[..c + 1]) == Sum(w[..c]) + w[c]
  {
    SumNext(w, c);
  }

  lemma {:induction false} BottomItemsWeight(w: seq<nat>, m: nat)
    requires Weights(w) && m <= |w|
    ensures ItemsWeight(w, 0, m) == Sum(w[..m])
  {
    if m > 0 {
      BottomItemsWeight(w, m - 1);
      LeavesWeightNext(w, m - 1);
    }
  }

  /** The first `c` leaves and the first m - c packages of level `i`: one way to pick m items. */
  ghost function Selection(w: seq<nat>, i: nat, m: nat, c: nat): nat
    requires Weights(w) && i > 0 && c <= m && c <= |w|
  {
    Sum(w[..c]) + ItemsWeight(w, i - 1, 2 * (m - c))
  }

  lemma OneMorePackage(w: seq<nat>, i: nat, q: nat)
    requires Weights(w)
    ensures ItemsWeight(w, i, 2 * (q + 1)) == ItemsWeight(w, i, 2 * q) + Pair(w, i, q)
  {
    assert ItemsWeight(w, i, 2 * q + 2) == ItemsWeight(w, i, 2 * q + 1) + Weight(w, i, 2 * q + 1);
  }

  /** A level's prefix is its leaves together with the items its packages consist of. */
  lemma {:induction false} SplitItems(w: seq<nat>, i: nat, m: nat)
    requires Weights(w) && i > 0
    ensures ItemsWeight(w, i, m) == Selection(w, i, m, Leaves(w, i, m))
  {
    if m > 0 {
      SplitItems(w, i, m - 1);
      LeafStep(w, i, m - 1);
      var c := Leaves(w, i, m - 1);
      if TakesLeaf(w, i, m - 1) {
        LeavesWeightNext(w, c);
      } else {
        OneMorePackage(w, i - 1, m - 1 - c);
      }
    }
  }

  /** A leaf inside the prefix weighs less than any package outside it, and a leaf outside at
      least as much as any package inside. */
  lemma {:induction false} MergeOrder(w: seq<nat>, i: nat, m: nat, c: nat, q: nat)
    requires Weights(w) && i > 0 && c < |w|
    ensures c < Leaves(w, i, m) && q >= Packages(w, i, m) ==> w[c] <= Pair(w, i - 1, q)
    ensures c >= Leaves(w, i, m) && q < Packages(w, i, m) ==> Pair(w, i - 1, q) <= w[c]
  {
    if m > 0 {
      MergeOrder(w, i, m - 1, c, q);
      LeafStep(w, i, m - 1);
      var c', q' := Leaves(w, i, m - 1), Packages(w, i, m - 1);
      if TakesLeaf(w, i, m - 1) {
        if c == c' && q >= q' { PairsAscendTo(w, i - 1, q', q); }
      } else if q <= q' {
        PairsAscendTo(w, i - 1, q, q');
      }
    }
  }

  /** No way of picking m items of level `i` is lighter than the prefix. */
  lemma {:induction false} PrefixIsLightest(w: seq<nat>, i: nat, m: nat, c: nat)
    requires Weights(w) && i > 0 && c <= m && c <= |w|
    ensures ItemsWeight(w, i, m) <= Selection(w, i, m, c)
    decreases if c < Leaves(w, i, m) then Leaves(w, i, m) - c else c - Leaves(w, i, m)
  {
    var best := Leaves(w, i, m);
    if c == best {
      SplitItems(w, i, m);
    } else if c < best {
      PrefixIsLightest(w, i, m, c + 1);
      MergeOrder(w, i, m, c, m - c - 1);
      LeavesWeightNext(w, c);
      OneMorePackage(w, i - 1, m - c - 1);
    } else {
      PrefixIsLightest(w, i, m, c - 1);
      MergeOrder(w, i, m, c - 1, m - c);
      LeavesWeightNext(w, c - 1);
      OneMorePackage(w, i - 1, m - c);
    }
  }

  /** A competitor's leaf counts per level: b[i] leaves at level i. Their worth in units of a
      bottom-level item, and their total weight if they are the lightest leaves. */
  ghost function Worth(b: seq<nat>): nat {
    if |b| == 0 then 0 else Worth(b[..|b| - 1]) + b[|b| - 1] * Pow2(|b| - 1)
  }

  ghost function LightestWeight(w: seq<nat>, b: seq<nat>): nat
    requires forall i :: 0 <= i < |b| ==> b[i] <= |w|
  {
    if |b| == 0 then 0 else LightestWeight(w, b[..|b| - 1]) + Sum(w[..b[|b| - 1]])
  }

  lemma {:induction false} SumMono(w: seq<nat>, a: nat, b: nat)
    requires a <= b <= |w|
    ensures Sum(w[..a]) <= Sum(w[..b])
    decreases b
  {
    if a < b {
      SumMono(w, a, b - 1);
      LeavesWeightNext(w, b - 1);
    }
  }

  /** Whatever is worth m items of the top level weighs at least as much as its first m items. */
  lemma {:induction false} PackageMergeBound(w: seq<nat>, b: seq<nat>, m: nat)
    requires Weights(w) && |b| > 0
    requires forall i :: 0 <= i < |b| ==> b[i] <= |w|
    requires Worth(b) >= m * Pow2(|b| - 1)
    ensures LightestWeight(w, b) >= ItemsWeight(w, |b| - 1, m)
    decreases |b|
  {
    var i := |b| - 1;
    var c := b[i];
    if i == 0 {
      assert Worth(b[..0]) == 0;
      BottomItemsWeight(w, m);
      SumMono(w, m, c);
    } else if c >= m {
      PrefixIsLightest(w, i, m, m);
      SumMono(w, m, c);
    } else {
      WorthLeft(m, c, Worth(b[..i]), Pow2(i - 1));
      PackageMergeBound(w, b[..i], 2 * (m - c));
      PrefixIsLightest(w, i, m, c);
    }
  }

  lemma WorthLeft(m: int, c: int, rest: int, x: int)
    requires rest + c * (2 * x) >= m * (2 * x)
    ensures rest >= (2 * (m - c)) * x
  {
  }

  /** The code lengths of the leaves, lightest leaf first. */
  ghost function LeafDepths(w: seq<nat>, L: nat): (d: seq<nat>)
    requires Weights(w)
    ensures |d| == |w| && forall i :: 0 <= i < |d| ==> d[i] == Depth(w, L, L, i) <= L
  {
    seq(|w|, i requires 0 <= i < |w| => Depth(w, L, L, i))
  }

  lemma {:induction false} KraftOfPrefix(w: seq<nat>, L: nat, m: nat)
    requires Weights(w) && 0 < L && |w| <= Pow2(L) && m <= |w|
    ensures KraftSum(LeafDepths(w, L)[..m], L) == KraftOver(w, L, L, m)
  {
    if m > 0 {
      KraftOfPrefix(w, L, m - 1);
      DepthPositive(w, L, m - 1);
      assert LeafDepths(w, L)[..m][..m - 1] == LeafDepths(w, L)[..m - 1];
    }
  }

  /** The depths are valid lengths, make Kraft's sum exactly 1, and descend with weight. */
  lemma LeafDepthsComplete(w: seq<nat>, L: nat)
    requires Weights(w) && 0 < L && |w| <= Pow2(L)
    ensures forall i :: 0 <= i < |w| ==> 1 <= LeafDepths(w, L)[i] <= L
    ensures KraftSum(LeafDepths(w, L), L) == Pow2(L)
    ensures forall i, j :: 0 <= i <= j < |w| ==> LeafDepths(w, L)[j] <= LeafDepths(w, L)[i]
  {
    forall i | 0 <= i < |w| ensures 1 <= LeafDepths(w, L)[i] <= L {
      DepthPositive(w, L, i);
    }
    KraftOfPrefix(w, L, |w|);
    assert LeafDepths(w, L)[..|w|] == LeafDepths(w, L);
    KraftEquality(w, L);
    forall i, j | 0 <= i <= j < |w| ensures LeafDepths(w, L)[j] <= LeafDepths(w, L)[i] {
      DepthDescends(w, L, L, i, j);
    }
  }

  /** Weight times depth over the first `m` leaves, counting the first `k` depths. */
  ghost function DepthCost(w: seq<nat>, L: nat, k: nat, m: nat): nat
    requires Weights(w) && k <= L && m <= |w|
  {
    if m == 0 then 0 else DepthCost(w, L, k, m - 1) + w[m - 1] * Depth(w, L, k, m - 1)
  }

  lemma {:induction false} DepthCostNext(w: seq<nat>, L: nat, k: nat, m: nat)
    requires Weights(w) && k < L && m <= |w|
    ensures DepthCost(w, L, k + 1, m) == DepthCost(w, L, k, m) + Sum(w[..Min(m, ChainLeaves(w, L, k))])
  {
    hide ChainLeaves;
    if m > 0 {
      DepthCostNext(w, L, k, m - 1);
      var c := ChainLeaves(w, L, k);
      if m - 1 < c {
        LeavesWeightNext(w, m - 1);
        assert Depth(w, L, k + 1, m - 1) == Depth(w, L, k, m - 1) + 1;
        OneDeeper(w[m - 1], Depth(w, L, k, m - 1));
      } else {
        assert Min(m, c) == Min(m - 1, c);
        assert Depth(w, L, k + 1, m - 1) == Depth(w, L, k, m - 1);
      }
    }
  }

  lemma OneDeeper(x: nat, d: nat)
    ensures x * (d + 1) == x * d + x
  {
  }

  lemma {:induction false} DepthCostZero(w: seq<nat>, L: nat, m: nat)
    requires Weights(w) && m <= |w|
    ensures DepthCost(w, L, 0, m) == 0
  {
    if m > 0 { DepthCostZero(w, L, m - 1); }
  }

  /** The cost of the solution is the weight of the top level's first 2n - 2 items. */
  lemma {:induction false} CostSplit(w: seq<nat>, L: nat, k: nat)
    requires Weights(w) && |w| <= Pow2(L) && k < L
    ensures DepthCost(w, L, k, |w|) + ItemsWeight(w, L - 1 - k, Used(w, L, k)) == ItemsWeight(w, L - 1, 2 * |w| - 2)
  {
    hide *;
    if k == 0 {
      DepthCostZero(w, L, |w|);
      UsedAtTop(w, L);
    } else {
      CostSplit(w, L, k - 1);
      DepthCostNext(w, L, k - 1, |w|);
      SplitItems(w, L - k, Used(w, L, k - 1));
      SelectionBelow(w, L, k);
    }
  }

  lemma UsedAtTop(w: seq<nat>, L: nat)
    requires Weights(w)
    ensures Used(w, L, 0) == 2 * |w| - 2
  {
  }

  lemma SelectionBelow(w: seq<nat>, L: nat, k: nat)
    requires Weights(w) && 0 < k < L
    ensures var u, c := Used(w, L, k - 1), ChainLeaves(w, L, k - 1);
            && c == Leaves(w, L - k, u) && Min(|w|, c) == c && c <= u
            && Selection(w, L - k, u, c) == Sum(w[..c]) + ItemsWeight(w, L - 1 - k, Used(w, L, k))
  {
    hide Leaves, ItemsWeight, Sum;
  }

  lemma {:induction false} DotIsDepthCost(w: seq<nat>, L: nat, m: nat)
    requires Weights(w) && m <= |w|
    ensures Dot(w[..m], LeafDepths(w, L)[..m]) == DepthCost(w, L, L, m)
  {
    if m > 0 {
      DotIsDepthCost(w, L, m - 1);
      assert w[..m][..m - 1] == w[..m - 1];
      assert LeafDepths(w, L)[..m][..m - 1] == LeafDepths(w, L)[..m - 1];
    }
  }

  lemma LastDepth(w: seq<nat>, L: nat)
    requires Weights(w) && 0 < L && |w| <= Pow2(L)
    ensures DepthCost(w, L, L, |w|) == DepthCost(w, L, L - 1, |w|) + ItemsWeight(w, 0, Used(w, L, L - 1))
  {
    hide *;
    DepthCostNext(w, L, L - 1, |w|);
    NoStaleItems(w, L);
    BottomItemsWeight(w, Used(w, L, L - 1));
  }

  lemma SolutionCost(w: seq<nat>, L: nat)
    requires Weights(w) && 0 < L && |w| <= Pow2(L)
    ensures Dot(w, LeafDepths(w, L)) == ItemsWeight(w, L - 1, 2 * |w| - 2)
  {
    hide *;
    AtLeastTwo(w);
    CostSplit(w, L, L - 1);
    LastDepth(w, L);
    DotIsDepthCost(w, L, |w|);
    assert w[..|w|] == w && LeafDepths(w, L)[..|w|] == LeafDepths(w, L);
  }

  // A competitor: any lengths l for the same leaves.

  /** How many of the first `m` lengths are at least `t`. */
  ghost function AtLeast(l: seq<nat>, t: nat, m: nat): (c: nat)
    requires m <= |l|
    ensures c <= m
  {
    if m == 0 then 0 else AtLeast(l, t, m - 1) + (if l[m - 1] >= t then 1 else 0)
  }

  /** Level i of a competitor holds the leaves whose length reaches depth L - i. */
  ghost function Levels(l: seq<nat>, L: nat, i: nat): (b: seq<nat>)
    requires i <= L
    ensures |b| == i && forall j :: 0 <= j < i ==> b[j] == AtLeast(l, L - j, |l|)
  {
    if i == 0 then [] else Levels(l, L, i - 1) + [AtLeast(l, L - (i - 1), |l|)]
  }

  /** What the first `m` leaves contribute to the worth of the lowest i levels. */
  ghost function WorthOver(l: seq<nat>, L: nat, i: nat, m: nat): nat
    requires i <= L && m <= |l| && forall x :: 0 <= x < |l| ==> l[x] <= L
  {
    if m == 0 then 0
    else WorthOver(l, L, i, m - 1) + (if l[m - 1] + i > L then Pow2(i) - Pow2(Clip(L - l[m - 1], i)) else 0)
  }

  ghost function Clip(a: nat, i: nat): (r: nat)
    ensures r <= i && Pow2(r) <= Pow2(i)
  {
    Pow2Mono(Min(a, i), i);
    Min(a, i)
  }

  lemma {:induction false} WorthOverNext(l: seq<nat>, L: nat, i: nat, m: nat)
    requires i < L && m <= |l| && forall x :: 0 <= x < |l| ==> l[x] <= L
    ensures WorthOver(l, L, i + 1, m) == WorthOver(l, L, i, m) + AtLeast(l, L - i, m) * Pow2(i)
  {
    if m > 0 {
      WorthOverNext(l, L, i, m - 1);
      var x := l[m - 1];
      if x >= L - i {
        assert Clip(L - x, i + 1) == L - x && Pow2(i + 1) == 2 * Pow2(i);
        OneMore(AtLeast(l, L - i, m - 1), Pow2(i));
      }
    }
  }

  lemma {:induction false} WorthOfLevels(l: seq<nat>, L: nat, i: nat)
    requires i <= L && forall x :: 0 <= x < |l| ==> l[x] <= L
    ensures Worth(Levels(l, L, i)) == WorthOver(l, L, i, |l|)
  {
    hide *;
    if i == 0 {
      WorthOverNothing(l, L, |l|);
      NoWorth(Levels(l, L, 0));
    } else {
      WorthOfLevels(l, L, i - 1);
      WorthOverNext(l, L, i - 1, |l|);
      WorthNext(l, L, i);
    }
  }

  lemma NoWorth(b: seq<nat>)
    requires |b| == 0
    ensures Worth(b) == 0
  {
  }

  lemma WorthNext(l: seq<nat>, L: nat, i: nat)
    requires 0 < i <= L
    ensures Worth(Levels(l, L, i)) == Worth(Levels(l, L, i - 1)) + AtLeast(l, L - (i - 1), |l|) * Pow2(i - 1)
  {
    hide AtLeast, Pow2;
    assert Levels(l, L, i)[..i - 1] == Levels(l, L, i - 1);
  }

  lemma {:induction false} WorthOverNothing(l: seq<nat>, L: nat, m: nat)
    requires m <= |l| && forall x :: 0 <= x < |l| ==> l[x] <= L
    ensures WorthOver(l, L, 0, m) == 0
  {
    if m > 0 { WorthOverNothing(l, L, m - 1); }
  }

  lemma {:induction false} WorthAgainstKraft(l: seq<nat>, L: nat, m: nat)
    requires m <= |l| && forall x :: 0 <= x < |l| ==> 1 <= l[x] <= L
    ensures WorthOver(l, L, L, m) == m * Pow2(L) - KraftSum(l[..m], L)
  {
    if m > 0 {
      WorthAgainstKraft(l, L, m - 1);
      assert l[..m][..m - 1] == l[..m - 1];
      assert Clip(L - l[m - 1], L) == L - l[m - 1];
      OneMore(m - 1, Pow2(L));
    }
  }

  /** The weight of those of the first `m` leaves whose length is at least `t`. */
  ghost function WeightAtLeast(w: seq<nat>, l: seq<nat>, t: nat, m: nat): nat
    requires m <= |l| == |w|
  {
    if m == 0 then 0 else WeightAtLeast(w, l, t, m - 1) + (if l[m - 1] >= t then w[m - 1] else 0)
  }

  /** Any c leaves weigh at least as much as the c lightest. */
  lemma {:induction false} LightestChoice(w: seq<nat>, l: seq<nat>, t: nat, m: nat)
    requires Weights(w) && m <= |l| == |w|
    ensures Sum(w[..AtLeast(l, t, m)]) <= WeightAtLeast(w, l, t, m)
  {
    if m > 0 {
      LightestChoice(w, l, t, m - 1);
      if l[m - 1] >= t { LeavesWeightNext(w, AtLeast(l, t, m - 1)); }
    }
  }

  /** Weight times the part of each length that lies in the lowest i levels. */
  ghost function LowCost(w: seq<nat>, l: seq<nat>, L: nat, i: nat, m: nat): nat
    requires m <= |l| == |w| && i <= L
  {
    if m == 0 then 0 else LowCost(w, l, L, i, m - 1) + w[m - 1] * Max(0, l[m - 1] + i - L)
  }

  lemma {:induction false} LowCostNext(w: seq<nat>, l: seq<nat>, L: nat, i: nat, m: nat)
    requires m <= |l| == |w| && i < L
    ensures LowCost(w, l, L, i + 1, m) == LowCost(w, l, L, i, m) + WeightAtLeast(w, l, L - i, m)
  {
    if m > 0 {
      LowCostNext(w, l, L, i, m - 1);
      var x, y := w[m - 1], Max(0, l[m - 1] + i - L);
      if l[m - 1] >= L - i {
        assert x * (y + 1) == x * y + x;
      }
    }
  }

  lemma {:induction false} LowCostAll(w: seq<nat>, l: seq<nat>, L: nat, m: nat)
    requires m <= |l| == |w|
    ensures LowCost(w, l, L, L, m) == Dot(w[..m], l[..m])
  {
    if m > 0 {
      LowCostAll(w, l, L, m - 1);
      assert w[..m][..m - 1] == w[..m - 1] && l[..m][..m - 1] == l[..m - 1];
    }
  }

  lemma {:induction false} LevelsWeight(w: seq<nat>, l: seq<nat>, L: nat, i: nat)
    requires Weights(w) && |l| == |w| && i <= L && forall x :: 0 <= x < |l| ==> l[x] <= L
    ensures LightestWeight(w, Levels(l, L, i)) <= LowCost(w, l, L, i, |l|)
  {
    if i > 0 {
      LevelsWeight(w, l, L, i - 1);
      LowCostNext(w, l, L, i - 1, |l|);
      LightestChoice(w, l, L - (i - 1), |l|);
      assert Levels(l, L, i)[..i - 1] == Levels(l, L, i - 1);
    }
  }

  /** The levels of a prefix code are worth at least 2n - 2 items of the top level. */
  lemma PrefixCodeWorth(l: seq<nat>, L: nat)
    requires 0 < L && |l| >= 2 && forall i :: 0 <= i < |l| ==> 1 <= l[i] <= L
    requires KraftSum(l, L) <= Pow2(L)
    ensures Worth(Levels(l, L, L)) >= (2 * |l| - 2) * Pow2(L - 1)
  {
    WorthOfLevels(l, L, L);
    WorthAgainstKraft(l, L, |l|);
    assert l[..|l|] == l;
    hide *;
    assert Pow2(L) == 2 * Pow2(L - 1) by { Pow2Next(L - 1); }
    EnoughWorth(|l|, Worth(Levels(l, L, L)), Pow2(L - 1));
  }

  /** Optimality: no prefix code with lengths up to L has a smaller total cost. */
  lemma LeafDepthsOptimal(w: seq<nat>, L: nat, l: seq<nat>)
    requires Weights(w) && 0 < L && |w| <= Pow2(L)
    requires |l| == |w| && forall i :: 0 <= i < |l| ==> 1 <= l[i] <= L
    requires KraftSum(l, L) <= Pow2(L)
    ensures Dot(w, LeafDepths(w, L)) <= Dot(w, l)
  {
    hide *;
    AtLeastTwo(w);
    var b, m := Levels(l, L, L), 2 * |w| - 2;
    assert Worth(b) >= m * Pow2(|b| - 1) by { PrefixCodeWorth(l, L); }
    assert LightestWeight(w, b) <= Dot(w, l) by {
      LevelsWeight(w, l, L, L);
      LowCostAll(w, l, L, |l|);
      assert l[..|l|] == l && w[..|l|] == w;
    }
    SolutionCost(w, L);
    PackageMergeBound(w, b, m);
  }

  lemma EnoughWorth(n: int, v: int, x: int)
    requires v >= n * (2 * x) - 2 * x
    ensures v >= (2 * n - 2) * x
  {
  }
}
