/** What a parse costs under a cost model: every symbol at its cost and its extra bits, as often as it
    occurs. With the lengths of a code for costs that is the number of bits of the parse. */
module CodeCosts {
  import opened Prelude
  import opened Symbols
  import opened Tokens
  import opened Store
  import opened ShortestPath
  import opened DynamicLengths

  // ---- Costs from code lengths ----

  /** The model's costs are the lengths of two codes. */
  ghost predicate ModelOf(m: CostModel, ll: seq<nat>, d: seq<nat>) {
    && |m.ll| == |ll| == NUM_LL && |m.d| == |d| == NUM_D
    && (forall s :: 0 <= s < NUM_LL ==> m.ll[s] == ll[s] as real)
    && (forall s :: 0 <= s < NUM_D ==> m.d[s] == d[s] as real)
  }

  /** Under the lengths of two codes a token costs the number of bits that it takes. */
  lemma CodeCost(m: CostModel, ll: seq<nat>, d: seq<nat>, t: Token)
    requires ModelOf(m, ll, d) && ValidToken(t)
    ensures TokenCost(m, t) == TokenSize(ll, d, t) as real
  {
    SymbolsInRange(t);
    hide ComputeDistCode, LengthSymbol, LengthExtraBits;
  }

  // ---- The cost of a sequence of tokens ----

  ghost function TokensCost(m: CostModel, us: seq<Token>): real {
    if |us| == 0 then 0.0 else TokensCost(m, us[..|us| - 1]) + TokenCost(m, us[|us| - 1])
  }

  lemma {:induction false} TokensCostFront(m: CostModel, t: Token, us: seq<Token>)
    ensures TokensCost(m, [t] + us) == TokenCost(m, t) + TokensCost(m, us)
    decreases |us|
  {
    hide TokenCost;
    if |us| == 0 {
      assert [t] + us == [t] && [t][..0] == [];
      assert TokensCost(m, []) == 0.0;
    } else {
      var n := |us| - 1;
      TokensCostFront(m, t, us[..n]);
      assert ([t] + us)[..n + 1] == [t] + us[..n];
    }
  }

  /** A path costs what its tokens cost. */
  lemma {:induction false} PathCostIs(g: Graph, m: CostModel, j: nat, path: seq<nat>, e: nat)
    requires ValidGraph(g) && ValidPath(g, j, path, e)
    ensures PathCost(g, m, j, path, e) == TokensCost(m, PathTokens(g, j, path, e))
    ensures ValidTokens(PathTokens(g, j, path, e))
    decreases |path|
  {
    hide Allowed, StepToken, TokenCost, ValidGraph, ValidToken;
    if |path| > 0 {
      StepIsValid(g, j, path[0]);
      PathCostIs(g, m, j + path[0], path[1..], e);
      TokensCostFront(m, StepToken(g, j, path[0]), PathTokens(g, j + path[0], path[1..], e));
    }
  }

  lemma {:induction false} CodeCosts(m: CostModel, ll: seq<nat>, d: seq<nat>, us: seq<Token>)
    requires ModelOf(m, ll, d) && ValidTokens(us)
    ensures TokensCost(m, us) == TokensSize(ll, d, us) as real
  {
    hide TokenCost, TokenSize, ValidToken;
    if |us| > 0 {
      CodeCosts(m, ll, d, us[..|us| - 1]);
      CodeCost(m, ll, d, us[|us| - 1]);
    }
  }

  /** Under the lengths of two codes a path costs the number of bits of its tokens. */
  lemma PathCodeCost(g: Graph, m: CostModel, ll: seq<nat>, d: seq<nat>, j: nat, path: seq<nat>, e: nat)
    requires ModelOf(m, ll, d) && ValidGraph(g) && ValidPath(g, j, path, e)
    ensures |ll| == NUM_LL && |d| == NUM_D
    ensures PathCost(g, m, j, path, e) == TokensSize(ll, d, PathTokens(g, j, path, e)) as real
  {
    PathCostIs(g, m, j, path, e);
    CodeCosts(m, ll, d, PathTokens(g, j, path, e));
  }

  // ---- The cost by symbols ----

  /** Counts times costs, added up. */
  ghost function Weighted(counts: seq<nat>, costs: seq<real>): real
    requires |counts| == |costs|
  {
    if |counts| == 0 then 0.0
    else Weighted(counts[..|counts| - 1], costs[..|counts| - 1]) + counts[|counts| - 1] as real * costs[|counts| - 1]
  }

  /** What one occurrence of each literal/length symbol costs with its extra bits; nothing for the end of
      the block. */
  ghost function LLCosts(m: CostModel): (c: seq<real>)
    requires |m.ll| == NUM_LL
    ensures |c| == NUM_LL
  {
    seq(NUM_LL, s requires 0 <= s < NUM_LL =>
      if s < 256 then m.ll[s] else if 257 <= s <= 285 then m.ll[s] + LENGTH_EXTRA[s - 257] as real else 0.0)
  }

  ghost function DCosts(m: CostModel): (c: seq<real>)
    requires |m.d| == NUM_D
    ensures |c| == NUM_D
  {
    seq(NUM_D, s requires 0 <= s < NUM_D => if s < 30 then m.d[s] + DIST_EXTRA[s] as real else 0.0)
  }

  /** The sum over the symbols of how often they occur times what they cost, extra bits included. */
  ghost function SymbolsCost(m: CostModel, us: seq<Token>): real
    requires |m.ll| == NUM_LL && |m.d| == NUM_D
  {
    Weighted(LLHist(us), LLCosts(m)) + Weighted(DHist(us), DCosts(m))
  }

  lemma {:induction false} WeightedAgrees(c: seq<nat>, c': seq<nat>, w: seq<real>)
    requires |c| == |c'| == |w| && forall i :: 0 <= i < |w| ==> c[i] == c'[i] || w[i] == 0.0
    ensures Weighted(c, w) == Weighted(c', w)
  {
    if |c| > 0 {
      var n := |c| - 1;
      WeightedAgrees(c[..n], c'[..n], w[..n]);
    }
  }

  lemma {:induction false} WeightedZero(c: seq<nat>, w: seq<real>)
    requires |c| == |w| && forall i :: 0 <= i < |w| ==> c[i] == 0
    ensures Weighted(c, w) == 0.0
  {
    if |c| > 0 { WeightedZero(c[..|c| - 1], w[..|c| - 1]); }
  }

  /** One more occurrence. */
  lemma {:induction false} WeightedIncrement(c: seq<nat>, w: seq<real>, s: nat)
    requires |c| == |w| && s < |c|
    ensures Weighted(c[s := c[s] + 1], w) == Weighted(c, w) + w[s]
    decreases |c|
  {
    var n := |c| - 1;
    if s == n {
      assert c[s := c[s] + 1][..n] == c[..n];
      OneMoreTimes(c[n], w[n]);
    } else {
      WeightedIncrement(c[..n], w[..n], s);
      assert c[s := c[s] + 1][..n] == c[..n][s := c[s] + 1];
    }
  }

  lemma OneMoreTimes(c: nat, w: real)
    ensures (c + 1) as real * w == c as real * w + w
  {
  }

  /** A token costs what its symbols cost. */
  lemma TokenCostBySymbols(m: CostModel, t: Token)
    requires |m.ll| == NUM_LL && |m.d| == NUM_D && ValidToken(t)
    ensures LitLenSymbol(t) < NUM_LL && (t.dist > 0 ==> DistSymbol(t) < NUM_D)
    ensures TokenCost(m, t) == LLCosts(m)[LitLenSymbol(t)] + if t.dist == 0 then 0.0 else DCosts(m)[DistSymbol(t)]
  {
    if t.dist > 0 {
      LengthCostBySymbol(m, t.litlen);
      DistCostBySymbol(m, t.dist);
      hide LengthCost, DistCost, LengthSymbol, ComputeDistCode, LLCosts, DCosts;
    }
  }

  lemma LengthCostBySymbol(m: CostModel, length: nat)
    requires |m.ll| == NUM_LL && MIN_MATCH <= length <= MAX_MATCH
    ensures LengthSymbol(length) < NUM_LL && LengthCost(m, length) == LLCosts(m)[LengthSymbol(length)]
  {
    LengthDecodes(length);
    hide LengthSymbol, LengthExtraBits, LENGTH_EXTRA;
  }

  lemma DistCostBySymbol(m: CostModel, dist: nat)
    requires |m.d| == NUM_D && 1 <= dist <= WINDOW_SIZE
    ensures ComputeDistCode(dist).symbol < NUM_D && DistCost(m, dist) == DCosts(m)[ComputeDistCode(dist).symbol]
  {
    DistDecodes(dist);
    hide ComputeDistCode, DIST_EXTRA;
  }

  /** Token by token the costs add up to the same as symbol by symbol. */
  lemma {:induction false} CostBySymbols(m: CostModel, us: seq<Token>)
    requires |m.ll| == NUM_LL && |m.d| == NUM_D && ValidTokens(us)
    ensures TokensCost(m, us) == SymbolsCost(m, us)
  {
    hide ValidToken, LitLenSymbol, DistSymbol, TokenCost, LLHist, DHist, LLCosts, DCosts, Weighted;
    if |us| == 0 {
      NoCost(m, us);
    } else {
      var n := |us| - 1;
      var t := us[n];
      CostBySymbols(m, us[..n]);
      assert us == us[..n] + [t];
      HistNext(us[..n], t);
      WeightedIncrement(LLHist(us[..n]), LLCosts(m), LitLenSymbol(t));
      if t.dist > 0 { WeightedIncrement(DHist(us[..n]), DCosts(m), DistSymbol(t)); }
      TokenCostBySymbols(m, t);
    }
  }

  lemma NoCost(m: CostModel, us: seq<Token>)
    requires |m.ll| == NUM_LL && |m.d| == NUM_D && |us| == 0
    ensures Weighted(LLHist(us), LLCosts(m)) == 0.0 && Weighted(DHist(us), DCosts(m)) == 0.0
  {
    var zero := seq(NUM_LL, i => 0);
    WeightedAgrees(LLHist(us), zero, LLCosts(m));
    WeightedZero(zero, LLCosts(m));
    WeightedZero(DHist(us), DCosts(m));
  }
}
