/** The two optimal parsers: one run for the fixed code, several runs for dynamic codes. */
module Optimal {
  import opened Prelude
  import opened Bits
  import opened Symbols
  import opened Inflate
  import opened Tokens
  import opened HashChain
  import opened MatchCache
  import opened MatchFinder
  import opened ShortestPath
  import opened BlockGraph
  import opened Relax
  import opened Store
  import opened Parse
  import opened Greedy
  import opened Squeeze
  import opened Path
  import opened TreeCode
  import opened TreeWriter
  import opened PrefixCode
  import opened DynamicLengths
  import opened CodeCosts
  import opened Blocks
  import opened BlockSize

  /** Input is compressed in parts of at most this many bytes. */
  const MASTER_BLOCK_SIZE: nat := 1000000

  ghost predicate ProperBlock(b: Block) {
    ValidBlock(b) && b.start < b.end && b.end - b.start <= MASTER_BLOCK_SIZE
  }

  // ---- The cache of a block ----

  method PrepareCache(lmc: LongestMatchCache?, b: Block, h: Hash)
    requires ProperBlock(b) && (lmc != null ==> lmc.Valid())
    modifies h, if lmc == null then {} else {lmc}
    ensures CacheFor(lmc, b) && h.Allocated() && (lmc != null ==> lmc.Valid())
  {
    hide *;
    ProperIs(b);
    if lmc != null {
      BuildLongestMatchCacheWithRunBudget(lmc, h, b, RunBudgetForBlock(b.end - b.start));
    } else {
      h.Alloc();
    }
    CacheIsValid(lmc, b);
  }

  lemma CacheIsValid(lmc: LongestMatchCache?, b: Block)
    requires ValidBlock(b)
    ensures lmc == null ==> CacheFor(lmc, b)
    ensures CacheFor(lmc, b) && lmc != null ==> lmc.Valid()
  {
    hide Entries, LongestMatchCache.Valid;
  }

  // ---- From a table to tokens ----

  ghost function CellLengths(cells: seq<Cell>): (l: seq<nat>)
    ensures |l| == |cells| && forall t :: 0 <= t < |cells| ==> l[t] == cells[t].length
  {
    seq(|cells|, t requires 0 <= t < |cells| => cells[t].length)
  }

  /** The tokens of the path that a table describes. */
  ghost function TableTokens(g: Graph, cells: seq<Cell>): seq<Token> {
    var l, n := CellLengths(cells), g.Size();
    if Steps(l, n) && ValidPath(g, 0, Trace(l, n), n) then PathTokens(g, 0, Trace(l, n), n) else []
  }

  lemma {:induction false} SameTrace(l: seq<nat>, l': seq<nat>, n: nat, t: nat)
    requires Steps(l, n) && Steps(l', n) && t <= n && forall i :: 0 < i <= n ==> l[i] == l'[i]
    ensures Trace(l, t) == Trace(l', t)
    decreases t
  {
    if t > 0 { SameTrace(l, l', n, t - l[t]); }
  }

  lemma BelowLimit(b: Block)
    requires ProperBlock(b)
    ensures BelowSentinel(GraphOf(b))
  {
    GraphSize(b);
    hide GraphOf;
  }

  /** Tracing the arrays back gives the table's path, whatever the arrays held before. */
  lemma TracedTokens(b: Block, m: CostModel, cells: seq<Cell>, lengths: seq<nat>, n: nat)
    requires ProperBlock(b) && n == b.end - b.start && Sound(GraphOf(b), m, cells, GraphOf(b).Size())
    requires LengthsOf(cells, lengths)
    ensures GraphOf(b).Size() == n && n < |cells| && Steps(lengths, n) && ValidPath(GraphOf(b), 0, Trace(lengths, n), n)
    ensures PathTokens(GraphOf(b), 0, Trace(lengths, n), n) == TableTokens(GraphOf(b), cells)
    ensures PathCost(GraphOf(b), m, 0, Trace(lengths, n), n) == cells[n].cost
    ensures Covers(b.data, TableTokens(GraphOf(b), cells), b.start, b.end)
  {
    hide *;
    ProperIs(b);
    var g := GraphOf(b);
    GraphSize(b);
    OwnLengths(cells);
    TracedPath(g, m, cells, lengths, n);
    TracedPath(g, m, cells, CellLengths(cells), n);
    SoundAt(g, m, cells, n, n);
    BothLengths(g, m, cells, lengths);
    SameTrace(lengths, CellLengths(cells), n, n);
    TableTokensAre(g, cells);
    PathCovers(b, 0, Trace(lengths, n), n);
  }

  lemma ProperIs(b: Block)
    requires ProperBlock(b)
    ensures ValidBlock(b) && b.start < b.end <= |b.data| && b.end - b.start <= MASTER_BLOCK_SIZE == 1000000
  {
  }

  lemma OwnLengths(cells: seq<Cell>)
    ensures LengthsOf(cells, CellLengths(cells))
  {
  }

  lemma BothLengths(g: Graph, m: CostModel, cells: seq<Cell>, lengths: seq<nat>)
    requires Sound(g, m, cells, g.Size()) && LengthsOf(cells, lengths)
    ensures Steps(CellLengths(cells), g.Size()) && |lengths| == |cells| == |CellLengths(cells)|
    ensures forall t :: 0 < t <= g.Size() ==> lengths[t] == CellLengths(cells)[t]
  {
    hide Reached;
    OwnLengths(cells);
    SoundSteps(g, m, cells, CellLengths(cells));
  }

  lemma TableTokensAre(g: Graph, cells: seq<Cell>)
    requires var l, n := CellLengths(cells), g.Size(); Steps(l, n) && ValidPath(g, 0, Trace(l, n), n)
    ensures var l, n := CellLengths(cells), g.Size(); TableTokens(g, cells) == PathTokens(g, 0, Trace(l, n), n)
  {
    hide Trace, ValidPath, PathTokens;
  }

  lemma TableLengths(costs: array<real>, lengths: array<nat>, cells: seq<Cell>)
    requires Table(costs[..], lengths[..], cells)
    ensures LengthsOf(cells, lengths[..])
  {
  }

  // ---- The parse for the fixed code ----

  ghost function FixedTokens(b: Block): seq<Token>
    requires ValidBlock(b)
  {
    TableTokens(GraphOf(b), FixedCells(b))
  }

  lemma FixedModelValid()
    ensures ValidModel(FixedModel())
  {
  }

  lemma FixedSound(b: Block)
    requires ProperBlock(b)
    ensures Sound(GraphOf(b), FixedModel(), FixedCells(b), GraphOf(b).Size())
  {
    FixedModelValid();
    GraphValid(b);
    BelowLimit(b);
    hide Sound, ValidGraph, GraphOf, ValidModel, BelowSentinel, FixedModel, PlainFrom;
    FreshSound(GraphOf(b), FixedModel());
    PlainSound(GraphOf(b), FixedModel(), Fresh(GraphOf(b).Size()), 0);
  }

  /** The parse for the fixed code is lossless. */
  lemma FixedCovers(b: Block)
    requires ProperBlock(b)
    ensures Covers(b.data, FixedTokens(b), b.start, b.end)
  {
    hide *;
    ProperIs(b);
    FixedSound(b);
    OwnLengths(FixedCells(b));
    TracedTokens(b, FixedModel(), FixedCells(b), CellLengths(FixedCells(b)), b.end - b.start);
    FixedTokensAre(b);
  }

  /** Run the program for the fixed code and follow the path it finds. */
  method Lz77OptimalRunFixed(lmc: LongestMatchCache?, b: Block, lengthArray: array<nat>, store: LZ77Store, h: Hash,
                             costs: array<real>) returns (cost: real)
    requires ProperBlock(b) && CacheFor(lmc, b) && h.Allocated() && store.Valid() && store.data == b.data
    requires store.tokens == [] && store.pos == []
    requires costs.Length == lengthArray.Length == b.end - b.start + 1
    modifies lengthArray, costs, h, store, if lmc == null then {} else {lmc}
    ensures Parses(store, b.start, b.end) && store.data == b.data && store.tokens == FixedTokens(b)
    ensures CacheFor(lmc, b)
    ensures |FixedCells(b)| == b.end - b.start + 1 && cost == FixedCells(b)[b.end - b.start].cost
  {
    hide *;
    ProperIs(b);
    cost := GetBestLengthsFixed(lmc, b, lengthArray, h, costs);
    TableLengths(costs, lengthArray, FixedCells(b));
    FixedSound(b);
    TracedTokens(b, FixedModel(), FixedCells(b), lengthArray[..], b.end - b.start);
    var path := TraceBackwards(b.end - b.start, lengthArray, []);
    FollowPath(lmc, b, path, store, h);
    FixedTokensAre(b);
    ParseDone(store, b.start, b.end, FixedTokens(b));
  }

  lemma FixedTokensAre(b: Block)
    requires ValidBlock(b)
    ensures FixedTokens(b) == TableTokens(GraphOf(b), FixedCells(b))
  {
  }

  /** Build the cache for a block, if there is room for one, and parse the block for the fixed code. */
  method Lz77OptimalFixed(lmc: LongestMatchCache?, b: Block, store: LZ77Store, h: Hash)
    requires ProperBlock(b) && (lmc != null ==> lmc.Valid()) && store.Valid() && store.data == b.data
    requires store.tokens == [] && store.pos == []
    modifies h, store, if lmc == null then {} else {lmc}
    ensures Parses(store, b.start, b.end) && store.data == b.data && store.tokens == FixedTokens(b)
    ensures lmc != null ==> lmc.Valid()
  {
    hide *;
    ProperIs(b);
    var blocksize := b.end - b.start;
    var lengthArray := new nat[blocksize + 1](_ => 0);
    var costs := new real[blocksize + 1](_ => 0.0);
    PrepareCache(lmc, b, h);
    var _ := Lz77OptimalRunFixed(lmc, b, lengthArray, store, h, costs);
    CacheIsValid(lmc, b);
  }

  // ---- That parse is the cheapest ----

  lemma FixedModelIs()
    ensures |FixedLL()| == NUM_LL && |FixedD()| == NUM_D && ModelOf(FixedModel(), FixedLL(), FixedD())
  {
  }

  /** The cost that the program returns for its parse is the number of bits of the parse. */
  lemma FixedCostIsSize(b: Block)
    requires ProperBlock(b)
    ensures |FixedLL()| == NUM_LL && |FixedD()| == NUM_D && |FixedCells(b)| == b.end - b.start + 1
    ensures FixedCells(b)[b.end - b.start].cost == TokensSize(FixedLL(), FixedD(), FixedTokens(b)) as real
  {
    hide *;
    ProperIs(b);
    var g, m, n, l := GraphOf(b), FixedModel(), b.end - b.start, CellLengths(FixedCells(b));
    GraphValid(b);
    FixedModelValid();
    BelowLimit(b);
    FixedEnd();
    FixedStart(b);
    OwnLengths(FixedCells(b));
    PlainOptimal(g, m, l);
    SizeIs(g, m);
    FixedModelIs();
    PathCodeCost(g, m, FixedLL(), FixedD(), 0, Trace(l, n), n);
    TableTokensAre(g, FixedCells(b));
    FixedTokensAre(b);
  }

  /** Of all parses whose steps are literals or lengths that the matches offer, with the distance
      found for each length, none takes fewer bits in a fixed block. */
  lemma FixedIsCheapest(b: Block, path: seq<nat>)
    requires ProperBlock(b) && ValidPath(GraphOf(b), 0, path, b.end - b.start)
    ensures |FixedLL()| == NUM_LL && |FixedD()| == NUM_D
    ensures var other := PathTokens(GraphOf(b), 0, path, b.end - b.start);
            TokensSize(FixedLL(), FixedD(), FixedTokens(b)) <= TokensSize(FixedLL(), FixedD(), other)
  {
    hide *;
    ProperIs(b);
    var g, m, n, l := GraphOf(b), FixedModel(), b.end - b.start, CellLengths(FixedCells(b));
    GraphValid(b);
    FixedModelValid();
    BelowLimit(b);
    FixedStart(b);
    OwnLengths(FixedCells(b));
    PlainOptimal(g, m, l);
    SizeIs(g, m);
    FixedModelIs();
    PathCodeCost(g, m, FixedLL(), FixedD(), 0, path, n);
    FixedCostIsSize(b);
  }

  // ---- The parse for dynamic codes ----

  ghost function StatTokens(b: Block, m: CostModel): seq<Token>
    requires ValidBlock(b)
  {
    TableTokens(GraphOf(b), StatCells(b, m))
  }

  lemma StatTableSound(b: Block, m: CostModel)
    requires ProperBlock(b) && ValidModel(m)
    ensures Sound(GraphOf(b), m, StatCells(b, m), GraphOf(b).Size())
  {
    GraphValid(b);
    BelowLimit(b);
    hide Sound, ValidGraph, GraphOf, ValidModel, BelowSentinel, StatFrom;
    FreshSound(GraphOf(b), m);
    StatSound(GraphOf(b), m, Fresh(GraphOf(b).Size()), 0);
  }

  /** The parse found under any cost model is lossless. */
  lemma StatCovers(b: Block, m: CostModel)
    requires ProperBlock(b) && ValidModel(m)
    ensures Covers(b.data, StatTokens(b, m), b.start, b.end)
  {
    hide *;
    ProperIs(b);
    StatTableSound(b, m);
    OwnLengths(StatCells(b, m));
    TracedTokens(b, m, StatCells(b, m), CellLengths(StatCells(b, m)), b.end - b.start);
    StatTokensAre(b, m);
  }

  lemma StatPath(b: Block, m: CostModel)
    requires ProperBlock(b) && ValidModel(m)
    ensures |StatCells(b, m)| == b.end - b.start + 1
    ensures StatCells(b, m)[b.end - b.start].cost == TokensCost(m, StatTokens(b, m)) && ValidTokens(StatTokens(b, m))
  {
    hide *;
    ProperIs(b);
    var g, n, l := GraphOf(b), b.end - b.start, CellLengths(StatCells(b, m));
    GraphValid(b);
    StatTableSound(b, m);
    OwnLengths(StatCells(b, m));
    TracedTokens(b, m, StatCells(b, m), l, n);
    SoundAt(g, m, StatCells(b, m), n, n);
    PathCostIs(g, m, 0, Trace(l, n), n);
    StatTokensAre(b, m);
  }

  /** Under any cost model, the cost found for the parse is the sum over the symbols of how often they
      occur in the parse times what they cost, extra bits included. */
  lemma StatCostBySymbols(b: Block, m: CostModel)
    requires ProperBlock(b) && ValidModel(m)
    ensures |m.ll| == NUM_LL && |m.d| == NUM_D && |StatCells(b, m)| == b.end - b.start + 1
    ensures StatCells(b, m)[b.end - b.start].cost == SymbolsCost(m, StatTokens(b, m))
  {
    hide *;
    ProperIs(b);
    ModelSizes(m);
    StatPath(b, m);
    CostBySymbols(m, StatTokens(b, m));
  }

  /** Under the lengths of two codes, the cost found is the number of bits that the parse takes. */
  lemma StatCostIsSize(b: Block, m: CostModel, ll: seq<nat>, d: seq<nat>)
    requires ProperBlock(b) && ValidModel(m) && ModelOf(m, ll, d)
    ensures |ll| == NUM_LL && |d| == NUM_D && |StatCells(b, m)| == b.end - b.start + 1
    ensures StatCells(b, m)[b.end - b.start].cost == TokensSize(ll, d, StatTokens(b, m)) as real
  {
    StatPath(b, m);
    hide TokensSize, StatTokens, StatCells, ValidModel;
    CodeCosts.CodeCosts(m, ll, d, StatTokens(b, m));
  }

  /** Without long runs the shortcut is never taken. */
  lemma {:induction false} NoShortcut(g: Graph, m: CostModel, cells: seq<Cell>, j: nat)
    requires ValidGraph(g) && |cells| == g.Size() + 1 && j <= g.Size() && forall i :: 0 <= i < |g.long| ==> !g.long[i]
    ensures StatFrom(g, m, cells, j) == PlainFrom(g, m, cells, j)
    decreases g.Size() - j
  {
    hide Relaxed, InRun, ValidMatch;
    if j < g.Size() { NoShortcut(g, m, Relaxed(g, m, cells, j), j + 1); }
  }

  /** In a block without very long runs of one byte no parse with the matches' lengths and distances
      costs less, under any cost model. */
  lemma StatIsCheapest(b: Block, m: CostModel, path: seq<nat>)
    requires ProperBlock(b) && ValidModel(m) && ValidPath(GraphOf(b), 0, path, b.end - b.start)
    requires forall i :: 0 <= i < |GraphOf(b).long| ==> !GraphOf(b).long[i]
    ensures |m.ll| == NUM_LL && |m.d| == NUM_D
    ensures var other := PathTokens(GraphOf(b), 0, path, b.end - b.start);
            SymbolsCost(m, StatTokens(b, m)) <= SymbolsCost(m, other)
  {
    hide *;
    ProperIs(b);
    var g, n, l := GraphOf(b), b.end - b.start, CellLengths(StatCells(b, m));
    GraphValid(b);
    BelowLimit(b);
    ModelSizes(m);
    StatPath(b, m);
    NoShortcut(g, m, Fresh(n), 0);
    StatStart(b, m);
    OwnLengths(StatCells(b, m));
    PlainOptimal(g, m, l);
    PathCostIs(g, m, 0, path, n);
    CostBySymbols(m, PathTokens(g, 0, path, n));
    CostBySymbols(m, StatTokens(b, m));
  }

  lemma StatTokensAre(b: Block, m: CostModel)
    requires ValidBlock(b)
    ensures StatTokens(b, m) == TableTokens(GraphOf(b), StatCells(b, m))
  {
  }

  lemma ModelSizes(m: CostModel)
    requires ValidModel(m)
    ensures |m.ll| == NUM_LL && |m.d| == NUM_D
  {
  }

  /** Run the program for entropy costs and follow the path it finds. */
  method Lz77OptimalRunStat(lmc: LongestMatchCache?, b: Block, m: CostModel, lengthArray: array<nat>, store: LZ77Store,
                            h: Hash, costs: array<real>) returns (cost: real)
    requires ProperBlock(b) && CacheFor(lmc, b) && h.Allocated() && store.Valid() && store.data == b.data
    requires store.tokens == [] && store.pos == []
    requires costs.Length == lengthArray.Length == b.end - b.start + 1 && ValidModel(m)
    modifies lengthArray, costs, h, store, if lmc == null then {} else {lmc}
    ensures Parses(store, b.start, b.end) && store.data == b.data && store.tokens == StatTokens(b, m)
    ensures CacheFor(lmc, b) && h.Allocated()
  {
    hide *;
    ProperIs(b);
    ModelSizes(m);
    cost := GetBestLengthsStat(lmc, b, m, lengthArray, h, costs);
    TableLengths(costs, lengthArray, StatCells(b, m));
    StatTableSound(b, m);
    TracedTokens(b, m, StatCells(b, m), lengthArray[..], b.end - b.start);
    var path := TraceBackwards(b.end - b.start, lengthArray, []);
    FollowPath(lmc, b, path, store, h);
    StatTokensAre(b, m);
    ParseDone(store, b.start, b.end, StatTokens(b, m));
  }

  // ---- Several runs ----

  /** How the next cost model follows from the parses so far, the greedy one first: entropies of
      their symbol counts, with random changes when the runs do not improve any more. */
  type Oracle = seq<seq<Token>> -> CostModel

  ghost predicate ValidOracle(models: Oracle) {
    forall parses :: ValidModel(models(parses))
  }

  /** The greedy parse, and those of the first n runs. */
  ghost function ParsesOf(b: Block, models: Oracle, n: nat): (r: seq<seq<Token>>)
    requires ValidBlock(b)
    ensures |r| == n + 1
  {
    if n == 0 then [GreedyTokens(b)]
      else ParsesOf(b, models, n - 1) + [StatTokens(b, models(ParsesOf(b, models, n - 1)))]
  }

  ghost function RunTokens(b: Block, models: Oracle, n: nat): seq<Token>
    requires ValidBlock(b)
  {
    StatTokens(b, models(ParsesOf(b, models, n)))
  }

  /** The number of bits of a dynamic block with these tokens. */
  ghost function DynamicCost(us: seq<Token>): nat {
    3 + DynamicSize(BestPair(us), us)
  }

  /** The first of the first n runs whose parse gives the smallest dynamic block. */
  ghost function BestRun(b: Block, models: Oracle, n: nat): (k: nat)
    requires ValidBlock(b) && n > 0
    ensures k < n
  {
    if n == 1 then 0
    else
      var k := BestRun(b, models, n - 1);
      if DynamicCost(RunTokens(b, models, n - 1)) < DynamicCost(RunTokens(b, models, k)) then n - 1 else k
  }

  lemma {:induction false} BestRunIsSmallest(b: Block, models: Oracle, n: nat, i: nat)
    requires ValidBlock(b) && i < n
    ensures DynamicCost(RunTokens(b, models, BestRun(b, models, n))) <= DynamicCost(RunTokens(b, models, i))
    ensures i < BestRun(b, models, n) ==>
              DynamicCost(RunTokens(b, models, BestRun(b, models, n))) < DynamicCost(RunTokens(b, models, i))
  {
    hide DynamicCost, RunTokens;
    if i < n - 1 { BestRunIsSmallest(b, models, n - 1, i); }
  }

  ghost function OptimalTokens(b: Block, models: Oracle, iterations: nat): seq<Token>
    requires ValidBlock(b) && iterations > 0
  {
    RunTokens(b, models, BestRun(b, models, iterations))
  }

  // ---- No block costs as much as the sentinel ----

  lemma {:induction false} RlesBound(rs: seq<Rle>, cl: seq<nat>)
    requires |cl| == 19 && (forall i :: 0 <= i < 19 ==> cl[i] <= 7)
    ensures |RlesBits(cl, rs)| <= 14 * |rs|
    decreases |rs|
  {
    hide RleBits;
    if |rs| > 0 {
      RleBound(rs[0], cl);
      RlesBound(rs[1..], cl);
    }
  }

  lemma RleBound(r: Rle, cl: seq<nat>)
    requires |cl| == 19 && (forall i :: 0 <= i < 19 ==> cl[i] <= 7)
    ensures |RleBits(cl, r)| <= 14
  {
    hide Codeword, Lsb;
  }

  lemma HeaderBound(p: Pair)
    requires ValidPair(p)
    ensures |DynamicHeader(p.ll, p.d)| <= 5000
  {
    hide *;
    PairParts(p);
    var use := Setting(BestSetting(p.ll, p.d, 8));
    var rs := HeaderRles(p.ll, p.d, use);
    HeaderUnrolls(p.ll, p.d, use);
    UnrollsGrow([], rs, HeaderLengths(p.ll, p.d));
    CodeLengthCodeFits(rs);
    RlesBound(rs, CodeLengthCode(rs));
    RleHeaderIs(Hlit(p.ll), Hdist(p.d), rs);
    OrderBitsSize(CodeLengthCode(rs), TrimOrder(RleCounts(rs), 15) + 4);
    HeaderIs(p);
  }

  lemma PairParts(p: Pair)
    requires ValidPair(p)
    ensures CodePair(p.ll, p.d) && |p.ll| == NUM_LL && |p.d| == NUM_D
    ensures |HeaderLengths(p.ll, p.d)| <= 316
    ensures forall s :: 0 <= s < NUM_LL ==> p.ll[s] <= 15
    ensures forall s :: 0 <= s < NUM_D ==> p.d[s] <= 15
    ensures NUM_LL == 288 && NUM_D == 32
  {
    hide Hlit, Hdist;
  }

  lemma HeaderIs(p: Pair)
    requires CodePair(p.ll, p.d)
    ensures var use := Setting(BestSetting(p.ll, p.d, 8));
            DynamicHeader(p.ll, p.d) == RleHeader(Hlit(p.ll), Hdist(p.d), HeaderRles(p.ll, p.d, use))
  {
    hide RleHeader, HeaderRles, BestSetting;
  }

  lemma TokenBound(p: Pair, t: Token)
    requires ValidPair(p) && ValidToken(t)
    ensures |p.ll| == NUM_LL && |p.d| == NUM_D && TokenSize(p.ll, p.d, t) <= 48
  {
    PairParts(p);
    if t.dist > 0 {
      LengthDecodes(t.litlen);
      DistDecodes(t.dist);
      ExtraBound(ComputeDistCode(t.dist).symbol);
      hide LengthSymbol, ComputeDistCode, CodePair;
    }
  }

  lemma {:induction false} SizeBound(p: Pair, us: seq<Token>)
    requires ValidPair(p) && ValidTokens(us)
    ensures |p.ll| == NUM_LL && |p.d| == NUM_D && TokensSize(p.ll, p.d, us) <= 48 * |us|
  {
    PairParts(p);
    hide TokenSize, ValidPair, ValidToken;
    if |us| > 0 {
      SizeBound(p, us[..|us| - 1]);
      TokenBound(p, us[|us| - 1]);
    }
  }

  lemma CostBelowSentinel(b: Block, us: seq<Token>)
    requires ProperBlock(b) && Covers(b.data, us, b.start, b.end)
    ensures DynamicCost(us) as real < LARGE
  {
    hide *;
    ProperIs(b);
    CoversBound(b.data, us, b.start, b.end);
    AllValid(us);
    var p := BestPair(us);
    HeaderBound(p);
    SizeBound(p, us);
    PairParts(p);
    LargeIs();
    CostParts(us);
  }

  lemma AllValid(us: seq<Token>)
    requires forall t :: t in us ==> ValidToken(t)
    ensures ValidTokens(us)
  {
    hide ValidToken;
  }

  lemma LargeIs()
    ensures 100000000.0 < LARGE
    ensures END_OF_BLOCK == 256
  {
  }

  lemma CostParts(us: seq<Token>)
    ensures var p := BestPair(us);
            |p.ll| == NUM_LL && |p.d| == NUM_D && END_OF_BLOCK < NUM_LL
            && DynamicCost(us) == 3 + |DynamicHeader(p.ll, p.d)| + TokensSize(p.ll, p.d, us) + p.ll[END_OF_BLOCK]
    ensures DynamicCost(us) == BlockCost(us, 2)
  {
    PairParts(BestPair(us));
    hide BestPair, DynamicHeader, TokensSize, ValidPair;
  }

  /** One run: a new parse, and the size of the dynamic block it gives. */
  method RunOnce(lmc: LongestMatchCache?, b: Block, m: CostModel, lengthArray: array<nat>, store: LZ77Store, h: Hash,
                 costs: array<real>) returns (cost: nat)
    requires ProperBlock(b) && CacheFor(lmc, b) && h.Allocated() && store.Valid() && store.data == b.data
    requires costs.Length == lengthArray.Length == b.end - b.start + 1 && ValidModel(m)
    modifies lengthArray, costs, h, store, if lmc == null then {} else {lmc}
    ensures Parses(store, b.start, b.end) && store.data == b.data && store.tokens == StatTokens(b, m)
    ensures CacheFor(lmc, b) && h.Allocated()
    ensures cost == DynamicCost(store.tokens) && cost as real < LARGE
  {
    hide *;
    store.Reset();
    var _ := Lz77OptimalRunStat(lmc, b, m, lengthArray, store, h, costs);
    ParseIs(store, b.start, b.end);
    cost := CalculateBlockSize(store, 0, store.size, 2, b.start, b.end);
    assert store.tokens[0..store.size] == store.tokens;
    CostParts(store.tokens);
    CostBelowSentinel(b, store.tokens);
  }

  /** The parse that is kept is lossless. */
  lemma OptimalCovers(b: Block, models: Oracle, iterations: nat)
    requires ProperBlock(b) && ValidOracle(models) && iterations > 0
    ensures ValidBlock(b) && Covers(b.data, OptimalTokens(b, models, iterations), b.start, b.end)
  {
    hide *;
    ProperIs(b);
    OptimalIs(b, models, iterations);
    var k := BestRun(b, models, iterations);
    NextRun(b, models, k);
    OracleAt(models, ParsesOf(b, models, k));
    StatCovers(b, models(ParsesOf(b, models, k)));
  }

  /** Parse a block several times, each time under costs learned from the parses before, and keep
      the parse that gives the smallest dynamic block. */
  method Lz77Optimal(lmc: LongestMatchCache?, b: Block, numIterations: nat, models: Oracle, store0: LZ77Store, h: Hash)
    returns (store: LZ77Store)
    requires ProperBlock(b) && (lmc != null ==> lmc.Valid()) && store0.Valid() && store0.data == b.data
    requires numIterations > 0 && ValidOracle(models)
    modifies h, store0, if lmc == null then {} else {lmc}
    ensures (store == store0 || fresh(store)) && (lmc != null ==> lmc.Valid())
    ensures Parses(store, b.start, b.end) && store.data == b.data
    ensures store.tokens == OptimalTokens(b, models, numIterations)
  {
    hide *;
    ProperIs(b);
    var blocksize := b.end - b.start;
    var lengthArray := new nat[blocksize + 1](_ => 0);
    var costs := new real[blocksize + 1](_ => 0.0);
    var currentStore := new LZ77Store(b.data);
    store := store0;
    PrepareCache(lmc, b, h);
    var bestCost := LARGE;
    Lz77Greedy(lmc, b, currentStore, h);
    GreedyDone(b, currentStore);
    var tokens := currentStore.TokenList();
    var parses := [tokens];
    NoRuns(b, models);
    for i := 0 to numIterations
      invariant CacheFor(lmc, b) && h.Allocated() && store != currentStore
      invariant (store == store0 || fresh(store)) && (currentStore == store0 || fresh(currentStore))
      invariant currentStore.Valid() && currentStore.data == b.data && store.Valid() && store.data == b.data
      invariant parses == ParsesOf(b, models, i)
      invariant i == 0 ==> bestCost == LARGE
      invariant i > 0 ==>
                  && Parses(store, b.start, b.end) && store.tokens == RunTokens(b, models, BestRun(b, models, i))
                  && bestCost == DynamicCost(store.tokens) as real
    {
      OracleAt(models, parses);
      var cost := RunOnce(lmc, b, models(parses), lengthArray, currentStore, h, costs);
      ParseIs(currentStore, b.start, b.end);
      NextRun(b, models, i);
      tokens := currentStore.TokenList();
      parses := parses + [tokens];
      if cost as real < bestCost {
        bestCost := cost as real;
        store, currentStore := currentStore, store;
      }
    }
    CacheIsValid(lmc, b);
    OptimalIs(b, models, numIterations);
  }

  lemma GreedyDone(b: Block, store: LZ77Store)
    requires ValidBlock(b) && Appended(store, [], [], b.start, GreedyFrom(b, b.start, None))
    ensures store.Valid() && store.tokens == GreedyTokens(b)
  {
    hide LZ77Store.Valid, GreedyFrom;
  }

  lemma NoRuns(b: Block, models: Oracle)
    requires ValidBlock(b)
    ensures ParsesOf(b, models, 0) == [GreedyTokens(b)]
  {
    hide GreedyTokens;
  }

  lemma OracleAt(models: Oracle, parses: seq<seq<Token>>)
    requires ValidOracle(models)
    ensures ValidModel(models(parses))
  {
    hide ValidModel;
  }

  lemma NextRun(b: Block, models: Oracle, i: nat)
    requires ValidBlock(b)
    ensures RunTokens(b, models, i) == StatTokens(b, models(ParsesOf(b, models, i)))
    ensures ParsesOf(b, models, i + 1) == ParsesOf(b, models, i) + [RunTokens(b, models, i)]
    ensures BestRun(b, models, i + 1) == (
              if i == 0 then 0
              else if DynamicCost(RunTokens(b, models, i)) < DynamicCost(RunTokens(b, models, BestRun(b, models, i)))
                then i
              else BestRun(b, models, i))
  {
    hide StatTokens, DynamicCost;
  }

  lemma OptimalIs(b: Block, models: Oracle, n: nat)
    requires ValidBlock(b) && n > 0
    ensures OptimalTokens(b, models, n) == RunTokens(b, models, BestRun(b, models, n))
  {
    hide RunTokens, BestRun;
  }
}
