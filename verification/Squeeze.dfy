/** The two dynamic programs that look for the cheapest parse, and following the path they find. */
module Squeeze {
  import opened Prelude
  import opened Symbols
  import opened Tokens
  import opened HashChain
  import opened MatchSearch
  import opened Runs
  import opened MatchCache
  import opened MatchFinder
  import opened ShortestPath
  import opened BlockGraph
  import opened Relax
  import opened Store
  import opened Parse
  import opened Greedy

  // ---- One position ----

  ghost function SourceAt(b: Block, m: CostModel, cells: seq<Cell>, i: nat): Source
    requires ValidBlock(b) && b.start <= i
  {
    Source(GraphOf(b), m, cells, i - b.start)
  }

  lemma SourceValid(b: Block, m: CostModel, cells: seq<Cell>, i: nat)
    requires InBlock(b, i) && |m.ll| == NUM_LL && |m.d| == NUM_D && |cells| == b.end - b.start + 1
    ensures b.start <= i < b.end && ValidSource(SourceAt(b, m, cells, i))
    ensures var p := SourceAt(b, m, cells, i);
            && p.m == m && p.cells == cells && p.j == i - b.start && |p.g.lits| == |p.g.subs| == b.end - b.start
            && p.j < |p.g.subs|
            && p.g.subs[p.j] == SubOf(b, i) && p.g.lits[p.j] == b.data[i] && ValidGraph(p.g)
  {
    hide *;
    BlockOf(b, i);
    GraphValid(b);
    GraphAt(b, i - b.start);
    MatchFits(GraphOf(b), i - b.start);
    SourceIs(b, m, cells, i);
    SourceParts(SourceAt(b, m, cells, i));
  }

  lemma SourceIs(b: Block, m: CostModel, cells: seq<Cell>, i: nat)
    requires ValidBlock(b) && b.start <= i
    ensures SourceAt(b, m, cells, i) == Source(GraphOf(b), m, cells, i - b.start)
  {
    hide GraphOf;
  }

  lemma SourceParts(p: Source)
    ensures ValidSource(p) == (
              && ValidGraph(p.g) && |p.m.ll| == NUM_LL && |p.m.d| == NUM_D
              && |p.cells| == p.g.Size() + 1 && p.j < p.g.Size() && |p.g.subs| == p.g.Size()
              && |p.g.subs[p.j]| <= MAX_MATCH + 1 && p.j + |p.g.subs[p.j]| <= p.g.Size() + 1)
  {
    hide ValidGraph;
  }

  lemma MatchFits(g: Graph, j: nat)
    requires ValidGraph(g) && j < |g.subs|
    ensures |g.subs[j]| <= MAX_MATCH + 1 && j + |g.subs[j]| <= g.Size() + 1 && |g.subs| == g.Size()
  {
    assert ValidMatch(g.subs[j], g.Size() - j);
  }

  /** After the literal step the arrays show the table relaxed by it. */
  lemma LiteralShown(p: Source, c0: seq<real>, l0: seq<nat>, costs: array<real>, lengths: array<nat>)
    requires ValidSource(p) && Table(c0, l0, p.cells) && |p.g.lits| == |p.g.subs|
    requires var newCost := (if p.g.lits[p.j] < |p.m.ll| then p.m.ll[p.g.lits[p.j]] else 0.0) + p.cells[p.j].cost;
             if newCost < c0[p.j + 1] then costs[..] == c0[p.j + 1 := newCost] && lengths[..] == l0[p.j + 1 := 1]
             else costs[..] == c0 && lengths[..] == l0
    ensures Shows(p, costs, lengths, MIN_MATCH)
  {
    LiteralCost(p);
    ShowsIs(p, costs, lengths, MIN_MATCH);
    hide ValidSource, StepCost, Shows;
    var r := RelaxedTo(p.g, p.m, p.cells, p.j, MIN_MATCH);
    forall t | 0 <= t < |p.cells|
      ensures costs[..][t] == r[t].cost && (t > 0 && Written(r[t]) ==> lengths[..][t] == r[t].length) {
    }
  }

  lemma LiteralCost(p: Source)
    requires ValidSource(p) && |p.g.lits| == |p.g.subs|
    ensures p.j + 1 < |p.cells| && Allowed(p.g, p.j, 1) && !Allowed(p.g, p.j, 2)
    ensures StepCost(p.g, p.m, p.j, 1) == if p.g.lits[p.j] < |p.m.ll| then p.m.ll[p.g.lits[p.j]] else 0.0
  {
    hide ValidGraph;
  }

  /** Relax the literal step. */
  method RelaxLiteral(literalCost: real, costs: array<real>, lengths: array<nat>, j: nat, ghost p: Source)
    requires ValidSource(p) && Table(costs[..], lengths[..], p.cells) && |p.g.lits| == |p.g.subs| && p.j == j
    requires literalCost == if p.g.lits[p.j] < |p.m.ll| then p.m.ll[p.g.lits[p.j]] else 0.0
    modifies costs, lengths
    ensures Shows(p, costs, lengths, MIN_MATCH)
  {
    hide ValidGraph, Shows, RelaxedTo;
    ghost var c0, l0 := costs[..], lengths[..];
    assert costs[j] == c0[j] == p.cells[j].cost && costs[j + 1] == c0[j + 1];
    var newCost := literalCost + costs[j];
    if newCost < costs[j + 1] {
      costs[j + 1] := newCost;
      lengths[j + 1] := 1;
    }
    LiteralShown(p, c0, l0, costs, lengths);
  }

  /** Relax the steps by matches: from the complete cache, from compact entries, or after a search. */
  method RelaxMatches(fixed: bool, lmc: LongestMatchCache?, h: Hash, b: Block, i: nat, m: CostModel,
                      tables: LengthTables, costs: array<real>, lengths: array<nat>,
                      sublen: array<nat>, useCompleteCache: bool, ghost p: Source)
    requires InBlock(b, i) && CacheFor(lmc, b) && ValidSource(p) && p.j == i - b.start && |p.g.subs| == b.end - b.start
    requires p.g.subs[p.j] == SubOf(b, i)
    requires (useCompleteCache ==> Built(lmc)) && (!useCompleteCache ==> HashFor(h, b, i + 1))
    requires Shows(p, costs, lengths, MIN_MATCH) && p.m == m && if fixed then m == FixedModel() else TablesOf(tables, m)
    requires sublen != lengths && sublen.Length == MAX_MATCH + 1
    modifies costs, lengths, sublen, if lmc == null then {} else {lmc}
    ensures CacheFor(lmc, b) && (lmc != null ==> lmc.built == old(lmc.built))
    ensures Table(costs[..], lengths[..], Relaxed(p.g, p.m, p.cells, p.j))
  {
    hide *;
    BlockOf(b, i);
    var j := i - b.start;
    SubFacts(b, i, 0);
    EntryFacts(lmc, b, i);
    BuiltEntries(lmc, b, i);
    ShownFacts(p, costs, lengths, MIN_MATCH);
    if useCompleteCache {
      var matchDist, cachedLength, same, ok := lmc.CachedLongestMatch(j);
      var runs, ok2 := lmc.CachedSublenRuns(j);
      RunsOfSub(b, i);
      RelaxRuns(fixed, m, tables, costs, lengths, j, runs, Min(cachedLength, b.end - i), p);
      return;
    }
    var compactLength, ends, dists, ok := TryGetCompact(lmc, b, i, MAX_MATCH);
    if ok {
      RelaxCompact(fixed, m, tables, costs, lengths, j, ends, dists, Min(compactLength, b.end - i), p);
      return;
    }
    var dist, length := FindLongestMatch(lmc, h, b, i, MAX_MATCH, sublen);
    FullResult(b, i, dist, length);
    FoundSub(b, i, sublen);
    RelaxSublen(fixed, m, tables, costs, lengths, j, sublen, Min(length, b.end - i), p);
  }

  lemma RunsOfSub(b: Block, i: nat)
    requires InBlock(b, i)
    ensures RunsFrom(SubOf(b, i), MIN_MATCH) == if MatchLength(b, i) == 0 then []
            else RunsFrom(MatchOf(b, i).sub, MIN_MATCH)
  {
    hide MatchOf, MatchLength;
  }

  lemma FoundSub(b: Block, i: nat, sublen: array<nat>)
    requires InBlock(b, i) && HasDistances(sublen, b, i, MAX_MATCH)
    ensures |SubOf(b, i)| > 0 ==>
              MatchLength(b, i) < sublen.Length && forall k :: MIN_MATCH <= k <= MatchLength(b, i) ==>
                sublen[k] == SubOf(b, i)[k]
  {
    hide *;
    LengthFacts(b, i);
    SubFacts(b, i, 0);
    if |SubOf(b, i)| > 0 {
      DistanceAt(sublen, b, i, MAX_MATCH, MatchLength(b, i));
      forall k | MIN_MATCH <= k <= MatchLength(b, i) ensures sublen[k] == SubOf(b, i)[k] {
        DistanceAt(sublen, b, i, MAX_MATCH, k);
        SubFacts(b, i, k);
      }
    }
  }

  /** A complete entry's runs, if they fit the fixed-size buffers. */
  method TryGetCompact(lmc: LongestMatchCache?, b: Block, pos: nat, limit: nat)
    returns (length: nat, ends: seq<nat>, dists: seq<nat>, ok: bool)
    requires InBlock(b, pos) && CacheFor(lmc, b)
    ensures ok == (lmc != null && b.start <= pos && pos - b.start < |lmc.length| && lmc.EntryComplete(pos - b.start)
                   && MatchLength(b, pos) > 0 && |RunsFrom(MatchOf(b, pos).sub, MIN_MATCH)| <= CACHE_LENGTH)
    ensures ok ==> MatchLength(b, pos) == |SubOf(b, pos)| - 1 && MIN_MATCH <= MatchLength(b, pos) <= MAX_MATCH
    ensures ok ==> length == Min(MatchLength(b, pos), limit) && |ends| == |dists| == CACHE_LENGTH
    ensures ok ==> var runs := RunsFrom(SubOf(b, pos), MIN_MATCH);
                   0 < |runs| <= |ends| && forall i :: 0 <= i < |runs| ==>
                     ends[i] == runs[i].end && dists[i] == runs[i].dist
  {
    hide *;
    if lmc == null {
      return 0, [], [], false;
    }
    BlockOf(b, pos);
    EntryFacts(lmc, b, pos);
    CacheEntries(lmc, b);
    var matchDist, matchLength, same, complete := lmc.CachedLongestMatch(pos - b.start);
    if !complete {
      return 0, [], [], false;
    }
    var maxCached;
    maxCached, ends, dists, ok := lmc.CompactSublen(pos - b.start, matchLength);
    if !ok || matchLength > maxCached {
      return 0, [], [], false;
    }
    RunsOfSub(b, pos);
    SubFacts(b, pos, 0);
    length := Min(matchLength, limit);
  }

  // ---- Common parts of the two programs ----

  /** Zero for the first byte, the sentinel for all others. */
  method InitTable(costs: array<real>, lengths: array<nat>, blocksize: nat)
    requires costs.Length == lengths.Length == blocksize + 1
    modifies costs, lengths
    ensures Table(costs[..], lengths[..], Fresh(blocksize))
  {
    for i := 1 to blocksize + 1
      invariant forall t :: 1 <= t < i ==> costs[t] == LARGE
    {
      costs[i] := LARGE;
    }
    costs[0] := 0.0;
    lengths[0] := 0;
  }

  /** Start the hash unless the complete cache makes it needless. */
  method StartUnlessComplete(h: Hash, b: Block, useCompleteCache: bool)
    requires ValidBlock(b) && b.start < b.end && h.Allocated()
    modifies h
    ensures h.Allocated() && (!useCompleteCache ==> HashFor(h, b, b.start))
  {
    hide *;
    if !useCompleteCache {
      StartHash(h, b);
    }
  }

  method InsertUnlessComplete(h: Hash, b: Block, i: nat, useCompleteCache: bool)
    requires h.Allocated() && (!useCompleteCache ==> HashFor(h, b, i) && i < b.end)
    modifies h
    ensures h.Allocated() && (!useCompleteCache ==> HashFor(h, b, i + 1))
  {
    hide *;
    if !useCompleteCache {
      InsertNext(h, b, i);
      HashForIs(h, b, i + 1);
    }
  }

  lemma TableCost(costs: array<real>, lengths: array<nat>, cells: seq<Cell>, t: nat)
    requires Table(costs[..], lengths[..], cells) && t < costs.Length
    ensures costs.Length == lengths.Length == |cells| && costs[t] == cells[t].cost
  {
    assert costs[..][t] == costs[t];
  }

  lemma PlainNext(g: Graph, m: CostModel, cells: seq<Cell>, j: nat)
    requires |cells| == g.Size() + 1 && j < g.Size()
    ensures PlainFrom(g, m, cells, j) == PlainFrom(g, m, Relaxed(g, m, cells, j), j + 1)
    ensures |Relaxed(g, m, cells, j)| == |cells|
  {
    hide Relaxed;
  }

  lemma PlainDone(g: Graph, m: CostModel, cells: seq<Cell>)
    requires |cells| == g.Size() + 1
    ensures PlainFrom(g, m, cells, g.Size()) == cells
  {
  }

  lemma FixedModelSize()
    ensures |FixedModel().ll| == NUM_LL == 288 && |FixedModel().d| == NUM_D == 32
    ensures forall x: byte :: FixedModel().ll[x] == if x <= 143 then 8.0 else 9.0
  {
    forall x: byte ensures FixedModel().ll[x] == if x <= 143 then 8.0 else 9.0 { FixedLiteralCost(x); }
  }

  /** What the program for the fixed code computes. */
  ghost function FixedCells(b: Block): (cells: seq<Cell>)
    requires ValidBlock(b)
  {
    GraphSize(b);
    PlainFrom(GraphOf(b), FixedModel(), Fresh(GraphOf(b).Size()), 0)
  }

  lemma FixedStart(b: Block)
    requires ValidBlock(b)
    ensures GraphOf(b).Size() == b.end - b.start
    ensures FixedCells(b) == PlainFrom(GraphOf(b), FixedModel(), Fresh(b.end - b.start), 0)
    ensures |Fresh(b.end - b.start)| == b.end - b.start + 1
  {
    GraphSize(b);
    hide GraphOf, PlainFrom, FixedModel;
  }

  /** Find the cheapest parse for the fixed code: the result is the same with a complete, a partial
      or no cache. */
  method GetBestLengthsFixed(lmc: LongestMatchCache?, b: Block, lengthArray: array<nat>, h: Hash, costs: array<real>)
    returns (cost: real)
    requires ValidBlock(b) && b.start < b.end && CacheFor(lmc, b) && h.Allocated()
    requires costs.Length == lengthArray.Length == b.end - b.start + 1
    modifies lengthArray, costs, h, if lmc == null then {} else {lmc}
    ensures CacheFor(lmc, b) && (lmc != null ==> lmc.built == old(lmc.built)) && h.Allocated()
    ensures Table(costs[..], lengthArray[..], FixedCells(b))
    ensures |FixedCells(b)| == b.end - b.start + 1 && cost == FixedCells(b)[b.end - b.start].cost
  {
    hide *;
    BuiltIs(lmc);
    FixedStart(b);
    FixedModelSize();
    ghost var g := GraphOf(b);
    var m := FixedModel();
    var blocksize := b.end - b.start;
    var useCompleteCache := lmc != null && lmc.built;
    StartUnlessComplete(h, b, useCompleteCache);
    InitTable(costs, lengthArray, blocksize);
    var sublen := new nat[MAX_MATCH + 1](_ => 0);
    ghost var cells := Fresh(blocksize);
    for i := b.start to b.end
      invariant CacheFor(lmc, b) && (lmc != null ==> lmc.built == old(lmc.built)) && h.Allocated()
      invariant !useCompleteCache ==> HashFor(h, b, i)
      invariant |cells| == blocksize + 1 && Table(costs[..], lengthArray[..], cells)
      invariant PlainFrom(g, m, cells, i - b.start) == FixedCells(b)
    {
      InBlockAt(b, i);
      BlockOf(b, i);
      BuiltIs(lmc);
      SourceValid(b, m, cells, i);
      SourceIs(b, m, cells, i);
      InsertUnlessComplete(h, b, i, useCompleteCache);
      var literalCost := 9.0;
      if b.data[i] <= 143 {
        literalCost := 8.0;
      }
      RelaxLiteral(literalCost, costs, lengthArray, i - b.start, SourceAt(b, m, cells, i));
      RelaxMatches(true, lmc, h, b, i, m, LengthTables([], []), costs, lengthArray, sublen, useCompleteCache,
                   SourceAt(b, m, cells, i));
      PlainNext(g, m, cells, i - b.start);
      cells := Relaxed(g, m, cells, i - b.start);
    }
    PlainDone(g, m, cells);
    TableCost(costs, lengthArray, cells, blocksize);
    cost := costs[blocksize];
  }

  // ---- The program for entropy costs ----

  /** The cost of each length, and the smallest cost from each length on. */
  method PrepareTables(m: CostModel) returns (tables: LengthTables)
    requires |m.ll| == NUM_LL
    ensures TablesOf(tables, m)
  {
    hide LengthSymbol, LengthExtraBits;
    var lengthCosts := new real[MAX_MATCH + 1](_ => 0.0);
    for length := MIN_MATCH to MAX_MATCH + 1
      invariant forall k :: MIN_MATCH <= k < length ==> lengthCosts[k] == LengthCost(m, k)
    {
      SymbolInTable(length);
      lengthCosts[length] := LengthExtraBits(length) as real + m.ll[LengthSymbol(length)];
    }
    ghost var lc := lengthCosts[..];
    var suffixMin := new real[MAX_MATCH + 2](_ => LARGE);
    for down := 0 to MAX_MATCH + 1 - MIN_MATCH
      invariant lengthCosts[..] == lc
      invariant forall k :: MAX_MATCH + 1 - down <= k <= MAX_MATCH + 1 ==> suffixMin[k] == SuffixMin(lc, k)
    {
      var length := MAX_MATCH - down;
      suffixMin[length] := if lengthCosts[length] < suffixMin[length + 1] then lengthCosts[length]
        else suffixMin[length + 1];
    }
    tables := LengthTables(lengthCosts[..], suffixMin[..MAX_MATCH + 1]);
  }

  lemma SymbolInTable(length: nat)
    requires MIN_MATCH <= length <= MAX_MATCH
    ensures LengthSymbol(length) < NUM_LL
  {
    LengthDecodes(length);
  }

  /** The run length at a position at most one window back from the position inserted last. */
  method SameLength(lmc: LongestMatchCache?, h: Hash, b: Block, i: nat, at: nat, useCompleteCache: bool)
    returns (same: nat)
    requires InBlock(b, i) && b.start <= at <= i && i - at < 1000 && CacheFor(lmc, b)
    requires (useCompleteCache ==> Built(lmc)) && (!useCompleteCache ==> HashFor(h, b, i + 1))
    ensures InBlock(b, at) && same == RunLength(b.data, at, b.end)
  {
    hide *;
    BlockOf(b, i);
    InBlockAt(b, at);
    if useCompleteCache {
      BuiltEntries(lmc, b, at);
      EntryFacts(lmc, b, at);
      EntryRun(b, at);
      var d, l, s, ok := lmc.CachedLongestMatch(at - b.start);
      same := s;
    } else {
      RecentSame(h, b, i, at);
      same := h.same[at % WINDOW_SIZE];
    }
  }

  lemma RecentSame(h: Hash, b: Block, i: nat, at: nat)
    requires InBlock(b, i) && b.start <= at <= i && i - at < 1000 && HashFor(h, b, i + 1)
    ensures WINDOW_SIZE > 0 && |h.same| == WINDOW_SIZE && h.same[at % WINDOW_SIZE] == RunLength(b.data, at, b.end)
  {
    hide RunLength, Latest, HashAt, StateSized;
    ChainsOk(b.data, WindowStart(b.start), b.end, i + 1);
    LatestSlot(at % WINDOW_SIZE, i + 1, at);
  }

  lemma JumpNext(m: CostModel, cells: seq<Cell>, j: nat, n: nat, c0: seq<real>, l0: seq<nat>, c1: seq<real>,
                 l1: seq<nat>)
    requires n < MAX_MATCH && j + MAX_MATCH + n < |cells| && Table(c0, l0, Jumped(m, cells, j, n))
    requires c1 == c0[j + MAX_MATCH + n := c0[j + n] + JumpCost(m)] && l1 == l0[j + MAX_MATCH + n := MAX_MATCH]
    ensures Table(c1, l1, Jumped(m, cells, j, n + 1))
  {
    hide JumpCost;
  }

  lemma JumpStart(m: CostModel, cells: seq<Cell>, j: nat)
    ensures Jumped(m, cells, j, 0) == cells
  {
    hide JumpCost;
  }

  /** Take the longest match for each of the next MAX_MATCH bytes, without trying anything else. */
  method JumpRun(symbolCost: real, costs: array<real>, lengths: array<nat>, h: Hash, b: Block, i: nat,
                 useCompleteCache: bool,
                 ghost m: CostModel, ghost cells: seq<Cell>)
    requires ValidBlock(b) && b.start <= i && i + MAX_MATCH * 2 < b.end && h.Allocated()
    requires (!useCompleteCache ==> HashFor(h, b, i + 1))
    requires |cells| == b.end - b.start + 1 && Table(costs[..], lengths[..], cells) && symbolCost == JumpCost(m)
    modifies costs, lengths, h
    ensures h.Allocated() && (!useCompleteCache ==> HashFor(h, b, i + MAX_MATCH + 1))
    ensures Table(costs[..], lengths[..], Jumped(m, cells, i - b.start, MAX_MATCH))
  {
    hide HashFor, Jumped, JumpCost, Table, Hash.Allocated;
    var j := i - b.start;
    JumpStart(m, cells, j);
    TableSize(costs, lengths, cells);
    for n := 0 to MAX_MATCH
      invariant h.Allocated() && (!useCompleteCache ==> HashFor(h, b, i + n + 1))
      invariant Table(costs[..], lengths[..], Jumped(m, cells, j, n))
    {
      ghost var c0, l0 := costs[..], lengths[..];
      costs[j + n + MAX_MATCH] := costs[j + n] + symbolCost;
      lengths[j + n + MAX_MATCH] := MAX_MATCH;
      JumpNext(m, cells, j, n, c0, l0, costs[..], lengths[..]);
      InsertUnlessComplete(h, b, i + n + 1, useCompleteCache);
    }
  }

  lemma TableSize(costs: array<real>, lengths: array<nat>, cells: seq<Cell>)
    requires Table(costs[..], lengths[..], cells)
    ensures costs.Length == lengths.Length == |cells|
  {
  }

  lemma JumpCostIs(m: CostModel, tables: LengthTables)
    requires |m.ll| == NUM_LL && |m.d| == NUM_D && TablesOf(tables, m)
    ensures |tables.costs| == MAX_MATCH + 1 && tables.costs[MAX_MATCH] + m.d[0] == JumpCost(m)
  {
    hide LengthCost;
  }

  /** In the middle of a very long run of one byte? */
  method FindLongRun(lmc: LongestMatchCache?, h: Hash, b: Block, i: nat, useCompleteCache: bool) returns (found: bool)
    requires InBlock(b, i) && CacheFor(lmc, b)
    requires (useCompleteCache ==> Built(lmc)) && (!useCompleteCache ==> HashFor(h, b, i + 1))
    ensures found == InLongRun(b, i)
  {
    hide InBlock, CacheFor, Built, HashFor, RunLength;
    BlockOf(b, i);
    var sameAtPos := SameLength(lmc, h, b, i, i, useCompleteCache);
    found := false;
    if sameAtPos > MAX_MATCH * 2 && i > b.start + MAX_MATCH + 1 && i + MAX_MATCH * 2 + 1 < b.end {
      var sameBefore := SameLength(lmc, h, b, i, i - MAX_MATCH, useCompleteCache);
      found := sameBefore > MAX_MATCH;
    }
  }

  /** What the program for entropy costs computes. */
  ghost function StatCells(b: Block, m: CostModel): (cells: seq<Cell>)
    requires ValidBlock(b)
  {
    GraphSize(b);
    GraphValid(b);
    StatFrom(GraphOf(b), m, Fresh(GraphOf(b).Size()), 0)
  }

  lemma StatStart(b: Block, m: CostModel)
    requires ValidBlock(b)
    ensures ValidGraph(GraphOf(b)) && GraphOf(b).Size() == b.end - b.start
    ensures |Fresh(b.end - b.start)| == b.end - b.start + 1
    ensures StatCells(b, m) == StatFrom(GraphOf(b), m, Fresh(b.end - b.start), 0)
  {
    GraphSize(b);
    GraphValid(b);
    hide GraphOf, StatFrom;
  }

  lemma StatNext(b: Block, m: CostModel, cells: seq<Cell>, i: nat)
    requires InBlock(b, i) && ValidGraph(GraphOf(b)) && |cells| == GraphOf(b).Size() + 1 == b.end - b.start + 1
    ensures var g, j := GraphOf(b), i - b.start;
            if InLongRun(b, i) then
              i + MAX_MATCH * 2 + 1 < b.end
              && StatFrom(g, m, cells, j)
                 == StatFrom(g, m, Relaxed(g, m, Jumped(m, cells, j, MAX_MATCH), j + MAX_MATCH), j + MAX_MATCH + 1)
            else StatFrom(g, m, cells, j) == StatFrom(g, m, Relaxed(g, m, cells, j), j + 1)
  {
    hide *;
    BlockOf(b, i);
    GraphAt(b, i - b.start);
    if InLongRun(b, i) { LongRunFits(b, i); }
    StatUnfolds(GraphOf(b), m, cells, i - b.start);
  }

  lemma StatUnfolds(g: Graph, m: CostModel, cells: seq<Cell>, j: nat)
    requires ValidGraph(g) && |cells| == g.Size() + 1 && j < g.Size()
    ensures j < |g.long|
    ensures if g.long[j] then
              j + MAX_MATCH < |cells| - 1
              && StatFrom(g, m, cells, j)
                 == StatFrom(g, m, Relaxed(g, m, Jumped(m, cells, j, MAX_MATCH), j + MAX_MATCH), j + MAX_MATCH + 1)
            else StatFrom(g, m, cells, j) == StatFrom(g, m, Relaxed(g, m, cells, j), j + 1)
  {
    hide Relaxed, Jumped;
    if g.long[j] { InRunAt(g, j); }
  }

  lemma LongRunFits(b: Block, i: nat)
    requires InBlock(b, i) && InLongRun(b, i)
    ensures i + MAX_MATCH * 2 + 1 < b.end
  {
    hide RunLength;
  }

  lemma StatDone(g: Graph, m: CostModel, cells: seq<Cell>)
    requires ValidGraph(g) && |cells| == g.Size() + 1
    ensures StatFrom(g, m, cells, g.Size()) == cells
  {
    hide ValidGraph;
  }

  lemma RelaxedSize(g: Graph, m: CostModel, cells: seq<Cell>, j: nat)
    requires j < |cells|
    ensures |Relaxed(g, m, cells, j)| == |cells| == |Jumped(m, cells, j, MAX_MATCH)| && MAX_MATCH == 258
  {
    hide Allowed, StepCost, JumpCost;
  }

  /** One round: perhaps the shortcut, then all steps from one byte. */
  method StatRound(lmc: LongestMatchCache?, b: Block, m: CostModel, tables: LengthTables, lengthArray: array<nat>,
                   h: Hash, costs: array<real>,
                   sublen: array<nat>, useCompleteCache: bool, start: nat, ghost cells: seq<Cell>)
    returns (next: nat, ghost cells': seq<Cell>)
    requires InBlock(b, start) && CacheFor(lmc, b) && h.Allocated() && |m.ll| == NUM_LL && |m.d| == NUM_D
    requires TablesOf(tables, m)
    requires (useCompleteCache ==> Built(lmc)) && (!useCompleteCache ==> HashFor(h, b, start))
    requires |cells| == b.end - b.start + 1 && Table(costs[..], lengthArray[..], cells)
    requires sublen != lengthArray && sublen.Length == MAX_MATCH + 1
    modifies lengthArray, costs, h, sublen, if lmc == null then {} else {lmc}
    ensures CacheFor(lmc, b) && (lmc != null ==> lmc.built == old(lmc.built)) && h.Allocated()
    ensures start < next <= b.end && (!useCompleteCache ==> HashFor(h, b, next))
    ensures |cells'| == |cells| && Table(costs[..], lengthArray[..], cells')
    ensures ValidGraph(GraphOf(b)) && |cells| == GraphOf(b).Size() + 1
    ensures StatFrom(GraphOf(b), m, cells, start - b.start) == StatFrom(GraphOf(b), m, cells', next - b.start)
  {
    hide *;
    BlockOf(b, start);
    ghost var g := GraphOf(b);
    StatStart(b, m);
    ByteFits(b.data[start]);
    StatNext(b, m, cells, start);
    var i := start;
    cells' := cells;
    InsertUnlessComplete(h, b, i, useCompleteCache);
    var longRun := FindLongRun(lmc, h, b, i, useCompleteCache);
    RelaxedSize(g, m, cells, start - b.start);
    if longRun {
      JumpCostIs(m, tables);
      JumpRun(tables.costs[MAX_MATCH] + m.d[0], costs, lengthArray, h, b, i, useCompleteCache, m, cells);
      i := i + MAX_MATCH;
      cells' := Jumped(m, cells, start - b.start, MAX_MATCH);
    }
    InBlockAt(b, i);
    SourceValid(b, m, cells', i);
    SourceIs(b, m, cells', i);
    ByteFits(b.data[i]);
    RelaxLiteral(m.ll[b.data[i]], costs, lengthArray, i - b.start, SourceAt(b, m, cells', i));
    RelaxMatches(false, lmc, h, b, i, m, tables, costs, lengthArray, sublen, useCompleteCache,
                 SourceAt(b, m, cells', i));
    RelaxedSize(g, m, cells', i - b.start);
    cells' := Relaxed(g, m, cells', i - b.start);
    next := i + 1;
  }

  lemma ByteFits(x: byte)
    ensures x < NUM_LL && NUM_D > 0
  {
  }

  /** Find a cheap parse under entropy costs: the result is the same with a complete, a partial or
      no cache, and pruning changes nothing. */
  method GetBestLengthsStat(lmc: LongestMatchCache?, b: Block, m: CostModel, lengthArray: array<nat>, h: Hash,
                            costs: array<real>) returns (cost: real)
    requires ValidBlock(b) && b.start < b.end && CacheFor(lmc, b) && h.Allocated() && |m.ll| == NUM_LL && |m.d| == NUM_D
    requires costs.Length == lengthArray.Length == b.end - b.start + 1
    modifies lengthArray, costs, h, if lmc == null then {} else {lmc}
    ensures CacheFor(lmc, b) && (lmc != null ==> lmc.built == old(lmc.built)) && h.Allocated()
    ensures Table(costs[..], lengthArray[..], StatCells(b, m))
    ensures |StatCells(b, m)| == b.end - b.start + 1 && cost == StatCells(b, m)[b.end - b.start].cost
  {
    hide *;
    BuiltIs(lmc);
    StatStart(b, m);
    ghost var g := GraphOf(b);
    var blocksize := b.end - b.start;
    var useCompleteCache := lmc != null && lmc.built;
    var tables := PrepareTables(m);
    StartUnlessComplete(h, b, useCompleteCache);
    InitTable(costs, lengthArray, blocksize);
    var sublen := new nat[MAX_MATCH + 1](_ => 0);
    ghost var cells := Fresh(blocksize);
    var i: nat := b.start;
    while i < b.end
      invariant b.start <= i <= b.end
      invariant CacheFor(lmc, b) && (lmc != null ==> lmc.built == old(lmc.built)) && h.Allocated()
      invariant !useCompleteCache ==> HashFor(h, b, i)
      invariant |cells| == blocksize + 1 && Table(costs[..], lengthArray[..], cells)
      invariant StatFrom(g, m, cells, i - b.start) == StatCells(b, m)
      decreases b.end - i
    {
      InBlockAt(b, i);
      BuiltIs(lmc);
      i, cells := StatRound(lmc, b, m, tables, lengthArray, h, costs, sublen, useCompleteCache, i, cells);
    }
    StatDone(g, m, cells);
    TableCost(costs, lengthArray, cells, blocksize);
    cost := costs[blocksize];
  }
}
