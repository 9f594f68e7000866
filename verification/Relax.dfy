/** Relaxing the table of costs in place: run by run, pruned by a lower bound or in segments of
    equal cost, with the same result as relaxing length by length. */
module Relax {
  import opened Prelude
  import opened Symbols
  import opened Tokens
  import opened Runs
  import opened ShortestPath
  import Inflate

  /** The byte whose steps are being relaxed, and the table before that. */
  datatype Source = Source(g: Graph, m: CostModel, cells: seq<Cell>, j: nat)

  ghost predicate ValidSource(p: Source) {
    && ValidGraph(p.g) && |p.m.ll| == NUM_LL && |p.m.d| == NUM_D
    && |p.cells| == p.g.Size() + 1 && p.j < p.g.Size() && |p.g.subs| == p.g.Size()
    && |p.g.subs[p.j]| <= MAX_MATCH + 1 && p.j + |p.g.subs[p.j]| <= p.g.Size() + 1
  }

  /** The arrays hold the table. */
  ghost predicate Table(costs: seq<real>, lengths: seq<nat>, cells: seq<Cell>) {
    && |costs| == |lengths| == |cells|
    && forall t :: 0 <= t < |cells| ==>
       costs[t] == cells[t].cost && (t > 0 && Written(cells[t]) ==> lengths[t] == cells[t].length)
  }

  /** The arrays hold the table with the steps shorter than `limit` relaxed. */
  ghost predicate Shows(p: Source, costs: array<real>, lengths: array<nat>, limit: nat)
    reads costs, lengths
  {
    ValidSource(p) && Table(costs[..], lengths[..], RelaxedTo(p.g, p.m, p.cells, p.j, limit))
  }

  /** The cost of the step of length k with the distance of a run. */
  ghost function NewCost(p: Source, dist: nat, k: nat): real
    requires ValidSource(p)
  {
    p.cells[p.j].cost + (LengthCost(p.m, k) + DistCost(p.m, dist))
  }

  /** Byte `t` has been relaxed by the step with the distance of a run. */
  ghost predicate StepRelaxed(p: Source, dist: nat, costs0: seq<real>, lengths0: seq<nat>, costs: seq<real>,
                              lengths: seq<nat>, t: nat)
    requires ValidSource(p) && p.j < t < |costs0| == |lengths0| == |costs| == |lengths|
  {
    if NewCost(p, dist, t - p.j) < costs0[t] then costs[t] == NewCost(p, dist, t - p.j) && lengths[t] == t - p.j
    else costs[t] == costs0[t] && lengths[t] == lengths0[t]
  }

  /** Exactly the lengths from `from` to `to` have been relaxed. */
  ghost predicate RunDone(p: Source, dist: nat, costs0: seq<real>, lengths0: seq<nat>, costs: seq<real>,
                          lengths: seq<nat>, from: nat, to: nat) {
    && ValidSource(p) && from > 0 && |costs0| == |lengths0| == |costs| == |lengths|
    && (forall t :: 0 <= t < |costs| && (t < p.j + from || p.j + to < t) ==>
        costs[t] == costs0[t] && lengths[t] == lengths0[t])
    && (forall t :: p.j + from <= t <= p.j + to && t < |costs| ==>
        StepRelaxed(p, dist, costs0, lengths0, costs, lengths, t))
  }

  ghost predicate SameDist(p: Source, from: nat, to: nat, dist: nat)
    requires ValidSource(p)
  {
    MIN_MATCH <= from && to < |p.g.subs[p.j]| && forall k :: from <= k <= to ==> p.g.subs[p.j][k] == dist
  }

  lemma MatchStep(p: Source, k: nat, dist: nat)
    requires ValidSource(p) && MIN_MATCH <= k < |p.g.subs[p.j]| && p.g.subs[p.j][k] == dist
    ensures StepTo(p.g, p.j, p.j + k, k + 1) && p.j + k < |p.cells|
    ensures p.cells[p.j].cost + StepCost(p.g, p.m, p.j, k) == NewCost(p, dist, k)
  {
    assert ValidMatch(p.g.subs[p.j], p.g.Size() - p.j);
    hide LengthCost, DistCost;
  }

  lemma CellLimits(p: Source, t: nat, from: nat, to: nat)
    requires ValidSource(p) && from <= to + 1 && t < |p.cells|
    ensures t < p.j + from || p.j + to < t ==>
              RelaxedCell(p.g, p.m, p.cells, p.j, t, to + 1) == RelaxedCell(p.g, p.m, p.cells, p.j, t, from)
    ensures p.j + from <= t ==> RelaxedCell(p.g, p.m, p.cells, p.j, t, from) == p.cells[t]
  {
    hide Allowed, StepCost;
  }

  /** Relaxing a run's lengths in the arrays relaxes them in the table. */
  lemma RunRelaxed(p: Source, costs0: seq<real>, lengths0: seq<nat>, costs: seq<real>, lengths: seq<nat>, from: nat,
                   to: nat, dist: nat)
    requires ValidSource(p) && 1 <= from <= to && SameDist(p, from, to, dist)
    requires Table(costs0, lengths0, RelaxedTo(p.g, p.m, p.cells, p.j, from))
    requires RunDone(p, dist, costs0, lengths0, costs, lengths, from, to)
    ensures Table(costs, lengths, RelaxedTo(p.g, p.m, p.cells, p.j, to + 1))
  {
    var r := RelaxedTo(p.g, p.m, p.cells, p.j, to + 1);
    hide ValidSource, NewCost, Written, StepCost, Allowed, RelaxedCell;
    forall t | 0 <= t < |costs|
      ensures costs[t] == r[t].cost && (t > 0 && Written(r[t]) ==> lengths[t] == r[t].length) {
      RunCellRelaxed(p, costs0, lengths0, costs, lengths, from, to, dist, t);
    }
  }

  lemma RunCellRelaxed(p: Source, costs0: seq<real>, lengths0: seq<nat>, costs: seq<real>, lengths: seq<nat>, from: nat,
                       to: nat, dist: nat, t: nat)
    requires ValidSource(p) && 1 <= from <= to && SameDist(p, from, to, dist) && t < |costs|
    requires Table(costs0, lengths0, RelaxedTo(p.g, p.m, p.cells, p.j, from)) && |costs| == |lengths| == |costs0|
    requires t < p.j + from || p.j + to < t ==> costs[t] == costs0[t] && lengths[t] == lengths0[t]
    requires p.j + from <= t <= p.j + to ==> StepRelaxed(p, dist, costs0, lengths0, costs, lengths, t)
    ensures var c := RelaxedCell(p.g, p.m, p.cells, p.j, t, to + 1);
            costs[t] == c.cost && (t > 0 && Written(c) ==> lengths[t] == c.length)
  {
    hide StepCost, Allowed, NewCost;
    CellLimits(p, t, from, to);
    if p.j + from <= t <= p.j + to {
      MatchStep(p, t - p.j, dist);
    }
  }

  // ---- One segment ----

  /** Relax lengths that all cost the same. */
  method RelaxLengthSegment(costs: array<real>, lengths: array<nat>, j: nat, start: nat, end: nat, newCost: real,
                            ghost p: Source, ghost dist: nat)
    requires ValidSource(p) && p.j == j && costs.Length == lengths.Length && 1 <= start <= end + 1
    requires j + end < costs.Length
    requires forall k :: start <= k <= end ==> NewCost(p, dist, k) == newCost
    modifies costs, lengths
    ensures RunDone(p, dist, old(costs[..]), old(lengths[..]), costs[..], lengths[..], start, end)
  {
    hide ValidSource, NewCost;
    ghost var c0, l0 := costs[..], lengths[..];
    for k := start to end + 1
      invariant forall t :: 0 <= t < costs.Length && !(j + start <= t < j + k) ==>
                costs[t] == c0[t] && lengths[t] == l0[t]
      invariant forall t :: j + start <= t < j + k ==>
                  if newCost < c0[t] then costs[t] == newCost && lengths[t] == t - j
                    else costs[t] == c0[t] && lengths[t] == l0[t]
    {
      if newCost < costs[j + k] {
        costs[j + k] := newCost;
        lengths[j + k] := k;
      }
    }
  }

  /** Relax lengths that each have their own cost. */
  method RelaxStatLengths(costs: array<real>, lengths: array<nat>, j: nat, start: nat, end: nat, basePlusDist: real,
                          lengthCosts: seq<real>,
                          ghost p: Source, ghost dist: nat)
    requires ValidSource(p) && p.j == j && costs.Length == lengths.Length && 1 <= start <= end + 1
    requires j + end < costs.Length
    requires end < |lengthCosts|
    requires forall k :: start <= k <= end ==> NewCost(p, dist, k) == basePlusDist + lengthCosts[k]
    modifies costs, lengths
    ensures RunDone(p, dist, old(costs[..]), old(lengths[..]), costs[..], lengths[..], start, end)
  {
    hide ValidSource, NewCost;
    ghost var c0, l0 := costs[..], lengths[..];
    for k := start to end + 1
      invariant forall t :: 0 <= t < costs.Length && !(j + start <= t < j + k) ==>
                costs[t] == c0[t] && lengths[t] == l0[t]
      invariant forall t :: j + start <= t < j + k ==>
                  if NewCost(p, dist, t - j) < c0[t] then costs[t] == NewCost(p, dist, t - j) && lengths[t] == t - j
                  else costs[t] == c0[t] && lengths[t] == l0[t]
    {
      var newCost := basePlusDist + lengthCosts[k];
      if newCost < costs[j + k] {
        costs[j + k] := newCost;
        lengths[j + k] := k;
      }
    }
  }

  /** The first length in the range that is not yet as cheap as the threshold. */
  method FirstImprovableLength(costs: array<real>, j: nat, start: nat, end: nat, threshold: real) returns (k: nat)
    requires start <= end + 1 && j + end < costs.Length
    ensures start <= k <= end + 1 && forall t :: j + start <= t < j + k ==> costs[t] <= threshold
    ensures k <= end ==> costs[j + k] > threshold
  {
    k := start;
    while k <= end && costs[j + k] <= threshold
      invariant start <= k <= end + 1 && forall t :: j + start <= t < j + k ==> costs[t] <= threshold
    {
      k := k + 1;
    }
  }

  // ---- One run of equal distances ----

  /** The smallest cost of a length from n on. */
  ghost function SuffixMin(lengthCosts: seq<real>, n: nat): real
    requires n <= |lengthCosts|
    decreases |lengthCosts| - n
  {
    if n == |lengthCosts| then LARGE
    else if lengthCosts[n] < SuffixMin(lengthCosts, n + 1) then lengthCosts[n] else SuffixMin(lengthCosts, n + 1)
  }

  lemma {:induction false} SuffixMinIsLower(lengthCosts: seq<real>, n: nat, k: nat)
    requires n <= k < |lengthCosts|
    ensures SuffixMin(lengthCosts, n) <= lengthCosts[k]
    decreases k - n
  {
    if n < k { SuffixMinIsLower(lengthCosts, n + 1, k); }
  }

  /** The tables of a cost model that relaxation looks up. */
  datatype LengthTables = LengthTables(costs: seq<real>, suffixMin: seq<real>)

  ghost predicate TablesOf(tables: LengthTables, m: CostModel) {
    && |tables.costs| == |tables.suffixMin| == MAX_MATCH + 1
    && (forall k :: MIN_MATCH <= k <= MAX_MATCH ==> tables.costs[k] == LengthCost(m, k))
    && (forall k :: MIN_MATCH <= k <= MAX_MATCH ==> tables.suffixMin[k] == SuffixMin(tables.costs, k))
  }

  lemma TablesAt(tables: LengthTables, m: CostModel, from: nat, k: nat)
    requires TablesOf(tables, m) && MIN_MATCH <= from <= k <= MAX_MATCH
    ensures k < |tables.costs| == |tables.suffixMin| && tables.costs[k] == LengthCost(m, k)
    ensures tables.suffixMin[from] <= tables.costs[k]
  {
    hide LengthCost;
    SuffixMinIsLower(tables.costs, from, k);
  }

  lemma NewCostIs(p: Source, dist: nat, k: nat)
    requires ValidSource(p)
    ensures NewCost(p, dist, k) == p.cells[p.j].cost + DistCost(p.m, dist) + LengthCost(p.m, k)
  {
    hide ValidSource, LengthCost, DistCost;
  }

  /** Lengths that are at least as cheap as the threshold stay as they are. */
  lemma PrunedRun(p: Source, dist: nat, c0: seq<real>, l0: seq<nat>, c1: seq<real>, l1: seq<nat>, from: nat, first: nat,
                  to: nat)
    requires RunDone(p, dist, c0, l0, c1, l1, first, to) && 1 <= from <= first
    requires forall t :: p.j + from <= t < p.j + first && t < |c0| ==> c0[t] <= NewCost(p, dist, t - p.j)
    ensures RunDone(p, dist, c0, l0, c1, l1, from, to)
  {
    hide ValidSource, NewCost;
  }

  lemma NothingDone(p: Source, dist: nat, c0: seq<real>, l0: seq<nat>, to: nat)
    requires ValidSource(p) && |c0| == |l0|
    ensures RunDone(p, dist, c0, l0, c0, l0, to + 1, to)
  {
    hide ValidSource, NewCost;
  }

  /** Relax a run under the entropy costs, after skipping what the run cannot improve. */
  method RelaxStatRun(costs: array<real>, lengths: array<nat>, j: nat, from: nat, to: nat, dist: nat, dCost: real,
                      tables: LengthTables, ghost p: Source)
    requires ValidSource(p) && p.j == j && costs.Length == lengths.Length && MIN_MATCH <= from <= to <= MAX_MATCH
    requires j + to < costs.Length
    requires TablesOf(tables, p.m) && costs[j] == p.cells[p.j].cost && dCost == DistCost(p.m, dist)
    modifies costs, lengths
    ensures RunDone(p, dist, old(costs[..]), old(lengths[..]), costs[..], lengths[..], from, to)
  {
    hide ValidSource, NewCost, TablesOf, RunDone, LengthCost, DistCost;
    ghost var c0, l0 := costs[..], lengths[..];
    var basePlusDist := costs[j] + dCost;
    TablesAt(tables, p.m, from, to);
    forall k | from <= k <= to
      ensures NewCost(p, dist, k) == basePlusDist + tables.costs[k]
      ensures basePlusDist + tables.suffixMin[from] <= NewCost(p, dist, k)
    {
      TablesAt(tables, p.m, from, k);
      NewCostIs(p, dist, k);
    }
    var threshold := basePlusDist + tables.suffixMin[from];
    var first := FirstImprovableLength(costs, j, from, to, threshold);
    if first <= to {
      RelaxStatLengths(costs, lengths, j, first, to, basePlusDist, tables.costs, p, dist);
    } else {
      NothingDone(p, dist, c0, l0, to);
    }
    forall t | p.j + from <= t < p.j + first && t < |c0| ensures c0[t] <= NewCost(p, dist, t - p.j) {
      assert t - p.j <= to;
    }
    PrunedRun(p, dist, c0, l0, costs[..], lengths[..], from, first, to);
  }

  // ---- The fixed code's costs, in segments of one length symbol ----

  function FixedModel(): (m: CostModel)
    ensures |m.ll| == NUM_LL && |m.d| == NUM_D
    ensures forall s :: 0 <= s < NUM_LL ==> m.ll[s] == Inflate.FixedLL()[s] as real
  {
    CostModel(seq(NUM_LL, s requires 0 <= s < NUM_LL => Inflate.FixedLL()[s] as real), seq(NUM_D, s => 5.0))
  }

  /** Lengths with the same symbol cost the same. */
  lemma SameSymbolSameCost(m: CostModel, k: nat, k': nat)
    requires MIN_MATCH <= k <= MAX_MATCH && MIN_MATCH <= k' <= MAX_MATCH && LengthSymbol(k) == LengthSymbol(k')
    ensures LengthCost(m, k) == LengthCost(m, k')
  {
    LengthDecodes(k);
    LengthDecodes(k');
  }

  lemma FixedCosts(k: nat, dist: nat)
    requires MIN_MATCH <= k <= MAX_MATCH && 1 <= dist <= WINDOW_SIZE
    ensures LengthCost(FixedModel(), k) == LengthExtraBits(k) as real + (if LengthSymbol(k) <= 279 then 7.0 else 8.0)
    ensures DistCost(FixedModel(), dist) == ComputeDistCode(dist).extraBits as real + 5.0
  {
    LengthDecodes(k);
    DistDecodes(dist);
    hide ComputeDistCode, LengthSymbol, LengthExtraBits;
  }

  lemma FixedLiteralCost(x: byte)
    ensures FixedModel().ll[x] == if x <= 143 then 8.0 else 9.0
  {
  }

  lemma RunJoined(p: Source, dist: nat, c0: seq<real>, l0: seq<nat>, c1: seq<real>, l1: seq<nat>, c2: seq<real>,
                  l2: seq<nat>,
                  from: nat, mid: nat, to: nat)
    requires from <= mid + 1 && mid <= to
    requires RunDone(p, dist, c0, l0, c1, l1, from, mid) && RunDone(p, dist, c1, l1, c2, l2, mid + 1, to)
    ensures RunDone(p, dist, c0, l0, c2, l2, from, to)
  {
    hide ValidSource, NewCost;
    forall t | p.j + from <= t <= p.j + to && t < |c2| ensures StepRelaxed(p, dist, c0, l0, c2, l2, t) {
      if t <= p.j + mid {
        assert StepRelaxed(p, dist, c0, l0, c1, l1, t);
      } else {
        assert StepRelaxed(p, dist, c1, l1, c2, l2, t);
      }
    }
  }

  /** Relax a run under the fixed costs, one length symbol at a time. */
  method RelaxFixedLengthRanges(costs: array<real>, lengths: array<nat>, j: nat, from: nat, to: nat, dist: nat,
                                ghost p: Source)
    requires ValidSource(p) && p.m == FixedModel() && p.j == j && costs.Length == lengths.Length
    requires MIN_MATCH <= from <= to <= MAX_MATCH && j + to < costs.Length && costs[j] == p.cells[p.j].cost
    requires 1 <= dist <= WINDOW_SIZE
    modifies costs, lengths
    ensures RunDone(p, dist, old(costs[..]), old(lengths[..]), costs[..], lengths[..], from, to)
  {
    hide ValidSource, NewCost, RunDone, LengthCost, DistCost, FixedModel, LengthSymbol, ComputeDistCode,
      LengthExtraBits, LengthSymbolRunEnd;
    ghost var c0, l0 := costs[..], lengths[..];
    var baseCost := costs[j];
    var distExtraPlusFive := ComputeDistCode(dist).extraBits + 5;
    var start := from;
    NothingDone(p, dist, c0, l0, from - 1);
    while start <= to
      invariant from <= start <= to + 1
      invariant RunDone(p, dist, c0, l0, costs[..], lengths[..], from, start - 1)
      decreases 1 + to - start
    {
      var rangeEnd := Min(LengthSymbolRunEnd(start), to);
      var newCost := baseCost + (LengthExtraBits(start) + distExtraPlusFive) as real;
      if LengthSymbol(start) <= 279 {
        newCost := newCost + 7.0;
      } else {
        newCost := newCost + 8.0;
      }
      forall k | start <= k <= rangeEnd ensures NewCost(p, dist, k) == newCost {
        NewCostIs(p, dist, k);
        FixedCosts(start, dist);
        SameSymbolSameCost(p.m, k, start);
      }
      ghost var c1, l1 := costs[..], lengths[..];
      RelaxLengthSegment(costs, lengths, j, start, rangeEnd, newCost, p, dist);
      RunJoined(p, dist, c0, l0, c1, l1, costs[..], lengths[..], from, start - 1, rangeEnd);
      start := rangeEnd + 1;
    }
  }

  // ---- All runs of a match ----

  lemma ShownFacts(p: Source, costs: array<real>, lengths: array<nat>, limit: nat)
    requires Shows(p, costs, lengths, limit)
    ensures ValidSource(p) && costs.Length == lengths.Length == p.g.Size() + 1 && p.j < costs.Length
    ensures costs[p.j] == p.cells[p.j].cost
    ensures p.j < |p.g.subs| && |p.g.subs[p.j]| <= MAX_MATCH + 1 && p.j + |p.g.subs[p.j]| <= p.g.Size() + 1
  {
    hide Allowed, StepCost, ValidGraph;
    assert costs[..][p.j] == RelaxedTo(p.g, p.m, p.cells, p.j, limit)[p.j].cost;
  }

  lemma RunShown(p: Source, c0: seq<real>, l0: seq<nat>, costs: array<real>, lengths: array<nat>, from: nat, last: nat,
                 dist: nat)
    requires ValidSource(p) && Table(c0, l0, RelaxedTo(p.g, p.m, p.cells, p.j, from))
    requires RunDone(p, dist, c0, l0, costs[..], lengths[..], from, last) && from <= last
    requires SameDist(p, from, last, dist)
    ensures Shows(p, costs, lengths, last + 1)
  {
    hide *;
    PositiveStart(p, from, last, dist);
    RunRelaxed(p, c0, l0, costs[..], lengths[..], from, last, dist);
    ShowsIs(p, costs, lengths, last + 1);
  }

  lemma PositiveStart(p: Source, from: nat, last: nat, dist: nat)
    requires ValidSource(p) && SameDist(p, from, last, dist)
    ensures from >= 1 && MIN_MATCH <= from && last < |p.g.subs[p.j]| && |p.g.subs[p.j]| <= MAX_MATCH + 1
  {
    hide ValidGraph;
  }

  lemma ShowsIs(p: Source, costs: array<real>, lengths: array<nat>, limit: nat)
    requires ValidSource(p)
    ensures Shows(p, costs, lengths, limit) == Table(costs[..], lengths[..], RelaxedTo(p.g, p.m, p.cells, p.j, limit))
  {
    hide Table, RelaxedTo, ValidSource;
  }

  lemma RunDistance(p: Source, from: nat, last: nat, dist: nat)
    requires ValidSource(p) && SameDist(p, from, last, dist) && from <= last
    ensures 1 <= dist <= WINDOW_SIZE
  {
    assert ValidMatch(p.g.subs[p.j], p.g.Size() - p.j);
    assert p.g.subs[p.j][from] == dist;
  }

  /** Relax one run of lengths with the same distance. */
  method RelaxRun(fixed: bool, m: CostModel, tables: LengthTables, costs: array<real>, lengths: array<nat>, j: nat,
                  from: nat, last: nat, dist: nat, ghost p: Source)
    requires Shows(p, costs, lengths, from) && p.j == j && p.m == m && from <= last && SameDist(p, from, last, dist)
    requires if fixed then m == FixedModel() else TablesOf(tables, m)
    modifies costs, lengths
    ensures Shows(p, costs, lengths, last + 1)
  {
    hide *;
    ShownFacts(p, costs, lengths, from);
    ShowsIs(p, costs, lengths, from);
    PositiveStart(p, from, last, dist);
    RunDistance(p, from, last, dist);
    ghost var c0, l0 := costs[..], lengths[..];
    if fixed {
      RelaxFixedLengthRanges(costs, lengths, j, from, last, dist, p);
    } else {
      RelaxStatRun(costs, lengths, j, from, last, dist, DistCost(m, dist), tables, p);
    }
    RunShown(p, c0, l0, costs, lengths, from, last, dist);
  }

  lemma RunsAreSame(p: Source, runs: seq<SublenRun>, i: nat)
    requires ValidSource(p) && runs == RunsFrom(p.g.subs[p.j], MIN_MATCH) && i < |runs|
    ensures var s, r := StartOf(runs, MIN_MATCH, i), runs[i];
            && MIN_MATCH <= s <= r.end < |p.g.subs[p.j]| && SameDist(p, s, r.end, r.dist)
            && (i + 1 == |runs| <==> r.end == |p.g.subs[p.j]| - 1) && StartOf(runs, MIN_MATCH, i + 1) == r.end + 1
  {
    hide ValidGraph, RunsFrom;
    RunAt(p.g.subs[p.j], MIN_MATCH, i);
  }

  /** Literal and matches: nothing else is left to relax. */
  lemma AllShown(p: Source, costs: array<real>, lengths: array<nat>, limit: nat)
    requires Shows(p, costs, lengths, limit) && limit >= MIN_MATCH && limit >= |p.g.subs[p.j]|
    ensures Table(costs[..], lengths[..], Relaxed(p.g, p.m, p.cells, p.j))
  {
    var r, r' := RelaxedTo(p.g, p.m, p.cells, p.j, limit), Relaxed(p.g, p.m, p.cells, p.j);
    hide StepCost, ValidGraph;
    forall t | 0 <= t < |p.cells| ensures r[t] == r'[t] {}
    assert r == r';
  }

  lemma NoRuns(sub: seq<nat>)
    ensures |sub| <= MIN_MATCH ==> RunsFrom(sub, MIN_MATCH) == []
    ensures |sub| > MIN_MATCH ==> |RunsFrom(sub, MIN_MATCH)| > 0
    ensures StartOf(RunsFrom(sub, MIN_MATCH), MIN_MATCH, 0) == MIN_MATCH == 3
  {
    if |sub| > MIN_MATCH { RunsCount(sub, MIN_MATCH); }
  }

  /** Relax the runs that a complete cache holds. */
  method RelaxRuns(fixed: bool, m: CostModel, tables: LengthTables, costs: array<real>, lengths: array<nat>, j: nat,
                   runs: seq<SublenRun>, kend: nat, ghost p: Source)
    requires Shows(p, costs, lengths, MIN_MATCH) && p.j == j && p.m == m
    requires if fixed then m == FixedModel() else TablesOf(tables, m)
    requires runs == RunsFrom(p.g.subs[p.j], MIN_MATCH) && kend == Max(0, |p.g.subs[p.j]| - 1)
    modifies costs, lengths
    ensures Table(costs[..], lengths[..], Relaxed(p.g, p.m, p.cells, p.j))
  {
    hide *;
    ShownFacts(p, costs, lengths, MIN_MATCH);
    NoRuns(p.g.subs[p.j]);
    var prevLength: nat := MIN_MATCH;
    for i := 0 to |runs|
      invariant Shows(p, costs, lengths, prevLength) && prevLength == StartOf(runs, MIN_MATCH, i)
      invariant i > 0 ==> i < |runs|
    {
      RunsAreSame(p, runs, i);
      var runEnd := Min(runs[i].end, kend);
      if runEnd < prevLength {
        continue;
      }
      RelaxRun(fixed, m, tables, costs, lengths, j, prevLength, runEnd, runs[i].dist, p);
      if runEnd == kend {
        AllShown(p, costs, lengths, runEnd + 1);
        return;
      }
      prevLength := runEnd + 1;
    }
    AllShown(p, costs, lengths, prevLength);
  }

  /** Relax the runs that fit the cache's fixed-size buffers. */
  method RelaxCompact(fixed: bool, m: CostModel, tables: LengthTables, costs: array<real>, lengths: array<nat>, j: nat,
                      ends: seq<nat>, dists: seq<nat>, kend: nat, ghost p: Source)
    requires Shows(p, costs, lengths, MIN_MATCH) && p.j == j && p.m == m
    requires if fixed then m == FixedModel() else TablesOf(tables, m)
    requires kend == |p.g.subs[p.j]| - 1 && kend >= MIN_MATCH && |ends| == |dists|
    requires var runs := RunsFrom(p.g.subs[p.j], MIN_MATCH);
             0 < |runs| <= |ends| && forall i :: 0 <= i < |runs| ==> ends[i] == runs[i].end && dists[i] == runs[i].dist
    modifies costs, lengths
    ensures Table(costs[..], lengths[..], Relaxed(p.g, p.m, p.cells, p.j))
  {
    hide *;
    ShownFacts(p, costs, lengths, MIN_MATCH);
    ghost var runs := RunsFrom(p.g.subs[p.j], MIN_MATCH);
    NoRuns(p.g.subs[p.j]);
    var prevLength: nat := MIN_MATCH;
    for idx := 0 to |ends|
      invariant Shows(p, costs, lengths, prevLength) && idx < |runs| && prevLength == StartOf(runs, MIN_MATCH, idx)
    {
      RunsAreSame(p, runs, idx);
      var runEnd := Min(ends[idx], kend);
      if runEnd < prevLength {
        if runEnd == kend {
          break;
        }
        continue;
      }
      RelaxRun(fixed, m, tables, costs, lengths, j, prevLength, runEnd, dists[idx], p);
      if runEnd == kend {
        AllShown(p, costs, lengths, runEnd + 1);
        return;
      }
      prevLength := runEnd + 1;
    }
  }

  /** Relax the distances that a search has recorded. */
  method RelaxSublen(fixed: bool, m: CostModel, tables: LengthTables, costs: array<real>, lengths: array<nat>, j: nat,
                     sublen: array<nat>, kend: nat, ghost p: Source)
    requires Shows(p, costs, lengths, MIN_MATCH) && p.j == j && p.m == m
    requires if fixed then m == FixedModel() else TablesOf(tables, m)
    requires sublen != lengths && kend < sublen.Length
    requires if |p.g.subs[p.j]| == 0 then kend < MIN_MATCH
             else kend == |p.g.subs[p.j]| - 1 && forall k :: MIN_MATCH <= k <= kend ==> sublen[k] == p.g.subs[p.j][k]
    modifies costs, lengths
    ensures Table(costs[..], lengths[..], Relaxed(p.g, p.m, p.cells, p.j))
  {
    hide *;
    ShownFacts(p, costs, lengths, MIN_MATCH);
    var k: nat := MIN_MATCH;
    while k <= kend
      invariant Shows(p, costs, lengths, k) && MIN_MATCH <= k && (k <= kend + 1 || k == MIN_MATCH)
      invariant |p.g.subs[p.j]| > 0 ==> forall i :: MIN_MATCH <= i <= kend ==> sublen[i] == p.g.subs[p.j][i]
      decreases kend + 1 - k
    {
      var distValue := sublen[k];
      var runEnd := k;
      while runEnd < kend && sublen[runEnd + 1] == distValue
        invariant k <= runEnd <= kend && forall i :: k <= i <= runEnd ==> sublen[i] == distValue
      {
        runEnd := runEnd + 1;
      }
      SublenRunIs(p, sublen, k, runEnd, distValue);
      RelaxRun(fixed, m, tables, costs, lengths, j, k, runEnd, distValue, p);
      k := runEnd + 1;
    }
    AllShown(p, costs, lengths, k);
  }

  lemma SublenRunIs(p: Source, sublen: array<nat>, from: nat, last: nat, dist: nat)
    requires ValidSource(p) && MIN_MATCH <= from <= last < |p.g.subs[p.j]| && last < sublen.Length
    requires forall i :: from <= i <= last ==> sublen[i] == dist && p.g.subs[p.j][i] == sublen[i]
    ensures SameDist(p, from, last, dist)
  {
    hide ValidGraph;
  }
}

