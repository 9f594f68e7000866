/** What the shortcut does: from the bytes it passes over, nothing but longest matches start. */
module Shortcut {
  import opened Prelude
  import opened Symbols
  import opened HashChain
  import opened MatchFinder
  import opened ShortestPath
  import opened BlockGraph
  import opened Squeeze

  /** The last step to byte `t`, if there is one, does not start at the bytes from `j` on that the shortcut
      passes over, unless it is the longest match. */
  ghost predicate PassedOver(cells: seq<Cell>, j: nat, t: nat)
    requires t < |cells|
  {
    var k := cells[t].length;
    0 < k <= t && j <= t - k < j + MAX_MATCH ==> k == MAX_MATCH
  }

  ghost predicate AllPassed(cells: seq<Cell>, j: nat) {
    forall t :: 0 <= t < |cells| ==> PassedOver(cells, j, t)
  }

  /** Relaxing from another byte, or jumping, keeps it. */
  lemma RelaxedPassed(g: Graph, m: CostModel, cells: seq<Cell>, q: nat, j: nat)
    requires q < |cells| && AllPassed(cells, j) && (q < j || j + MAX_MATCH <= q)
    ensures AllPassed(Relaxed(g, m, cells, q), j)
  {
    var r := Relaxed(g, m, cells, q);
    hide Relaxed, Allowed, StepCost;
    forall t | 0 <= t < |r| ensures PassedOver(r, j, t) {
      RelaxedCellIs(g, m, cells, q, t);
      assert PassedOver(cells, j, t);
    }
  }

  lemma JumpedPassed(m: CostModel, cells: seq<Cell>, q: nat, j: nat)
    requires AllPassed(cells, j)
    ensures AllPassed(Jumped(m, cells, q, MAX_MATCH), j)
  {
    var r := Jumped(m, cells, q, MAX_MATCH);
    hide JumpCost;
    forall t | 0 <= t < |r| ensures PassedOver(r, j, t) {
      assert PassedOver(cells, j, t);
    }
  }

  /** Before byte `q`, nothing starts later. */
  lemma {:induction false} RestPasses(g: Graph, m: CostModel, cells: seq<Cell>, q: nat, j: nat)
    requires |cells| == g.Size() + 1 && q <= g.Size() && ValidGraph(g) && AllPassed(cells, j)
    requires j < |g.long| && g.long[j] && (q <= j || j + MAX_MATCH < q)
    requires forall i :: q <= i < j ==> !g.long[i]
    ensures AllPassed(StatFrom(g, m, cells, q), j)
    decreases g.Size() - q
  {
    hide AllPassed, Relaxed, Jumped, InRun, ValidMatch;
    if q < g.Size() {
      if g.long[q] {
        assert InRun(g, q);
        InRunEnds(g, q);
        var cells' := Jumped(m, cells, q, MAX_MATCH);
        JumpedPassed(m, cells, q, j);
        RelaxedPassed(g, m, cells', q + MAX_MATCH, j);
        RestPasses(g, m, Relaxed(g, m, cells', q + MAX_MATCH), q + MAX_MATCH + 1, j);
      } else {
        RelaxedPassed(g, m, cells, q, j);
        RestPasses(g, m, Relaxed(g, m, cells, q), q + 1, j);
      }
    }
  }

  lemma InRunEnds(g: Graph, j: nat)
    requires InRun(g, j)
    ensures j + MAX_MATCH * 2 < |g.subs|
  {
    hide OneBack;
  }

  lemma FreshPassed(n: nat, j: nat)
    ensures AllPassed(Fresh(n), j)
  {
  }

  lemma LongIs(b: Block, j: nat)
    requires ValidBlock(b) && j < b.end - b.start
    ensures InBlock(b, b.start + j) && |GraphOf(b).long| == b.end - b.start
    ensures GraphOf(b).long[j] == InLongRun(b, b.start + j)
  {
    hide GraphOf, InLongRun;
    GraphAt(b, j);
  }

  lemma PassedAt(cells: seq<Cell>, j: nat, t: nat)
    requires AllPassed(cells, j) && t < |cells|
    ensures var k := cells[t].length; 0 < k <= t && j <= t - k < j + MAX_MATCH ==> k == MAX_MATCH
  {
    assert PassedOver(cells, j, t);
  }

  lemma FirstLongRun(b: Block, j: nat)
    requires ValidBlock(b) && j < b.end - b.start && InBlock(b, b.start + j) && InLongRun(b, b.start + j)
    requires forall q :: b.start <= q < b.start + j ==> InBlock(b, q) && !InLongRun(b, q)
    ensures j < |GraphOf(b).long| && GraphOf(b).long[j] && forall i :: 0 <= i < j ==> !GraphOf(b).long[i]
  {
    hide GraphOf, InLongRun, InBlock;
    LongIs(b, j);
    forall i | 0 <= i < j ensures !GraphOf(b).long[i] {
      LongIs(b, i);
      assert !InLongRun(b, b.start + i);
    }
  }

  /** From the first byte at which more than 516 equal bytes follow, 258 bytes before which more than 258
      do, and which is not too near to the ends of the block, up to 258 bytes on: no step of the table
      starts there but those of the longest matches, whatever the costs. */
  lemma OnlyLongestStart(b: Block, m: CostModel, i: nat, t: nat)
    requires InBlock(b, i) && i > b.start + 259 && i + 517 < b.end
    requires RunLength(b.data, i, b.end) > 516 && RunLength(b.data, i - 258, b.end) > 258
    requires forall q :: b.start <= q < i ==> InBlock(b, q) && !InLongRun(b, q)
    requires t <= b.end - b.start
    ensures |StatCells(b, m)| == b.end - b.start + 1
    ensures var k := StatCells(b, m)[t].length; 0 < k <= t && i <= b.start + t - k < i + 258 ==> k == 258
  {
    hide StatCells, GraphOf, StatFrom, RunLength;
    assert InLongRun(b, i);
    hide *;
    InBlockIs(b, i);
    StatStart(b, m);
    FirstLongRun(b, i - b.start);
    FreshPassed(b.end - b.start, i - b.start);
    RestPasses(GraphOf(b), m, Fresh(b.end - b.start), 0, i - b.start);
    PassedAt(StatCells(b, m), i - b.start, t);
  }

  lemma InBlockIs(b: Block, i: nat)
    requires InBlock(b, i)
    ensures ValidBlock(b) && b.start <= i < b.end && MAX_MATCH == 258
  {
  }
}
