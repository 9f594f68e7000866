/** The graph of parses of a block: its matches are true, so every path is a lossless parse. */
module BlockGraph {
  import opened Prelude
  import opened Symbols
  import opened Tokens
  import opened HashChain
  import opened MatchSearch
  import opened MatchFinder
  import opened LongRuns
  import opened ShortestPath

  /** In the middle of a very long run of one byte: there the shortcut is taken. */
  ghost predicate InLongRun(b: Block, i: nat)
    requires InBlock(b, i)
  {
    && i > b.start + MAX_MATCH + 1 && i + MAX_MATCH * 2 + 1 < b.end
    && RunLength(b.data, i, b.end) > MAX_MATCH * 2 && RunLength(b.data, i - MAX_MATCH, b.end) > MAX_MATCH
  }

  ghost function SubOf(b: Block, i: nat): seq<nat>
    requires InBlock(b, i)
  {
    if MatchLength(b, i) == 0 then [] else MatchOf(b, i).sub
  }

  ghost function Subs(b: Block): seq<seq<nat>>
    requires ValidBlock(b)
  {
    seq(b.end - b.start, j requires 0 <= j < b.end - b.start => SubOf(b, b.start + j))
  }

  ghost function Longs(b: Block): seq<bool>
    requires ValidBlock(b)
  {
    seq(b.end - b.start, j requires 0 <= j < b.end - b.start => InLongRun(b, b.start + j))
  }

  ghost function GraphOf(b: Block): Graph
    requires ValidBlock(b)
  {
    Graph(b.data[b.start..b.end], Subs(b), Longs(b))
  }

  lemma GraphSize(b: Block)
    requires ValidBlock(b)
    ensures var g := GraphOf(b); |g.lits| == |g.subs| == |g.long| == g.Size() == b.end - b.start
  {
    hide SubOf, InLongRun;
  }

  lemma GraphAt(b: Block, j: nat)
    requires ValidBlock(b) && j < b.end - b.start
    ensures InBlock(b, b.start + j)
    ensures var g := GraphOf(b);
            && |g.lits| == |g.subs| == |g.long| == b.end - b.start
            && g.lits[j] == b.data[b.start + j] && g.subs[j] == SubOf(b, b.start + j)
            && g.long[j] == InLongRun(b, b.start + j)
  {
    hide SubOf, InLongRun;
  }

  lemma SubFacts(b: Block, i: nat, k: nat)
    requires InBlock(b, i)
    ensures |SubOf(b, i)| == if MatchLength(b, i) == 0 then 0 else MatchLength(b, i) + 1
    ensures MatchLength(b, i) <= MAX_MATCH && i + MatchLength(b, i) <= b.end
    ensures MIN_MATCH <= k < |SubOf(b, i)| ==>
              && 1 <= SubOf(b, i)[k] < WINDOW_SIZE && SubOf(b, i)[k] <= i && MatchAt(b.data, i, SubOf(b, i)[k], k)
              && SubOf(b, i) == MatchOf(b, i).sub
  {
    LengthFacts(b, i);
    hide MatchOf, MatchLength, MatchAt, InBlock;
    if MatchLength(b, i) > 0 {
      MatchesAreTrue(b, i, MatchLength(b, i));
      if MIN_MATCH <= k <= MatchLength(b, i) { MatchesAreTrue(b, i, k); }
    }
  }

  lemma LengthFacts(b: Block, i: nat)
    requires InBlock(b, i)
    ensures i < b.end && MIN_MATCH > 0
    ensures MatchLength(b, i) > 0 ==> MatchLength(b, i) >= MIN_MATCH && |MatchOf(b, i).sub| == MatchLength(b, i) + 1
  {
    hide MatchOf;
  }

  lemma SubValid(b: Block, i: nat)
    requires InBlock(b, i)
    ensures ValidMatch(SubOf(b, i), b.end - i)
  {
    SubFacts(b, i, 0);
    LengthFacts(b, i);
    hide SubOf, MatchLength, MatchOf, MatchAt, InBlock;
    forall k | MIN_MATCH <= k < |SubOf(b, i)| ensures 1 <= SubOf(b, i)[k] <= WINDOW_SIZE { SubFacts(b, i, k); }
  }

  /** The bytes around a place in a long run are equal. */
  lemma LongRunEqual(b: Block, i: nat, q: nat)
    requires InBlock(b, i) && InLongRun(b, i) && i - 2 <= q < i + MAX_MATCH
    ensures InBlock(b, q) && b.start + 3 <= q && q + MAX_MATCH <= b.end && AllEqual(b.data, q - 1, q + MAX_MATCH - 1)
  {
    assert b.data[i] == b.data[i - MAX_MATCH];
  }

  lemma LongRunOneBack(b: Block, i: nat, q: nat)
    requires InBlock(b, i) && InLongRun(b, i) && i - 2 <= q < i + MAX_MATCH
    ensures InBlock(b, q) && OneBack(SubOf(b, q))
  {
    hide RunLength, MatchOf, MatchLength, AllEqual;
    LongRunEqual(b, i, q);
    RunMatch(b, q);
  }

  lemma LongRunInside(b: Block, i: nat)
    requires InBlock(b, i) && InLongRun(b, i)
    ensures b.start + 2 <= i && i + MAX_MATCH * 2 < b.end
  {
  }

  /** Within the shortcut's reach every match is the longest possible, one byte back. */
  lemma GraphInRun(b: Block, j: nat)
    requires ValidBlock(b) && j < b.end - b.start && InLongRunAt(b, j)
    ensures InRun(GraphOf(b), j)
  {
    hide GraphOf, SubOf, InLongRun, InBlock, OneBack;
    GraphAt(b, j);
    LongRunInside(b, b.start + j);
    forall q | j - 2 <= q < j + MAX_MATCH ensures OneBack(GraphOf(b).subs[q]) {
      LongRunOneBack(b, b.start + j, b.start + q);
      GraphAt(b, q);
    }
  }

  ghost predicate InLongRunAt(b: Block, j: nat)
    requires ValidBlock(b) && j < b.end - b.start
  {
    GraphAt(b, j);
    GraphOf(b).long[j]
  }

  lemma GraphValid(b: Block)
    requires ValidBlock(b)
    ensures ValidGraph(GraphOf(b)) && GraphOf(b).Size() == b.end - b.start
  {
    hide GraphOf, SubOf, InLongRun, InBlock, ValidMatch, InRun, ValidBlock, Graph.Size;
    var g := GraphOf(b);
    GraphSize(b);
    forall j | 0 <= j < |g.subs| ensures ValidMatch(g.subs[j], g.Size() - j) {
      GraphAt(b, j);
      SubValid(b, b.start + j);
    }
    forall j | 0 <= j < |g.long| && g.long[j] ensures InRun(g, j) { GraphInRun(b, j); }
  }

  lemma AllowedIs(g: Graph, j: nat, k: nat)
    requires Allowed(g, j, k)
    ensures j < |g.lits| == |g.subs|
    ensures if k == 1 then StepToken(g, j, k) == Token(g.lits[j], 0)
            else MIN_MATCH <= k < |g.subs[j]| && StepToken(g, j, k) == Token(k, g.subs[j][k])
  {
  }

  /** A step stands for exactly the bytes that it leads over. */
  lemma StepIsTrue(b: Block, j: nat, k: nat)
    requires ValidBlock(b) && Allowed(GraphOf(b), j, k)
    ensures TokenAt(b.data, StepToken(GraphOf(b), j, k), b.start + j) && Length(StepToken(GraphOf(b), j, k)) == k
  {
    hide *;
    GraphSize(b);
    AllowedIs(GraphOf(b), j, k);
    GraphAt(b, j);
    SubFacts(b, b.start + j, k);
    LengthFacts(b, b.start + j);
    TokenIs(b.data, StepToken(GraphOf(b), j, k), b.start + j);
    BlockOf(b, b.start + j);
  }

  lemma TokenIs(data: seq<byte>, t: Token, i: nat)
    ensures i < |data| && t == Token(data[i], 0) ==> TokenAt(data, t, i) && Length(t) == 1
    ensures 1 <= t.dist <= WINDOW_SIZE && t.dist <= i && MIN_MATCH <= t.litlen <= MAX_MATCH
            && MatchAt(data, i, t.dist, t.litlen) ==>
              TokenAt(data, t, i) && Length(t) == t.litlen
  {
  }

  /** Every path is a lossless parse. */
  lemma {:induction false} PathCovers(b: Block, j: nat, path: seq<nat>, e: nat)
    requires ValidBlock(b) && ValidPath(GraphOf(b), j, path, e)
    ensures Covers(b.data, PathTokens(GraphOf(b), j, path, e), b.start + j, b.start + e)
    decreases |path|
  {
    hide GraphOf, Allowed, StepToken, TokenAt;
    if |path| > 0 {
      StepIsTrue(b, j, path[0]);
      PathCovers(b, j + path[0], path[1..], e);
      assert PathTokens(GraphOf(b), j, path, e)[1..] == PathTokens(GraphOf(b), j + path[0], path[1..], e);
    }
  }
}
