/** Tracing the cheapest parse back, and following it to produce its tokens. */
module Path {
  import opened Prelude
  import opened Symbols
  import opened Tokens
  import opened HashChain
  import opened MatchCache
  import opened MatchFinder
  import opened ShortestPath
  import opened BlockGraph
  import opened Relax
  import opened Store
  import opened Parse
  import opened Greedy
  import opened Squeeze

  // ---- Tracing back ----

  function Reversed(s: seq<nat>): (r: seq<nat>)
    ensures |r| == |s| && forall i :: 0 <= i < |s| ==> r[i] == s[|s| - 1 - i]
  {
    seq(|s|, i requires 0 <= i < |s| => s[|s| - 1 - i])
  }

  lemma ReversedAppend(s: seq<nat>, x: nat)
    ensures Reversed(s + [x]) == [x] + Reversed(s)
  {
  }

  lemma NothingReversed(lengths: seq<nat>, n: nat)
    requires Steps(lengths, n)
    ensures n < |lengths| && Trace(lengths, n) + Reversed([]) == Trace(lengths, n)
    ensures Steps(lengths, 0) && Trace(lengths, 0) == []
  {
    hide Trace;
    TraceStep(lengths, n, 0);
  }

  /** Collect the last steps from the end, then turn their order around in place. */
  method TraceBackwards(size: nat, lengthArray: array<nat>, path0: seq<nat>) returns (path: seq<nat>)
    requires Steps(lengthArray[..], size)
    ensures path == if size == 0 then path0 else Trace(lengthArray[..], size)
  {
    hide *;
    if size == 0 {
      return path0;
    }
    path := [];
    NothingReversed(lengthArray[..], size);
    var index := size;
    while true
      invariant 0 < index <= size < lengthArray.Length && Steps(lengthArray[..], index)
      invariant Trace(lengthArray[..], index) + Reversed(path) == Trace(lengthArray[..], size)
      decreases index
    {
      TraceStep(lengthArray[..], size, index);
      var length := lengthArray[index];
      ReversedAppend(path, length);
      assert Trace(lengthArray[..], index - length) + ([length] + Reversed(path))
        == Trace(lengthArray[..], index) + Reversed(path);
      path := path + [length];
      index := index - length;
      if index == 0 {
        break;
      }
    }
    assert [] + Reversed(path) == Reversed(path);
    path := ReverseInPlace(path);
  }

  method ReverseInPlace(path0: seq<nat>) returns (path: seq<nat>)
    ensures path == Reversed(path0)
  {
    hide *;
    var n := |path0|;
    path := path0;
    for i := 0 to n / 2
      invariant |path| == n
      invariant forall k :: i <= k < n - i ==> path[k] == path0[k]
      invariant forall k :: 0 <= k < i || n - i <= k < n ==> path[k] == path0[n - 1 - k]
    {
      var j := |path| - i - 1;
      path := path[i := path[j]][j := path[i]];
    }
    IsReversed(path, path0);
  }

  lemma IsReversed(path: seq<nat>, path0: seq<nat>)
    requires |path| == |path0|
    requires forall k :: 0 <= k < |path| && k != |path| - 1 - k ==> path[k] == path0[|path| - 1 - k]
    requires |path| % 2 == 1 ==> path[|path| / 2] == path0[|path| / 2]
    ensures path == Reversed(path0)
  {
  }

  // ---- Following ----

  lemma PathStep(b: Block, j: nat, path: seq<nat>, e: nat)
    requires ValidBlock(b) && ValidPath(GraphOf(b), j, path, e) && |path| > 0
    ensures Allowed(GraphOf(b), j, path[0]) && ValidPath(GraphOf(b), j + path[0], path[1..], e)
    ensures PathTokens(GraphOf(b), j, path, e)
            == [StepToken(GraphOf(b), j, path[0])] + PathTokens(GraphOf(b), j + path[0], path[1..], e)
  {
    hide GraphOf, Allowed, StepToken;
  }

  lemma PathEnds(g: Graph, j: nat, e: nat)
    requires ValidPath(g, j, [], e)
    ensures j == e && PathTokens(g, j, [], e) == []
  {
  }

  /** What a step means: a literal, or a match with the distance recorded for its length. */
  lemma StepMeans(b: Block, i: nat, k: nat)
    requires ValidBlock(b) && b.start <= i && Allowed(GraphOf(b), i - b.start, k)
    ensures InBlock(b, i) && i + k <= b.end && k >= 1
    ensures var t := StepToken(GraphOf(b), i - b.start, k);
            && ValidToken(t) && Length(t) == k
            && (if k < MIN_MATCH then k == 1 && t == Token(b.data[i], 0)
                else
                  && k <= MatchLength(b, i) && k <= MAX_MATCH && k < |SubOf(b, i)| && t == Token(k, SubOf(b, i)[k])
                  && SubOf(b, i) == MatchOf(b, i).sub)
  {
    hide *;
    GraphValid(b);
    StepIsValid(GraphOf(b), i - b.start, k);
    AllowedIs(GraphOf(b), i - b.start, k);
    GraphSize(b);
    GraphAt(b, i - b.start);
    SubFacts(b, i, k);
    LengthFacts(b, i);
    MinMatchIs();
  }

  lemma MinMatchIs()
    ensures MIN_MATCH == 3
  {
  }

  /** The distance that the cost model used for a length: from the complete cache, or found again
      by a search that stops at this length. */
  method DistanceFor(lmc: LongestMatchCache?, h: Hash, b: Block, i: nat, length: nat, useCompleteCache: bool)
    returns (dist: nat)
    requires InBlock(b, i) && CacheFor(lmc, b) && MIN_MATCH <= length <= MatchLength(b, i) && length <= MAX_MATCH
    requires length < |MatchOf(b, i).sub|
    requires (useCompleteCache ==> Built(lmc)) && (!useCompleteCache ==> HashFor(h, b, i + 1))
    modifies if lmc == null then {} else {lmc}
    ensures CacheFor(lmc, b) && (lmc != null ==> lmc.built == old(lmc.built))
    ensures dist == MatchOf(b, i).sub[length]
  {
    hide *;
    BlockOf(b, i);
    EntryFacts(lmc, b, i);
    if useCompleteCache {
      BuiltEntries(lmc, b, i);
      var ok;
      dist, ok := lmc.CachedDistanceForLength(i - b.start, length);
    } else {
      var found;
      dist, found := FindLongestMatch(lmc, h, b, i, length, null);
      LimitedResult(b, i, length, dist, found);
    }
  }

  /** Produce the tokens of a path. */
  method FollowPath(lmc: LongestMatchCache?, b: Block, path: seq<nat>, store: LZ77Store, h: Hash)
    requires ValidBlock(b) && b.start < b.end && CacheFor(lmc, b) && h.Allocated() && store.Valid()
    requires store.data == b.data
    requires ValidPath(GraphOf(b), 0, path, b.end - b.start)
    modifies store, h, if lmc == null then {} else {lmc}
    ensures CacheFor(lmc, b) && (lmc != null ==> lmc.built == old(lmc.built)) && h.Allocated()
    ensures Appended(store, old(store.tokens), old(store.pos), b.start,
                     PathTokens(GraphOf(b), 0, path, b.end - b.start)) && store.data == b.data
  {
    hide *;
    ghost var tokens0, pos0, g, n := store.tokens, store.pos, GraphOf(b), b.end - b.start;
    NothingAppended(store, b.start);
    FollowStart(b);
    MinMatchIs();
    BuiltIs(lmc);
    var useCompleteCache := lmc != null && lmc.built;
    StartUnlessComplete(h, b, useCompleteCache);
    ghost var done := [];
    var pos := b.start;
    for k := 0 to |path|
      invariant CacheFor(lmc, b) && (lmc != null ==> lmc.built == old(lmc.built)) && h.Allocated()
      invariant b.start <= pos && ValidPath(g, pos - b.start, path[k..], n)
      invariant (!useCompleteCache ==> HashFor(h, b, pos))
      invariant Appended(store, tokens0, pos0, b.start, done) && Position(done, b.start, |done|) == pos
      invariant store.data == b.data
      invariant done + PathTokens(g, pos - b.start, path[k..], n) == PathTokens(g, 0, path, n)
    {
      var length := path[k];
      assert path[k..][0] == length && path[k..][1..] == path[k + 1..];
      PathStep(b, pos - b.start, path[k..], n);
      StepMeans(b, pos, length);
      BlockOf(b, pos);
      BuiltIs(lmc);
      InsertUnlessComplete(h, b, pos, useCompleteCache);
      ghost var t := StepToken(g, pos - b.start, length);
      if length >= MIN_MATCH {
        var dist := DistanceFor(lmc, h, b, pos, length, useCompleteCache);
        AppendToken(store, length, dist, pos, tokens0, pos0, b.start, done);
      } else {
        AppendToken(store, b.data[pos], 0, pos, tokens0, pos0, b.start, done);
      }
      assert done + ([t] + PathTokens(g, pos + length - b.start, path[k + 1..], n))
        == done + [t] + PathTokens(g, pos + length - b.start, path[k + 1..], n);
      done := done + [t];
      InsertUpTo(h, b, pos + 1, pos + length, useCompleteCache);
      pos := pos + length;
    }
    assert path[|path|..] == [];
    PathEnds(g, pos - b.start, n);
    assert done + [] == done;
  }

  lemma FollowStart(b: Block)
    requires ValidBlock(b)
    ensures Position([], b.start, 0) == b.start
  {
  }
}
