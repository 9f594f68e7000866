/** The greedy parser with one step of lookahead: a match is deferred for one byte, in case a
    better one starts there. */
module Greedy {
  import opened Prelude
  import opened Symbols
  import opened Tokens
  import opened HashChain
  import opened MatchCache
  import opened MatchFinder
  import opened Store
  import opened Parse

  /** Matches from far away count one byte less. */
  function LengthScore(length: int, distance: int): int {
    if distance > 1024 then length - 1 else length
  }

  function Score(m: Token): int {
    LengthScore(m.litlen, m.dist)
  }

  /** The longest match at a position, as a token; its length is 0 if there is none. */
  ghost function Longest(b: Block, i: nat): Token
    requires InBlock(b, i)
  {
    Token(MatchLength(b, i), if MatchLength(b, i) == 0 then 0 else MatchOf(b, i).dist)
  }

  ghost predicate MayDefer(b: Block, i: nat, m: Token) {
    && b.start < i && TokenAt(b.data, m, i - 1) && i - 1 + m.litlen <= b.end
    && MIN_MATCH <= m.litlen && m.dist > 0 && Score(m) >= MIN_MATCH
  }

  /** Before position `i`, with perhaps a match deferred at the position before. */
  ghost predicate Deferred(b: Block, i: nat, pending: Option<Token>) {
    ValidBlock(b) && b.start <= i <= b.end
    && (pending.Some? ==> MayDefer(b, i, pending.value))
  }

  function LiteralAt(data: seq<byte>, i: nat): Token
    requires i < |data|
  {
    Token(data[i], 0)
  }

  lemma LongestFits(b: Block, i: nat)
    requires InBlock(b, i) && Score(Longest(b, i)) >= MIN_MATCH
    ensures var m := Longest(b, i);
            && MIN_MATCH <= m.litlen <= MAX_MATCH && m.dist > 0 && TokenAt(b.data, m, i) && i + m.litlen <= b.end
            && Length(m) == m.litlen && m.litlen == MatchLength(b, i) && m.dist == MatchOf(b, i).dist
  {
    hide MatchOf, MatchLength;
    MatchesAreTrue(b, i, MatchLength(b, i));
    MatchIs(b, i);
  }

  lemma MatchIs(b: Block, i: nat)
    requires InBlock(b, i) && MatchLength(b, i) > 0
    ensures MatchLength(b, i) >= MIN_MATCH && MatchOf(b, i).Length() == MatchLength(b, i)
  {
    hide MatchOf;
  }

  /** What one step settles, and where the next one starts. */
  datatype Step = Step(tokens: seq<Token>, next: nat, pending: Option<Token>)

  /** A deferred match that is given up leaves a literal. */
  ghost function GivenUp(b: Block, i: nat, pending: Option<Token>): seq<Token>
    requires Deferred(b, i, pending)
  {
    if pending.Some? then [LiteralAt(b.data, i - 1)] else []
  }

  ghost function GreedyStep(b: Block, i: nat, pending: Option<Token>): (r: Step)
    requires Deferred(b, i, pending) && i < b.end
  {
    var m := Longest(b, i);
    if pending.Some? && Score(m) <= Score(pending.value) + 1 then
      Step([pending.value], i - 1 + pending.value.litlen, None)
    else if Score(m) < MIN_MATCH then Step(GivenUp(b, i, pending) + [LiteralAt(b.data, i)], i + 1, None)
    else if m.litlen < MAX_MATCH then Step(GivenUp(b, i, pending), i + 1, Some(m))
    else Step(GivenUp(b, i, pending) + [m], i + m.litlen, None)
  }

  /** Where the unsettled bytes start. */
  function Unsettled(i: nat, pending: Option<Token>): int {
    if pending.Some? then i - 1 else i
  }

  lemma StepGoesOn(b: Block, i: nat, pending: Option<Token>)
    requires Deferred(b, i, pending) && i < b.end
    ensures var r := GreedyStep(b, i, pending);
            && i < r.next && Deferred(b, r.next, r.pending)
            && 0 <= Unsettled(i, pending) <= Unsettled(r.next, r.pending)
  {
    hide Longest, Covers, TokenAt, GivenUp, Score, MatchOf, MatchLength, LiteralAt;
    if Score(Longest(b, i)) >= MIN_MATCH { LongestFits(b, i); }
  }

  /** A given-up match and one more token. */
  lemma SettledCover(b: Block, i: nat, pending: Option<Token>, t: Token)
    requires Deferred(b, i, pending) && TokenAt(b.data, t, i)
    ensures 0 <= Unsettled(i, pending)
    ensures Covers(b.data, GivenUp(b, i, pending), Unsettled(i, pending), i)
    ensures Covers(b.data, GivenUp(b, i, pending) + [t], Unsettled(i, pending), i + Length(t))
  {
    NoneCovers(b.data, i);
    if pending.Some? { OneCovers(b.data, LiteralAt(b.data, i - 1), i - 1); }
    hide Covers, TokenAt;
    CoversOneMore(b.data, GivenUp(b, i, pending), t, Unsettled(i, pending), i);
  }

  lemma PendingCovers(b: Block, i: nat, pending: Option<Token>)
    requires Deferred(b, i, pending) && pending.Some?
    ensures 0 <= i - 1 && Covers(b.data, [pending.value], i - 1, i - 1 + pending.value.litlen)
  {
    OneCovers(b.data, pending.value, i - 1);
  }

  /** Each step goes on, and its tokens describe the bytes that it settles. */
  lemma StepCovers(b: Block, i: nat, pending: Option<Token>)
    requires Deferred(b, i, pending) && i < b.end
    ensures var r := GreedyStep(b, i, pending);
            && i < r.next && Deferred(b, r.next, r.pending)
            && 0 <= Unsettled(i, pending) <= Unsettled(r.next, r.pending)
            && Covers(b.data, r.tokens, Unsettled(i, pending), Unsettled(r.next, r.pending))
  {
    StepGoesOn(b, i, pending);
    StepCoversIts(b, i, pending, GreedyStep(b, i, pending));
  }

  lemma StepCoversIts(b: Block, i: nat, pending: Option<Token>, r: Step)
    requires Deferred(b, i, pending) && i < b.end && r == GreedyStep(b, i, pending)
    requires Unsettled(i, pending) >= 0 && Unsettled(r.next, r.pending) >= 0
    ensures Covers(b.data, r.tokens, Unsettled(i, pending), Unsettled(r.next, r.pending))
  {
    hide *;
    InRange(b, i, pending);
    StepIs(b, i, pending);
    var m := Longest(b, i);
    if pending.Some? && Score(m) <= Score(pending.value) + 1 {
      PendingCovers(b, i, pending);
    } else if Score(m) < MIN_MATCH {
      OneCovers(b.data, LiteralAt(b.data, i), i);
      SettledCover(b, i, pending, LiteralAt(b.data, i));
    } else {
      LongestFits(b, i);
      SettledCover(b, i, pending, m);
    }
  }

  lemma StepIs(b: Block, i: nat, pending: Option<Token>)
    requires Deferred(b, i, pending) && i < b.end
    ensures var r, m := GreedyStep(b, i, pending), Longest(b, i);
            if pending.Some? && Score(m) <= Score(pending.value) + 1 then
              r == Step([pending.value], i - 1 + pending.value.litlen, None)
            else if Score(m) < MIN_MATCH then r == Step(GivenUp(b, i, pending) + [LiteralAt(b.data, i)], i + 1, None)
            else if m.litlen < MAX_MATCH then r == Step(GivenUp(b, i, pending), i + 1, Some(m))
            else r == Step(GivenUp(b, i, pending) + [m], i + m.litlen, None)
    ensures Unsettled(i, pending) == if pending.Some? then i - 1 else i
    ensures var r := GreedyStep(b, i, pending);
            Unsettled(r.next, r.pending) == if r.pending.Some? then r.next - 1 else r.next
  {
    hide Longest, Score, GivenUp, LiteralAt, Deferred;
  }

  lemma OneCovers(data: seq<byte>, t: Token, i: nat)
    ensures TokenAt(data, t, i) ==> Covers(data, [t], i, i + Length(t))
    ensures i < |data| && t == LiteralAt(data, i) ==> TokenAt(data, t, i) && Length(t) == 1
  {
    if TokenAt(data, t, i) { NoneCovers(data, i + Length(t)); }
  }

  lemma NoneCovers(data: seq<byte>, i: nat)
    ensures Covers(data, [], i, i)
  {
  }

  /** The tokens that the greedy parser produces from position `i` on. */
  ghost function GreedyFrom(b: Block, i: nat, pending: Option<Token>): seq<Token>
    requires Deferred(b, i, pending)
    decreases b.end - i
  {
    if i >= b.end then []
    else
      StepCovers(b, i, pending);
      GreedyStep(b, i, pending).tokens
        + GreedyFrom(b, GreedyStep(b, i, pending).next, GreedyStep(b, i, pending).pending)
  }

  /** The greedy parse of a block. */
  ghost function GreedyTokens(b: Block): seq<Token>
    requires ValidBlock(b)
  {
    GreedyFrom(b, b.start, None)
  }

  /** No match is deferred beyond the end of the block. */
  lemma NeverPendingAtEnd(b: Block, i: nat, pending: Option<Token>)
    requires Deferred(b, i, pending) && i == b.end
    ensures pending.None?
  {
  }

  /** The greedy parse is lossless: the tokens describe exactly the rest of the block. */
  lemma {:induction false} GreedyCovers(b: Block, i: nat, pending: Option<Token>)
    requires Deferred(b, i, pending)
    ensures 0 <= Unsettled(i, pending) && Covers(b.data, GreedyFrom(b, i, pending), Unsettled(i, pending), b.end)
    decreases b.end - i
  {
    hide Deferred, GreedyStep, Covers;
    InRange(b, i, pending);
    if i == b.end {
      NeverPendingAtEnd(b, i, pending);
      NoneCovers(b.data, i);
    } else {
      StepCovers(b, i, pending);
      var r := GreedyStep(b, i, pending);
      GreedyCovers(b, r.next, r.pending);
      CoversAppend(b.data, r.tokens, GreedyFrom(b, r.next, r.pending), Unsettled(i, pending),
                   Unsettled(r.next, r.pending), b.end);
    }
  }

  lemma InRange(b: Block, i: nat, pending: Option<Token>)
    requires Deferred(b, i, pending)
    ensures ValidBlock(b) && b.start <= i <= b.end <= |b.data|
    ensures i < b.end ==> InBlock(b, i)
  {
  }

  // ---- The parser ----

  ghost predicate Built(lmc: LongestMatchCache?)
    reads lmc
  {
    lmc != null && lmc.built
  }

  /** What scores as a match is the position's longest match, wherever it comes from. */
  lemma ScoreIs(b: Block, i: nat, dist: nat, length: nat)
    requires InBlock(b, i) && IsResult(b, i, MAX_MATCH, dist, length)
    ensures var s, m := LengthScore(length, dist), Longest(b, i);
            && (s >= MIN_MATCH <==> Score(m) >= MIN_MATCH)
            && (s >= MIN_MATCH ==> m == Token(length, dist) && s == Score(m))
  {
    FullResult(b, i, dist, length);
    hide MatchOf, MatchLength, IsResult;
  }

  lemma MayDeferIs(b: Block, i: nat, pending: Option<Token>)
    requires Deferred(b, i, pending) && pending.Some?
    ensures MayDefer(b, i, pending.value) && b.start < i && ValidToken(pending.value)
    ensures pending.value.litlen >= MIN_MATCH
    ensures Length(pending.value) == pending.value.litlen && Score(pending.value) >= MIN_MATCH
  {
  }

  /** Settle what the match at position `i` decides: the body of the parser's loop. */
  method TakeStep(store: LZ77Store, b: Block, i: nat, length: nat, dist: nat,
                  matchAvailable: bool, prevLength: nat, prevMatch: nat,
                  ghost pending: Option<Token>, ghost tokens0: seq<Token>, ghost pos0: seq<nat>, ghost a: nat,
                    ghost done: seq<Token>)
    returns (matchAvailable': bool, prevLength': nat, prevMatch': nat, next: nat)
    requires Deferred(b, i, pending) && i < b.end && IsResult(b, i, MAX_MATCH, dist, length)
    requires pending == if matchAvailable then Some(Token(prevLength, prevMatch)) else None
    requires Appended(store, tokens0, pos0, a, done) && Position(done, a, |done|) == Unsettled(i, pending)
    requires store.data == b.data
    modifies store
    ensures var r := GreedyStep(b, i, pending);
            && next == r.next && r.pending == (if matchAvailable' then Some(Token(prevLength', prevMatch')) else None)
            && Appended(store, tokens0, pos0, a, done + r.tokens) && store.data == b.data
            && Position(done + r.tokens, a, |done + r.tokens|) == Unsettled(next, r.pending)
  {
    hide *;
    InRange(b, i, pending);
    ScoreIs(b, i, dist, length);
    StepIs(b, i, pending);
    if pending.Some? { MayDeferIs(b, i, pending); }
    matchAvailable', prevLength', prevMatch' := false, prevLength, prevMatch;
    var lengthScore := LengthScore(length, dist);
    var prevLengthScore := LengthScore(prevLength, prevMatch);
    ghost var now := done;
    if matchAvailable {
      ScoreOf(prevLength, prevMatch);
      if lengthScore > prevLengthScore + 1 {
        LiteralFits(b.data, i - 1);
        AppendToken(store, b.data[i - 1], 0, i - 1, tokens0, pos0, a, done);
        now := done + [LiteralAt(b.data, i - 1)];
      } else {
        AppendToken(store, prevLength, prevMatch, i - 1, tokens0, pos0, a, done);
        next := i - 1 + prevLength;
        return;
      }
    }
    assert now == done + GivenUp(b, i, pending) by { GivenUpIs(b, i, pending); }
    if lengthScore >= MIN_MATCH && length < MAX_MATCH {
      return true, length, dist, i + 1;
    }
    if lengthScore >= MIN_MATCH {
      LongestFits(b, i);
      TokenFits(b.data, Token(length, dist), i);
      AppendToken(store, length, dist, i, tokens0, pos0, a, now);
      next := i + length;
      assert now + [Token(length, dist)] == done + (GivenUp(b, i, pending) + [Token(length, dist)]);
    } else {
      LiteralFits(b.data, i);
      AppendToken(store, b.data[i], 0, i, tokens0, pos0, a, now);
      next := i + 1;
      assert now + [LiteralAt(b.data, i)] == done + (GivenUp(b, i, pending) + [LiteralAt(b.data, i)]);
    }
  }

  lemma ScoreOf(length: nat, dist: nat)
    ensures Score(Token(length, dist)) == LengthScore(length, dist)
    ensures MIN_MATCH == 3
  {
  }

  lemma GivenUpIs(b: Block, i: nat, pending: Option<Token>)
    requires Deferred(b, i, pending)
    ensures GivenUp(b, i, pending) == if pending.Some? then [LiteralAt(b.data, i - 1)] else []
  {
  }

  lemma LiteralFits(data: seq<byte>, i: nat)
    requires i < |data|
    ensures LiteralAt(data, i) == Token(data[i], 0) && ValidToken(Token(data[i], 0)) && Length(Token(data[i], 0)) == 1
  {
  }

  lemma TokenFits(data: seq<byte>, t: Token, i: nat)
    requires TokenAt(data, t, i)
    ensures ValidToken(t)
  {
  }

  method CachedMatch(lmc: LongestMatchCache, b: Block, i: nat) returns (dist: nat, length: nat)
    requires InBlock(b, i) && CacheFor(lmc, b) && i - b.start < |lmc.length| && lmc.EntryComplete(i - b.start)
    ensures IsResult(b, i, MAX_MATCH, dist, length)
  {
    hide *;
    BlockOf(b, i);
    EntryFacts(lmc, b, i);
    var same, ok;
    dist, length, same, ok := lmc.CachedLongestMatch(i - b.start);
    FullResult(b, i, dist, length);
  }

  /** The match at a position: from the complete cache, or by a search after the insertion. */
  method LookUp(lmc: LongestMatchCache?, h: Hash, b: Block, i: nat, useCompleteCache: bool, sublen: array?<nat>)
    returns (dist: nat, length: nat)
    requires InBlock(b, i) && CacheFor(lmc, b) && (useCompleteCache ==> Built(lmc))
    requires (!useCompleteCache ==> HashFor(h, b, i))
    requires h.Allocated() && (sublen != null ==> sublen.Length == MAX_MATCH + 1)
    modifies h, if lmc == null then {} else {lmc}, if sublen == null then {} else {sublen}
    ensures CacheFor(lmc, b) && (lmc != null ==> lmc.built == old(lmc.built))
    ensures h.Allocated() && (!useCompleteCache ==> HashFor(h, b, i + 1))
    ensures IsResult(b, i, MAX_MATCH, dist, length)
  {
    hide *;
    if useCompleteCache {
      BuiltEntries(lmc, b, i);
      dist, length := CachedMatch(lmc, b, i);
    } else {
      BlockOf(b, i);
      InsertNext(h, b, i);
      HashForIs(h, b, i + 1);
      dist, length := FindLongestMatch(lmc, h, b, i, MAX_MATCH, sublen);
    }
  }

  lemma BuiltEntries(lmc: LongestMatchCache?, b: Block, i: nat)
    requires CacheFor(lmc, b) && InBlock(b, i)
    ensures Built(lmc) ==> lmc != null && i - b.start < |lmc.length| && lmc.EntryComplete(i - b.start)
    ensures MIN_MATCH > 0
  {
    hide Entries;
    if lmc != null { CacheEntries(lmc, b); }
  }

  lemma AtStart(b: Block)
    requires ValidBlock(b)
    ensures Deferred(b, b.start, None) && Unsettled(b.start, None) == b.start <= b.end
    ensures Position([], b.start, 0) == b.start
    ensures b.start == b.end ==> GreedyFrom(b, b.start, None) == []
    ensures [] + GreedyFrom(b, b.start, None) == GreedyFrom(b, b.start, None)
  {
  }

  lemma BuiltIs(lmc: LongestMatchCache?)
    ensures Built(lmc) == (lmc != null && lmc.built) && MAX_MATCH + 1 == 259
  {
  }

  lemma GreedyNext(b: Block, i: nat, pending: Option<Token>)
    requires Deferred(b, i, pending) && i < b.end
    ensures var r := GreedyStep(b, i, pending);
            && Deferred(b, r.next, r.pending)
            && GreedyFrom(b, i, pending) == r.tokens + GreedyFrom(b, r.next, r.pending)
  {
    StepCovers(b, i, pending);
    hide GreedyStep, Deferred;
  }

  /** Insert the positions that the tokens skip. */
  method InsertUpTo(h: Hash, b: Block, i: nat, next: nat, useCompleteCache: bool)
    requires h.Allocated() && i <= next <= b.end && (!useCompleteCache ==> HashFor(h, b, i))
    modifies h
    ensures h.Allocated() && (!useCompleteCache ==> HashFor(h, b, next))
  {
    hide *;
    if !useCompleteCache {
      for j := i to next
        invariant h.Allocated() && HashFor(h, b, j)
      {
        InsertNext(h, b, j);
        HashForIs(h, b, j + 1);
      }
    }
  }

  /** The greedy parse of a block, the same with a complete, a partial or no cache. */
  method Lz77Greedy(lmc: LongestMatchCache?, b: Block, store: LZ77Store, h: Hash)
    requires ValidBlock(b) && CacheFor(lmc, b) && store.Valid() && store.data == b.data
    requires h.Allocated()
    modifies store, h, if lmc == null then {} else {lmc}
    ensures CacheFor(lmc, b) && (lmc != null ==> lmc.built == old(lmc.built)) && h.Allocated()
    ensures Appended(store, old(store.tokens), old(store.pos), b.start, GreedyFrom(b, b.start, None))
    ensures store.data == b.data
  {
    hide *;
    ghost var tokens0, pos0 := store.tokens, store.pos;
    AtStart(b);
    NothingAppended(store, b.start);
    ghost var done, pending := [], None;
    if b.start == b.end {
      return;
    }
    var useCompleteCache := lmc != null && lmc.built;
    BuiltIs(lmc);
    if !useCompleteCache {
      StartHash(h, b);
    }
    var prevLength, prevMatch, matchAvailable := 0, 0, false;
    var sublen := new nat[MAX_MATCH + 1](_ => 0);
    var cacheSublen: array?<nat> := null;
    if lmc != null && !useCompleteCache {
      cacheSublen := sublen;
    }
    var i := b.start;
    while i < b.end
      invariant Deferred(b, i, pending)
      invariant pending == if matchAvailable then Some(Token(prevLength, prevMatch)) else None
      invariant CacheFor(lmc, b) && (lmc != null ==> lmc.built == old(lmc.built)) && h.Allocated()
      invariant !useCompleteCache ==> HashFor(h, b, i)
      invariant Appended(store, tokens0, pos0, b.start, done) && store.data == b.data
      invariant Position(done, b.start, |done|) == Unsettled(i, pending)
      invariant done + GreedyFrom(b, i, pending) == GreedyFrom(b, b.start, None)
      invariant i <= b.end
      decreases b.end - i
    {
      InRange(b, i, pending);
      BuiltIs(lmc);
      var dist, length := LookUp(lmc, h, b, i, useCompleteCache, cacheSublen);
      ghost var r := GreedyStep(b, i, pending);
      StepCovers(b, i, pending);
      GreedyNext(b, i, pending);
      var next;
      matchAvailable, prevLength, prevMatch, next :=
        TakeStep(store, b, i, length, dist, matchAvailable, prevLength, prevMatch, pending, tokens0, pos0, b.start,
                 done);
      assert done + (r.tokens + GreedyFrom(b, r.next, r.pending)) == done + r.tokens + GreedyFrom(b, r.next, r.pending);
      done, pending := done + r.tokens, r.pending;
      InRange(b, next, pending);
      InsertUpTo(h, b, i + 1, next, useCompleteCache);
      i := next;
    }
    AtEnd(b, i, pending, done);
  }

  lemma AtEnd(b: Block, i: nat, pending: Option<Token>, done: seq<Token>)
    requires Deferred(b, i, pending) && i >= b.end
    ensures done + GreedyFrom(b, i, pending) == done
  {
  }
}
