/** What the greedy parser chooses at each byte, said without the parser: the choice depends only on the
    longest matches at that byte and at the next one. */
module GreedyChoice {
  import opened Prelude
  import opened Symbols
  import opened Tokens
  import opened MatchFinder
  import opened Greedy

  /** The match is worth its token: three bytes from at most 1024 bytes back, or four from anywhere. */
  predicate Worth(m: Token) {
    if m.dist <= 1024 then m.litlen >= 3 else m.litlen >= 4
  }

  /** The match one byte later is longer by two bytes at least, by three if it alone is from more than
      1024 bytes back, and by one if it alone is not. */
  predicate Better(later: Token, m: Token) {
    if later.dist > 1024 && m.dist <= 1024 then later.litlen >= m.litlen + 3
    else if later.dist <= 1024 && m.dist > 1024 then later.litlen >= m.litlen + 1
    else later.litlen >= m.litlen + 2
  }

  /** The match at byte `i` is taken: it is worth it, and it has the greatest length there is or the one
      at the next byte is no better. */
  ghost predicate Takes(b: Block, i: nat)
    requires InBlock(b, i)
  {
    && Worth(Longest(b, i))
    && (Longest(b, i).litlen == MAX_MATCH || (i + 1 < b.end ==> !Better(Longest(b, i + 1), Longest(b, i))))
  }

  ghost function ChoiceAt(b: Block, i: nat): Token
    requires InBlock(b, i)
  {
    if Takes(b, i) then Longest(b, i) else Token(b.data[i], 0)
  }

  /** Every token, the first of them at byte `a`, is the choice at its byte; they end at byte `z`. */
  ghost predicate Chosen(b: Block, ts: seq<Token>, a: nat, z: nat) {
    if |ts| == 0 then a == z
    else InBlock(b, a) && ts[0] == ChoiceAt(b, a) && Chosen(b, ts[1..], a + Length(ts[0]), z)
  }

  lemma {:induction false} ChosenAppend(b: Block, ts: seq<Token>, us: seq<Token>, a: nat, m: nat, z: nat)
    requires Chosen(b, ts, a, m) && Chosen(b, us, m, z)
    ensures Chosen(b, ts + us, a, z)
    decreases |ts|
  {
    hide ChoiceAt;
    if |ts| == 0 {
      assert ts + us == us;
    } else {
      ChosenAppend(b, ts[1..], us, a + Length(ts[0]), m, z);
      assert (ts + us)[1..] == ts[1..] + us;
    }
  }

  lemma OneChosen(b: Block, i: nat)
    requires InBlock(b, i)
    ensures Chosen(b, [ChoiceAt(b, i)], i, i + Length(ChoiceAt(b, i)))
  {
    hide ChoiceAt;
    NoneChosen(b, i + Length(ChoiceAt(b, i)));
  }

  lemma NoneChosen(b: Block, i: nat)
    ensures Chosen(b, [], i, i)
  {
  }

  /** A deferred match is the longest one at the byte before. */
  ghost predicate Pends(b: Block, i: nat, pending: Option<Token>)
    requires Deferred(b, i, pending)
  {
    pending.Some? ==> pending.value == Longest(b, i - 1) && pending.value.litlen < MAX_MATCH
  }

  lemma ScoresAre(m: Token, later: Token)
    ensures Score(m) >= MIN_MATCH <==> Worth(m)
    ensures Score(later) > Score(m) + 1 <==> Better(later, m)
  {
  }

  /** The choice at a byte where no better match follows, where one does, and where there is none. */
  lemma ChoiceIs(b: Block, i: nat)
    requires InBlock(b, i)
    ensures !Worth(Longest(b, i)) ==> ChoiceAt(b, i) == LiteralAt(b.data, i)
    ensures Worth(Longest(b, i)) && Longest(b, i).litlen == MAX_MATCH ==> ChoiceAt(b, i) == Longest(b, i)
    ensures Worth(Longest(b, i)) && i + 1 < b.end ==>
              var m, later := Longest(b, i), Longest(b, i + 1);
              && (!Better(later, m) ==> ChoiceAt(b, i) == m)
              && (Better(later, m) && m.litlen < MAX_MATCH ==> ChoiceAt(b, i) == LiteralAt(b.data, i))
  {
    hide Worth, Better, Longest;
  }

  lemma PendsIs(b: Block, i: nat, pending: Option<Token>)
    requires Deferred(b, i, pending) && Pends(b, i, pending) && pending.Some?
    ensures b.start < i && InBlock(b, i - 1) && pending.value == Longest(b, i - 1)
    ensures Worth(Longest(b, i - 1)) && pending.value.litlen < MAX_MATCH && Score(pending.value) >= MIN_MATCH
    ensures Length(pending.value) == pending.value.litlen && Length(LiteralAt(b.data, i - 1)) == 1
  {
    hide Longest;
    ScoresAre(pending.value, pending.value);
  }

  lemma PendsWhen(b: Block, i: nat, m: Token)
    requires InBlock(b, i) && Deferred(b, i + 1, Some(m)) && m == Longest(b, i) && m.litlen < MAX_MATCH
    ensures Pends(b, i + 1, Some(m))
  {
    hide Longest, Deferred;
  }

  lemma NonePends(b: Block, i: nat)
    requires Deferred(b, i, None)
    ensures Pends(b, i, None)
  {
    hide Deferred;
  }

  lemma GivenUpChosen(b: Block, i: nat, pending: Option<Token>)
    requires Deferred(b, i, pending) && i < b.end && Pends(b, i, pending) && InBlock(b, i) && Unsettled(i, pending) >= 0
    requires pending.Some? ==> Better(Longest(b, i), pending.value)
    ensures Chosen(b, GivenUp(b, i, pending), Unsettled(i, pending), i)
  {
    hide *;
    GivenUpIs(b, i, pending);
    StepIs(b, i, pending);
    if pending.Some? {
      PendsIs(b, i, pending);
      ChoiceIs(b, i - 1);
      OneChosen(b, i - 1);
    } else {
      NoneChosen(b, i);
    }
  }

  lemma SettledChosen(b: Block, i: nat, pending: Option<Token>)
    requires Deferred(b, i, pending) && i < b.end && Pends(b, i, pending) && InBlock(b, i) && Unsettled(i, pending) >= 0
    requires pending.Some? ==> Better(Longest(b, i), pending.value)
    ensures Chosen(b, GivenUp(b, i, pending) + [ChoiceAt(b, i)], Unsettled(i, pending), i + Length(ChoiceAt(b, i)))
  {
    hide *;
    GivenUpChosen(b, i, pending);
    OneChosen(b, i);
    ChosenAppend(b, GivenUp(b, i, pending), [ChoiceAt(b, i)], Unsettled(i, pending), i, i + Length(ChoiceAt(b, i)));
  }

  /** One step of the parser settles the choices at its bytes, and defers the longest match if any. */
  lemma StepChooses(b: Block, i: nat, pending: Option<Token>)
    requires Deferred(b, i, pending) && i < b.end && Pends(b, i, pending)
    ensures var r := GreedyStep(b, i, pending);
            && Deferred(b, r.next, r.pending) && Pends(b, r.next, r.pending)
            && 0 <= Unsettled(i, pending) && 0 <= Unsettled(r.next, r.pending)
            && Chosen(b, r.tokens, Unsettled(i, pending), Unsettled(r.next, r.pending))
  {
    hide *;
    InRange(b, i, pending);
    StepGoesOn(b, i, pending);
    StepIs(b, i, pending);
    var r, m := GreedyStep(b, i, pending), Longest(b, i);
    ScoresAre(m, m);
    ChoiceIs(b, i);
    LiteralFits(b.data, i);
    if Worth(m) { LongestFits(b, i); }
    if pending.Some? { PendsIs(b, i, pending); ScoresAre(pending.value, m); }
    if pending.Some? && !Better(m, pending.value) {
      ChoiceIs(b, i - 1);
      OneChosen(b, i - 1);
      NonePends(b, r.next);
    } else if Worth(m) && m.litlen < MAX_MATCH {
      GivenUpChosen(b, i, pending);
      PendsWhen(b, i, m);
    } else {
      SettledChosen(b, i, pending);
      NonePends(b, r.next);
    }
  }

  lemma {:induction false} RestChosen(b: Block, i: nat, pending: Option<Token>)
    requires Deferred(b, i, pending) && Pends(b, i, pending)
    ensures 0 <= Unsettled(i, pending) && Chosen(b, GreedyFrom(b, i, pending), Unsettled(i, pending), b.end)
    decreases b.end - i
  {
    hide Deferred, GreedyStep, Pends, Chosen;
    InRange(b, i, pending);
    if i == b.end {
      NeverPendingAtEnd(b, i, pending);
      NoneChosen(b, i);
    } else {
      StepCovers(b, i, pending);
      StepChooses(b, i, pending);
      var r := GreedyStep(b, i, pending);
      RestChosen(b, r.next, r.pending);
      ChosenAppend(b, r.tokens, GreedyFrom(b, r.next, r.pending), Unsettled(i, pending),
                   Unsettled(r.next, r.pending), b.end);
    }
  }

  /** Choices leave no alternative. */
  lemma {:induction false} ChosenUnique(b: Block, ts: seq<Token>, us: seq<Token>, a: nat)
    requires Chosen(b, ts, a, b.end) && Chosen(b, us, a, b.end)
    ensures ts == us
    decreases |ts|
  {
    hide ChoiceAt;
    if |ts| > 0 {
      ChosenUnique(b, ts[1..], us[1..], a + Length(ts[0]));
      assert ts == [ts[0]] + ts[1..] && us == [us[0]] + us[1..];
    }
  }

  /** The greedy parse is the one sequence of tokens up to the end of the block in which every token is
      the choice at its byte. */
  lemma GreedyChooses(b: Block, ts: seq<Token>)
    requires ValidBlock(b)
    ensures ts == GreedyTokens(b) <==> Chosen(b, ts, b.start, b.end)
  {
    hide Chosen, GreedyFrom;
    AtStart(b);
    NonePends(b, b.start);
    RestChosen(b, b.start, None);
    if Chosen(b, ts, b.start, b.end) { ChosenUnique(b, ts, GreedyTokens(b), b.start); }
  }

  lemma {:induction false} ChosenAt(b: Block, ts: seq<Token>, a: nat, z: nat, k: nat)
    requires Chosen(b, ts, a, z) && k < |ts|
    ensures InBlock(b, Position(ts, a, k)) && ts[k] == ChoiceAt(b, Position(ts, a, k))
    decreases k
  {
    hide ChoiceAt;
    if k > 0 {
      ChosenAt(b, ts[1..], a + Length(ts[0]), z, k - 1);
      PositionShift(ts, a, k);
    }
  }

  /** A token of the greedy parse is a literal exactly if the match at its byte is not taken, and then
      the match is too short for its distance or a better one starts at the next byte; otherwise the
      token is that longest match. */
  lemma GreedyToken(b: Block, k: nat)
    requires ValidBlock(b) && k < |GreedyTokens(b)|
    ensures var t, i := GreedyTokens(b)[k], Position(GreedyTokens(b), b.start, k);
            && InBlock(b, i)
            && (t.dist > 0 ==> t == Longest(b, i) && t.litlen >= 3 && (t.dist > 1024 ==> t.litlen >= 4))
            && (t.dist == 0 ==> t.litlen == b.data[i])
            && (t.dist == 0 && Longest(b, i).litlen >= 3 && Longest(b, i).dist <= 1024 ==>
                  i + 1 < b.end && Longest(b, i + 1).litlen > Longest(b, i).litlen + 1)
            && (t.dist == 0 && Longest(b, i).litlen >= 4 && Longest(b, i).dist > 1024 ==>
                  i + 1 < b.end && Longest(b, i + 1).litlen > Longest(b, i).litlen)
  {
    hide GreedyTokens, Longest;
    GreedyChooses(b, GreedyTokens(b));
    ChosenAt(b, GreedyTokens(b), b.start, b.end, k);
    var i := Position(GreedyTokens(b), b.start, k);
    if Worth(Longest(b, i)) { LongestDist(b, i); }
  }

  lemma LongestDist(b: Block, i: nat)
    requires InBlock(b, i) && Worth(Longest(b, i))
    ensures Longest(b, i).dist > 0
  {
    hide Longest;
    ScoresAre(Longest(b, i), Longest(b, i));
    LongestFits(b, i);
  }
}
