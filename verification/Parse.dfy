/** Parses: stores whose tokens describe a stretch of the data, with the positions they start at. */
module Parse {
  import opened Prelude
  import opened Symbols
  import opened Tokens
  import opened Store

  /** Where the tokens start, when the first of them starts at `a`. */
  ghost function Positions(ts: seq<Token>, a: nat): (r: seq<nat>)
    ensures |r| == |ts| && forall i :: 0 <= i < |ts| ==> r[i] == Position(ts, a, i)
  {
    seq(|ts|, i requires 0 <= i < |ts| => Position(ts, a, i))
  }

  lemma PositionsOneMore(ts: seq<Token>, t: Token, a: nat)
    ensures Positions(ts + [t], a) == Positions(ts, a) + [Position(ts, a, |ts|)]
    ensures Position(ts + [t], a, |ts| + 1) == Position(ts, a, |ts|) + Length(t)
  {
    forall i | 0 <= i <= |ts| ensures Position(ts + [t], a, i) == Position(ts, a, i) { PositionAppend(ts, [t], a, i); }
  }

  lemma {:induction false} PositionBeyond(ts: seq<Token>, us: seq<Token>, a: nat, k: nat)
    requires k <= |us|
    ensures Position(ts + us, a, |ts| + k) == Position(us, Position(ts, a, |ts|), k)
  {
    if k == 0 { PositionAppend(ts, us, a, |ts|); } else { PositionBeyond(ts, us, a, k - 1); }
  }

  lemma PositionsAppend(ts: seq<Token>, us: seq<Token>, a: nat)
    ensures Positions(ts + us, a) == Positions(ts, a) + Positions(us, Position(ts, a, |ts|))
  {
    forall i | 0 <= i < |ts| ensures Position(ts + us, a, i) == Position(ts, a, i) { PositionAppend(ts, us, a, i); }
    forall k | 0 <= k < |us|
      ensures Position(ts + us, a, |ts| + k) == Position(us, Position(ts, a, |ts|), k) { PositionBeyond(ts, us, a, k); }
  }

  /** The store has had the tokens `done` appended to what it held, the first of them at `a`. */
  ghost predicate Appended(store: LZ77Store, tokens0: seq<Token>, pos0: seq<nat>, a: nat, done: seq<Token>)
    reads store
  {
    store.Valid() && store.tokens == tokens0 + done && store.pos == pos0 + Positions(done, a)
  }

  lemma NothingAppended(store: LZ77Store, a: nat)
    requires store.Valid()
    ensures Appended(store, store.tokens, store.pos, a, [])
  {
    assert Positions([], a) == [];
    assert store.pos + [] == store.pos;
  }

  /** Append the next token of a parse. */
  method AppendToken(store: LZ77Store, length: nat, dist: nat, pos: nat,
                     ghost tokens0: seq<Token>, ghost pos0: seq<nat>, ghost a: nat, ghost done: seq<Token>)
    requires Appended(store, tokens0, pos0, a, done) && ValidToken(Token(length, dist))
    requires pos == Position(done, a, |done|)
    modifies store
    ensures Appended(store, tokens0, pos0, a, done + [Token(length, dist)]) && store.data == old(store.data)
    ensures Position(done + [Token(length, dist)], a, |done| + 1) == pos + Length(Token(length, dist))
  {
    hide LZ77Store.Valid, Position, Positions, ValidToken;
    PositionsOneMore(done, Token(length, dist), a);
    store.StoreLitLenDist(length, dist, pos);
    assert tokens0 + (done + [Token(length, dist)]) == tokens0 + done + [Token(length, dist)];
    assert pos0 + (Positions(done, a) + [pos]) == pos0 + Positions(done, a) + [pos];
  }

  /** The store holds a parse of data[a..b], and nothing else. */
  ghost predicate Parses(store: LZ77Store, a: nat, b: nat)
    reads store
  {
    store.Valid() && Covers(store.data, store.tokens, a, b) && store.pos == Positions(store.tokens, a)
  }

  lemma ParseDone(store: LZ77Store, a: nat, b: nat, done: seq<Token>)
    requires Appended(store, [], [], a, done) && Covers(store.data, done, a, b)
    ensures Parses(store, a, b) && store.tokens == done
  {
    assert [] + done == done;
    assert [] + Positions(done, a) == Positions(done, a);
  }

  /** Parses of neighbouring stretches, one appended to the other. */
  lemma ParseJoined(store: LZ77Store, data: seq<byte>, ts: seq<Token>, us: seq<Token>, a: nat, b: nat, c: nat)
    requires store.Valid() && store.data == data && Covers(data, ts, a, b) && Covers(data, us, b, c)
    requires store.tokens == ts + us && store.pos == Positions(ts, a) + Positions(us, b)
    ensures Parses(store, a, c)
  {
    CoversSlice(data, ts, a, b, 0, 0);
    PositionsAppend(ts, us, a);
    CoversAppend(data, ts, us, a, b, c);
  }

  /** The bytes that tokens lstart to lend of a parse stand for. */
  method RangeOf(store: LZ77Store, lstart: nat, lend: nat, ghost a: nat, ghost b: nat) returns (length: nat)
    requires Parses(store, a, b) && lstart <= lend <= |store.tokens|
    ensures length == Position(store.tokens, a, lend) - Position(store.tokens, a, lstart)
  {
    var n := store.ByteRange(lstart, lend);
    RangeIs(store.tokens, a, lstart, lend);
    length := n;
  }

  lemma {:induction false} RangeIs(ts: seq<Token>, a: nat, i: nat, j: nat)
    requires i <= j <= |ts|
    ensures Position(ts, a, i) <= Position(ts, a, j)
    ensures i < j ==> Position(ts, a, j) == Position(ts, a, j - 1) + Length(ts[j - 1])
    decreases j - i
  {
    if i < j { RangeIs(ts, a, i, j - 1); }
  }
}
