/** LZ77 tokens: what they stand for, how they are coded, and that decoding undoes the coding. */
module Tokens {
  import opened Prelude
  import opened Bits
  import opened PrefixCode
  import opened Symbols
  import opened Inflate

  /** A literal byte when `dist` is 0, else a match of `litlen` bytes from `dist` bytes back. */
  datatype Token = Token(litlen: nat, dist: nat)

  ghost predicate ValidToken(t: Token) {
    if t.dist == 0 then t.litlen < 256 else MIN_MATCH <= t.litlen <= MAX_MATCH && t.dist <= WINDOW_SIZE
  }

  function Length(t: Token): nat {
    if t.dist == 0 then 1 else t.litlen
  }

  /** The bytes that the token stands for are those of the data at position `a`. */
  ghost predicate TokenAt(data: seq<byte>, t: Token, a: nat) {
    && ValidToken(t)
    && a + Length(t) <= |data|
    && (if t.dist == 0 then data[a] == t.litlen
        else t.dist <= a && MatchAt(data, a, t.dist, t.litlen))
  }

  /** The `length` bytes at position `a` also stand `dist` bytes earlier. */
  ghost predicate MatchAt(data: seq<byte>, a: nat, dist: nat, length: nat) {
    && dist <= a && a + length <= |data|
    && forall k :: a <= k < a + length ==> data[k] == data[k - dist]
  }

  /** The tokens describe data[a..b], one after the other. */
  ghost predicate Covers(data: seq<byte>, ts: seq<Token>, a: nat, b: nat) {
    if |ts| == 0 then a == b
    else TokenAt(data, ts[0], a) && Covers(data, ts[1..], a + Length(ts[0]), b)
  }

  lemma {:induction false} CoversBound(data: seq<byte>, ts: seq<Token>, a: nat, b: nat)
    requires Covers(data, ts, a, b) && a <= |data|
    ensures a + |ts| <= b <= |data|
    ensures forall t :: t in ts ==> ValidToken(t)
    decreases |ts|
  {
    if |ts| > 0 {
      CoversBound(data, ts[1..], a + Length(ts[0]), b);
      forall t | t in ts ensures ValidToken(t) {
        assert t == ts[0] || t in ts[1..];
      }
    }
  }

  lemma {:induction false} CoversAppend(data: seq<byte>, ts: seq<Token>, us: seq<Token>, a: nat, b: nat, c: nat)
    requires Covers(data, ts, a, b) && Covers(data, us, b, c)
    ensures Covers(data, ts + us, a, c)
    decreases |ts|
  {
    if |ts| == 0 {
      assert ts + us == us;
    } else {
      CoversAppend(data, ts[1..], us, a + Length(ts[0]), b, c);
      assert (ts + us)[1..] == ts[1..] + us;
    }
  }

  lemma CoversOneMore(data: seq<byte>, ts: seq<Token>, t: Token, a: nat, b: nat)
    requires Covers(data, ts, a, b) && TokenAt(data, t, b)
    ensures Covers(data, ts + [t], a, b + Length(t))
  {
    assert Covers(data, [t][1..], b + Length(t), b + Length(t));
    CoversAppend(data, ts, [t], a, b, b + Length(t));
  }

  /** Where token `i` starts. */
  ghost function Position(ts: seq<Token>, a: nat, i: nat): nat
    requires i <= |ts|
  {
    if i == 0 then a else Position(ts, a, i - 1) + Length(ts[i - 1])
  }

  /** Any run of the tokens describes the bytes between its ends. */
  lemma {:induction false} CoversSlice(data: seq<byte>, ts: seq<Token>, a: nat, b: nat, i: nat, j: nat)
    requires Covers(data, ts, a, b) && i <= j <= |ts|
    ensures Covers(data, ts[i..j], Position(ts, a, i), Position(ts, a, j))
    ensures Position(ts, a, |ts|) == b
    decreases |ts|
  {
    if |ts| == 0 {
    } else {
      var a', rest := a + Length(ts[0]), ts[1..];
      forall k | 1 <= k <= |ts| ensures Position(ts, a, k) == Position(rest, a', k - 1) {
        PositionShift(ts, a, k);
      }
      if i > 0 {
        CoversSlice(data, rest, a', b, i - 1, j - 1);
        assert ts[i..j] == rest[i - 1..j - 1];
      } else if j > 0 {
        CoversSlice(data, rest, a', b, 0, j - 1);
        assert ts[0..j][1..] == rest[0..j - 1];
      } else {
        CoversSlice(data, rest, a', b, 0, 0);
      }
    }
  }

  lemma {:induction false} PositionShift(ts: seq<Token>, a: nat, k: nat)
    requires 1 <= k <= |ts|
    ensures Position(ts, a, k) == Position(ts[1..], a + Length(ts[0]), k - 1)
  {
    if k > 1 { PositionShift(ts, a, k - 1); }
  }

  lemma {:induction false} PositionAppend(ts: seq<Token>, us: seq<Token>, a: nat, k: nat)
    requires k <= |ts|
    ensures Position(ts + us, a, k) == Position(ts, a, k)
  {
    if k > 0 { PositionAppend(ts, us, a, k - 1); }
  }

  /** The number of bytes that tokens stand for. */
  ghost function Bytes(us: seq<Token>): nat {
    Position(us, 0, |us|)
  }

  lemma {:induction false} PositionFrom(ts: seq<Token>, a: nat, i: nat, j: nat)
    requires i <= j <= |ts|
    ensures Position(ts, a, j) == Position(ts, a, i) + Bytes(ts[i..j])
    decreases j
  {
    if i < j {
      PositionFrom(ts, a, i, j - 1);
      assert ts[i..j][..j - 1 - i] == ts[i..j - 1];
      PositionAppend(ts[i..j - 1], [ts[j - 1]], 0, j - 1 - i);
      assert ts[i..j] == ts[i..j - 1] + [ts[j - 1]];
    }
  }

  // ---- Expansion ----

  /** What a decoder appends for a list of tokens. */
  ghost function Expand(out: seq<byte>, ts: seq<Token>): Option<seq<byte>>
    decreases |ts|
  {
    if |ts| == 0 then Some(out)
    else
      var t := ts[0];
      if t.dist == 0 then (if t.litlen < 256 then Expand(out + [t.litlen], ts[1..]) else None)
      else if t.dist <= |out| then Expand(Copy(out, t.litlen, t.dist), ts[1..])
      else None
  }

  lemma {:induction false} CopyMatch(data: seq<byte>, a: nat, length: nat, dist: nat)
    requires 1 <= dist && MatchAt(data, a, dist, length)
    ensures Copy(data[..a], length, dist) == data[..a + length]
    decreases length
  {
    if length > 0 {
      assert data[..a] + [data[..a][a - dist]] == data[..a + 1];
      CopyMatch(data, a + 1, length - 1, dist);
    }
  }

  /** Expanding tokens that describe data[a..b] after data[..a] gives data[..b]. */
  lemma {:induction false} ExpandCovers(data: seq<byte>, ts: seq<Token>, a: nat, b: nat)
    requires Covers(data, ts, a, b) && a <= |data|
    ensures b <= |data| && Expand(data[..a], ts) == Some(data[..b])
    decreases |ts|
  {
    if |ts| > 0 {
      var t := ts[0];
      if t.dist == 0 {
        assert data[..a] + [t.litlen] == data[..a + 1];
      } else {
        CopyMatch(data, a, t.litlen, t.dist);
      }
      ExpandCovers(data, ts[1..], a + Length(t), b);
    }
  }

  // ---- Coding ----

  /** The literal/length symbol of a token, and the distance symbol of a match. */
  function LitLenSymbol(t: Token): nat {
    if t.dist == 0 then t.litlen else LengthSymbol(t.litlen)
  }

  function DistSymbol(t: Token): nat
    requires t.dist > 0
  {
    ComputeDistCode(t.dist).symbol
  }

  /** Both codes have words for the token. */
  ghost predicate HasCode(ll: seq<nat>, d: seq<nat>, t: Token) {
    && LitLenSymbol(t) < |ll| && ll[LitLenSymbol(t)] != 0
    && (t.dist > 0 ==> DistSymbol(t) < |d| && d[DistSymbol(t)] != 0)
  }

  ghost predicate HaveCodes(ll: seq<nat>, d: seq<nat>, ts: seq<Token>) {
    forall t :: t in ts ==> HasCode(ll, d, t)
  }

  function MatchBits(ll: seq<nat>, d: seq<nat>, t: Token): seq<bit>
    requires t.dist > 0 && LengthSymbol(t.litlen) < |ll| && DistSymbol(t) < |d|
  {
    Codeword(ll, LengthSymbol(t.litlen)) + (Lsb(LengthExtraValue(t.litlen), LengthExtraBits(t.litlen))
    + (Codeword(d, DistSymbol(t)) + Lsb(ComputeDistCode(t.dist).extraValue, ComputeDistCode(t.dist).extraBits)))
  }

  /** The bits of a token that the codes have words for. */
  ghost function TokenBits(ll: seq<nat>, d: seq<nat>, t: Token): seq<bit> {
    if !HasCode(ll, d, t) then []
    else if t.dist == 0 then Codeword(ll, t.litlen)
    else MatchBits(ll, d, t)
  }

  ghost function TokensBits(ll: seq<nat>, d: seq<nat>, ts: seq<Token>): seq<bit>
    decreases |ts|
  {
    if |ts| == 0 then [] else TokenBits(ll, d, ts[0]) + TokensBits(ll, d, ts[1..])
  }

  lemma {:induction false} TokensBitsAppend(ll: seq<nat>, d: seq<nat>, ts: seq<Token>, us: seq<Token>)
    ensures TokensBits(ll, d, ts + us) == TokensBits(ll, d, ts) + TokensBits(ll, d, us)
    decreases |ts|
  {
    hide TokenBits;
    if |ts| == 0 {
      assert ts + us == us;
    } else {
      assert (ts + us)[1..] == ts[1..] + us;
      TokensBitsAppend(ll, d, ts[1..], us);
    }
  }

  lemma TokensBitsNext(ll: seq<nat>, d: seq<nat>, ts: seq<Token>, i: nat)
    requires i < |ts|
    ensures TokensBits(ll, d, ts[..i + 1]) == TokensBits(ll, d, ts[..i]) + TokenBits(ll, d, ts[i])
  {
    hide TokenBits;
    assert ts[..i + 1] == ts[..i] + [ts[i]];
    TokensBitsAppend(ll, d, ts[..i], [ts[i]]);
    assert [ts[i]][1..] == [];
    assert TokensBits(ll, d, [ts[i]]) == TokenBits(ll, d, ts[i]) + [];
  }

  // ---- Decoding ----

  /** The next code word determines its symbol. */
  lemma {:induction false} FindCodeword(l: seq<nat>, L: nat, bits: seq<bit>, pos: nat, s: nat, from: nat)
    requires Feasible(l, L) && from <= s < |l| && l[s] != 0
    requires At(bits, pos, Codeword(l, s))
    ensures FindSymbol(l, bits, pos, from) == Got(s, pos + l[s])
    decreases |l| - from
  {
    if from < s {
      if l[from] != 0 && pos + l[from] <= |bits| && bits[pos..pos + l[from]] == Codeword(l, from) {
        PrefixFree(l, L, bits, pos, s, from);
      }
      FindCodeword(l, L, bits, pos, s, from + 1);
    }
  }

  lemma DecodeCodeword(l: seq<nat>, L: nat, bits: seq<bit>, pos: nat, s: nat)
    requires Feasible(l, L) && s < |l| && l[s] != 0
    requires At(bits, pos, Codeword(l, s))
    ensures DecodeSymbol(l, bits, pos) == Got(s, pos + l[s])
  {
    FindCodeword(l, L, bits, pos, s, 0);
  }

  lemma ReadLsb(bits: seq<bit>, pos: nat, v: nat, n: nat)
    requires v < Pow2(n) && At(bits, pos, Lsb(v, n))
    ensures ReadBits(bits, pos, n) == Got(v, pos + n)
  {
    LsbRoundTrip(v, n);
  }

  lemma LengthTables(length: nat)
    requires MIN_MATCH <= length <= MAX_MATCH
    ensures var s := LengthSymbol(length);
            && 257 <= s <= 285 && LengthSymbolExtraBits(s) == LengthExtraBits(length)
            && LengthExtraValue(length) < Pow2(LengthExtraBits(length))
            && LengthBase(s) + LengthExtraValue(length) == length
  {
    LengthDecodes(length);
  }

  /** The decoder reads the length back ... */
  lemma DecodeLength(ll: seq<nat>, bits: seq<bit>, pos: nat, length: nat, rest: seq<bit>)
    requires Feasible(ll, 15) && MIN_MATCH <= length <= MAX_MATCH
    requires LengthSymbol(length) < |ll| && ll[LengthSymbol(length)] != 0
    requires At(bits, pos,
                Codeword(ll, LengthSymbol(length)) + (Lsb(LengthExtraValue(length), LengthExtraBits(length)) + rest))
    ensures var s := LengthSymbol(length);
            && 257 <= s <= 285
            && DecodeSymbol(ll, bits, pos) == Got(s, pos + ll[s])
            && ReadBits(bits, pos + ll[s], LengthSymbolExtraBits(s))
               == Got(LengthExtraValue(length), pos + ll[s] + LengthSymbolExtraBits(s))
            && LengthBase(s) + LengthExtraValue(length) == length
            && LengthSymbolExtraBits(s) == LengthExtraBits(length)
            && At(bits, pos + ll[s] + LengthSymbolExtraBits(s), rest)
  {
    hide *;
    LengthTables(length);
    var s, x := LengthSymbol(length), Lsb(LengthExtraValue(length), LengthExtraBits(length));
    AtSplit(bits, pos, Codeword(ll, s), x + rest);
    AtSplit(bits, pos + ll[s], x, rest);
    DecodeCodeword(ll, 15, bits, pos, s);
    ReadLsb(bits, pos + ll[s], LengthExtraValue(length), LengthExtraBits(length));
  }

  lemma DistTables(dist: nat)
    requires 1 <= dist <= WINDOW_SIZE
    ensures var c := ComputeDistCode(dist);
            && c.symbol < 30 && c.extraBits == DistSymbolExtraBits(c.symbol) && c.extraValue < Pow2(c.extraBits)
            && DistBase(c.symbol) + c.extraValue == dist
  {
    DistDecodes(dist);
  }

  lemma ReadDistanceStep(d: seq<nat>, bits: seq<bit>, pos: nat, s: nat, p1: nat, x: nat, p2: nat)
    requires s < 30 && DecodeSymbol(d, bits, pos) == Got(s, p1)
    requires ReadBits(bits, p1, DistSymbolExtraBits(s)) == Got(x, p2)
    ensures ReadDistance(d, bits, pos) == Got(DistBase(s) + x, p2)
  {
    hide DecodeSymbol, ReadBits, DistSymbolExtraBits, DistBase;
  }

  /** ... and the distance. */
  lemma DecodeDistance(d: seq<nat>, bits: seq<bit>, pos: nat, dist: nat)
    requires Feasible(d, 15) && 1 <= dist <= WINDOW_SIZE
    requires ComputeDistCode(dist).symbol < |d| && d[ComputeDistCode(dist).symbol] != 0
    requires At(bits, pos,
                Codeword(d, ComputeDistCode(dist).symbol)
                  + Lsb(ComputeDistCode(dist).extraValue, ComputeDistCode(dist).extraBits))
    ensures ReadDistance(d, bits, pos)
            == Got(dist, pos + d[ComputeDistCode(dist).symbol] + ComputeDistCode(dist).extraBits)
  {
    hide *;
    var c := ComputeDistCode(dist);
    DistTables(dist);
    AtSplit(bits, pos, Codeword(d, c.symbol), Lsb(c.extraValue, c.extraBits));
    DecodeCodeword(d, 15, bits, pos, c.symbol);
    ReadLsb(bits, pos + d[c.symbol], c.extraValue, c.extraBits);
    ReadDistanceStep(d, bits, pos, c.symbol, pos + d[c.symbol], c.extraValue, pos + d[c.symbol] + c.extraBits);
  }

  lemma InflateMatch(ll: seq<nat>, d: seq<nat>, bits: seq<bit>, pos: nat, out: seq<byte>, s: nat, p1: nat, x: nat,
                     p2: nat, dist: nat, p3: nat)
    requires 257 <= s <= 285 && DecodeSymbol(ll, bits, pos) == Got(s, p1)
    requires ReadBits(bits, p1, LengthSymbolExtraBits(s)) == Got(x, p2) && ReadDistance(d, bits, p2) == Got(dist, p3)
    requires 1 <= dist <= |out|
    ensures InflateSymbols(ll, d, bits, pos, out) == InflateSymbols(ll, d, bits, p3, Copy(out, LengthBase(s) + x, dist))
  {
    hide DecodeSymbol, ReadBits, LengthSymbolExtraBits, LengthBase, ReadDistance, Copy;
  }

  lemma MatchBitsAre(ll: seq<nat>, d: seq<nat>, t: Token)
    requires HasCode(ll, d, t) && t.dist > 0
    ensures var s, c := LengthSymbol(t.litlen), ComputeDistCode(t.dist);
            TokenBits(ll, d, t) == Codeword(ll, s) + (Lsb(LengthExtraValue(t.litlen), LengthExtraBits(t.litlen))
                                   + (Codeword(d, c.symbol) + Lsb(c.extraValue, c.extraBits)))
  {
    hide LengthSymbol, LengthExtraValue, LengthExtraBits, ComputeDistCode, Codeword;
  }

  lemma MatchCoded(ll: seq<nat>, d: seq<nat>, t: Token)
    requires HasCode(ll, d, t) && ValidToken(t) && t.dist > 0
    ensures var s, c := LengthSymbol(t.litlen), ComputeDistCode(t.dist);
            && s < |ll| && ll[s] != 0 && c.symbol < |d| && d[c.symbol] != 0
            && MIN_MATCH <= t.litlen <= MAX_MATCH && t.dist <= WINDOW_SIZE
  {
    hide LengthSymbol, ComputeDistCode;
  }

  /** Decoding one token: a literal is appended, a match copied. */
  lemma DecodeToken(ll: seq<nat>, d: seq<nat>, bits: seq<bit>, pos: nat, t: Token, out: seq<byte>)
    requires Feasible(ll, 15) && Feasible(d, 15)
    requires HasCode(ll, d, t) && ValidToken(t) && t.dist <= |out|
    requires At(bits, pos, TokenBits(ll, d, t))
    ensures InflateSymbols(ll, d, bits, pos, out)
              == InflateSymbols(ll, d, bits, pos + |TokenBits(ll, d, t)|,
                                if t.dist == 0 then out + [t.litlen] else Copy(out, t.litlen, t.dist))
  {
    if t.dist == 0 {
      DecodeCodeword(ll, 15, bits, pos, t.litlen);
    } else {
      DecodeMatch(ll, d, bits, pos, t, out);
    }
  }

  lemma DecodeMatch(ll: seq<nat>, d: seq<nat>, bits: seq<bit>, pos: nat, t: Token, out: seq<byte>)
    requires Feasible(ll, 15) && Feasible(d, 15)
    requires HasCode(ll, d, t) && ValidToken(t) && 0 < t.dist <= |out|
    requires At(bits, pos, TokenBits(ll, d, t))
    ensures InflateSymbols(ll, d, bits, pos, out)
            == InflateSymbols(ll, d, bits, pos + |TokenBits(ll, d, t)|, Copy(out, t.litlen, t.dist))
  {
    hide *;
    var s, c := LengthSymbol(t.litlen), ComputeDistCode(t.dist);
    MatchCoded(ll, d, t);
    MatchBitsAre(ll, d, t);
    DecodeLength(ll, bits, pos, t.litlen, Codeword(d, c.symbol) + Lsb(c.extraValue, c.extraBits));
    var p := pos + ll[s] + LengthExtraBits(t.litlen);
    DecodeDistance(d, bits, p, t.dist);
    InflateMatch(ll, d, bits, pos, out, s, pos + ll[s], LengthExtraValue(t.litlen), p, t.dist,
                 p + d[c.symbol] + c.extraBits);
  }

  lemma DecodeEnd(ll: seq<nat>, d: seq<nat>, bits: seq<bit>, pos: nat, out: seq<byte>)
    requires Feasible(ll, 15) && |ll| > END_OF_BLOCK && ll[END_OF_BLOCK] != 0
    requires At(bits, pos, Codeword(ll, END_OF_BLOCK))
    ensures InflateSymbols(ll, d, bits, pos, out) == Got(out, pos + ll[END_OF_BLOCK])
  {
    DecodeCodeword(ll, 15, bits, pos, END_OF_BLOCK);
  }

  /** Decoding the coded tokens and the end-of-block symbol expands the tokens. */
  lemma {:induction false} DecodeTokens(ll: seq<nat>, d: seq<nat>, bits: seq<bit>, pos: nat, ts: seq<Token>,
                                        out: seq<byte>)
    requires Feasible(ll, 15) && Feasible(d, 15) && |ll| > END_OF_BLOCK && ll[END_OF_BLOCK] != 0
    requires HaveCodes(ll, d, ts) && forall t :: t in ts ==> ValidToken(t)
    requires Expand(out, ts).Some?
    requires At(bits, pos, TokensBits(ll, d, ts) + Codeword(ll, END_OF_BLOCK))
    ensures InflateSymbols(ll, d, bits, pos, out)
              == Got(Expand(out, ts).value, pos + |TokensBits(ll, d, ts)| + ll[END_OF_BLOCK])
    decreases |ts|
  {
    hide TokenBits, HasCode, ValidToken, Codeword, InflateSymbols, At, Copy, Feasible;
    if |ts| == 0 {
      assert TokensBits(ll, d, ts) + Codeword(ll, END_OF_BLOCK) == Codeword(ll, END_OF_BLOCK);
      DecodeEnd(ll, d, bits, pos, out);
    } else {
      var t, rest := ts[0], TokensBits(ll, d, ts[1..]) + Codeword(ll, END_OF_BLOCK);
      assert t in ts;
      assert TokensBits(ll, d, ts) + Codeword(ll, END_OF_BLOCK) == TokenBits(ll, d, t) + rest;
      AtSplit(bits, pos, TokenBits(ll, d, t), rest);
      DecodeToken(ll, d, bits, pos, t, out);
      ValidLiteral(t);
      DecodeTokens(ll, d, bits, pos + |TokenBits(ll, d, t)|, ts[1..],
                   if t.dist == 0 then out + [t.litlen] else Copy(out, t.litlen, t.dist));
    }
  }

  lemma ValidLiteral(t: Token)
    requires ValidToken(t)
    ensures t.dist == 0 ==> t.litlen < 256
  {
  }
}
