/** The store that a parse is appended to: tokens in parallel lists, with chunked histograms. */
module Store {
  import opened Prelude
  import opened Symbols
  import opened Tokens
  import opened Histogram

  ghost function LLSymbols(ts: seq<Token>): (r: seq<int>)
    ensures |r| == |ts| && forall i :: 0 <= i < |ts| ==> r[i] == LitLenSymbol(ts[i])
  {
    seq(|ts|, i requires 0 <= i < |ts| => LitLenSymbol(ts[i]))
  }

  ghost function DSymbolOf(t: Token): int {
    if t.dist == 0 then -1 else DistSymbol(t)
  }

  ghost function DSymbols(ts: seq<Token>): (r: seq<int>)
    ensures |r| == |ts| && forall i :: 0 <= i < |ts| ==> r[i] == DSymbolOf(ts[i])
  {
    seq(|ts|, i requires 0 <= i < |ts| => DSymbolOf(ts[i]))
  }

  /** How often a literal/length symbol, or a distance symbol, occurs in tokens lstart to lend. */
  ghost function LLCount(ts: seq<Token>, lstart: nat, lend: nat, s: nat): nat
    requires lstart <= lend <= |ts|
  {
    CountGrows(LLSymbols(ts), lstart, lend, s);
    Count(LLSymbols(ts), lend, s) - Count(LLSymbols(ts), lstart, s)
  }

  ghost function DCount(ts: seq<Token>, lstart: nat, lend: nat, s: nat): nat
    requires lstart <= lend <= |ts|
  {
    CountGrows(DSymbols(ts), lstart, lend, s);
    Count(DSymbols(ts), lend, s) - Count(DSymbols(ts), lstart, s)
  }

  lemma SymbolsInRange(t: Token)
    requires ValidToken(t)
    ensures LitLenSymbol(t) < 286 && LitLenSymbol(t) != END_OF_BLOCK && -1 <= DSymbolOf(t) < 30
  {
    if t.dist > 0 {
      LengthDecodes(t.litlen);
      DistDecodes(t.dist);
    }
  }

  ghost predicate ValidTokens(ts: seq<Token>) {
    forall i :: 0 <= i < |ts| ==> ValidToken(ts[i])
  }

  /** The parallel lists describe the tokens. */
  ghost predicate Lists(ts: seq<Token>, litlens: seq<nat>, dists: seq<nat>, pos: seq<nat>, llSymbol: seq<nat>,
                        dSymbol: seq<nat>) {
    && |ts| == |litlens| == |dists| == |pos| == |llSymbol| == |dSymbol|
    && ValidTokens(ts)
    && forall i :: 0 <= i < |ts| ==>
         && ts[i] == Token(litlens[i], dists[i])
         && llSymbol[i] == LitLenSymbol(ts[i])
         && dSymbol[i] == Max(0, DSymbolOf(ts[i]))
  }

  ghost predicate Counted(ts: seq<Token>, llCounts: seq<nat>, dCounts: seq<nat>) {
    Cumulative(llCounts, LLSymbols(ts), NUM_LL) && Cumulative(dCounts, DSymbols(ts), NUM_D)
  }

  /** The distance symbols of the matches; -1 for literals. */
  function MatchSymbols(dists: seq<nat>, dSymbol: seq<nat>): (r: seq<int>)
    requires |dists| == |dSymbol|
    ensures |r| == |dists| && forall i :: 0 <= i < |r| ==> r[i] == if dists[i] == 0 then -1 else dSymbol[i]
  {
    seq(|dists|, i requires 0 <= i < |dists| => if dists[i] == 0 then -1 else dSymbol[i] as int)
  }

  lemma ListSymbols(ts: seq<Token>, litlens: seq<nat>, dists: seq<nat>, pos: seq<nat>, llSymbol: seq<nat>,
                    dSymbol: seq<nat>)
    requires Lists(ts, litlens, dists, pos, llSymbol, dSymbol)
    ensures llSymbol == LLSymbols(ts) && MatchSymbols(dists, dSymbol) == DSymbols(ts)
    ensures forall i :: 0 <= i < |ts| ==> -1 <= LLSymbols(ts)[i] < NUM_LL && -1 <= DSymbols(ts)[i] < NUM_D
  {
    forall i | 0 <= i < |ts|
      ensures -1 <= LLSymbols(ts)[i] < NUM_LL && -1 <= DSymbols(ts)[i] < NUM_D
      ensures MatchSymbols(dists, dSymbol)[i] == DSymbols(ts)[i]
    {
      SymbolsInRange(ts[i]);
      assert ts[i] == Token(litlens[i], dists[i]);
    }
  }

  lemma ListsNext(ts: seq<Token>, litlens: seq<nat>, dists: seq<nat>, pos: seq<nat>, llSymbol: seq<nat>,
                  dSymbol: seq<nat>, t: Token, p: nat)
    requires Lists(ts, litlens, dists, pos, llSymbol, dSymbol) && ValidToken(t)
    ensures LitLenSymbol(t) >= 0
    ensures Lists(ts + [t], litlens + [t.litlen], dists + [t.dist], pos + [p], llSymbol + [LitLenSymbol(t)],
                  dSymbol + [Max(0, DSymbolOf(t))])
  {
    hide LitLenSymbol, DSymbolOf;
  }

  class LZ77Store {
    var litlens: seq<nat>
    var dists: seq<nat>
    var data: seq<byte>
    var pos: seq<nat>
    var llSymbol: seq<nat>
    var dSymbol: seq<nat>
    var llCounts: seq<nat>
    var dCounts: seq<nat>
    var size: nat
    ghost var tokens: seq<Token>

    ghost predicate Valid()
      reads this
    {
      && size == |tokens|
      && Lists(tokens, litlens, dists, pos, llSymbol, dSymbol)
      && Counted(tokens, llCounts, dCounts)
    }

    constructor (data: seq<byte>)
      ensures Valid() && tokens == [] && pos == [] && this.data == data
    {
      litlens, dists, pos, llSymbol, dSymbol, llCounts, dCounts := [], [], [], [], [], [], [];
      this.data := data;
      size := 0;
      tokens := [];
      new;
      NothingCounted();
    }

    /** The tokens, as values. */
    method TokenList() returns (ts: seq<Token>)
      requires Valid()
      ensures ts == tokens
    {
      var l, d := litlens, dists;
      ts := seq(|l|, i requires 0 <= i < |l| && i < |d| => Token(l[i], d[i]));
    }

    method Reset()
      modifies this
      ensures Valid() && tokens == [] && pos == [] && data == old(data)
    {
      litlens, dists, pos, llSymbol, dSymbol, llCounts, dCounts := [], [], [], [], [], [], [];
      size := 0;
      tokens := [];
      NothingCounted();
    }

    /** Append a token that starts at input position `p`. */
    method StoreLitLenDist(length: nat, dist: nat, p: nat)
      requires Valid() && ValidToken(Token(length, dist))
      modifies this
      ensures Valid() && tokens == old(tokens) + [Token(length, dist)]
      ensures pos == old(pos) + [p] && data == old(data)
    {
      ListsNext(tokens, litlens, dists, pos, llSymbol, dSymbol, Token(length, dist), p);
      SymbolsOf(length, dist);
      hide Lists, Counted, ComputeDistCode, LengthSymbol;
      var lls, ds := if dist == 0 then length else LengthSymbol(length), if dist == 0 then 0
        else ComputeDistCode(dist).symbol;
      CountToken(lls, ds, length, dist);
      litlens := litlens + [length];
      dists := dists + [dist];
      pos := pos + [p];
      llSymbol := llSymbol + [lls];
      dSymbol := dSymbol + [ds];
      size := size + 1;
      tokens := tokens + [Token(length, dist)];
    }

    /** Count the symbols of the token that is about to be appended, in new chunks where needed. */
    method CountToken(lls: nat, ds: nat, length: nat, dist: nat)
      requires size == |tokens| && Counted(tokens, llCounts, dCounts) && ValidToken(Token(length, dist))
      requires lls == LitLenSymbol(Token(length, dist)) && (dist > 0 ==> ds == DSymbolOf(Token(length, dist)))
      modifies this`llCounts, this`dCounts
      ensures Counted(tokens + [Token(length, dist)], llCounts, dCounts)
    {
      ghost var t := Token(length, dist);
      SymbolsInRange(t);
      AppendSymbols(tokens, t);
      assert dist == 0 ==> DSymbolOf(t) == -1;
      hide Cumulative, LLSymbols, DSymbols, LitLenSymbol, DSymbolOf;
      llCounts := AddSymbol(llCounts, size, NUM_LL, lls, LLSymbols(tokens));
      dCounts := AddSymbol(dCounts, size, NUM_D, if dist == 0 then -1 else ds, DSymbols(tokens));
    }

    method AppendStore(other: LZ77Store)
      requires Valid() && other.Valid() && other != this
      modifies this
      ensures Valid() && tokens == old(tokens) + other.tokens
      ensures pos == old(pos) + other.pos && data == old(data)
    {
      hide Counted;
      for i := 0 to other.size
        invariant Valid() && other.Valid() && data == old(data)
        invariant tokens == old(tokens) + other.tokens[..i] && pos == old(pos) + other.pos[..i]
      {
        assert other.tokens[..i + 1] == other.tokens[..i] + [other.tokens[i]];
        assert other.pos[..i + 1] == other.pos[..i] + [other.pos[i]];
        StoreLitLenDist(other.litlens[i], other.dists[i], other.pos[i]);
      }
      assert other.tokens[..other.size] == other.tokens && other.pos[..other.size] == other.pos;
    }

    /** The number of input bytes that tokens lstart to lend stand for, if each of them starts where the
        one before ends. */
    method ByteRange(lstart: nat, lend: nat) returns (r: int)
      requires Valid() && lstart <= lend <= size
      ensures lend <= |tokens| == |pos|
      ensures (forall k :: lstart <= k < lend - 1 ==> pos[k + 1] == pos[k] + Length(tokens[k])) ==>
                r == Bytes(tokens[lstart..lend])
      ensures r == (if lstart == lend then 0 else pos[lend - 1] + Length(tokens[lend - 1]) - pos[lstart])
    {
      if lstart == lend {
        return 0;
      }
      if forall k :: lstart <= k < lend - 1 ==> pos[k + 1] == pos[k] + Length(tokens[k]) {
        SpanIsBytes(tokens, pos, lstart, lend);
      }
      var l := lend - 1;
      r := pos[lstart];
      if dists[l] == 0 {
        r := pos[l] + 1 - r;
      } else {
        r := pos[l] + litlens[l] - r;
      }
    }

    /** The symbol counts of tokens lstart to lend: by a scan if they are few, else from the
        cumulative counts. */
    method GetHistogram(lstart: nat, lend: nat, llCounts: array<nat>, dCounts: array<nat>)
      requires Valid() && lstart <= lend <= size && llCounts != dCounts
      requires llCounts.Length == NUM_LL && dCounts.Length == NUM_D
      modifies llCounts, dCounts
      ensures forall s :: 0 <= s < NUM_LL ==> llCounts[s] == LLCount(tokens, lstart, lend, s)
      ensures forall s :: 0 <= s < NUM_D ==> dCounts[s] == DCount(tokens, lstart, lend, s)
    {
      ListSymbols(tokens, litlens, dists, pos, llSymbol, dSymbol);
      hide Lists, Cumulative, LLSymbols, DSymbols;
      var d := MatchSymbols(dists, dSymbol);
      if lstart + NUM_LL * 3 > lend {
        CountRange(llSymbol, lstart, lend, NUM_LL, llCounts);
        CountRange(d, lstart, lend, NUM_D, dCounts);
      } else {
        HistogramBetween(this.llCounts, llSymbol, lstart, lend, NUM_LL, llCounts);
        HistogramBetween(this.dCounts, d, lstart, lend, NUM_D, dCounts);
      }
    }
  }

  lemma SymbolsOf(length: nat, dist: nat)
    requires ValidToken(Token(length, dist))
    ensures LitLenSymbol(Token(length, dist)) == (if dist == 0 then length else LengthSymbol(length))
    ensures DSymbolOf(Token(length, dist)) == (if dist == 0 then -1 else ComputeDistCode(dist).symbol)
    ensures Max(0, DSymbolOf(Token(length, dist))) == (if dist == 0 then 0 else ComputeDistCode(dist).symbol)
  {
  }

  lemma NothingCounted()
    ensures Counted([], [], [])
  {
  }

  lemma AppendSymbols(ts: seq<Token>, t: Token)
    ensures LLSymbols(ts + [t]) == LLSymbols(ts) + [LitLenSymbol(t)]
    ensures DSymbols(ts + [t]) == DSymbols(ts) + [DSymbolOf(t)]
  {
  }

  lemma {:induction false} SpanIsBytes(ts: seq<Token>, pos: seq<nat>, i: nat, j: nat)
    requires i < j <= |ts| == |pos| && forall k :: i <= k < j - 1 ==> pos[k + 1] == pos[k] + Length(ts[k])
    ensures pos[j - 1] + Length(ts[j - 1]) == pos[i] + Bytes(ts[i..j])
    decreases j
  {
    PositionFrom(ts, pos[i], i, j - 1);
    PositionFrom(ts, pos[i], i, j);
    if j - 1 > i { SpanIsBytes(ts, pos, i, j - 1); }
  }
}
