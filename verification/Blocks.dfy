/** Blocks as bit strings, and that inflating them gives back the data they stand for. */
module Blocks {
  import opened Prelude
  import opened Bits
  import opened PrefixCode
  import opened Symbols
  import opened Inflate
  import opened Tokens
  import opened TreeCode
  import opened TreeWriter
  import opened Store
  import opened DynamicLengths

  /** Wherever the bits stand in a stream at position `pos`, inflating them appends data[a..b] to
      data[..a]; after a final block the stream is done, else inflating goes on behind the bits. */
  ghost predicate Decodes(bits: seq<bit>, pos: nat, data: seq<byte>, a: nat, b: nat, final: bool) {
    && a <= b <= |data|
    && forall s :: At(s, pos, bits) ==>
         InflateBlocks(s, pos, data[..a])
           == if final then Got(data[..b], pos + |bits|) else InflateBlocks(s, pos + |bits|, data[..b])
  }

  /** Bit strings that decode, one after the other. */
  lemma DecodesJoin(x: seq<bit>, y: seq<bit>, pos: nat, data: seq<byte>, a: nat, b: nat, c: nat, final: bool)
    requires Decodes(x, pos, data, a, b, false) && Decodes(y, pos + |x|, data, b, c, final)
    ensures Decodes(x + y, pos, data, a, c, final)
  {
    hide InflateBlocks, At;
    forall s | At(s, pos, x + y)
      ensures InflateBlocks(s, pos, data[..a])
                == if final then Got(data[..c], pos + |x + y|) else InflateBlocks(s, pos + |x + y|, data[..c])
    {
      AtSplit(s, pos, x, y);
    }
  }

  lemma NothingDecodes(pos: nat, data: seq<byte>, a: nat)
    requires a <= |data|
    ensures Decodes([], pos, data, a, a, false)
  {
  }

  // ---- The three bits that start a block ----

  function FinalBit(final: bool): bit {
    if final then 1 else 0
  }

  function BlockStart(final: bool, btype: nat): (r: seq<bit>)
    ensures |r| == 3
  {
    [FinalBit(final)] + Lsb(btype, 2)
  }

  lemma ReadStart(s: seq<bit>, pos: nat, final: bool, btype: nat)
    requires btype < 4 && At(s, pos, BlockStart(final, btype))
    ensures ReadBits(s, pos, 1) == Got(FinalBit(final), pos + 1) && ReadBits(s, pos + 1, 2) == Got(btype, pos + 3)
  {
    PowersToFive();
    AtSplit(s, pos, [FinalBit(final)], Lsb(btype, 2));
    OneBit(FinalBit(final));
    hide Lsb, ReadBits;
    ReadLsb(s, pos, FinalBit(final), 1);
    ReadLsb(s, pos + 1, btype, 2);
  }

  lemma OneBit(b: bit)
    ensures Lsb(b, 1) == [b]
  {
    assert Lsb(b / 2, 0) == [];
  }

  lemma BlockStep(s: seq<bit>, pos: nat, final: bool, btype: nat, out: seq<byte>, out': seq<byte>, end: nat)
    requires ReadBits(s, pos, 1) == Got(FinalBit(final), pos + 1) && ReadBits(s, pos + 1, 2) == Got(btype, pos + 3)
    requires InflateBody(btype, s, pos + 3, out) == Got(out', end)
    ensures InflateBlocks(s, pos, out) == if final then Got(out', end) else InflateBlocks(s, end, out')
  {
    hide ReadBits, InflateBody;
  }

  /** Wherever the bits stand at position `pos`, they are the body of a block that appends data[a..b]. */
  ghost predicate BodyDecodes(btype: nat, body: seq<bit>, pos: nat, data: seq<byte>, a: nat, b: nat) {
    && a <= b <= |data|
    && forall s :: At(s, pos, body) ==> InflateBody(btype, s, pos, data[..a]) == Got(data[..b], pos + |body|)
  }

  lemma BlockDecodes(btype: nat, body: seq<bit>, pos: nat, data: seq<byte>, a: nat, b: nat, final: bool)
    requires btype < 4 && BodyDecodes(btype, body, pos + 3, data, a, b)
    ensures Decodes(BlockStart(final, btype) + body, pos, data, a, b, final)
  {
    hide InflateBlocks, InflateBody, At, BlockStart, ReadBits;
    var bits := BlockStart(final, btype) + body;
    forall s | At(s, pos, bits)
      ensures InflateBlocks(s, pos, data[..a])
                == if final then Got(data[..b], pos + |bits|) else InflateBlocks(s, pos + |bits|, data[..b])
    {
      AtSplit(s, pos, BlockStart(final, btype), body);
      ReadStart(s, pos, final, btype);
      BlockStep(s, pos, final, btype, data[..a], data[..b], pos + 3 + |body|);
    }
  }

  // ---- Compressed blocks ----

  ghost function SymbolBits(ll: seq<nat>, d: seq<nat>, us: seq<Token>): seq<bit>
    requires |ll| > END_OF_BLOCK
  {
    TokensBits(ll, d, us) + Codeword(ll, END_OF_BLOCK)
  }

  lemma SymbolsDecode(ll: seq<nat>, d: seq<nat>, us: seq<Token>, s: seq<bit>, pos: nat, data: seq<byte>, a: nat, b: nat)
    requires Feasible(ll, 15) && Feasible(d, 15) && |ll| > END_OF_BLOCK && ll[END_OF_BLOCK] != 0 && HaveCodes(ll, d, us)
    requires Covers(data, us, a, b) && a <= |data| && At(s, pos, SymbolBits(ll, d, us))
    ensures b <= |data| && InflateSymbols(ll, d, s, pos, data[..a]) == Got(data[..b], pos + |SymbolBits(ll, d, us)|)
  {
    hide Feasible, HaveCodes, Covers, At, InflateSymbols, TokensBits, ValidToken;
    CoversBound(data, us, a, b);
    ExpandCovers(data, us, a, b);
    DecodeTokens(ll, d, s, pos, us, data[..a]);
  }

  // Fixed codes

  lemma {:induction false} FixedKraft(n: nat)
    requires n <= 288
    ensures |FixedLL()| == 288
    ensures KraftSum(FixedLL()[..n], 15)
              == 128 * Min(n, 144) + 64 * Max(0, Min(n, 256) - 144) + 256 * Max(0, Min(n, 280) - 256)
                + 128 * Max(0, n - 280)
  {
    if n > 0 {
      FixedKraft(n - 1);
      FixedTerm(n - 1);
      assert FixedLL()[..n][..n - 1] == FixedLL()[..n - 1];
      hide FixedLL, KraftTerm;
    }
  }

  lemma FixedTerm(s: nat)
    requires s < 288
    ensures |FixedLL()| == 288
    ensures KraftTerm(FixedLL()[s], 15) == if s < 144 then 128 else if s < 256 then 64 else if s < 280 then 256 else 128
  {
    hide Pow2;
    PowersAre(8);
    PowersAre(7);
    PowersAre(6);
  }

  lemma FixedFeasible()
    ensures Feasible(FixedLL(), 15) && Feasible(FixedD(), 15)
  {
    FixedKraft(288);
    assert FixedLL()[..288] == FixedLL();
    KraftConstant(FixedD(), 5, 15);
    PowersAre(15);
    PowersAre(10);
  }

  lemma FixedCodes(us: seq<Token>)
    requires forall t :: t in us ==> ValidToken(t)
    ensures HaveCodes(FixedLL(), FixedD(), us)
  {
    forall t | t in us ensures HasCode(FixedLL(), FixedD(), t) {
      SymbolsInRange(t);
      hide LitLenSymbol, DistSymbol;
    }
  }

  lemma FixedBodyDecodes(us: seq<Token>, pos: nat, data: seq<byte>, a: nat, b: nat)
    requires Covers(data, us, a, b) && a <= |data|
    ensures BodyDecodes(1, SymbolBits(FixedLL(), FixedD(), us), pos, data, a, b)
  {
    CoversBound(data, us, a, b);
    FixedFeasible();
    FixedCodes(us);
    FixedEnd();
    var body := SymbolBits(FixedLL(), FixedD(), us);
    hide Feasible, HaveCodes, Covers, At, InflateSymbols, SymbolBits, ValidToken, FixedLL, FixedD;
    forall s | At(s, pos, body) ensures InflateBody(1, s, pos, data[..a]) == Got(data[..b], pos + |body|) {
      SymbolsDecode(FixedLL(), FixedD(), us, s, pos, data, a, b);
    }
  }

  lemma FixedEnd()
    ensures |FixedLL()| == NUM_LL && |FixedD()| == NUM_D && FixedLL()[END_OF_BLOCK] == 7
  {
  }

  // Dynamic codes

  lemma {:induction false} TrimmedSum(l: seq<nat>, n: nat, s: nat, k: nat)
    requires s < n <= |l| && k <= |l| && forall i :: n <= i < |l| ==> l[i] == 0
    ensures CodeSum(l, s, k) == CodeSum(l[..n], s, Min(k, n))
  {
    if k > 0 {
      TrimmedSum(l, n, s, k - 1);
      assert k <= n ==> l[..n][k - 1] == l[k - 1];
    }
  }

  /** Trailing unused symbols do not matter to the code words. */
  lemma TrimmedCodeword(l: seq<nat>, n: nat, s: nat)
    requires s < n <= |l| && forall i :: n <= i < |l| ==> l[i] == 0
    ensures Codeword(l[..n], s) == Codeword(l, s)
  {
    TrimmedSum(l, n, s, |l|);
  }

  lemma TrimmedHasCode(ll: seq<nat>, n: nat, d: seq<nat>, m: nat, t: Token)
    requires n <= |ll| && m <= |d| && (forall i :: n <= i < |ll| ==> ll[i] == 0)
    requires (forall i :: m <= i < |d| ==> d[i] == 0)
    requires HasCode(ll, d, t)
    ensures HasCode(ll[..n], d[..m], t) && TokenBits(ll[..n], d[..m], t) == TokenBits(ll, d, t)
  {
    hide LengthSymbol, ComputeDistCode, Codeword, Lsb;
    TrimmedCodeword(ll, n, LitLenSymbol(t));
    if t.dist > 0 { TrimmedCodeword(d, m, DistSymbol(t)); }
  }

  lemma {:induction false} TrimmedTokens(ll: seq<nat>, n: nat, d: seq<nat>, m: nat, us: seq<Token>)
    requires n <= |ll| && m <= |d| && (forall i :: n <= i < |ll| ==> ll[i] == 0)
    requires (forall i :: m <= i < |d| ==> d[i] == 0)
    requires HaveCodes(ll, d, us)
    ensures HaveCodes(ll[..n], d[..m], us) && TokensBits(ll[..n], d[..m], us) == TokensBits(ll, d, us)
    decreases |us|
  {
    hide HasCode, TokenBits;
    if |us| > 0 {
      assert us[0] in us;
      TrimmedHasCode(ll, n, d, m, us[0]);
      TrimmedTokens(ll, n, d, m, us[1..]);
      forall t | t in us ensures HasCode(ll[..n], d[..m], t) { assert t == us[0] || t in us[1..]; }
    }
  }

  ghost function DynamicBody(p: Pair, us: seq<Token>): seq<bit>
    requires ValidPair(p)
  {
    DynamicHeader(p.ll, p.d) + SymbolBits(p.ll, p.d, us)
  }

  lemma TrimmedPair(p: Pair, us: seq<Token>)
    requires DynamicPair(p.ll, p.d) && HaveCodes(p.ll, p.d, us)
    ensures var ll, d := TrimmedLL(p.ll), TrimmedD(p.d);
            && |ll| > END_OF_BLOCK && ll[END_OF_BLOCK] != 0 && Feasible(ll, 15) && Feasible(d, 15)
            && HaveCodes(ll, d, us)
            && SymbolBits(ll, d, us) == SymbolBits(p.ll, p.d, us)
  {
    TrimmedComplete(p.ll, p.d);
    hide HaveCodes, TokensBits, Codeword, KraftSum, Hlit, Hdist;
    TrimmedTokens(p.ll, 257 + Hlit(p.ll), p.d, 1 + Hdist(p.d), us);
    TrimmedCodeword(p.ll, 257 + Hlit(p.ll), END_OF_BLOCK);
  }

  lemma DynamicBodyDecodes(p: Pair, us: seq<Token>, pos: nat, data: seq<byte>, a: nat, b: nat)
    requires DynamicPair(p.ll, p.d) && HaveCodes(p.ll, p.d, us) && Covers(data, us, a, b) && a <= |data|
    ensures BodyDecodes(2, DynamicBody(p, us), pos, data, a, b)
  {
    hide *;
    CoversBound(data, us, a, b);
    PairIs(p, us);
    var body := DynamicBody(p, us);
    forall s | At(s, pos, body) ensures InflateBody(2, s, pos, data[..a]) == Got(data[..b], pos + |body|) {
      DynamicBodyAt(p, us, s, pos, data, a, b);
    }
    BodyIs(2, body, pos, data, a, b);
  }

  lemma BodyIs(btype: nat, body: seq<bit>, pos: nat, data: seq<byte>, a: nat, b: nat)
    requires a <= b <= |data|
    requires forall s :: At(s, pos, body) ==> InflateBody(btype, s, pos, data[..a]) == Got(data[..b], pos + |body|)
    ensures BodyDecodes(btype, body, pos, data, a, b)
  {
    hide InflateBody, At;
  }

  lemma DynamicBodyAt(p: Pair, us: seq<Token>, s: seq<bit>, pos: nat, data: seq<byte>, a: nat, b: nat)
    requires DynamicPair(p.ll, p.d) && HaveCodes(p.ll, p.d, us) && Covers(data, us, a, b) && a <= |data|
    requires At(s, pos, DynamicBody(p, us))
    ensures b <= |data| && InflateBody(2, s, pos, data[..a]) == Got(data[..b], pos + |DynamicBody(p, us)|)
  {
    hide *;
    PairIs(p, us);
    var header, symbols := DynamicHeader(p.ll, p.d), SymbolBits(p.ll, p.d, us);
    AtSplit(s, pos, header, symbols);
    TrimmedComplete(p.ll, p.d);
    ReadHeader(p.ll, p.d, Setting(BestSetting(p.ll, p.d, 8)), s, pos);
    TrimmedPair(p, us);
    SymbolsDecode(TrimmedLL(p.ll), TrimmedD(p.d), us, s, pos + |header|, data, a, b);
    DynamicStep(s, pos, data[..a], TrimmedLL(p.ll), TrimmedD(p.d), pos + |header|);
  }

  lemma PairIs(p: Pair, us: seq<Token>)
    requires DynamicPair(p.ll, p.d)
    ensures CodePair(p.ll, p.d) && ValidPair(p) && |p.ll| == NUM_LL && |p.d| == NUM_D
    ensures |p.ll| > END_OF_BLOCK && p.ll[END_OF_BLOCK] != 0
    ensures DynamicBody(p, us) == DynamicHeader(p.ll, p.d) + SymbolBits(p.ll, p.d, us)
    ensures DynamicHeader(p.ll, p.d) == HeaderBits(p.ll, p.d, Setting(BestSetting(p.ll, p.d, 8)))
  {
    hide HeaderBits, BestSetting, SymbolBits;
  }

  lemma DynamicStep(s: seq<bit>, pos: nat, out: seq<byte>, ll: seq<nat>, d: seq<nat>, pos1: nat)
    requires ReadDynamicCodes(s, pos) == Got((ll, d), pos1)
    ensures InflateBody(2, s, pos, out) == InflateSymbols(ll, d, s, pos1, out)
  {
    hide ReadDynamicCodes, InflateSymbols;
  }

  // ---- Stored blocks ----

  /** The zero bits up to the next byte boundary. */
  ghost function Pad(pos: nat): seq<bit> {
    seq(NextByteBoundary(pos) - pos, i => 0)
  }

  /** Length, complement and bytes. */
  ghost function StoredBytes(x: seq<byte>): seq<bit>
    requires |x| <= 65535
  {
    Lsb(|x|, 16) + (Lsb(65535 - |x|, 16) + BytesBits(x))
  }

  ghost function StoredBody(pos: nat, x: seq<byte>): seq<bit>
    requires |x| <= 65535
  {
    Pad(pos) + StoredBytes(x)
  }

  lemma {:induction false} ReadBytesBack(s: seq<bit>, pos: nat, x: seq<byte>)
    requires At(s, pos, BytesBits(x))
    ensures ReadBytes(s, pos, |x|) == Got(x, pos + 8 * |x|)
  {
    hide *;
    if |x| == 0 {
      NoBytes(s, pos, x);
    } else {
      var n := |x| - 1;
      assert x == x[..n] + [x[n]];
      BytesBitsNext(x[..n], x[n]);
      AtSplit(s, pos, BytesBits(x[..n]), Lsb(x[n], 8));
      ReadBytesBack(s, pos, x[..n]);
      PowerOfByte(x[n]);
      ReadLsb(s, pos + 8 * n, x[n], 8);
      ReadBytesStep(s, pos, x[..n], x[n]);
    }
  }

  lemma NoBytes(s: seq<bit>, pos: nat, x: seq<byte>)
    requires |x| == 0
    ensures ReadBytes(s, pos, |x|) == Got(x, pos)
  {
  }

  lemma PowerOfByte(x: byte)
    ensures x < Pow2(8)
  {
    PowersAre(8);
  }

  lemma ReadBytesStep(s: seq<bit>, pos: nat, x: seq<byte>, b: byte)
    requires ReadBytes(s, pos, |x|) == Got(x, pos + 8 * |x|)
    requires ReadBits(s, pos + 8 * |x|, 8) == Got(b, pos + 8 * |x| + 8)
    ensures ReadBytes(s, pos, |x| + 1) == Got(x + [b], pos + 8 * |x| + 8)
  {
    hide ReadBits;
  }

  lemma StoredStep(s: seq<bit>, pos: nat, x: seq<byte>, out: seq<byte>, p: nat)
    requires |x| <= 65535 && p == NextByteBoundary(pos)
    requires ReadBits(s, p, 16) == Got(|x|, p + 16) && ReadBits(s, p + 16, 16) == Got(65535 - |x|, p + 32)
    requires ReadBytes(s, p + 32, |x|) == Got(x, p + 32 + 8 * |x|)
    ensures InflateBody(0, s, pos, out) == Got(out + x, p + 32 + 8 * |x|)
  {
    hide ReadBits, ReadBytes;
  }

  lemma StoredBodyDecodes(pos: nat, data: seq<byte>, a: nat, b: nat)
    requires a <= b <= |data| && b - a <= 65535
    ensures BodyDecodes(0, StoredBody(pos, data[a..b]), pos, data, a, b)
  {
    hide *;
    var x := data[a..b];
    var body := StoredBody(pos, x);
    assert data[..a] + x == data[..b];
    forall s | At(s, pos, body) ensures InflateBody(0, s, pos, data[..a]) == Got(data[..b], pos + |body|) {
      StoredBodyAt(s, pos, x, data[..a]);
    }
    BodyIs(0, body, pos, data, a, b);
  }

  lemma SixteenBits()
    ensures Pow2(16) == 65536
  {
    PowersAre(15);
    Pow2Next(15);
  }

  lemma StoredBodyAt(s: seq<bit>, pos: nat, x: seq<byte>, out: seq<byte>)
    requires |x| <= 65535 && At(s, pos, StoredBody(pos, x))
    ensures InflateBody(0, s, pos, out) == Got(out + x, pos + |StoredBody(pos, x)|)
  {
    SixteenBits();
    hide InflateBody, At, Lsb, BytesBits, ReadBits;
    var p := NextByteBoundary(pos);
    AtSplit(s, pos, Pad(pos), StoredBytes(x));
    AtSplit(s, p, Lsb(|x|, 16), Lsb(65535 - |x|, 16) + BytesBits(x));
    AtSplit(s, p + 16, Lsb(65535 - |x|, 16), BytesBits(x));
    ReadLsb(s, p, |x|, 16);
    ReadLsb(s, p + 16, 65535 - |x|, 16);
    ReadBytesBack(s, p + 32, x);
    StoredStep(s, pos, x, out, p);
  }

  /** One stored block. */
  ghost function StoredBlock(pos: nat, x: seq<byte>, final: bool): seq<bit>
    requires |x| <= 65535
  {
    BlockStart(final, 0) + StoredBody(pos + 3, x)
  }

  /** The bits for data[a..b] in as many stored blocks as it takes. */
  ghost function StoredBits(pos: nat, data: seq<byte>, a: nat, b: nat, final: bool): seq<bit>
    requires a <= b <= |data|
    decreases b - a
  {
    if b - a <= 65535 then StoredBlock(pos, data[a..b], final)
    else
      var x := StoredBlock(pos, data[a..a + 65535], false);
      x + StoredBits(pos + |x|, data, a + 65535, b, final)
  }

  /** Stored blocks decode at any bit offset; only the last one is marked final. */
  lemma {:induction false} StoredDecodes(pos: nat, data: seq<byte>, a: nat, b: nat, final: bool)
    requires a <= b <= |data|
    ensures Decodes(StoredBits(pos, data, a, b, final), pos, data, a, b, final)
    decreases b - a
  {
    hide Decodes, BodyDecodes, StoredBody, BlockStart;
    if b - a <= 65535 {
      StoredBodyDecodes(pos + 3, data, a, b);
      BlockDecodes(0, StoredBody(pos + 3, data[a..b]), pos, data, a, b, final);
    } else {
      var x := StoredBlock(pos, data[a..a + 65535], false);
      StoredBodyDecodes(pos + 3, data, a, a + 65535);
      BlockDecodes(0, StoredBody(pos + 3, data[a..a + 65535]), pos, data, a, a + 65535, false);
      StoredDecodes(pos + |x|, data, a + 65535, b, final);
      DecodesJoin(x, StoredBits(pos + |x|, data, a + 65535, b, final), pos, data, a, a + 65535, b, final);
    }
  }

  // ---- Predicted sizes ----

  /** The predicted size of stored blocks: 5 bytes for each block, and the data. */
  function StoredCost(length: nat): nat {
    (length / 65535 + (if length % 65535 != 0 then 1 else 0)) * 40 + length * 8
  }

  lemma StoredBlockSize(pos: nat, x: seq<byte>, final: bool)
    requires |x| <= 65535
    ensures 35 + 8 * |x| <= |StoredBlock(pos, x, final)| <= 42 + 8 * |x|
    ensures (pos + |StoredBlock(pos, x, final)|) % 8 == 0
    ensures pos % 8 == 0 ==> |StoredBlock(pos, x, final)| == 40 + 8 * |x|
  {
    hide Lsb, BytesBits;
  }

  lemma StoredCostStep(length: nat)
    requires length > 65535
    ensures StoredCost(length) == 40 + 8 * 65535 + StoredCost(length - 65535)
  {
    assert length / 65535 == (length - 65535) / 65535 + 1 && length % 65535 == (length - 65535) % 65535;
  }

  /** At any bit offset nonempty stored data takes at most 2 bits more, and at most 5 bits less,
      than predicted; at a byte boundary exactly as many. */
  lemma {:induction false} StoredSize(pos: nat, data: seq<byte>, a: nat, b: nat, final: bool)
    requires a < b <= |data|
    ensures StoredCost(b - a) - 5 <= |StoredBits(pos, data, a, b, final)| <= StoredCost(b - a) + 2
    ensures pos % 8 == 0 ==> |StoredBits(pos, data, a, b, final)| == StoredCost(b - a)
    decreases b - a
  {
    hide StoredBlock;
    if b - a <= 65535 {
      StoredBlockSize(pos, data[a..b], final);
    } else {
      StoredCostStep(b - a);
      var x := StoredBlock(pos, data[a..a + 65535], false);
      StoredBlockSize(pos, data[a..a + 65535], false);
      StoredSize(pos + |x|, data, a + 65535, b, final);
    }
  }
}
