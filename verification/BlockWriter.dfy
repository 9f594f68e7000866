/** Writing blocks: each kind takes exactly its bits, and the kind is chosen by predicted size. */
module BlockWriter {
  import opened Prelude
  import opened Bits
  import opened PrefixCode
  import opened Symbols
  import opened Inflate
  import opened Tokens
  import opened TreeCode
  import opened TreeWriter
  import opened HashChain
  import opened MatchCache
  import opened MatchFinder
  import opened Store
  import opened Parse
  import opened ShortestPath
  import opened Squeeze
  import opened DynamicLengths
  import opened Blocks
  import opened BlockSize
  import opened Optimal
  import Tree

  // ---- The body of a compressed block ----

  /** The code words of all symbols that have one. */
  ghost predicate CodesOf(symbols: seq<nat>, lengths: seq<nat>) {
    |symbols| == |lengths| && forall s :: 0 <= s < |lengths| && lengths[s] != 0 ==> symbols[s] == Code(lengths, s)
  }

  lemma TokenParts(ll: seq<nat>, d: seq<nat>, llSymbols: seq<nat>, dSymbols: seq<nat>, t: Token)
    requires HasCode(ll, d, t) && CodesOf(llSymbols, ll) && CodesOf(dSymbols, d)
    ensures t.dist == 0 ==>
            t.litlen < |ll| == |llSymbols| && TokenBits(ll, d, t) == Msb(llSymbols[t.litlen], ll[t.litlen])
    ensures t.dist > 0 ==>
              var s, c := LengthSymbol(t.litlen), ComputeDistCode(t.dist);
              && s < |ll| == |llSymbols| && c.symbol < |d| == |dSymbols|
              && TokenBits(ll, d, t)
                 == Msb(llSymbols[s], ll[s]) + (Lsb(LengthExtraValue(t.litlen), LengthExtraBits(t.litlen))
                                        + (Msb(dSymbols[c.symbol], d[c.symbol]) + Lsb(c.extraValue, c.extraBits)))
  {
    hide Code, LengthSymbol, ComputeDistCode, LengthExtraValue, LengthExtraBits, Msb, Lsb;
  }

  method AddToken(litlen: nat, dist: nat, llSymbols: seq<nat>, ll: seq<nat>, dSymbols: seq<nat>, d: seq<nat>,
                  w: BitWriter)
    requires HasCode(ll, d, Token(litlen, dist)) && CodesOf(llSymbols, ll) && CodesOf(dSymbols, d) && w.Valid()
    modifies w
    ensures w.Valid() && w.written == old(w.written) + TokenBits(ll, d, Token(litlen, dist))
  {
    hide *;
    ghost var w0 := w.written;
    TokenParts(ll, d, llSymbols, dSymbols, Token(litlen, dist));
    if dist == 0 {
      w.AddHuffmanBits(llSymbols[litlen], ll[litlen]);
    } else {
      var lls, ds := LengthSymbol(litlen), ComputeDistCode(dist);
      w.AddHuffmanBits(llSymbols[lls], ll[lls]);
      w.AddBits(LengthExtraValue(litlen), LengthExtraBits(litlen));
      w.AddHuffmanBits(dSymbols[ds.symbol], d[ds.symbol]);
      w.AddBits(ds.extraValue, ds.extraBits);
      assert w.written == w0 + (Msb(llSymbols[lls], ll[lls]) + (Lsb(LengthExtraValue(litlen), LengthExtraBits(litlen))
                                + (Msb(dSymbols[ds.symbol], d[ds.symbol]) + Lsb(ds.extraValue, ds.extraBits))));
    }
  }

  /** Write tokens lstart to lend. */
  method AddLZ77Data(store: LZ77Store, lstart: nat, lend: nat, llSymbols: seq<nat>, ll: seq<nat>, dSymbols: seq<nat>,
                     d: seq<nat>, w: BitWriter)
    requires store.Valid() && lstart <= lend <= store.size && lend <= |store.tokens|
    requires HaveCodes(ll, d, store.tokens[lstart..lend])
    requires CodesOf(llSymbols, ll) && CodesOf(dSymbols, d) && w.Valid()
    modifies w
    ensures w.Valid() && w.written == old(w.written) + TokensBits(ll, d, store.tokens[lstart..lend])
  {
    hide *;
    StoreSize(store);
    ghost var us := store.tokens[lstart..lend];
    NoTokens(ll, d);
    assert us[..0] == [];
    for i := lstart to lend
      invariant w.Valid() && w.written == old(w.written) + TokensBits(ll, d, us[..i - lstart])
    {
      TokenAtIndex(store, lstart, lend, i, ll, d);
      TokensBitsNext(ll, d, us, i - lstart);
      AddToken(store.litlens[i], store.dists[i], llSymbols, ll, dSymbols, d, w);
    }
    assert us[..lend - lstart] == us;
  }

  lemma NoTokens(ll: seq<nat>, d: seq<nat>)
    ensures TokensBits(ll, d, []) == []
  {
  }

  lemma TokenAtIndex(store: LZ77Store, lstart: nat, lend: nat, i: nat, ll: seq<nat>, d: seq<nat>)
    requires store.Valid() && lstart <= i < lend <= store.size && lend <= |store.tokens|
    requires HaveCodes(ll, d, store.tokens[lstart..lend])
    ensures i < |store.litlens| == |store.dists|
    ensures store.tokens[lstart..lend][i - lstart] == Token(store.litlens[i], store.dists[i])
    ensures HasCode(ll, d, Token(store.litlens[i], store.dists[i]))
  {
    hide HasCode;
    TokenInStore(store, i);
    assert store.tokens[lstart..lend][i - lstart] in store.tokens[lstart..lend];
  }

  method BuildSymbols(lengths: seq<nat>) returns (symbols: seq<nat>)
    requires Within(lengths, 15)
    ensures CodesOf(symbols, lengths)
  {
    hide Code;
    var s := new nat[|lengths|](_ => 0);
    Tree.LengthsToSymbols(lengths, 15, s);
    symbols := s[..];
  }

  /** The tokens and the end of a block in given codes. */
  method AddSymbols(store: LZ77Store, lstart: nat, lend: nat, ll: seq<nat>, d: seq<nat>, w: BitWriter)
    requires store.Valid() && lstart <= lend <= store.size && lend <= |store.tokens|
    requires HaveCodes(ll, d, store.tokens[lstart..lend])
    requires Within(ll, 15) && Within(d, 15) && |ll| > END_OF_BLOCK && ll[END_OF_BLOCK] != 0 && w.Valid()
    modifies w
    ensures w.Valid() && w.written == old(w.written) + SymbolBits(ll, d, store.tokens[lstart..lend])
  {
    hide *;
    var llSymbols := BuildSymbols(ll);
    var dSymbols := BuildSymbols(d);
    AddLZ77Data(store, lstart, lend, llSymbols, ll, dSymbols, d, w);
    EndWord(ll, d, llSymbols, store.tokens[lstart..lend]);
    w.AddHuffmanBits(llSymbols[256], ll[256]);
  }

  lemma EndWord(ll: seq<nat>, d: seq<nat>, llSymbols: seq<nat>, us: seq<Token>)
    requires CodesOf(llSymbols, ll) && |ll| > END_OF_BLOCK && ll[END_OF_BLOCK] != 0
    ensures |llSymbols| == |ll| > 256 && SymbolBits(ll, d, us) == TokensBits(ll, d, us) + Msb(llSymbols[256], ll[256])
  {
    hide Code, TokensBits, Msb;
  }

  // ---- Stored blocks ----

  lemma {:induction false} LsbSplit(v: nat, n: nat, m: nat)
    ensures Lsb(v, n + m) == Lsb(v, n) + Lsb(ShiftRight(v, n), m)
  {
    if n > 0 {
      LsbSplit(v / 2, n - 1, m);
      ShiftStep(v, n - 1);
    }
  }

  lemma ShiftByte(v: nat)
    ensures ShiftRight(v, 8) == v / 256
  {
    assert ShiftRight(v, 4) == v / 16 by { ShiftFour(v); }
    assert ShiftRight(v, 8) == v / 16 / 16 by { ShiftFourMore(v); }
  }

  lemma ShiftFour(v: nat)
    ensures ShiftRight(v, 4) == v / 16
  {
    assert ShiftRight(v, 1) == v / 2;
    assert ShiftRight(v, 2) == v / 4;
    assert ShiftRight(v, 3) == v / 8;
  }

  lemma ShiftFourMore(v: nat)
    ensures ShiftRight(v, 8) == ShiftRight(v, 4) / 16
  {
    var x := ShiftRight(v, 4);
    assert ShiftRight(v, 5) == x / 2;
    assert ShiftRight(v, 6) == x / 4;
    assert ShiftRight(v, 7) == x / 8;
  }

  /** The low byte and the rest. */
  lemma TwoBytes(v: nat)
    requires v < 65536
    ensures 0 <= v % 256 < 256 && 0 <= v / 256 % 256 < 256 && Lsb(v, 16) == Lsb(v % 256, 8) + Lsb(v / 256 % 256, 8)
  {
    hide *;
    LsbSplit(v, 8, 8);
    ShiftByte(v);
    BytePower();
    LsbLow(v, 8);
    HighByte(v);
  }

  lemma BytePower()
    ensures Pow2(8) == 256
  {
    PowersAre(8);
  }

  lemma HighByte(v: nat)
    requires v < 65536
    ensures v / 256 % 256 == v / 256
  {
  }

  lemma DivTwice(v: nat, p: nat)
    requires p > 0
    ensures v / 2 / p == v / (2 * p)
  {
    var q := v / 2 / p;
    assert v / 2 == q * p + v / 2 % p;
    DivIs(v, 2 * p, q, v % 2 + 2 * (v / 2 % p));
  }

  lemma DivIs(v: nat, p: nat, q: nat, r: nat)
    requires v == q * p + r && r < p
    ensures v / p == q
  {
    var d := v / p - q;
    assert v == (v / p) * p + v % p;
    assert d * p == r - v % p;
    assert d >= 1 ==> d * p >= p;
    assert d <= -1 ==> d * p + p <= 0;
  }

  lemma {:induction false} LsbLow(v: nat, n: nat)
    ensures Lsb(v % Pow2(n), n) == Lsb(v, n)
  {
    if n > 0 {
      LsbLow(v / 2, n - 1);
      ModHalf(v, Pow2(n - 1));
    }
  }

  lemma ModHalf(v: nat, p: nat)
    requires p > 0
    ensures v % (2 * p) / 2 == v / 2 % p && v % (2 * p) % 2 == v % 2
  {
    DivTwice(v, p);
    var q := v / (2 * p);
    assert v % (2 * p) == v - q * (2 * p);
    assert v / 2 % p == v / 2 - q * p;
    assert v - q * (2 * p) == v % 2 + 2 * (v / 2 - q * p);
  }

  /** A 16-bit number as two bytes, low byte first. */
  method AddTwoBytes(v: nat, w: BitWriter)
    requires v < 65536 && w.Valid() && w.bp == 0
    modifies w
    ensures w.Valid() && w.bp == 0 && w.written == old(w.written) + Lsb(v, 16)
  {
    hide *;
    TwoBytes(v);
    ghost var w0 := w.written;
    w.AddByte(v % 256);
    w.AddByte(v / 256 % 256);
    assert w.written == w0 + (Lsb(v % 256, 8) + Lsb(v / 256 % 256, 8));
  }

  /** After the three bits of a block start: padding, length, complement, bytes. */
  method AddStored(x: seq<byte>, w: BitWriter)
    requires |x| <= 65535 && w.Valid()
    modifies w
    ensures w.Valid() && w.bp == 0 && w.written == old(w.written) + StoredBody(|old(w.written)|, x)
  {
    hide *;
    ghost var w0 := w.written;
    PadIs(w);
    w.Align();
    AddTwoBytes(|x|, w);
    AddTwoBytes(65535 - |x|, w);
    w.AddBytes(x);
    StoredBodyIs(|w0|, x);
    assert w.written == w0 + (Pad(|w0|) + (Lsb(|x|, 16) + (Lsb(65535 - |x|, 16) + BytesBits(x))));
  }

  lemma PadIs(w: BitWriter)
    requires w.Valid()
    ensures w.bp < 8 && seq((8 - w.bp) % 8, i => 0) == Pad(|w.written|)
  {
    hide Packs;
    PackedWriter(w);
  }

  lemma PackedWriter(w: BitWriter)
    requires w.Valid()
    ensures w.bp < 8 && |w.written| % 8 == w.bp
  {
    PackedLength(w.out, w.bp, w.written);
  }

  lemma StoredBodyIs(pos: nat, x: seq<byte>)
    requires |x| <= 65535
    ensures StoredBody(pos, x) == Pad(pos) + (Lsb(|x|, 16) + (Lsb(65535 - |x|, 16) + BytesBits(x)))
  {
    hide Lsb, BytesBits, Pad;
  }

  /** The three bits that start a block. */
  method AddBlockStart(final: bool, btype: nat, w: BitWriter)
    requires btype < 4 && w.Valid()
    modifies w
    ensures w.Valid() && w.written == old(w.written) + BlockStart(final, btype)
  {
    StartBits(final, btype);
    hide *;
    ghost var w0 := w.written;
    w.AddBit(if final then 1 else 0);
    w.AddBit(btype % 2);
    w.AddBit(btype / 2 % 2);
    assert w.written == w0 + [if final then 1 else 0, btype % 2, btype / 2 % 2];
  }

  lemma StartBits(final: bool, btype: nat)
    ensures BlockStart(final, btype) == [if final then 1 else 0, btype % 2, btype / 2 % 2]
  {
    assert Lsb(btype, 2) == [btype % 2] + Lsb(btype / 2, 1);
    assert Lsb(btype / 2, 1) == [btype / 2 % 2] + Lsb(btype / 2 / 2, 0);
  }

  lemma StoredBitsStep(pos: nat, data: seq<byte>, a: nat, b: nat, final: bool)
    requires a <= b <= |data|
    ensures if b - a <= 65535 then StoredBits(pos, data, a, b, final) == StoredBlock(pos, data[a..b], final)
            else var x := StoredBlock(pos, data[a..a + 65535], false);
              StoredBits(pos, data, a, b, final) == x + StoredBits(pos + |x|, data, a + 65535, b, final)
    ensures b - a <= 65535 ==>
            StoredBlock(pos, data[a..b], final) == BlockStart(final, 0) + StoredBody(pos + 3, data[a..b])
    ensures b - a > 65535 ==>
            StoredBlock(pos, data[a..a + 65535], false)
              == BlockStart(false, 0) + StoredBody(pos + 3, data[a..a + 65535])
  {
    hide BlockStart, StoredBody;
  }

  /** Write data as stored blocks of at most 65535 bytes each. */
  method AddNonCompressedBlock(final: bool, data: seq<byte>, instart: nat, inend: nat, w: BitWriter)
    requires instart <= inend <= |data| && w.Valid()
    modifies w
    ensures w.Valid() && w.written == old(w.written) + StoredBits(|old(w.written)|, data, instart, inend, final)
  {
    hide *;
    ghost var w0, all := w.written, StoredBits(|w.written|, data, instart, inend, final);
    var pos := instart;
    while true
      invariant instart <= pos <= inend && w.Valid()
      invariant w.written + StoredBits(|w.written|, data, pos, inend, final) == w0 + all
      decreases inend - pos
    {
      ghost var w1 := w.written;
      StoredBitsStep(|w1|, data, pos, inend, final);
      var blocksize := 65535;
      if pos + blocksize > inend {
        blocksize := inend - pos;
      }
      var currentFinal := pos + blocksize >= inend;
      AddBlockStart(final && currentFinal, 0, w);
      AddStored(data[pos..pos + blocksize], w);
      if currentFinal {
        assert w.written == w1 + StoredBlock(|w1|, data[pos..inend], final);
        break;
      }
      ghost var x := StoredBlock(|w1|, data[pos..pos + 65535], false);
      assert w.written == w1 + x;
      assert w1 + (x + StoredBits(|w1| + |x|, data, pos + 65535, inend, final))
        == w1 + x + StoredBits(|w1 + x|, data, pos + 65535, inend, final);
      pos := pos + blocksize;
    }
  }

  // ---- One block of a given type ----

  /** The bits of a block of tokens that stand for data[p..q]. */
  ghost function BlockBits(btype: nat, final: bool, us: seq<Token>, pos: nat, data: seq<byte>, p: nat, q: nat): seq<bit>
    requires p <= q <= |data|
  {
    if btype == 0 then StoredBits(pos, data, p, q, final)
    else if btype == 1 then FixedEnd(); BlockStart(final, 1) + SymbolBits(FixedLL(), FixedD(), us)
    else BlockStart(final, 2) + DynamicBody(BestPair(us), us)
  }

  /** A block of any type decodes to the data that its tokens stand for. */
  lemma BlockBitsDecode(btype: nat, final: bool, us: seq<Token>, pos: nat, data: seq<byte>, p: nat, q: nat)
    requires btype <= 2 && p <= |data| && Covers(data, us, p, q) && (btype == 2 ==> |us| > 0)
    ensures q <= |data| && p <= q && Decodes(BlockBits(btype, final, us, pos, data, p, q), pos, data, p, q, final)
  {
    hide *;
    CoversBound(data, us, p, q);
    AllValid(us);
    BlockBitsAre(btype, final, us, pos, data, p, q);
    if btype == 0 {
      StoredDecodes(pos, data, p, q, final);
    } else if btype == 1 {
      FixedBodyDecodes(us, pos + 3, data, p, q);
      BlockDecodes(1, SymbolBits(FixedLL(), FixedD(), us), pos, data, p, q, final);
    } else {
      BestPairServes(us);
      DynamicBodyDecodes(BestPair(us), us, pos + 3, data, p, q);
      BlockDecodes(2, DynamicBody(BestPair(us), us), pos, data, p, q, final);
    }
  }

  lemma BlockBitsAre(btype: nat, final: bool, us: seq<Token>, pos: nat, data: seq<byte>, p: nat, q: nat)
    requires p <= q <= |data|
    ensures |FixedLL()| > END_OF_BLOCK
    ensures BlockBits(btype, final, us, pos, data, p, q) == (
              if btype == 0 then StoredBits(pos, data, p, q, final)
              else if btype == 1 then BlockStart(final, 1) + SymbolBits(FixedLL(), FixedD(), us)
              else BlockStart(final, 2) + DynamicBody(BestPair(us), us))
  {
    FixedEnd();
    hide StoredBits, BlockStart, SymbolBits, DynamicBody, BestPair, FixedLL, FixedD;
  }

  /** Compressed blocks take exactly the predicted number of bits; stored ones at most 2 more. */
  lemma BlockBitsSize(btype: nat, final: bool, us: seq<Token>, pos: nat, data: seq<byte>, p: nat, q: nat)
    requires btype <= 2 && p <= |data| && Covers(data, us, p, q) && |us| > 0
    ensures q <= |data| && p <= q
    ensures var size := |BlockBits(btype, final, us, pos, data, p, q)|;
            if btype == 0 then BlockCost(us, 0) - 5 <= size <= BlockCost(us, 0) + 2 else size == BlockCost(us, btype)
  {
    hide *;
    CoversBound(data, us, p, q);
    AllValid(us);
    BlockBitsAre(btype, final, us, pos, data, p, q);
    FixedEnd();
    CostIs(us, btype);
    if btype == 0 {
      WholeSlice(us);
      PositionFrom(us, p, 0, |us|);
      CoversSlice(data, us, p, q, 0, |us|);
      FirstPosition(us, p);
      StoredSize(pos, data, p, q, final);
    } else if btype == 1 {
      FixedCodes(us);
      SymbolBitsSize(FixedLL(), FixedD(), us);
    } else {
      BestPairServes(us);
      PairParts(BestPair(us));
      SymbolBitsSize(BestPair(us).ll, BestPair(us).d, us);
      DynamicParts(BestPair(us), us);
    }
  }

  lemma WholeSlice(us: seq<Token>)
    ensures us[0..|us|] == us
  {
  }

  lemma FirstPosition(us: seq<Token>, p: nat)
    ensures Position(us, p, 0) == p
  {
  }

  lemma SymbolBitsSize(ll: seq<nat>, d: seq<nat>, us: seq<Token>)
    requires |ll| == NUM_LL && |d| == NUM_D && HaveCodes(ll, d, us)
    ensures |ll| > END_OF_BLOCK && |SymbolBits(ll, d, us)| == SymbolSize(ll, d, us)
  {
    hide HaveCodes, TokensBits, TokensSize;
    TokensSizeIs(ll, d, us);
  }

  lemma DynamicParts(p: Pair, us: seq<Token>)
    requires ValidPair(p) && |p.ll| > END_OF_BLOCK
    ensures DynamicBody(p, us) == DynamicHeader(p.ll, p.d) + SymbolBits(p.ll, p.d, us)
    ensures |p.ll| == NUM_LL && |p.d| == NUM_D
    ensures DynamicSize(p, us) == |DynamicHeader(p.ll, p.d)| + SymbolSize(p.ll, p.d, us)
  {
    hide DynamicHeader, SymbolBits, SymbolSize;
  }

  lemma SliceOfParse(store: LZ77Store, lstart: nat, lend: nat, a: nat, b: nat)
    requires Parses(store, a, b) && a <= |store.data| && lstart <= lend <= store.size
    ensures lend <= |store.tokens| == |store.pos|
    ensures var us, p, q :=
            store.tokens[lstart..lend], Position(store.tokens, a, lstart), Position(store.tokens, a, lend);
            && a <= p <= q <= b <= |store.data| && Covers(store.data, us, p, q)
            && (lstart < lend ==> store.pos[lstart] == p) && (lstart == lend ==> p == q)
  {
    hide Covers, Position;
    ParseIs(store, a, b);
    CoversBound(store.data, store.tokens, a, b);
    CoversSlice(store.data, store.tokens, a, b, 0, lstart);
    CoversSlice(store.data, store.tokens, a, b, lstart, lend);
    CoversSlice(store.data, store.tokens, a, b, lend, |store.tokens|);
    FirstPosition(store.tokens, a);
    CoversBound(store.data, store.tokens[0..lstart], a, Position(store.tokens, a, lstart));
    CoversBound(store.data, store.tokens[lstart..lend], Position(store.tokens, a, lstart),
                Position(store.tokens, a, lend));
    CoversBound(store.data, store.tokens[lend..|store.tokens|], Position(store.tokens, a, lend), b);
  }

  lemma EmptyStored(pos: nat, data: seq<byte>, p: nat, final: bool)
    requires p <= |data|
    ensures StoredBits(pos, data, 0, 0, final) == StoredBits(pos, data, p, p, final)
  {
    assert data[0..0] == data[p..p];
  }

  /** Write tokens lstart to lend as a block of the given type. */
  method AddLZ77Block(btype: nat, final: bool, store: LZ77Store, lstart: nat, lend: nat, w: BitWriter, ghost a: nat,
                      ghost b: nat)
    requires Parses(store, a, b) && a <= |store.data| && lstart <= lend <= store.size && btype <= 2
    requires (btype == 2 ==> lstart < lend) && w.Valid()
    modifies w
    ensures w.Valid() && lend <= |store.tokens|
    ensures Position(store.tokens, a, lstart) <= Position(store.tokens, a, lend) <= |store.data|
    ensures w.written == old(w.written)
            + BlockBits(btype, final, store.tokens[lstart..lend], |old(w.written)|, store.data,
                                                    Position(store.tokens, a, lstart), Position(store.tokens, a, lend))
  {
    hide *;
    ParseIs(store, a, b);
    SliceOfParse(store, lstart, lend, a, b);
    ghost var w0, us, p, q :=
      w.written, store.tokens[lstart..lend], Position(store.tokens, a, lstart), Position(store.tokens, a, lend);
    BlockBitsAre(btype, final, us, |w0|, store.data, p, q);
    if btype == 0 {
      var length := RangeOf(store, lstart, lend, a, b);
      var pos := 0;
      if lstart != lend {
        pos := store.pos[lstart];
      }
      if lstart == lend { EmptyStored(|w0|, store.data, p, final); }
      AddNonCompressedBlock(final, store.data, pos, pos + length, w);
      return;
    }
    CoversBound(store.data, us, p, q);
    AllValid(us);
    AddBlockStart(final, btype, w);
    if btype == 1 {
      FixedCodes(us);
      FixedLimits();
      var ll, d := GetFixedTree();
      AddSymbols(store, lstart, lend, ll, d, w);
      assert w.written == w0 + (BlockStart(final, 1) + SymbolBits(ll, d, us));
    } else {
      BestPairServes(us);
      BestLimits(us);
      var ll, d, size := GetDynamicLengths(store, lstart, lend);
      AddDynamicTree(ll, d, w);
      AddSymbols(store, lstart, lend, ll, d, w);
      DynamicParts(BestPair(us), us);
      assert w.written == w0 + (BlockStart(final, 2) + (DynamicHeader(ll, d) + SymbolBits(ll, d, us)));
    }
  }

  lemma FixedLimits()
    ensures Within(FixedLL(), 15) && Within(FixedD(), 15) && |FixedLL()| > END_OF_BLOCK && FixedLL()[END_OF_BLOCK] != 0
  {
  }

  lemma BestLimits(us: seq<Token>)
    requires DynamicPair(BestPair(us).ll, BestPair(us).d)
    ensures var p := BestPair(us);
            CodePair(p.ll, p.d) && ValidPair(p) && Within(p.ll, 15) && Within(p.d, 15) && |p.ll| > END_OF_BLOCK
              && p.ll[END_OF_BLOCK] != 0
  {
    hide BestPair;
  }

  /** The parse for the fixed code, written as a fixed block, takes exactly the cost that was found for
      it, and ten bits for the start and the end of the block. */
  lemma FixedParseSize(b: Block, final: bool, pos: nat)
    requires ProperBlock(b)
    ensures b.start <= b.end <= |b.data| && |FixedCells(b)| == b.end - b.start + 1
    ensures |BlockBits(1, final, FixedTokens(b), pos, b.data, b.start, b.end)| as real
            == FixedCells(b)[b.end - b.start].cost + 10.0
  {
    hide *;
    ProperIs(b);
    FixedTokensCover(b);
    FixedCostIsSize(b);
    CostIs(FixedTokens(b), 1);
    FixedSymbols(FixedTokens(b));
    BlockBitsSize(1, final, FixedTokens(b), pos, b.data, b.start, b.end);
  }

  lemma FixedSymbols(us: seq<Token>)
    ensures |FixedLL()| == NUM_LL && |FixedD()| == NUM_D
    ensures SymbolSize(FixedLL(), FixedD(), us) == TokensSize(FixedLL(), FixedD(), us) + 7
  {
    FixedEnd();
    FixedShortest();
    hide TokensSize;
  }

  // ---- Choosing the type ----

  /** Is it worth parsing the block again for the fixed code? */
  ghost predicate ExpensiveFixed(us: seq<Token>, storeSize: nat) {
    storeSize < 1000 || BlockCost(us, 1) as real <= BlockCost(us, 2) as real * 1.1
  }

  /** The tokens for a fixed block of data[p..q]. */
  ghost function FixedChoice(us: seq<Token>, storeSize: nat, data: seq<byte>, p: nat, q: nat): seq<Token>
    requires p <= q <= |data|
  {
    if ExpensiveFixed(us, storeSize) then FixedTokens(Block(data, p, q)) else us
  }

  ghost function ChosenType(us: seq<Token>, storeSize: nat, data: seq<byte>, p: nat, q: nat): (t: nat)
    requires p <= q <= |data|
    ensures t <= 2
  {
    var uncompressed, fixed, dyn :=
      BlockCost(us, 0), BlockCost(FixedChoice(us, storeSize, data, p, q), 1), BlockCost(us, 2);
    if uncompressed < fixed && uncompressed < dyn then 0 else if fixed < dyn then 1 else 2
  }

  ghost function ChosenTokens(us: seq<Token>, storeSize: nat, data: seq<byte>, p: nat, q: nat): seq<Token>
    requires p <= q <= |data|
  {
    if ChosenType(us, storeSize, data, p, q) == 1 then FixedChoice(us, storeSize, data, p, q) else us
  }

  /** The bits for tokens that stand for data[p..q]. */
  ghost function AutoBits(final: bool, us: seq<Token>, storeSize: nat, pos: nat, data: seq<byte>, p: nat,
                          q: nat): seq<bit>
    requires p <= q <= |data|
  {
    if |us| == 0 then [FinalBit(final)] + (Lsb(1, 2) + Lsb(0, 7))
    else BlockBits(ChosenType(us, storeSize, data, p, q), final, ChosenTokens(us, storeSize, data, p, q), pos, data, p,
                   q)
  }

  lemma FixedTokensCover(b: Block)
    requires ProperBlock(b)
    ensures Covers(b.data, FixedTokens(b), b.start, b.end) && |FixedTokens(b)| > 0
  {
    hide *;
    ProperIs(b);
    FixedCovers(b);
    NotEmpty(b.data, FixedTokens(b), b.start, b.end);
  }

  lemma NotEmpty(data: seq<byte>, us: seq<Token>, p: nat, q: nat)
    requires Covers(data, us, p, q)
    ensures p < q ==> |us| > 0
    ensures |us| == 0 ==> p == q
  {
  }

  lemma ChosenCover(us: seq<Token>, storeSize: nat, data: seq<byte>, p: nat, q: nat)
    requires p <= q <= |data| && q - p <= MASTER_BLOCK_SIZE && Covers(data, us, p, q) && |us| > 0
    ensures Covers(data, FixedChoice(us, storeSize, data, p, q), p, q) && |FixedChoice(us, storeSize, data, p, q)| > 0
    ensures Covers(data, ChosenTokens(us, storeSize, data, p, q), p, q) && |ChosenTokens(us, storeSize, data, p, q)| > 0
  {
    CoversBound(data, us, p, q);
    ProperOf(data, p, q);
    FixedTokensCover(Block(data, p, q));
    hide Covers, ChosenType, FixedTokens, ExpensiveFixed, ProperBlock;
  }

  lemma ProperOf(data: seq<byte>, p: nat, q: nat)
    requires p < q <= |data| && q - p <= MASTER_BLOCK_SIZE
    ensures ProperBlock(Block(data, p, q))
  {
  }

  /** The end-of-block symbol is the first of the shortest words of the fixed code. */
  lemma {:induction false} NothingBefore(l: seq<nat>, s: nat, n: nat)
    requires s < |l| && n <= |l| && forall t :: 0 <= t < |l| ==> l[t] >= l[s] && (l[t] == l[s] ==> s <= t)
    ensures CodeSum(l, s, n) == 0
  {
    if n > 0 { NothingBefore(l, s, n - 1); }
  }

  lemma {:induction false} ZeroBits(n: nat)
    ensures Msb(0, n) == Lsb(0, n) == seq(n, i => 0)
  {
    if n > 0 {
      ZeroBits(n - 1);
      assert seq(n, i => 0) == [0] + seq(n - 1, i => 0) == seq(n - 1, i => 0) + [0];
    }
  }

  lemma EmptyBlockBits(final: bool, pos: nat, data: seq<byte>, p: nat)
    requires p <= |data|
    ensures [FinalBit(final)] + (Lsb(1, 2) + Lsb(0, 7)) == BlockBits(1, final, [], pos, data, p, p)
  {
    hide *;
    FixedShortest();
    NothingBefore(FixedLL(), 256, 288);
    ZeroBits(7);
    BlockBitsAre(1, final, [], pos, data, p, p);
    EndOnly(FixedLL(), FixedD());
    StartParts(final, 1);
    assert [FinalBit(final)] + (Lsb(1, 2) + Lsb(0, 7)) == BlockStart(final, 1) + Lsb(0, 7);
  }

  lemma StartParts(final: bool, btype: nat)
    ensures BlockStart(final, btype) == [FinalBit(final)] + Lsb(btype, 2)
  {
    hide Lsb;
  }

  lemma FixedShortest()
    ensures |FixedLL()| == 288 && FixedLL()[256] == 7
    ensures forall t :: 0 <= t < 288 ==> FixedLL()[t] >= 7 && (FixedLL()[t] == 7 ==> 256 <= t)
  {
  }

  lemma EndOnly(ll: seq<nat>, d: seq<nat>)
    requires |ll| > 256
    ensures SymbolBits(ll, d, []) == Msb(CodeSum(ll, 256, |ll|), ll[256])
  {
    hide Msb, CodeSum;
  }

  /** Whatever the costs make of it, the chosen bits decode to the data. */
  lemma AutoBitsDecode(final: bool, us: seq<Token>, storeSize: nat, pos: nat, data: seq<byte>, p: nat, q: nat)
    requires p <= q <= |data| && q - p <= MASTER_BLOCK_SIZE && Covers(data, us, p, q)
    ensures Decodes(AutoBits(final, us, storeSize, pos, data, p, q), pos, data, p, q, final)
  {
    hide *;
    AutoBitsAre(final, us, storeSize, pos, data, p, q);
    if |us| == 0 {
      NotEmpty(data, us, p, q);
      assert us == [];
      EmptyBlockBits(final, pos, data, p);
      BlockBitsDecode(1, final, us, pos, data, p, q);
    } else {
      ChosenCover(us, storeSize, data, p, q);
      TypeLimit(us, storeSize, data, p, q);
      BlockBitsDecode(ChosenType(us, storeSize, data, p, q), final, ChosenTokens(us, storeSize, data, p, q), pos, data,
                      p, q);
    }
  }

  lemma AutoBitsAre(final: bool, us: seq<Token>, storeSize: nat, pos: nat, data: seq<byte>, p: nat, q: nat)
    requires p <= q <= |data|
    ensures |us| == 0 ==> AutoBits(final, us, storeSize, pos, data, p, q) == [FinalBit(final)] + (Lsb(1, 2) + Lsb(0, 7))
    ensures |us| > 0 ==> AutoBits(final, us, storeSize, pos, data, p, q)
                           == BlockBits(ChosenType(us, storeSize, data, p, q), final,
                                        ChosenTokens(us, storeSize, data, p, q), pos, data, p, q)
  {
    hide BlockBits, ChosenType, ChosenTokens, Lsb;
  }

  lemma TypeLimit(us: seq<Token>, storeSize: nat, data: seq<byte>, p: nat, q: nat)
    requires p <= q <= |data|
    ensures ChosenType(us, storeSize, data, p, q) <= 2
  {
  }

  lemma ChosenSize(final: bool, us: seq<Token>, storeSize: nat, pos: nat, data: seq<byte>, p: nat, q: nat)
    requires p <= q <= |data| && q - p <= MASTER_BLOCK_SIZE && Covers(data, us, p, q) && |us| > 0
    ensures var size, fixed :=
            |AutoBits(final, us, storeSize, pos, data, p, q)|, FixedChoice(us, storeSize, data, p, q);
            size <= BlockCost(us, 0) + 2 && size <= BlockCost(us, 2) + 1 && size <= BlockCost(fixed, 1) + 1
  {
    hide *;
    AutoBitsAre(final, us, storeSize, pos, data, p, q);
    ChosenCover(us, storeSize, data, p, q);
    ChoiceIs(us, storeSize, data, p, q);
    BlockBitsSize(ChosenType(us, storeSize, data, p, q), final, ChosenTokens(us, storeSize, data, p, q), pos, data, p,
                  q);
  }

  /** A nonempty block takes no more than 2 bits above its stored size, and no more than 1 bit above its
      size as a dynamic block and, if one is parsed, above that of a fixed block with a parse of its own. */
  lemma AutoBitsSize(final: bool, us: seq<Token>, storeSize: nat, pos: nat, data: seq<byte>, p: nat, q: nat)
    requires p <= q <= |data| && q - p <= MASTER_BLOCK_SIZE && Covers(data, us, p, q) && |us| > 0
    ensures var size := |AutoBits(final, us, storeSize, pos, data, p, q)|;
            && size <= StoredCost(q - p) + 2 && size <= BlockCost(us, 2) + 1
            && (storeSize < 1000 || 10 * BlockCost(us, 1) <= 11 * BlockCost(us, 2) ==>
                size <= BlockCost(FixedTokens(Block(data, p, q)), 1) + 1)
  {
    hide *;
    ChosenSize(final, us, storeSize, pos, data, p, q);
    FixedChoiceIs(us, storeSize, data, p, q);
    CostIs(us, 0);
    WholeSlice(us);
    PositionFrom(us, p, 0, |us|);
    CoversSlice(data, us, p, q, 0, |us|);
    FirstPosition(us, p);
  }

  lemma ChoiceIs(us: seq<Token>, storeSize: nat, data: seq<byte>, p: nat, q: nat)
    requires p <= q <= |data|
    ensures var t, fixed := ChosenType(us, storeSize, data, p, q), FixedChoice(us, storeSize, data, p, q);
            && t <= 2 && ChosenTokens(us, storeSize, data, p, q) == (if t == 1 then fixed else us)
            && t == (if BlockCost(us, 0) < BlockCost(fixed, 1) && BlockCost(us, 0) < BlockCost(us, 2) then 0
                     else if BlockCost(fixed, 1) < BlockCost(us, 2) then 1 else 2)
  {
    hide BlockCost, FixedChoice;
  }

  /** Write tokens as a block of the type that is predicted to be the smallest; a fixed block may get
      a parse of its own. */
  method AddLZ77BlockAutoType(final: bool, store: LZ77Store, lstart: nat, lend: nat, lmc: LongestMatchCache, h: Hash,
                              w: BitWriter, ghost a: nat, ghost b: nat)
    requires Parses(store, a, b) && a <= |store.data| && b - a <= MASTER_BLOCK_SIZE && lstart <= lend <= store.size
    requires w.Valid() && lmc.Valid()
    modifies w, lmc, h
    ensures w.Valid() && lmc.Valid() && lend <= |store.tokens|
    ensures Position(store.tokens, a, lstart) <= Position(store.tokens, a, lend) <= |store.data|
    ensures w.written == old(w.written)
            + AutoBits(final, store.tokens[lstart..lend], |store.tokens|, |old(w.written)|, store.data,
                                                   Position(store.tokens, a, lstart), Position(store.tokens, a, lend))
  {
    hide *;
    ParseIs(store, a, b);
    SliceOfParse(store, lstart, lend, a, b);
    ghost var w0, us, p, q :=
      w.written, store.tokens[lstart..lend], Position(store.tokens, a, lstart), Position(store.tokens, a, lend);
    AutoBitsAre(final, us, |store.tokens|, |w0|, store.data, p, q);
    var uncompressedCost := CalculateBlockSize(store, lstart, lend, 0, a, b);
    var fixedCost := CalculateBlockSize(store, lstart, lend, 1, a, b);
    var dynCost := CalculateBlockSize(store, lstart, lend, 2, a, b);
    var expensiveFixed := store.size < 1000 || fixedCost as real <= dynCost as real * 1.1;
    if lstart == lend {
      AddEmptyBlock(final, w);
      return;
    }
    ChoiceIs(us, |store.tokens|, store.data, p, q);
    FixedChoiceIs(us, |store.tokens|, store.data, p, q);
    var fixedStore := new LZ77Store(store.data);
    if expensiveFixed {
      var instart := store.pos[lstart];
      var length := RangeOf(store, lstart, lend, a, b);
      CoversBound(store.data, us, p, q);
      ProperOf(store.data, p, q);
      Lz77OptimalFixed(lmc, Block(store.data, instart, instart + length), fixedStore, h);
      ParseIs(fixedStore, p, q);
      WholeSlice(fixedStore.tokens);
      fixedCost := CalculateBlockSize(fixedStore, 0, fixedStore.size, 1, p, q);
    }
    if uncompressedCost < fixedCost && uncompressedCost < dynCost {
      AddLZ77Block(0, final, store, lstart, lend, w, a, b);
    } else if fixedCost < dynCost {
      if expensiveFixed {
        AddLZ77Block(1, final, fixedStore, 0, fixedStore.size, w, p, q);
        FirstPosition(fixedStore.tokens, p);
        CoversSlice(store.data, fixedStore.tokens, p, q, 0, 0);
      } else {
        // Never taken: without a second parse the fixed block costs more than 1.1 times the dynamic one.
        assert false;
      }
    } else {
      AddLZ77Block(2, final, store, lstart, lend, w, a, b);
    }
  }

  lemma FixedChoiceIs(us: seq<Token>, storeSize: nat, data: seq<byte>, p: nat, q: nat)
    requires p <= q <= |data|
    ensures FixedChoice(us, storeSize, data, p, q)
              == if storeSize < 1000 || BlockCost(us, 1) as real <= BlockCost(us, 2) as real * 1.1
                then FixedTokens(Block(data, p, q)) else us
  {
    hide BlockCost, FixedTokens;
  }

  /** A fixed block with nothing but its end. */
  method AddEmptyBlock(final: bool, w: BitWriter)
    requires w.Valid()
    modifies w
    ensures w.Valid() && w.written == old(w.written) + ([FinalBit(final)] + (Lsb(1, 2) + Lsb(0, 7)))
  {
    hide *;
    ghost var w0 := w.written;
    FinalBits(final);
    if final {
      w.AddBits(1, 1);
    } else {
      w.AddBits(0, 1);
    }
    w.AddBits(1, 2);
    w.AddBits(0, 7);
    assert w.written == w0 + (Lsb(FinalBit(final), 1) + (Lsb(1, 2) + Lsb(0, 7)));
  }

  lemma FinalBits(final: bool)
    ensures FinalBit(final) == (if final then 1 else 0) && Lsb(FinalBit(final), 1) == [FinalBit(final)]
  {
    OneBit(FinalBit(final));
  }
}
