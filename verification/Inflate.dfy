/** A decoder for deflate streams, written from RFC 1951: the specification that the compressor's
    output has to meet. Like common decoders it is strict: every dynamic code must be complete. */
module Inflate {
  import opened Prelude
  import opened Bits
  import opened PrefixCode
  import Symbols

  datatype Read<+T> = Fail | Got(value: T, pos: nat) {
    predicate IsFailure() { Fail? }

    function PropagateFailure<U>(): Read<U>
      requires Fail?
    {
      Fail
    }

    function Extract(): (T, nat)
      requires Got?
    {
      (value, pos)
    }
  }

  function ReadBits(bits: seq<bit>, pos: nat, n: nat): Read<nat> {
    if pos + n <= |bits| then Got(FromLsb(bits[pos..pos + n]), pos + n) else Fail
  }

  // ---- Huffman codes ----

  /** The first symbol from `s` on whose code word is next in the stream. */
  function FindSymbol(l: seq<nat>, bits: seq<bit>, pos: nat, s: nat): (r: Read<nat>)
    requires s <= |l|
    ensures r.Got? ==> r.value < |l| && pos < r.pos <= |bits|
    decreases |l| - s
  {
    if s == |l| then Fail
    else if l[s] != 0 && pos + l[s] <= |bits| && bits[pos..pos + l[s]] == Codeword(l, s) then Got(s, pos + l[s])
    else FindSymbol(l, bits, pos, s + 1)
  }

  function DecodeSymbol(l: seq<nat>, bits: seq<bit>, pos: nat): (r: Read<nat>)
    ensures r.Got? ==> r.value < |l| && pos < r.pos <= |bits|
  {
    FindSymbol(l, bits, pos, 0)
  }

  // ---- Compressed blocks, section 3.2.5 ----

  function LengthBase(symbol: nat): nat
    requires 257 <= symbol <= 285
  {
    Symbols.LENGTH_BASE[symbol - 257]
  }

  function DistBase(symbol: nat): nat
    requires symbol < 30
  {
    Symbols.DIST_BASE[symbol]
  }

  /** Copy `length` bytes from `dist` bytes back, one at a time, so copies may overlap. */
  function Copy(out: seq<byte>, length: nat, dist: nat): seq<byte>
    requires 1 <= dist <= |out|
    decreases length
  {
    if length == 0 then out else Copy(out + [out[|out| - dist]], length - 1, dist)
  }

  /** The distance code and extra bits that follow a length. */
  function ReadDistance(d: seq<nat>, bits: seq<bit>, pos: nat): (r: Read<nat>)
    ensures r.Got? ==> pos < r.pos <= |bits|
  {
    var (symbol, pos1) :- DecodeSymbol(d, bits, pos);
    if symbol >= 30 then Fail
    else
      var (extra, pos2) :- ReadBits(bits, pos1, Symbols.DistSymbolExtraBits(symbol));
      Got(DistBase(symbol) + extra, pos2)
  }

  /** Literals and copies up to the end-of-block symbol. */
  function InflateSymbols(ll: seq<nat>, d: seq<nat>, bits: seq<bit>, pos: nat, out: seq<byte>): (r: Read<seq<byte>>)
    ensures r.Got? ==> pos < r.pos <= |bits|
    decreases |bits| - pos
  {
    var (symbol, pos1) :- DecodeSymbol(ll, bits, pos);
    if symbol < 256 then InflateSymbols(ll, d, bits, pos1, out + [symbol])
    else if symbol == Symbols.END_OF_BLOCK then Got(out, pos1)
    else if symbol > 285 then Fail
    else
      var (extra, pos2) :- ReadBits(bits, pos1, Symbols.LengthSymbolExtraBits(symbol));
      var (dist, pos3) :- ReadDistance(d, bits, pos2);
      if dist == 0 || dist > |out| then Fail
      else InflateSymbols(ll, d, bits, pos3, Copy(out, LengthBase(symbol) + extra, dist))
  }

  // ---- Fixed codes, section 3.2.6 ----

  function FixedLL(): (l: seq<nat>)
    ensures |l| == 288
  {
    seq(288, s => if s < 144 then 8 else if s < 256 then 9 else if s < 280 then 7 else 8)
  }

  function FixedD(): (l: seq<nat>)
    ensures |l| == 32
  {
    seq(32, s => 5)
  }

  // ---- Dynamic codes, section 3.2.7 ----

  function CodeLengthOrder(i: nat): nat
    requires i < 19
    ensures CodeLengthOrder(i) < 19
  {
    [16, 17, 18, 0, 8, 7, 9, 6, 10, 5, 11, 4, 12, 3, 13, 2, 14, 1, 15][i]
  }

  /** The first n lengths of the code length code, in their peculiar order; the rest are 0. */
  function ReadCodeLengthCode(bits: seq<bit>, pos: nat, n: nat): (r: Read<seq<nat>>)
    requires n <= 19
    ensures r.Got? ==> |r.value| == 19 && r.pos == pos + 3 * n <= |bits|
  {
    if n == 0 then (if pos <= |bits| then Got(seq(19, i => 0), pos) else Fail)
    else
      var (rest, pos1) :- ReadCodeLengthCode(bits, pos, n - 1);
      var (x, pos2) :- ReadBits(bits, pos1, 3);
      Got(rest[CodeLengthOrder(n - 1) := x], pos2)
  }

  function Repeat(x: nat, n: nat): (r: seq<nat>)
    ensures |r| == n && forall i :: 0 <= i < n ==> r[i] == x
  {
    seq(n, i => x)
  }

  /** Code lengths with repeat codes, until `total` lengths are known; repeats may cross from the
      literal to the distance lengths, but not run past the total. */
  function ReadLengths(cl: seq<nat>, bits: seq<bit>, pos: nat, total: nat, known: seq<nat>): (r: Read<seq<nat>>)
    requires |cl| == 19
    ensures r.Got? ==> |r.value| == total
    ensures r.Got? && pos <= |bits| ==> pos <= r.pos <= |bits|
    decreases |bits| - pos
  {
    if |known| > total then Fail
    else if |known| == total then Got(known, pos)
    else
      var (symbol, pos1) :- DecodeSymbol(cl, bits, pos);
      if symbol < 16 then ReadLengths(cl, bits, pos1, total, known + [symbol])
      else if symbol == 16 then
        if known == [] then Fail
        else
          var (n, pos2) :- ReadBits(bits, pos1, 2);
          ReadLengths(cl, bits, pos2, total, known + Repeat(known[|known| - 1], 3 + n))
      else if symbol == 17 then
        var (n, pos2) :- ReadBits(bits, pos1, 3);
        ReadLengths(cl, bits, pos2, total, known + Repeat(0, 3 + n))
      else
        var (n, pos2) :- ReadBits(bits, pos1, 7);
        ReadLengths(cl, bits, pos2, total, known + Repeat(0, 11 + n))
  }

  /** A complete prefix code with lengths up to maxBits: Kraft's sum is exactly 1. */
  predicate Complete(l: seq<nat>, maxBits: nat) {
    (forall s :: 0 <= s < |l| ==> l[s] <= maxBits) && KraftSum(l, maxBits) == Pow2(maxBits)
  }

  /** What the header of a dynamic block describes: the code length code, the literal/length code and
      the distance code, by their code lengths. */
  datatype Header = Header(cl: seq<nat>, ll: seq<nat>, d: seq<nat>)

  /** Read a header, whatever codes it describes. */
  function ReadDynamicHeader(bits: seq<bit>, pos: nat): (r: Read<Header>)
    ensures r.Got? ==> pos < r.pos <= |bits| && |r.value.ll| > Symbols.END_OF_BLOCK
  {
    var (hlit, pos1) :- ReadBits(bits, pos, 5);
    var (hdist, pos2) :- ReadBits(bits, pos1, 5);
    var (hclen, pos3) :- ReadBits(bits, pos2, 4);
    if hclen > 15 || hlit > 29 || hdist > 29 then Fail
    else
      var (cl, pos4) :- ReadCodeLengthCode(bits, pos3, hclen + 4);
      var (lengths, pos5) :- ReadLengths(cl, bits, pos4, hlit + 257 + hdist + 1, []);
      Got(Header(cl, lengths[..hlit + 257], lengths[hlit + 257..]), pos5)
  }

  /** Can blocks be decoded by these codes? They must be complete, and there must be an end of block. */
  predicate Accepted(h: Header)
    requires |h.ll| > Symbols.END_OF_BLOCK
  {
    Complete(h.cl, 7) && Complete(h.ll, 15) && Complete(h.d, 15) && h.ll[Symbols.END_OF_BLOCK] != 0
  }

  /** The two codes of a dynamic block: literal/length code and distance code. */
  function ReadDynamicCodes(bits: seq<bit>, pos: nat): (r: Read<(seq<nat>, seq<nat>)>)
    ensures r.Got? ==> pos < r.pos <= |bits|
  {
    var (h, pos1) :- ReadDynamicHeader(bits, pos);
    if Accepted(h) then Got((h.ll, h.d), pos1) else Fail
  }

  // ---- Stored blocks, section 3.2.4 ----

  function NextByteBoundary(pos: nat): (r: nat)
    ensures pos <= r < pos + 8 && r % 8 == 0
  {
    pos + (8 - pos % 8) % 8
  }

  function ReadBytes(bits: seq<bit>, pos: nat, n: nat): (r: Read<seq<byte>>)
    ensures r.Got? ==> |r.value| == n && r.pos == pos + 8 * n
    ensures r.Got? && pos <= |bits| ==> r.pos <= |bits|
  {
    if n == 0 then Got([], pos)
    else
      var (rest, pos1) :- ReadBytes(bits, pos, n - 1);
      var (b, pos2) :- ReadBits(bits, pos1, 8);
      assert Pow2(8) == 256 by { SmallPowers(7); }
      Got(rest + [b], pos2)
  }

  function InflateStored(bits: seq<bit>, pos: nat, out: seq<byte>): (r: Read<seq<byte>>)
    ensures r.Got? ==> pos <= r.pos <= |bits|
  {
    var (len, pos1) :- ReadBits(bits, NextByteBoundary(pos), 16);
    var (nlen, pos2) :- ReadBits(bits, pos1, 16);
    if nlen != 65535 - len then Fail
    else
      var (bytes, pos3) :- ReadBytes(bits, pos2, len);
      Got(out + bytes, pos3)
  }

  // ---- Blocks and streams, section 3.2.3 ----

  /** The body of a block of the given type, appended to what the blocks before it produced. */
  function InflateBody(btype: nat, bits: seq<bit>, pos: nat, out: seq<byte>): (r: Read<seq<byte>>)
    ensures r.Got? ==> pos <= r.pos <= |bits|
  {
    if btype == 0 then InflateStored(bits, pos, out)
    else if btype == 1 then InflateSymbols(FixedLL(), FixedD(), bits, pos, out)
    else if btype == 2 then
      var (codes, pos1) :- ReadDynamicCodes(bits, pos);
      InflateSymbols(codes.0, codes.1, bits, pos1, out)
    else Fail
  }

  /** Blocks up to and including the first one that is marked final. */
  function InflateBlocks(bits: seq<bit>, pos: nat, out: seq<byte>): (r: Read<seq<byte>>)
    ensures r.Got? ==> pos < r.pos <= |bits|
    decreases |bits| - pos
  {
    var (final, pos1) :- ReadBits(bits, pos, 1);
    var (btype, pos2) :- ReadBits(bits, pos1, 2);
    var (out', pos3) :- InflateBody(btype, bits, pos2, out);
    if final == 1 then Got(out', pos3) else InflateBlocks(bits, pos3, out')
  }

  /** The data of a whole stream, which must end in the byte in which its final block ends. */
  function Inflate(stream: seq<byte>): Option<seq<byte>> {
    match InflateBlocks(BytesBits(stream), 0, [])
    case Got(data, pos) => if 8 * |stream| - pos < 8 then Some(data) else None
    case Fail => None
  }
}
