/** Bit strings in the order RFC 1951 packs them into bytes, and the writer that packs them. */
module Bits {
  import opened Prelude

  type bit = x: int | 0 <= x <= 1

  /** The low `n` bits of `v`, least significant first: how plain numbers are packed. */
  function Lsb(v: nat, n: nat): (r: seq<bit>)
    ensures |r| == n
  {
    if n == 0 then [] else [v % 2] + Lsb(v / 2, n - 1)
  }

  /** The low `n` bits of `v`, most significant first: how Huffman codes are packed. */
  function Msb(v: nat, n: nat): (r: seq<bit>)
    ensures |r| == n
  {
    if n == 0 then [] else Msb(v / 2, n - 1) + [v % 2]
  }

  function FromLsb(s: seq<bit>): (v: nat)
    ensures v < Pow2(|s|)
  {
    if |s| == 0 then 0 else s[0] + 2 * FromLsb(s[1..])
  }

  function FromMsb(s: seq<bit>): (v: nat)
    ensures v < Pow2(|s|)
  {
    if |s| == 0 then 0 else 2 * FromMsb(s[..|s| - 1]) + s[|s| - 1]
  }

  lemma {:induction false} LsbRoundTrip(v: nat, n: nat)
    requires v < Pow2(n)
    ensures FromLsb(Lsb(v, n)) == v
  {
    if n > 0 {
      LsbRoundTrip(v / 2, n - 1);
      assert Lsb(v, n)[1..] == Lsb(v / 2, n - 1);
    }
  }

  lemma {:induction false} MsbRoundTrip(v: nat, n: nat)
    requires v < Pow2(n)
    ensures FromMsb(Msb(v, n)) == v
  {
    if n > 0 {
      MsbRoundTrip(v / 2, n - 1);
      assert Msb(v, n)[..n - 1] == Msb(v / 2, n - 1);
    }
  }

  /** A value with one more bit on top has one more bit at the end. */
  lemma {:induction false} LsbExtend(v: nat, n: nat, b: bit)
    requires v < Pow2(n)
    ensures Lsb(v + b * Pow2(n), n + 1) == Lsb(v, n) + [b]
  {
    if n == 0 {
      assert v == 0 && Pow2(0) == 1;
      assert Lsb(b, 1) == [b % 2] + Lsb(b / 2, 0);
    } else {
      LsbExtend(v / 2, n - 1, b);
      var x := b * Pow2(n - 1);
      assert b * Pow2(n) == 2 * x;
      assert (v + 2 * x) / 2 == v / 2 + x && (v + 2 * x) % 2 == v % 2;
      assert Lsb(v + 2 * x, n + 1) == [v % 2] + (Lsb(v / 2, n - 1) + [b]);
    }
  }

  /** Bits beyond a value's size are zero. */
  lemma {:induction false} LsbPad(v: nat, n: nat, m: nat)
    requires v < Pow2(n)
    ensures Lsb(v, n + m) == Lsb(v, n) + seq(m, i => 0)
  {
    if m > 0 {
      LsbPad(v, n, m - 1);
      Pow2Mono(n, n + m - 1);
      LsbExtend(v, n + m - 1, 0);
      assert Lsb(v, n) + seq(m, i => 0) == Lsb(v, n) + seq(m - 1, i => 0) + [0];
    }
  }

  /** Shifting right by `k` halves `k` times. */
  function ShiftRight(v: nat, k: nat): nat {
    if k == 0 then v else ShiftRight(v, k - 1) / 2
  }

  lemma {:induction false} ShiftStep(v: nat, k: nat)
    ensures ShiftRight(v / 2, k) == ShiftRight(v, k + 1)
  {
    if k > 0 { ShiftStep(v, k - 1); }
  }

  /** Bit `i` counted from the low end, and from the high end. */
  lemma {:induction false} LsbAt(v: nat, n: nat, i: nat)
    requires i < n
    ensures Lsb(v, n)[i] == ShiftRight(v, i) % 2
  {
    if i > 0 {
      LsbAt(v / 2, n - 1, i - 1);
      ShiftStep(v, i - 1);
    }
  }

  lemma {:induction false} MsbAt(v: nat, n: nat, i: nat)
    requires i < n
    ensures Msb(v, n)[i] == ShiftRight(v, n - i - 1) % 2
  {
    if i < n - 1 {
      MsbAt(v / 2, n - 1, i);
      ShiftStep(v, n - i - 2);
    }
  }

  // ---- Bytes ----

  /** The bits of a byte string, in stream order. */
  function BytesBits(s: seq<byte>): (r: seq<bit>)
    ensures |r| == 8 * |s|
  {
    if |s| == 0 then [] else BytesBits(s[..|s| - 1]) + Lsb(s[|s| - 1], 8)
  }

  lemma BytesBitsNext(s: seq<byte>, b: byte)
    ensures BytesBits(s + [b]) == BytesBits(s) + Lsb(b, 8)
  {
    assert (s + [b])[..|s|] == s;
  }

  lemma {:induction false} BytesBitsAppend(s: seq<byte>, t: seq<byte>)
    ensures BytesBits(s + t) == BytesBits(s) + BytesBits(t)
  {
    if |t| == 0 {
      assert s + t == s;
    } else {
      BytesBitsAppend(s, t[..|t| - 1]);
      assert (s + t)[..|s + t| - 1] == s + t[..|t| - 1];
    }
  }

  /** Bitwise or. */
  function BitOr(a: nat, b: nat): nat
    decreases a + b
  {
    if a == 0 && b == 0 then 0
    else (if a % 2 == 1 || b % 2 == 1 then 1 else 0) + 2 * BitOr(a / 2, b / 2)
  }

  lemma {:induction false} OrDisjoint(a: nat, k: nat, b: bit)
    requires a < Pow2(k)
    ensures BitOr(a, b * Pow2(k)) == a + b * Pow2(k)
  {
    if k == 0 {
      assert Pow2(0) == 1 && a == 0;
      assert BitOr(0, 0) == 0;
    } else {
      var x := b * Pow2(k - 1);
      assert b * Pow2(k) == 2 * x;
      OrDisjoint(a / 2, k - 1, b);
      assert (2 * x) / 2 == x;
    }
  }

  /** `x` is what the stream holds at position `pos`. */
  ghost predicate At(bits: seq<bit>, pos: nat, x: seq<bit>) {
    pos + |x| <= |bits| && bits[pos..pos + |x|] == x
  }

  lemma AtSplit(bits: seq<bit>, pos: nat, x: seq<bit>, y: seq<bit>)
    requires At(bits, pos, x + y)
    ensures At(bits, pos, x) && At(bits, pos + |x|, y)
  {
    assert bits[pos..pos + |x|] == bits[pos..pos + |x + y|][..|x|];
    assert bits[pos + |x|..pos + |x| + |y|] == bits[pos..pos + |x + y|][|x|..];
  }

  /** Or-ing a bit into an unfinished byte appends it to the byte's bits. */
  lemma OrIntoByte(last: byte, bp: nat, b: bit)
    requires bp < 8 && (if bp == 0 then last == 0 else last < Pow2(bp))
    ensures var x := BitOr(last, b * Pow2(bp) % 256);
            x < 256 && x < Pow2(bp + 1) && Lsb(x, bp + 1) == Lsb(last, bp) + [b] && Lsb(last, 0) == []
  {
    hide *;
    SmallPowers(bp);
    NoBits(last);
    LsbExtend(last, bp, b);
    OrDisjoint(last, bp, b);
    ZeroOrOnce(b, Pow2(bp));
  }

  lemma NoBits(v: nat)
    ensures Lsb(v, 0) == [] && Pow2(0) == 1
  {
  }

  lemma ZeroOrOnce(b: bit, x: nat)
    ensures b * x == 0 || b * x == x
  {
  }

  // ---- The writer ----

  /** The bytes `out`, the last of them filled up to bit `bp` if that is not 0, hold the bits
      `written`; the unused high bits of an unfinished byte are zero. */
  ghost predicate Packs(out: seq<byte>, bp: nat, written: seq<bit>) {
    && bp < 8
    && (bp != 0 ==> |out| > 0 && out[|out| - 1] < Pow2(bp))
    && written == (if bp == 0 then BytesBits(out) else BytesBits(out[..|out| - 1]) + Lsb(out[|out| - 1], bp))
  }

  lemma PadLastByte(out: seq<byte>, bp: nat, written: seq<bit>)
    requires Packs(out, bp, written)
    ensures Packs(out, 0, written + seq((8 - bp) % 8, i => 0))
  {
    if bp != 0 {
      LsbPad(out[|out| - 1], bp, 8 - bp);
      hide Lsb;
      var zeros := seq(8 - bp, i => 0);
      assert BytesBits(out[..|out| - 1]) + Lsb(out[|out| - 1], bp) + zeros
        == BytesBits(out[..|out| - 1]) + (Lsb(out[|out| - 1], bp) + zeros);
      assert seq((8 - bp) % 8, i => 0) == zeros;
    } else {
      assert written + seq((8 - bp) % 8, i => 0) == written;
    }
  }

  lemma PackedLength(out: seq<byte>, bp: nat, written: seq<bit>)
    requires Packs(out, bp, written)
    ensures |written| == 8 * |out| - (if bp == 0 then 0 else 8 - bp) && bp < 8
  {
  }

  class BitWriter {
    var out: seq<byte>
    var bp: nat
    ghost var written: seq<bit>

    ghost predicate Valid()
      reads this
    {
      Packs(out, bp, written)
    }

    constructor ()
      ensures Valid() && out == [] && bp == 0 && written == []
    {
      out := [];
      bp := 0;
      written := [];
    }

    method AddByte(b: byte)
      requires Valid() && bp == 0
      modifies this
      ensures Valid() && bp == 0 && out == old(out) + [b]
      ensures written == old(written) + Lsb(b, 8)
    {
      BytesBitsNext(out, b);
      out := out + [b];
      written := written + Lsb(b, 8);
    }

    method AddBit(b: bit)
      requires Valid()
      modifies this
      ensures Valid() && written == old(written) + [b]
    {
      hide BitOr, Pow2, Lsb;
      if bp == 0 {
        BytesBitsNext(out, 0);
        assert (out + [0])[..|out|] == out;
        out := out + [0];
      }
      ghost var bytes := out[..|out| - 1];
      var last := out[|out| - 1];
      OrIntoByte(last, bp, b);
      out := out[|out| - 1 := BitOr(last, b * Pow2(bp) % 256)];
      bp := (bp + 1) % 8;
      written := written + [b];
      assert out[..|out| - 1] == bytes;
    }

    /** Append the low `length` bits of `symbol`, least significant first. */
    method AddBits(symbol: nat, length: nat)
      requires Valid()
      modifies this
      ensures Valid() && written == old(written) + Lsb(symbol, length)
    {
      hide Packs;
      ghost var w0, s := written, Lsb(symbol, length);
      for i := 0 to length
        invariant Valid() && written == w0 + s[..i]
      {
        LsbAt(symbol, length, i);
        AddBit(ShiftRight(symbol, i) % 2);
        assert s[..i + 1] == s[..i] + [s[i]];
      }
      assert s[..length] == s;
    }

    /** Append a code word, most significant bit first. */
    method AddHuffmanBits(symbol: nat, length: nat)
      requires Valid()
      modifies this
      ensures Valid() && written == old(written) + Msb(symbol, length)
    {
      hide Packs;
      ghost var w0, s := written, Msb(symbol, length);
      for i := 0 to length
        invariant Valid() && written == w0 + s[..i]
      {
        MsbAt(symbol, length, i);
        AddBit(ShiftRight(symbol, length - i - 1) % 2);
        assert s[..i + 1] == s[..i] + [s[i]];
      }
      assert s[..length] == s;
    }

    /** Dropping the bit position pads the last byte with zero bits. */
    method Align()
      requires Valid()
      modifies this
      ensures Valid() && bp == 0 && out == old(out)
      ensures written == old(written) + seq((8 - old(bp)) % 8, i => 0)
    {
      PadLastByte(out, bp, written);
      written := written + seq((8 - bp) % 8, i => 0);
      bp := 0;
    }

    /** Append whole bytes at a byte boundary. */
    method AddBytes(s: seq<byte>)
      requires Valid() && bp == 0
      modifies this
      ensures Valid() && bp == 0 && out == old(out) + s
      ensures written == old(written) + BytesBits(s)
    {
      BytesBitsAppend(out, s);
      out := out + s;
      written := written + BytesBits(s);
    }
  }

  lemma SmallPowers(k: nat)
    requires k < 8
    ensures Pow2(k + 1) == 2 * Pow2(k) && Pow2(k + 1) <= 256 && Pow2(8) == 256
  {
    Pow2Mono(k + 1, 8);
    assert Pow2(8) == 2 * Pow2(7) == 4 * Pow2(6) == 8 * Pow2(5);
    assert Pow2(5) == 2 * Pow2(4) == 4 * Pow2(3) == 8 * Pow2(2);
  }
}
