/** Assigning the canonical codes: count the lengths, compute the first code of each length, and
    hand codes out in symbol order. */
module Tree {
  import opened Prelude
  import opened PrefixCode

  /** How many of the first `n` symbols have length `b`. */
  ghost function CountOf(l: seq<nat>, b: nat, n: nat): (c: nat)
    requires n <= |l|
    ensures c <= n
  {
    if n == 0 then 0 else CountOf(l, b, n - 1) + (if l[n - 1] == b then 1 else 0)
  }

  /** The room that shorter codes take up at length `b`. */
  ghost function Shorter(l: seq<nat>, b: nat, n: nat): nat
    requires n <= |l|
  {
    if n == 0 then 0
    else Shorter(l, b, n - 1) + (if 0 < l[n - 1] < b then Pow2(b - l[n - 1]) else 0)
  }

  lemma {:induction false} ShorterNext(l: seq<nat>, b: nat, n: nat)
    requires n <= |l|
    ensures Shorter(l, b + 1, n) == 2 * (Shorter(l, b, n) + (if b == 0 then 0 else CountOf(l, b, n)))
  {
    if n > 0 {
      ShorterNext(l, b, n - 1);
      if 0 < l[n - 1] <= b { Pow2Next(b - l[n - 1]); }
      assert Pow2(0) == 1;
    }
  }

  lemma {:induction false} CodeSplit(l: seq<nat>, s: nat, n: nat)
    requires n <= |l| && s < |l| && l[s] != 0
    ensures CodeSum(l, s, n) == Shorter(l, l[s], n) + CountOf(l, l[s], Min(n, s))
  {
    if n > 0 {
      CodeSplit(l, s, n - 1);
      assert Pow2(0) == 1;
    }
  }

  /** Symbols get the canonical codes of section 3.2.2 of RFC 1951; unused symbols get 0. */
  method LengthsToSymbols(lengths: seq<nat>, maxBits: nat, symbols: array<nat>)
    requires Within(lengths, maxBits) && symbols.Length >= |lengths|
    modifies symbols
    ensures forall s :: 0 <= s < |lengths| ==> symbols[s] == (if lengths[s] == 0 then 0 else Code(lengths, s))
    ensures forall s :: |lengths| <= s < symbols.Length ==> symbols[s] == 0
  {
    for i := 0 to symbols.Length
      invariant forall s :: 0 <= s < i ==> symbols[s] == 0
    {
      symbols[i] := 0;
    }
    var blCount := CountLengths(lengths, maxBits);
    var nextCode := FirstCodes(lengths, maxBits, blCount);
    HandOutCodes(lengths, maxBits, nextCode, symbols);
  }

  method CountLengths(lengths: seq<nat>, maxBits: nat) returns (blCount: array<nat>)
    requires Within(lengths, maxBits)
    ensures fresh(blCount) && blCount.Length == maxBits + 1
    ensures forall b :: 0 <= b <= maxBits ==> blCount[b] == CountOf(lengths, b, |lengths|)
  {
    blCount := new nat[maxBits + 1](_ => 0);
    for i := 0 to |lengths|
      invariant forall b :: 0 <= b <= maxBits ==> blCount[b] == CountOf(lengths, b, i)
    {
      blCount[lengths[i]] := blCount[lengths[i]] + 1;
    }
  }

  method FirstCodes(lengths: seq<nat>, maxBits: nat, blCount: array<nat>) returns (nextCode: array<nat>)
    requires blCount.Length == maxBits + 1
    requires forall b :: 0 <= b <= maxBits ==> blCount[b] == CountOf(lengths, b, |lengths|)
    modifies blCount
    ensures fresh(nextCode) && nextCode.Length == maxBits + 1
    ensures forall b :: 1 <= b <= maxBits ==> nextCode[b] == Shorter(lengths, b, |lengths|)
  {
    ghost var n := |lengths|;
    nextCode := new nat[maxBits + 1](_ => 0);
    var code := 0;
    blCount[0] := 0;
    NoShorter(lengths, n);
    for bits := 1 to maxBits + 1
      invariant code == Shorter(lengths, bits - 1, n)
      invariant blCount[0] == 0 && forall b :: 1 <= b <= maxBits ==> blCount[b] == CountOf(lengths, b, n)
      invariant forall b :: 1 <= b < bits ==> nextCode[b] == Shorter(lengths, b, n)
    {
      ShorterNext(lengths, bits - 1, n);
      code := (code + blCount[bits - 1]) * 2;
      nextCode[bits] := code;
    }
  }

  lemma {:induction false} NoShorter(l: seq<nat>, n: nat)
    requires n <= |l|
    ensures Shorter(l, 0, n) == 0
  {
    if n > 0 { NoShorter(l, n - 1); }
  }

  method HandOutCodes(lengths: seq<nat>, maxBits: nat, nextCode: array<nat>, symbols: array<nat>)
    requires Within(lengths, maxBits) && symbols.Length >= |lengths|
    requires nextCode.Length == maxBits + 1 && nextCode != symbols
    requires forall b :: 1 <= b <= maxBits ==> nextCode[b] == Shorter(lengths, b, |lengths|)
    requires forall s :: 0 <= s < symbols.Length ==> symbols[s] == 0
    modifies symbols, nextCode
    ensures forall s :: 0 <= s < |lengths| ==> symbols[s] == (if lengths[s] == 0 then 0 else Code(lengths, s))
    ensures forall s :: |lengths| <= s < symbols.Length ==> symbols[s] == 0
  {
    for i := 0 to |lengths|
      invariant forall b :: 1 <= b <= maxBits ==> nextCode[b] == Shorter(lengths, b, |lengths|) + CountOf(lengths, b, i)
      invariant forall s :: 0 <= s < i ==> symbols[s] == (if lengths[s] == 0 then 0 else Code(lengths, s))
      invariant forall s :: i <= s < symbols.Length ==> symbols[s] == 0
    {
      if lengths[i] != 0 {
        CodeSplit(lengths, i, |lengths|);
        symbols[i] := nextCode[lengths[i]];
        nextCode[lengths[i]] := nextCode[lengths[i]] + 1;
      }
    }
  }
}
