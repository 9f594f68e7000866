/** Canonical prefix codes, section 3.2.2 of RFC 1951: shorter codes precede longer ones, and
    codes of the same length are consecutive in symbol order. */
module PrefixCode {
  import opened Prelude
  import opened Bits

  /** Symbol `t` has a code that comes before that of `s`. */
  predicate Before(l: seq<nat>, t: nat, s: nat)
    requires t < |l| && s < |l|
  {
    l[t] != 0 && (l[t] < l[s] || (l[t] == l[s] && t < s))
  }

  /** The room that codes before `s`, among the first `n` symbols, take up at the length of `s`. */
  function CodeSum(l: seq<nat>, s: nat, n: nat): nat
    requires s < |l| && n <= |l|
  {
    if n == 0 then 0
    else CodeSum(l, s, n - 1) + (if Before(l, n - 1, s) then Pow2(l[s] - l[n - 1]) else 0)
  }

  /** The canonical code of a symbol. */
  function Code(l: seq<nat>, s: nat): nat
    requires s < |l|
  {
    CodeSum(l, s, |l|)
  }

  function Codeword(l: seq<nat>, s: nat): (w: seq<bit>)
    requires s < |l|
    ensures |w| == l[s]
  {
    Msb(Code(l, s), l[s])
  }

  ghost predicate Within(l: seq<nat>, maxBits: nat) {
    forall s :: 0 <= s < |l| ==> l[s] <= maxBits
  }

  /** The lengths describe a prefix code: Kraft's sum is at most 1. */
  ghost predicate Feasible(l: seq<nat>, maxBits: nat) {
    Within(l, maxBits) && KraftSum(l, maxBits) <= Pow2(maxBits)
  }

  // ---- Codes as disjoint intervals of [0, 2^maxBits) ----

  ghost function Start(l: seq<nat>, L: nat, s: nat, n: nat): nat
    requires s < |l| && n <= |l| && Within(l, L)
  {
    if n == 0 then 0
    else Start(l, L, s, n - 1) + (if Before(l, n - 1, s) then Pow2(L - l[n - 1]) else 0)
  }

  lemma {:induction false} StartIsCode(l: seq<nat>, L: nat, s: nat, n: nat)
    requires s < |l| && n <= |l| && Within(l, L)
    ensures Start(l, L, s, n) == CodeSum(l, s, n) * Pow2(L - l[s])
  {
    if n > 0 {
      StartIsCode(l, L, s, n - 1);
      if Before(l, n - 1, s) {
        Pow2Add(l[s] - l[n - 1], L - l[s]);
        Distributes(CodeSum(l, s, n - 1), Pow2(l[s] - l[n - 1]), Pow2(L - l[s]));
      }
    }
  }

  lemma {:induction false} IntervalsOrdered(l: seq<nat>, L: nat, t: nat, s: nat, n: nat)
    requires t < |l| && s < |l| && n <= |l| && Within(l, L) && Before(l, t, s)
    ensures Start(l, L, t, n) + (if t < n then Pow2(L - l[t]) else 0) <= Start(l, L, s, n)
  {
    if n > 0 { IntervalsOrdered(l, L, t, s, n - 1); }
  }

  lemma {:induction false} IntervalInside(l: seq<nat>, L: nat, s: nat, n: nat)
    requires s < |l| && n <= |l| && Within(l, L) && l[s] != 0
    ensures Start(l, L, s, n) + (if s < n then Pow2(L - l[s]) else 0) <= KraftSum(l[..n], L)
  {
    if n > 0 {
      IntervalInside(l, L, s, n - 1);
      assert l[..n][..n - 1] == l[..n - 1];
    }
  }

  lemma CancelLe(a: int, b: int, x: int)
    requires a * x <= b * x && x > 0
    ensures a <= b
  {
    assert a > b ==> a * x > b * x;
  }

  /** Every code fits its length. */
  lemma CodeInRange(l: seq<nat>, L: nat, s: nat)
    requires Feasible(l, L) && s < |l| && l[s] != 0
    ensures Code(l, s) < Pow2(l[s])
  {
    IntervalInside(l, L, s, |l|);
    assert l[..|l|] == l;
    StartIsCode(l, L, s, |l|);
    hide *;
    Pow2Add(l[s], L - l[s]);
    Distributes(CodeSum(l, s, |l|), 1, Pow2(L - l[s]));
    CancelLe(CodeSum(l, s, |l|) + 1, Pow2(l[s]), Pow2(L - l[s]));
    assert Code(l, s) == CodeSum(l, s, |l|) by { CodeIs(l, s); }
  }

  lemma CodeIs(l: seq<nat>, s: nat)
    requires s < |l|
    ensures Code(l, s) == CodeSum(l, s, |l|)
  {
  }

  /** A code before another ends, at the other's length, before the other starts. */
  lemma CodeOrder(l: seq<nat>, L: nat, t: nat, s: nat)
    requires Feasible(l, L) && t < |l| && s < |l| && Before(l, t, s)
    ensures (Code(l, t) + 1) * Pow2(l[s] - l[t]) <= Code(l, s)
  {
    IntervalsOrdered(l, L, t, s, |l|);
    StartIsCode(l, L, s, |l|);
    StartIsCode(l, L, t, |l|);
    Pow2Add(l[s] - l[t], L - l[s]);
    CodeIs(l, s);
    CodeIs(l, t);
    hide *;
    ScaleDown(Code(l, t), Code(l, s), Pow2(l[s] - l[t]), Pow2(L - l[s]));
  }

  lemma ScaleDown(a: nat, b: nat, k: nat, x: nat)
    requires x > 0 && a * (k * x) + k * x <= b * x
    ensures (a + 1) * k <= b
  {
    assert a * (k * x) + k * x == ((a + 1) * k) * x by {
      assert a * (k * x) == (a * k) * x;
      assert (a + 1) * k == a * k + k;
      Distributes(a * k, k, x);
    }
    CancelLe((a + 1) * k, b, x);
  }

  // ---- Prefix freedom ----

  lemma {:induction false} ShiftBounds(v: nat, k: nat)
    ensures ShiftRight(v, k) * Pow2(k) <= v < (ShiftRight(v, k) + 1) * Pow2(k)
  {
    if k == 0 {
      assert Pow2(0) == 1;
    } else {
      ShiftBounds(v, k - 1);
      var q, x := ShiftRight(v, k - 1), Pow2(k - 1);
      HalfShift(v, q, x);
    }
  }

  lemma HalfShift(v: nat, q: nat, x: nat)
    requires q * x <= v < (q + 1) * x
    ensures (q / 2) * (2 * x) <= v < (q / 2 + 1) * (2 * x)
  {
    var h := q / 2;
    assert h * (2 * x) == (2 * h) * x && (h + 1) * (2 * x) == (2 * h + 2) * x;
    assert q == 2 * h || q == 2 * h + 1;
    assert (2 * h + 1) * x == (2 * h) * x + x && (2 * h + 2) * x == (2 * h) * x + 2 * x;
  }

  lemma {:induction false} MsbPrefix(v: nat, n: nat, m: nat)
    requires m <= n
    ensures Msb(v, n)[..m] == Msb(ShiftRight(v, n - m), m)
    decreases n
  {
    if m < n {
      MsbPrefix(v / 2, n - 1, m);
      ShiftStep(v, n - 1 - m);
      assert Msb(v, n)[..m] == Msb(v / 2, n - 1)[..m];
    } else {
      assert Msb(v, n)[..n] == Msb(v, n);
    }
  }

  lemma CodewordBefore(l: seq<nat>, L: nat, t: nat, s: nat)
    requires Feasible(l, L) && t < |l| && s < |l| && Before(l, t, s)
    ensures Codeword(l, s)[..l[t]] != Codeword(l, t)
  {
    var k := l[s] - l[t];
    CodeInRange(l, L, s);
    CodeInRange(l, L, t);
    CodeOrder(l, L, t, s);
    ShiftSmall(Code(l, s), k, l[t]);
    ShiftAbove(Code(l, s), k, Code(l, t));
    hide *;
    MsbPrefix(Code(l, s), l[s], l[t]);
    MsbRoundTrip(Code(l, t), l[t]);
    MsbRoundTrip(ShiftRight(Code(l, s), k), l[t]);
    CodewordIs(l, s);
    CodewordIs(l, t);
  }

  lemma ShiftAbove(v: nat, k: nat, c: nat)
    requires (c + 1) * Pow2(k) <= v
    ensures ShiftRight(v, k) > c
  {
    ShiftBounds(v, k);
    assert ShiftRight(v, k) <= c ==> (ShiftRight(v, k) + 1) * Pow2(k) <= (c + 1) * Pow2(k) by {
      if ShiftRight(v, k) <= c { MulMono(ShiftRight(v, k) + 1, c + 1, Pow2(k)); }
    }
  }

  lemma CodewordIs(l: seq<nat>, s: nat)
    requires s < |l|
    ensures Codeword(l, s) == Msb(Code(l, s), l[s])
  {
  }

  lemma ShiftSmall(v: nat, k: nat, m: nat)
    requires v < Pow2(m + k)
    ensures ShiftRight(v, k) < Pow2(m)
  {
    ShiftBounds(v, k);
    Pow2Add(m, k);
    hide *;
    if ShiftRight(v, k) >= Pow2(m) { MulMono(Pow2(m), ShiftRight(v, k), Pow2(k)); }
  }

  lemma MulMono(a: int, b: int, x: int)
    requires a <= b && x >= 0
    ensures a * x <= b * x
  {
  }

  /** Two different symbols' code words never start the same bit string. */
  lemma PrefixFree(l: seq<nat>, L: nat, bits: seq<bit>, pos: nat, s: nat, t: nat)
    requires Feasible(l, L) && s < |l| && t < |l| && l[s] != 0 && l[t] != 0
    requires At(bits, pos, Codeword(l, s)) && At(bits, pos, Codeword(l, t))
    ensures s == t
  {
    if l[t] <= l[s] {
      AtPrefix(bits, pos, Codeword(l, s), l[t]);
    } else {
      AtPrefix(bits, pos, Codeword(l, t), l[s]);
    }
    if Before(l, t, s) {
      CodewordBefore(l, L, t, s);
    } else if Before(l, s, t) {
      assert Codeword(l, s)[..l[s]] == Codeword(l, s) && Codeword(l, t)[..l[t]] == Codeword(l, t);
      CodewordBefore(l, L, s, t);
    }
  }

  lemma AtPrefix(bits: seq<bit>, pos: nat, x: seq<bit>, m: nat)
    requires At(bits, pos, x) && m <= |x|
    ensures At(bits, pos, x[..m])
  {
    assert bits[pos..pos + m] == bits[pos..pos + |x|][..m];
  }
}
