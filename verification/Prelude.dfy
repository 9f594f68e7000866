/** Shared vocabulary: machine-sized numbers, options, powers of two and sums over sequences. */
module Prelude {

  type byte = x: int | 0 <= x < 256


  datatype Option<+T> = None | Some(value: T)

  function Min(a: int, b: int): (r: int)
    ensures r <= a && r <= b && (r == a || r == b)
  {
    if a < b then a else b
  }

  function Max(a: int, b: int): (r: int)
    ensures r >= a && r >= b && (r == a || r == b)
  {
    if a > b then a else b
  }

  function Pow2(n: nat): (r: nat)
    ensures r >= 1
    ensures n >= 1 ==> r % 2 == 0
  {
    if n == 0 then 1 else 2 * Pow2(n - 1)
  }

  lemma Pow2Next(n: nat)
    ensures Pow2(n + 1) == 2 * Pow2(n)
  {
  }

  lemma {:induction false} Pow2Add(a: nat, b: nat)
    ensures Pow2(a + b) == Pow2(a) * Pow2(b)
  {
    if a == 0 {
    } else {
      Pow2Add(a - 1, b);
      assert Pow2(a + b) == 2 * Pow2(a - 1 + b) && Pow2(a) == 2 * Pow2(a - 1);
      hide *;
      Reassociate(Pow2(a - 1), Pow2(b));
    }
  }

  lemma Reassociate(x: int, y: int)
    ensures 2 * (x * y) == (2 * x) * y
  {
  }

  lemma {:induction false} Pow2Mono(a: nat, b: nat)
    requires a <= b
    ensures Pow2(a) <= Pow2(b)
  {
    if a < b { Pow2Mono(a, b - 1); }
  }

  /** Powers of two exceed their exponent. */
  lemma {:induction false} Pow2Exceeds(n: nat)
    ensures n < Pow2(n)
  {
    if n > 0 { Pow2Exceeds(n - 1); }
  }

  function Sum(s: seq<nat>): nat {
    if |s| == 0 then 0 else Sum(s[..|s| - 1]) + s[|s| - 1]
  }

  /** One more element: the step every loop that accumulates a total takes. */
  lemma SumNext(s: seq<nat>, k: nat)
    requires k < |s|
    ensures Sum(s[..k + 1]) == Sum(s[..k]) + s[k]
  {
    assert s[..k + 1][..k] == s[..k];
  }

  /** Kraft's sum of a vector of code lengths, in units of 2^-L; length 0 means no code. */
  function KraftSum(lengths: seq<nat>, L: nat): nat
    requires forall i :: 0 <= i < |lengths| ==> lengths[i] <= L
  {
    if |lengths| == 0 then 0
    else KraftSum(lengths[..|lengths| - 1], L) + KraftTerm(lengths[|lengths| - 1], L)
  }

  function KraftTerm(len: nat, L: nat): nat
    requires len <= L
  {
    if len == 0 then 0 else Pow2(L - len)
  }

  /** The cost of coding with the given lengths at the given frequencies. */
  function Dot(weights: seq<nat>, lengths: seq<nat>): nat
    requires |weights| == |lengths|
  {
    if |weights| == 0 then 0
    else Dot(weights[..|weights| - 1], lengths[..|weights| - 1]) + weights[|weights| - 1] * lengths[|weights| - 1]
  }

  lemma Distributes(a: int, b: int, x: int)
    ensures (a + b) * x == a * x + b * x
  {
  }
}
