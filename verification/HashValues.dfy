/** Hash values: three equal bytes have the same value, whatever came before. */
module HashValues {
  import opened Prelude
  import opened Symbols
  import opened HashChain

  // ---- Three bytes determine the value ----

  lemma ModDouble(v: nat, p: nat)
    requires p > 0
    ensures v % (2 * p) == v % 2 + 2 * (v / 2 % p)
  {
    var q := v / 2 / p;
    assert v / 2 == q * p + v / 2 % p;
    assert v == q * (2 * p) + (v % 2 + 2 * (v / 2 % p));
    ModIs(v, 2 * p, q, v % 2 + 2 * (v / 2 % p));
  }

  lemma ModIs(v: int, p: int, q: int, r: int)
    requires v == q * p + r && 0 <= r < p
    ensures v % p == r
  {
    var d := v / p - q;
    assert v == (v / p) * p + v % p;
    assert d * p == r - v % p;
    assert d >= 1 ==> d * p >= p;
    assert d <= -1 ==> d * p + p <= 0;
  }

  /** The low bits of an exclusive or depend on the low bits only. */
  lemma {:induction false} XorLow(x: nat, y: nat, c: nat, k: nat)
    requires x % Pow2(k) == y % Pow2(k)
    ensures BitXor(x, c) % Pow2(k) == BitXor(y, c) % Pow2(k)
  {
    if k > 0 {
      var p := Pow2(k - 1);
      ModDouble(x, p);
      ModDouble(y, p);
      XorLow(x / 2, y / 2, c / 2, k - 1);
      XorHalves(x, c);
      XorHalves(y, c);
      ModDouble(BitXor(x, c), p);
      ModDouble(BitXor(y, c), p);
    }
  }

  lemma XorHalves(x: nat, c: nat)
    ensures BitXor(x, c) % 2 == (if x % 2 != c % 2 then 1 else 0) && BitXor(x, c) / 2 == BitXor(x / 2, c / 2)
  {
  }

  lemma Scaled(v: nat, low: nat)
    requires low > 0
    ensures (v * 32) % (32 * low) == 32 * (v % low)
  {
    Regroup(v / low, low);
    ModIs(v * 32, 32 * low, v / low, 32 * (v % low));
  }

  lemma Regroup(q: nat, low: nat)
    ensures 32 * (q * low) == q * (32 * low)
  {
  }

  lemma Folded(x: nat, low: nat)
    requires low == 1 || low == 32 || low == 1024
    ensures (x % 32768) % (32 * low) == x % (32 * low)
  {
    var n := if low == 1 then 1024 else if low == 32 then 32 else 1;
    ModIs(x, 32 * low, x / 32768 * n + x % 32768 / (32 * low), x % 32768 % (32 * low));
  }

  /** Each step moves what is known of the value up by five bits. */
  lemma StepLow(v: nat, v': nat, c: nat, k: nat, low: nat)
    requires (k == 5 && low == 1) || (k == 10 && low == 32) || (k == 15 && low == 1024)
    requires v % low == v' % low
    ensures HashStep(v, c) % (32 * low) == HashStep(v', c) % (32 * low)
  {
    PowersAre(k);
    PowerIs(k, low);
    hide BitXor, Pow2;
    Scaled(v, low);
    Scaled(v', low);
    XorLow(v * 32, v' * 32, c, k);
    Folded(BitXor(v * 32, c), low);
    Folded(BitXor(v' * 32, c), low);
  }

  lemma PowerIs(k: nat, low: nat)
    requires (k == 5 && low == 1) || (k == 10 && low == 32) || (k == 15 && low == 1024)
    ensures Pow2(k) == 32 * low
  {
    PowersAre(k);
  }

  /** Three bytes determine the value, whatever came before. */
  lemma ThreeSteps(v: nat, v': nat, a: nat, b: nat, c: nat)
    ensures HashStep(HashStep(HashStep(v, a), b), c) == HashStep(HashStep(HashStep(v', a), b), c)
  {
    hide HashStep;
    StepLow(v, v', a, 5, 1);
    StepLow(HashStep(v, a), HashStep(v', a), b, 10, 32);
    StepLow(HashStep(HashStep(v, a), b), HashStep(HashStep(v', a), b), c, 15, 1024);
  }

  /** The hash value under which position `m` is inserted. */
  ghost function ValueAt(data: seq<byte>, ws: nat, end: nat, m: nat): (v: nat)
    requires ws <= m < end <= |data|
    ensures v < HASH_SIZE
  {
    HashAt(data, ws, end, m + 1).val
  }

  lemma ValueStep(data: seq<byte>, ws: nat, end: nat, n: nat)
    requires ws <= n && n + 3 <= end <= |data|
    ensures HashAt(data, ws, end, n + 1).val == HashStep(HashAt(data, ws, end, n).val, data[n + 2])
  {
    hide HashStep, Insert, SecondHash, RunLength, StateSized;
  }

  lemma FirstValue(data: seq<byte>, ws: nat, end: nat)
    requires ws + 2 <= end <= |data|
    ensures HashAt(data, ws, end, ws).val == HashStep(HashStep(0, data[ws]), data[ws + 1])
  {
    hide HashStep;
  }

  /** The last three steps to a position's value take its own three bytes: the first two positions of
      the window owe this to the warm-up. */
  lemma LastThree(data: seq<byte>, ws: nat, end: nat, m: nat) returns (v: nat)
    requires ws <= m && m + 3 <= end <= |data|
    ensures ValueAt(data, ws, end, m) == HashStep(HashStep(HashStep(v, data[m]), data[m + 1]), data[m + 2])
  {
    hide HashAt, HashStep;
    ValueStep(data, ws, end, m);
    if m == ws {
      v := 0;
      FirstValue(data, ws, end);
    } else {
      ValueStep(data, ws, end, m - 1);
      if m == ws + 1 {
        v := HashStep(0, data[ws]);
        FirstValue(data, ws, end);
      } else {
        v := HashAt(data, ws, end, m - 2).val;
        ValueStep(data, ws, end, m - 2);
      }
    }
  }

  ghost predicate SameBytes(data: seq<byte>, m: nat, k: nat) {
    m + 3 <= |data| && k + 3 <= |data| && data[m] == data[k] && data[m + 1] == data[k + 1] && data[m + 2] == data[k + 2]
  }

  /** Positions with the same three bytes are inserted under the same value. */
  lemma EqualValues(data: seq<byte>, ws: nat, end: nat, m: nat, k: nat)
    requires ws <= m && ws <= k && m + 3 <= end && k + 3 <= end <= |data| && SameBytes(data, m, k)
    ensures ValueAt(data, ws, end, m) == ValueAt(data, ws, end, k)
  {
    hide ValueAt, HashStep;
    var v := LastThree(data, ws, end, m);
    var v' := LastThree(data, ws, end, k);
    ThreeSteps(v, v', data[m], data[m + 1], data[m + 2]);
  }
}
