/** What smoothing makes of the counts, said without the steps: the counts fall into stretches of similar
    counts, and each long enough stretch becomes its rounded average. */
module Stretches {
  import opened Prelude
  import opened Smoothing

  // ---- Long runs ----

  ghost predicate EqualIn(c: seq<nat>, a: nat, b: nat, x: nat) {
    a <= b <= |c| && forall j :: a <= j < b ==> c[j] == x
  }

  ghost predicate LongRun(c: seq<nat>, a: nat, b: nat, i: nat) {
    a <= i < b <= |c| && EqualIn(c, a, b, c[i]) && b - a >= (if c[i] == 0 then 5 else 7)
  }

  /** Count `i` is one of five or more zeros, or of seven or more equal other counts, in a row. */
  ghost predicate InLongRun(c: seq<nat>, i: nat) {
    exists a: nat, b: nat :: LongRun(c, a, b, i)
  }

  lemma {:induction false} StartOfRun(c: seq<nat>, i: nat, a: nat)
    requires a <= i < |c| && EqualIn(c, a, i + 1, c[i])
    ensures RunStart(c, i) <= a && EqualIn(c, RunStart(c, i), i + 1, c[i])
    decreases i
  {
    if i > 0 && c[i - 1] == c[i] {
      StartOfRun(c, i - 1, if a < i then a else i - 1);
    }
  }

  lemma {:induction false} StopOfRun(c: seq<nat>, i: nat, b: nat)
    requires i < b <= |c| && EqualIn(c, i, b, c[i])
    ensures b <= RunStop(c, i) && EqualIn(c, i, RunStop(c, i), c[i])
    decreases |c| - i
  {
    if i + 1 < |c| && c[i + 1] == c[i] {
      StopOfRun(c, i + 1, if i + 1 < b then b else i + 2);
    }
  }

  lemma GoodIs(c: seq<nat>, i: nat)
    requires i < |c|
    ensures Good(c, i) <==> InLongRun(c, i)
  {
    hide RunStart, RunStop;
    StartOfRun(c, i, i);
    StopOfRun(c, i, i + 1);
    if Good(c, i) {
      assert LongRun(c, RunStart(c, i), RunStop(c, i), i);
    }
    if InLongRun(c, i) {
      var a: nat, b: nat :| LongRun(c, a, b, i);
      StartOfRun(c, i, a);
      StopOfRun(c, i, b);
    }
  }

  // ---- Stretches ----

  /** What a stretch that starts at `s` is compared with: its first four counts' average, rounded, but
      the very first count for the first stretch unless a long run starts there. */
  ghost predicate IsLimit(c: seq<nat>, s: nat, limit: nat)
    requires s < |c|
  {
    if (s == 0 && !InLongRun(c, 0)) || s + 3 >= |c| then limit == c[s]
    else -2 < 4 * limit - (c[s] + c[s + 1] + c[s + 2] + c[s + 3]) <= 2
  }

  ghost predicate Near(x: nat, limit: nat) {
    -4 < x - limit < 4
  }

  /** The counts from `s` to `e` are a stretch: after the first one, no long run, all near the limit, and
      so for as long as possible. */
  ghost predicate IsStretch(c: seq<nat>, s: nat, e: nat, limit: nat) {
    && s < e <= |c| && IsLimit(c, s, limit)
    && (forall j :: s < j < e ==> !InLongRun(c, j) && Near(c[j], limit))
    && (e < |c| ==> InLongRun(c, e) || !Near(c[e], limit))
  }

  /** The average of n counts with the given sum: rounded, halves up, but 1 at least. */
  ghost predicate IsAverage(x: nat, n: nat, sum: nat) {
    if 2 * sum < n then x == 1 else 2 * sum - n < 2 * (x * n) <= 2 * sum + n
  }

  /** Four or more counts that are not all zero become their average; others stay. */
  ghost predicate Averaged(s: seq<nat>, r: seq<nat>) {
    && |r| == |s|
    && (if |s| >= 4 && Sum(s) > 0 then forall j :: 0 <= j < |r| ==> IsAverage(r[j], |s|, Sum(s)) else r == s)
  }

  ghost predicate StretchTo(c: seq<nat>, s: nat, e: nat, limit: nat, r: seq<nat>) {
    IsStretch(c, s, e, limit) && |r| == |c| - s && Averaged(c[s..e], r[..e - s])
  }

  /** The counts from `s` on fall into stretches that become `r`. */
  ghost predicate Smooths(c: seq<nat>, s: nat, r: seq<nat>)
    requires s <= |c|
    decreases |c| - s
  {
    if s == |c| then r == []
    else exists e: nat, limit: nat :: StretchTo(c, s, e, limit, r) && s < e <= |c| && Smooths(c, e, r[e - s..])
  }

  lemma LimitIs(c: seq<nat>, s: nat)
    requires s < |c|
    ensures IsLimit(c, s, Limit(c, s))
  {
    GoodIs(c, 0);
    hide Good, InLongRun;
  }

  lemma BreaksIs(c: seq<nat>, limit: nat, i: nat)
    requires i < |c|
    ensures Breaks(c, limit, i) <==> InLongRun(c, i) || !Near(c[i], limit)
  {
    GoodIs(c, i);
    hide Good, InLongRun;
  }

  lemma {:induction false} StretchEndIs(c: seq<nat>, limit: nat, e: nat)
    requires e <= |c|
    ensures var r := StretchEnd(c, limit, e);
            && (forall j :: e <= j < r ==> !InLongRun(c, j) && Near(c[j], limit))
            && (r < |c| ==> InLongRun(c, r) || !Near(c[r], limit))
    decreases |c| - e
  {
    hide Breaks, InLongRun, Near;
    if e < |c| {
      BreaksIs(c, limit, e);
      if !Breaks(c, limit, e) { StretchEndIs(c, limit, e + 1); }
    }
  }

  lemma RoundedIs(sum: nat, n: nat)
    requires n > 0
    ensures IsAverage(Max((sum + n / 2) / n, 1), n, sum)
  {
    var q := (sum + n / 2) / n;
    assert q * n <= sum + n / 2 < q * n + n by { Quotient(sum + n / 2, n); }
    if q == 0 {
      assert q * n == 0;
      assert 1 * n == n;
    } else {
      assert q * n >= n by { Grows(q, n); }
    }
  }

  lemma Quotient(v: nat, n: nat)
    requires n > 0
    ensures v / n * n <= v < v / n * n + n
  {
  }

  lemma Grows(q: nat, n: nat)
    requires q >= 1
    ensures q * n >= n
  {
  }

  lemma AverageIs(s: seq<nat>)
    ensures Averaged(s, Average(s))
  {
    hide IsAverage, Sum;
    if |s| >= 4 && Sum(s) > 0 {
      RoundedIs(Sum(s), |s|);
    } else if |s| >= 3 && Sum(s) == 0 {
      AllZero(s);
    }
  }

  lemma AllZero(s: seq<nat>)
    requires Sum(s) == 0
    ensures forall i :: 0 <= i < |s| ==> s[i] == 0
  {
    forall i | 0 <= i < |s| ensures s[i] == 0 {
      if s[i] != 0 { SumPositive(s, i); }
    }
  }

  lemma {:induction false} SmoothFromSmooths(c: seq<nat>, s: nat)
    requires s <= |c|
    ensures Smooths(c, s, SmoothFrom(c, s))
    decreases |c| - s
  {
    hide IsLimit, Limit, StretchEnd, Average, InLongRun, Near, Averaged;
    if s < |c| {
      var limit, e := Limit(c, s), StretchEnd(c, Limit(c, s), s + 1);
      var r := SmoothFrom(c, s);
      SmoothStep(c, s);
      LimitIs(c, s);
      StretchEndIs(c, limit, s + 1);
      AverageIs(c[s..e]);
      SmoothFromSmooths(c, e);
      assert r[..e - s] == Average(c[s..e]) && r[e - s..] == SmoothFrom(c, e);
      assert StretchTo(c, s, e, limit, r);
    }
  }

  // ---- No other result fits ----

  lemma AverageUnique(x: nat, y: nat, n: nat, sum: nat)
    requires n > 0 && IsAverage(x, n, sum) && IsAverage(y, n, sum)
    ensures x == y
  {
    if x > y { MoreTimes(x, y, n); }
    if y > x { MoreTimes(y, x, n); }
  }

  lemma MoreTimes(x: nat, y: nat, n: nat)
    requires x > y
    ensures x * n >= y * n + n
  {
    assert x * n == y * n + (x - y) * n;
    Grows(x - y, n);
  }

  lemma AveragedUnique(s: seq<nat>, r: seq<nat>, r': seq<nat>)
    requires Averaged(s, r) && Averaged(s, r')
    ensures r == r'
  {
    hide IsAverage, Sum;
    if |s| >= 4 && Sum(s) > 0 {
      forall j | 0 <= j < |s| ensures r[j] == r'[j] { AverageUnique(r[j], r'[j], |s|, Sum(s)); }
    }
  }

  lemma StretchUnique(c: seq<nat>, s: nat, e: nat, limit: nat, e': nat, limit': nat)
    requires IsStretch(c, s, e, limit) && IsStretch(c, s, e', limit')
    ensures e == e'
  {
    hide InLongRun;
  }

  lemma {:induction false} SmoothsUnique(c: seq<nat>, s: nat, r: seq<nat>, r': seq<nat>)
    requires s <= |c| && Smooths(c, s, r) && Smooths(c, s, r')
    ensures r == r'
    decreases |c| - s
  {
    hide IsStretch, Averaged;
    if s < |c| {
      var e: nat, limit: nat :| StretchTo(c, s, e, limit, r) && s < e <= |c| && Smooths(c, e, r[e - s..]);
      var e': nat, limit': nat :| StretchTo(c, s, e', limit', r') && s < e' <= |c| && Smooths(c, e', r'[e' - s..]);
      StretchUnique(c, s, e, limit, e', limit');
      AveragedUnique(c[s..e], r[..e - s], r'[..e - s]);
      SmoothsUnique(c, e, r[e - s..], r'[e - s..]);
      assert r == r[..e - s] + r[e - s..] && r' == r'[..e - s] + r'[e - s..];
    }
  }

  /** The smoothed counts are the only ones that keep the zeros at the end and turn the counts before,
      stretch by stretch, into rounded averages. */
  lemma SmoothedIs(c: seq<nat>, r: seq<nat>)
    requires |r| == |c|
    ensures var k := Trimmed(c, |c|);
            r == Smoothed(c) <==> Smooths(c[..k], 0, r[..k]) && r[k..] == c[k..]
  {
    hide *;
    var k := Trimmed(c, |c|);
    SmoothFromSmooths(c[..k], 0);
    SmoothedParts(c);
    if Smooths(c[..k], 0, r[..k]) { SmoothsUnique(c[..k], 0, r[..k], SmoothFrom(c[..k], 0)); }
    assert r == r[..k] + r[k..];
  }

  lemma SmoothedParts(c: seq<nat>)
    ensures var k := Trimmed(c, |c|); Smoothed(c) == SmoothFrom(c[..k], 0) + c[k..]
    ensures var k := Trimmed(c, |c|); Smoothed(c)[..k] == SmoothFrom(c[..k], 0) && Smoothed(c)[k..] == c[k..]
  {
    hide SmoothFrom, Trimmed;
  }

  // ---- Long runs stay ----

  lemma {:induction false} LongRunStays(c: seq<nat>, s: nat, i: nat)
    requires s <= i && i + 1 < |c| && Good(c, i) && Good(c, i + 1)
    ensures SmoothFrom(c, s)[i - s] == c[i]
    decreases |c| - s
  {
    hide *;
    var e := StretchEnd(c, Limit(c, s), s + 1);
    SmoothStep(c, s);
    BreaksWhen(c, Limit(c, s), i);
    BreaksWhen(c, Limit(c, s), i + 1);
    if s == i {
      EndsAtBreak(c, Limit(c, s), s + 1, i + 1);
      OneStays(c[s..e]);
    } else {
      EndsAtBreak(c, Limit(c, s), s + 1, i);
      LongRunStays(c, e, i);
    }
  }

  lemma BreaksWhen(c: seq<nat>, limit: nat, i: nat)
    requires i < |c| && Good(c, i)
    ensures Breaks(c, limit, i)
  {
  }

  lemma OneStays(s: seq<nat>)
    requires |s| == 1
    ensures Average(s) == s
  {
  }

  lemma {:induction false} EndsAtBreak(c: seq<nat>, limit: nat, e: nat, i: nat)
    requires e <= i < |c| && Breaks(c, limit, i)
    ensures StretchEnd(c, limit, e) <= i
    decreases i - e
  {
    hide Breaks;
    if e < i { EndsAtBreak(c, limit, e + 1, i); }
  }

  /** The next count of a long run is in it as well. */
  lemma NextInRun(c: seq<nat>, i: nat)
    requires i + 1 < |c| && InLongRun(c, i) && c[i + 1] == c[i]
    ensures InLongRun(c, i + 1)
  {
    var a: nat, b: nat :| LongRun(c, a, b, i);
    assert LongRun(c, a, if i + 1 == b then b + 1 else b, i + 1);
  }

  /** A long run with another count after it ends before the trailing zeros. */
  lemma RunBeforeZeros(c: seq<nat>, k: nat, i: nat)
    requires k <= |c| && (forall j :: k <= j < |c| ==> c[j] == 0) && (k > 0 ==> c[k - 1] != 0) && i < k
    requires InLongRun(c, i)
    ensures InLongRun(c[..k], i)
    ensures i + 1 < |c| && c[i + 1] == c[i] ==> i + 1 < k
  {
    var a: nat, b: nat :| LongRun(c, a, b, i);
    var beyond := if k < |c| then c[k] else 0;
    assert b <= k;
    assert LongRun(c[..k], a, b, i);
  }

  /** The counts of long runs stay, but for the last one of each run. */
  lemma LongRunsStay(c: seq<nat>, i: nat)
    requires i + 1 < |c| && InLongRun(c, i) && c[i + 1] == c[i]
    ensures Smoothed(c)[i] == c[i]
  {
    hide *;
    var k := Trimmed(c, |c|);
    SmoothedAt(c, i);
    if i < k {
      RunBeforeZeros(c, k, i);
      NextInRun(c[..k], i);
      GoodIs(c[..k], i);
      GoodIs(c[..k], i + 1);
      LongRunStays(c[..k], 0, i);
    }
  }
}
