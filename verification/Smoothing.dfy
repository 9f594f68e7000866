/** Changing symbol counts so that their code lengths run-length encode better. */
module Smoothing {
  import opened Prelude

  // ---- What it does ----

  /** The counts up to the last one that is not zero. */
  function Trimmed(c: seq<nat>, n: nat): (k: nat)
    requires n <= |c|
    ensures k <= n && (forall i :: k <= i < n ==> c[i] == 0) && (k > 0 ==> c[k - 1] != 0)
  {
    if n > 0 && c[n - 1] == 0 then Trimmed(c, n - 1) else n
  }

  /** The start, and the end, of the run of equal counts around `i`. */
  function RunStart(c: seq<nat>, i: nat): (s: nat)
    requires i < |c|
    ensures s <= i
  {
    if i > 0 && c[i - 1] == c[i] then RunStart(c, i - 1) else i
  }

  function RunStop(c: seq<nat>, i: nat): (e: nat)
    requires i < |c|
    ensures i < e <= |c|
    decreases |c| - i
  {
    if i + 1 < |c| && c[i + 1] == c[i] then RunStop(c, i + 1) else i + 1
  }

  /** Long runs of equal counts are good as they are. */
  function Good(c: seq<nat>, i: nat): bool
    requires i < |c|
  {
    RunStop(c, i) - RunStart(c, i) >= if c[i] == 0 then 5 else 7
  }

  /** What the counts of a stretch that starts at `s` are compared with. */
  function Limit(c: seq<nat>, s: nat): nat
    requires s < |c|
  {
    if s == 0 && !Good(c, 0) then c[0]
    else if s + 3 < |c| then (c[s] + c[s + 1] + c[s + 2] + c[s + 3] + 2) / 4
    else c[s]
  }

  function AbsDiff(a: nat, b: nat): nat {
    if a > b then a - b else b - a
  }

  predicate Breaks(c: seq<nat>, limit: nat, i: nat)
    requires i < |c|
  {
    Good(c, i) || AbsDiff(c[i], limit) >= 4
  }

  /** Where the stretch that is known to reach `e` ends. */
  function StretchEnd(c: seq<nat>, limit: nat, e: nat): (r: nat)
    requires e <= |c|
    ensures e <= r <= |c|
    decreases |c| - e
  {
    if e == |c| || Breaks(c, limit, e) then e else StretchEnd(c, limit, e + 1)
  }

  /** A stretch's counts become their average, at least 1, if that is worth it. */
  function Average(s: seq<nat>): (r: seq<nat>)
    ensures |r| == |s|
  {
    if |s| >= 4 || (|s| >= 3 && Sum(s) == 0) then
      seq(|s|, i => if Sum(s) == 0 then 0 else Max((Sum(s) + |s| / 2) / |s|, 1))
    else s
  }

  /** Stretch after stretch from `s` on. */
  function SmoothFrom(c: seq<nat>, s: nat): (r: seq<nat>)
    requires s <= |c|
    ensures |r| == |c| - s
    decreases |c| - s
  {
    if s == |c| then []
    else
      var e := StretchEnd(c, Limit(c, s), s + 1);
      Average(c[s..e]) + SmoothFrom(c, e)
  }

  /** The smoothed counts: trailing zeros stay. */
  function Smoothed(c: seq<nat>): (r: seq<nat>)
    ensures |r| == |c|
  {
    var k := Trimmed(c, |c|);
    SmoothFrom(c[..k], 0) + c[k..]
  }

  // ---- Why that is safe ----

  lemma {:induction false} SumPositive(s: seq<nat>, i: nat)
    requires i < |s| && s[i] != 0
    ensures Sum(s) > 0
  {
    if i < |s| - 1 { SumPositive(s[..|s| - 1], i); }
  }

  lemma AverageKeeps(s: seq<nat>, i: nat)
    requires i < |s| && s[i] != 0
    ensures Average(s)[i] != 0
  {
    SumPositive(s, i);
  }

  lemma SmoothStep(c: seq<nat>, s: nat)
    requires s < |c|
    ensures var e := StretchEnd(c, Limit(c, s), s + 1); SmoothFrom(c, s) == Average(c[s..e]) + SmoothFrom(c, e)
  {
    hide Average, Limit, StretchEnd;
  }

  lemma {:induction false} SmoothKeeps(c: seq<nat>, s: nat, i: nat)
    requires s <= i < |c| && c[i] != 0
    ensures SmoothFrom(c, s)[i - s] != 0
    decreases |c| - s
  {
    hide *;
    var e := StretchEnd(c, Limit(c, s), s + 1);
    SmoothStep(c, s);
    if i < e {
      AverageKeeps(c[s..e], i - s);
    } else {
      SmoothKeeps(c, e, i);
    }
  }

  lemma SmoothedAt(c: seq<nat>, i: nat)
    requires i < |c|
    ensures var k := Trimmed(c, |c|);
            && k <= |c| && (k <= i ==> c[i] == 0)
            && (i < k ==> c[..k][i] == c[i]) && Smoothed(c)[i] == if i < k then SmoothFrom(c[..k], 0)[i] else c[i]
  {
    hide SmoothFrom, Trimmed;
  }

  /** No count that is not zero becomes zero, and the zeros at the end stay zeros. */
  lemma SmoothedKeeps(c: seq<nat>)
    ensures forall i :: 0 <= i < |c| && c[i] != 0 ==> Smoothed(c)[i] != 0
    ensures forall i :: Trimmed(c, |c|) <= i < |c| ==> Smoothed(c)[i] == 0
  {
    hide *;
    forall i | 0 <= i < |c| && c[i] != 0 ensures Smoothed(c)[i] != 0 {
      SmoothedAt(c, i);
      SmoothKeeps(c[..Trimmed(c, |c|)], 0, i);
    }
    forall i | Trimmed(c, |c|) <= i < |c| ensures Smoothed(c)[i] == 0 {
      SmoothedAt(c, i);
    }
  }

  // ---- In place ----

  lemma {:induction false} RunStartIs(c: seq<nat>, s: nat, i: nat)
    requires s <= i < |c| && (forall j :: s <= j <= i ==> c[j] == c[s]) && (s > 0 ==> c[s - 1] != c[s])
    ensures RunStart(c, i) == s
    decreases i
  {
    if i > s { RunStartIs(c, s, i - 1); }
  }

  lemma {:induction false} RunStopIs(c: seq<nat>, i: nat, e: nat)
    requires i < e <= |c| && (forall j :: i <= j < e ==> c[j] == c[i]) && (e < |c| ==> c[e] != c[i])
    ensures RunStop(c, i) == e
    decreases e - i
  {
    if i + 1 < e { RunStopIs(c, i + 1, e); }
  }

  /** Mark the long runs of equal counts. */
  method MarkRuns(c: seq<nat>) returns (good: array<bool>)
    requires |c| > 0
    ensures fresh(good) && good.Length == |c| && forall i :: 0 <= i < |c| ==> good[i] == Good(c, i)
  {
    good := new bool[|c|](_ => false);
    var symbol := c[0];
    var stride := 0;
    for i := 0 to |c| + 1
      invariant stride <= i && (i == 0 ==> stride == 0) && (0 < i <= |c| ==> 0 < stride)
      invariant i <= |c| ==>
                (forall j :: i - stride <= j < i ==> c[j] == symbol)
                  && (i - stride > 0 && i > 0 ==> c[i - stride - 1] != symbol)
      invariant i == 0 ==> symbol == c[0]
      invariant forall j :: 0 <= j < (if i <= |c| then i - stride else |c|) ==> good[j] == Good(c, j)
      invariant i <= |c| ==> forall j :: i - stride <= j < |c| ==> !good[j]
    {
      if i == |c| || c[i] != symbol {
        MarkRun(c, good, symbol, i, stride);
        stride := 1;
        if i != |c| {
          symbol := c[i];
        }
      } else {
        stride := stride + 1;
      }
    }
  }

  /** A run has ended: mark it if it is long enough. */
  method MarkRun(c: seq<nat>, good: array<bool>, symbol: nat, i: nat, stride: nat)
    requires good.Length == |c| && stride <= i <= |c|
    requires (forall j :: i - stride <= j < i ==> c[j] == symbol && !good[j])
    requires (i - stride > 0 && stride > 0 ==> c[i - stride - 1] != symbol) && (i < |c| ==> c[i] != symbol)
    modifies good
    ensures forall j :: i - stride <= j < i ==> good[j] == Good(c, j)
    ensures forall j :: 0 <= j < |c| && !(i - stride <= j < i) ==> good[j] == old(good[j])
  {
    forall j | i - stride <= j < i ensures Good(c, j) == (stride >= if symbol == 0 then 5 else 7) {
      RunStartIs(c, i - stride, j);
      RunStopIs(c, j, i);
    }
    hide Good;
    if (symbol == 0 && stride >= 5) || (symbol != 0 && stride >= 7) {
      for k := 0 to stride
        invariant forall j :: i - k <= j < i ==> good[j]
        invariant forall j :: 0 <= j < |c| && !(i - k <= j < i) ==> good[j] == old(good[j])
      {
        good[i - k - 1] := true;
      }
    }
  }

  lemma {:induction false} StretchGoes(c: seq<nat>, limit: nat, e: nat, i: nat)
    requires e <= i <= |c| && forall j :: e <= j < i ==> !Breaks(c, limit, j)
    ensures StretchEnd(c, limit, e) == StretchEnd(c, limit, i)
    decreases i - e
  {
    hide Breaks;
    if e < i { StretchGoes(c, limit, e + 1, i); }
  }

  /** Write the average over a stretch that has ended. */
  method CloseStretch(counts: array<nat>, i: nat, stride: nat, sum: nat, ghost s: seq<nat>)
    requires stride <= i <= counts.Length && |s| == stride && sum == Sum(s) && counts[i - stride..i] == s
    modifies counts
    ensures counts[i - stride..i] == Average(s)
    ensures forall j :: 0 <= j < counts.Length && !(i - stride <= j < i) ==> counts[j] == old(counts[j])
  {
    if stride >= 4 || (stride >= 3 && sum == 0) {
      var count := Max((sum + stride / 2) / stride, 1);
      if sum == 0 {
        count := 0;
      }
      for k := 0 to stride
        invariant forall j :: i - k <= j < i ==> counts[j] == count
        invariant forall j :: 0 <= j < counts.Length && !(i - k <= j < i) ==> counts[j] == old(counts[j])
      {
        counts[i - k - 1] := count;
      }
    }
  }

  lemma SumOne(c: seq<nat>, s: nat, i: nat)
    requires s <= i < |c|
    ensures Sum(c[s..i + 1]) == Sum(c[s..i]) + c[i] && Sum(c[i..i]) == 0
  {
    assert c[s..i + 1][..i - s] == c[s..i];
  }

  /** A stretch starts at `s`. */
  ghost predicate Boundary(c: seq<nat>, s: nat) {
    s <= |c| && SmoothFrom(c, 0)[s..] == SmoothFrom(c, s)
  }

  lemma BoundaryNext(c: seq<nat>, s: nat, e: nat)
    requires Boundary(c, s) && s < |c| && e == StretchEnd(c, Limit(c, s), s + 1)
    ensures Boundary(c, e) && SmoothFrom(c, 0)[s..e] == Average(c[s..e])
  {
    SmoothStep(c, s);
    hide SmoothFrom, Average, Limit, StretchEnd;
    var all := SmoothFrom(c, 0);
    assert all[s..e] == all[s..][..e - s];
    assert all[e..] == all[s..][e - s..];
  }

  /** What is done in the array, and what is still to do, when the current stretch starts at `s`. */
  ghost predicate SmoothedUpTo(counts: array<nat>, c: seq<nat>, s: nat)
    reads counts
  {
    && |c| <= counts.Length && Boundary(c, s)
    && (forall j :: 0 <= j < s ==> counts[j] == SmoothFrom(c, 0)[j])
    && (forall j :: s <= j < |c| ==> counts[j] == c[j])
  }

  /** The stretch that ends at `i`, if one has begun, gets its average. */
  method FinishStretch(counts: array<nat>, i: nat, stride: nat, sum: nat, limit: nat, ghost c: seq<nat>)
    requires |c| <= counts.Length && stride <= i <= |c| && (i > 0 ==> stride > 0)
    requires SmoothedUpTo(counts, c, i - stride) && sum == Sum(c[i - stride..i])
    requires i > 0 ==> i == StretchEnd(c, Limit(c, i - stride), i - stride + 1)
    modifies counts
    ensures SmoothedUpTo(counts, c, i) && forall j :: |c| <= j < counts.Length ==> counts[j] == old(counts[j])
  {
    hide SmoothFrom, StretchEnd, Average, Limit, Boundary, Sum;
    ghost var s, all := i - stride, SmoothFrom(c, 0);
    if i > 0 { BoundaryNext(c, s, i); }
    assert counts[s..i] == c[s..i];
    CloseStretch(counts, i, stride, sum, c[s..i]);
    if i > 0 {
      forall j | 0 <= j < i ensures counts[j] == all[j] {
        if j >= s {
          assert counts[s..i][j - s] == all[s..i][j - s];
        }
      }
    }
  }

  /** Before count `i`: the current stretch has `stride` counts, their sum is `sum`. */
  ghost predicate InStretch(counts: array<nat>, c: seq<nat>, i: nat, stride: nat, sum: nat, limit: nat)
    reads counts
  {
    && i <= |c| && stride <= i && 0 < |c| && SmoothedUpTo(counts, c, i - stride) && sum == Sum(c[i - stride..i])
    && (if i == 0 then limit == c[0] else stride > 0 && limit == Limit(c, i - stride))
    && forall j :: i - stride < j < i ==> !Breaks(c, limit, j)
  }

  /** Take one more count into the stretch, after finishing the one before if it ends here. */
  method ExtendStretch(counts: array<nat>, length: nat, i: nat, good: bool, stride: nat, sum: nat, limit: nat,
                       ghost c: seq<nat>)
    returns (stride': nat, sum': nat, limit': nat)
    requires InStretch(counts, c, i, stride, sum, limit) && i < length == |c| <= counts.Length && good == Good(c, i)
    modifies counts
    ensures InStretch(counts, c, i + 1, stride', sum', limit')
    ensures forall j :: length <= j < counts.Length ==> counts[j] == old(counts[j])
  {
    hide Good, SmoothFrom, StretchEnd, Average, Sum, SmoothedUpTo, Boundary, Limit;
    stride', sum', limit' := stride, sum, limit;
    CurrentCount(counts, c, i - stride, i);
    FirstLimit(c);
    if good || AbsDiff(counts[i], limit) >= 4 {
      if i > 0 { StretchEndsAt(c, limit, i - stride, i); }
      FinishStretch(counts, i, stride, sum, limit, c);
      stride', sum' := 0, 0;
      limit' := NextLimit(counts, length, i, c);
      CurrentCount(counts, c, i, i);
    }
    SumOne(c, i - stride', i);
    stride' := stride' + 1;
    sum' := sum' + counts[i];
  }

  lemma FirstLimit(c: seq<nat>)
    requires |c| > 0
    ensures !Good(c, 0) ==> Limit(c, 0) == c[0]
  {
    hide Good;
  }

  /** Replace uneven stretches by their averages; `length` is the number of counts up to the last
      that is not zero. */
  method SmoothStretches(counts: array<nat>, length: nat, good: array<bool>)
    requires 0 < length <= counts.Length && good.Length == length
    requires forall i :: 0 <= i < length ==> good[i] == Good(counts[..length], i)
    modifies counts
    ensures counts[..length] == SmoothFrom(old(counts[..length]), 0)
    ensures forall j :: length <= j < counts.Length ==> counts[j] == old(counts[j])
  {
    hide Good, InStretch;
    ghost var c := counts[..length];
    var stride, limit, sum := 0, counts[0], 0;
    StartsAtZero(counts, c);
    for i := 0 to length
      invariant InStretch(counts, c, i, stride, sum, limit)
      invariant forall j :: length <= j < counts.Length ==> counts[j] == old(counts[j])
    {
      stride, sum, limit := ExtendStretch(counts, length, i, good[i], stride, sum, limit, c);
    }
    StretchAtEnd(counts, c, stride, sum, limit);
    FinishStretch(counts, length, stride, sum, limit, c);
    AllSmoothed(counts, c);
  }

  lemma StretchAtEnd(counts: array<nat>, c: seq<nat>, stride: nat, sum: nat, limit: nat)
    requires InStretch(counts, c, |c|, stride, sum, limit)
    ensures 0 < stride <= |c| && SmoothedUpTo(counts, c, |c| - stride) && sum == Sum(c[|c| - stride..|c|])
    ensures |c| == StretchEnd(c, Limit(c, |c| - stride), |c| - stride + 1)
  {
    hide SmoothedUpTo, Limit, Sum, Breaks, StretchEnd;
    StretchEndsAt(c, limit, |c| - stride, |c|);
  }

  lemma StartsAtZero(counts: array<nat>, c: seq<nat>)
    requires 0 < |c| <= counts.Length && c == counts[..|c|]
    ensures InStretch(counts, c, 0, 0, 0, counts[0])
  {
  }

  lemma AllSmoothed(counts: array<nat>, c: seq<nat>)
    requires SmoothedUpTo(counts, c, |c|)
    ensures counts[..|c|] == SmoothFrom(c, 0)
  {
    hide SmoothFrom;
  }

  lemma CurrentCount(counts: array<nat>, c: seq<nat>, s: nat, i: nat)
    requires SmoothedUpTo(counts, c, s) && s <= i < |c|
    ensures |c| <= counts.Length && forall j :: s <= j < |c| ==> counts[j] == c[j]
  {
    hide SmoothFrom;
  }

  lemma StretchEndsAt(c: seq<nat>, limit: nat, s: nat, i: nat)
    requires s < i <= |c| && limit == Limit(c, s) && (forall j :: s < j < i ==> !Breaks(c, limit, j))
    requires (i == |c| || Breaks(c, limit, i))
    ensures i == StretchEnd(c, Limit(c, s), s + 1)
  {
    hide Breaks, Limit;
    StretchGoes(c, limit, s + 1, i);
  }

  method NextLimit(counts: array<nat>, length: nat, i: nat, ghost c: seq<nat>) returns (limit: nat)
    requires i <= length == |c| <= counts.Length && SmoothedUpTo(counts, c, i) && (i == 0 ==> |c| > 0 && Good(c, 0))
    ensures i < length ==> limit == Limit(c, i)
  {
    hide SmoothFrom, Good;
    if i + 3 < length {
      limit := (counts[i] + counts[i + 1] + counts[i + 2] + counts[i + 3] + 2) / 4;
    } else if i < length {
      limit := counts[i];
    } else {
      limit := 0;
    }
  }

  /** Smooth the counts in place. */
  method OptimizeHuffmanForRLE(counts: array<nat>)
    modifies counts
    ensures counts[..] == Smoothed(old(counts[..]))
  {
    ghost var c0 := counts[..];
    var length: nat := counts.Length;
    while length > 0 && counts[length - 1] == 0
      invariant length <= counts.Length && counts[..] == c0 && Trimmed(c0, length) == Trimmed(c0, |c0|)
    {
      length := length - 1;
    }
    hide SmoothFrom;
    if length == 0 {
      NothingToSmooth(c0);
      return;
    }
    ghost var c := counts[..length];
    var good := MarkRuns(counts[..length]);
    SmoothStretches(counts, length, good);
    assert counts[..] == counts[..length] + counts[length..];
    assert counts[length..] == c0[length..] && c == c0[..length];
  }

  lemma NothingToSmooth(c: seq<nat>)
    requires Trimmed(c, |c|) == 0
    ensures Smoothed(c) == c
  {
  }
}