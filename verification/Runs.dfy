/** Run-length encoding of the distances for all lengths of a match. */
module Runs {
  import opened Prelude
  import opened Symbols

  /** All lengths up to `end` that no earlier run covers have distance `dist`. */
  datatype SublenRun = SublenRun(end: nat, dist: nat)

  /** The last length from `k` on that has the same distance as `k`, without a break. */
  function RunEnd(sub: seq<nat>, k: nat): (e: nat)
    requires k < |sub|
    ensures k <= e < |sub| && forall j :: k <= j <= e ==> sub[j] == sub[k]
    ensures e + 1 < |sub| ==> sub[e + 1] != sub[k]
    decreases |sub| - k
  {
    if k + 1 < |sub| && sub[k + 1] == sub[k] then RunEnd(sub, k + 1) else k
  }

  /** The runs for the lengths from `k` on. */
  function RunsFrom(sub: seq<nat>, k: nat): seq<SublenRun>
    decreases |sub| - k
  {
    if k >= |sub| then [] else [SublenRun(RunEnd(sub, k), sub[k])] + RunsFrom(sub, RunEnd(sub, k) + 1)
  }

  /** The distance for length `k`: that of the first run that reaches it. */
  function DistanceIn(runs: seq<SublenRun>, k: nat): Option<nat>
    decreases |runs|
  {
    if |runs| == 0 then None
    else if k <= runs[0].end then Some(runs[0].dist)
    else DistanceIn(runs[1..], k)
  }

  lemma RunsStep(sub: seq<nat>, k: nat)
    requires k < |sub|
    ensures |RunsFrom(sub, k)| > 0 && RunsFrom(sub, k)[0] == SublenRun(RunEnd(sub, k), sub[k])
    ensures RunsFrom(sub, k)[1..] == RunsFrom(sub, RunEnd(sub, k) + 1)
    ensures RunEnd(sub, k) + 1 == |sub| ==> |RunsFrom(sub, k)| == 1
  {
  }

  /** Decoding undoes encoding, for every length that was encoded. */
  lemma {:induction false} RunsDecode(sub: seq<nat>, from: nat, k: nat)
    requires from <= k < |sub|
    ensures DistanceIn(RunsFrom(sub, from), k) == Some(sub[k])
    decreases |sub| - from
  {
    var e := RunEnd(sub, from);
    RunsStep(sub, from);
    hide RunsFrom;
    if k > e {
      RunsDecode(sub, e + 1, k);
    }
  }

  /** At most one run per length, and a run for any length at all. */
  lemma {:induction false} RunsCount(sub: seq<nat>, from: nat)
    requires from <= |sub|
    ensures |RunsFrom(sub, from)| <= |sub| - from
    ensures from < |sub| ==>
            |RunsFrom(sub, from)| > 0 && RunsFrom(sub, from)[|RunsFrom(sub, from)| - 1].end == |sub| - 1
    decreases |sub| - from
  {
    if from < |sub| {
      var e := RunEnd(sub, from);
      RunsCount(sub, e + 1);
      assert RunsFrom(sub, from) == [SublenRun(e, sub[from])] + RunsFrom(sub, e + 1);
      if e + 1 == |sub| {
        assert RunsFrom(sub, e + 1) == [];
      }
    }
  }

  /** Where run number `i` starts. */
  function StartOf(runs: seq<SublenRun>, from: nat, i: nat): nat
    requires i <= |runs|
  {
    if i == 0 then from else runs[i - 1].end + 1
  }

  lemma RunsNext(sub: seq<nat>, from: nat, i: nat)
    requires i < |RunsFrom(sub, from)|
    ensures from < |sub| && from <= RunEnd(sub, from) < |sub|
    ensures RunsFrom(sub, from)[0] == SublenRun(RunEnd(sub, from), sub[from])
    ensures RunsFrom(sub, from)[1..] == RunsFrom(sub, RunEnd(sub, from) + 1)
    ensures |RunsFrom(sub, from)| == 1 <==> RunEnd(sub, from) + 1 == |sub|
  {
    RunsCount(sub, from);
    RunsStep(sub, from);
    if RunEnd(sub, from) + 1 < |sub| { RunsCount(sub, RunEnd(sub, from) + 1); }
  }

  /** The runs taken one by one: each covers the lengths from where the one before ended. */
  lemma {:induction false} RunAt(sub: seq<nat>, from: nat, i: nat)
    requires i < |RunsFrom(sub, from)|
    ensures var s, r := StartOf(RunsFrom(sub, from), from, i), RunsFrom(sub, from)[i];
            && from <= s <= r.end < |sub| && r == SublenRun(RunEnd(sub, s), sub[s])
            && (i + 1 == |RunsFrom(sub, from)| <==> r.end == |sub| - 1)
    decreases i, |sub| - from
  {
    hide RunsFrom, RunEnd;
    RunsNext(sub, from, i);
    var e := RunEnd(sub, from);
    if i > 0 {
      RunAt(sub, e + 1, i - 1);
      assert StartOf(RunsFrom(sub, from), from, i) == StartOf(RunsFrom(sub, e + 1), e + 1, i - 1);
    }
  }

  /** Record `dist` for the lengths from `from` to `to`. */
  method FillSublen(sublen: array<nat>, from: nat, to: nat, dist: nat)
    requires from <= to < sublen.Length
    modifies sublen
    ensures forall k :: 0 <= k < sublen.Length ==> sublen[k] == (if from <= k <= to then dist else old(sublen[k]))
  {
    for k := from to to + 1
      invariant forall j :: 0 <= j < sublen.Length ==> sublen[j] == (if from <= j < k then dist else old(sublen[j]))
    {
      sublen[k] := dist;
    }
  }
}
