/** Choosing where to split a sequence of tokens into blocks. */
module BlockSplitter {
  import opened Prelude
  import opened Symbols
  import opened Tokens
  import opened HashChain
  import opened MatchCache
  import opened MatchFinder
  import opened ShortestPath
  import opened Store
  import opened Parse
  import opened Greedy
  import opened BlockSize
  import opened DynamicLengths

  const PROBES: nat := 9

  // ---- Searching for a minimum ----

  datatype Best = Best(pos: nat, cost: real)

  /** Short ranges are searched exhaustively: the first of the cheapest points from `start` to `n`. */
  ghost function ShortSearch(f: nat -> real, start: nat, n: nat): Best
    requires start <= n
    decreases n
  {
    if n == start then Best(start, LARGE)
    else
      var best := ShortSearch(f, start, n - 1);
      if f(n - 1) < best.cost then Best(n - 1, f(n - 1)) else best
  }

  /** The i-th of nine evenly spaced points. */
  function Probe(start: nat, end: nat, i: nat): nat
    requires start <= end
  {
    start + (i + 1) * ((end - start) / (PROBES + 1))
  }

  lemma ProbesInside(start: nat, end: nat, i: nat)
    requires start + PROBES < end && i < PROBES
    ensures start < Probe(start, end, i) < end
    ensures i > 0 ==> Probe(start, end, i - 1) < Probe(start, end, i)
  {
    var d := (end - start) / (PROBES + 1);
    assert 1 <= d && 10 * d <= end - start;
  }

  /** The first of the cheapest of the first n probes. */
  ghost function CheapestProbe(f: nat -> real, start: nat, end: nat, n: nat): (i: nat)
    requires start <= end && n > 0
    ensures i < n
  {
    if n == 1 then 0
    else
      var i := CheapestProbe(f, start, end, n - 1);
      if f(Probe(start, end, n - 1)) < f(Probe(start, end, i)) then n - 1 else i
  }

  lemma {:induction false} CheapestProbeIs(f: nat -> real, start: nat, end: nat, n: nat, i: nat)
    requires start <= end && i < n
    ensures f(Probe(start, end, CheapestProbe(f, start, end, n))) <= f(Probe(start, end, i))
    ensures i < CheapestProbe(f, start, end, n) ==>
              f(Probe(start, end, CheapestProbe(f, start, end, n))) < f(Probe(start, end, i))
  {
    hide Probe;
    if i < n - 1 { CheapestProbeIs(f, start, end, n - 1, i); }
  }

  /** The neighbours of a probe. */
  function NarrowStart(start: nat, end: nat, i: nat): nat
    requires start <= end
  {
    if i > 0 then Probe(start, end, i - 1) else start
  }

  function NarrowEnd(start: nat, end: nat, i: nat): nat
    requires start <= end
  {
    if i + 1 < PROBES then Probe(start, end, i + 1) else end
  }

  /** The search always narrows the range down. */
  lemma Narrows(start: nat, end: nat, i: nat)
    requires start + PROBES < end && i < PROBES
    ensures start <= NarrowStart(start, end, i) <= NarrowEnd(start, end, i) <= end
    ensures NarrowEnd(start, end, i) - NarrowStart(start, end, i) < end - start
    ensures start < Probe(start, end, i) < end
  {
    hide Probe;
    ProbesInside(start, end, i);
    if i > 0 { ProbesInside(start, end, i - 1); }
    if i + 1 < PROBES { ProbesInside(start, end, i + 1); }
  }

  /** Long ranges are narrowed down around the cheapest probe, as long as that does not get worse. */
  ghost function LongSearch(f: nat -> real, start: nat, end: nat, best: Best): Best
    requires start <= end
    decreases end - start
  {
    if end - start <= PROBES then best
    else
      var i := CheapestProbe(f, start, end, 9);
      var x := Probe(start, end, i);
      if f(x) > best.cost then best
      else
        Narrows(start, end, i);
        LongSearch(f, NarrowStart(start, end, i), NarrowEnd(start, end, i), Best(x, f(x)))
  }

  ghost function ProbesOf(start: nat, end: nat): set<nat>
    requires start <= end
  {
    set i | 0 <= i < PROBES :: Probe(start, end, i)
  }

  /** All points that the search of a long range tries. */
  ghost function Probed(f: nat -> real, start: nat, end: nat, best: Best): set<nat>
    requires start <= end
    decreases end - start
  {
    if end - start <= PROBES then {}
    else
      var i := CheapestProbe(f, start, end, 9);
      var x := Probe(start, end, i);
      if f(x) > best.cost then ProbesOf(start, end)
      else
        Narrows(start, end, i);
        ProbesOf(start, end) + Probed(f, NarrowStart(start, end, i), NarrowEnd(start, end, i), Best(x, f(x)))
  }

  lemma LongStep(f: nat -> real, start: nat, end: nat, best: Best)
    requires start <= end
    ensures end - start <= PROBES ==> LongSearch(f, start, end, best) == best && Probed(f, start, end, best) == {}
    ensures end - start > PROBES ==>
              var i := CheapestProbe(f, start, end, 9);
              var x := Probe(start, end, i);
              var start', end', next := NarrowStart(start, end, i), NarrowEnd(start, end, i), Best(x, f(x));
              && start <= start' <= end' <= end && end' - start' < end - start && start < x < end
              && LongSearch(f, start, end, best)
                 == (if f(x) > best.cost then best else LongSearch(f, start', end', next))
              && Probed(f, start, end, best)
                   == ProbesOf(start, end) + (if f(x) > best.cost then {} else Probed(f, start', end', next))
  {
    hide Probe, NarrowStart, NarrowEnd, ProbesOf, CheapestProbe;
    if end - start > PROBES { Narrows(start, end, CheapestProbe(f, start, end, 9)); }
  }

  /** The point found, and its cost. */
  ghost function Minimum(f: nat -> real, start: nat, end: nat): Best
    requires start <= end
  {
    if end - start < 1024 then ShortSearch(f, start, end) else LongSearch(f, start, end, Best(start, LARGE))
  }

  /** The points that the search tries: all of a short range, and the probes in a long one. */
  ghost predicate Tried(f: nat -> real, start: nat, end: nat, i: nat)
    requires start <= end
  {
    if end - start < 1024 then start <= i < end else i in Probed(f, start, end, Best(start, LARGE))
  }

  // ---- What the search finds, whatever the points cost ----

  /** A result: one of the points, with its cost, or the start if no cost is below the sentinel. */
  ghost predicate OneOf(f: nat -> real, points: set<nat>, r: Best, other: Best) {
    (r.pos in points && r.cost == f(r.pos)) || r == other
  }

  ghost predicate NoneCheaper(f: nat -> real, points: set<nat>, cost: real) {
    forall i :: i in points ==> cost <= f(i)
  }

  lemma {:induction false} ShortSearchFinds(f: nat -> real, start: nat, n: nat)
    requires start <= n
    ensures var r := ShortSearch(f, start, n);
            && r.cost <= LARGE && ((start <= r.pos < n && r.cost == f(r.pos)) || r == Best(start, LARGE))
            && forall i :: start <= i < n ==> r.cost <= f(i) && (i < r.pos ==> r.cost < f(i))
    decreases n
  {
    if n > start { ShortSearchFinds(f, start, n - 1); }
  }

  lemma CheapestOfProbes(f: nat -> real, start: nat, end: nat)
    requires start + PROBES < end
    ensures var x := Probe(start, end, CheapestProbe(f, start, end, 9));
            x in ProbesOf(start, end) && NoneCheaper(f, ProbesOf(start, end), f(x))
    ensures forall y :: y in ProbesOf(start, end) ==> start < y < end
  {
    hide Probe, CheapestProbe;
    forall y | y in ProbesOf(start, end)
      ensures f(Probe(start, end, CheapestProbe(f, start, end, 9))) <= f(y) && start < y < end
    {
      var i :| 0 <= i < PROBES && y == Probe(start, end, i);
      CheapestProbeIs(f, start, end, 9, i);
      ProbesInside(start, end, i);
    }
  }

  /** The result is no more expensive than any point tried, and is one of them unless it is where the
      search began. */
  lemma {:induction false} LongSearchFinds(f: nat -> real, start: nat, end: nat, best: Best)
    requires start <= end
    ensures var r, tried := LongSearch(f, start, end, best), Probed(f, start, end, best);
            && OneOf(f, tried, r, best) && r.cost <= best.cost && NoneCheaper(f, tried, r.cost)
    ensures forall y :: y in Probed(f, start, end, best) ==> start < y < end
    decreases end - start
  {
    hide LongSearch, Probed, ProbesOf, Probe, NarrowStart, NarrowEnd, CheapestProbe;
    LongStep(f, start, end, best);
    if end - start > PROBES {
      var i := CheapestProbe(f, start, end, 9);
      var x := Probe(start, end, i);
      CheapestOfProbes(f, start, end);
      if f(x) <= best.cost { LongSearchFinds(f, NarrowStart(start, end, i), NarrowEnd(start, end, i), Best(x, f(x))); }
    }
  }

  /** For any costs: no point tried is cheaper than the result, which is one of them, with its cost,
      unless none costs less than the sentinel. */
  lemma MinimumFinds(f: nat -> real, start: nat, end: nat)
    requires start <= end
    ensures var r := Minimum(f, start, end);
            && ((Tried(f, start, end, r.pos) && r.cost == f(r.pos)) || r == Best(start, LARGE))
            && forall i: nat :: Tried(f, start, end, i) ==> r.cost <= f(i) && start <= i < end
  {
    hide ShortSearch, LongSearch, Probed;
    if end - start < 1024 {
      ShortSearchFinds(f, start, end);
    } else {
      LongSearchFinds(f, start, end, Best(start, LARGE));
    }
  }

  /** With costs below the sentinel, the result is the cheapest point tried. */
  lemma MinimumIsCheapest(f: nat -> real, start: nat, end: nat)
    requires start < end && forall i :: start <= i < end ==> f(i) < LARGE
    ensures var r := Minimum(f, start, end);
            Tried(f, start, end, r.pos) && r.cost == f(r.pos) && forall i: nat :: Tried(f, start, end, i) ==>
              r.cost <= f(i)
  {
    hide Minimum, Tried, LARGE;
    MinimumFinds(f, start, end);
    var i := SomeTried(f, start, end);
  }

  lemma SomeTried(f: nat -> real, start: nat, end: nat) returns (i: nat)
    requires start < end
    ensures Tried(f, start, end, i)
  {
    i := start;
    if end - start >= 1024 {
      hide Probe, CheapestProbe;
      LongStep(f, start, end, Best(start, LARGE));
      i := Probe(start, end, 0);
      assert i in ProbesOf(start, end);
    }
  }

  // ---- The search, for predicted sizes ----

  /** What a block of tokens from one number to another is taken to cost. */
  type Estimate = (nat, nat) -> real

  /** What splitting tokens `start` to `end` costs, by where they are split. */
  ghost function Sides(e: Estimate, start: nat, end: nat): nat -> real {
    (i: nat) => e(start, i) + e(i, end)
  }

  ghost function SizeEstimate(us: seq<Token>): Estimate {
    (i: nat, j: nat) => if i <= j <= |us| then AutoCost(us[i..j], |us|) as real else 0.0
  }

  lemma EstimateAt(us: seq<Token>, i: nat, j: nat)
    requires i <= j <= |us|
    ensures SizeEstimate(us)(i, j) == AutoCost(us[i..j], |us|) as real
  {
    hide AutoCost;
  }

  method EstimateCost(store: LZ77Store, lstart: nat, lend: nat, ghost a: nat, ghost b: nat) returns (cost: real)
    requires Parses(store, a, b) && lstart <= lend <= store.size
    ensures lend <= |store.tokens| && cost == SizeEstimate(store.tokens)(lstart, lend)
  {
    hide *;
    ParseIs(store, a, b);
    var size := CalculateBlockSizeAutoType(store, lstart, lend, a, b);
    EstimateAt(store.tokens, lstart, lend);
    cost := size as real;
  }

  method SplitCost(store: LZ77Store, i: nat, start: nat, end: nat, ghost a: nat, ghost b: nat) returns (cost: real)
    requires Parses(store, a, b) && start <= i <= end <= store.size
    ensures cost == Sides(SizeEstimate(store.tokens), start, end)(i)
  {
    hide SizeEstimate, Parses;
    var left := EstimateCost(store, start, i, a, b);
    var right := EstimateCost(store, i, end, a, b);
    cost := left + right;
  }

  lemma ShortNext(f: nat -> real, start: nat, i: nat)
    requires start <= i
    ensures ShortSearch(f, start, start) == Best(start, LARGE)
    ensures ShortSearch(f, start, i + 1)
              == if f(i) < ShortSearch(f, start, i).cost then Best(i, f(i)) else ShortSearch(f, start, i)
  {
  }

  method FindMinimumShort(store: LZ77Store, lstart: nat, lend: nat, start: nat, end: nat, ghost a: nat, ghost b: nat)
    returns (pos: nat, cost: real)
    requires Parses(store, a, b) && lstart <= start <= end <= lend <= store.size
    ensures Best(pos, cost) == ShortSearch(Sides(SizeEstimate(store.tokens), lstart, lend), start, end)
  {
    hide *;
    ghost var f := Sides(SizeEstimate(store.tokens), lstart, lend);
    ShortNext(f, start, start);
    pos, cost := start, LARGE;
    for i := start to end
      invariant Best(pos, cost) == ShortSearch(f, start, i)
    {
      var v := SplitCost(store, i, lstart, lend, a, b);
      ShortNext(f, start, i);
      if v < cost {
        cost := v;
        pos := i;
      }
    }
  }

  lemma ProbeCount(f: nat -> real, start: nat, end: nat, n: nat)
    requires start <= end && n > 0
    ensures PROBES == 9 && CheapestProbe(f, start, end, 1) == 0
    ensures CheapestProbe(f, start, end, n + 1)
              == (var i := CheapestProbe(f, start, end, n);
                  if f(Probe(start, end, n)) < f(Probe(start, end, i)) then n else i)
  {
    hide Probe;
  }

  /** Try nine evenly spaced points. */
  method ProbeRange(store: LZ77Store, lstart: nat, lend: nat, start: nat, end: nat, ghost a: nat, ghost b: nat)
    returns (bestI: nat, best: real)
    requires Parses(store, a, b) && lstart <= start <= end <= lend <= store.size && start + PROBES < end
    ensures bestI < PROBES && start < Probe(start, end, bestI) < end
    ensures bestI == CheapestProbe(Sides(SizeEstimate(store.tokens), lstart, lend), start, end, 9)
    ensures best == Sides(SizeEstimate(store.tokens), lstart, lend)(Probe(start, end, bestI))
  {
    hide *;
    ghost var f := Sides(SizeEstimate(store.tokens), lstart, lend);
    ProbeCount(f, start, end, 1);
    ProbesInside(start, end, 0);
    bestI := 0;
    best := SplitCost(store, Probe(start, end, 0), lstart, lend, a, b);
    for i := 1 to 9
      invariant bestI < i && start < Probe(start, end, bestI) < end
      invariant bestI == CheapestProbe(f, start, end, i) && best == f(Probe(start, end, bestI))
    {
      ProbeCount(f, start, end, i);
      ProbesInside(start, end, i);
      var v := SplitCost(store, Probe(start, end, i), lstart, lend, a, b);
      if v < best {
        best := v;
        bestI := i;
      }
    }
  }

  method FindMinimumLong(store: LZ77Store, lstart: nat, lend: nat, first: nat, last: nat, ghost a: nat, ghost b: nat)
    returns (pos: nat, lastBest: real)
    requires Parses(store, a, b) && lstart <= first <= last <= lend <= store.size
    ensures Best(pos, lastBest)
            == LongSearch(Sides(SizeEstimate(store.tokens), lstart, lend), first, last, Best(first, LARGE))
  {
    hide *;
    ghost var f := Sides(SizeEstimate(store.tokens), lstart, lend);
    pos, lastBest := first, LARGE;
    var start, end := first, last;
    while end - start > PROBES
      invariant first <= start <= end <= last
      invariant LongSearch(f, start, end, Best(pos, lastBest)) == LongSearch(f, first, last, Best(first, LARGE))
      decreases end - start
    {
      LongStep(f, start, end, Best(pos, lastBest));
      var bestI, best := ProbeRange(store, lstart, lend, start, end, a, b);
      if best > lastBest {
        return;
      }
      NarrowIs(start, end, bestI);
      var newStart, newEnd := start, end;
      if bestI > 0 {
        newStart := Probe(start, end, bestI - 1);
      }
      if bestI + 1 < PROBES {
        newEnd := Probe(start, end, bestI + 1);
      }
      pos := Probe(start, end, bestI);
      start, end := newStart, newEnd;
      lastBest := best;
    }
    LongStep(f, start, end, Best(pos, lastBest));
  }

  lemma NarrowIs(start: nat, end: nat, i: nat)
    requires start <= end
    ensures NarrowStart(start, end, i) == if i > 0 then Probe(start, end, i - 1) else start
    ensures NarrowEnd(start, end, i) == if i + 1 < PROBES then Probe(start, end, i + 1) else end
  {
    hide Probe;
  }

  method FindMinimum(store: LZ77Store, lstart: nat, lend: nat, start: nat, end: nat, ghost a: nat, ghost b: nat)
    returns (pos: nat, cost: real)
    requires Parses(store, a, b) && lstart <= start <= end <= lend <= store.size
    ensures Best(pos, cost) == Minimum(Sides(SizeEstimate(store.tokens), lstart, lend), start, end)
  {
    hide ShortSearch, LongSearch, Parses, Sides, SizeEstimate;
    if end - start < 1024 {
      pos, cost := FindMinimumShort(store, lstart, lend, start, end, a, b);
    } else {
      pos, cost := FindMinimumLong(store, lstart, lend, start, end, a, b);
    }
  }

  // ---- Split points ----

  /** Strictly increasing, and inside. */
  ghost predicate SplitPoints(points: seq<nat>, size: nat) {
    && (forall i :: 0 <= i < |points| ==> 0 < points[i] < size)
    && (forall i, j :: 0 <= i < j < |points| ==> points[i] < points[j])
  }

  /** Where the i-th block of a range that is split at some points starts and ends. */
  function RangeFrom(points: seq<nat>, start: nat, i: nat): nat
    requires i <= |points|
  {
    if i == 0 then start else points[i - 1]
  }

  function RangeTo(points: seq<nat>, end: nat, i: nat): nat
    requires i <= |points|
  {
    if i == |points| then end else points[i]
  }

  /** An interval without split points inside. */
  ghost predicate Unsplit(points: seq<nat>, start: nat, end: nat) {
    forall i :: 0 <= i < |points| ==> points[i] <= start || end <= points[i]
  }

  ghost predicate Splittable(points: seq<nat>, size: nat, done: seq<bool>, i: nat)
    requires i <= |points| && size > 0
  {
    RangeFrom(points, 0, i) < |done| && !done[RangeFrom(points, 0, i)]
  }

  datatype Range = Range(start: nat, end: nat)

  function LongestOf(best: Option<Range>): int {
    if best.Some? then best.value.end - best.value.start else 0
  }

  /** The longest of the first n blocks that are not done; the first one if there are several. The
      last block is taken to end before the last token. */
  ghost function LargestBlock(points: seq<nat>, done: seq<bool>, n: nat): Option<Range>
    requires n <= |points| + 1 && |done| > 0
  {
    if n == 0 then None
    else
      var best := LargestBlock(points, done, n - 1);
      if Splittable(points, |done|, done, n - 1)
        && RangeTo(points, |done| - 1, n - 1) - RangeFrom(points, 0, n - 1) > LongestOf(best)
      then Some(Range(RangeFrom(points, 0, n - 1), RangeTo(points, |done| - 1, n - 1)))
      else best
  }

  /** The block found is not done, has no split points inside, and is the first of the longest such blocks. */
  lemma {:induction false} LargestBlockIs(points: seq<nat>, done: seq<bool>, n: nat)
    requires n <= |points| + 1 && |done| > 0 && SplitPoints(points, |done|)
    ensures var r := LargestBlock(points, done, n);
            && (r.Some? ==>
                  && n > 0 && r.value.start <= RangeFrom(points, 0, n - 1)
                  && r.value.start < r.value.end < |done| && !done[r.value.start]
                  && Unsplit(points, r.value.start, r.value.end))
            && forall i :: 0 <= i < n && Splittable(points, |done|, done, i) ==>
               var length := RangeTo(points, |done| - 1, i) - RangeFrom(points, 0, i);
               length <= LongestOf(r) && (r.Some? && RangeFrom(points, 0, i) < r.value.start ==> length < LongestOf(r))
  {
    if n > 0 { LargestBlockIs(points, done, n - 1); }
  }

  method FindLargestSplittableBlock(size: nat, done: array<bool>, points: seq<nat>)
    returns (start: nat, end: nat, found: bool)
    requires 0 < size == done.Length && SplitPoints(points, size)
    ensures LargestBlock(points, done[..], |points| + 1) == if found then Some(Range(start, end)) else None
  {
    var longest := 0;
    found, start, end := false, 0, 0;
    for i := 0 to |points| + 1
      invariant LargestBlock(points, done[..], i) == if found then Some(Range(start, end)) else None
      invariant longest == if found then end - start else 0
    {
      var s := 0;
      if i != 0 {
        s := points[i - 1];
      }
      var e := size - 1;
      if i != |points| {
        e := points[i];
      }
      if !done[s] && e - s > longest {
        start, end, found := s, e, true;
        longest := e - s;
      }
    }
  }

  /** Put a value into its place in an increasing list. */
  function Inserted(points: seq<nat>, v: nat): (r: seq<nat>)
    ensures |r| == |points| + 1
  {
    if |points| == 0 then [v]
    else if points[|points| - 1] < v then points + [v]
    else Inserted(points[..|points| - 1], v) + [points[|points| - 1]]
  }

  lemma {:induction false} InsertedElements(points: seq<nat>, v: nat)
    ensures forall x :: x in Inserted(points, v) <==> x == v || x in points
  {
    if |points| > 0 {
      var n := |points| - 1;
      assert points == points[..n] + [points[n]];
      InsertedElements(points[..n], v);
    }
  }

  lemma {:induction false} InsertedIncreasing(points: seq<nat>, v: nat)
    requires (forall i, j :: 0 <= i < j < |points| ==> points[i] < points[j]) && v !in points
    ensures forall i, j :: 0 <= i < j < |points| + 1 ==> Inserted(points, v)[i] < Inserted(points, v)[j]
  {
    if |points| > 0 && v < points[|points| - 1] {
      var n := |points| - 1;
      InsertedIncreasing(points[..n], v);
      InsertedElements(points[..n], v);
      forall i | 0 <= i < n + 1 ensures Inserted(points[..n], v)[i] < points[n] {
        var x := Inserted(points[..n], v)[i];
        assert x in Inserted(points[..n], v);
        assert x == v || x in points[..n];
      }
    }
  }

  lemma InsertedPoints(points: seq<nat>, size: nat, start: nat, end: nat, v: nat)
    requires SplitPoints(points, size) && Unsplit(points, start, end) && start < v < end <= size
    ensures SplitPoints(Inserted(points, v), size)
  {
    forall i | 0 <= i < |points| ensures points[i] != v {}
    InsertedElements(points, v);
    InsertedIncreasing(points, v);
    var r := Inserted(points, v);
    forall i | 0 <= i < |r| ensures 0 < r[i] < size {
      assert r[i] in r;
      assert r[i] == v || r[i] in points;
    }
  }

  /** Increasing points inside the range are fewer than its size. */
  lemma {:induction false} FewPoints(points: seq<nat>, size: nat)
    requires SplitPoints(points, size)
    ensures |points| > 0 ==> |points| <= points[|points| - 1]
    ensures |points| <= size
  {
    if |points| > 0 { FewPoints(points[..|points| - 1], size); }
  }

  /** How many starts are not done. */
  ghost function NotDone(done: seq<bool>): nat {
    if |done| == 0 then 0 else NotDone(done[..|done| - 1]) + (if done[|done| - 1] then 0 else 1)
  }

  lemma {:induction false} OneMoreDone(done: seq<bool>, i: nat)
    requires i < |done| && !done[i]
    ensures NotDone(done[i := true]) == NotDone(done) - 1
  {
    var n := |done| - 1;
    if i < n {
      OneMoreDone(done[..n], i);
      assert done[i := true][..n] == done[..n][i := true];
    } else {
      assert done[i := true][..n] == done[..n];
    }
  }

  /** Where splitting stands: how many tokens, the current block, the starts that are done, the points. */
  datatype SplitState = SplitState(size: nat, lstart: nat, lend: nat, done: seq<bool>, points: seq<nat>)

  ghost predicate ValidState(s: SplitState) {
    && |s.done| == s.size && s.lstart + 10 <= s.lend <= s.size && !s.done[s.lstart]
    && SplitPoints(s.points, s.size) && Unsplit(s.points, s.lstart, s.lend)
  }

  /** The best point for splitting the current block. */
  ghost function SplitPoint(e: Estimate, s: SplitState): Best
    requires ValidState(s)
  {
    Minimum(Sides(e, s.lstart, s.lend), s.lstart + 1, s.lend)
  }

  /** Splitting does not pay, or the best point is at an end. */
  ghost predicate NoSplit(e: Estimate, s: SplitState)
    requires ValidState(s)
  {
    SplitPoint(e, s).cost > e(s.lstart, s.lend) || SplitPoint(e, s).pos == s.lstart + 1
      || SplitPoint(e, s).pos == s.lend
  }

  /** One round: split the current block at its best point, or mark it as done. */
  ghost function NextPoints(e: Estimate, s: SplitState): seq<nat>
    requires ValidState(s)
  {
    if NoSplit(e, s) then s.points else Inserted(s.points, SplitPoint(e, s).pos)
  }

  ghost function NextDone(e: Estimate, s: SplitState): (d: seq<bool>)
    requires ValidState(s)
    ensures |d| == s.size
  {
    if NoSplit(e, s) then s.done[s.lstart := true] else s.done
  }

  lemma StateIs(e: Estimate, s: SplitState)
    requires ValidState(s)
    ensures |s.done| == s.size && s.lstart + 10 <= s.lend <= s.size && !s.done[s.lstart]
    ensures SplitPoints(s.points, s.size) && Unsplit(s.points, s.lstart, s.lend)
    ensures SplitPoint(e, s) == Minimum(Sides(e, s.lstart, s.lend), s.lstart + 1, s.lend)
    ensures NoSplit(e, s)
            == (SplitPoint(e, s).cost > e(s.lstart, s.lend) || SplitPoint(e, s).pos == s.lstart + 1
                || SplitPoint(e, s).pos == s.lend)
    ensures NextPoints(e, s) == if NoSplit(e, s) then s.points else Inserted(s.points, SplitPoint(e, s).pos)
    ensures NextDone(e, s) == if NoSplit(e, s) then s.done[s.lstart := true] else s.done
  {
    hide Minimum, Sides, SplitPoints, Unsplit, Inserted;
  }

  /** How much splitting is still possible. */
  ghost function Remaining(size: nat, points: seq<nat>, done: seq<bool>): int {
    size - |points| + NotDone(done)
  }

  /** Every round adds a split point or marks a start: it keeps the points in order and gets closer
      to the end, whatever the blocks cost. */
  lemma RoundMoves(e: Estimate, s: SplitState)
    requires ValidState(s)
    ensures SplitPoints(NextPoints(e, s), s.size)
    ensures 0 <= Remaining(s.size, NextPoints(e, s), NextDone(e, s)) < Remaining(s.size, s.points, s.done)
    ensures |NextPoints(e, s)| <= |s.points| + 1
  {
    hide *;
    StateIs(e, s);
    PointInside(Sides(e, s.lstart, s.lend), s.lstart + 1, s.lend);
    OneMoreDone(s.done, s.lstart);
    if !NoSplit(e, s) { InsertedPoints(s.points, s.size, s.lstart, s.lend, SplitPoint(e, s).pos); }
    FewPoints(NextPoints(e, s), s.size);
    RemainingIs(s.size, NextPoints(e, s), NextDone(e, s));
    RemainingIs(s.size, s.points, s.done);
  }

  lemma RemainingIs(size: nat, points: seq<nat>, done: seq<bool>)
    ensures Remaining(size, points, done) == size - |points| + NotDone(done)
  {
    hide NotDone;
  }

  lemma PointInside(f: nat -> real, start: nat, end: nat)
    requires start <= end
    ensures var r := Minimum(f, start, end); start <= r.pos && (r.pos < end || r.pos == start)
  {
    hide Minimum, Tried;
    MinimumFinds(f, start, end);
  }

  /** The block for the next round, if a long enough one is left. */
  ghost function NextBlock(points: seq<nat>, done: seq<bool>): Option<Range>
    requires |done| > 0
  {
    var r := LargestBlock(points, done, |points| + 1);
    if r.Some? && LongestOf(r) >= 10 then r else None
  }

  lemma NextState(points: seq<nat>, done: seq<bool>)
    requires |done| > 0 && SplitPoints(points, |done|) && NextBlock(points, done).Some?
    ensures var r := NextBlock(points, done).value; ValidState(SplitState(|done|, r.start, r.end, done, points))
  {
    LargestBlockIs(points, done, |points| + 1);
    hide LargestBlock, SplitPoints, Unsplit;
  }

  /** All split points. */
  ghost function SplitFrom(e: Estimate, s: SplitState, maxBlocks: int): seq<nat>
    requires ValidState(s)
    decreases Remaining(s.size, s.points, s.done)
  {
    if maxBlocks > 0 && |s.points| + 1 >= maxBlocks then s.points
    else
      RoundMoves(e, s);
      var points, done := NextPoints(e, s), NextDone(e, s);
      match NextBlock(points, done)
      case None => points
      case Some(r) =>
        NextState(points, done);
        SplitFrom(e, SplitState(s.size, r.start, r.end, done, points), maxBlocks)
  }

  ghost function FirstState(size: nat): SplitState {
    SplitState(size, 0, size, seq(size, i => false), [])
  }

  /** Where so many tokens are split, whatever their blocks cost. */
  ghost function SplitBy(e: Estimate, size: nat, maxBlocks: int): seq<nat> {
    if size < 10 then [] else FirstStateValid(size); SplitFrom(e, FirstState(size), maxBlocks)
  }

  /** Where tokens are split by the predicted sizes of their blocks. */
  ghost function SplitOf(us: seq<Token>, maxBlocks: int): seq<nat> {
    SplitBy(SizeEstimate(us), |us|, maxBlocks)
  }

  lemma SplitStep(e: Estimate, s: SplitState, maxBlocks: int)
    requires ValidState(s)
    ensures |NextDone(e, s)| == s.size > 0
    ensures SplitPoints(NextPoints(e, s), s.size) && SplitPoints(s.points, s.size)
    ensures |NextPoints(e, s)| <= |s.points| + 1
    ensures 0 <= Remaining(s.size, NextPoints(e, s), NextDone(e, s)) < Remaining(s.size, s.points, s.done)
    ensures var next := NextBlock(NextPoints(e, s), NextDone(e, s));
            && (next.Some? ==> ValidState(SplitState(s.size, next.value.start, next.value.end, NextDone(e, s),
                                                     NextPoints(e, s))))
            && SplitFrom(e, s, maxBlocks) == (
                 if maxBlocks > 0 && |s.points| + 1 >= maxBlocks then s.points
                 else if next.None? then NextPoints(e, s)
                 else SplitFrom(e, SplitState(s.size, next.value.start, next.value.end, NextDone(e, s),
                                              NextPoints(e, s)), maxBlocks))
  {
    StateIs(e, s);
    RoundMoves(e, s);
    hide ValidState, NextPoints, NextDone, NextBlock, Remaining, SplitPoints;
    if NextBlock(NextPoints(e, s), NextDone(e, s)).Some? { NextState(NextPoints(e, s), NextDone(e, s)); }
  }

  /** Strictly increasing interior points, fewer than the limit if there is one. */
  lemma {:induction false} SplitFromValid(e: Estimate, s: SplitState, maxBlocks: int)
    requires ValidState(s) && (maxBlocks > 0 ==> |s.points| < maxBlocks)
    ensures SplitPoints(SplitFrom(e, s, maxBlocks), s.size)
    ensures (maxBlocks > 0 ==> |SplitFrom(e, s, maxBlocks)| < maxBlocks)
    decreases Remaining(s.size, s.points, s.done)
  {
    hide *;
    SplitStep(e, s, maxBlocks);
    var next := NextBlock(NextPoints(e, s), NextDone(e, s));
    if !(maxBlocks > 0 && |s.points| + 1 >= maxBlocks) && next.Some? {
      SplitFromValid(e, SplitState(s.size, next.value.start, next.value.end, NextDone(e, s), NextPoints(e, s)),
                     maxBlocks);
    }
  }

  lemma FirstStateValid(size: nat)
    requires size >= 10
    ensures ValidState(FirstState(size))
  {
  }

  /** For any costs and any limit, splitting ends, with strictly increasing interior points, fewer
      than the limit if there is one. */
  lemma SplitByValid(e: Estimate, size: nat, maxBlocks: int)
    ensures SplitPoints(SplitBy(e, size, maxBlocks), size)
    ensures (maxBlocks > 0 ==> |SplitBy(e, size, maxBlocks)| < maxBlocks)
  {
    if size >= 10 {
      FirstStateValid(size);
      hide ValidState, SplitFrom;
      SplitFromValid(e, FirstState(size), maxBlocks);
    }
  }

  lemma SplitValid(us: seq<Token>, maxBlocks: int)
    ensures SplitPoints(SplitOf(us, maxBlocks), |us|) && (maxBlocks > 0 ==> |SplitOf(us, maxBlocks)| < maxBlocks)
  {
    hide SplitBy, SizeEstimate, SplitPoints;
    SplitByValid(SizeEstimate(us), |us|, maxBlocks);
  }

  method SplitOnce(store: LZ77Store, lstart: nat, lend: nat, done: array<bool>, points: seq<nat>, ghost a: nat,
                   ghost b: nat)
    returns (points': seq<nat>)
    requires Parses(store, a, b) && store.size == |store.tokens| == done.Length
    requires ValidState(SplitState(store.size, lstart, lend, done[..], points))
    modifies done
    ensures var e, s := SizeEstimate(store.tokens), SplitState(store.size, lstart, lend, old(done[..]), points);
            points' == NextPoints(e, s) && done[..] == NextDone(e, s)
  {
    hide *;
    ghost var s := SplitState(store.size, lstart, lend, done[..], points);
    StateIs(SizeEstimate(store.tokens), s);
    points' := points;
    var llPos, splitCost := FindMinimum(store, lstart, lend, lstart + 1, lend, a, b);
    var origCost := EstimateCost(store, lstart, lend, a, b);
    if splitCost > origCost || llPos == lstart + 1 || llPos == lend {
      done[lstart] := true;
      assert done[..] == s.done[lstart := true];
    } else {
      points' := Inserted(points, llPos);
    }
  }

  /** Split a sequence of tokens into blocks. */
  method BlockSplitLZ77(store: LZ77Store, maxBlocks: int, ghost a: nat, ghost b: nat) returns (points: seq<nat>)
    requires Parses(store, a, b)
    ensures points == SplitOf(store.tokens, maxBlocks)
  {
    hide *;
    ParseIs(store, a, b);
    points := [];
    SplitStart(store.tokens, maxBlocks);
    if store.size < 10 {
      return;
    }
    var done := new bool[store.size](_ => false);
    assert done[..] == seq(store.size, i => false);
    var lstart: nat, lend: nat := 0, store.size;
    var numBlocks := 1;
    ghost var us, e := store.tokens, SizeEstimate(store.tokens);
    while maxBlocks <= 0 || numBlocks < maxBlocks
      invariant Parses(store, a, b) && store.tokens == us && store.size == |us| == done.Length > 0 && fresh(done)
      invariant numBlocks == |points| + 1
      invariant ValidState(SplitState(|us|, lstart, lend, done[..], points))
      invariant SplitFrom(e, SplitState(|us|, lstart, lend, done[..], points), maxBlocks) == SplitOf(us, maxBlocks)
      decreases Remaining(|us|, points, done[..])
    {
      ghost var s := SplitState(|us|, lstart, lend, done[..], points);
      SplitStep(e, s, maxBlocks);
      points := SplitOnce(store, lstart, lend, done, points, a, b);
      numBlocks := |points| + 1;
      NextIs(points, done[..]);
      var ok;
      lstart, lend, ok := FindLargestSplittableBlock(store.size, done, points);
      if !ok || lend - lstart < 10 {
        return;
      }
    }
    SplitStep(e, SplitState(|us|, lstart, lend, done[..], points), maxBlocks);
  }

  lemma SplitStart(us: seq<Token>, maxBlocks: int)
    ensures |us| < 10 ==> SplitOf(us, maxBlocks) == []
    ensures |us| >= 10 ==>
              var s := SplitState(|us|, 0, |us|, seq(|us|, i => false), []);
              ValidState(s) && SplitOf(us, maxBlocks) == SplitFrom(SizeEstimate(us), s, maxBlocks)
  {
    if |us| >= 10 { FirstStateValid(|us|); }
    hide ValidState, SplitFrom, SizeEstimate;
  }

  lemma NextIs(points: seq<nat>, done: seq<bool>)
    requires |done| > 0
    ensures var r := LargestBlock(points, done, |points| + 1);
            NextBlock(points, done) == if r.Some? && r.value.end - r.value.start >= 10 then r else None
  {
    hide LargestBlock;
  }

  // ---- Split points as byte positions ----

  /** The positions at which the tokens with the given numbers start. */
  ghost function PointPositions(ts: seq<Token>, a: nat, points: seq<nat>): (r: seq<nat>)
    requires SplitPoints(points, |ts|)
    ensures |r| == |points| && forall k :: 0 <= k < |points| ==> r[k] == Position(ts, a, points[k])
  {
    seq(|points|, k requires 0 <= k < |points| => Position(ts, a, points[k]))
  }

  lemma {:induction false} PositionsIncrease(data: seq<byte>, ts: seq<Token>, a: nat, b: nat, i: nat, j: nat)
    requires Covers(data, ts, a, b) && a <= |data| && i < j <= |ts|
    ensures Position(ts, a, i) < Position(ts, a, j)
    decreases j
  {
    CoversBound(data, ts, a, b);
    assert ts[j - 1] in ts;
    PositiveLength(ts[j - 1]);
    hide ValidToken, Length, Covers;
    if i < j - 1 { PositionsIncrease(data, ts, a, b, i, j - 1); }
  }

  lemma PositiveLength(t: Token)
    requires ValidToken(t)
    ensures Length(t) > 0
  {
  }

  /** Byte positions of split points are strictly increasing token boundaries inside the range. */
  lemma PointsInside(data: seq<byte>, ts: seq<Token>, a: nat, b: nat, points: seq<nat>)
    requires Covers(data, ts, a, b) && a <= |data| && SplitPoints(points, |ts|)
    ensures var r := PointPositions(ts, a, points);
            && (forall k :: 0 <= k < |r| ==> a < r[k] < b)
            && (forall k, l :: 0 <= k < l < |r| ==> r[k] < r[l])
  {
    CoversSlice(data, ts, a, b, 0, 0);
    hide Covers, Position;
    PositionZero(ts, a);
    forall k | 0 <= k < |points| ensures a < Position(ts, a, points[k]) < b {
      PositionsIncrease(data, ts, a, b, 0, points[k]);
      PositionsIncrease(data, ts, a, b, points[k], |ts|);
    }
    forall k, l | 0 <= k < l < |points| ensures Position(ts, a, points[k]) < Position(ts, a, points[l]) {
      PositionsIncrease(data, ts, a, b, points[k], points[l]);
    }
  }

  lemma PositionZero(ts: seq<Token>, a: nat)
    ensures Position(ts, a, 0) == a
  {
  }

  /** Walk over the tokens and note where those at split points start. */
  method ToPositions(store: LZ77Store, points: seq<nat>, a: nat, ghost b: nat) returns (result: seq<nat>)
    requires Parses(store, a, b) && SplitPoints(points, |store.tokens|)
    ensures result == PointPositions(store.tokens, a, points)
  {
    hide *;
    ParseIs(store, a, b);
    PointPositionsAre(store.tokens, a, points);
    result := [];
    if |points| == 0 {
      return;
    }
    var pos: nat, nPoints: nat := a, 0;
    PositionZero(store.tokens, a);
    for i := 0 to store.size
      invariant pos == Position(store.tokens, a, i) && nPoints < |points|
      invariant result == PointPositions(store.tokens, a, points)[..nPoints]
      invariant i <= points[nPoints]
    {
      TokenLength(store, i, a, b);
      var length := 1;
      if store.dists[i] != 0 {
        length := store.litlens[i];
      }
      if points[nPoints] == i {
        assert PointPositions(store.tokens, a, points)[..nPoints + 1]
          == PointPositions(store.tokens, a, points)[..nPoints] + [pos];
        result := result + [pos];
        nPoints := nPoints + 1;
        if nPoints == |points| {
          return;
        }
      }
      pos := pos + length;
    }
  }

  lemma PointPositionsAre(ts: seq<Token>, a: nat, points: seq<nat>)
    requires SplitPoints(points, |ts|)
    ensures |PointPositions(ts, a, points)| == |points|
    ensures forall k :: 0 <= k < |points| ==>
            PointPositions(ts, a, points)[k] == Position(ts, a, points[k]) && points[k] < |ts|
    ensures forall k, l :: 0 <= k < l < |points| ==> points[k] < points[l]
  {
    hide Position;
  }

  lemma TokenLength(store: LZ77Store, i: nat, a: nat, b: nat)
    requires Parses(store, a, b) && i < store.size
    ensures i < |store.tokens| == |store.dists| == |store.litlens|
    ensures Position(store.tokens, a, i + 1) == Position(store.tokens, a, i) + if store.dists[i] == 0 then 1
            else store.litlens[i]
  {
    hide Covers, Position;
    TokenInStore(store, i);
    PositionNext(store.tokens, a, i);
  }

  lemma PositionNext(ts: seq<Token>, a: nat, i: nat)
    requires i < |ts|
    ensures Position(ts, a, i + 1) == Position(ts, a, i) + if ts[i].dist == 0 then 1 else ts[i].litlen
  {
  }

  /** Where a block is split: token boundaries of its greedy parse. */
  ghost function SplitPositions(b: Block, maxBlocks: int): seq<nat>
    requires ValidBlock(b)
  {
    var ts := GreedyTokens(b);
    SplitValid(ts, maxBlocks);
    PointPositions(ts, b.start, SplitOf(ts, maxBlocks))
  }

  /** Strictly increasing positions inside the block, fewer than the limit if there is one. */
  lemma SplitPositionsInside(b: Block, maxBlocks: int)
    requires ValidBlock(b)
    ensures var r := SplitPositions(b, maxBlocks);
            && (forall k :: 0 <= k < |r| ==> b.start < r[k] < b.end)
            && (forall k, l :: 0 <= k < l < |r| ==> r[k] < r[l])
            && (maxBlocks > 0 ==> |r| < maxBlocks)
  {
    NoCache(b);
    hide *;
    GreedyCovers(b, b.start, None);
    GreedyIs(b);
    SplitValid(GreedyTokens(b), maxBlocks);
    PointsInside(b.data, GreedyTokens(b), b.start, b.end, SplitOf(GreedyTokens(b), maxBlocks));
    PositionsAre(b, maxBlocks);
    PointPositionsAre(GreedyTokens(b), b.start, SplitOf(GreedyTokens(b), maxBlocks));
  }

  lemma GreedyIs(b: Block)
    requires ValidBlock(b)
    ensures Deferred(b, b.start, None) && GreedyTokens(b) == GreedyFrom(b, b.start, None)
  {
    hide GreedyFrom;
  }

  lemma PositionsAre(b: Block, maxBlocks: int)
    requires ValidBlock(b)
    ensures SplitPoints(SplitOf(GreedyTokens(b), maxBlocks), |GreedyTokens(b)|)
    ensures SplitPositions(b, maxBlocks)
            == PointPositions(GreedyTokens(b), b.start, SplitOf(GreedyTokens(b), maxBlocks))
  {
    SplitValid(GreedyTokens(b), maxBlocks);
    hide GreedyTokens, SplitOf, SplitPoints, PointPositions;
  }

  /** Split a block, judging by its greedy parse. */
  method BlockSplit(b: Block, maxBlocks: int, h: Hash) returns (result: seq<nat>)
    requires ValidBlock(b)
    modifies h
    ensures result == SplitPositions(b, maxBlocks)
  {
    hide *;
    var store := new LZ77Store(b.data);
    h.Alloc();
    NoCache(b);
    Lz77Greedy(null, b, store, h);
    GreedyCovers(b, b.start, None);
    GreedyIs(b);
    GreedyParse(b, store);
    ParseIs(store, b.start, b.end);
    PositionsAre(b, maxBlocks);
    var points := BlockSplitLZ77(store, maxBlocks, b.start, b.end);
    result := ToPositions(store, points, b.start, b.end);
  }

  lemma NoCache(b: Block)
    requires ValidBlock(b)
    ensures CacheFor(null, b) && b.start <= b.end <= |b.data|
    ensures Deferred(b, b.start, None) && Unsettled(b.start, None) == b.start
  {
  }

  lemma GreedyParse(b: Block, store: LZ77Store)
    requires ValidBlock(b) && store.data == b.data && Deferred(b, b.start, None)
    requires Appended(store, [], [], b.start, GreedyFrom(b, b.start, None))
    requires Covers(b.data, GreedyFrom(b, b.start, None), b.start, b.end)
    ensures Parses(store, b.start, b.end) && store.tokens == GreedyFrom(b, b.start, None)
  {
    hide GreedyFrom, Covers;
    ParseDone(store, b.start, b.end, GreedyFrom(b, b.start, None));
  }
}
