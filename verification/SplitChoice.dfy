/** What splitting decides, said with the estimated costs of blocks alone: a split pays when it is made,
    and where splitting stops none pays any more. */
module SplitChoice {
  import opened Prelude
  import opened Tokens
  import opened ShortestPath
  import opened Parse
  import opened BlockSize
  import opened BlockSplitter

  /** What the two blocks cost that the range has when it is split at `x`. */
  ghost function Halves(e: Estimate, l: nat, r: nat, x: nat): real {
    e(l, x) + e(x, r)
  }

  lemma SidesAre(e: Estimate, l: nat, r: nat, x: nat)
    ensures Sides(e, l, r)(x) == Halves(e, l, r, x)
  {
  }

  // ---- One round ----

  /** The point is the first of those that make the two cheapest blocks of the range. */
  ghost predicate Cheapest(e: Estimate, l: nat, r: nat, x: nat) {
    forall y: nat :: l < y < r ==>
      Halves(e, l, r, x) <= Halves(e, l, r, y) && (y < x ==> Halves(e, l, r, x) < Halves(e, l, r, y))
  }

  /** Every split makes the range more expensive. */
  ghost predicate NonePays(e: Estimate, l: nat, r: nat) {
    forall y: nat :: l < y < r ==> Halves(e, l, r, y) > e(l, r)
  }

  /** The range is short enough for all its points to be tried, and no cost reaches the sentinel. */
  ghost predicate Searched(e: Estimate, l: nat, r: nat) {
    r - l <= 1024 && forall y: nat :: l < y < r ==> Halves(e, l, r, y) < LARGE
  }

  /** No split pays, or the cheapest one would take off a single token. */
  ghost predicate Unsplittable(e: Estimate, l: nat, r: nat) {
    NonePays(e, l, r) || Cheapest(e, l, r, l + 1)
  }

  lemma SplitPointIs(e: Estimate, s: SplitState)
    requires ValidState(s)
    ensures var p := SplitPoint(e, s);
            && s.lstart + 1 <= p.pos && (p.pos < s.lend || p.pos == s.lstart + 1)
            && (p.cost == Halves(e, s.lstart, s.lend, p.pos) || p == Best(s.lstart + 1, LARGE))
            && (s.lend - s.lstart <= 1024 ==>
                forall y: nat :: s.lstart < y < s.lend ==>
                  p.cost <= Halves(e, s.lstart, s.lend, y)
                  && (y < p.pos ==> p.cost < Halves(e, s.lstart, s.lend, y)))
  {
    var f := Sides(e, s.lstart, s.lend);
    StateIs(e, s);
    MinimumFinds(f, s.lstart + 1, s.lend);
    hide *;
    PointInside(f, s.lstart + 1, s.lend);
    var p := SplitPoint(e, s);
    SidesAre(e, s.lstart, s.lend, p.pos);
    if s.lend - s.lstart <= 1024 {
      MinimumFirst(f, s.lstart + 1, s.lend);
      forall y: nat | s.lstart < y < s.lend
        ensures p.cost <= Halves(e, s.lstart, s.lend, y) && (y < p.pos ==> p.cost < Halves(e, s.lstart, s.lend, y))
      {
        SidesAre(e, s.lstart, s.lend, y);
      }
    }
  }

  /** In a short range the result is the first of the cheapest points. */
  lemma MinimumFirst(f: nat -> real, start: nat, end: nat)
    requires start <= end < start + 1024
    ensures var r := Minimum(f, start, end);
            forall y: nat :: start <= y < end ==> r.cost <= f(y) && (y < r.pos ==> r.cost < f(y))
  {
    ShortSearchFinds(f, start, end);
    hide ShortSearch;
  }

  /** No split at one of the nine points that divide the range into tenths is cheaper. */
  ghost predicate BeatsTenths(e: Estimate, l: nat, r: nat, cost: real)
    requires l < r
  {
    forall i :: 1 <= i <= 9 ==> cost <= Halves(e, l, r, Tenth(l, r, i))
  }

  /** The end of the i-th tenth of the points between `l` and `r`. */
  function Tenth(l: nat, r: nat, i: nat): nat
    requires l < r
  {
    l + 1 + i * ((r - l - 1) / 10)
  }

  lemma TenthProbed(f: nat -> real, start: nat, end: nat, i: nat)
    requires start + 1024 <= end && 1 <= i <= 9
    ensures Minimum(f, start, end).cost <= f(start + i * ((end - start) / 10))
  {
    LongSearchFinds(f, start, end, Best(start, LARGE));
    LongStep(f, start, end, Best(start, LARGE));
    ProbeIn(start, end, i - 1);
    hide LongSearch, Probed, ProbesOf, CheapestProbe;
  }

  lemma ProbeIn(start: nat, end: nat, i: nat)
    requires start <= end && i < 9
    ensures start + (i + 1) * ((end - start) / 10) in ProbesOf(start, end)
  {
    assert Probe(start, end, i) in ProbesOf(start, end);
  }

  lemma LongSplitPoint(e: Estimate, s: SplitState)
    requires ValidState(s) && s.lend - s.lstart > 1024
    ensures BeatsTenths(e, s.lstart, s.lend, SplitPoint(e, s).cost)
  {
    hide Minimum, ValidState;
    StateIs(e, s);
    forall i | 1 <= i <= 9 ensures SplitPoint(e, s).cost <= Halves(e, s.lstart, s.lend, Tenth(s.lstart, s.lend, i)) {
      TenthProbed(Sides(e, s.lstart, s.lend), s.lstart + 1, s.lend, i);
    }
  }

  lemma NewPoint(points: seq<nat>, v: nat, x: nat)
    requires x !in points
    ensures x in Inserted(points, v) <==> x == v
    ensures |Inserted(points, v)| != |points|
  {
    InsertedElements(points, v);
  }

  /** A split that is made does not make its range more expensive; in a short range no other split is
      cheaper, in a long one none of those at its tenths. */
  lemma SplitPays(e: Estimate, s: SplitState, x: nat)
    requires ValidState(s) && x in NextPoints(e, s) && x !in s.points
    ensures NextPoints(e, s) == Inserted(s.points, x) && NextDone(e, s) == s.done
    ensures s.lstart + 1 < x < s.lend && Halves(e, s.lstart, s.lend, x) <= e(s.lstart, s.lend)
    ensures s.lend - s.lstart <= 1024 ==> Cheapest(e, s.lstart, s.lend, x)
    ensures s.lend - s.lstart > 1024 ==> BeatsTenths(e, s.lstart, s.lend, Halves(e, s.lstart, s.lend, x))
  {
    hide *;
    StateIs(e, s);
    SplitPointIs(e, s);
    if s.lend - s.lstart > 1024 { LongSplitPoint(e, s); }
    NewPoint(s.points, SplitPoint(e, s).pos, x);
    CheapestIs(e, s.lstart, s.lend, x);
  }

  lemma CheapestIs(e: Estimate, l: nat, r: nat, x: nat)
    ensures Cheapest(e, l, r, x) <==> forall y: nat :: l < y < r ==>
              Halves(e, l, r, x) <= Halves(e, l, r, y) && (y < x ==> Halves(e, l, r, x) < Halves(e, l, r, y))
    ensures NonePays(e, l, r) <==> forall y: nat :: l < y < r ==> Halves(e, l, r, y) > e(l, r)
    ensures Unsplittable(e, l, r) <==> NonePays(e, l, r) || Cheapest(e, l, r, l + 1)
    ensures Searched(e, l, r) <==> r - l <= 1024 && forall y: nat :: l < y < r ==> Halves(e, l, r, y) < LARGE
  {
    hide Halves;
  }

  /** A range that is searched is marked as done exactly if no split pays, or the cheapest one would take
      off a single token. */
  lemma DoneUnlessPays(e: Estimate, s: SplitState)
    requires ValidState(s) && Searched(e, s.lstart, s.lend)
    ensures NextPoints(e, s) == s.points <==> Unsplittable(e, s.lstart, s.lend)
    ensures NextDone(e, s) == (if Unsplittable(e, s.lstart, s.lend) then s.done[s.lstart := true] else s.done)
  {
    hide *;
    StateIs(e, s);
    SplitPointIs(e, s);
    var p := SplitPoint(e, s);
    InsertedLonger(s.points, p.pos);
    CheapestIs(e, s.lstart, s.lend, s.lstart + 1);
  }

  lemma InsertedLonger(points: seq<nat>, v: nat)
    ensures Inserted(points, v) != points
  {
    assert |Inserted(points, v)| == |points| + 1;
  }

  // ---- Predicted sizes ----

  lemma StoredIsSmall(us: seq<Token>)
    requires Bytes(us) <= 1000000
    ensures BlockCost(us, 0) <= 10000000
  {
    CostIs(us, 0);
    hide BlockCost, Bytes;
  }

  /** The predicted size of a block of a part is far below the sentinel. */
  lemma SizeIsSmall(data: seq<byte>, us: seq<Token>, a: nat, b: nat, i: nat, j: nat)
    requires Covers(data, us, a, b) && b - a <= 1000000 && i <= j <= |us|
    ensures SizeEstimate(us)(i, j) <= 10000000.0 && 20000000.0 < LARGE
  {
    CoversSlice(data, us, a, b, i, j);
    RangeIs(us, a, 0, i);
    RangeIs(us, a, j, |us|);
    PositionFrom(us, a, i, j);
    EstimateAt(us, i, j);
    AutoCostIsLeast(us[i..j], |us|, 0);
    hide AutoCost, Bytes, Covers, Position, SizeEstimate;
    StoredIsSmall(us[i..j]);
  }

  /** Judged by predicted sizes, every range of at most 1024 tokens of a part is searched. */
  lemma SizesSearched(data: seq<byte>, us: seq<Token>, a: nat, b: nat, l: nat, r: nat)
    requires Covers(data, us, a, b) && b - a <= 1000000 && l <= r <= |us|
    ensures Searched(SizeEstimate(us), l, r) <==> r - l <= 1024
  {
    hide SizeEstimate, Covers, LARGE;
    forall y: nat | l < y < r ensures Halves(SizeEstimate(us), l, r, y) < LARGE {
      SizeIsSmall(data, us, a, b, l, y);
      SizeIsSmall(data, us, a, b, y, r);
    }
  }

  // ---- Whole runs: every split was worth it ----

  ghost predicate StartsBlock(points: seq<nat>, l: nat) {
    l == 0 || l in points
  }

  /** Ends of blocks; the last block may be taken to end before the last token. */
  ghost predicate EndsBlock(points: seq<nat>, size: nat, r: nat) {
    r == size || r + 1 == size || r in points
  }

  ghost predicate PaidIn(e: Estimate, points: seq<nat>, size: nat, x: nat, l: nat, r: nat) {
    && StartsBlock(points, l) && EndsBlock(points, size, r)
    && l + 1 < x < r && Halves(e, l, r, x) <= e(l, r)
  }

  /** The point splits a range between other points, or ends, that costs no less unsplit. */
  ghost predicate Paid(e: Estimate, points: seq<nat>, size: nat, x: nat) {
    exists l: nat, r: nat :: PaidIn(e, points, size, x, l, r)
  }

  ghost predicate AllPaid(e: Estimate, points: seq<nat>, size: nat) {
    forall x :: x in points ==> Paid(e, points, size, x)
  }

  lemma PaidGrows(e: Estimate, points: seq<nat>, size: nat, v: nat, x: nat)
    requires Paid(e, points, size, x)
    ensures Paid(e, Inserted(points, v), size, x)
  {
    hide Halves;
    InsertedElements(points, v);
    var l: nat, r: nat :| PaidIn(e, points, size, x, l, r);
    assert PaidIn(e, Inserted(points, v), size, x, l, r);
  }

  lemma RoundPaid(e: Estimate, s: SplitState)
    requires ValidState(s) && StartsBlock(s.points, s.lstart) && EndsBlock(s.points, s.size, s.lend)
    requires AllPaid(e, s.points, s.size)
    ensures AllPaid(e, NextPoints(e, s), s.size)
  {
    hide NextPoints, Paid, ValidState, Halves, StartsBlock, EndsBlock;
    forall x | x in NextPoints(e, s) ensures Paid(e, NextPoints(e, s), s.size, x) {
      RoundPaidAt(e, s, x);
    }
  }

  lemma RoundPaidAt(e: Estimate, s: SplitState, x: nat)
    requires ValidState(s) && StartsBlock(s.points, s.lstart) && EndsBlock(s.points, s.size, s.lend)
    requires AllPaid(e, s.points, s.size) && x in NextPoints(e, s)
    ensures Paid(e, NextPoints(e, s), s.size, x)
  {
    hide NextPoints, Paid, ValidState, Halves, StartsBlock, EndsBlock;
    if x in s.points {
      StateIs(e, s);
      PaidGrows(e, s.points, s.size, SplitPoint(e, s).pos, x);
    } else {
      SplitPays(e, s, x);
      EndsStay(s.points, s.size, x, s.lstart, s.lend);
      PaidNow(e, NextPoints(e, s), s.size, x, s.lstart, s.lend);
    }
  }

  lemma EndsStay(points: seq<nat>, size: nat, v: nat, l: nat, r: nat)
    requires StartsBlock(points, l) && EndsBlock(points, size, r)
    ensures StartsBlock(Inserted(points, v), l) && EndsBlock(Inserted(points, v), size, r)
  {
    InsertedElements(points, v);
  }

  lemma PaidNow(e: Estimate, points: seq<nat>, size: nat, x: nat, l: nat, r: nat)
    requires PaidIn(e, points, size, x, l, r)
    ensures Paid(e, points, size, x)
  {
    hide PaidIn;
  }

  /** The next round's block is one of the blocks, taken to end before the last token. */
  lemma {:induction false} LargestIsBlock(points: seq<nat>, done: seq<bool>, n: nat) returns (i: nat)
    requires n <= |points| + 1 && |done| > 0 && LargestBlock(points, done, n).Some?
    ensures i <= |points|
    ensures LargestBlock(points, done, n).value == Range(RangeFrom(points, 0, i), RangeTo(points, |done| - 1, i))
  {
    i := 0;
    if n > 0 {
      if LargestBlock(points, done, n) == LargestBlock(points, done, n - 1) {
        i := LargestIsBlock(points, done, n - 1);
      } else {
        i := n - 1;
      }
    }
  }

  lemma NextIsBlock(points: seq<nat>, done: seq<bool>) returns (i: nat)
    requires |done| > 0 && NextBlock(points, done).Some?
    ensures i <= |points|
    ensures NextBlock(points, done).value == Range(RangeFrom(points, 0, i), RangeTo(points, |done| - 1, i))
  {
    hide LargestBlock;
    i := LargestIsBlock(points, done, |points| + 1);
  }

  lemma BlockEnds(points: seq<nat>, size: nat, i: nat)
    requires i <= |points| && size > 0
    ensures StartsBlock(points, RangeFrom(points, 0, i)) && EndsBlock(points, size, RangeTo(points, size - 1, i))
    ensures EndsBlock(points, size, RangeTo(points, size, i))
  {
  }

  lemma {:induction false} RunPaid(e: Estimate, s: SplitState, maxBlocks: int)
    requires ValidState(s) && StartsBlock(s.points, s.lstart) && EndsBlock(s.points, s.size, s.lend)
    requires AllPaid(e, s.points, s.size)
    ensures AllPaid(e, SplitFrom(e, s, maxBlocks), s.size)
    decreases Remaining(s.size, s.points, s.done)
  {
    hide *;
    SplitStep(e, s, maxBlocks);
    RoundPaid(e, s);
    var points, done := NextPoints(e, s), NextDone(e, s);
    if !(maxBlocks > 0 && |s.points| + 1 >= maxBlocks) && NextBlock(points, done).Some? {
      var i := NextIsBlock(points, done);
      BlockEnds(points, s.size, i);
      var r := NextBlock(points, done).value;
      RunPaid(e, SplitState(s.size, r.start, r.end, done, points), maxBlocks);
    }
  }

  lemma AtFirst(e: Estimate, size: nat, maxBlocks: int)
    requires size >= 10
    ensures ValidState(FirstState(size)) && SplitBy(e, size, maxBlocks) == SplitFrom(e, FirstState(size), maxBlocks)
    ensures var s := FirstState(size); s.size == s.lend == size && s.lstart == 0 && s.points == []
    ensures var s := FirstState(size); |s.done| == size && forall i :: 0 <= i < size ==> !s.done[i]
    ensures StartsBlock([], 0) && EndsBlock([], size, size) && AllPaid(e, [], size)
  {
    FirstStateValid(size);
    hide SplitFrom, ValidState, Paid;
  }

  /** For any costs and any limit: every split point divides a range, between other points or ends, that
      does not cost less in one block than in the two. */
  lemma EverySplitPays(e: Estimate, size: nat, maxBlocks: int)
    ensures AllPaid(e, SplitBy(e, size, maxBlocks), size)
  {
    if size >= 10 {
      AtFirst(e, size, maxBlocks);
      hide *;
      RunPaid(e, FirstState(size), maxBlocks);
    }
  }

  // ---- Whole runs: what is left does not pay ----

  /** If the range is searched, no split of it pays or the cheapest would take off a single token. */
  ghost predicate GivenUp(e: Estimate, l: nat, r: nat) {
    Searched(e, l, r) ==> Unsplittable(e, l, r)
  }

  /** The i-th block is given up; the last one may have been taken to end before the last token. */
  ghost predicate BlockGivenUp(e: Estimate, points: seq<nat>, size: nat, i: nat)
    requires i <= |points| && size > 0
  {
    || GivenUp(e, RangeFrom(points, 0, i), RangeTo(points, size - 1, i))
    || GivenUp(e, RangeFrom(points, 0, i), RangeTo(points, size, i))
  }

  /** Only starts of blocks are marked, and marked blocks are given up. */
  ghost predicate MarksOk(e: Estimate, points: seq<nat>, size: nat, done: seq<bool>) {
    && |done| == size > 0 && SplitPoints(points, size)
    && (forall l: nat :: l < size && done[l] ==> StartsBlock(points, l))
    && (forall i :: 0 <= i <= |points| && done[RangeFrom(points, 0, i)] ==> BlockGivenUp(e, points, size, i))
  }

  /** The current block is the i-th one. */
  ghost predicate AtBlock(s: SplitState, i: nat) {
    && i <= |s.points| && s.size > 0 && s.lstart == RangeFrom(s.points, 0, i)
    && (s.lend == RangeTo(s.points, s.size - 1, i) || s.lend == RangeTo(s.points, s.size, i))
  }

  /** A point of the i-th block goes between its ends. */
  lemma {:induction false} InsertedAt(points: seq<nat>, size: nat, i: nat, v: nat)
    requires SplitPoints(points, size) && i <= |points|
    requires (i > 0 ==> points[i - 1] < v) && (i < |points| ==> v < points[i])
    ensures Inserted(points, v) == points[..i] + [v] + points[i..]
    decreases |points|
  {
    hide *;
    InsertedIs(points, v);
    PointsBefore(points, size, i);
    if i < |points| {
      var n := |points| - 1;
      InsertedAt(points[..n], size, i, v);
      assert points[..n][..i] == points[..i] && points[i..] == points[..n][i..] + [points[n]];
      assert points[..i] + [v] + points[..n][i..] + [points[n]] == points[..i] + [v] + points[i..];
    } else {
      assert points[..i] == points && points[i..] == [];
    }
  }

  lemma InsertedIs(points: seq<nat>, v: nat)
    ensures Inserted(points, v)
            == (if |points| == 0 then [v]
                else if points[|points| - 1] < v then points + [v]
                else Inserted(points[..|points| - 1], v) + [points[|points| - 1]])
  {
  }

  lemma PointsBefore(points: seq<nat>, size: nat, i: nat)
    requires SplitPoints(points, size)
    ensures i < |points| ==> points[i] <= points[|points| - 1]
    ensures |points| > 0 ==> SplitPoints(points[..|points| - 1], size)
  {
  }

  lemma MarksParts(e: Estimate, points: seq<nat>, size: nat, done: seq<bool>, i: nat)
    requires MarksOk(e, points, size, done) && i <= |points|
    ensures |done| == size > 0 && SplitPoints(points, size) && RangeFrom(points, 0, i) < size
    ensures done[RangeFrom(points, 0, i)] ==> BlockGivenUp(e, points, size, i)
    ensures forall l: nat :: l < size && done[l] ==> StartsBlock(points, l)
  {
    hide BlockGivenUp;
  }

  lemma StartsDiffer(points: seq<nat>, size: nat, i: nat, j: nat)
    requires SplitPoints(points, size) && i <= |points| && j <= |points|
    ensures RangeFrom(points, 0, i) == RangeFrom(points, 0, j) ==> i == j
  {
  }

  /** A round that gives up its block marks it. */
  lemma MarkedOk(e: Estimate, s: SplitState, i: nat)
    requires ValidState(s) && AtBlock(s, i) && MarksOk(e, s.points, s.size, s.done)
    requires GivenUp(e, s.lstart, s.lend)
    ensures MarksOk(e, s.points, s.size, s.done[s.lstart := true])
  {
    hide *;
    AtBlockIs(s, i);
    MarksParts(e, s.points, s.size, s.done, i);
    var done := s.done[s.lstart := true];
    BlockEnds(s.points, s.size, i);
    forall j | 0 <= j <= |s.points| && RangeFrom(s.points, 0, j) < s.size && done[RangeFrom(s.points, 0, j)]
      ensures BlockGivenUp(e, s.points, s.size, j)
    {
      MarksParts(e, s.points, s.size, s.done, j);
      StartsDiffer(s.points, s.size, i, j);
      BlockGivenUpWhen(e, s, i);
    }
    MarksAre(e, s.points, s.size, done);
  }

  lemma AtBlockIs(s: SplitState, i: nat)
    requires AtBlock(s, i)
    ensures i <= |s.points| && s.size > 0 && s.lstart == RangeFrom(s.points, 0, i)
  {
  }

  lemma BlockGivenUpWhen(e: Estimate, s: SplitState, i: nat)
    requires AtBlock(s, i) && GivenUp(e, s.lstart, s.lend)
    ensures BlockGivenUp(e, s.points, s.size, i)
  {
    hide GivenUp;
  }

  lemma BlockInside(s: SplitState, i: nat, x: nat)
    requires ValidState(s) && AtBlock(s, i) && s.lstart < x < s.lend
    ensures (i > 0 ==> s.points[i - 1] < x) && (i < |s.points| ==> x < s.points[i])
    ensures !StartsBlock(s.points, x) && SplitPoints(s.points, s.size) && x < s.size
    ensures |s.done| == s.size && s.lstart < s.size && !s.done[s.lstart]
    ensures s.lstart == RangeFrom(s.points, 0, i) && i <= |s.points|
  {
    hide Inserted;
    forall j | 0 <= j < |s.points| ensures s.points[j] != x {}
  }

  /** Where the blocks are after a split of the i-th one. */
  lemma BlocksAfter(points: seq<nat>, i: nat, x: nat, j: nat, end: nat)
    requires i <= |points| && j <= |points| + 1
    ensures var r := points[..i] + [x] + points[i..];
            && RangeFrom(r, 0, j) == (if j <= i then RangeFrom(points, 0, j) else if j == i + 1 then x
                                      else RangeFrom(points, 0, j - 1))
            && RangeTo(r, end, j) == (if j < i then RangeTo(points, end, j) else if j == i then x
                                      else RangeTo(points, end, j - 1))
  {
  }

  lemma SplitMarksOk(e: Estimate, s: SplitState, i: nat, x: nat)
    requires ValidState(s) && AtBlock(s, i) && MarksOk(e, s.points, s.size, s.done) && s.lstart < x < s.lend
    ensures MarksOk(e, Inserted(s.points, x), s.size, s.done)
  {
    hide *;
    BlockInside(s, i, x);
    InsertedAt(s.points, s.size, i, x);
    MarksParts(e, s.points, s.size, s.done, i);
    var r := Inserted(s.points, x);
    StateIs(e, s);
    InsertedPoints(s.points, s.size, s.lstart, s.lend, x);
    forall j | 0 <= j <= |r| && RangeFrom(r, 0, j) < s.size && s.done[RangeFrom(r, 0, j)]
      ensures BlockGivenUp(e, r, s.size, j)
    {
      BlocksAfter(s.points, i, x, j, s.size);
      BlocksAfter(s.points, i, x, j, s.size - 1);
      MarksParts(e, s.points, s.size, s.done, if j <= i then j else j - 1);
      if j < i {
        SameBlock(e, s.points, r, s.size, j, j);
      } else {
        SameBlock(e, s.points, r, s.size, j - 1, j);
      }
    }
    forall l: nat | l < s.size && s.done[l] ensures StartsBlock(r, l) {
      StartStays(s.points, x, l);
    }
    MarksAre(e, r, s.size, s.done);
  }

  lemma StartStays(points: seq<nat>, v: nat, l: nat)
    requires StartsBlock(points, l)
    ensures StartsBlock(Inserted(points, v), l)
  {
    InsertedElements(points, v);
  }

  lemma SameBlock(e: Estimate, points: seq<nat>, r: seq<nat>, size: nat, i: nat, j: nat)
    requires i <= |points| && j <= |r| && size > 0 && RangeFrom(points, 0, i) == RangeFrom(r, 0, j)
    requires RangeTo(points, size, i) == RangeTo(r, size, j) && RangeTo(points, size - 1, i) == RangeTo(r, size - 1, j)
    ensures BlockGivenUp(e, points, size, i) == BlockGivenUp(e, r, size, j)
  {
    hide GivenUp;
  }

  lemma MarksAre(e: Estimate, points: seq<nat>, size: nat, done: seq<bool>)
    requires |done| == size > 0 && SplitPoints(points, size)
    requires forall l: nat :: l < size && done[l] ==> StartsBlock(points, l)
    requires forall i :: 0 <= i <= |points| && RangeFrom(points, 0, i) < size && done[RangeFrom(points, 0, i)] ==>
               BlockGivenUp(e, points, size, i)
    ensures MarksOk(e, points, size, done)
  {
    hide BlockGivenUp;
  }

  lemma RoundMarks(e: Estimate, s: SplitState, i: nat)
    requires ValidState(s) && AtBlock(s, i) && MarksOk(e, s.points, s.size, s.done)
    ensures MarksOk(e, NextPoints(e, s), s.size, NextDone(e, s))
  {
    hide *;
    StateIs(e, s);
    SplitPointIs(e, s);
    if NoSplit(e, s) {
      RoundGivesUp(e, s);
      MarkedOk(e, s, i);
    } else {
      SplitMarksOk(e, s, i, SplitPoint(e, s).pos);
    }
  }

  lemma RoundGivesUp(e: Estimate, s: SplitState)
    requires ValidState(s) && NoSplit(e, s)
    ensures GivenUp(e, s.lstart, s.lend)
  {
    hide ValidState, NoSplit, Searched, Unsplittable;
    StateIs(e, s);
    if Searched(e, s.lstart, s.lend) { DoneUnlessPays(e, s); }
  }

  /** Every block of ten or more tokens is given up; the last one is taken to end before the last token. */
  ghost predicate Exhausted(e: Estimate, points: seq<nat>, size: nat)
    requires size > 0
  {
    forall i :: 0 <= i <= |points| && RangeTo(points, size - 1, i) - RangeFrom(points, 0, i) >= 10 ==>
      BlockGivenUp(e, points, size, i)
  }

  lemma NoBlockLeft(e: Estimate, points: seq<nat>, size: nat, done: seq<bool>)
    requires MarksOk(e, points, size, done) && NextBlock(points, done).None?
    ensures Exhausted(e, points, size)
  {
    MarksParts(e, points, size, done, 0);
    LargestBlockIs(points, done, |points| + 1);
    hide BlockGivenUp, LargestBlock;
    forall i | 0 <= i <= |points| && RangeTo(points, size - 1, i) - RangeFrom(points, 0, i) >= 10
      ensures BlockGivenUp(e, points, size, i)
    {
      MarksParts(e, points, size, done, i);
    }
  }

  lemma {:induction false} RunExhausts(e: Estimate, s: SplitState, i: nat, maxBlocks: int)
    requires ValidState(s) && AtBlock(s, i) && MarksOk(e, s.points, s.size, s.done)
    ensures s.size > 0
    ensures Exhausted(e, SplitFrom(e, s, maxBlocks), s.size)
            || (maxBlocks > 0 && |SplitFrom(e, s, maxBlocks)| + 1 >= maxBlocks)
    decreases Remaining(s.size, s.points, s.done)
  {
    hide *;
    SplitStep(e, s, maxBlocks);
    RoundMarks(e, s, i);
    var points, done := NextPoints(e, s), NextDone(e, s);
    if !(maxBlocks > 0 && |s.points| + 1 >= maxBlocks) {
      if NextBlock(points, done).Some? {
        var j := NextIsBlock(points, done);
        var r := NextBlock(points, done).value;
        AtBlockWhen(SplitState(s.size, r.start, r.end, done, points), j);
        RunExhausts(e, SplitState(s.size, r.start, r.end, done, points), j, maxBlocks);
      } else {
        NoBlockLeft(e, points, s.size, done);
      }
    }
  }

  lemma AtBlockWhen(s: SplitState, i: nat)
    requires i <= |s.points| && s.size > 0 && s.lstart == RangeFrom(s.points, 0, i)
    requires s.lend == RangeTo(s.points, s.size - 1, i)
    ensures AtBlock(s, i)
  {
  }

  lemma FirstMarks(e: Estimate, s: SplitState)
    requires |s.done| == s.size > 0 && s.points == [] && s.lstart == 0 && s.lend == s.size
    requires forall i :: 0 <= i < s.size ==> !s.done[i]
    ensures AtBlock(s, 0) && MarksOk(e, s.points, s.size, s.done)
  {
    hide BlockGivenUp;
  }

  /** For any costs: splitting stops at the limit, or where every block of ten or more tokens that was
      searched point by point has no split that pays, or none cheaper than one that takes off a single
      token. */
  lemma StopsWhenNonePays(e: Estimate, size: nat, maxBlocks: int)
    requires size >= 10
    ensures Exhausted(e, SplitBy(e, size, maxBlocks), size)
            || (maxBlocks > 0 && |SplitBy(e, size, maxBlocks)| + 1 >= maxBlocks)
  {
    AtFirst(e, size, maxBlocks);
    hide *;
    FirstMarks(e, FirstState(size));
    RunExhausts(e, FirstState(size), 0, maxBlocks);
  }

  // ---- Splits by predicted sizes ----

  /** Every point at which tokens are split divides a range, between other points or ends, that is not
      predicted to be smaller as one block than as two. */
  lemma SplitSaves(us: seq<Token>, maxBlocks: int, x: nat) returns (l: nat, r: nat)
    requires x in SplitOf(us, maxBlocks)
    ensures StartsBlock(SplitOf(us, maxBlocks), l) && EndsBlock(SplitOf(us, maxBlocks), |us|, r)
    ensures l + 1 < x < r <= |us|
    ensures AutoCost(us[l..x], |us|) + AutoCost(us[x..r], |us|) <= AutoCost(us[l..r], |us|)
  {
    hide AutoCost, SizeEstimate, SplitBy, StartsBlock, EndsBlock, SplitPoints;
    var e := SizeEstimate(us);
    EverySplitPays(e, |us|, maxBlocks);
    l, r :| PaidIn(e, SplitOf(us, maxBlocks), |us|, x, l, r);
    SplitValid(us, maxBlocks);
    EndsInside(SplitOf(us, maxBlocks), |us|, r);
    EstimateAt(us, l, x);
    EstimateAt(us, x, r);
    EstimateAt(us, l, r);
  }

  lemma EndsInside(points: seq<nat>, size: nat, r: nat)
    requires SplitPoints(points, size) && EndsBlock(points, size, r)
    ensures r <= size
  {
  }
}
