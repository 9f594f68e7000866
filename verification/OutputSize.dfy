/** How large the output gets: splitting never makes the predicted size larger, and a dynamic stream is
    never much larger than storing the input. */
module OutputSize {
  import opened Prelude
  import opened Symbols
  import opened Tokens
  import opened MatchFinder
  import opened Greedy
  import opened Blocks
  import opened BlockSize
  import opened Optimal
  import opened BlockSplitter
  import opened BlockWriter
  import opened Deflate

  // ---- Where the split points end up ----

  lemma {:induction false} SplitsAre(job: Job, n: nat, k: nat)
    requires ValidJob(job) && n <= Count(job) && k < n && k < |job.positions|
    ensures JobSplits(job, n)[k] == |JobTokens(job, k + 1)|
    decreases n
  {
    hide JobTokens, ValidJob, BlockOfJob;
    if k < n - 1 { SplitsAre(job, n - 1, k); }
  }

  lemma {:induction false} TokensPrefix(job: Job, i: nat, n: nat)
    requires ValidJob(job) && i <= n <= Count(job)
    ensures JobTokens(job, i) <= JobTokens(job, n)
    decreases n
  {
    hide BlockTokens, ValidJob;
    if i < n { TokensPrefix(job, i, n - 1); }
  }

  /** Between the first split points are the tokens of one block each. */
  lemma BlockSlice(job: Job, i: nat)
    requires ValidJob(job) && i < Count(job)
    ensures var ts, first := JobTokens(job, Count(job)), JobSplits(job, Count(job));
            var s, e := RangeFrom(first, 0, i), RangeTo(first, |ts|, i);
            |first| == |job.positions| && s <= e <= |ts| && ts[s..e] == BlockTokens(job, i)
  {
    hide *;
    CountIs(job);
    NextPart(job, i);
    TokensPrefix(job, i, Count(job));
    TokensPrefix(job, i + 1, Count(job));
    NextPart(job, 0);
    BoundsAre(JobSplits(job, Count(job)), |JobTokens(job, Count(job))|, i);
    if i > 0 { SplitsAre(job, Count(job), i - 1); }
    if i + 1 < Count(job) { SplitsAre(job, Count(job), i); }
  }

  /** In a smaller store no fewer types are considered. */
  lemma AutoCostMono(us: seq<Token>, n: nat, n': nat)
    requires n <= n'
    ensures AutoCost(us, n) <= AutoCost(us, n')
  {
    hide BlockCost;
  }

  lemma {:induction false} FirstCost(job: Job, n: nat)
    requires ValidJob(job) && n <= Count(job)
    ensures SplitPoints(JobSplits(job, Count(job)), |JobTokens(job, Count(job))|)
    ensures n <= |JobSplits(job, Count(job))| + 1
    ensures JobCost(job, n) <= SplitsCost(JobTokens(job, Count(job)), JobSplits(job, Count(job)), n)
    decreases n
  {
    hide *;
    CountIs(job);
    JobSplitsValid(job);
    var ts, first := JobTokens(job, Count(job)), JobSplits(job, Count(job));
    NextPart(job, 0);
    BlockSlice(job, 0);
    NextSplitCost(ts, first, 0);
    if n > 0 {
      FirstCost(job, n - 1);
      BlockSlice(job, n - 1);
      NextPart(job, n - 1);
      NextSplitCost(ts, first, n - 1);
      SliceShort(ts, RangeFrom(first, 0, n - 1), RangeTo(first, |ts|, n - 1));
      AutoCostMono(BlockTokens(job, n - 1), |BlockTokens(job, n - 1)|, |ts|);
    }
  }

  lemma SliceShort(ts: seq<Token>, s: nat, e: nat)
    requires s <= e <= |ts|
    ensures |ts[s..e]| <= |ts|
  {
  }

  /** The split points that are kept are those between the blocks as parsed or those of a second split.
      They are never predicted to be worse than the former; and the former are kept only if their blocks
      were predicted to be no larger than those of a second split, if there is one. */
  lemma SplitsNeverWorse(options: Options, job: Job)
    requires ValidJob(job)
    ensures var ts, first := JobTokens(job, Count(job)), JobSplits(job, Count(job));
            var final, second := FinalSplits(options, job), SplitOf(ts, options.blockSplittingMax);
            && SplitPoints(first, |ts|) && SplitPoints(final, |ts|) && SplitPoints(second, |ts|)
            && (final == first || final == second)
            && SplitsCost(ts, final, |final| + 1) <= SplitsCost(ts, first, |first| + 1)
            && (options.blockSplitting && |job.positions| > 1 && final != second ==>
                JobCost(job, Count(job)) <= SplitsCost(ts, second, |second| + 1))
  {
    hide *;
    CountIs(job);
    FinalSplitsIs(options, job);
    FirstCost(job, Count(job));
    BlockSlice(job, 0);
  }

  // ---- Not much more than the input ----

  /** Storing two stretches apart takes at most one more block header than storing them together. */
  lemma StoredTogether(m: nat, n: nat)
    ensures StoredCost(m) + StoredCost(n) <= StoredCost(m + n) + 40
  {
    var a, b, c := Chunks(m), Chunks(n), Chunks(m + n);
    ChunksAre(m);
    ChunksAre(n);
    ChunksAre(m + n);
  }

  function Chunks(n: nat): nat {
    n / 65535 + if n % 65535 != 0 then 1 else 0
  }

  lemma ChunksAre(n: nat)
    ensures StoredCost(n) == Chunks(n) * 40 + n * 8
    ensures 65535 * Chunks(n) - 65535 < n <= 65535 * Chunks(n)
  {
  }

  /** However a part is split, its first n blocks take at most 42 bits for each block more than storing
      their bytes. */
  lemma {:induction false} PointsBitsSize(final: bool, ts: seq<Token>, points: seq<nat>, n: nat, pos: nat,
                                          data: seq<byte>, a: nat, b: nat)
    requires SplitPoints(points, |ts|) && n <= |points| + 1 && a <= |data| && Covers(data, ts, a, b) && a < b
    requires b - a <= MASTER_BLOCK_SIZE
    ensures Reached(points, |ts|, n) <= |ts| && a <= Position(ts, a, Reached(points, |ts|, n))
    ensures |PointsBits(final, ts, points, n, pos, data, a, b)|
              <= StoredCost(Position(ts, a, Reached(points, |ts|, n)) - a) + 42 * n
    decreases n
  {
    hide *;
    ReachedIs(points, |ts|, 0);
    FirstPosition(ts, a);
    NextPointsBits(final, ts, points, 0, pos, data, a, b);
    if n > 0 {
      PointsBitsSize(final, ts, points, n - 1, pos, data, a, b);
      ReachedIs(points, |ts|, n - 1);
      NextPointsBits(final, ts, points, n - 1, pos, data, a, b);
      var z := PointsBits(final, ts, points, n - 1, pos, data, a, b);
      var s, e := RangeFrom(points, 0, n - 1), RangeTo(points, |ts|, n - 1);
      var p, q := Position(ts, a, s), Position(ts, a, e);
      SliceCovers(data, ts, a, b, s, e);
      SomeTokens(data, ts, points, a, b, n - 1);
      PointBitsAre(final, ts, points, n - 1, pos + |z|, data, a, b);
      AutoBitsSize(n - 1 == |points| && final, ts[s..e], |ts|, pos + |z|, data, p, q);
      StoredTogether(p - a, q - p);
    }
  }

  lemma SomeTokens(data: seq<byte>, ts: seq<Token>, points: seq<nat>, a: nat, b: nat, i: nat)
    requires SplitPoints(points, |ts|) && i <= |points| && Covers(data, ts, a, b) && a < b
    ensures RangeFrom(points, 0, i) < RangeTo(points, |ts|, i) <= |ts|
    ensures |ts[RangeFrom(points, 0, i)..RangeTo(points, |ts|, i)]| > 0
  {
    NotEmpty(data, ts, a, b);
  }

  /** A dynamic part takes at most 42 bits for each of its blocks more than storing it. */
  lemma DynamicPartSize(r: Request, final: bool, start: nat, end: nat, pos: nat)
    requires PartOf(r, start, end) && r.btype == 2
    ensures |PartBits(r, final, start, end, pos)| <= StoredCost(end - start) + 42 * (|PartSplits(r, start, end)| + 1)
  {
    hide *;
    PartBitsAre(r, final, start, end, pos);
    var ts, points := PartTokens(r, start, end), PartSplits(r, start, end);
    ReachedIs(points, |ts|, |points|);
    SliceCovers(r.data, ts, start, end, 0, |ts|);
    PointsBitsSize(final, ts, points, |points| + 1, pos, r.data, start, end);
  }

  /** The number of blocks of a part is limited. */
  lemma BlocksLimited(r: Request, start: nat, end: nat)
    requires PartOf(r, start, end) && r.options.blockSplittingMax > 0
    ensures |PartSplits(r, start, end)| < r.options.blockSplittingMax
  {
    hide *;
    PartIsBlock(r, start, end);
    JobOfValid(r, start, end);
    PartTokensAre(r, start, end);
    var job := JobOf(r, start, end);
    CountIs(job);
    FinalSplitsIs(r.options, job);
    SplitValid(JobTokens(job, Count(job)), r.options.blockSplittingMax);
    if r.options.blockSplitting { SplitPositionsInside(Block(r.data, start, end), r.options.blockSplittingMax); }
    BlockSlice(job, 0);
  }

  /** The number of blocks of the first n parts. */
  ghost function BlockCount(r: Request, n: nat): nat
    requires ValidRequest(r) && n <= Parts(|r.data|)
  {
    if n == 0 then 0
    else
      PartFits(r, n - 1);
      BlockCount(r, n - 1) + |PartSplits(r, PartStart(n - 1), PartEnd(|r.data|, n - 1))| + 1
  }

  lemma NextCount(r: Request, n: nat)
    requires ValidRequest(r) && n < Parts(|r.data|)
    ensures BlockCount(r, 0) == 0 && PartOf(r, PartStart(n), PartEnd(|r.data|, n)) && 0 <= PartEnd(|r.data|, n)
    ensures BlockCount(r, n + 1) == BlockCount(r, n) + |PartSplits(r, PartStart(n), PartEnd(|r.data|, n))| + 1
  {
    PartFits(r, n);
    hide ValidRequest, Parts, PartStart, PartEnd, PartSplits, PartOf;
  }

  lemma {:induction false} PartsSize(r: Request, n: nat, pos: nat)
    requires ValidRequest(r) && n <= Parts(|r.data|) && r.btype == 2
    ensures var done := if n == Parts(|r.data|) then |r.data| else PartStart(n);
            |PartsBits(r, n, pos)| <= StoredCost(done) + 42 * BlockCount(r, n) + 40 * n
    decreases n
  {
    hide *;
    if n == 0 {
      NoParts(r, pos);
    } else {
      PartsSize(r, n - 1, pos);
      PartFits(r, n - 1);
      NextPartsBits(r, n - 1, pos);
      NextCount(r, n - 1);
      var start, end, p := PartStart(n - 1), PartEnd(|r.data|, n - 1), pos + |PartsBits(r, n - 1, pos)|;
      PartIsBlock(r, start, end);
      DynamicPartSize(r, n - 1 == Parts(|r.data|) - 1, start, end, p);
      StoredTogether(start, end - start);
    }
  }

  lemma NoParts(r: Request, pos: nat)
    requires ValidRequest(r)
    ensures PartsBits(r, 0, pos) == [] && PartStart(0) == 0 && (Parts(|r.data|) == 0 ==> |r.data| == 0)
  {
    hide ValidRequest;
  }

  lemma {:induction false} CountLimited(r: Request, n: nat)
    requires ValidRequest(r) && n <= Parts(|r.data|) && r.options.blockSplittingMax > 0
    ensures BlockCount(r, n) <= n * r.options.blockSplittingMax
    decreases n
  {
    hide *;
    if n > 0 {
      CountLimited(r, n - 1);
      NextCount(r, n - 1);
      BlocksLimited(r, PartStart(n - 1), PartEnd(|r.data|, n - 1));
      Distributes(n - 1, 1, r.options.blockSplittingMax);
    } else {
      NoBlocks(r);
    }
  }

  lemma NoBlocks(r: Request)
    requires ValidRequest(r)
    ensures BlockCount(r, 0) == 0
  {
    hide ValidRequest;
  }

  /** A dynamic stream takes at most 42 bits for each block and 40 for each part more than storing the
      input, whatever the costs predicted; and no part has more blocks than the limit, if there is one. */
  lemma NeverExpands(r: Request, pos: nat)
    requires ValidRequest(r) && |r.data| > 0 && r.btype == 2
    ensures var parts := Parts(|r.data|);
            && |DeflateBits(r, pos)| <= StoredCost(|r.data|) + 42 * BlockCount(r, parts) + 40 * parts
            && (r.options.blockSplittingMax > 0 ==> BlockCount(r, parts) <= parts * r.options.blockSplittingMax)
  {
    hide *;
    DeflateBitsAre(r, pos);
    PartsSize(r, Parts(|r.data|), pos);
    if r.options.blockSplittingMax > 0 { CountLimited(r, Parts(|r.data|)); }
  }
}
