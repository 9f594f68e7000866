/** The compressor: plans for parts of the input, written block by block. What is written is a
    function of the input, the options and the cost models alone, whatever the number of workers
    and the scratch objects, and any inflater turns it back into the input. */
module Deflate {
  import opened Prelude
  import opened Bits
  import opened Symbols
  import opened Inflate
  import opened Tokens
  import opened HashChain
  import opened MatchCache
  import opened MatchFinder
  import opened Store
  import opened Parse
  import opened DynamicLengths
  import opened Blocks
  import opened BlockSize
  import opened Optimal
  import opened BlockSplitter
  import opened BlockWriter

  const MAX_COMPRESSION_WORKERS: nat := 4

  datatype Options = Options(verbose: bool, verboseMore: bool, numIterations: int, blockSplitting: bool,
                             blockSplittingMax: int)

  function NormalizeCompressionWorkers(numWorkers: int): (n: nat)
    ensures 1 <= n <= MAX_COMPRESSION_WORKERS
  {
    if numWorkers <= 1 then 1 else Min(numWorkers, MAX_COMPRESSION_WORKERS)
  }

  /** Never more workers than tasks, than asked for, or than the maximum; verbose output is serial. */
  function CompressionWorkers(options: Options, numWorkers: int, tasks: nat): (n: nat)
    ensures 1 <= n <= MAX_COMPRESSION_WORKERS && (tasks > 0 ==> n <= tasks) && (numWorkers > 0 ==> n <= numWorkers)
    ensures tasks <= 1 || numWorkers <= 1 || options.verbose || options.verboseMore ==> n == 1
    ensures n < tasks && n < numWorkers && n < MAX_COMPRESSION_WORKERS ==> options.verbose || options.verboseMore
  {
    if tasks <= 1 || numWorkers <= 1 || options.verbose || options.verboseMore then 1
    else Min(NormalizeCompressionWorkers(numWorkers), tasks)
  }

  // ---- The blocks of a part ----

  /** Positions that split a range into nonempty blocks. */
  ghost predicate Splitting(positions: seq<nat>, start: nat, end: nat) {
    && start < end
    && (forall k :: 0 <= k < |positions| ==> start < positions[k] < end)
    && (forall k, l :: 0 <= k < l < |positions| ==> positions[k] < positions[l])
  }

  /** A dynamic part, cut into blocks that are parsed one by one. */
  datatype Job = Job(data: seq<byte>, start: nat, end: nat, positions: seq<nat>, iterations: nat, models: Oracle)

  ghost predicate ValidJob(job: Job) {
    && Splitting(job.positions, job.start, job.end) && job.end <= |job.data| && job.end - job.start <= MASTER_BLOCK_SIZE
    && job.iterations > 0 && ValidOracle(job.models)
  }

  /** The number of blocks. */
  function Count(job: Job): nat {
    |job.positions| + 1
  }

  function BlockOfJob(job: Job, i: nat): Block
    requires i <= |job.positions|
  {
    Block(job.data, RangeFrom(job.positions, job.start, i), RangeTo(job.positions, job.end, i))
  }

  lemma BlockFits(job: Job, i: nat)
    requires ValidJob(job) && i < Count(job)
    ensures ProperBlock(BlockOfJob(job, i)) && ValidBlock(BlockOfJob(job, i)) && job.start <= BlockOfJob(job, i).start
    ensures i == 0 ==> BlockOfJob(job, i).start == job.start
    ensures i + 1 < Count(job) ==> BlockOfJob(job, i).end == BlockOfJob(job, i + 1).start
    ensures i + 1 == Count(job) ==> BlockOfJob(job, i).end == job.end
    ensures job.iterations > 0 && ValidOracle(job.models) && job.end <= |job.data|
    ensures BlockOfJob(job, i).data == job.data
    ensures job.start < job.end && job.end - job.start <= MASTER_BLOCK_SIZE
  {
    hide ValidOracle;
  }

  ghost function BlockTokens(job: Job, i: nat): seq<Token>
    requires ValidJob(job) && i < Count(job)
  {
    BlockFits(job, i);
    OptimalTokens(BlockOfJob(job, i), job.models, job.iterations)
  }

  lemma BlockTokensAre(job: Job, i: nat)
    requires ValidJob(job) && i < Count(job)
    ensures ValidBlock(BlockOfJob(job, i)) && job.iterations > 0
    ensures BlockTokens(job, i) == OptimalTokens(BlockOfJob(job, i), job.models, job.iterations)
    ensures Covers(job.data, BlockTokens(job, i), BlockOfJob(job, i).start, BlockOfJob(job, i).end)
    ensures |BlockTokens(job, i)| > 0
  {
    BlockFits(job, i);
    hide ValidJob, ProperBlock, OptimalTokens, Covers, ValidOracle, ValidBlock;
    OptimalCovers(BlockOfJob(job, i), job.models, job.iterations);
    NotEmpty(job.data, BlockTokens(job, i), BlockOfJob(job, i).start, BlockOfJob(job, i).end);
    ProperIs(BlockOfJob(job, i));
  }

  /** The tokens of the first n blocks. */
  ghost function JobTokens(job: Job, n: nat): seq<Token>
    requires ValidJob(job) && n <= Count(job)
  {
    if n == 0 then [] else JobTokens(job, n - 1) + BlockTokens(job, n - 1)
  }

  /** The predicted size of the first n blocks. */
  ghost function JobCost(job: Job, n: nat): nat
    requires ValidJob(job) && n <= Count(job)
  {
    if n == 0 then 0 else JobCost(job, n - 1) + AutoCost(BlockTokens(job, n - 1), |BlockTokens(job, n - 1)|)
  }

  ghost function OneSplit(job: Job, n: nat): (s: seq<nat>)
    requires ValidJob(job) && n <= Count(job)
    ensures |s| == if n < Count(job) then 1 else 0
  {
    if n < Count(job) then [|JobTokens(job, n)|] else []
  }

  /** After how many tokens the first n blocks end; not for the last block. */
  ghost function JobSplits(job: Job, n: nat): (s: seq<nat>)
    requires ValidJob(job) && n <= Count(job)
    ensures |s| == Min(n, |job.positions|)
  {
    if n == 0 then [] else JobSplits(job, n - 1) + OneSplit(job, n)
  }

  ghost function JobEnd(job: Job, n: nat): nat
    requires n <= Count(job)
  {
    if n == 0 then job.start else BlockOfJob(job, n - 1).end
  }

  lemma NextPart(job: Job, n: nat)
    requires ValidJob(job) && n < Count(job)
    ensures JobTokens(job, n + 1) == JobTokens(job, n) + BlockTokens(job, n)
    ensures JobCost(job, n + 1) == JobCost(job, n) + AutoCost(BlockTokens(job, n), |BlockTokens(job, n)|)
    ensures JobSplits(job, n + 1) == JobSplits(job, n) + if n + 1 < Count(job) then [|JobTokens(job, n + 1)|] else []
    ensures JobEnd(job, n + 1) == BlockOfJob(job, n).end && JobEnd(job, n) == BlockOfJob(job, n).start
    ensures Count(job) == |job.positions| + 1 && JobTokens(job, 0) == [] && JobCost(job, 0) == 0
    ensures JobSplits(job, 0) == [] && JobEnd(job, 0) == job.start
  {
    hide ValidJob, BlockTokens, BlockOfJob, AutoCost, ProperBlock, ValidBlock;
    BlockFits(job, n);
    if n > 0 { BlockFits(job, n - 1); }
  }

  /** The blocks' parses add up to a parse of the part. */
  lemma {:induction false} JobCovers(job: Job, n: nat)
    requires ValidJob(job) && n <= Count(job)
    ensures Covers(job.data, JobTokens(job, n), job.start, JobEnd(job, n))
  {
    hide *;
    CountIs(job);
    if n == 0 {
      NextPart(job, 0);
      NothingCovered(job.data, job.start);
    } else {
      JobCovers(job, n - 1);
      BlockTokensAre(job, n - 1);
      NextPart(job, n - 1);
      CoversAppend(job.data, JobTokens(job, n - 1), BlockTokens(job, n - 1), job.start, JobEnd(job, n - 1),
                   JobEnd(job, n));
    }
  }

  /** Increasing token numbers; only the last block's end can be the end of the tokens. */
  ghost predicate SplitsUpTo(splits: seq<nat>, size: nat, n: nat) {
    && (forall k :: 0 <= k < |splits| ==> 0 < splits[k] <= size && (k + 1 < n ==> splits[k] < size))
    && (forall k, l :: 0 <= k < l < |splits| ==> splits[k] < splits[l])
  }

  lemma SplitsNext(splits: seq<nat>, size: nat, size': nat, n: nat, more: bool)
    requires SplitsUpTo(splits, size, n) && size < size' && |splits| <= n && (more ==> |splits| == n)
    ensures SplitsUpTo(splits + if more then [size'] else [], size', n + 1)
  {
  }

  lemma NoSplits(size: nat)
    ensures SplitsUpTo([], size, 0)
  {
  }

  lemma {:induction false} JobSplitsOrdered(job: Job, n: nat)
    requires ValidJob(job) && n <= Count(job)
    ensures SplitsUpTo(JobSplits(job, n), |JobTokens(job, n)|, n)
  {
    hide *;
    CountIs(job);
    if n == 0 {
      NextPart(job, 0);
      NoSplits(|JobTokens(job, n)|);
    } else {
      JobSplitsOrdered(job, n - 1);
      BlockTokensAre(job, n - 1);
      NextPart(job, n - 1);
      SplitsNext(JobSplits(job, n - 1), |JobTokens(job, n - 1)|, |JobTokens(job, n)|, n - 1, n < Count(job));
    }
  }

  lemma NothingCovered(data: seq<byte>, a: nat)
    ensures Covers(data, [], a, a)
  {
  }

  lemma AllSplits(splits: seq<nat>, size: nat, n: nat)
    requires SplitsUpTo(splits, size, n) && |splits| < n
    ensures SplitPoints(splits, size)
  {
  }

  lemma JobSplitsValid(job: Job)
    requires ValidJob(job)
    ensures SplitPoints(JobSplits(job, Count(job)), |JobTokens(job, Count(job))|)
    ensures Covers(job.data, JobTokens(job, Count(job)), job.start, job.end)
  {
    hide *;
    CountIs(job);
    JobCovers(job, Count(job));
    JobSplitsOrdered(job, Count(job));
    BlockFits(job, Count(job) - 1);
    NextPart(job, Count(job) - 1);
    AllSplits(JobSplits(job, Count(job)), |JobTokens(job, Count(job))|, Count(job));
  }

  // ---- Parsing the blocks ----

  /** Parse one block, and predict its size. */
  method OptimizeBlock(job: Job, i: nat, lmc: LongestMatchCache, h: Hash) returns (store: LZ77Store, cost: nat)
    requires ValidJob(job) && i < Count(job) && lmc.Valid()
    modifies lmc, h
    ensures fresh(store) && Parses(store, BlockOfJob(job, i).start, BlockOfJob(job, i).end) && store.data == job.data
    ensures lmc.Valid()
    ensures store.tokens == BlockTokens(job, i) && cost == AutoCost(store.tokens, |store.tokens|)
  {
    hide *;
    CountIs(job);
    BlockFits(job, i);
    BlockTokensAre(job, i);
    var b := BlockOfJob(job, i);
    var store0 := new LZ77Store(job.data);
    store := Lz77Optimal(lmc, b, job.iterations, job.models, store0, h);
    ParseIs(store, b.start, b.end);
    cost := CalculateBlockSizeAutoType(store, 0, store.size, b.start, b.end);
    WholeSlice(store.tokens);
  }

  /** The parse of the part, as far as its first n blocks go. */
  ghost predicate PartParsed(store: LZ77Store, job: Job, n: nat, splitPoints: seq<nat>, totalCost: nat)
    reads store
  {
    && ValidJob(job) && n <= Count(job) && Parses(store, job.start, JobEnd(job, n)) && store.data == job.data
    && store.tokens == JobTokens(job, n) && splitPoints == JobSplits(job, n) && totalCost == JobCost(job, n)
  }

  lemma FirstPart(store: LZ77Store, job: Job)
    requires ValidJob(job) && Parses(store, BlockOfJob(job, 0).start, BlockOfJob(job, 0).end) && store.data == job.data
    requires store.tokens == BlockTokens(job, 0)
    ensures PartParsed(store, job, 1, if |job.positions| > 0 then [store.size] else [],
                       AutoCost(store.tokens, |store.tokens|))
  {
    hide *;
    CountIs(job);
    NextPart(job, 0);
    ParseIs(store, BlockOfJob(job, 0).start, BlockOfJob(job, 0).end);
    assert [] + BlockTokens(job, 0) == BlockTokens(job, 0);
    PartIs(store, job, 1, if |job.positions| > 0 then [store.size] else [], AutoCost(store.tokens, |store.tokens|));
  }

  lemma PartIs(store: LZ77Store, job: Job, n: nat, splitPoints: seq<nat>, totalCost: nat)
    ensures PartParsed(store, job, n, splitPoints, totalCost) == (
              && ValidJob(job) && n <= Count(job) && Parses(store, job.start, JobEnd(job, n)) && store.data == job.data
              && store.tokens == JobTokens(job, n) && splitPoints == JobSplits(job, n) && totalCost == JobCost(job, n))
  {
    hide ValidJob, Parses, JobTokens, JobSplits, JobCost, JobEnd;
  }

  /** Take the next block's parse into the parse of the part. */
  method TakeBlock(store: LZ77Store, other: LZ77Store, cost: nat, job: Job, n: nat, splitPoints: seq<nat>,
                   totalCost: nat) returns (splitPoints': seq<nat>, totalCost': nat)
    requires n < Count(job) && PartParsed(store, job, n, splitPoints, totalCost)
    requires Parses(other, BlockOfJob(job, n).start, BlockOfJob(job, n).end) && other.data == job.data
    requires other.tokens == BlockTokens(job, n) && other != store
    requires cost == AutoCost(other.tokens, |other.tokens|)
    modifies store
    ensures PartParsed(store, job, n + 1, splitPoints', totalCost')
  {
    hide *;
    CountIs(job);
    PartIs(store, job, n, splitPoints, totalCost);
    NextPart(job, n);
    ParseIs(store, job.start, JobEnd(job, n));
    ParseIs(other, BlockOfJob(job, n).start, BlockOfJob(job, n).end);
    ghost var ts, us := store.tokens, other.tokens;
    store.AppendStore(other);
    ParseJoined(store, job.data, ts, us, job.start, JobEnd(job, n), JobEnd(job, n + 1));
    ParseIs(store, job.start, JobEnd(job, n + 1));
    splitPoints' := if n < |job.positions| then splitPoints + [store.size] else splitPoints;
    totalCost' := totalCost + cost;
    assert splitPoints + [] == splitPoints;
    PartIs(store, job, n + 1, splitPoints', totalCost');
  }

  lemma CountIs(job: Job)
    ensures Count(job) == |job.positions| + 1
  {
  }

  /** Parse the blocks one after the other with the same scratch objects. */
  method ParseBlocks(job: Job, lmc: LongestMatchCache, h: Hash)
    returns (store: LZ77Store, splitPoints: seq<nat>, totalCost: nat)
    requires ValidJob(job) && lmc.Valid()
    modifies lmc, h
    ensures fresh(store) && lmc.Valid() && PartParsed(store, job, Count(job), splitPoints, totalCost)
  {
    hide *;
    CountIs(job);
    store, totalCost := OptimizeBlock(job, 0, lmc, h);
    FirstPart(store, job);
    splitPoints := if |job.positions| > 0 then [store.size] else [];
    for i := 1 to |job.positions| + 1
      invariant fresh(store) && lmc.Valid() && PartParsed(store, job, i, splitPoints, totalCost)
    {
      var other, cost := OptimizeBlock(job, i, lmc, h);
      splitPoints, totalCost := TakeBlock(store, other, cost, job, i, splitPoints, totalCost);
    }
  }

  // ---- Parsing blocks in batches ----

  datatype OptimizedBlock = OptimizedBlock(store: LZ77Store, cost: nat)

  ghost predicate IsOptimized(o: OptimizedBlock, job: Job, i: nat)
    reads o.store
  {
    && ValidJob(job) && i < Count(job)
    && Parses(o.store, BlockOfJob(job, i).start, BlockOfJob(job, i).end) && o.store.data == job.data
    && o.store.tokens == BlockTokens(job, i)
    && o.cost == AutoCost(o.store.tokens, |o.store.tokens|)
  }

  /** The parses in a batch, from number `k0` on, are those of the blocks from number `first` on. */
  ghost predicate BatchRest(batch: seq<OptimizedBlock>, job: Job, first: nat, k0: nat)
    reads set k | k0 <= k < |batch| :: batch[k].store
  {
    first + |batch| <= Count(job) && forall k :: k0 <= k < |batch| ==> IsOptimized(batch[k], job, first + k)
  }

  lemma OptimizedIs(o: OptimizedBlock, job: Job, i: nat)
    requires ValidJob(job) && i < Count(job)
    ensures IsOptimized(o, job, i) == (
              && Parses(o.store, BlockOfJob(job, i).start, BlockOfJob(job, i).end) && o.store.data == job.data
              && o.store.tokens == BlockTokens(job, i)
              && o.cost == AutoCost(o.store.tokens, |o.store.tokens|))
  {
    hide ValidJob, Parses, BlockTokens, BlockOfJob, AutoCost;
  }

  /** What a worker reuses from task to task. */
  datatype Scratch = Scratch(lmc: LongestMatchCache, h: Hash)

  ghost predicate ValidScratches(scratches: seq<Scratch>)
    reads set w | 0 <= w < |scratches| :: scratches[w].lmc
  {
    forall w :: 0 <= w < |scratches| ==> scratches[w].lmc.Valid()
  }

  method NewScratches(workers: nat) returns (scratches: seq<Scratch>)
    ensures |scratches| == workers && ValidScratches(scratches)
    ensures forall w :: 0 <= w < workers ==> fresh(scratches[w].lmc) && fresh(scratches[w].h)
  {
    hide LongestMatchCache.Valid;
    scratches := [];
    for w := 0 to workers
      invariant |scratches| == w && ValidScratches(scratches)
      invariant forall v :: 0 <= v < w ==> fresh(scratches[v].lmc) && fresh(scratches[v].h)
    {
      var lmc := new LongestMatchCache();
      var h := new Hash();
      scratches := scratches + [Scratch(lmc, h)];
    }
  }

  /** Which result slots are filled, and with what: the parses of the blocks from number `first` on. */
  ghost predicate Slots(results: seq<Option<OptimizedBlock>>, job: Job, first: nat, waiting: set<nat>)
    reads set k | 0 <= k < |results| && k !in waiting && results[k].Some? :: results[k].value.store
  {
    && first + |results| <= Count(job)
    && (forall k :: 0 <= k < |results| && k !in waiting ==>
        results[k].Some? && IsOptimized(results[k].value, job, first + k))
    && (forall k, l :: 0 <= k < l < |results| && k !in waiting && l !in waiting ==>
        results[k].value.store != results[l].value.store)
  }

  function Tasks(count: nat): (tasks: set<nat>)
    ensures forall k: nat :: k in tasks <==> k < count
  {
    if count == 0 then {} else Tasks(count - 1) + {count - 1}
  }

  /** Any worker may take any of the waiting tasks, with scratch objects in whatever state the worker's
      earlier tasks left them, and the tasks may be done in any order. */
  method OptimizeSplitBlockBatch(job: Job, first: nat, count: nat, workers: nat) returns (batch: seq<OptimizedBlock>)
    requires ValidJob(job) && first + count <= Count(job) && workers > 0
    ensures |batch| == count && BatchRest(batch, job, first, 0)
    ensures forall k :: 0 <= k < count ==> fresh(batch[k].store)
    ensures forall k, l :: 0 <= k < l < count ==> batch[k].store != batch[l].store
  {
    hide ValidJob, IsOptimized, Parses, AutoCost, BlockTokens, BlockOfJob, LongestMatchCache.Valid, Count;
    var scratches := NewScratches(workers);
    var results := seq(count, k => None);
    var waiting := Tasks(count);
    while waiting != {}
      invariant |results| == count && Slots(results, job, first, waiting) && ValidScratches(scratches)
      invariant forall k :: k in waiting ==> k < count
      invariant forall k :: 0 <= k < count && k !in waiting ==> fresh(results[k].value.store)
      decreases waiting
    {
      var offset: nat :| offset in waiting;
      var worker: nat :| worker < workers;
      var store, cost := OptimizeBlock(job, first + offset, scratches[worker].lmc, scratches[worker].h);
      OptimizedIs(OptimizedBlock(store, cost), job, first + offset);
      results := results[offset := Some(OptimizedBlock(store, cost))];
      waiting := waiting - {offset};
    }
    batch := seq(count, k requires 0 <= k < count && results[k].Some? => results[k].value);
  }

  lemma RestAt(batch: seq<OptimizedBlock>, job: Job, first: nat, k: nat)
    requires BatchRest(batch, job, first, k) && k < |batch|
    ensures first + k < Count(job) && IsOptimized(batch[k], job, first + k) && ValidJob(job)
    ensures BatchRest(batch, job, first, k + 1)
  {
    hide Parses, ValidJob, BlockTokens, BlockOfJob, AutoCost;
  }

  /** Take the parses of a batch into the parse of the part, in order. */
  method TakeBatch(store0: LZ77Store?, batch: seq<OptimizedBlock>, job: Job, first: nat, splitPoints: seq<nat>,
                   totalCost: nat)
    returns (store: LZ77Store, splitPoints': seq<nat>, totalCost': nat)
    requires |batch| > 0 && BatchRest(batch, job, first, 0)
    requires forall k, l :: 0 <= k < l < |batch| ==> batch[k].store != batch[l].store
    requires if first == 0 then store0 == null
             else
               && store0 != null && PartParsed(store0, job, first, splitPoints, totalCost)
               && forall k :: 0 <= k < |batch| ==> batch[k].store != store0
    modifies if store0 == null then {batch[0].store} else {store0}
    ensures store == if store0 == null then batch[0].store else store0
    ensures PartParsed(store, job, first + |batch|, splitPoints', totalCost')
  {
    hide *;
    CountIs(job);
    store, splitPoints', totalCost' := batch[0].store, splitPoints, totalCost;
    if store0 != null {
      store := store0;
    } else {
      RestAt(batch, job, first, 0);
      OptimizedIs(batch[0], job, 0);
      FirstPart(store, job);
      splitPoints', totalCost' := if |job.positions| > 0 then [store.size] else [], batch[0].cost;
    }
    for offset := (if store0 == null then 1 else 0) to |batch|
      invariant PartParsed(store, job, first + offset, splitPoints', totalCost')
      invariant forall k :: offset <= k < |batch| ==> batch[k].store != store
      invariant BatchRest(batch, job, first, offset)
    {
      RestAt(batch, job, first, offset);
      OptimizedIs(batch[offset], job, first + offset);
      splitPoints', totalCost' :=
        TakeBlock(store, batch[offset].store, batch[offset].cost, job, first + offset, splitPoints', totalCost');
    }
  }

  /** Parse the blocks in batches of as many as there are workers. */
  method ParseBlocksInBatches(job: Job, workers: nat) returns (store: LZ77Store, splitPoints: seq<nat>, totalCost: nat)
    requires ValidJob(job) && workers > 0
    ensures fresh(store) && PartParsed(store, job, Count(job), splitPoints, totalCost)
  {
    hide *;
    CountIs(job);
    var blocks := |job.positions| + 1;
    var first := Min(workers, blocks);
    var batch := OptimizeSplitBlockBatch(job, 0, first, workers);
    store, splitPoints, totalCost := TakeBatch(null, batch, job, 0, [], 0);
    while first < blocks
      invariant 0 < first <= blocks && fresh(store) && PartParsed(store, job, first, splitPoints, totalCost)
      decreases blocks - first
    {
      batch := OptimizeSplitBlockBatch(job, first, Min(workers, blocks - first), workers);
      store, splitPoints, totalCost := TakeBatch(store, batch, job, first, splitPoints, totalCost);
      first := first + |batch|;
    }
  }

  // ---- What is to be compressed, and the plan for a part ----

  /** Everything the output depends on: the number of workers and the scratch objects do not count. */
  datatype Request = Request(options: Options, btype: nat, data: seq<byte>, models: Oracle)

  ghost predicate ValidRequest(r: Request) {
    r.btype <= 2 && r.options.numIterations > 0 && ValidOracle(r.models)
  }

  /** A part of the input, not larger than a master block. */
  ghost predicate PartOf(r: Request, start: nat, end: nat) {
    ValidRequest(r) && start < end <= |r.data| && end - start <= MASTER_BLOCK_SIZE
  }

  lemma PartIsBlock(r: Request, start: nat, end: nat)
    requires PartOf(r, start, end)
    ensures ProperBlock(Block(r.data, start, end)) && ValidBlock(Block(r.data, start, end)) && ValidOracle(r.models)
    ensures r.btype <= 2 && r.options.numIterations > 0 && start < end <= |r.data| && end - start <= MASTER_BLOCK_SIZE
  {
    hide ValidOracle;
  }

  /** Where a part is cut before its optimal parse. */
  ghost function FirstPositions(r: Request, start: nat, end: nat): seq<nat>
    requires PartOf(r, start, end)
  {
    if r.options.blockSplitting then
      PartIsBlock(r, start, end);
      SplitPositions(Block(r.data, start, end), r.options.blockSplittingMax)
    else []
  }

  /** The blocks of a dynamic part, and how they are parsed. */
  ghost function JobOf(r: Request, start: nat, end: nat): Job
    requires PartOf(r, start, end)
  {
    Job(r.data, start, end, FirstPositions(r, start, end), r.options.numIterations, r.models)
  }

  lemma JobOfValid(r: Request, start: nat, end: nat)
    requires PartOf(r, start, end)
    ensures ValidJob(JobOf(r, start, end))
    ensures JobOf(r, start, end)
            == Job(r.data, start, end, FirstPositions(r, start, end), r.options.numIterations, r.models)
    ensures FirstPositions(r, start, end)
              == if r.options.blockSplitting then SplitPositions(Block(r.data, start, end), r.options.blockSplittingMax)
                else []
  {
    PartIsBlock(r, start, end);
    FirstPositionsInside(r, start, end);
    hide ValidOracle, SplitPositions, ProperBlock, FirstPositions, Splitting;
  }

  lemma FirstPositionsInside(r: Request, start: nat, end: nat)
    requires PartOf(r, start, end)
    ensures ValidBlock(Block(r.data, start, end)) && Splitting(FirstPositions(r, start, end), start, end)
    ensures FirstPositions(r, start, end)
              == if r.options.blockSplitting then SplitPositions(Block(r.data, start, end), r.options.blockSplittingMax)
                else []
  {
    hide ValidOracle, SplitPositions, ProperBlock, PartOf, ValidBlock, SplitOf;
    PartIsBlock(r, start, end);
    if r.options.blockSplitting { SplitPositionsInside(Block(r.data, start, end), r.options.blockSplittingMax); }
  }

  lemma PointsOrdered(points: seq<nat>, size: nat, i: nat)
    requires SplitPoints(points, size) && i <= |points|
    ensures RangeFrom(points, 0, i) <= RangeTo(points, size, i) <= size && RangeFrom(points, 0, 0) == 0
    ensures RangeTo(points, size, |points|) == size
    ensures i < |points| ==> RangeTo(points, size, i) == RangeFrom(points, 0, i + 1)
  {
  }

  /** The predicted size of the first n blocks. */
  ghost function SplitsCost(ts: seq<Token>, points: seq<nat>, n: nat): nat
    requires SplitPoints(points, |ts|) && n <= |points| + 1
  {
    if n == 0 then 0
    else
      PointsOrdered(points, |ts|, n - 1);
      SplitsCost(ts, points, n - 1) + AutoCost(ts[RangeFrom(points, 0, n - 1)..RangeTo(points, |ts|, n - 1)], |ts|)
  }

  lemma NextSplitCost(ts: seq<Token>, points: seq<nat>, n: nat)
    requires SplitPoints(points, |ts|) && n <= |points|
    ensures RangeFrom(points, 0, n) <= RangeTo(points, |ts|, n) <= |ts| && SplitsCost(ts, points, 0) == 0
    ensures SplitsCost(ts, points, n + 1)
            == SplitsCost(ts, points, n) + AutoCost(ts[RangeFrom(points, 0, n)..RangeTo(points, |ts|, n)], |ts|)
  {
    PointsOrdered(points, |ts|, n);
    hide SplitPoints, AutoCost, RangeFrom, RangeTo;
  }

  /** The predicted size of all blocks between split points. */
  method TotalCost(store: LZ77Store, points: seq<nat>, ghost a: nat, ghost b: nat) returns (totalCost: nat)
    requires Parses(store, a, b) && SplitPoints(points, |store.tokens|)
    ensures totalCost == SplitsCost(store.tokens, points, |points| + 1)
  {
    hide *;
    ParseIs(store, a, b);
    totalCost := 0;
    NextSplitCost(store.tokens, points, 0);
    for i := 0 to |points| + 1
      invariant totalCost == SplitsCost(store.tokens, points, i)
    {
      NextSplitCost(store.tokens, points, i);
      BoundsAre(points, |store.tokens|, i);
      var start := if i > 0 then points[i - 1] else 0;
      var end := if i < |points| then points[i] else store.size;
      var cost := CalculateBlockSizeAutoType(store, start, end, a, b);
      totalCost := totalCost + cost;
    }
  }

  lemma BoundsAre(points: seq<nat>, size: nat, i: nat)
    requires i <= |points|
    ensures RangeFrom(points, 0, i) == (if i > 0 then points[i - 1] else 0)
    ensures RangeTo(points, size, i) == if i < |points| then points[i] else size
  {
  }

  /** Where a dynamic part is split in the end: where its blocks were parsed, or, if that is predicted
      to be smaller, where splitting the optimal parse puts the split points. */
  ghost function FinalSplits(options: Options, job: Job): seq<nat>
    requires ValidJob(job)
  {
    var ts, first := JobTokens(job, Count(job)), JobSplits(job, Count(job));
    var second := SplitOf(ts, options.blockSplittingMax);
    SplitValid(ts, options.blockSplittingMax);
    if options.blockSplitting && |job.positions| > 1 && SplitsCost(ts, second, |second| + 1) < JobCost(job, Count(job))
      then second else first
  }

  lemma FinalSplitsIs(options: Options, job: Job)
    requires ValidJob(job)
    ensures var ts, first := JobTokens(job, Count(job)), JobSplits(job, Count(job));
            var second := SplitOf(ts, options.blockSplittingMax);
            && SplitPoints(second, |ts|)
            && FinalSplits(options, job)
                 == if options.blockSplitting && |job.positions| > 1
                   && SplitsCost(ts, second, |second| + 1) < JobCost(job, Count(job)) then second else first
  {
    hide ValidJob, JobTokens, JobSplits, SplitOf, SplitsCost, JobCost, SplitPoints, Count;
    SplitValid(JobTokens(job, Count(job)), options.blockSplittingMax);
  }

  /** Whichever it is, the split points are inside the tokens, and the tokens stand for the part. */
  lemma FinalSplitsValid(options: Options, job: Job)
    requires ValidJob(job)
    ensures SplitPoints(FinalSplits(options, job), |JobTokens(job, Count(job))|)
    ensures Covers(job.data, JobTokens(job, Count(job)), job.start, job.end)
  {
    hide *;
    FinalSplitsIs(options, job);
    JobSplitsValid(job);
  }

  /** What is needed to write a part: for compressed parts a parse, and where to split it. */
  datatype Plan = Plan(btype: nat, instart: nat, inend: nat, lz77: LZ77Store?, splitPoints: seq<nat>)

  /** The tokens of a dynamic part, and where they are split. */
  ghost function PartTokens(r: Request, start: nat, end: nat): seq<Token>
    requires PartOf(r, start, end)
  {
    JobOfValid(r, start, end);
    JobTokens(JobOf(r, start, end), Count(JobOf(r, start, end)))
  }

  ghost function PartSplits(r: Request, start: nat, end: nat): seq<nat>
    requires PartOf(r, start, end)
  {
    JobOfValid(r, start, end);
    FinalSplits(r.options, JobOf(r, start, end))
  }

  ghost predicate PlanFor(plan: Plan, r: Request, start: nat, end: nat)
    reads plan.lz77
  {
    && PartOf(r, start, end) && plan.btype == r.btype && plan.instart == start && plan.inend == end
    && (r.btype > 0 ==> plan.lz77 != null && Parses(plan.lz77, start, end) && plan.lz77.data == r.data)
    && (r.btype == 1 ==> plan.lz77.tokens == (PartIsBlock(r, start, end); FixedTokens(Block(r.data, start, end))))
    && (r.btype == 2 ==> plan.lz77.tokens == PartTokens(r, start, end) && plan.splitPoints == PartSplits(r, start, end))
  }

  lemma PlanIs(plan: Plan, r: Request, start: nat, end: nat)
    requires PartOf(r, start, end)
    ensures ValidBlock(Block(r.data, start, end)) && r.btype <= 2
    ensures PlanFor(plan, r, start, end) == (
              && plan.btype == r.btype && plan.instart == start && plan.inend == end
              && (r.btype > 0 ==> plan.lz77 != null && Parses(plan.lz77, start, end) && plan.lz77.data == r.data)
              && (r.btype == 1 ==> plan.lz77.tokens == FixedTokens(Block(r.data, start, end)))
              && (r.btype == 2 ==>
                  plan.lz77.tokens == PartTokens(r, start, end) && plan.splitPoints == PartSplits(r, start, end)))
  {
    PartIsBlock(r, start, end);
    hide PartOf, Parses, FixedTokens, ValidBlock, PartTokens, PartSplits, ProperBlock, ValidOracle;
  }

  lemma PartTokensAre(r: Request, start: nat, end: nat)
    requires PartOf(r, start, end)
    ensures var job := JobOf(r, start, end);
            ValidJob(job) && PartTokens(r, start, end) == JobTokens(job, Count(job))
              && PartSplits(r, start, end) == FinalSplits(r.options, job)
  {
    JobOfValid(r, start, end);
    hide PartOf, JobOf, ValidJob, JobTokens, Count, FinalSplits;
  }

  lemma PartTokensCover(r: Request, start: nat, end: nat)
    requires PartOf(r, start, end)
    ensures SplitPoints(PartSplits(r, start, end), |PartTokens(r, start, end)|)
    ensures Covers(r.data, PartTokens(r, start, end), start, end)
  {
    hide *;
    JobOfValid(r, start, end);
    PartTokensAre(r, start, end);
    FinalSplitsValid(r.options, JobOf(r, start, end));
  }

  /** Splitting an optimal parse again may be better than where its blocks were split. */
  method SplitAgain(options: Options, store: LZ77Store, job: Job, splitPoints: seq<nat>, totalCost: nat)
    returns (splitPoints': seq<nat>)
    requires PartParsed(store, job, Count(job), splitPoints, totalCost)
    ensures splitPoints' == FinalSplits(options, job)
  {
    hide *;
    PartIs(store, job, Count(job), splitPoints, totalCost);
    FinalSplitsIs(options, job);
    splitPoints' := splitPoints;
    if options.blockSplitting && |job.positions| > 1 {
      var splitPoints2 := BlockSplitLZ77(store, options.blockSplittingMax, job.start, JobEnd(job, Count(job)));
      var totalCost2 := TotalCost(store, splitPoints2, job.start, JobEnd(job, Count(job)));
      if totalCost2 < totalCost {
        splitPoints' := splitPoints2;
      }
    }
  }

  /** Plan a part: how it is parsed and split into blocks. The plan does not depend on the number of
      workers or on what the scratch objects hold. */
  method PrepareDeflatePart(r: Request, start: nat, end: nat, numWorkers: int, lmc: LongestMatchCache, h: Hash)
    returns (plan: Plan)
    requires PartOf(r, start, end) && lmc.Valid()
    modifies lmc, h
    ensures PlanFor(plan, r, start, end) && lmc.Valid() && (plan.lz77 != null ==> fresh(plan.lz77))
  {
    hide *;
    PartIsBlock(r, start, end);
    if r.btype == 0 {
      plan := Plan(r.btype, start, end, null, []);
      PlanIs(plan, r, start, end);
      return;
    }
    if r.btype == 1 {
      var fixedStore := new LZ77Store(r.data);
      Lz77OptimalFixed(lmc, Block(r.data, start, end), fixedStore, h);
      plan := Plan(r.btype, start, end, fixedStore, []);
      PlanIs(plan, r, start, end);
      return;
    }
    JobOfValid(r, start, end);
    var positions := [];
    if r.options.blockSplitting {
      positions := BlockSplit(Block(r.data, start, end), r.options.blockSplittingMax, h);
    }
    var job := Job(r.data, start, end, positions, r.options.numIterations, r.models);
    CountIs(job);
    var store, splitPoints, totalCost;
    var workers := CompressionWorkers(r.options, numWorkers, |positions| + 1);
    if workers == 1 {
      store, splitPoints, totalCost := ParseBlocks(job, lmc, h);
    } else {
      store, splitPoints, totalCost := ParseBlocksInBatches(job, workers);
    }
    PartDone(store, job, splitPoints, totalCost);
    splitPoints := SplitAgain(r.options, store, job, splitPoints, totalCost);
    PartTokensAre(r, start, end);
    plan := Plan(r.btype, start, end, store, splitPoints);
    PlanIs(plan, r, start, end);
  }

  /** All blocks are parsed. */
  lemma PartDone(store: LZ77Store, job: Job, splitPoints: seq<nat>, totalCost: nat)
    requires PartParsed(store, job, Count(job), splitPoints, totalCost)
    ensures Parses(store, job.start, job.end) && store.data == job.data && store.tokens == JobTokens(job, Count(job))
  {
    hide *;
    CountIs(job);
    PartIs(store, job, Count(job), splitPoints, totalCost);
    NextPart(job, Count(job) - 1);
    BlockFits(job, Count(job) - 1);
  }

  // ---- The bits of a part ----

  lemma SliceCovers(data: seq<byte>, ts: seq<Token>, a: nat, b: nat, i: nat, j: nat)
    requires Covers(data, ts, a, b) && a <= |data| && i <= j <= |ts|
    ensures a <= Position(ts, a, i) <= Position(ts, a, j) <= b <= |data|
    ensures Covers(data, ts[i..j], Position(ts, a, i), Position(ts, a, j))
    ensures Position(ts, a, 0) == a && Position(ts, a, |ts|) == b
  {
    hide Covers, Position;
    CoversBound(data, ts, a, b);
    CoversSlice(data, ts, a, b, 0, i);
    CoversSlice(data, ts, a, b, i, j);
    CoversSlice(data, ts, a, b, j, |ts|);
    FirstPosition(ts, a);
    CoversBound(data, ts[0..i], a, Position(ts, a, i));
    CoversBound(data, ts[i..j], Position(ts, a, i), Position(ts, a, j));
    CoversBound(data, ts[j..|ts|], Position(ts, a, j), b);
  }

  /** The i-th block of a part whose tokens are split at the given points. */
  ghost function PointBits(final: bool, ts: seq<Token>, points: seq<nat>, i: nat, pos: nat, data: seq<byte>, a: nat,
                           b: nat): seq<bit>
    requires SplitPoints(points, |ts|) && i <= |points| && a <= |data| && Covers(data, ts, a, b)
  {
    PointsOrdered(points, |ts|, i);
    var s, e := RangeFrom(points, 0, i), RangeTo(points, |ts|, i);
    SliceCovers(data, ts, a, b, s, e);
    AutoBits(i == |points| && final, ts[s..e], |ts|, pos, data, Position(ts, a, s), Position(ts, a, e))
  }

  lemma PointBitsAre(final: bool, ts: seq<Token>, points: seq<nat>, i: nat, pos: nat, data: seq<byte>, a: nat, b: nat)
    requires SplitPoints(points, |ts|) && i <= |points| && a <= |data| && Covers(data, ts, a, b)
    ensures var s, e := RangeFrom(points, 0, i), RangeTo(points, |ts|, i);
            && s <= e <= |ts| && Position(ts, a, s) <= Position(ts, a, e) <= |data|
            && PointBits(final, ts, points, i, pos, data, a, b)
                 == AutoBits(i == |points| && final, ts[s..e], |ts|, pos, data, Position(ts, a, s), Position(ts, a, e))
  {
    PointsOrdered(points, |ts|, i);
    SliceCovers(data, ts, a, b, RangeFrom(points, 0, i), RangeTo(points, |ts|, i));
    hide Covers, Position, AutoBits, SplitPoints, RangeFrom, RangeTo;
  }

  /** The first n blocks of a part, only its last block being final. */
  ghost function PointsBits(final: bool, ts: seq<Token>, points: seq<nat>, n: nat, pos: nat, data: seq<byte>, a: nat,
                            b: nat): seq<bit>
    requires SplitPoints(points, |ts|) && n <= |points| + 1 && a <= |data| && Covers(data, ts, a, b)
  {
    if n == 0 then []
    else
      var z := PointsBits(final, ts, points, n - 1, pos, data, a, b);
      z + PointBits(final, ts, points, n - 1, pos + |z|, data, a, b)
  }

  lemma NextPointsBits(final: bool, ts: seq<Token>, points: seq<nat>, n: nat, pos: nat, data: seq<byte>, a: nat, b: nat)
    requires SplitPoints(points, |ts|) && n <= |points| && a <= |data| && Covers(data, ts, a, b)
    ensures PointsBits(final, ts, points, 0, pos, data, a, b) == []
    ensures var z := PointsBits(final, ts, points, n, pos, data, a, b);
            PointsBits(final, ts, points, n + 1, pos, data, a, b)
              == z + PointBits(final, ts, points, n, pos + |z|, data, a, b)
  {
    hide PointBits, SplitPoints, Covers;
  }

  /** Where the n-th block starts: at the end if there are no more blocks. */
  function Reached(points: seq<nat>, size: nat, n: nat): nat
    requires n <= |points| + 1
  {
    if n <= |points| then RangeFrom(points, 0, n) else size
  }

  lemma ReachedIs(points: seq<nat>, size: nat, n: nat)
    requires SplitPoints(points, size) && n <= |points|
    ensures Reached(points, size, n) == RangeFrom(points, 0, n)
    ensures Reached(points, size, n + 1) == RangeTo(points, size, n)
    ensures RangeFrom(points, 0, n) <= RangeTo(points, size, n) <= size && Reached(points, size, 0) == 0
    ensures Reached(points, size, |points| + 1) == size
  {
  }

  /** However a part is split, the blocks written so far decode to the bytes before the next. */
  lemma {:induction false} PointsBitsDecode(final: bool, ts: seq<Token>, points: seq<nat>, n: nat, pos: nat,
                                            data: seq<byte>, a: nat, b: nat)
    requires SplitPoints(points, |ts|) && n <= |points| + 1 && a <= |data| && Covers(data, ts, a, b)
    requires b - a <= MASTER_BLOCK_SIZE
    ensures Reached(points, |ts|, n) <= |ts|
    ensures Decodes(PointsBits(final, ts, points, n, pos, data, a, b), pos, data, a,
                    Position(ts, a, Reached(points, |ts|, n)), n == |points| + 1 && final)
    decreases n
  {
    hide *;
    if n == 0 {
      ReachedIs(points, |ts|, 0);
      NextPointsBits(final, ts, points, 0, pos, data, a, b);
      FirstPosition(ts, a);
      NothingDecodes(pos, data, a);
    } else {
      PointsBitsDecode(final, ts, points, n - 1, pos, data, a, b);
      ReachedIs(points, |ts|, n - 1);
      NextPointsBits(final, ts, points, n - 1, pos, data, a, b);
      var z := PointsBits(final, ts, points, n - 1, pos, data, a, b);
      var s, e := RangeFrom(points, 0, n - 1), RangeTo(points, |ts|, n - 1);
      var p, q := Position(ts, a, s), Position(ts, a, e);
      SliceCovers(data, ts, a, b, s, e);
      PointBitsAre(final, ts, points, n - 1, pos + |z|, data, a, b);
      AutoBitsDecode(n - 1 == |points| && final, ts[s..e], |ts|, pos + |z|, data, p, q);
      DecodesJoin(z, PointBits(final, ts, points, n - 1, pos + |z|, data, a, b), pos, data, a, p, q,
                  n - 1 == |points| && final);
    }
  }

  lemma FixedPartCovers(r: Request, start: nat, end: nat)
    requires PartOf(r, start, end)
    ensures ValidBlock(Block(r.data, start, end)) && start < end <= |r.data|
    ensures Covers(r.data, FixedTokens(Block(r.data, start, end)), start, end)
  {
    PartIsBlock(r, start, end);
    hide *;
    FixedTokensCover(Block(r.data, start, end));
  }

  /** The bits of a part that starts at position `pos` of the stream. */
  ghost function PartBits(r: Request, final: bool, start: nat, end: nat, pos: nat): seq<bit>
    requires PartOf(r, start, end)
  {
    if r.btype == 0 then StoredBits(pos, r.data, start, end, final)
    else if r.btype == 1 then
      FixedPartCovers(r, start, end);
      BlockBits(1, final, FixedTokens(Block(r.data, start, end)), pos, r.data, start, end)
    else
      PartTokensCover(r, start, end);
      PointsBits(final, PartTokens(r, start, end), PartSplits(r, start, end), |PartSplits(r, start, end)| + 1, pos,
                 r.data, start, end)
  }

  lemma PartBitsAre(r: Request, final: bool, start: nat, end: nat, pos: nat)
    requires PartOf(r, start, end)
    ensures start < end <= |r.data| && end - start <= MASTER_BLOCK_SIZE && ValidBlock(Block(r.data, start, end))
    ensures SplitPoints(PartSplits(r, start, end), |PartTokens(r, start, end)|)
    ensures Covers(r.data, PartTokens(r, start, end), start, end)
    ensures PartBits(r, final, start, end, pos) == (
              if r.btype == 0 then StoredBits(pos, r.data, start, end, final)
              else if r.btype == 1
                then BlockBits(1, final, FixedTokens(Block(r.data, start, end)), pos, r.data, start, end)
              else PointsBits(final, PartTokens(r, start, end), PartSplits(r, start, end),
                              |PartSplits(r, start, end)| + 1, pos, r.data, start, end))
  {
    hide *;
    PartIsBlock(r, start, end);
    PartTokensCover(r, start, end);
    PartBitsIs(r, final, start, end, pos);
  }

  lemma PartBitsIs(r: Request, final: bool, start: nat, end: nat, pos: nat)
    requires PartOf(r, start, end) && start < end <= |r.data| && ValidBlock(Block(r.data, start, end))
    requires SplitPoints(PartSplits(r, start, end), |PartTokens(r, start, end)|)
    requires Covers(r.data, PartTokens(r, start, end), start, end)
    ensures PartBits(r, final, start, end, pos) == (
              if r.btype == 0 then StoredBits(pos, r.data, start, end, final)
              else if r.btype == 1
                then BlockBits(1, final, FixedTokens(Block(r.data, start, end)), pos, r.data, start, end)
              else PointsBits(final, PartTokens(r, start, end), PartSplits(r, start, end),
                              |PartSplits(r, start, end)| + 1, pos, r.data, start, end))
  {
    hide PartOf, StoredBits, BlockBits, PointsBits, FixedTokens, PartTokens, PartSplits, Covers, SplitPoints,
      ValidBlock;
  }

  /** Whatever the type, the costs and the split points, a part decodes to its bytes. */
  lemma PartBitsDecode(r: Request, final: bool, start: nat, end: nat, pos: nat)
    requires PartOf(r, start, end)
    ensures Decodes(PartBits(r, final, start, end, pos), pos, r.data, start, end, final)
  {
    hide *;
    PartBitsAre(r, final, start, end, pos);
    FixedPartCovers(r, start, end);
    if r.btype == 0 {
      StoredDecodes(pos, r.data, start, end, final);
    } else if r.btype == 1 {
      BlockBitsDecode(1, final, FixedTokens(Block(r.data, start, end)), pos, r.data, start, end);
    } else {
      var ts, points := PartTokens(r, start, end), PartSplits(r, start, end);
      PointsBitsDecode(final, ts, points, |points| + 1, pos, r.data, start, end);
      ReachedIs(points, |ts|, |points|);
      SliceCovers(r.data, ts, start, end, |ts|, |ts|);
    }
  }

  // ---- The bits of the whole input ----

  /** The parts that the input is cut into. */
  function Parts(length: nat): nat {
    if length == 0 then 0 else 1 + (length - 1) / MASTER_BLOCK_SIZE
  }

  function PartStart(i: nat): nat {
    i * MASTER_BLOCK_SIZE
  }

  function PartEnd(length: nat, i: nat): int {
    PartStart(i) + Min(MASTER_BLOCK_SIZE, length - PartStart(i))
  }

  lemma PartsFit(length: nat, i: nat)
    requires i < Parts(length)
    ensures PartStart(i) < PartEnd(length, i) <= length && PartEnd(length, i) - PartStart(i) <= MASTER_BLOCK_SIZE
    ensures if i + 1 < Parts(length) then PartEnd(length, i) == PartStart(i + 1) < length
            else PartEnd(length, i) == length
    ensures PartStart(0) == 0
  {
  }

  lemma PartFits(r: Request, i: nat)
    requires ValidRequest(r) && i < Parts(|r.data|)
    ensures 0 <= PartEnd(|r.data|, i) <= |r.data| && PartOf(r, PartStart(i), PartEnd(|r.data|, i)) && PartStart(0) == 0
    ensures if i + 1 < Parts(|r.data|) then PartEnd(|r.data|, i) == PartStart(i + 1) < |r.data|
            else PartEnd(|r.data|, i) == |r.data|
  {
    PartsFit(|r.data|, i);
    hide Parts, PartStart, PartEnd, ValidRequest;
  }

  /** The bits of the i-th part: final if it is the last. */
  ghost function PartBitsAt(r: Request, i: nat, pos: nat): seq<bit>
    requires ValidRequest(r) && i < Parts(|r.data|)
  {
    PartFits(r, i);
    PartBits(r, i == Parts(|r.data|) - 1, PartStart(i), PartEnd(|r.data|, i), pos)
  }

  /** The bits of the first n parts. */
  ghost function PartsBits(r: Request, n: nat, pos: nat): seq<bit>
    requires ValidRequest(r) && n <= Parts(|r.data|)
  {
    if n == 0 then []
    else
      var z := PartsBits(r, n - 1, pos);
      z + PartBitsAt(r, n - 1, pos + |z|)
  }

  lemma NextPartsBits(r: Request, n: nat, pos: nat)
    requires ValidRequest(r) && n < Parts(|r.data|)
    ensures PartsBits(r, 0, pos) == []
    ensures var z := PartsBits(r, n, pos); PartsBits(r, n + 1, pos) == z + PartBitsAt(r, n, pos + |z|)
    ensures PartOf(r, PartStart(n), PartEnd(|r.data|, n)) && 0 <= PartEnd(|r.data|, n)
    ensures var p := pos + |PartsBits(r, n, pos)|;
            PartBitsAt(r, n, p) == PartBits(r, n == Parts(|r.data|) - 1, PartStart(n), PartEnd(|r.data|, n), p)
  {
    hide Parts, PartStart, PartEnd, ValidRequest, PartBits, PartOf, PartBitsAt;
    PartFits(r, n);
    PartBitsAtIs(r, n, pos + |PartsBits(r, n, pos)|);
  }

  lemma PartBitsAtIs(r: Request, n: nat, pos: nat)
    requires ValidRequest(r) && n < Parts(|r.data|)
    ensures PartOf(r, PartStart(n), PartEnd(|r.data|, n)) && 0 <= PartEnd(|r.data|, n)
    ensures PartBitsAt(r, n, pos) == PartBits(r, n == Parts(|r.data|) - 1, PartStart(n), PartEnd(|r.data|, n), pos)
  {
    hide Parts, PartStart, PartEnd, ValidRequest, PartBits, PartOf;
    PartFits(r, n);
  }

  /** Where the parts after the first n start: at the end of the input if there are no more. */
  function Done(length: nat, n: nat): nat {
    if n < Parts(length) then PartStart(n) else length
  }

  lemma DoneIs(r: Request, n: nat)
    requires ValidRequest(r) && n < Parts(|r.data|)
    ensures Done(|r.data|, n) == PartStart(n) && Done(|r.data|, n + 1) == PartEnd(|r.data|, n)
    ensures Done(|r.data|, 0) == 0 && Done(|r.data|, Parts(|r.data|)) == |r.data|
  {
    PartFits(r, n);
    hide PartStart, PartEnd, ValidRequest, PartOf;
  }

  lemma {:induction false} PartsBitsDecode(r: Request, n: nat, pos: nat)
    requires ValidRequest(r) && n <= Parts(|r.data|) && Parts(|r.data|) > 0
    ensures Decodes(PartsBits(r, n, pos), pos, r.data, 0, Done(|r.data|, n), n == Parts(|r.data|))
    decreases n
  {
    hide *;
    DoneIs(r, 0);
    if n == 0 {
      NextPartsBits(r, 0, pos);
      NothingDecodes(pos, r.data, 0);
    } else {
      PartsBitsDecode(r, n - 1, pos);
      NextPartsBits(r, n - 1, pos);
      DoneIs(r, n - 1);
      var z := PartsBits(r, n - 1, pos);
      var start, end, final := PartStart(n - 1), PartEnd(|r.data|, n - 1), n == Parts(|r.data|);
      PartBitsDecode(r, final, start, end, pos + |z|);
      DecodesJoin(z, PartBits(r, final, start, end, pos + |z|), pos, r.data, 0, start, end, final);
    }
  }

  /** All the bits written for the input: empty input is one empty block. */
  ghost function DeflateBits(r: Request, pos: nat): seq<bit>
    requires ValidRequest(r)
  {
    if |r.data| == 0 then EmptyBlock() else PartsBits(r, Parts(|r.data|), pos)
  }

  function EmptyBlock(): seq<bit> {
    [FinalBit(true)] + (Lsb(1, 2) + Lsb(0, 7))
  }

  lemma DeflateBitsAre(r: Request, pos: nat)
    requires ValidRequest(r)
    ensures DeflateBits(r, pos) == if |r.data| == 0 then EmptyBlock() else PartsBits(r, Parts(|r.data|), pos)
    ensures |r.data| > 0 ==> Parts(|r.data|) > 0
    ensures EmptyBlock() == [FinalBit(true)] + (Lsb(1, 2) + Lsb(0, 7))
  {
    hide PartsBits, ValidRequest, Lsb;
  }

  /** The bits decode to the input, whatever the request, with exactly one final block, the last. */
  lemma DeflateBitsDecode(r: Request, pos: nat)
    requires ValidRequest(r)
    ensures Decodes(DeflateBits(r, pos), pos, r.data, 0, |r.data|, true)
  {
    hide *;
    DeflateBitsAre(r, pos);
    if |r.data| == 0 {
      EmptyDecodes(r.data, pos);
    } else {
      PartsBitsDecode(r, Parts(|r.data|), pos);
      DoneIs(r, 0);
    }
  }

  lemma EmptyDecodes(data: seq<byte>, pos: nat)
    requires |data| == 0
    ensures Decodes([FinalBit(true)] + (Lsb(1, 2) + Lsb(0, 7)), pos, data, 0, 0, true)
  {
    NothingCovered(data, 0);
    hide *;
    EmptyBlockBits(true, pos, data, 0);
    BlockBitsDecode(1, true, [], pos, data, 0, 0);
  }

  // ---- Writing ----

  /** Write the blocks of a dynamic part, the last of them final if the part is. */
  method WriteBlocks(final: bool, store: LZ77Store, points: seq<nat>, lmc: LongestMatchCache, h: Hash, w: BitWriter,
                     ghost a: nat, ghost b: nat)
    requires Parses(store, a, b) && a <= |store.data| && b - a <= MASTER_BLOCK_SIZE
    requires SplitPoints(points, |store.tokens|) && w.Valid() && lmc.Valid()
    requires Covers(store.data, store.tokens, a, b)
    modifies w, lmc, h
    ensures w.Valid() && lmc.Valid()
    ensures w.written == old(w.written)
            + PointsBits(final, store.tokens, points, |points| + 1, |old(w.written)|, store.data, a, b)
  {
    hide *;
    ParseIs(store, a, b);
    ghost var w0, ts := w.written, store.tokens;
    NextPointsBits(final, ts, points, 0, |w0|, store.data, a, b);
    assert w0 + [] == w0;
    for i := 0 to |points| + 1
      invariant w.Valid() && lmc.Valid() && w.written == w0 + PointsBits(final, ts, points, i, |w0|, store.data, a, b)
    {
      ghost var z := PointsBits(final, ts, points, i, |w0|, store.data, a, b);
      NextPointsBits(final, ts, points, i, |w0|, store.data, a, b);
      PointBitsAre(final, ts, points, i, |w0| + |z|, store.data, a, b);
      BoundsAre(points, |ts|, i);
      var start := if i > 0 then points[i - 1] else 0;
      var end := if i < |points| then points[i] else store.size;
      AddLZ77BlockAutoType(i == |points| && final, store, start, end, lmc, h, w, a, b);
      ghost var x := PointBits(final, ts, points, i, |w0| + |z|, store.data, a, b);
      assert w0 + z + x == w0 + (z + x);
    }
  }

  /** Write a part as planned: exactly the bits of that part. */
  method WriteDeflatePartPlan(r: Request, final: bool, plan: Plan, lmc: LongestMatchCache, h: Hash, w: BitWriter,
                              ghost start: nat, ghost end: nat)
    requires PlanFor(plan, r, start, end) && PartOf(r, start, end) && w.Valid() && lmc.Valid()
    modifies w, lmc, h
    ensures w.Valid() && lmc.Valid() && w.written == old(w.written) + PartBits(r, final, start, end, |old(w.written)|)
  {
    hide *;
    PlanIs(plan, r, start, end);
    PartBitsAre(r, final, start, end, |w.written|);
    if plan.btype == 0 {
      AddNonCompressedBlock(final, r.data, plan.instart, plan.inend, w);
    } else if plan.btype == 1 {
      WholeParse(plan.lz77, start, end);
      AddLZ77Block(1, final, plan.lz77, 0, plan.lz77.size, w, start, end);
    } else {
      WriteBlocks(final, plan.lz77, plan.splitPoints, lmc, h, w, start, end);
    }
  }

  lemma WholeParse(store: LZ77Store, a: nat, b: nat)
    requires Parses(store, a, b)
    ensures store.size == |store.tokens| && Position(store.tokens, a, store.size) == b
    ensures Position(store.tokens, a, 0) == a
    ensures store.tokens[0..store.size] == store.tokens
  {
    hide Covers;
    ParseIs(store, a, b);
    CoversSlice(store.data, store.tokens, a, b, 0, 0);
  }

  /** Plan and write one part with new scratch objects. */
  method DeflatePart(r: Request, final: bool, start: nat, end: nat, w: BitWriter, numWorkers: int)
    requires PartOf(r, start, end) && w.Valid()
    modifies w
    ensures w.Valid() && w.written == old(w.written) + PartBits(r, final, start, end, |old(w.written)|)
  {
    hide *;
    var lmc := new LongestMatchCache();
    var h := new Hash();
    var plan := PrepareDeflatePart(r, start, end, numWorkers, lmc, h);
    WriteDeflatePartPlan(r, final, plan, lmc, h, w, start, end);
  }

  /** Write one part after the other. */
  method DeflateParts(r: Request, w: BitWriter, numWorkers: int)
    requires ValidRequest(r) && |r.data| > 0 && w.Valid()
    modifies w
    ensures w.Valid() && w.written == old(w.written) + PartsBits(r, Parts(|r.data|), |old(w.written)|)
  {
    hide *;
    ghost var w0 := w.written;
    var parts := Parts(|r.data|);
    NoPartsBits(r, |w0|);
    assert w0 + [] == w0;
    for i := 0 to parts
      invariant w.Valid() && w.written == w0 + PartsBits(r, i, |w0|)
    {
      ghost var z := PartsBits(r, i, |w0|);
      NextPartsBits(r, i, |w0|);
      PartFits(r, i);
      LastPart(r, i);
      var start, end := PartStart(i), PartEnd(|r.data|, i);
      DeflatePart(r, end == |r.data|, start, end, w, numWorkers);
      ghost var x := PartBitsAt(r, i, |w0| + |z|);
      assert w0 + z + x == w0 + (z + x);
    }
  }

  lemma NoPartsBits(r: Request, pos: nat)
    requires ValidRequest(r)
    ensures PartsBits(r, 0, pos) == []
  {
  }

  /** Two ways to tell the last part. */
  lemma LastPart(r: Request, i: nat)
    requires ValidRequest(r) && i < Parts(|r.data|)
    ensures (PartEnd(|r.data|, i) == |r.data|) == (i == Parts(|r.data|) - 1)
  {
    PartFits(r, i);
    hide ValidRequest, PartOf, Parts, PartStart, PartEnd;
  }

  // ---- Planning parts in batches ----

  ghost predicate PlansFrom(plans: seq<Plan>, r: Request, first: nat)
    reads set k | 0 <= k < |plans| && plans[k].lz77 != null :: plans[k].lz77
  {
    && ValidRequest(r) && first + |plans| <= Parts(|r.data|)
    && forall k :: 0 <= k < |plans| ==> IsPlan(plans[k], r, first + k)
  }

  ghost predicate IsPlan(plan: Plan, r: Request, i: nat)
    requires ValidRequest(r)
    reads plan.lz77
  {
    i < Parts(|r.data|) && PartEnd(|r.data|, i) >= 0 && PlanFor(plan, r, PartStart(i), PartEnd(|r.data|, i))
  }

  lemma IsPlanIs(plan: Plan, r: Request, i: nat)
    requires ValidRequest(r) && i < Parts(|r.data|)
    ensures PartEnd(|r.data|, i) >= 0 && IsPlan(plan, r, i) == PlanFor(plan, r, PartStart(i), PartEnd(|r.data|, i))
  {
    hide PlanFor, Parts, PartStart, PartEnd, ValidRequest, PartOf;
    PartFits(r, i);
  }

  /** Plan one part with scratch objects of its own and a single worker. */
  method PreparePlan(r: Request, i: nat) returns (plan: Plan)
    requires ValidRequest(r) && i < Parts(|r.data|)
    ensures IsPlan(plan, r, i) && (plan.lz77 != null ==> fresh(plan.lz77))
  {
    hide *;
    PartFits(r, i);
    var lmc := new LongestMatchCache();
    var h := new Hash();
    plan := PrepareDeflatePart(r, PartStart(i), PartEnd(|r.data|, i), 1, lmc, h);
    IsPlanIs(plan, r, i);
  }

  /** The slots that are not waiting hold the plans for the parts from number `first` on. */
  ghost predicate PlanSlots(slots: seq<Option<Plan>>, r: Request, first: nat, waiting: set<nat>)
    reads set k | 0 <= k < |slots| && k !in waiting && slots[k].Some?
      && slots[k].value.lz77 != null :: slots[k].value.lz77
  {
    && ValidRequest(r) && first + |slots| <= Parts(|r.data|)
    && forall k :: 0 <= k < |slots| && k !in waiting ==> slots[k].Some? && IsPlan(slots[k].value, r, first + k)
  }

  /** Plan a batch of parts; the tasks may be done in any order. */
  method PreparePlans(r: Request, first: nat, count: nat) returns (plans: seq<Plan>)
    requires ValidRequest(r) && first + count <= Parts(|r.data|)
    ensures |plans| == count && PlansFrom(plans, r, first)
    ensures forall k :: 0 <= k < count && plans[k].lz77 != null ==> fresh(plans[k].lz77)
  {
    hide ValidRequest, IsPlan, PlanFor, Parts, PartOf;
    var slots := seq(count, k => None);
    var waiting := Tasks(count);
    while waiting != {}
      invariant |slots| == count && PlanSlots(slots, r, first, waiting)
      invariant forall k :: k in waiting ==> k < count
      invariant forall k :: 0 <= k < count && k !in waiting && slots[k].value.lz77 != null ==>
                fresh(slots[k].value.lz77)
      decreases waiting
    {
      var offset: nat :| offset in waiting;
      var plan := PreparePlan(r, first + offset);
      slots := slots[offset := Some(plan)];
      waiting := waiting - {offset};
    }
    plans := seq(count, k requires 0 <= k < count && slots[k].Some? => slots[k].value);
  }

  lemma PlanAt(plans: seq<Plan>, r: Request, first: nat, k: nat)
    requires PlansFrom(plans, r, first) && k < |plans|
    ensures ValidRequest(r) && first + k < Parts(|r.data|) && IsPlan(plans[k], r, first + k)
  {
    hide IsPlan, ValidRequest, Parts;
  }

  /** Write the planned parts of a batch in order. */
  method WritePlans(r: Request, plans: seq<Plan>, first: nat, lmc: LongestMatchCache, h: Hash, w: BitWriter,
                    ghost w0: seq<bit>)
    requires PlansFrom(plans, r, first) && ValidRequest(r) && first + |plans| <= Parts(|r.data|)
    requires w.Valid() && lmc.Valid() && w.written == w0 + PartsBits(r, first, |w0|)
    modifies w, lmc, h
    ensures w.Valid() && lmc.Valid() && w.written == w0 + PartsBits(r, first + |plans|, |w0|)
  {
    hide *;
    var parts := Parts(|r.data|);
    for k := 0 to |plans|
      invariant w.Valid() && lmc.Valid() && PlansFrom(plans, r, first)
      invariant w.written == w0 + PartsBits(r, first + k, |w0|)
    {
      var i := first + k;
      ghost var z := PartsBits(r, i, |w0|);
      PlanAt(plans, r, first, k);
      NextPartsBits(r, i, |w0|);
      IsPlanIs(plans[k], r, i);
      assert forall j :: 0 <= j < |plans| && plans[j].lz77 != null ==> allocated(plans[j].lz77);
      WriteDeflatePartPlan(r, i == parts - 1, plans[k], lmc, h, w, PartStart(i), PartEnd(|r.data|, i));
      ghost var x := PartBitsAt(r, i, |w0| + |z|);
      assert w0 + z + x == w0 + (z + x);
    }
  }

  /** Plan as many parts at a time as there are workers, and write them in order. */
  method DeflateBatches(r: Request, w: BitWriter, workers: nat)
    requires ValidRequest(r) && |r.data| > 0 && w.Valid() && workers > 0
    modifies w
    ensures w.Valid() && w.written == old(w.written) + PartsBits(r, Parts(|r.data|), |old(w.written)|)
  {
    hide *;
    ghost var w0 := w.written;
    var parts := Parts(|r.data|);
    NoPartsBits(r, |w0|);
    assert w0 + [] == w0;
    var lmc := new LongestMatchCache();
    var h := new Hash();
    var batchStart := 0;
    while batchStart < parts
      invariant 0 <= batchStart <= parts && w.Valid() && lmc.Valid() && w.written == w0 + PartsBits(r, batchStart, |w0|)
      decreases parts - batchStart
    {
      var batchSize := Min(workers, parts - batchStart);
      var plans := PreparePlans(r, batchStart, batchSize);
      WritePlans(r, plans, batchStart, lmc, h, w, w0);
      batchStart := batchStart + batchSize;
    }
  }

  /** Compress the input: what is written depends on the request alone, for any number of workers. */
  method DeflateInto(r: Request, w: BitWriter, numWorkers: int)
    requires ValidRequest(r) && w.Valid()
    modifies w
    ensures w.Valid() && w.written == old(w.written) + DeflateBits(r, |old(w.written)|)
  {
    hide *;
    DeflateBitsAre(r, |w.written|);
    if |r.data| == 0 {
      AddEmptyBlock(true, w);
      return;
    }
    var workers := CompressionWorkers(r.options, numWorkers, Parts(|r.data|));
    if workers == 1 {
      DeflateParts(r, w, numWorkers);
    } else {
      DeflateBatches(r, w, workers);
    }
  }

  // ---- The stream as bytes ----

  /** Any bytes that hold the written bits inflate to the input. */
  lemma StreamInflates(r: Request, out: seq<byte>, bp: nat)
    requires ValidRequest(r) && Packs(out, bp, DeflateBits(r, 0))
    ensures Inflate.Inflate(out) == Some(r.data)
  {
    hide *;
    DeflateBitsDecode(r, 0);
    DecodedStream(out, bp, DeflateBits(r, 0), r.data);
  }

  /** Bits that decode at the start of a stream, padded to whole bytes, inflate to the data. */
  lemma DecodedStream(out: seq<byte>, bp: nat, z: seq<bit>, data: seq<byte>)
    requires Packs(out, bp, z) && Decodes(z, 0, data, 0, |data|, true)
    ensures Inflate.Inflate(out) == Some(data)
  {
    PadLastByte(out, bp, z);
    PackedLength(out, bp, z);
    var zeros := seq((8 - bp) % 8, i => 0);
    assert BytesBits(out) == z + zeros;
    AtStart(z, zeros);
    hide InflateBlocks, BytesBits, Packs, At;
    assert data[..|data|] == data && data[..0] == [];
  }

  lemma AtStart(x: seq<bit>, y: seq<bit>)
    ensures At(x + y, 0, x)
  {
  }

  /** The bytes and the fill of the last one are determined by the bits they hold. */
  lemma {:induction false} OneStream(out: seq<byte>, bp: nat, out': seq<byte>, bp': nat, z: seq<bit>)
    requires Packs(out, bp, z) && Packs(out', bp', z)
    ensures out == out' && bp == bp'
  {
    hide *;
    PackedLength(out, bp, z);
    PackedLength(out', bp', z);
    PadLastByte(out, bp, z);
    PadLastByte(out', bp', z);
    PackedWhole(out, z + seq((8 - bp) % 8, i => 0));
    PackedWhole(out', z + seq((8 - bp) % 8, i => 0));
    SameBytes(out, out');
  }

  lemma PackedWhole(out: seq<byte>, z: seq<bit>)
    requires Packs(out, 0, z)
    ensures BytesBits(out) == z
  {
    hide BytesBits;
  }

  lemma {:induction false} SameBytes(s: seq<byte>, t: seq<byte>)
    requires BytesBits(s) == BytesBits(t)
    ensures s == t
  {
    if |s| > 0 && |s| == |t| {
      var x, y := BytesBits(s[..|s| - 1]), BytesBits(t[..|t| - 1]);
      var u, v := Lsb(s[|s| - 1], 8), Lsb(t[|t| - 1], 8);
      assert (x + u)[..|x|] == x && (y + v)[..|y|] == y && (x + u)[|x|..] == u && (y + v)[|y|..] == v;
      SameBytes(s[..|s| - 1], t[..|t| - 1]);
      BytePower();
      LsbRoundTrip(s[|s| - 1], 8);
      LsbRoundTrip(t[|t| - 1], 8);
      assert s == s[..|s| - 1] + [s[|s| - 1]] && t == t[..|t| - 1] + [t[|t| - 1]];
    }
  }

  /** The stream for a request: the bytes are determined by the request alone, and any inflater turns
      them back into the input. */
  method DeflateStream(r: Request, numWorkers: int) returns (out: seq<byte>, bp: nat)
    requires ValidRequest(r)
    ensures Packs(out, bp, DeflateBits(r, 0)) && Inflate.Inflate(out) == Some(r.data)
  {
    hide *;
    var w := new BitWriter();
    DeflateInto(r, w, numWorkers);
    assert [] + DeflateBits(r, 0) == DeflateBits(r, 0);
    out, bp := w.out, w.bp;
    PackedIs(w);
    StreamInflates(r, out, bp);
  }

  lemma PackedIs(w: BitWriter)
    requires w.Valid()
    ensures Packs(w.out, w.bp, w.written)
  {
  }

  /** The bytes of the stream for a request. */
  ghost predicate IsStream(out: seq<byte>, r: Request)
    requires ValidRequest(r)
  {
    exists bp: nat :: Packs(out, bp, DeflateBits(r, 0))
  }

  /** Parallel and serial output are the same: there is only one stream for a request. */
  lemma ParallelMatchesSerial(out: seq<byte>, out': seq<byte>, r: Request)
    requires ValidRequest(r) && IsStream(out, r) && IsStream(out', r)
    ensures out == out' && Inflate.Inflate(out) == Some(r.data)
  {
    hide Packs, DeflateBits, ValidRequest, Inflate.Inflate;
    var bp: nat :| Packs(out, bp, DeflateBits(r, 0));
    var bp': nat :| Packs(out', bp', DeflateBits(r, 0));
    OneStream(out, bp, out', bp', DeflateBits(r, 0));
    StreamInflates(r, out, bp);
  }

  function DefaultOptions(): Options {
    Options(false, false, 15, true, 15)
  }

  /** What is compressed when users ask for a raw stream: without options the default ones are taken,
      and there is always at least one iteration. */
  function RequestFor(options: Option<Options>, data: seq<byte>, models: Oracle): Request {
    var opt := if options.Some? then options.value else DefaultOptions();
    Request(if opt.numIterations <= 0 then opt.(numIterations := 1) else opt, 2, data, models)
  }

  lemma RequestForValid(options: Option<Options>, data: seq<byte>, models: Oracle)
    requires ValidOracle(models)
    ensures ValidRequest(RequestFor(options, data, models)) && RequestFor(options, data, models).data == data
  {
    hide ValidOracle;
  }

  /** What users call: the output inflates to the data, and the number of workers does not change it. */
  method Compress(options: Option<Options>, data: seq<byte>, numWorkers: int, models: Oracle) returns (out: seq<byte>)
    requires ValidOracle(models)
    ensures ValidRequest(RequestFor(options, data, models)) && IsStream(out, RequestFor(options, data, models))
    ensures Inflate.Inflate(out) == Some(data)
  {
    var opt := DefaultOptions();
    if options.Some? {
      opt := options.value;
    }
    if opt.numIterations <= 0 {
      opt := opt.(numIterations := 1);
    }
    var r := Request(opt, 2, data, models);
    assert r == RequestFor(options, data, models);
    hide *;
    RequestForValid(options, data, models);
    var bp;
    out, bp := DeflateStream(r, numWorkers);
    StreamIs(out, bp, r);
  }

  lemma StreamIs(out: seq<byte>, bp: nat, r: Request)
    requires ValidRequest(r) && Packs(out, bp, DeflateBits(r, 0))
    ensures IsStream(out, r)
  {
    hide Packs, DeflateBits, ValidRequest;
  }
}
