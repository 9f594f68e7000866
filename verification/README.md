# A verified model of the Zopfli compressor

This project models the compressor of the repository, a pure Go Zopfli: an encoder of raw deflate
streams (RFC 1951) that spends time to find small ones. The model follows the Go code function by
function: what the code does by changing buffers and objects in place is done here by methods on
arrays and classes, each proved against a specification function, and the lemmas say what these
functions mean.

What is proved, in one sentence: for every input, every option setting, every block type, every number
of workers, whatever order they finish in and whatever their reused scratch objects hold, the bytes
written are a function of the input, the options and the cost models alone, and a small decoder written
after RFC 1951 turns them back into the input, ending exactly where they end.

Below that result stand the layers, each with properties of its own:

- Code lengths: boundary package-merge over a pool of nodes refines plain package-merge; the lengths
  are optimal among all prefix codes within the limit, complete, and the pool never runs out.
- Matches: the two circular hash chains only lead to inserted positions of the window and pass over
  none with the same hash value; every reported distance is that of a true match, and among the last
  8192 positions no match of three or more bytes is longer than the one found, nor nearer than the
  distance recorded for its length; searching again for a shorter length finds that distance. The cache of matches is an encoding of them within a budget, and everything computed
  from it is the same with a complete, a partial or no cache.
- Parses: the greedy parse and both shortest-path parses are lossless; the greedy parse is the one in
  which every token is the choice that the matches at its byte and the next one dictate; the parse for
  the fixed code is the cheapest there is for the matches found, and so is the one under any cost model
  where the shortcut through long runs is not taken; costs are counts of symbols times what these cost.
- Bits: canonical codes, the run-length coded header, block bodies and stored blocks are decoded back,
  and predicted sizes are the sizes; the header's run-length coding is greedy; smoothing turns the
  counts, stretch by stretch, into rounded averages and nothing else.
- Blocks: splitting ends for any cost function, with points in order and inside; every split pays when
  it is made, and splitting stops where none pays; the parts and blocks cover the input without gaps,
  and a dynamic stream is never much larger than storing the input.

## Modules

`Prelude`, `Bits`, `PrefixCode`, `Inflate` and `Tokens` hold the common ground: bit strings,
canonical codes, the decoder, and what tokens stand for. `PackageMerge`,
`LeafOrder`, `HuffmanLengths` and `Katajainen` are katajainen.go; `Symbols` and `SymbolTables` are symbols.go; `Tree` is tree.go; `HashChain`,
`HashValues` and `ChainLinks` are hash.go; `MatchSearch`, `MatchFinder`, `Nearest`, `Histogram`, `Store`,
`Parse`, `Greedy` and `GreedyChoice` are lz77.go; `Runs` and `MatchCache` are cache.go; `LongRuns`,
`ShortestPath`, `BlockGraph`, `CodeCosts`, `Relax`, `Squeeze`, `Shortcut`, `Path` and `Optimal` are
squeeze.go; `BlockSplitter` and `SplitChoice` are blocksplitter.go; `TreeCode`, `TreeRuns`, `TreeWriter`,
`Smoothing`, `Stretches`, `DynamicLengths`, `Blocks`, `BlockSize`, `BlockWriter`, `Deflate` and
`OutputSize` are deflate.go, `Deflate` together with the raw deflate entry point of zopfli.go.

`HashValues`, `ChainLinks`, `Nearest`, `GreedyChoice`, `CodeCosts`, `Shortcut`, `SplitChoice`, `TreeRuns`,
`Stretches` and `OutputSize` hold no code of their own: they say what the specification functions of the
other modules mean, in terms of the data, the matches, the symbols and the costs alone.

## Reading the code

- `Decodes(bits, pos, data, a, b, final)` is the meaning of written bits: wherever they stand in a
  stream at position `pos`, inflating them appends data[a..b], and ends there exactly if `final`.
- `Covers(data, ts, a, b)` says that the tokens stand for data[a..b]: every literal is the byte there,
  and every match copies equal bytes from inside what is already there.
- `MatchOf(b, pos)` is the full search at a position of a block, from the hash state that inserting all
  positions of the window up to it leads to; `SubOf` lists the distances for the shorter lengths.
- `GraphOf(b)` has a step for the literal at each byte and one for each length that its match offers;
  tables of cells are the `costs` and `lengthArray` of squeeze.go.
- `HashAt(data, ws, end, n)` is the state of the hash after a reset, the warm-up and the insertion of
  positions ws to n - 1.
- `Request` bundles what the output depends on; `Oracle` is the part of it that stands for statistics:
  a function from a block's earlier parses to the costs for the next one.

## Observations about the code

- deflate.go:566-568, the fixed block without a second parse, is never reached: without the second
  parse the fixed block costs more than 1.1 times the dynamic one. The model has `assert false` there.
- A header can describe codes that strict decoders refuse, a distance code of a single word for example.
  `TreeCode.ReadHeader` says exactly which; `DynamicLengths.BestPairServes` shows that the compressor,
  thanks to the patch of deflate.go:54-74, never writes one for a nonempty block.
- The cache of a block is complete exactly if all its matches' runs fit the budget
  (`MatchFinder.BuildLongestMatchCacheWithRunBudget`): `built` and `runBudgetExceeded` are opposites
  after building.
- Leaving the first hash chain for the second one, which also tells apart how long a run of equal bytes
  is, loses no match: before a candidate with a longer run there is always a nearer one that does as
  well (`Nearest.SteadyBefore`), so `Nearest.SearchMissesNothing` needs no condition on runs.
- The last block is taken to end before the last token when it is considered again
  (blocksplitter.go:120), so what a split saves is known for the range that was searched, not for the
  blocks of the result: `SplitChoice.EverySplitPays` names both ends that a range can have.

## Model

| member | source | states |
|---|---|---|
| Deflate.Compress | zopfli.go:56-77 | The raw deflate output for any options, none included, inflates to the data, and is the one stream of its request, for any number of workers. |
| Deflate.DeflateStream | zopfli.go:70-73 | The bytes of a fresh writer hold exactly the bits of the request and inflate to its data. |
| Deflate.ParallelMatchesSerial | zopfli.go:45-54 | Any two streams for the same request are equal, so parallel output is serial output. |
| Deflate.StreamInflates | deflate.go:16-18 | Any bytes that hold the request's bits, the last byte filled with zeros, inflate to the input. |
| Deflate.OneStream | deflate.go:16-52 | Bytes and bit position are determined by the bits written. |
| Deflate.DeflateBitsDecode | deflate.go:754-797 | The bits for any request decode, at any position, to the whole input, with one final block, which is the last. |
| Deflate.DeflateInto | deflate.go:754-797 | Appends exactly the bits of the request, for the empty input, for one worker and for several. |
| Deflate.DeflateParts | deflate.go:765-774 | Serial: appends the bits of all master blocks, the last of them final. |
| Deflate.DeflateBatches | deflate.go:776-796 | Parallel: batches of plans, written in order, append the same bits. |
| Deflate.PreparePlans | deflate.go:777-790 | Whatever order the tasks are done in, every slot gets the plan of its part. |
| Deflate.WritePlans | deflate.go:791-795 | Writing a batch in order appends the bits of its parts; the part before the end of the input is the final one. |
| Deflate.DeflatePart | deflate.go:748-752 | Appends the bits of one part. |
| Deflate.WriteDeflatePartPlan | deflate.go:723-746 | Appends exactly the bits of the planned part: stored, fixed, or block after block between split points. |
| Deflate.PartBitsDecode | deflate.go:723-746 | Whatever the type, the costs and the split points, a part's bits decode to its bytes. |
| Deflate.PointsBitsDecode | deflate.go:734-745 | For any split points, the blocks written so far decode to the bytes before the next block, and only the last can be final. |
| Deflate.PrepareDeflatePart | deflate.go:639-721 | The plan has the tokens and split points that its part determines, for any number of workers and any scratch contents. |
| Deflate.ParseBlocks | deflate.go:659-681 | The blocks' parses, one after the other, are the part's tokens, with their ends as split points and their sizes added up. |
| Deflate.ParseBlocksInBatches | deflate.go:682-701 | Parsing in batches gives the same tokens, split points and total. |
| Deflate.OptimizeSplitBlockBatch | deflate.go:598-629 | Any worker may do any waiting task, in any order, with reused scratch: each slot gets the parse of its block. |
| Deflate.JobCovers | deflate.go:659-681 | The first n blocks' tokens stand for the bytes up to the end of block n. |
| Deflate.FinalSplitsValid | deflate.go:702-719 | Whichever split is kept, its points are inside the tokens in order, and the tokens stand for the part. |
| Deflate.SplitAgain | deflate.go:702-719 | A second split replaces the first exactly if there were several blocks and it is predicted to be smaller. |
| OutputSize.SplitsNeverWorse | deflate.go:702-719 | The split points kept are never predicted to be worse than those between the blocks as parsed, and these are kept only if the second split is not predicted to be smaller. |
| OutputSize.NeverExpands | deflate.go:754-797 | A dynamic stream takes at most 42 bits for each block and 40 for each part more than storing the input, and no part has more blocks than the limit. |
| Deflate.CompressionWorkers | deflate.go:579-584 | At least one worker, at most four, and no more than tasks or than asked for; one for a single task and for verbose output; fewer than all these bounds only for verbose output. |
| BlockWriter.AddLZ77BlockAutoType | deflate.go:530-572 | Appends the block of the type with the smallest predicted size; a fixed block may get a parse of its own. |
| BlockWriter.AutoBitsDecode | deflate.go:530-572 | Whatever the sizes make of it, the chosen bits decode to the bytes that the tokens stand for. |
| BlockWriter.AutoBitsSize | deflate.go:530-572 | A nonempty block never takes more than 2 bits above its stored size, nor more than 1 above its size as a dynamic block and, where one is parsed, as a fixed block with a parse of its own. |
| BlockWriter.AddLZ77Block | deflate.go:490-528 | Appends exactly the block of the given type. |
| BlockWriter.BlockBitsDecode | deflate.go:490-528 | A stored, fixed or dynamic block decodes to the bytes that its tokens stand for, at any bit offset. |
| BlockWriter.BlockBitsSize | deflate.go:416-441 | Compressed blocks take exactly the predicted bits; nonempty stored ones between 5 fewer and 2 more. |
| BlockWriter.FixedParseSize | squeeze.go:547-575 | The cheapest parse for the fixed code, written as a fixed block, takes the cost found for it and 10 bits. |
| BlockWriter.AddLZ77Data | deflate.go:216-236 | Appends the code words and extra bits of the tokens, in order. |
| BlockWriter.AddNonCompressedBlock | deflate.go:460-488 | Appends stored blocks of at most 65535 bytes, only the last of them final. |
| Blocks.StoredDecodes | deflate.go:460-488 | Stored blocks decode to their bytes at any bit offset. |
| Blocks.StoredSize | deflate.go:416-426 | Stored data takes at most 2 bits more and 5 fewer than predicted, and exactly as many at a byte boundary. |
| BlockSize.CalculateBlockSize | deflate.go:416-441 | The predicted size, from the tokens alone: stored from their bytes, fixed and dynamic from their codes. |
| BlockSize.CalculateBlockSizeAutoType | deflate.go:443-458 | The smallest of the three sizes, without the fixed one in large stores. |
| BlockSize.AutoCostIsLeast | deflate.go:443-458 | That size is one of those considered, and none of them is smaller. |
| BlockSize.GetFixedTree | deflate.go:238-254 | The fixed code lengths of section 3.2.6 of RFC 1951. |
| DynamicLengths.GetDynamicLengths | deflate.go:400-414 | The code pair that is kept for the tokens, and its exact size. |
| DynamicLengths.BestPairServes | deflate.go:369-414 | Whichever pair is kept for a nonempty block: both codes are complete, and every symbol used has a code word. |
| DynamicLengths.BestPairIsSmaller | deflate.go:369-398 | The pair kept is that of the counts or that of the smoothed counts, and neither of the two gives a smaller block. |
| DynamicLengths.TryOptimizeHuffmanForRLE | deflate.go:369-398 | Returns that pair and its size. |
| DynamicLengths.PatchedComplete | deflate.go:54-74 | However few distances are used, the patched distance code has Kraft sum 1 and still serves them. |
| DynamicLengths.PatchDistanceCodesForBuggyDecoders | deflate.go:54-74 | In place, gives two distance symbols one bit each where fewer than two had any, and nothing else. |
| DynamicLengths.CalculateBlockSymbolSize | deflate.go:256-302 | The scan of short blocks and the histogram of long ones both give the size of the tokens and the end of the block. |
| DynamicLengths.TokensSizeIs | deflate.go:256-272 | The predicted size of tokens is the number of bits they are written with. |
| DynamicLengths.HistSize | deflate.go:274-292 | The weighted histogram adds up to the size of the tokens. |
| Smoothing.OptimizeHuffmanForRLE | deflate.go:304-367 | In place, the counts become the smoothed ones, which `Stretches.SmoothedIs` characterizes. |
| Smoothing.SmoothedKeeps | deflate.go:304-367 | No nonzero count becomes zero, and trailing zeros stay. |
| Stretches.SmoothedIs | deflate.go:304-367 | Counts are the smoothed ones exactly if the zeros at the end stay and the counts before fall into stretches, each as long as its counts are within 3 of its limit and no long run begins, that become their average, rounded and 1 at least, if four or more and not all zero. |
| Stretches.LongRunsStay | deflate.go:320-336 | Each count of five or more zeros, or seven or more equal others, in a row stays, but for the last one. |
| TreeWriter.EncodeTree | deflate.go:76-190 | For any of the eight settings, appends exactly the header's bits, or counts them. |
| TreeWriter.AddDynamicTree | deflate.go:192-203 | Appends the header of the smallest setting. |
| TreeWriter.CalculateTreeSize | deflate.go:205-214 | The size of that header. |
| TreeWriter.BestIsSmallest | deflate.go:192-214 | No other of the first n settings gives a smaller header, and none before it one as small. |
| TreeWriter.HeaderIsSmallest | deflate.go:192-214 | Whichever repeat symbols are allowed, the header is no smaller than the one written. |
| TreeWriter.HeaderSizeIs | deflate.go:182-189 | The header size summed up from symbol counts is the number of bits written. |
| TreeCode.ReadHeaderLengths | deflate.go:76-190 | For any code lengths up to 15, complete codes or not, and each of the eight settings, decoding the header by section 3.2.7 of RFC 1951 gives back both codes' lengths without trailing zeros, with repeats across the border between them. |
| TreeCode.ReadHeader | deflate.go:76-190 | For the same lengths, a strict decoder takes the header exactly if both codes without trailing zeros are complete and the end of block has a word; the code length code is never an obstacle. |
| TreeCode.HeaderUnrolls | deflate.go:92-154 | The run-length symbols chosen for a header mean its lengths, for every setting. |
| TreeRuns.HeaderIsGreedy | deflate.go:92-154 | Each symbol of the header covers as many lengths as any symbol that may stand in its place, for every setting. |
| TreeCode.CodeLengthCodeFits | deflate.go:155-158 | The code length code is complete and has a word for every symbol that occurs. |
| Tree.LengthsToSymbols | tree.go:3-33 | Every used symbol gets its canonical code of section 3.2.2 of RFC 1951, every other 0. |
| PrefixCode.CodeInRange | tree.go:3-33 | Every canonical code of lengths with Kraft sum at most 1 fits its length. |
| PrefixCode.PrefixFree | tree.go:3-33 | Two symbols whose code words begin the same bit string are the same symbol. |
| Tokens.DecodeTokens | deflate.go:216-236 | Decoding the coded tokens and the end-of-block symbol expands exactly the tokens. |
| Tokens.ExpandCovers | lz77.go:234-242 | Expanding tokens that stand for data[a..b] after data[..a] gives data[..b]. |
| Symbols.DistDecodes | symbols.go:104-114 | Every distance in the window is its symbol's base plus the extra value, which fits the extra bits. |
| SymbolTables.LengthSymbolTable | symbols.go:46-79 | The literal table holds the closed form of the length symbol, for all 259 lengths. |
| SymbolTables.LengthExtraBitsTable | symbols.go:12-29 | So does the table of the numbers of extra bits. |
| SymbolTables.LengthExtraValueTable | symbols.go:31-44 | So does the table of their values. |
| SymbolTables.FillDistances | symbols.go:85-90 | The three tables filled at start-up hold the code of every distance in the window. |
| SymbolTables.FillRunEnds | symbols.go:91-101 | And for every length the last one with the same symbol. |
| Symbols.LengthDecodes | symbols.go:140-154 | Every length is its symbol's base plus the extra value, which fits the extra bits. |
| Bits.BitWriter.AddBit | deflate.go:24-30 | One bit more is packed, whether or not the last byte is full. |
| Bits.BitWriter.AddBits | deflate.go:32-41 | Appends the low bits of a number, least significant first. |
| Bits.BitWriter.AddHuffmanBits | deflate.go:43-52 | Appends a code word, most significant bit first. |
| Bits.BitWriter.AddBytes | deflate.go:482 | Whole bytes at a byte boundary append their bits. |
| Bits.PadLastByte | deflate.go:477 | Dropping the bit position amounts to appending zero bits. |
| Katajainen.LengthLimitedCodeLengths | katajainen.go:210-240 | Fails exactly if the symbols do not fit the limit; otherwise writes the code lengths specified, and touches nothing else. |
| HuffmanLengths.LengthsOptimal | katajainen.go:194-240 | No prefix code for the used symbols within the limit has a smaller total cost. |
| HuffmanLengths.LengthsComplete | katajainen.go:194-240 | With two or more used symbols that fit, Kraft's sum is exactly 1. |
| HuffmanLengths.LengthsInRange | katajainen.go:210-240 | Used symbols, and only those, get a length between 1 and the limit. |
| HuffmanLengths.LengthsFeasible | katajainen.go:210-240 | For any number of used symbols that fit, Kraft's sum is at most 1. |
| HuffmanLengths.FrequentIsShort | katajainen.go:84-107 | A strictly more frequent symbol never gets a longer code. |
| Katajainen.BoundaryPM | katajainen.go:35-56 | Keeps every level of the pool an initial stretch of plain package-merge's level, with two lookahead items below each. |
| Katajainen.BoundaryPMFinal | katajainen.go:58-71 | The last chain, also when its tail is changed in place, is the chain of plain package-merge's solution. |
| Katajainen.InitLists | katajainen.go:73-82 | Every level starts with the two lightest leaves. |
| Katajainen.RoomForOne | katajainen.go:23-27 | As long as a level may grow, a pool of 2 * maxBits * n nodes has a free one. |
| Katajainen.CollectCounts | katajainen.go:84-98 | Walking the final chain yields the number of leaves at every depth. |
| Katajainen.InsertionSortLeaves | katajainen.go:135-144 | Sorts the leaves in place by weight, ties by symbol. |
| LeafOrder.SortUnique | katajainen.go:119-164 | There is only one ascending order of the leaves, so any sorting routine gives it. |
| PackageMerge.LeafDepthsOptimal | katajainen.go:35-107 | The depths of the solution's leaves cost no more than any prefix code with lengths up to the limit. |
| PackageMerge.KraftEquality | katajainen.go:35-107 | The leaf counts at all depths make Kraft's sum 1. |
| PackageMerge.NoStaleItems | katajainen.go:37-39 | If the symbols fit the limit, the stale pair at the bottom is no part of the solution. |
| PackageMerge.PackageWithinLeaves | katajainen.go:47-55 | A package placed before a leaf holds no leaf from that one on. |
| PackageMerge.LookaheadFits | katajainen.go:52-54 | No level asks the one below for more than 2n - 2 items. |
| HashChain.Hash.Update | hash.go:81-126 | Inserting the next position leads from the state specified for the positions before to the next one. |
| HashChain.Hash.Warmup | hash.go:128-133 | After a reset, primes the hash value with up to two bytes. |
| HashChain.Hash.Reset | hash.go:61-75 | Whatever the buffers held before: two empty chains and no run lengths. |
| HashChain.HashAtOk | hash.go:61-133 | After any consecutive insertions all links lead to inserted positions inside the window, and run lengths are the equal-byte runs, capped. |
| HashValues.EqualValues | hash.go:77-133 | Two inserted positions with the same three bytes have the same hash value, the first two of the window included. |
| ChainLinks.HashAtChained | hash.go:81-126 | After any consecutive insertions, heads and links of both chains pass over no position of the window with the same hash value, and every slot holds the values of its latest position. |
| MatchSearch.SearchChains | lz77.go:318-397 | The loop, with its switch of chains, its hit counter and its shortcut through runs, is the search specified. |
| MatchSearch.SearchAllSound | lz77.go:318-397 | Every distance reported, for the length found and all shorter ones, is that of a true match inside the window. |
| MatchSearch.LimitedSearch | lz77.go:318-397 | Searching again from the same state with any limit from 2 on finds the same match if that is shorter, and otherwise exactly the limit, at the distance recorded for it; shorter lengths get the same distances. |
| Nearest.SearchMissesNothing | lz77.go:318-397 | For every match of three or more bytes anywhere in the window, unless more than 8192 positions on the way have one of the two hash values: the search finds its length or more, and records for its length a distance no larger. |
| Nearest.NothingLonger | lz77.go:338-395 | The common length at any of the last 8192 distances, from three bytes on, is at most the length found. |
| MatchSearch.GetMatch | lz77.go:244-255 | Comparing eight bytes at a time counts the equal bytes. |
| MatchFinder.MatchesAreTrue | lz77.go:318-397 | Every length that a position's match offers is a true match inside block and window, at 1 <= dist <= pos. |
| Nearest.NearestMatch | lz77.go:318-397 | A position's match is the longest one among the last 8192 positions, and the distance recorded for each length is no larger than that of any match of this length there. |
| MatchFinder.FindLongestMatch | lz77.go:318-397 | For any limit from 3 to 258, the position's match cut at the limit, at the distance for its length, and the distances of all shorter lengths, whether from the cache or by a search; and exactly how the cache fills. |
| MatchFinder.TryGetFromCache | lz77.go:257-287 | Answers exactly if the entry is complete and either distances are wanted or the match is within the limit, with what a search under that limit would find. |
| MatchFinder.StoreInCache | lz77.go:310-316 | Stores full searches that recorded distances, and nothing else. |
| MatchFinder.BuildLongestMatchCacheWithRunBudget | lz77.go:403-440 | The cache becomes that of the block; it is complete exactly if the block's runs fit the budget. |
| MatchCache.LongestMatchCache.EnsureRunCapacity | cache.go:122-144 | Room for any number of runs is made exactly if the budget allows it; the arena never outgrows it. |
| MatchCache.LongestMatchCache.StoreRunsFromSublen | cache.go:159-190 | All runs are appended if they fit the budget, none otherwise; earlier runs stay. |
| MatchCache.LongestMatchCache.StoreMatch | cache.go:198-226 | An entry is stored once: empty, complete or incomplete, depending on length, distances and budget; all other entries stand. |
| MatchCache.LongestMatchCache.CachedLongestMatch | cache.go:228-233 | A complete entry yields its distance, length and run length. |
| MatchCache.LongestMatchCache.CachedSublenRuns | cache.go:235-240 | A complete entry yields the runs of its distances. |
| MatchCache.LongestMatchCache.CachedDistanceForLength | cache.go:242-257 | For any length from 3 to the entry's, the distance that the search recorded for it. |
| MatchCache.LongestMatchCache.CacheToSublen | cache.go:259-276 | Decodes the distances of all lengths up to any given one, and touches no others. |
| MatchCache.LongestMatchCache.CompactSublen | cache.go:278-294 | Copies the runs of a complete entry into eight slots exactly if they fit, for any length from 3 on, and fills up the rest. |
| MatchCache.LongestMatchCache.InitWithRunBudget | cache.go:51-88 | Whatever the buffers held: all entries unfilled, the arena empty, the budget set. |
| MatchCache.StandsAfterStore | cache.go:198-226 | Storing one entry keeps what all others stand for. |
| Runs.RunsDecode | cache.go:159-276 | Decoding the runs gives back the distance of every length that was encoded. |
| Histogram.AddSymbol | lz77.go:100-138 | Counting one more symbol, in a new chunk where needed, keeps the cumulative counts right. |
| Histogram.HistogramAt | lz77.go:158-171 | The counts of all symbols up to one, from its chunk's counts less what follows in the chunk. |
| Store.LZ77Store.StoreLitLenDist | lz77.go:117-138 | One more token, with its position, symbols and counts. |
| Store.LZ77Store.AppendStore | lz77.go:140-145 | The other store's tokens and positions follow, and the counts stay right. |
| Store.LZ77Store.ByteRange | lz77.go:147-156 | The bytes that the tokens stand for, if each starts where the one before ends; in any case the last end less the first start. |
| Store.LZ77Store.GetHistogram | lz77.go:173-201 | For every range, by a scan or from cumulative counts, how often each symbol occurs in it. |
| Greedy.Lz77Greedy | lz77.go:442-539 | The tokens appended are those of the greedy parse, with a complete, a partial or no cache. |
| Greedy.GreedyCovers | lz77.go:442-539 | From any state of the parser the rest of its tokens stands for exactly the rest of the block. |
| Greedy.NeverPendingAtEnd | lz77.go:469-539 | No match is deferred beyond the end of the block. |
| Greedy.StepCovers | lz77.go:471-538 | Every round goes on, and its tokens stand for the bytes that it settles. |
| GreedyChoice.GreedyChooses | lz77.go:442-539 | A sequence of tokens is the greedy parse exactly if every token is the choice at its byte: the longest match there if it is worth it and of length 258 or not beaten by the next byte's, else the literal. |
| GreedyChoice.GreedyToken | lz77.go:227-232 | A match token is the longest match at its byte, and of length 4 or more beyond distance 1024; a literal where that match would do is followed by one longer by two, or by one if it is from beyond 1024. |
| LongRuns.RunMatch | squeeze.go:185-211 | In the middle of a long run the search finds length 258 at distance 1, and distance 1 for all shorter lengths. |
| ShortestPath.StatSound | squeeze.go:170-287 | With the shortcut every cell ends up written, by an allowed step of length at least 1 from a written cell, at that cell's cost and the step's. |
| CodeCosts.CodeCost | squeeze.go:235-239 | Under the lengths of any two codes a valid token costs exactly the number of bits it takes. |
| CodeCosts.CostBySymbols | squeeze.go:213-286 | Under any costs, the costs of tokens add up to the counts of their symbols times the symbols' costs and extra bits. |
| Shortcut.OnlyLongestStart | squeeze.go:185-211 | From the first byte deep in a long run, no step of the table but those of the longest matches starts at any of the next 258 bytes, whatever the costs. |
| ShortestPath.JumpedSound | squeeze.go:185-211 | The shortcut keeps the table sound although it tries nothing but the longest matches. |
| ShortestPath.TracedPath | squeeze.go:387-403 | Tracing a sound table back ends at the start, and the path costs what the table says. |
| ShortestPath.PlainOptimal | squeeze.go:291-385 | Without the shortcut the last cost is the least of all paths, and tracing back gives such a path. |
| BlockGraph.PathCovers | squeeze.go:405-450 | Every path of literals and offered lengths stands for exactly its bytes. |
| BlockGraph.GraphInRun | squeeze.go:185-211 | Wherever the shortcut goes, the step it takes is allowed. |
| Relax.RelaxLengthSegment | squeeze.go:84-94 | Relaxes lengths of one cost. |
| Relax.RelaxFixedLengthRanges | squeeze.go:112-126 | Relaxing one length symbol at a time equals relaxing length by length. |
| Relax.RelaxStatRun | squeeze.go:234-239 | Skipping what the threshold rules out changes nothing. |
| Relax.PrunedRun | squeeze.go:236-239 | Lengths that are no dearer than the threshold stay as they are. |
| Relax.FirstImprovableLength | squeeze.go:71-78 | The first length above the threshold. |
| Relax.RelaxRuns | squeeze.go:222-246 | Relaxing the cached runs is relaxing all steps from the byte. |
| Relax.RelaxCompact | squeeze.go:247-270 | So is relaxing the eight compact slots. |
| Relax.RelaxSublen | squeeze.go:271-286 | So is relaxing the recorded distances. |
| Squeeze.GetBestLengthsFixed | squeeze.go:291-385 | Costs, last steps and result are those of plain shortest paths, with a complete, a partial or no cache. |
| Squeeze.GetBestLengthsStat | squeeze.go:128-289 | Costs, last steps and result are those of shortest paths with the shortcut, with a complete, a partial or no cache. |
| Squeeze.JumpRun | squeeze.go:185-211 | Takes the longest match for each of 258 bytes, in arrays and hash alike. |
| Path.TraceBackwards | squeeze.go:387-403 | Collects the steps and turns their order around in place. |
| Path.FollowPath | squeeze.go:405-450 | Appends the tokens of the path, each match with the distance that its cost was computed for. |
| Path.StepMeans | squeeze.go:415-449 | A step is a literal, or a match with the recorded distance of a length that the position offers. |
| Optimal.FixedIsCheapest | squeeze.go:291-385 | No parse of literals and offered lengths takes fewer bits in a fixed block. |
| Optimal.FixedCostIsSize | squeeze.go:291-385 | The cost returned is the number of bits of the tokens found. |
| Optimal.FixedCovers | squeeze.go:547-575 | The parse for the fixed code stands for the block. |
| Optimal.Lz77OptimalFixed | squeeze.go:547-575 | The store gets that parse, whatever the cache held before. |
| Optimal.StatCovers | squeeze.go:463-468 | The parse under any cost model stands for the block. |
| Optimal.StatCostBySymbols | squeeze.go:128-289 | Under any cost model, the cost found is the sum over the symbols of the parse of their costs and extra bits. |
| Optimal.StatCostIsSize | squeeze.go:128-289 | Under the lengths of two codes, the cost found is the number of bits of the parse. |
| Optimal.StatIsCheapest | squeeze.go:128-289 | Where no place is deep in a long run, no parse of literals and offered lengths costs less, under any cost model. |
| Optimal.Lz77Optimal | squeeze.go:477-545 | The store kept is that of the first run that gives the smallest dynamic block. |
| Optimal.BestRunIsSmallest | squeeze.go:513-543 | No run's dynamic block is smaller than that of the run kept, and that of no earlier run is as small. |
| Optimal.OptimalCovers | squeeze.go:477-545 | The parse kept stands for the block. |
| BlockSplitter.MinimumFinds | blocksplitter.go:16-65 | For any costs: no point tried is cheaper than the result, which is one of them with its cost, unless none is below the sentinel. |
| BlockSplitter.MinimumIsCheapest | blocksplitter.go:16-65 | With costs below the sentinel, the cheapest point tried and its cost. |
| BlockSplitter.Narrows | blocksplitter.go:45-62 | Each round of nine probes strictly shrinks the interval. |
| BlockSplitter.FindMinimum | blocksplitter.go:16-65 | The loops find that point for the predicted sizes. |
| BlockSplitter.FindLargestSplittableBlock | blocksplitter.go:111-132 | The first of the longest blocks that are not done. |
| BlockSplitter.LargestBlockIs | blocksplitter.go:111-132 | That block is not done, has no split point inside, none that qualifies is longer, and none before it as long. |
| BlockSplitter.RoundMoves | blocksplitter.go:142-157 | For any costs, each round adds a split point or marks a new start, keeps the points in order, and gets closer to the end. |
| BlockSplitter.SplitByValid | blocksplitter.go:134-162 | For any costs and any limit: strictly increasing interior points, fewer than the limit if there is one. |
| BlockSplitter.BlockSplitLZ77 | blocksplitter.go:134-162 | The loop ends with exactly these points for the predicted sizes. |
| SplitChoice.SplitPays | blocksplitter.go:142-152 | A round that adds a point: the two blocks are estimated to cost no more than the range; up to 1024 tokens it is the first of the cheapest points, beyond none of the nine tenths is cheaper. |
| SplitChoice.DoneUnlessPays | blocksplitter.go:142-152 | A range of at most 1024 tokens, with costs below the sentinel, is marked as done exactly if every split costs more or the first of the cheapest takes off a single token. |
| SplitChoice.EverySplitPays | blocksplitter.go:134-162 | For any costs and limit, every point of the result divides a range between other points or ends that does not cost less unsplit. |
| SplitChoice.StopsWhenNonePays | blocksplitter.go:134-162 | For any costs, splitting stops at the limit, or when every block of ten or more tokens that was searched point by point has no split that pays, or none cheaper than taking off a single token. |
| SplitChoice.SplitSaves | blocksplitter.go:67-73 | For the predicted sizes: every point divides such a range into two that are predicted to be no larger together. |
| SplitChoice.SizesSearched | blocksplitter.go:17-27 | Judged by predicted sizes, exactly the ranges of at most 1024 tokens of a part are searched point by point. |
| BlockSplitter.InsertedPoints | blocksplitter.go:75-78 | Adding a point between two neighbours keeps the points strictly increasing and inside. |
| BlockSplitter.PointsInside | blocksplitter.go:174-196 | Byte positions of split points are strictly increasing token boundaries inside the block. |
| BlockSplitter.SplitPositionsInside | blocksplitter.go:164-198 | So the positions returned cut the block into nonempty pieces, fewer than the limit. |
| BlockSplitter.BlockSplit | blocksplitter.go:164-198 | Returns these positions, judging by the greedy parse. |

## Left out

- Deflate.Compress: the gzip and zlib formats are left out, only the raw one is modelled; their checksums come from library code that is not part of this model.
- The command line programs, verbose output and debug assertions.
- Goroutines and channels: workers are modelled as tasks done in any order, by any worker, with reused scratch, filling distinct result slots.
- Floating-point rounding: costs are reals; those of the fixed code are integers. The factor 1.1 in deflate.go:535 is taken as exact.
- Entropy, logarithms and the random perturbation of statistics: they are the `Oracle`, any function from a block's earlier parses to costs of at most 64 bits a symbol.
- Optimal.Lz77Optimal: makes no claim that parses for dynamic codes are the cheapest where the shortcut through long runs is taken, because it skips steps on purpose; elsewhere `Optimal.StatIsCheapest` says so.
- Nearest.NearestMatch: promises nothing about matches of two bytes, which the hash of three bytes cannot find and no parser uses.
- Optimal.ProperBlock: parses are for nonempty blocks of at most 1,000,000 bytes, as all callers produce, so that costs stay below the sentinel.
- Fixed-width integers: lengths, distances, counts and sizes are unbounded; the 16-bit fields hold values up to 65535, and run lengths are capped there as in the code.
- The master block size is the constant 1,000,000, so the branch for size 0 is not modelled.
- Capacity: reserving space for tokens, estimating output sizes and small stack buffers change no contents; buffers reused by the hash, the cache and the chunked counts may hold anything.
- The deprecated option `BlockSplittingLast` has no effect in the code and is no field of the model's options.
- Scratch space for code lengths is allocated anew instead of reused.
- The standard library's sort for more than 32 leaves is replaced by insertion sort, which `LeafOrder.SortUnique` justifies.
- The model computes length symbols by closed forms, which `SymbolTables` proves equal to the literal tables, and looks up no table.
- MatchFinder.FindLongestMatch: limits below 3, under which no match counts, are not modelled; no caller passes them.
- `blockState` is no object here: the cache and the block are passed on their own.
- SplitChoice.EverySplitPays: the total predicted size is not claimed to fall from round to round, since the last block is taken to end before the last token after the first round.
- SplitChoice.DoneUnlessPays: ranges of more than 1024 tokens are not searched point by point; what holds of the points tried there is `BlockSplitter.MinimumFinds`.
