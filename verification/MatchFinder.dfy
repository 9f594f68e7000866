/** Finding matches in a block: the full search per position, with or without a cache in front. */
module MatchFinder {
  import opened Prelude
  import opened Symbols
  import opened Tokens
  import opened HashChain
  import opened MatchSearch
  import opened Runs
  import opened MatchCache

  /** The part data[start..end], compressed as one block. Matches may reach into the window before. */
  datatype Block = Block(data: seq<byte>, start: nat, end: nat)

  ghost predicate ValidBlock(b: Block) {
    b.start <= b.end <= |b.data|
  }

  function WindowStart(start: nat): (ws: nat)
    ensures ws <= start
  {
    if start > WINDOW_SIZE then start - WINDOW_SIZE else 0
  }

  ghost predicate InBlock(b: Block, pos: nat) {
    ValidBlock(b) && b.start <= pos < b.end
  }

  /** The hash holds all positions of the window and the block before `n`. */
  ghost predicate HashFor(h: Hash, b: Block, n: nat)
    reads h
  {
    ValidBlock(b) && b.start < b.end && WindowStart(b.start) <= n <= b.end
    && h.State() == HashAt(b.data, WindowStart(b.start), b.end, n)
  }

  ghost function QueryAt(b: Block, pos: nat, limit: nat): Query
    requires InBlock(b, pos)
  {
    Query(HashAt(b.data, WindowStart(b.start), b.end, pos + 1), b.data, pos, b.end, limit)
  }

  ghost function FullLimit(b: Block, pos: nat): nat
    requires InBlock(b, pos)
  {
    Min(MAX_MATCH, b.end - pos)
  }

  lemma FullQueryValid(b: Block, pos: nat, limit: nat)
    requires InBlock(b, pos) && 2 <= limit <= b.end - pos
    ensures ValidQuery(QueryAt(b, pos, limit), WindowStart(b.start))
  {
  }

  /** What the full search at a position finds. Too close to the end nothing is searched. */
  ghost function MatchOf(b: Block, pos: nat): Found
    requires InBlock(b, pos)
  {
    if b.end - pos < MIN_MATCH then Found(0, [0])
    else
      FullQueryValid(b, pos, FullLimit(b, pos));
      SearchAll(QueryAt(b, pos, FullLimit(b, pos)), WindowStart(b.start))
  }

  /** The longest match counts only from three bytes on. */
  ghost function MatchLength(b: Block, pos: nat): nat
    requires InBlock(b, pos)
  {
    if MatchOf(b, pos).Length() < MIN_MATCH then 0 else MatchOf(b, pos).Length()
  }

  /** Every length that a position's match offers is a true match at its recorded distance. */
  lemma MatchesAreTrue(b: Block, pos: nat, k: nat)
    requires InBlock(b, pos) && MIN_MATCH <= k <= MatchLength(b, pos)
    ensures k < |MatchOf(b, pos).sub|
    ensures 1 <= MatchOf(b, pos).sub[k] < WINDOW_SIZE && MatchOf(b, pos).sub[k] <= pos
    ensures MatchAt(b.data, pos, MatchOf(b, pos).sub[k], k)
    ensures k <= MAX_MATCH && pos + k <= b.end
    ensures MatchOf(b, pos).dist == MatchOf(b, pos).sub[MatchOf(b, pos).Length()]
  {
    var q := QueryAt(b, pos, FullLimit(b, pos));
    FullQueryValid(b, pos, FullLimit(b, pos));
    hide ValidQuery, SearchAll, HashAt;
    var far := SearchAllSound(q, WindowStart(b.start));
  }

  ghost function EntryOf(b: Block, pos: nat): Entry
    requires InBlock(b, pos)
  {
    Entry(RunLength(b.data, pos, b.end), MatchOf(b, pos).dist, MatchOf(b, pos).sub)
  }

  ghost function Entries(b: Block): (e: seq<Entry>)
    requires ValidBlock(b)
    ensures |e| == b.end - b.start
    ensures forall i :: 0 <= i < |e| ==> e[i] == EntryOf(b, b.start + i)
  {
    seq(b.end - b.start, i requires 0 <= i < b.end - b.start => EntryOf(b, b.start + i))
  }

  lemma EntryValid(b: Block, pos: nat)
    requires InBlock(b, pos)
    ensures ValidEntry(EntryOf(b, pos)) && CachedLength(EntryOf(b, pos)) == MatchLength(b, pos)
  {
    if b.end - pos >= MIN_MATCH {
      FullQueryValid(b, pos, FullLimit(b, pos));
      hide ValidQuery, SearchAll, HashAt;
      var far := SearchAllSound(QueryAt(b, pos, FullLimit(b, pos)), WindowStart(b.start));
    }
  }

  /** The cache, if there is one, is that of the block. */
  ghost predicate CacheFor(lmc: LongestMatchCache?, b: Block)
    reads lmc
  {
    ValidBlock(b) && (lmc != null ==> lmc.Valid() && lmc.entries == Entries(b))
  }

  /** The array holds the distances for all lengths up to the limit that the position's match offers. */
  ghost predicate HasDistances(sublen: array?<nat>, b: Block, pos: nat, limit: nat)
    requires InBlock(b, pos)
    reads sublen
  {
    sublen != null ==>
      forall k :: MIN_MATCH <= k <= MatchLength(b, pos) && k <= limit ==>
        k < |MatchOf(b, pos).sub| && k < sublen.Length && sublen[k] == MatchOf(b, pos).sub[k]
  }

  /** What a search with a limit results in: the position's match, cut at the limit, at the distance for
      its length. What is shorter than a match does not matter. */
  ghost predicate IsResult(b: Block, pos: nat, limit: nat, dist: nat, length: nat)
    requires InBlock(b, pos)
  {
    if MatchLength(b, pos) == 0 then length < MIN_MATCH
    else length == Min(MatchLength(b, pos), limit) < |MatchOf(b, pos).sub| && dist == MatchOf(b, pos).sub[length]
  }

  // ---- Asking the cache ----

  /** Everything about a position's entry. */
  lemma EntryFacts(lmc: LongestMatchCache?, b: Block, pos: nat)
    requires InBlock(b, pos) && CacheFor(lmc, b)
    ensures b.start <= pos
    ensures lmc != null ==> lmc.Valid() && pos - b.start < |lmc.entries|
    ensures var e := EntryOf(b, pos);
            && (lmc != null ==> lmc.entries[pos - b.start] == e)
            && CachedLength(e) == MatchLength(b, pos) && e.dist == MatchOf(b, pos).dist && e.sub == MatchOf(b, pos).sub
    ensures MatchLength(b, pos) > 0 ==>
              && MIN_MATCH <= MatchLength(b, pos) <= MAX_MATCH && |MatchOf(b, pos).sub| == MatchLength(b, pos) + 1
              && MatchOf(b, pos).sub[MatchLength(b, pos)] == MatchOf(b, pos).dist
  {
    hide LongestMatchCache.Valid, MatchOf;
    EntryValid(b, pos);
  }

  /** With full limit the result is the match itself. */
  lemma FullResult(b: Block, pos: nat, dist: nat, length: nat)
    requires InBlock(b, pos)
    ensures IsResult(b, pos, MAX_MATCH, dist, length) == (
              if MatchLength(b, pos) == 0 then length < MIN_MATCH
              else length == MatchLength(b, pos) && dist == MatchOf(b, pos).dist)
  {
    if MatchLength(b, pos) > 0 { MatchesAreTrue(b, pos, MatchLength(b, pos)); }
    hide MatchOf;
  }

  /** With a limit that the match reaches, the result is the distance for that length. */
  lemma LimitedResult(b: Block, pos: nat, limit: nat, dist: nat, length: nat)
    requires InBlock(b, pos) && IsResult(b, pos, limit, dist, length) && MIN_MATCH <= limit <= MatchLength(b, pos)
    ensures length == limit < |MatchOf(b, pos).sub| && dist == MatchOf(b, pos).sub[limit]
  {
    hide MatchOf, MatchLength;
  }

  lemma ResultIs(b: Block, pos: nat, limit: nat, dist: nat, length: nat)
    requires InBlock(b, pos)
    ensures IsResult(b, pos, limit, dist, length) == (
              if MatchLength(b, pos) == 0 then length < MIN_MATCH
              else
                && length == Min(MatchLength(b, pos), limit) < |MatchOf(b, pos).sub|
                && dist == MatchOf(b, pos).sub[length])
  {
    hide MatchOf, MatchLength;
  }

  lemma DistancesAre(sublen: array?<nat>, b: Block, pos: nat, limit: nat)
    requires InBlock(b, pos) && (sublen == null || sublen.Length == MAX_MATCH + 1)
    requires MatchLength(b, pos) > 0 ==> |MatchOf(b, pos).sub| == MatchLength(b, pos) + 1 <= MAX_MATCH + 1
    requires sublen != null ==> forall k :: MIN_MATCH <= k <= MatchLength(b, pos) && k <= limit ==>
             sublen[k] == MatchOf(b, pos).sub[k]
    ensures HasDistances(sublen, b, pos, limit)
  {
    hide MatchOf, MatchLength;
  }

  lemma DistanceAt(sublen: array<nat>, b: Block, pos: nat, limit: nat, k: nat)
    requires InBlock(b, pos) && HasDistances(sublen, b, pos, limit) && MIN_MATCH <= k <= MatchLength(b, pos)
    requires k <= limit
    ensures k < |MatchOf(b, pos).sub| && k < sublen.Length && sublen[k] == MatchOf(b, pos).sub[k]
  {
    hide MatchOf;
    assert k < |MatchOf(b, pos).sub|;
    var d := MatchOf(b, pos).sub[k];
  }

  /** Ask the cache first. */
  method TryGetFromCache(lmc: LongestMatchCache?, b: Block, pos: nat, limit: nat, sublen: array?<nat>)
    returns (dist: nat, length: nat, ok: bool)
    requires InBlock(b, pos) && CacheFor(lmc, b) && (sublen != null ==> sublen.Length == MAX_MATCH + 1)
    requires MIN_MATCH <= limit <= MAX_MATCH
    modifies if sublen == null then {} else {sublen}
    ensures ok == (lmc != null && pos - b.start < |lmc.length| && lmc.EntryComplete(pos - b.start)
                   && (MatchLength(b, pos) <= limit || sublen != null))
    ensures ok ==> IsResult(b, pos, limit, dist, length) && HasDistances(sublen, b, pos, limit)
  {
    hide InBlock, CacheFor, IsResult, HasDistances, MatchOf, MatchLength, EntryOf, Entries, CachedLength,
      LongestMatchCache.Valid;
    if lmc == null {
      return 0, 0, false;
    }
    EntryFacts(lmc, b, pos);
    CacheEntries(lmc, b);
    var lmcPos := pos - b.start;
    var matchDist, matchLength, _, complete := lmc.CachedLongestMatch(lmcPos);
    if !complete {
      return 0, 0, false;
    }
    if matchLength == 0 {
      DistancesAre(sublen, b, pos, limit);
      ResultIs(b, pos, limit, 0, 0);
      return 0, 0, true;
    }
    if limit != MAX_MATCH && matchLength > limit && sublen == null {
      return 0, 0, false;
    }
    length := Min(matchLength, limit);
    if sublen == null {
      DistancesAre(sublen, b, pos, limit);
      ResultIs(b, pos, limit, matchDist, length);
      return matchDist, length, true;
    }
    lmc.CacheToSublen(lmcPos, length, sublen);
    dist, ok := lmc.CachedDistanceForLength(lmcPos, length);
    if !ok {
      return;
    }
    DistancesAre(sublen, b, pos, limit);
    ResultIs(b, pos, limit, dist, length);
  }

  // ---- Searching ----

  /** The run length that the hash holds for the position that was inserted last. */
  lemma SameAt(h: Hash, b: Block, pos: nat)
    requires InBlock(b, pos) && HashFor(h, b, pos + 1)
    ensures WINDOW_SIZE > 0 && |h.same| == WINDOW_SIZE && h.same[pos % WINDOW_SIZE] == RunLength(b.data, pos, b.end)
  {
    hide RunLength, Latest, HashAt, StateSized;
    ChainsOk(b.data, WindowStart(b.start), b.end, pos + 1);
    LatestSlot(pos % WINDOW_SIZE, pos + 1, pos);
  }

  /** What the search with a limit finds, compared to the full search. */
  lemma LimitedMatch(b: Block, pos: nat, limit: nat)
    requires InBlock(b, pos) && b.end - pos >= MIN_MATCH && MIN_MATCH <= limit <= FullLimit(b, pos)
    ensures ValidQuery(QueryAt(b, pos, limit), WindowStart(b.start)) && |MatchOf(b, pos).sub| > 0
    ensures var f, m := SearchAll(QueryAt(b, pos, limit), WindowStart(b.start)), MatchOf(b, pos);
            if m.Length() < limit then f == m
            else limit < |m.sub| && f.Length() == limit && f.dist == m.sub[limit] && f.sub == m.sub[..limit + 1]
    ensures MatchOf(b, pos).Length() <= FullLimit(b, pos) <= b.end - pos && FullLimit(b, pos) <= MAX_MATCH
    ensures MatchOf(b, pos).Length() >= 2 ==> MatchOf(b, pos).dist == MatchOf(b, pos).sub[MatchOf(b, pos).Length()]
  {
    FullQueryValid(b, pos, FullLimit(b, pos));
    FullQueryValid(b, pos, limit);
    hide HashAt, SearchAll, MatchAt, ValidQuery;
    var far := SearchAllSound(QueryAt(b, pos, FullLimit(b, pos)), WindowStart(b.start));
    LimitedSearch(QueryAt(b, pos, FullLimit(b, pos)), WindowStart(b.start), limit);
  }

  lemma LimitInside(b: Block, pos: nat, limit: nat)
    requires InBlock(b, pos) && b.end - pos >= MIN_MATCH && MIN_MATCH <= limit <= MAX_MATCH
    ensures MIN_MATCH <= Min(limit, b.end - pos) <= FullLimit(b, pos)
  {
  }

  lemma FoundResult(b: Block, pos: nat, limit: nat, f: Found, sublen: array?<nat>)
    requires InBlock(b, pos) && b.end - pos >= MIN_MATCH && MIN_MATCH <= limit <= MAX_MATCH && Recorded(sublen, f)
    requires ValidQuery(QueryAt(b, pos, Min(limit, b.end - pos)), WindowStart(b.start))
    requires f == SearchAll(QueryAt(b, pos, Min(limit, b.end - pos)), WindowStart(b.start))
    ensures IsResult(b, pos, limit, f.dist, f.Length()) && HasDistances(sublen, b, pos, limit)
  {
    hide HashAt, SearchAll, ValidQuery, MatchOf, FullLimit;
    LimitInside(b, pos, limit);
    LimitedMatch(b, pos, Min(limit, b.end - pos));
  }

  /** Search the chains, no further than to the end of the block. */
  method SearchBlock(h: Hash, b: Block, pos: nat, limit: nat, sublen: array?<nat>) returns (dist: nat, length: nat)
    requires InBlock(b, pos) && HashFor(h, b, pos + 1) && b.end - pos >= MIN_MATCH
    requires sublen != null ==> sublen.Length == MAX_MATCH + 1
    requires MIN_MATCH <= limit <= MAX_MATCH
    modifies if sublen == null then {} else {sublen}
    ensures IsResult(b, pos, limit, dist, length) && HasDistances(sublen, b, pos, limit)
  {
    hide SearchAll, HashAt, Recorded, MatchOf, MatchLength, ValidQuery, IsResult, HasDistances;
    var limit' := limit;
    if pos + limit > b.end {
      limit' := b.end - pos;
    }
    FullQueryValid(b, pos, limit');
    dist, length := SearchChains(h, b.data, pos, b.end, limit', sublen, WindowStart(b.start));
    FoundResult(b, pos, limit, SearchAll(QueryAt(b, pos, limit'), WindowStart(b.start)), sublen);
  }

  lemma NoRoom(b: Block, pos: nat, sublen: array?<nat>)
    requires InBlock(b, pos) && b.end - pos < MIN_MATCH && (sublen == null || sublen.Length == MAX_MATCH + 1)
    ensures MatchLength(b, pos) == 0
    ensures forall limit: nat :: IsResult(b, pos, limit, 0, 0) && HasDistances(sublen, b, pos, limit)
  {
  }

  lemma EntryRun(b: Block, pos: nat)
    requires InBlock(b, pos)
    ensures EntryOf(b, pos).same == RunLength(b.data, pos, b.end)
  {
    hide MatchOf, RunLength;
  }

  lemma CacheStays(lmc: LongestMatchCache, b: Block)
    requires ValidBlock(b) && lmc.Valid() && lmc.entries == Entries(b)
    ensures CacheFor(lmc, b) && |lmc.length| == |Entries(b)|
  {
    hide Entries;
  }

  lemma BlockOf(b: Block, pos: nat)
    requires InBlock(b, pos)
    ensures ValidBlock(b) && b.start <= pos < b.end <= |b.data| && MIN_MATCH == 3 && MAX_MATCH == 258
  {
  }

  lemma CacheEntries(lmc: LongestMatchCache?, b: Block)
    requires CacheFor(lmc, b)
    ensures ValidBlock(b) && (lmc != null ==> lmc.Valid() && lmc.entries == Entries(b) && |lmc.length| == |Entries(b)|)
  {
    hide Entries;
  }

  /** The cache after storing, or not storing, what was found at a position. */
  ghost function Stored(f: Filling, b: Block, pos: nat, store: bool, recorded: bool): Filling
    requires InBlock(b, pos)
  {
    if store && b.start <= pos && pos - b.start < |f.length|
      then AfterStore(f, EntryOf(b, pos), pos - b.start, recorded) else f
  }

  lemma StoredIf(lmc: LongestMatchCache, b: Block, pos: nat, recorded: bool)
    requires InBlock(b, pos) && CacheFor(lmc, b)
    ensures b.start <= pos && pos - b.start < |lmc.length| == |lmc.Fill().length|
    ensures Stored(lmc.Fill(), b, pos, false, recorded) == lmc.Fill()
    ensures var r := AfterStore(lmc.Fill(), EntryOf(b, pos), pos - b.start, recorded);
            && Stored(lmc.Fill(), b, pos, true, recorded) == r
            && (lmc.EntryComplete(pos - b.start) ==> r == lmc.Fill())
            && (b.end - pos < MIN_MATCH ==> r == AfterStore(lmc.Fill(), EntryOf(b, pos), pos - b.start, false))
  {
    hide EntryOf, RunsOf, Entries;
    if b.end - pos < MIN_MATCH { ShortEntry(b, pos); }
    CacheEntries(lmc, b);
  }

  lemma ShortEntry(b: Block, pos: nat)
    requires InBlock(b, pos) && b.end - pos < MIN_MATCH
    ensures CachedLength(EntryOf(b, pos)) == 0
  {
    EntryValid(b, pos);
    NoRoom(b, pos, null);
    hide *;
  }

  /** Store what a full search found that also recorded the distances. */
  method StoreInCache(lmc: LongestMatchCache?, b: Block, pos: nat, fullSearch: bool, sublen: array?<nat>, dist: nat,
                      length: nat, same: nat)
    requires InBlock(b, pos) && CacheFor(lmc, b)
    requires fullSearch ==>
             IsResult(b, pos, MAX_MATCH, dist, length) && HasDistances(sublen, b, pos, MAX_MATCH)
             && same == RunLength(b.data, pos, b.end)
    modifies if lmc == null then {} else {lmc}
    ensures CacheFor(lmc, b)
    ensures lmc != null ==> lmc.built == old(lmc.built) && |lmc.length| == |old(lmc.length)|
    ensures lmc != null ==> lmc.Fill() == Stored(old(lmc.Fill()), b, pos, fullSearch && sublen != null, true)
  {
    hide *;
    CacheEntries(lmc, b);
    if lmc != null { StoredIf(lmc, b, pos, true); }
    if lmc == null || !fullSearch || sublen == null {
      return;
    }
    EntryFacts(lmc, b, pos);
    EntryRun(b, pos);
    StoredFacts(b, pos, dist, length, sublen);
    lmc.StoreMatch(pos - b.start, dist, length, same, sublen);
    CacheStays(lmc, b);
  }

  lemma StoredFacts(b: Block, pos: nat, dist: nat, length: nat, sublen: array<nat>)
    requires InBlock(b, pos) && IsResult(b, pos, MAX_MATCH, dist, length) && HasDistances(sublen, b, pos, MAX_MATCH)
    ensures if length < MIN_MATCH then MatchLength(b, pos) == 0
            else |MatchOf(b, pos).sub| == length + 1 <= sublen.Length && dist == MatchOf(b, pos).dist
                 && forall k :: MIN_MATCH <= k <= length ==> sublen[k] == MatchOf(b, pos).sub[k]
  {
    FullResult(b, pos, dist, length);
    if MatchLength(b, pos) > 0 { MatchesAreTrue(b, pos, MatchLength(b, pos)); }
    hide MatchOf;
  }

  /** Find the longest match at a position that is not longer than the limit, in the cache or by a
      search, and the distances of all shorter ones. */
  method FindLongestMatch(lmc: LongestMatchCache?, h: Hash, b: Block, pos: nat, limit: nat, sublen: array?<nat>)
    returns (dist: nat, length: nat)
    requires InBlock(b, pos) && CacheFor(lmc, b) && HashFor(h, b, pos + 1)
    requires sublen != null ==> sublen.Length == MAX_MATCH + 1
    requires MIN_MATCH <= limit <= MAX_MATCH
    modifies if sublen == null then {} else {sublen}, if lmc == null then {} else {lmc}
    ensures CacheFor(lmc, b)
    ensures lmc != null ==> lmc.built == old(lmc.built) && |lmc.length| == |old(lmc.length)|
    ensures lmc != null ==>
              var store := limit == MAX_MATCH && (sublen != null || b.end - pos < MIN_MATCH);
              lmc.Fill() == Stored(old(lmc.Fill()), b, pos, store, sublen != null)
    ensures IsResult(b, pos, limit, dist, length) && HasDistances(sublen, b, pos, limit)
  {
    hide *;
    BlockOf(b, pos);
    CacheEntries(lmc, b);
    if lmc != null {
      StoredIf(lmc, b, pos, sublen != null);
      StoredIf(lmc, b, pos, true);
    }
    var ok;
    dist, length, ok := TryGetFromCache(lmc, b, pos, limit, sublen);
    if ok {
      return;
    }
    SameAt(h, b, pos);
    EntryFacts(lmc, b, pos);
    EntryRun(b, pos);
    if b.end - pos < MIN_MATCH {
      NoRoom(b, pos, sublen);
      if lmc != null && limit == MAX_MATCH {
        lmc.StoreMatch(pos - b.start, 0, 0, h.same[pos % WINDOW_SIZE], null);
        CacheStays(lmc, b);
      }
      return 0, 0;
    }
    dist, length := SearchBlock(h, b, pos, limit, sublen);
    StoreInCache(lmc, b, pos, limit == MAX_MATCH, sublen, dist, length, h.same[pos % WINDOW_SIZE]);
  }

  // ---- The hash and the cache of a block ----

  lemma HashStarted(h: Hash, b: Block)
    requires ValidBlock(b) && b.start < b.end
    requires h.State() == HashAt(b.data, WindowStart(b.start), b.end, WindowStart(b.start))
    ensures HashFor(h, b, WindowStart(b.start))
  {
    hide HashAt;
  }

  lemma HashForIs(h: Hash, b: Block, n: nat)
    requires HashFor(h, b, n)
    ensures ValidBlock(b) && b.start < b.end && WindowStart(b.start) <= n <= b.end <= |b.data|
    ensures h.State() == HashAt(b.data, WindowStart(b.start), b.end, n) && h.Allocated()
  {
    hide HashAt;
  }

  lemma WindowBefore(b: Block)
    requires ValidBlock(b) && b.start < b.end
    ensures WindowStart(b.start) <= b.start < b.end <= |b.data|
  {
  }

  /** Empty the hash and insert the window before the block. */
  method StartHash(h: Hash, b: Block)
    requires ValidBlock(b) && b.start < b.end && h.Allocated()
    modifies h
    ensures HashFor(h, b, b.start) && h.Allocated()
  {
    hide *;
    var windowStart := WindowStart(b.start);
    h.Reset();
    WindowBefore(b);
    h.Warmup(b.data, windowStart, b.end);
    HashStarted(h, b);
    for i := windowStart to b.start
      invariant HashFor(h, b, i)
    {
      InsertNext(h, b, i);
    }
    HashForIs(h, b, b.start);
  }

  method InsertNext(h: Hash, b: Block, pos: nat)
    requires HashFor(h, b, pos) && pos < b.end
    modifies h
    ensures HashFor(h, b, pos + 1)
  {
    hide HashAt;
    h.Update(b.data, pos, b.end, WindowStart(b.start));
  }

  lemma NewEntries(b: Block)
    requires ValidBlock(b)
    ensures |Entries(b)| == b.end - b.start && forall i :: 0 <= i < |Entries(b)| ==> ValidEntry(Entries(b)[i])
  {
    hide MatchOf, MatchLength, ValidEntry, CachedLength, EntryOf;
    forall i | 0 <= i < |Entries(b)| ensures ValidEntry(Entries(b)[i]) { EntryValid(b, b.start + i); }
  }

  lemma InBlockAt(b: Block, pos: nat)
    requires ValidBlock(b) && b.start <= pos < b.end
    ensures InBlock(b, pos)
  {
  }

  /** The runs that the first n entries take in the arena. */
  ghost function TotalRuns(entries: seq<Entry>, n: nat): nat
    requires n <= |entries|
  {
    if n == 0 then 0 else TotalRuns(entries, n - 1) + RunsOf(entries[n - 1])
  }

  lemma {:induction false} MoreRuns(entries: seq<Entry>, n: nat, m: nat)
    requires n <= m <= |entries|
    ensures TotalRuns(entries, n) <= TotalRuns(entries, m)
  {
    if n < m { MoreRuns(entries, n, m - 1); }
  }

  /** The first n entries are complete, and the rest is unfilled. */
  ghost predicate CompleteUpTo(f: Filling, entries: seq<Entry>, n: nat, budget: nat) {
    && n <= |entries| == |f.length| && f.budget == budget
    && if f.exceeded then budget < TotalRuns(entries, |entries|)
       else
         && f.used == TotalRuns(entries, n) <= budget
         && (forall i :: 0 <= i < n ==> f.length[i] != LENGTH_UNFILLED && f.length[i] != LENGTH_INCOMPLETE)
         && forall i :: n <= i < |f.length| ==> f.length[i] == LENGTH_UNFILLED
  }

  lemma NoneNeeded(entries: seq<Entry>, budget: nat)
    ensures CompleteUpTo(Filling(seq(|entries|, i => LENGTH_UNFILLED), 0, budget, false), entries, 0, budget)
  {
  }

  lemma CompleteNext(f: Filling, entries: seq<Entry>, n: nat, budget: nat)
    requires n < |entries| && CompleteUpTo(f, entries, n, budget) && !f.exceeded
    requires CachedLength(entries[n]) == 0 || CachedLength(entries[n]) >= MIN_MATCH
    ensures CompleteUpTo(AfterStore(f, entries[n], n, true), entries, n + 1, budget)
    ensures var r := AfterStore(f, entries[n], n, true);
            !r.exceeded ==> r.length[n] != LENGTH_UNFILLED && r.length[n] != LENGTH_INCOMPLETE
  {
    hide RunsFrom;
    MoreRuns(entries, n + 1, |entries|);
  }

  lemma AllComplete(lmc: LongestMatchCache, b: Block, budget: nat)
    requires CacheFor(lmc, b) && CompleteUpTo(lmc.Fill(), Entries(b), b.end - b.start, budget)
    ensures lmc.Valid() && lmc.runBudgetExceeded == (budget < TotalRuns(Entries(b), |Entries(b)|))
    ensures !lmc.runBudgetExceeded ==>
              && |lmc.runs| == TotalRuns(Entries(b), |Entries(b)|)
              && forall i :: 0 <= i < |lmc.length| ==>
                   lmc.length[i] != LENGTH_UNFILLED && lmc.length[i] != LENGTH_INCOMPLETE
  {
    hide Entries, TotalRuns, LongestMatchCache.Valid;
  }

  lemma EntryIs(b: Block, pos: nat)
    requires InBlock(b, pos)
    ensures b.start <= pos && pos - b.start < |Entries(b)| && Entries(b)[pos - b.start] == EntryOf(b, pos)
    ensures CachedLength(EntryOf(b, pos)) == 0 || CachedLength(EntryOf(b, pos)) >= MIN_MATCH
  {
    EntryValid(b, pos);
    hide MatchOf, EntryOf;
  }

  lemma FillParts(lmc: LongestMatchCache, b: Block, n: nat, budget: nat)
    requires CacheFor(lmc, b) && CompleteUpTo(lmc.Fill(), Entries(b), n, budget) && n < |Entries(b)|
    ensures lmc.Fill().exceeded == lmc.runBudgetExceeded && |lmc.length| == |Entries(b)|
    ensures lmc.Fill().length == lmc.length
  {
    hide Entries, TotalRuns, LongestMatchCache.Valid;
  }

  method BuildEntry(lmc: LongestMatchCache, h: Hash, b: Block, i: nat, sublen: array<nat>, ghost budget: nat)
    returns (complete: bool)
    requires HashFor(h, b, i) && i < b.end && CacheFor(lmc, b) && b.start <= i && !lmc.built && !lmc.runBudgetExceeded
    requires sublen.Length == MAX_MATCH + 1 && CompleteUpTo(lmc.Fill(), Entries(b), i - b.start, budget)
    modifies h, lmc, sublen
    ensures HashFor(h, b, i + 1) && CacheFor(lmc, b) && !lmc.built
    ensures CompleteUpTo(lmc.Fill(), Entries(b), i + 1 - b.start, budget) && (!lmc.runBudgetExceeded ==> complete)
  {
    hide *;
    HashForIs(h, b, i);
    InBlockAt(b, i);
    BlockOf(b, i);
    InsertNext(h, b, i);
    EntryIs(b, i);
    FillParts(lmc, b, i - b.start, budget);
    CompleteNext(lmc.Fill(), Entries(b), i - b.start, budget);
    StoredIf(lmc, b, i, true);
    var _, _ := FindLongestMatch(lmc, h, b, i, MAX_MATCH, sublen);
    CacheEntries(lmc, b);
    FilledIs(lmc);
    complete := lmc.EntryComplete(i - b.start);
    EntryCompleteIs(lmc, i - b.start);
  }

  lemma FilledIs(lmc: LongestMatchCache)
    ensures lmc.Fill() == Filling(lmc.length, |lmc.runs|, lmc.runBudget, lmc.runBudgetExceeded)
  {
  }

  lemma EntryCompleteIs(lmc: LongestMatchCache, k: nat)
    requires k < |lmc.length|
    ensures lmc.EntryComplete(k) == (lmc.length[k] != LENGTH_UNFILLED && lmc.length[k] != LENGTH_INCOMPLETE)
  {
  }

  /** Search every position of the block once, and keep what the searches find: all of it exactly if the
      budget allows as many runs as the block's matches have. */
  method BuildLongestMatchCacheWithRunBudget(lmc: LongestMatchCache, h: Hash, b: Block, runBudget: int)
    requires ValidBlock(b) && lmc.Valid()
    modifies lmc, h
    ensures CacheFor(lmc, b) && (b.start < b.end ==> h.Allocated())
    ensures lmc.built == (TotalRuns(Entries(b), |Entries(b)|) <= Max(0, runBudget)) == !lmc.runBudgetExceeded
    ensures lmc.built ==> |lmc.runs| == TotalRuns(Entries(b), |Entries(b)|)
  {
    NewEntries(b);
    hide *;
    lmc.InitWithRunBudget(b.end - b.start, runBudget, Entries(b));
    CacheStays(lmc, b);
    NoneNeeded(Entries(b), Max(0, runBudget));
    if b.start == b.end {
      AllComplete(lmc, b, Max(0, runBudget));
      NothingToStore(b);
      lmc.SetBuilt(true);
      FilledIs(lmc);
      CacheStays(lmc, b);
      return;
    }
    h.Alloc();
    StartHash(h, b);
    var sublen := new nat[MAX_MATCH + 1](_ => 0);
    var allComplete := FillCache(lmc, h, b, sublen, Max(0, runBudget));
    FilledIs(lmc);
    if lmc.runBudgetExceeded {
      return;
    }
    AllComplete(lmc, b, Max(0, runBudget));
    lmc.SetBuilt(allComplete);
    FilledIs(lmc);
    CacheStays(lmc, b);
  }

  lemma NothingToStore(b: Block)
    requires ValidBlock(b) && b.start == b.end
    ensures |Entries(b)| == 0 && TotalRuns(Entries(b), |Entries(b)|) == 0
  {
  }

  /** Search position after position, unless the budget gets exceeded. */
  method FillCache(lmc: LongestMatchCache, h: Hash, b: Block, sublen: array<nat>, ghost budget: nat)
    returns (allComplete: bool)
    requires HashFor(h, b, b.start) && CacheFor(lmc, b) && !lmc.built && !lmc.runBudgetExceeded
    requires sublen.Length == MAX_MATCH + 1 && CompleteUpTo(lmc.Fill(), Entries(b), 0, budget)
    modifies h, lmc, sublen
    ensures CacheFor(lmc, b) && !lmc.built && h.Allocated()
    ensures lmc.runBudgetExceeded ==> budget < TotalRuns(Entries(b), |Entries(b)|)
    ensures !lmc.runBudgetExceeded ==> allComplete && CompleteUpTo(lmc.Fill(), Entries(b), b.end - b.start, budget)
  {
    hide *;
    allComplete := true;
    HashForIs(h, b, b.start);
    for i := b.start to b.end
      invariant HashFor(h, b, i) && CacheFor(lmc, b) && !lmc.built && !lmc.runBudgetExceeded
      invariant allComplete && CompleteUpTo(lmc.Fill(), Entries(b), i - b.start, budget)
    {
      var complete := BuildEntry(lmc, h, b, i, sublen, budget);
      if lmc.runBudgetExceeded {
        HashForIs(h, b, i + 1);
        TooMany(lmc, b, i + 1 - b.start, budget);
        return;
      }
      if !complete {
        allComplete := false;
      }
    }
    HashForIs(h, b, b.end);
  }

  lemma TooMany(lmc: LongestMatchCache, b: Block, n: nat, budget: nat)
    requires ValidBlock(b) && CompleteUpTo(lmc.Fill(), Entries(b), n, budget) && lmc.runBudgetExceeded
    ensures budget < TotalRuns(Entries(b), |Entries(b)|)
  {
    hide Entries, TotalRuns;
  }
}
