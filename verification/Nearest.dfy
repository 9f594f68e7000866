/** The search finds the nearest match of every length among the last 8192 positions. */
module Nearest {
  import opened Prelude
  import opened Symbols
  import opened Tokens
  import opened HashChain
  import opened HashValues
  import opened ChainLinks
  import opened MatchSearch
  import opened MatchFinder

  /** A match of length `k` at distance `dist`. */
  ghost predicate Candidate(q: Query, ws: nat, dist: nat, k: nat) {
    && MIN_MATCH <= k <= q.limit && 0 < dist < WINDOW_SIZE && dist + ws <= q.pos < q.size <= |q.data|
    && q.pos + q.limit <= q.size && MatchAt(q.data, q.pos, dist, k)
  }

  /** A candidate that the search cannot lose when it changes chains: the nearest one there can be, or
      one whose run of equal bytes is no longer than that at the position. */
  ghost predicate Steady(data: seq<byte>, pos: nat, dist: nat, end: nat)
    requires dist <= pos < end <= |data|
  {
    dist == 1 || RunLength(data, pos - dist, end) <= RunLength(data, pos, end)
  }

  /** Length `k` is found, no farther away than `dist`. */
  ghost predicate Reached(f: Found, k: nat, dist: nat) {
    MIN_MATCH <= k < |f.sub| && f.sub[k] <= dist
  }

  ghost function ChainFor(q: Query, secondary: bool): Chain {
    if secondary then q.h.second else q.h.first
  }

  ghost function ValueFor(q: Query, secondary: bool): nat {
    if secondary then q.h.val2 else q.h.val
  }

  /** The place is on a chain that both it and distance `dist` belong to, and not beyond that. */
  ghost predicate Heading(q: Query, at: Place, dist: nat) {
    && 0 < at.dist <= dist <= q.pos && Sized(ChainFor(q, at.secondary))
    && Kept(ChainFor(q, at.secondary), q.pos - at.dist) == ValueFor(q, at.secondary)
    && Kept(ChainFor(q, at.secondary), q.pos - dist) == ValueFor(q, at.secondary)
  }

  // ---- What the state says about two positions ----

  lemma CandidateBytes(q: Query, ws: nat, dist: nat, k: nat)
    requires Candidate(q, ws, dist, k)
    ensures SameBytes(q.data, q.pos - dist, q.pos) && q.pos + 3 <= q.size
  {
    assert q.data[q.pos] == q.data[q.pos - dist] && q.data[q.pos + 1] == q.data[q.pos + 1 - dist]
        && q.data[q.pos + 2] == q.data[q.pos + 2 - dist];
  }

  /** A valid query's chains connect equal values, and its values are those of its position. */
  lemma QueryChains(q: Query, ws: nat)
    requires ValidQuery(q, ws)
    ensures Chained(q.h.first, ws, q.pos + 1) && Chained(q.h.second, ws, q.pos + 1)
    ensures StateSized(q.h) && Sized(q.h.first) && Sized(q.h.second) && ws <= q.pos < q.size <= |q.data|
    ensures q.h.val == ValueAt(q.data, ws, q.size, q.pos) && q.h.val2 == SecondAt(q.data, ws, q.size, q.pos)
    ensures ValuesKept(q.h, q.data, ws, q.size, q.pos + 1)
  {
    hide *;
    QueryState(q, ws);
    HashAtChained(q.data, ws, q.size, q.pos + 1);
    InsertsOf(q.data, ws, q.size, q.pos);
    QueryParts(q, ws);
  }

  lemma QueryState(q: Query, ws: nat)
    requires ValidQuery(q, ws)
    ensures ws <= q.pos < q.size <= |q.data| && q.h == HashAt(q.data, ws, q.size, q.pos + 1)
  {
    hide HashAt;
  }

  lemma KeptIs(h: HashState, data: seq<byte>, ws: nat, end: nat, n: nat, m: nat)
    requires ws <= m < n <= end <= |data| && n <= m + WINDOW_SIZE && StateSized(h) && ValuesKept(h, data, ws, end, n)
    ensures Sized(h.first) && Sized(h.second)
    ensures Kept(h.first, m) == ValueAt(data, ws, end, m) && Kept(h.second, m) == SecondAt(data, ws, end, m)
  {
    hide Kept, ValueAt, SecondAt;
    assert InWindow(m, ws, n);
  }

  lemma CandidateIs(q: Query, ws: nat, dist: nat, k: nat)
    requires Candidate(q, ws, dist, k)
    ensures MIN_MATCH <= k <= q.limit && 0 < dist < WINDOW_SIZE && dist + ws <= q.pos < q.size <= |q.data|
    ensures q.pos + q.limit <= q.size && MatchAt(q.data, q.pos, dist, k)
    ensures WINDOW_SIZE == 32768 && MIN_MATCH == 3
  {
  }

  lemma SecondAtIs(data: seq<byte>, ws: nat, end: nat, m: nat)
    requires ws <= m < end <= |data|
    ensures SecondAt(data, ws, end, m) == SecondHash(RunLength(data, m, end), ValueAt(data, ws, end, m))
  {
  }

  /** The candidate is in the first chain of the position's value, and with an equal run also in the
      second one. */
  lemma CandidateValues(q: Query, ws: nat, dist: nat, k: nat)
    requires ValidQuery(q, ws) && Candidate(q, ws, dist, k)
    ensures Sized(q.h.first) && Sized(q.h.second) && dist <= q.pos < q.size <= |q.data|
    ensures Kept(q.h.first, q.pos - dist) == q.h.val
    ensures RunLength(q.data, q.pos - dist, q.size) == RunLength(q.data, q.pos, q.size) ==>
              Kept(q.h.second, q.pos - dist) == q.h.val2
  {
    hide *;
    QueryChains(q, ws);
    CandidateIs(q, ws, dist, k);
    CandidateBytes(q, ws, dist, k);
    var m := q.pos - dist;
    EqualValues(q.data, ws, q.size, m, q.pos);
    KeptIs(q.h, q.data, ws, q.size, q.pos + 1, m);
    SecondAtIs(q.data, ws, q.size, m);
    SecondAtIs(q.data, ws, q.size, q.pos);
  }

  lemma HeadingIs(q: Query, at: Place, dist: nat)
    requires dist <= q.pos
    ensures Heading(q, at, dist) <==>
              && 0 < at.dist <= dist && Sized(ChainFor(q, at.secondary))
              && Kept(ChainFor(q, at.secondary), q.pos - at.dist) == ValueFor(q, at.secondary)
              && Kept(ChainFor(q, at.secondary), q.pos - dist) == ValueFor(q, at.secondary)
  {
    hide Kept, ChainFor, ValueFor, Sized;
  }

  lemma LinkIs(q: Query, ws: nat, at: Place, secondary: bool)
    requires ValidQuery(q, ws) && OnChain(q, ws, at) && at.dist < WINDOW_SIZE
    ensures at.p < WINDOW_SIZE && 0 < at.dist && at.dist + ws <= q.pos && (q.pos - at.dist) % WINDOW_SIZE == at.p
    ensures Sized(ChainFor(q, secondary)) && Link(q, ws, at.p, secondary) == ChainFor(q, secondary).prev[at.p]
    ensures Chained(ChainFor(q, secondary), ws, q.pos + 1)
  {
    hide HashAt, Chained;
    QueryChains(q, ws);
  }

  /** Following the link goes on towards the candidate. */
  lemma LinkHeads(q: Query, ws: nat, at: Place, secondary: bool, dist: nat)
    requires ValidQuery(q, ws) && OnChain(q, ws, at) && at.dist < dist < WINDOW_SIZE && dist + ws <= q.pos
    requires Heading(q, at.(secondary := secondary), dist)
    ensures at.p < WINDOW_SIZE
    ensures var p := Link(q, ws, at.p, secondary);
            p != at.p && Heading(q, Place(p, at.dist + Gap(at.p, p), secondary), dist)
  {
    hide *;
    LinkIs(q, ws, at, secondary);
    var c, k := ChainFor(q, secondary), q.pos - at.dist;
    var p := Link(q, ws, at.p, secondary);
    HeadingIs(q, at.(secondary := secondary), dist);
    HeadingIs(q, Place(p, at.dist + Gap(at.p, p), secondary), dist);
    WindowIs(q.pos - dist, ws, q.pos + 1);
    WindowIs(k, ws, q.pos + 1);
    ChainedLinks(c, ws, q.pos + 1, q.pos - dist, k);
    BackIs(c, k);
  }

  lemma WindowIs(m: nat, ws: nat, n: nat)
    ensures InWindow(m, ws, n) == (ws <= m < n <= m + WINDOW_SIZE) && WINDOW_SIZE == 32768
  {
  }

  lemma BackIs(c: Chain, k: nat)
    requires Sized(c)
    ensures c.prev[k % WINDOW_SIZE] < WINDOW_SIZE
    ensures Back(c, k) == k - Gap(k % WINDOW_SIZE, c.prev[k % WINDOW_SIZE])
  {
  }

  lemma ChainedLinks(c: Chain, ws: nat, n: nat, m: nat, k: nat)
    requires Chained(c, ws, n) && InWindow(m, ws, n) && InWindow(k, ws, n) && m < k && Kept(c, m) == Kept(c, k)
    ensures m <= Back(c, k) && Kept(c, Back(c, k)) == Kept(c, k)
  {
    hide Kept, Back;
    assert Linked(c, m, k);
  }

  // ---- Leaving the first chain loses nothing ----

  lemma RunEnds(data: seq<byte>, pos: nat, end: nat)
    requires pos < end <= |data|
    ensures var n := RunLength(data, pos, end);
            n < MAX_RUN && pos + n + 1 < end ==> data[pos + n + 1] != data[pos]
  {
  }

  /** A match that goes on past the end of a run copies the run. */
  lemma RunCopied(data: seq<byte>, pos: nat, dist: nat, end: nat, k: nat)
    requires 0 < dist <= pos && pos + k <= end <= |data| && pos < end && MatchAt(data, pos, dist, k)
    ensures RunLength(data, pos, end) + 1 < k ==> RunLength(data, pos - dist, end) == RunLength(data, pos, end)
    ensures RunLength(data, pos - dist, end) + 1 < k ==> RunLength(data, pos, end) == RunLength(data, pos - dist, end)
  {
    hide RunLength;
    var near, far := RunLength(data, pos, end), RunLength(data, pos - dist, end);
    RunEnds(data, pos, end);
    RunEnds(data, pos - dist, end);
    if near + 1 < k {
      forall i | pos - dist <= i <= pos - dist + near + 1
        ensures data[i] == data[i + dist] && (i <= pos - dist + near ==> data[i] == data[pos - dist])
      {
        assert data[i + dist] == data[i + dist - dist];
      }
      RunUnique(data, pos - dist, end, near);
    }
    if far + 1 < k {
      assert forall i :: pos <= i <= pos + far + 1 ==> data[i] == data[i - dist];
      RunUnique(data, pos, end, far);
    }
  }

  lemma CommonReaches(data: seq<byte>, pos: nat, dist: nat, limit: nat, n: nat)
    requires dist <= pos && pos + limit <= |data| && n <= limit
    requires forall i :: pos <= i < pos + n ==> data[i] == data[i - dist]
    ensures Common(data, pos, dist, limit) >= n
  {
    CommonLimited(data, pos, dist, limit, n);
    CommonUnique(data, pos, dist, n, n);
  }

  /** When the search leaves the first chain and the candidate is not in the second, then it has found
      that length already. */
  lemma LeavingKeeps(q: Query, ws: nat, dist: nat, k: nat, best: nat)
    requires ValidQuery(q, ws) && Candidate(q, ws, dist, k)
    requires Sized(q.h.second) && dist <= q.pos < q.size <= |q.data|
    requires RunLength(q.data, q.pos - dist, q.size) <= RunLength(q.data, q.pos, q.size) <= best
    requires Kept(q.h.second, q.pos - dist) != q.h.val2
    ensures k <= best
  {
    hide *;
    CandidateIs(q, ws, dist, k);
    CandidateValues(q, ws, dist, k);
    RunCopied(q.data, q.pos, dist, q.size, k);
  }

  // ---- One place ----

  /** A visit takes the match of its place. */
  lemma VisitTakes(q: Query, ws: nat, at: Place, f: Found)
    requires ValidQuery(q, ws) && OnChain(q, ws, at) && at.dist < WINDOW_SIZE && |f.sub| >= 2
    ensures at.dist <= q.pos && q.pos + q.limit <= |q.data|
    ensures Common(q.data, q.pos, at.dist, q.limit) <= Visit(q, ws, at, f).found.Length()
  {
    hide *;
    QueryParts(q, ws);
    LengthIs(q, ws, at, f.Length());
    VisitIs(q, ws, at, f);
    var length, n := CurrentLength(q, ws, at, f.Length()), Common(q.data, q.pos, at.dist, q.limit);
    if length > f.Length() { ImproveRecorded(f, at.dist, length); } else { NoImprovement(f, at.dist, length); }
    if n > f.Length() {
      assert q.data[q.pos + f.Length()] == q.data[q.pos + f.Length() - at.dist];
    }
  }

  /** After one place the length is found, or the search heads on for the candidate. */
  lemma VisitReaches(q: Query, ws: nat, at: Place, f: Found, dist: nat, k: nat)
    requires ValidQuery(q, ws) && OnChain(q, ws, at) && Sound(q, ws, f, at.dist) && Heading(q, at, dist)
    requires Candidate(q, ws, dist, k) && Steady(q.data, q.pos, dist, q.size)
    ensures at.dist < WINDOW_SIZE
    ensures var r := Visit(q, ws, at, f);
            Reached(r.found, k, dist) || (r.Go? && at.dist < dist && Heading(q, r.next, dist))
  {
    hide *;
    CandidateIs(q, ws, dist, k);
    HeadingIs(q, at, dist);
    SoundIs(q, ws, f, at.dist);
    var r := Visit(q, ws, at, f);
    VisitTakes(q, ws, at, f);
    VisitSound(q, ws, at, f);
    if k <= r.found.Length() {
      SoundReaches(q, ws, r.found, at.dist, dist, k);
    } else {
      if at.dist == dist {
        CommonReaches(q.data, q.pos, dist, q.limit, k);
        assert false;
      }
      VisitIs(q, ws, at, f);
      StopReaches(q, ws, at, f);
      var secondary := UsesSecondary(q, ws, at, r.found.Length());
      VisitHeads(q, ws, at, r.found.Length(), dist, k);
      LinkHeads(q, ws, at, secondary, dist);
    }
  }

  lemma StopReaches(q: Query, ws: nat, at: Place, f: Found)
    requires ValidQuery(q, ws) && OnChain(q, ws, at) && at.dist < WINDOW_SIZE && |f.sub| >= 2
    ensures var length := CurrentLength(q, ws, at, f.Length());
            length > f.Length() && length >= q.limit ==> Visit(q, ws, at, f).found.Length() >= q.limit
  {
    hide *;
    VisitIs(q, ws, at, f);
    var length := CurrentLength(q, ws, at, f.Length());
    if length > f.Length() { ImproveRecorded(f, at.dist, length); }
  }

  lemma SoundIs(q: Query, ws: nat, f: Found, far: nat)
    requires Sound(q, ws, f, far)
    ensures |f.sub| >= 2 && f.Length() == |f.sub| - 1 && q.pos + q.limit <= |q.data|
  {
  }

  lemma SoundReaches(q: Query, ws: nat, f: Found, far: nat, dist: nat, k: nat)
    requires Sound(q, ws, f, far) && far <= dist && MIN_MATCH <= k <= f.Length()
    ensures Reached(f, k, dist)
  {
  }

  /** Whichever chain the search goes on in, the candidate is on it. */
  lemma VisitHeads(q: Query, ws: nat, at: Place, best: nat, dist: nat, k: nat)
    requires ValidQuery(q, ws) && OnChain(q, ws, at) && at.dist < dist && Heading(q, at, dist)
    requires Candidate(q, ws, dist, k) && Steady(q.data, q.pos, dist, q.size)
    requires best < k
    ensures at.p < WINDOW_SIZE && Heading(q, at.(secondary := UsesSecondary(q, ws, at, best)), dist)
  {
    hide *;
    CandidateIs(q, ws, dist, k);
    LinkIs(q, ws, at, true);
    UsesIs(q, ws, at, best);
    if UsesSecondary(q, ws, at, best) && !at.secondary {
      HeadingIs(q, at, dist);
      HeadingIs(q, at.(secondary := true), dist);
      ChainForIs(q);
      CandidateValues(q, ws, dist, k);
      if Kept(q.h.second, q.pos - dist) != q.h.val2 {
        SteadyIs(q.data, q.pos, dist, q.size);
        LeavingKeeps(q, ws, dist, k, best);
        assert false;
      }
    }
  }

  lemma SteadyIs(data: seq<byte>, pos: nat, dist: nat, end: nat)
    requires dist <= pos < end <= |data|
    ensures Steady(data, pos, dist, end)
            <==> (dist == 1 || RunLength(data, pos - dist, end) <= RunLength(data, pos, end))
  {
    hide RunLength;
  }

  lemma ChainForIs(q: Query)
    ensures ChainFor(q, false) == q.h.first && ChainFor(q, true) == q.h.second
    ensures ValueFor(q, false) == q.h.val && ValueFor(q, true) == q.h.val2
  {
  }

  lemma UsesIs(q: Query, ws: nat, at: Place, best: nat)
    requires ValidQuery(q, ws) && OnChain(q, ws, at) && at.dist < WINDOW_SIZE && at.p < WINDOW_SIZE && at.dist <= q.pos
    ensures Sized(q.h.second) && q.pos < q.size <= |q.data|
    ensures UsesSecondary(q, ws, at, best) <==>
            || at.secondary
            || (best >= RunLength(q.data, q.pos, q.size) && Kept(q.h.second, q.pos - at.dist) == q.h.val2)
  {
    hide HashAt, RunLength, Latest;
    QueryParts(q, ws);
    LatestSlot(q.pos % WINDOW_SIZE, q.pos + 1, q.pos);
  }

  // ---- How many places are on the way ----

  /** The position has one of the two hash values of the query's position. */
  ghost predicate Rival(q: Query, ws: nat, m: nat)
    requires ws <= m < q.size <= |q.data| && ws <= q.pos < q.size
  {
    || ValueAt(q.data, ws, q.size, m) == ValueAt(q.data, ws, q.size, q.pos)
    || SecondAt(q.data, ws, q.size, m) == SecondAt(q.data, ws, q.size, q.pos)
  }

  /** The number of such positions from `lo` up to, but not including, `hi`. */
  ghost function Rivals(q: Query, ws: nat, lo: nat, hi: nat): (n: nat)
    requires ws <= lo && hi <= q.size <= |q.data| && ws <= q.pos < q.size
    ensures lo <= hi ==> n <= hi - lo
    decreases hi
  {
    if hi <= lo then 0 else Rivals(q, ws, lo, hi - 1) + if Rival(q, ws, hi - 1) then 1 else 0
  }

  lemma {:induction false} RivalsGrow(q: Query, ws: nat, lo: nat, lo': nat, hi: nat, hi': nat)
    requires ws <= lo' <= lo && hi <= hi' <= q.size <= |q.data| && ws <= q.pos < q.size
    ensures Rivals(q, ws, lo, hi) <= Rivals(q, ws, lo', hi')
    decreases hi'
  {
    hide Rival;
    if lo < hi {
      RivalsGrow(q, ws, lo, lo', hi - (if hi == hi' then 1 else 0), hi' - 1);
    }
  }

  /** Every place of the search is a rival, up to the candidate. */
  lemma PlaceRival(q: Query, ws: nat, at: Place, dist: nat)
    requires ValidQuery(q, ws) && Heading(q, at, dist) && dist + ws <= q.pos && dist < WINDOW_SIZE
    ensures ws <= q.pos < q.size <= |q.data| && at.dist <= dist
    ensures Rivals(q, ws, q.pos - dist, q.pos - at.dist + 1) == Rivals(q, ws, q.pos - dist, q.pos - at.dist) + 1
  {
    hide *;
    QueryChains(q, ws);
    HeadingIs(q, at, dist);
    ChainForIs(q);
    KeptIs(q.h, q.data, ws, q.size, q.pos + 1, q.pos - at.dist);
    WindowIs(q.pos, ws, q.pos);
    OneRival(q, ws, q.pos - dist, q.pos - at.dist);
  }

  lemma OneRival(q: Query, ws: nat, lo: nat, m: nat)
    requires ws <= lo <= m < q.size <= |q.data| && ws <= q.pos < q.size
    ensures Rivals(q, ws, lo, m + 1) == Rivals(q, ws, lo, m) + if Rival(q, ws, m) then 1 else 0
    ensures ValueAt(q.data, ws, q.size, m) == ValueAt(q.data, ws, q.size, q.pos) ==> Rival(q, ws, m)
    ensures SecondAt(q.data, ws, q.size, m) == SecondAt(q.data, ws, q.size, q.pos) ==> Rival(q, ws, m)
  {
    hide ValueAt, SecondAt;
  }

  // ---- The whole search ----

  lemma ReachedStays(f: Found, g: Found, k: nat, dist: nat)
    requires Reached(f, k, dist) && f.sub <= g.sub
    ensures Reached(g, k, dist)
  {
  }

  /** Each step takes the search nearer to the candidate, so the hits suffice if there are as many as
      rivals on the way. */
  lemma {:induction false} SearchReaches(q: Query, ws: nat, at: Place, f: Found, hits: nat, dist: nat, k: nat)
    requires ValidQuery(q, ws) && OnChain(q, ws, at) && Sound(q, ws, f, at.dist) && Heading(q, at, dist)
    requires Candidate(q, ws, dist, k) && Steady(q.data, q.pos, dist, q.size)
    requires ws <= q.pos < q.size <= |q.data| && hits >= Rivals(q, ws, q.pos - dist, q.pos - at.dist + 1)
    ensures hits > 0 && Reached(Search(q, ws, at, f, hits), k, dist)
    decreases hits
  {
    hide *;
    CandidateIs(q, ws, dist, k);
    HeadingIs(q, at, dist);
    PlaceRival(q, ws, at, dist);
    VisitReaches(q, ws, at, f, dist, k);
    SearchKeeps(q, ws, at, f, hits);
    SearchStep(q, ws, at, f, hits);
    VisitSound(q, ws, at, f);
    VisitIs(q, ws, at, f);
    var r := Visit(q, ws, at, f);
    if Reached(r.found, k, dist) {
      ReachedStays(r.found, Search(q, ws, at, f, hits), k, dist);
    } else {
      SoundFarther(q, ws, r.found, at.dist, r.next.dist);
      HeadingIs(q, r.next, dist);
      PlaceRival(q, ws, r.next, dist);
      RivalsGrow(q, ws, q.pos - dist, q.pos - dist, q.pos - r.next.dist + 1, q.pos - at.dist);
      SearchReaches(q, ws, r.next, r.found, hits - 1, dist, k);
    }
  }

  /** The first place heads for every candidate. */
  lemma FirstHeads(q: Query, ws: nat, dist: nat, k: nat)
    requires ValidQuery(q, ws) && Candidate(q, ws, dist, k)
    ensures Heading(q, FirstPlace(q, ws), dist)
  {
    hide *;
    CandidateIs(q, ws, dist, k);
    CandidateValues(q, ws, dist, k);
    QueryChains(q, ws);
    ChainForIs(q);
    KeptIs(q.h, q.data, ws, q.size, q.pos + 1, q.pos);
    WindowIs(q.pos - dist, ws, q.pos + 1);
    WindowIs(q.pos, ws, q.pos + 1);
    ChainedLinks(q.h.first, ws, q.pos + 1, q.pos - dist, q.pos);
    BackIs(q.h.first, q.pos);
    FirstPlaceIs(q, ws);
    HeadingIs(q, FirstPlace(q, ws), dist);
  }

  lemma FirstPlaceIs(q: Query, ws: nat)
    requires ValidQuery(q, ws) && Sized(q.h.first)
    ensures var pp := q.pos % WINDOW_SIZE;
            FirstPlace(q, ws) == Place(q.h.first.prev[pp], Gap(pp, q.h.first.prev[pp]), false)
  {
    hide HashAt, Gap;
  }

  lemma SearchAllIs(q: Query, ws: nat)
    requires ValidQuery(q, ws)
    ensures OnChain(q, ws, FirstPlace(q, ws)) && FirstPlace(q, ws).dist > 0
    ensures SearchAll(q, ws) == Search(q, ws, FirstPlace(q, ws), NOTHING, MAX_CHAIN_HITS) && MAX_CHAIN_HITS == 8192
  {
    FirstOnChain(q, ws);
    hide Search, ValidQuery, FirstPlace;
  }

  lemma NothingSound(q: Query, ws: nat, far: nat)
    requires 1 <= q.limit && q.pos + q.limit <= |q.data|
    ensures Sound(q, ws, NOTHING, far)
  {
  }

  lemma SteadyReached(q: Query, ws: nat, dist: nat, k: nat)
    requires ValidQuery(q, ws) && Candidate(q, ws, dist, k) && Steady(q.data, q.pos, dist, q.size)
    requires Rivals(q, ws, q.pos - dist, q.pos) <= MAX_CHAIN_HITS
    ensures k <= SearchAll(q, ws).Length() && k < |SearchAll(q, ws).sub| && SearchAll(q, ws).sub[k] <= dist
  {
    hide *;
    CandidateIs(q, ws, dist, k);
    SearchAllIs(q, ws);
    var at := FirstPlace(q, ws);
    FirstHeads(q, ws, dist, k);
    HeadingIs(q, at, dist);
    NothingSound(q, ws, at.dist);
    RivalsGrow(q, ws, q.pos - dist, q.pos - dist, q.pos - at.dist + 1, q.pos);
    SearchReaches(q, ws, at, NOTHING, MAX_CHAIN_HITS, dist, k);
    ReachedIs(SearchAll(q, ws), k, dist);
  }

  /** Before every candidate with a longer run there is a nearer one that does as well: where the run
      has as many bytes left as that at the position, or one byte back if both are the same run. */
  lemma SteadyBefore(q: Query, ws: nat, dist: nat, k: nat) returns (nearer: nat)
    requires Candidate(q, ws, dist, k)
    ensures nearer <= dist && Candidate(q, ws, nearer, k) && Steady(q.data, q.pos, nearer, q.size)
  {
    hide RunLength;
    var far, near := RunLength(q.data, q.pos - dist, q.size), RunLength(q.data, q.pos, q.size);
    nearer := dist;
    if far > near {
      RunCopied(q.data, q.pos, dist, q.size, k);
      assert q.data[q.pos] == q.data[q.pos - dist];
      if far >= dist {
        nearer := 1;
      } else {
        nearer := dist - (far - near);
        RunEnds(q.data, q.pos - dist, q.size);
        RunUnique(q.data, q.pos - nearer, q.size, near);
      }
      assert MatchAt(q.data, q.pos, nearer, k);
    }
  }

  /** The search misses no match of three or more bytes in the window, as long as no more than 8192
      positions on the way have one of the two hash values: it finds its length, at a distance no
      larger. */
  lemma SearchMissesNothing(q: Query, ws: nat, dist: nat, k: nat)
    requires ValidQuery(q, ws) && Candidate(q, ws, dist, k) && Rivals(q, ws, q.pos - dist, q.pos) <= MAX_CHAIN_HITS
    ensures k <= SearchAll(q, ws).Length() && k < |SearchAll(q, ws).sub| && SearchAll(q, ws).sub[k] <= dist
  {
    hide *;
    CandidateIs(q, ws, dist, k);
    var nearer := SteadyBefore(q, ws, dist, k);
    CandidateIs(q, ws, nearer, k);
    RivalsGrow(q, ws, q.pos - nearer, q.pos - dist, q.pos, q.pos);
    SteadyReached(q, ws, nearer, k);
  }

  /** Among the last 8192 positions no match of three or more bytes is longer than the one found. */
  lemma NothingLonger(q: Query, ws: nat, dist: nat)
    requires ValidQuery(q, ws) && 0 < dist <= MAX_CHAIN_HITS && dist + ws <= q.pos
    ensures q.pos + q.limit <= |q.data|
    ensures Common(q.data, q.pos, dist, q.limit) >= MIN_MATCH ==>
              Common(q.data, q.pos, dist, q.limit) <= SearchAll(q, ws).Length()
  {
    QueryParts(q, ws);
    hide ValidQuery, SearchAll, Rival, RunLength;
    if Common(q.data, q.pos, dist, q.limit) >= MIN_MATCH {
      SearchMissesNothing(q, ws, dist, Common(q.data, q.pos, dist, q.limit));
    }
  }

  lemma ReachedIs(f: Found, k: nat, dist: nat)
    ensures Reached(f, k, dist) <==> 3 <= k < |f.sub| && f.sub[k] <= dist
    ensures k < |f.sub| ==> f.Length() == |f.sub| - 1
  {
  }

  // ---- The match of a position ----

  /** A position's match is the longest one of the last 8192 positions, and for every length that one of
      them offers the distance recorded is that of the nearest one. */
  lemma NearestMatch(b: Block, pos: nat, dist: nat, k: nat)
    requires InBlock(b, pos) && MIN_MATCH <= k <= MAX_MATCH && pos + k <= b.end
    requires 0 < dist <= MAX_CHAIN_HITS && MatchAt(b.data, pos, dist, k)
    ensures k <= MatchLength(b, pos) && k < |MatchOf(b, pos).sub| && MatchOf(b, pos).sub[k] <= dist
  {
    var limit := FullLimit(b, pos);
    FullQueryValid(b, pos, limit);
    hide ValidQuery, SearchAll, HashAt, Rival;
    var q := QueryAt(b, pos, limit);
    assert Candidate(q, WindowStart(b.start), dist, k);
    SearchMissesNothing(q, WindowStart(b.start), dist, k);
  }
}
