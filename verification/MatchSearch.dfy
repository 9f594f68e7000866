/** Searching the hash chains for the longest match, and the distances of all shorter ones. */
module MatchSearch {
  import opened Prelude
  import opened Symbols
  import opened Tokens
  import opened HashChain
  import opened Runs

  const MAX_CHAIN_HITS: nat := 8192

  // ---- Comparing ----

  /** How many bytes, up to `limit`, at `pos` and `dist` bytes earlier agree. */
  ghost function Common(data: seq<byte>, pos: nat, dist: nat, limit: nat): (n: nat)
    requires dist <= pos && pos + limit <= |data|
    ensures n <= limit
    ensures forall k :: pos <= k < pos + n ==> data[k] == data[k - dist]
    ensures n < limit ==> data[pos + n] != data[pos + n - dist]
    decreases limit
  {
    if limit > 0 && data[pos] == data[pos - dist] then 1 + Common(data, pos + 1, dist, limit - 1) else 0
  }

  lemma CommonUnique(data: seq<byte>, pos: nat, dist: nat, limit: nat, n: nat)
    requires dist <= pos && pos + limit <= |data| && n <= limit
    requires forall k :: pos <= k < pos + n ==> data[k] == data[k - dist]
    requires n < limit ==> data[pos + n] != data[pos + n - dist]
    ensures n == Common(data, pos, dist, limit)
  {
  }

  /** A smaller limit only cuts the count. */
  lemma CommonLimited(data: seq<byte>, pos: nat, dist: nat, limit: nat, k: nat)
    requires dist <= pos && pos + limit <= |data| && k <= limit
    ensures Common(data, pos, dist, k) == Min(k, Common(data, pos, dist, limit))
  {
    CommonUnique(data, pos, dist, k, Min(k, Common(data, pos, dist, limit)));
  }

  /** An n-byte little-endian load. */
  function Load(data: seq<byte>, i: nat, n: nat): nat
    requires i + n <= |data|
    decreases n
  {
    if n == 0 then 0 else data[i] + 256 * Load(data, i + 1, n - 1)
  }

  lemma {:induction false} LoadsEqual(data: seq<byte>, i: nat, j: nat, n: nat)
    requires i + n <= |data| && j + n <= |data|
    ensures Load(data, i, n) == Load(data, j, n) <==> data[i..i + n] == data[j..j + n]
    decreases n
  {
    if n > 0 {
      LoadsEqual(data, i + 1, j + 1, n - 1);
      assert data[i..i + n] == [data[i]] + data[i + 1..i + n] && data[j..j + n] == [data[j]] + data[j + 1..j + n];
    }
  }

  /** Compare eight bytes at a time, then one at a time. */
  method GetMatch(data: seq<byte>, scanStart: nat, matchStart: nat, end: nat) returns (scan: nat)
    requires matchStart <= scanStart <= end <= |data|
    ensures scan == scanStart + Common(data, scanStart, scanStart - matchStart, end - scanStart)
  {
    hide *;
    var dist := scanStart - matchStart;
    var match_ := matchStart;
    scan := scanStart;
    while scan + 8 < end && Load(data, scan, 8) == Load(data, match_, 8)
      invariant scanStart <= scan <= end && match_ == scan - dist
      invariant forall k :: scanStart <= k < scan ==> data[k] == data[k - dist]
    {
      EightEqual(data, scan, match_);
      scan := scan + 8;
      match_ := match_ + 8;
    }
    while scan != end && data[scan] == data[match_]
      invariant scanStart <= scan <= end && match_ == scan - dist
      invariant forall k :: scanStart <= k < scan ==> data[k] == data[k - dist]
      decreases end - scan
    {
      scan := scan + 1;
      match_ := match_ + 1;
    }
    CommonUnique(data, scanStart, dist, end - scanStart, scan - scanStart);
  }

  lemma EightEqual(data: seq<byte>, scan: nat, match_: nat)
    requires match_ <= scan && scan + 8 <= |data| && Load(data, scan, 8) == Load(data, match_, 8)
    ensures forall k :: scan <= k < scan + 8 ==> data[k] == data[k - (scan - match_)]
  {
    hide Load;
    LoadsEqual(data, scan, match_, 8);
    forall k | scan <= k < scan + 8 ensures data[k] == data[k - (scan - match_)] {
      assert data[scan..scan + 8][k - scan] == data[match_..match_ + 8][k - scan];
    }
  }

  // ---- The search as a function ----

  /** What a search has found: the best distance, and for each length k from 2 up to the best
      length the distance sub[k] at which it was first reached. */
  datatype Found = Found(dist: nat, sub: seq<nat>) {
    function Length(): nat {
      if |sub| == 0 then 0 else |sub| - 1
    }
  }

  const NOTHING: Found := Found(0, [0, 0])

  /** Where a search stands: window slot, accumulated distance, chain in use. */
  datatype Place = Place(p: nat, dist: nat, secondary: bool)

  datatype Query = Query(h: HashState, data: seq<byte>, pos: nat, size: nat, limit: nat)

  ghost predicate ValidQuery(q: Query, ws: nat) {
    && ws <= q.pos < q.size <= |q.data| && 2 <= q.limit && q.pos + q.limit <= q.size
    && q.h == HashAt(q.data, ws, q.size, q.pos + 1)
  }

  /** While the distance is inside the window, the slot is that of an inserted position. */
  ghost predicate OnChain(q: Query, ws: nat, at: Place) {
    && at.p < WINDOW_SIZE && at.dist > 0
    && (at.dist < WINDOW_SIZE ==> at.dist + ws <= q.pos && (q.pos - at.dist) % WINDOW_SIZE == at.p)
  }

  ghost function CurrentLength(q: Query, ws: nat, at: Place, best: nat): (n: nat)
    requires ValidQuery(q, ws) && OnChain(q, ws, at) && at.dist < WINDOW_SIZE
    ensures n <= q.limit
  {
    if q.pos + best >= q.size || q.data[q.pos + best] == q.data[q.pos + best - at.dist]
    then Common(q.data, q.pos, at.dist, q.limit)
    else 0
  }

  /** A longer match is recorded for all lengths it adds. */
  function Improve(f: Found, dist: nat, length: nat): Found {
    if length > f.Length() then Found(dist, f.sub + seq(length - f.Length(), i => dist)) else f
  }

  ghost predicate UsesSecondary(q: Query, ws: nat, at: Place, best: nat)
    requires ValidQuery(q, ws) && at.p < WINDOW_SIZE
  {
    at.secondary || (best >= q.h.same[q.pos % WINDOW_SIZE] && q.h.val2 == q.h.second.hashval[at.p])
  }

  ghost function Link(q: Query, ws: nat, p: nat, secondary: bool): (r: nat)
    requires ValidQuery(q, ws) && p < WINDOW_SIZE
    ensures r < WINDOW_SIZE
  {
    if secondary then q.h.second.prev[p] else q.h.first.prev[p]
  }

  /** After one place the search is over, or it goes on to another place. */
  datatype Visited = Stop(found: Found) | Go(found: Found, next: Place)

  ghost function Visit(q: Query, ws: nat, at: Place, f: Found): Visited
    requires ValidQuery(q, ws) && OnChain(q, ws, at) && at.dist < WINDOW_SIZE
  {
    var length := CurrentLength(q, ws, at, f.Length());
    var f' := Improve(f, at.dist, length);
    if length > f.Length() && length >= q.limit then Stop(f')
    else
      var secondary := UsesSecondary(q, ws, at, f'.Length());
      var p := Link(q, ws, at.p, secondary);
      if p == at.p then Stop(f') else Go(f', Place(p, at.dist + Gap(at.p, p), secondary))
  }

  ghost function Search(q: Query, ws: nat, at: Place, f: Found, hits: nat): Found
    requires ValidQuery(q, ws) && OnChain(q, ws, at) && hits > 0
    decreases hits
  {
    if at.dist >= WINDOW_SIZE then f
    else
      match Visit(q, ws, at, f)
      case Stop(f') => f'
      case Go(f', next) =>
        if hits == 1 then f'
        else
          VisitOnChain(q, ws, at, f);
          Search(q, ws, next, f', hits - 1)
  }

  lemma VisitOnChain(q: Query, ws: nat, at: Place, f: Found)
    requires ValidQuery(q, ws) && OnChain(q, ws, at) && at.dist < WINDOW_SIZE && Visit(q, ws, at, f).Go?
    ensures OnChain(q, ws, Visit(q, ws, at, f).next)
  {
    hide ValidQuery, OnChain, CurrentLength, Improve, UsesSecondary, Link;
    LinkOnChain(q, ws, at, Visit(q, ws, at, f).next.secondary);
  }

  /** Links from an inserted slot lead to earlier inserted slots. */
  lemma LinkOnChain(q: Query, ws: nat, at: Place, secondary: bool)
    requires ValidQuery(q, ws) && OnChain(q, ws, at) && at.dist < WINDOW_SIZE
    requires Link(q, ws, at.p, secondary) != at.p
    ensures var p := Link(q, ws, at.p, secondary);
            OnChain(q, ws, Place(p, at.dist + Gap(at.p, p), secondary))
  {
    hide HashAt, ChainOk, SameOk, Next, Sized;
    ChainsOk(q.data, ws, q.size, q.pos + 1);
    var c := if secondary then q.h.second else q.h.first;
    FollowLink(c, ws, q.pos, at.dist, at.p);
  }

  lemma ChainsOk(data: seq<byte>, ws: nat, end: nat, n: nat)
    requires ws < n <= end <= |data|
    ensures var h := HashAt(data, ws, end, n);
            && StateSized(h) && Sized(h.first) && Sized(h.second)
            && ChainOk(h.first, ws, n) && ChainOk(h.second, ws, n)
            && h.val < HASH_SIZE && h.first.head[h.val] == (n - 1) % WINDOW_SIZE
            && SameOk(h.same, data, ws, end, n)
  {
    HashAtOk(data, ws, end, n);
    hide HashAt, ChainOk, SameOk;
  }

  lemma FollowLink(c: Chain, ws: nat, pos: nat, dist: nat, p: nat)
    requires ChainOk(c, ws, pos + 1) && p < WINDOW_SIZE && dist < WINDOW_SIZE && dist + ws <= pos
    requires (pos - dist) % WINDOW_SIZE == p
    requires c.prev[p] != p
    ensures c.prev[p] < WINDOW_SIZE && dist + Gap(p, c.prev[p]) + ws <= pos
    ensures (pos - (dist + Gap(p, c.prev[p]))) % WINDOW_SIZE == c.prev[p]
  {
    hide Latest;
    LatestSlot(p, pos + 1, pos - dist);
    assert Inserted(p, ws, pos + 1);
    GapSlot(p, c.prev[p], pos - dist);
  }

  ghost function FirstPlace(q: Query, ws: nat): (at: Place)
    requires ValidQuery(q, ws)
  {
    var pp := q.pos % WINDOW_SIZE;
    var p := Link(q, ws, pp, false);
    Place(p, Gap(pp, p), false)
  }

  lemma FirstOnChain(q: Query, ws: nat)
    requires ValidQuery(q, ws)
    ensures OnChain(q, ws, FirstPlace(q, ws))
  {
    hide HashAt, ChainOk, SameOk, Next, Sized;
    ChainsOk(q.data, ws, q.size, q.pos + 1);
    if Link(q, ws, q.pos % WINDOW_SIZE, false) != q.pos % WINDOW_SIZE {
      FollowLink(q.h.first, ws, q.pos, 0, q.pos % WINDOW_SIZE);
    }
  }

  ghost function SearchAll(q: Query, ws: nat): Found
    requires ValidQuery(q, ws)
  {
    FirstOnChain(q, ws);
    Search(q, ws, FirstPlace(q, ws), NOTHING, MAX_CHAIN_HITS)
  }

  // ---- Every result is a true match ----

  /** All recorded distances, up to `far`, are those of true matches, and they do not decrease. */
  ghost predicate Sound(q: Query, ws: nat, f: Found, far: nat) {
    && |f.sub| >= 2 && f.Length() <= q.limit && q.pos + q.limit <= |q.data|
    && (forall k :: 2 <= k <= f.Length() ==>
          1 <= f.sub[k] <= far && f.sub[k] < WINDOW_SIZE && f.sub[k] + ws <= q.pos
            && MatchAt(q.data, q.pos, f.sub[k], k))
    && (forall j, k :: 2 <= j <= k <= f.Length() ==> f.sub[j] <= f.sub[k])
    && (f.Length() >= 2 ==> f.dist == f.sub[f.Length()])
  }

  lemma ImproveSound(q: Query, ws: nat, at: Place, f: Found)
    requires ValidQuery(q, ws) && OnChain(q, ws, at) && at.dist < WINDOW_SIZE
    requires Sound(q, ws, f, at.dist)
    ensures Sound(q, ws, Improve(f, at.dist, CurrentLength(q, ws, at, f.Length())), at.dist)
  {
    hide HashAt;
  }

  lemma VisitSound(q: Query, ws: nat, at: Place, f: Found)
    requires ValidQuery(q, ws) && OnChain(q, ws, at) && at.dist < WINDOW_SIZE
    requires Sound(q, ws, f, at.dist)
    ensures Sound(q, ws, Visit(q, ws, at, f).found, at.dist)
    ensures Visit(q, ws, at, f).Go? ==> at.dist <= Visit(q, ws, at, f).next.dist
  {
    hide ValidQuery, OnChain, CurrentLength, Improve, UsesSecondary, Link, Sound;
    ImproveSound(q, ws, at, f);
  }

  lemma {:induction false} SearchSound(q: Query, ws: nat, at: Place, f: Found, hits: nat) returns (far: nat)
    requires ValidQuery(q, ws) && OnChain(q, ws, at) && hits > 0
    requires Sound(q, ws, f, at.dist)
    ensures Sound(q, ws, Search(q, ws, at, f, hits), far)
    decreases hits
  {
    hide ValidQuery, OnChain, Sound, Visit;
    far := at.dist;
    if at.dist < WINDOW_SIZE {
      VisitSound(q, ws, at, f);
      match Visit(q, ws, at, f)
      case Stop(_) =>
      case Go(f', next) =>
        if hits > 1 {
          VisitOnChain(q, ws, at, f);
          SoundFarther(q, ws, f', at.dist, next.dist);
          far := SearchSound(q, ws, next, f', hits - 1);
        }
    }
  }

  lemma SoundFarther(q: Query, ws: nat, f: Found, far: nat, farther: nat)
    requires Sound(q, ws, f, far) && far <= farther
    ensures Sound(q, ws, f, farther)
  {
  }

  /** Every distance that a search from a reachable state reports is that of a true match. */
  lemma SearchAllSound(q: Query, ws: nat) returns (far: nat)
    requires ValidQuery(q, ws)
    ensures Sound(q, ws, SearchAll(q, ws), far)
  {
    FirstOnChain(q, ws);
    hide Search;
    far := SearchSound(q, ws, FirstPlace(q, ws), NOTHING, MAX_CHAIN_HITS);
  }

  // ---- A search with a smaller limit ----

  ghost function Limited(q: Query, k: nat): Query
  {
    q.(limit := k)
  }

  lemma VisitKeeps(q: Query, ws: nat, at: Place, f: Found)
    requires ValidQuery(q, ws) && OnChain(q, ws, at) && at.dist < WINDOW_SIZE
    ensures f.sub <= Visit(q, ws, at, f).found.sub
    ensures |f.sub| >= 2 && f.Length() < CurrentLength(q, ws, at, f.Length()) ==>
              var r := Visit(q, ws, at, f).found;
              r.Length() == CurrentLength(q, ws, at, f.Length()) && forall k :: f.Length() < k <= r.Length() ==>
                r.sub[k] == at.dist
  {
    hide ValidQuery, OnChain, CurrentLength, UsesSecondary, Link;
  }

  lemma {:induction false} SearchKeeps(q: Query, ws: nat, at: Place, f: Found, hits: nat)
    requires ValidQuery(q, ws) && OnChain(q, ws, at) && hits > 0
    ensures f.sub <= Search(q, ws, at, f, hits).sub
    ensures at.dist < WINDOW_SIZE ==> Visit(q, ws, at, f).found.sub <= Search(q, ws, at, f, hits).sub
    decreases hits
  {
    hide ValidQuery, OnChain, Visit;
    if at.dist < WINDOW_SIZE {
      VisitKeeps(q, ws, at, f);
      match Visit(q, ws, at, f)
      case Stop(_) =>
      case Go(f', next) =>
        if hits > 1 {
          VisitOnChain(q, ws, at, f);
          SearchKeeps(q, ws, next, f', hits - 1);
        }
    }
  }

  lemma LengthLimited(q: Query, ws: nat, at: Place, best: nat, k: nat)
    requires ValidQuery(q, ws) && OnChain(q, ws, at) && at.dist < WINDOW_SIZE && 2 <= k <= q.limit
    ensures ValidQuery(Limited(q, k), ws) && OnChain(Limited(q, k), ws, at)
    ensures CurrentLength(Limited(q, k), ws, at, best) == Min(k, CurrentLength(q, ws, at, best))
  {
    hide HashAt, Common;
    LimitedValid(q, ws, k);
    CommonLimited(q.data, q.pos, at.dist, q.limit, k);
  }

  lemma LimitedValid(q: Query, ws: nat, k: nat)
    requires ValidQuery(q, ws) && 2 <= k <= q.limit
    ensures ValidQuery(Limited(q, k), ws)
  {
    hide HashAt;
  }

  lemma SameLinks(q: Query, ws: nat, at: Place, best: nat, k: nat)
    requires ValidQuery(q, ws) && ValidQuery(Limited(q, k), ws) && at.p < WINDOW_SIZE
    ensures UsesSecondary(q, ws, at, best) == UsesSecondary(Limited(q, k), ws, at, best)
    ensures forall secondary :: Link(q, ws, at.p, secondary) == Link(Limited(q, k), ws, at.p, secondary)
  {
    hide HashAt;
  }

  /** What is left of a result below length k + 1. */
  ghost function CutAt(f: Found, k: nat): Found {
    if f.Length() < k || |f.sub| <= k then f else Found(f.sub[k], f.sub[..k + 1])
  }

  lemma ImproveCut(f: Found, dist: nat, length: nat, k: nat)
    requires |f.sub| >= 2 && f.Length() < k <= length
    ensures Improve(f, dist, k) == CutAt(Improve(f, dist, length), k)
  {
  }

  lemma CutPrefix(f: Found, g: Found, k: nat)
    requires f.sub <= g.sub && k <= f.Length() && |f.sub| > 0
    ensures CutAt(f, k) == CutAt(g, k)
  {
  }

  /** At a place with a common length below k both searches do the same; at the first place that
      reaches k the limited search stops with what the other one records up to k. */
  lemma VisitLockstep(q: Query, ws: nat, at: Place, f: Found, k: nat)
    requires ValidQuery(q, ws) && OnChain(q, ws, at) && at.dist < WINDOW_SIZE
    requires |f.sub| >= 2 && f.Length() < k && 2 <= k <= q.limit
    ensures ValidQuery(Limited(q, k), ws) && OnChain(Limited(q, k), ws, at)
    ensures var r := Visit(Limited(q, k), ws, at, f);
            if CurrentLength(q, ws, at, f.Length()) < k
            then r == Visit(q, ws, at, f) && r.found.Length() < k && |r.found.sub| >= 2
            else r == Stop(CutAt(Visit(q, ws, at, f).found, k)) && k <= Visit(q, ws, at, f).found.Length()
  {
    hide *;
    var length := CurrentLength(q, ws, at, f.Length());
    LengthLimited(q, ws, at, f.Length(), k);
    VisitIs(q, ws, at, f);
    VisitIs(Limited(q, k), ws, at, f);
    LimitedIs(q, k);
    if length >= k {
      ImproveCut(f, at.dist, length, k);
      ImproveRecorded(f, at.dist, length);
    } else {
      SameLinks(q, ws, at, Improve(f, at.dist, length).Length(), k);
      if length > f.Length() { ImproveRecorded(f, at.dist, length); } else { NoImprovement(f, at.dist, length); }
    }
  }

  lemma LimitedIs(q: Query, k: nat)
    ensures Limited(q, k).limit == k
  {
  }

  lemma VisitIs(q: Query, ws: nat, at: Place, f: Found)
    requires ValidQuery(q, ws) && OnChain(q, ws, at) && at.dist < WINDOW_SIZE
    ensures at.p < WINDOW_SIZE
    ensures var length := CurrentLength(q, ws, at, f.Length());
            var f' := Improve(f, at.dist, length);
            var secondary := UsesSecondary(q, ws, at, f'.Length());
            var p := Link(q, ws, at.p, secondary);
            && Visit(q, ws, at, f).found == f'
            && Visit(q, ws, at, f)
               == if length > f.Length() && length >= q.limit then Stop(f')
                  else if p == at.p then Stop(f') else Go(f', Place(p, at.dist + Gap(at.p, p), secondary))
  {
    hide ValidQuery, CurrentLength, Improve, UsesSecondary, Link, Gap;
  }

  /** Both searches visit the same places until the length k is reached, if it is. */
  lemma {:induction false} SearchLockstep(q: Query, ws: nat, at: Place, f: Found, hits: nat, k: nat)
    requires ValidQuery(q, ws) && OnChain(q, ws, at) && hits > 0
    requires |f.sub| >= 2 && f.Length() < k && 2 <= k <= q.limit
    ensures ValidQuery(Limited(q, k), ws) && OnChain(Limited(q, k), ws, at)
    ensures Search(Limited(q, k), ws, at, f, hits) == CutAt(Search(q, ws, at, f, hits), k)
    decreases hits
  {
    hide ValidQuery, OnChain, Visit, CurrentLength;
    if at.dist >= WINDOW_SIZE {
      LimitedOnChain(q, ws, at, k);
    } else {
      VisitLockstep(q, ws, at, f, k);
      if CurrentLength(q, ws, at, f.Length()) >= k {
        SearchKeeps(q, ws, at, f, hits);
        CutPrefix(Visit(q, ws, at, f).found, Search(q, ws, at, f, hits), k);
      } else if Visit(q, ws, at, f).Go? && hits > 1 {
        VisitOnChain(q, ws, at, f);
        SearchLockstep(q, ws, Visit(q, ws, at, f).next, Visit(q, ws, at, f).found, hits - 1, k);
      }
    }
  }

  lemma LimitedOnChain(q: Query, ws: nat, at: Place, k: nat)
    requires ValidQuery(q, ws) && OnChain(q, ws, at) && 2 <= k <= q.limit
    ensures ValidQuery(Limited(q, k), ws) && OnChain(Limited(q, k), ws, at)
  {
    hide HashAt;
    LimitedValid(q, ws, k);
  }

  /** Searching again from the same state with any limit k finds the same match if it is shorter than
      k, and otherwise exactly length k at the distance recorded for it; all shorter lengths get the
      same distances. */
  lemma LimitedSearch(q: Query, ws: nat, k: nat)
    requires ValidQuery(q, ws) && 2 <= k <= q.limit
    ensures ValidQuery(Limited(q, k), ws)
    ensures var full, r := SearchAll(q, ws), SearchAll(Limited(q, k), ws);
            if full.Length() < k then r == full
            else k < |full.sub| && r.Length() == k && r.dist == full.sub[k] && r.sub == full.sub[..k + 1]
  {
    LimitedValid(q, ws, k);
    FirstOnChain(q, ws);
    hide Search, HashAt;
    SearchLockstep(q, ws, FirstPlace(q, ws), NOTHING, MAX_CHAIN_HITS, k);
  }

  // ---- The search loop ----

  /** The common length at one distance, with the shortcut through a run of equal bytes. */
  method CompareAt(h: Hash, data: seq<byte>, pos: nat, size: nat, limit: nat, dist: nat, best: nat, ghost ws: nat)
    returns (currentLength: nat)
    requires ws <= pos < size <= |data| && pos + limit <= size && 0 < dist < WINDOW_SIZE && dist + ws <= pos
    requires |h.same| == WINDOW_SIZE && SameOk(h.same, data, ws, size, pos + 1)
    ensures currentLength
            == (if pos + best >= size || data[pos + best] == data[pos + best - dist] then Common(data, pos, dist, limit)
                else 0)
  {
    hide Common, SameOk, MatchAt;
    currentLength := 0;
    NoSkip(data, pos, dist);
    if pos + best >= size || data[pos + best] == data[pos - dist + best] {
      var skip := 0;
      if h.same[pos % WINDOW_SIZE] > 2 && data[pos] == data[pos - dist] {
        skip := Min(Min(h.same[(pos - dist) % WINDOW_SIZE], h.same[pos % WINDOW_SIZE]), limit);
        SameRuns(h.same, data, ws, size, pos, dist, skip);
      }
      var scan := GetMatch(data, pos + skip, pos - dist + skip, pos + limit);
      currentLength := scan - pos;
      CommonSkip(data, pos, dist, limit, skip);
    }
  }

  lemma NoSkip(data: seq<byte>, pos: nat, dist: nat)
    requires dist <= pos <= |data|
    ensures MatchAt(data, pos, dist, 0)
  {
  }

  lemma CommonSkip(data: seq<byte>, pos: nat, dist: nat, limit: nat, n: nat)
    requires dist <= pos && pos + limit <= |data| && n <= limit && MatchAt(data, pos, dist, n)
    ensures Common(data, pos, dist, limit) == n + Common(data, pos + n, dist, limit - n)
  {
    CommonUnique(data, pos, dist, limit, n + Common(data, pos + n, dist, limit - n));
  }

  /** Two runs of the same byte agree for as long as both last. */
  lemma SameRuns(same: seq<nat>, data: seq<byte>, ws: nat, end: nat, pos: nat, dist: nat, n: nat)
    requires ws <= pos < end <= |data| && SameOk(same, data, ws, end, pos + 1)
    requires 0 < dist < WINDOW_SIZE && dist + ws <= pos && data[pos] == data[pos - dist]
    requires n <= same[pos % WINDOW_SIZE] && n <= same[(pos - dist) % WINDOW_SIZE]
    ensures MatchAt(data, pos, dist, n)
  {
    hide Latest, RunLength;
    LatestSlot(pos % WINDOW_SIZE, pos + 1, pos);
    LatestSlot((pos - dist) % WINDOW_SIZE, pos + 1, pos - dist);
    assert same[pos % WINDOW_SIZE] == RunLength(data, pos, end);
    assert same[(pos - dist) % WINDOW_SIZE] == RunLength(data, pos - dist, end);
  }

  /** The distances recorded for the lengths found so far are in the array, if there is one. */
  ghost predicate Recorded(sublen: array?<nat>, f: Found)
    reads sublen
  {
    sublen != null ==> |f.sub| <= sublen.Length && forall k :: 2 <= k < |f.sub| ==> sublen[k] == f.sub[k]
  }

  lemma ImproveRecorded(f: Found, dist: nat, length: nat)
    requires |f.sub| >= 2 && length > f.Length()
    ensures var g := Improve(f, dist, length);
            && g.dist == dist && g.Length() == length && |g.sub| == length + 1
            && (forall k :: 0 <= k < |f.sub| ==> g.sub[k] == f.sub[k])
            && (forall k :: |f.sub| <= k <= length ==> g.sub[k] == dist)
  {
  }

  /** Record a longer match. */
  method TakeMatch(sublen: array?<nat>, dist: nat, bestLength: nat, length: nat, ghost f: Found)
    returns (ghost g: Found)
    requires |f.sub| >= 2 && length > f.Length() == bestLength && Recorded(sublen, f)
    requires sublen != null ==> length < sublen.Length
    modifies if sublen == null then {} else {sublen}
    ensures g == Improve(f, dist, length) && Recorded(sublen, g)
    ensures g.dist == dist && g.Length() == length && |g.sub| >= 2
  {
    ImproveRecorded(f, dist, length);
    g := Improve(f, dist, length);
    if sublen != null {
      FillSublen(sublen, bestLength + 1, length, dist);
    }
  }

  /** What the search loop keeps in its variables. */
  ghost predicate Tracks(q: Query, ws: nat, at: Place, f: Found, bestDist: nat, bestLength: nat, sublen: array?<nat>)
    reads sublen
    requires ValidQuery(q, ws)
  {
    OnChain(q, ws, at) && bestDist == f.dist && bestLength == f.Length() && |f.sub| >= 2 && Recorded(sublen, f)
  }

  lemma TracksIs(q: Query, ws: nat, at: Place, f: Found, bestDist: nat, bestLength: nat, sublen: array?<nat>)
    requires ValidQuery(q, ws) && Tracks(q, ws, at, f, bestDist, bestLength, sublen)
    ensures OnChain(q, ws, at) && bestDist == f.dist && bestLength == f.Length() && |f.sub| >= 2 && Recorded(sublen, f)
  {
    hide ValidQuery, OnChain, Recorded;
  }

  lemma RunsHeld(h: Hash)
    requires StateSized(h.State())
    ensures h.State().same == h.same && |h.same| == WINDOW_SIZE
  {
  }

  /** Compare at one place, and record the match if it is longer than the best one so far. */
  method TryMatch(h: Hash, data: seq<byte>, pos: nat, size: nat, limit: nat, sublen: array?<nat>, ghost ws: nat,
                  dist: nat, bestDist: nat, bestLength: nat, ghost q: Query, ghost f: Found, ghost at: Place)
    returns (reached: bool, bestDist': nat, bestLength': nat, ghost g: Found)
    requires ValidQuery(q, ws) && q == Query(h.State(), data, pos, size, limit) && dist == at.dist < WINDOW_SIZE
    requires Tracks(q, ws, at, f, bestDist, bestLength, sublen)
    requires sublen != null ==> limit < sublen.Length
    modifies if sublen == null then {} else {sublen}
    ensures var length := CurrentLength(q, ws, at, f.Length());
            && g == Improve(f, dist, length)
            && reached == (length > f.Length() && length >= limit)
    ensures bestDist' == g.dist && bestLength' == g.Length() && |g.sub| >= 2 && Recorded(sublen, g)
  {
    hide *;
    QueryParts(q, ws);
    RunsHeld(h);
    TracksIs(q, ws, at, f, bestDist, bestLength, sublen);
    LengthIs(q, ws, at, bestLength);
    bestDist', bestLength', g := bestDist, bestLength, f;
    var currentLength := CompareAt(h, data, pos, size, limit, dist, bestLength, ws);
    if currentLength > bestLength {
      LengthFits(q, ws, at, bestLength);
      g := TakeMatch(sublen, dist, bestLength, currentLength, f);
      bestDist', bestLength' := dist, currentLength;
    } else {
      NoImprovement(f, dist, currentLength);
    }
    reached := currentLength > bestLength && currentLength >= limit;
  }

  /** One place of the chain: compare, record, and find the next place. */
  method VisitPlace(h: Hash, data: seq<byte>, pos: nat, size: nat, limit: nat, sublen: array?<nat>, ghost ws: nat,
                    p: nat, dist: nat, usingSecondary: bool, bestDist: nat, bestLength: nat, ghost q: Query,
                      ghost f: Found)
    returns (stop: bool, p': nat, dist': nat, secondary': bool, bestDist': nat, bestLength': nat)
    requires ValidQuery(q, ws) && q == Query(h.State(), data, pos, size, limit) && dist < WINDOW_SIZE
    requires Tracks(q, ws, Place(p, dist, usingSecondary), f, bestDist, bestLength, sublen)
    requires sublen != null ==> limit < sublen.Length
    modifies if sublen == null then {} else {sublen}
    ensures var r := Visit(q, ws, Place(p, dist, usingSecondary), f);
            && bestDist' == r.found.dist && bestLength' == r.found.Length() && |r.found.sub| >= 2
            && Recorded(sublen, r.found)
            && (if stop then r.Stop? else r.Go? && r.next == Place(p', dist', secondary'))
  {
    hide ValidQuery, OnChain, CurrentLength, Improve, Recorded;
    QueryParts(q, ws);
    LengthIs(q, ws, Place(p, dist, usingSecondary), bestLength);
    p', dist', secondary' := p, dist, usingSecondary;
    ghost var g;
    stop, bestDist', bestLength', g :=
      TryMatch(h, data, pos, size, limit, sublen, ws, dist, bestDist, bestLength, q, f, Place(p, dist, usingSecondary));
    if stop {
      return;
    }
    if !usingSecondary && bestLength' >= h.same[pos % WINDOW_SIZE] && h.val2 == h.hashval2[p] {
      secondary' := true;
    }
    p' := if secondary' then h.prev2[p] else h.prev[p];
    stop := p' == p;
    if !stop {
      dist' := dist + Gap(p, p');
    }
  }

  lemma QueryParts(q: Query, ws: nat)
    requires ValidQuery(q, ws)
    ensures StateSized(q.h) && Sized(q.h.first) && Sized(q.h.second)
    ensures q.h.first.head[q.h.val] == q.pos % WINDOW_SIZE
    ensures ws <= q.pos < q.size <= |q.data| && 2 <= q.limit && q.pos + q.limit <= q.size
    ensures SameOk(q.h.same, q.data, ws, q.size, q.pos + 1)
  {
    hide HashAt, ChainOk, SameOk;
    ChainsOk(q.data, ws, q.size, q.pos + 1);
  }

  lemma LengthFits(q: Query, ws: nat, at: Place, best: nat)
    requires ValidQuery(q, ws) && OnChain(q, ws, at) && at.dist < WINDOW_SIZE
    ensures CurrentLength(q, ws, at, best) <= q.limit
  {
  }

  lemma NoImprovement(f: Found, dist: nat, length: nat)
    requires length <= f.Length()
    ensures Improve(f, dist, length) == f
  {
  }

  lemma LengthIs(q: Query, ws: nat, at: Place, best: nat)
    requires ValidQuery(q, ws) && OnChain(q, ws, at) && at.dist < WINDOW_SIZE
    ensures 0 < at.dist && at.dist + ws <= q.pos && at.p < WINDOW_SIZE
    ensures CurrentLength(q, ws, at, best)
              == (if q.pos + best >= q.size || q.data[q.pos + best] == q.data[q.pos + best - at.dist]
                  then Common(q.data, q.pos, at.dist, q.limit) else 0)
  {
    hide HashAt, Common;
  }

  /** Follow the chains: the whole search. */
  method SearchChains(h: Hash, data: seq<byte>, pos: nat, size: nat, limit: nat, sublen: array?<nat>, ghost ws: nat)
    returns (bestDist: nat, bestLength: nat)
    requires ValidQuery(Query(h.State(), data, pos, size, limit), ws)
    requires sublen != null ==> 2 <= limit < sublen.Length
    modifies if sublen == null then {} else {sublen}
    ensures var f := SearchAll(Query(h.State(), data, pos, size, limit), ws);
            bestDist == f.dist && bestLength == f.Length() && Recorded(sublen, f)
  {
    ghost var q := Query(h.State(), data, pos, size, limit);
    hide ValidQuery, Visit, OnChain, Recorded, Search;
    QueryParts(q, ws);
    NothingRecorded(sublen);
    FirstOnChain(q, ws);
    bestDist, bestLength := 0, 1;
    var usingSecondary := false;
    var pp := h.head[h.val];
    var p := h.prev[pp];
    var dist: nat := Gap(pp, p);
    var chainCounter := MAX_CHAIN_HITS;
    ghost var f := NOTHING;
    while dist < WINDOW_SIZE
      invariant chainCounter > 0
      invariant Tracks(q, ws, Place(p, dist, usingSecondary), f, bestDist, bestLength, sublen)
      invariant Search(q, ws, Place(p, dist, usingSecondary), f, chainCounter) == SearchAll(q, ws)
      decreases chainCounter
    {
      ghost var at := Place(p, dist, usingSecondary);
      var stop;
      ghost var r := Visit(q, ws, at, f);
      SearchStep(q, ws, at, f, chainCounter);
      stop, p, dist, usingSecondary, bestDist, bestLength :=
        VisitPlace(h, data, pos, size, limit, sublen, ws, p, dist, usingSecondary, bestDist, bestLength, q, f);
      if stop {
        return;
      }
      VisitOnChain(q, ws, at, f);
      f := r.found;
      chainCounter := chainCounter - 1;
      if chainCounter <= 0 {
        return;
      }
    }
    SearchStep(q, ws, Place(p, dist, usingSecondary), f, chainCounter);
  }

  lemma NothingRecorded(sublen: array?<nat>)
    requires sublen != null ==> 2 < sublen.Length
    ensures Recorded(sublen, NOTHING)
  {
  }

  lemma SearchStep(q: Query, ws: nat, at: Place, f: Found, hits: nat)
    requires ValidQuery(q, ws) && OnChain(q, ws, at) && hits > 0
    ensures at.dist >= WINDOW_SIZE ==> Search(q, ws, at, f, hits) == f
    ensures at.dist < WINDOW_SIZE && (Visit(q, ws, at, f).Stop? || hits == 1) ==>
            Search(q, ws, at, f, hits) == Visit(q, ws, at, f).found
    ensures at.dist < WINDOW_SIZE && Visit(q, ws, at, f).Go? && hits > 1 ==>
              && OnChain(q, ws, Visit(q, ws, at, f).next)
              && Search(q, ws, at, f, hits)
                 == Search(q, ws, Visit(q, ws, at, f).next, Visit(q, ws, at, f).found, hits - 1)
  {
    hide ValidQuery, OnChain, Visit;
    if at.dist < WINDOW_SIZE && Visit(q, ws, at, f).Go? { VisitOnChain(q, ws, at, f); }
  }
}
