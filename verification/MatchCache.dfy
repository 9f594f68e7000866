/** The cache of longest matches: per position a distance, a length, a run length, and runs of
    shorter matches' distances in a shared arena with a budget. */
module MatchCache {
  import opened Prelude
  import opened Symbols
  import opened Runs

  const LENGTH_NO_MATCH: nat := 0
  const LENGTH_UNFILLED: nat := 1
  const LENGTH_INCOMPLETE: nat := 2
  const CACHED_RUNS_PER_INPUT_BYTE: nat := 12
  const CACHE_LENGTH: nat := 8

  function RunBudgetForBlock(blocksize: int): (r: nat)
    ensures r == (if blocksize <= 0 then 0 else blocksize * 12)
  {
    if blocksize <= 0 then 0 else blocksize * CACHED_RUNS_PER_INPUT_BYTE
  }

  /** What a position's full search found: run length of equal bytes, distance, and the distances
      for all lengths up to the longest. */
  datatype Entry = Entry(same: nat, dist: nat, sub: seq<nat>)

  /** Lengths below the minimum count as no match. */
  function CachedLength(e: Entry): nat {
    if |e.sub| <= MIN_MATCH then 0 else |e.sub| - 1
  }

  ghost predicate ValidEntry(e: Entry) {
    |e.sub| <= MAX_MATCH + 1 && (|e.sub| > MIN_MATCH ==> e.sub[|e.sub| - 1] == e.dist)
  }

  /** What the cache stands for: one entry per position of the block. */
  ghost predicate Stands(entries: seq<Entry>, length: seq<nat>, dist: seq<nat>, same: seq<nat>,
                         runCount: seq<nat>, runStart: seq<nat>, runs: seq<SublenRun>)
  {
    && |entries| == |length| == |dist| == |same| == |runCount| == |runStart|
    && (forall i :: 0 <= i < |entries| ==> ValidEntry(entries[i]))
    && forall i :: 0 <= i < |entries| ==>
         length[i] != LENGTH_UNFILLED && length[i] != LENGTH_INCOMPLETE ==>
           EntryStored(entries[i], length[i], dist[i], same[i], runCount[i], runStart[i], runs)
  }

  ghost predicate EntryStored(e: Entry, length: nat, dist: nat, same: nat, runCount: nat, runStart: nat,
                              runs: seq<SublenRun>) {
    && length == CachedLength(e)
    && dist == (if length == 0 then 0 else e.dist)
    && same == e.same
    && runStart + runCount <= |runs|
    && runs[runStart..runStart + runCount] == (if length == 0 then [] else RunsFrom(e.sub, MIN_MATCH))
  }

  lemma StoredGrows(e: Entry, length: nat, dist: nat, same: nat, runCount: nat, runStart: nat, runs: seq<SublenRun>,
                    runs': seq<SublenRun>)
    requires EntryStored(e, length, dist, same, runCount, runStart, runs) && runs <= runs'
    ensures EntryStored(e, length, dist, same, runCount, runStart, runs')
  {
    assert runs'[runStart..runStart + runCount] == runs[runStart..runStart + runCount];
  }

  /** How many runs an entry takes in the arena. */
  function RunsOf(e: Entry): nat {
    if CachedLength(e) == 0 then 0 else |RunsFrom(e.sub, MIN_MATCH)|
  }

  /** Which entries are stored, and how far the arena is filled. */
  datatype Filling = Filling(length: seq<nat>, used: nat, budget: nat, exceeded: bool)

  /** Storing an entry: a filled one stays; a match needs recorded distances, and runs within the
      budget, to become complete. */
  function AfterStore(f: Filling, e: Entry, pos: nat, recorded: bool): Filling
    requires pos < |f.length|
  {
    if f.length[pos] != LENGTH_UNFILLED then f
    else if CachedLength(e) == 0 then f.(length := f.length[pos := LENGTH_NO_MATCH])
    else if !recorded then f.(length := f.length[pos := LENGTH_INCOMPLETE])
    else if f.used + RunsOf(e) <= f.budget then
      f.(length := f.length[pos := CachedLength(e)], used := f.used + RunsOf(e))
    else f.(length := f.length[pos := LENGTH_INCOMPLETE], exceeded := true)
  }

  class LongestMatchCache {
    var built: bool
    var runBudgetExceeded: bool
    var runBudget: nat
    var length: seq<nat>
    var dist: seq<nat>
    var same: seq<nat>
    var runCount: seq<nat>
    var runStart: seq<nat>
    var runs: seq<SublenRun>
    var capacity: nat
    ghost var entries: seq<Entry>

    /** Complete entries are those of their positions; the arena stays within its budget. */
    ghost predicate Valid()
      reads this
    {
      && Stands(entries, length, dist, same, runCount, runStart, runs)
      && |runs| <= capacity <= runBudget
      && (built ==> forall i :: 0 <= i < |length| ==> length[i] != LENGTH_UNFILLED && length[i] != LENGTH_INCOMPLETE)
    }

    function Fill(): Filling
      reads this
    {
      Filling(length, |runs|, runBudget, runBudgetExceeded)
    }

    constructor ()
      ensures Valid() && entries == [] && !built
    {
      built, runBudgetExceeded, runBudget, capacity := false, false, 0, 0;
      length, dist, same, runCount, runStart, runs, entries := [], [], [], [], [], [], [];
    }

    /** Forget everything; the buffers' contents, but for the lengths, are left from earlier use. */
    method InitWithRunBudget(blocksize: nat, budget: int, ghost newEntries: seq<Entry>)
      requires |newEntries| == blocksize && forall i :: 0 <= i < blocksize ==> ValidEntry(newEntries[i])
      requires Valid()
      modifies this
      ensures Valid() && entries == newEntries && !built
      ensures Fill() == Filling(seq(blocksize, i => LENGTH_UNFILLED), 0, Max(0, budget), false)
    {
      built := false;
      runBudgetExceeded := false;
      runBudget := Max(0, budget);
      dist := Buffer(dist, blocksize);
      same := Buffer(same, blocksize);
      runCount := Buffer(runCount, blocksize);
      runStart := Buffer(runStart, blocksize);
      length := seq(blocksize, i => LENGTH_UNFILLED);
      capacity := Min(capacity, runBudget);
      runs := [];
      entries := newEntries;
    }

    predicate EntryFilled(pos: nat)
      requires pos < |length|
      reads this
    {
      length[pos] != LENGTH_UNFILLED
    }

    predicate EntryComplete(pos: nat)
      requires pos < |length|
      reads this
    {
      length[pos] != LENGTH_UNFILLED && length[pos] != LENGTH_INCOMPLETE
    }

    method SetBuilt(complete: bool)
      requires Valid()
      requires complete ==> forall i :: 0 <= i < |length| ==>
               length[i] != LENGTH_UNFILLED && length[i] != LENGTH_INCOMPLETE
      modifies this`built
      ensures Valid() && built == complete && entries == old(entries) && Fill() == old(Fill())
    {
      hide Stands;
      built := complete;
    }

    /** Make room for `required` runs: double the arena, but never beyond the budget. */
    method EnsureRunCapacity(required: nat) returns (ok: bool)
      requires |runs| <= capacity <= runBudget
      modifies this`capacity, this`runBudgetExceeded
      ensures ok == (required <= runBudget) && runBudgetExceeded == (old(runBudgetExceeded) || !ok)
      ensures |runs| <= capacity <= runBudget && (ok ==> required <= capacity)
    {
      if required > runBudget {
        runBudgetExceeded := true;
        return false;
      }
      if capacity >= required {
        return true;
      }
      var newCapacity := capacity * 2;
      if newCapacity < 64 {
        newCapacity := Min(64, runBudget);
      }
      if newCapacity < required {
        newCapacity := required;
      }
      if newCapacity > runBudget {
        newCapacity := runBudget;
      }
      capacity := newCapacity;
      return true;
    }

    method AppendRun(end: nat, d: nat) returns (ok: bool)
      requires |runs| <= capacity <= runBudget
      modifies this`capacity, this`runBudgetExceeded, this`runs
      ensures |runs| <= capacity <= runBudget
      ensures ok == (|old(runs)| < runBudget) && runBudgetExceeded == (old(runBudgetExceeded) || !ok)
      ensures runs == if ok then old(runs) + [SublenRun(end, d)] else old(runs)
    {
      if |runs| == capacity {
        ok := EnsureRunCapacity(|runs| + 1);
        if !ok {
          return;
        }
      }
      runs := runs + [SublenRun(end, d)];
      ok := true;
    }

    /** Append the run that ends at length `end`; if there is no room, cut the arena back to `start`. */
    method CloseRun(start: nat, end: nat, d: nat, ghost before: seq<SublenRun>, ghost sub: seq<nat>, ghost from: nat)
      returns (ok: bool)
      requires |runs| <= capacity <= runBudget && Encoded(before, runs, sub, from) && start == |before|
      requires from <= end < |sub| && d == sub[from] && (forall j :: from <= j <= end ==> sub[j] == d)
      requires (end + 1 < |sub| ==> sub[end + 1] != d)
      modifies this`capacity, this`runBudgetExceeded, this`runs
      ensures |runs| <= capacity <= runBudget
      ensures runBudgetExceeded == (old(runBudgetExceeded) || !ok)
      ensures if ok then Encoded(before, runs, sub, end + 1)
              && (end + 1 == |sub| ==> runs == before + RunsFrom(sub, MIN_MATCH))
              else runs == before && runBudget < |before| + |RunsFrom(sub, MIN_MATCH)|
    {
      hide RunsFrom, Encoded;
      EncodeRun(before, runs, sub, from, end);
      ok := AppendRun(end, d);
      if !ok {
        runs := runs[..start];
      }
    }

    /** Encode sublen[3..len] at the end of the arena, or leave the arena as it was. */
    method AppendRuns(sublen: array<nat>, len: nat) returns (ok: bool)
      requires |runs| <= capacity <= runBudget && MIN_MATCH <= len < sublen.Length
      modifies this`capacity, this`runBudgetExceeded, this`runs
      ensures |runs| <= capacity <= runBudget
      ensures ok == (|old(runs)| + |RunsFrom(sublen[..len + 1], MIN_MATCH)| <= runBudget)
      ensures runs == if ok then old(runs) + RunsFrom(sublen[..len + 1], MIN_MATCH) else old(runs)
      ensures runBudgetExceeded == (old(runBudgetExceeded) || !ok)
    {
      hide RunsFrom, Encoded;
      var start := |runs|;
      ghost var sub, before, from := sublen[..len + 1], runs, MIN_MATCH;
      NothingEncoded(before, sub);
      var d := sublen[MIN_MATCH];
      for k := MIN_MATCH + 1 to len + 1
        invariant MIN_MATCH <= from < k && d == sub[from] && forall j :: from <= j < k ==> sub[j] == d
        invariant |runs| <= capacity <= runBudget && Encoded(before, runs, sub, from)
        invariant runBudgetExceeded == old(runBudgetExceeded)
      {
        if sublen[k] != d {
          ok := CloseRun(start, k - 1, d, before, sub, from);
          if !ok {
            return;
          }
          d := sublen[k];
          from := k;
        }
      }
      ok := CloseRun(start, len, d, before, sub, from);
    }

    method StoreEmptyRuns(pos: nat)
      requires pos < |runCount| == |runStart|
      modifies this`runCount, this`runStart
      ensures runCount == old(runCount)[pos := 0] && runStart == old(runStart)[pos := |runs|]
    {
      runCount := runCount[pos := 0];
      runStart := runStart[pos := |runs|];
    }

    /** Store the runs of sublen[3..len]; if the budget does not allow it, store none. */
    method StoreRunsFromSublen(pos: nat, sublen: array<nat>, len: nat) returns (complete: bool)
      requires |runs| <= capacity <= runBudget && MIN_MATCH <= len < sublen.Length
      requires pos < |runCount| == |runStart|
      modifies this`capacity, this`runBudgetExceeded, this`runs, this`runCount, this`runStart
      ensures |runs| <= capacity <= runBudget && old(runs) <= runs
      ensures |runCount| == |old(runCount)|
      ensures runCount == old(runCount)[pos := runCount[pos]] && runStart == old(runStart)[pos := |old(runs)|]
      ensures |old(runs)| + runCount[pos] == |runs|
      ensures complete == (|old(runs)| + |RunsFrom(sublen[..len + 1], MIN_MATCH)| <= runBudget)
      ensures runs == if complete then old(runs) + RunsFrom(sublen[..len + 1], MIN_MATCH) else old(runs)
      ensures runBudgetExceeded == (old(runBudgetExceeded) || !complete)
    {
      var start := |runs|;
      RunsCount(sublen[..len + 1], MIN_MATCH);
      var ok := AppendRuns(sublen, len);
      if !ok {
        StoreEmptyRuns(pos);
        return false;
      }
      var count := |runs| - start;
      runCount := runCount[pos := count];
      runStart := runStart[pos := start];
      complete := count != 0;
    }

    /** Store what a search at a position found, unless the position is filled already. */
    method StoreMatch(pos: nat, distance: nat, len: nat, same_: nat, sublen: array?<nat>)
      requires Valid() && pos < |entries| && same_ == entries[pos].same
      requires if len < MIN_MATCH then CachedLength(entries[pos]) == 0
               else |entries[pos].sub| == len + 1 && distance == entries[pos].dist
      requires sublen != null && len >= MIN_MATCH ==>
                 len < sublen.Length && forall k :: MIN_MATCH <= k <= len ==> sublen[k] == entries[pos].sub[k]
      modifies this
      ensures Valid() && entries == old(entries) && built == old(built)
      ensures Fill() == AfterStore(old(Fill()), entries[pos], pos, sublen != null)
    {
      if EntryFilled(pos) {
        return;
      }
      FillEntry(pos, distance, len, same_, sublen);
    }

    method FillEntry(pos: nat, distance: nat, len: nat, same_: nat, sublen: array?<nat>)
      requires Valid() && pos < |entries| && same_ == entries[pos].same && !EntryFilled(pos)
      requires if len < MIN_MATCH then CachedLength(entries[pos]) == 0
               else |entries[pos].sub| == len + 1 && distance == entries[pos].dist
      requires sublen != null && len >= MIN_MATCH ==>
                 len < sublen.Length && forall k :: MIN_MATCH <= k <= len ==> sublen[k] == entries[pos].sub[k]
      modifies this
      ensures Valid() && entries == old(entries) && built == old(built)
      ensures Fill() == AfterStore(old(Fill()), entries[pos], pos, sublen != null)
    {
      hide EntryStored, ValidEntry, RunsFrom;
      ghost var length0, dist0, same0, runCount0, runStart0, runs0 := length, dist, same, runCount, runStart, runs;
      var storedLength := if len < MIN_MATCH then LENGTH_NO_MATCH else len;
      var storedDist := if len < MIN_MATCH then 0 else distance;
      var complete := true;
      if storedLength >= MIN_MATCH {
        if sublen == null {
          complete := false;
          StoreEmptyRuns(pos);
        } else {
          RunsAgree(sublen[..len + 1], entries[pos].sub, MIN_MATCH);
          complete := StoreRunsFromSublen(pos, sublen, len);
        }
      } else {
        StoreEmptyRuns(pos);
      }
      dist := dist[pos := storedDist];
      same := same[pos := same_];
      length := length[pos := if complete then storedLength else LENGTH_INCOMPLETE];
      if complete { StoredIs(entries[pos], length[pos], dist[pos], same[pos], runCount[pos], runStart[pos], runs0,
                             runs); }
      StandsAfterStore(entries, length0, dist0, same0, runCount0, runStart0, runs0, length, dist, same, runCount,
                       runStart, runs, pos);
    }

    /** A complete entry's distance, length and run length. */
    method CachedLongestMatch(pos: nat) returns (d: nat, len: nat, s: nat, ok: bool)
      requires Valid() && pos < |entries|
      ensures ok == EntryComplete(pos)
      ensures ok ==> len == CachedLength(entries[pos]) && s == entries[pos].same
                     && d == (if len == 0 then 0 else entries[pos].dist)
    {
      if !EntryComplete(pos) {
        return 0, 0, 0, false;
      }
      return dist[pos], length[pos], same[pos], true;
    }

    /** A complete entry's runs. */
    method CachedSublenRuns(pos: nat) returns (r: seq<SublenRun>, ok: bool)
      requires Valid() && pos < |entries|
      ensures ok == EntryComplete(pos)
      ensures ok ==> r == (if CachedLength(entries[pos]) == 0 then [] else RunsFrom(entries[pos].sub, MIN_MATCH))
    {
      if !EntryComplete(pos) {
        return [], false;
      }
      return runs[runStart[pos]..runStart[pos] + runCount[pos]], true;
    }

    /** The distance for a given length: exactly what the search recorded for it. */
    method CachedDistanceForLength(pos: nat, len: nat) returns (d: nat, ok: bool)
      requires Valid() && pos < |entries|
      ensures ok == (EntryComplete(pos) && MIN_MATCH <= len <= CachedLength(entries[pos]))
      ensures ok ==> d == entries[pos].sub[len]
    {
      hide Valid, Stands, RunsFrom, ValidEntry;
      StoredRuns(pos);
      if len < MIN_MATCH || !EntryComplete(pos) || len > length[pos] {
        return 0, false;
      }
      if len == length[pos] {
        return dist[pos], true;
      }
      RunsDecode(entries[pos].sub, MIN_MATCH, len);
      d := FindRun(runs[runStart[pos]..runStart[pos] + runCount[pos]], len);
      ok := true;
    }

    lemma StoredRuns(pos: nat)
      requires Valid() && pos < |entries|
      ensures pos < |runCount| == |runStart| == |length| == |dist|
      ensures EntryComplete(pos) ==>
              length[pos] == CachedLength(entries[pos]) && runStart[pos] + runCount[pos] <= |runs|
      ensures EntryComplete(pos) ==>
              runs[runStart[pos]..runStart[pos] + runCount[pos]]
                == (if length[pos] == 0 then [] else RunsFrom(entries[pos].sub, MIN_MATCH))
      ensures EntryComplete(pos) && length[pos] > 0 ==>
              length[pos] < |entries[pos].sub| && dist[pos] == entries[pos].sub[length[pos]]
    {
      hide RunsFrom;
    }

    /** A complete entry's runs in fixed-size buffers, if they fit. */
    method CompactSublen(pos: nat, len: nat) returns (maxLength: nat, ends: seq<nat>, dists: seq<nat>, ok: bool)
      requires Valid() && pos < |entries|
      ensures ok == (len >= MIN_MATCH && EntryComplete(pos) && CachedLength(entries[pos]) > 0
                     && |RunsFrom(entries[pos].sub, MIN_MATCH)| <= CACHE_LENGTH)
      ensures ok ==> maxLength == Min(len, CachedLength(entries[pos])) && |ends| == |dists| == CACHE_LENGTH
      ensures ok ==> var r := RunsFrom(entries[pos].sub, MIN_MATCH);
                0 < |r| <= CACHE_LENGTH
                && (forall i :: 0 <= i < |r| ==> ends[i] == r[i].end && dists[i] == r[i].dist)
                && forall i :: |r| <= i < CACHE_LENGTH ==> ends[i] == maxLength && dists[i] == 0
    {
      hide Stands, RunsFrom, ValidEntry, Valid;
      StoredRuns(pos);
      if |entries[pos].sub| >= MIN_MATCH { RunsCount(entries[pos].sub, MIN_MATCH); }
      if len < MIN_MATCH || !EntryComplete(pos) || runCount[pos] == 0 || runCount[pos] > CACHE_LENGTH {
        return 0, [], [], false;
      }
      var count := runCount[pos];
      var view := runs[runStart[pos]..runStart[pos] + count];
      maxLength := Min(view[count - 1].end, len);
      ends := seq(CACHE_LENGTH, i requires 0 <= i < CACHE_LENGTH => if i < count then view[i].end else maxLength);
      dists := seq(CACHE_LENGTH, i requires 0 <= i < CACHE_LENGTH => if i < count then view[i].dist else 0);
      ok := true;
    }

    /** Decode a complete entry's distances for the lengths from 3 to `len`, and no others. */
    method CacheToSublen(pos: nat, len: nat, sublen: array<nat>)
      requires Valid() && pos < |entries| && EntryComplete(pos) && Min(len, CachedLength(entries[pos])) < sublen.Length
      modifies sublen
      ensures forall k :: 0 <= k < sublen.Length ==>
                sublen[k] == if MIN_MATCH <= k <= Min(len, CachedLength(entries[pos])) then entries[pos].sub[k]
                             else old(sublen[k])
    {
      hide Valid, Stands, RunsFrom, ValidEntry, StartOf;
      if len < MIN_MATCH {
        return;
      }
      StoredRuns(pos);
      ghost var sub, top := entries[pos].sub, CachedLength(entries[pos]);
      var view := runs[runStart[pos]..runStart[pos] + runCount[pos]];
      var prevLength := MIN_MATCH;
      if top > 0 { RunsCount(sub, MIN_MATCH); }
      FirstStart(view);
      for i := 0 to |view|
        invariant if top == 0 then view == [] else view == RunsFrom(sub, MIN_MATCH) && |sub| == top + 1
        invariant prevLength == StartOf(view, MIN_MATCH, i) <= len
        invariant (|view| > 0 && i == |view| ==> prevLength == top + 1)
        invariant prevLength == MIN_MATCH || prevLength <= |sub|
        invariant forall k :: 0 <= k < sublen.Length ==>
                    sublen[k] == if MIN_MATCH <= k < prevLength then sub[k] else old(sublen[k])
      {
        RunAt(sub, MIN_MATCH, i);
        NextStart(view, i);
        var currLength := Min(view[i].end, len);
        if currLength >= prevLength {
          FillSublen(sublen, prevLength, currLength, view[i].dist);
        }
        if currLength == len {
          return;
        }
        prevLength := currLength + 1;
      }
    }
  }

  lemma FirstStart(view: seq<SublenRun>)
    ensures StartOf(view, MIN_MATCH, 0) == MIN_MATCH
  {
  }

  lemma NextStart(view: seq<SublenRun>, i: nat)
    requires i < |view|
    ensures StartOf(view, MIN_MATCH, i + 1) == view[i].end + 1
  {
  }

  /** The first run that reaches a length. */
  method FindRun(view: seq<SublenRun>, len: nat) returns (d: nat)
    requires DistanceIn(view, len).Some?
    ensures DistanceIn(view, len) == Some(d)
  {
    assert view[0..] == view;
    var i := 0;
    while len > view[i].end
      invariant i < |view| && DistanceIn(view[i..], len) == DistanceIn(view, len)
      decreases |view| - i
    {
      assert view[i..][1..] == view[i + 1..];
      i := i + 1;
    }
    d := view[i].dist;
  }

  function Buffer(s: seq<nat>, n: nat): (r: seq<nat>)
    ensures |r| == n
  {
    if |s| < n then seq(n, i => 0) else s[..n]
  }

  /** The arena has grown by the runs for the lengths before `from`. */
  ghost predicate Encoded(before: seq<SublenRun>, runs: seq<SublenRun>, sub: seq<nat>, from: nat) {
    before <= runs && runs + RunsFrom(sub, from) == before + RunsFrom(sub, MIN_MATCH)
  }

  lemma NothingEncoded(before: seq<SublenRun>, sub: seq<nat>)
    ensures Encoded(before, before, sub, MIN_MATCH)
  {
  }

  lemma MoveOne(done: seq<SublenRun>, r: SublenRun, rest: seq<SublenRun>)
    ensures done + [r] + rest == done + ([r] + rest) && done + [r] + [] == done + [r]
  {
  }

  lemma EncodeRun(before: seq<SublenRun>, runs: seq<SublenRun>, sub: seq<nat>, from: nat, e: nat)
    requires Encoded(before, runs, sub, from)
    requires from <= e < |sub| && forall j :: from <= j <= e ==> sub[j] == sub[from]
    requires e + 1 < |sub| ==> sub[e + 1] != sub[from]
    ensures Encoded(before, runs + [SublenRun(e, sub[from])], sub, e + 1)
    ensures |before| <= |runs| < |before| + |RunsFrom(sub, MIN_MATCH)| && runs[..|before|] == before
    ensures e + 1 == |sub| ==> runs + [SublenRun(e, sub[from])] == before + RunsFrom(sub, MIN_MATCH)
  {
    RunEndsAt(sub, from, e);
    hide RunsFrom;
    MoveOne(runs, SublenRun(e, sub[from]), RunsFrom(sub, e + 1));
  }

  lemma {:induction false} RunEndsAt(sub: seq<nat>, from: nat, e: nat)
    requires from <= e < |sub| && forall j :: from <= j <= e ==> sub[j] == sub[from]
    requires e + 1 < |sub| ==> sub[e + 1] != sub[from]
    ensures RunEnd(sub, from) == e
    ensures RunsFrom(sub, from) == [SublenRun(e, sub[from])] + RunsFrom(sub, e + 1)
    ensures e + 1 == |sub| ==> RunsFrom(sub, e + 1) == []
  {
    var r := RunEnd(sub, from);
  }

  /** The runs depend on the distances from their start on only. */
  lemma {:induction false} RunsAgree(sub: seq<nat>, sub': seq<nat>, k: nat)
    requires |sub| == |sub'| && forall j :: k <= j < |sub| ==> sub[j] == sub'[j]
    ensures RunsFrom(sub, k) == RunsFrom(sub', k)
    decreases |sub| - k
  {
    if k < |sub| {
      var e := RunEnd(sub', k);
      RunEndsAt(sub, k, e);
      RunEndsAt(sub', k, e);
      RunsAgree(sub, sub', e + 1);
    }
  }

  lemma StoredIs(e: Entry, length: nat, dist: nat, same: nat, runCount: nat, runStart: nat, runs0: seq<SublenRun>,
                 runs: seq<SublenRun>)
    requires length == CachedLength(e) && dist == (if length == 0 then 0 else e.dist) && same == e.same
    requires runs == runs0 + (if length == 0 then [] else RunsFrom(e.sub, MIN_MATCH))
    requires runStart == |runs0| && runStart + runCount == |runs|
    ensures EntryStored(e, length, dist, same, runCount, runStart, runs)
  {
  }

  /** Storing one entry keeps all others. */
  lemma StandsAfterStore(entries: seq<Entry>, length: seq<nat>, dist: seq<nat>, same: seq<nat>, runCount: seq<nat>,
                         runStart: seq<nat>, runs: seq<SublenRun>,
                         length': seq<nat>, dist': seq<nat>, same': seq<nat>, runCount': seq<nat>, runStart': seq<nat>,
                           runs': seq<SublenRun>, pos: nat)
    requires Stands(entries, length, dist, same, runCount, runStart, runs) && runs <= runs' && pos < |entries|
    requires |entries| == |length'| == |dist'| == |same'| == |runCount'| == |runStart'|
    requires length' == length[pos := length'[pos]] && dist' == dist[pos := dist'[pos]]
    requires same' == same[pos := same'[pos]]
    requires runCount' == runCount[pos := runCount'[pos]] && runStart' == runStart[pos := runStart'[pos]]
    requires length'[pos] == LENGTH_INCOMPLETE
             || EntryStored(entries[pos], length'[pos], dist'[pos], same'[pos], runCount'[pos], runStart'[pos], runs')
    ensures Stands(entries, length', dist', same', runCount', runStart', runs')
  {
    forall i | 0 <= i < |entries| && length'[i] != LENGTH_UNFILLED && length'[i] != LENGTH_INCOMPLETE
      ensures EntryStored(entries[i], length'[i], dist'[i], same'[i], runCount'[i], runStart'[i], runs')
    {
      if i != pos {
        StoredGrows(entries[i], length[i], dist[i], same[i], runCount[i], runStart[i], runs, runs');
      }
    }
  }
}
