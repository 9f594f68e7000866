/** Chunked cumulative histograms: for every chunk of n symbols, the counts up to its end. */
module Histogram {
  import opened Prelude

  /** How often `s` occurs among the first `n` entries; -1 stands for no symbol. */
  ghost function Count(symbols: seq<int>, n: nat, s: int): (c: nat)
    requires n <= |symbols|
    ensures c <= n
  {
    if n == 0 then 0 else Count(symbols, n - 1, s) + (if symbols[n - 1] == s then 1 else 0)
  }

  lemma {:induction false} CountGrows(symbols: seq<int>, n: nat, m: nat, s: int)
    requires n <= m <= |symbols|
    ensures Count(symbols, n, s) <= Count(symbols, m, s)
    decreases m - n
  {
    if n < m { CountGrows(symbols, n, m - 1, s); }
  }

  lemma {:induction false} CountPrefix(symbols: seq<int>, more: seq<int>, n: nat, s: int)
    requires n <= |symbols|
    ensures Count(symbols + more, n, s) == Count(symbols, n, s)
  {
    if n > 0 { CountPrefix(symbols, more, n - 1, s); }
  }

  lemma {:induction false} CountOccurs(symbols: seq<int>, n: nat, i: nat)
    requires i < n <= |symbols|
    ensures Count(symbols, n, symbols[i]) > 0
  {
    if i < n - 1 { CountOccurs(symbols, n - 1, i); }
  }

  /** The chunk sizes in use: one per alphabet. */
  ghost predicate ChunkSize(n: nat) {
    n == 288 || n == 32
  }

  /** Where chunk `c` starts. */
  ghost function ChunkStart(n: nat, c: nat): nat {
    c * n
  }

  /** The chunk that symbol number `i` belongs to. */
  ghost function ChunkIndex(i: nat, n: nat): nat
    requires ChunkSize(n)
  {
    i / n
  }

  /** The number of chunks that `size` symbols fill or begin. */
  ghost function Chunks(size: nat, n: nat): nat
    requires ChunkSize(n)
  {
    (size + n - 1) / n
  }

  /** The number of symbols up to the end of chunk `c`. */
  ghost function ChunkEnd(size: nat, n: nat, c: nat): (e: nat)
    requires ChunkSize(n)
    ensures e <= size
  {
    Min(size, ChunkStart(n, c + 1))
  }

  /** The count of symbol `s` in chunk `c`. */
  ghost function Entry(counts: seq<nat>, n: nat, c: nat, s: nat): nat {
    if ChunkStart(n, c) + s < |counts| then counts[ChunkStart(n, c) + s] else 0
  }

  /** Every chunk begun for `size` symbols holds the counts of those of them up to its end. */
  ghost predicate Holds(counts: seq<nat>, symbols: seq<int>, n: nat, chunks: nat)
    requires ChunkSize(n)
  {
    && |counts| == ChunkStart(n, chunks)
    && forall c, s :: 0 <= c < chunks && 0 <= s < n ==>
       Entry(counts, n, c, s) == Count(symbols, ChunkEnd(|symbols|, n, c), s)
  }

  ghost predicate Cumulative(counts: seq<nat>, symbols: seq<int>, n: nat)
    requires ChunkSize(n)
  {
    Holds(counts, symbols, n, Chunks(|symbols|, n))
  }

  // Index arithmetic for the two chunk sizes.

  lemma IndexBound(n: nat, c: nat, s: nat, k: nat)
    requires ChunkSize(n) && c < k && s < n
    ensures ChunkStart(n, c) + s < ChunkStart(n, k)
  {
  }

  lemma IndexUnique(n: nat, c: nat, s: nat, c': nat, s': nat)
    requires ChunkSize(n) && s < n && s' < n
    ensures ChunkStart(n, c) + s == ChunkStart(n, c') + s' ==> c == c' && s == s'
  {
  }

  lemma ChunkArithmetic(size: nat, n: nat)
    requires ChunkSize(n)
    ensures var k := ChunkIndex(size, n);
            && k == size / n
            && ChunkStart(n, k) <= size < ChunkStart(n, k) + n && ChunkStart(n, k + 1) == ChunkStart(n, k) + n
            && Chunks(size + 1, n) == k + 1
            && Chunks(size, n) == (if size % n == 0 then k else k + 1)
            && (size % n == 0 ==> ChunkStart(n, k) == size)
            && (size < n ==> k == 0) && (size >= n ==> k > 0 && ChunkStart(n, k - 1) + n == ChunkStart(n, k))
            && n * k == ChunkStart(n, k)
  {
  }

  lemma EarlierChunkEnds(size: nat, n: nat, c: nat)
    requires ChunkSize(n) && c < ChunkIndex(size, n)
    ensures ChunkStart(n, c + 1) <= size
  {
  }

  lemma ChunkEndAt(size: nat, n: nat, k: nat)
    requires ChunkSize(n) && k == ChunkIndex(size, n)
    ensures ChunkEnd(size, n, k) == size && ChunkEnd(size + 1, n, k) == size + 1
    ensures size % n == 0 && k > 0 ==> ChunkEnd(size, n, k - 1) == size
    ensures forall c :: 0 <= c < k ==> ChunkEnd(size + 1, n, c) == ChunkEnd(size, n, c)
  {
    ChunkArithmetic(size, n);
    hide ChunkStart, ChunkIndex;
    forall c | 0 <= c < k ensures ChunkEnd(size + 1, n, c) == ChunkEnd(size, n, c) {
      EarlierChunkEnds(size, n, c);
    }
  }

  lemma ChunkOf(lpos: nat, size: nat, n: nat)
    requires ChunkSize(n) && lpos < size
    ensures ChunkIndex(lpos, n) < Chunks(size, n)
  {
  }

  /** Start a new chunk when the last one is full, with a copy of its counts. */
  method EnsureChunk(counts: seq<nat>, origSize: nat, n: nat, ghost symbols: seq<int>) returns (r: seq<nat>)
    requires ChunkSize(n) && Cumulative(counts, symbols, n) && |symbols| == origSize
    ensures Holds(r, symbols, n, Chunks(origSize + 1, n))
  {
    ChunkArithmetic(origSize, n);
    hide Chunks, ChunkStart, ChunkEnd, Entry;
    r := counts;
    if origSize % n == 0 {
      if origSize == 0 {
        r := r + seq(n, i => 0);
      } else {
        r := r + r[origSize - n..origSize];
      }
      NewChunk(counts, r, symbols, n);
    }
  }

  lemma NewChunk(counts: seq<nat>, r: seq<nat>, symbols: seq<int>, n: nat)
    requires ChunkSize(n) && Cumulative(counts, symbols, n) && |symbols| % n == 0
    requires |counts| == |symbols|
    requires |symbols| >= n || |symbols| == 0
    requires r == counts + (if |symbols| == 0 then seq(n, i => 0) else counts[|symbols| - n..])
    ensures Holds(r, symbols, n, Chunks(|symbols| + 1, n))
  {
    hide ChunkStart, ChunkIndex, Chunks, ChunkEnd;
    var size := |symbols|;
    var k := ChunkIndex(size, n);
    ChunkArithmetic(size, n);
    ChunkEndAt(size, n, k);
    forall c, s | 0 <= c < k + 1 && 0 <= s < n ensures Entry(r, n, c, s) == Count(symbols, ChunkEnd(size, n, c), s) {
      if c < k {
        IndexBound(n, c, s, k);
        assert Entry(r, n, c, s) == Entry(counts, n, c, s);
      } else if size > 0 {
        IndexBound(n, k - 1, s, k);
        assert Entry(r, n, c, s) == Entry(counts, n, k - 1, s);
      }
    }
  }

  lemma EntryUpdate(counts: seq<nat>, n: nat, k: nat, last: nat, s: nat, c: nat, x: nat)
    requires ChunkSize(n) && |counts| == ChunkStart(n, k) && last < k && c < k && s < n && x < n
    ensures ChunkStart(n, last) + s < |counts|
    ensures Entry(counts[ChunkStart(n, last) + s := counts[ChunkStart(n, last) + s] + 1], n, c, x)
              == Entry(counts, n, c, x) + (if c == last && x == s then 1 else 0)
  {
    hide ChunkStart;
    IndexBound(n, last, s, k);
    IndexBound(n, c, x, k);
    IndexUnique(n, c, x, last, s);
  }

  lemma CountNext(symbols: seq<int>, s: int, n: nat, c: nat, x: nat)
    requires ChunkSize(n) && c <= ChunkIndex(|symbols|, n)
    ensures Count(symbols + [s], ChunkEnd(|symbols| + 1, n, c), x)
              == Count(symbols, ChunkEnd(|symbols|, n, c), x)
                + (if c == ChunkIndex(|symbols|, n) && x == s then 1 else 0)
  {
    hide ChunkStart, ChunkIndex, ChunkEnd;
    ChunkEndAt(|symbols|, n, ChunkIndex(|symbols|, n));
    CountPrefix(symbols, [s], ChunkEnd(|symbols|, n, c), x);
  }

  /** Counting one more symbol in the last chunk. */
  lemma CumulativeNext(counts: seq<nat>, symbols: seq<int>, s: int, n: nat)
    requires ChunkSize(n) && -1 <= s < n
    requires Holds(counts, symbols, n, Chunks(|symbols| + 1, n))
    ensures var k := ChunkStart(n, ChunkIndex(|symbols|, n));
            && k + n == |counts|
            && Cumulative(if s == -1 then counts else counts[k + s := counts[k + s] + 1], symbols + [s], n)
  {
    hide Chunks, ChunkEnd, Entry, ChunkStart, ChunkIndex, Count;
    var last := ChunkIndex(|symbols|, n);
    ChunkArithmetic(|symbols|, n);
    var k := ChunkStart(n, last);
    var counts' := if s == -1 then counts else counts[k + s := counts[k + s] + 1];
    forall c, x | 0 <= c < last + 1 && 0 <= x < n
      ensures Entry(counts', n, c, x) == Count(symbols + [s], ChunkEnd(|symbols| + 1, n, c), x) {
      CountNext(symbols, s, n, c, x);
      if s >= 0 { EntryUpdate(counts, n, last + 1, last, s, c, x); }
    }
  }

  /** Count one more symbol, or only start the chunk that it would be counted in. */
  method AddSymbol(counts: seq<nat>, origSize: nat, n: nat, s: int, ghost symbols: seq<int>) returns (r: seq<nat>)
    requires ChunkSize(n) && Cumulative(counts, symbols, n) && |symbols| == origSize && -1 <= s < n
    ensures Cumulative(r, symbols + [s], n)
  {
    hide Cumulative, Holds, ChunkStart, ChunkIndex, Chunks;
    r := EnsureChunk(counts, origSize, n, symbols);
    CumulativeNext(r, symbols, s, n);
    ChunkArithmetic(origSize, n);
    if s >= 0 {
      var start := n * (origSize / n);
      r := r[start + s := r[start + s] + 1];
    }
  }

  /** The counts of the first lpos + 1 symbols: those of the chunk, less what follows in it. */
  method HistogramAt(counts: seq<nat>, symbols: seq<int>, lpos: nat, n: nat, result: array<nat>)
    requires ChunkSize(n) && Cumulative(counts, symbols, n) && lpos < |symbols| && result.Length == n
    requires forall i :: 0 <= i < |symbols| ==> -1 <= symbols[i] < n
    modifies result
    ensures forall s :: 0 <= s < n ==> result[s] == Count(symbols, lpos + 1, s)
  {
    var start := n * (lpos / n);
    var end := Min(start + n, |symbols|);
    ChunkAt(counts, symbols, lpos, n);
    for i := 0 to n
      invariant forall s :: 0 <= s < i ==> result[s] == Count(symbols, end, s)
    {
      result[i] := counts[start + i];
      assert counts[start + i] == ChunkCount(counts, start, i);
    }
    SubtractFollowing(symbols, lpos, end, n, result);
  }

  ghost function ChunkCount(counts: seq<nat>, start: nat, s: nat): nat {
    if start + s < |counts| then counts[start + s] else 0
  }

  method SubtractFollowing(symbols: seq<int>, lpos: nat, end: nat, n: nat, result: array<nat>)
    requires lpos < end <= |symbols| && result.Length == n
    requires forall i :: 0 <= i < |symbols| ==> -1 <= symbols[i] < n
    requires forall s :: 0 <= s < n ==> result[s] == Count(symbols, end, s)
    modifies result
    ensures forall s :: 0 <= s < n ==> result[s] == Count(symbols, lpos + 1, s)
  {
    for i := lpos + 1 to end
      invariant forall s :: 0 <= s < n ==>
                result[s] == Count(symbols, end, s) - (Count(symbols, i, s) - Count(symbols, lpos + 1, s))
    {
      if symbols[i] != -1 {
        CountGrows(symbols, i + 1, end, symbols[i]);
        CountGrows(symbols, lpos + 1, i, symbols[i]);
        result[symbols[i]] := result[symbols[i]] - 1;
      }
    }
  }

  lemma ChunkAt(counts: seq<nat>, symbols: seq<int>, lpos: nat, n: nat)
    requires ChunkSize(n) && Cumulative(counts, symbols, n) && lpos < |symbols|
    ensures var start := n * (lpos / n);
            var end := Min(start + n, |symbols|);
            && start + n <= |counts| && lpos < end
            && forall s :: 0 <= s < n ==> ChunkCount(counts, start, s) == Count(symbols, end, s)
  {
    hide Chunks, ChunkStart, ChunkIndex;
    var c := ChunkIndex(lpos, n);
    ChunkArithmetic(lpos, n);
    ChunkOf(lpos, |symbols|, n);
    IndexBound(n, c, n - 1, Chunks(|symbols|, n));
    forall s | 0 <= s < n
      ensures ChunkCount(counts, ChunkStart(n, c), s) == Count(symbols, Min(ChunkStart(n, c) + n, |symbols|), s) {
      IndexBound(n, c, s, Chunks(|symbols|, n));
      assert ChunkCount(counts, ChunkStart(n, c), s) == Entry(counts, n, c, s);
    }
  }

  /** Scan the symbols of a short range one by one. */
  method CountRange(symbols: seq<int>, lstart: nat, lend: nat, n: nat, result: array<nat>)
    requires lstart <= lend <= |symbols| && result.Length == n
    requires forall i :: 0 <= i < |symbols| ==> -1 <= symbols[i] < n
    modifies result
    ensures forall s :: 0 <= s < n ==> result[s] == Count(symbols, lend, s) - Count(symbols, lstart, s)
  {
    for i := 0 to n
      invariant forall s :: 0 <= s < i ==> result[s] == 0
    {
      result[i] := 0;
    }
    for i := lstart to lend
      invariant forall s :: 0 <= s < n ==> result[s] == Count(symbols, i, s) - Count(symbols, lstart, s)
    {
      if symbols[i] != -1 {
        result[symbols[i]] := result[symbols[i]] + 1;
      }
    }
  }

  /** The counts of symbols lstart to lend from two cumulative ones. */
  method HistogramBetween(counts: seq<nat>, symbols: seq<int>, lstart: nat, lend: nat, n: nat, result: array<nat>)
    requires ChunkSize(n) && Cumulative(counts, symbols, n) && lstart < lend <= |symbols| && result.Length == n
    requires forall i :: 0 <= i < |symbols| ==> -1 <= symbols[i] < n
    modifies result
    ensures forall s :: 0 <= s < n ==> result[s] == Count(symbols, lend, s) - Count(symbols, lstart, s)
  {
    HistogramAt(counts, symbols, lend - 1, n, result);
    if lstart > 0 {
      var before := new nat[n](_ => 0);
      HistogramAt(counts, symbols, lstart - 1, n, before);
      for i := 0 to n
        invariant forall s :: 0 <= s < i ==> result[s] == Count(symbols, lend, s) - Count(symbols, lstart, s)
        invariant forall s :: i <= s < n ==> result[s] == Count(symbols, lend, s)
        invariant forall s :: 0 <= s < n ==> before[s] == Count(symbols, lstart, s)
        modifies result
      {
        CountGrows(symbols, lstart, lend, i);
        result[i] := result[i] - before[i];
      }
    }
  }
}
