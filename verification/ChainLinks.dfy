/** The chains lose nothing: inside the window, links and heads pass over no position with the same
    hash value. */
module ChainLinks {
  import opened Prelude
  import opened Symbols
  import opened HashChain
  import opened HashValues

  /** The hash value that the slot of position `m` holds. */
  ghost function Kept(c: Chain, m: nat): int
    requires Sized(c)
  {
    c.hashval[m % WINDOW_SIZE]
  }

  /** The position that the link of position `k` leads to. */
  ghost function Back(c: Chain, k: nat): int
    requires Sized(c)
  {
    k - Gap(k % WINDOW_SIZE, c.prev[k % WINDOW_SIZE])
  }

  /** The position before `n` at the head of a hash value's chain. */
  ghost function Front(c: Chain, n: nat, v: int): int
    requires Sized(c)
  {
    if 0 <= v < HASH_SIZE && c.head[v] != -1 then n - Gap(n % WINDOW_SIZE, c.head[v]) else -1
  }

  ghost predicate InWindow(m: nat, ws: nat, n: nat) {
    ws <= m < n <= m + WINDOW_SIZE
  }

  /** The head of its value's chain is position `m` or a later one of that value. */
  ghost predicate Headed(c: Chain, n: nat, m: nat)
    requires Sized(c)
  {
    m <= Front(c, n, Kept(c, m)) && Kept(c, Front(c, n, Kept(c, m))) == Kept(c, m)
  }

  /** The link of `k` leads to position `m` or a later one of its value. */
  ghost predicate Linked(c: Chain, m: nat, k: nat)
    requires Sized(c)
  {
    m <= Back(c, k) && Kept(c, Back(c, k)) == Kept(c, k)
  }

  ghost predicate Chained(c: Chain, ws: nat, n: nat) {
    && Sized(c)
    && (forall m: nat :: InWindow(m, ws, n) ==> Headed(c, n, m))
    && (forall m: nat, k: nat :: InWindow(m, ws, n) && InWindow(k, ws, n) && m < k && Kept(c, m) == Kept(c, k) ==>
          Linked(c, m, k))
  }

  lemma SlotsDiffer(m: nat, n: nat)
    requires m < n < m + WINDOW_SIZE
    ensures m % WINDOW_SIZE != n % WINDOW_SIZE
  {
  }

  /** Another slot is one position farther away after each insertion. */
  lemma GapNext(n: nat, q: nat)
    requires q < WINDOW_SIZE && q != n % WINDOW_SIZE
    ensures Gap((n + 1) % WINDOW_SIZE, q) == Gap(n % WINDOW_SIZE, q) + 1
  {
  }

  lemma GapOne(n: nat)
    ensures Gap((n + 1) % WINDOW_SIZE, n % WINDOW_SIZE) == 1
  {
  }

  lemma InsertKept(c: Chain, n: nat, v: nat, m: nat)
    requires Sized(c) && v < HASH_SIZE && m <= n < m + WINDOW_SIZE
    ensures Kept(Insert(c, n % WINDOW_SIZE, v), m) == if m == n then v else Kept(c, m)
    ensures m < n ==> Back(Insert(c, n % WINDOW_SIZE, v), m) == Back(c, m)
  {
    if m < n { SlotsDiffer(m, n); }
  }

  lemma FrontIs(c: Chain, n: nat, v: int)
    requires Sized(c) && Front(c, n, v) >= 0
    ensures 0 <= v < HASH_SIZE && 0 <= c.head[v] < WINDOW_SIZE
    ensures Front(c, n, v) == n - Gap(n % WINDOW_SIZE, c.head[v]) && n - WINDOW_SIZE <= Front(c, n, v) < n
    ensures Front(c, n, v) % WINDOW_SIZE == c.head[v]
  {
    GapSlot(n % WINDOW_SIZE, c.head[v], n);
  }

  /** The new position's link leads to the old head of its chain, unless that has left the window. */
  lemma InsertBack(c: Chain, n: nat, v: nat)
    requires Sized(c) && v < HASH_SIZE && n < Front(c, n, v) + WINDOW_SIZE && Front(c, n, v) >= 0
    requires Kept(c, Front(c, n, v)) == v
    ensures Back(Insert(c, n % WINDOW_SIZE, v), n) == Front(c, n, v)
  {
    hide Gap;
    FrontIs(c, n, v);
    SlotsDiffer(Front(c, n, v), n);
  }

  /** The heads after an insertion. */
  lemma InsertFront(c: Chain, n: nat, v: nat, u: nat)
    requires Sized(c) && v < HASH_SIZE && u < HASH_SIZE
    requires u == v || (Front(c, n, u) >= 0 && n < Front(c, n, u) + WINDOW_SIZE)
    ensures Front(Insert(c, n % WINDOW_SIZE, v), n + 1, u) == if u == v then n else Front(c, n, u)
  {
    hide Gap;
    if u == v {
      GapOne(n);
    } else {
      FrontIs(c, n, u);
      SlotsDiffer(Front(c, n, u), n);
      GapNext(n, c.head[u]);
    }
  }

  lemma InsertHeads(c: Chain, ws: nat, n: nat, v: nat, m: nat)
    requires Chained(c, ws, n) && v < HASH_SIZE && ws <= n && InWindow(m, ws, n + 1)
    ensures Headed(Insert(c, n % WINDOW_SIZE, v), n + 1, m)
  {
    hide Insert, Kept, Front;
    var r := Insert(c, n % WINDOW_SIZE, v);
    InsertKept(c, n, v, m);
    InsertKept(c, n, v, n);
    var u := Kept(r, m);
    if u == v {
      InsertFront(c, n, v, v);
    } else {
      assert InWindow(m, ws, n);
      FrontIs(c, n, u);
      InsertFront(c, n, v, u);
      InsertKept(c, n, v, Front(c, n, u));
    }
  }

  lemma InsertLinks(c: Chain, ws: nat, n: nat, v: nat, m: nat, k: nat)
    requires Chained(c, ws, n) && v < HASH_SIZE && ws <= n && InWindow(m, ws, n + 1) && InWindow(k, ws, n + 1) && m < k
    requires Kept(Insert(c, n % WINDOW_SIZE, v), m) == Kept(Insert(c, n % WINDOW_SIZE, v), k)
    ensures Linked(Insert(c, n % WINDOW_SIZE, v), m, k)
  {
    hide Insert, Kept, Front, Back;
    InsertKept(c, n, v, m);
    InsertKept(c, n, v, k);
    assert InWindow(m, ws, n);
    if k < n {
      assert InWindow(k, ws, n);
      BackBefore(c, k);
      InsertKept(c, n, v, Back(c, k));
    } else {
      FrontIs(c, n, v);
      InsertBack(c, n, v);
      InsertKept(c, n, v, Front(c, n, v));
    }
  }

  lemma BackBefore(c: Chain, k: nat)
    requires Sized(c)
    ensures k - WINDOW_SIZE <= Back(c, k) < k
    ensures Back(c, k) >= 0 ==> Back(c, k) % WINDOW_SIZE == c.prev[k % WINDOW_SIZE]
  {
    if Back(c, k) >= 0 { GapSlot(k % WINDOW_SIZE, c.prev[k % WINDOW_SIZE], k); }
  }

  lemma InsertChained(c: Chain, ws: nat, n: nat, v: nat)
    requires Chained(c, ws, n) && v < HASH_SIZE && ws <= n
    ensures Chained(Insert(c, n % WINDOW_SIZE, v), ws, n + 1)
  {
    hide Insert, Kept, Headed, Linked, InWindow;
    var r, n' := Insert(c, n % WINDOW_SIZE, v), n + 1;
    forall m: nat | InWindow(m, ws, n') ensures Headed(r, n', m) {
      InsertHeads(c, ws, n, v, m);
    }
    forall m: nat, k: nat | InWindow(m, ws, n') && InWindow(k, ws, n') && m < k && Kept(r, m) == Kept(r, k)
      ensures Linked(r, m, k)
    {
      InsertLinks(c, ws, n, v, m, k);
    }
  }

  // ---- The values in the slots ----

  ghost function SecondAt(data: seq<byte>, ws: nat, end: nat, m: nat): (v: nat)
    requires ws <= m < end <= |data|
    ensures v < HASH_SIZE
  {
    SecondHash(RunLength(data, m, end), ValueAt(data, ws, end, m))
  }

  /** Every slot of the window holds the values of its latest position. */
  ghost predicate ValuesKept(h: HashState, data: seq<byte>, ws: nat, end: nat, n: nat)
    requires ws <= n <= end <= |data| && StateSized(h)
  {
    forall m: nat :: InWindow(m, ws, n) ==>
      Kept(h.first, m) == ValueAt(data, ws, end, m) && Kept(h.second, m) == SecondAt(data, ws, end, m)
  }

  lemma NextValuesKept(data: seq<byte>, ws: nat, end: nat, n: nat)
    requires ws <= n < end <= |data|
    requires ValuesKept(HashAt(data, ws, end, n), data, ws, end, n)
    ensures ValuesKept(HashAt(data, ws, end, n + 1), data, ws, end, n + 1)
  {
    hide HashAt, Insert, Kept, StateSized, RunLength, SecondHash;
    var h := HashAt(data, ws, end, n);
    var h' := HashAt(data, ws, end, n + 1);
    StateSizes(h);
    InsertsOf(data, ws, end, n);
    forall m: nat | InWindow(m, ws, n + 1)
      ensures Kept(h'.first, m) == ValueAt(data, ws, end, m) && Kept(h'.second, m) == SecondAt(data, ws, end, m)
    {
      InsertKept(h.first, n, ValueAt(data, ws, end, n), m);
      InsertKept(h.second, n, SecondAt(data, ws, end, n), m);
      if m < n { assert InWindow(m, ws, n); }
    }
  }

  lemma StateSizes(h: HashState)
    requires StateSized(h)
    ensures Sized(h.first) && Sized(h.second)
  {
  }

  /** Each insertion puts the slot in front of both its chains. */
  lemma InsertsOf(data: seq<byte>, ws: nat, end: nat, n: nat)
    requires ws <= n < end <= |data|
    ensures var h, h' := HashAt(data, ws, end, n), HashAt(data, ws, end, n + 1);
            && h'.first == Insert(h.first, n % WINDOW_SIZE, ValueAt(data, ws, end, n))
            && h'.second == Insert(h.second, n % WINDOW_SIZE, SecondAt(data, ws, end, n))
            && h'.val == ValueAt(data, ws, end, n) && h'.val2 == SecondAt(data, ws, end, n)
            && h'.same == h.same[n % WINDOW_SIZE := RunLength(data, n, end)]
  {
    hide Insert, RunLength, SecondHash, HashStep;
  }

  /** After any sequence of insertions, both chains connect all positions of the window that have the
      same value. */
  lemma {:induction false} HashAtChained(data: seq<byte>, ws: nat, end: nat, n: nat)
    requires ws <= n <= end <= |data| && ws < end
    ensures var h := HashAt(data, ws, end, n);
            Chained(h.first, ws, n) && Chained(h.second, ws, n) && ValuesKept(h, data, ws, end, n)
    decreases n
  {
    hide HashAt, Insert, RunLength, SecondHash, Chained, ValuesKept;
    if n == ws {
      EmptyChained(data, ws, end);
    } else {
      HashAtChained(data, ws, end, n - 1);
      var h := HashAt(data, ws, end, n - 1);
      InsertsOf(data, ws, end, n - 1);
      InsertChained(h.first, ws, n - 1, ValueAt(data, ws, end, n - 1));
      InsertChained(h.second, ws, n - 1, SecondAt(data, ws, end, n - 1));
      NextValuesKept(data, ws, end, n - 1);
    }
  }

  lemma EmptyChained(data: seq<byte>, ws: nat, end: nat)
    requires ws < end <= |data|
    ensures var h := HashAt(data, ws, end, ws);
            Chained(h.first, ws, ws) && Chained(h.second, ws, ws) && ValuesKept(h, data, ws, end, ws)
  {
  }
}
