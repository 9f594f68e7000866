/** The two circular hash chains over the sliding window, and the lengths of equal-byte runs. */
module HashChain {
  import opened Prelude
  import opened Symbols

  const HASH_SIZE: nat := 32768
  const MAX_RUN: nat := 65535

  // ---- Hash values ----

  /** Bitwise exclusive or. */
  function BitXor(a: nat, b: nat): nat
    decreases a + b
  {
    if a == 0 && b == 0 then 0 else (if a % 2 != b % 2 then 1 else 0) + 2 * BitXor(a / 2, b / 2)
  }

  lemma {:induction false} XorBound(a: nat, b: nat, k: nat)
    requires a < Pow2(k) && b < Pow2(k)
    ensures BitXor(a, b) < Pow2(k)
  {
    if k > 0 { XorBound(a / 2, b / 2, k - 1); }
  }

  /** Shift in one more byte (hashShift 5, hashMask 32767). */
  function HashStep(val: nat, c: nat): (r: nat)
    ensures r < HASH_SIZE
  {
    BitXor(val * 32, c) % HASH_SIZE
  }

  /** The secondary hash also takes the run length into account. */
  function SecondHash(same: nat, val: nat): (r: nat)
    requires val < HASH_SIZE
    ensures r < HASH_SIZE
  {
    assert Pow2(15) == HASH_SIZE by { PowersAre(15); }
    XorBound((same - MIN_MATCH) % 256, val, 15);
    BitXor((same - MIN_MATCH) % 256, val)
  }

  // ---- The state as a value ----

  datatype Chain = Chain(head: seq<int>, prev: seq<nat>, hashval: seq<int>)

  datatype HashState = HashState(first: Chain, val: nat, second: Chain, val2: nat, same: seq<nat>)

  ghost predicate Sized(c: Chain) {
    && |c.head| == HASH_SIZE && |c.prev| == |c.hashval| == WINDOW_SIZE
    && (forall v :: 0 <= v < HASH_SIZE ==> -1 <= c.head[v] < WINDOW_SIZE)
    && (forall p :: 0 <= p < WINDOW_SIZE ==> c.prev[p] < WINDOW_SIZE)
  }

  ghost predicate StateSized(h: HashState) {
    Sized(h.first) && Sized(h.second) && h.val < HASH_SIZE && h.val2 < HASH_SIZE && |h.same| == WINDOW_SIZE
  }

  /** Put window slot `hpos` in front of the chain of hash value `v`. */
  ghost function Insert(c: Chain, hpos: nat, v: nat): (r: Chain)
    requires Sized(c) && hpos < WINDOW_SIZE && v < HASH_SIZE
    ensures Sized(r)
  {
    var hashval := c.hashval[hpos := v];
    var link := if c.head[v] != -1 && hashval[c.head[v]] == v then c.head[v] else hpos;
    Chain(c.head[v := hpos], c.prev[hpos := link], hashval)
  }

  /** How many bytes after `pos` equal the byte there, before `end`. */
  ghost function EqualRun(data: seq<byte>, pos: nat, end: nat): (n: nat)
    requires pos < end <= |data|
    ensures pos + n < end
    ensures forall k :: pos <= k <= pos + n ==> data[k] == data[pos]
    ensures pos + n + 1 < end ==> data[pos + n + 1] != data[pos]
    decreases end - pos
  {
    if pos + 1 < end && data[pos] == data[pos + 1] then 1 + EqualRun(data, pos + 1, end) else 0
  }

  ghost function RunLength(data: seq<byte>, pos: nat, end: nat): (n: nat)
    requires pos < end <= |data|
    ensures n <= MAX_RUN && pos + n < end
    ensures forall k :: pos <= k <= pos + n ==> data[k] == data[pos]
  {
    Min(EqualRun(data, pos, end), MAX_RUN)
  }

  ghost function NextVal(val: nat, data: seq<byte>, pos: nat, end: nat): (r: nat)
    requires end <= |data|
    ensures r < HASH_SIZE
  {
    HashStep(val, if pos + MIN_MATCH <= end then data[pos + MIN_MATCH - 1] else 0)
  }

  /** The state after position `pos` is inserted. */
  ghost function Next(h: HashState, data: seq<byte>, pos: nat, end: nat): (r: HashState)
    requires StateSized(h) && pos < end <= |data|
    ensures StateSized(r)
  {
    var hpos, same, val := pos % WINDOW_SIZE, RunLength(data, pos, end), NextVal(h.val, data, pos, end);
    var val2 := SecondHash(same, val);
    HashState(Insert(h.first, hpos, val), val, Insert(h.second, hpos, val2), val2, h.same[hpos := same])
  }

  ghost function EmptyChain(): (c: Chain)
    ensures Sized(c)
  {
    Chain(seq(HASH_SIZE, v => -1), seq(WINDOW_SIZE, p requires 0 <= p < WINDOW_SIZE => p), seq(WINDOW_SIZE, p => -1))
  }

  ghost function Warmed(data: seq<byte>, ws: nat, end: nat): (v: nat)
    requires ws < end <= |data|
    ensures v < HASH_SIZE
  {
    var v1 := HashStep(0, data[ws]);
    if ws + 1 < end then HashStep(v1, data[ws + 1]) else v1
  }

  /** The state after a reset and warm-up at window start `ws` and the insertion of all positions
      from there up to, but not including, `n`. */
  ghost function HashAt(data: seq<byte>, ws: nat, end: nat, n: nat): (h: HashState)
    requires ws <= n <= end <= |data| && ws < end
    ensures StateSized(h)
    decreases n
  {
    if n == ws then HashState(EmptyChain(), Warmed(data, ws, end), EmptyChain(), 0, seq(WINDOW_SIZE, p => 0))
    else Next(HashAt(data, ws, end, n - 1), data, n - 1, end)
  }

  // ---- Window arithmetic ----

  /** The last position before `n` that falls into slot `p`. */
  ghost function Latest(p: nat, n: nat): int {
    n - 1 - (n - 1 - p) % WINDOW_SIZE
  }

  /** Slot `p` holds a position from the window start on. */
  ghost predicate Inserted(p: nat, ws: nat, n: nat) {
    p < WINDOW_SIZE && ws < n && ws <= Latest(p, n)
  }

  /** The distance that the search adds when it follows a link from slot `p` to slot `q`. */
  function Gap(p: nat, q: nat): (g: nat)
    requires p < WINDOW_SIZE && q < WINDOW_SIZE
    ensures 1 <= g <= WINDOW_SIZE && (g == WINDOW_SIZE <==> p == q)
  {
    if q < p then p - q else WINDOW_SIZE - q + p
  }

  lemma LatestNext(p: nat, n: nat)
    requires p < WINDOW_SIZE
    ensures Latest(p, n + 1) == (if p == n % WINDOW_SIZE then n else Latest(p, n))
    ensures n > 0 ==> n - 1 - WINDOW_SIZE < Latest(p, n)
    ensures Latest(p, n) <= n - 1
  {
  }

  lemma LatestSlot(p: nat, n: nat, pos: nat)
    requires p < WINDOW_SIZE && n > 0 && pos % WINDOW_SIZE == p && n - 1 - WINDOW_SIZE < pos <= n - 1
    ensures Latest(p, n) == pos
  {
  }

  lemma LatestIs(p: nat, n: nat)
    requires p < WINDOW_SIZE && n > 0 && Latest(p, n) >= 0
    ensures Latest(p, n) % WINDOW_SIZE == p
  {
  }

  /** Going back by the gap from a position in slot `p` leads to a position in slot `q`. */
  lemma GapSlot(p: nat, q: nat, pos: nat)
    requires p < WINDOW_SIZE && q < WINDOW_SIZE && pos % WINDOW_SIZE == p && Gap(p, q) <= pos
    ensures (pos - Gap(p, q)) % WINDOW_SIZE == q
  {
  }

  // ---- What the chains guarantee ----

  /** Heads and links lead to inserted slots, links by less than a window backwards. */
  ghost predicate ChainOk(c: Chain, ws: nat, n: nat) {
    && Sized(c)
    && (forall v :: 0 <= v < HASH_SIZE ==> c.head[v] == -1 || Inserted(c.head[v], ws, n))
    && (forall p :: 0 <= p < WINDOW_SIZE && Inserted(p, ws, n) ==>
          c.prev[p] == p || ws <= Latest(p, n) - Gap(p, c.prev[p]))
  }

  /** The run length of an inserted slot is that of its position. */
  ghost predicate SameOk(same: seq<nat>, data: seq<byte>, ws: nat, end: nat, n: nat)
    requires ws <= n <= end <= |data|
  {
    && |same| == WINDOW_SIZE
    && (forall p :: 0 <= p < WINDOW_SIZE ==>
          if Inserted(p, ws, n) && 0 <= Latest(p, n) < end then same[p] == RunLength(data, Latest(p, n), end)
            else same[p] == 0)
  }

  lemma HeadSlot(q: nat, n: nat, ws: nat)
    requires Inserted(q, ws, n) && q != n % WINDOW_SIZE
    ensures n - Gap(n % WINDOW_SIZE, q) == Latest(q, n)
  {
    var pos := Latest(q, n);
    LatestNext(q, n);
    LatestIs(q, n);
    BackSlot(n, pos, q);
  }

  lemma BackSlot(n: nat, pos: nat, q: nat)
    requires q < WINDOW_SIZE && pos % WINDOW_SIZE == q && n - WINDOW_SIZE <= pos < n && q != n % WINDOW_SIZE
    ensures n - Gap(n % WINDOW_SIZE, q) == pos
  {
    var d := n - pos;
    assert n == WINDOW_SIZE * (n / WINDOW_SIZE) + n % WINDOW_SIZE && pos == WINDOW_SIZE * (pos / WINDOW_SIZE) + q;
    assert d == WINDOW_SIZE * (n / WINDOW_SIZE - pos / WINDOW_SIZE) + (n % WINDOW_SIZE - q);
  }

  lemma HeadKeepsOk(c: Chain, ws: nat, n: nat, v: nat, x: nat)
    requires ChainOk(c, ws, n) && v < HASH_SIZE && ws <= n && x < HASH_SIZE
    ensures var r := Insert(c, n % WINDOW_SIZE, v); r.head[x] == -1 || Inserted(r.head[x], ws, n + 1)
  {
    hide Latest, Gap;
    LatestNext(n % WINDOW_SIZE, n);
    if x != v && c.head[x] != -1 {
      assert Inserted(c.head[x], ws, n);
      LatestNext(c.head[x], n);
    }
  }

  lemma PrevKeepsOk(c: Chain, ws: nat, n: nat, v: nat, p: nat)
    requires ChainOk(c, ws, n) && v < HASH_SIZE && ws <= n && p < WINDOW_SIZE && Inserted(p, ws, n + 1)
    ensures var r := Insert(c, n % WINDOW_SIZE, v); r.prev[p] == p || ws <= Latest(p, n + 1) - Gap(p, r.prev[p])
  {
    hide Latest, Gap;
    LatestNext(p, n);
    if p != n % WINDOW_SIZE {
      assert Inserted(p, ws, n);
    } else if c.head[v] != -1 && c.head[v] != p {
      assert Inserted(c.head[v], ws, n);
      HeadSlot(c.head[v], n, ws);
    }
  }

  lemma InsertKeepsOk(c: Chain, ws: nat, n: nat, v: nat)
    requires ChainOk(c, ws, n) && v < HASH_SIZE && ws <= n
    ensures ChainOk(Insert(c, n % WINDOW_SIZE, v), ws, n + 1)
  {
    hide Latest, Gap, Inserted;
    var r := Insert(c, n % WINDOW_SIZE, v);
    forall x | 0 <= x < HASH_SIZE ensures r.head[x] == -1 || Inserted(r.head[x], ws, n + 1) {
      HeadKeepsOk(c, ws, n, v, x);
    }
    forall p | 0 <= p < WINDOW_SIZE && Inserted(p, ws, n + 1)
      ensures r.prev[p] == p || ws <= Latest(p, n + 1) - Gap(p, r.prev[p])
    {
      PrevKeepsOk(c, ws, n, v, p);
    }
  }

  lemma SameKeepsOk(same: seq<nat>, data: seq<byte>, ws: nat, end: nat, n: nat)
    requires ws <= n < end <= |data| && SameOk(same, data, ws, end, n)
    ensures SameOk(same[n % WINDOW_SIZE := RunLength(data, n, end)], data, ws, end, n + 1)
  {
    forall p | 0 <= p < WINDOW_SIZE
      ensures Latest(p, n + 1) == (if p == n % WINDOW_SIZE then n else Latest(p, n)) { LatestNext(p, n); }
  }

  ghost predicate StateOk(h: HashState, data: seq<byte>, ws: nat, end: nat, n: nat)
    requires ws <= n <= end <= |data|
  {
    && StateSized(h) && ChainOk(h.first, ws, n) && ChainOk(h.second, ws, n)
    && SameOk(h.same, data, ws, end, n)
    && (n > ws ==> h.first.head[h.val] == (n - 1) % WINDOW_SIZE)
  }

  lemma NextKeepsOk(h: HashState, data: seq<byte>, ws: nat, end: nat, n: nat)
    requires ws <= n < end <= |data| && StateOk(h, data, ws, end, n)
    ensures StateOk(Next(h, data, n, end), data, ws, end, n + 1)
  {
    hide ChainOk, SameOk, Insert, RunLength, NextVal, SecondHash, Sized;
    var val := NextVal(h.val, data, n, end);
    InsertKeepsOk(h.first, ws, n, val);
    InsertKeepsOk(h.second, ws, n, SecondHash(RunLength(data, n, end), val));
    SameKeepsOk(h.same, data, ws, end, n);
    InsertedHead(h.first, n % WINDOW_SIZE, val);
  }

  lemma InsertedHead(c: Chain, hpos: nat, v: nat)
    requires Sized(c) && hpos < WINDOW_SIZE && v < HASH_SIZE
    ensures Insert(c, hpos, v).head[v] == hpos
  {
  }

  lemma EmptyOk(data: seq<byte>, ws: nat, end: nat)
    requires ws < end <= |data|
    ensures StateOk(HashAt(data, ws, end, ws), data, ws, end, ws)
  {
  }

  /** After any sequence of consecutive insertions the chains and run lengths are in order. */
  lemma {:induction false} HashAtOk(data: seq<byte>, ws: nat, end: nat, n: nat)
    requires ws <= n <= end <= |data| && ws < end
    ensures StateOk(HashAt(data, ws, end, n), data, ws, end, n)
    decreases n
  {
    hide StateOk, Next;
    if n == ws {
      EmptyOk(data, ws, end);
    } else {
      HashAtOk(data, ws, end, n - 1);
      NextKeepsOk(HashAt(data, ws, end, n - 1), data, ws, end, n - 1);
    }
  }

  // ---- The hash object ----

  /** A buffer of n entries: a new one, or the old one cut to size. */
  function Resized(s: seq<int>, n: nat): (r: seq<int>)
    ensures |r| == n
  {
    if |s| < n then seq(n, i => 0) else s[..n]
  }

  class Hash {
    var head: seq<int>
    var prev: seq<nat>
    var hashval: seq<int>
    var val: nat
    var head2: seq<int>
    var prev2: seq<nat>
    var hashval2: seq<int>
    var val2: nat
    var same: seq<nat>

    ghost function State(): HashState
      reads this
    {
      HashState(Chain(head, prev, hashval), val, Chain(head2, prev2, hashval2), val2, same)
    }

    /** The buffers exist; what they hold is left from earlier use. */
    ghost predicate Allocated()
      reads this
    {
      |head| == |head2| == HASH_SIZE && |prev| == |prev2| == |hashval| == |hashval2| == |same| == WINDOW_SIZE
    }

    constructor ()
    {
      head, prev, hashval, head2, prev2, hashval2, same := [], [], [], [], [], [], [];
      val, val2 := 0, 0;
    }

    method Alloc()
      modifies this
      ensures Allocated()
    {
      head := Resized(head, HASH_SIZE);
      prev := Resized(prev, WINDOW_SIZE);
      hashval := Resized(hashval, WINDOW_SIZE);
      same := Resized(same, WINDOW_SIZE);
      head2 := Resized(head2, HASH_SIZE);
      prev2 := Resized(prev2, WINDOW_SIZE);
      hashval2 := Resized(hashval2, WINDOW_SIZE);
    }

    method Reset()
      requires Allocated()
      modifies this
      ensures Allocated() && val == 0
      ensures State() == HashState(EmptyChain(), 0, EmptyChain(), 0, seq(WINDOW_SIZE, p => 0))
    {
      val := 0;
      head := seq(HASH_SIZE, i => -1);
      head2 := seq(HASH_SIZE, i => -1);
      prev := seq(WINDOW_SIZE, i requires 0 <= i < WINDOW_SIZE => i);
      hashval := seq(WINDOW_SIZE, i => -1);
      same := seq(WINDOW_SIZE, i => 0);
      prev2 := seq(WINDOW_SIZE, i requires 0 <= i < WINDOW_SIZE => i);
      hashval2 := seq(WINDOW_SIZE, i => -1);
      val2 := 0;
    }

    method UpdateHashValue(c: nat)
      modifies this`val
      ensures val == HashStep(old(val), c)
    {
      val := HashStep(val, c);
    }

    /** Prime the hash value with the first bytes of the window. */
    method Warmup(data: seq<byte>, pos: nat, end: nat)
      requires pos < end <= |data| && State() == HashState(EmptyChain(), 0, EmptyChain(), 0, seq(WINDOW_SIZE, p => 0))
      modifies this`val
      ensures State() == HashAt(data, pos, end, pos)
    {
      UpdateHashValue(data[pos]);
      if pos + 1 < end {
        UpdateHashValue(data[pos + 1]);
      }
    }

    /** Insert position `pos`. */
    method Update(data: seq<byte>, pos: nat, end: nat, ghost ws: nat)
      requires ws <= pos < end <= |data| && State() == HashAt(data, ws, end, pos)
      modifies this
      ensures State() == HashAt(data, ws, end, pos + 1)
    {
      hide HashAt, StateOk, StateSized, Sized, SameOk, HashStep, SecondHash, RunLength, Insert, Next;
      HashAtOk(data, ws, end, pos);
      StateParts(State(), data, ws, end, pos);
      HashAtNext(data, ws, end, pos);
      var hpos := pos % WINDOW_SIZE;
      val := HashStep(val, if pos + MIN_MATCH <= end then data[pos + MIN_MATCH - 1] else 0);
      LinkFirst(hpos);
      var amount := CountSame(data, pos, end, ws);
      same := same[hpos := amount];
      val2 := SecondHash(amount, val);
      LinkSecond(hpos);
    }

    method LinkFirst(hpos: nat)
      requires Sized(Chain(head, prev, hashval)) && hpos < WINDOW_SIZE && val < HASH_SIZE
      modifies this`head, this`prev, this`hashval
      ensures Chain(head, prev, hashval) == old(Insert(Chain(head, prev, hashval), hpos, val))
    {
      hashval := hashval[hpos := val];
      var headPos := head[val];
      if headPos != -1 && hashval[headPos] == val {
        prev := prev[hpos := headPos];
      } else {
        prev := prev[hpos := hpos];
      }
      head := head[val := hpos];
    }

    method LinkSecond(hpos: nat)
      requires Sized(Chain(head2, prev2, hashval2)) && hpos < WINDOW_SIZE && val2 < HASH_SIZE
      modifies this`head2, this`prev2, this`hashval2
      ensures Chain(head2, prev2, hashval2) == old(Insert(Chain(head2, prev2, hashval2), hpos, val2))
    {
      hashval2 := hashval2[hpos := val2];
      var headPos := head2[val2];
      if headPos != -1 && hashval2[headPos] == val2 {
        prev2 := prev2[hpos := headPos];
      } else {
        prev2 := prev2[hpos := hpos];
      }
      head2 := head2[val2 := hpos];
    }

    /** The run length at `pos`, taking up the count of the position before. */
    method CountSame(data: seq<byte>, pos: nat, end: nat, ghost ws: nat) returns (amount: nat)
      requires ws <= pos < end <= |data| && SameOk(same, data, ws, end, pos)
      ensures amount == RunLength(data, pos, end)
    {
      amount := 0;
      var before := same[(pos - 1) % WINDOW_SIZE];
      PreviousSame(same, data, ws, end, pos);
      if before > 1 {
        amount := before - 1;
      }
      while pos + amount + 1 < end && data[pos] == data[pos + amount + 1] && amount < MAX_RUN
        invariant amount <= MAX_RUN && pos + amount < end
        invariant forall k :: pos <= k <= pos + amount ==> data[k] == data[pos]
        decreases MAX_RUN - amount
      {
        amount := amount + 1;
      }
      RunUnique(data, pos, end, amount);
    }
  }

  lemma HashAtNext(data: seq<byte>, ws: nat, end: nat, pos: nat)
    requires ws <= pos < end <= |data|
    ensures var h := HashAt(data, ws, end, pos);
            var hpos, same, val :=
              pos % WINDOW_SIZE, RunLength(data, pos, end),
                HashStep(h.val, if pos + MIN_MATCH <= end then data[pos + MIN_MATCH - 1] else 0);
            var val2 := SecondHash(same, val);
            HashAt(data, ws, end, pos + 1)
              == HashState(Insert(h.first, hpos, val), val, Insert(h.second, hpos, val2), val2, h.same[hpos := same])
  {
    hide Insert, RunLength, SecondHash, HashStep;
  }

  lemma StateParts(h: HashState, data: seq<byte>, ws: nat, end: nat, n: nat)
    requires ws <= n <= end <= |data| && StateOk(h, data, ws, end, n)
    ensures StateSized(h) && Sized(h.first) && Sized(h.second) && |h.same| == WINDOW_SIZE && h.val < HASH_SIZE
    ensures h.val2 < HASH_SIZE
    ensures SameOk(h.same, data, ws, end, n)
  {
  }

  lemma PreviousSame(same: seq<nat>, data: seq<byte>, ws: nat, end: nat, pos: nat)
    requires ws <= pos < end <= |data| && SameOk(same, data, ws, end, pos)
    ensures same[(pos - 1) % WINDOW_SIZE] > 1 ==>
            pos > ws && same[(pos - 1) % WINDOW_SIZE] == RunLength(data, pos - 1, end)
  {
    var p := (pos - 1) % WINDOW_SIZE;
    if pos > ws {
      LatestSlot(p, pos, pos - 1);
    }
  }

  lemma RunUnique(data: seq<byte>, pos: nat, end: nat, n: nat)
    requires pos < end <= |data| && n <= MAX_RUN && pos + n < end
    requires forall k :: pos <= k <= pos + n ==> data[k] == data[pos]
    requires pos + n + 1 < end && data[pos] == data[pos + n + 1] ==> n == MAX_RUN
    ensures n == RunLength(data, pos, end)
  {
    var e := EqualRun(data, pos, end);
    assert n < e ==> data[pos + n + 1] == data[pos];
  }
}
