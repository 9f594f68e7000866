/** Predicting the size of a block of each type. */
module BlockSize {
  import opened Prelude
  import opened Bits
  import opened Symbols
  import opened Inflate
  import opened Tokens
  import opened TreeCode
  import opened TreeWriter
  import opened PrefixCode
  import opened Store
  import opened Parse
  import opened DynamicLengths
  import opened Blocks

  /** The fixed code lengths. */
  method GetFixedTree() returns (ll: seq<nat>, d: seq<nat>)
    ensures ll == FixedLL() && d == FixedD()
  {
    var llLengths := new nat[NUM_LL](_ => 0);
    var dLengths := new nat[NUM_D](_ => 0);
    for i := 0 to 144
      invariant forall s :: 0 <= s < i ==> llLengths[s] == 8
    {
      llLengths[i] := 8;
    }
    for i := 144 to 256
      invariant forall s :: 0 <= s < i ==> llLengths[s] == if s < 144 then 8 else 9
    {
      llLengths[i] := 9;
    }
    for i := 256 to 280
      invariant forall s :: 0 <= s < i ==> llLengths[s] == if s < 144 then 8 else if s < 256 then 9 else 7
    {
      llLengths[i] := 7;
    }
    for i := 280 to 288
      invariant forall s :: 0 <= s < i ==>
                llLengths[s] == if s < 144 then 8 else if s < 256 then 9 else if s < 280 then 7 else 8
    {
      llLengths[i] := 8;
    }
    ll := llLengths[..];
    for i := 0 to 32
      invariant forall s :: 0 <= s < i ==> dLengths[s] == 5
    {
      dLengths[i] := 5;
    }
    d := dLengths[..];
    SameLengths(ll, d);
  }

  lemma SameLengths(ll: seq<nat>, d: seq<nat>)
    requires |ll| == 288
    requires forall s :: 0 <= s < 288 ==>
             ll[s] == if s < 144 then 8 else if s < 256 then 9 else if s < 280 then 7 else 8
    requires |d| == 32 && forall s :: 0 <= s < 32 ==> d[s] == 5
    ensures ll == FixedLL() && d == FixedD()
  {
  }

  /** The predicted size of a block of the given type, in bits. */
  ghost function BlockCost(us: seq<Token>, btype: nat): nat {
    if btype == 0 then StoredCost(Bytes(us))
    else if btype == 1 then FixedEnd(); 3 + SymbolSize(FixedLL(), FixedD(), us)
    else 3 + DynamicSize(BestPair(us), us)
  }

  method CalculateBlockSize(store: LZ77Store, lstart: nat, lend: nat, btype: nat, ghost a: nat, ghost b: nat)
    returns (result: nat)
    requires Parses(store, a, b) && lstart <= lend <= store.size
    ensures lend <= |store.tokens| && result == BlockCost(store.tokens[lstart..lend], btype)
  {
    hide *;
    ParseIs(store, a, b);
    FixedEnd();
    CostIs(store.tokens[lstart..lend], btype);
    if btype == 0 {
      var length := RangeOf(store, lstart, lend, a, b);
      PositionFrom(store.tokens, a, lstart, lend);
      var rem := length % 65535;
      var blocks := length / 65535;
      if rem != 0 {
        blocks := blocks + 1;
      }
      StoredCostIs(length);
      return blocks * 5 * 8 + length * 8;
    }
    if btype == 1 {
      var ll, d := GetFixedTree();
      var size := CalculateBlockSymbolSize(ll, d, store, lstart, lend);
      result := 3 + size;
    } else {
      var ll, d, size := GetDynamicLengths(store, lstart, lend);
      result := 3 + size;
    }
  }

  lemma ParseIs(store: LZ77Store, a: nat, b: nat)
    requires Parses(store, a, b)
    ensures store.Valid() && store.size == |store.tokens| == |store.pos| == |store.litlens| == |store.dists|
    ensures Covers(store.data, store.tokens, a, b) && store.pos == Positions(store.tokens, a)
  {
  }

  lemma StoredCostIs(length: nat)
    ensures StoredCost(length) == (length / 65535 + (if length % 65535 != 0 then 1 else 0)) * 5 * 8 + length * 8
  {
  }

  lemma CostIs(us: seq<Token>, btype: nat)
    ensures |FixedLL()| == NUM_LL && |FixedD()| == NUM_D
    ensures BlockCost(us, btype) == if btype == 0 then StoredCost(Bytes(us))
                                    else if btype == 1 then 3 + SymbolSize(FixedLL(), FixedD(), us)
                                    else 3 + DynamicSize(BestPair(us), us)
  {
    FixedEnd();
    hide SymbolSize, DynamicSize, BestPair, StoredCost, FixedLL, FixedD;
  }

  /** The smallest of the sizes; fixed blocks are not considered in large stores. */
  ghost function AutoCost(us: seq<Token>, storeSize: nat): nat {
    var other := Min(BlockCost(us, 0), BlockCost(us, 2));
    if storeSize <= 1000 then Min(other, BlockCost(us, 1)) else other
  }

  /** It is one of the sizes considered, and none of them is smaller. */
  lemma AutoCostIsLeast(us: seq<Token>, storeSize: nat, btype: nat)
    requires btype <= 2 && (btype == 1 ==> storeSize <= 1000)
    ensures AutoCost(us, storeSize) <= BlockCost(us, btype)
    ensures exists t :: 0 <= t <= 2 && (t == 1 ==> storeSize <= 1000) && AutoCost(us, storeSize) == BlockCost(us, t)
  {
    hide BlockCost;
  }

  method CalculateBlockSizeAutoType(store: LZ77Store, lstart: nat, lend: nat, ghost a: nat, ghost b: nat)
    returns (result: nat)
    requires Parses(store, a, b) && lstart <= lend <= store.size
    ensures lend <= |store.tokens| && result == AutoCost(store.tokens[lstart..lend], store.size)
  {
    hide BlockCost, Parses;
    var uncompressedCost := CalculateBlockSize(store, lstart, lend, 0, a, b);
    var fixedCost := uncompressedCost;
    if store.size <= 1000 {
      fixedCost := CalculateBlockSize(store, lstart, lend, 1, a, b);
    }
    var dynCost := CalculateBlockSize(store, lstart, lend, 2, a, b);
    if uncompressedCost < fixedCost && uncompressedCost < dynCost {
      return uncompressedCost;
    } else if fixedCost < dynCost {
      return fixedCost;
    } else {
      return dynCost;
    }
  }
}
