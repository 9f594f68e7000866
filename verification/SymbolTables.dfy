/** The compressor's tables of length and distance symbols: the literal ones for lengths, and those
    that are filled at start-up. */
module SymbolTables {
  import opened Prelude
  import opened Symbols

  // ---- The three literal tables by length, row by row, and where the rows start ----

  const EXTRA_BITS_ROWS: seq<seq<nat>> :=
    [
      [0, 0, 0, 0, 0, 0, 0, 0, 0, 0, 0, 1, 1, 1, 1, 1, 1, 1, 1],
      [2, 2, 2, 2, 2, 2, 2, 2, 2, 2, 2, 2, 2, 2, 2, 2],
      [3, 3, 3, 3, 3, 3, 3, 3, 3, 3, 3, 3, 3, 3, 3, 3],
      [3, 3, 3, 3, 3, 3, 3, 3, 3, 3, 3, 3, 3, 3, 3, 3],
      [4, 4, 4, 4, 4, 4, 4, 4, 4, 4, 4, 4, 4, 4, 4, 4],
      [4, 4, 4, 4, 4, 4, 4, 4, 4, 4, 4, 4, 4, 4, 4, 4],
      [4, 4, 4, 4, 4, 4, 4, 4, 4, 4, 4, 4, 4, 4, 4, 4],
      [4, 4, 4, 4, 4, 4, 4, 4, 4, 4, 4, 4, 4, 4, 4, 4],
      [5, 5, 5, 5, 5, 5, 5, 5, 5, 5, 5, 5, 5, 5, 5, 5],
      [5, 5, 5, 5, 5, 5, 5, 5, 5, 5, 5, 5, 5, 5, 5, 5],
      [5, 5, 5, 5, 5, 5, 5, 5, 5, 5, 5, 5, 5, 5, 5, 5],
      [5, 5, 5, 5, 5, 5, 5, 5, 5, 5, 5, 5, 5, 5, 5, 5],
      [5, 5, 5, 5, 5, 5, 5, 5, 5, 5, 5, 5, 5, 5, 5, 5],
      [5, 5, 5, 5, 5, 5, 5, 5, 5, 5, 5, 5, 5, 5, 5, 5],
      [5, 5, 5, 5, 5, 5, 5, 5, 5, 5, 5, 5, 5, 5, 5, 5],
      [5, 5, 5, 5, 5, 5, 5, 5, 5, 5, 5, 5, 5, 5, 5, 0]
    ]

  const EXTRA_BITS_STARTS: seq<nat> := [0, 19, 35, 51, 67, 83, 99, 115, 131, 147, 163, 179, 195, 211, 227, 243, 259]

  const EXTRA_VALUES_ROWS: seq<seq<nat>> :=
    [
      [0, 0, 0, 0, 0, 0, 0, 0, 0, 0, 0, 0, 1, 0, 1, 0, 1, 0, 1, 0, 1, 2, 3, 0],
      [1, 2, 3, 0, 1, 2, 3, 0, 1, 2, 3, 0, 1, 2, 3, 4, 5, 6, 7, 0, 1, 2, 3, 4, 5],
      [6, 7, 0, 1, 2, 3, 4, 5, 6, 7, 0, 1, 2, 3, 4, 5, 6, 7, 0, 1, 2, 3, 4, 5, 6],
      [7, 8, 9, 10, 11, 12, 13, 14, 15, 0, 1, 2, 3, 4, 5, 6, 7, 8, 9, 10, 11, 12],
      [13, 14, 15, 0, 1, 2, 3, 4, 5, 6, 7, 8, 9, 10, 11, 12, 13, 14, 15, 0, 1, 2],
      [3, 4, 5, 6, 7, 8, 9, 10, 11, 12, 13, 14, 15, 0, 1, 2, 3, 4, 5, 6, 7, 8, 9],
      [10, 11, 12, 13, 14, 15, 16, 17, 18, 19, 20, 21, 22, 23, 24, 25, 26, 27, 28],
      [29, 30, 31, 0, 1, 2, 3, 4, 5, 6, 7, 8, 9, 10, 11, 12, 13, 14, 15, 16, 17],
      [18, 19, 20, 21, 22, 23, 24, 25, 26, 27, 28, 29, 30, 31, 0, 1, 2, 3, 4, 5, 6],
      [7, 8, 9, 10, 11, 12, 13, 14, 15, 16, 17, 18, 19, 20, 21, 22, 23, 24, 25, 26],
      [27, 28, 29, 30, 31, 0, 1, 2, 3, 4, 5, 6, 7, 8, 9, 10, 11, 12, 13, 14, 15],
      [16, 17, 18, 19, 20, 21, 22, 23, 24, 25, 26, 27, 28, 29, 30, 0]
    ]

  const EXTRA_VALUES_STARTS: seq<nat> := [0, 24, 49, 74, 96, 118, 141, 160, 181, 202, 222, 243, 259]

  const SYMBOLS_ROWS: seq<seq<nat>> :=
    [
      [0, 0, 0, 257, 258, 259, 260, 261, 262, 263, 264],
      [265, 265, 266, 266, 267, 267, 268, 268],
      [269, 269, 269, 269, 270, 270, 270, 270],
      [271, 271, 271, 271, 272, 272, 272, 272],
      [273, 273, 273, 273, 273, 273, 273, 273],
      [274, 274, 274, 274, 274, 274, 274, 274],
      [275, 275, 275, 275, 275, 275, 275, 275],
      [276, 276, 276, 276, 276, 276, 276, 276],
      [277, 277, 277, 277, 277, 277, 277, 277],
      [277, 277, 277, 277, 277, 277, 277, 277],
      [278, 278, 278, 278, 278, 278, 278, 278],
      [278, 278, 278, 278, 278, 278, 278, 278],
      [279, 279, 279, 279, 279, 279, 279, 279],
      [279, 279, 279, 279, 279, 279, 279, 279],
      [280, 280, 280, 280, 280, 280, 280, 280],
      [280, 280, 280, 280, 280, 280, 280, 280],
      [281, 281, 281, 281, 281, 281, 281, 281],
      [281, 281, 281, 281, 281, 281, 281, 281],
      [281, 281, 281, 281, 281, 281, 281, 281],
      [281, 281, 281, 281, 281, 281, 281, 281],
      [282, 282, 282, 282, 282, 282, 282, 282],
      [282, 282, 282, 282, 282, 282, 282, 282],
      [282, 282, 282, 282, 282, 282, 282, 282],
      [282, 282, 282, 282, 282, 282, 282, 282],
      [283, 283, 283, 283, 283, 283, 283, 283],
      [283, 283, 283, 283, 283, 283, 283, 283],
      [283, 283, 283, 283, 283, 283, 283, 283],
      [283, 283, 283, 283, 283, 283, 283, 283],
      [284, 284, 284, 284, 284, 284, 284, 284],
      [284, 284, 284, 284, 284, 284, 284, 284],
      [284, 284, 284, 284, 284, 284, 284, 284],
      [284, 284, 284, 284, 284, 284, 284, 285]
    ]

  const SYMBOLS_STARTS: seq<nat> :=
    [0, 11, 19, 27, 35, 43, 51, 59, 67, 75, 83, 91, 99, 107, 115, 123, 131, 139, 147, 155, 163, 171, 179, 187, 195,
     203, 211, 219, 227, 235, 243, 251, 259]

  /** The first n rows, one after the other. */
  function Joined(rows: seq<seq<nat>>, n: nat): seq<nat>
    requires n <= |rows|
  {
    if n == 0 then [] else Joined(rows, n - 1) + rows[n - 1]
  }

  const EXTRA_BITS_TABLE: seq<nat> := Joined(EXTRA_BITS_ROWS, |EXTRA_BITS_ROWS|)

  const EXTRA_VALUES_TABLE: seq<nat> := Joined(EXTRA_VALUES_ROWS, |EXTRA_VALUES_ROWS|)

  const SYMBOLS_TABLE: seq<nat> := Joined(SYMBOLS_ROWS, |SYMBOLS_ROWS|)

  // ---- What the tables hold ----

  ghost predicate StartsOf(rows: seq<seq<nat>>, starts: seq<nat>) {
    |starts| == |rows| + 1 && starts[0] == 0 && forall k :: 0 <= k < |rows| ==> starts[k + 1] == starts[k] + |rows[k]|
  }

  lemma {:induction false} JoinedHolds(rows: seq<seq<nat>>, starts: seq<nat>, f: nat -> nat, n: nat)
    requires n <= |rows| && StartsOf(rows, starts)
    requires forall k, i: nat :: 0 <= k < |rows| && i < |rows[k]| ==> rows[k][i] == f(starts[k] + i)
    ensures |Joined(rows, n)| == starts[n] && forall x: nat :: x < starts[n] ==> Joined(rows, n)[x] == f(x)
  {
    if n > 0 {
      JoinedHolds(rows, starts, f, n - 1);
      forall x: nat | x < starts[n] ensures Joined(rows, n)[x] == f(x) {
        if x >= starts[n - 1] { assert rows[n - 1][x - starts[n - 1]] == f(starts[n - 1] + (x - starts[n - 1])); }
      }
    }
  }

  lemma LengthExtraBitsRows1(k: nat, i: nat)
    requires 0 <= k < 8 && k < |EXTRA_BITS_ROWS| && i < |EXTRA_BITS_ROWS[k]| && k < |EXTRA_BITS_STARTS|
    ensures EXTRA_BITS_ROWS[k][i] == LengthExtraBits(EXTRA_BITS_STARTS[k] + i)
  {
    hide EXTRA_VALUES_ROWS, EXTRA_VALUES_STARTS, SYMBOLS_ROWS, SYMBOLS_STARTS;
  }

  lemma LengthExtraBitsRows2(k: nat, i: nat)
    requires 8 <= k < 16 && k < |EXTRA_BITS_ROWS| && i < |EXTRA_BITS_ROWS[k]| && k < |EXTRA_BITS_STARTS|
    ensures EXTRA_BITS_ROWS[k][i] == LengthExtraBits(EXTRA_BITS_STARTS[k] + i)
  {
    hide EXTRA_VALUES_ROWS, EXTRA_VALUES_STARTS, SYMBOLS_ROWS, SYMBOLS_STARTS;
  }

  lemma LengthExtraBitsStarts()
    ensures |EXTRA_BITS_ROWS| == 16 && |EXTRA_BITS_STARTS| == 17 && StartsOf(EXTRA_BITS_ROWS, EXTRA_BITS_STARTS)
    ensures EXTRA_BITS_STARTS[16] == MAX_MATCH + 1 == 259
  {
    hide EXTRA_VALUES_ROWS, EXTRA_VALUES_STARTS, SYMBOLS_ROWS, SYMBOLS_STARTS;
  }

  /** For every length the table holds the number of extra bits. */
  lemma LengthExtraBitsTable(length: nat)
    requires length <= MAX_MATCH
    ensures |EXTRA_BITS_TABLE| == MAX_MATCH + 1 && EXTRA_BITS_TABLE[length] == LengthExtraBits(length)
  {
    hide *;
    LengthExtraBitsStarts();
    forall k, i: nat | 0 <= k < |EXTRA_BITS_ROWS| && i < |EXTRA_BITS_ROWS[k]|
      ensures EXTRA_BITS_ROWS[k][i] == LengthExtraBits(EXTRA_BITS_STARTS[k] + i)
    {
      if k < 8 {
        LengthExtraBitsRows1(k, i);
      } else {
        LengthExtraBitsRows2(k, i);
      }
    }
    JoinedHolds(EXTRA_BITS_ROWS, EXTRA_BITS_STARTS, x => LengthExtraBits(x), |EXTRA_BITS_ROWS|);
    LengthExtraBitsTableIs();
  }

  lemma LengthExtraBitsTableIs()
    ensures EXTRA_BITS_TABLE == Joined(EXTRA_BITS_ROWS, |EXTRA_BITS_ROWS|)
  {
    hide EXTRA_BITS_ROWS, Joined;
  }

  lemma LengthExtraValueRows1(k: nat, i: nat)
    requires 0 <= k < 2 && k < |EXTRA_VALUES_ROWS| && i < |EXTRA_VALUES_ROWS[k]| && k < |EXTRA_VALUES_STARTS|
    ensures EXTRA_VALUES_ROWS[k][i] == LengthExtraValue(EXTRA_VALUES_STARTS[k] + i)
  {
    hide EXTRA_BITS_ROWS, EXTRA_BITS_STARTS, SYMBOLS_ROWS, SYMBOLS_STARTS;
  }

  lemma LengthExtraValueRows2(k: nat, i: nat)
    requires 2 <= k < 4 && k < |EXTRA_VALUES_ROWS| && i < |EXTRA_VALUES_ROWS[k]| && k < |EXTRA_VALUES_STARTS|
    ensures EXTRA_VALUES_ROWS[k][i] == LengthExtraValue(EXTRA_VALUES_STARTS[k] + i)
  {
    hide EXTRA_BITS_ROWS, EXTRA_BITS_STARTS, SYMBOLS_ROWS, SYMBOLS_STARTS;
  }

  lemma LengthExtraValueRows3(k: nat, i: nat)
    requires 4 <= k < 6 && k < |EXTRA_VALUES_ROWS| && i < |EXTRA_VALUES_ROWS[k]| && k < |EXTRA_VALUES_STARTS|
    ensures EXTRA_VALUES_ROWS[k][i] == LengthExtraValue(EXTRA_VALUES_STARTS[k] + i)
  {
    hide EXTRA_BITS_ROWS, EXTRA_BITS_STARTS, SYMBOLS_ROWS, SYMBOLS_STARTS;
  }

  lemma LengthExtraValueRows4(k: nat, i: nat)
    requires 6 <= k < 8 && k < |EXTRA_VALUES_ROWS| && i < |EXTRA_VALUES_ROWS[k]| && k < |EXTRA_VALUES_STARTS|
    ensures EXTRA_VALUES_ROWS[k][i] == LengthExtraValue(EXTRA_VALUES_STARTS[k] + i)
  {
    hide EXTRA_BITS_ROWS, EXTRA_BITS_STARTS, SYMBOLS_ROWS, SYMBOLS_STARTS;
  }

  lemma LengthExtraValueRows5(k: nat, i: nat)
    requires 8 <= k < 10 && k < |EXTRA_VALUES_ROWS| && i < |EXTRA_VALUES_ROWS[k]| && k < |EXTRA_VALUES_STARTS|
    ensures EXTRA_VALUES_ROWS[k][i] == LengthExtraValue(EXTRA_VALUES_STARTS[k] + i)
  {
    hide EXTRA_BITS_ROWS, EXTRA_BITS_STARTS, SYMBOLS_ROWS, SYMBOLS_STARTS;
  }

  lemma LengthExtraValueRows6(k: nat, i: nat)
    requires 10 <= k < 12 && k < |EXTRA_VALUES_ROWS| && i < |EXTRA_VALUES_ROWS[k]| && k < |EXTRA_VALUES_STARTS|
    ensures EXTRA_VALUES_ROWS[k][i] == LengthExtraValue(EXTRA_VALUES_STARTS[k] + i)
  {
    hide EXTRA_BITS_ROWS, EXTRA_BITS_STARTS, SYMBOLS_ROWS, SYMBOLS_STARTS;
  }

  lemma LengthExtraValueStarts()
    ensures |EXTRA_VALUES_ROWS| == 12 && |EXTRA_VALUES_STARTS| == 13 && StartsOf(EXTRA_VALUES_ROWS, EXTRA_VALUES_STARTS)
    ensures EXTRA_VALUES_STARTS[12] == MAX_MATCH + 1 == 259
  {
    hide EXTRA_BITS_ROWS, EXTRA_BITS_STARTS, SYMBOLS_ROWS, SYMBOLS_STARTS;
  }

  /** For every length the table holds the value of the extra bits. */
  lemma LengthExtraValueTable(length: nat)
    requires length <= MAX_MATCH
    ensures |EXTRA_VALUES_TABLE| == MAX_MATCH + 1 && EXTRA_VALUES_TABLE[length] == LengthExtraValue(length)
  {
    hide *;
    LengthExtraValueStarts();
    forall k, i: nat | 0 <= k < |EXTRA_VALUES_ROWS| && i < |EXTRA_VALUES_ROWS[k]|
      ensures EXTRA_VALUES_ROWS[k][i] == LengthExtraValue(EXTRA_VALUES_STARTS[k] + i)
    {
      if k < 2 {
        LengthExtraValueRows1(k, i);
      } else if k < 4 {
        LengthExtraValueRows2(k, i);
      } else if k < 6 {
        LengthExtraValueRows3(k, i);
      } else if k < 8 {
        LengthExtraValueRows4(k, i);
      } else if k < 10 {
        LengthExtraValueRows5(k, i);
      } else {
        LengthExtraValueRows6(k, i);
      }
    }
    JoinedHolds(EXTRA_VALUES_ROWS, EXTRA_VALUES_STARTS, x => LengthExtraValue(x), |EXTRA_VALUES_ROWS|);
    LengthExtraValueTableIs();
  }

  lemma LengthExtraValueTableIs()
    ensures EXTRA_VALUES_TABLE == Joined(EXTRA_VALUES_ROWS, |EXTRA_VALUES_ROWS|)
  {
    hide EXTRA_VALUES_ROWS, Joined;
  }

  lemma LengthSymbolRows1(k: nat, i: nat)
    requires 0 <= k < 8 && k < |SYMBOLS_ROWS| && i < |SYMBOLS_ROWS[k]| && k < |SYMBOLS_STARTS|
    ensures SYMBOLS_ROWS[k][i] == LengthSymbol(SYMBOLS_STARTS[k] + i)
  {
    hide EXTRA_BITS_ROWS, EXTRA_BITS_STARTS, EXTRA_VALUES_ROWS, EXTRA_VALUES_STARTS;
  }

  lemma LengthSymbolRows2(k: nat, i: nat)
    requires 8 <= k < 16 && k < |SYMBOLS_ROWS| && i < |SYMBOLS_ROWS[k]| && k < |SYMBOLS_STARTS|
    ensures SYMBOLS_ROWS[k][i] == LengthSymbol(SYMBOLS_STARTS[k] + i)
  {
    hide EXTRA_BITS_ROWS, EXTRA_BITS_STARTS, EXTRA_VALUES_ROWS, EXTRA_VALUES_STARTS;
  }

  lemma LengthSymbolRows3(k: nat, i: nat)
    requires 16 <= k < 24 && k < |SYMBOLS_ROWS| && i < |SYMBOLS_ROWS[k]| && k < |SYMBOLS_STARTS|
    ensures SYMBOLS_ROWS[k][i] == LengthSymbol(SYMBOLS_STARTS[k] + i)
  {
    hide EXTRA_BITS_ROWS, EXTRA_BITS_STARTS, EXTRA_VALUES_ROWS, EXTRA_VALUES_STARTS;
  }

  lemma LengthSymbolRows4(k: nat, i: nat)
    requires 24 <= k < 32 && k < |SYMBOLS_ROWS| && i < |SYMBOLS_ROWS[k]| && k < |SYMBOLS_STARTS|
    ensures SYMBOLS_ROWS[k][i] == LengthSymbol(SYMBOLS_STARTS[k] + i)
  {
    hide EXTRA_BITS_ROWS, EXTRA_BITS_STARTS, EXTRA_VALUES_ROWS, EXTRA_VALUES_STARTS;
  }

  lemma LengthSymbolStarts()
    ensures |SYMBOLS_ROWS| == 32 && |SYMBOLS_STARTS| == 33 && StartsOf(SYMBOLS_ROWS, SYMBOLS_STARTS)
    ensures SYMBOLS_STARTS[32] == MAX_MATCH + 1 == 259
  {
    hide EXTRA_BITS_ROWS, EXTRA_BITS_STARTS, EXTRA_VALUES_ROWS, EXTRA_VALUES_STARTS;
  }

  /** For every length the table holds the symbol. */
  lemma LengthSymbolTable(length: nat)
    requires length <= MAX_MATCH
    ensures |SYMBOLS_TABLE| == MAX_MATCH + 1 && SYMBOLS_TABLE[length] == LengthSymbol(length)
  {
    hide *;
    LengthSymbolStarts();
    forall k, i: nat | 0 <= k < |SYMBOLS_ROWS| && i < |SYMBOLS_ROWS[k]|
      ensures SYMBOLS_ROWS[k][i] == LengthSymbol(SYMBOLS_STARTS[k] + i)
    {
      if k < 8 {
        LengthSymbolRows1(k, i);
      } else if k < 16 {
        LengthSymbolRows2(k, i);
      } else if k < 24 {
        LengthSymbolRows3(k, i);
      } else {
        LengthSymbolRows4(k, i);
      }
    }
    JoinedHolds(SYMBOLS_ROWS, SYMBOLS_STARTS, x => LengthSymbol(x), |SYMBOLS_ROWS|);
    LengthSymbolTableIs();
  }

  lemma LengthSymbolTableIs()
    ensures SYMBOLS_TABLE == Joined(SYMBOLS_ROWS, |SYMBOLS_ROWS|)
  {
    hide SYMBOLS_ROWS, Joined;
  }

  // ---- The tables that are filled at start-up ----

  lemma {:induction false} RunEndIs(length: nat, end: nat)
    requires length <= end <= MAX_MATCH && forall k :: length <= k <= end ==> LengthSymbol(k) == LengthSymbol(length)
    requires end < MAX_MATCH ==> LengthSymbol(end + 1) != LengthSymbol(length)
    ensures LengthSymbolRunEnd(length) == end
    decreases end - length
  {
    hide LengthSymbol;
    if length < end { RunEndIs(length + 1, end); }
  }

  ghost predicate DistanceTables(symbols: array<nat>, extraBits: array<nat>, extraValues: array<nat>, n: nat)
    reads symbols, extraBits, extraValues
  {
    && symbols.Length == extraBits.Length == extraValues.Length == WINDOW_SIZE + 1 && n <= WINDOW_SIZE + 1
    && forall dist :: 1 <= dist < n ==>
         ComputeDistCode(dist) == DistCode(symbols[dist], extraBits[dist], extraValues[dist])
  }

  /** The codes of all distances in the window. */
  method FillDistances() returns (symbols: array<nat>, extraBits: array<nat>, extraValues: array<nat>)
    ensures DistanceTables(symbols, extraBits, extraValues, WINDOW_SIZE + 1)
  {
    hide ComputeDistCode;
    symbols := new nat[WINDOW_SIZE + 1](_ => 0);
    extraBits := new nat[WINDOW_SIZE + 1](_ => 0);
    extraValues := new nat[WINDOW_SIZE + 1](_ => 0);
    for dist := 1 to WINDOW_SIZE + 1
      invariant DistanceTables(symbols, extraBits, extraValues, dist)
    {
      var c := ComputeDistCode(dist);
      symbols[dist], extraBits[dist], extraValues[dist] := c.symbol, c.extraBits, c.extraValue;
    }
  }

  /** For every length the last one with the same symbol. */
  method FillRunEnds() returns (runEnds: array<nat>)
    ensures runEnds.Length == MAX_MATCH + 1
    ensures forall length :: MIN_MATCH <= length <= MAX_MATCH ==> runEnds[length] == LengthSymbolRunEnd(length)
  {
    hide LengthSymbol, LengthSymbolRunEnd, SYMBOLS_TABLE;
    runEnds := new nat[MAX_MATCH + 1](_ => 0);
    var start := MIN_MATCH;
    while start <= MAX_MATCH
      invariant MIN_MATCH <= start <= MAX_MATCH + 1
      invariant forall length :: MIN_MATCH <= length < start ==> runEnds[length] == LengthSymbolRunEnd(length)
      decreases MAX_MATCH + 1 - start
    {
      LengthSymbolTable(start);
      var symbol, end := SYMBOLS_TABLE[start], start;
      LengthSymbolTable(if end < MAX_MATCH then end + 1 else end);
      while end < MAX_MATCH && SYMBOLS_TABLE[end + 1] == symbol
        invariant start <= end <= MAX_MATCH && forall k :: start <= k <= end ==> LengthSymbol(k) == symbol
        invariant end < MAX_MATCH ==> SYMBOLS_TABLE[end + 1] == LengthSymbol(end + 1)
        invariant forall length :: MIN_MATCH <= length < start ==> runEnds[length] == LengthSymbolRunEnd(length)
      {
        end := end + 1;
        LengthSymbolTable(if end < MAX_MATCH then end + 1 else end);
      }
      for length := start to end + 1
        invariant forall l :: MIN_MATCH <= l < length ==> runEnds[l] == LengthSymbolRunEnd(l)
      {
        RunEndIs(length, end);
        runEnds[length] := end;
      }
      start := end + 1;
    }
  }
}
