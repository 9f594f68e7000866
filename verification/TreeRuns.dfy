/** The run-length coding of code lengths is greedy: each symbol covers as many lengths as any symbol
    that may stand in its place. */
module TreeRuns {
  import opened Prelude
  import opened Symbols
  import opened TreeCode

  /** How many lengths a symbol stands for. */
  function Covered(r: Rle): (n: nat)
    ensures n > 0
  {
    if r.symbol < 16 then 1 else if r.symbol == 18 then 11 + r.extra else 3 + r.extra
  }

  /** What may stand for the lengths from `i` on: the length itself; a repeat symbol that is used and
      covers no more than the run and than its extra bits can say; symbol 16 only `after` a length of
      the same run or another symbol 16. */
  ghost predicate MayStand(s: seq<nat>, i: nat, after: bool, use: Repeats, r: Rle)
    requires i < |s|
  {
    if r.symbol == 18 then use.use18 && s[i] == 0 && Covered(r) <= Min(RunLength(s, i), 138)
    else if r.symbol == 17 then use.use17 && s[i] == 0 && Covered(r) <= Min(RunLength(s, i), 10)
    else if r.symbol == 16 then use.use16 && after && Covered(r) <= Min(RunLength(s, i), 6)
    else r == Rle(s[i], 0)
  }

  ghost predicate CoversMost(s: seq<nat>, i: nat, after: bool, use: Repeats, r: Rle)
    requires i < |s|
  {
    MayStand(s, i, after, use, r) && forall q :: MayStand(s, i, after, use, q) ==> Covered(q) <= Covered(r)
  }

  /** The run goes on after a symbol that symbol 16 may follow. */
  ghost predicate GoesOn(s: seq<nat>, i: nat, r: Rle)
    requires i < |s|
  {
    r.symbol <= 16 && Covered(r) < RunLength(s, i)
  }

  /** The symbols stand for s[i..], each of them covering the most. */
  ghost predicate CoverGreedily(s: seq<nat>, i: nat, after: bool, use: Repeats, rs: seq<Rle>)
    decreases |rs|
  {
    if i >= |s| then i == |s| && rs == []
    else
      && |rs| > 0 && CoversMost(s, i, after, use, rs[0])
      && CoverGreedily(s, i + Covered(rs[0]), GoesOn(s, i, rs[0]), use, rs[1..])
  }

  lemma GreedyCons(s: seq<nat>, i: nat, after: bool, use: Repeats, r: Rle, rest: seq<Rle>)
    requires i < |s| && CoversMost(s, i, after, use, r)
    requires CoverGreedily(s, i + Covered(r), GoesOn(s, i, r), use, rest)
    ensures CoverGreedily(s, i, after, use, [r] + rest)
  {
    hide CoversMost, GoesOn;
    assert ([r] + rest)[1..] == rest;
  }

  lemma {:induction false} RunLeft(s: seq<nat>, i: nat, m: nat)
    requires i < |s| && m < RunLength(s, i)
    ensures i + m < |s| && s[i + m] == s[i] && RunLength(s, i + m) == RunLength(s, i) - m
  {
    if m > 0 { RunLeft(s, i, m - 1); }
  }

  /** Which symbol covers the most. */
  lemma MostIs(s: seq<nat>, i: nat, after: bool, use: Repeats)
    requires i < |s| && s[i] < 16
    ensures var z := RunLength(s, i);
            && (s[i] == 0 && use.use18 && z >= 11 ==> CoversMost(s, i, after, use, Rle(18, Min(z, 138) - 11)))
            && (s[i] == 0 && use.use17 && 3 <= z && (z < 11 || !use.use18) ==>
                CoversMost(s, i, after, use, Rle(17, Min(z, 10) - 3)))
            && (after && use.use16 && z >= 3 && (s[i] != 0 || (!use.use17 && (z < 11 || !use.use18))) ==>
                CoversMost(s, i, after, use, Rle(16, Min(z, 6) - 3)))
            && ((!after || !use.use16 || z < 3) && (s[i] != 0 || ((!use.use17 || z < 3) && (!use.use18 || z < 11))) ==>
                CoversMost(s, i, after, use, Rle(s[i], 0)))
  {
    hide RunLength;
  }

  /** The place where the rest of a run of `count` lengths starts, or where nothing is left of it. */
  ghost predicate AtRest(s: seq<nat>, i: nat, count: nat, x: nat) {
    i <= |s| && (count > 0 ==> i < |s| && s[i] == x && RunLength(s, i) == count)
  }

  lemma RestAfter(s: seq<nat>, i: nat, count: nat, x: nat, m: nat)
    requires AtRest(s, i, count, x) && 0 < m <= count
    ensures i + m <= |s| && AtRest(s, i + m, count - m, x)
  {
    if m < count { RunLeft(s, i, m); }
  }

  lemma {:induction false} PlainGreedy(s: seq<nat>, i: nat, after: bool, use: Repeats, x: nat, count: nat,
                                       rest: seq<Rle>)
    requires x < 16 && AtRest(s, i, count, x) && CoverGreedily(s, i + count, false, use, rest)
    requires use.use16 ==> count <= if after then 2 else 3
    requires x == 0 ==> (!use.use17 || count < 3) && (!use.use18 || count < 11)
    requires count == 0 ==> !after
    ensures CoverGreedily(s, i, after, use, Plain(x, count) + rest)
    decreases count
  {
    hide CoverGreedily, CoversMost, RunLength, MayStand;
    if count == 0 {
      assert Plain(x, 0) + rest == rest;
    } else {
      MostIs(s, i, after, use);
      RestAfter(s, i, count, x, 1);
      PlainGreedy(s, i + 1, count > 1, use, x, count - 1, rest);
      GreedyCons(s, i, after, use, Rle(x, 0), Plain(x, count - 1) + rest);
      assert [Rle(x, 0)] + (Plain(x, count - 1) + rest) == Plain(x, count) + rest;
    }
  }

  lemma {:induction false} Repeats16Greedy(s: seq<nat>, i: nat, use: Repeats, x: nat, count: nat, rest: seq<Rle>)
    requires x < 16 && AtRest(s, i, count, x) && use.use16 && i + count <= |s|
    requires x == 0 ==> !use.use17 && (!use.use18 || count < 11)
    requires CoverGreedily(s, i + count - After16(count), After16(count) > 0, use, rest)
    ensures CoverGreedily(s, i, count > 0, use, Repeats16(count) + rest)
    decreases count
  {
    hide CoverGreedily, CoversMost, RunLength, MayStand;
    if count < 3 {
      assert Repeats16(count) + rest == rest;
    } else {
      var m := Min(count, 6);
      MostIs(s, i, true, use);
      RestAfter(s, i, count, x, m);
      Repeats16Greedy(s, i + m, use, x, count - m, rest);
      GreedyCons(s, i, true, use, Rle(16, m - 3), Repeats16(count - m) + rest);
      assert [Rle(16, m - 3)] + (Repeats16(count - m) + rest) == Repeats16(count) + rest;
    }
  }

  lemma {:induction false} RepeatsRest(s: seq<nat>, i: nat, x: nat, count: nat)
    requires AtRest(s, i, count, x) && i + count <= |s|
    ensures AtRest(s, i + count - After16(count), After16(count), x)
    decreases count
  {
    hide RunLength, AtRest;
    if count >= 3 {
      RestAfter(s, i, count, x, Min(count, 6));
      RepeatsRest(s, i + Min(count, 6), x, count - Min(count, 6));
    }
  }

  /** What is left of a run when no zeros are repeated any more. */
  lemma RestGreedy(s: seq<nat>, i: nat, use: Repeats, x: nat, count: nat, rest: seq<Rle>)
    requires x < 16 && AtRest(s, i, count, x) && i + count <= |s| && CoverGreedily(s, i + count, false, use, rest)
    requires x == 0 ==> (!use.use17 || count < 3) && (!use.use18 || count < 11)
    ensures CoverGreedily(s, i, false, use, RunRest(x, count, use.use16) + rest)
  {
    hide CoverGreedily, CoversMost, RunLength, MayStand, AtRest;
    if use.use16 && count >= 4 {
      var left := After16(count - 1);
      RestAfter(s, i, count, x, 1);
      RepeatsRest(s, i + 1, x, count - 1);
      PlainGreedy(s, i + count - left, left > 0, use, x, left, rest);
      Repeats16Greedy(s, i + 1, use, x, count - 1, Plain(x, left) + rest);
      FirstGreedy(s, i, use, x, count, Repeats16(count - 1) + (Plain(x, left) + rest));
      assert [Rle(x, 0)] + (Repeats16(count - 1) + (Plain(x, left) + rest))
          == [Rle(x, 0)] + Repeats16(count - 1) + Plain(x, left) + rest;
    } else {
      PlainGreedy(s, i, false, use, x, count, rest);
    }
  }

  lemma FirstGreedy(s: seq<nat>, i: nat, use: Repeats, x: nat, count: nat, rest: seq<Rle>)
    requires x < 16 && AtRest(s, i, count, x) && count > 1 && CoverGreedily(s, i + 1, true, use, rest)
    requires x == 0 ==> (!use.use17 || count < 3) && (!use.use18 || count < 11)
    ensures CoverGreedily(s, i, false, use, [Rle(x, 0)] + rest)
  {
    hide CoverGreedily, CoversMost, RunLength, MayStand;
    MostIs(s, i, false, use);
    GreedyCons(s, i, false, use, Rle(x, 0), rest);
  }

  lemma {:induction false} Zeros17Greedy(s: seq<nat>, i: nat, use: Repeats, count: nat, rest: seq<Rle>)
    requires AtRest(s, i, count, 0) && i + count <= |s| && use.use17 && (!use.use18 || count < 11)
    requires CoverGreedily(s, i + count - After17(count), false, use, rest)
    ensures CoverGreedily(s, i, false, use, Zeros17(count) + rest)
    decreases count
  {
    hide CoverGreedily, CoversMost, RunLength, MayStand;
    if count < 3 {
      assert Zeros17(count) + rest == rest;
    } else {
      var m := Min(count, 10);
      MostIs(s, i, false, use);
      RestAfter(s, i, count, 0, m);
      Zeros17Greedy(s, i + m, use, count - m, rest);
      GreedyCons(s, i, false, use, Rle(17, m - 3), Zeros17(count - m) + rest);
      assert [Rle(17, m - 3)] + (Zeros17(count - m) + rest) == Zeros17(count) + rest;
    }
  }

  lemma {:induction false} Zeros17Rest(s: seq<nat>, i: nat, count: nat)
    requires AtRest(s, i, count, 0) && i + count <= |s|
    ensures AtRest(s, i + count - After17(count), After17(count), 0)
    decreases count
  {
    hide RunLength, AtRest;
    if count >= 3 {
      RestAfter(s, i, count, 0, Min(count, 10));
      Zeros17Rest(s, i + Min(count, 10), count - Min(count, 10));
    }
  }

  lemma {:induction false} Zeros18Rest(s: seq<nat>, i: nat, count: nat)
    requires AtRest(s, i, count, 0) && i + count <= |s|
    ensures AtRest(s, i + count - After18(count), After18(count), 0)
    decreases count
  {
    hide RunLength, AtRest;
    if count >= 11 {
      RestAfter(s, i, count, 0, Min(count, 138));
      Zeros18Rest(s, i + Min(count, 138), count - Min(count, 138));
    }
  }

  lemma {:induction false} Zeros18Greedy(s: seq<nat>, i: nat, use: Repeats, count: nat, rest: seq<Rle>)
    requires AtRest(s, i, count, 0) && i + count <= |s| && use.use18
    requires CoverGreedily(s, i + count - After18(count), false, use, rest)
    ensures CoverGreedily(s, i, false, use, Zeros18(count) + rest)
    decreases count
  {
    hide CoverGreedily, CoversMost, RunLength, MayStand;
    if count < 11 {
      assert Zeros18(count) + rest == rest;
    } else {
      var m := Min(count, 138);
      MostIs(s, i, false, use);
      RestAfter(s, i, count, 0, m);
      Zeros18Greedy(s, i + m, use, count - m, rest);
      GreedyCons(s, i, false, use, Rle(18, m - 11), Zeros18(count - m) + rest);
      assert [Rle(18, m - 11)] + (Zeros18(count - m) + rest) == Zeros18(count) + rest;
    }
  }

  /** What is left of a run of zeros once symbol 18 is no good any more. */
  lemma ShortZerosGreedy(s: seq<nat>, i: nat, use: Repeats, count: nat, rest: seq<Rle>)
    requires AtRest(s, i, count, 0) && i + count <= |s| && CoverGreedily(s, i + count, false, use, rest)
    requires !use.use18 || count < 11
    ensures var s17, c17 := if use.use17 then Zeros17(count) else [], if use.use17 then After17(count) else count;
            CoverGreedily(s, i, false, use, s17 + (RunRest(0, c17, use.use16) + rest))
  {
    hide *;
    var c17 := if use.use17 then After17(count) else count;
    var last := RunRest(0, c17, use.use16) + rest;
    if use.use17 {
      Zeros17Rest(s, i, count);
      RestGreedy(s, i + count - c17, use, 0, c17, rest);
      Zeros17Greedy(s, i, use, count, last);
    } else {
      RestGreedy(s, i, use, 0, count, rest);
      assert [] + last == last;
    }
  }

  lemma ZerosGreedy(s: seq<nat>, i: nat, use: Repeats, count: nat, rest: seq<Rle>)
    requires AtRest(s, i, count, 0) && i + count <= |s| && count >= 3 && CoverGreedily(s, i + count, false, use, rest)
    ensures CoverGreedily(s, i, false, use, RunSymbols(0, count, use) + rest)
  {
    hide *;
    var s18, c18 := if use.use18 then Zeros18(count) else [], if use.use18 then After18(count) else count;
    var s17, c17 := if use.use17 then Zeros17(c18) else [], if use.use17 then After17(c18) else c18;
    var last := s17 + (RunRest(0, c17, use.use16) + rest);
    if use.use18 {
      Zeros18Rest(s, i, count);
      ShortZerosGreedy(s, i + count - c18, use, c18, rest);
      Zeros18Greedy(s, i, use, count, last);
    } else {
      ShortZerosGreedy(s, i, use, count, rest);
      assert [] + last == last;
    }
    RunSymbolsAre(count, use);
    assert s18 + last == s18 + s17 + RunRest(0, c17, use.use16) + rest;
  }

  lemma RunSymbolsAre(count: nat, use: Repeats)
    requires count >= 3
    ensures var s18, c18 := if use.use18 then Zeros18(count) else [], if use.use18 then After18(count) else count;
            var s17, c17 := if use.use17 then Zeros17(c18) else [], if use.use17 then After17(c18) else c18;
            RunSymbols(0, count, use) == s18 + s17 + RunRest(0, c17, use.use16)
  {
    hide RunRest, Zeros18, Zeros17, After18, After17;
  }

  /** The symbols for a whole run. */
  lemma RunGreedy(s: seq<nat>, i: nat, use: Repeats, x: nat, count: nat, rest: seq<Rle>)
    requires x < 16 && AtRest(s, i, count, x) && i + count <= |s| && CoverGreedily(s, i + count, false, use, rest)
    ensures CoverGreedily(s, i, false, use, RunSymbols(x, count, use) + rest)
  {
    hide CoverGreedily, RunLength, AtRest, RunRest, Zeros18, Zeros17, After18, After17;
    if x == 0 && count >= 3 {
      ZerosGreedy(s, i, use, count, rest);
    } else {
      RestGreedy(s, i, use, x, count, rest);
    }
  }

  /** A single length, where no runs are looked for. */
  lemma SingleGreedy(s: seq<nat>, i: nat, after: bool, use: Repeats, rest: seq<Rle>)
    requires i < |s| && s[i] < 16 && !use.use16 && (s[i] != 0 || (!use.use17 && !use.use18))
    requires CoverGreedily(s, i + 1, GoesOn(s, i, Rle(s[i], 0)), use, rest)
    ensures CoverGreedily(s, i, after, use, RunSymbols(s[i], 1, use) + rest)
  {
    hide CoverGreedily, CoversMost, RunLength, MayStand, GoesOn;
    MostIs(s, i, after, use);
    GreedyCons(s, i, after, use, Rle(s[i], 0), rest);
    assert RunSymbols(s[i], 1, use) == [Rle(s[i], 0)];
  }

  lemma AfterUnused(s: seq<nat>, i: nat, use: Repeats, rs: seq<Rle>, after: bool)
    requires !use.use16 && CoverGreedily(s, i, false, use, rs)
    ensures CoverGreedily(s, i, after, use, rs)
  {
    hide RunLength, GoesOn;
    if i < |s| {
      assert forall q :: MayStand(s, i, after, use, q) <==> MayStand(s, i, false, use, q);
    }
  }

  lemma {:induction false} RleGreedy(s: seq<nat>, i: nat, use: Repeats)
    requires i <= |s| && forall k :: 0 <= k < |s| ==> s[k] < 16
    ensures CoverGreedily(s, i, false, use, RleFrom(s, i, use))
    decreases |s| - i
  {
    hide CoversMost, RunLength, MayStand, RunSymbols, GoesOn;
    if i < |s| {
      var n := RunAt(s, i, use);
      RleGreedy(s, i + n, use);
      RleFromStep(s, i, use);
      if use.use16 || (s[i] == 0 && (use.use17 || use.use18)) {
        RunGreedy(s, i, use, s[i], n, RleFrom(s, i + n, use));
      } else {
        AfterUnused(s, i + 1, use, RleFrom(s, i + 1, use), GoesOn(s, i, Rle(s[i], 0)));
        SingleGreedy(s, i, false, use, RleFrom(s, i + 1, use));
      }
    }
  }

  /** In the header of any code pair, for each setting, every symbol covers as many code lengths as any
      that may stand in its place. */
  lemma HeaderIsGreedy(ll: seq<nat>, d: seq<nat>, use: Repeats)
    requires CodePair(ll, d)
    ensures CoverGreedily(HeaderLengths(ll, d), 0, false, use, HeaderRles(ll, d, use))
  {
    hide RleFrom, CoverGreedily, Hlit, Hdist;
    RleGreedy(HeaderLengths(ll, d), 0, use);
  }
}
