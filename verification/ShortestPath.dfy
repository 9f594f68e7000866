/** The cheapest parse of a block as a shortest path: what the two dynamic programs compute. */
module ShortestPath {
  import opened Prelude
  import opened Symbols
  import opened Tokens

  // ---- Costs ----

  const LARGE: real := 1000000000000000000000000000000.0
  const MAX_SYMBOL_COST: real := 64.0
  const MAX_TOKEN_COST: real := 146.0

  /** What the symbols cost, in bits. */
  datatype CostModel = CostModel(ll: seq<real>, d: seq<real>)

  ghost predicate ValidModel(m: CostModel) {
    && |m.ll| == NUM_LL && |m.d| == NUM_D
    && (forall s :: 0 <= s < NUM_LL ==> m.ll[s] <= MAX_SYMBOL_COST)
    && (forall s :: 0 <= s < NUM_D ==> m.d[s] <= MAX_SYMBOL_COST)
  }

  function LengthCost(m: CostModel, length: nat): real {
    if LengthSymbol(length) < |m.ll| then LengthExtraBits(length) as real + m.ll[LengthSymbol(length)] else 0.0
  }

  function DistCost(m: CostModel, dist: nat): real {
    if dist > 0 && ComputeDistCode(dist).symbol < |m.d|
    then ComputeDistCode(dist).extraBits as real + m.d[ComputeDistCode(dist).symbol] else 0.0
  }

  function TokenCost(m: CostModel, t: Token): real {
    if t.dist == 0 then (if t.litlen < |m.ll| then m.ll[t.litlen] else 0.0)
    else LengthCost(m, t.litlen) + DistCost(m, t.dist)
  }

  lemma TokenCostBound(m: CostModel, t: Token)
    requires ValidModel(m) && ValidToken(t)
    ensures TokenCost(m, t) <= MAX_TOKEN_COST
  {
    if t.dist > 0 {
      LengthDecodes(t.litlen);
      DistDecodes(t.dist);
      ExtraBound(ComputeDistCode(t.dist).symbol);
      hide ComputeDistCode, LengthSymbol;
    }
  }

  lemma ExtraBound(s: nat)
    requires s < 30
    ensures DIST_EXTRA[s] <= 13
  {
  }

  // ---- The graph of parses ----

  /** Per byte of the block: its value, the distances for all lengths that its match offers, and
      whether it lies in the middle of a very long run of one byte. */
  datatype Graph = Graph(lits: seq<byte>, subs: seq<seq<nat>>, long: seq<bool>) {
    function Size(): nat { |lits| }
  }

  /** The match of byte `j` offers the lengths below |subs[j]|. */
  ghost predicate ValidMatch(sub: seq<nat>, room: nat) {
    |sub| <= MAX_MATCH + 1 && |sub| - 1 <= room && forall k :: MIN_MATCH <= k < |sub| ==> 1 <= sub[k] <= WINDOW_SIZE
  }

  /** The longest match, one byte back. */
  ghost predicate OneBack(sub: seq<nat>) {
    |sub| == MAX_MATCH + 1 && sub[MAX_MATCH] == 1
  }

  ghost predicate InRun(g: Graph, j: nat) {
    2 <= j && j + MAX_MATCH * 2 < |g.subs| && forall q :: j - 2 <= q < j + MAX_MATCH ==> OneBack(g.subs[q])
  }

  ghost predicate ValidGraph(g: Graph) {
    && |g.lits| == |g.subs| == |g.long|
    && (forall j :: 0 <= j < |g.subs| ==> ValidMatch(g.subs[j], g.Size() - j))
    && (forall j :: 0 <= j < |g.long| && g.long[j] ==> InRun(g, j))
  }

  /** A step takes one byte as a literal, or a length that the match offers. */
  ghost predicate Allowed(g: Graph, j: nat, k: nat) {
    j < |g.subs| == |g.lits| && (k == 1 || MIN_MATCH <= k < |g.subs[j]|)
  }

  ghost function StepToken(g: Graph, j: nat, k: nat): Token
    requires Allowed(g, j, k)
  {
    if k == 1 then Token(g.lits[j], 0) else Token(k, g.subs[j][k])
  }

  lemma StepIsValid(g: Graph, j: nat, k: nat)
    requires ValidGraph(g) && Allowed(g, j, k)
    ensures 1 <= k && j + k <= g.Size() && ValidToken(StepToken(g, j, k)) && Length(StepToken(g, j, k)) == k
  {
    assert ValidMatch(g.subs[j], g.Size() - j);
  }

  ghost function StepCost(g: Graph, m: CostModel, j: nat, k: nat): real
    requires Allowed(g, j, k)
  {
    TokenCost(m, StepToken(g, j, k))
  }

  lemma StepCostBound(g: Graph, m: CostModel, j: nat, k: nat)
    requires ValidGraph(g) && ValidModel(m) && Allowed(g, j, k)
    ensures StepCost(g, m, j, k) <= MAX_TOKEN_COST
  {
    StepIsValid(g, j, k);
    TokenCostBound(m, StepToken(g, j, k));
  }

  // ---- Paths ----

  ghost predicate ValidPath(g: Graph, j: nat, path: seq<nat>, e: nat)
    decreases |path|
  {
    if |path| == 0 then j == e else Allowed(g, j, path[0]) && ValidPath(g, j + path[0], path[1..], e)
  }

  ghost function PathTokens(g: Graph, j: nat, path: seq<nat>, e: nat): (ts: seq<Token>)
    requires ValidPath(g, j, path, e)
    ensures |ts| == |path|
    decreases |path|
  {
    if |path| == 0 then [] else [StepToken(g, j, path[0])] + PathTokens(g, j + path[0], path[1..], e)
  }

  ghost function PathCost(g: Graph, m: CostModel, j: nat, path: seq<nat>, e: nat): real
    requires ValidPath(g, j, path, e)
    decreases |path|
  {
    if |path| == 0 then 0.0 else StepCost(g, m, j, path[0]) + PathCost(g, m, j + path[0], path[1..], e)
  }

  /** One more step at the end. */
  lemma {:induction false} PathExtend(g: Graph, m: CostModel, j: nat, path: seq<nat>, e: nat, k: nat)
    requires ValidPath(g, j, path, e) && Allowed(g, e, k)
    ensures ValidPath(g, j, path + [k], e + k)
    ensures PathCost(g, m, j, path + [k], e + k) == PathCost(g, m, j, path, e) + StepCost(g, m, e, k)
    decreases |path|
  {
    hide Allowed, StepCost;
    if |path| == 0 {
      assert path + [k] == [k] && [k][1..] == [];
    } else {
      PathExtend(g, m, j + path[0], path[1..], e, k);
      assert (path + [k])[1..] == path[1..] + [k];
    }
  }

  // ---- Relaxation ----

  /** The best known cost of reaching a byte, and the length of the last step to it. */
  datatype Cell = Cell(cost: real, length: nat)

  ghost function Fresh(n: nat): (cells: seq<Cell>)
    ensures |cells| == n + 1
  {
    seq(n + 1, t => if t == 0 then Cell(0.0, 0) else Cell(LARGE, 0))
  }

  /** A step from byte `j` to byte `t`, shorter than `limit`. */
  ghost predicate StepTo(g: Graph, j: nat, t: nat, limit: nat) {
    j < t && t - j < limit && Allowed(g, j, t - j)
  }

  ghost function RelaxedCell(g: Graph, m: CostModel, cells: seq<Cell>, j: nat, t: nat, limit: nat): Cell
    requires j < |cells| && t < |cells|
  {
    if StepTo(g, j, t, limit) && cells[j].cost + StepCost(g, m, j, t - j) < cells[t].cost
    then Cell(cells[j].cost + StepCost(g, m, j, t - j), t - j)
    else cells[t]
  }

  ghost function RelaxedTo(g: Graph, m: CostModel, cells: seq<Cell>, j: nat, limit: nat): (r: seq<Cell>)
    requires j < |cells|
    ensures |r| == |cells| && forall t :: 0 <= t < |cells| ==> r[t] == RelaxedCell(g, m, cells, j, t, limit)
  {
    seq(|cells|, t requires 0 <= t < |cells| => RelaxedCell(g, m, cells, j, t, limit))
  }

  /** All steps from byte `j`. */
  ghost function Relaxed(g: Graph, m: CostModel, cells: seq<Cell>, j: nat): (r: seq<Cell>)
    requires j < |cells|
    ensures |r| == |cells|
  {
    RelaxedTo(g, m, cells, j, MAX_MATCH + 1)
  }

  /** All steps from byte `j` on, byte after byte. */
  ghost function PlainFrom(g: Graph, m: CostModel, cells: seq<Cell>, j: nat): (r: seq<Cell>)
    requires |cells| == g.Size() + 1 && j <= g.Size()
    ensures |r| == |cells|
    decreases g.Size() - j
  {
    if j == g.Size() then cells else PlainFrom(g, m, Relaxed(g, m, cells, j), j + 1)
  }

  // ---- The shortcut through long runs ----

  function JumpCost(m: CostModel): real {
    LengthCost(m, MAX_MATCH) + DistCost(m, 1)
  }

  /** The next n of MAX_MATCH bytes take the longest match each, and nothing else is tried. */
  ghost function Jumped(m: CostModel, cells: seq<Cell>, j: nat, n: nat): (r: seq<Cell>)
    requires n <= MAX_MATCH
    ensures |r| == |cells|
    ensures forall t :: 0 <= t < |cells| ==>
              r[t] == (if j + MAX_MATCH <= t < j + MAX_MATCH + n
                       then Cell(cells[t - MAX_MATCH].cost + JumpCost(m), MAX_MATCH) else cells[t])
  {
    seq(|cells|, t requires 0 <= t < |cells| =>
      if j + MAX_MATCH <= t < j + MAX_MATCH + n then Cell(cells[t - MAX_MATCH].cost + JumpCost(m), MAX_MATCH)
        else cells[t])
  }

  /** Byte after byte with the shortcut. */
  ghost function StatFrom(g: Graph, m: CostModel, cells: seq<Cell>, j: nat): (r: seq<Cell>)
    requires |cells| == g.Size() + 1 && j <= g.Size() && ValidGraph(g)
    ensures |r| == |cells|
    decreases g.Size() - j
  {
    if j == g.Size() then cells
    else if g.long[j] then
      assert InRun(g, j);
      StatFrom(g, m, Relaxed(g, m, Jumped(m, cells, j, MAX_MATCH), j + MAX_MATCH), j + MAX_MATCH + 1)
    else StatFrom(g, m, Relaxed(g, m, cells, j), j + 1)
  }

  // ---- What relaxation keeps ----

  ghost predicate Written(c: Cell) {
    c.cost < LARGE
  }

  /** A written cell was reached by an allowed step from a byte before `j`, at that byte's cost. */
  ghost predicate Reached(g: Graph, m: CostModel, cells: seq<Cell>, j: nat, t: nat)
    requires t < |cells|
  {
    var k := cells[t].length;
    1 <= k <= t && t - k < j && Allowed(g, t - k, k)
    && cells[t].cost == cells[t - k].cost + StepCost(g, m, t - k, k)
  }

  ghost predicate Sound(g: Graph, m: CostModel, cells: seq<Cell>, j: nat) {
    && |cells| == g.Size() + 1 && j <= g.Size() && cells[0].cost == 0.0
    && (forall t :: 0 <= t <= g.Size() && Written(cells[t]) ==> cells[t].cost <= MAX_TOKEN_COST * t as real)
    && (forall t :: 0 < t <= g.Size() && Written(cells[t]) ==> Reached(g, m, cells, j, t))
    && (forall t :: 0 <= t <= j ==> Written(cells[t]))
  }

  /** All lengths that the match of byte `q` offers lead to written cells. */
  ghost predicate Spread(g: Graph, cells: seq<Cell>, q: nat) {
    q < |g.subs| ==> forall t :: q + MIN_MATCH <= t < q + |g.subs[q]| && t < |cells| ==> Written(cells[t])
  }

  /** No path can cost as much as the sentinel. */
  ghost predicate BelowSentinel(g: Graph) {
    MAX_TOKEN_COST * (g.Size() + 1) as real < LARGE
  }

  lemma BelowSentinelAt(g: Graph, cost: real, c: real, j: nat, t: nat)
    requires BelowSentinel(g) && j < t <= g.Size() && cost <= MAX_TOKEN_COST * j as real && c <= MAX_TOKEN_COST
    ensures cost + c <= MAX_TOKEN_COST * t as real && cost + c < LARGE
  {
    assert t as real >= j as real + 1.0;
    assert t as real <= g.Size() as real;
  }

  lemma RelaxedCellIs(g: Graph, m: CostModel, cells: seq<Cell>, j: nat, t: nat)
    requires j < |cells| && t < |cells|
    ensures var r := Relaxed(g, m, cells, j)[t];
            && r == RelaxedCell(g, m, cells, j, t, MAX_MATCH + 1)
            && (t <= j ==> r == cells[t])
            && r.cost <= cells[t].cost
            && (r == cells[t] || (j < t && Allowed(g, j, t - j)
                                  && r == Cell(cells[j].cost + StepCost(g, m, j, t - j), t - j)))
            && (j < t && Allowed(g, j, t - j) && t - j <= MAX_MATCH ==>
                r.cost <= cells[j].cost + StepCost(g, m, j, t - j))
  {
    hide Allowed, StepCost;
  }

  /** A cell that is written over is reached from byte `j`. */
  lemma OverwrittenReached(g: Graph, m: CostModel, cells: seq<Cell>, r: seq<Cell>, j: nat, t: nat)
    requires |r| == |cells| && j < t < |cells| && Allowed(g, j, t - j) && r[j] == cells[j]
    requires r[t] == Cell(cells[j].cost + StepCost(g, m, j, t - j), t - j)
    ensures Reached(g, m, r, j + 1, t)
  {
    hide Allowed, StepCost;
  }

  /** A cell that stays is reached as before. */
  lemma KeptReached(g: Graph, m: CostModel, cells: seq<Cell>, r: seq<Cell>, j: nat, j': nat, t: nat)
    requires |r| == |cells| && t < |cells| && j <= j' && Reached(g, m, cells, j, t) && r[t] == cells[t]
    requires r[t - cells[t].length] == cells[t - cells[t].length]
    ensures Reached(g, m, r, j', t)
  {
    hide Allowed, StepCost;
  }

  lemma SoundAt(g: Graph, m: CostModel, cells: seq<Cell>, j: nat, t: nat)
    requires Sound(g, m, cells, j) && t <= g.Size()
    ensures |cells| == g.Size() + 1 && j <= g.Size()
    ensures Written(cells[t]) ==> cells[t].cost <= MAX_TOKEN_COST * t as real
    ensures t > 0 && Written(cells[t]) ==>
            Reached(g, m, cells, j, t) && 1 <= cells[t].length <= t && t - cells[t].length < j
    ensures t <= j ==> Written(cells[t])
  {
    hide Allowed, StepCost;
  }

  lemma RelaxedCellSound(g: Graph, m: CostModel, cells: seq<Cell>, j: nat, t: nat)
    requires ValidGraph(g) && ValidModel(m) && BelowSentinel(g) && Sound(g, m, cells, j) && j < g.Size()
    requires t <= g.Size()
    ensures var r := Relaxed(g, m, cells, j);
            && |r| == |cells|
            && (Written(r[t]) ==> r[t].cost <= MAX_TOKEN_COST * t as real)
            && (t > 0 && Written(r[t]) ==> Reached(g, m, r, j + 1, t))
            && (Written(cells[t]) ==> Written(r[t]))
            && (j < t && Allowed(g, j, t - j) && t - j <= MAX_MATCH ==> Written(r[t]))
  {
    var r := Relaxed(g, m, cells, j);
    SoundAt(g, m, cells, j, t);
    SoundAt(g, m, cells, j, j);
    hide Relaxed, Allowed, StepCost, ValidGraph, ValidModel, BelowSentinel, Reached, Sound, RelaxedCell;
    RelaxedCellIs(g, m, cells, j, t);
    RelaxedCellIs(g, m, cells, j, j);
    if j < t && Allowed(g, j, t - j) {
      StepCostBound(g, m, j, t - j);
      BelowSentinelAt(g, cells[j].cost, StepCost(g, m, j, t - j), j, t);
    }
    if r[t] == cells[t] {
      if t > 0 && Written(r[t]) {
        RelaxedCellIs(g, m, cells, j, t - cells[t].length);
        KeptReached(g, m, cells, r, j, j + 1, t);
      }
    } else {
      OverwrittenReached(g, m, cells, r, j, t);
    }
  }

  /** Relaxing all steps from byte `j` keeps the table sound and reaches the next byte. */
  lemma RelaxedSound(g: Graph, m: CostModel, cells: seq<Cell>, j: nat)
    requires ValidGraph(g) && ValidModel(m) && BelowSentinel(g) && Sound(g, m, cells, j) && j < g.Size()
    ensures var r := Relaxed(g, m, cells, j); Sound(g, m, r, j + 1) && Spread(g, r, j)
    ensures forall q :: Spread(g, cells, q) ==> Spread(g, Relaxed(g, m, cells, j), q)
  {
    var r := Relaxed(g, m, cells, j);
    RelaxedCellIs(g, m, cells, j, 0);
    LiteralAllowed(g, j);
    hide Relaxed, Allowed, StepCost, ValidModel, BelowSentinel, Reached;
    forall t | 0 <= t <= g.Size()
      ensures Written(r[t]) ==> r[t].cost <= MAX_TOKEN_COST * t as real
      ensures t > 0 && Written(r[t]) ==> Reached(g, m, r, j + 1, t)
      ensures Written(cells[t]) ==> Written(r[t])
      ensures j < t && Allowed(g, j, t - j) && t - j <= MAX_MATCH ==> Written(r[t])
    {
      RelaxedCellSound(g, m, cells, j, t);
    }
    forall t | j + MIN_MATCH <= t < j + |g.subs[j]| && t < |r| ensures Written(r[t]) {
      SpreadAllowed(g, j, t);
    }
  }

  lemma LiteralAllowed(g: Graph, j: nat)
    requires ValidGraph(g) && j < g.Size()
    ensures Allowed(g, j, 1)
  {
  }

  lemma SpreadAllowed(g: Graph, j: nat, t: nat)
    requires ValidGraph(g) && j < |g.subs| && j + MIN_MATCH <= t < j + |g.subs[j]|
    ensures Allowed(g, j, t - j) && t - j <= MAX_MATCH
  {
    assert ValidMatch(g.subs[j], g.Size() - j);
  }

  // ---- What the shortcut keeps ----

  lemma JumpAllowed(g: Graph, m: CostModel, j: nat, q: nat)
    requires ValidGraph(g) && j < |g.long| && g.long[j] && j <= q < j + MAX_MATCH
    ensures Allowed(g, q, MAX_MATCH) && StepCost(g, m, q, MAX_MATCH) == JumpCost(m) && q + MAX_MATCH <= g.Size()
  {
    assert InRun(g, j);
    assert OneBack(g.subs[q]);
    hide LengthCost, DistCost;
  }

  /** Just before the shortcut all bytes up to the one where it writes first are written. */
  lemma RunWritten(g: Graph, m: CostModel, cells: seq<Cell>, j: nat, q: nat)
    requires ValidGraph(g) && Sound(g, m, cells, j) && j < |g.long| && g.long[j] && q < j + MAX_MATCH
    requires Spread(g, cells, j - 1) && j >= 2 && Spread(g, cells, j - 2)
    ensures q < |cells| && Written(cells[q])
  {
    hide Reached;
    assert InRun(g, j);
    assert OneBack(g.subs[j - 1]) && OneBack(g.subs[j - 2]);
  }

  lemma InRunAt(g: Graph, j: nat)
    requires ValidGraph(g) && j < |g.long| && g.long[j]
    ensures 2 <= j && j + MAX_MATCH * 2 < g.Size()
    ensures |g.subs[j + MAX_MATCH - 1]| <= MAX_MATCH + 1
  {
    assert InRun(g, j);
    assert ValidMatch(g.subs[j + MAX_MATCH - 1], g.Size() - (j + MAX_MATCH - 1));
  }

  lemma JumpedCellSound(g: Graph, m: CostModel, cells: seq<Cell>, j: nat, t: nat)
    requires ValidGraph(g) && ValidModel(m) && BelowSentinel(g) && Sound(g, m, cells, j) && j < |g.long| && g.long[j]
    requires j >= 2 && Spread(g, cells, j - 1) && Spread(g, cells, j - 2) && t <= g.Size()
    ensures var r := Jumped(m, cells, j, MAX_MATCH);
            && |r| == |cells| && t < |r|
            && (Written(r[t]) ==> r[t].cost <= MAX_TOKEN_COST * t as real)
            && (t > 0 && Written(r[t]) ==> Reached(g, m, r, j + MAX_MATCH, t))
            && (t < j + MAX_MATCH * 2 ==> Written(r[t]))
  {
    JumpedIs(m, cells, j, t);
    SoundAt(g, m, cells, j, t);
    InRunAt(g, j);
    if j + MAX_MATCH <= t < j + MAX_MATCH * 2 {
      JumpedHit(g, m, cells, j, t);
    } else {
      JumpedKept(g, m, cells, j, t);
    }
  }

  lemma JumpedIs(m: CostModel, cells: seq<Cell>, j: nat, t: nat)
    requires t < |cells|
    ensures var r := Jumped(m, cells, j, MAX_MATCH);
            && |r| == |cells|
            && (j + MAX_MATCH <= t < j + MAX_MATCH * 2 ==>
                r[t] == Cell(cells[t - MAX_MATCH].cost + JumpCost(m), MAX_MATCH))
            && (t < j + MAX_MATCH || j + MAX_MATCH * 2 <= t ==> r[t] == cells[t])
  {
    hide JumpCost;
  }

  lemma JumpedHit(g: Graph, m: CostModel, cells: seq<Cell>, j: nat, t: nat)
    requires ValidGraph(g) && ValidModel(m) && BelowSentinel(g) && Sound(g, m, cells, j) && j < |g.long| && g.long[j]
    requires j >= 2 && Spread(g, cells, j - 1) && Spread(g, cells, j - 2)
    requires j + MAX_MATCH <= t < j + MAX_MATCH * 2 && t <= g.Size()
    ensures var r := Jumped(m, cells, j, MAX_MATCH);
            && |r| == |cells| && t < |r|
            && r[t].cost <= MAX_TOKEN_COST * t as real && Written(r[t]) && Reached(g, m, r, j + MAX_MATCH, t)
  {
    var q := t - MAX_MATCH;
    SoundAt(g, m, cells, j, t);
    RunWritten(g, m, cells, j, q);
    JumpedIs(m, cells, j, t);
    JumpedIs(m, cells, j, q);
    JumpAllowed(g, m, j, q);
    SoundAt(g, m, cells, j, q);
    StepCostBound(g, m, q, MAX_MATCH);
    hide Allowed, StepCost, ValidGraph, ValidModel, BelowSentinel, Sound, Spread, JumpCost, Jumped;
    BelowSentinelAt(g, cells[q].cost, JumpCost(m), q, t);
  }

  lemma JumpedKept(g: Graph, m: CostModel, cells: seq<Cell>, j: nat, t: nat)
    requires ValidGraph(g) && Sound(g, m, cells, j) && j < |g.long| && g.long[j]
    requires j >= 2 && Spread(g, cells, j - 1) && Spread(g, cells, j - 2)
    requires t < j + MAX_MATCH || j + MAX_MATCH * 2 <= t <= g.Size()
    ensures var r := Jumped(m, cells, j, MAX_MATCH);
            && |r| == |cells| && t < |r|
            && (Written(r[t]) ==> r[t].cost <= MAX_TOKEN_COST * t as real)
            && (t > 0 && Written(r[t]) ==> Reached(g, m, r, j + MAX_MATCH, t))
            && (t < j + MAX_MATCH ==> Written(r[t]))
  {
    hide *;
    InRunAt(g, j);
    RunSize(g, m, cells, j);
    if t < j + MAX_MATCH { RunWritten(g, m, cells, j, t); }
    SoundAt(g, m, cells, j, t);
    JumpedIs(m, cells, j, t);
    if t > 0 && Written(cells[t]) {
      JumpedIs(m, cells, j, t - cells[t].length);
      KeptReached(g, m, cells, Jumped(m, cells, j, MAX_MATCH), j, j + MAX_MATCH, t);
    }
  }

  lemma RunSize(g: Graph, m: CostModel, cells: seq<Cell>, j: nat)
    requires Sound(g, m, cells, j)
    ensures MAX_MATCH == 258 && |cells| == g.Size() + 1
  {
    hide Reached;
  }

  /** The shortcut keeps the table sound, although it tries no other steps. */
  lemma JumpedSound(g: Graph, m: CostModel, cells: seq<Cell>, j: nat)
    requires ValidGraph(g) && ValidModel(m) && BelowSentinel(g) && Sound(g, m, cells, j) && j < |g.long| && g.long[j]
    requires j >= 2 && Spread(g, cells, j - 1) && Spread(g, cells, j - 2)
    ensures var r := Jumped(m, cells, j, MAX_MATCH);
            j + MAX_MATCH < g.Size() && Sound(g, m, r, j + MAX_MATCH) && Spread(g, r, j + MAX_MATCH - 1)
  {
    var r := Jumped(m, cells, j, MAX_MATCH);
    InRunAt(g, j);
    hide Allowed, StepCost, ValidGraph, ValidModel, BelowSentinel, JumpCost, Reached;
    forall t | 0 <= t <= g.Size()
      ensures Written(r[t]) ==> r[t].cost <= MAX_TOKEN_COST * t as real
      ensures t > 0 && Written(r[t]) ==> Reached(g, m, r, j + MAX_MATCH, t)
      ensures t < j + MAX_MATCH * 2 ==> Written(r[t])
    {
      JumpedCellSound(g, m, cells, j, t);
    }
  }

  // ---- The whole run ----

  lemma FreshSound(g: Graph, m: CostModel)
    requires ValidGraph(g)
    ensures Sound(g, m, Fresh(g.Size()), 0)
  {
  }

  /** The bytes just before `j` have spread their lengths. */
  ghost predicate SpreadBefore(g: Graph, cells: seq<Cell>, j: nat) {
    (j >= 1 ==> Spread(g, cells, j - 1)) && (j >= 2 ==> Spread(g, cells, j - 2))
  }

  /** With the shortcut every cell ends up written, by an allowed step from an earlier byte, at
      exactly the cost of that step more. */
  lemma {:induction false} StatSound(g: Graph, m: CostModel, cells: seq<Cell>, j: nat)
    requires ValidGraph(g) && ValidModel(m) && BelowSentinel(g) && Sound(g, m, cells, j) && SpreadBefore(g, cells, j)
    ensures Sound(g, m, StatFrom(g, m, cells, j), g.Size())
    decreases g.Size() - j
  {
    hide *;
    StatStep(g, m, cells, j);
    if j == g.Size() {
    } else if g.long[j] {
      InRunAt(g, j);
      JumpedSound(g, m, cells, j);
      var cells' := Jumped(m, cells, j, MAX_MATCH);
      RelaxedSound(g, m, cells', j + MAX_MATCH);
      SpreadNext(g, Relaxed(g, m, cells', j + MAX_MATCH), j + MAX_MATCH);
      StatSound(g, m, Relaxed(g, m, cells', j + MAX_MATCH), j + MAX_MATCH + 1);
    } else {
      RelaxedSound(g, m, cells, j);
      SpreadNext(g, Relaxed(g, m, cells, j), j);
      StatSound(g, m, Relaxed(g, m, cells, j), j + 1);
    }
  }

  lemma SpreadNext(g: Graph, cells: seq<Cell>, j: nat)
    requires Spread(g, cells, j) && (j >= 1 ==> Spread(g, cells, j - 1))
    ensures SpreadBefore(g, cells, j + 1)
  {
    hide Spread;
  }

  lemma StatStep(g: Graph, m: CostModel, cells: seq<Cell>, j: nat)
    requires ValidGraph(g) && Sound(g, m, cells, j) && SpreadBefore(g, cells, j)
    ensures j <= g.Size() && |cells| == g.Size() + 1 && |g.long| == g.Size() && MAX_MATCH == 258
    ensures (j >= 1 ==> Spread(g, cells, j - 1)) && (j >= 2 ==> Spread(g, cells, j - 2))
    ensures if j == g.Size() then StatFrom(g, m, cells, j) == cells
            else if g.long[j] then
              j + MAX_MATCH < g.Size()
              && StatFrom(g, m, cells, j)
                 == StatFrom(g, m, Relaxed(g, m, Jumped(m, cells, j, MAX_MATCH), j + MAX_MATCH), j + MAX_MATCH + 1)
            else StatFrom(g, m, cells, j) == StatFrom(g, m, Relaxed(g, m, cells, j), j + 1)
  {
    SoundAt(g, m, cells, j, 0);
    hide Sound, Spread, Relaxed, Jumped;
  }

  lemma {:induction false} PlainSound(g: Graph, m: CostModel, cells: seq<Cell>, j: nat)
    requires ValidGraph(g) && ValidModel(m) && BelowSentinel(g) && Sound(g, m, cells, j)
    ensures Sound(g, m, PlainFrom(g, m, cells, j), g.Size())
    decreases g.Size() - j
  {
    SoundAt(g, m, cells, j, 0);
    hide Sound, ValidModel, BelowSentinel, Spread, Relaxed, ValidGraph;
    if j < g.Size() {
      RelaxedSound(g, m, cells, j);
      PlainSound(g, m, Relaxed(g, m, cells, j), j + 1);
    }
  }

  // ---- Tracing back ----

  /** Every byte's last step leads back to an earlier byte. */
  ghost predicate Steps(lengths: seq<nat>, n: nat) {
    n < |lengths| && forall t :: 0 < t <= n ==> 1 <= lengths[t] <= t
  }

  /** The steps that lead to byte `t`, first to last. */
  ghost function Trace(lengths: seq<nat>, t: nat): (path: seq<nat>)
    requires Steps(lengths, t)
    decreases t
  {
    if t == 0 then [] else Trace(lengths, t - lengths[t]) + [lengths[t]]
  }

  /** The lengths of the last steps, as the table has them. */
  ghost predicate LengthsOf(cells: seq<Cell>, lengths: seq<nat>) {
    |lengths| == |cells| && forall t :: 0 < t < |cells| && Written(cells[t]) ==> lengths[t] == cells[t].length
  }

  lemma SoundSteps(g: Graph, m: CostModel, cells: seq<Cell>, lengths: seq<nat>)
    requires Sound(g, m, cells, g.Size()) && LengthsOf(cells, lengths)
    ensures Steps(lengths, g.Size())
    ensures forall t :: 0 < t <= g.Size() ==> lengths[t] == cells[t].length && Reached(g, m, cells, g.Size(), t)
  {
    hide Allowed, StepCost;
  }

  /** The traced steps form a path that costs what the table says. */
  lemma {:induction false} TracedPath(g: Graph, m: CostModel, cells: seq<Cell>, lengths: seq<nat>, t: nat)
    requires Sound(g, m, cells, g.Size()) && LengthsOf(cells, lengths) && t <= g.Size()
    ensures Steps(lengths, t) && ValidPath(g, 0, Trace(lengths, t), t)
    ensures PathCost(g, m, 0, Trace(lengths, t), t) == cells[t].cost
    decreases t
  {
    hide *;
    SoundSteps(g, m, cells, lengths);
    SoundAt(g, m, cells, g.Size(), t);
    TraceStep(lengths, g.Size(), t);
    if t == 0 {
      StartIsFree(g, m, cells);
      NoSteps(g, m);
    } else {
      LastStep(g, m, cells, lengths, t);
      var k := lengths[t];
      TracedPath(g, m, cells, lengths, t - k);
      PathExtend(g, m, 0, Trace(lengths, t - k), t - k, k);
    }
  }

  lemma NoSteps(g: Graph, m: CostModel)
    ensures ValidPath(g, 0, [], 0) && PathCost(g, m, 0, [], 0) == 0.0
  {
  }

  lemma TraceStep(lengths: seq<nat>, n: nat, t: nat)
    requires Steps(lengths, n) && t <= n
    ensures t < |lengths| && Steps(lengths, t)
    ensures if t == 0 then Trace(lengths, t) == []
            else
              && 1 <= lengths[t] <= t && Steps(lengths, t - lengths[t])
              && Trace(lengths, t) == Trace(lengths, t - lengths[t]) + [lengths[t]]
  {
  }

  lemma LastStep(g: Graph, m: CostModel, cells: seq<Cell>, lengths: seq<nat>, t: nat)
    requires Sound(g, m, cells, g.Size()) && LengthsOf(cells, lengths) && 0 < t <= g.Size()
    ensures t < |cells| && t < |lengths|
    ensures var k := lengths[t];
            1 <= k <= t && Allowed(g, t - k, k) && cells[t].cost == cells[t - k].cost + StepCost(g, m, t - k, k)
  {
    SoundSteps(g, m, cells, lengths);
    assert Reached(g, m, cells, g.Size(), t);
    hide Sound, LengthsOf, Allowed, StepCost;
  }

  lemma StartIsFree(g: Graph, m: CostModel, cells: seq<Cell>)
    requires Sound(g, m, cells, g.Size())
    ensures cells[0].cost == 0.0
  {
    hide Reached;
  }

  // ---- Optimality without the shortcut ----

  ghost predicate EdgeSettled(g: Graph, m: CostModel, cells: seq<Cell>, q: nat, t: nat) {
    q < t < |cells| && Allowed(g, q, t - q) ==> cells[t].cost <= cells[q].cost + StepCost(g, m, q, t - q)
  }

  /** No step from a byte before `j` improves anything. */
  ghost predicate Settled(g: Graph, m: CostModel, cells: seq<Cell>, j: nat) {
    forall q, t :: 0 <= q < j && 0 <= t < |cells| ==> EdgeSettled(g, m, cells, q, t)
  }

  lemma RelaxedSettled(g: Graph, m: CostModel, cells: seq<Cell>, j: nat)
    requires ValidGraph(g) && |cells| == g.Size() + 1 && j < g.Size() && Settled(g, m, cells, j)
    ensures Settled(g, m, Relaxed(g, m, cells, j), j + 1)
  {
    var r := Relaxed(g, m, cells, j);
    forall q, t | 0 <= q < j + 1 && 0 <= t < |r| ensures EdgeSettled(g, m, r, q, t) {
      if q < t && Allowed(g, q, t - q) {
        assert q < j ==> EdgeSettled(g, m, cells, q, t);
        StepLimit(g, q, t - q);
        hide Relaxed, Allowed, StepCost, Settled, ValidGraph;
        RelaxedCellIs(g, m, cells, j, t);
        RelaxedCellIs(g, m, cells, j, q);
      }
    }
  }

  lemma StepLimit(g: Graph, q: nat, k: nat)
    requires ValidGraph(g) && Allowed(g, q, k)
    ensures k <= MAX_MATCH
  {
    assert ValidMatch(g.subs[q], g.Size() - q);
  }

  lemma {:induction false} PlainSettled(g: Graph, m: CostModel, cells: seq<Cell>, j: nat)
    requires ValidGraph(g) && |cells| == g.Size() + 1 && j <= g.Size() && Settled(g, m, cells, j)
    ensures Settled(g, m, PlainFrom(g, m, cells, j), g.Size())
    decreases g.Size() - j
  {
    hide Settled, Relaxed, ValidGraph;
    if j < g.Size() {
      RelaxedSettled(g, m, cells, j);
      PlainSettled(g, m, Relaxed(g, m, cells, j), j + 1);
    }
  }

  lemma {:induction false} NoPathIsCheaper(g: Graph, m: CostModel, cells: seq<Cell>, j: nat, path: seq<nat>, e: nat)
    requires ValidGraph(g) && |cells| == g.Size() + 1 && j <= g.Size() && Settled(g, m, cells, g.Size())
    requires ValidPath(g, j, path, e)
    ensures e <= g.Size() && cells[e].cost <= cells[j].cost + PathCost(g, m, j, path, e)
    decreases |path|
  {
    if |path| > 0 {
      StepIsValid(g, j, path[0]);
      assert EdgeSettled(g, m, cells, j, j + path[0]);
      hide Allowed, StepCost, ValidGraph, Settled;
      NoPathIsCheaper(g, m, cells, j + path[0], path[1..], e);
    }
  }

  /** Without the shortcut the table's last cost is the least cost of any parse whose steps are
      literals or lengths that the matches offer, and tracing back gives such a parse. */
  lemma PlainOptimal(g: Graph, m: CostModel, lengths: seq<nat>)
    requires ValidGraph(g) && ValidModel(m) && BelowSentinel(g)
    requires LengthsOf(PlainFrom(g, m, Fresh(g.Size()), 0), lengths)
    ensures var best := PlainFrom(g, m, Fresh(g.Size()), 0)[g.Size()].cost;
            && Steps(lengths, g.Size()) && ValidPath(g, 0, Trace(lengths, g.Size()), g.Size())
            && PathCost(g, m, 0, Trace(lengths, g.Size()), g.Size()) == best
            && (forall path :: ValidPath(g, 0, path, g.Size()) ==> best <= PathCost(g, m, 0, path, g.Size()))
  {
    var n := g.Size();
    var cells := PlainFrom(g, m, Fresh(n), 0);
    FreshSound(g, m);
    NothingSettled(g, m);
    hide *;
    SizeIs(g, m);
    PlainSound(g, m, Fresh(n), 0);
    PlainSettled(g, m, Fresh(n), 0);
    TracedPath(g, m, cells, lengths, n);
    StartIsFree(g, m, cells);
    forall path | ValidPath(g, 0, path, n) ensures cells[n].cost <= PathCost(g, m, 0, path, n) {
      NoPathIsCheaper(g, m, cells, 0, path, n);
    }
  }

  lemma SizeIs(g: Graph, m: CostModel)
    ensures |PlainFrom(g, m, Fresh(g.Size()), 0)| == g.Size() + 1
  {
  }

  lemma NothingSettled(g: Graph, m: CostModel)
    ensures Settled(g, m, Fresh(g.Size()), 0)
  {
  }
}
