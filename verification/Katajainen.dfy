/** Boundary package-merge (Katajainen, Moffat and Turpin): package-merge with only two lookahead
    chains per level, over a pool of chain nodes that is updated in place. */
module Katajainen {
  import opened Prelude
  import opened LeafOrder
  import opened PackageMerge
  import opened HuffmanLengths

  /** The node pool. The ghost fields record, level by level, the nodes of the items created so
      far (level 0 is the deepest), and for each node the level and number of its item. */
  class NodePool {
    const nodes: array<Node>
    var next: nat
    ghost var chains: seq<seq<nat>>
    ghost var owner: seq<(nat, nat)>

    constructor (nodes: array<Node>)
      ensures this.nodes == nodes && next == 0 && chains == [] && owner == []
    {
      this.nodes := nodes;
      next := 0;
      chains := [];
      owner := [];
    }

    method NewNode() returns (n: nat)
      modifies this`next
      ensures n == old(next) && next == old(next) + 1
    {
      n := next;
      next := next + 1;
    }
  }

  // ---- What the pool represents ----

  /** The item of the level below at which a chain with p packages continues. Level 0 ends with
      the last leaf. */
  ghost function TailIndex(w: seq<nat>, i: nat, p: nat): nat
    requires Weights(w) && p > 0
  {
    if i == 1 then Min(2 * p - 1, |w| - 1) else 2 * p - 1
  }

  ghost function TailOf(chains: seq<seq<nat>>, w: seq<nat>, i: nat, p: nat): int
    requires Weights(w) && i < |chains|
  {
    if i == 0 || p == 0 then NO_NODE
    else if TailIndex(w, i, p) < |chains[i - 1]| then chains[i - 1][TailIndex(w, i, p)]
    else -2
  }

  /** Node number j of level i holds item j of the ideal level. */
  ghost predicate ItemOk(nodes: seq<Node>, next: nat, chains: seq<seq<nat>>, w: seq<nat>, i: nat, j: nat)
    requires Weights(w) && i < |chains| && j < |chains[i]|
  {
    var x := chains[i][j];
    && x < next <= |nodes|
    && nodes[x] == Node(Weight(w, i, j), Leaves(w, i, j + 1), TailOf(chains, w, i, Packages(w, i, j + 1)))
    && nodes[x].tail >= NO_NODE
  }

  ghost predicate ItemsOk(nodes: seq<Node>, next: nat, chains: seq<seq<nat>>, w: seq<nat>)
    requires Weights(w)
  {
    forall i, j :: 0 <= i < |chains| && 0 <= j < |chains[i]| ==> ItemOk(nodes, next, chains, w, i, j)
  }

  /** The number of items below a level that has p packages, lookahead included. */
  ghost function ItemsBelow(w: seq<nat>, i: nat, p: nat): nat {
    if i == 1 then Min(2 * p + 2, |w|) else 2 * p + 2
  }

  ghost predicate Linked(chains: seq<seq<nat>>, w: seq<nat>, top: nat)
    requires Weights(w)
  {
    forall i :: 0 < i <= top < |chains| ==> |chains[i - 1]| == ItemsBelow(w, i, Packages(w, i, |chains[i]|))
  }

  ghost predicate ListsOk(lists: seq<(nat, nat)>, chains: seq<seq<nat>>) {
    && |lists| == |chains|
    && forall i :: 0 <= i < |chains| ==>
         |chains[i]| >= 2 && lists[i] == (chains[i][|chains[i]| - 2], chains[i][|chains[i]| - 1])
  }

  ghost function Extra(chains: seq<seq<nat>>): int {
    if |chains| == 0 then 0 else Extra(chains[..|chains| - 1]) + |chains[|chains| - 1]| - 2
  }

  /** No level outgrows 2n - 2 items, and every node belongs to one level or is one of the two
      that all levels start with. */
  ghost predicate Bounded(next: nat, chains: seq<seq<nat>>, w: seq<nat>) {
    && next == 2 + Extra(chains)
    && |chains| > 0 && |chains[0]| <= |w|
    && forall i :: 0 <= i < |chains| ==> |chains[i]| <= 2 * |w| - 2
  }

  /** No node serves two items, but for the two first leaves that all levels share. */
  ghost predicate Owned(next: nat, chains: seq<seq<nat>>, owner: seq<(nat, nat)>) {
    && |owner| == next
    && forall i, j :: 0 <= i < |chains| && 0 <= j < |chains[i]| ==>
         chains[i][j] < next && owner[chains[i][j]] == (if j < 2 then 0 else i, j)
  }

  ghost predicate Represents(pool: NodePool, lists: array<(nat, nat)>, w: seq<nat>)
    reads pool, pool.nodes, lists
  {
    && Weights(w)
    && ItemsOk(pool.nodes[..], pool.next, pool.chains, w)
    && ListsOk(lists[..], pool.chains)
    && Bounded(pool.next, pool.chains, w)
    && Owned(pool.next, pool.chains, pool.owner)
    && pool.nodes.Length >= 2 * |w| * |pool.chains|
  }

  // ---- The pool never runs out ----

  lemma {:induction false} ExtraBound(chains: seq<seq<nat>>, b: nat)
    requires b >= 2 && forall i :: 0 <= i < |chains| ==> |chains[i]| <= b
    ensures Extra(chains) <= |chains| * (b - 2)
  {
    if |chains| > 0 {
      ExtraBound(chains[..|chains| - 1], b);
      OneMore(|chains| - 1, b - 2);
    }
  }

  lemma {:induction false} ExtraAppend(chains: seq<seq<nat>>, i: nat, x: nat)
    requires i < |chains|
    ensures Extra(chains[i := chains[i] + [x]]) == Extra(chains) + 1
  {
    var n := |chains| - 1;
    var chains' := chains[i := chains[i] + [x]];
    if i < n {
      ExtraAppend(chains[..n], i, x);
      assert chains'[..n] == chains[..n][i := chains[i] + [x]];
    } else {
      assert chains'[..n] == chains[..n];
    }
  }

  /** While a level may still grow there is a free node. */
  lemma RoomForOne(next: nat, chains: seq<seq<nat>>, w: seq<nat>, i: nat, length: nat)
    requires Weights(w) && Bounded(next, chains, w) && i < |chains| && |chains[i]| < 2 * |w| - 2
    requires length >= 2 * |w| * |chains|
    ensures next < length
  {
    var b := 2 * |w| - 2;
    ExtraAppend(chains, i, 0);
    ExtraBound(chains[i := chains[i] + [0]], b);
    assert |chains| * (b - 2) == 2 * |w| * |chains| - 4 * |chains|;
  }

  // ---- One more item ----

  /** Adding item j of level i leaves every other item as it was. */
  lemma AppendItem(nodes: seq<Node>, next: nat, chains: seq<seq<nat>>, w: seq<nat>, i: nat, node: Node)
    requires Weights(w) && ItemsOk(nodes, next, chains, w) && i < |chains| && next < |nodes|
    requires var j := |chains[i]|;
             node == Node(Weight(w, i, j), Leaves(w, i, j + 1), TailOf(chains, w, i, Packages(w, i, j + 1)))
    requires node.tail >= NO_NODE
    ensures ItemsOk(nodes[next := node], next + 1, chains[i := chains[i] + [next]], w)
  {
    hide Leaves, Weight;
    var nodes', next', chains' := nodes[next := node], next + 1, chains[i := chains[i] + [next]];
    forall k, j | 0 <= k < |chains'| && 0 <= j < |chains'[k]|
      ensures ItemOk(nodes', next', chains', w, k, j)
    {
      if k != i || j < |chains[i]| { assert ItemOk(nodes, next, chains, w, k, j); }
    }
  }

  lemma AppendBounded(next: nat, chains: seq<seq<nat>>, w: seq<nat>, i: nat)
    requires Bounded(next, chains, w) && i < |chains| && |chains[i]| < 2 * |w| - 2
    requires i == 0 ==> |chains[0]| < |w|
    ensures Bounded(next + 1, chains[i := chains[i] + [next]], w)
  {
    ExtraAppend(chains, i, next);
  }

  lemma AppendOwned(next: nat, chains: seq<seq<nat>>, owner: seq<(nat, nat)>, i: nat)
    requires Owned(next, chains, owner) && i < |chains| && |chains[i]| >= 2
    ensures Owned(next + 1, chains[i := chains[i] + [next]], owner + [(i, |chains[i]|)])
  {
  }

  lemma ItemWeight(nodes: seq<Node>, next: nat, chains: seq<seq<nat>>, w: seq<nat>, i: nat, j: nat)
    requires Weights(w) && ItemsOk(nodes, next, chains, w) && i < |chains| && j < |chains[i]|
    ensures chains[i][j] < |nodes| && nodes[chains[i][j]].weight == Weight(w, i, j)
  {
    assert ItemOk(nodes, next, chains, w, i, j);
  }

  /** The pair that a level's two lookahead chains end with is the next package above. */
  lemma LookaheadPair(nodes: seq<Node>, next: nat, chains: seq<seq<nat>>, w: seq<nat>, i: nat)
    requires Weights(w) && ItemsOk(nodes, next, chains, w) && 0 < i < |chains| && |chains[i - 1]| >= 2
    requires |chains[i - 1]| == ItemsBelow(w, i, Packages(w, i, |chains[i]|))
    ensures var below := chains[i - 1];
            && below[|below| - 2] < |nodes| && below[|below| - 1] < |nodes|
            && nodes[below[|below| - 2]].weight + nodes[below[|below| - 1]].weight
               == Pair(w, i - 1, Packages(w, i, |chains[i]|))
            && TailIndex(w, i, Packages(w, i, |chains[i]|) + 1) == |below| - 1
  {
    var below := chains[i - 1];
    ItemWeight(nodes, next, chains, w, i - 1, |below| - 2);
    ItemWeight(nodes, next, chains, w, i - 1, |below| - 1);
    hide Leaves, Packages, ItemsOk, ItemOk, TailOf;
    var p := Packages(w, i, |chains[i]|);
    if i == 1 {
      assert Pair(w, 0, p) == BottomWeight(w, 2 * p) + BottomWeight(w, 2 * p + 1);
    }
  }

  /** Item j of level i, as a node. */
  ghost function IdealNode(chains: seq<seq<nat>>, w: seq<nat>, i: nat, j: nat): Node
    requires Weights(w) && i < |chains|
  {
    Node(Weight(w, i, j), Leaves(w, i, j + 1), TailOf(chains, w, i, Packages(w, i, j + 1)))
  }

  /** Store the next item of a level in a new node and make it the level's last chain. */
  method AddItem(lists: array<(nat, nat)>, ghost w: seq<nat>, pool: NodePool, index: nat, node: Node)
    requires Represents(pool, lists, w) && index < |pool.chains|
    requires |pool.chains[index]| < 2 * |w| - 2 && (index == 0 ==> |pool.chains[0]| < |w|)
    requires node == IdealNode(pool.chains, w, index, |pool.chains[index]|) && node.tail >= NO_NODE
    modifies pool, pool.nodes, lists
    ensures Represents(pool, lists, w)
    ensures pool.chains == old(pool.chains)[index := old(pool.chains)[index] + [old(pool.next)]]
  {
    ghost var owner0 := pool.owner;
    ghost var nodes0, lists0, next0, chains0 := pool.nodes[..], lists[..], pool.next, pool.chains;
    RoomForOne(next0, chains0, w, index, pool.nodes.Length);
    AppendItem(nodes0, next0, chains0, w, index, node);
    AppendBounded(next0, chains0, w, index);
    AppendOwned(next0, chains0, owner0, index);
    hide Leaves, Weight, ItemsOk, Bounded, Owned;
    var newChain := pool.NewNode();
    lists[index] := (lists[index].1, newChain);
    pool.nodes[newChain] := node;
    pool.chains := chains0[index := chains0[index] + [newChain]];
    pool.owner := owner0 + [(index, |chains0[index]|)];
    assert pool.nodes[..] == nodes0[next0 := node];
    assert lists[..] == lists0[index := (lists0[index].1, next0)];
  }

  /** A level's last chain knows the level's leaf count, and the next leaf is its successor. */
  lemma LastChain(nodes: seq<Node>, next: nat, chains: seq<seq<nat>>, w: seq<nat>, i: nat)
    requires Weights(w) && ItemsOk(nodes, next, chains, w) && i < |chains| && |chains[i]| >= 2
    ensures var j, last := |chains[i]|, chains[i][|chains[i]| - 1];
            && last < |nodes|
            && nodes[last].count == Leaves(w, i, j)
            && (TakesLeaf(w, i, j) ==>
                  IdealNode(chains, w, i, j) == Node(w[nodes[last].count], nodes[last].count + 1, nodes[last].tail)
                  && nodes[last].tail >= NO_NODE)
  {
    var j := |chains[i]|;
    assert ItemOk(nodes, next, chains, w, i, j - 1);
    LeafStep(w, i, j);
  }

  /** The choice that the algorithm makes is the one that the ideal level makes. */
  lemma NextItem(nodes: seq<Node>, next: nat, chains: seq<seq<nat>>, w: seq<nat>, i: nat, last: nat, sum: nat)
    requires Weights(w) && ItemsOk(nodes, next, chains, w) && 0 < i < |chains|
    requires |chains[i]| >= 2 && |chains[i - 1]| >= 2
    requires |chains[i - 1]| == ItemsBelow(w, i, Packages(w, i, |chains[i]|))
    requires last == chains[i][|chains[i]| - 1]
    requires var below := chains[i - 1];
             && below[|below| - 2] < |nodes| && below[|below| - 1] < |nodes|
             && sum == nodes[below[|below| - 2]].weight + nodes[below[|below| - 1]].weight
    ensures last < |nodes| && nodes[last].count <= |w|
    ensures var j, c := |chains[i]|, nodes[last].count;
            var leaf := c < |w| && sum > w[c];
            && IdealNode(chains, w, i, j)
                 == (if leaf then Node(w[c], c + 1, nodes[last].tail)
                     else Node(sum, c, chains[i - 1][|chains[i - 1]| - 1]))
            && nodes[last].tail >= NO_NODE
            && Packages(w, i, j + 1) == Packages(w, i, j) + (if leaf then 0 else 1)
  {
    var j := |chains[i]|;
    LookaheadPair(nodes, next, chains, w, i);
    LastChain(nodes, next, chains, w, i);
    LeafStep(w, i, j);
    assert ItemOk(nodes, next, chains, w, i, j - 1);
    assert TakesLeaf(w, i, j) == (Leaves(w, i, j) < |w| && sum > w[Leaves(w, i, j)]);
  }

  /** The bottom level takes one leaf after another. */
  lemma BottomItem(nodes: seq<Node>, next: nat, chains: seq<seq<nat>>, w: seq<nat>)
    requires Weights(w) && ItemsOk(nodes, next, chains, w) && |chains| > 0 && 2 <= |chains[0]| <= |w|
    ensures var j, last := |chains[0]|, chains[0][|chains[0]| - 1];
            && last < |nodes| && nodes[last].count == j
            && (j < |w| ==> IdealNode(chains, w, 0, j) == Node(w[j], j + 1, NO_NODE))
  {
    assert ItemOk(nodes, next, chains, w, 0, |chains[0]| - 1);
  }

  /** Linked does not depend on anything above its top. */
  lemma LinkedLocal(chains: seq<seq<nat>>, chains': seq<seq<nat>>, w: seq<nat>, top: nat)
    requires Weights(w) && Linked(chains, w, top) && |chains| == |chains'|
    requires forall i :: 0 <= i <= top && i < |chains| ==> |chains[i]| == |chains'[i]|
    ensures Linked(chains', w, top)
  {
  }

  /** Advancing the level below by two restores the link to it. */
  lemma LinkRestored(chains: seq<seq<nat>>, chains': seq<seq<nat>>, w: seq<nat>, i: nat, p: nat)
    requires Weights(w) && 0 < i < |chains| == |chains'| && Linked(chains', w, i - 1)
    requires |chains[i - 1]| == ItemsBelow(w, i, p)
    requires Packages(w, i, |chains'[i]|) == p + 1
    requires |chains'[i - 1]| == (if i == 1 then Min(Min(|chains[0]| + 1, |w|) + 1, |w|) else |chains[i - 1]| + 2)
    ensures Linked(chains', w, i)
  {
  }

  /** What a level's lists say: its leaf count, and, above the bottom, the pair to be packaged next. */
  ghost predicate ListsTell(pool: NodePool, lists: array<(nat, nat)>, w: seq<nat>, index: nat)
    reads pool, pool.nodes, lists
  {
    && index < lists.Length && lists[index].1 < pool.nodes.Length && pool.nodes[lists[index].1].count <= |w|
    && (index > 0 ==> lists[index - 1].0 < pool.nodes.Length && lists[index - 1].1 < pool.nodes.Length)
  }

  lemma BottomTells(pool: NodePool, lists: array<(nat, nat)>, w: seq<nat>)
    requires Represents(pool, lists, w) && |pool.chains| > 0
    ensures Weights(w) && ListsTell(pool, lists, w, 0) && pool.nodes[lists[0].1].count == |pool.chains[0]| <= |w|
    ensures var c := |pool.chains[0]|; c < |w| ==> IdealNode(pool.chains, w, 0, c) == Node(w[c], c + 1, NO_NODE)
  {
    hide Leaves, Packages, Weight, ItemsOk, IdealNode;
    var below := pool.chains[0];
    assert lists[..][0] == (below[|below| - 2], below[|below| - 1]);
    BottomItem(pool.nodes[..], pool.next, pool.chains, w);
  }

  lemma LevelTells(pool: NodePool, lists: array<(nat, nat)>, w: seq<nat>, index: nat)
    requires Represents(pool, lists, w) && 0 < index < |pool.chains| && Linked(pool.chains, w, index)
    ensures Weights(w) && ListsTell(pool, lists, w, index) && pool.nodes[lists[index].1].tail >= NO_NODE
    ensures var j, last, pair := |pool.chains[index]|, pool.nodes[lists[index].1], lists[index - 1];
            var c, sum := last.count, pool.nodes[pair.0].weight + pool.nodes[pair.1].weight;
            var leaf := c < |w| && sum > w[c];
            && IdealNode(pool.chains, w, index, j)
               == (if leaf then Node(w[c], c + 1, last.tail) else Node(sum, c, pair.1))
            && Packages(w, index, j + 1) == Packages(w, index, j) + (if leaf then 0 else 1)
    ensures |pool.chains[index - 1]| == ItemsBelow(w, index, Packages(w, index, |pool.chains[index]|))
    ensures Linked(pool.chains, w, index - 1)
  {
    hide Leaves, Packages, Weight, TakesLeaf, ItemsOk, IdealNode, Linked, Bounded, Owned;
    ghost var nodes, chains := pool.nodes[..], pool.chains;
    assert lists[..][index].1 == chains[index][|chains[index]| - 1];
    assert lists[..][index - 1]
      == (chains[index - 1][|chains[index - 1]| - 2], chains[index - 1][|chains[index - 1]| - 1]);
    LinkAt(chains, w, index);
    LookaheadPair(nodes, pool.next, chains, w, index);
    NextItem(nodes, pool.next, chains, w, index, lists[index].1,
             pool.nodes[lists[index - 1].0].weight + pool.nodes[lists[index - 1].1].weight);
  }

  lemma WeightsAre(leaves: seq<Node>)
    ensures |WeightsOf(leaves)| == |leaves|
    ensures forall k :: 0 <= k < |leaves| ==> WeightsOf(leaves)[k] == leaves[k].weight
  {
  }

  lemma TellIs(pool: NodePool, lists: array<(nat, nat)>, w: seq<nat>, index: nat)
    requires ListsTell(pool, lists, w, index)
    ensures index < lists.Length && lists[index].1 < pool.nodes.Length && pool.nodes[lists[index].1].count <= |w|
    ensures index > 0 ==> lists[index - 1].0 < pool.nodes.Length && lists[index - 1].1 < pool.nodes.Length
    ensures NO_NODE < 0
  {
  }

  /** Make the next item of a level: the next leaf, or a package of the two lookahead chains of the
      level below, which then advance by two. */
  method BoundaryPM(lists: array<(nat, nat)>, leaves: seq<Node>, numSymbols: nat, pool: NodePool, index: nat)
    requires numSymbols == |leaves|
    requires Represents(pool, lists, WeightsOf(leaves))
    requires index < |pool.chains| && Linked(pool.chains, WeightsOf(leaves), index)
    requires |pool.chains[index]| < 2 * |leaves| - 2
    modifies pool, pool.nodes, lists
    ensures Represents(pool, lists, WeightsOf(leaves))
    ensures |pool.chains| == |old(pool.chains)| && Linked(pool.chains, WeightsOf(leaves), index)
    ensures |pool.chains[index]|
            == (if index == 0 then Min(|old(pool.chains)[0]| + 1, |leaves|) else |old(pool.chains)[index]| + 1)
    ensures forall i :: index < i < |pool.chains| ==> pool.chains[i] == old(pool.chains)[i]
    decreases index, 1
  {
    hide *;
    WeightsAre(leaves);
    ghost var w, chains0 := WeightsOf(leaves), pool.chains;
    if index == 0 { BottomTells(pool, lists, w); } else { LevelTells(pool, lists, w, index); }
    TellIs(pool, lists, w, index);
    var lastCount := pool.nodes[lists[index].1].count;
    if index == 0 {
      if lastCount < numSymbols {
        AddItem(lists, w, pool, index, Node(leaves[lastCount].weight, lastCount + 1, NO_NODE));
      }
      LinkedBottom(pool.chains, w);
      return;
    }
    var oldChain := lists[index].1;
    var sum := pool.nodes[lists[index - 1].0].weight + pool.nodes[lists[index - 1].1].weight;
    if lastCount < numSymbols && sum > leaves[lastCount].weight {
      AddItem(lists, w, pool, index, Node(leaves[lastCount].weight, lastCount + 1, pool.nodes[oldChain].tail));
      LinkedLocal(chains0, pool.chains, w, index - 1);
      LinkKept(chains0, pool.chains, w, index);
    } else {
      AddItem(lists, w, pool, index, Node(sum, lastCount, lists[index - 1].1));
      LinkedLocal(chains0, pool.chains, w, index - 1);
      AdvanceLookahead(lists, leaves, numSymbols, pool, index, Packages(w, index, |chains0[index]|));
    }
  }

  /** After package p of level `index` has been made: move the level below two items on. */
  method AdvanceLookahead(lists: array<(nat, nat)>, leaves: seq<Node>, numSymbols: nat, pool: NodePool, index: nat,
                          ghost p: nat)
    requires numSymbols == |leaves| && Represents(pool, lists, WeightsOf(leaves))
    requires 0 < index < |pool.chains| && Linked(pool.chains, WeightsOf(leaves), index - 1)
    requires |pool.chains[index - 1]| == ItemsBelow(WeightsOf(leaves), index, p)
    requires Packages(WeightsOf(leaves), index, |pool.chains[index]|) == p + 1
    modifies pool, pool.nodes, lists
    ensures Represents(pool, lists, WeightsOf(leaves))
    ensures |pool.chains| == |old(pool.chains)| && Linked(pool.chains, WeightsOf(leaves), index)
    ensures forall i :: index <= i < |pool.chains| ==> pool.chains[i] == old(pool.chains)[i]
    decreases index, 0
  {
    hide Leaves, Packages, Weight, TakesLeaf, ItemsOk, IdealNode, Linked;
    ghost var w, chains0 := WeightsOf(leaves), pool.chains;
    LookaheadFits(w, index, |chains0[index]|);
    BoundaryPM(lists, leaves, numSymbols, pool, index - 1);
    BoundaryPM(lists, leaves, numSymbols, pool, index - 1);
    LinkRestored(chains0, pool.chains, w, index, p);
  }

  lemma LinkedBottom(chains: seq<seq<nat>>, w: seq<nat>)
    requires Weights(w)
    ensures Linked(chains, w, 0)
  {
  }

  lemma LinkAt(chains: seq<seq<nat>>, w: seq<nat>, i: nat)
    requires Weights(w) && 0 < i < |chains| && Linked(chains, w, i)
    ensures |chains[i - 1]| == ItemsBelow(w, i, Packages(w, i, |chains[i]|))
    ensures Linked(chains, w, i - 1)
  {
  }

  lemma LinkKept(chains: seq<seq<nat>>, chains': seq<seq<nat>>, w: seq<nat>, i: nat)
    requires Weights(w) && 0 < i < |chains| == |chains'| && Linked(chains, w, i) && Linked(chains', w, i - 1)
    requires chains'[i - 1] == chains[i - 1]
    requires Packages(w, i, |chains'[i]|) == Packages(w, i, |chains[i]|)
    ensures Linked(chains', w, i)
  {
  }

  // ---- The whole construction ----

  /** The two lightest leaves start every level. */
  method InitLists(pool: NodePool, leaves: seq<Node>, maxBits: nat, lists: array<(nat, nat)>)
    requires Weights(WeightsOf(leaves)) && maxBits > 0 && lists.Length == maxBits
    requires pool.next == 0 && pool.chains == [] && pool.owner == []
    requires pool.nodes.Length >= 2 * |leaves| * maxBits
    modifies pool, pool.nodes, lists
    ensures Represents(pool, lists, WeightsOf(leaves))
    ensures |pool.chains| == maxBits && Linked(pool.chains, WeightsOf(leaves), maxBits - 1)
    ensures forall i :: 0 <= i < maxBits ==> |pool.chains[i]| == 2
  {
    ghost var w := WeightsOf(leaves);
    hide ItemsOk, Linked, Weights, Extra;
    AtLeastTwo(leaves);
    TwoFit(|leaves|, maxBits, pool.nodes.Length);
    var node0 := pool.NewNode();
    var node1 := pool.NewNode();
    pool.nodes[node0] := Node(leaves[0].weight, 1, NO_NODE);
    pool.nodes[node1] := Node(leaves[1].weight, 2, NO_NODE);
    for i := 0 to maxBits
      invariant forall k :: 0 <= k < i ==> lists[k] == (node0, node1)
      modifies lists
    {
      lists[i] := (node0, node1);
    }
    pool.chains := seq(maxBits, i => [node0, node1]);
    pool.owner := [(0, 0), (0, 1)];
    InitialItems(pool.nodes[..], pool.chains, w);
    InitialBounds(pool.chains, w);
  }

  lemma AtLeastTwo(leaves: seq<Node>)
    requires Weights(WeightsOf(leaves))
    ensures |leaves| == |WeightsOf(leaves)| >= 2
    ensures leaves[0].weight == WeightsOf(leaves)[0] && leaves[1].weight == WeightsOf(leaves)[1]
  {
  }

  lemma TwoFit(n: nat, maxBits: nat, length: nat)
    requires n >= 2 && maxBits > 0 && length >= 2 * n * maxBits
    ensures length >= 2
  {
    var x := maxBits - 1;
    assert 2 * n * (x + 1) == 2 * n * x + 2 * n;
  }

  lemma InitialItems(nodes: seq<Node>, chains: seq<seq<nat>>, w: seq<nat>)
    requires Weights(w) && |nodes| >= 2
    requires nodes[0] == Node(w[0], 1, NO_NODE) && nodes[1] == Node(w[1], 2, NO_NODE)
    requires forall i :: 0 <= i < |chains| ==> chains[i] == [0, 1]
    ensures ItemsOk(nodes, 2, chains, w)
    ensures |chains| > 0 ==> Linked(chains, w, |chains| - 1)
  {
    forall i, j | 0 <= i < |chains| && 0 <= j < |chains[i]|
      ensures ItemOk(nodes, 2, chains, w, i, j)
    {
      FirstTwo(w, i);
    }
    forall i | 0 < i < |chains| ensures Packages(w, i, |chains[i]|) == 0 { FirstTwo(w, i); }
  }

  lemma {:induction false} InitialBounds(chains: seq<seq<nat>>, w: seq<nat>)
    requires forall i :: 0 <= i < |chains| ==> |chains[i]| == 2
    ensures Extra(chains) == 0
  {
    if |chains| > 0 { InitialBounds(chains[..|chains| - 1], w); }
  }

  /** Node x holds the solution from depth k on: its leaf count, and a tail that continues. */
  ghost predicate IsChain(nodes: seq<Node>, x: int, w: seq<nat>, L: nat, k: nat)
    requires Weights(w) && k <= L
    decreases L - k
  {
    if Used(w, L, k) == 0 || k == L then x == NO_NODE
    else 0 <= x < |nodes| && nodes[x].count == ChainLeaves(w, L, k) && IsChain(nodes, nodes[x].tail, w, L, k + 1)
  }

  /** Below the top, the item number Used(k) - 1 at depth k holds the solution from there on, and
      no update of another node changes that. */
  lemma {:induction false} ChainBelow(nodes: seq<Node>, nodes': seq<Node>, next: nat, chains: seq<seq<nat>>,
                                      w: seq<nat>, L: nat, k: nat)
    requires Weights(w) && 0 < L == |chains| && |w| <= Pow2(L) && 0 < k < L
    requires ItemsOk(nodes, next, chains, w) && |nodes| == |nodes'|
    requires forall i, j :: 0 <= i < L - 1 && 0 <= j < |chains[i]| && chains[i][j] < |nodes| ==>
             nodes[chains[i][j]] == nodes'[chains[i][j]]
    requires 0 < Used(w, L, k) <= |chains[L - 1 - k]|
    ensures IsChain(nodes', chains[L - 1 - k][Used(w, L, k) - 1], w, L, k)
    decreases L - k
  {
    var i, j := L - 1 - k, Used(w, L, k) - 1;
    assert ItemOk(nodes, next, chains, w, i, j);
    var p := Packages(w, i, j + 1);
    if i == 0 {
      NoStaleItems(w, L);
    } else {
      assert Used(w, L, k + 1) == 2 * p;
      if p > 0 {
        NoStaleItems(w, L);
        assert TailIndex(w, i, p) == 2 * p - 1;
        ChainBelow(nodes, nodes', next, chains, w, L, k + 1);
      }
    }
  }

  /** The last item of the top level, made of the chain that the pool holds below it. */
  lemma FinalChain(nodes: seq<Node>, nodes': seq<Node>, next: nat, chains: seq<seq<nat>>, w: seq<nat>, L: nat, x: nat)
    requires Weights(w) && 1 < L == |chains| && |w| <= Pow2(L)
    requires ItemsOk(nodes, next, chains, w) && |nodes| == |nodes'|
    requires forall i, j :: 0 <= i < L - 1 && 0 <= j < |chains[i]| && chains[i][j] < |nodes| ==>
             nodes[chains[i][j]] == nodes'[chains[i][j]]
    requires x < |nodes'| && nodes'[x].count == ChainLeaves(w, L, 0)
    requires Used(w, L, 1) <= |chains[L - 2]|
    requires nodes'[x].tail == (if Used(w, L, 1) == 0 then NO_NODE else chains[L - 2][Used(w, L, 1) - 1])
    ensures IsChain(nodes', x, w, L, 0)
  {
    if Used(w, L, 1) > 0 { ChainBelow(nodes, nodes', next, chains, w, L, 1); }
  }

  /** What the pool offers the final item: the tail it has, or the tail it gets if it becomes a package. */
  lemma FinalTail(nodes: seq<Node>, next: nat, chains: seq<seq<nat>>, w: seq<nat>, L: nat, last: nat, sum: nat)
    requires Weights(w) && 1 < L == |chains| && |w| <= Pow2(L)
    requires ItemsOk(nodes, next, chains, w) && Linked(chains, w, L - 1)
    requires |chains[L - 1]| == 2 * |w| - 3 && 2 <= |chains[L - 1]| && |chains[L - 2]| >= 2
    requires last == chains[L - 1][|chains[L - 1]| - 1]
    requires var below := chains[L - 2];
             && below[|below| - 2] < |nodes| && below[|below| - 1] < |nodes|
             && sum == nodes[below[|below| - 2]].weight + nodes[below[|below| - 1]].weight
    ensures last < |nodes| && nodes[last].count <= |w|
    ensures var leaf := nodes[last].count < |w| && sum > w[nodes[last].count];
            && ChainLeaves(w, L, 0) == nodes[last].count + (if leaf then 1 else 0)
            && Used(w, L, 1) <= |chains[L - 2]|
            && (if leaf then nodes[last].tail
                == (if Used(w, L, 1) == 0 then NO_NODE else chains[L - 2][Used(w, L, 1) - 1])
                else Used(w, L, 1) == |chains[L - 2]|)
  {
    hide *;
    var i, j := L - 1, |chains[L - 1]|;
    LinkAt(chains, w, i);
    NextItem(nodes, next, chains, w, i, last, sum);
    LastChain(nodes, next, chains, w, i);
    LeafCount(w, i, j);
    UsedAtTop(w, L);
    TailTells(nodes, next, chains, w, i);
    TailIs(chains, w, i, Packages(w, i, j));
    if L == 2 { NoStaleItems(w, L); }
    BelowIs(w, i, Packages(w, i, j));
  }

  lemma TailTells(nodes: seq<Node>, next: nat, chains: seq<seq<nat>>, w: seq<nat>, i: nat)
    requires Weights(w) && ItemsOk(nodes, next, chains, w) && i < |chains| && |chains[i]| > 0
    ensures var j, last := |chains[i]|, chains[i][|chains[i]| - 1];
            && last < |nodes| && nodes[last].count == Leaves(w, i, j)
            && nodes[last].tail == TailOf(chains, w, i, Packages(w, i, j)) >= NO_NODE
  {
    hide Leaves, Packages, Weight, TailOf;
    assert ItemOk(nodes, next, chains, w, i, |chains[i]| - 1);
  }

  lemma TailIs(chains: seq<seq<nat>>, w: seq<nat>, i: nat, p: nat)
    requires Weights(w) && 0 < i < |chains| && TailOf(chains, w, i, p) >= NO_NODE
    ensures p == 0 ==> TailOf(chains, w, i, p) == NO_NODE
    ensures p > 0 && (i == 1 ==> 2 * p <= |w|) ==>
              2 * p <= |chains[i - 1]| && TailOf(chains, w, i, p) == chains[i - 1][2 * p - 1]
  {
  }

  lemma LeafCount(w: seq<nat>, i: nat, j: nat)
    requires Weights(w)
    ensures Leaves(w, i, j + 1) + Packages(w, i, j + 1) == j + 1 && Leaves(w, i, j) + Packages(w, i, j) == j
  {
  }

  lemma UsedAtTop(w: seq<nat>, L: nat)
    requires Weights(w) && L > 1
    ensures Used(w, L, 1) == 2 * Packages(w, L - 1, 2 * |w| - 2)
    ensures ChainLeaves(w, L, 0) == Leaves(w, L - 1, 2 * |w| - 2)
  {
    hide Packages, Leaves;
  }

  lemma BelowIs(w: seq<nat>, i: nat, p: nat)
    ensures ItemsBelow(w, i, p) == if i == 1 then Min(2 * p + 2, |w|) else 2 * p + 2
  {
  }

  lemma LowerNodesApart(next: nat, chains: seq<seq<nat>>, owner: seq<(nat, nat)>, x: nat)
    requires Owned(next, chains, owner) && |chains| > 1
    requires |chains[|chains| - 1]| > 2 && x == chains[|chains| - 1][|chains[|chains| - 1]| - 1]
    ensures forall i, j :: 0 <= i < |chains| - 1 && 0 <= j < |chains[i]| ==> chains[i][j] != x
  {
    var top := |chains| - 1;
    forall i, j | 0 <= i < top && 0 <= j < |chains[i]| ensures chains[i][j] != x {
      assert owner[x] == (top, |chains[top]| - 1);
      assert owner[chains[i][j]] == (if j < 2 then 0 else i, j);
    }
  }

  lemma FinalTells(pool: NodePool, lists: array<(nat, nat)>, w: seq<nat>, index: nat)
    requires Represents(pool, lists, w) && 0 < index == |pool.chains| - 1 && Linked(pool.chains, w, index)
    requires |pool.chains[index]| == 2 * |w| - 3 && 3 <= |w| <= Pow2(index + 1)
    ensures lists.Length == index + 1 && ListsTell(pool, lists, w, index) && pool.next < pool.nodes.Length
    ensures Weights(w) && ItemsOk(pool.nodes[..], pool.next, pool.chains, w)
    ensures forall i, j :: 0 <= i < |pool.chains| && 0 <= j < |pool.chains[i]| ==> pool.chains[i][j] < pool.next
    ensures forall i, j :: 0 <= i < index && 0 <= j < |pool.chains[i]| ==> pool.chains[i][j] != lists[index].1
    ensures |pool.chains[index - 1]| >= 2 && Used(w, index + 1, 1) <= |pool.chains[index - 1]|
    ensures var below, last, pair := pool.chains[index - 1], pool.nodes[lists[index].1], lists[index - 1];
            var leaf := last.count < |w| && pool.nodes[pair.0].weight + pool.nodes[pair.1].weight > w[last.count];
            && ChainLeaves(w, index + 1, 0) == last.count + (if leaf then 1 else 0)
            && (if leaf then last.tail
                == (if Used(w, index + 1, 1) == 0 then NO_NODE else below[Used(w, index + 1, 1) - 1])
                else Used(w, index + 1, 1) == |below| && below[|below| - 1] == pair.1)
  {
    hide Leaves, Packages, Weight, ItemsOk, IdealNode, Linked, Bounded, Owned, ChainLeaves, Used;
    LevelTells(pool, lists, w, index);
    var nodes, chains := pool.nodes[..], pool.chains;
    assert lists[..][index].1 == chains[index][|chains[index]| - 1];
    assert lists[..][index - 1]
      == (chains[index - 1][|chains[index - 1]| - 2], chains[index - 1][|chains[index - 1]| - 1]);
    RoomForOne(pool.next, chains, w, index, pool.nodes.Length);
    LowerNodesApart(pool.next, chains, pool.owner, lists[index].1);
    LowerNodesOld(nodes, pool.next, chains, w);
    FinalTail(nodes, pool.next, chains, w, index + 1, lists[index].1,
              pool.nodes[lists[index - 1].0].weight + pool.nodes[lists[index - 1].1].weight);
  }

  /** The last item of all needs no lookahead: either one more leaf, or the last chain takes over
      the two chains below, in place. */
  method BoundaryPMFinal(lists: array<(nat, nat)>, leaves: seq<Node>, numSymbols: nat, pool: NodePool, index: nat)
    requires numSymbols == |leaves| >= 3
    requires Represents(pool, lists, WeightsOf(leaves))
    requires 0 < index == |pool.chains| - 1 && Linked(pool.chains, WeightsOf(leaves), index)
    requires |pool.chains[index]| == 2 * |leaves| - 3
    requires |leaves| <= Pow2(index + 1)
    modifies pool, pool.nodes, lists
    ensures lists.Length == index + 1
    ensures IsChain(pool.nodes[..], lists[index].1, WeightsOf(leaves), index + 1, 0)
  {
    hide *;
    WeightsAre(leaves);
    ghost var w, nodes0, chains0, next0 := WeightsOf(leaves), pool.nodes[..], pool.chains, pool.next;
    FinalTells(pool, lists, w, index);
    TellIs(pool, lists, w, index);
    var lastChain := lists[index].1;
    var lastCount := pool.nodes[lastChain].count;
    var sum := pool.nodes[lists[index - 1].0].weight + pool.nodes[lists[index - 1].1].weight;
    if lastCount < numSymbols && sum > leaves[lastCount].weight {
      var newChain := pool.NewNode();
      var oldChain := pool.nodes[lastChain].tail;
      lists[index] := (lists[index].0, newChain);
      pool.nodes[newChain] := pool.nodes[newChain].(count := lastCount + 1, tail := oldChain);
      FinalChain(nodes0, pool.nodes[..], next0, chains0, w, index + 1, newChain);
    } else {
      pool.nodes[lastChain] := pool.nodes[lastChain].(tail := lists[index - 1].1);
      FinalChain(nodes0, pool.nodes[..], next0, chains0, w, index + 1, lastChain);
    }
  }

  lemma LowerNodesOld(nodes: seq<Node>, next: nat, chains: seq<seq<nat>>, w: seq<nat>)
    requires Weights(w) && ItemsOk(nodes, next, chains, w)
    ensures forall i, j :: 0 <= i < |chains| && 0 <= j < |chains[i]| ==> chains[i][j] < next
  {
    forall i, j | 0 <= i < |chains| && 0 <= j < |chains[i]| ensures chains[i][j] < next {
      assert ItemOk(nodes, next, chains, w, i, j);
    }
  }

  // ---- Reading the lengths off the final chain ----

  lemma {:induction false} EmptyDepths(w: seq<nat>, L: nat, k: nat, j: nat)
    requires Weights(w) && k <= j < L && Used(w, L, k) == 0
    ensures ChainLeaves(w, L, j) == 0
    decreases j - k
  {
    if k < j { EmptyDepths(w, L, k + 1, j); }
  }

  /** The leaf counts that the chain lists, deepest first, ending with depth 0 at the end. */
  ghost predicate CountsFrom(counts: seq<nat>, w: seq<nat>, L: nat, k: nat)
    requires Weights(w) && k <= L && |counts| == L + 1
  {
    forall t :: 0 <= t <= L ==> counts[t] == (if L - t < k then ChainLeaves(w, L, L - t) else 0)
  }

  lemma AllCounts(counts: seq<nat>, w: seq<nat>, L: nat, k: nat)
    requires Weights(w) && k <= L && |counts| == L + 1 && CountsFrom(counts, w, L, k)
    requires k == L || Used(w, L, k) == 0
    ensures CountsFrom(counts, w, L, L)
  {
    forall t | 0 < t <= L ensures counts[t] == ChainLeaves(w, L, L - t) {
      if k <= L - t { EmptyDepths(w, L, k, L - t); }
    }
  }

  /** A leaf that depths 0 to v - 1 have and depth v lacks has depth v. */
  lemma {:induction false} DepthIs(w: seq<nat>, L: nat, v: nat, k: nat, i: nat)
    requires Weights(w) && 0 < v <= k <= L && i < ChainLeaves(w, L, v - 1) && (v < L ==> ChainLeaves(w, L, v) <= i)
    ensures Depth(w, L, k, i) == v
    decreases k
  {
    if v == k {
      DepthFull(w, L, v - 1, i);
    } else {
      ChainDescends(w, L, v, k - 1);
      DepthIs(w, L, v, k - 1, i);
    }
  }

  ghost predicate Assigned(bits: seq<nat>, leaves: seq<Node>, w: seq<nat>, L: nat, from: nat)
    requires Weights(w) && |leaves| == |w|
  {
    forall i :: from <= i < |leaves| ==> leaves[i].count < |bits| && bits[leaves[i].count] == Depth(w, L, L, i)
  }

  ghost predicate HasSymbol(leaves: seq<Node>, s: nat) {
    exists x :: x in leaves && x.count == s
  }

  /** Symbols without a leaf keep their entry. */
  ghost predicate OthersKept(bits: seq<nat>, bits': seq<nat>, leaves: seq<Node>) {
    && |bits| == |bits'|
    && forall s :: 0 <= s < |bits| && !HasSymbol(leaves, s) ==> bits'[s] == bits[s]
  }

  lemma CountsAscend(counts: seq<nat>, w: seq<nat>, L: nat, ptr: nat)
    requires Weights(w) && 0 < ptr <= L && |counts| == L + 1 && CountsFrom(counts, w, L, L)
    ensures counts[ptr - 1] <= counts[ptr]
  {
    if ptr > 1 { ChainDescends(w, L, L - ptr, L - ptr + 1); }
  }

  /** Walk the chain: its counts, deepest last, and where they start. */
  method CollectCounts(chainStart: int, nodes: seq<Node>, ghost w: seq<nat>, maxBits: nat)
    returns (counts: array<nat>, end: nat)
    requires Weights(w) && |w| <= Pow2(maxBits) && maxBits > 0
    requires IsChain(nodes, chainStart, w, maxBits, 0)
    ensures fresh(counts) && counts.Length == maxBits + 1 && CountsFrom(counts[..], w, maxBits, maxBits)
    ensures 1 <= end <= maxBits + 1 && counts[end - 1] == 0
  {
    hide ChainLeaves, Used;
    counts := new nat[maxBits + 1](_ => 0);
    end := maxBits + 1;
    var chain := chainStart;
    ghost var k := 0;
    while chain != NO_NODE
      invariant k <= maxBits && end == maxBits + 1 - k
      invariant IsChain(nodes, chain, w, maxBits, k)
      invariant CountsFrom(counts[..], w, maxBits, k)
      decreases maxBits - k
    {
      end := end - 1;
      counts[end] := nodes[chain].count;
      chain := nodes[chain].tail;
      k := k + 1;
    }
    AllCounts(counts[..], w, maxBits, k);
  }

  method ExtractBitLengths(chainStart: int, nodes: seq<Node>, leaves: seq<Node>, bitlengths: array<nat>, maxBits: nat)
    requires Weights(WeightsOf(leaves)) && |leaves| <= Pow2(maxBits) && maxBits > 0
    requires IsChain(nodes, chainStart, WeightsOf(leaves), maxBits, 0)
    requires Distinct(leaves) && forall x :: x in leaves ==> x.count < bitlengths.Length
    modifies bitlengths
    ensures Assigned(bitlengths[..], leaves, WeightsOf(leaves), maxBits, 0)
    ensures OthersKept(old(bitlengths[..]), bitlengths[..], leaves)
  {
    ghost var w, bits0 := WeightsOf(leaves), bitlengths[..];
    var counts, end := CollectCounts(chainStart, nodes, w, maxBits);
    ghost var cs := counts[..];
    AllLeavesAtTop(w, maxBits);
    hide ChainLeaves, Used, Depth, IsChain, Assigned, OthersKept;
    var ptr := maxBits;
    var value := 1;
    var val := counts[maxBits];
    NothingAssigned(bitlengths[..], leaves, w, maxBits, val);
    while ptr >= end
      invariant end - 1 <= ptr <= maxBits && value == maxBits + 1 - ptr
      invariant counts[..] == cs && val == cs[ptr] <= |leaves|
      invariant Assigned(bitlengths[..], leaves, w, maxBits, val)
      invariant OthersKept(bits0, bitlengths[..], leaves)
    {
      CountsAscend(cs, w, maxBits, ptr);
      while ptr > 0 && val > counts[ptr - 1]
        invariant counts[..] == cs && cs[ptr - 1] <= val <= cs[ptr] <= |leaves|
        invariant Assigned(bitlengths[..], leaves, w, maxBits, val)
        invariant OthersKept(bits0, bitlengths[..], leaves)
      {
        assert leaves[val - 1] in leaves;
        DepthFromCounts(cs, w, maxBits, ptr, val - 1);
        AssignOne(bits0, bitlengths[..], leaves, w, maxBits, val, value);
        ghost var before := bitlengths[..];
        bitlengths[leaves[val - 1].count] := value;
        assert bitlengths[..] == before[leaves[val - 1].count := value];
        val := val - 1;
      }
      ptr := ptr - 1;
      value := value + 1;
    }
  }

  lemma NothingAssigned(bits: seq<nat>, leaves: seq<Node>, w: seq<nat>, L: nat, val: nat)
    requires Weights(w) && |leaves| == |w| == val
    ensures Assigned(bits, leaves, w, L, val) && OthersKept(bits, bits, leaves)
  {
  }

  lemma DepthFromCounts(counts: seq<nat>, w: seq<nat>, L: nat, ptr: nat, i: nat)
    requires Weights(w) && 0 < ptr <= L && |counts| == L + 1 && CountsFrom(counts, w, L, L)
    requires counts[ptr - 1] <= i < counts[ptr]
    ensures Depth(w, L, L, i) == L + 1 - ptr
  {
    DepthIs(w, L, L + 1 - ptr, L, i);
  }

  lemma AssignOne(bits0: seq<nat>, bits: seq<nat>, leaves: seq<Node>, w: seq<nat>, L: nat, val: nat, value: nat)
    requires Weights(w) && |leaves| == |w| && 0 < val <= |leaves| && Distinct(leaves)
    requires leaves[val - 1].count < |bits| && Depth(w, L, L, val - 1) == value
    requires Assigned(bits, leaves, w, L, val) && OthersKept(bits0, bits, leaves)
    ensures Assigned(bits[leaves[val - 1].count := value], leaves, w, L, val - 1)
    ensures OthersKept(bits0, bits[leaves[val - 1].count := value], leaves)
  {
    hide Depth;
    assert leaves[val - 1] in leaves;
    assert HasSymbol(leaves, leaves[val - 1].count);
  }

  lemma AllLeavesAtTop(w: seq<nat>, L: nat)
    requires Weights(w) && 0 < L && |w| <= Pow2(L)
    ensures ChainLeaves(w, L, 0) == |w|
  {
    DepthPositive(w, L, |w| - 1);
    if ChainLeaves(w, L, 0) < |w| { NotAtTop(w, L, L, |w| - 1); }
  }

  lemma {:induction false} NotAtTop(w: seq<nat>, L: nat, k: nat, i: nat)
    requires Weights(w) && k <= L && 0 < L && ChainLeaves(w, L, 0) <= i
    ensures Depth(w, L, k, i) == 0
  {
    if k > 0 {
      NotAtTop(w, L, k - 1, i);
      ChainDescends(w, L, 0, k - 1);
    }
  }

  // ---- Entry points ----

  method LengthLimitedCodeLengthsWithPool(leaves: seq<Node>, maxBits: nat, bitlengths: array<nat>,
                                          poolNodes: array<Node>)
    requires Weights(WeightsOf(leaves)) && |leaves| >= 3 && |leaves| <= Pow2(maxBits)
    requires Distinct(leaves) && forall x :: x in leaves ==> x.count < bitlengths.Length
    requires poolNodes.Length >= 2 * |leaves| * maxBits
    modifies bitlengths, poolNodes
    ensures Assigned(bitlengths[..], leaves, WeightsOf(leaves), maxBits, 0)
    ensures OthersKept(old(bitlengths[..]), bitlengths[..], leaves)
  {
    hide Linked, Leaves, IsChain;
    ghost var w := WeightsOf(leaves);
    assert maxBits >= 2 by { TwoBits(maxBits); }
    var pool := new NodePool(poolNodes);
    var lists := new (nat, nat)[maxBits](_ => (0, 0));
    InitLists(pool, leaves, maxBits, lists);
    var numRuns := 2 * |leaves| - 4;
    for i := 0 to numRuns - 1
      invariant Represents(pool, lists, w) && |pool.chains| == maxBits
      invariant Linked(pool.chains, w, maxBits - 1) && |pool.chains[maxBits - 1]| == 2 + i
      invariant fresh(pool) && fresh(lists) && pool.nodes == poolNodes
      modifies pool, poolNodes, lists
    {
      BoundaryPM(lists, leaves, |leaves|, pool, maxBits - 1);
    }
    BoundaryPMFinal(lists, leaves, |leaves|, pool, maxBits - 1);
    ExtractBitLengths(lists[maxBits - 1].1, poolNodes[..], leaves, bitlengths, maxBits);
  }

  lemma TwoBits(maxBits: nat)
    requires 3 <= Pow2(maxBits)
    ensures maxBits >= 2
  {
    assert Pow2(1) == 2 * Pow2(0) == 2;
  }

  lemma LimitIs(n: nat, maxBits: nat)
    requires n > 0
    ensures Limit(n, maxBits) == if n - 1 < maxBits then n - 1 else maxBits
  {
  }

  lemma PoolSize(bits: nat, n: nat)
    ensures bits * 2 * n == 2 * n * bits >= 0
  {
  }

  method LengthLimitedCodeLengthsWithLeaves(leaves: seq<Node>, maxBits: nat, bitlengths: array<nat>)
    requires Weights(WeightsOf(leaves)) && |leaves| >= 3 && |leaves| <= Pow2(maxBits)
    requires Distinct(leaves) && forall x :: x in leaves ==> x.count < bitlengths.Length
    modifies bitlengths
    ensures Assigned(bitlengths[..], leaves, WeightsOf(leaves), Limit(|leaves|, maxBits), 0)
    ensures OthersKept(old(bitlengths[..]), bitlengths[..], leaves)
  {
    hide *;
    LimitIsEnough(|leaves|, maxBits);
    LimitIs(|leaves|, maxBits);
    var numSymbols, limited := |leaves|, maxBits;
    if numSymbols - 1 < limited {
      limited := numSymbols - 1;
    }
    PoolSize(limited, numSymbols);
    var neededPool := limited * 2 * numSymbols;
    var poolNodes := new Node[neededPool];
    LengthLimitedCodeLengthsWithPool(leaves, limited, bitlengths, poolNodes);
  }

  /** Sort in place by moving each leaf down past all greater ones. */
  method InsertionSortLeaves(leaves: array<Node>)
    modifies leaves
    ensures leaves[..] == Sort(old(leaves[..]))
  {
    hide Insert;
    ghost var s := leaves[..];
    assert s[..0] == [];
    for i := 0 to leaves.Length
      invariant leaves[..i] == Sort(s[..i])
      invariant leaves[i..] == s[i..]
    {
      InsertLeaf(leaves, i);
      assert s[..i + 1][..i] == s[..i] && s[i..][0] == s[i] && s[i..][1..] == s[i + 1..];
    }
    assert s[..leaves.Length] == s && leaves[..leaves.Length] == leaves[..];
  }

  method InsertLeaf(leaves: array<Node>, i: nat)
    requires i < leaves.Length
    modifies leaves
    ensures leaves[..i + 1] == Insert(old(leaves[..i]), old(leaves[i..])[0])
    ensures leaves[i + 1..] == old(leaves[i..])[1..]
  {
    hide *;
    ghost var s, sorted := leaves[..], leaves[..i];
    var leaf := leaves[i];
    var j := i - 1;
    assert sorted[..j + 1] == sorted && sorted[j + 1..] == [];
    assert Insert(sorted, leaf) + [] == Insert(sorted, leaf);
    while j >= 0 && CompareLeaves(leaves[j], leaf) > 0
      invariant -1 <= j < i
      invariant forall k :: 0 <= k <= j ==> leaves[k] == s[k]
      invariant forall k :: j + 1 < k <= i ==> leaves[k] == s[k - 1]
      invariant forall k :: i < k < leaves.Length ==> leaves[k] == s[k]
      invariant Insert(sorted, leaf) == Insert(sorted[..j + 1], leaf) + sorted[j + 1..]
    {
      InsertStep(sorted, leaf, j);
      leaves[j + 1] := leaves[j];
      j := j - 1;
    }
    leaves[j + 1] := leaf;
    InsertEnd(sorted, leaf, j);
    Assembled(leaves[..], s, leaf, i, j);
  }

  lemma Assembled(t: seq<Node>, s: seq<Node>, leaf: Node, i: nat, j: int)
    requires |t| == |s| && -1 <= j < i < |s| && t[j + 1] == leaf
    requires forall k :: 0 <= k <= j ==> t[k] == s[k]
    requires forall k :: j + 1 < k <= i ==> t[k] == s[k - 1]
    requires forall k :: i < k < |s| ==> t[k] == s[k]
    ensures t[..i + 1] == s[..i][..j + 1] + [leaf] + s[..i][j + 1..] && t[i + 1..] == s[i..][1..]
  {
  }

  lemma InsertStep(s: seq<Node>, leaf: Node, j: nat)
    requires j < |s| && CompareLeaves(s[j], leaf) > 0
    requires Insert(s, leaf) == Insert(s[..j + 1], leaf) + s[j + 1..]
    ensures Insert(s, leaf) == Insert(s[..j], leaf) + s[j..]
  {
    assert s[..j + 1][..j] == s[..j];
    assert [s[j]] + s[j + 1..] == s[j..];
  }

  lemma InsertEnd(s: seq<Node>, leaf: Node, j: int)
    requires -1 <= j < |s| && (j == -1 || CompareLeaves(s[j], leaf) <= 0)
    requires Insert(s, leaf) == Insert(s[..j + 1], leaf) + s[j + 1..]
    ensures Insert(s, leaf) == s[..j + 1] + [leaf] + s[j + 1..]
  {
  }

  method FillLeaves(frequencies: seq<nat>, n: nat, leaves: array<Node>)
    requires n <= |frequencies| && leaves.Length == |UsedLeaves(frequencies, n)|
    modifies leaves
    ensures leaves[..] == UsedLeaves(frequencies, n)
  {
    var next := 0;
    UsedGrow(frequencies, 0, n);
    for i := 0 to n
      invariant next == |UsedLeaves(frequencies, i)| <= leaves.Length
      invariant leaves[..next] == UsedLeaves(frequencies, i)
    {
      UsedGrow(frequencies, i + 1, n);
      if frequencies[i] != 0 {
        leaves[next] := Node(frequencies[i], i, NO_NODE);
        next := next + 1;
      }
    }
  }

  lemma {:induction false} UsedGrow(frequencies: seq<nat>, i: nat, n: nat)
    requires i <= n <= |frequencies|
    ensures |UsedLeaves(frequencies, i)| <= |UsedLeaves(frequencies, n)|
    decreases n - i
  {
    if i < n { UsedGrow(frequencies, i, n - 1); }
  }

  lemma FewSymbols(frequencies: seq<nat>, maxBits: nat, bits: seq<nat>)
    requires |bits| == |frequencies| && |UsedLeaves(frequencies, |frequencies|)| <= 2
    requires forall k :: 0 <= k < |bits| ==>
             bits[k] == (if HasSymbol(UsedLeaves(frequencies, |frequencies|), k) then 1 else 0)
    ensures bits == CodeLengths(frequencies, maxBits)
  {
    var used := UsedLeaves(frequencies, |frequencies|);
    UsedLeavesAre(frequencies, |frequencies|);
    RankedLeaves(frequencies);
    forall k | 0 <= k < |bits| ensures bits[k] == LengthOf(frequencies, maxBits, k) {
      if frequencies[k] != 0 { assert Node(frequencies[k], k, NO_NODE) in used; }
    }
  }

  lemma ManySymbols(frequencies: seq<nat>, maxBits: nat, bits: seq<nat>)
    requires |bits| >= |frequencies| && |Ranked(frequencies)| > 2
    requires Weights(WeightsOf(Ranked(frequencies)))
    requires Assigned(bits, Ranked(frequencies), WeightsOf(Ranked(frequencies)), Limit(|Ranked(frequencies)|, maxBits),
                      0)
    requires forall k :: 0 <= k < |frequencies| && !HasSymbol(Ranked(frequencies), k) ==> bits[k] == 0
    ensures bits[..|frequencies|] == CodeLengths(frequencies, maxBits)
  {
    var r := Ranked(frequencies);
    RankedLeaves(frequencies);
    forall k | 0 <= k < |frequencies| ensures bits[k] == LengthOf(frequencies, maxBits, k) {
      if frequencies[k] != 0 {
        UsedIsRanked(frequencies, k);
        var i := RankOf(r, k);
        assert bits[r[i].count] == Depth(WeightsOf(r), Limit(|r|, maxBits), Limit(|r|, maxBits), i);
      }
    }
  }

  method CountSymbols(frequencies: seq<nat>, n: nat, firstSymbols: array<nat>, bitlengths: array<nat>)
    returns (numSymbols: nat)
    requires n == |frequencies| <= bitlengths.Length && firstSymbols.Length == 2 && firstSymbols != bitlengths
    modifies firstSymbols, bitlengths
    ensures numSymbols == |UsedLeaves(frequencies, n)|
    ensures forall k :: 0 <= k < n ==> bitlengths[k] == 0
    ensures bitlengths[n..] == old(bitlengths[n..])
    ensures forall k :: 0 <= k < numSymbols && k < 2 ==> firstSymbols[k] == UsedLeaves(frequencies, n)[k].count
  {
    numSymbols := 0;
    for i := 0 to n
      invariant numSymbols == |UsedLeaves(frequencies, i)|
      invariant forall k :: 0 <= k < i ==> bitlengths[k] == 0
      invariant bitlengths[n..] == old(bitlengths[n..])
      invariant forall k :: 0 <= k < numSymbols && k < 2 ==> firstSymbols[k] == UsedLeaves(frequencies, i)[k].count
    {
      bitlengths[i] := 0;
      if frequencies[i] != 0 {
        if numSymbols < 2 {
          firstSymbols[numSymbols] := i;
        }
        numSymbols := numSymbols + 1;
      }
    }
  }

  /** Code lengths for the first n frequencies, no longer than maxBits; false if that many symbols
      do not fit. */
  method LengthLimitedCodeLengths(frequencies: seq<nat>, n: nat, maxBits: nat, bitlengths: array<nat>)
    returns (ok: bool)
    requires n == |frequencies| <= bitlengths.Length
    modifies bitlengths
    ensures ok == (|Ranked(frequencies)| <= Pow2(maxBits))
    ensures ok ==> bitlengths[..n] == CodeLengths(frequencies, maxBits)
    ensures !ok ==> forall k :: 0 <= k < n ==> bitlengths[k] == 0
    ensures bitlengths[n..] == old(bitlengths[n..])
  {
    hide CodeLengths, Sort;
    var firstSymbols := new nat[2](_ => 0);
    var numSymbols := CountSymbols(frequencies, n, firstSymbols, bitlengths);
    RankedLeaves(frequencies);
    if Pow2(maxBits) < numSymbols {
      return false;
    }
    ok := true;
    if numSymbols <= 2 {
      GiveOneBit(frequencies, n, numSymbols, firstSymbols[..], bitlengths);
      FewSymbols(frequencies, maxBits, bitlengths[..n]);
      return;
    }
    var leaves := new Node[numSymbols];
    FillLeaves(frequencies, n, leaves);
    InsertionSortLeaves(leaves);
    RankedWeights(frequencies);
    LengthLimitedCodeLengthsWithLeaves(leaves[..], maxBits, bitlengths);
    ManySymbols(frequencies, maxBits, bitlengths[..]);
    assert bitlengths[..][..n] == bitlengths[..n];
  }

  /** One or two symbols: one bit each. */
  method GiveOneBit(frequencies: seq<nat>, n: nat, numSymbols: nat, firstSymbols: seq<nat>, bitlengths: array<nat>)
    requires n == |frequencies| <= bitlengths.Length
    requires numSymbols == |UsedLeaves(frequencies, n)| <= 2 <= |firstSymbols|
    requires forall k :: 0 <= k < numSymbols ==> firstSymbols[k] == UsedLeaves(frequencies, n)[k].count
    requires forall k :: 0 <= k < n ==> bitlengths[k] == 0
    modifies bitlengths
    ensures forall k :: 0 <= k < n ==> bitlengths[k] == (if HasSymbol(UsedLeaves(frequencies, n), k) then 1 else 0)
    ensures bitlengths[n..] == old(bitlengths[n..])
  {
    ghost var used := UsedLeaves(frequencies, n);
    UsedLeavesAre(frequencies, n);
    forall k | 0 <= k < numSymbols ensures firstSymbols[k] < n { assert used[k] in used; }
    assert used[..0] == [] && used[..numSymbols] == used;
    for i := 0 to numSymbols
      invariant forall k :: 0 <= k < n ==> bitlengths[k] == (if HasSymbol(used[..i], k) then 1 else 0)
      invariant bitlengths[n..] == old(bitlengths[n..])
    {
      bitlengths[firstSymbols[i]] := 1;
      assert used[..i + 1] == used[..i] + [used[i]];
    }
  }
}
