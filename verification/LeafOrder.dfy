/** The leaves of the Huffman construction: used symbols ordered by weight, ties by symbol. */
module LeafOrder {
  import opened Prelude

  /** In a leaf, `count` is the symbol; in a chain node it is the number of leaves. */
  datatype Node = Node(weight: nat, count: nat, tail: int)

  const NO_NODE: int := -1

  /** The order of compareLeaves: negative, zero or positive. */
  function CompareLeaves(a: Node, b: Node): int {
    if a.weight < b.weight then -1
    else if a.weight > b.weight then 1
    else if a.count < b.count then -1
    else if a.count > b.count then 1
    else 0
  }

  /** Insert a leaf behind all leaves that are not greater. */
  function Insert(s: seq<Node>, leaf: Node): (r: seq<Node>)
    ensures |r| == |s| + 1
  {
    if |s| > 0 && CompareLeaves(s[|s| - 1], leaf) > 0
    then Insert(s[..|s| - 1], leaf) + [s[|s| - 1]]
    else s + [leaf]
  }

  function Sort(s: seq<Node>): (r: seq<Node>)
    ensures |r| == |s|
  {
    if |s| == 0 then [] else Insert(Sort(s[..|s| - 1]), s[|s| - 1])
  }

  ghost predicate Ascending(s: seq<Node>) {
    forall i, j :: 0 <= i < j < |s| ==> CompareLeaves(s[i], s[j]) <= 0
  }

  lemma {:induction false} InsertAscending(s: seq<Node>, leaf: Node)
    requires Ascending(s)
    ensures Ascending(Insert(s, leaf))
    ensures multiset(Insert(s, leaf)) == multiset(s) + multiset{leaf}
  {
    if |s| > 0 && CompareLeaves(s[|s| - 1], leaf) > 0 {
      var t, r := s[..|s| - 1], Insert(s[..|s| - 1], leaf);
      InsertAscending(t, leaf);
      assert s == t + [s[|s| - 1]];
      AppendGreatest(r, t, leaf, s[|s| - 1]);
    }
  }

  lemma AppendGreatest(r: seq<Node>, t: seq<Node>, leaf: Node, last: Node)
    requires Ascending(r) && Ascending(t + [last]) && CompareLeaves(last, leaf) > 0
    requires multiset(r) == multiset(t) + multiset{leaf}
    ensures Ascending(r + [last])
    ensures multiset(r + [last]) == multiset(t + [last]) + multiset{leaf}
  {
    forall i | 0 <= i < |r| ensures CompareLeaves(r[i], last) <= 0 {
      assert r[i] in multiset(t) + multiset{leaf};
      if r[i] in t {
        var k :| 0 <= k < |t| && t[k] == r[i];
        assert (t + [last])[k] == r[i] && (t + [last])[|t|] == last;
      }
    }
  }

  /** Sorting gives an ascending permutation ... */
  lemma {:induction false} SortSorts(s: seq<Node>)
    ensures Ascending(Sort(s)) && multiset(Sort(s)) == multiset(s)
  {
    if |s| > 0 {
      SortSorts(s[..|s| - 1]);
      InsertAscending(Sort(s[..|s| - 1]), s[|s| - 1]);
      assert s == s[..|s| - 1] + [s[|s| - 1]];
    }
  }

  lemma AscendingLast(s: seq<Node>, t: seq<Node>)
    requires Ascending(s) && Ascending(t) && multiset(s) == multiset(t) && |s| > 0 && |t| > 0
    requires forall x :: x in s ==> x.tail == NO_NODE
    ensures s[|s| - 1] == t[|t| - 1]
  {
    var a, b := s[|s| - 1], t[|t| - 1];
    assert a in multiset(t) && b in multiset(s);
    var i :| 0 <= i < |t| && t[i] == a;
    var j :| 0 <= j < |s| && s[j] == b;
  }

  /** ... and there is only one, so any sorting routine, the standard library's included, yields
      the same leaves. */
  lemma {:induction false} SortUnique(s: seq<Node>, t: seq<Node>)
    requires Ascending(s) && Ascending(t) && multiset(s) == multiset(t)
    requires forall x :: x in s ==> x.tail == NO_NODE
    ensures s == t
  {
    hide *;
    SameSize(s, t);
    if |s| > 0 {
      SameLast(s, t);
      SortUnique(s[..|s| - 1], t[..|t| - 1]);
      assert s == s[..|s| - 1] + [s[|s| - 1]] && t == t[..|t| - 1] + [t[|t| - 1]];
    }
  }

  lemma SameSize(s: seq<Node>, t: seq<Node>)
    requires multiset(s) == multiset(t)
    ensures |s| == |t|
  {
    assert |s| == |multiset(s)| == |multiset(t)| == |t|;
  }

  /** The last leaves agree, and what is left is sorted in the same way. */
  lemma SameLast(s: seq<Node>, t: seq<Node>)
    requires Ascending(s) && Ascending(t) && multiset(s) == multiset(t) && |s| > 0 && |t| > 0
    requires forall x :: x in s ==> x.tail == NO_NODE
    ensures s[|s| - 1] == t[|t| - 1]
    ensures multiset(s[..|s| - 1]) == multiset(t[..|t| - 1]) && Ascending(s[..|s| - 1]) && Ascending(t[..|t| - 1])
    ensures forall x :: x in s[..|s| - 1] ==> x.tail == NO_NODE
  {
    AscendingLast(s, t);
    ButLast(s);
    ButLast(t);
    AscendingPrefix(s);
    AscendingPrefix(t);
  }

  lemma AscendingPrefix(s: seq<Node>)
    requires Ascending(s) && |s| > 0
    ensures Ascending(s[..|s| - 1])
  {
  }

  lemma ButLast(s: seq<Node>)
    requires |s| > 0
    ensures multiset(s[..|s| - 1]) == multiset(s) - multiset{s[|s| - 1]}
  {
    assert s == s[..|s| - 1] + [s[|s| - 1]];
  }

  /** The used symbols among the first `n`, in symbol order. */
  function UsedLeaves(frequencies: seq<nat>, n: nat): (r: seq<Node>)
    requires n <= |frequencies|
    ensures |r| <= n
  {
    if n == 0 then []
    else if frequencies[n - 1] == 0 then UsedLeaves(frequencies, n - 1)
    else UsedLeaves(frequencies, n - 1) + [Node(frequencies[n - 1], n - 1, NO_NODE)]
  }

  lemma {:induction false} UsedLeavesAre(frequencies: seq<nat>, n: nat)
    requires n <= |frequencies|
    ensures forall x :: x in UsedLeaves(frequencies, n) <==>
              x.count < n && x.weight == frequencies[x.count] != 0 && x.tail == NO_NODE
    ensures forall i, j :: 0 <= i < j < |UsedLeaves(frequencies, n)| ==>
              UsedLeaves(frequencies, n)[i].count < UsedLeaves(frequencies, n)[j].count
  {
    if n > 0 { UsedLeavesAre(frequencies, n - 1); }
  }

  /** The leaves in the order the construction uses them. */
  function Ranked(frequencies: seq<nat>): seq<Node> {
    Sort(UsedLeaves(frequencies, |frequencies|))
  }

  ghost predicate Distinct(s: seq<Node>) {
    forall i, j :: 0 <= i < j < |s| ==> s[i].count != s[j].count
  }

  lemma DistinctByMultiset(s: seq<Node>, t: seq<Node>)
    requires Distinct(s) && multiset(s) == multiset(t)
    ensures Distinct(t)
  {
    forall i, j | 0 <= i < j < |t| ensures t[i].count != t[j].count {
      if t[i].count == t[j].count {
        assert t[i] in multiset(s) && t[j] in multiset(s);
        assert t[i] == t[j];
        assert t == t[..i] + [t[i]] + t[i + 1..j] + [t[j]] + t[j + 1..];
        assert multiset(t)[t[i]] >= 2;
        DistinctOnce(s, t[i]);
      }
    }
  }

  lemma {:induction false} DistinctOnce(s: seq<Node>, x: Node)
    requires Distinct(s)
    ensures multiset(s)[x] <= 1
  {
    if |s| > 0 {
      var t := s[..|s| - 1];
      DistinctOnce(t, x);
      assert s == t + [s[|s| - 1]];
      if s[|s| - 1] == x {
        assert x !in t;
      }
    }
  }

  function WeightsOf(leaves: seq<Node>): (w: seq<nat>)
    ensures |w| == |leaves| && forall i :: 0 <= i < |w| ==> w[i] == leaves[i].weight
  {
    seq(|leaves|, i requires 0 <= i < |leaves| => leaves[i].weight)
  }

  /** What the ranked leaves are: the used symbols, each once, with ascending weights. */
  lemma RankedLeaves(frequencies: seq<nat>)
    ensures var r := Ranked(frequencies);
            && (forall x :: x in r <==>
                  x.count < |frequencies| && x.weight == frequencies[x.count] != 0 && x.tail == NO_NODE)
            && Distinct(r) && Ascending(r)
            && |r| == |UsedLeaves(frequencies, |frequencies|)|
  {
    var u, r := UsedLeaves(frequencies, |frequencies|), Ranked(frequencies);
    UsedLeavesAre(frequencies, |frequencies|);
    SortSorts(u);
    DistinctByMultiset(u, r);
    forall x ensures x in r <==> x in u {
      assert x in r <==> x in multiset(r);
      assert x in u <==> x in multiset(u);
    }
  }

  // ---- Sums over leaves do not depend on their order ----

  ghost function LeafSum(f: Node -> nat, s: seq<Node>): nat {
    if |s| == 0 then 0 else LeafSum(f, s[..|s| - 1]) + f(s[|s| - 1])
  }

  lemma {:induction false} InsertSum(f: Node -> nat, s: seq<Node>, leaf: Node)
    ensures LeafSum(f, Insert(s, leaf)) == LeafSum(f, s) + f(leaf)
  {
    if |s| > 0 && CompareLeaves(s[|s| - 1], leaf) > 0 {
      InsertSum(f, s[..|s| - 1], leaf);
      assert Insert(s, leaf)[..|s|] == Insert(s[..|s| - 1], leaf);
    } else {
      assert Insert(s, leaf)[..|s|] == s;
    }
  }

  lemma {:induction false} SortSum(f: Node -> nat, s: seq<Node>)
    ensures LeafSum(f, Sort(s)) == LeafSum(f, s)
  {
    if |s| > 0 {
      SortSum(f, s[..|s| - 1]);
      InsertSum(f, Sort(s[..|s| - 1]), s[|s| - 1]);
    }
  }

  /** The same sum taken symbol by symbol. */
  ghost function SymbolSum(f: Node -> nat, frequencies: seq<nat>, n: nat): nat
    requires n <= |frequencies|
  {
    if n == 0 then 0
    else SymbolSum(f, frequencies, n - 1)
         + (if frequencies[n - 1] == 0 then 0 else f(Node(frequencies[n - 1], n - 1, NO_NODE)))
  }

  lemma {:induction false} UsedSum(f: Node -> nat, frequencies: seq<nat>, n: nat)
    requires n <= |frequencies|
    ensures LeafSum(f, UsedLeaves(frequencies, n)) == SymbolSum(f, frequencies, n)
  {
    if n > 0 {
      UsedSum(f, frequencies, n - 1);
      if frequencies[n - 1] != 0 {
        assert UsedLeaves(frequencies, n)[..|UsedLeaves(frequencies, n)| - 1] == UsedLeaves(frequencies, n - 1);
      }
    }
  }

  lemma RankedSum(f: Node -> nat, frequencies: seq<nat>)
    ensures LeafSum(f, Ranked(frequencies)) == SymbolSum(f, frequencies, |frequencies|)
  {
    SortSum(f, UsedLeaves(frequencies, |frequencies|));
    UsedSum(f, frequencies, |frequencies|);
  }
}
