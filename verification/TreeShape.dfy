/** Nodes of the B+tree of index.hpp and the shape that bulk loading gives them.

    `levels[0]` are the leaves from left to right and `levels[d]` the inner nodes d levels above
    them. Node i of level d covers the loaded keys from index `Base(d, i)` to `Base(d, i + 1)`. */
module TreeShape {
  import opened IndexTypes

  const FANOUT: nat := 15

  /** A node's keys and children are filled in right after allocation and never change again. */
  class Node {
    const isLeaf: bool
    const n: nat
    const keys: seq<Key>
    const children: seq<Node>
    var vals: seq<Val>
    var nextLeaf: Node?

    constructor Leaf(ks: seq<Key>, vs: seq<Val>)
      ensures isLeaf && n == |ks| && keys == ks && children == [] && vals == vs && nextLeaf == null
    {
      isLeaf, n, keys, children, vals, nextLeaf := true, |ks|, ks, [], vs, null;
    }

    constructor Inner(ks: seq<Key>, cs: seq<Node>)
      ensures !isLeaf && n == |ks| && keys == ks && children == cs && nextLeaf == null
    {
      isLeaf, n, keys, children, vals, nextLeaf := false, |ks|, ks, cs, [], null;
    }
  }

  ghost predicate Sorted(ks: seq<Key>)
  {
    forall p, q :: 0 <= p < q < |ks| ==> ks[p] <= ks[q]
  }

  ghost predicate Ascending(ks: seq<Key>)
  {
    forall p, q :: 0 <= p < q < |ks| ==> ks[p] < ks[q]
  }

  /** Index of the first key below node i of level d: 15 * 16^d * i. */
  function Base(d: nat, i: nat): nat
  {
    if d == 0 then FANOUT * i else Base(d - 1, (FANOUT + 1) * i)
  }

  lemma {:induction false} BaseMonotone(d: nat, i: nat, j: nat)
    requires i < j
    ensures Base(d, i) < Base(d, j)
  {
    if d > 0 {
      BaseMonotone(d - 1, 16 * i, 16 * j);
    }
  }

  lemma {:induction false} BaseZero(d: nat)
    ensures Base(d, 0) == 0
  {
    if d > 0 {
      BaseZero(d - 1);
    }
  }

  ghost predicate LeafAt(node: Node, ks: seq<Key>, i: nat)
  {
    && node.isLeaf
    && FANOUT * i < |ks|
    && node.n == |node.keys| == Min(FANOUT, |ks| - FANOUT * i)
    && forall j: nat :: j < node.n ==> node.keys[j] == ks[FANOUT * i + j]
  }

  /** k is the first key below node i of level d. */
  ghost predicate IsFirstKey(ks: seq<Key>, d: nat, i: nat, k: Key)
  {
    Base(d, i) < |ks| && k == ks[Base(d, i)]
  }

  /** Node i of a level: up to 16 consecutive nodes of the level below, separated by the first keys
      under all of them but the first. A last node with one child has no keys. */
  ghost predicate InnerAt(node: Node, below: seq<Node>, ks: seq<Key>, d: nat, i: nat)
    requires d > 0
  {
    && !node.isLeaf
    && (FANOUT + 1) * i < |below|
    && node.n == |node.keys| == Min(FANOUT + 1, |below| - (FANOUT + 1) * i) - 1
    && |node.children| == node.n + 1
    && (forall j: nat :: j <= node.n ==> node.children[j] == below[(FANOUT + 1) * i + j])
    && (forall j: nat :: j < node.n ==> IsFirstKey(ks, d - 1, (FANOUT + 1) * i + j + 1, node.keys[j]))
  }

  /** A level has exactly the nodes that have keys below them. */
  ghost predicate LevelSize(size: nat, ks: seq<Key>, d: nat)
  {
    forall i: nat :: i < size <==> Base(d, i) < |ks|
  }

  ghost predicate LevelAt(levels: seq<seq<Node>>, ks: seq<Key>, d: nat)
    requires d < |levels|
  {
    && LevelSize(|levels[d]|, ks, d)
    && (forall i: nat :: i < |levels[d]| ==>
          if d == 0 then LeafAt(levels[0][i], ks, i) else InnerAt(levels[d][i], levels[d - 1], ks, d, i))
  }

  ghost predicate Shape(levels: seq<seq<Node>>, ks: seq<Key>)
  {
    && |levels| > 0
    && (forall d: nat :: d < |levels| ==> LevelAt(levels, ks, d))
    && (forall d: nat :: d + 1 < |levels| ==> |levels[d]| > 1)
  }

  /** No node occurs twice. */
  ghost predicate Distinct(levels: seq<seq<Node>>)
  {
    forall d: nat, i: nat, e: nat, j: nat ::
      d < |levels| && i < |levels[d]| && e < |levels| && j < |levels[e]| && (d, i) != (e, j) ==>
        levels[d][i] != levels[e][j]
  }

  lemma OnlyBottomIsLeaf(levels: seq<seq<Node>>, ks: seq<Key>, d: nat, i: nat)
    requires Shape(levels, ks) && d < |levels| && i < |levels[d]|
    ensures levels[d][i].isLeaf <==> d == 0
    ensures d > 0 ==> InnerAt(levels[d][i], levels[d - 1], ks, d, i)
    ensures d == 0 ==> LeafAt(levels[d][i], ks, i)
  {
    assert LevelAt(levels, ks, d);
  }

  // ---------- Descent ----------

  /** If key k is loaded at all it is below node i of level d. */
  ghost predicate Covers(ks: seq<Key>, d: nat, i: nat, k: Key)
  {
    && Base(d, i) < |ks|
    && (i > 0 ==> ks[Base(d, i)] <= k)
    && (Base(d, i + 1) < |ks| ==> k < ks[Base(d, i + 1)])
  }

  lemma RootCovers(levels: seq<seq<Node>>, ks: seq<Key>, d: nat, k: Key)
    requires Shape(levels, ks) && d < |levels| && |levels[d]| == 1
    ensures Covers(ks, d, 0, k)
  {
    assert LevelAt(levels, ks, d);
    assert 0 < |levels[d]| && !(1 < |levels[d]|);
  }

  /** Following child j, where j is the number of separators not above k, keeps k covered. */
  lemma ChildCovers(levels: seq<seq<Node>>, ks: seq<Key>, d: nat, i: nat, j: nat, k: Key)
    requires Shape(levels, ks) && 0 < d < |levels| && i < |levels[d]| && Covers(ks, d, i, k)
    requires InnerAt(levels[d][i], levels[d - 1], ks, d, i)
    requires var node := levels[d][i];
             j <= node.n && (j > 0 ==> node.keys[j - 1] <= k) && (j < node.n ==> k < node.keys[j])
    ensures Covers(ks, d - 1, 16 * i + j, k) && 16 * i + j < |levels[d - 1]|
    ensures levels[d][i].children[j] == levels[d - 1][16 * i + j]
  {
    var node := levels[d][i];
    assert LevelAt(levels, ks, d) && LevelAt(levels, ks, d - 1);
    assert InnerAt(node, levels[d - 1], ks, d, i);
    assert Base(d - 1, 16 * i) == Base(d, i);
    if j == node.n {
      if node.n + 1 == 16 {
        assert Base(d - 1, 16 * (i + 1)) == Base(d, i + 1);
      } else {
        assert 16 * i + j + 1 == |levels[d - 1]|;
      }
    }
  }

  /** A covered key is below everything to the right of the leaf that covers it. To the left there can
      only be further copies of a key with which that leaf starts. */
  lemma CoveredKeyInLeaf(ks: seq<Key>, i: nat, k: Key, p: nat)
    requires Sorted(ks) && Covers(ks, 0, i, k) && p < |ks|
    ensures p < 15 * i ==> ks[p] <= k && (ks[p] == k ==> ks[15 * i] == k)
    ensures p >= 15 * i + 15 ==> k < ks[p]
  {
    if p < 15 * i {
      assert ks[p] <= ks[15 * i];
    }
    if p > 15 * i + 15 {
      assert ks[15 * (i + 1)] <= ks[p];
    }
  }

  /** A path that follows child links downwards. */
  ghost predicate Path(p: seq<Node>)
  {
    |p| > 0 && forall q: nat :: q + 1 < |p| ==> !p[q].isLeaf && p[q + 1] in p[q].children
  }

  /** Every path from a node of level d goes down one level per link: it ends at a leaf after exactly
      d links and not before. */
  lemma {:induction false} PathsGoDown(levels: seq<seq<Node>>, ks: seq<Key>, d: nat, i: nat, p: seq<Node>)
    requires Shape(levels, ks) && d < |levels| && i < |levels[d]| && Path(p) && p[0] == levels[d][i]
    ensures |p| - 1 <= d && p[|p| - 1] in levels[d - (|p| - 1)]
    ensures p[|p| - 1].isLeaf <==> |p| - 1 == d
  {
    OnlyBottomIsLeaf(levels, ks, d, i);
    if |p| > 1 {
      assert p[0 + 1] in p[0].children;
      var j: nat :| j < |p[0].children| && p[0].children[j] == p[1];
      assert levels[d - 1][16 * i + j] == p[1];
      forall q: nat | q + 1 < |p[1..]| ensures !p[1..][q].isLeaf && p[1..][q + 1] in p[1..][q].children {
        assert !p[q + 1].isLeaf && p[(q + 1) + 1] in p[q + 1].children;
      }
      PathsGoDown(levels, ks, d - 1, 16 * i + j, p[1..]);
    }
  }

  // ---------- Height ----------

  function Pow16(k: nat): nat { if k == 0 then 1 else 16 * Pow16(k - 1) }

  lemma {:induction false} BaseIsPower(d: nat, i: nat)
    ensures Base(d, i) == 15 * Pow16(d) * i
  {
    if d > 0 {
      BaseIsPower(d - 1, 16 * i);
      assert 15 * Pow16(d - 1) * (16 * i) == 15 * (16 * Pow16(d - 1)) * i;
    }
  }

  /** The number of levels h of a tree of n keys is the one with 15 * 16^(h-2) < n <= 15 * 16^(h-1). */
  lemma HeightBounds(levels: seq<seq<Node>>, ks: seq<Key>)
    requires Shape(levels, ks) && |levels[|levels| - 1]| == 1
    ensures |ks| <= 15 * Pow16(|levels| - 1)
    ensures |levels| > 1 ==> |ks| > 15 * Pow16(|levels| - 2)
  {
    var h := |levels|;
    assert LevelAt(levels, ks, h - 1) && !(1 < |levels[h - 1]|);
    BaseIsPower(h - 1, 1);
    if h > 1 {
      assert |levels[h - 2]| > 1 && LevelAt(levels, ks, h - 2);
      BaseIsPower(h - 2, 1);
    }
  }

  // ---------- Building the levels ----------

  /** Grouping a level of `below` nodes by sixteen gives the next level its size, and fewer nodes. */
  lemma NextLevelSize(below: nat, size: nat, ks: seq<Key>, d: nat)
    requires d > 0 && LevelSize(below, ks, d - 1)
    requires 16 * size >= below && (size > 0 ==> 16 * (size - 1) < below)
    ensures LevelSize(size, ks, d)
    ensures below > 1 ==> 0 < size < below
  {
    forall i: nat ensures i < size <==> Base(d, i) < |ks| {
      assert Base(d, i) == Base(d - 1, 16 * i);
      assert 16 * i < below <==> Base(d - 1, 16 * i) < |ks|;
    }
  }

  lemma ShapeGrows(levels: seq<seq<Node>>, ks: seq<Key>, top: seq<Node>)
    requires Shape(levels, ks) && |levels[|levels| - 1]| > 1
    requires LevelSize(|top|, ks, |levels|)
    requires forall i: nat :: i < |top| ==> InnerAt(top[i], levels[|levels| - 1], ks, |levels|, i)
    ensures Shape(levels + [top], ks)
  {
    var levels' := levels + [top];
    forall d: nat | d < |levels'| ensures LevelAt(levels', ks, d) {
      if d < |levels| {
        assert LevelAt(levels, ks, d);
      }
    }
  }

  lemma DistinctGrows(levels: seq<seq<Node>>, top: seq<Node>)
    requires Distinct(levels)
    requires forall i, j :: 0 <= i < j < |top| ==> top[i] != top[j]
    requires forall d: nat, i: nat, j: nat :: d < |levels| && i < |levels[d]| && j < |top| ==> levels[d][i] != top[j]
    ensures Distinct(levels + [top])
  {
  }

  /** A top level is empty exactly when there are no keys. */
  lemma EmptyTop(levels: seq<seq<Node>>, ks: seq<Key>)
    requires Shape(levels, ks)
    ensures |levels[|levels| - 1]| == 0 <==> ks == []
  {
    var d := |levels| - 1;
    assert LevelAt(levels, ks, d);
    BaseZero(d);
    assert 0 < |levels[d]| <==> Base(d, 0) < |ks|;
  }
}
