/** The bulk-loaded B+tree of index.hpp. */
module BPlusTree {
  import opened IndexTypes
  import opened TreeShape
  import opened Xor

  /** How many keys are below lo. */
  function KeysBelow(ks: seq<Key>, lo: Key): nat
  {
    if ks == [] then 0 else KeysBelow(ks[..|ks| - 1], lo) + if ks[|ks| - 1] < lo then 1 else 0
  }

  lemma {:induction false} KeysBelowIs(ks: seq<Key>, lo: Key, p: nat)
    requires p <= |ks|
    requires forall q: nat :: q < |ks| ==> (ks[q] < lo <==> q < p)
    ensures KeysBelow(ks, lo) == p
  {
    if ks != [] {
      KeysBelowIs(ks[..|ks| - 1], lo, if p == |ks| then p - 1 else p);
    }
  }

  // ---------- The slot that stands for a key ----------

  ghost function LastAt(ks: seq<Key>, k: Key): (p: nat)
    requires k in ks
    ensures p < |ks| && ks[p] == k && forall q: nat :: p < q < |ks| ==> ks[q] != k
  {
    var n := |ks| - 1;
    if ks[n] == k then n
    else
      assert k in ks[..n];
      LastAt(ks[..n], k)
  }

  ghost function FirstFrom(ks: seq<Key>, k: Key, lo: nat, hi: nat): (p: nat)
    requires lo <= hi < |ks| && ks[hi] == k
    ensures lo <= p <= hi && ks[p] == k && forall q: nat :: lo <= q < p ==> ks[q] != k
    decreases hi - lo
  {
    if ks[lo] == k then lo else FirstFrom(ks, k, lo + 1, hi)
  }

  /** p is the first copy of k in the last leaf, leaf i, that holds one. */
  ghost predicate IsLive(ks: seq<Key>, k: Key, i: nat, p: nat)
  {
    && 15 * i <= p < 15 * i + 15 && p < |ks| && ks[p] == k
    && (forall q: nat :: 15 * i <= q < p ==> ks[q] != k)
    && (forall q: nat :: 15 * i + 15 <= q < |ks| ==> ks[q] != k)
  }

  /** The slot at which lookup and update find a loaded key. */
  ghost function Live(ks: seq<Key>, k: Key): (p: nat)
    requires k in ks
    ensures p < |ks| && ks[p] == k && IsLive(ks, k, p / 15, p)
  {
    var last := LastAt(ks, k);
    FirstFrom(ks, k, 15 * (last / 15), last)
  }

  lemma LiveIs(ks: seq<Key>, k: Key, i: nat, p: nat)
    requires IsLive(ks, k, i, p)
    ensures k in ks && Live(ks, k) == p
  {
    var q := Live(ks, k);
    assert IsLive(ks, k, q / 15, q);
  }

  /** Among distinct keys every slot stands for its own key. */
  lemma LiveOfAscending(ks: seq<Key>, p: nat)
    requires Ascending(ks) && p < |ks|
    ensures Live(ks, ks[p]) == p
  {
    LiveIs(ks, ks[p], p / 15, p);
  }

  /** Keys with their current values as a map. */
  ghost function MapOf(ks: seq<Key>, cur: seq<Val>): (m: map<Key, Val>)
    requires |cur| == |ks|
    ensures forall k :: k in m <==> k in ks
    ensures forall k :: k in ks ==> m[k] == cur[Live(ks, k)]
  {
    map k | k in ks :: cur[Live(ks, k)]
  }

  lemma MapAfterWrite(ks: seq<Key>, was: seq<Val>, k: Key, v: Val)
    requires |was| == |ks| && k in ks
    ensures MapOf(ks, was[Live(ks, k) := v]) == MapOf(ks, was)[k := v]
  {
    hide Live;
  }

  // ---------- Where a scan starts ----------

  /** The live slot of `lo`, or the first key above it. */
  ghost function ScanStart(ks: seq<Key>, lo: Key): nat
  {
    if lo in ks then Live(ks, lo) else KeysBelow(ks, lo)
  }

  lemma {:induction false} KeysBelowSplits(ks: seq<Key>, lo: Key)
    requires Sorted(ks)
    ensures KeysBelow(ks, lo) <= |ks|
    ensures forall q: nat :: q < |ks| ==> (ks[q] < lo <==> q < KeysBelow(ks, lo))
  {
    if ks != [] {
      KeysBelowSplits(ks[..|ks| - 1], lo);
      assert ks[|ks| - 1] < lo ==> forall q: nat :: q < |ks| ==> ks[q] < lo;
    }
  }

  /** A scan starts at the first key not below `lo`, and so misses none, if and only if all copies of
      `lo` are in one leaf. In particular it does so for distinct keys. */
  lemma ScanMissesNothingIff(ks: seq<Key>, lo: Key)
    requires Sorted(ks)
    ensures KeysBelow(ks, lo) <= ScanStart(ks, lo) <= |ks|
    ensures ScanStart(ks, lo) == KeysBelow(ks, lo)
            <==> forall p: nat, q: nat :: p < |ks| && q < |ks| && ks[p] == ks[q] == lo ==> p / 15 == q / 15
    ensures Ascending(ks) ==> ScanStart(ks, lo) == KeysBelow(ks, lo)
  {
    var first := KeysBelow(ks, lo);
    KeysBelowSplits(ks, lo);
    if lo in ks {
      var p := Live(ks, lo);
      assert ks[first] == lo by { assert ks[first] <= ks[p]; }
      if first == p {
        forall q: nat | q < |ks| && ks[q] == lo ensures q / 15 == p / 15 {
          assert first <= q;
        }
      } else {
        assert first / 15 != p / 15;
      }
    }
  }

  /** Sixteen copies of one key fill a leaf and start the next: a scan from it skips fifteen of them. */
  lemma ScanSkipsCopies(ks: seq<Key>, k: Key)
    requires |ks| == 16 && forall q :: 0 <= q < 16 ==> ks[q] == k
    ensures Sorted(ks) && KeysBelow(ks, k) == 0 && ScanStart(ks, k) == 15
  {
    KeysBelowIs(ks, k, 0);
    assert ks[15] == k;
    LiveIs(ks, k, 1, 15);
  }

  ghost predicate LeafVals(leaf: Node, cur: seq<Val>, i: nat)
    reads leaf
  {
    && |leaf.vals| == leaf.n && FANOUT * i + leaf.n <= |cur|
    && forall j: nat :: j < leaf.n ==> leaf.vals[j] == cur[FANOUT * i + j]
  }

  /** The leaf chain: every leaf points to its right neighbour, the last one to null. */
  ghost predicate Linked(leaves: seq<Node>, i: nat)
    requires i < |leaves|
    reads leaves[i]
  {
    leaves[i].nextLeaf == if i + 1 < |leaves| then leaves[i + 1] else null
  }

  ghost predicate LeavesHold(leaves: seq<Node>, cur: seq<Val>)
    reads leaves
  {
    && (forall i: nat :: i < |leaves| ==> LeafVals(leaves[i], cur, i))
    && (forall i: nat :: i < |leaves| ==> Linked(leaves, i))
  }

  function TotalNodes(levels: seq<seq<Node>>): nat
  {
    if levels == [] then 0 else TotalNodes(levels[..|levels| - 1]) + |levels[|levels| - 1]|
  }

  /** The leaf loop of bulk_load. */
  method BuildLeaves(keys: seq<Key>, vals: seq<Val>) returns (level: seq<Node>)
    requires |keys| == |vals|
    ensures LevelSize(|level|, keys, 0)
    ensures forall i: nat :: i < |level| ==> fresh(level[i]) && LeafAt(level[i], keys, i)
    ensures LeavesHold(level, vals)
    ensures forall i, j :: 0 <= i < j < |level| ==> level[i] != level[j]
  {
    level := [];
    var i := 0;
    var prev: Node? := null;
    while i < |keys|
      invariant i == FANOUT * |level| && (|level| > 0 ==> FANOUT * (|level| - 1) < |keys|)
      invariant if level == [] then prev == null else prev == level[|level| - 1]
      invariant forall q: nat :: q < |level| ==> fresh(level[q]) && LeafAt(level[q], keys, q)
      invariant forall q: nat :: q < |level| ==> LeafVals(level[q], vals, q) && Linked(level, q)
      invariant forall q, r :: 0 <= q < r < |level| ==> level[q] != level[r]
    {
      var cnt := Min(FANOUT, |keys| - i);
      var leaf := new Node.Leaf(keys[i..i + cnt], vals[i..i + cnt]);
      label Allocated:
      if prev != null { prev.nextLeaf := leaf; }
      prev := leaf;
      ghost var was := level;
      level := level + [leaf];
      i := i + FANOUT;
      forall q: nat | q < |was| ensures LeafVals(level[q], vals, q) && Linked(level, q) {
        assert level[q] == was[q] && old@Allocated(LeafVals(was[q], vals, q) && Linked(was, q));
      }
    }
  }

  lemma LeavesShape(leaves: seq<Node>, ks: seq<Key>)
    requires LevelSize(|leaves|, ks, 0) && forall i: nat :: i < |leaves| ==> LeafAt(leaves[i], ks, i)
    requires forall i, j :: 0 <= i < j < |leaves| ==> leaves[i] != leaves[j]
    ensures Shape([leaves], ks) && Distinct([leaves])
  {
  }

  /** first_key: the first key of the leftmost leaf below a node. */
  method FirstKey(start: Node, ghost levels: seq<seq<Node>>, ghost ks: seq<Key>, ghost top: nat, ghost i: nat)
    returns (k: Key)
    requires Shape(levels, ks) && top < |levels| && i < |levels[top]| && start == levels[top][i]
    ensures IsFirstKey(ks, top, i, k)
  {
    var node := start;
    ghost var d: nat, q: nat := top, i;
    while !node.isLeaf
      invariant d < |levels| && q < |levels[d]| && node == levels[d][q] && Base(d, q) == Base(top, i)
      decreases d
    {
      OnlyBottomIsLeaf(levels, ks, d, q);
      node, d, q := node.children[0], d - 1, 16 * q;
    }
    OnlyBottomIsLeaf(levels, ks, d, q);
    k := node.keys[0];
  }

  /** The separators of one inner node: the first keys under all its children but the first. */
  method Separators(
      level: seq<Node>, i: nat, cnt: nat, ghost levels: seq<seq<Node>>, ghost ks: seq<Key>, ghost d: nat)
    returns (seps: seq<Key>)
    requires Shape(levels, ks) && d + 1 == |levels| && level == levels[d] && 1 <= cnt && i + cnt <= |level|
    ensures |seps| == cnt - 1
    ensures forall q: nat :: q < |seps| ==> IsFirstKey(ks, d, i + q + 1, seps[q])
  {
    hide Shape, IsFirstKey;
    seps := [];
    var j := 1;
    while j < cnt
      invariant 1 <= j <= cnt && |seps| == j - 1
      invariant forall q: nat :: q < |seps| ==> IsFirstKey(ks, d, i + q + 1, seps[q])
    {
      var k := FirstKey(level[i + j], levels, ks, d, i + j);
      seps := seps + [k];
      j := j + 1;
    }
  }

  /** One round of the level loop of bulk_load. */
  method BuildParents(level: seq<Node>, ghost levels: seq<seq<Node>>, ghost ks: seq<Key>) returns (parents: seq<Node>)
    requires Shape(levels, ks) && level == levels[|levels| - 1] && |level| > 1
    ensures 0 < |parents| < |level| && LevelSize(|parents|, ks, |levels|)
    ensures forall i: nat :: i < |parents| ==> fresh(parents[i]) && InnerAt(parents[i], level, ks, |levels|, i)
    ensures forall i, j :: 0 <= i < j < |parents| ==> parents[i] != parents[j]
  {
    assert LevelAt(levels, ks, |levels| - 1);
    hide Shape, IsFirstKey, LevelSize;
    parents := [];
    var i := 0;
    while i < |level|
      invariant i == 16 * |parents| && (|parents| > 0 ==> 16 * (|parents| - 1) < |level|)
      invariant forall q: nat :: q < |parents| ==> fresh(parents[q]) && InnerAt(parents[q], level, ks, |levels|, q)
      invariant forall q, r :: 0 <= q < r < |parents| ==> parents[q] != parents[r]
    {
      var cnt := Min(FANOUT + 1, |level| - i);
      var seps := Separators(level, i, cnt, levels, ks, |levels| - 1);
      var inner := new Node.Inner(seps, level[i..i + cnt]);
      parents := parents + [inner];
      i := i + FANOUT + 1;
    }
    NextLevelSize(|level|, |parents|, ks, |levels|);
  }

  /** The level loop of bulk_load, from the leaves up to a level of at most one node. */
  method BuildLevels(leaves: seq<Node>, ghost ks: seq<Key>)
    returns (level: seq<Node>, count: nat, ghost levels: seq<seq<Node>>)
    requires Shape([leaves], ks) && Distinct([leaves])
    ensures |levels| > 0 && Shape(levels, ks) && Distinct(levels) && levels[0] == leaves
    ensures level == levels[|levels| - 1] && |level| <= 1 && count == TotalNodes(levels)
  {
    level, count, levels := leaves, |leaves|, [leaves];
    while |level| > 1
      invariant Shape(levels, ks) && Distinct(levels) && levels[0] == leaves
      invariant level == levels[|levels| - 1] && count == TotalNodes(levels)
      decreases |level|
    {
      var parents := BuildParents(level, levels, ks);
      ShapeGrows(levels, ks, parents);
      DistinctGrows(levels, parents);
      assert (levels + [parents])[..|levels|] == levels;
      level, count, levels := parents, count + |parents|, levels + [parents];
    }
  }

  /** The inner loop of scan: the values of one leaf from `start` on. */
  method TakeFromLeaf(
      node: Node, ghost cur: seq<Val>, ghost i: nat, start: nat, n: int, ghost p: nat, already: int, acc0: Val)
    returns (acc: Val, taken: int)
    requires LeafVals(node, cur, i) && start <= node.n
    requires 0 <= already < n && p + already == FANOUT * i + start <= |cur| && acc0 == XorAll(cur[p..p + already])
    ensures taken == Min(n, already + (node.n - start)) && p + taken <= |cur| && acc == XorAll(cur[p..p + taken])
  {
    hide XorAll;
    var idx := start;
    acc, taken := acc0, already;
    while idx < node.n && taken < n
      invariant idx <= node.n && taken <= n && p + taken == FANOUT * i + idx && taken - already == idx - start
      invariant acc == XorAll(cur[p..p + taken])
    {
      XorSnoc(cur, p, taken);
      acc := acc ^ node.vals[idx];
      idx := idx + 1;
      taken := taken + 1;
    }
  }

  class BPlusTree {
    var root: Node?
    var nodeCount: nat

    /** The loaded keys, their current values, the nodes by level, and how many nodes of earlier loads
        nothing refers to any more. */
    ghost var ks: seq<Key>
    ghost var cur: seq<Val>
    ghost var levels: seq<seq<Node>>
    ghost var leaked: nat

    ghost function Leaves(): seq<Node>
      reads this
    {
      if levels == [] then [] else levels[0]
    }

    ghost predicate Valid()
      reads this, Leaves()
    {
      && Shape(levels, ks) && Distinct(levels) && Sorted(ks) && |cur| == |ks|
      && nodeCount == leaked + TotalNodes(levels)
      && (root == null <==> ks == [])
      && (root != null ==> |levels[|levels| - 1]| == 1 && root == levels[|levels| - 1][0])
      && LeavesHold(levels[0], cur)
    }

    /** The tree as a map. */
    ghost function Contents(): map<Key, Val>
      requires Valid()
      reads this, Leaves()
    {
      MapOf(ks, cur)
    }

    constructor ()
      ensures Valid() && ks == [] && nodeCount == leaked == 0
    {
      root, nodeCount, ks, cur, levels, leaked := null, 0, [], [], [[]], 0;
    }

    /** Replaces the contents by sorted keys. The nodes of an earlier load stay counted. */
    method BulkLoad(keys: seq<Key>, vals: seq<Val>)
      requires Valid()
      requires |keys| == |vals| && Sorted(keys)
      modifies this
      ensures Valid() && ks == keys && cur == vals && leaked == old(nodeCount)
      ensures Contents() == MapOf(keys, vals)
      ensures fresh(Leaves())
    {
      hide Shape, Distinct, LeavesHold, TotalNodes, MapOf, LeafAt, LevelSize;
      var leaves := BuildLeaves(keys, vals);
      LeavesShape(leaves, keys);
      ghost var all;
      var top, count;
      top, count, all := BuildLevels(leaves, keys);
      EmptyTop(all, keys);
      ks, cur, levels := keys, vals, all;
      leaked, nodeCount := nodeCount, nodeCount + count;
      root := if top == [] then null else top[0];
    }

    /** The walk from the root to a leaf that lookup, update and scan share. */
    method Descend(k: Key) returns (leaf: Node?, ghost i: nat)
      requires Valid()
      ensures Valid()
      ensures leaf == null <==> ks == []
      ensures leaf != null ==> i < |levels[0]| && leaf == levels[0][i] && Covers(ks, 0, i, k)
    {
      hide Distinct, LeavesHold, TotalNodes, Covers;
      leaf, i := root, 0;
      ghost var d := |levels| - 1;
      if root != null {
        RootCovers(levels, ks, d, k);
      }
      while leaf != null && !leaf.isLeaf
        invariant root == null ==> leaf == null
        invariant root != null ==> 0 <= d < |levels| && i < |levels[d]| && leaf == levels[d][i] && Covers(ks, d, i, k)
        decreases d
      {
        OnlyBottomIsLeaf(levels, ks, d, i);
        var j := 0;
        while j < leaf.n && k >= leaf.keys[j]
          invariant 0 <= j <= leaf.n
          invariant j > 0 ==> leaf.keys[j - 1] <= k
        {
          j := j + 1;
        }
        ChildCovers(levels, ks, d, i, j, k);
        leaf, i, d := leaf.children[j], 16 * i + j, d - 1;
      }
      if leaf != null {
        OnlyBottomIsLeaf(levels, ks, d, i);
      }
    }

    /** The position of key k in a leaf, or n. */
    method Find(leaf: Node, k: Key, ghost i: nat) returns (j: nat)
      requires Valid() && i < |levels[0]| && leaf == levels[0][i] && Covers(ks, 0, i, k)
      ensures Valid() && j <= leaf.n <= |leaf.keys| && FANOUT * i + leaf.n <= |ks|
      ensures j < leaf.n ==> k in ks && Live(ks, k) == FANOUT * i + j
      ensures j == leaf.n ==> k !in ks
    {
      assert LevelAt(levels, ks, 0) && LeafAt(leaf, ks, i);
      j := 0;
      while j < leaf.n && leaf.keys[j] != k
        invariant j <= leaf.n
        invariant forall q: nat :: q < j ==> leaf.keys[q] != k
      {
        j := j + 1;
      }
      FoundIn(i, k, j);
    }

    /** The first match in the covering leaf is the live slot, and no match there means no match. */
    lemma FoundIn(i: nat, k: Key, j: nat)
      requires Valid() && i < |levels[0]| && Covers(ks, 0, i, k) && j <= levels[0][i].n == |levels[0][i].keys|
      requires forall q: nat :: q < j ==> levels[0][i].keys[q] != k
      requires j < levels[0][i].n ==> levels[0][i].keys[j] == k
      ensures j < levels[0][i].n ==> k in ks && Live(ks, k) == FANOUT * i + j
      ensures j == levels[0][i].n ==> k !in ks
    {
      var leaf := levels[0][i];
      OnlyBottomIsLeaf(levels, ks, 0, i);
      forall p: nat | FANOUT * i <= p < FANOUT * i + j ensures ks[p] != k {
        assert leaf.keys[p - FANOUT * i] == ks[FANOUT * i + (p - FANOUT * i)];
      }
      forall p: nat | p < |ks| ensures (p >= FANOUT * i + FANOUT ==> ks[p] != k) && (j == leaf.n ==> ks[p] != k) {
        CoveredKeyInLeaf(ks, i, k, p);
      }
      if j < leaf.n {
        LiveIs(ks, k, i, FANOUT * i + j);
      }
    }

    method Lookup(k: Key) returns (v: Val)
      requires Valid()
      ensures v == if k in Contents() then Contents()[k] else 0
    {
      hide Valid, MapOf, Live;
      Facts();
      var leaf, i := Descend(k);
      if leaf == null { return 0; }
      ValuesOf(i);
      var j := Find(leaf, k, i);
      v := if j < leaf.n then leaf.vals[j] else 0;
    }

    method Update(k: Key, newv: Val) returns (hit: bool)
      requires Valid()
      modifies this`cur, Leaves()
      ensures Valid()
      ensures hit <==> k in old(Contents())
      ensures Contents() == if hit then old(Contents())[k := newv] else old(Contents())
      ensures cur == if hit then old(cur)[Live(ks, k) := newv] else old(cur)
    {
      hide Valid, MapOf, Live;
      Facts();
      var leaf, i := Descend(k);
      if leaf == null { return false; }
      var j := Find(leaf, k, i);
      if j == leaf.n { return false; }
      ghost var was := cur;
      WriteSlot(leaf, i, j, newv);
      Facts();
      MapAfterWrite(ks, was, k, newv);
      hit := true;
    }

    lemma ValuesOf(i: nat)
      requires Valid() && |levels| > 0 && i < |levels[0]|
      ensures LeafVals(levels[0][i], cur, i)
    {
    }

    lemma Facts()
      requires Valid()
      ensures |cur| == |ks| && Contents() == MapOf(ks, cur)
      ensures |levels| > 0 && Leaves() == levels[0]
    {
    }

    method WriteSlot(leaf: Node, ghost i: nat, j: nat, newv: Val)
      requires Valid() && i < |levels[0]| && leaf == levels[0][i] && j < leaf.n && FANOUT * i + leaf.n <= |ks|
      modifies this`cur, leaf`vals
      ensures Valid() && cur == old(cur)[FANOUT * i + j := newv]
    {
      OnlyBottomIsLeaf(levels, ks, 0, i);
      assert LeafVals(leaf, cur, i);
      leaf.vals := leaf.vals[j := newv];
      cur := cur[FANOUT * i + j := newv];
      forall q: nat | q < |levels[0]| ensures LeafVals(levels[0][q], cur, q) && Linked(levels[0], q) {
        OnlyBottomIsLeaf(levels, ks, 0, q);
        assert old(Linked(levels[0], q));
        assert q != i ==> levels[0][q] != leaf && old(LeafVals(levels[0][q], cur, q));
      }
    }

    /** Deletion writes the value 0. */
    method Remove(k: Key) returns (hit: bool)
      requires Valid()
      modifies this`cur, Leaves()
      ensures Valid()
      ensures hit <==> k in old(Contents())
      ensures Contents() == if hit then old(Contents())[k := 0] else old(Contents())
      ensures cur == if hit then old(cur)[Live(ks, k) := 0] else old(cur)
    {
      hide Valid, MapOf;
      hit := Update(k, 0);
    }

    /** Walks the leaf chain from the start of the scan. A negative `n` takes nothing. */
    method Scan(lo: Key, n: int, sink: Val) returns (taken: int, sink': Val)
      requires Valid()
      ensures 0 <= taken <= |ks| - ScanStart(ks, lo)
      ensures taken == Min(Max0(n), |ks| - ScanStart(ks, lo))
      ensures sink' == sink ^ XorAll(cur[ScanStart(ks, lo)..ScanStart(ks, lo) + taken])
    {
      hide Valid, XorAll, ScanStart;
      Facts();
      var node, i := Descend(lo);
      if node == null {
        EmptyScan(lo);
        return 0, sink;
      }
      var idx := SkipBelow(node, lo, i);
      var acc;
      acc, taken := WalkChain(node, i, idx, n);
      sink' := sink ^ acc;
    }

    /** The outer loop of scan: leaf after leaf until enough is taken or the chain ends. */
    method WalkChain(first: Node, ghost leaf: nat, start: nat, n: int) returns (acc: Val, taken: int)
      requires Valid() && leaf < |levels[0]| && first == levels[0][leaf] && start <= first.n
      requires FANOUT * leaf + start <= |ks|
      ensures var p := FANOUT * leaf + start;
              taken == Min(Max0(n), |ks| - p) && acc == XorAll(cur[p..p + taken])
    {
      assert XorAll([]) == 0 && |levels| > 0;
      hide Shape, Distinct, TotalNodes, XorAll, Linked;
      var node: Node?, idx: nat := first, start;
      ghost var i, p := leaf, FANOUT * leaf + start;
      taken, acc := 0, 0;
      while node != null && taken < n
        invariant 0 <= taken <= Max0(n) && p + taken <= |ks| && acc == XorAll(cur[p..p + taken])
        invariant taken < n && node != null ==> OnChain(node, i, idx, p + taken)
        invariant taken < n && node == null ==> p + taken == |ks|
        decreases if node == null || taken >= n then 0 else |ks| - FANOUT * i + 1
      {
        ChainStep(node, i);
        assert LeafVals(node, cur, i);
        acc, taken := TakeFromLeaf(node, cur, i, idx, n, p, taken, acc);
        node := node.nextLeaf;
        i := i + 1;
        idx := 0;
      }
    }

    /** Position idx of leaf i is index `at` of the loaded keys. */
    ghost predicate OnChain(node: Node, i: nat, idx: nat, at: nat)
      reads this
    {
      && |levels| > 0 && i < |levels[0]| && node == levels[0][i] && idx <= node.n && at == FANOUT * i + idx
    }

    /** A leaf with a successor is full, and the last one ends the keys. */
    lemma ChainStep(node: Node, i: nat)
      requires Valid() && i < |levels[0]| && node == levels[0][i]
      ensures FANOUT * i < |ks| && node.n == Min(FANOUT, |ks| - FANOUT * i)
      ensures if FANOUT * (i + 1) < |ks| then i + 1 < |levels[0]| && node.nextLeaf == levels[0][i + 1]
              else node.nextLeaf == null
    {
      OnlyBottomIsLeaf(levels, ks, 0, i);
      assert Linked(levels[0], i) && LevelAt(levels, ks, 0);
      assert i + 1 < |levels[0]| <==> Base(0, i + 1) < |ks|;
    }

    lemma EmptyScan(lo: Key)
      requires ks == [] && cur == []
      ensures ScanStart(ks, lo) == 0 && XorAll(cur[0..0]) == 0
    {
    }

    /** The position in the covering leaf at which a scan from `lo` starts. */
    method SkipBelow(leaf: Node, lo: Key, ghost i: nat) returns (idx: nat)
      requires Valid() && i < |levels[0]| && leaf == levels[0][i] && Covers(ks, 0, i, lo)
      ensures idx <= leaf.n && FANOUT * i + idx <= |ks| && ScanStart(ks, lo) == FANOUT * i + idx
    {
      OnlyBottomIsLeaf(levels, ks, 0, i);
      idx := 0;
      while idx < leaf.n && leaf.keys[idx] < lo
        invariant idx <= leaf.n
        invariant forall q: nat :: q < idx ==> leaf.keys[q] < lo
      {
        idx := idx + 1;
      }
      if idx < leaf.n && leaf.keys[idx] == lo {
        FoundIn(i, lo, idx);
      } else {
        NotInLeaf(i, lo, idx);
      }
    }

    /** The keys below an absent `lo` end in the leaf that covers it. */
    lemma NotInLeaf(i: nat, lo: Key, idx: nat)
      requires Valid() && i < |levels[0]| && Covers(ks, 0, i, lo) && idx <= levels[0][i].n == |levels[0][i].keys|
      requires forall q: nat :: q < idx ==> levels[0][i].keys[q] < lo
      requires idx < levels[0][i].n ==> levels[0][i].keys[idx] > lo
      ensures FANOUT * i + idx <= |ks| && ScanStart(ks, lo) == FANOUT * i + idx
    {
      var leaf := levels[0][i];
      OnlyBottomIsLeaf(levels, ks, 0, i);
      forall q: nat | idx <= q < leaf.n ensures leaf.keys[q] > lo {
        assert leaf.keys[idx] == ks[FANOUT * i + idx] && leaf.keys[q] == ks[FANOUT * i + q];
      }
      FoundIn(i, lo, leaf.n);
      forall q: nat | q < |ks| ensures ks[q] < lo <==> q < FANOUT * i + idx {
        CoveredKeyInLeaf(ks, i, lo, q);
        if FANOUT * i <= q < FANOUT * i + FANOUT {
          assert leaf.keys[q - FANOUT * i] == ks[FANOUT * i + (q - FANOUT * i)];
        }
      }
      KeysBelowIs(ks, lo, FANOUT * i + idx);
    }

    /** Every way down from the root to a leaf follows height() - 1 links. */
    lemma LeavesAtOneDepth(p: seq<Node>)
      requires Valid() && Path(p) && p[0] == root
      ensures p[|p| - 1].isLeaf <==> |p| == |levels|
    {
      PathsGoDown(levels, ks, |levels| - 1, 0, p);
    }

    /** The number of levels; an empty tree reports 1. */
    method Height() returns (h: nat)
      requires Valid()
      ensures h == |levels|
      ensures ks != [] ==> |ks| <= 15 * Pow16(h - 1) && (h > 1 ==> |ks| > 15 * Pow16(h - 2))
    {
      var node := root;
      h := 0;
      ghost var d := |levels| - 1;
      ghost var i: nat := 0;
      EmptyTop(levels, ks);
      assert LevelAt(levels, ks, 0) && (0 < |levels[0]| <==> Base(0, 0) < |ks|);
      while node != null && !node.isLeaf
        invariant root == null ==> node == null && h == 0
        invariant root != null ==> 0 <= d && h + d + 1 == |levels| && i < |levels[d]| && node == levels[d][i]
        decreases d
      {
        OnlyBottomIsLeaf(levels, ks, d, i);
        node, d, i := node.children[0], d - 1, 16 * i;
        h := h + 1;
      }
      if root != null {
        OnlyBottomIsLeaf(levels, ks, d, i);
        HeightBounds(levels, ks);
      }
      h := h + 1;
    }
  }
}
