/** Destruction of the B+tree: the recursive walk frees every allocated node exactly once. */
module TreeTeardown {
  import opened IndexTypes
  import opened TreeShape
  import opened BPlusTree

  /** The nodes of the subtree under node i of level d, with multiplicity. */
  ghost function Under(levels: seq<seq<Node>>, d: nat, i: nat): multiset<Node>
    requires d < |levels| && i < |levels[d]|
    decreases d, 0
  {
    multiset{levels[d][i]}
    + if d == 0 then multiset{}
      else UnderRange(levels, d - 1, Min(16 * i, |levels[d - 1]|), Min(16 * i + 16, |levels[d - 1]|))
  }

  /** The nodes under nodes lo..hi of level d. */
  ghost function UnderRange(levels: seq<seq<Node>>, d: nat, lo: nat, hi: nat): multiset<Node>
    requires d < |levels| && lo <= hi <= |levels[d]|
    decreases d, 1, hi
  {
    if lo == hi then multiset{} else UnderRange(levels, d, lo, hi - 1) + Under(levels, d, hi - 1)
  }

  lemma {:induction false} UnderRangeSplit(levels: seq<seq<Node>>, d: nat, lo: nat, mid: nat, hi: nat)
    requires d < |levels| && lo <= mid <= hi <= |levels[d]|
    ensures UnderRange(levels, d, lo, hi) == UnderRange(levels, d, lo, mid) + UnderRange(levels, d, mid, hi)
    decreases hi
  {
    if mid < hi {
      UnderRangeSplit(levels, d, lo, mid, hi - 1);
    }
  }

  /** All nodes of levels 0..d. */
  ghost function AllNodes(levels: seq<seq<Node>>): multiset<Node>
  {
    if levels == [] then multiset{} else AllNodes(levels[..|levels| - 1]) + multiset(levels[|levels| - 1])
  }

  lemma LastOfRange(levels: seq<seq<Node>>, d: nat, hi: nat, m: nat, m': nat)
    requires 0 < d < |levels| && 0 < hi <= |levels[d]|
    requires m == Min(16 * (hi - 1), |levels[d - 1]|) && m' == Min(16 * hi, |levels[d - 1]|)
    ensures UnderRange(levels, d, 0, hi)
            == UnderRange(levels, d, 0, hi - 1) + (multiset{levels[d][hi - 1]} + UnderRange(levels, d - 1, m, m'))
  {
  }

  /** The first `hi` nodes of a level and everything under them. */
  lemma {:induction false} RangeByLevel(levels: seq<seq<Node>>, d: nat, hi: nat, tops: seq<Node>, m': nat)
    requires 0 < d < |levels| && hi <= |levels[d]| && tops == levels[d][..hi] && m' == Min(16 * hi, |levels[d - 1]|)
    ensures UnderRange(levels, d, 0, hi) == multiset(tops) + UnderRange(levels, d - 1, 0, m')
  {
    if hi > 0 {
      var m := Min(16 * (hi - 1), |levels[d - 1]|);
      RangeByLevel(levels, d, hi - 1, levels[d][..hi - 1], m);
      UnderRangeSplit(levels, d - 1, 0, m, m');
      LastOfRange(levels, d, hi, m, m');
      assert tops == levels[d][..hi - 1] + [levels[d][hi - 1]];
    }
  }

  lemma {:induction false} BottomRange(levels: seq<seq<Node>>, hi: nat)
    requires 0 < |levels| && hi <= |levels[0]|
    ensures UnderRange(levels, 0, 0, hi) == multiset(levels[0][..hi])
  {
    if hi > 0 {
      BottomRange(levels, hi - 1);
      assert levels[0][..hi] == levels[0][..hi - 1] + [levels[0][hi - 1]];
    }
  }

  /** Everything under a whole level is all nodes from that level down. */
  lemma {:induction false} WholeLevel(levels: seq<seq<Node>>, ks: seq<Key>, d: nat)
    requires Shape(levels, ks) && d < |levels|
    ensures UnderRange(levels, d, 0, |levels[d]|) == AllNodes(levels[..d + 1])
  {
    assert levels[d][..|levels[d]|] == levels[d];
    assert levels[..d + 1][..d] == levels[..d];
    if d == 0 {
      BottomRange(levels, |levels[0]|);
    } else {
      GroupsCover(levels, ks, d);
      RangeByLevel(levels, d, |levels[d]|, levels[d], |levels[d - 1]|);
      WholeLevel(levels, ks, d - 1);
    }
  }

  /** Every node of a level is a child of the level above. */
  lemma GroupsCover(levels: seq<seq<Node>>, ks: seq<Key>, d: nat)
    requires Shape(levels, ks) && 0 < d < |levels|
    ensures 16 * |levels[d]| >= |levels[d - 1]|
  {
    assert LevelAt(levels, ks, d) && LevelAt(levels, ks, d - 1);
    assert !(|levels[d]| < |levels[d]|);
    assert Base(d, |levels[d]|) == Base(d - 1, 16 * |levels[d]|);
  }

  /** destroy: frees the subtrees of the children from left to right, then the node. */
  method Destroy(node: Node, ghost levels: seq<seq<Node>>, ghost ks: seq<Key>, ghost d: nat, ghost i: nat)
    returns (freed: seq<Node>)
    requires Shape(levels, ks) && d < |levels| && i < |levels[d]| && node == levels[d][i]
    ensures multiset(freed) == Under(levels, d, i)
    decreases d
  {
    OnlyBottomIsLeaf(levels, ks, d, i);
    freed := [];
    if !node.isLeaf {
      var j := 0;
      while j <= node.n
        invariant 0 <= j <= node.n + 1
        invariant multiset(freed) == UnderRange(levels, d - 1, 16 * i, 16 * i + j)
      {
        var below := Destroy(node.children[j], levels, ks, d - 1, 16 * i + j);
        freed := freed + below;
        j := j + 1;
      }
    }
    freed := freed + [node];
  }

  // ---------- Exactly once ----------

  lemma {:induction false} AtMostOnce(levels: seq<seq<Node>>, x: Node)
    requires Distinct(levels)
    ensures AllNodes(levels)[x] <= 1
    ensures x in AllNodes(levels) <==> exists d: nat, i: nat :: d < |levels| && i < |levels[d]| && levels[d][i] == x
  {
    if levels != [] {
      var pre, last := levels[..|levels| - 1], levels[|levels| - 1];
      AtMostOnce(pre, x);
      forall i, j | 0 <= i < j < |last| ensures last[i] != last[j] {
        assert levels[|levels| - 1][i] != levels[|levels| - 1][j];
      }
      OnceInSeq(last, x);
      if x in last {
        var i: nat :| i < |last| && last[i] == x;
        assert levels[|levels| - 1][i] == x;
      }
      assert forall d: nat, i: nat :: d < |pre| && i < |pre[d]| ==> pre[d][i] == levels[d][i];
    }
  }

  lemma {:induction false} OnceInSeq(s: seq<Node>, x: Node)
    requires forall i, j :: 0 <= i < j < |s| ==> s[i] != s[j]
    ensures multiset(s)[x] <= 1
  {
    if s != [] {
      var pre := s[..|s| - 1];
      OnceInSeq(pre, x);
      assert s == pre + [s[|s| - 1]];
      if s[|s| - 1] == x {
        assert x !in pre;
      }
    }
  }

  lemma {:induction false} AllNodesSize(levels: seq<seq<Node>>)
    ensures |AllNodes(levels)| == TotalNodes(levels)
  {
    if levels != [] {
      AllNodesSize(levels[..|levels| - 1]);
    }
  }

  lemma NoRepeats(s: seq<Node>, i: nat, j: nat)
    requires i < j < |s| && forall x :: multiset(s)[x] <= 1
    ensures s[i] != s[j]
  {
    assert s == s[..j] + s[j..];
    assert multiset(s)[s[j]] == multiset(s[..j])[s[j]] + multiset(s[j..])[s[j]];
    assert s[j] in s[j..] by { assert s[j..][0] == s[j]; }
    assert s[i] in s[..j] by { assert s[..j][i] == s[i]; }
  }

  /** ~BPlusTree frees every node of the last load, each once. That is all node_count nodes exactly if
      no earlier load left any behind. */
  method DestroyTree(t: BPlusTree) returns (freed: seq<Node>)
    requires t.Valid()
    ensures |freed| + t.leaked == t.nodeCount
    ensures forall i, j :: 0 <= i < j < |freed| ==> freed[i] != freed[j]
    ensures forall x :: x in freed <==>
              exists d: nat, i: nat :: d < |t.levels| && i < |t.levels[d]| && t.levels[d][i] == x
  {
    ghost var levels, ks := t.levels, t.ks;
    ghost var top := |levels| - 1;
    EmptyTop(levels, ks);
    assert levels[..top + 1] == levels;
    WholeLevel(levels, ks, top);
    if t.root == null {
      freed := [];
    } else {
      freed := Destroy(t.root, levels, ks, top, 0);
      assert UnderRange(levels, top, 0, 1) == UnderRange(levels, top, 0, 0) + Under(levels, top, 0);
    }
    assert multiset(freed) == AllNodes(levels);
    AllNodesSize(levels);
    forall x ensures multiset(freed)[x] <= 1 && (x in freed <==> x in AllNodes(levels)) {
      AtMostOnce(levels, x);
    }
    forall x ensures x in freed <==> exists d: nat, i: nat :: d < |levels| && i < |levels[d]| && levels[d][i] == x {
      AtMostOnce(levels, x);
    }
    forall i, j | 0 <= i < j < |freed| ensures freed[i] != freed[j] {
      NoRepeats(freed, i, j);
    }
  }
}
