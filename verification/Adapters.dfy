/** The two built-in indexes behind the common interface, and their observational equivalence. */
module Adapters {
  import opened IndexTypes
  import opened Slots
  import opened TreeShape
  import opened BPlusTree
  import HashIndex

  // ---------- The reference: a plain map ----------

  datatype Call = Lookup(k: Key) | Update(k: Key, v: Val) | Remove(k: Key)
  datatype Reply = Value(v: Val) | Hit(b: bool)

  function ReplyOf(m: map<Key, Val>, c: Call): Reply
  {
    match c
    case Lookup(k) => Value(if k in m then m[k] else 0)
    case Update(k, _) => Hit(k in m)
    case Remove(k) => Hit(k in m)
  }

  /** Updating or removing an absent key does nothing; removing leaves the key with value 0. */
  function After(m: map<Key, Val>, c: Call): map<Key, Val>
  {
    match c
    case Lookup(_) => m
    case Update(k, v) => if k in m then m[k := v] else m
    case Remove(k) => if k in m then m[k := 0] else m
  }

  function StateAfter(m: map<Key, Val>, calls: seq<Call>): map<Key, Val>
  {
    if calls == [] then m else After(StateAfter(m, calls[..|calls| - 1]), calls[|calls| - 1])
  }

  /** The replies of the map to a sequence of calls. */
  function Replies(m: map<Key, Val>, calls: seq<Call>): seq<Reply>
  {
    if calls == [] then []
    else
      Replies(m, calls[..|calls| - 1]) + [ReplyOf(StateAfter(m, calls[..|calls| - 1]), calls[|calls| - 1])]
  }

  /** The map after inserting all pairs in order. */
  function Loaded(keys: seq<Key>, vals: seq<Val>): map<Key, Val>
    requires |keys| == |vals|
  {
    if keys == [] then map[]
    else Loaded(keys[..|keys| - 1], vals[..|keys| - 1])[keys[|keys| - 1] := vals[|keys| - 1]]
  }

  /** Equal keys come with equal values; distinct keys always do. */
  ghost predicate Consistent(keys: seq<Key>, vals: seq<Val>)
    requires |keys| == |vals|
  {
    forall i: nat, j: nat :: i < |keys| && j < |keys| && keys[i] == keys[j] ==> vals[i] == vals[j]
  }

  /** Some pair gives key k the value v. */
  ghost predicate PairIn(keys: seq<Key>, vals: seq<Val>, k: Key, v: Val)
    requires |keys| == |vals|
  {
    exists i: nat :: i < |keys| && keys[i] == k && vals[i] == v
  }

  /** m has exactly the keys of the pairs, each with the value of one of its pairs. */
  ghost predicate FromPairs(m: map<Key, Val>, keys: seq<Key>, vals: seq<Val>)
    requires |keys| == |vals|
  {
    (forall k :: k in m <==> k in keys) && forall k :: k in m ==> PairIn(keys, vals, k, m[k])
  }

  lemma {:induction false} LoadedIs(keys: seq<Key>, vals: seq<Val>)
    requires |keys| == |vals|
    ensures FromPairs(Loaded(keys, vals), keys, vals)
  {
    if keys != [] {
      var n := |keys| - 1;
      var m := Loaded(keys, vals);
      LoadedIs(keys[..n], vals[..n]);
      assert keys == keys[..n] + [keys[n]];
      forall k | k in m ensures PairIn(keys, vals, k, m[k]) {
        if k != keys[n] {
          assert PairIn(keys[..n], vals[..n], k, m[k]);
        }
      }
    }
  }

  /** Consistent pairs leave no choice. */
  lemma OnlyOneMap(keys: seq<Key>, vals: seq<Val>, m: map<Key, Val>, m': map<Key, Val>)
    requires |keys| == |vals| && Consistent(keys, vals) && FromPairs(m, keys, vals) && FromPairs(m', keys, vals)
    ensures m == m'
  {
    forall k | k in m ensures m[k] == m'[k] {
      assert PairIn(keys, vals, k, m[k]) && PairIn(keys, vals, k, m'[k]);
    }
    assert m.Keys == m'.Keys;
  }

  // ---------- B+tree ----------

  /** What std::sort may leave in `order`: every index once, in key order, equal keys in any order. */
  ghost predicate SortingOrder(keys: seq<Key>, order: seq<nat>)
  {
    && |order| == |keys|
    && (forall p :: 0 <= p < |order| ==> order[p] < |keys|)
    && (forall p, q :: 0 <= p < q < |order| ==> order[p] != order[q])
    && (forall i: nat :: i < |keys| ==> i in order)
    && InKeyOrder(keys, order)
  }

  ghost predicate InKeyOrder(keys: seq<Key>, order: seq<nat>)
  {
    forall p, q :: 0 <= p < q < |order| ==>
      order[p] < |keys| && order[q] < |keys| && keys[order[p]] <= keys[order[q]]
  }

  method SortIndices(keys: seq<Key>) returns (order: seq<nat>)
    ensures SortingOrder(keys, order)
  {
    order := [];
    for i := 0 to |keys|
      invariant SortingOrder(keys[..i], order)
    {
      hide SortingOrder;
      var at := InsertionPoint(keys, order, i);
      ghost var was := order;
      order := order[..at] + [i] + order[at..];
      InsertedSorted(keys, was, i, at, order);
    }
    assert keys[..|keys|] == keys;
  }

  method InsertionPoint(keys: seq<Key>, order: seq<nat>, i: nat) returns (at: nat)
    requires i < |keys| && SortingOrder(keys[..i], order)
    ensures at <= |order|
    ensures forall p :: 0 <= p < at ==> order[p] < |keys| && keys[order[p]] < keys[i]
    ensures at < |order| ==> order[at] < |keys| && keys[order[at]] >= keys[i]
  {
    OrderInRange(keys[..i], order);
    hide SortingOrder;
    at := 0;
    while at < |order| && keys[order[at]] < keys[i]
      invariant at <= |order|
      invariant forall p :: 0 <= p < at ==> keys[order[p]] < keys[i]
    {
      at := at + 1;
    }
  }

  lemma InsertedSorted(keys: seq<Key>, was: seq<nat>, i: nat, at: nat, order: seq<nat>)
    requires i < |keys| && SortingOrder(keys[..i], was) && at <= |was|
    requires forall p :: 0 <= p < at ==> was[p] < |keys| && keys[was[p]] < keys[i]
    requires at < |was| ==> was[at] < |keys| && keys[was[at]] >= keys[i]
    requires order == was[..at] + [i] + was[at..]
    ensures SortingOrder(keys[..i + 1], order)
  {
    var ks := keys[..i + 1];
    forall j: nat | j < |ks| ensures j in order {
      if j < i {
        assert j in was;
        var p :| 0 <= p < |was| && was[p] == j;
        assert order[if p < at then p else p + 1] == j;
      } else {
        assert order[at] == i;
      }
    }
    forall p, q | 0 <= p < q < |order|
      ensures order[p] < |ks| && order[q] < |ks| && order[p] != order[q] && ks[order[p]] <= ks[order[q]]
    {
      InsertedPair(keys, was, i, at, order, p, q);
    }
  }

  lemma InsertedPair(keys: seq<Key>, was: seq<nat>, i: nat, at: nat, order: seq<nat>, p: nat, q: nat)
    requires i < |keys| && SortingOrder(keys[..i], was) && at <= |was|
    requires forall p :: 0 <= p < at ==> was[p] < |keys| && keys[was[p]] < keys[i]
    requires at < |was| ==> was[at] < |keys| && keys[was[at]] >= keys[i]
    requires order == was[..at] + [i] + was[at..] && p < q < |order|
    ensures order[p] <= i && order[q] <= i && order[p] != order[q] && keys[order[p]] <= keys[order[q]]
  {
    if p == at {
      assert order[q] == was[q - 1] && was[q - 1] < i;
      assert at < q - 1 ==> keys[..i][was[at]] <= keys[..i][was[q - 1]];
    } else if q == at {
      assert order[p] == was[p];
    } else {
      var p', q' := if p < at then p else p - 1, if q < at then q else q - 1;
      assert order[p] == was[p'] && order[q] == was[q'];
      assert keys[..i][was[p']] <= keys[..i][was[q']];
    }
  }

  /** The elements of xs in the order of the indices. */
  function Permuted<T>(xs: seq<T>, order: seq<nat>): seq<T>
    requires forall p :: 0 <= p < |order| ==> order[p] < |xs|
  {
    seq(|order|, (p: nat) requires p < |order| && (forall p :: 0 <= p < |order| ==> order[p] < |xs|) => xs[order[p]])
  }

  /** The tree's map after loading the pairs in a given order. */
  ghost function TreeMap(keys: seq<Key>, vals: seq<Val>, order: seq<nat>): map<Key, Val>
    requires |keys| == |vals| && SortingOrder(keys, order)
  {
    MapOf(Permuted(keys, order), Permuted(vals, order))
  }

  lemma TreeMapIsFromPairs(keys: seq<Key>, vals: seq<Val>, order: seq<nat>)
    requires |keys| == |vals| && SortingOrder(keys, order)
    ensures Sorted(Permuted(keys, order)) && FromPairs(TreeMap(keys, vals, order), keys, vals)
  {
    hide Live;
    var sk, m := Permuted(keys, order), TreeMap(keys, vals, order);
    forall k | k in keys ensures k in sk {
      var i: nat :| i < |keys| && keys[i] == k;
      assert i in order;
      var p :| 0 <= p < |order| && order[p] == i;
      assert sk[p] == k;
    }
    forall k | k in sk ensures k in keys && PairIn(keys, vals, k, m[k]) {
      var i := order[Live(sk, k)];
      assert keys[i] == k && vals[i] == m[k];
    }
  }

  /** The adapter's bulk_load: co-sort keys and values, then load the tree. */
  method LoadTree(keys: seq<Key>, vals: seq<Val>) returns (t: BPlusTree)
    requires |keys| == |vals|
    ensures t.Valid() && fresh(t) && fresh(t.Leaves()) && t.leaked == 0
    ensures FromPairs(t.Contents(), keys, vals)
    ensures Consistent(keys, vals) ==> t.Contents() == Loaded(keys, vals)
  {
    hide BPlusTree.Valid, MapOf, Loaded, SortingOrder, FromPairs, Consistent;
    var order := SortIndices(keys);
    OrderInRange(keys, order);
    var sk: seq<Key>, sv: seq<Val> := [], [];
    for i := 0 to |order|
      invariant |sk| == |sv| == i
      invariant forall p :: 0 <= p < i ==> sk[p] == keys[order[p]] && sv[p] == vals[order[p]]
    {
      sk := sk + [keys[order[i]]];
      sv := sv + [vals[order[i]]];
    }
    assert sk == Permuted(keys, order) && sv == Permuted(vals, order);
    TreeMapIsFromPairs(keys, vals, order);
    t := new BPlusTree();
    t.BulkLoad(sk, sv);
    LoadedIs(keys, vals);
    if Consistent(keys, vals) {
      OnlyOneMap(keys, vals, TreeMap(keys, vals, order), Loaded(keys, vals));
    }
  }

  lemma OrderInRange(keys: seq<Key>, order: seq<nat>)
    requires SortingOrder(keys, order)
    ensures |order| == |keys| && forall p :: 0 <= p < |order| ==> order[p] < |keys|
  {
  }

  method CallTree(t: BPlusTree, c: Call) returns (r: Reply)
    requires t.Valid()
    modifies t`cur, t.Leaves()
    ensures t.Valid()
    ensures r == ReplyOf(old(t.Contents()), c)
    ensures t.Contents() == After(old(t.Contents()), c)
  {
    hide BPlusTree.Valid, BPlusTree.Contents;
    match c
    case Lookup(k) =>
      var v := t.Lookup(k);
      r := Value(v);
    case Update(k, v) =>
      var hit := t.Update(k, v);
      r := Hit(hit);
    case Remove(k) =>
      var hit := t.Remove(k);
      r := Hit(hit);
  }

  method RunTree(t: BPlusTree, calls: seq<Call>) returns (rs: seq<Reply>)
    requires t.Valid()
    modifies t`cur, t.Leaves()
    ensures t.Valid() && rs == Replies(old(t.Contents()), calls)
  {
    hide BPlusTree.Valid, BPlusTree.Contents;
    ghost var m := t.Contents();
    rs := [];
    for i := 0 to |calls|
      invariant t.Valid() && rs == Replies(m, calls[..i]) && t.Contents() == StateAfter(m, calls[..i])
    {
      assert calls[..i + 1][..i] == calls[..i];
      var r := CallTree(t, calls[i]);
      rs := rs + [r];
    }
    assert calls[..|calls|] == calls;
  }

  // ---------- Hash table ----------

  /** The interface's default bulk_load: insert one pair after the other. */
  method LoadHash(keys: seq<Key>, vals: seq<Val>, bucketCount: nat, shift: nat) returns (h: HashIndex.HashIndex)
    requires |keys| == |vals| && bucketCount <= Pow2(63)
    ensures h.Valid() && fresh(h) && fresh(h.repr) && h.contents == Loaded(keys, vals)
  {
    hide HashIndex.HashIndex.Valid;
    h := new HashIndex.HashIndex(bucketCount, shift);
    for i := 0 to |keys|
      invariant h.Valid() && fresh(h.repr) && h.contents == Loaded(keys[..i], vals[..i])
    {
      assert keys[..i + 1][..i] == keys[..i] && vals[..i + 1][..i] == vals[..i];
      var isNew := h.Insert(keys[i], vals[i]);
    }
    assert keys[..|keys|] == keys && vals[..|keys|] == vals;
  }

  method CallHash(h: HashIndex.HashIndex, c: Call) returns (r: Reply)
    requires h.Valid()
    modifies h, h.repr
    ensures h.Valid() && h.repr == old(h.repr)
    ensures r == ReplyOf(old(h.contents), c) && h.contents == After(old(h.contents), c)
  {
    hide HashIndex.HashIndex.Valid;
    match c
    case Lookup(k) =>
      var v := h.Lookup(k);
      r := Value(v);
    case Update(k, v) =>
      var hit := h.Update(k, v);
      r := Hit(hit);
    case Remove(k) =>
      var hit := h.Remove(k);
      r := Hit(hit);
  }

  method RunHash(h: HashIndex.HashIndex, calls: seq<Call>) returns (rs: seq<Reply>)
    requires h.Valid()
    modifies h, h.repr
    ensures h.Valid() && rs == Replies(old(h.contents), calls)
  {
    hide HashIndex.HashIndex.Valid;
    ghost var m := h.contents;
    rs := [];
    for i := 0 to |calls|
      invariant h.Valid() && h.repr == old(h.repr)
      invariant rs == Replies(m, calls[..i]) && h.contents == StateAfter(m, calls[..i])
    {
      assert calls[..i + 1][..i] == calls[..i];
      var r := CallHash(h, calls[i]);
      rs := rs + [r];
    }
    assert calls[..|calls|] == calls;
  }

  // ---------- Hash table with inserts ----------

  /** The hash table also takes inserts, in any order with the other calls. */
  datatype TableCall = Insert(k: Key, v: Val) | Other(call: Call)

  function TableReply(m: map<Key, Val>, c: TableCall): Reply
  {
    match c
    case Insert(k, _) => Hit(k !in m)
    case Other(call) => ReplyOf(m, call)
  }

  function TableAfter(m: map<Key, Val>, c: TableCall): map<Key, Val>
  {
    match c
    case Insert(k, v) => m[k := v]
    case Other(call) => After(m, call)
  }

  function TableState(calls: seq<TableCall>): map<Key, Val>
  {
    if calls == [] then map[] else TableAfter(TableState(calls[..|calls| - 1]), calls[|calls| - 1])
  }

  function TableReplies(calls: seq<TableCall>): seq<Reply>
  {
    if calls == [] then []
    else TableReplies(calls[..|calls| - 1]) + [TableReply(TableState(calls[..|calls| - 1]), calls[|calls| - 1])]
  }

  method CallTable(h: HashIndex.HashIndex, c: TableCall) returns (r: Reply)
    requires h.Valid()
    modifies h, h.repr
    ensures h.Valid() && fresh(h.repr - old(h.repr))
    ensures r == TableReply(old(h.contents), c) && h.contents == TableAfter(old(h.contents), c)
  {
    hide HashIndex.HashIndex.Valid;
    match c
    case Insert(k, v) =>
      var isNew := h.Insert(k, v);
      r := Hit(isNew);
    case Other(call) => r := CallHash(h, call);
  }

  /** After every sequence of inserts, lookups, updates and removes on a new table: the replies and the
      contents are the map's, and buckets and counters are in order. */
  method RunTable(bucketCount: nat, shift: nat, calls: seq<TableCall>) returns (h: HashIndex.HashIndex, rs: seq<Reply>)
    requires bucketCount <= Pow2(63)
    ensures h.Valid() && h.InOrder() && h.contents == TableState(calls) && rs == TableReplies(calls)
  {
    hide HashIndex.HashIndex.Valid, HashIndex.HashIndex.InOrder;
    h := new HashIndex.HashIndex(bucketCount, shift);
    rs := [];
    for i := 0 to |calls|
      invariant h.Valid() && fresh(h.repr) && h.contents == TableState(calls[..i]) && rs == TableReplies(calls[..i])
    {
      assert calls[..i + 1][..i] == calls[..i];
      var r := CallTable(h, calls[i]);
      rs := rs + [r];
    }
    assert calls[..|calls|] == calls;
    h.Census();
  }

  // ---------- Equivalence ----------

  /** Loaded from the same pairs in any order, the two indexes reply alike to every sequence of
      calls, and as the plain map does. */
  method Equivalent(keys: seq<Key>, vals: seq<Val>, bucketCount: nat, shift: nat, calls: seq<Call>)
    returns (fromTree: seq<Reply>, fromHash: seq<Reply>)
    requires |keys| == |vals| && Consistent(keys, vals) && bucketCount <= Pow2(63)
    ensures fromTree == fromHash == Replies(Loaded(keys, vals), calls)
  {
    var t := LoadTree(keys, vals);
    fromTree := RunTree(t, calls);
    var h := LoadHash(keys, vals, bucketCount, shift);
    fromHash := RunHash(h, calls);
  }

  /** Exchanging two indices with equal keys. */
  function Swapped(order: seq<nat>, p: nat, q: nat): seq<nat>
    requires p < |order| && q < |order|
  {
    order[p := order[q]][q := order[p]]
  }

  lemma SwappedStillSorts(keys: seq<Key>, order: seq<nat>, p: nat, q: nat)
    requires SortingOrder(keys, order) && p < |order| && q < |order| && keys[order[p]] == keys[order[q]]
    ensures SortingOrder(keys, Swapped(order, p, q)) && Permuted(keys, Swapped(order, p, q)) == Permuted(keys, order)
  {
    var order' := Swapped(order, p, q);
    forall i: nat | i < |keys| ensures i in order' {
      assert i in order;
      var a :| 0 <= a < |order| && order[a] == i;
      assert order'[if a == p then q else if a == q then p else a] == i;
    }
  }

  /** Any pair of a key can be the one the tree ends up with. */
  lemma AnyPairCanWin(keys: seq<Key>, vals: seq<Val>, order: seq<nat>, i: nat) returns (order': seq<nat>)
    requires |keys| == |vals| && SortingOrder(keys, order) && i < |keys|
    ensures SortingOrder(keys, order') && keys[i] in TreeMap(keys, vals, order')
    ensures TreeMap(keys, vals, order')[keys[i]] == vals[i]
  {
    hide Live;
    var sk := Permuted(keys, order);
    assert i in order;
    var q :| 0 <= q < |order| && order[q] == i;
    assert sk[q] == keys[i];
    var p := Live(sk, keys[i]);
    order' := Swapped(order, p, q);
    SwappedStillSorts(keys, order, p, q);
    assert Permuted(vals, order')[p] == vals[i];
  }

  /** The condition is exact: the tree holds the hash table's map whatever std::sort does with equal
      keys, if and only if equal keys come with equal values. */
  lemma SameMapIff(keys: seq<Key>, vals: seq<Val>, some: seq<nat>)
    requires |keys| == |vals| && SortingOrder(keys, some)
    ensures (forall order | SortingOrder(keys, order) :: TreeMap(keys, vals, order) == Loaded(keys, vals))
            <==> Consistent(keys, vals)
  {
    LoadedIs(keys, vals);
    if Consistent(keys, vals) {
      forall order | SortingOrder(keys, order) ensures TreeMap(keys, vals, order) == Loaded(keys, vals) {
        TreeMapIsFromPairs(keys, vals, order);
        OnlyOneMap(keys, vals, TreeMap(keys, vals, order), Loaded(keys, vals));
      }
    } else {
      var i: nat, j: nat :| i < |keys| && j < |keys| && keys[i] == keys[j] && vals[i] != vals[j];
      var a := AnyPairCanWin(keys, vals, some, i);
      var b := AnyPairCanWin(keys, vals, some, j);
    }
  }

  /** Two pairs with one key: leaving them in place is a way to sort them, and then the tree keeps the
      earlier pair and the hash table the later one. */
  lemma DuplicatesDisagree(keys: seq<Key>, vals: seq<Val>, order: seq<nat>)
    requires |keys| == |vals| == |order| == 2 && keys[0] == keys[1] && vals[0] != vals[1]
    requires order[0] == 0 && order[1] == 1
    ensures SortingOrder(keys, order) && keys[0] in TreeMap(keys, vals, order) && keys[0] in Loaded(keys, vals)
    ensures TreeMap(keys, vals, order)[keys[0]] == vals[0] && Loaded(keys, vals)[keys[0]] == vals[1]
  {
    hide Live;
    assert SortingOrder(keys, order);
    var sk := Permuted(keys, order);
    assert sk[0] == keys[0];
    LiveIs(sk, keys[0], 0, 0);
  }
}
