/** Bucket chains of the hash index in hash_index.hpp. A chain holds a row of entries in insertion
    order, four to a bucket. */
module HashChains {
  import opened IndexTypes
  import opened Xor

  type Row = seq<(Key, Val)>

  const INLINE_SLOTS: nat := 4

  class Bucket {
    var n: nat
    var keys: seq<Key>
    var vals: seq<Val>
    var next: Bucket?

    constructor ()
      ensures n == 0 && keys == [] && vals == [] && next == null
    {
      n, keys, vals, next := 0, [], [], null;
    }
  }

  /** Buckets a row of `count` entries occupies: ceil(count / 4), but at least the head. */
  function ChainLength(count: nat): (len: nat)
    ensures len >= 1
  {
    if count == 0 then 1 else (count + 3) / 4
  }

  ghost predicate BucketAt(chain: seq<Bucket>, row: Row, j: nat)
    requires j < |chain|
    reads chain[j]
  {
    var b := chain[j];
    && 4 * j <= |row|
    && b.n == |b.keys| == |b.vals| == Min(INLINE_SLOTS, |row| - 4 * j)
    && (forall s: nat :: s < b.n ==> b.keys[s] == row[4 * j + s].0 && b.vals[s] == row[4 * j + s].1)
    && b.next == if j + 1 < |chain| then chain[j + 1] else null
  }

  ghost predicate ChainOk(chain: seq<Bucket>, row: Row)
    reads chain
  {
    && |chain| == ChainLength(|row|)
    && (forall j: nat :: j < |chain| ==> BucketAt(chain, row, j))
    && (forall i, j :: 0 <= i < j < |chain| ==> chain[i] != chain[j])
  }

  ghost predicate Absent(row: Row, k: Key)
  {
    forall q :: 0 <= q < |row| ==> row[q].0 != k
  }

  /** The search loop of insert, lookup and update. */
  method FindInChain(head: Bucket, k: Key, ghost chain: seq<Bucket>, ghost row: Row)
    returns (b: Bucket?, s: nat, ghost j: nat)
    requires ChainOk(chain, row) && head == chain[0]
    ensures b == null ==> Absent(row, k)
    ensures b != null ==> j < |chain| && b == chain[j] && s < b.n && 4 * j + s < |row| && row[4 * j + s].0 == k
  {
    b, j, s := head, 0, 0;
    while b != null
      invariant b == null ==> j == |chain|
      invariant b != null ==> j < |chain| && b == chain[j]
      invariant forall q :: 0 <= q < |row| && q < 4 * j ==> row[q].0 != k
      decreases |chain| - j
    {
      assert BucketAt(chain, row, j);
      s := 0;
      while s < b.n
        invariant s <= b.n
        invariant forall q: nat :: q < s ==> b.keys[q] != k
      {
        if b.keys[s] == k { return; }
        s := s + 1;
      }
      forall q | 0 <= q < |row| && 4 * j <= q < 4 * j + 4 ensures row[q].0 != k {
        assert b.keys[q - 4 * j] == row[4 * j + (q - 4 * j)].0;
      }
      b := b.next;
      j := j + 1;
    }
  }

  /** Writing one value of a chain in place. */
  method SetValue(b: Bucket, s: nat, v: Val, ghost chain: seq<Bucket>, ghost row: Row, ghost j: nat)
    requires ChainOk(chain, row) && j < |chain| && b == chain[j] && s < b.n && 4 * j + s < |row|
    modifies b`vals
    ensures ChainOk(chain, row[4 * j + s := (row[4 * j + s].0, v)])
  {
    assert BucketAt(chain, row, j);
    b.vals := b.vals[s := v];
    ghost var row' := row[4 * j + s := (row[4 * j + s].0, v)];
    forall i: nat | i < |chain| ensures BucketAt(chain, row', i) {
      assert old(BucketAt(chain, row, i));
    }
  }

  /** The part of insert after a failed search: walk to the last bucket, add one if it is full. */
  method Append(head: Bucket, k: Key, v: Val, ghost chain: seq<Bucket>, ghost row: Row)
    returns (grew: bool, ghost chain': seq<Bucket>)
    requires ChainOk(chain, row) && head == chain[0]
    modifies chain
    ensures ChainOk(chain', row + [(k, v)])
    ensures grew <==> |chain'| == |chain| + 1
    ensures if grew then |chain'| > 0 && chain'[..|chain|] == chain && fresh(chain'[|chain|]) else chain' == chain
  {
    var tail := head;
    ghost var j := 0;
    while tail.n == INLINE_SLOTS && tail.next != null
      invariant j < |chain| && tail == chain[j]
      decreases |chain| - j
    {
      assert BucketAt(chain, row, j);
      tail := tail.next;
      j := j + 1;
    }
    assert BucketAt(chain, row, j);
    chain', grew := chain, false;
    if tail.n == INLINE_SLOTS {
      var fresh_ := new Bucket();
      tail.next := fresh_;
      tail := fresh_;
      grew := true;
      chain' := chain + [fresh_];
    }
    tail.keys := tail.keys + [k];
    tail.vals := tail.vals + [v];
    tail.n := tail.n + 1;
    ghost var row' := row + [(k, v)];
    forall i: nat | i < |chain'| ensures BucketAt(chain', row', i) {
      assert i < |chain| ==> old(BucketAt(chain, row, i));
      assert i < j ==> chain'[i] != tail;
    }
  }

  /** The values of a row in insertion order. */
  function Vals(row: Row): (vs: seq<Val>)
    ensures |vs| == |row| && forall i :: 0 <= i < |row| ==> vs[i] == row[i].1
  {
    seq(|row|, (i: nat) requires i < |row| => row[i].1)
  }

  /** The walk of scan along one chain. */
  method XorPrefix(head: Bucket, n: int, ghost chain: seq<Bucket>, ghost row: Row) returns (acc: Val, taken: int)
    requires ChainOk(chain, row) && head == chain[0]
    ensures taken == Min(Max0(n), |row|) && acc == XorAll(Vals(row)[..taken])
  {
    var b: Bucket? := head;
    ghost var j := 0;
    acc, taken := 0, 0;
    while b != null && taken < n
      invariant 0 <= taken <= Max0(n) && taken <= |row| && acc == XorAll(Vals(row)[..taken])
      invariant taken < n && b != null ==> j < |chain| && b == chain[j] && taken == 4 * j
      invariant taken < n && b == null ==> taken == |row|
      decreases if b == null || taken >= n then 0 else |chain| - j + 1
    {
      assert BucketAt(chain, row, j);
      acc, taken := XorBucket(b, n, taken, acc, chain, row, j);
      b := b.next;
      j := j + 1;
    }
  }

  method XorBucket(b: Bucket, n: int, already: nat, acc0: Val, ghost chain: seq<Bucket>, ghost row: Row, ghost j: nat)
    returns (acc: Val, taken: nat)
    requires j < |chain| && b == chain[j] && BucketAt(chain, row, j)
    requires already == 4 * j < n && acc0 == XorAll(Vals(row)[..already])
    ensures taken == Min(n, already + b.n) <= |row| && acc == XorAll(Vals(row)[..taken])
  {
    hide XorAll, Vals;
    var i := 0;
    acc, taken := acc0, already;
    while i < b.n && taken < n
      invariant i <= b.n && taken == 4 * j + i <= |row| && taken <= n && acc == XorAll(Vals(row)[..taken])
    {
      XorSnoc(Vals(row), 0, taken);
      acc := acc ^ b.vals[i];
      i := i + 1;
      taken := taken + 1;
    }
  }

  /** The counting walk of occupancy_stats along one chain. */
  method CountChain(head: Bucket, ghost chain: seq<Bucket>, ghost row: Row) returns (cnt: nat)
    requires ChainOk(chain, row) && head == chain[0]
    ensures cnt == |row|
  {
    var b: Bucket? := head;
    ghost var j := 0;
    cnt := 0;
    while b != null
      invariant if b == null then cnt == |row| else j < |chain| && b == chain[j] && cnt == 4 * j
      decreases |chain| - j
    {
      assert BucketAt(chain, row, j);
      cnt := cnt + b.n;
      b := b.next;
      j := j + 1;
    }
  }
}
