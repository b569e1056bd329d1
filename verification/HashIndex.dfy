/** The chained hash table of hash_index.hpp. */
module HashIndex {
  import opened IndexTypes
  import opened Xor
  import opened Slots
  import opened QueueSizing
  import opened HashChains

  function ShiftRight(k: nat, bits: nat): nat
    decreases bits
  {
    if bits == 0 then k else ShiftRight(k / 2, bits - 1)
  }

  /** `(k >> shift) & (nb - 1)` for a power of two nb. */
  function IndexOf(k: Key, shift: nat, nb: nat): (i: nat)
    requires nb > 0
    ensures i < nb
  {
    Slot(ShiftRight(k, shift), nb)
  }

  lemma HalveThenDivide(k: nat, p: nat)
    requires p > 0
    ensures (k / 2) / p == k / (2 * p)
  {
    var q, r := (k / 2) / p, (k / 2) % p;
    assert k == q * (2 * p) + (2 * r + k % 2) by { assert q * (2 * p) == 2 * (q * p); }
    DivModUnique(k, 2 * p, q, 2 * r + k % 2);
  }

  lemma {:induction false} ShiftIsDivision(k: nat, bits: nat)
    ensures ShiftRight(k, bits) == k / Pow2(bits)
    decreases bits
  {
    if bits > 0 {
      ShiftIsDivision(k / 2, bits - 1);
      HalveThenDivide(k, Pow2(bits - 1));
    }
  }

  /** The chain of a key in a table of 2^j buckets: drop the low `shift` bits, keep the next j. */
  lemma IndexOfIsBits(k: Key, shift: nat, j: nat)
    ensures IndexOf(k, shift, Pow2(j)) == And(k / Pow2(shift), Pow2(j) - 1)
  {
    ShiftIsDivision(k, shift);
    SlotIsMask(k / Pow2(shift), j);
  }

  // ---------- The rows of all chains as a map ----------

  ghost predicate RowOk(row: Row, i: nat, m: map<Key, Val>, shift: nat, nb: nat)
    requires nb > 0
  {
    && (forall q :: 0 <= q < |row| ==> row[q].0 in m && m[row[q].0] == row[q].1 && IndexOf(row[q].0, shift, nb) == i)
    && (forall p, q :: 0 <= p < q < |row| ==> row[p].0 != row[q].0)
  }

  /** Every entry is in the chain its key hashes to, no key twice, and the entries are m. */
  ghost predicate RowsAre(rows: seq<Row>, m: map<Key, Val>, shift: nat)
  {
    && |rows| > 0
    && (forall i: nat :: i < |rows| ==> RowOk(rows[i], i, m, shift, |rows|))
    && (forall k :: k in m ==> !Absent(rows[IndexOf(k, shift, |rows|)], k))
  }

  function Total(rows: seq<Row>): nat
  {
    if rows == [] then 0 else Total(rows[..|rows| - 1]) + |rows[|rows| - 1]|
  }

  /** Buckets beyond the heads: the sum over chains of max(0, ceil(count / 4) - 1). */
  function Overflow(rows: seq<Row>): nat
  {
    if rows == [] then 0 else Overflow(rows[..|rows| - 1]) + (ChainLength(|rows[|rows| - 1]|) - 1)
  }

  /** How many chains hold more than t entries. */
  function Longer(rows: seq<Row>, t: nat): nat
  {
    if rows == [] then 0 else Longer(rows[..|rows| - 1], t) + if |rows[|rows| - 1]| > t then 1 else 0
  }

  lemma {:induction false} LongerCounts(rows: seq<Row>, t: nat)
    ensures Longer(rows, t) == |set i: nat | i < |rows| && |rows[i]| > t|
  {
    if rows != [] {
      var n := |rows| - 1;
      LongerCounts(rows[..n], t);
      var before := set i: nat | i < n && |rows[..n][i]| > t;
      var after := set i: nat | i < |rows| && |rows[i]| > t;
      assert after == before + if |rows[n]| > t then {n} else {};
    }
  }

  lemma {:induction false} SumsAfter(rows: seq<Row>, i: nat, row: Row)
    requires i < |rows|
    ensures Total(rows[i := row]) == Total(rows) - |rows[i]| + |row|
    ensures Overflow(rows[i := row]) == Overflow(rows) - ChainLength(|rows[i]|) + ChainLength(|row|)
  {
    var n := |rows| - 1;
    if i == n {
      assert rows[i := row][..n] == rows[..n];
    } else {
      SumsAfter(rows[..n], i, row);
      assert rows[i := row][..n] == rows[..n][i := row];
    }
  }

  /** A row that the key does not hash to is not concerned. */
  lemma OtherRowKeeps(row: Row, j: nat, m: map<Key, Val>, shift: nat, nb: nat, k: Key, v: Val)
    requires nb > 0 && RowOk(row, j, m, shift, nb) && IndexOf(k, shift, nb) != j
    ensures RowOk(row, j, m[k := v], shift, nb)
  {
    hide IndexOf;
  }

  lemma RowAfterAppend(row: Row, i: nat, m: map<Key, Val>, shift: nat, nb: nat, k: Key, v: Val)
    requires nb > 0 && RowOk(row, i, m, shift, nb) && IndexOf(k, shift, nb) == i && Absent(row, k)
    ensures RowOk(row + [(k, v)], i, m[k := v], shift, nb)
    ensures forall x :: Absent(row + [(k, v)], x) <==> Absent(row, x) && x != k
  {
    hide IndexOf;
    var row' := row + [(k, v)];
    forall x ensures Absent(row', x) <==> Absent(row, x) && x != k {
      assert row'[|row|].0 == k;
      assert forall q :: 0 <= q < |row| ==> row'[q] == row[q];
    }
  }

  lemma RowAfterOverwrite(row: Row, i: nat, m: map<Key, Val>, shift: nat, nb: nat, q: nat, v: Val)
    requires nb > 0 && RowOk(row, i, m, shift, nb) && q < |row|
    ensures RowOk(row[q := (row[q].0, v)], i, m[row[q].0 := v], shift, nb)
    ensures forall x :: Absent(row[q := (row[q].0, v)], x) <==> Absent(row, x)
  {
    hide IndexOf;
    var row' := row[q := (row[q].0, v)];
    forall x ensures Absent(row', x) <==> Absent(row, x) {
      assert forall p :: 0 <= p < |row| ==> row'[p].0 == row[p].0;
    }
  }

  lemma AppendEntry(rows: seq<Row>, m: map<Key, Val>, shift: nat, k: Key, v: Val)
    requires RowsAre(rows, m, shift) && Absent(rows[IndexOf(k, shift, |rows|)], k)
    ensures k !in m
    ensures var i := IndexOf(k, shift, |rows|); RowsAre(rows[i := rows[i] + [(k, v)]], m[k := v], shift)
  {
    hide IndexOf, RowOk, Absent;
    var i := IndexOf(k, shift, |rows|);
    RowAfterAppend(rows[i], i, m, shift, |rows|, k, v);
    forall j: nat | j < |rows| && j != i ensures RowOk(rows[j], j, m[k := v], shift, |rows|) {
      OtherRowKeeps(rows[j], j, m, shift, |rows|, k, v);
    }
  }

  lemma OverwriteEntry(rows: seq<Row>, m: map<Key, Val>, shift: nat, i: nat, q: nat, v: Val)
    requires RowsAre(rows, m, shift) && i < |rows| && q < |rows[i]|
    ensures var k := rows[i][q].0; k in m && RowsAre(rows[i := rows[i][q := (k, v)]], m[k := v], shift)
  {
    var k := rows[i][q].0;
    assert k in m && IndexOf(k, shift, |rows|) == i by { assert RowOk(rows[i], i, m, shift, |rows|); }
    hide IndexOf, RowOk, Absent;
    RowAfterOverwrite(rows[i], i, m, shift, |rows|, q, v);
    forall j: nat | j < |rows| && j != i ensures RowOk(rows[j], j, m[k := v], shift, |rows|) {
      OtherRowKeeps(rows[j], j, m, shift, |rows|, k, v);
    }
  }

  /** No bucket is in two chains. */
  ghost predicate Apart(chains: seq<seq<Bucket>>)
  {
    forall i: nat, j: nat, i': nat, j': nat ::
      i < |chains| && i' < |chains| && i != i' && j < |chains[i]| && j' < |chains[i']| ==>
        chains[i][j] != chains[i'][j']
  }

  ghost predicate Within(chain: seq<Bucket>, repr: set<Bucket>)
  {
    forall j: nat :: j < |chain| ==> chain[j] in repr
  }

  /** The bookkeeping of a table with these rows. */
  ghost predicate BooksOk(rows: seq<Row>, m: map<Key, Val>, shift: nat, items: nat, overflow: nat)
  {
    RowsAre(rows, m, shift) && items == Total(rows) == |m| && overflow == Overflow(rows)
  }

  /** The buckets in memory hold the rows. */
  ghost predicate HeapOk(buckets: seq<Bucket>, chains: seq<seq<Bucket>>, rows: seq<Row>, repr: set<Bucket>)
    reads repr
  {
    && 0 < |buckets| == |chains| == |rows|
    && (forall i: nat :: i < |chains| ==> Within(chains[i], repr))
    && (forall i: nat :: i < |chains| ==> ChainOk(chains[i], rows[i]) && chains[i][0] == buckets[i])
    && Apart(chains)
  }

  lemma BooksAfterAppend(rows: seq<Row>, m: map<Key, Val>, shift: nat, items: nat, overflow: nat, k: Key, v: Val)
    requires BooksOk(rows, m, shift, items, overflow) && Absent(rows[IndexOf(k, shift, |rows|)], k)
    ensures k !in m
    ensures var i := IndexOf(k, shift, |rows|);
            var grew := ChainLength(|rows[i]| + 1) - ChainLength(|rows[i]|);
            BooksOk(rows[i := rows[i] + [(k, v)]], m[k := v], shift, items + 1, overflow + grew)
  {
    var i := IndexOf(k, shift, |rows|);
    AppendEntry(rows, m, shift, k, v);
    SumsAfter(rows, i, rows[i] + [(k, v)]);
  }

  lemma BooksAfterOverwrite(
      rows: seq<Row>, m: map<Key, Val>, shift: nat, items: nat, overflow: nat, i: nat, q: nat, v: Val)
    requires BooksOk(rows, m, shift, items, overflow) && i < |rows| && q < |rows[i]|
    ensures var k := rows[i][q].0;
            k in m && BooksOk(rows[i := rows[i][q := (k, v)]], m[k := v], shift, items, overflow)
  {
    OverwriteEntry(rows, m, shift, i, q, v);
    SumsAfter(rows, i, rows[i][q := (rows[i][q].0, v)]);
  }

  lemma LookupInRows(rows: seq<Row>, m: map<Key, Val>, shift: nat, k: Key)
    requires RowsAre(rows, m, shift)
    ensures var row := rows[IndexOf(k, shift, |rows|)];
            && (Absent(row, k) <==> k !in m)
            && (forall q :: 0 <= q < |row| && row[q].0 == k ==> m[k] == row[q].1)
  {
    var i := IndexOf(k, shift, |rows|);
    assert RowOk(rows[i], i, m, shift, |rows|);
  }

  /** Overwriting a value of chain i leaves the other chains alone. */
  method SetInHeap(
      b: Bucket, s: nat, v: Val,
      ghost buckets: seq<Bucket>, ghost chains: seq<seq<Bucket>>, ghost rows: seq<Row>, ghost repr: set<Bucket>,
      ghost i: nat, ghost j: nat)
    requires HeapOk(buckets, chains, rows, repr) && i < |chains| && j < |chains[i]| && b == chains[i][j]
    requires s < b.n && 4 * j + s < |rows[i]|
    modifies b`vals
    ensures HeapOk(buckets, chains, rows[i := rows[i][4 * j + s := (rows[i][4 * j + s].0, v)]], repr)
  {
    assert ChainOk(chains[i], rows[i]) && Within(chains[i], repr);
    SetValue(b, s, v, chains[i], rows[i], j);
    forall c: nat | c < |chains| && c != i ensures ChainOk(chains[c], rows[c]) {
      assert old(ChainOk(chains[c], rows[c])) && Within(chains[c], repr);
      assert forall l: nat :: l < |chains[c]| ==> chains[c][l] != b;
    }
  }

  method AllocateHeads(n: nat) returns (heads: seq<Bucket>)
    ensures |heads| == n
    ensures forall i: nat :: i < n ==> fresh(heads[i]) && ChainOk([heads[i]], [])
    ensures forall i, j :: 0 <= i < j < n ==> heads[i] != heads[j]
  {
    heads := [];
    while |heads| < n
      invariant |heads| <= n
      invariant forall i: nat :: i < |heads| ==> fresh(heads[i]) && ChainOk([heads[i]], [])
      invariant forall i, j :: 0 <= i < j < |heads| ==> heads[i] != heads[j]
    {
      var b := new Bucket();
      heads := heads + [b];
    }
  }

  lemma {:induction false} EmptySums(rows: seq<Row>)
    requires forall i: nat :: i < |rows| ==> rows[i] == []
    ensures Total(rows) == 0 && Overflow(rows) == 0
  {
    if rows != [] {
      EmptySums(rows[..|rows| - 1]);
    }
  }

  lemma EmptyTable(heads: seq<Bucket>, shift: nat)
    returns (chains: seq<seq<Bucket>>, rows: seq<Row>, repr: set<Bucket>)
    requires |heads| > 0
    requires forall i: nat :: i < |heads| ==> ChainOk([heads[i]], [])
    requires forall i, j :: 0 <= i < j < |heads| ==> heads[i] != heads[j]
    ensures HeapOk(heads, chains, rows, repr) && BooksOk(rows, map[], shift, 0, 0)
    ensures forall b :: b in repr <==> b in heads
  {
    hide ChainOk;
    chains := seq(|heads|, (i: nat) requires i < |heads| => [heads[i]]);
    rows := seq(|heads|, _ => []);
    repr := set i | 0 <= i < |heads| :: heads[i];
    EmptySums(rows);
  }

  /** Appending to chain i leaves the other chains alone. */
  method AppendInHeap(
      head: Bucket, k: Key, v: Val,
      ghost buckets: seq<Bucket>, ghost chains: seq<seq<Bucket>>, ghost rows: seq<Row>, ghost repr: set<Bucket>,
      ghost i: nat)
    returns (grew: bool, ghost chains': seq<seq<Bucket>>, ghost repr': set<Bucket>)
    requires HeapOk(buckets, chains, rows, repr) && i < |chains| && head == buckets[i]
    modifies repr
    ensures HeapOk(buckets, chains', rows[i := rows[i] + [(k, v)]], repr')
    ensures ChainLength(|rows[i]| + 1) == ChainLength(|rows[i]|) + if grew then 1 else 0
    ensures repr <= repr' && fresh(repr' - repr)
  {
    assert ChainOk(chains[i], rows[i]) && Within(chains[i], repr);
    ghost var chain;
    grew, chain := Append(head, k, v, chains[i], rows[i]);
    chains' := chains[i := chain];
    repr' := if grew then repr + {chain[|chain| - 1]} else repr;
    forall c: nat | c < |chains| && c != i ensures ChainOk(chains[c], rows[c]) {
      assert old(ChainOk(chains[c], rows[c])) && Within(chains[c], repr);
      assert forall l: nat :: l < |chains[c]| ==> chains[c][l] !in chains[i];
    }
    forall c: nat | c < |chains| ensures Within(chains'[c], repr') {
      assert Within(chains[c], repr);
    }
  }

  class HashIndex {
    const nb: nat
    const shift: nat
    const buckets: seq<Bucket>
    var items: nat
    var overflowBuckets: nat

    /** The buckets and entries of each chain, and the table as a map. */
    ghost var chains: seq<seq<Bucket>>
    ghost var rows: seq<Row>
    ghost var contents: map<Key, Val>
    ghost var repr: set<Bucket>

    ghost predicate Valid()
      reads this, repr
    {
      && 0 < nb == |buckets|
      && HeapOk(buckets, chains, rows, repr)
      && BooksOk(rows, contents, shift, items, overflowBuckets)
    }

    /** A table of the least power of two of buckets that is at least `bucketCount`. */
    constructor (bucketCount: nat, shiftBits: nat)
      requires bucketCount <= Pow2(63)
      ensures Valid() && contents == map[] && shift == shiftBits && fresh(repr)
      ensures bucketCount <= nb && forall j: nat :: bucketCount <= Pow2(j) ==> nb <= Pow2(j)
      ensures exists j: nat :: nb == Pow2(j)
    {
      hide HeapOk, BooksOk, ChainOk;
      var v, j := Pow2Ceil(bucketCount);
      var heads := AllocateHeads(v);
      ghost var cs, rs, all := EmptyTable(heads, shiftBits);
      nb, shift, buckets, items, overflowBuckets := v, shiftBits, heads, 0, 0;
      chains, rows, contents, repr := cs, rs, map[], all;
    }

    method Lookup(k: Key) returns (v: Val)
      requires Valid()
      ensures v == if k in contents then contents[k] else 0
    {
      ghost var i := IndexOf(k, shift, nb);
      assert ChainOk(chains[i], rows[i]);
      var b, s, j := FindInChain(buckets[IndexOf(k, shift, nb)], k, chains[i], rows[i]);
      LookupInRows(rows, contents, shift, k);
      if b == null { return 0; }
      assert BucketAt(chains[i], rows[i], j);
      v := b.vals[s];
    }

    method Update(k: Key, newv: Val) returns (hit: bool)
      requires Valid()
      modifies this, repr
      ensures Valid() && repr == old(repr)
      ensures hit <==> k in old(contents)
      ensures contents == if hit then old(contents)[k := newv] else old(contents)
    {
      hide HeapOk, BooksOk;
      ghost var i := IndexOf(k, shift, nb);
      ChainInHeap(i);
      var b, s, j := FindInChain(buckets[IndexOf(k, shift, nb)], k, chains[i], rows[i]);
      LookupInBooks(k);
      if b == null { return false; }
      BooksAfterOverwrite(rows, contents, shift, items, overflowBuckets, i, 4 * j + s, newv);
      SetInHeap(b, s, newv, buckets, chains, rows, repr, i, j);
      rows, contents := rows[i := rows[i][4 * j + s := (k, newv)]], contents[k := newv];
      hit := true;
    }

    /** Each chain holds keys that hash to it, no key occurs twice, every bucket but the last of a chain
        is full, and the two counters are right. */
    ghost predicate InOrder()
      reads this, repr
    {
      && |chains| == |rows| == nb > 0 && items == |contents| == Total(rows) && overflowBuckets == Overflow(rows)
      && (forall i: nat, q: nat :: i < nb && q < |rows[i]| ==> IndexOf(rows[i][q].0, shift, nb) == i)
      && (forall i: nat, p: nat, q: nat :: i < nb && p < q < |rows[i]| ==> rows[i][p].0 != rows[i][q].0)
      && (forall i: nat, j: nat :: i < nb && j + 1 < |chains[i]| ==>
            chains[i][j] in repr && chains[i][j].n == INLINE_SLOTS)
    }

    lemma Census()
      requires Valid()
      ensures InOrder()
    {
      forall i: nat, q: nat | i < nb && q < |rows[i]| ensures IndexOf(rows[i][q].0, shift, nb) == i {
        assert RowOk(rows[i], i, contents, shift, nb);
      }
      forall i: nat, p: nat, q: nat | i < nb && p < q < |rows[i]| ensures rows[i][p].0 != rows[i][q].0 {
        assert RowOk(rows[i], i, contents, shift, nb);
      }
      forall i: nat, j: nat | i < nb && j + 1 < |chains[i]|
        ensures chains[i][j] in repr && chains[i][j].n == INLINE_SLOTS
      {
        assert Within(chains[i], repr) && ChainOk(chains[i], rows[i]) && BucketAt(chains[i], rows[i], j);
      }
    }

    lemma ChainInHeap(i: nat)
      requires Valid() && i < nb
      ensures i < |chains| == |rows| == nb && ChainOk(chains[i], rows[i])
      ensures Within(chains[i], repr) && chains[i][0] == buckets[i]
    {
    }

    lemma LookupInBooks(k: Key)
      requires Valid()
      ensures |rows| == nb
      ensures var row := rows[IndexOf(k, shift, nb)];
              && (Absent(row, k) <==> k !in contents)
              && (forall q :: 0 <= q < |row| && row[q].0 == k ==> k in contents && contents[k] == row[q].1)
    {
      LookupInRows(rows, contents, shift, k);
    }

    method Remove(k: Key) returns (hit: bool)
      requires Valid()
      modifies this, repr
      ensures Valid() && repr == old(repr)
      ensures hit <==> k in old(contents)
      ensures contents == if hit then old(contents)[k := 0] else old(contents)
    {
      hit := Update(k, 0);
    }

    /** Upsert. True exactly when the key is new. */
    method Insert(k: Key, v: Val) returns (isNew: bool)
      requires Valid()
      modifies this, repr
      ensures Valid() && fresh(repr - old(repr))
      ensures isNew <==> k !in old(contents)
      ensures contents == old(contents)[k := v]
    {
      hide HeapOk, BooksOk, ChainOk, Absent, IndexOf, Within;
      ghost var i := IndexOf(k, shift, nb);
      var head := buckets[IndexOf(k, shift, nb)];
      ChainInHeap(i);
      var b, s, j := FindInChain(head, k, chains[i], rows[i]);
      LookupInBooks(k);
      ghost var rows', repr', chains';
      if b != null {
        BooksAfterOverwrite(rows, contents, shift, items, overflowBuckets, i, 4 * j + s, v);
        SetInHeap(b, s, v, buckets, chains, rows, repr, i, j);
        rows', repr', chains' := rows[i := rows[i][4 * j + s := (k, v)]], repr, chains;
        isNew := false;
      } else {
        BooksAfterAppend(rows, contents, shift, items, overflowBuckets, k, v);
        var grew;
        grew, chains', repr' := AppendInHeap(head, k, v, buckets, chains, rows, repr, i);
        rows' := rows[i := rows[i] + [(k, v)]];
        if grew { overflowBuckets := overflowBuckets + 1; }
        items := items + 1;
        isNew := true;
      }
      rows, contents, chains, repr := rows', contents[k := v], chains', repr';
    }

    /** Not a range scan: the first `n` values of the chain that `start` hashes to. */
    method Scan(start: Key, n: int, sink: Val) returns (taken: int, sink': Val)
      requires Valid()
      ensures |rows| == nb
      ensures var row := rows[IndexOf(start, shift, nb)];
              taken == Min(Max0(n), |row|) && sink' == sink ^ XorAll(Vals(row)[..taken])
    {
      ghost var i := IndexOf(start, shift, nb);
      ChainInHeap(i);
      var acc;
      acc, taken := XorPrefix(buckets[IndexOf(start, shift, nb)], n, chains[i], rows[i]);
      sink' := sink ^ acc;
    }

    lemma EmptySlice(threshold: nat)
      ensures Total(rows[..0]) == 0 && Longer(rows[..0], threshold) == 0 && Longer(rows[..0], 0) == 0
    {
    }

    lemma SumsOfSlice(i: nat, threshold: nat)
      requires i < |rows|
      ensures Total(rows[..i + 1]) == Total(rows[..i]) + |rows[i]|
      ensures Longer(rows[..i + 1], threshold) == Longer(rows[..i], threshold) + if |rows[i]| > threshold then 1 else 0
      ensures Longer(rows[..i + 1], 0) == Longer(rows[..i], 0) + if |rows[i]| > 0 then 1 else 0
    {
      assert rows[..i + 1][..i] == rows[..i];
    }

    /** The chain counts add up to the number of items, which gives the mean. */
    method OccupancyStats(threshold: nat) returns (maxChain: nat, mean: real, empty: nat, overThreshold: nat)
      requires Valid()
      ensures mean == |contents| as real / nb as real && items == |contents|
      ensures |rows| == nb
      ensures forall i: nat :: i < nb ==> |rows[i]| <= maxChain
      ensures exists i: nat :: i < nb && |rows[i]| == maxChain
      ensures empty == nb - Longer(rows, 0) && overThreshold == Longer(rows, threshold)
    {
      hide HeapOk, RowsAre, ChainOk, Total, Overflow, Longer;
      EmptySlice(threshold);
      maxChain, empty, overThreshold := 0, 0, 0;
      var total := 0;
      ChainInHeap(0);
      ghost var at := 0;
      var i := 0;
      while i < nb
        invariant i <= nb == |rows|
        invariant at < nb && (i > 0 ==> |rows[at]| == maxChain) && (i == 0 ==> maxChain == 0)
        invariant forall c: nat :: c < i ==> |rows[c]| <= maxChain
        invariant total == Total(rows[..i]) && overThreshold == Longer(rows[..i], threshold)
        invariant empty == i - Longer(rows[..i], 0)
      {
        ChainInHeap(i);
        var cnt := CountChain(buckets[i], chains[i], rows[i]);
        SumsOfSlice(i, threshold);
        if cnt == 0 { empty := empty + 1; }
        if cnt > maxChain { maxChain := cnt; }
        if cnt == maxChain { at := i; }
        if cnt > threshold { overThreshold := overThreshold + 1; }
        total := total + cnt;
        i := i + 1;
      }
      assert rows[..nb] == rows;
      mean := total as real / nb as real;
    }
  }
}
