/** The operation sampler of op_mix.hpp: a table of 1024 bins filled from cumulative weights, which
    are exact reals here. */
module OpMix {

  datatype Op = Search | Update | Insert | Delete | Scan
  {
    predicate IsWrite() { Update? || Insert? || Delete? }
  }

  const BINS := 1024

  function OpOf(i: nat): Op
    requires i < 5
  {
    [Search, Update, Insert, Delete, Scan][i]
  }

  datatype Mix = Mix(search: real, update: real, insert: real, del: real, scan: real)
  {
    /** The driver's test for "the mix contains writes". */
    predicate HasWrites() { update + insert + del > 0.0 }

    predicate NonNegative()
    {
      search >= 0.0 && update >= 0.0 && insert >= 0.0 && del >= 0.0 && scan >= 0.0
    }

    function Weight(i: nat): real
      requires i < 5
    {
      [search, update, insert, del, scan][i]
    }

    /** Cumulative weight up to and including op `i`; the last one is the literal 1.0. */
    function Cum(i: nat): real
      requires i < 5
    {
      if i == 0 then search
      else if i == 1 then search + update
      else if i == 2 then search + update + insert
      else if i == 3 then search + update + insert + del
      else 1.0
    }

    /** The bin at which the fill loop for op `i` stops. */
    function Target(i: nat): int
      requires i < 5
    {
      var t := Truncate(Cum(i) * 1024.0);
      if t > BINS then BINS else t
    }
  }

  /** Conversion of a double to int: towards zero. */
  function Truncate(x: real): int
  {
    if x >= 0.0 then x.Floor else -((-x).Floor)
  }

  /** The op of a bin, defined without the fill loops: the first op at or after `i` whose target
      lies beyond the bin. */
  function FirstBeyond(m: Mix, bin: nat, i: nat): Op
    decreases 5 - i
  {
    if i >= 5 then Search else if bin < m.Target(i) then OpOf(i) else FirstBeyond(m, bin, i + 1)
  }

  function OpAt(m: Mix, bin: nat): Op { FirstBeyond(m, bin, 0) }

  lemma {:induction false} FirstBeyondIs(m: Mix, bin: nat, from: nat, i: nat)
    requires from <= i <= 5
    requires forall j: nat :: from <= j < i ==> m.Target(j) <= bin
    ensures FirstBeyond(m, bin, from) == FirstBeyond(m, bin, i)
    decreases i - from
  {
    if from < i {
      assert m.Target(from) <= bin;
      FirstBeyondIs(m, bin, from + 1, i);
    }
  }

  class OpMixSampler {
    const table: array<Op>

    constructor (m: Mix)
      ensures fresh(table) && table.Length == BINS
      ensures forall b: nat :: b < BINS ==> table[b] == OpAt(m, b)
    {
      var t := new Op[BINS];
      var bin := 0;
      for i := 0 to 5
        invariant 0 <= bin <= BINS
        invariant forall j: nat :: j < i ==> m.Target(j) <= bin
        invariant forall b: nat :: b < bin ==> t[b] == OpAt(m, b)
      {
        var target := Truncate(m.Cum(i) * 1024.0);
        if target > BINS { target := BINS; }
        while bin < target
          invariant 0 <= bin <= BINS
          invariant forall j: nat :: j < i ==> m.Target(j) <= bin
          invariant forall b: nat :: b < bin ==> t[b] == OpAt(m, b)
        {
          FirstBeyondIs(m, bin, 0, i);
          t[bin] := OpOf(i);
          bin := bin + 1;
        }
      }
      // The source's final loop would fill the rest with Search; nothing is left to fill, since the
      // last target is 1.0 * 1024.
      assert m.Target(4) == BINS <= bin;
      table := t;
    }
  }

  // ---------- Which mixes put a write into the table ----------

  function Max(a: int, b: int): int { if a > b then a else b }

  ghost predicate HasWriteEntry(m: Mix)
  {
    exists b: nat :: b < BINS && OpAt(m, b).IsWrite()
  }

  ghost predicate InTable(m: Mix, op: Op)
  {
    exists b: nat :: b < BINS && OpAt(m, b) == op
  }

  /** Exactly when some bin holds a write: one of the three write targets lies beyond the Search
      bins. */
  lemma WriteEntryIff(m: Mix)
    ensures HasWriteEntry(m) <==>
              Max(m.Target(1), Max(m.Target(2), m.Target(3))) > Max(m.Target(0), 0)
  {
    var lo := Max(m.Target(0), 0);
    if Max(m.Target(1), Max(m.Target(2), m.Target(3))) > lo {
      UnrollOpAt(m, lo);
      assert OpAt(m, lo).IsWrite();
    } else {
      forall b: nat | b < BINS ensures !OpAt(m, b).IsWrite() {
        UnrollOpAt(m, b);
      }
    }
  }

  /** Some bin holds a search exactly when the first target is positive. */
  lemma SearchEntryIff(m: Mix)
    ensures InTable(m, Search) <==> m.Target(0) > 0
  {
    if m.Target(0) > 0 {
      UnrollOpAt(m, 0);
      assert OpAt(m, 0) == Search;
    } else {
      forall b: nat | b < BINS ensures OpAt(m, b) != Search {
        UnrollOpAt(m, b);
      }
    }
  }

  lemma UnrollOpAt(m: Mix, b: nat)
    ensures OpAt(m, b) ==
              if b < m.Target(0) then Search
              else if b < m.Target(1) then Update
              else if b < m.Target(2) then Insert
              else if b < m.Target(3) then Delete
              else if b < m.Target(4) then Scan
              else Search
  {
    assert FirstBeyond(m, b, 0) == if b < m.Target(0) then Search else FirstBeyond(m, b, 1);
    assert FirstBeyond(m, b, 1) == if b < m.Target(1) then Update else FirstBeyond(m, b, 2);
    assert FirstBeyond(m, b, 2) == if b < m.Target(2) then Insert else FirstBeyond(m, b, 3);
    assert FirstBeyond(m, b, 3) == if b < m.Target(3) then Delete else FirstBeyond(m, b, 4);
    assert FirstBeyond(m, b, 4) == if b < m.Target(4) then Scan else FirstBeyond(m, b, 5);
  }

  /** With non-negative weights a mix that the driver calls read-only has no write in its table. */
  lemma ReadOnlyMixHasNoWriteEntry(m: Mix)
    requires m.NonNegative() && !m.HasWrites()
    ensures !HasWriteEntry(m)
  {
    assert m.update == 0.0 && m.insert == 0.0 && m.del == 0.0;
    WriteEntryIff(m);
  }

  /** With a negative weight it can: the driver sums the write weights, the table does not. */
  lemma NegativeWeightHidesWrites()
    ensures var m := Mix(0.5, 0.5, -0.5, 0.0, 0.5);
            m.search + m.update + m.insert + m.del + m.scan == 1.0 && !m.HasWrites() && HasWriteEntry(m)
  {
    var m := Mix(0.5, 0.5, -0.5, 0.0, 0.5);
    assert m.Cum(0) * 1024.0 == 512.0 && m.Cum(1) * 1024.0 == 1024.0;
    WriteEntryIff(m);
  }

  // ---------- How many bins each op gets ----------

  /** How many of the first `hi` entries of a table are `op`. */
  function Bins(table: nat -> Op, op: Op, hi: nat): nat
    decreases hi, op
  {
    if hi == 0 then 0 else Bins(table, op, hi - 1) + if table(hi - 1) == op then 1 else 0
  }

  /** The sampler's table as a function. */
  function Table(m: Mix): nat -> Op { (b: nat) => OpAt(m, b) }

  lemma FloorMonotone(x: real, y: real)
    requires x <= y
    ensures x.Floor <= y.Floor
  {
  }

  /** For a normalised mix the targets climb from 0 to 1024. */
  lemma TargetsClimb(m: Mix)
    requires m.NonNegative() && m.search + m.update + m.insert + m.del + m.scan == 1.0
    ensures 0 <= m.Target(0) <= m.Target(1) <= m.Target(2) <= m.Target(3) <= m.Target(4) == BINS
    ensures forall i: nat :: i < 5 ==> m.Target(i) == (m.Cum(i) * 1024.0).Floor
  {
    FloorMonotone(0.0, m.Cum(0) * 1024.0);
    FloorMonotone(m.Cum(0) * 1024.0, m.Cum(1) * 1024.0);
    FloorMonotone(m.Cum(1) * 1024.0, m.Cum(2) * 1024.0);
    FloorMonotone(m.Cum(2) * 1024.0, m.Cum(3) * 1024.0);
    FloorMonotone(m.Cum(3) * 1024.0, 1024.0);
  }

  lemma {:induction false} BinsAreAnInterval(m: Mix, i: nat, hi: nat)
    requires i < 5 && hi <= BINS
    requires m.NonNegative() && m.search + m.update + m.insert + m.del + m.scan == 1.0
    ensures var lo := if i == 0 then 0 else m.Target(i - 1);
            Bins(Table(m), OpOf(i), hi) ==
              if hi <= lo then 0 else if hi <= m.Target(i) then hi - lo else m.Target(i) - lo
  {
    hide Mix.Target, OpAt;
    TargetsClimb(m);
    if hi > 0 {
      BinsAreAnInterval(m, i, hi - 1);
      UnrollOpAt(m, hi - 1);
    }
  }

  function WeightOf(m: Mix, op: Op): real
  {
    match op
    case Search => m.search
    case Update => m.update
    case Insert => m.insert
    case Delete => m.del
    case Scan => m.scan
  }

  /** Every op's share of the table is within one bin of 1024 times its weight. */
  lemma BinsMatchWeights(m: Mix, op: Op)
    requires m.NonNegative() && m.search + m.update + m.insert + m.del + m.scan == 1.0
    ensures -1.0 < Bins(Table(m), op, BINS) as real - 1024.0 * WeightOf(m, op) < 1.0
  {
    hide Bins, Table;
    match op
    case Search => ShareOfIndex(m, 0);
    case Update => ShareOfIndex(m, 1);
    case Insert => ShareOfIndex(m, 2);
    case Delete => ShareOfIndex(m, 3);
    case Scan => ShareOfIndex(m, 4);
  }

  lemma ShareOfIndex(m: Mix, i: nat)
    requires i < 5
    requires m.NonNegative() && m.search + m.update + m.insert + m.del + m.scan == 1.0
    ensures -1.0 < Bins(Table(m), OpOf(i), BINS) as real - 1024.0 * m.Weight(i) < 1.0
  {
    hide Mix.Target, Bins, OpAt;
    TargetsClimb(m);
    BinsAreAnInterval(m, i, BINS);
    assert i > 0 ==> m.Cum(i) == m.Cum(i - 1) + m.Weight(i);
  }
}
