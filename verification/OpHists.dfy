/** The set of histograms each thread fills, and what merging them over threads and repeats means. */
module OpHists {
  import opened Wrappers
  import opened Clock
  import opened Counting
  import opened OpMix
  import opened Histogram

  /** The clock reads of one query; a batch query has no enqueue time. */
  datatype Timing = Timing(op: Op, tEnq: Option<nat>, tStart: nat, tLookup: nat, tEnd: nat)
  {
    predicate Ordered()
    {
      tStart <= tLookup <= tEnd && (tEnq.Some? ==> tEnq.value <= tStart)
    }
  }

  // The five per-op histograms come first, then these.
  const TOTAL := 5
  const QUEUE := 6
  const E2E := 7
  const LOOKUP := 8
  const POLL := 9
  const COLUMNS: nat := 10

  function OpIndex(op: Op): nat
  {
    match op case Search => 0 case Update => 1 case Insert => 2 case Delete => 3 case Scan => 4
  }

  /** What one query adds to histogram k, if anything. */
  function Cell(r: Timing, k: nat): Option<nat>
  {
    if k < 5 then (if OpIndex(r.op) == k then Some(Elapsed(r.tEnd, r.tStart)) else None)
    else if k == TOTAL then Some(Elapsed(r.tEnd, r.tStart))
    else if k == QUEUE then (if r.tEnq.Some? then Some(Elapsed(r.tStart, r.tEnq.value)) else None)
    else if k == E2E then Some(Elapsed(r.tEnd, if r.tEnq.Some? then r.tEnq.value else r.tStart))
    else if k == LOOKUP then Some(Elapsed(r.tLookup, r.tStart))
    else Some(Elapsed(r.tEnd, r.tLookup))
  }

  function CellSeq(r: Timing, k: nat): seq<nat>
  {
    match Cell(r, k) case None => [] case Some(v) => [v]
  }

  /** The samples of histogram k after the queries of a log. */
  function Column(log: seq<Timing>, k: nat): seq<nat>
    decreases log, k
  {
    if log == [] then [] else Column(log[..|log| - 1], k) + CellSeq(log[|log| - 1], k)
  }

  lemma ColumnSnoc(log: seq<Timing>, r: Timing, k: nat)
    ensures Column(log + [r], k) == Column(log, k) + CellSeq(r, k)
  {
    assert (log + [r])[..|log|] == log;
  }

  lemma {:induction false} ColumnAppend(a: seq<Timing>, b: seq<Timing>, k: nat)
    ensures Column(a + b, k) == Column(a, k) + Column(b, k)
  {
    assert Column([], k) == [];
    hide Column, CellSeq;
    if b == [] {
      assert a + b == a;
    } else {
      var pre, r := b[..|b| - 1], b[|b| - 1];
      ColumnAppend(a, pre, k);
      ColumnSnoc(pre, r, k);
      ColumnSnoc(a + pre, r, k);
      assert b == pre + [r];
      assert a + b == (a + pre) + [r];
      assert (Column(a, k) + Column(pre, k)) + CellSeq(r, k) == Column(a, k) + (Column(pre, k) + CellSeq(r, k));
    }
  }

  function Columns(log: seq<Timing>): seq<seq<nat>>
  {
    seq(COLUMNS, (k: nat) => Column(log, k))
  }

  class OpHists {
    const hists: seq<Histogram>
    ghost var log: seq<Timing>

    /** Ten separate histograms with these samples. */
    ghost predicate Holds(cols: seq<seq<nat>>)
      reads hists, set h | h in hists :: h.counts
    {
      && |hists| == |cols| == COLUMNS
      && (forall i, j :: 0 <= i < j < COLUMNS ==> hists[i] != hists[j] && hists[i].counts != hists[j].counts)
      && (forall k: nat :: k < COLUMNS ==> hists[k].Valid() && hists[k].samples == cols[k])
    }

    ghost predicate Valid()
      reads this, hists, set h | h in hists :: h.counts
    {
      Holds(Columns(log))
    }

    constructor ()
      ensures Valid() && log == []
      ensures fresh(hists) && forall h :: h in hists ==> fresh(h.counts)
    {
      var hs := AllocateHistograms(COLUMNS);
      hists := hs;
      log := [];
    }

    method AddTo(k: nat, ns: nat, ghost cols: seq<seq<nat>>)
      requires Holds(cols) && k < COLUMNS
      modifies hists[k], hists[k].counts
      ensures Holds(Push(cols, k, ns))
    {
      hists[k].Add(ns);
    }

    lemma TenHistograms(cols: seq<seq<nat>>)
      requires Holds(cols)
      ensures |hists| == |cols| == COLUMNS
    {
    }

    /** The four samples that every query gives. */
    method AddService(r: Timing, ghost cols: seq<seq<nat>>)
      requires Holds(cols)
      modifies hists, set h | h in hists :: h.counts
      ensures Holds(WithService(cols, r))
    {
      TenHistograms(cols);
      hide Holds, Push, Elapsed;
      var service := Elapsed(r.tEnd, r.tStart);
      AddTo(OpIndex(r.op), service, cols);
      ghost var c1 := Push(cols, OpIndex(r.op), service);
      AddTo(TOTAL, service, c1);
      ghost var c2 := Push(c1, TOTAL, service);
      AddTo(LOOKUP, Elapsed(r.tLookup, r.tStart), c2);
      ghost var c3 := Push(c2, LOOKUP, Elapsed(r.tLookup, r.tStart));
      AddTo(POLL, Elapsed(r.tEnd, r.tLookup), c3);
    }

    /** The queueing time, if there was a queue, and the end-to-end time. */
    method AddArrival(r: Timing, ghost cols: seq<seq<nat>>)
      requires Holds(cols)
      modifies hists, set h | h in hists :: h.counts
      ensures Holds(WithArrival(cols, r))
    {
      TenHistograms(cols);
      hide Holds, Push, Elapsed;
      ghost var c1 := cols;
      if r.tEnq.Some? {
        AddTo(QUEUE, Elapsed(r.tStart, r.tEnq.value), cols);
        c1 := Push(cols, QUEUE, Elapsed(r.tStart, r.tEnq.value));
      }
      AddTo(E2E, Elapsed(r.tEnd, if r.tEnq.Some? then r.tEnq.value else r.tStart), c1);
    }

    /** What a client or worker adds after one query. */
    method Record(r: Timing)
      requires Valid()
      modifies this, hists, set h | h in hists :: h.counts
      ensures Valid() && log == old(log) + [r]
    {
      hide Holds, Push, Columns, WithService, WithArrival;
      ghost var cols := Columns(log);
      AddService(r, cols);
      AddArrival(r, WithService(cols, r));
      RecordedIs(log, r);
      log := log + [r];
    }

    /** Merging is the same as having recorded the other log here, also for a set merged with itself. */
    method Merge(o: OpHists)
      requires Valid() && o.Valid() && (o == this || Disjoint(o))
      modifies this, hists, set h | h in hists :: h.counts
      ensures Valid() && o.Valid() && log == old(log) + old(o.log)
    {
      ghost var mine, theirs := Columns(log), Columns(o.log);
      for k := 0 to COLUMNS
        invariant log == old(log) && o.log == old(o.log)
        invariant Holds(Joined(mine, theirs, k)) && (o != this ==> o.Holds(theirs))
      {
        MergeOne(o, k, mine, theirs);
      }
      ColumnsJoin(log, o.log);
      log := log + o.log;
    }

    /** No histogram and no counter array is shared with the other set. */
    ghost predicate Disjoint(o: OpHists)
    {
      && o != this
      && forall g, h :: g in hists && h in o.hists ==> g != h && g.counts != h.counts
    }

    method MergeOne(o: OpHists, k: nat, ghost mine: seq<seq<nat>>, ghost theirs: seq<seq<nat>>)
      requires k < COLUMNS && |mine| == |theirs| == COLUMNS && (if o == this then mine == theirs else Disjoint(o))
      requires Holds(Joined(mine, theirs, k)) && (o != this ==> o.Holds(theirs))
      modifies hists[k], hists[k].counts
      ensures Holds(Joined(mine, theirs, k + 1)) && (o != this ==> o.Holds(theirs))
    {
      hists[k].Merge(o.hists[k]);
    }
  }

  ghost function Push(cols: seq<seq<nat>>, k: nat, v: nat): seq<seq<nat>>
  {
    if k < |cols| then cols[k := cols[k] + [v]] else cols
  }

  /** The first k columns joined, the others still to come. */
  ghost function Joined(mine: seq<seq<nat>>, theirs: seq<seq<nat>>, k: nat): seq<seq<nat>>
    requires |mine| == |theirs|
  {
    seq(|mine|, (i: nat) requires i < |mine| == |theirs| => if i < k then mine[i] + theirs[i] else mine[i])
  }

  lemma ColumnsJoin(a: seq<Timing>, b: seq<Timing>)
    ensures Joined(Columns(a), Columns(b), COLUMNS) == Columns(a + b)
  {
    forall k: nat | k < COLUMNS ensures Column(a + b, k) == Column(a, k) + Column(b, k) {
      ColumnAppend(a, b, k);
    }
  }

  ghost function WithService(cols: seq<seq<nat>>, r: Timing): seq<seq<nat>>
  {
    var service := Elapsed(r.tEnd, r.tStart);
    var c2 := Push(Push(cols, OpIndex(r.op), service), TOTAL, service);
    Push(Push(c2, LOOKUP, Elapsed(r.tLookup, r.tStart)), POLL, Elapsed(r.tEnd, r.tLookup))
  }

  ghost function WithArrival(cols: seq<seq<nat>>, r: Timing): seq<seq<nat>>
  {
    var c1 := if r.tEnq.Some? then Push(cols, QUEUE, Elapsed(r.tStart, r.tEnq.value)) else cols;
    Push(c1, E2E, Elapsed(r.tEnd, if r.tEnq.Some? then r.tEnq.value else r.tStart))
  }

  lemma RecordedIs(log: seq<Timing>, r: Timing)
    ensures WithArrival(WithService(Columns(log), r), r) == Columns(log + [r])
  {
    hide Elapsed, Column;
    var cols := WithArrival(WithService(Columns(log), r), r);
    forall k: nat | k < COLUMNS ensures cols[k] == Column(log + [r], k) {
      ColumnSnoc(log, r, k);
    }
  }

  method AllocateHistograms(n: nat) returns (hs: seq<Histogram>)
    ensures |hs| == n
    ensures forall i, j :: 0 <= i < j < n ==> hs[i] != hs[j] && hs[i].counts != hs[j].counts
    ensures forall i: nat :: i < n ==> fresh(hs[i]) && fresh(hs[i].counts) && hs[i].Valid() && hs[i].samples == []
  {
    hs := [];
    while |hs| < n
      invariant |hs| <= n
      invariant forall i, j :: 0 <= i < j < |hs| ==> hs[i] != hs[j] && hs[i].counts != hs[j].counts
      invariant forall i: nat :: i < |hs| ==>
                  fresh(hs[i]) && fresh(hs[i].counts) && hs[i].Valid() && hs[i].samples == []
    {
      var h := new Histogram();
      hs := hs + [h];
    }
  }

  // ---------- Merging over threads and repeats ----------

  ghost function AllLogs(parts: seq<OpHists>): seq<Timing>
    reads parts
  {
    if parts == [] then [] else AllLogs(parts[..|parts| - 1]) + parts[|parts| - 1].log
  }

  /** The merge loop over the threads of a run, or over the repeats of the benchmark: the result is
      one set of histograms fed all the queries, however they were split. */
  method MergeAll(parts: seq<OpHists>) returns (r: OpHists)
    requires forall p :: p in parts ==> p.Valid()
    ensures r.Valid() && fresh(r) && r.log == AllLogs(parts)
  {
    r := new OpHists();
    for i := 0 to |parts|
      invariant r.Valid() && fresh(r) && fresh(r.hists) && (forall h :: h in r.hists ==> fresh(h.counts))
      invariant r.log == AllLogs(parts[..i]) && forall p :: p in parts ==> p.Valid()
    {
      assert parts[..i + 1][..i] == parts[..i];
      r.Merge(parts[i]);
    }
    assert parts[..|parts|] == parts;
  }

  // ---------- Which latency goes where ----------

  ghost predicate AllOrdered(log: seq<Timing>)
  {
    forall i :: 0 <= i < |log| ==> log[i].Ordered()
  }

  /** The latencies every query has: sample a of each of these histograms is that of query a. */
  ghost predicate PlacedByQuery(log: seq<Timing>, total: seq<nat>, lookup: seq<nat>, poll: seq<nat>, e2e: seq<nat>)
  {
    && |total| == |lookup| == |poll| == |e2e| == |log|
    && forall a :: 0 <= a < |log| ==>
         && total[a] == log[a].tEnd - log[a].tStart
         && lookup[a] == log[a].tLookup - log[a].tStart
         && poll[a] == log[a].tEnd - log[a].tLookup
         && e2e[a] == log[a].tEnd - if log[a].tEnq.Some? then log[a].tEnq.value else log[a].tStart
  }

  lemma {:induction false} ColumnsPlaced(log: seq<Timing>)
    requires AllOrdered(log)
    ensures PlacedByQuery(log, Column(log, TOTAL), Column(log, LOOKUP), Column(log, POLL), Column(log, E2E))
  {
    if log != [] {
      var n := |log| - 1;
      ColumnsPlaced(log[..n]);
      assert log[n].Ordered();
    }
  }

  /** The queueing times, of the queries that were queued. */
  function QueueTimes(log: seq<Timing>): seq<int>
  {
    if log == [] then []
    else
      var r := log[|log| - 1];
      QueueTimes(log[..|log| - 1]) + if r.tEnq.Some? then [r.tStart - r.tEnq.value] else []
  }

  /** The service times of the queries with a given op. */
  function ServiceTimes(log: seq<Timing>, op: Op): seq<int>
  {
    if log == [] then []
    else
      var r := log[|log| - 1];
      ServiceTimes(log[..|log| - 1], op) + if r.op == op then [r.tEnd - r.tStart] else []
  }

  lemma {:induction false} QueueColumn(log: seq<Timing>)
    requires AllOrdered(log)
    ensures Column(log, QUEUE) == QueueTimes(log)
  {
    if log != [] {
      QueueColumn(log[..|log| - 1]);
      assert log[|log| - 1].Ordered();
    }
  }

  lemma {:induction false} OpColumn(log: seq<Timing>, k: nat)
    requires AllOrdered(log) && k < 5
    ensures Column(log, k) == ServiceTimes(log, OpOf(k))
  {
    if log != [] {
      OpColumn(log[..|log| - 1], k);
      assert log[|log| - 1].Ordered();
      IndexOfOp(log[|log| - 1].op, k);
    }
  }

  /** Ops are numbered alike in the sampler and in the histograms. */
  lemma IndexOfOp(op: Op, k: nat)
    requires k < 5
    ensures OpIndex(op) == k <==> OpOf(k) == op
  {
  }

  /** What the histograms of a set hold, latency by latency. */
  lemma LatenciesPlaced(h: OpHists, k: nat)
    requires h.Valid() && AllOrdered(h.log) && k < 5
    ensures |h.hists| == COLUMNS
    ensures PlacedByQuery(h.log, h.hists[TOTAL].samples, h.hists[LOOKUP].samples, h.hists[POLL].samples,
                          h.hists[E2E].samples)
    ensures h.hists[QUEUE].samples == QueueTimes(h.log)
    ensures h.hists[k].samples == ServiceTimes(h.log, OpOf(k))
  {
    hide AllOrdered, PlacedByQuery, QueueTimes, ServiceTimes, Column;
    ColumnsPlaced(h.log);
    QueueColumn(h.log);
    OpColumn(h.log, k);
    HoldsColumn(h, TOTAL);
    HoldsColumn(h, LOOKUP);
    HoldsColumn(h, POLL);
    HoldsColumn(h, E2E);
    HoldsColumn(h, QUEUE);
    HoldsColumn(h, k);
  }

  lemma HoldsColumn(h: OpHists, k: nat)
    requires h.Valid() && k < COLUMNS
    ensures |h.hists| == COLUMNS && h.hists[k].samples == Column(h.log, k)
  {
    assert h.hists[k].samples == Columns(h.log)[k];
  }

  // ---------- What the columns of a log add up to ----------

  function CellSum(r: Timing, k: nat): nat { if Cell(r, k).Some? then Cell(r, k).value else 0 }

  function CellCount(r: Timing, k: nat): nat { if Cell(r, k).Some? then 1 else 0 }

  lemma SumsSnoc(log: seq<Timing>, k: nat)
    requires log != []
    ensures var (pre, r) := (log[..|log| - 1], log[|log| - 1]);
            && Sum(Column(log, k)) == Sum(Column(pre, k)) + CellSum(r, k)
            && |Column(log, k)| == |Column(pre, k)| + CellCount(r, k)
  {
    AppendSum(Column(log[..|log| - 1], k), CellSeq(log[|log| - 1], k));
    assert forall v: nat :: [v][..0] == [];
  }

  /** The clock reads of one query split its latency. */
  lemma CellsOfQuery(r: Timing)
    requires r.Ordered()
    ensures CellSum(r, TOTAL) == CellSum(r, LOOKUP) + CellSum(r, POLL)
    ensures CellSum(r, E2E) == CellSum(r, TOTAL) + CellSum(r, QUEUE)
    ensures CellCount(r, TOTAL) == CellCount(r, E2E) == CellCount(r, LOOKUP) == CellCount(r, POLL) == 1
  {
  }

  lemma {:induction false} SumsOfLog(log: seq<Timing>)
    requires forall i :: 0 <= i < |log| ==> log[i].Ordered()
    ensures Sum(Column(log, TOTAL)) == Sum(Column(log, LOOKUP)) + Sum(Column(log, POLL))
    ensures Sum(Column(log, E2E)) == Sum(Column(log, QUEUE)) + Sum(Column(log, TOTAL))
    ensures |Column(log, TOTAL)| == |Column(log, E2E)| == |Column(log, LOOKUP)| == |Column(log, POLL)| == |log|
  {
    if log != [] {
      hide Sum, Column, CellSum, CellCount;
      SumsOfLog(log[..|log| - 1]);
      SumsSnoc(log, TOTAL);
      SumsSnoc(log, LOOKUP);
      SumsSnoc(log, POLL);
      SumsSnoc(log, E2E);
      SumsSnoc(log, QUEUE);
      CellsOfQuery(log[|log| - 1]);
    }
  }

  /** A query's service time goes to exactly one per-op histogram. */
  lemma OneOpPerQuery(r: Timing)
    ensures CellSum(r, 0) + CellSum(r, 1) + CellSum(r, 2) + CellSum(r, 3) + CellSum(r, 4) == CellSum(r, TOTAL)
    ensures CellCount(r, 0) + CellCount(r, 1) + CellCount(r, 2) + CellCount(r, 3) + CellCount(r, 4) == 1
  {
  }

  /** The per-op histograms together hold exactly the service samples. */
  lemma {:induction false} PerOpAddsUp(log: seq<Timing>)
    ensures Sum(Column(log, 0)) + Sum(Column(log, 1)) + Sum(Column(log, 2)) + Sum(Column(log, 3)) + Sum(Column(log, 4))
            == Sum(Column(log, TOTAL))
    ensures |Column(log, 0)| + |Column(log, 1)| + |Column(log, 2)| + |Column(log, 3)| + |Column(log, 4)| == |log|
  {
    if log != [] {
      hide Sum, Column, Cell;
      PerOpAddsUp(log[..|log| - 1]);
      OneOpPerQuery(log[|log| - 1]);
      SumsSnoc(log, 0);
      SumsSnoc(log, 1);
      SumsSnoc(log, 2);
      SumsSnoc(log, 3);
      SumsSnoc(log, 4);
      SumsSnoc(log, TOTAL);
    }
  }
}
