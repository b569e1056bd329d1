/** The merged histograms of whole runs. */
module RunHistograms {
  import opened Wrappers
  import opened Counting
  import opened OpMix
  import opened OpHists
  import P = Pipeline
  import PI = PipelineInv
  import PS = PipelineSafety
  import B = BatchRun
  import BT = BatchTheorems

  /** What a set of histograms reports: end-to-end time is queueing plus service, service is lookup
      plus workload, and the per-op histograms share out the service samples. */
  ghost predicate AddsUp(r: OpHists)
    requires r.Valid()
    reads r, r.hists, set h | h in r.hists :: h.counts
  {
    var h := r.hists;
    && h[E2E].sum == h[QUEUE].sum + h[TOTAL].sum
    && h[TOTAL].sum == h[LOOKUP].sum + h[POLL].sum
    && h[0].sum + h[1].sum + h[2].sum + h[3].sum + h[4].sum == h[TOTAL].sum
    && h[0].total + h[1].total + h[2].total + h[3].total + h[4].total == h[TOTAL].total
    && h[TOTAL].total == h[E2E].total == h[LOOKUP].total == h[POLL].total == |r.log|
  }

  lemma Reported(r: OpHists, k: nat)
    requires r.Valid() && k < COLUMNS
    ensures |r.hists| == COLUMNS
    ensures r.hists[k].sum == Sum(Column(r.log, k)) && r.hists[k].total == |Column(r.log, k)|
  {
    assert r.hists[k].Valid() && r.hists[k].samples == Columns(r.log)[k];
  }

  lemma OrderedAddsUp(r: OpHists)
    requires r.Valid() && AllOrdered(r.log)
    ensures AddsUp(r)
  {
    hide Column, Sum, OpHists.Valid;
    assert forall i :: 0 <= i < |r.log| ==> r.log[i].Ordered();
    SumsOfLog(r.log);
    PerOpAddsUp(r.log);
    Reported(r, 0);
    Reported(r, 1);
    Reported(r, 2);
    Reported(r, 3);
    Reported(r, 4);
    Reported(r, TOTAL);
    Reported(r, QUEUE);
    Reported(r, E2E);
    Reported(r, LOOKUP);
    Reported(r, POLL);
  }

  ghost predicate AllPartsOrdered(parts: seq<OpHists>)
    reads parts
  {
    forall c: nat :: c < |parts| ==> AllOrdered(parts[c].log)
  }

  lemma {:induction false} JoinedOrdered(parts: seq<OpHists>)
    requires AllPartsOrdered(parts)
    ensures AllOrdered(AllLogs(parts))
  {
    if parts != [] {
      JoinedOrdered(parts[..|parts| - 1]);
    }
  }

  /** Whatever the threads or repeats whose histograms were merged, the result adds up. */
  lemma MergedAddsUp(parts: seq<OpHists>, r: OpHists)
    requires r.Valid() && r.log == AllLogs(parts) && AllPartsOrdered(parts)
    ensures AddsUp(r)
  {
    JoinedOrdered(parts);
    OrderedAddsUp(r);
  }

  // ---------- Open loop ----------

  function ClientTimings(log: seq<P.Job>): seq<Timing>
  {
    seq(|log|, (a: nat) requires a < |log| =>
      Timing(log[a].e.op, Some(log[a].e.tEnq), log[a].tStart, log[a].tLookup, log[a].tEnd))
  }

  /** Each client's histograms have recorded the queries it finished. */
  ghost predicate FilledByClients(parts: seq<OpHists>, s: P.State)
    reads parts
  {
    |parts| == |s.logs| && forall c: nat :: c < |parts| ==> parts[c].log == ClientTimings(s.logs[c])
  }

  lemma ClientsOrdered(cfg: P.Config, s: P.State, parts: seq<OpHists>)
    requires PI.Inv(cfg, s) && FilledByClients(parts, s)
    ensures AllPartsOrdered(parts)
  {
    forall c: nat | c < |parts| ensures AllOrdered(parts[c].log) {
      ClientOrdered(cfg, s, c);
    }
  }

  /** What client c's own histograms hold at any moment of any run: sample a belongs to the a-th query it
      finished. */
  lemma ClientSamples(cfg: P.Config, s: P.State, c: nat, h: OpHists, a: nat, k: nat)
    requires cfg.Wf() && PI.RoomyEnough(cfg) && PS.Reachable(cfg, s) && c < |s.logs| && a < |s.logs[c]|
    requires h.Valid() && h.log == ClientTimings(s.logs[c]) && k < 5
    ensures |h.hists| == COLUMNS && h.hists[k].samples == ClientServiceTimes(s.logs[c], OpOf(k))
    ensures var j := s.logs[c][a];
            && a < |h.hists[TOTAL].samples| && h.hists[TOTAL].samples[a] == j.tEnd - j.tStart
            && a < |h.hists[LOOKUP].samples| && h.hists[LOOKUP].samples[a] == j.tLookup - j.tStart
            && a < |h.hists[POLL].samples| && h.hists[POLL].samples[a] == j.tEnd - j.tLookup
            && a < |h.hists[E2E].samples| && h.hists[E2E].samples[a] == j.tEnd - j.e.tEnq
            && a < |h.hists[QUEUE].samples| && h.hists[QUEUE].samples[a] == j.tStart - j.e.tEnq
  {
    PS.ReachableHolds(cfg, s);
    ClientOrdered(cfg, s, c);
    hide PI.Inv, OpHists.Valid, ServiceTimes;
    LatenciesPlaced(h, k);
    QueuedAll(h.log, a);
    SameServiceTimes(s.logs[c], OpOf(k));
  }

  /** The service times of the finished queries with a given op. */
  function ClientServiceTimes(log: seq<P.Job>, op: Op): seq<int>
  {
    if log == [] then []
    else
      var j := log[|log| - 1];
      ClientServiceTimes(log[..|log| - 1], op) + if j.e.op == op then [j.tEnd - j.tStart] else []
  }

  lemma {:induction false} SameServiceTimes(log: seq<P.Job>, op: Op)
    ensures ServiceTimes(ClientTimings(log), op) == ClientServiceTimes(log, op)
  {
    if log != [] {
      SameServiceTimes(log[..|log| - 1], op);
      assert ClientTimings(log)[..|log| - 1] == ClientTimings(log[..|log| - 1]);
    }
  }

  lemma ClientOrdered(cfg: P.Config, s: P.State, c: nat)
    requires PI.Inv(cfg, s) && c < |s.logs|
    ensures AllOrdered(ClientTimings(s.logs[c]))
  {
    assert PI.LogInv(cfg, s, c);
    assert forall a :: 0 <= a < |s.logs[c]| ==> PI.JobInv(s, c, s.logs[c][a]);
  }

  lemma {:induction false} QueuedAll(log: seq<Timing>, a: nat)
    requires (forall i :: 0 <= i < |log| ==> log[i].tEnq.Some?) && a < |log|
    ensures |QueueTimes(log)| == |log| && QueueTimes(log)[a] == log[a].tStart - log[a].tEnq.value
  {
    var n := |log| - 1;
    if n > 0 {
      QueuedAll(log[..n], if a < n then a else 0);
    }
  }

  function Lengths(logs: seq<seq<P.Job>>): seq<nat>
  {
    seq(|logs|, (c: nat) requires c < |logs| => |logs[c]|)
  }

  lemma {:induction false} JoinedLength(parts: seq<OpHists>, lengths: seq<nat>)
    requires |parts| == |lengths| && forall c: nat :: c < |parts| ==> |parts[c].log| == lengths[c]
    ensures |AllLogs(parts)| == Sum(lengths)
  {
    if parts != [] {
      JoinedLength(parts[..|parts| - 1], lengths[..|parts| - 1]);
    }
  }

  /** At every moment of every open-loop run, merging the clients' histograms gives a set that adds
      up, and at the end it holds one sample per query. */
  lemma OpenLoopTotals(cfg: P.Config, s: P.State, parts: seq<OpHists>, r: OpHists)
    requires cfg.Wf() && PI.RoomyEnough(cfg) && PS.Reachable(cfg, s)
    requires FilledByClients(parts, s) && r.Valid() && r.log == AllLogs(parts)
    ensures AddsUp(r)
    ensures s.done && P.AllExited(s) && (cfg.clients >= 1 || cfg.N() == 0) ==> r.hists[TOTAL].total == cfg.N()
  {
    hide PI.Inv, AddsUp, OpHists.Valid, PS.Reachable;
    PS.ReachableHolds(cfg, s);
    ClientsOrdered(cfg, s, parts);
    MergedAddsUp(parts, r);
    JoinedLength(parts, Lengths(s.logs));
    if s.done && P.AllExited(s) && (cfg.clients >= 1 || cfg.N() == 0) {
      PS.DrainSafety(cfg, s);
      LengthsCounted(cfg, s);
      ReportedTotal(r);
    }
  }

  lemma ReportedTotal(r: OpHists)
    requires r.Valid() && AddsUp(r)
    ensures r.hists[TOTAL].total == |r.log|
  {
  }

  lemma LengthsCounted(cfg: P.Config, s: P.State)
    requires PI.Inv(cfg, s) && P.AllExited(s)
    ensures Sum(Lengths(s.logs)) == s.consumed
  {
    assert Lengths(s.logs) == PI.Counted(cfg, s);
  }

  // ---------- Batch ----------

  function WorkerTimings(log: seq<B.Job>): seq<Timing>
  {
    seq(|log|, (a: nat) requires a < |log| => Timing(log[a].op, None, log[a].tStart, log[a].tLookup, log[a].tEnd))
  }

  ghost predicate FilledByWorkers(parts: seq<OpHists>, s: B.State)
    reads parts
  {
    |parts| == |s.logs| && forall w: nat :: w < |parts| ==> parts[w].log == WorkerTimings(s.logs[w])
  }

  lemma WorkersOrdered(cfg: B.Config, s: B.State, parts: seq<OpHists>)
    requires B.Inv(cfg, s) && FilledByWorkers(parts, s)
    ensures AllPartsOrdered(parts)
  {
    forall w: nat | w < |parts| ensures AllOrdered(parts[w].log) {
      WorkerOrdered(cfg, s, w);
    }
  }

  /** The same for a batch worker, whose queries were not queued. */
  lemma WorkerSamples(cfg: B.Config, s: B.State, w: nat, h: OpHists, a: nat, k: nat)
    requires cfg.Wf() && B.Reachable(cfg, s) && w < |s.logs| && a < |s.logs[w]|
    requires h.Valid() && h.log == WorkerTimings(s.logs[w]) && k < 5
    ensures |h.hists| == COLUMNS && h.hists[QUEUE].samples == []
    ensures h.hists[k].samples == WorkerServiceTimes(s.logs[w], OpOf(k))
    ensures var j := s.logs[w][a];
            && a < |h.hists[TOTAL].samples| && h.hists[TOTAL].samples[a] == j.tEnd - j.tStart
            && a < |h.hists[LOOKUP].samples| && h.hists[LOOKUP].samples[a] == j.tLookup - j.tStart
            && a < |h.hists[POLL].samples| && h.hists[POLL].samples[a] == j.tEnd - j.tLookup
            && a < |h.hists[E2E].samples| && h.hists[E2E].samples[a] == j.tEnd - j.tStart
  {
    B.ReachableHolds(cfg, s);
    WorkerOrdered(cfg, s, w);
    hide B.Inv, OpHists.Valid, ServiceTimes;
    LatenciesPlaced(h, k);
    QueuedNone(h.log);
    SameWorkerTimes(s.logs[w], OpOf(k));
  }

  function WorkerServiceTimes(log: seq<B.Job>, op: Op): seq<int>
  {
    if log == [] then []
    else
      var j := log[|log| - 1];
      WorkerServiceTimes(log[..|log| - 1], op) + if j.op == op then [j.tEnd - j.tStart] else []
  }

  lemma {:induction false} SameWorkerTimes(log: seq<B.Job>, op: Op)
    ensures ServiceTimes(WorkerTimings(log), op) == WorkerServiceTimes(log, op)
  {
    if log != [] {
      SameWorkerTimes(log[..|log| - 1], op);
      assert WorkerTimings(log)[..|log| - 1] == WorkerTimings(log[..|log| - 1]);
    }
  }

  lemma WorkerOrdered(cfg: B.Config, s: B.State, w: nat)
    requires B.Inv(cfg, s) && w < |s.logs|
    ensures AllOrdered(WorkerTimings(s.logs[w]))
  {
    assert B.WorkerInv(cfg, s, w);
    assert forall a: nat :: a < |s.logs[w]| ==> B.JobInv(cfg, w, a, s.logs[w][a]);
  }

  lemma {:induction false} QueuedNone(log: seq<Timing>)
    requires forall i :: 0 <= i < |log| ==> log[i].tEnq.None?
    ensures QueueTimes(log) == []
  {
    if log != [] {
      QueuedNone(log[..|log| - 1]);
    }
  }

  lemma {:induction false} JobsJoined(parts: seq<OpHists>, logs: seq<seq<B.Job>>)
    requires |parts| == |logs| && forall w: nat :: w < |parts| ==> |parts[w].log| == |logs[w]|
    ensures |AllLogs(parts)| == BT.TotalJobs(logs)
  {
    if parts != [] {
      JobsJoined(parts[..|parts| - 1], logs[..|parts| - 1]);
    }
  }

  /** The same for batch runs; at the end the merged total is the query count. */
  lemma BatchTotals(cfg: B.Config, s: B.State, parts: seq<OpHists>, r: OpHists)
    requires cfg.Wf() && B.Reachable(cfg, s)
    requires FilledByWorkers(parts, s) && r.Valid() && r.log == AllLogs(parts)
    ensures AddsUp(r)
    ensures BT.AllLeft(s) ==> r.hists[TOTAL].total == cfg.N()
  {
    B.ReachableHolds(cfg, s);
    WorkersOrdered(cfg, s, parts);
    MergedAddsUp(parts, r);
    JobsJoined(parts, s.logs);
    hide B.Inv, AddsUp;
    ReportedTotal(r);
    if BT.AllLeft(s) {
      BT.MergedTotal(cfg, s);
    }
  }
}
