/** Whole-run results for the batch mode. */
module BatchTheorems {
  import opened Wrappers
  import opened OpMix
  import opened Lcg
  import opened IndexLock
  import opened Shards
  import opened BatchRun

  /** No worker starts on a query before every worker has come through the gate. */
  lemma GateHolds(cfg: Config, s: State, w: nat, v: nat)
    requires cfg.Wf() && Reachable(cfg, s) && w < cfg.W() && v < cfg.W() && w < |s.ws| && v < |s.ws|
    requires !BeforeGate(s.ws[w]) || s.logs[w] != []
    ensures !s.ws[v].Arriving?
  {
    ReachableHolds(cfg, s);
    assert WorkerInv(cfg, s, w);
    NoneMissing(s.ws, v);
  }

  ghost predicate JobAt(s: State, w: nat, a: nat, i: nat)
  {
    w < |s.logs| && a < |s.logs[w]| && s.logs[w][a].i == i
  }

  predicate AllLeft(s: State) { forall w :: 0 <= w < |s.ws| ==> s.ws[w].Left? }

  /** When all workers have left, every query was served exactly once, by the worker of its shard, with its
      own key and the op that worker's generator drew for it. */
  lemma ServedExactlyOnce(cfg: Config, s: State, i: nat)
    requires cfg.Wf() && Reachable(cfg, s) && AllLeft(s) && i < cfg.N()
    ensures exists w: nat, a: nat ::
              && JobAt(s, w, a, i) && InShard(cfg.N(), cfg.W(), w, i)
              && s.logs[w][a].key == cfg.keys[i]
              && s.logs[w][a].op == OpStream(Table(cfg.mix), cfg.seeds[w])(i - cfg.Lo(w))
              && forall w': nat, a': nat :: JobAt(s, w', a', i) ==> w' == w && a' == a
  {
    ReachableHolds(cfg, s);
    var w := FindShard(cfg.N(), cfg.W(), i, cfg.W() - 1);
    var a := i - cfg.Lo(w);
    assert WorkerInv(cfg, s, w) && JobInv(cfg, w, a, s.logs[w][a]) && JobAt(s, w, a, i);
    forall w': nat, a': nat | JobAt(s, w', a', i) ensures w' == w && a' == a {
      assert WorkerInv(cfg, s, w') && JobInv(cfg, w', a', s.logs[w'][a']);
      ShardsTouch(cfg.N(), cfg.W(), w');
      OnlyShard(cfg.N(), cfg.W(), w', w, i);
    }
  }

  function TotalJobs(logs: seq<seq<Job>>): nat
  {
    if logs == [] then 0 else TotalJobs(logs[..|logs| - 1]) + |logs[|logs| - 1]|
  }

  lemma {:induction false} JobsOfFirst(cfg: Config, s: State, k: nat)
    requires Inv(cfg, s) && AllLeft(s) && k <= cfg.W()
    ensures TotalJobs(s.logs[..k]) == if k < cfg.W() then cfg.Lo(k) else cfg.N()
  {
    ShardsTouch(cfg.N(), cfg.W(), 0);
    if k > 0 {
      JobsOfFirst(cfg, s, k - 1);
      ShardsTouch(cfg.N(), cfg.W(), k - 1);
      assert WorkerInv(cfg, s, k - 1);
      assert s.logs[..k][..k - 1] == s.logs[..k - 1];
    }
  }

  /** The merged number of samples is the `consumed` the driver reports, the query count. */
  lemma MergedTotal(cfg: Config, s: State)
    requires cfg.Wf() && Reachable(cfg, s) && AllLeft(s)
    ensures TotalJobs(s.logs) == cfg.N()
  {
    ReachableHolds(cfg, s);
    JobsOfFirst(cfg, s, cfg.W());
    assert s.logs[..cfg.W()] == s.logs;
  }

  function OpsIn(log: seq<Job>, op: Op): nat
  {
    if log == [] then 0 else OpsIn(log[..|log| - 1], op) + if log[|log| - 1].op == op then 1 else 0
  }

  lemma {:induction false} OpsAreIssued(ops: nat -> Op, log: seq<Job>, op: Op)
    requires forall a: nat :: a < |log| ==> log[a].op == ops(a)
    ensures OpsIn(log, op) == Issued(ops, 0, |log|, op)
  {
    if log != [] {
      var n := |log| - 1;
      OpsAreIssued(ops, log[..n], op);
      assert From(ops, 0, n) == ops(n) == log[n].op;
    }
  }

  /** At any time of any run, a worker that has served 1024*q + r queries has issued each op q times
      its bins, give or take the last partial window. */
  lemma WorkerFrequencies(cfg: Config, s: State, w: nat, q: nat, r: nat, op: Op)
    requires cfg.Wf() && Reachable(cfg, s) && w < cfg.W() && w < |s.logs| && |s.logs[w]| == q * BINS + r && r < BINS
    ensures var bins := Bins(Table(cfg.mix), op, BINS);
            q * bins <= OpsIn(s.logs[w], op) <= q * bins + (if r < bins then r else bins)
  {
    hide OpStream, Table, OpsIn, Issued, Bins, Reachable, LockInv, Drew;
    ReachableHolds(cfg, s);
    assert WorkerInv(cfg, s, w);
    forall a: nat | a < |s.logs[w]| ensures s.logs[w][a].op == OpStream(Table(cfg.mix), cfg.seeds[w])(a) {
      assert JobInv(cfg, w, a, s.logs[w][a]);
    }
    OpsAreIssued(OpStream(Table(cfg.mix), cfg.seeds[w]), s.logs[w], op);
    ShardFrequencies(cfg.mix, cfg.seeds[w], 0, q, r, op);
  }

  /** In no reachable state is a writer in the index together with another worker. */
  lemma WritersAloneInBatch(cfg: Config, s: State)
    requires cfg.Wf() && Reachable(cfg, s) && cfg.useLock == NeedsLock(cfg.mix, cfg.W(), false)
    requires ElisionOk(cfg.mix, false)
    ensures WritersAlone(s.accs)
  {
    ReachableHolds(cfg, s);
    forall w | 0 <= w < |s.accs| && s.accs[w].Inside? ensures InTable(cfg.mix, s.accs[w].op) {
      assert WorkerInv(cfg, s, w);
      var b := s.ws[w].lcg % BINS;
      assert b < BINS && OpAt(cfg.mix, b) == s.accs[w].op;
    }
    ElisionIsSafe(s.lock, Batch(cfg.useLock), s.accs, cfg.mix);
  }

  /** With one worker, or for an index with its own concurrency control, nobody ever takes the lock. */
  lemma LockLeftOut(cfg: Config, s: State, threadSafe: bool)
    requires cfg.Wf() && Reachable(cfg, s) && cfg.useLock == NeedsLock(cfg.mix, cfg.W(), threadSafe)
    requires cfg.W() < 2 || threadSafe
    ensures s.lock == RwLock(None, {})
  {
    hide Reachable;
    ReachableHolds(cfg, s);
    UntakenLock(s.lock, s.accs);
  }

  lemma UntakenLock(l: RwLock, accs: seq<Access>)
    requires LockInv(l, Batch(false), accs)
    ensures l == RwLock(None, {})
  {
    assert l.writer.Some? ==> exists t: nat :: l.writer == Some(t);
  }

  /** The clock reads of every served query are ordered. */
  lemma LatenciesOrdered(cfg: Config, s: State, w: nat, a: nat)
    requires cfg.Wf() && Reachable(cfg, s) && w < |s.logs| && a < |s.logs[w]|
    ensures s.logs[w][a].tStart <= s.logs[w][a].tLookup <= s.logs[w][a].tEnd
  {
    ReachableHolds(cfg, s);
    assert WorkerInv(cfg, s, w) && JobInv(cfg, w, a, s.logs[w][a]);
  }

  // ---------- No dead ends ----------

  /** Steps a worker still has to take. */
  function Remaining(cfg: Config, w: nat, x: Worker, acc: Access): int
    requires cfg.Wf()
  {
    match x
    case Arriving => 5 * (cfg.Hi(w) - cfg.Lo(w)) + 3
    case AtGate => 5 * (cfg.Hi(w) - cfg.Lo(w)) + 2
    case Looping(i, _) => 5 * (cfg.Hi(w) - i) + 1
    case Serving(i, _, _, _, _) => 5 * (cfg.Hi(w) - i) - if acc.Inside? then 1 else 0
    case Served(i, _, _, _, _) => 5 * (cfg.Hi(w) - i) - 2
    case Working(i, _, _, _, _, _) => 5 * (cfg.Hi(w) - i) - 3
    case Left => 0
  }

  function StepsLeft(cfg: Config, s: State, k: nat): int
    requires s.Wf(cfg) && k <= cfg.W()
  {
    if k == 0 then 0 else StepsLeft(cfg, s, k - 1) + Remaining(cfg, k - 1, s.ws[k - 1], s.accs[k - 1])
  }

  lemma {:induction false} StepsBounded(cfg: Config, s: State, k: nat)
    requires Inv(cfg, s) && k <= cfg.W()
    ensures StepsLeft(cfg, s, k) >= 0
  {
    if k > 0 {
      StepsBounded(cfg, s, k - 1);
      assert WorkerInv(cfg, s, k - 1);
      ShardsTouch(cfg.N(), cfg.W(), k - 1);
    }
  }

  lemma RemainingFalls(cfg: Config, s: State, w: nat)
    requires Inv(cfg, s) && w < cfg.W() && WorkerStep(cfg, s, w).Some?
    ensures var s' := WorkerStep(cfg, s, w).value;
            && Remaining(cfg, w, s'.ws[w], s'.accs[w]) < Remaining(cfg, w, s.ws[w], s.accs[w])
            && (forall v: nat :: v < cfg.W() && v != w ==> s'.ws[v] == s.ws[v] && s'.accs[v] == s.accs[v])
  {
    hide LockInv, Begin, End, OpAt, Next, Acquire, Release;
    assert WorkerInv(cfg, s, w);
  }

  lemma {:induction false} StepsAfter(cfg: Config, s: State, w: nat, k: nat)
    requires Inv(cfg, s) && w < cfg.W() && WorkerStep(cfg, s, w).Some? && k <= cfg.W()
    ensures var s' := WorkerStep(cfg, s, w).value;
            if k <= w then StepsLeft(cfg, s', k) == StepsLeft(cfg, s, k)
            else StepsLeft(cfg, s', k) < StepsLeft(cfg, s, k)
  {
    hide Inv, WorkerStep, Remaining;
    if k > 0 {
      StepsAfter(cfg, s, w, k - 1);
      RemainingFalls(cfg, s, w);
    }
  }

  lemma {:induction false} SomeoneArriving(ws: seq<Worker>) returns (v: nat)
    requires Missing(ws) > 0
    ensures v < |ws| && ws[v].Arriving?
  {
    if ws[|ws| - 1].Arriving? {
      v := |ws| - 1;
    } else {
      v := SomeoneArriving(ws[..|ws| - 1]);
    }
  }

  lemma SomeWorkerCanMove(cfg: Config, s: State) returns (w: nat)
    requires Inv(cfg, s) && !AllLeft(s)
    ensures w < cfg.W() && WorkerStep(cfg, s, w).Some?
  {
    hide Begin, End, OpAt, Next;
    w :| w < |s.ws| && !s.ws[w].Left?;
    assert WorkerInv(cfg, s, w);
    if s.ws[w].AtGate? && s.gate > 0 {
      w := SomeoneArriving(s.ws);
    } else if s.ws[w].Serving? && s.accs[w].Waiting? && WorkerStep(cfg, s, w).None? {
      SomeoneCanMove(s.lock, Batch(cfg.useLock), s.accs, w);
      w :| w < |s.accs| && s.accs[w].Inside?;
      assert WorkerInv(cfg, s, w);
    }
  }

  /** From every state a finite continuation brings all workers home. */
  lemma {:induction false} BatchCanFinish(cfg: Config, s: State) returns (acts: seq<Act>)
    requires s.Wf(cfg) && Inv(cfg, s)
    ensures Exec(cfg, s, acts).Some? && AllLeft(Exec(cfg, s, acts).value)
    decreases StepsLeft(cfg, s, cfg.W())
  {
    hide Inv, WorkerStep, StepsLeft;
    StepsBounded(cfg, s, cfg.W());
    if AllLeft(s) {
      acts := [];
    } else {
      var w := SomeWorkerCanMove(cfg, s);
      var s' := WorkerStep(cfg, s, w).value;
      DoKeeps(cfg, s, Work(w));
      StepsAfter(cfg, s, w, cfg.W());
      var rest := BatchCanFinish(cfg, s');
      ExecCons(cfg, s, Work(w), rest);
      acts := [Work(w)] + rest;
    }
  }

  lemma {:induction false} ExecCons(cfg: Config, s: State, a: Act, rest: seq<Act>)
    requires s.Wf(cfg) && Do(cfg, s, a).Some?
    ensures Exec(cfg, s, [a] + rest) == Exec(cfg, Do(cfg, s, a).value, rest)
  {
    hide Do;
    if rest == [] {
      assert [a] + rest == [a] && [a][..0] == [];
      assert Exec(cfg, s, []) == Some(s);
    } else {
      ExecCons(cfg, s, a, rest[..|rest| - 1]);
      assert ([a] + rest)[..|rest|] == [a] + rest[..|rest| - 1];
    }
  }
}
