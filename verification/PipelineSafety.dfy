/** Whole-run safety of the open-loop mode. */
module PipelineSafety {
  import opened Wrappers
  import opened Clock
  import opened Counting
  import opened OpMix
  import opened Lcg
  import opened Ring
  import opened IndexLock
  import opened Pipeline
  import opened PipelineInv
  import opened PipelineSteps

  /** A state some run of the configuration gets to. */
  ghost predicate Reachable(cfg: Config, s: State)
    requires cfg.Wf()
  {
    exists junk: Entry, acts: seq<Act> ::
      Init(cfg, junk).Wf(cfg) && Exec(cfg, Init(cfg, junk), acts) == Some(s)
  }

  lemma ReachableHolds(cfg: Config, s: State)
    requires cfg.Wf() && RoomyEnough(cfg) && Reachable(cfg, s)
    ensures Inv(cfg, s)
  {
    var junk: Entry, acts: seq<Act> :| Init(cfg, junk).Wf(cfg) && Exec(cfg, Init(cfg, junk), acts) == Some(s);
    ReachableInv(cfg, junk, acts);
  }

  // ---------- Draining ----------

  /** Entry a of client c's log is the job of query t. */
  predicate JobAt(s: State, c: nat, a: nat, t: nat)
  {
    c < |s.logs| && a < |s.logs[c]| && s.logs[c][a].t == t
  }

  predicate Carries(e: Entry, key: nat, op: Op, scanLen: int)
  {
    e.key == key && e.op == op && e.scanLen == scanLen
  }

  /** Exactly one job has been done for query t, with the key and the op of query t. */
  ghost predicate ExecutedOnce(cfg: Config, s: State, t: nat)
    requires cfg.Wf() && t < cfg.N()
  {
    exists c: nat, a: nat ::
      && JobAt(s, c, a, t) && Carries(s.logs[c][a].e, cfg.keys[t], cfg.ops[t], cfg.scanLen)
      && forall c': nat, a': nat :: JobAt(s, c', a', t) ==> c' == c && a' == a
  }

  ghost predicate Drained(cfg: Config, s: State)
    requires cfg.Wf()
  {
    && s.produced == s.consumed == cfg.N()
    && forall t: nat :: t < cfg.N() ==> ExecutedOnce(cfg, s, t)
  }

  lemma LoggedOnce(cfg: Config, s: State, t: nat)
    requires Inv(cfg, s) && t < |s.ring.tickets| && s.ring.tickets[t].Released?
    requires AllExited(s)
    ensures ExecutedOnce(cfg, s, t)
  {
    assert Settled(cfg, s, t) && EntryFor(cfg, s.ring.given[t], t, s.now);
    var c := s.ring.tickets[t].who - 1;
    assert ClientPcInv(cfg, s, c) && LogInv(cfg, s, c);
    var a: nat :| a < |s.logs[c]| && s.logs[c][a].t == t;
    assert JobInv(s, c, s.logs[c][a]) && JobAt(s, c, a, t);
    forall c': nat, a': nat | JobAt(s, c', a', t) ensures c' == c && a' == a {
      assert ClientPcInv(cfg, s, c') && LogInv(cfg, s, c') && JobInv(s, c', s.logs[c'][a']);
    }
  }

  lemma AllReleased(cfg: Config, s: State, t: nat)
    requires Inv(cfg, s) && AllExited(s) && s.done && t < s.ring.deq
    ensures t < |s.ring.tickets| && s.ring.tickets[t].Released?
  {
    assert TicketInv(s.ring, t) && HeldInv(s.ring, s.pcs, t);
    forall i: nat | i < |s.pcs| ensures s.pcs[i].Idle? {
      assert i > 0 ==> ClientPcInv(cfg, s, i - 1);
    }
  }

  lemma CountsAgree(cfg: Config, s: State)
    requires Inv(cfg, s) && AllExited(s)
    ensures s.consumed == s.ring.deq
  {
    forall c: nat | c < cfg.clients ensures ClaimsOf(s, c) == CountedOf(s, c) {
      assert ClientPcInv(cfg, s, c);
    }
    assert Claims(cfg, s) == Counted(cfg, s);
  }

  /** Once the producer has set `done` and every client has left its loop, each query was executed
      exactly once, by one client, and the counters agree. */
  lemma DrainSafety(cfg: Config, s: State)
    requires cfg.Wf() && RoomyEnough(cfg) && Reachable(cfg, s)
    requires s.done && AllExited(s) && (cfg.clients >= 1 || cfg.N() == 0)
    ensures Drained(cfg, s)
  {
    ReachableHolds(cfg, s);
    if cfg.clients >= 1 {
      assert ClientPcInv(cfg, s, 0);
    }
    CountsAgree(cfg, s);
    forall t: nat | t < cfg.N() ensures ExecutedOnce(cfg, s, t) {
      AllReleased(cfg, s, t);
      LoggedOnce(cfg, s, t);
    }
  }

  /** At every moment of every run: no client has left while an entry is in the ring or on its way. */
  lemma NoEntryStranded(cfg: Config, s: State, c: nat)
    requires cfg.Wf() && RoomyEnough(cfg) && Reachable(cfg, s) && c < |s.cli| && s.cli[c].Exited?
    ensures s.done && s.ring.deq == s.ring.enq == cfg.N()
  {
    ReachableHolds(cfg, s);
    assert ClientPcInv(cfg, s, c);
  }

  /** The arrival time and the clock reads of every finished query are ordered, so no latency is a
      difference that wraps. */
  lemma LatenciesOrdered(cfg: Config, s: State, c: nat, a: nat)
    requires cfg.Wf() && RoomyEnough(cfg) && Reachable(cfg, s) && c < |s.logs| && a < |s.logs[c]|
    ensures var j := s.logs[c][a];
            j.t < cfg.N() && cfg.sched[j.t] <= j.e.tEnq <= j.tStart <= j.tLookup <= j.tEnd
  {
    ReachableHolds(cfg, s);
    assert LogInv(cfg, s, c) && JobInv(s, c, s.logs[c][a]);
    assert EntryFor(cfg, s.ring.given[s.logs[c][a].t], s.logs[c][a].t, s.now);
  }

  // ---------- The producer's lag ----------

  /** Queries the producer has stamped for the first time. */
  function Stamped(cfg: Config, p: Producer): nat
  {
    match p
    case Spin(i) => i
    case Stamp(i) => i
    case Calling(i, _) => i + 1
    case Restamp(i, _) => i + 1
    case Count(i) => i + 1
    case _ => cfg.N()
  }

  function TotalLag(sched: seq<nat>, stamps: seq<nat>): int
    requires |stamps| <= |sched|
  {
    if stamps == [] then 0
    else TotalLag(sched, stamps[..|stamps| - 1]) + stamps[|stamps| - 1] - sched[|stamps| - 1]
  }

  lemma {:induction false} LagIsDifference(sched: seq<nat>, stamps: seq<nat>)
    requires |stamps| <= |sched|
    ensures TotalLag(sched, stamps) == Sum(stamps) - Sum(sched[..|stamps|])
  {
    if stamps != [] {
      var n := |stamps| - 1;
      LagIsDifference(sched, stamps[..n]);
      assert sched[..|stamps|][..n] == sched[..n];
    }
  }

  ghost predicate LagInv(cfg: Config, s: State)
    requires cfg.Wf()
  {
    && |s.stamps| == Stamped(cfg, s.prod) <= cfg.N()
    && (s.prod.Spin? || s.prod.Stamp? ==> s.prod.i < cfg.N())
    && (s.prod.Stamp? ==> cfg.sched[s.prod.i] <= s.now)
    && (forall i: nat :: i < |s.stamps| ==> cfg.sched[i] <= s.stamps[i] <= s.now)
    && s.lag == TotalLag(cfg.sched, s.stamps)
  }

  lemma LagMoves(cfg: Config, s: State, a: Act)
    requires s.Wf(cfg) && LagInv(cfg, s) && Do(cfg, s, a).Some?
    ensures LagInv(cfg, Do(cfg, s, a).value)
  {
    match a
    case Tick(_) =>
    case Produce(spurious) =>
      hide LagInv, ProducerStep;
      LagOfProducer(cfg, s, spurious);
    case Serve(c, spurious) =>
      hide ClientStep;
      ClientLeavesProducer(cfg, s, c, spurious);
  }

  lemma ClientLeavesProducer(cfg: Config, s: State, c: nat, spurious: bool)
    requires s.Wf(cfg) && c < cfg.clients && ClientStep(cfg, s, c, spurious).Some?
    ensures var s' := ClientStep(cfg, s, c, spurious).value;
            && s'.prod == s.prod && s'.pcs[0] == s.pcs[0]
            && s'.stamps == s.stamps && s'.lag == s.lag && s'.now == s.now
  {
    hide Step, Acquire, Release;
  }

  /** Only the first stamp of a query touches the stamps and the lag. */
  lemma StampsMove(cfg: Config, s: State, spurious: bool)
    requires s.Wf(cfg) && ProducerStep(cfg, s, spurious).Some?
    requires Stamped(cfg, s.prod) <= cfg.N() && (s.prod.Spin? || s.prod.Stamp? ==> s.prod.i < cfg.N())
    ensures var s' := ProducerStep(cfg, s, spurious).value;
            && s'.now == s.now
            && (s'.prod.Spin? || s'.prod.Stamp? ==> s'.prod.i < cfg.N())
            && (s'.prod.Stamp? ==> cfg.sched[s'.prod.i] <= s.now)
            && Stamped(cfg, s'.prod) == Stamped(cfg, s.prod) + (if s.prod.Stamp? then 1 else 0)
            && (if s.prod.Stamp? then
                  s'.stamps == s.stamps + [s.now] && s'.lag == s.lag + Elapsed(s.now, cfg.sched[s.prod.i])
                else s'.stamps == s.stamps && s'.lag == s.lag)
  {
    hide Step, Elapsed;
  }

  lemma LagOfProducer(cfg: Config, s: State, spurious: bool)
    requires s.Wf(cfg) && LagInv(cfg, s) && ProducerStep(cfg, s, spurious).Some?
    ensures LagInv(cfg, ProducerStep(cfg, s, spurious).value)
  {
    hide ProducerStep;
    var s' := ProducerStep(cfg, s, spurious).value;
    StampsMove(cfg, s, spurious);
    if s.prod.Stamp? {
      assert s'.stamps[..|s.stamps|] == s.stamps;
    }
  }

  lemma {:induction false} LagAlong(cfg: Config, junk: Entry, acts: seq<Act>)
    requires cfg.Wf() && Init(cfg, junk).Wf(cfg) && Exec(cfg, Init(cfg, junk), acts).Some?
    ensures LagInv(cfg, Exec(cfg, Init(cfg, junk), acts).value)
  {
    hide Do, LagInv;
    if acts == [] {
      LagStarts(cfg, junk);
    } else {
      LagAlong(cfg, junk, acts[..|acts| - 1]);
      LagMoves(cfg, Exec(cfg, Init(cfg, junk), acts[..|acts| - 1]).value, acts[|acts| - 1]);
    }
  }

  lemma LagStarts(cfg: Config, junk: Entry)
    requires cfg.Wf()
    ensures LagInv(cfg, Init(cfg, junk))
  {
  }

  /** No query is stamped before its arrival time, so the lag is a sum of differences that do not
      wrap; it covers all queries by the time the producer joins the clients. */
  lemma LagIsExact(cfg: Config, s: State)
    requires cfg.Wf() && Reachable(cfg, s)
    ensures |s.stamps| <= cfg.N() && s.lag == Sum(s.stamps) - Sum(cfg.sched[..|s.stamps|])
    ensures forall i: nat :: i < |s.stamps| ==> cfg.sched[i] <= s.stamps[i]
    ensures s.prod.Join? || s.prod.Finished? ==> |s.stamps| == cfg.N()
  {
    var junk: Entry, acts: seq<Act> :| Init(cfg, junk).Wf(cfg) && Exec(cfg, Init(cfg, junk), acts) == Some(s);
    LagAlong(cfg, junk, acts);
    LagIsDifference(cfg.sched, s.stamps);
  }

  // ---------- A queue that holds every query ----------

  ghost predicate NeverRefused(s: State)
    requires |s.pcs| > 0
  {
    !s.prod.Restamp? && s.pcs[0] != EDone(false)
  }

  lemma RefusalNeedsLap(cfg: Config, s: State, a: Act)
    requires Inv(cfg, s) && cfg.cap >= cfg.N() && NeverRefused(s) && Do(cfg, s, a).Some?
    ensures NeverRefused(Do(cfg, s, a).value)
  {
    match a
    case Tick(_) =>
    case Produce(spurious) =>
      assert PcInv(s.ring, 0, s.pcs[0]) && ProducerInv(cfg, s);
      hide RingInv, ClientsInv, GivenInv, CountInv, LockInv;
    case Serve(c, spurious) =>
      hide ClientStep, Inv;
      ClientLeavesProducer(cfg, s, c, spurious);
  }

  lemma {:induction false} NeverRefusedAlong(cfg: Config, junk: Entry, acts: seq<Act>)
    requires cfg.Wf() && cfg.cap >= cfg.N() && Init(cfg, junk).Wf(cfg) && Exec(cfg, Init(cfg, junk), acts).Some?
    ensures NeverRefused(Exec(cfg, Init(cfg, junk), acts).value)
  {
    if acts != [] {
      var pre := acts[..|acts| - 1];
      NeverRefusedAlong(cfg, junk, pre);
      ReachableInv(cfg, junk, pre);
      RefusalNeedsLap(cfg, Exec(cfg, Init(cfg, junk), pre).value, acts[|acts| - 1]);
    }
  }

  /** With a capacity of at least the query count, try_enqueue returns false in no interleaving. */
  lemma BigQueueNeverBlocks(cfg: Config, s: State)
    requires cfg.Wf() && cfg.cap >= cfg.N() && Reachable(cfg, s)
    ensures s.Wf(cfg) && NeverRefused(s)
  {
    var junk: Entry, acts: seq<Act> :| Init(cfg, junk).Wf(cfg) && Exec(cfg, Init(cfg, junk), acts) == Some(s);
    NeverRefusedAlong(cfg, junk, acts);
  }

  // ---------- Reader/writer exclusion ----------

  /** The op choices come from the sampler and the lock decision from the driver's rule, for an
      index without its own concurrency control. */
  ghost predicate DrivenBy(cfg: Config, m: Mix, seed: nat)
  {
    && cfg.Wf()
    && (forall i: nat :: i < cfg.N() ==> cfg.ops[i] == OpStream(Table(m), seed)(i))
    && cfg.needsLock == NeedsLock(m, cfg.clients, false)
  }
}
