/** Every time in the records of an open-loop run is the clock value at which the thread in question
    took the step that reads the clock. */
module PipelineClock {
  import opened Ring
  import opened IndexLock
  import opened Pipeline
  import opened PipelineInv
  import opened PipelineSteps
  import opened PipelineSafety

  /** Action k of the run is a step of client c, taken at `from` when the clock showed `time`. */
  ghost predicate ClientReads(cfg: Config, s0: State, acts: seq<Act>, k: nat, c: nat, from: Client, time: nat)
    requires s0.Wf(cfg)
  {
    && k < |acts| && acts[k].Serve? && acts[k].c == c < cfg.clients && Exec(cfg, s0, acts[..k]).Some?
    && var m := Exec(cfg, s0, acts[..k]).value; m.cli[c] == from && m.now == time
  }

  ghost predicate ClientRead(cfg: Config, s0: State, acts: seq<Act>, c: nat, from: Client, time: nat)
    requires s0.Wf(cfg)
  {
    exists k: nat :: ClientReads(cfg, s0, acts, k, c, from, time)
  }

  /** Action k of the run is the producer's step that stamps query i, for the first time if `first`. */
  ghost predicate ProducerReads(cfg: Config, s0: State, acts: seq<Act>, k: nat, i: nat, first: bool, time: nat)
    requires s0.Wf(cfg)
  {
    && k < |acts| && acts[k].Produce? && Exec(cfg, s0, acts[..k]).Some?
    && var m := Exec(cfg, s0, acts[..k]).value;
       m.now == time && (m.prod == Stamp(i) || (!first && m.prod.Restamp? && m.prod.i == i))
  }

  ghost predicate ProducerRead(cfg: Config, s0: State, acts: seq<Act>, i: nat, first: bool, time: nat)
    requires s0.Wf(cfg)
  {
    exists k: nat :: ProducerReads(cfg, s0, acts, k, i, first, time)
  }

  lemma ClientReadStays(cfg: Config, s0: State, acts: seq<Act>, a: Act, c: nat, from: Client, time: nat)
    requires s0.Wf(cfg) && ClientRead(cfg, s0, acts, c, from, time)
    ensures ClientRead(cfg, s0, acts + [a], c, from, time)
  {
    hide Exec;
    var k: nat :| ClientReads(cfg, s0, acts, k, c, from, time);
    assert (acts + [a])[..k] == acts[..k];
    assert ClientReads(cfg, s0, acts + [a], k, c, from, time);
  }

  lemma ProducerReadStays(cfg: Config, s0: State, acts: seq<Act>, a: Act, i: nat, first: bool, time: nat)
    requires s0.Wf(cfg) && ProducerRead(cfg, s0, acts, i, first, time)
    ensures ProducerRead(cfg, s0, acts + [a], i, first, time)
  {
    hide Exec;
    var k: nat :| ProducerReads(cfg, s0, acts, k, i, first, time);
    assert (acts + [a])[..k] == acts[..k];
    assert ProducerReads(cfg, s0, acts + [a], k, i, first, time);
  }

  lemma ClientReadsNow(cfg: Config, s0: State, acts: seq<Act>, c: nat, spurious: bool)
    requires s0.Wf(cfg) && Exec(cfg, s0, acts).Some? && c < cfg.clients
    ensures var m := Exec(cfg, s0, acts).value;
            ClientRead(cfg, s0, acts + [Serve(c, spurious)], c, m.cli[c], m.now)
  {
    hide Exec;
    var m := Exec(cfg, s0, acts).value;
    assert (acts + [Serve(c, spurious)])[..|acts|] == acts;
    assert ClientReads(cfg, s0, acts + [Serve(c, spurious)], |acts|, c, m.cli[c], m.now);
  }

  // ---------- What a client has read so far ----------

  ghost predicate JobRead(cfg: Config, s0: State, acts: seq<Act>, c: nat, j: Job)
    requires s0.Wf(cfg)
  {
    && ClientRead(cfg, s0, acts, c, Got(j.t, j.e), j.tStart)
    && ClientRead(cfg, s0, acts, c, Served(j.t, j.e, j.tStart), j.tLookup)
    && ClientRead(cfg, s0, acts, c, Working(j.t, j.e, j.tStart, j.tLookup), j.tEnd)
  }

  ghost predicate HandRead(cfg: Config, s0: State, acts: seq<Act>, c: nat, cl: Client)
    requires s0.Wf(cfg)
  {
    match cl
    case Serving(t, e, tStart) => ClientRead(cfg, s0, acts, c, Got(t, e), tStart)
    case Served(t, e, tStart) => ClientRead(cfg, s0, acts, c, Got(t, e), tStart)
    case Working(t, e, tStart, tLookup) =>
      && ClientRead(cfg, s0, acts, c, Got(t, e), tStart)
      && ClientRead(cfg, s0, acts, c, Served(t, e, tStart), tLookup)
    case Recording(job) => JobRead(cfg, s0, acts, c, job)
    case _ => true
  }

  ghost predicate LogRead(cfg: Config, s0: State, acts: seq<Act>, c: nat, log: seq<Job>)
    requires s0.Wf(cfg)
  {
    forall a: nat :: a < |log| ==> JobRead(cfg, s0, acts, c, log[a])
  }

  lemma JobReadStays(cfg: Config, s0: State, acts: seq<Act>, a: Act, c: nat, j: Job)
    requires s0.Wf(cfg) && JobRead(cfg, s0, acts, c, j)
    ensures JobRead(cfg, s0, acts + [a], c, j)
  {
    hide ClientRead;
    ClientReadStays(cfg, s0, acts, a, c, Got(j.t, j.e), j.tStart);
    ClientReadStays(cfg, s0, acts, a, c, Served(j.t, j.e, j.tStart), j.tLookup);
    ClientReadStays(cfg, s0, acts, a, c, Working(j.t, j.e, j.tStart, j.tLookup), j.tEnd);
  }

  lemma HandReadStays(cfg: Config, s0: State, acts: seq<Act>, a: Act, c: nat, cl: Client)
    requires s0.Wf(cfg) && HandRead(cfg, s0, acts, c, cl)
    ensures HandRead(cfg, s0, acts + [a], c, cl)
  {
    hide ClientRead, JobRead;
    match cl
    case Serving(t, e, tStart) => ClientReadStays(cfg, s0, acts, a, c, Got(t, e), tStart);
    case Served(t, e, tStart) => ClientReadStays(cfg, s0, acts, a, c, Got(t, e), tStart);
    case Working(t, e, tStart, tLookup) =>
      ClientReadStays(cfg, s0, acts, a, c, Got(t, e), tStart);
      ClientReadStays(cfg, s0, acts, a, c, Served(t, e, tStart), tLookup);
    case Recording(job) => JobReadStays(cfg, s0, acts, a, c, job);
    case _ =>
  }

  lemma LogReadStays(cfg: Config, s0: State, acts: seq<Act>, a: Act, c: nat, log: seq<Job>)
    requires s0.Wf(cfg) && LogRead(cfg, s0, acts, c, log)
    ensures LogRead(cfg, s0, acts + [a], c, log)
  {
    hide JobRead;
    forall i: nat | i < |log| ensures JobRead(cfg, s0, acts + [a], c, log[i]) {
      JobReadStays(cfg, s0, acts, a, c, log[i]);
    }
  }

  /** The records of a client before and after one of its own steps. */
  ghost predicate HandMoves(cl: Client, cl': Client, now: nat, log: seq<Job>, log': seq<Job>)
  {
    && log' == (if cl.Recording? then log + [cl.job] else log)
    && (cl'.Serving? ==> cl' == cl || (cl.Got? && cl' == Serving(cl.t, cl.e, now)))
    && (cl'.Served? ==> cl.Serving? && cl' == Served(cl.t, cl.e, cl.tStart))
    && (cl'.Working? ==> cl.Served? && cl' == Working(cl.t, cl.e, cl.tStart, now))
    && (cl'.Recording? ==> cl.Working? && cl' == Recording(Job(cl.t, cl.e, cl.tStart, cl.tLookup, now)))
  }

  lemma ClientStepMoves(cfg: Config, s: State, c: nat, spurious: bool)
    requires s.Wf(cfg) && c < cfg.clients && ClientStep(cfg, s, c, spurious).Some?
    ensures var s' := ClientStep(cfg, s, c, spurious).value;
            && HandMoves(s.cli[c], s'.cli[c], s.now, s.logs[c], s'.logs[c])
            && (forall d: nat :: d < cfg.clients && d != c ==> s'.cli[d] == s.cli[d] && s'.logs[d] == s.logs[d])
            && s'.prod == s.prod && s'.stamps == s.stamps
  {
    hide Step, Acquire, Release;
  }

  /** A client that moves reads the clock where its record says so. */
  lemma HandFollows(
      cfg: Config, s0: State, acts: seq<Act>, c: nat, spurious: bool, cl': Client, log: seq<Job>, log': seq<Job>)
    requires s0.Wf(cfg) && Exec(cfg, s0, acts).Some? && c < cfg.clients
    requires var m := Exec(cfg, s0, acts).value;
             && HandRead(cfg, s0, acts, c, m.cli[c]) && LogRead(cfg, s0, acts, c, log)
             && HandMoves(m.cli[c], cl', m.now, log, log')
    ensures HandRead(cfg, s0, acts + [Serve(c, spurious)], c, cl')
    ensures LogRead(cfg, s0, acts + [Serve(c, spurious)], c, log')
  {
    hide ClientRead, Exec;
    var cl := Exec(cfg, s0, acts).value.cli[c];
    ClientReadsNow(cfg, s0, acts, c, spurious);
    HandReadStays(cfg, s0, acts, Serve(c, spurious), c, cl);
    LogReadStays(cfg, s0, acts, Serve(c, spurious), c, log);
  }

  // ---------- All threads, all runs ----------

  ghost predicate StampsRead(cfg: Config, s0: State, acts: seq<Act>, s: State)
    requires s0.Wf(cfg)
  {
    && (s.prod.Calling? || s.prod.Restamp? ==> ProducerRead(cfg, s0, acts, s.prod.i, false, s.prod.e.tEnq))
    && (forall t: nat :: t < |s.ring.given| ==> ProducerRead(cfg, s0, acts, t, false, s.ring.given[t].tEnq))
    && (forall i: nat :: i < |s.stamps| ==> ProducerRead(cfg, s0, acts, i, true, s.stamps[i]))
  }

  ghost predicate AllRead(cfg: Config, s0: State, acts: seq<Act>, s: State)
    requires s0.Wf(cfg) && s.Wf(cfg)
  {
    && (forall c: nat :: c < cfg.clients ==>
          HandRead(cfg, s0, acts, c, s.cli[c]) && LogRead(cfg, s0, acts, c, s.logs[c]))
    && StampsRead(cfg, s0, acts, s)
  }

  lemma StampsStay(cfg: Config, s0: State, acts: seq<Act>, a: Act, s: State)
    requires s0.Wf(cfg) && StampsRead(cfg, s0, acts, s)
    ensures StampsRead(cfg, s0, acts + [a], s)
  {
    hide ProducerRead;
    if s.prod.Calling? || s.prod.Restamp? {
      ProducerReadStays(cfg, s0, acts, a, s.prod.i, false, s.prod.e.tEnq);
    }
    forall t: nat | t < |s.ring.given| ensures ProducerRead(cfg, s0, acts + [a], t, false, s.ring.given[t].tEnq) {
      ProducerReadStays(cfg, s0, acts, a, t, false, s.ring.given[t].tEnq);
    }
    forall i: nat | i < |s.stamps| ensures ProducerRead(cfg, s0, acts + [a], i, true, s.stamps[i]) {
      ProducerReadStays(cfg, s0, acts, a, i, true, s.stamps[i]);
    }
  }

  lemma OthersStay(cfg: Config, s0: State, acts: seq<Act>, a: Act, s: State, c: nat)
    requires s0.Wf(cfg) && s.Wf(cfg) && AllRead(cfg, s0, acts, s) && c < cfg.clients
    ensures HandRead(cfg, s0, acts + [a], c, s.cli[c]) && LogRead(cfg, s0, acts + [a], c, s.logs[c])
  {
    hide HandRead, LogRead, StampsRead;
    HandReadStays(cfg, s0, acts, a, c, s.cli[c]);
    LogReadStays(cfg, s0, acts, a, c, s.logs[c]);
  }

  /** The producer's records before and after one of its steps. */
  ghost predicate StampMoves(s: State, s': State)
  {
    && s'.cli == s.cli && s'.logs == s.logs
    && s'.stamps == s.stamps + (if s.prod.Stamp? then [s.now] else [])
    && (s'.prod.Calling? || s'.prod.Restamp? ==>
          if s.prod.Stamp? || s.prod.Restamp? then s'.prod.i == s.prod.i && s'.prod.e.tEnq == s.now
          else s.prod.Calling? && s'.prod.i == s.prod.i && s'.prod.e == s.prod.e)
    && (s'.ring.given == s.ring.given
        || (s.prod.Calling? && |s.ring.given| == s.prod.i && s'.ring.given == s.ring.given + [s.prod.e]))
  }

  lemma ProducerStepMoves(cfg: Config, s: State, spurious: bool)
    requires Inv(cfg, s) && ProducerStep(cfg, s, spurious).Some?
    ensures StampMoves(s, ProducerStep(cfg, s, spurious).value)
  {
    assert ProducerInv(cfg, s);
    if s.prod.Calling? && s.pcs[0].Running() {
      StepHistory(s.ring, s.pcs, 0, spurious);
      assert |s.ring.given| == s.ring.enq;
      hide RingInv, ClientsInv, GivenInv, CountInv, LockInv;
    } else {
      hide RingStep, RingInv, ClientsInv, GivenInv, CountInv, LockInv;
    }
  }

  lemma StampsFollow(cfg: Config, s0: State, acts: seq<Act>, spurious: bool, s': State)
    requires s0.Wf(cfg) && Exec(cfg, s0, acts).Some?
    requires var m := Exec(cfg, s0, acts).value;
             && StampsRead(cfg, s0, acts, m) && StampMoves(m, s')
             && (m.prod.Stamp? ==> |m.stamps| == m.prod.i)
    ensures StampsRead(cfg, s0, acts + [Produce(spurious)], s')
  {
    hide ProducerRead, Exec;
    var m := Exec(cfg, s0, acts).value;
    StampsStay(cfg, s0, acts, Produce(spurious), m);
    ProducerReadsNow(cfg, s0, acts, spurious);
  }

  lemma ProducerReadsNow(cfg: Config, s0: State, acts: seq<Act>, spurious: bool)
    requires s0.Wf(cfg) && Exec(cfg, s0, acts).Some?
    ensures var m := Exec(cfg, s0, acts).value;
            && (m.prod.Stamp? || m.prod.Restamp? ==>
                  ProducerRead(cfg, s0, acts + [Produce(spurious)], m.prod.i, false, m.now))
            && (m.prod.Stamp? ==> ProducerRead(cfg, s0, acts + [Produce(spurious)], m.prod.i, true, m.now))
  {
    hide Exec;
    var m, acts' := Exec(cfg, s0, acts).value, acts + [Produce(spurious)];
    assert acts'[..|acts|] == acts;
    if m.prod.Stamp? || m.prod.Restamp? {
      assert ProducerReads(cfg, s0, acts', |acts|, m.prod.i, false, m.now);
      assert m.prod.Stamp? ==> ProducerReads(cfg, s0, acts', |acts|, m.prod.i, true, m.now);
    }
  }

  lemma ReadsMove(cfg: Config, s0: State, acts: seq<Act>, a: Act)
    requires s0.Wf(cfg) && Exec(cfg, s0, acts).Some? && Do(cfg, Exec(cfg, s0, acts).value, a).Some?
    requires var m := Exec(cfg, s0, acts).value; Inv(cfg, m) && LagInv(cfg, m) && AllRead(cfg, s0, acts, m)
    ensures AllRead(cfg, s0, acts + [a], Do(cfg, Exec(cfg, s0, acts).value, a).value)
  {
    var m := Exec(cfg, s0, acts).value;
    var s' := Do(cfg, m, a).value;
    match a
    case Tick(_) =>
      StampsStay(cfg, s0, acts, a, m);
      hide HandRead, LogRead, ProducerRead, Exec;
      forall c: nat | c < cfg.clients
        ensures HandRead(cfg, s0, acts + [a], c, s'.cli[c]) && LogRead(cfg, s0, acts + [a], c, s'.logs[c])
      {
        OthersStay(cfg, s0, acts, a, m, c);
      }
    case Produce(spurious) => ProducerReadsMove(cfg, s0, acts, spurious);
    case Serve(c, spurious) => ClientReadsMove(cfg, s0, acts, c, spurious);
  }

  lemma ProducerReadsMove(cfg: Config, s0: State, acts: seq<Act>, spurious: bool)
    requires s0.Wf(cfg) && Exec(cfg, s0, acts).Some? && ProducerStep(cfg, Exec(cfg, s0, acts).value, spurious).Some?
    requires var m := Exec(cfg, s0, acts).value; Inv(cfg, m) && LagInv(cfg, m) && AllRead(cfg, s0, acts, m)
    ensures AllRead(cfg, s0, acts + [Produce(spurious)], ProducerStep(cfg, Exec(cfg, s0, acts).value, spurious).value)
  {
    hide Exec, HandRead, LogRead, StampsRead, ProducerStep, Inv;
    var m := Exec(cfg, s0, acts).value;
    ProducerStepMoves(cfg, m, spurious);
    StampsFollow(cfg, s0, acts, spurious, ProducerStep(cfg, m, spurious).value);
    forall c: nat | c < cfg.clients
      ensures HandRead(cfg, s0, acts + [Produce(spurious)], c, m.cli[c])
      ensures LogRead(cfg, s0, acts + [Produce(spurious)], c, m.logs[c])
    {
      OthersStay(cfg, s0, acts, Produce(spurious), m, c);
    }
  }

  lemma ClientReadsMove(cfg: Config, s0: State, acts: seq<Act>, c: nat, spurious: bool)
    requires s0.Wf(cfg) && Exec(cfg, s0, acts).Some? && c < cfg.clients
    requires ClientStep(cfg, Exec(cfg, s0, acts).value, c, spurious).Some?
    requires var m := Exec(cfg, s0, acts).value; Inv(cfg, m) && AllRead(cfg, s0, acts, m)
    ensures AllRead(cfg, s0, acts + [Serve(c, spurious)], ClientStep(cfg, Exec(cfg, s0, acts).value, c, spurious).value)
  {
    hide Exec, HandRead, LogRead, ProducerRead, HandMoves, ClientStep, Inv;
    var m := Exec(cfg, s0, acts).value;
    var s' := ClientStep(cfg, m, c, spurious).value;
    ClientStepMoves(cfg, m, c, spurious);
    ClientKeepsGiven(cfg, m, c, spurious);
    StampsStay(cfg, s0, acts, Serve(c, spurious), m);
    HandFollows(cfg, s0, acts, c, spurious, s'.cli[c], m.logs[c], s'.logs[c]);
    forall d: nat | d < cfg.clients && d != c
      ensures HandRead(cfg, s0, acts + [Serve(c, spurious)], d, s'.cli[d])
      ensures LogRead(cfg, s0, acts + [Serve(c, spurious)], d, s'.logs[d])
    {
      OthersStay(cfg, s0, acts, Serve(c, spurious), m, d);
    }
  }

  lemma ClientKeepsGiven(cfg: Config, s: State, c: nat, spurious: bool)
    requires Inv(cfg, s) && c < cfg.clients && ClientStep(cfg, s, c, spurious).Some?
    ensures ClientStep(cfg, s, c, spurious).value.ring.given == s.ring.given
  {
    ClientFacts(cfg, s, c);
    if s.pcs[c + 1].Running() {
      StepHistory(s.ring, s.pcs, c + 1, spurious);
      hide Inv, Step, LogInv;
    } else {
      hide Inv, LogInv;
      LocalStepPcs(cfg, s, c, spurious);
    }
  }

  lemma {:induction false} ReadsAlong(cfg: Config, junk: Entry, acts: seq<Act>)
    requires cfg.Wf() && RoomyEnough(cfg) && Init(cfg, junk).Wf(cfg) && Exec(cfg, Init(cfg, junk), acts).Some?
    ensures AllRead(cfg, Init(cfg, junk), acts, Exec(cfg, Init(cfg, junk), acts).value)
  {
    hide Do, Inv, LagInv, AllRead;
    if acts == [] {
      InitRead(cfg, junk);
    } else {
      var pre, a := acts[..|acts| - 1], acts[|acts| - 1];
      ReadsAlong(cfg, junk, pre);
      ReachableInv(cfg, junk, pre);
      LagAlong(cfg, junk, pre);
      ReadsMove(cfg, Init(cfg, junk), pre, a);
      assert pre + [a] == acts;
    }
  }

  lemma InitRead(cfg: Config, junk: Entry)
    requires cfg.Wf() && Init(cfg, junk).Wf(cfg)
    ensures AllRead(cfg, Init(cfg, junk), [], Init(cfg, junk))
  {
  }

  /** The four times of every finished query are clock readings: the client read the clock at tStart,
      tLookup and tEnd in the steps that follow the dequeue, the index access and the workload of that
      query, and the producer read tEnq when it stamped that query. */
  lemma TimesAreReadings(cfg: Config, junk: Entry, acts: seq<Act>, c: nat, a: nat)
    requires cfg.Wf() && RoomyEnough(cfg) && Init(cfg, junk).Wf(cfg) && Exec(cfg, Init(cfg, junk), acts).Some?
    requires var s := Exec(cfg, Init(cfg, junk), acts).value; c < cfg.clients && a < |s.logs[c]|
    ensures var (s0, j) := (Init(cfg, junk), Exec(cfg, Init(cfg, junk), acts).value.logs[c][a]);
            && ClientRead(cfg, s0, acts, c, Got(j.t, j.e), j.tStart)
            && ClientRead(cfg, s0, acts, c, Served(j.t, j.e, j.tStart), j.tLookup)
            && ClientRead(cfg, s0, acts, c, Working(j.t, j.e, j.tStart, j.tLookup), j.tEnd)
            && ProducerRead(cfg, s0, acts, j.t, false, j.e.tEnq)
  {
    hide ClientRead, ProducerRead, Exec, RingInv, CountInv, LockInv, ProducerInv;
    var s := Exec(cfg, Init(cfg, junk), acts).value;
    ReadsAlong(cfg, junk, acts);
    ReachableInv(cfg, junk, acts);
    assert LogInv(cfg, s, c) && JobInv(s, c, s.logs[c][a]);
    assert JobRead(cfg, Init(cfg, junk), acts, c, s.logs[c][a]);
  }

  /** So are the first stamps, from which the lag is computed. */
  lemma StampsAreReadings(cfg: Config, junk: Entry, acts: seq<Act>, i: nat)
    requires cfg.Wf() && RoomyEnough(cfg) && Init(cfg, junk).Wf(cfg) && Exec(cfg, Init(cfg, junk), acts).Some?
    requires i < |Exec(cfg, Init(cfg, junk), acts).value.stamps|
    ensures ProducerRead(cfg, Init(cfg, junk), acts, i, true, Exec(cfg, Init(cfg, junk), acts).value.stamps[i])
  {
    ReadsAlong(cfg, junk, acts);
  }
}
