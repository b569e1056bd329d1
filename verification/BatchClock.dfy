/** Every time in the records of a batch run is the clock value at which the worker took the step that
    reads the clock. */
module BatchClock {
  import opened OpMix
  import opened Lcg
  import opened IndexLock
  import opened Shards
  import opened BatchRun

  /** The three places at which a worker reads the clock for query i. */
  datatype Place = AtStart | AtLookup | AtEnd

  predicate Reads(x: Worker, place: Place, i: nat)
  {
    match place
    case AtStart => x.Looping? && x.i == i
    case AtLookup => x.Served? && x.i == i
    case AtEnd => x.Working? && x.i == i
  }

  /** Action k of the run is the step of worker w that reads the clock there, and it showed `time`. */
  ghost predicate WorkerReads(cfg: Config, acts: seq<Act>, k: nat, w: nat, place: Place, i: nat, time: nat)
    requires cfg.Wf()
  {
    && k < |acts| && acts[k] == Work(w) && w < cfg.W() && Init(cfg).Wf(cfg) && Exec(cfg, Init(cfg), acts[..k]).Some?
    && var m := Exec(cfg, Init(cfg), acts[..k]).value; Reads(m.ws[w], place, i) && m.now == time
  }

  ghost predicate WorkerRead(cfg: Config, acts: seq<Act>, w: nat, place: Place, i: nat, time: nat)
    requires cfg.Wf()
  {
    exists k: nat :: WorkerReads(cfg, acts, k, w, place, i, time)
  }

  lemma ReadStays(cfg: Config, acts: seq<Act>, a: Act, w: nat, place: Place, i: nat, time: nat)
    requires cfg.Wf() && WorkerRead(cfg, acts, w, place, i, time)
    ensures WorkerRead(cfg, acts + [a], w, place, i, time)
  {
    hide Exec, Reads;
    var k: nat :| WorkerReads(cfg, acts, k, w, place, i, time);
    assert (acts + [a])[..k] == acts[..k];
    assert WorkerReads(cfg, acts + [a], k, w, place, i, time);
  }

  lemma ReadNow(cfg: Config, acts: seq<Act>, w: nat, place: Place, i: nat)
    requires cfg.Wf() && Init(cfg).Wf(cfg) && Exec(cfg, Init(cfg), acts).Some? && w < cfg.W()
    requires Reads(Exec(cfg, Init(cfg), acts).value.ws[w], place, i)
    ensures WorkerRead(cfg, acts + [Work(w)], w, place, i, Exec(cfg, Init(cfg), acts).value.now)
  {
    hide Exec, Reads;
    var acts' := acts + [Work(w)];
    assert acts'[..|acts|] == acts;
    assert WorkerReads(cfg, acts', |acts|, w, place, i, Exec(cfg, Init(cfg), acts).value.now);
  }

  ghost predicate JobRead(cfg: Config, acts: seq<Act>, w: nat, j: Job)
    requires cfg.Wf()
  {
    && WorkerRead(cfg, acts, w, AtStart, j.i, j.tStart)
    && WorkerRead(cfg, acts, w, AtLookup, j.i, j.tLookup)
    && WorkerRead(cfg, acts, w, AtEnd, j.i, j.tEnd)
  }

  ghost predicate HandRead(cfg: Config, acts: seq<Act>, w: nat, x: Worker)
    requires cfg.Wf()
  {
    && (x.Serving? || x.Served? || x.Working? ==> WorkerRead(cfg, acts, w, AtStart, x.i, x.tStart))
    && (x.Working? ==> WorkerRead(cfg, acts, w, AtLookup, x.i, x.tLookup))
  }

  ghost predicate LogRead(cfg: Config, acts: seq<Act>, w: nat, log: seq<Job>)
    requires cfg.Wf()
  {
    forall a: nat :: a < |log| ==> JobRead(cfg, acts, w, log[a])
  }

  ghost predicate AllRead(cfg: Config, acts: seq<Act>, s: State)
    requires s.Wf(cfg)
  {
    forall w: nat :: w < cfg.W() ==> HandRead(cfg, acts, w, s.ws[w]) && LogRead(cfg, acts, w, s.logs[w])
  }

  lemma RecordsStay(cfg: Config, acts: seq<Act>, a: Act, w: nat, x: Worker, log: seq<Job>)
    requires cfg.Wf() && HandRead(cfg, acts, w, x) && LogRead(cfg, acts, w, log)
    ensures HandRead(cfg, acts + [a], w, x) && LogRead(cfg, acts + [a], w, log)
  {
    hide WorkerRead;
    if x.Serving? || x.Served? || x.Working? {
      ReadStays(cfg, acts, a, w, AtStart, x.i, x.tStart);
    }
    if x.Working? {
      ReadStays(cfg, acts, a, w, AtLookup, x.i, x.tLookup);
    }
    forall b: nat | b < |log| ensures JobRead(cfg, acts + [a], w, log[b]) {
      assert JobRead(cfg, acts, w, log[b]);
      ReadStays(cfg, acts, a, w, AtStart, log[b].i, log[b].tStart);
      ReadStays(cfg, acts, a, w, AtLookup, log[b].i, log[b].tLookup);
      ReadStays(cfg, acts, a, w, AtEnd, log[b].i, log[b].tEnd);
    }
  }

  /** The records of a worker before and after one of its own steps. */
  ghost predicate HandMoves(x: Worker, x': Worker, now: nat, log: seq<Job>, log': seq<Job>)
  {
    && (x'.Serving? ==> x' == x || (x.Looping? && x'.i == x.i && x'.tStart == now))
    && (x'.Served? ==> x.Serving? && x'.i == x.i && x'.tStart == x.tStart)
    && (x'.Working? ==> x.Served? && x'.i == x.i && x'.tStart == x.tStart && x'.tLookup == now)
    && (if x.Working? then
          && |log'| == |log| + 1 && log'[..|log|] == log
          && log'[|log|].i == x.i && log'[|log|].tStart == x.tStart
          && log'[|log|].tLookup == x.tLookup && log'[|log|].tEnd == now
        else log' == log)
  }

  lemma StepMoves(cfg: Config, s: State, w: nat)
    requires s.Wf(cfg) && w < cfg.W() && WorkerStep(cfg, s, w).Some?
    ensures var s' := WorkerStep(cfg, s, w).value;
            && HandMoves(s.ws[w], s'.ws[w], s.now, s.logs[w], s'.logs[w])
            && (forall v: nat :: v < cfg.W() && v != w ==> s'.ws[v] == s.ws[v] && s'.logs[v] == s.logs[v])
  {
    hide Acquire, Release, OpAt, Next, Begin, End;
  }

  lemma HandFollows(cfg: Config, acts: seq<Act>, w: nat, x': Worker, log: seq<Job>, log': seq<Job>)
    requires cfg.Wf() && Init(cfg).Wf(cfg) && Exec(cfg, Init(cfg), acts).Some? && w < cfg.W()
    requires var m := Exec(cfg, Init(cfg), acts).value;
             && HandRead(cfg, acts, w, m.ws[w]) && LogRead(cfg, acts, w, log)
             && HandMoves(m.ws[w], x', m.now, log, log')
    ensures HandRead(cfg, acts + [Work(w)], w, x') && LogRead(cfg, acts + [Work(w)], w, log')
  {
    hide WorkerRead, Exec, Reads;
    var x := Exec(cfg, Init(cfg), acts).value.ws[w];
    RecordsStay(cfg, acts, Work(w), w, x, log);
    if x.Looping? {
      PlaceOf(x);
      ReadNow(cfg, acts, w, AtStart, x.i);
    } else if x.Served? {
      PlaceOf(x);
      ReadNow(cfg, acts, w, AtLookup, x.i);
    } else if x.Working? {
      PlaceOf(x);
      ReadNow(cfg, acts, w, AtEnd, x.i);
    }
    forall b: nat | b < |log'| ensures JobRead(cfg, acts + [Work(w)], w, log'[b]) {
      assert b < |log| ==> log'[..|log|][b] == log[b] == log'[b];
    }
  }

  lemma PlaceOf(x: Worker)
    ensures x.Looping? ==> Reads(x, AtStart, x.i)
    ensures x.Served? ==> Reads(x, AtLookup, x.i)
    ensures x.Working? ==> Reads(x, AtEnd, x.i)
  {
  }

  lemma {:induction false} ReadsAlong(cfg: Config, acts: seq<Act>)
    requires cfg.Wf() && Init(cfg).Wf(cfg) && Exec(cfg, Init(cfg), acts).Some?
    ensures AllRead(cfg, acts, Exec(cfg, Init(cfg), acts).value)
  {
    hide WorkerStep, HandRead, LogRead, HandMoves;
    if acts == [] {
      InitRead(cfg);
    } else {
      var pre, a := acts[..|acts| - 1], acts[|acts| - 1];
      ReadsAlong(cfg, pre);
      ReadsMove(cfg, pre, a);
      assert pre + [a] == acts;
    }
  }

  lemma InitRead(cfg: Config)
    requires cfg.Wf() && Init(cfg).Wf(cfg)
    ensures AllRead(cfg, [], Init(cfg))
  {
  }

  lemma ReadsMove(cfg: Config, acts: seq<Act>, a: Act)
    requires cfg.Wf() && Init(cfg).Wf(cfg) && Exec(cfg, Init(cfg), acts).Some?
    requires Do(cfg, Exec(cfg, Init(cfg), acts).value, a).Some? && AllRead(cfg, acts, Exec(cfg, Init(cfg), acts).value)
    ensures AllRead(cfg, acts + [a], Do(cfg, Exec(cfg, Init(cfg), acts).value, a).value)
  {
    hide Exec, WorkerStep, HandRead, LogRead, HandMoves;
    var m := Exec(cfg, Init(cfg), acts).value;
    var s' := Do(cfg, m, a).value;
    if a.Work? {
      StepMoves(cfg, m, a.w);
      HandFollows(cfg, acts, a.w, s'.ws[a.w], m.logs[a.w], s'.logs[a.w]);
    }
    forall v: nat | v < cfg.W() && !(a.Work? && v == a.w)
      ensures HandRead(cfg, acts + [a], v, s'.ws[v]) && LogRead(cfg, acts + [a], v, s'.logs[v])
    {
      RecordsStay(cfg, acts, a, v, m.ws[v], m.logs[v]);
    }
  }

  /** The three times of every served query are readings of the clock by the worker that served it, taken
      at the start of that query, after its index access and after its workload. */
  lemma TimesAreReadings(cfg: Config, acts: seq<Act>, w: nat, a: nat)
    requires cfg.Wf() && Init(cfg).Wf(cfg) && Exec(cfg, Init(cfg), acts).Some?
    requires w < cfg.W() && a < |Exec(cfg, Init(cfg), acts).value.logs[w]|
    ensures var j := Exec(cfg, Init(cfg), acts).value.logs[w][a];
            && WorkerRead(cfg, acts, w, AtStart, j.i, j.tStart)
            && WorkerRead(cfg, acts, w, AtLookup, j.i, j.tLookup)
            && WorkerRead(cfg, acts, w, AtEnd, j.i, j.tEnd)
  {
    hide WorkerRead, Exec;
    ReadsAlong(cfg, acts);
    assert JobRead(cfg, acts, w, Exec(cfg, Init(cfg), acts).value.logs[w][a]);
  }
}
