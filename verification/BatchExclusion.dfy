/** Exactly which batch runs can bring a writer into the index next to another worker. */
module BatchExclusion {
  import opened Wrappers
  import opened OpMix
  import opened Lcg
  import opened IndexLock
  import opened Shards
  import opened BatchRun

  /** Worker w draws a write for the a-th query of its shard, and worker v has a query to serve. */
  ghost predicate Collide(cfg: Config, w: nat, v: nat, a: nat)
    requires cfg.Wf()
  {
    && w < cfg.W() && v < cfg.W() && w != v
    && a < cfg.Hi(w) - cfg.Lo(w) && OpStream(Table(cfg.mix), cfg.seeds[w])(a).IsWrite()
    && cfg.Lo(v) < cfg.Hi(v)
  }

  lemma ReachStep(cfg: Config, s: State, a: Act) returns (s': State)
    requires cfg.Wf() && s.Wf(cfg) && Reachable(cfg, s) && Do(cfg, s, a).Some?
    ensures s'.Wf(cfg) && Reachable(cfg, s') && Do(cfg, s, a) == Some(s')
  {
    var acts: seq<Act> :| Init(cfg).Wf(cfg) && Exec(cfg, Init(cfg), acts) == Some(s);
    s' := Do(cfg, s, a).value;
    assert (acts + [a])[..|acts|] == acts;
    assert Exec(cfg, Init(cfg), acts + [a]) == Some(s');
  }

  /** The first k workers have come to the gate. */
  lemma {:induction false} Gather(cfg: Config, k: nat) returns (s: State)
    requires cfg.Wf() && k <= cfg.W()
    ensures s.Wf(cfg) && Reachable(cfg, s) && s.gate == cfg.W() - k
    ensures forall w: nat :: w < cfg.W() ==> s.ws[w] == (if w < k then AtGate else Arriving) && s.accs[w] == Outside
  {
    if k == 0 {
      s := Init(cfg);
      assert Exec(cfg, s, []) == Some(s);
    } else {
      s := Gather(cfg, k - 1);
      s := ReachStep(cfg, s, Work(k - 1));
    }
  }

  /** Between s and s' nobody but worker w has moved. */
  ghost predicate OnlyMoves(cfg: Config, s: State, s': State, w: nat)
    requires s.Wf(cfg) && s'.Wf(cfg)
  {
    s'.gate == s.gate && forall v: nat :: v < cfg.W() && v != w ==> s'.ws[v] == s.ws[v] && s'.accs[v] == s.accs[v]
  }

  /** Without the lock, a worker at the open gate can serve its first a queries undisturbed. */
  lemma {:induction false} ServeFirst(cfg: Config, s: State, w: nat, a: nat) returns (s': State)
    requires cfg.Wf() && !cfg.useLock && s.Wf(cfg) && Reachable(cfg, s) && s.gate == 0
    requires w < cfg.W() && s.ws[w] == AtGate && s.accs[w] == Outside && a <= cfg.Hi(w) - cfg.Lo(w)
    ensures s'.Wf(cfg) && Reachable(cfg, s') && OnlyMoves(cfg, s, s', w)
    ensures s'.ws[w] == Looping(cfg.Lo(w) + a, Draw(cfg.seeds[w], a)) && s'.accs[w] == Outside
  {
    hide Begin, End, OpAt, Next;
    if a == 0 {
      s' := ReachStep(cfg, s, Work(w));
    } else {
      s' := ServeFirst(cfg, s, w, a - 1);
      s' := ServeOne(cfg, s', w);
    }
  }

  lemma ServeOne(cfg: Config, s: State, w: nat) returns (s': State)
    requires cfg.Wf() && !cfg.useLock && s.Wf(cfg) && Reachable(cfg, s) && w < cfg.W()
    requires s.ws[w].Looping? && s.ws[w].i < cfg.Hi(w) && s.accs[w] == Outside
    ensures s'.Wf(cfg) && Reachable(cfg, s') && OnlyMoves(cfg, s, s', w)
    ensures s'.ws[w] == Looping(s.ws[w].i + 1, Next(s.ws[w].lcg)) && s'.accs[w] == Outside
  {
    hide Begin, End, OpAt, Next;
    s' := Enter(cfg, s, w);
    s' := ReachStep(cfg, s', Work(w));
    s' := ReachStep(cfg, s', Work(w));
    s' := ReachStep(cfg, s', Work(w));
  }

  /** The next query of a worker, up to the inside of the index. */
  lemma Enter(cfg: Config, s: State, w: nat) returns (s': State)
    requires cfg.Wf() && !cfg.useLock && s.Wf(cfg) && Reachable(cfg, s) && w < cfg.W()
    requires s.ws[w].Looping? && s.ws[w].i < cfg.Hi(w) && s.accs[w] == Outside
    ensures s'.Wf(cfg) && Reachable(cfg, s') && OnlyMoves(cfg, s, s', w)
    ensures s'.ws[w].Serving? && s'.ws[w].i == s.ws[w].i && s'.ws[w].lcg == Next(s.ws[w].lcg)
    ensures s'.accs[w] == Inside(OpAt(cfg.mix, Next(s.ws[w].lcg) % BINS))
  {
    hide Begin, End, OpAt, Next;
    s' := ReachStep(cfg, s, Work(w));
    s' := ReachStep(cfg, s', Work(w));
  }

  /** All workers meet at the gate, w serves its shard up to the write and enters, v enters its first
      query. */
  lemma ReachCollision(cfg: Config, w: nat, v: nat, a: nat) returns (s: State)
    requires cfg.Wf() && !cfg.useLock && Collide(cfg, w, v, a)
    ensures Reachable(cfg, s) && !WritersAlone(s.accs)
  {
    hide Begin, End, OpAt, Next;
    s := Gather(cfg, cfg.W());
    s := ServeFirst(cfg, s, w, a);
    s := Enter(cfg, s, w);
    assert Draw(cfg.seeds[w], a + 1) == Next(Draw(cfg.seeds[w], a));
    s := ServeFirst(cfg, s, v, 0);
    s := Enter(cfg, s, v);
    assert s.accs[w].Inside? && s.accs[v].Inside? && s.accs[w].op.IsWrite();
  }

  /** A writer in company means that its worker drew a write and that the other one had a query. */
  lemma CompanyCollides(cfg: Config, s: State, w: nat, v: nat)
    requires cfg.Wf() && Reachable(cfg, s) && w < |s.accs| && v < |s.accs| && w != v
    requires s.accs[w].Inside? && s.accs[v].Inside? && s.accs[w].op.IsWrite()
    ensures !cfg.useLock && exists a: nat :: Collide(cfg, w, v, a)
  {
    ReachableHolds(cfg, s);
    assert WorkerInv(cfg, s, w) && WorkerInv(cfg, s, v);
    ShardsTouch(cfg.N(), cfg.W(), v);
    var a := |s.logs[w]|;
    assert Collide(cfg, w, v, a);
    assert s.lock.writer == Some(w) ==> v !in s.lock.readers && s.lock.writer != Some(v);
  }

  /** For every batch configuration: no reachable state has a writer in company if and only if the
      workers lock, or no two of them can collide. */
  lemma ExclusionExact(cfg: Config)
    requires cfg.Wf()
    ensures (forall s | Reachable(cfg, s) :: WritersAlone(s.accs))
            <==> cfg.useLock || !exists w: nat, v: nat, a: nat :: Collide(cfg, w, v, a)
  {
    if !cfg.useLock && exists w: nat, v: nat, a: nat :: Collide(cfg, w, v, a) {
      var w: nat, v: nat, a: nat :| Collide(cfg, w, v, a);
      var s := ReachCollision(cfg, w, v, a);
    } else {
      forall s | Reachable(cfg, s) ensures WritersAlone(s.accs) {
        forall w: nat, v: nat | w < |s.accs| && v < |s.accs| && w != v && s.accs[w].Inside? && s.accs[v].Inside?
          ensures !s.accs[w].op.IsWrite()
        {
          if s.accs[w].op.IsWrite() {
            CompanyCollides(cfg, s, w, v);
          }
        }
      }
    }
  }

  /** A worker with at least 1024 queries draws every entry of the table. */
  lemma WriteIsDrawn(cfg: Config, w: nat) returns (a: nat)
    requires cfg.Wf() && w < cfg.W() && HasWriteEntry(cfg.mix)
    ensures a < BINS && OpStream(Table(cfg.mix), cfg.seeds[w])(a).IsWrite()
  {
    var b: nat :| b < BINS && OpAt(cfg.mix, b).IsWrite();
    a := EveryBinIsDrawn(Table(cfg.mix), cfg.seeds[w], b);
  }

  /** With the driver's lock rule, two or more workers and at least 1024 queries for each, exclusion
      holds in every reachable state if and only if the mix is one the rule is made for, whatever
      the seeds. */
  lemma RuleExact(cfg: Config)
    requires cfg.Wf() && cfg.W() >= 2 && Per(cfg.N(), cfg.W()) >= BINS
    requires cfg.useLock == NeedsLock(cfg.mix, cfg.W(), false)
    ensures (forall s | Reachable(cfg, s) :: WritersAlone(s.accs)) <==> ElisionOk(cfg.mix, false)
  {
    ExclusionExact(cfg);
    if !cfg.useLock && HasWriteEntry(cfg.mix) {
      var a := WriteIsDrawn(cfg, 0);
      ShardsTouch(cfg.N(), cfg.W(), 0);
      ShardsTouch(cfg.N(), cfg.W(), 1);
      LongShard(cfg.N(), cfg.W(), 0);
      LongShard(cfg.N(), cfg.W(), 1);
      assert Collide(cfg, 0, 1, a);
    } else if !cfg.useLock {
      forall w: nat, v: nat, a: nat ensures !Collide(cfg, w, v, a) {
        if w < cfg.W() {
          DrawnIsInTable(cfg.mix, cfg.seeds[w], a);
        }
      }
    }
  }
}
