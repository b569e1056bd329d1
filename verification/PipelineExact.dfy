/** Exactly which configurations of the open-loop mode always drain. */
module PipelineExact {
  import opened Wrappers
  import opened OpMix
  import opened Slots
  import opened Ring
  import opened Pipeline
  import opened PipelineInv
  import opened PipelineSafety
  import opened PipelineMoves
  import opened PipelineProgress

  /** Some continuation of s completes the run with every query executed exactly once. */
  ghost predicate CanDrain(cfg: Config, s: State)
    requires s.Wf(cfg)
  {
    exists acts: seq<Act> ::
      Exec(cfg, s, acts).Some? && Complete(Exec(cfg, s, acts).value) && Drained(cfg, Exec(cfg, s, acts).value)
  }

  lemma ReachFurther(cfg: Config, s: State, acts: seq<Act>)
    requires cfg.Wf() && s.Wf(cfg) && Reachable(cfg, s) && Exec(cfg, s, acts).Some?
    ensures Reachable(cfg, Exec(cfg, s, acts).value)
  {
    var junk: Entry, before: seq<Act> :| Init(cfg, junk).Wf(cfg) && Exec(cfg, Init(cfg, junk), before) == Some(s);
    ExecAppend(cfg, Init(cfg, junk), before, acts);
    assert Exec(cfg, Init(cfg, junk), before + acts) == Exec(cfg, s, acts);
  }

  /** No dead ends: every reachable state can be continued to a drained, complete run. */
  lemma NoDeadEnds(cfg: Config, s: State)
    requires cfg.Wf() && RoomyEnough(cfg) && (cfg.clients >= 1 || cfg.N() == 0) && Reachable(cfg, s)
    ensures s.Wf(cfg) && CanDrain(cfg, s)
  {
    ReachableHolds(cfg, s);
    var acts := CanComplete(cfg, s);
    var e := Exec(cfg, s, acts).value;
    ReachFurther(cfg, s, acts);
    ReachableHolds(cfg, e);
    assert ProducerInv(cfg, e);
    DrainSafety(cfg, e);
  }

  // ---------- Without clients nothing is consumed ----------

  lemma {:induction false} NothingConsumed(cfg: Config, s: State, acts: seq<Act>)
    requires s.Wf(cfg) && cfg.clients == 0 && s.consumed == 0 && Exec(cfg, s, acts).Some?
    ensures Exec(cfg, s, acts).value.consumed == 0
  {
    if acts != [] {
      NothingConsumed(cfg, s, acts[..|acts| - 1]);
    }
  }

  // ---------- One cell and two queries: a state from which no run completes ----------

  /** The value of ticket 0 has been overwritten. Clients wait for a seq of 1 that is gone for good. */
  ghost predicate Stuck(cfg: Config, s: State)
  {
    && s.Wf(cfg) && cfg.cap == 1 && cfg.clients >= 1 && !s.prod.Finished?
    && s.ring.deq == 0 && s.ring.enq >= 2 && s.ring.cells[0].sq >= 2
    && !Dequeues(s.pcs[0]) && (s.pcs[0].EWrite? || s.pcs[0].EPublish? ==> s.pcs[0].pos >= 1)
    && forall c: nat :: c < cfg.clients ==> StuckClient(s, c)
  }

  predicate Dequeues<T>(pc: Pc<T>)
  {
    pc.DStart? || pc.DLoadSeq? || pc.DBranch? || pc.DReadVal? || pc.DRelease?
  }

  ghost predicate StuckClient(s: State, c: nat)
    requires c < |s.cli| && c + 1 < |s.pcs|
  {
    && s.cli[c].Polling?
    && (match s.pcs[c + 1]
        case Idle => true
        case DStart => true
        case DLoadSeq(pos) => pos == 0
        case DBranch(pos, sq) => pos == 0 && sq >= 2
        case _ => false)
  }

  lemma StuckStays(cfg: Config, s: State, a: Act)
    requires Stuck(cfg, s) && Do(cfg, s, a).Some?
    ensures Stuck(cfg, Do(cfg, s, a).value)
  {
    match a
    case Tick(_) =>
      forall c: nat | c < cfg.clients ensures StuckClient(Do(cfg, s, a).value, c) {
        SameStuckClient(s, Do(cfg, s, a).value, c);
      }
    case Produce(spurious) => StuckProducer(cfg, s, spurious);
    case Serve(c, spurious) => StuckServe(cfg, s, c, spurious);
  }

  /** The overwritten cell as a ring call of the producer sees and leaves it. */
  ghost predicate StuckRing(r: Ring<Entry>, pc: Pc<Entry>)
  {
    && r.Wf() && r.cap == 1 && r.deq == 0 && r.enq >= 2 && r.cells[0].sq >= 2
    && !Dequeues(pc) && (pc.EWrite? || pc.EPublish? ==> pc.pos >= 1)
  }

  lemma StuckRingStays(r: Ring<Entry>, tid: nat, pc: Pc<Entry>, spurious: bool)
    requires StuckRing(r, pc) && pc.Running()
    ensures StuckRing(Step(r, tid, pc, spurious).0, Step(r, tid, pc, spurious).1)
  {
    SlotsOfOneCell(r);
  }

  lemma StuckProducer(cfg: Config, s: State, spurious: bool)
    requires Stuck(cfg, s) && ProducerStep(cfg, s, spurious).Some?
    ensures Stuck(cfg, ProducerStep(cfg, s, spurious).value)
  {
    hide Step, StuckClient;
    var s' := ProducerStep(cfg, s, spurious).value;
    NotAllExited(s, 0);
    if s.pcs[0].Running() {
      StuckRingStays(s.ring, 0, s.pcs[0], spurious);
    }
    assert s'.cli == s.cli && forall i :: 1 <= i < |s.pcs| ==> s'.pcs[i] == s.pcs[i];
    forall c: nat | c < cfg.clients ensures StuckClient(s', c) {
      SameStuckClient(s, s', c);
    }
  }

  lemma NotAllExited(s: State, c: nat)
    requires c < |s.cli| && c + 1 < |s.pcs| && StuckClient(s, c)
    ensures !AllExited(s)
  {
  }

  lemma SameStuckClient(s: State, s': State, c: nat)
    requires c < |s.cli| && c + 1 < |s.pcs| && StuckClient(s, c)
    requires s'.cli == s.cli && |s'.pcs| == |s.pcs| && s'.pcs[c + 1] == s.pcs[c + 1]
    ensures StuckClient(s', c)
  {
  }

  lemma StuckServe(cfg: Config, s: State, c: nat, spurious: bool)
    requires Stuck(cfg, s) && c < cfg.clients && ClientStep(cfg, s, c, spurious).Some?
    ensures Stuck(cfg, ClientStep(cfg, s, c, spurious).value)
  {
    var s' := ClientStep(cfg, s, c, spurious).value;
    SlotsOfOneCell(s.ring);
    assert StuckClient(s, c);
    forall d: nat | d < cfg.clients ensures StuckClient(s', d) {
      assert StuckClient(s, d);
    }
  }

  lemma SlotsOfOneCell(r: Ring<Entry>)
    requires r.Wf() && r.cap == 1
    ensures forall t: nat :: r.At(t) == r.cells[0]
  {
    forall t: nat ensures r.At(t) == r.cells[0] {
      SlotOne(t);
    }
  }

  lemma {:induction false} StuckForever(cfg: Config, s: State, acts: seq<Act>)
    requires Stuck(cfg, s) && Exec(cfg, s, acts).Some?
    ensures Stuck(cfg, Exec(cfg, s, acts).value)
  {
    if acts != [] {
      StuckForever(cfg, s, acts[..|acts| - 1]);
      StuckStays(cfg, Exec(cfg, s, acts[..|acts| - 1]).value, acts[|acts| - 1]);
    }
  }

  /** With one cell, two queries and at least one client, a run can get stuck for good. */
  lemma OneCellGetsStuck(cfg: Config, junk: Entry) returns (s: State)
    requires cfg.Wf() && cfg.cap == 1 && cfg.N() >= 2 && cfg.clients >= 1
    ensures Reachable(cfg, s) && Stuck(cfg, s)
  {
    var s0 := Init(cfg, junk);
    assert Exec(cfg, s0, []) == Some(s0);
    var s1 := EnqueueOne(cfg, s0, 0, 9);
    SlotOne(1);
    s := EnqueueOne(cfg, s1, 1, 9);
    forall c: nat | c < cfg.clients ensures StuckClient(s, c) {
      assert s.pcs[c + 1] == s1.pcs[c + 1] == s0.pcs[c + 1];
    }
  }

  /** Every reachable state of a configuration can drain if and only if there is nothing to do, or
      there is a client and the ring has two cells or only one query to carry. */
  lemma DrainsExactly(cfg: Config)
    requires cfg.Wf()
    ensures (forall s | Reachable(cfg, s) :: s.Wf(cfg) && CanDrain(cfg, s))
            <==> cfg.N() == 0 || (cfg.clients >= 1 && (cfg.cap >= 2 || cfg.N() <= 1))
  {
    var junk := Entry(0, 0, Search, 0);
    if cfg.N() == 0 || (cfg.clients >= 1 && (cfg.cap >= 2 || cfg.N() <= 1)) {
      forall s | Reachable(cfg, s) ensures s.Wf(cfg) && CanDrain(cfg, s) {
        NoDeadEnds(cfg, s);
      }
    } else if cfg.clients == 0 {
      var s := Init(cfg, junk);
      InitHolds(cfg, junk);
      assert Exec(cfg, s, []) == Some(s);
      assert Reachable(cfg, s);
      forall acts: seq<Act> | Exec(cfg, s, acts).Some? ensures !Drained(cfg, Exec(cfg, s, acts).value) {
        NothingConsumed(cfg, s, acts);
      }
      assert !CanDrain(cfg, s);
    } else {
      var s := OneCellGetsStuck(cfg, junk);
      forall acts: seq<Act> | Exec(cfg, s, acts).Some? ensures !Complete(Exec(cfg, s, acts).value) {
        StuckForever(cfg, s, acts);
      }
      assert !CanDrain(cfg, s);
    }
  }
}
