/** What the lock and the ops of an open-loop run keep for every capacity, also where the ring itself
    loses entries: whatever a client serves, it serves with the op of some query. */
module PipelineOps {
  import opened Wrappers
  import opened Slots
  import opened Ring
  import opened IndexLock
  import opened Pipeline
  import opened PipelineSteps
  import opened PipelineSafety

  predicate Known(cfg: Config, e: Entry) { e.op in cfg.ops }

  /** A cell that has ever been published holds an entry of some query. */
  ghost predicate CellKnown(cfg: Config, r: Ring<Entry>, k: nat)
    requires k < |r.cells|
  {
    r.cells[k].sq <= k || Known(cfg, r.cells[k].val)
  }

  ghost predicate PcKnown(cfg: Config, r: Ring<Entry>, pc: Pc<Entry>)
    requires r.Wf()
  {
    match pc
    case EStart(v) => Known(cfg, v)
    case ELoadSeq(v, _) => Known(cfg, v)
    case EBranch(v, _, _) => Known(cfg, v)
    case EWrite(v, _) => Known(cfg, v)
    case EPublish(v, pos) => Known(cfg, v) && Known(cfg, r.At(pos).val)
    case DBranch(pos, sq) => sq == pos + 1 ==> Known(cfg, r.At(pos).val)
    case DReadVal(pos) => Known(cfg, r.At(pos).val)
    case DRelease(pos, out) => Known(cfg, out) && Known(cfg, r.At(pos).val)
    case DTook(_, out) => Known(cfg, out)
    case _ => true
  }

  ghost predicate RingKnown(cfg: Config, r: Ring<Entry>, pcs: seq<Pc<Entry>>)
  {
    && r.Wf()
    && (forall k: nat :: k < r.cap ==> CellKnown(cfg, r, k))
    && (forall j: nat :: j < |pcs| ==> PcKnown(cfg, r, pcs[j]))
  }

  lemma {:induction false} SlotAtMost(t: nat, cap: nat)
    requires 0 < cap
    ensures Slot(t, cap) <= t
  {
    if t >= cap {
      SlotAtMost(t - cap, cap);
    }
  }

  /** A cell that holds an entry of some query goes on doing so, and every cell stays in order. */
  lemma CellsAfterStep(cfg: Config, r: Ring<Entry>, tid: nat, pc: Pc<Entry>, spurious: bool)
    requires r.Wf() && pc.Running() && PcKnown(cfg, r, pc) && forall k: nat :: k < r.cap ==> CellKnown(cfg, r, k)
    ensures var r' := Step(r, tid, pc, spurious).0;
            && (forall k: nat :: k < r.cap ==> CellKnown(cfg, r', k))
            && (forall k: nat :: k < r.cap && Known(cfg, r.cells[k].val) ==> Known(cfg, r'.cells[k].val))
  {
    hide Known;
    var r' := Step(r, tid, pc, spurious).0;
    forall k: nat | k < r.cap ensures CellKnown(cfg, r', k) {
      assert CellKnown(cfg, r, k);
    }
  }

  lemma PcAfterStep(cfg: Config, r: Ring<Entry>, tid: nat, pc: Pc<Entry>, spurious: bool)
    requires r.Wf() && pc.Running() && PcKnown(cfg, r, pc) && forall k: nat :: k < r.cap ==> CellKnown(cfg, r, k)
    ensures PcKnown(cfg, Step(r, tid, pc, spurious).0, Step(r, tid, pc, spurious).1)
  {
    hide Known;
    if pc.DLoadSeq? {
      SlotAtMost(pc.pos, r.cap);
      assert CellKnown(cfg, r, Slot(pc.pos, r.cap));
    }
  }

  lemma OtherPcAfterStep(cfg: Config, r: Ring<Entry>, r': Ring<Entry>, pc: Pc<Entry>)
    requires r.Wf() && r'.Wf() && r'.cap == r.cap && PcKnown(cfg, r, pc)
    requires forall k: nat :: k < r.cap && Known(cfg, r.cells[k].val) ==> Known(cfg, r'.cells[k].val)
    ensures PcKnown(cfg, r', pc)
  {
    hide Known;
  }

  lemma RingStepKnown(cfg: Config, s: State, tid: nat, spurious: bool)
    requires RingKnown(cfg, s.ring, s.pcs) && tid < |s.pcs| && s.pcs[tid].Running()
    ensures var s' := RingStep(s, tid, spurious); RingKnown(cfg, s'.ring, s'.pcs)
  {
    var s' := RingStep(s, tid, spurious);
    CellsAfterStep(cfg, s.ring, tid, s.pcs[tid], spurious);
    PcAfterStep(cfg, s.ring, tid, s.pcs[tid], spurious);
    hide PcKnown, CellKnown, Known, Step;
    forall j: nat | j < |s'.pcs| ensures PcKnown(cfg, s'.ring, s'.pcs[j]) {
      if j != tid {
        OtherPcAfterStep(cfg, s.ring, s'.ring, s.pcs[j]);
      }
    }
  }

  // ---------- Producer and clients ----------

  ghost predicate ProducerKnown(cfg: Config, p: Producer)
  {
    p.Calling? || p.Restamp? ==> Known(cfg, p.e)
  }

  ghost predicate ClientKnown(cfg: Config, pc: Pc<Entry>, cl: Client, acc: Access)
  {
    && (!cl.Polling? ==> pc.Idle?)
    && (cl.Got? || cl.Serving? ==> Known(cfg, cl.e))
    && (!cl.Serving? ==> acc.Outside?)
    && (cl.Serving? ==> !acc.Outside? && acc.op == cl.e.op)
  }

  ghost predicate OpsInv(cfg: Config, s: State)
  {
    && s.Wf(cfg)
    && RingKnown(cfg, s.ring, s.pcs)
    && ProducerKnown(cfg, s.prod)
    && (forall c: nat :: c < cfg.clients ==> ClientKnown(cfg, s.pcs[c + 1], s.cli[c], s.accs[c]))
    && LockInv(s.lock, LockPolicy(cfg), s.accs)
  }

  lemma ProducerOps(cfg: Config, s: State, spurious: bool)
    requires OpsInv(cfg, s) && ProducerStep(cfg, s, spurious).Some?
    ensures OpsInv(cfg, ProducerStep(cfg, s, spurious).value)
  {
    var s' := ProducerStep(cfg, s, spurious).value;
    hide LockInv, ClientKnown;
    if s.prod.Calling? && s.pcs[0].Running() {
      RingStepKnown(cfg, s, 0, spurious);
      hide RingKnown, Step;
    } else {
      hide RingStep;
      assert s'.ring == s.ring && PcKnown(cfg, s.ring, s'.pcs[0]);
      SamePcs(cfg, s, s', 0);
      hide RingKnown;
    }
  }

  lemma SamePcs(cfg: Config, s: State, s': State, tid: nat)
    requires RingKnown(cfg, s.ring, s.pcs) && s'.ring == s.ring && tid < |s.pcs|
    requires |s'.pcs| == |s.pcs| && s'.pcs == s.pcs[tid := s'.pcs[tid]] && PcKnown(cfg, s.ring, s'.pcs[tid])
    ensures RingKnown(cfg, s'.ring, s'.pcs)
  {
    hide PcKnown, CellKnown;
  }

  lemma ClientRingOps(cfg: Config, s: State, c: nat, spurious: bool)
    requires OpsInv(cfg, s) && c < cfg.clients && s.cli[c].Polling? && s.pcs[c + 1].Running()
    ensures OpsInv(cfg, RingStep(s, c + 1, spurious))
  {
    hide LockInv;
    assert ClientKnown(cfg, s.pcs[c + 1], s.cli[c], s.accs[c]);
    RingStepKnown(cfg, s, c + 1, spurious);
    hide RingKnown, Step;
  }

  lemma ClientLocalOps(cfg: Config, s: State, c: nat, spurious: bool)
    requires OpsInv(cfg, s) && c < cfg.clients && ClientStep(cfg, s, c, spurious).Some? && !s.pcs[c + 1].Running()
    ensures OpsInv(cfg, ClientStep(cfg, s, c, spurious).value)
  {
    var s' := ClientStep(cfg, s, c, spurious).value;
    assert ClientKnown(cfg, s.pcs[c + 1], s.cli[c], s.accs[c]);
    LocalStepLock(cfg, s, c, spurious);
    LocalStepPcs(cfg, s, c, spurious);
    assert PcKnown(cfg, s.ring, s.pcs[c + 1]);
    SamePcs(cfg, s, s', c + 1);
    LocalClientKnown(cfg, s, c, spurious);
    hide LockInv, RingKnown, ClientKnown, ClientStep;
  }

  lemma LocalClientKnown(cfg: Config, s: State, c: nat, spurious: bool)
    requires s.Wf(cfg) && c < cfg.clients && ClientStep(cfg, s, c, spurious).Some? && !s.pcs[c + 1].Running()
    requires ClientKnown(cfg, s.pcs[c + 1], s.cli[c], s.accs[c]) && PcKnown(cfg, s.ring, s.pcs[c + 1])
    ensures var s' := ClientStep(cfg, s, c, spurious).value;
            && ClientKnown(cfg, s'.pcs[c + 1], s'.cli[c], s'.accs[c]) && s'.prod == s.prod
            && (forall d: nat :: d < cfg.clients && d != c ==>
                  s'.pcs[d + 1] == s.pcs[d + 1] && s'.cli[d] == s.cli[d] && s'.accs[d] == s.accs[d])
  {
    hide RingStep, Acquire, Release, Known;
  }

  lemma InitOps(cfg: Config, junk: Entry)
    requires cfg.Wf()
    ensures OpsInv(cfg, Init(cfg, junk))
  {
  }

  lemma DoOps(cfg: Config, s: State, a: Act)
    requires OpsInv(cfg, s) && Do(cfg, s, a).Some?
    ensures OpsInv(cfg, Do(cfg, s, a).value)
  {
    match a
    case Tick(_) => hide RingKnown, LockInv, ClientKnown, ProducerKnown;
    case Produce(spurious) =>
      hide OpsInv, ProducerStep;
      ProducerOps(cfg, s, spurious);
    case Serve(c, spurious) =>
      hide OpsInv, ClientStep;
      ClientOps(cfg, s, c, spurious);
  }

  lemma ClientOps(cfg: Config, s: State, c: nat, spurious: bool)
    requires OpsInv(cfg, s) && c < cfg.clients && ClientStep(cfg, s, c, spurious).Some?
    ensures OpsInv(cfg, ClientStep(cfg, s, c, spurious).value)
  {
    if !s.pcs[c + 1].Running() {
      hide OpsInv, ClientStep;
      ClientLocalOps(cfg, s, c, spurious);
    } else {
      assert ClientKnown(cfg, s.pcs[c + 1], s.cli[c], s.accs[c]);
      hide RingKnown, LockInv, ClientKnown, ProducerKnown, RingStep;
      ClientRingOps(cfg, s, c, spurious);
    }
  }

  lemma {:induction false} OpsAlong(cfg: Config, junk: Entry, acts: seq<Act>)
    requires cfg.Wf() && Init(cfg, junk).Wf(cfg) && Exec(cfg, Init(cfg, junk), acts).Some?
    ensures OpsInv(cfg, Exec(cfg, Init(cfg, junk), acts).value)
  {
    hide OpsInv, Do;
    if acts == [] {
      InitOps(cfg, junk);
    } else {
      OpsAlong(cfg, junk, acts[..|acts| - 1]);
      DoOps(cfg, Exec(cfg, Init(cfg, junk), acts[..|acts| - 1]).value, acts[|acts| - 1]);
    }
  }

  lemma ReachableOps(cfg: Config, s: State)
    requires cfg.Wf() && Reachable(cfg, s)
    ensures OpsInv(cfg, s)
  {
    hide OpsInv;
    var junk: Entry, acts: seq<Act> :| Init(cfg, junk).Wf(cfg) && Exec(cfg, Init(cfg, junk), acts) == Some(s);
    OpsAlong(cfg, junk, acts);
  }

  /** In every reachable state of every configuration, a client in the index is there with the op of
      some query, and the lock is in step with the clients inside. */
  lemma InsideHasQuery(cfg: Config, s: State, c: nat)
    requires cfg.Wf() && Reachable(cfg, s) && c < |s.accs| && s.accs[c].Inside?
    ensures s.accs[c].op in cfg.ops && LockInv(s.lock, LockPolicy(cfg), s.accs) && |s.accs| == cfg.clients
  {
    hide RingKnown, LockInv, ProducerKnown;
    ReachableOps(cfg, s);
  }
}
