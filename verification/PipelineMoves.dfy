/** Stretches of open-loop runs in which one thread moves and the others stand still. */
module PipelineMoves {
  import opened Wrappers
  import opened Slots
  import opened Ring
  import opened IndexLock
  import opened Pipeline
  import opened PipelineSafety

  lemma ReachStep(cfg: Config, s: State, a: Act) returns (s': State)
    requires s.Wf(cfg) && Reachable(cfg, s) && Do(cfg, s, a).Some?
    ensures s'.Wf(cfg) && Reachable(cfg, s') && Do(cfg, s, a) == Some(s')
  {
    var junk: Entry, acts: seq<Act> :| Init(cfg, junk).Wf(cfg) && Exec(cfg, Init(cfg, junk), acts) == Some(s);
    s' := Do(cfg, s, a).value;
    assert (acts + [a])[..|acts|] == acts;
    assert Exec(cfg, Init(cfg, junk), acts + [a]) == Some(s');
  }

  /** No thread but `who` has moved; thread 0 is the producer. */
  ghost predicate OnlyMoves(cfg: Config, s: State, s': State, who: nat)
    requires s.Wf(cfg) && s'.Wf(cfg)
  {
    && (who != 0 ==> s'.prod == s.prod)
    && (forall j: nat :: j <= cfg.clients && j != who ==> s'.pcs[j] == s.pcs[j])
    && (forall c: nat :: c < cfg.clients && c + 1 != who ==> s'.cli[c] == s.cli[c] && s'.accs[c] == s.accs[c])
  }

  // ---------- The producer enqueues a query ----------

  /** Where the ring call of the producer is in the k-th of the nine steps that enqueue query i. */
  function EnqueuePc(i: nat, e: Entry, k: nat): Pc<Entry>
  {
    if k == 2 then EStart(e)
    else if k == 3 then ELoadSeq(e, i)
    else if k == 4 then EBranch(e, i, i)
    else if k == 5 then EWrite(e, i)
    else if k == 6 then EPublish(e, i)
    else if k == 7 then EDone(true)
    else Idle
  }

  /** The cell of position i after k of these steps. */
  function EnqueueCell(r: Ring<Entry>, i: nat, e: Entry, k: nat): Cell<Entry>
    requires r.Wf()
  {
    Cell(if k >= 7 then i + 1 else i, if k >= 6 then e else r.At(i).val)
  }

  function EnqueueStage(cfg: Config, i: nat, e: Entry, k: nat): Producer
  {
    if k == 0 then Spin(i) else if k == 1 then Stamp(i)
    else if k <= 7 then Calling(i, e)
    else if k == 8 then Count(i) else ProducerAt(cfg, i + 1)
  }

  /** Between before and s only the producer has moved, k steps into enqueueing query i. */
  ghost predicate Enqueueing(cfg: Config, before: State, s: State, i: nat, k: nat)
    requires before.Wf(cfg) && s.Wf(cfg) && i < cfg.N()
  {
    && s.prod == EnqueueStage(cfg, i, EntryOf(cfg, i, s.now), k)
    && s.pcs[0] == EnqueuePc(i, EntryOf(cfg, i, s.now), k)
    && OnlyMoves(cfg, before, s, 0) && s.lock == before.lock && s.ring.deq == before.ring.deq
    && s.now >= cfg.sched[i]
    && s.ring.enq == (if k >= 5 then i + 1 else i)
    && s.ring.cells == before.ring.cells[Slot(i, cfg.cap) := EnqueueCell(before.ring, i, EntryOf(cfg, i, s.now), k)]
  }

  lemma EnqueueStep(cfg: Config, before: State, s: State, i: nat, k: nat)
    requires before.Wf(cfg) && s.Wf(cfg) && i < cfg.N() && k < 9 && Enqueueing(cfg, before, s, i, k)
    ensures Do(cfg, s, Produce(false)).Some?
    ensures Enqueueing(cfg, before, Do(cfg, s, Produce(false)).value, i, k + 1)
  {
    if 2 <= k < 7 {
      EnqueueRingStep(before.ring, s.ring, i, EntryOf(cfg, i, s.now), k);
      hide Step, ProducerAt, EnqueueCell;
    } else {
      hide RingStep;
    }
  }

  lemma EnqueueRingStep(r0: Ring<Entry>, r: Ring<Entry>, i: nat, e: Entry, k: nat)
    requires r0.Wf() && r.Wf() && r.cap == r0.cap && 2 <= k < 7
    requires r.enq == (if k >= 5 then i + 1 else i)
    requires r.cells == r0.cells[Slot(i, r0.cap) := EnqueueCell(r0, i, e, k)]
    ensures var (r', pc') := Step(r, 0, EnqueuePc(i, e, k), false);
            && pc' == EnqueuePc(i, e, k + 1) && r'.deq == r.deq
            && r'.enq == (if k + 1 >= 5 then i + 1 else i)
            && r'.cells == r0.cells[Slot(i, r0.cap) := EnqueueCell(r0, i, e, k + 1)]
  {
  }

  lemma {:induction false} EnqueueOne(cfg: Config, s: State, i: nat, k: nat) returns (s': State)
    requires s.Wf(cfg) && Reachable(cfg, s) && i < cfg.N() && k <= 9
    requires s.prod == Spin(i) && s.pcs[0] == Idle && s.ring.enq == i == s.ring.At(i).sq
    ensures s'.Wf(cfg) && Reachable(cfg, s') && Enqueueing(cfg, s, s', i, k)
  {
    if k == 0 {
      s' := ReachStep(cfg, s, Tick(cfg.sched[i]));
    } else {
      s' := EnqueueOne(cfg, s, i, k - 1);
      EnqueueStep(cfg, s, s', i, k - 1);
      s' := ReachStep(cfg, s', Produce(false));
    }
  }

  // ---------- A client dequeues an entry ----------

  /** Where the ring call of a client is in the k-th of the seven steps that take ticket t. */
  function DequeuePc(t: nat, e: Entry, k: nat): Pc<Entry>
  {
    if k == 1 then DStart
    else if k == 2 then DLoadSeq(t)
    else if k == 3 then DBranch(t, t + 1)
    else if k == 4 then DReadVal(t)
    else if k == 5 then DRelease(t, e)
    else if k == 6 then DTook(t, e)
    else Idle
  }

  /** The cell of position t after k of these steps. */
  function DequeueCell(r: Ring<Entry>, t: nat, k: nat): Cell<Entry>
    requires r.Wf()
  {
    Cell(if k >= 6 then t + r.cap else t + 1, r.At(t).val)
  }

  ghost predicate Dequeueing(cfg: Config, before: State, s: State, c: nat, t: nat, k: nat)
    requires before.Wf(cfg) && s.Wf(cfg) && c < cfg.clients
  {
    && s.cli[c] == (if k < 7 then Polling else Got(t, before.ring.At(t).val))
    && s.pcs[c + 1] == DequeuePc(t, before.ring.At(t).val, k)
    && OnlyMoves(cfg, before, s, c + 1) && s.accs[c] == before.accs[c] && s.lock == before.lock
    && s.ring.enq == before.ring.enq
    && s.ring.deq == (if k >= 4 then t + 1 else t)
    && s.ring.cells == before.ring.cells[Slot(t, cfg.cap) := DequeueCell(before.ring, t, k)]
  }

  lemma DequeueStep(cfg: Config, before: State, s: State, c: nat, t: nat, k: nat)
    requires before.Wf(cfg) && s.Wf(cfg) && c < cfg.clients && k < 7 && Dequeueing(cfg, before, s, c, t, k)
    requires before.ring.At(t).sq == t + 1
    ensures Do(cfg, s, Serve(c, false)).Some?
    ensures Dequeueing(cfg, before, Do(cfg, s, Serve(c, false)).value, c, t, k + 1)
  {
    if 1 <= k < 6 {
      DequeueRingStep(before.ring, s.ring, c + 1, t, k);
      hide Step, Acquire, Release, DequeueCell;
    } else {
      hide RingStep, Acquire, Release;
    }
  }

  lemma DequeueRingStep(r0: Ring<Entry>, r: Ring<Entry>, tid: nat, t: nat, k: nat)
    requires r0.Wf() && r.Wf() && r.cap == r0.cap && 1 <= k < 6
    requires r.deq == (if k >= 4 then t + 1 else t)
    requires r.cells == r0.cells[Slot(t, r0.cap) := DequeueCell(r0, t, k)]
    ensures var (r', pc') := Step(r, tid, DequeuePc(t, r0.At(t).val, k), false);
            && pc' == DequeuePc(t, r0.At(t).val, k + 1) && r'.enq == r.enq
            && r'.deq == (if k + 1 >= 4 then t + 1 else t)
            && r'.cells == r0.cells[Slot(t, r0.cap) := DequeueCell(r0, t, k + 1)]
  {
  }

  lemma {:induction false} DequeueOne(cfg: Config, s: State, c: nat, t: nat, k: nat) returns (s': State)
    requires s.Wf(cfg) && Reachable(cfg, s) && c < cfg.clients && k <= 7
    requires s.cli[c] == Polling && s.pcs[c + 1] == Idle && s.ring.deq == t && s.ring.At(t).sq == t + 1
    ensures s'.Wf(cfg) && Reachable(cfg, s') && Dequeueing(cfg, s, s', c, t, k)
  {
    if k == 0 {
      s' := s;
    } else {
      s' := DequeueOne(cfg, s, c, t, k - 1);
      DequeueStep(cfg, s, s', c, t, k - 1);
      s' := ReachStep(cfg, s', Serve(c, false));
    }
  }

  // ---------- A client serves what it dequeued ----------

  /** Between before and s only client c has moved, on entry e outside the ring. */
  ghost predicate Handling(cfg: Config, before: State, s: State, c: nat)
    requires before.Wf(cfg) && s.Wf(cfg) && c < cfg.clients
  {
    OnlyMoves(cfg, before, s, c + 1) && s.pcs[c + 1] == before.pcs[c + 1] && s.ring == before.ring
  }

  /** Into the index, if the lock lets the client in. */
  lemma EnterIndex(cfg: Config, s: State, c: nat) returns (s': State)
    requires s.Wf(cfg) && Reachable(cfg, s) && c < cfg.clients && s.cli[c].Got?
    requires Acquire(s.lock, LockPolicy(cfg), c, s.cli[c].e.op).Some?
    ensures s'.Wf(cfg) && Reachable(cfg, s') && Handling(cfg, s, s', c)
    ensures s'.cli[c].Serving? && s'.accs[c] == Inside(s.cli[c].e.op)
    ensures s'.lock == Acquire(s.lock, LockPolicy(cfg), c, s.cli[c].e.op).value
  {
    hide Acquire, Release, Reachable;
    s' := ReachStep(cfg, s, Serve(c, false));
    s' := ReachStep(cfg, s', Serve(c, false));
  }

  /** Out of the index and back to polling. */
  lemma LeaveIndex(cfg: Config, s: State, c: nat) returns (s': State)
    requires s.Wf(cfg) && Reachable(cfg, s) && c < cfg.clients && s.cli[c].Serving? && s.accs[c].Inside?
    ensures s'.Wf(cfg) && Reachable(cfg, s') && Handling(cfg, s, s', c)
    ensures s'.cli[c] == Polling && s'.accs[c] == Outside
    ensures s'.lock == Release(s.lock, LockPolicy(cfg), c, s.accs[c].op)
  {
    hide Acquire, Release, Reachable;
    s' := ReachStep(cfg, s, Serve(c, false));
    s' := FinishJob(cfg, s', c);
  }

  lemma FinishJob(cfg: Config, s: State, c: nat) returns (s': State)
    requires s.Wf(cfg) && Reachable(cfg, s) && c < cfg.clients && s.cli[c].Served?
    ensures s'.Wf(cfg) && Reachable(cfg, s') && Handling(cfg, s, s', c)
    ensures s'.cli[c] == Polling && s'.accs[c] == s.accs[c] && s'.lock == s.lock
  {
    hide Acquire, Release, Reachable;
    s' := ReachStep(cfg, s, Serve(c, false));
    s' := ReachStep(cfg, s', Serve(c, false));
    s' := RecordJob(cfg, s', c);
  }

  lemma RecordJob(cfg: Config, s: State, c: nat) returns (s': State)
    requires s.Wf(cfg) && Reachable(cfg, s) && c < cfg.clients && s.cli[c].Recording?
    ensures s'.Wf(cfg) && Reachable(cfg, s') && Handling(cfg, s, s', c)
    ensures s'.cli[c] == Polling && s'.accs[c] == s.accs[c] && s'.lock == s.lock
  {
    hide Acquire, Release, Reachable;
    s' := ReachStep(cfg, s, Serve(c, false));
    s' := ReachStep(cfg, s', Serve(c, false));
  }
}
