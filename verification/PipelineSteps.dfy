/** Every step of an open-loop run keeps the invariant. */
module PipelineSteps {
  import opened Wrappers
  import opened Counting
  import opened Ring
  import opened IndexLock
  import opened Pipeline
  import opened PipelineInv

  /** How far any step moves the parts that clients rely on. */
  ghost predicate Grows(cfg: Config, s: State, s': State)
    requires s.Wf(cfg) && s'.Wf(cfg)
  {
    && s.ring.given <= s'.ring.given && s.ring.deq <= s'.ring.deq && s.now <= s'.now && (s.done ==> s'.done)
    && |s.ring.tickets| <= |s'.ring.tickets|
    && (forall t: nat :: t < |s.ring.tickets| && s.ring.tickets[t].Released? ==>
          s'.ring.tickets[t] == s.ring.tickets[t])
  }

  predicate SameClient(s: State, s': State, d: nat)
    requires d + 1 < |s.pcs| == |s'.pcs| && d < |s.cli| == |s'.cli|
    requires d < |s.accs| == |s'.accs| && d < |s.logs| == |s'.logs|
  {
    s'.pcs[d + 1] == s.pcs[d + 1] && s'.cli[d] == s.cli[d] && s'.accs[d] == s.accs[d] && s'.logs[d] == s.logs[d]
  }

  lemma OtherClientKeeps(cfg: Config, s: State, s': State, d: nat)
    requires s.Wf(cfg) && s'.Wf(cfg) && Grows(cfg, s, s') && d < cfg.clients && SameClient(s, s', d)
    requires ClientPcInv(cfg, s, d) && LogInv(cfg, s, d) && s'.ring.deq <= cfg.N()
    ensures ClientPcInv(cfg, s', d) && LogInv(cfg, s', d)
    ensures ClaimsOf(s', d) == ClaimsOf(s, d) && CountedOf(s', d) == CountedOf(s, d)
  {
  }

  lemma OtherTicketKeeps(cfg: Config, s: State, s': State, t: nat)
    requires s.Wf(cfg) && s'.Wf(cfg) && Grows(cfg, s, s') && t < |s.ring.tickets| && s.ring.tickets[t].Released?
    requires Settled(cfg, s, t) && SameClient(s, s', s.ring.tickets[t].who - 1)
    ensures Settled(cfg, s', t)
  {
  }

  /** The sums move by what client c's share moves. */
  lemma SumsMove(cfg: Config, s: State, s': State, c: nat)
    requires s.Wf(cfg) && s'.Wf(cfg) && c < cfg.clients
    requires forall d: nat :: d < cfg.clients && d != c ==>
               ClaimsOf(s', d) == ClaimsOf(s, d) && CountedOf(s', d) == CountedOf(s, d)
    ensures Sum(Claims(cfg, s')) == Sum(Claims(cfg, s)) - ClaimsOf(s, c) + ClaimsOf(s', c)
    ensures Sum(Counted(cfg, s')) == Sum(Counted(cfg, s)) - CountedOf(s, c) + CountedOf(s', c)
  {
    SumUpdate(Claims(cfg, s), c, ClaimsOf(s', c));
    SumUpdate(Counted(cfg, s), c, CountedOf(s', c));
    assert Claims(cfg, s') == Claims(cfg, s)[c := ClaimsOf(s', c)];
    assert Counted(cfg, s') == Counted(cfg, s)[c := CountedOf(s', c)];
  }

  // ---------- Steps that leave all clients where they are ----------

  /** A step of the producer or of the clock keeps everything about the clients. */
  lemma ClientsUntouched(cfg: Config, s: State, s': State)
    requires Inv(cfg, s) && s'.Wf(cfg) && Grows(cfg, s, s')
    requires s'.cli == s.cli && s'.accs == s.accs && s'.logs == s.logs && s'.lock == s.lock && s'.consumed == s.consumed
    requires s'.ring.deq == s.ring.deq && (forall i: nat :: 1 <= i < |s.pcs| ==> s'.pcs[i] == s.pcs[i])
    requires forall t: nat :: t < |s'.ring.tickets| && s'.ring.tickets[t].Released? ==>
               t < |s.ring.tickets| && s.ring.tickets[t].Released?
    ensures ClientsInv(cfg, s') && CountInv(cfg, s') && LockInv(s'.lock, LockPolicy(cfg), s'.accs)
    ensures forall t: nat :: t < |s'.ring.tickets| ==> Settled(cfg, s', t)
  {
    hide RingInv, LockInv, LogInv, ClientPcInv, Settled;
    DeqBounded(cfg, s);
    forall d: nat | d < cfg.clients
      ensures ClientPcInv(cfg, s', d) && LogInv(cfg, s', d)
      ensures ClaimsOf(s', d) == ClaimsOf(s, d) && CountedOf(s', d) == CountedOf(s, d)
    {
      assert ClientPcInv(cfg, s, d) && LogInv(cfg, s, d) && SameClient(s, s', d);
      OtherClientKeeps(cfg, s, s', d);
    }
    assert Claims(cfg, s') == Claims(cfg, s) && Counted(cfg, s') == Counted(cfg, s);
    forall t: nat | t < |s'.ring.tickets| ensures Settled(cfg, s', t) {
      TicketUntouched(cfg, s, s', t);
    }
  }

  lemma TicketUntouched(cfg: Config, s: State, s': State, t: nat)
    requires s.Wf(cfg) && s'.Wf(cfg) && Grows(cfg, s, s') && t < |s'.ring.tickets|
    requires s'.ring.tickets[t].Released? ==> t < |s.ring.tickets| && s.ring.tickets[t].Released? && Settled(cfg, s, t)
    requires forall i: nat :: 1 <= i < |s.pcs| ==> s'.pcs[i] == s.pcs[i]
    requires s'.cli == s.cli && s'.accs == s.accs && s'.logs == s.logs
    ensures Settled(cfg, s', t)
  {
    if s'.ring.tickets[t].Released? {
      OtherTicketKeeps(cfg, s, s', t);
    }
  }

  lemma DeqBounded(cfg: Config, s: State)
    requires Inv(cfg, s)
    ensures s.ring.deq <= s.ring.enq <= cfg.N()
  {
  }

  lemma TickKeeps(cfg: Config, s: State, dt: nat)
    requires Inv(cfg, s)
    ensures Inv(cfg, s.(now := s.now + dt))
  {
    var s' := s.(now := s.now + dt);
    hide RingInv, LockInv, ClientsInv, CountInv, Settled;
    ClientsUntouched(cfg, s, s');
  }

  /** What a producer step outside the ring does. */
  lemma ProducerLocalMoves(cfg: Config, s: State, spurious: bool)
    requires s.Wf(cfg) && ProducerInv(cfg, s) && ProducerStep(cfg, s, spurious).Some? && !s.pcs[0].Running()
    ensures var s' := ProducerStep(cfg, s, spurious).value;
            && ProducerInv(cfg, s') && s'.ring == s.ring && s'.now == s.now && (s.done ==> s'.done)
            && s'.cli == s.cli && s'.accs == s.accs && s'.logs == s.logs && s'.lock == s.lock
            && s'.consumed == s.consumed && s'.pcs == s.pcs[0 := s'.pcs[0]]
            && (s'.pcs[0] == s.pcs[0] || s'.pcs[0].Idle? || s'.pcs[0].EStart?)
  {
    hide RingStep;
  }

  lemma ProducerLocalKeeps(cfg: Config, s: State, spurious: bool)
    requires Inv(cfg, s) && ProducerStep(cfg, s, spurious).Some? && !s.pcs[0].Running()
    ensures Inv(cfg, ProducerStep(cfg, s, spurious).value)
  {
    hide ProducerStep, LockInv, ClientsInv, CountInv, Settled, ProducerInv;
    var s' := ProducerStep(cfg, s, spurious).value;
    ProducerLocalMoves(cfg, s, spurious);
    assert PcInv(s.ring, 0, s.pcs[0]);
    OutsiderFollows(s.ring, s.pcs, 0, s'.pcs[0]);
    hide RingInv;
    ClientsUntouched(cfg, s, s');
  }

  lemma ProducerRingLocal(cfg: Config, s: State, spurious: bool)
    requires Inv(cfg, s) && s.prod.Calling? && s.pcs[0].Running()
    ensures var s' := RingStep(s, 0, spurious);
            && ProducerInv(cfg, s') && Grows(cfg, s, s') && s'.ring.deq == s.ring.deq
            && (forall t: nat :: t < |s'.ring.given| ==> EntryFor(cfg, s'.ring.given[t], t, s'.now))
            && (forall t: nat :: t < |s'.ring.tickets| && s'.ring.tickets[t].Released? ==>
                  t < |s.ring.tickets| && s.ring.tickets[t].Released?)
  {
    assert ProducerInv(cfg, s);
    StepHistory(s.ring, s.pcs, 0, spurious);
    hide RingInv, LockInv, ClientsInv, CountInv, Settled;
  }

  lemma ProducerRingKeeps(cfg: Config, s: State, spurious: bool)
    requires Inv(cfg, s) && RoomyEnough(cfg) && s.prod.Calling? && s.pcs[0].Running()
    ensures Inv(cfg, RingStep(s, 0, spurious))
  {
    var s' := RingStep(s, 0, spurious);
    assert ProducerInv(cfg, s);
    StepPreservesInv(s.ring, s.pcs, 0, spurious);
    hide RingInv, LockInv, ClientsInv, CountInv, Settled, Step, EntryFor, Grows;
    ProducerRingLocal(cfg, s, spurious);
    hide ProducerInv;
    ClientsUntouched(cfg, s, s');
  }

  // ---------- Steps of one client ----------

  /** What a step of client c leaves alone. */
  ghost predicate OnlyClient(cfg: Config, s: State, s': State, c: nat)
    requires s.Wf(cfg) && s'.Wf(cfg)
  {
    && s'.prod == s.prod && s'.produced == s.produced && s'.done == s.done && s'.now == s.now && s'.pcs[0] == s.pcs[0]
    && s'.ring.enq == s.ring.enq && s'.ring.given == s.ring.given && |s'.ring.tickets| == |s.ring.tickets|
    && (forall d: nat :: d < cfg.clients && d != c ==> SameClient(s, s', d))
  }

  /** The tickets that are client c's business after its step are settled. */
  ghost predicate OwnSettled(cfg: Config, s: State, s': State, c: nat)
    requires s.Wf(cfg) && s'.Wf(cfg) && |s'.ring.tickets| == |s.ring.tickets|
  {
    forall t: nat :: t < |s'.ring.tickets| && s'.ring.tickets[t].Released? ==>
      (s.ring.tickets[t].Released? && s.ring.tickets[t].who != c + 1) || Settled(cfg, s', t)
  }

  lemma ClientsAfterMove(cfg: Config, s: State, s': State, c: nat)
    requires s.Wf(cfg) && s'.Wf(cfg) && c < cfg.clients && ClientsInv(cfg, s) && s'.ring.deq <= cfg.N()
    requires Grows(cfg, s, s') && OnlyClient(cfg, s, s', c) && ClientPcInv(cfg, s', c) && LogInv(cfg, s', c)
    ensures ClientsInv(cfg, s')
    ensures forall d: nat :: d < cfg.clients && d != c ==>
               ClaimsOf(s', d) == ClaimsOf(s, d) && CountedOf(s', d) == CountedOf(s, d)
  {
    hide LogInv, ClientPcInv, Grows;
    forall d: nat | d < cfg.clients && d != c
      ensures ClientPcInv(cfg, s', d) && LogInv(cfg, s', d)
      ensures ClaimsOf(s', d) == ClaimsOf(s, d) && CountedOf(s', d) == CountedOf(s, d)
    {
      assert SameClient(s, s', d);
      OtherClientKeeps(cfg, s, s', d);
    }
  }

  lemma CountsAfterMove(cfg: Config, s: State, s': State, c: nat)
    requires s.Wf(cfg) && s'.Wf(cfg) && c < cfg.clients && CountInv(cfg, s) && OnlyClient(cfg, s, s', c)
    requires forall d: nat :: d < cfg.clients && d != c ==>
               ClaimsOf(s', d) == ClaimsOf(s, d) && CountedOf(s', d) == CountedOf(s, d)
    requires s'.ring.deq - s.ring.deq == ClaimsOf(s', c) - ClaimsOf(s, c)
    requires s'.consumed - s.consumed == CountedOf(s', c) - CountedOf(s, c)
    requires s'.cli[c].Counting? ==> |s'.logs[c]| > 0
    ensures CountInv(cfg, s')
  {
    SumsMove(cfg, s, s', c);
    forall d | 0 <= d < cfg.clients && s'.cli[d].Counting? ensures |s'.logs[d]| > 0 {
      assert d != c ==> SameClient(s, s', d);
    }
  }

  lemma ProducerAfterMove(cfg: Config, s: State, s': State, c: nat)
    requires s.Wf(cfg) && s'.Wf(cfg) && ProducerInv(cfg, s) && OnlyClient(cfg, s, s', c) && !s.prod.Finished?
    ensures ProducerInv(cfg, s')
  {
  }

  /** It is enough to look at the client that moved. */
  lemma ClientMoves(cfg: Config, s: State, s': State, c: nat)
    requires Inv(cfg, s) && s'.Wf(cfg) && c < cfg.clients && !s.prod.Finished?
    requires Grows(cfg, s, s') && OnlyClient(cfg, s, s', c) && OwnSettled(cfg, s, s', c)
    requires RingInv(s'.ring, s'.pcs) && LockInv(s'.lock, LockPolicy(cfg), s'.accs)
    requires ClientPcInv(cfg, s', c) && LogInv(cfg, s', c)
    requires s'.ring.deq - s.ring.deq == ClaimsOf(s', c) - ClaimsOf(s, c)
    requires s'.consumed - s.consumed == CountedOf(s', c) - CountedOf(s, c)
    requires s'.cli[c].Counting? ==> |s'.logs[c]| > 0
    ensures Inv(cfg, s')
  {
    assert s'.ring.deq <= cfg.N() by { DeqBounded(cfg, s); }
    assert s'.ring.given == s.ring.given && s'.now == s.now && |s'.ring.tickets| == |s.ring.tickets|;
    hide RingInv, LockInv, LogInv, ClientPcInv, ClientsInv, CountInv, ProducerInv;
    hide Settled, OnlyClient, OwnSettled, Grows;
    ClientsAfterMove(cfg, s, s', c);
    CountsAfterMove(cfg, s, s', c);
    ProducerAfterMove(cfg, s, s', c);
    forall t: nat | t < |s'.ring.tickets| ensures Settled(cfg, s', t) {
      TicketOfOther(cfg, s, s', c, t);
    }
  }

  lemma TicketOfOther(cfg: Config, s: State, s': State, c: nat, t: nat)
    requires s.Wf(cfg) && s'.Wf(cfg) && Grows(cfg, s, s') && OnlyClient(cfg, s, s', c) && OwnSettled(cfg, s, s', c)
    requires t < |s'.ring.tickets| && Settled(cfg, s, t)
    ensures Settled(cfg, s', t)
  {
    if s'.ring.tickets[t].Released? && s.ring.tickets[t].Released? && s.ring.tickets[t].who != c + 1 {
      assert SameClient(s, s', s.ring.tickets[t].who - 1);
      OtherTicketKeeps(cfg, s, s', t);
    }
  }

  lemma NotFinished(cfg: Config, s: State, c: nat)
    requires s.Wf(cfg) && ProducerInv(cfg, s) && c < cfg.clients && !s.cli[c].Exited?
    ensures !s.prod.Finished?
  {
  }

  lemma RingStepSettles(cfg: Config, s: State, c: nat, spurious: bool)
    requires Inv(cfg, s) && c < cfg.clients && s.cli[c].Polling? && s.pcs[c + 1].Running()
    ensures |RingStep(s, c + 1, spurious).ring.tickets| == |s.ring.tickets|
    ensures OwnSettled(cfg, s, RingStep(s, c + 1, spurious), c)
  {
    var s' := RingStep(s, c + 1, spurious);
    var pc := s.pcs[c + 1];
    hide LockInv, CountInv, ProducerInv, LogInv, SharedInv, HeldInv, InLog;
    assert ClientPcInv(cfg, s, c) && PcInv(s.ring, c + 1, pc);
    StepHistory(s.ring, s.pcs, c + 1, spurious);
    hide RingInv;
    forall t: nat | t < |s'.ring.tickets| && s'.ring.tickets[t].Released?
      ensures (s.ring.tickets[t].Released? && s.ring.tickets[t].who != c + 1) || Settled(cfg, s', t)
    {
      assert Settled(cfg, s, t);
    }
  }

  /** What a ring step of client c does to the ring, as far as the clients can tell. */
  lemma ClientRingMoves(cfg: Config, s: State, c: nat, spurious: bool)
    requires Inv(cfg, s) && c < cfg.clients && s.cli[c].Polling? && s.pcs[c + 1].Running()
    ensures var s' := RingStep(s, c + 1, spurious);
            var (pc, pc') := (s.pcs[c + 1], s'.pcs[c + 1]);
            && s.Wf(cfg) && s'.Wf(cfg) && Dequeuing(pc) && Dequeuing(pc')
            && Grows(cfg, s, s') && OnlyClient(cfg, s, s', c)
            && s' == s.(ring := s'.ring, pcs := s.pcs[c + 1 := pc'])
            && s'.ring.deq == s.ring.deq + (if pc.DBranch? && pc'.DReadVal? then 1 else 0)
            && (pc.DBranch? && pc'.DReadVal? ==> pc'.pos == s.ring.deq)
            && (pc.DReadVal? || pc.DRelease? ==> pc.pos < s.ring.deq && Holding(pc') == Some(pc.pos))
            && (!pc.DBranch? && !pc.DReadVal? && !pc.DRelease? ==> Holding(pc') == None)
            && (pc.DBranch? && !pc'.DReadVal? ==> Holding(pc') == None)
  {
    hide LockInv, CountInv, GivenInv, ProducerInv, LogInv;
    assert ClientPcInv(cfg, s, c) && PcInv(s.ring, c + 1, s.pcs[c + 1]);
    StepHistory(s.ring, s.pcs, c + 1, spurious);
    if s.pcs[c + 1].DReadVal? {
      assert TicketInv(s.ring, s.pcs[c + 1].pos);
    }
    hide RingInv, ClientsInv;
  }

  /** The ticket a polling client has claimed. */
  function Holding(pc: Pc<Entry>): Option<nat>
  {
    if pc.DReadVal? || pc.DRelease? || pc.DTook? then Some(pc.pos) else None
  }

  lemma ClientRingLocal(cfg: Config, s: State, c: nat, spurious: bool)
    requires Inv(cfg, s) && c < cfg.clients && s.cli[c].Polling? && s.pcs[c + 1].Running()
    ensures var s' := RingStep(s, c + 1, spurious);
            && ClientPcInv(cfg, s', c) && LogInv(cfg, s', c)
            && Grows(cfg, s, s') && OnlyClient(cfg, s, s', c)
            && s'.ring.deq - s.ring.deq == ClaimsOf(s', c) - ClaimsOf(s, c)
  {
    hide RingInv, LockInv, CountInv, GivenInv, ProducerInv, OnlyClient, RingStep;
    ClientRingMoves(cfg, s, c, spurious);
    assert ClientPcInv(cfg, s, c) && LogInv(cfg, s, c);
    hide ClientsInv;
  }

  lemma ClientRingKeeps(cfg: Config, s: State, c: nat, spurious: bool)
    requires Inv(cfg, s) && c < cfg.clients && s.cli[c].Polling? && s.pcs[c + 1].Running()
    ensures Inv(cfg, RingStep(s, c + 1, spurious))
  {
    var s' := RingStep(s, c + 1, spurious);
    assert ClientPcInv(cfg, s, c);
    NotFinished(cfg, s, c);
    StepPreservesInv(s.ring, s.pcs, c + 1, spurious);
    RingStepSettles(cfg, s, c, spurious);
    ClientRingLocal(cfg, s, c, spurious);
    hide RingInv, LockInv, ClientPcInv, LogInv, OwnSettled, Grows, OnlyClient, Inv;
    ClientMoves(cfg, s, s', c);
  }

  lemma LogGrows(log: seq<Job>, job: Job, t: nat)
    requires InLog(log, t) || job.t == t
    ensures InLog(log + [job], t)
  {
    if job.t == t {
      assert (log + [job])[|log|].t == t;
    } else {
      var a :| 0 <= a < |log| && log[a].t == t;
      assert (log + [job])[a].t == t;
    }
  }

  /** A local step moves the current ticket to the log, or leaves both as they are. */
  lemma LocalCurrent(cfg: Config, s: State, c: nat, spurious: bool)
    requires s.Wf(cfg) && c < cfg.clients && ClientStep(cfg, s, c, spurious).Some? && !s.pcs[c + 1].Running()
    requires !s.cli[c].Polling? ==> s.pcs[c + 1].Idle?
    ensures var s' := ClientStep(cfg, s, c, spurious).value;
            && s'.ring == s.ring
            && (if s.cli[c].Recording? then
                  Current(s.pcs[c + 1], s.cli[c]) == Some(s.cli[c].job.t) && s'.logs[c] == s.logs[c] + [s.cli[c].job]
                else
                  Current(s'.pcs[c + 1], s'.cli[c]) == Current(s.pcs[c + 1], s.cli[c]) && s'.logs[c] == s.logs[c])
  {
  }

  lemma LocalStepSettles(cfg: Config, s: State, c: nat, spurious: bool)
    requires Inv(cfg, s) && c < cfg.clients && ClientStep(cfg, s, c, spurious).Some? && !s.pcs[c + 1].Running()
    ensures ClientStep(cfg, s, c, spurious).value.ring == s.ring
    ensures OwnSettled(cfg, s, ClientStep(cfg, s, c, spurious).value, c)
  {
    var s' := ClientStep(cfg, s, c, spurious).value;
    ClientFacts(cfg, s, c);
    assert forall t: nat :: t < |s.ring.tickets| ==> Settled(cfg, s, t);
    LocalCurrent(cfg, s, c, spurious);
    hide Inv, LogInv, ClientPcInv, ClientStep, Current, InLog;
    forall t: nat | t < |s.ring.tickets| && s.ring.tickets[t].Released? && s.ring.tickets[t].who == c + 1
      ensures Settled(cfg, s', t)
    {
      assert Settled(cfg, s, t);
      if s.cli[c].Recording? {
        LogGrows(s.logs[c], s.cli[c].job, t);
      }
    }
  }

  lemma ClientFacts(cfg: Config, s: State, c: nat)
    requires Inv(cfg, s) && c < cfg.clients
    ensures s.Wf(cfg) && ClientPcInv(cfg, s, c) && LogInv(cfg, s, c)
    ensures s.ring.deq <= s.ring.enq <= cfg.N() && (s.done ==> s.ring.enq == cfg.N())
    ensures s.pcs[c + 1].DTook? ==> Owns(s, c, s.pcs[c + 1].pos, s.pcs[c + 1].out) && s.pcs[c + 1].out.tEnq <= s.now
    ensures s.cli[c].Counting? ==> |s.logs[c]| > 0
  {
    assert ClientPcInv(cfg, s, c) && PcInv(s.ring, c + 1, s.pcs[c + 1]);
    if s.pcs[c + 1].DTook? {
      assert EntryFor(cfg, s.ring.given[s.pcs[c + 1].pos], s.pcs[c + 1].pos, s.now);
    }
  }

  lemma LocalStepFrame(cfg: Config, s: State, c: nat, spurious: bool)
    requires s.Wf(cfg) && c < cfg.clients && ClientStep(cfg, s, c, spurious).Some? && !s.pcs[c + 1].Running()
    ensures var s' := ClientStep(cfg, s, c, spurious).value; Grows(cfg, s, s') && OnlyClient(cfg, s, s', c)
  {
    hide RingStep, Acquire, Release;
  }

  lemma LocalStepPc(cfg: Config, s: State, c: nat, spurious: bool)
    requires Inv(cfg, s) && c < cfg.clients && ClientStep(cfg, s, c, spurious).Some? && !s.pcs[c + 1].Running()
    ensures ClientPcInv(cfg, ClientStep(cfg, s, c, spurious).value, c)
  {
    hide Inv, LogInv, RingStep, Acquire, Release;
    ClientFacts(cfg, s, c);
  }

  lemma LocalStepLog(cfg: Config, s: State, c: nat, spurious: bool)
    requires Inv(cfg, s) && c < cfg.clients && ClientStep(cfg, s, c, spurious).Some? && !s.pcs[c + 1].Running()
    ensures var s' := ClientStep(cfg, s, c, spurious).value;
            && LogInv(cfg, s', c) && ClaimsOf(s', c) == ClaimsOf(s, c)
            && s'.consumed - s.consumed == CountedOf(s', c) - CountedOf(s, c)
            && (s'.cli[c].Counting? ==> |s'.logs[c]| > 0)
  {
    ClientFacts(cfg, s, c);
    hide Inv, ClientPcInv, ClientStep;
    if s.cli[c].Recording? {
      LogAfterRecord(cfg, s, c, spurious);
    } else {
      LogAfterOther(cfg, s, c, spurious);
    }
  }

  lemma LogAfterRecord(cfg: Config, s: State, c: nat, spurious: bool)
    requires s.Wf(cfg) && c < cfg.clients && s.cli[c].Recording? && ClientPcInv(cfg, s, c) && LogInv(cfg, s, c)
    ensures ClientStep(cfg, s, c, spurious).Some?
    ensures var s' := ClientStep(cfg, s, c, spurious).value;
            && LogInv(cfg, s', c) && ClaimsOf(s', c) == ClaimsOf(s, c)
            && s'.consumed == s.consumed && CountedOf(s', c) == CountedOf(s, c)
            && s'.cli[c].Counting? && |s'.logs[c]| > 0
  {
    hide RingStep, Acquire, Release;
  }

  lemma LogAfterOther(cfg: Config, s: State, c: nat, spurious: bool)
    requires s.Wf(cfg) && c < cfg.clients && !s.cli[c].Recording? && !s.pcs[c + 1].Running()
    requires ClientPcInv(cfg, s, c) && LogInv(cfg, s, c) && ClientStep(cfg, s, c, spurious).Some?
    requires s.cli[c].Counting? ==> |s.logs[c]| > 0
    ensures var s' := ClientStep(cfg, s, c, spurious).value;
            && LogInv(cfg, s', c) && ClaimsOf(s', c) == ClaimsOf(s, c)
            && s'.consumed - s.consumed == CountedOf(s', c) - CountedOf(s, c)
            && !s'.cli[c].Counting?
  {
    var s' := ClientStep(cfg, s, c, spurious).value;
    hide LogInv;
    SameLog(cfg, s, s', c);
  }

  /** A step that keeps ring, clock and logs keeps the log invariant if the current ticket stays. */
  lemma SameLog(cfg: Config, s: State, s': State, c: nat)
    requires s.Wf(cfg) && s'.Wf(cfg) && c < cfg.clients && LogInv(cfg, s, c)
    requires s'.ring == s.ring && s'.now == s.now && s'.logs == s.logs
    requires Current(s'.pcs[c + 1], s'.cli[c]) == Current(s.pcs[c + 1], s.cli[c])
    ensures LogInv(cfg, s', c)
  {
  }

  lemma LocalStepLock(cfg: Config, s: State, c: nat, spurious: bool)
    requires s.Wf(cfg) && c < cfg.clients && ClientStep(cfg, s, c, spurious).Some? && !s.pcs[c + 1].Running()
    requires LockInv(s.lock, LockPolicy(cfg), s.accs) && (!s.cli[c].Serving? ==> s.accs[c].Outside?)
    ensures var s' := ClientStep(cfg, s, c, spurious).value; LockInv(s'.lock, LockPolicy(cfg), s'.accs)
  {
    hide RingStep, LockInv;
    if s.cli[c].Got? {
      OutsideKeepsLock(s.lock, LockPolicy(cfg), s.accs, c, Waiting(s.cli[c].e.op));
    } else if s.cli[c].Serving? && s.accs[c].Waiting? {
      EnterKeepsLock(s.lock, LockPolicy(cfg), s.accs, c);
    } else if s.cli[c].Serving? {
      LeaveKeepsLock(s.lock, LockPolicy(cfg), s.accs, c);
    }
  }

  lemma LocalStepRing(cfg: Config, s: State, c: nat, spurious: bool)
    requires Inv(cfg, s) && c < cfg.clients && ClientStep(cfg, s, c, spurious).Some? && !s.pcs[c + 1].Running()
    ensures var s' := ClientStep(cfg, s, c, spurious).value; RingInv(s'.ring, s'.pcs)
  {
    hide ClientStep, LockInv, ClientsInv, CountInv, GivenInv, ProducerInv, TicketInv, FreeInv, HeldInv;
    LocalStepPcs(cfg, s, c, spurious);
    assert PcInv(s.ring, c + 1, s.pcs[c + 1]);
    OutsiderFollows(s.ring, s.pcs, c + 1, ClientStep(cfg, s, c, spurious).value.pcs[c + 1]);
  }

  lemma LocalStepPcs(cfg: Config, s: State, c: nat, spurious: bool)
    requires s.Wf(cfg) && c < cfg.clients && ClientStep(cfg, s, c, spurious).Some? && !s.pcs[c + 1].Running()
    ensures var s' := ClientStep(cfg, s, c, spurious).value;
            && s'.ring == s.ring && s'.pcs == s.pcs[c + 1 := s'.pcs[c + 1]]
            && (s'.pcs[c + 1] == s.pcs[c + 1] || s'.pcs[c + 1].Idle? || s'.pcs[c + 1].DStart?)
  {
    hide RingStep, Acquire, Release;
  }

  /** A step of client c outside the ring. */
  lemma ClientLocalKeeps(cfg: Config, s: State, c: nat, spurious: bool)
    requires Inv(cfg, s) && c < cfg.clients && ClientStep(cfg, s, c, spurious).Some? && !s.pcs[c + 1].Running()
    ensures Inv(cfg, ClientStep(cfg, s, c, spurious).value)
  {
    var s' := ClientStep(cfg, s, c, spurious).value;
    NotFinished(cfg, s, c);
    LocalStepSettles(cfg, s, c, spurious);
    LocalStepFrame(cfg, s, c, spurious);
    LocalStepPc(cfg, s, c, spurious);
    LocalStepLog(cfg, s, c, spurious);
    assert ClientPcInv(cfg, s, c);
    LocalStepLock(cfg, s, c, spurious);
    LocalStepRing(cfg, s, c, spurious);
    hide RingInv, LockInv, ClientPcInv, LogInv, OwnSettled, Grows, OnlyClient, Inv;
    ClientMoves(cfg, s, s', c);
  }

  // ---------- All steps, all runs ----------

  lemma ProducerKeeps(cfg: Config, s: State, spurious: bool)
    requires Inv(cfg, s) && RoomyEnough(cfg) && ProducerStep(cfg, s, spurious).Some?
    ensures Inv(cfg, ProducerStep(cfg, s, spurious).value)
  {
    if s.pcs[0].Running() {
      assert ProducerInv(cfg, s);
      hide Inv, RingStep;
      ProducerRingKeeps(cfg, s, spurious);
    } else {
      hide Inv, ProducerStep;
      ProducerLocalKeeps(cfg, s, spurious);
    }
  }

  lemma ClientKeeps(cfg: Config, s: State, c: nat, spurious: bool)
    requires Inv(cfg, s) && c < cfg.clients && ClientStep(cfg, s, c, spurious).Some?
    ensures Inv(cfg, ClientStep(cfg, s, c, spurious).value)
  {
    if s.pcs[c + 1].Running() {
      assert ClientPcInv(cfg, s, c);
      hide Inv, RingStep;
      ClientRingKeeps(cfg, s, c, spurious);
    } else {
      hide Inv, ClientStep;
      ClientLocalKeeps(cfg, s, c, spurious);
    }
  }

  lemma DoKeeps(cfg: Config, s: State, a: Act)
    requires Inv(cfg, s) && RoomyEnough(cfg) && Do(cfg, s, a).Some?
    ensures Inv(cfg, Do(cfg, s, a).value)
  {
    hide Inv, ProducerStep, ClientStep;
    match a
    case Tick(dt) => TickKeeps(cfg, s, dt);
    case Produce(spurious) => ProducerKeeps(cfg, s, spurious);
    case Serve(c, spurious) => ClientKeeps(cfg, s, c, spurious);
  }

  /** The invariant holds in every reachable state. */
  lemma {:induction false} ExecKeeps(cfg: Config, s: State, acts: seq<Act>)
    requires s.Wf(cfg) && Inv(cfg, s) && RoomyEnough(cfg) && Exec(cfg, s, acts).Some?
    ensures Inv(cfg, Exec(cfg, s, acts).value)
  {
    hide Inv, Do;
    if acts != [] {
      ExecKeeps(cfg, s, acts[..|acts| - 1]);
      DoKeeps(cfg, Exec(cfg, s, acts[..|acts| - 1]).value, acts[|acts| - 1]);
    }
  }

  lemma ReachableInv(cfg: Config, junk: Entry, acts: seq<Act>)
    requires cfg.Wf() && RoomyEnough(cfg) && Init(cfg, junk).Wf(cfg) && Exec(cfg, Init(cfg, junk), acts).Some?
    ensures Inv(cfg, Exec(cfg, Init(cfg, junk), acts).value)
  {
    InitHolds(cfg, junk);
    ExecKeeps(cfg, Init(cfg, junk), acts);
  }
}
