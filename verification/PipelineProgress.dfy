/** From every state of an open-loop run some finite continuation completes it. The proof schedules
    the threads one step at a time so that a lexicographic measure falls: claims still to be made,
    work left on claimed tickets, threads still to leave, and the distance of the scheduled thread
    to its next claim or exit. */
module PipelineProgress {
  import opened Wrappers
  import opened Counting
  import opened Ring
  import opened IndexLock
  import opened Pipeline
  import opened PipelineInv
  import opened PipelineSteps

  // ---------- The measure ----------

  function ClaimsLeft(cfg: Config, s: State): int { (cfg.N() - s.ring.enq) + (cfg.N() - s.ring.deq) }

  function ProducerWork(s: State): nat
    requires |s.pcs| > 0
  {
    match s.prod
    case Calling(_, _) =>
      if s.pcs[0].EWrite? then 4 else if s.pcs[0].EPublish? then 3 else if s.pcs[0] == EDone(true) then 2 else 0
    case Count(_) => 1
    case _ => 0
  }

  function ClientWork(pc: Pc<Entry>, cl: Client, acc: Access): nat
  {
    match cl
    case Polling => if pc.DReadVal? then 10 else if pc.DRelease? then 9 else if pc.DTook? then 8 else 0
    case Got(_, _) => 7
    case Serving(_, _, _) => if acc.Inside? then 5 else 6
    case Served(_, _, _) => 4
    case Working(_, _, _, _) => 3
    case Recording(_) => 2
    case Counting => 1
    case _ => 0
  }

  function Works(cfg: Config, s: State): seq<nat>
    requires s.Wf(cfg)
  {
    seq(cfg.clients, (c: nat) requires c < cfg.clients => ClientWork(s.pcs[c + 1], s.cli[c], s.accs[c]))
  }

  function WorkLeft(cfg: Config, s: State): nat
    requires s.Wf(cfg)
  {
    ProducerWork(s) + Sum(Works(cfg, s))
  }

  function Stays(cfg: Config, s: State): seq<nat>
    requires s.Wf(cfg)
  {
    seq(cfg.clients, (c: nat) requires c < cfg.clients => if s.cli[c].Exited? then 0 else 1)
  }

  function ThreadsLeft(cfg: Config, s: State): nat
    requires s.Wf(cfg)
  {
    (if s.prod.Finished? then 0 else if s.prod.Join? then 1 else 2) + Sum(Stays(cfg, s))
  }

  /** Steps to the next claim of a client that runs alone while an entry is waiting. */
  function ClaimDistance(r: Ring<Entry>, pc: Pc<Entry>, cl: Client): nat
  {
    match cl
    case LoadDeq(_) => 6
    case LoadEnq => 7
    case CheckDone => 8
    case _ =>
      match pc
      case DBranch(pos, sq) => if sq < pos + 1 then 10 else if sq == pos + 1 && pos == r.deq then 1 else 3
      case DLoadSeq(pos) => if pos == r.deq then 2 else 4
      case DStart => 3
      case DEmpty => 9
      case _ => 5
  }

  /** Steps to the exit of a client that runs alone once everything has been consumed. */
  function ExitDistance(r: Ring<Entry>, pc: Pc<Entry>, cl: Client): nat
  {
    match cl
    case LoadDeq(_) => 1
    case LoadEnq => 2
    case CheckDone => 3
    case _ =>
      match pc
      case DEmpty => 4
      case DBranch(pos, sq) => if sq < pos + 1 then 5 else 7
      case DLoadSeq(pos) => if pos == r.deq then 6 else 8
      case DStart => 7
      case _ => 8
  }

  /** Steps to the next claim of the producer running alone while the ring is empty. */
  function EnqueueDistance(cfg: Config, s: State): nat
    requires s.Wf(cfg)
  {
    match s.prod
    case Spin(i) => if i < cfg.N() && s.now >= cfg.sched[i] then 10 else 11
    case Stamp(_) => 9
    case Restamp(_, _) => 6
    case _ =>
      match s.pcs[0]
      case EBranch(_, pos, sq) => if sq < pos then 8 else if sq == pos == s.ring.enq then 1 else 3
      case ELoadSeq(_, pos) => if pos == s.ring.enq then 2 else 4
      case EStart(_) => 5
      case _ => 7
  }

  function FirstStaying(cl: seq<Client>): (c: nat)
    ensures c <= |cl|
    ensures forall d :: 0 <= d < c ==> cl[d].Exited?
    ensures c < |cl| ==> !cl[c].Exited?
  {
    if cl == [] || !cl[0].Exited? then 0 else 1 + FirstStaying(cl[1..])
  }

  function Distance(cfg: Config, s: State): nat
    requires s.Wf(cfg)
  {
    if s.ring.enq > s.ring.deq then (if cfg.clients == 0 then 0 else ClaimDistance(s.ring, s.pcs[1], s.cli[0]))
    else if s.ring.enq < cfg.N() then EnqueueDistance(cfg, s)
    else
      var c := FirstStaying(s.cli);
      if c < cfg.clients then ExitDistance(s.ring, s.pcs[c + 1], s.cli[c]) else 0
  }

  /** s' is closer to completion than s. */
  ghost predicate Closer(cfg: Config, s: State, s': State)
    requires s.Wf(cfg) && s'.Wf(cfg)
  {
    || ClaimsLeft(cfg, s') < ClaimsLeft(cfg, s)
    || (ClaimsLeft(cfg, s') == ClaimsLeft(cfg, s)
        && (|| WorkLeft(cfg, s') < WorkLeft(cfg, s)
            || (WorkLeft(cfg, s') == WorkLeft(cfg, s)
                && (|| ThreadsLeft(cfg, s') < ThreadsLeft(cfg, s)
                    || (ThreadsLeft(cfg, s') == ThreadsLeft(cfg, s) && Distance(cfg, s') < Distance(cfg, s))))))
  }

  // ---------- Work on claimed tickets ----------

  lemma WorksAfter(cfg: Config, s: State, s': State, c: nat)
    requires s.Wf(cfg) && s'.Wf(cfg) && c < cfg.clients
    requires forall d: nat :: d < cfg.clients && d != c ==> SameClient(s, s', d)
    ensures var w := ClientWork(s.pcs[c + 1], s.cli[c], s.accs[c]);
            var w' := ClientWork(s'.pcs[c + 1], s'.cli[c], s'.accs[c]);
            Sum(Works(cfg, s')) == Sum(Works(cfg, s)) - w + w'
    ensures var (k, k') := (if s.cli[c].Exited? then 0 else 1, if s'.cli[c].Exited? then 0 else 1);
            Sum(Stays(cfg, s')) == Sum(Stays(cfg, s)) - k + k'
  {
    var w' := ClientWork(s'.pcs[c + 1], s'.cli[c], s'.accs[c]);
    var k' := if s'.cli[c].Exited? then 0 else 1;
    SumUpdate(Works(cfg, s), c, w');
    SumUpdate(Stays(cfg, s), c, k');
    forall d: nat | d < cfg.clients && d != c
      ensures Works(cfg, s')[d] == Works(cfg, s)[d] && Stays(cfg, s')[d] == Stays(cfg, s)[d]
    {
      assert SameClient(s, s', d);
    }
    assert Works(cfg, s') == Works(cfg, s)[c := w'];
    assert Stays(cfg, s') == Stays(cfg, s)[c := k'];
  }

  lemma ProducerWorks(cfg: Config, s: State)
    requires Inv(cfg, s) && ProducerWork(s) > 0
    ensures Do(cfg, s, Produce(false)).Some? && Closer(cfg, s, Do(cfg, s, Produce(false)).value)
  {
    var s' := Do(cfg, s, Produce(false)).value;
    assert ProducerInv(cfg, s);
    assert Works(cfg, s') == Works(cfg, s);
  }

  /** What a step that works off a claimed ticket leaves alone. */
  ghost predicate OnlyWorks(cfg: Config, s: State, s': State, c: nat)
    requires s.Wf(cfg) && s'.Wf(cfg) && c < cfg.clients
  {
    && s'.prod == s.prod && s'.pcs[0] == s.pcs[0] && s'.ring.enq == s.ring.enq && s'.ring.deq == s.ring.deq
    && (forall d: nat :: d < cfg.clients && d != c ==> SameClient(s, s', d))
    && ClientWork(s'.pcs[c + 1], s'.cli[c], s'.accs[c]) < ClientWork(s.pcs[c + 1], s.cli[c], s.accs[c])
  }

  lemma WorkStep(cfg: Config, s: State, c: nat)
    requires s.Wf(cfg) && c < cfg.clients && ClientWork(s.pcs[c + 1], s.cli[c], s.accs[c]) > 0
    requires !s.cli[c].Polling? ==> s.pcs[c + 1].Idle?
    requires s.cli[c].Serving? ==> !s.accs[c].Outside?
    requires s.accs[c].Waiting? ==> Acquire(s.lock, LockPolicy(cfg), c, s.accs[c].op).Some?
    ensures ClientStep(cfg, s, c, false).Some? && OnlyWorks(cfg, s, ClientStep(cfg, s, c, false).value, c)
  {
    hide Acquire, Release;
  }

  /** A client with work left that does not wait for the lock does the next piece of it. */
  lemma ClientWorks(cfg: Config, s: State, c: nat)
    requires Inv(cfg, s) && c < cfg.clients && ClientWork(s.pcs[c + 1], s.cli[c], s.accs[c]) > 0
    requires s.accs[c].Waiting? ==> Acquire(s.lock, LockPolicy(cfg), c, s.accs[c].op).Some?
    ensures Do(cfg, s, Serve(c, false)).Some? && Closer(cfg, s, Do(cfg, s, Serve(c, false)).value)
  {
    hide Inv, LogInv, ClientStep, ClientWork, Acquire, Distance;
    ClientFacts(cfg, s, c);
    WorkStep(cfg, s, c);
    WorksAfter(cfg, s, ClientStep(cfg, s, c, false).value, c);
  }

  lemma InsideIsWork(cfg: Config, s: State, c: nat)
    requires Inv(cfg, s) && c < cfg.clients && s.accs[c].Inside?
    ensures ClientWork(s.pcs[c + 1], s.cli[c], s.accs[c]) > 0
  {
    ClientFacts(cfg, s, c);
    hide Inv, LogInv;
  }

  lemma WorkGetsDone(cfg: Config, s: State) returns (a: Act)
    requires Inv(cfg, s) && WorkLeft(cfg, s) > 0
    ensures Do(cfg, s, a).Some? && Closer(cfg, s, Do(cfg, s, a).value)
  {
    hide ProducerStep, ClientStep, Closer, ClientPcInv, LogInv, RingInv, CountInv, GivenInv, ProducerInv;
    if ProducerWork(s) > 0 {
      a := Produce(false);
      ProducerWorks(cfg, s);
    } else {
      var c := SomePositive(Works(cfg, s));
      if s.accs[c].Waiting? && Acquire(s.lock, LockPolicy(cfg), c, s.accs[c].op).None? {
        SomeoneCanMove(s.lock, LockPolicy(cfg), s.accs, c);
        var u: nat :| u < |s.accs| && s.accs[u].Inside?;
        c := u;
        InsideIsWork(cfg, s, c);
      }
      a := Serve(c, false);
      ClientWorks(cfg, s, c);
    }
  }

  // ---------- With no work left ----------

  lemma QuietThreads(cfg: Config, s: State)
    requires s.Wf(cfg) && WorkLeft(cfg, s) == 0
    ensures ProducerWork(s) == 0
    ensures forall c: nat :: c < cfg.clients ==> ClientWork(s.pcs[c + 1], s.cli[c], s.accs[c]) == 0
  {
    ZeroSum(Works(cfg, s));
    forall c: nat | c < cfg.clients ensures ClientWork(s.pcs[c + 1], s.cli[c], s.accs[c]) == 0 {
      assert Works(cfg, s)[c] == 0;
    }
  }

  /** With no work left every ticket is published or released. */
  lemma QuietTicket(cfg: Config, s: State, t: nat)
    requires Inv(cfg, s) && WorkLeft(cfg, s) == 0 && t < |s.ring.tickets|
    ensures s.ring.tickets[t].Published? || s.ring.tickets[t].Released?
  {
    QuietThreads(cfg, s);
    assert HeldInv(s.ring, s.pcs, t) && ProducerInv(cfg, s);
    forall i: nat | 1 <= i < |s.pcs| ensures !Holds(s.pcs[i]) {
      ClientFacts(cfg, s, i - 1);
      assert ClientWork(s.pcs[(i - 1) + 1], s.cli[i - 1], s.accs[i - 1]) == 0;
    }
  }

  /** So the cells read as follows. */
  lemma QuietCells(cfg: Config, s: State)
    requires Inv(cfg, s) && WorkLeft(cfg, s) == 0
    ensures s.ring.enq > s.ring.deq ==> s.ring.At(s.ring.deq).sq == s.ring.deq + 1
    ensures s.ring.enq == s.ring.deq ==> s.ring.At(s.ring.enq).sq == s.ring.enq
    ensures forall pos: nat :: pos < s.ring.deq ==> s.ring.At(pos).sq > pos
  {
    var r := s.ring;
    if r.enq > r.deq {
      QuietTicket(cfg, s, r.deq);
      assert TicketInv(r, r.deq);
    } else {
      assert FreeInv(r, r.enq);
      if r.cap <= r.enq {
        QuietTicket(cfg, s, r.enq - r.cap);
      }
    }
    forall pos: nat | pos < r.deq ensures r.At(pos).sq > pos {
      assert TicketInv(r, pos);
    }
  }

  /** A client between two claims: in its polling loop, with no ticket in hand. */
  ghost predicate Unladen(cfg: Config, s: State, c: nat)
    requires s.Wf(cfg) && c < cfg.clients
  {
    var (pc, cl) := (s.pcs[c + 1], s.cli[c]);
    && (cl.Polling? || cl.CheckDone? || cl.LoadEnq? || cl.LoadDeq?)
    && (pc.Idle? || (cl.Polling? && (pc.DStart? || pc.DLoadSeq? || pc.DBranch? || pc.DEmpty?)))
    && (pc.DLoadSeq? || pc.DBranch? ==> pc.pos <= s.ring.deq)
    && (pc.DBranch? ==> pc.sq <= s.ring.At(pc.pos).sq)
    && (s.done ==> s.ring.enq == cfg.N())
    && (cl.LoadEnq? ==> s.done)
    && (cl.LoadDeq? ==> s.done && cl.enq == cfg.N())
  }

  lemma UnladenClient(cfg: Config, s: State, c: nat)
    requires Inv(cfg, s) && c < cfg.clients && !s.cli[c].Exited? && ClientWork(s.pcs[c + 1], s.cli[c], s.accs[c]) == 0
    ensures Unladen(cfg, s, c)
  {
    ClientFacts(cfg, s, c);
    assert PcInv(s.ring, c + 1, s.pcs[c + 1]);
    hide RingInv, ClientsInv, GivenInv, CountInv, LockInv, ProducerInv, LogInv;
  }

  /** What a step in the polling loop leaves alone. */
  ghost predicate OnlyPolls(cfg: Config, s: State, s': State, c: nat)
    requires s.Wf(cfg) && s'.Wf(cfg) && c < cfg.clients
  {
    && s'.prod == s.prod && s'.pcs[0] == s.pcs[0] && s'.ring.enq == s.ring.enq
    && (forall d: nat :: d < cfg.clients && d != c ==> SameClient(s, s', d))
  }

  lemma PollTowardsClaim(cfg: Config, s: State, c: nat)
    requires s.Wf(cfg) && c < cfg.clients && Unladen(cfg, s, c) && s.ring.deq < s.ring.enq <= cfg.N()
    requires s.ring.At(s.ring.deq).sq == s.ring.deq + 1
    requires forall pos: nat :: pos < s.ring.deq ==> s.ring.At(pos).sq > pos
    ensures ClientStep(cfg, s, c, false).Some?
    ensures var s' := ClientStep(cfg, s, c, false).value;
            && OnlyPolls(cfg, s, s', c)
            && (|| s'.ring.deq == s.ring.deq + 1
                || (&& s'.ring == s.ring && Unladen(cfg, s', c)
                    && ClaimDistance(s.ring, s'.pcs[c + 1], s'.cli[c]) < ClaimDistance(s.ring, s.pcs[c + 1], s.cli[c])))
  {
    if s.pcs[c + 1].Running() {
      CallTowardsClaim(s.ring, c + 1, s.pcs[c + 1]);
      hide Step;
    } else {
      hide RingStep;
    }
    hide Acquire, Release;
  }

  /** The same for the dequeue call alone. */
  lemma CallTowardsClaim(r: Ring<Entry>, tid: nat, pc: Pc<Entry>)
    requires r.Wf() && (pc.DStart? || pc.DLoadSeq? || pc.DBranch?) && r.At(r.deq).sq == r.deq + 1
    requires pc.DLoadSeq? || pc.DBranch? ==> pc.pos <= r.deq
    requires pc.DBranch? ==> pc.sq <= r.At(pc.pos).sq
    requires forall pos: nat :: pos < r.deq ==> r.At(pos).sq > pos
    ensures var (r', pc') := Step(r, tid, pc, false);
            && r'.enq == r.enq
            && (|| r'.deq == r.deq + 1
                || (&& r' == r && (pc'.DLoadSeq? || pc'.DBranch? || pc'.DEmpty?)
                    && (pc'.DLoadSeq? || pc'.DBranch? ==> pc'.pos <= r.deq)
                    && (pc'.DBranch? ==> pc'.sq <= r.At(pc'.pos).sq)
                    && ClaimDistance(r, pc', Polling) < ClaimDistance(r, pc, Polling)))
  {
  }

  lemma UnladenHasNoWork(cfg: Config, s: State, c: nat)
    requires s.Wf(cfg) && c < cfg.clients && Unladen(cfg, s, c)
    ensures ClientWork(s.pcs[c + 1], s.cli[c], s.accs[c]) == 0 && !s.cli[c].Exited?
  {
  }

  /** A step that only shortens the distance of the scheduled thread. */
  lemma ShorterIsCloser(cfg: Config, s: State, s': State, c: nat)
    requires s.Wf(cfg) && s'.Wf(cfg) && c < cfg.clients && OnlyPolls(cfg, s, s', c) && s'.ring == s.ring
    requires Unladen(cfg, s, c) && Unladen(cfg, s', c) && Distance(cfg, s') < Distance(cfg, s)
    ensures Closer(cfg, s, s')
  {
    hide Unladen, ClientWork, Distance;
    WorksAfter(cfg, s, s', c);
    UnladenHasNoWork(cfg, s, c);
    UnladenHasNoWork(cfg, s', c);
  }

  /** An entry is waiting: the first client gets closer to claiming it. */
  lemma ClientClaims(cfg: Config, s: State)
    requires Inv(cfg, s) && WorkLeft(cfg, s) == 0 && s.ring.enq > s.ring.deq && cfg.clients >= 1
    ensures Do(cfg, s, Serve(0, false)).Some? && Closer(cfg, s, Do(cfg, s, Serve(0, false)).value)
  {
    hide Inv, LogInv, ClientStep, Unladen, ClientWork, ClaimDistance, WorkLeft, ThreadsLeft;
    ClientFacts(cfg, s, 0);
    QuietThreads(cfg, s);
    QuietCells(cfg, s);
    UnladenClient(cfg, s, 0);
    PollTowardsClaim(cfg, s, 0);
    var s' := Do(cfg, s, Serve(0, false)).value;
    if s'.ring == s.ring {
      ShorterIsCloser(cfg, s, s', 0);
    }
  }

  /** Running alone with a free cell ahead, the producer claims it or gets nearer to doing so. */
  lemma ProducerTowardsClaim(cfg: Config, s: State)
    requires s.Wf(cfg) && ProducerInv(cfg, s) && ProducerWork(s) == 0
    requires |s.ring.tickets| == |s.ring.given| && PcInv(s.ring, 0, s.pcs[0])
    requires s.ring.enq == s.ring.deq < cfg.N() && s.ring.At(s.ring.enq).sq == s.ring.enq
    requires forall pos: nat :: pos < s.ring.deq ==> s.ring.At(pos).sq > pos
    requires s.prod.Spin? ==> s.now >= cfg.sched[s.prod.i]
    ensures ProducerStep(cfg, s, false).Some?
    ensures var s' := ProducerStep(cfg, s, false).value;
            && s'.cli == s.cli && s'.accs == s.accs && s'.ring.deq == s.ring.deq
            && (forall i :: 1 <= i < |s.pcs| ==> s'.pcs[i] == s.pcs[i])
            && (|| s'.ring.enq == s.ring.enq + 1
                || (&& s'.ring == s.ring && ProducerWork(s') == 0 && !s'.prod.Join? && !s'.prod.Finished?
                    && EnqueueDistance(cfg, s') < EnqueueDistance(cfg, s)))
  {
  }

  lemma ProducerFacts(cfg: Config, s: State)
    requires Inv(cfg, s)
    ensures s.Wf(cfg) && ProducerInv(cfg, s)
    ensures |s.ring.tickets| == |s.ring.given| && PcInv(s.ring, 0, s.pcs[0])
  {
  }

  /** The ring is empty and queries are left: the producer, or the clock it waits for, moves. */
  lemma ProducerClaims(cfg: Config, s: State) returns (a: Act)
    requires Inv(cfg, s) && WorkLeft(cfg, s) == 0 && s.ring.enq == s.ring.deq < cfg.N()
    ensures Do(cfg, s, a).Some? && Closer(cfg, s, Do(cfg, s, a).value)
  {
    hide Inv, PcInv, ProducerStep;
    ProducerFacts(cfg, s);
    QuietThreads(cfg, s);
    QuietCells(cfg, s);
    if s.prod.Spin? && s.now < cfg.sched[s.prod.i] {
      a := Tick(cfg.sched[s.prod.i] - s.now);
    } else {
      a := Produce(false);
      ProducerTowardsClaim(cfg, s);
    }
    var s' := Do(cfg, s, a).value;
    assert Works(cfg, s') == Works(cfg, s) && Stays(cfg, s') == Stays(cfg, s);
  }

  lemma PollTowardsExit(cfg: Config, s: State, c: nat)
    requires s.Wf(cfg) && c < cfg.clients && Unladen(cfg, s, c) && s.ring.deq == s.ring.enq == cfg.N() && s.done
    requires s.ring.At(s.ring.deq).sq == s.ring.deq
    requires forall pos: nat :: pos < s.ring.deq ==> s.ring.At(pos).sq > pos
    ensures ClientStep(cfg, s, c, false).Some?
    ensures var s' := ClientStep(cfg, s, c, false).value;
            && OnlyPolls(cfg, s, s', c) && s'.ring == s.ring
            && (|| s'.cli[c].Exited?
                || (&& Unladen(cfg, s', c)
                    && ExitDistance(s.ring, s'.pcs[c + 1], s'.cli[c]) < ExitDistance(s.ring, s.pcs[c + 1], s.cli[c])))
  {
    hide Acquire, Release;
  }

  lemma SameFirstStaying(cl: seq<Client>, cl': seq<Client>, c: nat)
    requires |cl| == |cl'| && c == FirstStaying(cl) < |cl| && !cl'[c].Exited?
    requires forall d :: 0 <= d < c ==> cl'[d] == cl[d]
    ensures FirstStaying(cl') == c
  {
    assert !cl'[c].Exited? ==> FirstStaying(cl') <= c;
  }

  /** Everything is consumed and `done` is set: the first client still there gets closer to its exit. */
  lemma ClientLeaves(cfg: Config, s: State, c: nat)
    requires Inv(cfg, s) && WorkLeft(cfg, s) == 0 && s.ring.enq == s.ring.deq == cfg.N() && s.done
    requires c == FirstStaying(s.cli) < cfg.clients
    ensures Do(cfg, s, Serve(c, false)).Some? && Closer(cfg, s, Do(cfg, s, Serve(c, false)).value)
  {
    assert !s.cli[c].Exited?;
    hide Inv, ClientStep, Unladen, ClientWork, ExitDistance, FirstStaying, Closer, WorkLeft, Distance;
    QuietThreads(cfg, s);
    QuietCells(cfg, s);
    UnladenClient(cfg, s, c);
    PollTowardsExit(cfg, s, c);
    var s' := Do(cfg, s, Serve(c, false)).value;
    if s'.cli[c].Exited? {
      ExitIsCloser(cfg, s, s', c);
    } else {
      ExitDistanceFalls(cfg, s, s', c);
      ShorterIsCloser(cfg, s, s', c);
    }
  }

  lemma ExitDistanceFalls(cfg: Config, s: State, s': State, c: nat)
    requires s.Wf(cfg) && s'.Wf(cfg) && c == FirstStaying(s.cli) < cfg.clients && s.ring.enq == s.ring.deq == cfg.N()
    requires OnlyPolls(cfg, s, s', c) && s'.ring == s.ring && !s'.cli[c].Exited?
    requires ExitDistance(s.ring, s'.pcs[c + 1], s'.cli[c]) < ExitDistance(s.ring, s.pcs[c + 1], s.cli[c])
    ensures Distance(cfg, s') < Distance(cfg, s)
  {
    hide ExitDistance, ClaimDistance, EnqueueDistance, FirstStaying;
    forall d: nat | d < c ensures s'.cli[d] == s.cli[d] {
      assert SameClient(s, s', d);
    }
    SameFirstStaying(s.cli, s'.cli, c);
  }

  lemma ExitIsCloser(cfg: Config, s: State, s': State, c: nat)
    requires s.Wf(cfg) && s'.Wf(cfg) && c < cfg.clients && OnlyPolls(cfg, s, s', c) && s'.ring == s.ring
    requires Unladen(cfg, s, c) && s'.cli[c].Exited?
    ensures Closer(cfg, s, s')
  {
    hide Unladen, ClientWork, Distance;
    WorksAfter(cfg, s, s', c);
    UnladenHasNoWork(cfg, s, c);
    ExitedHasNoWork(s'.pcs[c + 1], s'.cli[c], s'.accs[c]);
  }

  lemma ExitedHasNoWork(pc: Pc<Entry>, cl: Client, acc: Access)
    requires cl.Exited?
    ensures ClientWork(pc, cl, acc) == 0
  {
  }

  /** In every state that is not complete, some thread can take a step towards completion. */
  lemma SomeStepHelps(cfg: Config, s: State) returns (a: Act)
    requires Inv(cfg, s) && !Complete(s) && (cfg.clients >= 1 || cfg.N() == 0)
    ensures Do(cfg, s, a).Some? && Closer(cfg, s, Do(cfg, s, a).value)
  {
    if WorkLeft(cfg, s) > 0 {
      a := WorkGetsDone(cfg, s);
    } else if s.ring.enq > s.ring.deq {
      ClientClaims(cfg, s);
      a := Serve(0, false);
    } else if s.ring.enq < cfg.N() {
      a := ProducerClaims(cfg, s);
    } else if s.prod.Join? && FirstStaying(s.cli) < cfg.clients {
      a := Serve(FirstStaying(s.cli), false);
      ClientLeaves(cfg, s, FirstStaying(s.cli));
    } else {
      a := Produce(false);
      ProducerEnds(cfg, s);
    }
  }

  lemma ProducerEnds(cfg: Config, s: State)
    requires Inv(cfg, s) && !Complete(s) && WorkLeft(cfg, s) == 0 && s.ring.enq == s.ring.deq == cfg.N()
    requires s.prod.Join? ==> FirstStaying(s.cli) == cfg.clients
    ensures Do(cfg, s, Produce(false)).Some? && Closer(cfg, s, Do(cfg, s, Produce(false)).value)
  {
    assert ProducerInv(cfg, s);
    var s' := Do(cfg, s, Produce(false)).value;
    assert Works(cfg, s') == Works(cfg, s) && Stays(cfg, s') == Stays(cfg, s);
  }

  // ---------- Finite continuations ----------

  /** From every state with the invariant a finite continuation completes the run. */
  lemma {:induction false} CanComplete(cfg: Config, s: State) returns (acts: seq<Act>)
    requires Inv(cfg, s) && RoomyEnough(cfg) && (cfg.clients >= 1 || cfg.N() == 0)
    ensures Exec(cfg, s, acts).Some? && Complete(Exec(cfg, s, acts).value)
    decreases ClaimsLeft(cfg, s), WorkLeft(cfg, s), ThreadsLeft(cfg, s), Distance(cfg, s)
  {
    if Complete(s) {
      acts := [];
    } else {
      var a := SomeStepHelps(cfg, s);
      var s' := Do(cfg, s, a).value;
      DoKeeps(cfg, s, a);
      ClaimsBounded(cfg, s');
      var rest := CanComplete(cfg, s');
      assert Exec(cfg, s, [a]) == Some(s') by { assert [a][..0] == []; }
      ExecAppend(cfg, s, [a], rest);
      acts := [a] + rest;
    }
  }

  lemma ClaimsBounded(cfg: Config, s: State)
    requires Inv(cfg, s)
    ensures 0 <= ClaimsLeft(cfg, s)
  {
    DeqBounded(cfg, s);
  }
}
