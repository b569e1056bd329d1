/** What every step of an open-loop run keeps. */
module PipelineInv {
  import opened Wrappers
  import opened Counting
  import opened Ring
  import opened IndexLock
  import opened Pipeline

  /** An entry carries query i and a stamp between its arrival time and now. */
  predicate EntryFor(cfg: Config, e: Entry, i: nat, now: nat)
    requires cfg.Wf()
  {
    i < cfg.N() && e == EntryOf(cfg, i, e.tEnq) && cfg.sched[i] <= e.tEnq <= now
  }

  /** The producer claims ticket i for query i and nothing else. */
  ghost predicate ProducerInv(cfg: Config, s: State)
    requires s.Wf(cfg)
  {
    var (enq, pc, n) := (s.ring.enq, s.pcs[0], cfg.N());
    match s.prod
    case Spin(i) => i < n && enq == i == s.produced && pc.Idle? && !s.done
    case Stamp(i) => i < n && enq == i == s.produced && pc.Idle? && !s.done && cfg.sched[i] <= s.now
    case Calling(i, e) =>
      && s.produced == i && !s.done && EntryFor(cfg, e, i, s.now)
      && (match pc
          case EStart(v) => v == e && enq == i
          case ELoadSeq(v, _) => v == e && enq == i
          case EBranch(v, _, _) => v == e && enq == i
          case EWrite(v, pos) => v == e && pos == i && enq == i + 1
          case EPublish(v, pos) => v == e && pos == i && enq == i + 1
          case EDone(ok) => enq == if ok then i + 1 else i
          case _ => false)
    case Restamp(i, e) => enq == i == s.produced && pc.Idle? && !s.done && EntryFor(cfg, e, i, s.now)
    case Count(i) => i < n && enq == i + 1 && s.produced == i && pc.Idle? && !s.done
    case StoreDone => enq == n == s.produced && pc.Idle? && !s.done
    case Join => enq == n == s.produced && pc.Idle? && s.done
    case Finished => enq == n == s.produced && pc.Idle? && s.done && AllExited(s)
  }

  predicate Dequeuing<T>(pc: Pc<T>)
  {
    pc.Idle? || pc.DStart? || pc.DLoadSeq? || pc.DBranch? || pc.DReadVal? || pc.DRelease? || pc.DTook? || pc.DEmpty?
  }

  /** Client c has been handed ticket t, and e is what entered the ring with it. */
  ghost predicate Owns(s: State, c: nat, t: nat, e: Entry)
  {
    t < |s.ring.tickets| && s.ring.tickets[t] == Released(c + 1) && t < |s.ring.given| && s.ring.given[t] == e
  }

  ghost predicate JobInv(s: State, c: nat, job: Job)
  {
    Owns(s, c, job.t, job.e) && job.e.tEnq <= job.tStart <= job.tLookup <= job.tEnd <= s.now
  }

  /** The ticket a client has claimed and not logged yet. */
  function Current(pc: Pc<Entry>, cl: Client): Option<nat>
  {
    if pc.DReadVal? || pc.DRelease? || pc.DTook? then Some(pc.pos)
    else
      match cl
      case Got(t, _) => Some(t)
      case Serving(t, _, _) => Some(t)
      case Served(t, _, _) => Some(t)
      case Working(t, _, _, _) => Some(t)
      case Recording(job) => Some(job.t)
      case _ => None
  }

  ghost predicate ClientPcInv(cfg: Config, s: State, c: nat)
    requires s.Wf(cfg) && c < cfg.clients
  {
    var (pc, cl, acc) := (s.pcs[c + 1], s.cli[c], s.accs[c]);
    && Dequeuing(pc) && (!cl.Polling? ==> pc.Idle?) && (!cl.Serving? ==> acc.Outside?)
    && (match cl
        case LoadEnq => s.done
        case LoadDeq(enq) => s.done && enq == cfg.N()
        case Got(t, e) => Owns(s, c, t, e) && e.tEnq <= s.now
        case Serving(t, e, tStart) =>
          Owns(s, c, t, e) && e.tEnq <= tStart <= s.now && !acc.Outside? && acc.op == e.op
        case Served(t, e, tStart) => Owns(s, c, t, e) && e.tEnq <= tStart <= s.now
        case Working(t, e, tStart, tLookup) => Owns(s, c, t, e) && e.tEnq <= tStart <= tLookup <= s.now
        case Recording(job) => JobInv(s, c, job)
        case Exited => s.done && s.ring.deq == cfg.N()
        case _ => true)
  }

  /** A client's log holds jobs of its own tickets in claim order, all before its current one. */
  ghost predicate LogInv(cfg: Config, s: State, c: nat)
    requires s.Wf(cfg) && c < cfg.clients
  {
    var (log, cur) := (s.logs[c], Current(s.pcs[c + 1], s.cli[c]));
    && (forall a :: 0 <= a < |log| ==> JobInv(s, c, log[a]) && log[a].t < s.ring.deq)
    && (forall a, b :: 0 <= a < b < |log| ==> log[a].t < log[b].t)
    && (cur.Some? ==> cur.value < s.ring.deq && forall a :: 0 <= a < |log| ==> log[a].t < cur.value)
  }

  ghost predicate InLog(log: seq<Job>, t: nat) { exists a :: 0 <= a < |log| && log[a].t == t }

  /** A released ticket is in its client's log or still being worked on by that client. */
  ghost predicate Settled(cfg: Config, s: State, t: nat)
    requires s.Wf(cfg) && t < |s.ring.tickets|
  {
    s.ring.tickets[t].Released? ==>
      var who := s.ring.tickets[t].who;
      1 <= who <= cfg.clients
      && (InLog(s.logs[who - 1], t) || Current(s.pcs[who], s.cli[who - 1]) == Some(t))
  }

  // ---------- Counting ----------

  /** Tickets client c has claimed so far. */
  function ClaimsOf(s: State, c: nat): nat
    requires c + 1 < |s.pcs| && c < |s.cli| && c < |s.logs|
  {
    |s.logs[c]| + if Current(s.pcs[c + 1], s.cli[c]).Some? then 1 else 0
  }

  /** Jobs of client c that are already in `consumed`. */
  function CountedOf(s: State, c: nat): nat
    requires c < |s.cli| && c < |s.logs|
  {
    if s.cli[c].Counting? && |s.logs[c]| > 0 then |s.logs[c]| - 1 else |s.logs[c]|
  }

  function Claims(cfg: Config, s: State): seq<nat>
    requires s.Wf(cfg)
  {
    seq(cfg.clients, (c: nat) requires c < cfg.clients => ClaimsOf(s, c))
  }

  function Counted(cfg: Config, s: State): seq<nat>
    requires s.Wf(cfg)
  {
    seq(cfg.clients, (c: nat) requires c < cfg.clients => CountedOf(s, c))
  }

  ghost predicate CountInv(cfg: Config, s: State)
    requires s.Wf(cfg)
  {
    && s.ring.deq == Sum(Claims(cfg, s)) && s.consumed == Sum(Counted(cfg, s))
    && forall c :: 0 <= c < cfg.clients && s.cli[c].Counting? ==> |s.logs[c]| > 0
  }

  // ---------- The whole invariant ----------

  ghost predicate ClientsInv(cfg: Config, s: State)
    requires s.Wf(cfg)
  {
    forall c: nat :: c < cfg.clients ==> ClientPcInv(cfg, s, c) && LogInv(cfg, s, c)
  }

  ghost predicate GivenInv(cfg: Config, s: State)
    requires s.Wf(cfg)
  {
    && (forall t: nat :: t < |s.ring.given| ==> EntryFor(cfg, s.ring.given[t], t, s.now))
    && (forall t: nat :: t < |s.ring.tickets| ==> Settled(cfg, s, t))
  }

  ghost predicate Inv(cfg: Config, s: State)
  {
    && s.Wf(cfg)
    && RingInv(s.ring, s.pcs)
    && ProducerInv(cfg, s)
    && ClientsInv(cfg, s)
    && GivenInv(cfg, s)
    && CountInv(cfg, s)
    && LockInv(s.lock, LockPolicy(cfg), s.accs)
  }

  /** Two cells, or at most one query. */
  predicate RoomyEnough(cfg: Config) { cfg.cap >= 2 || cfg.N() <= 1 }

  lemma InitHolds(cfg: Config, junk: Entry)
    requires cfg.Wf()
    ensures Init(cfg, junk).Wf(cfg) && Inv(cfg, Init(cfg, junk))
  {
    var s := Init(cfg, junk);
    InitInv(cfg.cap, junk, s.pcs);
    SumZeros(Claims(cfg, s));
    SumZeros(Counted(cfg, s));
  }
}
