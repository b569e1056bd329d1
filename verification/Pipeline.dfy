/** The open-loop run of bench.cpp as a transition system: one producer thread, any number of client
    threads, the ring between them, the `done` flag, the index lock and a clock that only moves
    forward. Thread 0 of the ring is the producer, thread c + 1 is client c. */
module Pipeline {
  import opened Wrappers
  import opened Clock
  import opened OpMix
  import opened Ring
  import opened IndexLock

  datatype Entry = Entry(key: nat, tEnq: nat, op: Op, scanLen: int)

  /** The inputs of a run: query keys, the pregenerated op choices and arrival times. */
  datatype Config = Config(
    keys: seq<nat>, ops: seq<Op>, sched: seq<nat>, clients: nat, cap: nat, needsLock: bool, scanLen: int)
  {
    predicate Wf() { |keys| == |ops| == |sched| && 0 < cap }
    function N(): nat { |keys| }
  }

  datatype Producer =
    | Spin(i: nat)                     // spin_until the arrival time of query i
    | Stamp(i: nat)                    // about to read the clock into the entry
    | Calling(i: nat, e: Entry)        // inside try_enqueue
    | Restamp(i: nat, e: Entry)        // it failed, about to re-read the clock
    | Count(i: nat)                    // it succeeded, about to increment `produced`
    | StoreDone
    | Join
    | Finished

  /** One finished query: the ticket it came in with and the three clock reads. */
  datatype Job = Job(t: nat, e: Entry, tStart: nat, tLookup: nat, tEnd: nat)

  datatype Client =
    | Polling                                                // inside try_dequeue
    | CheckDone                                              // it failed, about to load `done`
    | LoadEnq                                                // `done` was set, approx_size loads enq_pos_
    | LoadDeq(enq: nat)                                      // ... and then deq_pos_
    | Got(t: nat, e: Entry)                                  // about to read t_start
    | Serving(t: nat, e: Entry, tStart: nat)                 // at or inside the index
    | Served(t: nat, e: Entry, tStart: nat)                  // about to read t_lookup
    | Working(t: nat, e: Entry, tStart: nat, tLookup: nat)   // workload, then t_end
    | Recording(job: Job)                                    // about to add to the histograms
    | Counting                                               // about to increment `consumed`
    | Exited

  datatype State = State(
    ring: Ring<Entry>,
    pcs: seq<Pc<Entry>>,
    prod: Producer,
    cli: seq<Client>,
    lock: RwLock,
    accs: seq<Access>,
    done: bool,
    produced: nat,
    consumed: nat,
    now: nat,
    logs: seq<seq<Job>>,
    lag: nat,            // lag_total
    stamps: seq<nat>)    // history: the first stamp of each query
  {
    predicate Wf(cfg: Config)
    {
      && cfg.Wf() && ring.Wf() && ring.cap == cfg.cap
      && |pcs| == cfg.clients + 1 && |cli| == |accs| == |logs| == cfg.clients
    }
  }

  datatype Act = Tick(dt: nat) | Produce(spurious: bool) | Serve(c: nat, spurious: bool)

  function ProducerAt(cfg: Config, i: nat): Producer { if i < cfg.N() then Spin(i) else StoreDone }

  function Init(cfg: Config, junk: Entry): State
  {
    State(InitRing(cfg.cap, junk), seq(cfg.clients + 1, _ => Idle), ProducerAt(cfg, 0),
          seq(cfg.clients, _ => Polling), RwLock(None, {}), seq(cfg.clients, _ => Outside),
          false, 0, 0, 0, seq(cfg.clients, _ => []), 0, [])
  }

  function EntryOf(cfg: Config, i: nat, now: nat): Entry
    requires cfg.Wf() && i < cfg.N()
  {
    Entry(cfg.keys[i], now, cfg.ops[i], cfg.scanLen)
  }

  predicate AllExited(s: State) { forall c :: 0 <= c < |s.cli| ==> s.cli[c].Exited? }

  /** One step inside a ring call of thread `tid`. */
  function RingStep(s: State, tid: nat, spurious: bool): (s': State)
    requires s.ring.Wf() && tid < |s.pcs| && s.pcs[tid].Running()
    ensures s'.ring.Wf() && s'.ring.cap == s.ring.cap
  {
    var (r', pc') := Step(s.ring, tid, s.pcs[tid], spurious);
    s.(ring := r', pcs := s.pcs[tid := pc'])
  }

  function ProducerStep(cfg: Config, s: State, spurious: bool): (r: Option<State>)
    requires s.Wf(cfg)
    ensures r.Some? ==> r.value.Wf(cfg)
  {
    match s.prod
    case Spin(i) => if i < cfg.N() && s.now >= cfg.sched[i] then Some(s.(prod := Stamp(i))) else None
    case Stamp(i) =>
      if i >= cfg.N() then None
      else
        var e := EntryOf(cfg, i, s.now);
        Some(s.(prod := Calling(i, e), pcs := s.pcs[0 := EStart(e)],
                lag := s.lag + Elapsed(s.now, cfg.sched[i]), stamps := s.stamps + [s.now]))
    case Calling(i, e) =>
      if s.pcs[0].Running() then Some(RingStep(s, 0, spurious))
      else if s.pcs[0].EDone? then
        Some(s.(prod := if s.pcs[0].ok then Count(i) else Restamp(i, e), pcs := s.pcs[0 := Idle]))
      else None
    case Restamp(i, e) =>
      var e' := e.(tEnq := s.now);
      Some(s.(prod := Calling(i, e'), pcs := s.pcs[0 := EStart(e')]))
    case Count(i) => Some(s.(prod := ProducerAt(cfg, i + 1), produced := s.produced + 1))
    case StoreDone => Some(s.(prod := Join, done := true))
    case Join => if AllExited(s) then Some(s.(prod := Finished)) else None
    case Finished => None
  }

  function LockPolicy(cfg: Config): Policy { OpenLoop(cfg.needsLock) }

  function ClientStep(cfg: Config, s: State, c: nat, spurious: bool): (r: Option<State>)
    requires s.Wf(cfg) && c < cfg.clients
    ensures r.Some? ==> r.value.Wf(cfg)
  {
    var pc := s.pcs[c + 1];
    match s.cli[c]
    case Polling =>
      if pc.Idle? then Some(s.(pcs := s.pcs[c + 1 := DStart]))
      else if pc.Running() then Some(RingStep(s, c + 1, spurious))
      else if pc.DTook? then Some(s.(cli := s.cli[c := Got(pc.pos, pc.out)], pcs := s.pcs[c + 1 := Idle]))
      else if pc.DEmpty? then Some(s.(cli := s.cli[c := CheckDone], pcs := s.pcs[c + 1 := Idle]))
      else None
    case CheckDone => Some(s.(cli := s.cli[c := if s.done then LoadEnq else Polling]))
    case LoadEnq => Some(s.(cli := s.cli[c := LoadDeq(s.ring.enq)]))
    case LoadDeq(enq) =>
      var size := if enq >= s.ring.deq then enq - s.ring.deq else 0;
      Some(s.(cli := s.cli[c := if size == 0 then Exited else Polling]))
    case Got(t, e) => Some(s.(cli := s.cli[c := Serving(t, e, s.now)], accs := s.accs[c := Waiting(e.op)]))
    case Serving(t, e, tStart) =>
      (match s.accs[c]
       case Waiting(op) =>
         (match Acquire(s.lock, LockPolicy(cfg), c, op)
          case None => None
          case Some(l) => Some(s.(lock := l, accs := s.accs[c := Inside(op)])))
       case Inside(op) =>
         Some(s.(lock := Release(s.lock, LockPolicy(cfg), c, op), accs := s.accs[c := Outside],
                 cli := s.cli[c := Served(t, e, tStart)]))
       case Outside => None)
    case Served(t, e, tStart) => Some(s.(cli := s.cli[c := Working(t, e, tStart, s.now)]))
    case Working(t, e, tStart, tLookup) => Some(s.(cli := s.cli[c := Recording(Job(t, e, tStart, tLookup, s.now))]))
    case Recording(job) => Some(s.(logs := s.logs[c := s.logs[c] + [job]], cli := s.cli[c := Counting]))
    case Counting => Some(s.(cli := s.cli[c := Polling], consumed := s.consumed + 1))
    case Exited => None
  }

  function Do(cfg: Config, s: State, a: Act): (r: Option<State>)
    requires s.Wf(cfg)
    ensures r.Some? ==> r.value.Wf(cfg)
  {
    match a
    case Tick(dt) => Some(s.(now := s.now + dt))
    case Produce(spurious) => ProducerStep(cfg, s, spurious)
    case Serve(c, spurious) => if c < cfg.clients then ClientStep(cfg, s, c, spurious) else None
  }

  /** The state after a sequence of actions, if every one of them was possible. */
  function Exec(cfg: Config, s: State, acts: seq<Act>): (r: Option<State>)
    requires s.Wf(cfg)
    ensures r.Some? ==> r.value.Wf(cfg)
  {
    if acts == [] then Some(s)
    else
      match Exec(cfg, s, acts[..|acts| - 1])
      case None => None
      case Some(m) => Do(cfg, m, acts[|acts| - 1])
  }

  lemma {:induction false} ExecAppend(cfg: Config, s: State, a: seq<Act>, b: seq<Act>)
    requires s.Wf(cfg) && Exec(cfg, s, a).Some?
    ensures Exec(cfg, s, a + b) == Exec(cfg, Exec(cfg, s, a).value, b)
  {
    if b == [] {
      assert a + b == a;
    } else {
      ExecAppend(cfg, s, a, b[..|b| - 1]);
      assert (a + b)[..|a + b| - 1] == a + b[..|b| - 1];
    }
  }

  /** The run is over: the producer has joined all clients. */
  predicate Complete(s: State) { s.prod.Finished? }
}
