/** The closed-loop batch mode of bench.cpp: workers meet at a spin gate and then serve their shards
    of the query stream, each with its own generator. */
module BatchRun {
  import opened Wrappers
  import opened OpMix
  import opened Lcg
  import opened IndexLock
  import opened Shards

  /** `seeds` has one generator seed per worker; `workers` is already clamped to at least one. */
  datatype Config = Config(keys: seq<nat>, mix: Mix, seeds: seq<nat>, useLock: bool)
  {
    function N(): nat { |keys| }
    function W(): nat { |seeds| }
    predicate Wf() { |seeds| >= 1 }
    function Lo(w: nat): nat requires Wf() { Begin(N(), W(), w) }
    function Hi(w: nat): nat requires Wf() { End(N(), W(), w) }
  }

  /** A finished query: its index, its key, the op drawn for it and the clock reads. */
  datatype Job = Job(i: nat, key: nat, op: Op, tStart: nat, tLookup: nat, tEnd: nat)

  datatype Worker =
    | Arriving                                                     // about to decrement the gate
    | AtGate                                                       // spinning until the gate is down
    | Looping(i: nat, lcg: nat)                                    // head of the query loop
    | Serving(i: nat, key: nat, lcg: nat, op: Op, tStart: nat)     // at or inside the index
    | Served(i: nat, key: nat, lcg: nat, op: Op, tStart: nat)      // about to read t_lookup
    | Working(i: nat, key: nat, lcg: nat, op: Op, tStart: nat, tLookup: nat) // workload, then t_end
    | Left

  datatype State = State(
    gate: int, ws: seq<Worker>, lock: RwLock, accs: seq<Access>, now: nat, logs: seq<seq<Job>>)
  {
    predicate Wf(cfg: Config) { cfg.Wf() && |ws| == |accs| == |logs| == cfg.W() }
  }

  datatype Act = Tick(dt: nat) | Work(w: nat)

  function Init(cfg: Config): State
  {
    State(cfg.W(), seq(cfg.W(), _ => Arriving), RwLock(None, {}), seq(cfg.W(), _ => Outside), 0, seq(cfg.W(), _ => []))
  }

  function WorkerStep(cfg: Config, s: State, w: nat): (r: Option<State>)
    requires s.Wf(cfg) && w < cfg.W()
    ensures r.Some? ==> r.value.Wf(cfg)
  {
    match s.ws[w]
    case Arriving => Some(s.(gate := s.gate - 1, ws := s.ws[w := AtGate]))
    case AtGate => if s.gate > 0 then None else Some(s.(ws := s.ws[w := Looping(cfg.Lo(w), cfg.seeds[w])]))
    case Looping(i, lcg) =>
      if i < cfg.Hi(w) then
        ShardsTouch(cfg.N(), cfg.W(), w);
        var lcg' := Next(lcg);
        var op := OpAt(cfg.mix, lcg' % BINS);
        Some(s.(ws := s.ws[w := Serving(i, cfg.keys[i], lcg', op, s.now)], accs := s.accs[w := Waiting(op)]))
      else Some(s.(ws := s.ws[w := Left]))
    case Serving(i, key, lcg, op, tStart) =>
      (match s.accs[w]
       case Waiting(o) =>
         (match Acquire(s.lock, Batch(cfg.useLock), w, o)
          case None => None
          case Some(l) => Some(s.(lock := l, accs := s.accs[w := Inside(o)])))
       case Inside(o) =>
         Some(s.(lock := Release(s.lock, Batch(cfg.useLock), w, o), accs := s.accs[w := Outside],
                 ws := s.ws[w := Served(i, key, lcg, op, tStart)]))
       case Outside => None)
    case Served(i, key, lcg, op, tStart) => Some(s.(ws := s.ws[w := Working(i, key, lcg, op, tStart, s.now)]))
    case Working(i, key, lcg, op, tStart, tLookup) =>
      Some(s.(logs := s.logs[w := s.logs[w] + [Job(i, key, op, tStart, tLookup, s.now)]],
              ws := s.ws[w := Looping(i + 1, lcg)]))
    case Left => None
  }

  function Do(cfg: Config, s: State, a: Act): (r: Option<State>)
    requires s.Wf(cfg)
    ensures r.Some? ==> r.value.Wf(cfg)
  {
    match a
    case Tick(dt) => Some(s.(now := s.now + dt))
    case Work(w) => if w < cfg.W() then WorkerStep(cfg, s, w) else None
  }

  function Exec(cfg: Config, s: State, acts: seq<Act>): (r: Option<State>)
    requires s.Wf(cfg)
    ensures r.Some? ==> r.value.Wf(cfg)
  {
    if acts == [] then Some(s)
    else
      match Exec(cfg, s, acts[..|acts| - 1])
      case None => None
      case Some(m) => Do(cfg, m, acts[|acts| - 1])
  }

  // ---------- The invariant ----------

  predicate BeforeGate(x: Worker) { x.Arriving? || x.AtGate? }

  /** Workers that have not decremented the gate. */
  function Missing(ws: seq<Worker>): nat
  {
    if ws == [] then 0 else Missing(ws[..|ws| - 1]) + if ws[|ws| - 1].Arriving? then 1 else 0
  }

  lemma {:induction false} MissingAfter(ws: seq<Worker>, w: nat, x: Worker)
    requires w < |ws|
    ensures Missing(ws[w := x]) == Missing(ws) - (if ws[w].Arriving? then 1 else 0) + if x.Arriving? then 1 else 0
  {
    var n := |ws| - 1;
    if w == n {
      assert ws[w := x][..n] == ws[..n];
    } else {
      MissingAfter(ws[..n], w, x);
      assert ws[w := x][..n] == ws[..n][w := x];
    }
  }

  lemma {:induction false} NoneMissing(ws: seq<Worker>, w: nat)
    requires Missing(ws) == 0 && w < |ws|
    ensures !ws[w].Arriving?
  {
    if w < |ws| - 1 {
      NoneMissing(ws[..|ws| - 1], w);
    }
  }

  /** How many queries the worker has finished, and how many ops it has drawn. */
  function Finished(cfg: Config, w: nat, x: Worker): int
    requires cfg.Wf()
  {
    match x
    case Arriving => 0
    case AtGate => 0
    case Left => cfg.Hi(w) - cfg.Lo(w)
    case _ => x.i - cfg.Lo(w)
  }

  ghost predicate JobInv(cfg: Config, w: nat, a: nat, job: Job)
    requires cfg.Wf() && w < cfg.W()
  {
    && job.i == cfg.Lo(w) + a < cfg.N() && job.key == cfg.keys[job.i]
    && job.op == OpStream(Table(cfg.mix), cfg.seeds[w])(a)
    && job.tStart <= job.tLookup <= job.tEnd
  }

  ghost predicate WorkerInv(cfg: Config, s: State, w: nat)
    requires s.Wf(cfg) && w < cfg.W()
  {
    var (x, log, acc) := (s.ws[w], s.logs[w], s.accs[w]);
    && (!x.Serving? ==> acc.Outside?)
    && |log| == Finished(cfg, w, x) && (forall a: nat :: a < |log| ==> JobInv(cfg, w, a, log[a]))
    && (match x
        case Looping(i, lcg) => i <= cfg.Hi(w) && lcg == Draw(cfg.seeds[w], |log|)
        case Serving(i, key, lcg, op, tStart) =>
          Drew(cfg, w, i, key, lcg, op, |log|) && tStart <= s.now && !acc.Outside? && acc.op == op
        case Served(i, key, lcg, op, tStart) => Drew(cfg, w, i, key, lcg, op, |log|) && tStart <= s.now
        case Working(i, key, lcg, op, tStart, tLookup) =>
          Drew(cfg, w, i, key, lcg, op, |log|) && tStart <= tLookup <= s.now
        case _ => true)
  }

  /** The op of the current query has been drawn from the worker's generator. */
  ghost predicate Drew(cfg: Config, w: nat, i: nat, key: nat, lcg: nat, op: Op, a: nat)
    requires cfg.Wf() && w < cfg.W()
  {
    && i < cfg.Hi(w) && i < cfg.N() && key == cfg.keys[i]
    && lcg == Draw(cfg.seeds[w], a + 1) && op == OpStream(Table(cfg.mix), cfg.seeds[w])(a)
  }

  ghost predicate Inv(cfg: Config, s: State)
  {
    && s.Wf(cfg)
    && s.gate == Missing(s.ws)
    && (forall w: nat :: w < cfg.W() && !BeforeGate(s.ws[w]) ==> s.gate == 0)
    && (forall w: nat :: w < cfg.W() ==> WorkerInv(cfg, s, w))
    && LockInv(s.lock, Batch(cfg.useLock), s.accs)
  }

  lemma {:induction false} AllMissing(ws: seq<Worker>)
    requires forall w :: 0 <= w < |ws| ==> ws[w].Arriving?
    ensures Missing(ws) == |ws|
  {
    if ws != [] {
      AllMissing(ws[..|ws| - 1]);
    }
  }

  lemma InitHolds(cfg: Config)
    requires cfg.Wf()
    ensures Inv(cfg, Init(cfg))
  {
    AllMissing(Init(cfg).ws);
  }

  lemma WorkerMoves(cfg: Config, s: State, w: nat)
    requires Inv(cfg, s) && w < cfg.W() && WorkerStep(cfg, s, w).Some?
    ensures WorkerInv(cfg, WorkerStep(cfg, s, w).value, w)
  {
    assert WorkerInv(cfg, s, w);
    ShardsTouch(cfg.N(), cfg.W(), w);
    hide LockInv, Begin, End, OpAt, Next;
  }

  lemma LockMoves(cfg: Config, s: State, w: nat)
    requires Inv(cfg, s) && w < cfg.W() && WorkerStep(cfg, s, w).Some?
    ensures var s' := WorkerStep(cfg, s, w).value; LockInv(s'.lock, Batch(cfg.useLock), s'.accs)
  {
    assert WorkerInv(cfg, s, w);
    hide LockInv, Begin, End, OpAt, Next;
    var s' := WorkerStep(cfg, s, w).value;
    if s.ws[w].Looping? && s'.ws[w].Serving? {
      OutsideKeepsLock(s.lock, Batch(cfg.useLock), s.accs, w, s'.accs[w]);
    } else if s.ws[w].Serving? && s.accs[w].Waiting? {
      EnterKeepsLock(s.lock, Batch(cfg.useLock), s.accs, w);
    } else if s.ws[w].Serving? {
      LeaveKeepsLock(s.lock, Batch(cfg.useLock), s.accs, w);
    }
  }

  lemma GateMoves(cfg: Config, s: State, w: nat)
    requires Inv(cfg, s) && w < cfg.W() && WorkerStep(cfg, s, w).Some?
    ensures var s' := WorkerStep(cfg, s, w).value;
            && s'.gate == Missing(s'.ws)
            && (forall v: nat :: v < cfg.W() && !BeforeGate(s'.ws[v]) ==> s'.gate == 0)
  {
    var s' := WorkerStep(cfg, s, w).value;
    MissingAfter(s.ws, w, s'.ws[w]);
    assert s'.ws == s.ws[w := s'.ws[w]];
    hide LockInv, Begin, End, OpAt, Next, WorkerInv;
    if s.ws[w].Arriving? && s.gate == 0 {
      NoneMissing(s.ws, w);
    }
  }

  lemma OthersStay(cfg: Config, s: State, w: nat, v: nat)
    requires s.Wf(cfg) && w < cfg.W() && v < cfg.W() && v != w && WorkerStep(cfg, s, w).Some? && WorkerInv(cfg, s, v)
    ensures WorkerInv(cfg, WorkerStep(cfg, s, w).value, v)
  {
    hide Begin, End, OpAt, Next;
  }

  lemma DoKeeps(cfg: Config, s: State, a: Act)
    requires Inv(cfg, s) && Do(cfg, s, a).Some?
    ensures Inv(cfg, Do(cfg, s, a).value)
  {
    var s' := Do(cfg, s, a).value;
    match a
    case Tick(dt) =>
      hide LockInv, OpAt, Begin, End;
      forall v: nat | v < cfg.W() ensures WorkerInv(cfg, s', v) {
        assert WorkerInv(cfg, s, v);
      }
    case Work(w) =>
      hide LockInv, WorkerInv, WorkerStep, Missing;
      WorkerMoves(cfg, s, w);
      LockMoves(cfg, s, w);
      GateMoves(cfg, s, w);
      forall v: nat | v < cfg.W() ensures WorkerInv(cfg, s', v) {
        if v != w {
          OthersStay(cfg, s, w, v);
        }
      }
  }

  lemma {:induction false} ExecKeeps(cfg: Config, s: State, acts: seq<Act>)
    requires s.Wf(cfg) && Inv(cfg, s) && Exec(cfg, s, acts).Some?
    ensures Inv(cfg, Exec(cfg, s, acts).value)
  {
    hide Inv, Do;
    if acts != [] {
      ExecKeeps(cfg, s, acts[..|acts| - 1]);
      DoKeeps(cfg, Exec(cfg, s, acts[..|acts| - 1]).value, acts[|acts| - 1]);
    }
  }

  ghost predicate Reachable(cfg: Config, s: State)
    requires cfg.Wf()
  {
    exists acts: seq<Act> :: Init(cfg).Wf(cfg) && Exec(cfg, Init(cfg), acts) == Some(s)
  }

  lemma ReachableHolds(cfg: Config, s: State)
    requires cfg.Wf() && Reachable(cfg, s)
    ensures Inv(cfg, s)
  {
    var acts: seq<Act> :| Init(cfg).Wf(cfg) && Exec(cfg, Init(cfg), acts) == Some(s);
    InitHolds(cfg);
    ExecKeeps(cfg, Init(cfg), acts);
  }
}
