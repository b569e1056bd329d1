/** Exactly which open-loop runs can bring a writer into the index next to another client. */
module PipelineExclusion {
  import opened Wrappers
  import opened OpMix
  import opened Lcg
  import opened Slots
  import opened Ring
  import opened IndexLock
  import opened Pipeline
  import opened PipelineSafety
  import opened PipelineOps
  import opened PipelineMoves

  /** In no reachable state is a writer in the index together with another client. */
  lemma WritersAloneInRun(cfg: Config, m: Mix, seed: nat, s: State)
    requires DrivenBy(cfg, m, seed) && Reachable(cfg, s) && ElisionOk(m, true)
    ensures WritersAlone(s.accs)
  {
    forall a: nat, b: nat | a < |s.accs| && b < |s.accs| && a != b && s.accs[a].Inside? && s.accs[b].Inside?
      ensures !s.accs[a].op.IsWrite()
    {
      AllDrawn(cfg, m, seed, s);
      InsideHasQuery(cfg, s, a);
      ElisionIsSafe(s.lock, LockPolicy(cfg), s.accs, m);
    }
  }

  lemma AllDrawn(cfg: Config, m: Mix, seed: nat, s: State)
    requires DrivenBy(cfg, m, seed) && Reachable(cfg, s)
    ensures AllInTable(m, s.accs)
  {
    hide Reachable, InTable, OpStream;
    forall c: nat | c < |s.accs| && s.accs[c].Inside? ensures InTable(m, s.accs[c].op) {
      InsideHasQuery(cfg, s, c);
      var i: nat :| i < |cfg.ops| && cfg.ops[i] == s.accs[c].op;
      DrawnIsInTable(m, seed, i);
    }
  }

  /** With one client, or for an index with its own concurrency control, searches never take the lock:
      whoever holds it in shared mode is scanning. */
  lemma SearchesUnlocked(cfg: Config, m: Mix, s: State, threadSafe: bool, c: nat)
    requires cfg.Wf() && Reachable(cfg, s) && cfg.needsLock == NeedsLock(m, cfg.clients, threadSafe)
    requires (cfg.clients < 2 || threadSafe) && c in s.lock.readers
    ensures c < |s.accs| && s.accs[c] == Inside(Scan)
  {
    hide Reachable, RingKnown, ProducerKnown, ClientKnown;
    ReachableOps(cfg, s);
  }

  // ---------- Reaching a clash ----------

  predicate Free(l: RwLock) { l.writer.None? && l.readers == {} }

  /** The cells of an empty ring after k queries. */
  ghost predicate FreshCells(r: Ring<Entry>, k: nat)
    requires r.Wf()
  {
    forall t: nat :: k <= t < k + r.cap ==> r.At(t).sq == t
  }

  /** The first k queries have gone through the ring, nobody is in a call or in the index, client 1
      polls and client 0 stands at `held`. */
  ghost predicate Station(cfg: Config, s: State, k: nat, held: Client)
  {
    && s.Wf(cfg) && cfg.clients >= 2 && Reachable(cfg, s)
    && s.prod == ProducerAt(cfg, k) && s.ring.enq == s.ring.deq == k && FreshCells(s.ring, k)
    && (forall j: nat :: j <= cfg.clients ==> s.pcs[j] == Idle)
    && s.cli[0] == held && s.cli[1] == Polling && Free(s.lock)
  }

  /** Using the cell of position k leaves the other cells alone. */
  lemma CellsMoveOn(r: Ring<Entry>, r': Ring<Entry>, k: nat)
    requires r.Wf() && r'.Wf() && r'.cap == r.cap && FreshCells(r, k)
    requires r'.cells == r.cells[Slot(k, r.cap) := r'.At(k)] && r'.At(k).sq == k + r.cap
    ensures FreshCells(r', k + 1)
  {
    hide Slot;
    forall t: nat | k + 1 <= t < k + 1 + r.cap ensures r'.At(t).sq == t {
      if t == k + r.cap {
        LapAhead(k, r.cap);
      } else {
        SameSlotFarApart(t, k, r.cap);
        assert r.At(t).sq == t;
      }
    }
  }

  /** Query k goes into the ring. */
  lemma PutIn(cfg: Config, s: State, k: nat, held: Client) returns (s': State)
    requires Station(cfg, s, k, held) && k < cfg.N()
    ensures s'.Wf(cfg) && Reachable(cfg, s') && s'.lock == s.lock && s'.prod == ProducerAt(cfg, k + 1)
    ensures s'.ring.enq == k + 1 && s'.ring.deq == k
    ensures s'.ring.cells == s.ring.cells[Slot(k, cfg.cap) := s'.ring.At(k)]
    ensures s'.ring.At(k).sq == k + 1 && s'.ring.At(k).val.op == cfg.ops[k]
    ensures forall j: nat :: j <= cfg.clients ==> s'.pcs[j] == Idle
    ensures s'.cli[0] == s.cli[0] && s'.cli[1] == s.cli[1]
  {
    hide Reachable;
    s' := EnqueueOne(cfg, s, k, 9);
  }

  /** Query k goes through the ring to client c. */
  lemma Hand(cfg: Config, s: State, k: nat, held: Client, c: nat) returns (s': State)
    requires Station(cfg, s, k, held) && k < cfg.N() && c < 2 && s.cli[c] == Polling
    ensures s'.Wf(cfg) && Reachable(cfg, s') && s'.lock == s.lock
    ensures s'.prod == ProducerAt(cfg, k + 1) && s'.ring.enq == s'.ring.deq == k + 1 && FreshCells(s'.ring, k + 1)
    ensures forall j: nat :: j <= cfg.clients ==> s'.pcs[j] == Idle
    ensures s'.cli[1 - c] == s.cli[1 - c] && s'.cli[c].Got? && s'.cli[c].e.op == cfg.ops[k]
  {
    hide Reachable, ProducerAt, FreshCells;
    var m := PutIn(cfg, s, k, held);
    s' := DequeueOne(cfg, m, c, k, 7);
    CellsMoveOn(s.ring, s'.ring, k);
  }

  lemma FreeAgain(l: RwLock, p: Policy, t: nat, op: Op)
    requires Free(l)
    ensures Acquire(l, p, t, op).Some? && Free(Release(Acquire(l, p, t, op).value, p, t, op))
  {
  }

  /** Without the lock rule in force, the free lock admits a search next to a write in either order. */
  lemma BothAdmitted(l: RwLock, first: Op, second: Op)
    requires Free(l) && ((first == Search && second.IsWrite()) || (first.IsWrite() && second == Search))
    ensures Acquire(l, OpenLoop(false), 1, first).Some?
    ensures Acquire(Acquire(l, OpenLoop(false), 1, first).value, OpenLoop(false), 0, second).Some?
  {
  }

  /** Client 1 serves the queries from k up to n while client 0 stands still. */
  lemma {:induction false} Pass(cfg: Config, s: State, k: nat, held: Client, n: nat) returns (s': State)
    requires Station(cfg, s, k, held) && k <= n <= cfg.N()
    ensures Station(cfg, s', n, held)
    decreases n - k
  {
    if k == n {
      s' := s;
    } else {
      s' := Hand(cfg, s, k, held, 1);
      FreeAgain(s'.lock, LockPolicy(cfg), 1, s'.cli[1].e.op);
      s' := EnterIndex(cfg, s', 1);
      s' := LeaveIndex(cfg, s', 1);
      s' := Pass(cfg, s', k + 1, held, n);
    }
  }

  /** Two queries, one of them a write and the other a search, whichever comes first. */
  predicate Clash(cfg: Config, i: nat, j: nat)
    requires cfg.Wf()
  {
    && i < j < cfg.N()
    && (|| (cfg.ops[i].IsWrite() && cfg.ops[j] == Search)
        || (cfg.ops[i] == Search && cfg.ops[j].IsWrite()))
  }

  lemma InitStation(cfg: Config) returns (s: State)
    requires cfg.Wf() && cfg.clients >= 2
    ensures Station(cfg, s, 0, Polling)
  {
    var junk := Entry(0, 0, Search, 0);
    s := Init(cfg, junk);
    assert Exec(cfg, s, []) == Some(s);
  }

  /** Client 0 takes the earlier query and pauses, client 1 serves what lies between, takes the later
      one and enters, and then client 0 enters. */
  lemma ReachClash(cfg: Config, i: nat, j: nat) returns (s: State)
    requires cfg.Wf() && cfg.clients >= 2 && !cfg.needsLock && Clash(cfg, i, j)
    ensures Reachable(cfg, s) && !WritersAlone(s.accs)
  {
    s := InitStation(cfg);
    s := Pass(cfg, s, 0, Polling, i);
    s := Hand(cfg, s, i, Polling, 0);
    var held := s.cli[0];
    s := ServeLater(cfg, s, i, held, j);
  }

  lemma ServeLater(cfg: Config, s0: State, i: nat, held: Client, j: nat) returns (s: State)
    requires cfg.Wf() && !cfg.needsLock && Clash(cfg, i, j)
    requires Station(cfg, s0, i + 1, held) && held.Got? && held.e.op == cfg.ops[i]
    ensures Reachable(cfg, s) && !WritersAlone(s.accs)
  {
    hide Reachable, Acquire, ProducerAt;
    s := Pass(cfg, s0, i + 1, held, j);
    s := Hand(cfg, s, j, held, 1);
    BothAdmitted(s.lock, cfg.ops[j], cfg.ops[i]);
    s := EnterIndex(cfg, s, 1);
    s := EnterIndex(cfg, s, 0);
    assert s.accs[0].Inside? && s.accs[1].Inside?;
  }

  /** The lock lets a writer in next to someone else only if that is a search and searches do not lock. */
  lemma LockAdmits(l: RwLock, lock: bool, accs: seq<Access>, a: nat, b: nat)
    requires LockInv(l, OpenLoop(lock), accs) && a < |accs| && b < |accs| && a != b
    requires accs[a].Inside? && accs[b].Inside? && accs[a].op.IsWrite()
    ensures !lock && accs[b].op == Search
  {
    assert l.writer == Some(a) ==> b !in l.readers && l.writer != Some(b);
  }

  /** A writer in company is with a search that took no lock. */
  lemma CompanyClashes(cfg: Config, s: State, a: nat, b: nat)
    requires cfg.Wf() && Reachable(cfg, s) && a < |s.accs| && b < |s.accs| && a != b
    requires s.accs[a].Inside? && s.accs[b].Inside? && s.accs[a].op.IsWrite()
    ensures !cfg.needsLock && cfg.clients >= 2 && exists i: nat, j: nat :: Clash(cfg, i, j)
  {
    hide Reachable, LockInv;
    InsideHasQuery(cfg, s, a);
    InsideHasQuery(cfg, s, b);
    LockAdmits(s.lock, cfg.needsLock, s.accs, a, b);
    var t: nat :| t < |cfg.ops| && cfg.ops[t] == s.accs[a].op;
    var u: nat :| u < |cfg.ops| && cfg.ops[u] == s.accs[b].op;
    assert if t < u then Clash(cfg, t, u) else Clash(cfg, u, t);
  }

  /** For every open-loop configuration: no reachable state has a writer in company if and
      only if searches lock, or there are fewer than two clients, or the queries do not hold both a
      write and a search. */
  lemma ExclusionExact(cfg: Config)
    requires cfg.Wf()
    ensures (forall s | Reachable(cfg, s) :: WritersAlone(s.accs))
            <==> cfg.needsLock || cfg.clients < 2 || !exists i: nat, j: nat :: Clash(cfg, i, j)
  {
    if !cfg.needsLock && cfg.clients >= 2 && exists i: nat, j: nat :: Clash(cfg, i, j) {
      var i: nat, j: nat :| Clash(cfg, i, j);
      var s := ReachClash(cfg, i, j);
    } else {
      forall s | Reachable(cfg, s) ensures WritersAlone(s.accs) {
        forall a: nat, b: nat | a < |s.accs| && b < |s.accs| && a != b && s.accs[a].Inside? && s.accs[b].Inside?
          ensures !s.accs[a].op.IsWrite()
        {
          if s.accs[a].op.IsWrite() {
            CompanyClashes(cfg, s, a, b);
          }
        }
      }
    }
  }

  /** 1024 queries draw every op of the table, so a write and a search if it has both. */
  lemma ClashIsDrawn(cfg: Config, m: Mix, seed: nat) returns (i: nat, j: nat)
    requires DrivenBy(cfg, m, seed) && cfg.N() >= BINS && HasWriteEntry(m) && InTable(m, Search)
    ensures Clash(cfg, i, j)
  {
    var b: nat :| b < BINS && OpAt(m, b).IsWrite();
    var d: nat :| d < BINS && OpAt(m, d) == Search;
    i := EveryBinIsDrawn(Table(m), seed, b);
    j := EveryBinIsDrawn(Table(m), seed, d);
    assert cfg.ops[i].IsWrite() && cfg.ops[j] == Search;
    if j < i {
      i, j := j, i;
    }
  }

  /** With the driver's lock rule, two or more clients and at least 1024 queries, exclusion holds in
      every reachable state if and only if the mix is one the rule is made for, whatever the seed. */
  lemma RuleExact(cfg: Config, m: Mix, seed: nat)
    requires DrivenBy(cfg, m, seed) && cfg.clients >= 2 && cfg.N() >= BINS
    ensures (forall s | Reachable(cfg, s) :: WritersAlone(s.accs)) <==> ElisionOk(m, true)
  {
    ExclusionExact(cfg);
    if !ElisionOk(m, true) {
      var i, j := ClashIsDrawn(cfg, m, seed);
    } else if !cfg.needsLock {
      forall i: nat, j: nat ensures !Clash(cfg, i, j) {
        if i < j < cfg.N() {
          DrawnIsInTable(m, seed, i);
          DrawnIsInTable(m, seed, j);
        }
      }
    }
  }
}
