/** The reader/writer lock around the index and the driver's rule for leaving it out. */
module IndexLock {
  import opened Wrappers
  import opened OpMix

  datatype RwLock = RwLock(writer: Option<nat>, readers: set<nat>)

  /** Where a thread is with respect to the index. */
  datatype Access = Outside | Waiting(op: Op) | Inside(op: Op)

  datatype Mode = NoLock | Shared | Exclusive

  /** Open-loop clients always lock for writes and scans and elide the lock only for searches;
      batch workers elide it for all operations or for none. */
  datatype Policy = OpenLoop(lock: bool) | Batch(lock: bool)
  {
    function ModeOf(op: Op): Mode
    {
      if op.IsWrite() then (if OpenLoop? || lock then Exclusive else NoLock)
      else if lock || (OpenLoop? && op.Scan?) then Shared
      else NoLock
    }
  }

  /** The driver's lock decision. */
  predicate NeedsLock(m: Mix, threads: nat, threadSafe: bool)
  {
    m.HasWrites() && threads > 1 && !threadSafe
  }

  /** The lock after thread `t` acquired it for `op`; None while it has to wait. */
  function Acquire(l: RwLock, p: Policy, t: nat, op: Op): Option<RwLock>
  {
    match p.ModeOf(op)
    case NoLock => Some(l)
    case Shared => if l.writer.None? then Some(l.(readers := l.readers + {t})) else None
    case Exclusive => if l.writer.None? && l.readers == {} then Some(l.(writer := Some(t))) else None
  }

  function Release(l: RwLock, p: Policy, t: nat, op: Op): RwLock
  {
    match p.ModeOf(op)
    case NoLock => l
    case Shared => l.(readers := l.readers - {t})
    case Exclusive => l.(writer := None)
  }

  /** The lock names exactly the threads that are inside under it. */
  ghost predicate LockInv(l: RwLock, p: Policy, accs: seq<Access>)
  {
    && (l.writer.Some? ==> l.readers == {})
    && (forall t: nat :: l.writer == Some(t) <==> t < |accs| && accs[t].Inside? && p.ModeOf(accs[t].op).Exclusive?)
    && (forall t: nat :: t in l.readers <==> t < |accs| && accs[t].Inside? && p.ModeOf(accs[t].op).Shared?)
  }

  lemma EnterKeepsLock(l: RwLock, p: Policy, accs: seq<Access>, t: nat)
    requires LockInv(l, p, accs) && t < |accs| && accs[t].Waiting? && Acquire(l, p, t, accs[t].op).Some?
    ensures LockInv(Acquire(l, p, t, accs[t].op).value, p, accs[t := Inside(accs[t].op)])
  {
  }

  lemma LeaveKeepsLock(l: RwLock, p: Policy, accs: seq<Access>, t: nat)
    requires LockInv(l, p, accs) && t < |accs| && accs[t].Inside?
    ensures LockInv(Release(l, p, t, accs[t].op), p, accs[t := Outside])
  {
  }

  lemma OutsideKeepsLock(l: RwLock, p: Policy, accs: seq<Access>, t: nat, a: Access)
    requires LockInv(l, p, accs) && t < |accs| && !accs[t].Inside? && !a.Inside?
    ensures LockInv(l, p, accs[t := a])
  {
  }

  ghost predicate AllInTable(m: Mix, accs: seq<Access>)
  {
    forall t :: 0 <= t < |accs| && accs[t].Inside? ==> InTable(m, accs[t].op)
  }

  /** No thread is in the index together with a writer. */
  ghost predicate WritersAlone(accs: seq<Access>)
  {
    forall a, b :: 0 <= a < |accs| && 0 <= b < |accs| && a != b && accs[a].Inside? && accs[b].Inside? ==>
      !accs[a].op.IsWrite()
  }

  /** When leaving the lock out is harmless: the mix counts as having writes, so it is not left out;
      or its table has no write; or, in open-loop mode, it has no search, the only op that then goes
      unlocked. */
  ghost predicate ElisionOk(m: Mix, openLoop: bool)
  {
    m.HasWrites() || !HasWriteEntry(m) || (openLoop && !InTable(m, Search))
  }

  /** The rule is sound for an index without its own concurrency control. */
  lemma ElisionIsSafe(l: RwLock, p: Policy, accs: seq<Access>, m: Mix)
    requires LockInv(l, p, accs) && p.lock == NeedsLock(m, |accs|, false)
    requires AllInTable(m, accs) && ElisionOk(m, p.OpenLoop?)
    ensures WritersAlone(accs)
  {
    forall a: nat, b: nat | a < |accs| && b < |accs| && a != b && accs[a].Inside? && accs[b].Inside?
      ensures !accs[a].op.IsWrite()
    {
      assert InTable(m, accs[a].op) && InTable(m, accs[b].op);
      assert l.writer == Some(a) ==> b !in l.readers && l.writer != Some(b);
    }
  }

  /** A mix with a negative weight for which the rule is unsound in both modes. */
  lemma NegativeWeightBreaksRule()
    ensures var m := Mix(0.5, 0.5, -0.5, 0.0, 0.5); !ElisionOk(m, true) && !ElisionOk(m, false)
  {
    var m := Mix(0.5, 0.5, -0.5, 0.0, 0.5);
    NegativeWeightHidesWrites();
    assert m.Cum(0) * 1024.0 == 512.0;
    SearchEntryIff(m);
  }

  function PolicyOf(openLoop: bool, lock: bool): Policy { if openLoop then OpenLoop(lock) else Batch(lock) }

  /** ... and the condition is exact: where it fails, the lock admits a writer next to another thread. */
  lemma ElisionExact(m: Mix, threads: nat, openLoop: bool)
    requires threads >= 2
    ensures (forall l, accs | |accs| == threads && LockInv(l, PolicyOf(openLoop, NeedsLock(m, threads, false)), accs)
                              && AllInTable(m, accs) :: WritersAlone(accs))
            <==> ElisionOk(m, openLoop)
  {
    var p := PolicyOf(openLoop, NeedsLock(m, threads, false));
    if ElisionOk(m, openLoop) {
      forall l, accs | |accs| == threads && LockInv(l, p, accs) && AllInTable(m, accs) ensures WritersAlone(accs) {
        ElisionIsSafe(l, p, accs, m);
      }
    } else {
      var l, accs := UnlockedClash(m, threads, openLoop);
    }
  }

  /** One writer in the index and everyone else there without a lock. */
  lemma UnlockedClash(m: Mix, threads: nat, openLoop: bool) returns (l: RwLock, accs: seq<Access>)
    requires threads >= 2 && !ElisionOk(m, openLoop)
    ensures |accs| == threads && LockInv(l, PolicyOf(openLoop, NeedsLock(m, threads, false)), accs)
    ensures AllInTable(m, accs) && !WritersAlone(accs)
  {
    var b: nat :| b < BINS && OpAt(m, b).IsWrite();
    var write := OpAt(m, b);
    assert InTable(m, write);
    l := RwLock(if openLoop then Some(0) else None, {});
    var other := if openLoop then Search else write;
    accs := seq(threads, i => Inside(if i == 0 then write else other));
    assert accs[0].Inside? && accs[1].Inside?;
  }

  /** Someone waiting can enter, or someone inside can leave. */
  lemma SomeoneCanMove(l: RwLock, p: Policy, accs: seq<Access>, t: nat)
    requires LockInv(l, p, accs) && t < |accs| && accs[t].Waiting?
    ensures Acquire(l, p, t, accs[t].op).Some? || exists u: nat :: u < |accs| && accs[u].Inside?
  {
    if Acquire(l, p, t, accs[t].op).None? {
      if l.writer.Some? {
        assert accs[l.writer.value].Inside?;
      } else {
        var u :| u in l.readers;
        assert accs[u].Inside?;
      }
    }
  }
}
