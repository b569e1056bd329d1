/** The bounded MPMC ring of mpmc_queue.hpp as a transition system.

    `Step` performs one atomic action of one thread. Between two actions any other thread may
    run. `tickets`, `given` and `got` are history: they record what happened to each position
    (ticket) ever claimed and never influence a step. */
module Ring {
  import opened Slots

  datatype Cell<T> = Cell(sq: nat, val: T)

  /** Life of a ticket, with the thread that last acted on it. A position that no producer has
      claimed yet has no entry. */
  datatype Ticket =
    | ProducerClaimed(who: nat)
    | Published
    | ConsumerClaimed(who: nat)
    | Released(who: nat)

  datatype Ring<T> = Ring(
    cap: nat,
    cells: seq<Cell<T>>,
    enq: nat,
    deq: nat,
    tickets: seq<Ticket>,
    given: seq<T>,
    got: map<nat, T>)
  {
    predicate Wf() { 0 < cap && |cells| == cap }

    function At(t: nat): (c: Cell<T>)
      requires Wf()
    {
      cells[Slot(t, cap)]
    }

    function SetSq(t: nat, q: nat): Ring<T>
      requires Wf()
    {
      this.(cells := cells[Slot(t, cap) := At(t).(sq := q)])
    }

    function SetVal(t: nat, v: T): Ring<T>
      requires Wf()
    {
      this.(cells := cells[Slot(t, cap) := At(t).(val := v)])
    }

    function Mark(t: nat, k: Ticket): Ring<T>
    {
      if t < |tickets| then this.(tickets := tickets[t := k]) else this
    }
  }

  /** Where a thread is inside try_enqueue or try_dequeue. */
  datatype Pc<T> =
    | Idle
    | EStart(v: T)                          // about to load enq_pos_
    | ELoadSeq(v: T, pos: nat)              // about to load the cell's seq
    | EBranch(v: T, pos: nat, sq: nat)      // about to branch on seq - pos
    | EWrite(v: T, pos: nat)                // CAS won, about to write the value
    | EPublish(v: T, pos: nat)              // about to store seq = pos + 1
    | EDone(ok: bool)
    | DStart
    | DLoadSeq(pos: nat)
    | DBranch(pos: nat, sq: nat)
    | DReadVal(pos: nat)
    | DRelease(pos: nat, out: T)
    | DTook(pos: nat, out: T)               // returned true with `out`
    | DEmpty                                // returned false
  {
    predicate Running() { !Idle? && !EDone? && !DTook? && !DEmpty? }
  }

  function InitRing<T>(cap: nat, junk: T): Ring<T>
  {
    Ring(cap, seq(cap, (i: nat) => Cell(i, junk)), 0, 0, [], [], map[])
  }

  /** One atomic action of thread `tid` at `pc`. `spurious` makes a compare_exchange_weak fail
      although the expected value is there. */
  function Step<T>(r: Ring<T>, tid: nat, pc: Pc<T>, spurious: bool): (s: (Ring<T>, Pc<T>))
    requires r.Wf() && pc.Running()
    ensures s.0.Wf() && s.0.cap == r.cap
  {
    match pc
    case EStart(v) => (r, ELoadSeq(v, r.enq))
    case ELoadSeq(v, pos) => (r, EBranch(v, pos, r.At(pos).sq))
    case EBranch(v, pos, sq) =>
      if sq == pos then
        if r.enq == pos && !spurious then
          (r.(enq := pos + 1, tickets := r.tickets + [ProducerClaimed(tid)], given := r.given + [v]),
           EWrite(v, pos))
        else (r, ELoadSeq(v, r.enq))
      else if sq < pos then (r, EDone(false))
      else (r, ELoadSeq(v, r.enq))
    case EWrite(v, pos) => (r.SetVal(pos, v), EPublish(v, pos))
    case EPublish(v, pos) => (r.SetSq(pos, pos + 1).Mark(pos, Published), EDone(true))
    case DStart => (r, DLoadSeq(r.deq))
    case DLoadSeq(pos) => (r, DBranch(pos, r.At(pos).sq))
    case DBranch(pos, sq) =>
      if sq == pos + 1 then
        if r.deq == pos && !spurious then
          (r.(deq := pos + 1).Mark(pos, ConsumerClaimed(tid)), DReadVal(pos))
        else (r, DLoadSeq(r.deq))
      else if sq < pos + 1 then (r, DEmpty)
      else (r, DLoadSeq(r.deq))
    case DReadVal(pos) => (r.(got := r.got[pos := r.At(pos).val]), DRelease(pos, r.At(pos).val))
    case DRelease(pos, out) => (r.SetSq(pos, pos + r.cap).Mark(pos, Released(tid)), DTook(pos, out))
  }

  /** What the cell's seq must be for a ticket in each state. */
  ghost predicate TicketInv<T>(r: Ring<T>, t: nat)
    requires r.Wf() && t < |r.tickets| == |r.given|
  {
    match r.tickets[t]
    case ProducerClaimed(_) => r.deq <= t && r.At(t).sq == t
    case Published => r.deq <= t && r.At(t).sq == t + 1 && r.At(t).val == r.given[t]
    case ConsumerClaimed(_) =>
      && t < r.deq <= r.enq <= t + r.cap && r.At(t).sq == t + 1 && r.At(t).val == r.given[t]
    case Released(_) => t < r.deq && r.At(t).sq >= t + r.cap && t in r.got && r.got[t] == r.given[t]
  }

  /** A position not yet claimed by a producer: its cell is free, or the consumer of the previous
      lap has not released it yet. */
  ghost predicate FreeInv<T>(r: Ring<T>, t: nat)
    requires r.Wf()
  {
    || r.At(t).sq == t
    || (r.cap <= t < r.cap + |r.tickets| && r.tickets[t - r.cap].ConsumerClaimed? && r.At(t).sq == t - r.cap + 1)
  }

  ghost predicate SharedInv<T>(r: Ring<T>)
  {
    && r.Wf()
    && |r.tickets| == |r.given| == r.enq
    && r.deq <= r.enq <= r.deq + r.cap
    && (forall t: nat :: t < r.enq ==> TicketInv(r, t))
    && (forall t: nat :: r.enq <= t < r.deq + r.cap ==> FreeInv(r, t))
    && (forall t :: t in r.got ==> t < r.deq)
  }

  ghost predicate PcInv<T>(r: Ring<T>, tid: nat, pc: Pc<T>)
    requires r.Wf() && |r.tickets| == |r.given|
  {
    match pc
    case ELoadSeq(_, pos) => pos <= r.enq
    case EBranch(_, pos, sq) => pos <= r.enq && sq <= r.At(pos).sq && (sq < pos ==> r.cap <= pos)
    case EWrite(v, pos) => pos < |r.tickets| && r.tickets[pos] == ProducerClaimed(tid) && r.given[pos] == v
    case EPublish(v, pos) =>
      pos < |r.tickets| && r.tickets[pos] == ProducerClaimed(tid) && r.given[pos] == v && r.At(pos).val == v
    case DLoadSeq(pos) => pos <= r.deq
    case DBranch(pos, sq) => pos <= r.deq && sq <= r.At(pos).sq
    case DReadVal(pos) => pos < |r.tickets| && r.tickets[pos] == ConsumerClaimed(tid) && pos !in r.got
    case DRelease(pos, out) =>
      pos < |r.tickets| && r.tickets[pos] == ConsumerClaimed(tid) && pos in r.got && r.got[pos] == out == r.given[pos]
    case DTook(pos, out) => pos < |r.tickets| && r.tickets[pos] == Released(tid) && r.given[pos] == out
    case _ => true
  }

  /** A claimed ticket is in the hands of exactly the thread it names. */
  ghost predicate HeldInv<T>(r: Ring<T>, pcs: seq<Pc<T>>, t: nat)
    requires t < |r.tickets|
  {
    match r.tickets[t]
    case ProducerClaimed(i) => i < |pcs| && (pcs[i].EWrite? || pcs[i].EPublish?) && pcs[i].pos == t
    case ConsumerClaimed(i) => i < |pcs| && (pcs[i].DReadVal? || pcs[i].DRelease?) && pcs[i].pos == t
    case _ => true
  }

  ghost predicate RingInv<T>(r: Ring<T>, pcs: seq<Pc<T>>)
  {
    && SharedInv(r)
    && (forall i: nat :: i < |pcs| ==> PcInv(r, i, pcs[i]))
    && (forall t: nat :: t < |r.tickets| ==> HeldInv(r, pcs, t))
  }

  lemma InitInv<T>(cap: nat, junk: T, pcs: seq<Pc<T>>)
    requires 0 < cap
    requires forall i :: 0 <= i < |pcs| ==> pcs[i] == Idle
    ensures RingInv(InitRing(cap, junk), pcs)
  {
  }

  /** The seq a producer or consumer read is still in the cell when its CAS wins: cells only move
      forward, and the cell of the next ticket to claim cannot have moved past that ticket. */
  lemma SeqStillCurrent<T>(r: Ring<T>, tid: nat, pc: Pc<T>)
    requires SharedInv(r) && PcInv(r, tid, pc)
    ensures pc.EBranch? && pc.sq == pc.pos == r.enq && (r.cap >= 2 || r.enq == 0) ==>
              r.At(pc.pos).sq == pc.sq && r.enq < r.deq + r.cap
    ensures pc.DBranch? && pc.sq == pc.pos + 1 && pc.pos == r.deq ==>
              r.At(pc.pos).sq == pc.sq && r.deq < r.enq && r.tickets[r.deq] == Published
  {
    if pc.EBranch? && pc.sq == pc.pos == r.enq {
      assert r.deq < r.enq ==> TicketInv(r, r.deq);
      assert r.enq < r.deq + r.cap ==> FreeInv(r, r.enq);
    }
    if pc.DBranch? && pc.sq == pc.pos + 1 && pc.pos == r.deq {
      assert r.deq == r.enq ==> FreeInv(r, r.enq);
      if r.deq < r.enq {
        assert TicketInv(r, r.deq);
      }
    }
  }

  /** When a producer's CAS may win: with two or more cells always, with one cell only for the
      very first ticket. */
  ghost predicate ClaimSafe<T>(r: Ring<T>, pc: Pc<T>)
  {
    r.cap >= 2 || (pc.EBranch? ==> r.enq == 0)
  }

  /** Every atomic step of every thread keeps the invariant. */
  lemma StepPreservesInv<T>(r: Ring<T>, pcs: seq<Pc<T>>, tid: nat, spurious: bool)
    requires RingInv(r, pcs) && tid < |pcs| && pcs[tid].Running() && ClaimSafe(r, pcs[tid])
    ensures var (r', pc') := Step(r, tid, pcs[tid], spurious); RingInv(r', pcs[tid := pc'])
  {
    var pc := pcs[tid];
    if pc.EBranch? && pc.sq == pc.pos == r.enq && !spurious {
      EnqueueClaims(r, pcs, tid);
    } else if pc.EWrite? {
      EnqueueWrites(r, pcs, tid);
    } else if pc.EPublish? {
      EnqueuePublishes(r, pcs, tid);
    } else if pc.DBranch? && pc.sq == pc.pos + 1 && pc.pos == r.deq && !spurious {
      DequeueClaims(r, pcs, tid);
    } else if pc.DReadVal? {
      DequeueReads(r, pcs, tid);
    } else if pc.DRelease? {
      DequeueReleases(r, pcs, tid);
    } else {
      ReadsOnly(r, pcs, tid, spurious);
    }
  }

  lemma ReadsOnly<T>(r: Ring<T>, pcs: seq<Pc<T>>, tid: nat, spurious: bool)
    requires RingInv(r, pcs) && tid < |pcs| && pcs[tid].Running() && Step(r, tid, pcs[tid], spurious).0 == r
    requires !Holds(pcs[tid]) && !Holds(Step(r, tid, pcs[tid], spurious).1)
    ensures RingInv(r, pcs[tid := Step(r, tid, pcs[tid], spurious).1])
  {
    assert PcInv(r, tid, pcs[tid]);
    if pcs[tid].ELoadSeq? {
      SeqBelowPosMeansFull(r, pcs[tid].pos);
    }
    PcsFollow(r, r, pcs, tid, Step(r, tid, pcs[tid], spurious).1);
  }

  /** What a step of thread `tid` may do to the shared state as the other threads see it. */
  ghost predicate LeavesOthersAlone<T>(r: Ring<T>, r': Ring<T>, tid: nat)
    requires SharedInv(r) && SharedInv(r')
  {
    && r.enq <= r'.enq && r.deq <= r'.deq && r.cap == r'.cap && r.given <= r'.given
    && (forall k: nat :: k < r.cap ==> r.cells[k].sq <= r'.cells[k].sq)
    && (forall t: nat :: t < |r.tickets| && OwnedByOther(r.tickets[t], tid) ==>
                           && r'.tickets[t] == r.tickets[t]
                           && (!r.tickets[t].Released? ==> r'.At(t).val == r.At(t).val)
                           && (t in r.got <==> t in r'.got)
                           && (t in r.got ==> r.got[t] == r'.got[t]))
  }

  predicate OwnedByOther(k: Ticket, tid: nat)
  {
    !k.Published? && k.who != tid
  }

  /** If ticket `t` is claimed at all in state `k`, thread `tid` at `pc` holds it. */
  predicate Mine<T>(k: Ticket, t: nat, tid: nat, pc: Pc<T>)
  {
    match k
    case ProducerClaimed(i) => i == tid && (pc.EWrite? || pc.EPublish?) && pc.pos == t
    case ConsumerClaimed(i) => i == tid && (pc.DReadVal? || pc.DRelease?) && pc.pos == t
    case _ => true
  }

  predicate Holds<T>(pc: Pc<T>)
  {
    pc.EWrite? || pc.EPublish? || pc.DReadVal? || pc.DRelease?
  }

  ghost predicate NewClaimsAreMine<T>(r: Ring<T>, r': Ring<T>, tid: nat, pc: Pc<T>, pc': Pc<T>)
  {
    && (Holds(pc) ==> pc.pos < |r'.tickets| && Mine(r'.tickets[pc.pos], pc.pos, tid, pc'))
    && (forall t: nat :: t < |r'.tickets| && !(t < |r.tickets| && r'.tickets[t] == r.tickets[t]) ==>
                           Mine(r'.tickets[t], t, tid, pc'))
  }

  lemma PcsFollow<T>(r: Ring<T>, r': Ring<T>, pcs: seq<Pc<T>>, tid: nat, pc': Pc<T>)
    requires RingInv(r, pcs) && SharedInv(r') && tid < |pcs|
    requires LeavesOthersAlone(r, r', tid) && PcInv(r', tid, pc') && NewClaimsAreMine(r, r', tid, pcs[tid], pc')
    ensures RingInv(r', pcs[tid := pc'])
  {
    var pcs' := pcs[tid := pc'];
    forall i: nat | i < |pcs'| ensures PcInv(r', i, pcs'[i]) {
      assert PcInv(r, i, pcs[i]);
    }
    forall t: nat | t < |r'.tickets| ensures HeldInv(r', pcs', t) {
      assert t < |r.tickets| ==> HeldInv(r, pcs, t);
    }
  }

  /** A thread that holds nothing may move anywhere that needs no ticket. */
  lemma OutsiderFollows<T>(r: Ring<T>, pcs: seq<Pc<T>>, tid: nat, pc': Pc<T>)
    requires RingInv(r, pcs) && tid < |pcs| && !Holds(pcs[tid]) && !Holds(pc') && PcInv(r, tid, pc')
    ensures RingInv(r, pcs[tid := pc'])
  {
    PcsFollow(r, r, pcs, tid, pc');
  }

  /** What a store into the cell of ticket `pos` leaves alone. */
  ghost predicate OnlyCell<T>(r: Ring<T>, r': Ring<T>, pos: nat)
    requires r.Wf() && pos < |r.tickets|
  {
    && r'.Wf() && r'.cap == r.cap && r'.enq == r.enq && r'.deq == r.deq && r'.given == r.given && r'.got == r.got
    && r'.cells == r.cells[Slot(pos, r.cap) := r'.At(pos)]
    && |r'.tickets| == |r.tickets| && (forall t: nat :: t < |r.tickets| && t != pos ==> r'.tickets[t] == r.tickets[t])
  }

  /** Another ticket keeps its cell, or was released and only needs a seq that is large enough. */
  lemma OtherTicket<T>(r: Ring<T>, r': Ring<T>, pos: nat, t: nat)
    requires SharedInv(r) && pos < r.enq && OnlyCell(r, r', pos) && !r.tickets[pos].Released?
    requires r'.At(pos).sq >= r.At(pos).sq && t < r.enq && t != pos
    ensures TicketInv(r', t)
    ensures !r.tickets[t].Released? ==> r'.At(t) == r.At(t)
  {
    assert TicketInv(r, t) && TicketInv(r, pos);
    SameSlotFarApart(t, pos, r.cap);
  }

  /** So does a free cell, unless it is the one that ticket `pos` is about to hand on. */
  lemma OtherFree<T>(r: Ring<T>, r': Ring<T>, pos: nat, t: nat)
    requires SharedInv(r) && pos < r.enq && OnlyCell(r, r', pos) && !r.tickets[pos].Released?
    requires r.enq <= t < r.deq + r.cap && t != pos + r.cap
    ensures FreeInv(r', t)
  {
    assert FreeInv(r, t) && TicketInv(r, pos);
    SameSlotFarApart(t, pos, r.cap);
    assert r'.At(t) == r.At(t);
  }

  lemma EnqueueClaims<T>(r: Ring<T>, pcs: seq<Pc<T>>, tid: nat)
    requires RingInv(r, pcs) && tid < |pcs| && ClaimSafe(r, pcs[tid])
    requires pcs[tid].EBranch? && pcs[tid].sq == pcs[tid].pos == r.enq
    ensures var (r', pc') := Step(r, tid, pcs[tid], false); RingInv(r', pcs[tid := pc'])
  {
    var (r', pc') := Step(r, tid, pcs[tid], false);
    var pos := pcs[tid].pos;
    assert PcInv(r, tid, pcs[tid]);
    SeqStillCurrent(r, tid, pcs[tid]);
    forall t: nat | t < r'.enq ensures TicketInv(r', t) {
      assert t < r.enq ==> TicketInv(r, t);
    }
    forall t: nat | r'.enq <= t < r'.deq + r'.cap ensures FreeInv(r', t) {
      assert t < r.deq + r.cap ==> FreeInv(r, t);
    }
    PcsFollow(r, r', pcs, tid, pc');
  }

  lemma EnqueueWrites<T>(r: Ring<T>, pcs: seq<Pc<T>>, tid: nat)
    requires RingInv(r, pcs) && tid < |pcs| && pcs[tid].EWrite?
    ensures var (r', pc') := Step(r, tid, pcs[tid], false); RingInv(r', pcs[tid := pc'])
  {
    var (r', pc') := Step(r, tid, pcs[tid], false);
    var pos := pcs[tid].pos;
    assert PcInv(r, tid, pcs[tid]) && (pos < r.enq ==> TicketInv(r, pos));
    CellStoreShared(r, r', pos);
    PcsFollow(r, r', pcs, tid, pc');
  }

  /** A producer's store into its own cell. */
  lemma CellStoreShared<T>(r: Ring<T>, r': Ring<T>, pos: nat)
    requires SharedInv(r) && pos < r.enq && OnlyCell(r, r', pos) && r.tickets[pos].ProducerClaimed?
    requires r'.At(pos).sq >= r.At(pos).sq && TicketInv(r', pos)
    ensures SharedInv(r')
    ensures forall t: nat :: t < r.enq && t != pos && !r.tickets[t].Released? ==> r'.At(t) == r.At(t)
  {
    assert TicketInv(r, pos);
    hide TicketInv, FreeInv, OnlyCell;
    forall t: nat | t < r.enq && t != pos
      ensures TicketInv(r', t) && (!r.tickets[t].Released? ==> r'.At(t) == r.At(t))
    {
      OtherTicket(r, r', pos, t);
    }
    forall t: nat | r.enq <= t < r.deq + r.cap ensures FreeInv(r', t) {
      OtherFree(r, r', pos, t);
    }
    SameBounds(r, r', pos);
  }

  lemma SameBounds<T>(r: Ring<T>, r': Ring<T>, pos: nat)
    requires r.Wf() && pos < |r.tickets| && OnlyCell(r, r', pos)
    ensures r'.Wf() && r'.cap == r.cap && r'.enq == r.enq && r'.deq == r.deq && r'.given == r.given && r'.got == r.got
    ensures |r'.tickets| == |r.tickets|
  {
  }

  lemma EnqueuePublishes<T>(r: Ring<T>, pcs: seq<Pc<T>>, tid: nat)
    requires RingInv(r, pcs) && tid < |pcs| && pcs[tid].EPublish?
    ensures var (r', pc') := Step(r, tid, pcs[tid], false); RingInv(r', pcs[tid := pc'])
  {
    var (r', pc') := Step(r, tid, pcs[tid], false);
    var pos := pcs[tid].pos;
    assert PcInv(r, tid, pcs[tid]) && (pos < r.enq ==> TicketInv(r, pos));
    CellStoreShared(r, r', pos);
    PcsFollow(r, r', pcs, tid, pc');
  }

  lemma DequeueClaims<T>(r: Ring<T>, pcs: seq<Pc<T>>, tid: nat)
    requires RingInv(r, pcs) && tid < |pcs|
    requires pcs[tid].DBranch? && pcs[tid].sq == pcs[tid].pos + 1 && pcs[tid].pos == r.deq
    ensures var (r', pc') := Step(r, tid, pcs[tid], false); RingInv(r', pcs[tid := pc'])
  {
    var (r', pc') := Step(r, tid, pcs[tid], false);
    assert PcInv(r, tid, pcs[tid]);
    SeqStillCurrent(r, tid, pcs[tid]);
    ClaimFirstShared(r, tid);
    hide TicketInv, FreeInv;
    PcsFollow(r, r', pcs, tid, pc');
  }

  /** The first published ticket passes to a consumer. */
  lemma ClaimFirstShared<T>(r: Ring<T>, tid: nat)
    requires SharedInv(r) && r.deq < r.enq && r.tickets[r.deq] == Published
    ensures SharedInv(r.(deq := r.deq + 1).Mark(r.deq, ConsumerClaimed(tid)))
  {
    var r' := r.(deq := r.deq + 1).Mark(r.deq, ConsumerClaimed(tid));
    assert TicketInv(r, r.deq);
    forall t: nat | t < r'.enq ensures TicketInv(r', t) {
      assert TicketInv(r, t);
    }
    forall t: nat | r'.enq <= t < r'.deq + r'.cap ensures FreeInv(r', t) {
      assert t < r.deq + r.cap ==> FreeInv(r, t);
    }
  }

  lemma DequeueReads<T>(r: Ring<T>, pcs: seq<Pc<T>>, tid: nat)
    requires RingInv(r, pcs) && tid < |pcs| && pcs[tid].DReadVal?
    ensures var (r', pc') := Step(r, tid, pcs[tid], false); RingInv(r', pcs[tid := pc'])
  {
    var (r', pc') := Step(r, tid, pcs[tid], false);
    var pos := pcs[tid].pos;
    assert PcInv(r, tid, pcs[tid]) && (pos < r.enq ==> TicketInv(r, pos));
    forall t: nat | t < r'.enq ensures TicketInv(r', t) {
      assert t < r.enq ==> TicketInv(r, t);
    }
    forall t: nat | r'.enq <= t < r'.deq + r'.cap ensures FreeInv(r', t) {
      assert t < r.deq + r.cap ==> FreeInv(r, t);
    }
    PcsFollow(r, r', pcs, tid, pc');
  }

  lemma DequeueReleases<T>(r: Ring<T>, pcs: seq<Pc<T>>, tid: nat)
    requires RingInv(r, pcs) && tid < |pcs| && pcs[tid].DRelease?
    ensures var (r', pc') := Step(r, tid, pcs[tid], false); RingInv(r', pcs[tid := pc'])
  {
    var (r', pc') := Step(r, tid, pcs[tid], false);
    var pos := pcs[tid].pos;
    assert PcInv(r, tid, pcs[tid]) && (pos < r.enq ==> TicketInv(r, pos));
    DequeueReleasesShared(r, pcs, tid);
    PcsFollow(r, r', pcs, tid, pc');
  }

  lemma DequeueReleasesShared<T>(r: Ring<T>, pcs: seq<Pc<T>>, tid: nat)
    requires RingInv(r, pcs) && tid < |pcs| && pcs[tid].DRelease?
    ensures SharedInv(Step(r, tid, pcs[tid], false).0)
  {
    var r' := Step(r, tid, pcs[tid], false).0;
    var pos := pcs[tid].pos;
    assert PcInv(r, tid, pcs[tid]) && TicketInv(r, pos);
    assert OnlyCell(r, r', pos) && TicketInv(r', pos);
    LapAhead(pos, r.cap);
    hide TicketInv, PcInv, HeldInv;
    forall t: nat | t < r.enq && t != pos ensures TicketInv(r', t) {
      OtherTicket(r, r', pos, t);
    }
    forall t: nat | r.enq <= t < r.deq + r.cap && t != pos + r.cap ensures FreeInv(r', t) {
      OtherFree(r, r', pos, t);
    }
  }

  lemma LapAhead(pos: nat, cap: nat)
    requires 0 < cap
    ensures Slot(pos + cap, cap) == Slot(pos, cap)
  {
  }

  /** A cell whose seq is behind the position a producer wants: the ticket one lap earlier has not
      been released, and the position is the next one to claim. */
  lemma SeqBelowPosMeansFull<T>(r: Ring<T>, pos: nat)
    requires SharedInv(r) && pos <= r.enq
    ensures r.At(pos).sq < pos ==> pos == r.enq && r.cap <= pos && !r.tickets[pos - r.cap].Released?
    ensures r.cap >= 2 && pos == r.enq && r.cap <= pos && !r.tickets[pos - r.cap].Released? ==> r.At(pos).sq < pos
  {
    if pos < r.enq {
      assert TicketInv(r, pos);
    } else {
      assert pos < r.deq + r.cap ==> FreeInv(r, pos);
      assert r.cap <= pos ==> TicketInv(r, pos - r.cap);
    }
  }

  /** A cell whose seq is not past the position a consumer wants: that ticket is unpublished. */
  lemma SeqAtPosMeansEmpty<T>(r: Ring<T>, pos: nat)
    requires SharedInv(r) && pos <= r.deq
    ensures r.At(pos).sq < pos + 1 <==>
              pos == r.deq && (pos < r.enq ==> r.tickets[pos].ProducerClaimed?)
  {
    if pos < r.enq {
      assert TicketInv(r, pos);
    } else {
      assert FreeInv(r, pos);
    }
  }

  /** What a step does to the history: at most one claim is added and at most one ticket released. */
  lemma StepHistory<T>(r: Ring<T>, pcs: seq<Pc<T>>, tid: nat, spurious: bool)
    requires RingInv(r, pcs) && tid < |pcs| && pcs[tid].Running()
    ensures var (pc, r', pc') := (pcs[tid], Step(r, tid, pcs[tid], spurious).0, Step(r, tid, pcs[tid], spurious).1);
            && r'.given == r.given + (if pc.EBranch? && pc'.EWrite? then [pc.v] else [])
            && r'.enq == |r'.tickets| == |r'.given|
            && r'.deq == r.deq + (if pc.DBranch? && pc'.DReadVal? then 1 else 0)
            && (forall t: nat :: t < |r.tickets| && r.tickets[t].Released? ==> r'.tickets[t] == r.tickets[t])
            && (forall t: nat :: t < |r'.tickets| && r'.tickets[t].Released? && !(pc.DRelease? && t == pc.pos) ==>
                  t < |r.tickets| && r.tickets[t].Released?)
            && (pc.DRelease? ==> pc.pos < r.deq && r'.tickets[pc.pos] == Released(tid) && r.given[pc.pos] == pc.out)
  {
    var pc := pcs[tid];
    assert PcInv(r, tid, pc);
    if pc.DBranch? {
      SeqStillCurrent(r, tid, pc);
    }
    if pc.DRelease? {
      assert TicketInv(r, pc.pos);
    }
  }
}
