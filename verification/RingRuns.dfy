/** Runs of the ring: any number of threads call try_enqueue and try_dequeue in any interleaving. */
module RingRuns {
  import opened Wrappers
  import opened Slots
  import opened Ring

  datatype State<T> = State(r: Ring<T>, pcs: seq<Pc<T>>)

  datatype Act<T> =
    | CallEnqueue(tid: nat, v: T)
    | CallDequeue(tid: nat)
    | Run(tid: nat, spurious: bool)

  function Init<T>(cap: nat, threads: nat, junk: T): State<T>
  {
    State(InitRing(cap, junk), seq(threads, _ => Idle))
  }

  function Do<T>(s: State<T>, a: Act<T>): Option<State<T>>
    requires s.r.Wf()
  {
    if a.tid >= |s.pcs| then None
    else
      var pc := s.pcs[a.tid];
      match a
      case CallEnqueue(i, v) => if pc.Running() then None else Some(s.(pcs := s.pcs[i := EStart(v)]))
      case CallDequeue(i) => if pc.Running() then None else Some(s.(pcs := s.pcs[i := DStart]))
      case Run(i, spurious) =>
        if !pc.Running() then None
        else
          var (r', pc') := Step(s.r, i, pc, spurious);
          Some(State(r', s.pcs[i := pc']))
  }

  /** The state after a sequence of actions, if every one of them was possible. */
  function Exec<T>(s: State<T>, acts: seq<Act<T>>): (e: Option<State<T>>)
    requires s.r.Wf()
    ensures e.Some? ==> e.value.r.Wf() && e.value.r.cap == s.r.cap && |e.value.pcs| == |s.pcs|
  {
    if acts == [] then Some(s)
    else
      match Exec(s, acts[..|acts| - 1])
      case None => None
      case Some(m) => Do(m, acts[|acts| - 1])
  }

  ghost predicate Inv<T>(s: State<T>) { RingInv(s.r, s.pcs) }

  lemma DoPreservesInv<T>(s: State<T>, a: Act<T>)
    requires Inv(s) && s.r.cap >= 2 && Do(s, a).Some?
    ensures Inv(Do(s, a).value)
  {
    match a
    case Run(i, spurious) => StepPreservesInv(s.r, s.pcs, i, spurious);
    case CallEnqueue(i, v) =>
      assert PcInv(s.r, i, s.pcs[i]);
      OutsiderFollows(s.r, s.pcs, i, EStart(v));
    case CallDequeue(i) =>
      assert PcInv(s.r, i, s.pcs[i]);
      OutsiderFollows(s.r, s.pcs, i, DStart);
  }

  lemma {:induction false} ExecPreservesInv<T>(s: State<T>, acts: seq<Act<T>>)
    requires Inv(s) && s.r.cap >= 2 && Exec(s, acts).Some?
    ensures Inv(Exec(s, acts).value)
  {
    if acts != [] {
      ExecPreservesInv(s, acts[..|acts| - 1]);
      DoPreservesInv(Exec(s, acts[..|acts| - 1]).value, acts[|acts| - 1]);
    }
  }

  lemma InitSatisfiesInv<T>(cap: nat, threads: nat, junk: T)
    requires 0 < cap
    ensures Inv(Init(cap, threads, junk))
  {
    InitInv(cap, junk, Init(cap, threads, junk).pcs);
  }

  // ---------- Safety ----------

  /** What the ring promises in every state, in terms of positions, cells and threads only. */
  ghost predicate Safe<T>(s: State<T>)
    requires s.r.Wf()
  {
    && s.r.deq <= s.r.enq <= s.r.deq + s.r.cap
    && SeqTellsTicketState(s.r)
    && ExclusiveCells(s)
    && ReadsWhatWasWritten(s)
  }

  /** The seq of a ticket's cell and the two positions determine the ticket's state. */
  ghost predicate SeqTellsTicketState<T>(r: Ring<T>)
    requires r.Wf()
  {
    && |r.tickets| == r.enq
    && forall t: nat :: t < r.enq ==> SeqTells(r, t)
  }

  ghost predicate SeqTells<T>(r: Ring<T>, t: nat)
    requires r.Wf() && t < |r.tickets|
  {
    && (r.tickets[t].ProducerClaimed? <==> r.deq <= t && r.At(t).sq == t)
    && (r.tickets[t].Published? <==> r.deq <= t && r.At(t).sq == t + 1)
    && (r.tickets[t].ConsumerClaimed? <==> t < r.deq && r.At(t).sq == t + 1)
    && (r.tickets[t].Released? <==> t < r.deq && r.At(t).sq >= t + r.cap)
  }

  /** No two threads are between claim and seq store on the same cell. */
  ghost predicate ExclusiveCells<T>(s: State<T>)
    requires s.r.Wf()
  {
    forall i, j :: 0 <= i < j < |s.pcs| && Holds(s.pcs[i]) && Holds(s.pcs[j]) ==>
      Slot(s.pcs[i].pos, s.r.cap) != Slot(s.pcs[j].pos, s.r.cap)
  }

  ghost predicate ReadsWhatWasWritten<T>(s: State<T>)
  {
    && (forall t :: t in s.r.got ==> t < |s.r.given| && s.r.got[t] == s.r.given[t])
    && (forall i :: 0 <= i < |s.pcs| && s.pcs[i].DTook? ==>
          s.pcs[i].pos < |s.r.given| && s.pcs[i].out == s.r.given[s.pcs[i].pos])
  }

  lemma InvImpliesSafe<T>(s: State<T>)
    requires Inv(s) && s.r.cap >= 2
    ensures Safe(s)
  {
    forall t: nat | t < s.r.enq ensures SeqTells(s.r, t) {
      assert TicketInv(s.r, t);
    }
    hide RingInv, SeqTells;
    InvImpliesExclusive(s);
    InvImpliesReads(s);
  }

  lemma InvImpliesExclusive<T>(s: State<T>)
    requires Inv(s)
    ensures s.r.Wf() && ExclusiveCells(s)
  {
    forall i, j | 0 <= i < j < |s.pcs| && Holds(s.pcs[i]) && Holds(s.pcs[j])
      ensures Slot(s.pcs[i].pos, s.r.cap) != Slot(s.pcs[j].pos, s.r.cap)
    {
      assert PcInv(s.r, i, s.pcs[i]) && PcInv(s.r, j, s.pcs[j]);
      assert TicketInv(s.r, s.pcs[i].pos) && TicketInv(s.r, s.pcs[j].pos);
      SameSlotFarApart(s.pcs[i].pos, s.pcs[j].pos, s.r.cap);
    }
  }

  lemma InvImpliesReads<T>(s: State<T>)
    requires Inv(s)
    ensures ReadsWhatWasWritten(s)
  {
    forall t | t in s.r.got ensures s.r.got[t] == s.r.given[t] {
      assert TicketInv(s.r, t);
      var k := s.r.tickets[t];
      if k.ConsumerClaimed? {
        assert HeldInv(s.r, s.pcs, t) && PcInv(s.r, k.who, s.pcs[k.who]);
      }
    }
    forall i | 0 <= i < |s.pcs| && s.pcs[i].DTook? ensures s.pcs[i].pos < |s.r.given| {
      assert PcInv(s.r, i, s.pcs[i]);
    }
  }

  /** Every state of every run with two or more cells is safe. */
  lemma EveryRunIsSafe<T>(cap: nat, threads: nat, junk: T, acts: seq<Act<T>>)
    requires cap >= 2 && Exec(Init(cap, threads, junk), acts).Some?
    ensures Safe(Exec(Init(cap, threads, junk), acts).value)
  {
    InitSatisfiesInv(cap, threads, junk);
    ExecPreservesInv(Init(cap, threads, junk), acts);
    InvImpliesSafe(Exec(Init(cap, threads, junk), acts).value);
  }

  // ---------- Delivery ----------

  /** The values that entered the ring, in the order their CAS won, read off the threads. */
  function Entered<T>(s: State<T>, acts: seq<Act<T>>): seq<T>
    requires s.r.Wf() && Exec(s, acts).Some?
  {
    if acts == [] then []
    else
      var (m, a) := (Exec(s, acts[..|acts| - 1]).value, acts[|acts| - 1]);
      var e := Exec(s, acts).value;
      Entered(s, acts[..|acts| - 1])
      + if m.pcs[a.tid].EBranch? && e.pcs[a.tid].EWrite? then [e.pcs[a.tid].v] else []
  }

  /** The successful returns of try_dequeue: the position the call claimed and the value it gave. */
  function Left<T>(s: State<T>, acts: seq<Act<T>>): seq<(nat, T)>
    requires s.r.Wf() && Exec(s, acts).Some?
  {
    if acts == [] then []
    else
      var (m, a) := (Exec(s, acts[..|acts| - 1]).value, acts[|acts| - 1]);
      var e := Exec(s, acts).value;
      Left(s, acts[..|acts| - 1])
      + if m.pcs[a.tid].DRelease? && e.pcs[a.tid].DTook? then [(e.pcs[a.tid].pos, e.pcs[a.tid].out)] else []
  }

  /** `left` matches `entered` ticket by ticket, no ticket twice, and holds every released one. */
  ghost predicate DeliveredExactly<T>(r: Ring<T>, entered: seq<T>, left: seq<(nat, T)>)
  {
    && |entered| == |r.tickets|
    && (forall k :: 0 <= k < |left| ==> left[k].0 < |entered| && left[k].1 == entered[left[k].0])
    && (forall k, l :: 0 <= k < l < |left| ==> left[k].0 != left[l].0)
    && (forall k :: 0 <= k < |left| ==> left[k].0 < |r.tickets| && r.tickets[left[k].0].Released?)
    && (forall t: nat :: t < |r.tickets| && r.tickets[t].Released? ==> exists k :: 0 <= k < |left| && left[k].0 == t)
  }

  /** In every run, the dequeue that claimed position t returned exactly the value of the t-th
      enqueue to claim, no position was returned twice, and every position whose cell has been
      released was returned. */
  lemma {:induction false} EveryRunDelivers<T>(cap: nat, threads: nat, junk: T, acts: seq<Act<T>>)
    requires cap >= 2 && Exec(Init(cap, threads, junk), acts).Some?
    ensures var s := Init(cap, threads, junk);
            var r := Exec(s, acts).value.r;
            Entered(s, acts) == r.given && DeliveredExactly(r, Entered(s, acts), Left(s, acts))
  {
    var s := Init(cap, threads, junk);
    if acts != [] {
      var pre, a := acts[..|acts| - 1], acts[|acts| - 1];
      EveryRunDelivers(cap, threads, junk, pre);
      InitSatisfiesInv(cap, threads, junk);
      ExecPreservesInv(s, pre);
      DeliveryGrows(Exec(s, pre).value, a, Left(s, pre));
    }
  }

  lemma DeliveryGrows<T>(m: State<T>, a: Act<T>, left: seq<(nat, T)>)
    requires Inv(m) && m.r.cap >= 2 && Do(m, a).Some? && DeliveredExactly(m.r, m.r.given, left)
    ensures var e := Do(m, a).value;
            var tookNow := m.pcs[a.tid].DRelease? && e.pcs[a.tid].DTook?;
            var left' := left + if tookNow then [(e.pcs[a.tid].pos, e.pcs[a.tid].out)] else [];
            && DeliveredExactly(e.r, e.r.given, left')
            && e.r.given == m.r.given + if m.pcs[a.tid].EBranch? && e.pcs[a.tid].EWrite? then [e.pcs[a.tid].v] else []
  {
    var e := Do(m, a).value;
    assert PcInv(m.r, a.tid, m.pcs[a.tid]);
    if a.Run? && m.pcs[a.tid].DRelease? {
      assert TicketInv(m.r, m.pcs[a.tid].pos);
      DeliveryTakes(m.r, left, m.pcs[a.tid].pos, m.pcs[a.tid].out, Released(a.tid));
      assert e.r.given == m.r.given + [];
    } else {
      NothingReleased(m, a);
      DeliverySame(m.r, e.r, left);
      assert left + [] == left;
    }
  }

  lemma NothingReleased<T>(m: State<T>, a: Act<T>)
    requires Inv(m) && Do(m, a).Some? && !(a.Run? && m.pcs[a.tid].DRelease?)
    ensures var (r, r', pc, pc') := (m.r, Do(m, a).value.r, m.pcs[a.tid], Do(m, a).value.pcs[a.tid]);
            && r'.given == r.given + (if pc.EBranch? && pc'.EWrite? then [pc'.v] else [])
            && |r'.tickets| == |r'.given|
            && (forall t: nat :: t < |r.tickets| ==> (r.tickets[t].Released? <==> r'.tickets[t].Released?))
            && (forall t: nat :: |r.tickets| <= t < |r'.tickets| ==> !r'.tickets[t].Released?)
  {
    assert PcInv(m.r, a.tid, m.pcs[a.tid]);
    SeqStillCurrent(m.r, a.tid, m.pcs[a.tid]);
  }

  lemma DeliveryTakes<T>(r: Ring<T>, left: seq<(nat, T)>, pos: nat, out: T, k: Ticket)
    requires DeliveredExactly(r, r.given, left) && k.Released?
    requires pos < |r.tickets| && !r.tickets[pos].Released? && r.given[pos] == out
    ensures DeliveredExactly(r.(tickets := r.tickets[pos := k]), r.given, left + [(pos, out)])
  {
    var r', left' := r.(tickets := r.tickets[pos := k]), left + [(pos, out)];
    forall t: nat | t < |r'.tickets| && r'.tickets[t].Released?
      ensures exists j :: 0 <= j < |left'| && left'[j].0 == t
    {
      if t == pos {
        assert left'[|left|].0 == t;
      } else {
        var j :| 0 <= j < |left| && left[j].0 == t;
        assert left'[j].0 == t;
      }
    }
  }

  lemma DeliverySame<T>(r: Ring<T>, r': Ring<T>, left: seq<(nat, T)>)
    requires DeliveredExactly(r, r.given, left)
    requires r.given <= r'.given && |r.tickets| <= |r'.tickets| == |r'.given|
    requires forall t: nat :: t < |r.tickets| ==> (r.tickets[t].Released? <==> r'.tickets[t].Released?)
    requires forall t: nat :: |r.tickets| <= t < |r'.tickets| ==> !r'.tickets[t].Released?
    ensures DeliveredExactly(r', r'.given, left)
  {
  }

  /** The positions that dequeues claimed, in the order their CAS won. */
  function Taken<T>(s: State<T>, acts: seq<Act<T>>): seq<nat>
    requires s.r.Wf() && Exec(s, acts).Some?
  {
    if acts == [] then []
    else
      var (m, a) := (Exec(s, acts[..|acts| - 1]).value, acts[|acts| - 1]);
      var e := Exec(s, acts).value;
      Taken(s, acts[..|acts| - 1])
      + if m.pcs[a.tid].DBranch? && e.pcs[a.tid].DReadVal? then [e.pcs[a.tid].pos] else []
  }

  /** First in, first out: the k-th dequeue to claim claims position k, so with EveryRunDelivers it
      returns the value of the k-th enqueue. */
  lemma {:induction false} TakenInOrder<T>(cap: nat, threads: nat, junk: T, acts: seq<Act<T>>)
    requires cap >= 2 && Exec(Init(cap, threads, junk), acts).Some?
    ensures var s := Init(cap, threads, junk);
            && |Taken(s, acts)| == Exec(s, acts).value.r.deq
            && forall k :: 0 <= k < |Taken(s, acts)| ==> Taken(s, acts)[k] == k
  {
    var s := Init(cap, threads, junk);
    if acts != [] {
      var pre, a := acts[..|acts| - 1], acts[|acts| - 1];
      TakenInOrder(cap, threads, junk, pre);
      InitSatisfiesInv(cap, threads, junk);
      hide Inv, Do, Init;
      ExecPreservesInv(s, pre);
      TakesNext(Exec(s, pre).value, a);
    }
  }

  lemma TakesNext<T>(m: State<T>, a: Act<T>)
    requires Inv(m) && Do(m, a).Some?
    ensures var e := Do(m, a).value;
            if m.pcs[a.tid].DBranch? && e.pcs[a.tid].DReadVal? then
              e.pcs[a.tid].pos == m.r.deq && e.r.deq == m.r.deq + 1
            else e.r.deq == m.r.deq
  {
    if a.Run? {
      StepHistory(m.r, m.pcs, a.tid, a.spurious);
    }
    hide RingInv;
  }

  // ---------- What a failing call means ----------

  /** Action `j - 1` of the run was thread `i`'s load of the seq it holds now, and its program
      counter has not moved since. */
  ghost predicate ReadAt<T>(s: State<T>, acts: seq<Act<T>>, i: nat, j: nat, pc: Pc<T>)
    requires s.r.Wf() && i < |s.pcs|
  {
    && 0 < j <= |acts| && acts[j - 1].Run? && acts[j - 1].tid == i
    && Exec(s, acts[..j - 1]).Some?
    && LoadedIn(Exec(s, acts[..j - 1]).value, i, pc)
    && forall k :: j <= k <= |acts| ==> StandsAt(s, acts[..k], i, pc)
  }

  ghost predicate LoadedIn<T>(before: State<T>, i: nat, pc: Pc<T>)
    requires before.r.Wf() && i < |before.pcs|
  {
    || (pc.EBranch? && before.pcs[i] == ELoadSeq(pc.v, pc.pos) && pc.sq == before.r.At(pc.pos).sq)
    || (pc.DBranch? && before.pcs[i] == DLoadSeq(pc.pos) && pc.sq == before.r.At(pc.pos).sq)
  }

  ghost predicate StandsAt<T>(s: State<T>, acts: seq<Act<T>>, i: nat, pc: Pc<T>)
    requires s.r.Wf() && i < |s.pcs|
  {
    Exec(s, acts).Some? && Exec(s, acts).value.pcs[i] == pc
  }

  /** A thread that stays where it is still holds what it read. */
  lemma ReadStays<T>(s: State<T>, acts: seq<Act<T>>, i: nat, j: nat, pc: Pc<T>)
    requires s.r.Wf() && i < |s.pcs| && acts != [] && StandsAt(s, acts, i, pc)
    requires ReadAt(s, acts[..|acts| - 1], i, j, pc)
    ensures ReadAt(s, acts, i, j, pc)
  {
    hide LoadedIn, StandsAt;
    var pre := acts[..|acts| - 1];
    assert pre[..j - 1] == acts[..j - 1];
    forall k | j <= k <= |acts| ensures StandsAt(s, acts[..k], i, pc) {
      if k < |acts| {
        assert pre[..k] == acts[..k];
      } else {
        assert acts[..k] == acts;
      }
    }
  }

  lemma {:induction false} FindRead<T>(s: State<T>, acts: seq<Act<T>>, i: nat, pc: Pc<T>) returns (j: nat)
    requires s.r.Wf() && i < |s.pcs| && !s.pcs[i].EBranch? && !s.pcs[i].DBranch?
    requires StandsAt(s, acts, i, pc) && (pc.EBranch? || pc.DBranch?)
    ensures ReadAt(s, acts, i, j, pc)
  {
    var pre := acts[..|acts| - 1];
    assert acts[..|acts|] == acts;
    if StandsAt(s, pre, i, pc) {
      j := FindRead(s, pre, i, pc);
      ReadStays(s, acts, i, j, pc);
    } else {
      j := |acts|;
      ArrivesByLoad(Exec(s, pre).value, acts[j - 1], i, pc);
    }
  }

  lemma ArrivesByLoad<T>(m: State<T>, a: Act<T>, i: nat, pc: Pc<T>)
    requires m.r.Wf() && i < |m.pcs| && Do(m, a).Some?
    requires m.pcs[i] != pc == Do(m, a).value.pcs[i] && (pc.EBranch? || pc.DBranch?)
    ensures a.Run? && a.tid == i && LoadedIn(m, i, pc)
  {
  }

  /** The ticket one capacity before the next position to claim has not been released. */
  predicate Full<T>(r: Ring<T>)
  {
    0 < r.cap <= r.enq <= |r.tickets| && !r.tickets[r.enq - r.cap].Released?
  }

  /** The next position to consume has not been published. */
  predicate Unpublished<T>(r: Ring<T>)
  {
    r.deq < |r.tickets| ==> r.tickets[r.deq].ProducerClaimed?
  }

  /** A thread that has loaded a seq: its next step makes try_enqueue return false if and only if, at the
      instant of the load, its position was the next to claim and the ring was full there. */
  lemma EnqueueFailsOnlyWhenFull<T>(cap: nat, threads: nat, junk: T, acts: seq<Act<T>>, i: nat, spurious: bool)
    returns (j: nat)
    requires cap >= 2 && i < threads && Exec(Init(cap, threads, junk), acts).Some?
    requires Exec(Init(cap, threads, junk), acts).value.pcs[i].EBranch?
    ensures ReadAt(Init(cap, threads, junk), acts, i, j, Exec(Init(cap, threads, junk), acts).value.pcs[i])
    ensures var e := Exec(Init(cap, threads, junk), acts).value;
            var m := Exec(Init(cap, threads, junk), acts[..j - 1]).value;
            && Do(e, Run(i, spurious)).Some?
            && (Do(e, Run(i, spurious)).value.pcs[i] == EDone(false) <==>
                m.pcs[i] == ELoadSeq(e.pcs[i].v, m.r.enq) && Full(m.r))
  {
    var s := Init(cap, threads, junk);
    j := FindRead(s, acts, i, Exec(s, acts).value.pcs[i]);
    InitSatisfiesInv(cap, threads, junk);
    ExecPreservesInv(s, acts[..j - 1]);
    var m := Exec(s, acts[..j - 1]).value;
    assert PcInv(m.r, i, m.pcs[i]);
    SeqBelowPosMeansFull(m.r, m.pcs[i].pos);
  }

  /** The same for try_dequeue and an unpublished next position. */
  lemma DequeueFailsOnlyWhenEmpty<T>(cap: nat, threads: nat, junk: T, acts: seq<Act<T>>, i: nat, spurious: bool)
    returns (j: nat)
    requires cap >= 2 && i < threads && Exec(Init(cap, threads, junk), acts).Some?
    requires Exec(Init(cap, threads, junk), acts).value.pcs[i].DBranch?
    ensures ReadAt(Init(cap, threads, junk), acts, i, j, Exec(Init(cap, threads, junk), acts).value.pcs[i])
    ensures var e := Exec(Init(cap, threads, junk), acts).value;
            var m := Exec(Init(cap, threads, junk), acts[..j - 1]).value;
            && Do(e, Run(i, spurious)).Some?
            && (Do(e, Run(i, spurious)).value.pcs[i] == DEmpty <==>
                m.pcs[i] == DLoadSeq(m.r.deq) && Unpublished(m.r))
  {
    var s := Init(cap, threads, junk);
    j := FindRead(s, acts, i, Exec(s, acts).value.pcs[i]);
    InitSatisfiesInv(cap, threads, junk);
    ExecPreservesInv(s, acts[..j - 1]);
    var m := Exec(s, acts[..j - 1]).value;
    assert PcInv(m.r, i, m.pcs[i]);
    SeqAtPosMeansEmpty(m.r, m.pcs[i].pos);
  }

  /** A thread that has returned false did so by its own step, from the branch on a loaded seq, and has
      not moved since. */
  lemma {:induction false} FindReturn<T>(s: State<T>, acts: seq<Act<T>>, i: nat, ret: Pc<T>) returns (n: nat)
    requires s.r.Wf() && i < |s.pcs| && s.pcs[i] == Idle
    requires StandsAt(s, acts, i, ret) && (ret == DEmpty || ret == EDone(false))
    ensures 0 < n <= |acts| && acts[n - 1].Run? && acts[n - 1].tid == i && Exec(s, acts[..n - 1]).Some?
    ensures var pc := Exec(s, acts[..n - 1]).value.pcs[i]; if ret == DEmpty then pc.DBranch? else pc.EBranch?
    ensures forall k :: n <= k <= |acts| ==> StandsAt(s, acts[..k], i, ret)
  {
    var pre := acts[..|acts| - 1];
    assert acts[..|acts|] == acts;
    if StandsAt(s, pre, i, ret) {
      n := FindReturn(s, pre, i, ret);
      hide Exec, Do;
      assert pre[..n - 1] == acts[..n - 1];
      forall k | n <= k <= |acts| ensures StandsAt(s, acts[..k], i, ret) {
        if k < |acts| {
          assert pre[..k] == acts[..k];
        }
      }
    } else {
      n := |acts|;
    }
  }

  /** From its load in action `j - 1` on, thread i has stood at its branch and then at `ret`: everything
      happened in one call. */
  ghost predicate SameCall<T>(s: State<T>, acts: seq<Act<T>>, i: nat, j: nat, ret: Pc<T>)
    requires s.r.Wf() && i < |s.pcs|
  {
    forall k :: 0 < j <= k <= |acts| ==>
      && Exec(s, acts[..k]).Some?
      && var pc := Exec(s, acts[..k]).value.pcs[i];
         pc == ret || (if ret == DEmpty then pc.DBranch? else pc.EBranch?)
  }

  lemma CallJoined<T>(s: State<T>, acts: seq<Act<T>>, i: nat, j: nat, n: nat, pc: Pc<T>, ret: Pc<T>)
    requires s.r.Wf() && i < |s.pcs| && 0 < n <= |acts| && ReadAt(s, acts[..n - 1], i, j, pc)
    requires if ret == DEmpty then pc.DBranch? else pc.EBranch?
    requires forall k :: n <= k <= |acts| ==> StandsAt(s, acts[..k], i, ret)
    ensures SameCall(s, acts, i, j, ret)
  {
    hide Exec, LoadedIn;
    forall k | 0 < j <= k <= |acts|
      ensures Exec(s, acts[..k]).Some?
      ensures var q := Exec(s, acts[..k]).value.pcs[i]; q == ret || (if ret == DEmpty then q.DBranch? else q.EBranch?)
    {
      if k < n {
        assert acts[..n - 1][..k] == acts[..k];
        assert StandsAt(s, acts[..n - 1][..k], i, pc);
      } else {
        assert StandsAt(s, acts[..k], i, ret);
      }
    }
  }

  lemma LastStep<T>(s: State<T>, acts: seq<Act<T>>, n: nat)
    requires s.r.Wf() && 0 < n <= |acts| && Exec(s, acts[..n - 1]).Some?
    ensures Exec(s, acts[..n]) == Do(Exec(s, acts[..n - 1]).value, acts[n - 1])
  {
    assert acts[..n][..n - 1] == acts[..n - 1];
  }

  /** Whenever try_dequeue has returned false, the call loaded a seq at an instant when its position was
      the next to consume and unpublished. */
  lemma DequeueReturnedFalse<T>(cap: nat, threads: nat, junk: T, acts: seq<Act<T>>, i: nat) returns (j: nat)
    requires cap >= 2 && i < threads && StandsAt(Init(cap, threads, junk), acts, i, DEmpty)
    ensures 0 < j <= |acts| && acts[j - 1].Run? && acts[j - 1].tid == i
    ensures Exec(Init(cap, threads, junk), acts[..j - 1]).Some?
    ensures var m := Exec(Init(cap, threads, junk), acts[..j - 1]).value;
            m.pcs[i] == DLoadSeq(m.r.deq) && Unpublished(m.r)
    ensures SameCall(Init(cap, threads, junk), acts, i, j, DEmpty)
  {
    var s := Init(cap, threads, junk);
    var n := FindReturn(s, acts, i, DEmpty);
    hide Do, LoadedIn, Exec, Full, Unpublished;
    var pre := acts[..n - 1];
    assert StandsAt(s, acts[..n], i, DEmpty);
    LastStep(s, acts, n);
    j := DequeueFailsOnlyWhenEmpty(cap, threads, junk, pre, i, acts[n - 1].spurious);
    CallJoined(s, acts, i, j, n, Exec(s, pre).value.pcs[i], DEmpty);
    assert pre[..j - 1] == acts[..j - 1];
  }

  /** Whenever try_enqueue has returned false, the call loaded a seq at an instant when its position was
      the next to claim and the ticket one capacity earlier was unreleased. */
  lemma EnqueueReturnedFalse<T>(cap: nat, threads: nat, junk: T, acts: seq<Act<T>>, i: nat) returns (j: nat)
    requires cap >= 2 && i < threads && StandsAt(Init(cap, threads, junk), acts, i, EDone(false))
    ensures 0 < j <= |acts| && acts[j - 1].Run? && acts[j - 1].tid == i
    ensures Exec(Init(cap, threads, junk), acts[..j - 1]).Some?
    ensures var m := Exec(Init(cap, threads, junk), acts[..j - 1]).value;
            m.pcs[i].ELoadSeq? && m.pcs[i].pos == m.r.enq && Full(m.r)
    ensures SameCall(Init(cap, threads, junk), acts, i, j, EDone(false))
  {
    var s := Init(cap, threads, junk);
    var n := FindReturn(s, acts, i, EDone(false));
    hide Do, LoadedIn, Exec, Full, Unpublished;
    var pre := acts[..n - 1];
    assert StandsAt(s, acts[..n], i, EDone(false));
    LastStep(s, acts, n);
    j := EnqueueFailsOnlyWhenFull(cap, threads, junk, pre, i, acts[n - 1].spurious);
    CallJoined(s, acts, i, j, n, Exec(s, pre).value.pcs[i], EDone(false));
    assert pre[..j - 1] == acts[..j - 1];
  }

  // ---------- One cell is not enough ----------

  lemma ExecSnoc<T>(s: State<T>, acts: seq<Act<T>>, a: Act<T>)
    requires s.r.Wf() && Exec(s, acts).Some?
    ensures Exec(s, acts + [a]) == Do(Exec(s, acts).value, a)
  {
    assert (acts + [a])[..|acts|] == acts;
  }

  /** The program counter k steps into a try_enqueue at position pos that meets no obstacle. */
  function SoloPc<T>(v: T, pos: nat, k: nat): Pc<T>
  {
    if k == 0 then EStart(v)
    else if k == 1 then ELoadSeq(v, pos)
    else if k == 2 then EBranch(v, pos, pos)
    else if k == 3 then EWrite(v, pos)
    else if k == 4 then EPublish(v, pos)
    else EDone(true)
  }

  /** From m to e thread 0 has taken k steps of a try_enqueue of v, and nobody else has moved. */
  ghost predicate Solo<T>(m: State<T>, e: State<T>, v: T, k: nat)
    requires m.r.Wf()
  {
    var (r, r', pos) := (m.r, e.r, m.r.enq);
    && |m.pcs| > 0 && e.pcs == m.pcs[0 := SoloPc(v, pos, k)]
    && r'.Wf() && r'.cap == r.cap && r'.deq == r.deq && r'.got == r.got
    && r'.enq == |r'.tickets| == (if k >= 3 then pos + 1 else pos)
    && r'.given == r.given + (if k >= 3 then [v] else [])
    && r'.cells == (if k >= 4 then r.cells[Slot(pos, r.cap) := Cell(if k >= 5 then pos + 1 else pos, v)] else r.cells)
  }

  lemma SoloStep<T>(m: State<T>, e: State<T>, v: T, k: nat)
    requires m.r.Wf() && m.r.At(m.r.enq).sq == m.r.enq && k < 5 && Solo(m, e, v, k)
    ensures Do(e, Run(0, false)).Some? && Solo(m, Do(e, Run(0, false)).value, v, k + 1)
  {
  }

  /** Thread 0 runs one whole try_enqueue whose CAS wins. */
  lemma {:induction false} EnqueueAlone<T>(s: State<T>, acts: seq<Act<T>>, v: T, k: nat) returns (acts': seq<Act<T>>)
    requires s.r.Wf() && Exec(s, acts).Some? && k <= 5
    requires var m := Exec(s, acts).value;
             |m.pcs| > 0 && !m.pcs[0].Running() && |m.r.tickets| == m.r.enq && m.r.At(m.r.enq).sq == m.r.enq
    ensures Exec(s, acts').Some? && Solo(Exec(s, acts).value, Exec(s, acts').value, v, k)
  {
    hide Exec;
    if k == 0 {
      ExecSnoc(s, acts, CallEnqueue(0, v));
      acts' := acts + [CallEnqueue(0, v)];
    } else {
      hide Solo, Do;
      acts' := EnqueueAlone(s, acts, v, k - 1);
      SoloStep(Exec(s, acts).value, Exec(s, acts').value, v, k - 1);
      ExecSnoc(s, acts', Run(0, false));
      acts' := acts' + [Run(0, false)];
    }
  }

  /** With one cell, "published" (pos + 1) and "released" (pos + capacity) are the same number: a
      second enqueue claims the cell whose value nobody has read, and the first value is gone. */
  lemma OneCellOverwrites<T>(threads: nat, junk: T, v: T, w: T) returns (acts: seq<Act<T>>)
    requires threads >= 1
    ensures Exec(Init(1, threads, junk), acts).Some?
    ensures var e := Exec(Init(1, threads, junk), acts).value;
            && e.r.given == [v, w] && e.r.got == map[] && e.r.cells[0].val == w
            && e.r.enq > e.r.deq + e.r.cap
  {
    var s := Init(1, threads, junk);
    acts := EnqueueAlone(s, [], v, 5);
    SlotOne(1);
    acts := EnqueueAlone(s, acts, w, 5);
  }

  /** The exact condition: all runs of a ring are safe if and only if it has two or more cells. */
  lemma SafeIffTwoCells<T(!new)>(cap: nat, threads: nat, junk: T)
    requires cap >= 1 && threads >= 1
    ensures (forall acts ::
               Exec(Init(cap, threads, junk), acts).Some? ==> Safe(Exec(Init(cap, threads, junk), acts).value))
            <==> cap >= 2
  {
    if cap >= 2 {
      forall acts | Exec(Init(cap, threads, junk), acts).Some?
        ensures Safe(Exec(Init(cap, threads, junk), acts).value)
      {
        EveryRunIsSafe(cap, threads, junk, acts);
      }
    } else {
      var acts := OneCellOverwrites(threads, junk, junk, junk);
    }
  }
}
