/** The ring of mpmc_queue.hpp used by one thread at a time, with its fields updated in place. */
module RingSequential {
  import opened Slots
  import opened Wrappers

  class MpmcQueue<T(0)> {
    const capacity: nat
    const seqs: array<nat>
    const values: array<T>
    var enqPos: nat
    var deqPos: nat

    /** The entries in the ring, oldest first. */
    ghost var contents: seq<T>

    ghost predicate Valid()
      reads this, seqs, values
    {
      && 2 <= capacity == seqs.Length == values.Length
      && (seqs as object) != (values as object)
      && deqPos <= enqPos <= deqPos + capacity
      && |contents| == enqPos - deqPos
      && (forall t: nat :: deqPos <= t < enqPos ==>
            seqs[Slot(t, capacity)] == t + 1 && values[Slot(t, capacity)] == contents[t - deqPos])
      && (forall t: nat :: enqPos <= t < deqPos + capacity ==> seqs[Slot(t, capacity)] == t)
    }

    /** With one cell the ring can be built as well, but it is no FIFO. */
    constructor (cap: nat)
      ensures capacity == cap == seqs.Length == values.Length && enqPos == deqPos == 0 && contents == []
      ensures forall k :: 0 <= k < cap ==> seqs[k] == k
      ensures fresh(seqs) && fresh(values)
      ensures Valid() <==> cap >= 2
    {
      capacity, enqPos, deqPos, contents := cap, 0, 0, [];
      var s := new nat[cap];
      for i := 0 to cap
        invariant forall k :: 0 <= k < i ==> s[k] == k
      {
        s[i] := i;
      }
      seqs := s;
      values := new T[cap];
    }

    /** The cell the next enqueue looks at carries the position itself exactly when there is room,
        and otherwise a smaller seq. */
    lemma NextCell()
      requires Valid()
      ensures |contents| < capacity ==> seqs[Slot(enqPos, capacity)] == enqPos
      ensures |contents| == capacity ==> seqs[Slot(enqPos, capacity)] < enqPos
    {
      if |contents| == capacity {
        assert Slot(enqPos, capacity) == Slot(deqPos, capacity);
      }
    }

    /** `spurious` is how often compare_exchange_weak fails for no reason before it succeeds. */
    method TryEnqueue(v: T, spurious: nat) returns (ok: bool)
      requires Valid()
      modifies this, seqs, values
      ensures Valid()
      ensures ok <==> |old(contents)| < capacity
      ensures contents == if ok then old(contents) + [v] else old(contents)
    {
      NextCell();
      var pos := enqPos;
      var failures := spurious;
      while true
        invariant pos == enqPos && unchanged(this) && unchanged(seqs) && unchanged(values)
        decreases failures
      {
        var sq := seqs[Slot(pos, capacity)];
        if sq == pos && failures == 0 {
          enqPos := pos + 1;
          break;
        } else if sq == pos {
          failures := failures - 1;
          pos := enqPos;
        } else if sq < pos {
          return false;
        } else {
          pos := enqPos;  // needs a second thread
        }
      }
      values[Slot(pos, capacity)] := v;
      seqs[Slot(pos, capacity)] := pos + 1;
      contents := contents + [v];
      ok := true;
      forall t: nat | deqPos <= t < deqPos + capacity && t != pos ensures Slot(t, capacity) != Slot(pos, capacity) {
        SameSlotFarApart(t, pos, capacity);
      }
    }

    method TryDequeue(spurious: nat) returns (out: Option<T>)
      requires Valid()
      modifies this, seqs
      ensures Valid()
      ensures out.Some? <==> old(contents) != []
      ensures out.Some? ==> old(contents) == [out.value] + contents
      ensures out.None? ==> contents == []
    {
      var pos := deqPos;
      var failures := spurious;
      while true
        invariant pos == deqPos && unchanged(this) && unchanged(seqs)
        decreases failures
      {
        var sq := seqs[Slot(pos, capacity)];
        if sq == pos + 1 && failures == 0 {
          deqPos := pos + 1;
          break;
        } else if sq == pos + 1 {
          failures := failures - 1;
          pos := deqPos;
        } else if sq < pos + 1 {
          return None;
        } else {
          pos := deqPos;  // needs a second thread
        }
      }
      out := Some(values[Slot(pos, capacity)]);
      FreeCell(pos);
    }

    /** The end of a dequeue: the seq store that hands the cell to the next lap. */
    method FreeCell(pos: nat)
      requires 2 <= capacity == seqs.Length == values.Length && (seqs as object) != (values as object)
      requires deqPos == pos + 1 <= enqPos <= pos + capacity && |contents| == enqPos - pos
      requires forall t: nat :: pos <= t < enqPos ==>
                 seqs[Slot(t, capacity)] == t + 1 && values[Slot(t, capacity)] == contents[t - pos]
      requires forall t: nat :: enqPos <= t < pos + capacity ==> seqs[Slot(t, capacity)] == t
      modifies this`contents, seqs
      ensures Valid() && contents == old(contents)[1..]
    {
      forall t: nat | pos < t < pos + capacity ensures Slot(t, capacity) != Slot(pos, capacity) {
        SameSlotFarApart(t, pos, capacity);
      }
      seqs[Slot(pos, capacity)] := pos + capacity;
      contents := contents[1..];
    }

    method ApproxSize() returns (n: nat)
      requires Valid()
      ensures n == |contents|
    {
      var e, d := enqPos, deqPos;
      n := if e >= d then e - d else 0;
    }
  }
}
