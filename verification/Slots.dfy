/** Slot numbers of a ring: `pos & mask_` of mpmc_queue.hpp, defined by repeated subtraction so
    that proofs about the ring never need non-linear arithmetic. `SlotIsMask` ties it to the
    bitwise definition. */
module Slots {

  function Slot(t: nat, cap: nat): (s: nat)
    requires 0 < cap
    ensures s < cap
    ensures t < cap ==> s == t
  {
    if t < cap then t else Slot(t - cap, cap)
  }

  /** Two tickets that share a slot are equal or at least one capacity apart. */
  lemma {:induction false} SameSlotFarApart(t: nat, u: nat, cap: nat)
    requires 0 < cap
    ensures Slot(t, cap) == Slot(u, cap) ==> t == u || t + cap <= u || u + cap <= t
    decreases t + u
  {
    if t >= cap && u >= cap {
      SameSlotFarApart(t - cap, u - cap, cap);
    }
  }

  /** Bitwise and of two naturals. */
  function And(a: nat, b: nat): nat
  {
    if a == 0 || b == 0 then 0
    else 2 * And(a / 2, b / 2) + (if a % 2 == 1 && b % 2 == 1 then 1 else 0)
  }

  function Pow2(k: nat): (p: nat)
    ensures p >= 1
  {
    if k == 0 then 1 else 2 * Pow2(k - 1)
  }

  lemma AndOdd(t: nat, b: nat)
    ensures And(t, 2 * b + 1) == 2 * And(t / 2, b) + t % 2
  {
    assert (2 * b + 1) / 2 == b;
  }

  lemma {:induction false} SlotDouble(t: nat, p: nat)
    requires 0 < p
    ensures Slot(t, 2 * p) == 2 * Slot(t / 2, p) + t % 2
  {
    if t >= 2 * p {
      SlotDouble(t - 2 * p, p);
      assert (t - 2 * p) / 2 == t / 2 - p;
    }
  }

  /** For a power-of-two capacity the slot of a position is the position masked with capacity - 1. */
  lemma {:induction false} SlotIsMask(t: nat, k: nat)
    ensures Slot(t, Pow2(k)) == And(t, Pow2(k) - 1)
    decreases k
  {
    if k == 0 {
      SlotOne(t);
    } else {
      SlotIsMask(t / 2, k - 1);
      MaskDouble(t, Pow2(k - 1));
    }
  }

  lemma MaskDouble(t: nat, p: nat)
    requires 0 < p && Slot(t / 2, p) == And(t / 2, p - 1)
    ensures Slot(t, 2 * p) == And(t, 2 * p - 1)
  {
    SlotDouble(t, p);
    AndOdd(t, p - 1);
    assert 2 * p - 1 == 2 * (p - 1) + 1;
  }

  lemma {:induction false} SlotOne(t: nat)
    ensures Slot(t, 1) == 0
  {
    if t >= 1 {
      SlotOne(t - 1);
    }
  }

  lemma {:induction false} Pow2Monotone(a: nat, b: nat)
    requires a <= b
    ensures Pow2(a) <= Pow2(b)
  {
    if a < b {
      Pow2Monotone(a, b - 1);
    }
  }

  // ---------- Products and quotients ----------

  lemma DivModUnique(x: int, m: nat, q: int, r: int)
    requires 0 <= r < m && x == q * m + r
    ensures x / m == q && x % m == r
  {
    var d := q - x / m;
    assert d * m == x % m - r by { assert d * m == q * m - (x / m) * m; }
    MulSign(d, m);
  }

  lemma MulSign(d: int, m: nat)
    ensures d >= 1 ==> d * m >= m
    ensures d <= -1 ==> d * m <= -(m as int)
  {
    if d >= 1 {
      assert d * m == (d - 1) * m + m;
    } else if d <= -1 {
      assert d * m == (d + 1) * m - m;
    }
  }

  lemma TimesMonotone(a: nat, b: nat, s: nat)
    ensures a <= b ==> a * s <= b * s
  {
    if a <= b {
      assert b * s == a * s + (b - a) * s;
    }
  }
}
