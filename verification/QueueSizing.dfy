/** pow2_ceil and the queue capacity the driver derives from it. */
module QueueSizing {
  import opened Slots

  const CAP: nat := 0x100_0000

  /** The least power of two that is at least x. The source doubles a 64-bit word, which is exact up
      to 2^63. */
  method Pow2Ceil(x: nat) returns (v: nat, ghost k: nat)
    requires x <= Pow2(63)
    ensures v == Pow2(k) && x <= v && k <= 63
    ensures forall j: nat :: x <= Pow2(j) ==> v <= Pow2(j)
  {
    v, k := 1, 0;
    while v < x
      invariant v == Pow2(k) && k <= 63
      invariant k > 0 ==> Pow2(k - 1) < x
      decreases 63 - k
    {
      v, k := 2 * v, k + 1;
    }
    forall j: nat | x <= Pow2(j) ensures v <= Pow2(j) {
      if k <= j {
        Pow2Monotone(k, j);
      } else {
        Pow2Monotone(j, k - 1);
      }
    }
  }

  /** Doubling a 64-bit word. */
  function Twice(v: nat): nat { (2 * v) % 0x1_0000_0000_0000_0000 }

  /** The word after k doublings. */
  function Doubled(k: nat): nat { if k == 0 then 1 else Twice(Doubled(k - 1)) }

  lemma TwiceIs(v: nat)
    ensures v < 0x8000_0000_0000_0000 ==> Twice(v) == 2 * v
    ensures v == 0x8000_0000_0000_0000 ==> Twice(v) == 0
  {
  }

  lemma {:induction false} DoubledIs(k: nat)
    ensures Doubled(k) == if k < 64 then Pow2(k) else 0
  {
    if k > 0 {
      DoubledIs(k - 1);
      WordSize();
      TwiceIs(Doubled(k - 1));
      if k < 64 {
        Pow2Monotone(k, 63);
      }
    }
  }

  lemma WordSize()
    ensures Pow2(24) == CAP && Pow2(64) == 2 * Pow2(63) == 0x1_0000_0000_0000_0000
  {
    assert Pow2(8) == 256 && Pow2(16) == 65536 && Pow2(24) == CAP && Pow2(32) == 0x1_0000_0000;
    assert Pow2(40) == 0x100_0000_0000 && Pow2(48) == 0x1_0000_0000_0000 && Pow2(56) == 0x100_0000_0000_0000;
  }

  /** The doubling loop ends exactly for x <= 2^63; beyond that the word wraps to 0 and stays there. */
  lemma DoublingEndsIff(x: nat)
    ensures (exists k: nat :: Doubled(k) >= x) <==> x <= Pow2(63)
  {
    DoubledIs(63);
    if x > Pow2(63) {
      forall k: nat ensures Doubled(k) < x {
        DoubledIs(k);
        if k < 64 {
          Pow2Monotone(k, 63);
        }
      }
    }
  }

  /** The value that parsing `--queue-capacity arg` stores; 0 stands for automatic sizing. */
  method ParseCapacity(arg: nat) returns (stored: nat)
    requires arg <= Pow2(63)
    ensures arg == 0 <==> stored == 0
    ensures arg > 0 ==> LeastPower(stored, arg)
  {
    if arg == 0 { return 0; }
    ghost var k;
    stored, k := Pow2Ceil(arg);
  }

  /** v is the least power of two that is at least x. */
  ghost predicate LeastPower(v: nat, x: nat)
  {
    x <= v && (exists k: nat :: v == Pow2(k)) && forall j: nat :: x <= Pow2(j) ==> v <= Pow2(j)
  }

  /** The capacity of the ring of a Poisson run: large enough for all queries if sized automatically
      for up to 2^24 of them. */
  method ResolveCapacity(stored: nat, queries: nat) returns (cap: nat)
    requires queries <= Pow2(63)
    ensures stored > 0 ==> cap == stored
    ensures stored == 0 && queries <= CAP ==> LeastPower(cap, queries)
    ensures stored == 0 && queries > CAP ==> cap == CAP
  {
    if stored > 0 { return stored; }
    var want, k := Pow2Ceil(queries);
    WordSize();
    assert Pow2(24) == CAP;
    cap := if want < CAP then want else CAP;
  }

  lemma LeastPowerIsOneIff(v: nat, x: nat)
    requires LeastPower(v, x)
    ensures v == 1 <==> x <= 1
  {
    assert Pow2(0) == 1;
  }

  /** A ring of one cell comes out only if it was asked for or has at most one query to carry. */
  method Capacity(arg: nat, queries: nat) returns (cap: nat)
    requires arg <= Pow2(63) && queries <= Pow2(63)
    ensures cap == 1 <==> arg == 1 || (arg == 0 && queries <= 1)
    ensures arg == 0 && queries <= CAP ==> queries <= cap
    ensures exists k: nat :: cap == Pow2(k)
  {
    var stored := ParseCapacity(arg);
    cap := ResolveCapacity(stored, queries);
    WordSize();
    if arg > 0 {
      LeastPowerIsOneIff(cap, arg);
    } else if queries <= CAP {
      LeastPowerIsOneIff(cap, queries);
    }
  }
}
