/** Arithmetic on clock reads. */
module Clock {

  /** Difference of two uint64_t clock reads. */
  function Elapsed(later: nat, earlier: nat): nat
  {
    if later >= earlier then later - earlier else Wrapped(later - earlier)
  }

  function Wrapped(d: int): nat { d % 0x1_0000_0000_0000_0000 }
}
