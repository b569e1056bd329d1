/** The exclusive or of a sequence of values, which is what both scans accumulate. */
module Xor {
  import opened IndexTypes

  function XorAll(s: seq<Val>): Val
  {
    if s == [] then 0 else XorAll(s[..|s| - 1]) ^ s[|s| - 1]
  }

  lemma XorSnoc(cur: seq<Val>, p: nat, n: nat)
    requires p + n < |cur|
    ensures XorAll(cur[p..p + n + 1]) == XorAll(cur[p..p + n]) ^ cur[p + n]
  {
    assert cur[p..p + n + 1][..n] == cur[p..p + n];
  }

  /** Bit b of a value, b from 0 to 63. */
  predicate Bit(v: Val, b: bv6)
  {
    (v >> b) & 1 == 1
  }

  /** Which of the values have bit b. */
  ghost function WithBit(s: seq<Val>, b: bv6): (w: set<nat>)
    ensures forall i: nat :: i in w <==> i < |s| && Bit(s[i], b)
  {
    set i: nat | i < |s| && Bit(s[i], b)
  }

  lemma BitOfXor(x: Val, y: Val, b: bv6)
    ensures Bit(x ^ y, b) <==> Bit(x, b) != Bit(y, b)
  {
    assert ((x ^ y) >> b) & 1 == ((x >> b) & 1) ^ ((y >> b) & 1);
    OneBit(x >> b);
    OneBit(y >> b);
  }

  lemma OneBit(x: Val)
    ensures x & 1 == 0 || x & 1 == 1
  {
  }

  lemma OneMore(s: seq<Val>, n: nat, b: bv6)
    requires n + 1 == |s|
    ensures |WithBit(s, b)| == |WithBit(s[..n], b)| + if Bit(s[n], b) then 1 else 0
  {
    hide Bit;
    assert WithBit(s, b) == WithBit(s[..n], b) + if Bit(s[n], b) then {n} else {};
  }

  /** A bit of the result is set exactly if an odd number of the values have it. */
  lemma {:induction false} XorIsParity(s: seq<Val>, b: bv6)
    ensures Bit(XorAll(s), b) <==> Odd(|WithBit(s, b)|)
  {
    hide Bit, WithBit, XorAll, Odd;
    if s == [] {
      assert WithBit(s, b) == {};
      XorOfNone();
      ZeroHasNoBit(b);
      OddStep(0);
    } else {
      var n := |s| - 1;
      XorIsParity(s[..n], b);
      XorOfLast(s, n);
      BitOfXor(XorAll(s[..n]), s[n], b);
      OneMore(s, n, b);
      OddStep(|WithBit(s[..n], b)|);
    }
  }

  predicate Odd(n: nat) { n % 2 == 1 }

  lemma OddStep(n: nat)
    ensures !Odd(0) && (Odd(n + 1) <==> !Odd(n))
  {
  }

  lemma XorOfNone()
    ensures XorAll([]) == 0
  {
  }

  lemma XorOfLast(s: seq<Val>, n: nat)
    requires n + 1 == |s|
    ensures XorAll(s) == XorAll(s[..n]) ^ s[n]
  {
  }

  lemma ZeroHasNoBit(b: bv6)
    ensures !Bit(0, b)
  {
  }
}
