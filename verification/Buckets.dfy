/** The bucket arithmetic of histogram.hpp: 40 octaves of 8 sub-buckets. */
module Buckets {
  import opened Slots

  const NUM_OCTAVES := 40
  const SUBBUCKETS := 8
  const NUM_BUCKETS := 320

  /** Position of the highest set bit: 63 - clz. */
  function Log2(n: nat): (o: nat)
    requires n > 0
  {
    if n < 2 then 0 else 1 + Log2(n / 2)
  }

  function Bucket(ns: nat): nat
  {
    if ns < SUBBUCKETS then ns
    else
      var o := Log2(ns);
      var oct := if o >= NUM_OCTAVES then NUM_OCTAVES - 1 else o;
      var base := Pow2(oct);
      var step := if base / SUBBUCKETS == 0 then 1 else base / SUBBUCKETS;
      // ns >= base, so the unsigned difference does not wrap
      var sub := Quot(if ns >= base then ns - base else 0, step);
      oct * SUBBUCKETS + (if sub >= SUBBUCKETS then SUBBUCKETS - 1 else sub)
  }

  function LowerEdge(b: nat): nat
  {
    var oct, sub := b / SUBBUCKETS, b % SUBBUCKETS;
    if oct == 0 then sub
    else Pow2(oct) + sub * (Pow2(oct) / SUBBUCKETS)
  }

  /** Division by a positive step. */
  function Quot(z: nat, s: nat): nat
    requires s > 0
  {
    z / s
  }

  lemma {:induction false} Log2Bounds(n: nat)
    requires n > 0
    ensures Pow2(Log2(n)) <= n < 2 * Pow2(Log2(n))
  {
    if n >= 2 {
      Log2Bounds(n / 2);
    }
  }

  lemma Log2Monotone(x: nat, y: nat)
    requires 0 < x <= y
    ensures Log2(x) <= Log2(y)
  {
    Log2Bounds(x);
    Log2Bounds(y);
    if Log2(y) < Log2(x) {
      Pow2Monotone(Log2(y) + 1, Log2(x));
    }
  }

  lemma QuotBounds(z: nat, s: nat)
    requires s > 0
    ensures Quot(z, s) * s <= z < Quot(z, s) * s + s
  {
  }

  lemma QuotMonotone(y: nat, z: nat, s: nat)
    requires s > 0 && y <= z
    ensures Quot(y, s) <= Quot(z, s)
  {
    QuotBounds(y, s);
    QuotBounds(z, s);
    TimesMonotone(Quot(z, s) + 1, Quot(y, s), s);
    assert (Quot(z, s) + 1) * s == Quot(z, s) * s + s;
  }

  lemma QuotBelow(z: nat, s: nat, k: nat)
    requires s > 0 && z < k * s
    ensures Quot(z, s) < k
  {
    QuotBounds(z, s);
    TimesMonotone(k, Quot(z, s), s);
  }

  /** The octave a sample from 8 on is counted in, and the width of its sub-buckets. */
  function Octave(x: nat): nat
    requires x >= 8
  {
    if Log2(x) >= NUM_OCTAVES then NUM_OCTAVES - 1 else Log2(x)
  }

  function Width(o: nat): nat { if o < 3 then 1 else Pow2(o - 3) }

  function Sub(x: nat): nat
    requires x >= 8
  {
    var s := Width(Octave(x));
    var q := if x >= 8 * s then Quot(x - 8 * s, s) else 0;
    if q >= SUBBUCKETS then SUBBUCKETS - 1 else q
  }

  lemma EightWidths(o: nat)
    requires o >= 3
    ensures Width(o) > 0 && Pow2(o) == 8 * Width(o) && Pow2(o) / SUBBUCKETS == Width(o)
  {
    assert Pow2(o - 1) == 2 * Pow2(o - 2) && Pow2(o - 2) == 2 * Pow2(o - 3);
  }

  lemma OctaveBounds(x: nat)
    requires x >= 8
    ensures 3 <= Octave(x) < NUM_OCTAVES && 8 * Width(Octave(x)) <= x
    ensures Log2(x) < NUM_OCTAVES ==> x < 16 * Width(Octave(x))
    ensures Log2(x) >= NUM_OCTAVES ==> x >= 16 * Width(Octave(x)) && Octave(x) == 39
  {
    Log2Bounds(x);
    Log2Monotone(8, x);
    assert Log2(8) == 3;
    EightWidths(Octave(x));
    if Log2(x) >= NUM_OCTAVES {
      Pow2Monotone(NUM_OCTAVES, Log2(x));
      assert Pow2(NUM_OCTAVES) == 2 * Pow2(39);
    }
  }

  lemma Placement(x: nat)
    requires x >= 8
    ensures Sub(x) < 8 && Bucket(x) == Octave(x) * 8 + Sub(x)
    ensures LowerEdge(Bucket(x)) == 8 * Width(Octave(x)) + Sub(x) * Width(Octave(x))
  {
    OctaveBounds(x);
    EightWidths(Octave(x));
    var o, sub := Octave(x), Sub(x);
    assert (o * 8 + sub) / 8 == o && (o * 8 + sub) % 8 == sub;
  }

  lemma SubBounds(x: nat)
    requires x >= 8
    ensures var s := Width(Octave(x));
            && (Log2(x) < NUM_OCTAVES ==> Sub(x) * s <= x - 8 * s < Sub(x) * s + s)
            && (Log2(x) >= NUM_OCTAVES ==> Sub(x) == 7)
  {
    OctaveBounds(x);
    EightWidths(Octave(x));
    ClampedQuot(x - 8 * Width(Octave(x)), Width(Octave(x)));
  }

  lemma ClampedQuot(z: nat, s: nat)
    requires s > 0
    ensures z < 8 * s ==> Quot(z, s) < 8 && Quot(z, s) * s <= z < Quot(z, s) * s + s
    ensures z >= 8 * s ==> Quot(z, s) >= 8
  {
    QuotBounds(z, s);
    if z < 8 * s {
      QuotBelow(z, s, 8);
    } else {
      TimesMonotone(Quot(z, s) + 1, 8, s);
    }
  }

  /** Every sample lands in a bucket of the array, and never in one of the dead buckets 8..23. */
  lemma BucketIsLive(x: nat)
    ensures Bucket(x) < NUM_BUCKETS && !(8 <= Bucket(x) < 24)
  {
    if x >= 8 {
      OctaveBounds(x);
      Placement(x);
    }
  }

  lemma SubMonotone(x: nat, y: nat)
    requires 8 <= x <= y && Octave(x) == Octave(y)
    ensures Sub(x) <= Sub(y)
  {
    OctaveBounds(x);
    EightWidths(Octave(x));
    hide Octave, Width, Quot;
    QuotMonotone(x - 8 * Width(Octave(x)), y - 8 * Width(Octave(x)), Width(Octave(x)));
  }

  lemma OctaveMonotone(x: nat, y: nat)
    requires 8 <= x <= y
    ensures Octave(x) <= Octave(y)
  {
    Log2Monotone(x, y);
  }

  lemma BucketMonotone(x: nat, y: nat)
    requires x <= y
    ensures Bucket(x) <= Bucket(y)
  {
    if x >= 8 {
      hide Bucket, LowerEdge, Octave, Sub, Width;
      Placement(x);
      Placement(y);
      OctaveMonotone(x, y);
      if Octave(x) == Octave(y) {
        SubMonotone(x, y);
      }
    } else if y >= 8 {
      OctaveBounds(y);
      Placement(y);
    }
  }

  /** The reported edge never exceeds the sample and is exact below 16. Its relative error is below
      one eighth exactly for samples below 135 * 2^33, a little above 2^40. */
  lemma EdgeError(x: nat)
    ensures LowerEdge(Bucket(x)) <= x
    ensures x < 16 ==> LowerEdge(Bucket(x)) == x
    ensures x > 0 ==> (8 * (x - LowerEdge(Bucket(x))) < LowerEdge(Bucket(x)) <==> x < 135 * Pow2(33))
  {
    if x >= 8 {
      OctaveBounds(x);
      Placement(x);
      SubBounds(x);
      TopWidth();
      if Log2(x) < NUM_OCTAVES {
        WidthBelowTop(Octave(x));
        ErrorInOctave(x, Width(Octave(x)), Sub(x));
      }
    }
  }

  lemma ErrorInOctave(x: nat, s: nat, sub: nat)
    requires 8 * s <= x < 16 * s && sub * s <= x - 8 * s < sub * s + s
    ensures 8 * s + sub * s <= x && 8 * (x - (8 * s + sub * s)) < 8 * s + sub * s
    ensures x < 16 ==> 8 * s + sub * s == x
  {
    var e := sub * s;
    if x < 16 {
      assert s == 1;
    }
  }

  lemma TopWidth()
    ensures Width(39) == 8 * Pow2(33)
  {
    assert Pow2(36) == 2 * Pow2(35) && Pow2(35) == 2 * Pow2(34) && Pow2(34) == 2 * Pow2(33);
  }

  lemma WidthBelowTop(o: nat)
    requires 3 <= o < NUM_OCTAVES
    ensures 16 * Width(o) <= 128 * Pow2(33)
  {
    Pow2Monotone(o - 3, 36);
    TopWidth();
  }
}
