/** The latency histogram of histogram.hpp. `samples` is what has been added so far; `Valid` ties
    the counters to it. Counters and sums are unbounded. */
module Histogram {
  import opened Counting
  import opened Slots
  import opened Buckets
  import opened Samples

  /** The fraction p of n samples. */
  function Share(n: nat, p: real): real { n as real * p }

  /** The rank `percentile(p)` looks for among `total` samples. */
  function Rank(total: nat, p: real): nat
    requires total > 0 && p >= 0.0
  {
    ShareBounds(total, p);
    var target := Share(total, p).Floor;
    if target >= total then total - 1 else target
  }

  /** How well an edge stands for a sample: never above it, exact below 16, and less than an eighth of
      itself below it exactly when the sample is under 135 * 2^33. */
  ghost predicate Approximates(edge: nat, x: nat)
  {
    && edge <= x && (x < 16 ==> edge == x)
    && (x > 0 ==> (8 * (x - edge) < edge <==> x < 135 * Pow2(33)))
  }

  class Histogram {
    const counts: array<nat>
    var total: nat
    var sum: nat
    var max: nat
    ghost var samples: seq<nat>

    ghost predicate Valid()
      reads this, counts
    {
      && counts.Length == NUM_BUCKETS
      && total == |samples| && sum == Sum(samples) && max == MaxOf(samples)
      && forall b: nat :: b < NUM_BUCKETS ==> counts[b] == InBucket(samples, b)
    }

    constructor ()
      ensures Valid() && samples == [] && fresh(counts)
    {
      counts := new nat[NUM_BUCKETS](_ => 0);
      total, sum, max, samples := 0, 0, 0, [];
    }

    method Add(ns: nat)
      requires Valid()
      modifies this, counts
      ensures Valid() && samples == old(samples) + [ns]
    {
      BucketIsLive(ns);
      var b := Bucket(ns);
      counts[b] := counts[b] + 1;
      total := total + 1;
      sum := sum + ns;
      if ns > max { max := ns; }
      samples := samples + [ns];
      assert samples[..|samples| - 1] == old(samples);
    }

    /** Merging is the same as having added the other histogram's samples here. */
    method Merge(other: Histogram)
      requires Valid() && other.Valid()
      modifies this, counts
      ensures Valid() && samples == old(samples) + old(other.samples)
    {
      ghost var mine, theirs := samples, other.samples;
      for i := 0 to NUM_BUCKETS
        invariant unchanged(this)
        invariant forall b: nat :: b < i ==> counts[b] == InBucket(mine + theirs, b)
        invariant forall b: nat :: i <= b < NUM_BUCKETS ==>
                    counts[b] == InBucket(mine, b) && other.counts[b] == InBucket(theirs, b)
      {
        AppendInBucket(mine, theirs, i);
        counts[i] := counts[i] + other.counts[i];
      }
      AppendSum(mine, theirs);
      AppendMax(mine, theirs);
      var t, u, m := other.total, other.sum, other.max;
      total := total + t;
      sum := sum + u;
      max := if max > m then max else m;
      samples := mine + theirs;
    }

    /** The lower edge of the bucket of the order statistic of the computed rank. */
    method Percentile(p: real) returns (r: nat)
      requires Valid() && p >= 0.0
      ensures total == 0 ==> r == 0
      ensures total > 0 ==> r == LowerEdge(Bucket(Quantile(samples, Rank(total, p))))
      ensures total > 0 ==> Approximates(r, Quantile(samples, Rank(total, p)))
    {
      if total == 0 { return 0; }
      var target := Rank(total, p);
      var i, found := FirstAbove(target);
      FirstExceeding(samples, i, target, Quantile(samples, target));
      r := LowerEdge(i);
      EdgeError(Quantile(samples, target));
    }

    /** The loop of percentile: the first bucket at which the cumulative count exceeds `target`.
        It always stops inside the array. */
    method FirstAbove(target: nat) returns (i: nat, found: bool)
      requires Valid() && target < total
      ensures found && i < NUM_BUCKETS && InFirst(samples, i) <= target < InFirst(samples, i + 1)
    {
      FirstBucketsStep(samples, 0);
      AllInBuckets(samples);
      var accum := 0;
      i, found := 0, false;
      while i < NUM_BUCKETS && !found
        invariant i <= NUM_BUCKETS
        invariant !found ==> accum == InFirst(samples, i) <= target
        invariant found ==> i < NUM_BUCKETS && InFirst(samples, i) <= target < InFirst(samples, i + 1)
        decreases NUM_BUCKETS - i, !found
      {
        FirstBucketsStep(samples, i);
        accum := accum + counts[i];
        if accum > target { found := true; } else { i := i + 1; }
      }
    }
  }

  /** The first bucket whose cumulative count exceeds the rank is the order statistic's bucket. */
  lemma FirstExceeding(s: seq<nat>, i: nat, target: nat, x: nat)
    requires InFirst(s, i) <= target < InFirst(s, i + 1) && HasRank(s, target, x)
    ensures i == Bucket(x)
  {
    var b := Bucket(x);
    BucketsRespectOrder(s, x);
    if i < b {
      InFirstMonotone(s, i + 1, b);
    } else if i > b {
      InFirstMonotone(s, b + 1, i);
    }
  }

  /** What the rank means: at most the fraction p of the samples is below the order statistic, and more
      than the fraction p is at or below it. From p = 1 on it is the largest sample. */
  lemma RankSplitsSamples(samples: seq<nat>, p: real)
    requires samples != [] && p >= 0.0
    ensures var x := Quantile(samples, Rank(|samples|, p));
            if p < 1.0 then Below(samples, x) as real <= |samples| as real * p < AtMost(samples, x) as real
            else x == MaxOf(samples)
  {
    var n := |samples|;
    assert Share(n, p) == n as real * p;
    RankMeans(n, p);
    hide Rank, Share;
    if p >= 1.0 {
      LargestHasLastRank(samples);
      RankIsUnique(samples, n - 1, Quantile(samples, Rank(n, p)), MaxOf(samples));
    }
  }

  lemma RankMeans(n: nat, p: real)
    requires n > 0 && p >= 0.0
    ensures if p < 1.0 then Rank(n, p) as real <= Share(n, p) < (Rank(n, p) + 1) as real else Rank(n, p) == n - 1
    ensures Rank(n, p) < n
  {
    hide Share;
    ShareBounds(n, p);
  }

  lemma ShareBounds(n: nat, p: real)
    requires n > 0 && p >= 0.0
    ensures if p < 1.0 then 0.0 <= Share(n, p) < n as real else Share(n, p) >= n as real
  {
    if p < 1.0 {
      ProductSign(n as real, 1.0 - p);
      ProductSign(n as real, p);
    } else {
      ProductSign(n as real, p - 1.0);
    }
  }

  /** For any non-empty sample sequence, a larger p never gives a smaller percentile. */
  lemma PercentileMonotone(samples: seq<nat>, p: real, q: real)
    requires samples != [] && 0.0 <= p <= q
    ensures LowerEdge(Bucket(Quantile(samples, Rank(|samples|, p))))
            <= LowerEdge(Bucket(Quantile(samples, Rank(|samples|, q))))
  {
    RankMonotone(|samples|, p, q);
    QuantileMonotone(samples, Rank(|samples|, p), Rank(|samples|, q));
    EdgeMonotone(Quantile(samples, Rank(|samples|, p)), Quantile(samples, Rank(|samples|, q)));
  }

  lemma RankMonotone(n: nat, p: real, q: real)
    requires n > 0 && 0.0 <= p <= q
    ensures Rank(n, p) <= Rank(n, q)
  {
    ShareMonotone(n, p, q);
    hide Share;
  }

  lemma ShareMonotone(n: nat, p: real, q: real)
    requires p <= q
    ensures Share(n, p) <= Share(n, q)
  {
    ProductSign(n as real, q - p);
    assert Share(n, q) == Share(n, p) + n as real * (q - p);
  }

  lemma ProductSign(x: real, y: real)
    requires x >= 0.0 && y >= 0.0
    ensures x * y >= 0.0 && (x > 0.0 && y > 0.0 ==> x * y > 0.0)
  {
  }

  lemma EdgeMonotone(x: nat, y: nat)
    requires x <= y
    ensures LowerEdge(Bucket(x)) <= LowerEdge(Bucket(y))
  {
    if x < 8 {
      EdgeFromEight(y);
    } else {
      EdgeForm(x);
      EdgeForm(y);
      BucketMonotone(x, y);
      EdgesInOrder(Octave(x), Octave(y), Sub(x), Sub(y));
    }
  }

  /** The reported edge is the least value that falls into the sample's bucket. */
  lemma EdgeIsLeast(x: nat, y: nat)
    ensures Bucket(LowerEdge(Bucket(x))) == Bucket(x)
    ensures Bucket(y) == Bucket(x) ==> LowerEdge(Bucket(x)) <= y
  {
    var edge := LowerEdge(Bucket(x));
    EdgeError(x);
    EdgeError(y);
    BucketMonotone(edge, x);
    if x < 8 {
      assert Bucket(x) == x && x / 8 == 0 && x % 8 == x;
    } else {
      EdgeInBucket(x);
    }
  }

  lemma EdgeInBucket(x: nat)
    requires x >= 8
    ensures Bucket(LowerEdge(Bucket(x))) == Bucket(x)
  {
    var o, sub, s := Octave(x), Sub(x), Width(Octave(x));
    var edge := LowerEdge(Bucket(x));
    EdgeForm(x);
    OctaveBounds(x);
    EightWidths(o);
    TimesMonotone(sub, 7, s);
    TimesMonotone(0, sub, s);
    OctaveOfEdge(edge, o);
    EdgeForm(edge);
    SubOfEdge(edge, sub, s);
  }

  /** A value in [2^o, 2^(o + 1)) is counted in octave o. */
  lemma OctaveOfEdge(edge: nat, o: nat)
    requires 3 <= o < NUM_OCTAVES && 8 * Width(o) <= edge < 16 * Width(o)
    ensures edge >= 8 && Octave(edge) == o
  {
    EightWidths(o);
    Log2Bounds(edge);
    if Log2(edge) < o {
      Pow2Monotone(Log2(edge) + 1, o);
    } else if Log2(edge) > o {
      Pow2Monotone(o + 1, Log2(edge));
    }
  }

  lemma SubOfEdge(edge: nat, sub: nat, s: nat)
    requires edge >= 8 && s == Width(Octave(edge)) > 0 && sub < 8 && edge == 8 * s + sub * s
    ensures Sub(edge) == sub
  {
    DivModUnique(sub * s, s, sub, 0);
  }

  lemma EdgeFromEight(y: nat)
    ensures y < 8 ==> LowerEdge(Bucket(y)) == y
    ensures y >= 8 ==> LowerEdge(Bucket(y)) >= 8
  {
    if y >= 8 {
      EdgeForm(y);
      EightWidths(Octave(y));
      TimesMonotone(0, Sub(y), Width(Octave(y)));
    } else {
      assert Bucket(y) == y && y / 8 == 0 && y % 8 == y;
    }
  }

  lemma EdgeForm(x: nat)
    requires x >= 8
    ensures 3 <= Octave(x) < NUM_OCTAVES && Sub(x) < 8 && Bucket(x) == Octave(x) * 8 + Sub(x)
    ensures LowerEdge(Bucket(x)) == 8 * Width(Octave(x)) + Sub(x) * Width(Octave(x))
  {
    OctaveBounds(x);
    Placement(x);
  }

  lemma EdgesInOrder(o: nat, o': nat, sub: nat, sub': nat)
    requires 3 <= o <= NUM_OCTAVES && 3 <= o' <= NUM_OCTAVES && sub < 8 && sub' < 8 && o * 8 + sub <= o' * 8 + sub'
    ensures 8 * Width(o) + sub * Width(o) <= 8 * Width(o') + sub' * Width(o')
  {
    hide Width;
    if o == o' {
      TimesMonotone(sub, sub', Width(o));
    } else {
      WiderOctave(o, o');
      NextOctave(Width(o), Width(o'), sub, sub');
    }
  }

  lemma WiderOctave(o: nat, o': nat)
    requires 3 <= o < o'
    ensures Width(o') >= 2 * Width(o)
  {
    Pow2Monotone(o - 2, o' - 3);
  }

  lemma NextOctave(s: nat, s': nat, sub: nat, sub': nat)
    requires s' >= 2 * s && sub < 8
    ensures 8 * s + sub * s <= 8 * s' + sub' * s'
  {
    TimesMonotone(sub, 8, s);
    TimesMonotone(0, sub', s');
  }
}
