/** Sample multisets and their order statistics, independent of any bucketing. */
module Samples {
  import opened Buckets

  /** How many samples are at most x. */
  function AtMost(s: seq<nat>, x: nat): nat
  {
    if s == [] then 0 else AtMost(s[..|s| - 1], x) + if s[|s| - 1] <= x then 1 else 0
  }

  /** How many samples are below x. */
  function Below(s: seq<nat>, x: nat): nat { if x == 0 then 0 else AtMost(s, x - 1) }

  function MaxOf(s: seq<nat>): nat
  {
    if s == [] then 0 else if s[|s| - 1] > MaxOf(s[..|s| - 1]) then s[|s| - 1] else MaxOf(s[..|s| - 1])
  }

  /** The maximum is a sample, unless there is none, and no sample is larger. */
  lemma {:induction false} MaxIsLargest(s: seq<nat>)
    ensures forall i :: 0 <= i < |s| ==> s[i] <= MaxOf(s)
    ensures if s == [] then MaxOf(s) == 0 else MaxOf(s) in s
  {
    if s != [] {
      var n := |s| - 1;
      MaxIsLargest(s[..n]);
      forall i | 0 <= i < |s| ensures s[i] <= MaxOf(s) {
        assert i < n ==> s[..n][i] == s[i];
      }
    }
  }

  /** x is the sample of rank k (counting from 0) in sorted order. */
  ghost predicate HasRank(s: seq<nat>, k: nat, x: nat)
  {
    Below(s, x) <= k < AtMost(s, x)
  }

  lemma {:induction false} AtMostMonotone(s: seq<nat>, x: nat, y: nat)
    requires x <= y
    ensures AtMost(s, x) <= AtMost(s, y) <= |s|
  {
    if s != [] {
      AtMostMonotone(s[..|s| - 1], x, y);
    }
  }

  lemma {:induction false} AtMostMax(s: seq<nat>, x: nat)
    requires MaxOf(s) <= x
    ensures AtMost(s, x) == |s|
  {
    if s != [] {
      AtMostMax(s[..|s| - 1], x);
    }
  }

  lemma {:induction false} CountedIsSample(s: seq<nat>, x: nat)
    requires Below(s, x) < AtMost(s, x)
    ensures x in s
  {
    if s != [] && s[|s| - 1] != x {
      CountedIsSample(s[..|s| - 1], x);
    }
  }

  lemma {:induction false} SomeHasRank(s: seq<nat>, k: nat, hi: nat)
    requires k < AtMost(s, hi)
    ensures exists x :: HasRank(s, k, x)
    decreases hi
  {
    if hi == 0 || AtMost(s, hi - 1) <= k {
      assert HasRank(s, k, hi);
    } else {
      SomeHasRank(s, k, hi - 1);
    }
  }

  /** Every rank below the number of samples has exactly one value, and it is a sample. */
  lemma RankIsUnique(s: seq<nat>, k: nat, x: nat, y: nat)
    requires HasRank(s, k, x) && HasRank(s, k, y)
    ensures x == y && x in s
  {
    CountedIsSample(s, x);
    if x < y {
      AtMostMonotone(s, x, y - 1);
    } else if y < x {
      AtMostMonotone(s, y, x - 1);
    }
  }

  lemma {:induction false} AllAtMost(s: seq<nat>, y: nat)
    requires AtMost(s, y) == |s|
    ensures MaxOf(s) <= y
  {
    if s != [] {
      AtMostMonotone(s[..|s| - 1], y, y);
      AllAtMost(s[..|s| - 1], y);
    }
  }

  lemma LargestHasLastRank(s: seq<nat>)
    requires s != []
    ensures HasRank(s, |s| - 1, MaxOf(s))
  {
    var m := MaxOf(s);
    AtMostMax(s, m);
    if m > 0 {
      AtMostMonotone(s, m - 1, m);
      if AtMost(s, m - 1) == |s| {
        AllAtMost(s, m - 1);
      }
    }
  }

  /** The order statistic of rank k. */
  ghost function Quantile(s: seq<nat>, k: nat): (x: nat)
    requires k < |s|
    ensures HasRank(s, k, x) && x in s
  {
    AtMostMax(s, MaxOf(s));
    SomeHasRank(s, k, MaxOf(s));
    var x :| HasRank(s, k, x);
    CountedIsSample(s, x);
    x
  }

  lemma {:induction false} AtMostAppend(s: seq<nat>, t: seq<nat>, x: nat)
    ensures AtMost(s + t, x) == AtMost(s, x) + AtMost(t, x)
  {
    if t == [] {
      assert s + t == s;
    } else {
      AtMostAppend(s, t[..|t| - 1], x);
      assert (s + t)[..|s + t| - 1] == s + t[..|t| - 1];
    }
  }

  lemma AtMostWithout(s: seq<nat>, j: nat, x: nat)
    requires j < |s|
    ensures AtMost(s, x) == AtMost(s[..j] + s[j + 1..], x) + if s[j] <= x then 1 else 0
  {
    assert s == (s[..j] + [s[j]]) + s[j + 1..];
    AtMostAppend(s[..j] + [s[j]], s[j + 1..], x);
    AtMostAppend(s[..j], s[j + 1..], x);
    assert (s[..j] + [s[j]])[..j] == s[..j];
  }

  /** Counts do not depend on the order of the samples. */
  lemma {:induction false} AtMostOfPermutation(s: seq<nat>, t: seq<nat>, x: nat)
    requires multiset(s) == multiset(t)
    ensures AtMost(s, x) == AtMost(t, x)
  {
    if s == [] {
      assert |multiset(t)| == 0;
    } else {
      var n, v := |s| - 1, s[|s| - 1];
      assert s == s[..n] + [v];
      assert v in multiset(t);
      var j: nat :| j < |t| && t[j] == v;
      var rest := t[..j] + t[j + 1..];
      assert t == (t[..j] + [v]) + t[j + 1..];
      assert multiset(rest) == multiset(t) - multiset{v};
      AtMostOfPermutation(s[..n], rest, x);
      AtMostWithout(t, j, x);
    }
  }

  lemma {:induction false} AtMostOfSorted(t: seq<nat>, x: nat, k: nat)
    requires k < |t| && forall p, q :: 0 <= p < q < |t| ==> t[p] <= t[q]
    ensures k < AtMost(t, x) <==> t[k] <= x
  {
    var n := |t| - 1;
    AtMostMonotone(t[..n], x, x);
    if k < n {
      AtMostOfSorted(t[..n], x, k);
      if t[n] <= x {
        AllBelow(t[..n], x);
      }
    } else if t[n] <= x {
      AllBelow(t[..n], x);
    }
  }

  lemma {:induction false} AllBelow(t: seq<nat>, x: nat)
    requires forall i :: 0 <= i < |t| ==> t[i] <= x
    ensures AtMost(t, x) == |t|
  {
    if t != [] {
      AllBelow(t[..|t| - 1], x);
    }
  }

  /** The order statistic of rank k is element k of the samples in sorted order. */
  lemma QuantileIsSortedElement(s: seq<nat>, t: seq<nat>, k: nat)
    requires multiset(s) == multiset(t) && (forall p, q :: 0 <= p < q < |t| ==> t[p] <= t[q]) && k < |s|
    ensures k < |t| && Quantile(s, k) == t[k]
  {
    assert |s| == |multiset(s)| == |multiset(t)| == |t|;
    var x := Quantile(s, k);
    AtMostOfPermutation(s, t, x);
    AtMostOfSorted(t, x, k);
    if x > 0 {
      AtMostOfPermutation(s, t, x - 1);
      AtMostOfSorted(t, x - 1, k);
    }
  }

  lemma QuantileMonotone(s: seq<nat>, j: nat, k: nat)
    requires j <= k < |s|
    ensures Quantile(s, j) <= Quantile(s, k)
  {
    var x, y := Quantile(s, j), Quantile(s, k);
    if y < x {
      AtMostMonotone(s, y, x - 1);
    }
  }

  lemma {:induction false} AppendMax(s: seq<nat>, t: seq<nat>)
    ensures MaxOf(s + t) == if MaxOf(s) > MaxOf(t) then MaxOf(s) else MaxOf(t)
  {
    if t == [] {
      assert s + t == s;
    } else {
      AppendMax(s, t[..|t| - 1]);
      assert (s + t)[..|s + t| - 1] == s + t[..|t| - 1];
    }
  }

  // ---------- Samples by bucket ----------

  function InBucket(s: seq<nat>, b: nat): nat
  {
    if s == [] then 0 else InBucket(s[..|s| - 1], b) + if Bucket(s[|s| - 1]) == b then 1 else 0
  }

  /** How many samples fall in the first n buckets. */
  function InFirst(s: seq<nat>, n: nat): nat
  {
    if s == [] then 0 else InFirst(s[..|s| - 1], n) + if Bucket(s[|s| - 1]) < n then 1 else 0
  }

  lemma {:induction false} AppendInBucket(s: seq<nat>, t: seq<nat>, b: nat)
    ensures InBucket(s + t, b) == InBucket(s, b) + InBucket(t, b)
  {
    if t == [] {
      assert s + t == s;
    } else {
      AppendInBucket(s, t[..|t| - 1], b);
      assert (s + t)[..|s + t| - 1] == s + t[..|t| - 1];
    }
  }

  lemma {:induction false} FirstBucketsStep(s: seq<nat>, n: nat)
    ensures InFirst(s, n + 1) == InFirst(s, n) + InBucket(s, n) && InFirst(s, 0) == 0
  {
    if s != [] {
      FirstBucketsStep(s[..|s| - 1], n);
    }
  }

  lemma {:induction false} AllInBuckets(s: seq<nat>)
    ensures InFirst(s, NUM_BUCKETS) == |s|
  {
    if s != [] {
      AllInBuckets(s[..|s| - 1]);
      BucketIsLive(s[|s| - 1]);
    }
  }

  /** Bucketing keeps the order, so the buckets before x's hold no more than the samples below x,
      and those up to x's hold at least the samples up to x. */
  lemma {:induction false} BucketsRespectOrder(s: seq<nat>, x: nat)
    ensures InFirst(s, Bucket(x)) <= Below(s, x)
    ensures AtMost(s, x) <= InFirst(s, Bucket(x) + 1)
  {
    if s != [] {
      BucketsRespectOrder(s[..|s| - 1], x);
      var y := s[|s| - 1];
      if y <= x {
        BucketMonotone(y, x);
      } else {
        BucketMonotone(x, y);
      }
    }
  }

  lemma {:induction false} InFirstMonotone(s: seq<nat>, m: nat, n: nat)
    requires m <= n
    ensures InFirst(s, m) <= InFirst(s, n)
  {
    if s != [] {
      InFirstMonotone(s[..|s| - 1], m, n);
    }
  }
}
