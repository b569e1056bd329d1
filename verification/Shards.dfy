/** How the batch mode cuts the query stream into one contiguous range per worker. */
module Shards {
  import opened Slots

  /** Queries per worker, rounded down. */
  function Per(n: nat, workers: nat): nat
    requires workers > 0
  {
    n / workers
  }

  function Begin(n: nat, workers: nat, w: nat): nat
    requires workers > 0
  {
    w * Per(n, workers)
  }

  /** The last worker takes the rest. */
  function End(n: nat, workers: nat, w: nat): nat
    requires workers > 0
  {
    if w == workers - 1 then n else Begin(n, workers, w) + Per(n, workers)
  }

  lemma TimesStep(w: nat, per: nat)
    ensures (w + 1) * per == w * per + per
  {
  }

  /** Shards are laid end to end from 0 to n. */
  lemma ShardsTouch(n: nat, workers: nat, w: nat)
    requires w < workers
    ensures Begin(n, workers, 0) == 0
    ensures Begin(n, workers, w) <= End(n, workers, w) <= n
    ensures End(n, workers, w) == if w + 1 < workers then Begin(n, workers, w + 1) else n
  {
    var per := Per(n, workers);
    assert workers * per <= n;
    TimesStep(w, per);
    TimesMonotone(w + 1, workers, per);
  }

  /** All shards but the last have the same size, the largest that leaves the last one no smaller. */
  lemma ShardSizes(n: nat, workers: nat) returns (size: nat)
    requires workers > 0
    ensures size * workers <= n < (size + 1) * workers
    ensures forall w: nat :: w + 1 < workers ==> End(n, workers, w) - Begin(n, workers, w) == size
    ensures End(n, workers, workers - 1) - Begin(n, workers, workers - 1) == n - size * (workers - 1)
  {
    size := Per(n, workers);
    assert size * workers + n % workers == n;
    assert (size + 1) * workers == size * workers + workers;
  }

  lemma LongShard(n: nat, workers: nat, w: nat)
    requires w < workers
    ensures End(n, workers, w) - Begin(n, workers, w) >= Per(n, workers)
  {
    var per := Per(n, workers);
    assert workers * per <= n;
    TimesStep(w, per);
  }

  ghost predicate InShard(n: nat, workers: nat, w: nat, i: nat)
    requires workers > 0
  {
    w < workers && Begin(n, workers, w) <= i < End(n, workers, w)
  }

  lemma {:induction false} FindShard(n: nat, workers: nat, i: nat, upTo: nat) returns (w: nat)
    requires workers > 0 && upTo < workers && i < End(n, workers, upTo)
    ensures InShard(n, workers, w, i)
  {
    ShardsTouch(n, workers, upTo);
    if Begin(n, workers, upTo) <= i {
      w := upTo;
    } else {
      ShardsTouch(n, workers, upTo - 1);
      w := FindShard(n, workers, i, upTo - 1);
    }
  }

  lemma OnlyShard(n: nat, workers: nat, v: nat, w: nat, i: nat)
    requires workers > 0 && InShard(n, workers, v, i) && InShard(n, workers, w, i)
    ensures v == w
  {
    if v < w {
      ShardsTouch(n, workers, v);
      TimesMonotone(v + 1, w, Per(n, workers));
    } else if w < v {
      ShardsTouch(n, workers, w);
      TimesMonotone(w + 1, v, Per(n, workers));
    }
  }

  /** Every query is in exactly one shard, also with more workers than queries. */
  lemma ShardsPartition(n: nat, workers: nat, i: nat)
    requires workers > 0 && i < n
    ensures exists w: nat :: InShard(n, workers, w, i) && forall v: nat :: InShard(n, workers, v, i) ==> v == w
  {
    var w := FindShard(n, workers, i, workers - 1);
    forall v: nat | InShard(n, workers, v, i) ensures v == w {
      OnlyShard(n, workers, v, w, i);
    }
  }
}
