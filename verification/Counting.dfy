/** Counting below a bound, that a permutation of the range does not change a count, and sums. */
module Counting {

  /** How many i < n satisfy p. */
  function Count(p: nat -> bool, n: nat): (c: nat)
    ensures c <= n
    decreases n, p
  {
    if n == 0 then 0 else Count(p, n - 1) + if p(n - 1) then 1 else 0
  }

  ghost function Hits(p: nat -> bool, n: nat): (s: set<nat>)
    ensures forall i: nat :: i in s <==> i < n && p(i)
    ensures |s| == Count(p, n)
    decreases n, p
  {
    if n == 0 then {} else Hits(p, n - 1) + if p(n - 1) then {n - 1} else {}
  }

  ghost predicate InjectiveBelow(f: nat -> nat, n: nat)
  {
    && (forall i: nat :: i < n ==> f(i) < n)
    && (forall i: nat, j: nat :: i < j < n ==> f(i) != f(j))
  }

  lemma {:induction false} SubsetSize(a: set<nat>, b: set<nat>)
    requires a <= b
    ensures |a| <= |b|
  {
    if a != {} {
      var x :| x in a;
      SubsetSize(a - {x}, b - {x});
    }
  }

  lemma {:induction false} ImageSize(dom: set<nat>, f: nat -> nat, image: set<nat>)
    requires forall i, j :: i in dom && j in dom && i != j ==> f(i) != f(j)
    requires image == set i | i in dom :: f(i)
    ensures |image| == |dom|
    decreases dom
  {
    if dom != {} {
      var x :| x in dom;
      var rest := set i | i in dom - {x} :: f(i);
      ImageSize(dom - {x}, f, rest);
      assert image == rest + {f(x)};
    }
  }

  lemma {:induction false} CountAll(n: nat)
    ensures Count(_ => true, n) == n
  {
    if n > 0 {
      CountAll(n - 1);
    }
  }

  /** An injective map of the first n naturals into themselves reaches each of them. */
  lemma InjectiveIsOnto(f: nat -> nat, n: nat, b: nat)
    requires InjectiveBelow(f, n) && b < n
    ensures exists i: nat :: i < n && f(i) == b
  {
    var all := Hits(_ => true, n);
    var image := set i | i in all :: f(i);
    CountAll(n);
    ImageSize(all, f, image);
    if b !in image {
      SubsetSize(image, all - {b});
    }
  }

  lemma PermutedHits(p: nat -> bool, f: nat -> nat, g: nat -> bool, n: nat)
    requires InjectiveBelow(f, n) && forall i: nat :: i < n ==> g(i) == p(f(i))
    ensures (set i | i in Hits(g, n) :: f(i)) == Hits(p, n)
  {
    forall b | b in Hits(p, n) ensures exists i :: i in Hits(g, n) && f(i) == b {
      InjectiveIsOnto(f, n, b);
      var i: nat :| i < n && f(i) == b;
      assert i in Hits(g, n);
    }
  }

  lemma PermutedCount(p: nat -> bool, f: nat -> nat, g: nat -> bool, n: nat)
    requires InjectiveBelow(f, n) && forall i: nat :: i < n ==> g(i) == p(f(i))
    ensures Count(g, n) == Count(p, n)
  {
    PermutedHits(p, f, g, n);
    ImageSize(Hits(g, n), f, Hits(p, n));
  }

  // ---------- Sums ----------

  function Sum(xs: seq<nat>): nat
  {
    if xs == [] then 0 else Sum(xs[..|xs| - 1]) + xs[|xs| - 1]
  }

  /** With AppendSum this fixes what a sum is. */
  lemma SumOfOne(x: nat)
    ensures Sum([]) == 0 && Sum([x]) == x
  {
    assert [x][..0] == [];
  }

  lemma {:induction false} SumUpdate(xs: seq<nat>, i: nat, v: nat)
    requires i < |xs|
    ensures Sum(xs[i := v]) == Sum(xs) - xs[i] + v
  {
    var n := |xs| - 1;
    if i == n {
      assert xs[i := v][..n] == xs[..n];
    } else {
      SumUpdate(xs[..n], i, v);
      assert xs[i := v][..n] == xs[..n][i := v];
    }
  }

  lemma {:induction false} AppendSum(xs: seq<nat>, ys: seq<nat>)
    ensures Sum(xs + ys) == Sum(xs) + Sum(ys)
  {
    if ys == [] {
      assert xs + ys == xs;
    } else {
      AppendSum(xs, ys[..|ys| - 1]);
      assert (xs + ys)[..|xs + ys| - 1] == xs + ys[..|ys| - 1];
    }
  }

  lemma {:induction false} SumZeros(xs: seq<nat>)
    requires forall i :: 0 <= i < |xs| ==> xs[i] == 0
    ensures Sum(xs) == 0
  {
    if xs != [] {
      SumZeros(xs[..|xs| - 1]);
    }
  }

  lemma {:induction false} ZeroSum(xs: seq<nat>)
    requires Sum(xs) == 0
    ensures forall i :: 0 <= i < |xs| ==> xs[i] == 0
  {
    if xs != [] {
      ZeroSum(xs[..|xs| - 1]);
    }
  }

  lemma {:induction false} SomePositive(xs: seq<nat>) returns (i: nat)
    requires Sum(xs) > 0
    ensures i < |xs| && xs[i] > 0
  {
    if xs[|xs| - 1] > 0 {
      i := |xs| - 1;
    } else {
      i := SomePositive(xs[..|xs| - 1]);
    }
  }
}
