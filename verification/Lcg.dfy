/** The linear congruential generator that drives the op sampler, and how often its low bits hit
    each table slot. */
module Lcg {
  import opened Counting
  import opened Slots
  import opened OpMix

  const MULTIPLIER: nat := 1664525
  const INCREMENT: nat := 1013904223
  const WORD: nat := 0x1_0000_0000

  /** One step of the recurrence in uint32_t arithmetic. */
  function Next(x: nat): nat { (x * MULTIPLIER + INCREMENT) % WORD }

  /** The j-th value after `seed`. */
  function Draw(seed: nat, j: nat): nat
  {
    if j == 0 then seed else Next(Draw(seed, j - 1))
  }

  /** The first draws from seed 0. */
  lemma KnownDraws(seed: nat)
    requires seed == 0
    ensures Draw(seed, 1) == 1013904223 && Draw(seed, 2) == 1196435762 && Draw(seed, 3) == 3519870697
  {
    assert Draw(seed, 1) == Next(0) == 1013904223;
    assert Draw(seed, 2) == Next(1013904223) == 1196435762;
    assert Draw(seed, 3) == Next(1196435762) == 3519870697;
  }

  // ---------- Low bits and divisibility by powers of two ----------

  /** The low k bits. */
  function Low(x: int, k: nat): nat
    decreases k, x
  {
    if k == 0 then 0 else x % 2 + 2 * Low(x / 2, k - 1)
  }

  /** Divisibility by 2^k. */
  predicate Divisible(d: int, k: nat)
    decreases k, d
  {
    k == 0 || (d % 2 == 0 && Divisible(d / 2, k - 1))
  }

  lemma {:induction false} SameLowBits(x: int, y: int, k: nat)
    ensures Low(x, k) == Low(y, k) <==> Divisible(x - y, k)
    decreases k
  {
    if k > 0 {
      SameLowBits(x / 2, y / 2, k - 1);
      if x % 2 == y % 2 {
        assert (x - y) / 2 == x / 2 - y / 2;
      }
    }
  }

  lemma {:induction false} DivisibleMultiple(a: int, d: int, k: nat)
    requires Divisible(d, k)
    ensures Divisible(a * d, k)
    decreases k
  {
    if k > 0 {
      DivisibleMultiple(a, d / 2, k - 1);
      assert a * d == 2 * (a * (d / 2)) by { assert d == 2 * (d / 2); }
    }
  }

  lemma {:induction false} LowOfLow(x: int, m: nat, k: nat)
    requires k <= m
    ensures Low(Low(x, m), k) == Low(x, k)
    decreases k
  {
    if k > 0 {
      LowOfLow(x / 2, m - 1, k - 1);
      assert Low(x, m) == x % 2 + 2 * Low(x / 2, m - 1);
    }
  }

  // ---------- The recurrence over the integers ----------

  /** The map x -> a*x + c, iterated n times. */
  function Iter(a: int, c: int, x: int, n: nat): int
  {
    if n == 0 then x else a * Iter(a, c, x, n - 1) + c
  }

  lemma {:induction false} IterSplit(a: int, c: int, x: int, n: nat, m: nat)
    ensures Iter(a, c, x, n + m) == Iter(a, c, Iter(a, c, x, n), m)
  {
    if m > 0 {
      IterSplit(a, c, x, n, m - 1);
    }
  }

  /** n steps with a = 1 (mod 4) and odd c move x by n and some even amount. */
  lemma {:induction false} IterParity(q: int, h: int, x: int, n: nat) returns (e: int)
    ensures Iter(4 * q + 1, 2 * h + 1, x, n) == x + n + 2 * e
  {
    if n == 0 {
      e := 0;
    } else {
      e := IterParity(q, h, x, n - 1);
      var y := Iter(4 * q + 1, 2 * h + 1, x, n - 1);
      assert (4 * q + 1) * y == 4 * (q * y) + y;
      e := e + 2 * (q * y) + h;
    }
  }

  /** Two steps of x -> a*x + c move x by twice a step of another map of the same kind. */
  lemma {:induction false} IterTwice(a: int, c: int, x: int, m: nat, b: int, g: int)
    requires a == 2 * b + 1 && g == c * (b + 1) + (2 * (b * b) + 2 * b) * x
    ensures Iter(a, c, x, 2 * m) == x + 2 * Iter(a * a, g, 0, m)
  {
    if m > 0 {
      IterTwice(a, c, x, m - 1, b, g);
      var z := Iter(a * a, g, 0, m - 1);
      var y := Iter(a, c, x, 2 * m - 2);
      assert Iter(a, c, x, 2 * m - 1) == a * y + c;
      TwoSteps(a, c, x, b, z);
    }
  }

  lemma TwoSteps(a: int, c: int, x: int, b: int, z: int)
    requires a == 2 * b + 1
    ensures a * (a * (x + 2 * z) + c) + c == x + 2 * ((a * a) * z + (c * (b + 1) + (2 * (b * b) + 2 * b) * x))
  {
    ScaleTwice(a, c, x + 2 * z);
    Square(b, x);
    assert (a * a) * (x + 2 * z) == (a * a) * x + 2 * ((a * a) * z);
    assert c * (a + 1) == 2 * (c * (b + 1));
  }

  lemma ScaleTwice(a: int, c: int, y: int)
    ensures a * (a * y + c) + c == (a * a) * y + c * (a + 1)
  {
  }

  lemma Square(b: int, x: int)
    ensures var a := 2 * b + 1; (a * a) * x == x + 2 * ((2 * (b * b) + 2 * b) * x)
  {
    var a := 2 * b + 1;
    assert a * a == 2 * (2 * (b * b) + 2 * b) + 1;
  }

  /** Hull-Dobell in exact form: if a = 1 (mod 4) and c is odd, n steps bring the low k bits of any
      x back if and only if 2^k divides n. */
  lemma {:induction false} ReturnsIff(q: int, h: int, x: int, n: nat, k: nat)
    ensures Divisible(Iter(4 * q + 1, 2 * h + 1, x, n) - x, k) <==> Divisible(n, k)
    decreases k
  {
    if k > 0 {
      if n % 2 == 1 {
        var e := IterParity(q, h, x, n);
        NotEven(Iter(4 * q + 1, 2 * h + 1, x, n) - x, n / 2 + e);
      } else {
        var q', h' := SquareKeepsForm(q, h, x, n / 2);
        ReturnsIff(q', h', 0, n / 2, k - 1);
        HalfDivisible(Iter(4 * q + 1, 2 * h + 1, x, n) - x, Iter(4 * q' + 1, 2 * h' + 1, 0, n / 2), k);
      }
    }
  }

  lemma NotEven(d: int, e: int)
    requires d == 2 * e + 1
    ensures d % 2 == 1
  {
  }

  lemma HalfDivisible(d: int, e: int, k: nat)
    requires d == 2 * e && k > 0
    ensures Divisible(d, k) <==> Divisible(e, k - 1)
  {
  }

  lemma SquareKeepsForm(q: int, h: int, x: int, m: nat) returns (q': int, h': int)
    ensures Iter(4 * q + 1, 2 * h + 1, x, 2 * m) == x + 2 * Iter(4 * q' + 1, 2 * h' + 1, 0, m)
  {
    var a, c, b := 4 * q + 1, 2 * h + 1, 2 * q;
    var w := 4 * (q * q) + 2 * q;
    q', h' := w, 2 * (h * q) + h + q + w * x;
    var g := c * (b + 1) + (2 * (b * b) + 2 * b) * x;
    assert b * b == 4 * (q * q);
    assert a * a == 4 * q' + 1;
    assert c * (b + 1) == 4 * (h * q) + 2 * h + 2 * q + 1;
    assert 2 * (b * b) + 2 * b == 2 * w;
    assert (2 * w) * x == 2 * (w * x);
    assert g == 2 * h' + 1;
    IterTwice(a, c, x, m, b, g);
  }

  // ---------- The generator ----------

  lemma {:induction false} LowAffine(a: int, c: int, x: int, y: int, k: nat)
    requires Low(x, k) == Low(y, k)
    ensures Low(a * x + c, k) == Low(a * y + c, k)
  {
    SameLowBits(x, y, k);
    DivisibleMultiple(a, x - y, k);
    assert (a * x + c) - (a * y + c) == a * (x - y);
    SameLowBits(a * x + c, a * y + c, k);
  }

  lemma {:induction false} LowIsMod(x: int, k: nat)
    ensures 0 < Pow2(k) && Low(x, k) == x % Pow2(k)
    decreases k
  {
    if k > 0 {
      LowIsMod(x / 2, k - 1);
      ModDouble(x, Pow2(k - 1));
    }
  }

  lemma ModDouble(x: int, p: nat)
    requires 0 < p
    ensures x % (2 * p) == 2 * ((x / 2) % p) + x % 2
  {
    var q, r := (x / 2) / p, (x / 2) % p;
    assert x / 2 == q * p + r;
    assert x == q * (2 * p) + (2 * r + x % 2) by { assert q * (2 * p) == 2 * (q * p); }
    DivModUnique(x, 2 * p, q, 2 * r + x % 2);
  }

  /** The low k <= 32 bits of the generator follow the recurrence over the integers. */
  lemma {:induction false} DrawFollowsIter(seed: nat, j: nat, k: nat)
    requires k <= 32
    ensures Low(Draw(seed, j), k) == Low(Iter(MULTIPLIER, INCREMENT, seed, j), k)
  {
    if j > 0 {
      var x, y := Draw(seed, j - 1), Iter(MULTIPLIER, INCREMENT, seed, j - 1);
      DrawFollowsIter(seed, j - 1, k);
      LowAffine(MULTIPLIER, INCREMENT, x, y, k);
      WordIsLow32(x * MULTIPLIER + INCREMENT);
      LowOfLow(x * MULTIPLIER + INCREMENT, 32, k);
    }
  }

  lemma WordIsLow32(x: int)
    ensures x % WORD == Low(x, 32)
  {
    LowIsMod(x, 32);
    assert Pow2(8) == 256 && Pow2(16) == 65536 && Pow2(24) == 0x100_0000 && Pow2(32) == WORD;
  }

  /** Full period: two draws agree in their low k bits exactly when their distance is a multiple
      of 2^k. */
  lemma FullPeriod(seed: nat, i: nat, j: nat, k: nat)
    requires i <= j && k <= 32
    ensures Low(Draw(seed, i), k) == Low(Draw(seed, j), k) <==> Divisible(j - i, k)
  {
    hide Iter, Low, Divisible, Draw;
    DrawFollowsIter(seed, i, k);
    DrawFollowsIter(seed, j, k);
    PeriodOverIntegers(MULTIPLIER / 4, INCREMENT / 2, seed, i, j, k);
  }

  lemma DivisibleIsMod(d: int, k: nat)
    ensures Divisible(d, k) <==> d % Pow2(k) == 0
  {
    hide Low, Divisible, Pow2;
    SameLowBits(d, 0, k);
    LowIsMod(d, k);
    LowIsMod(0, k);
    ZeroMod(Pow2(k));
  }

  lemma ZeroMod(m: nat)
    requires m > 0
    ensures 0 % m == 0
  {
  }

  /** The same in terms of remainders. */
  lemma PeriodIsExact(seed: nat, i: nat, j: nat, k: nat)
    requires i <= j && k <= 32
    ensures Draw(seed, i) % Pow2(k) == Draw(seed, j) % Pow2(k) <==> (j - i) % Pow2(k) == 0
  {
    hide Draw, Low, Divisible;
    FullPeriod(seed, i, j, k);
    LowIsMod(Draw(seed, i), k);
    LowIsMod(Draw(seed, j), k);
    DivisibleIsMod(j - i, k);
  }

  lemma PeriodOverIntegers(q: int, h: int, seed: int, i: nat, j: nat, k: nat)
    requires i <= j
    ensures Low(Iter(4 * q + 1, 2 * h + 1, seed, i), k) == Low(Iter(4 * q + 1, 2 * h + 1, seed, j), k)
            <==> Divisible(j - i, k)
  {
    hide Iter, Low, Divisible;
    var a, c := 4 * q + 1, 2 * h + 1;
    var x, y := Iter(a, c, seed, i), Iter(a, c, seed, j);
    IterSplit(a, c, seed, i, j - i);
    ReturnsIff(q, h, x, j - i, k);
    SameLowBits(y, x, k);
  }

  lemma {:induction false} LowBounded(x: int, k: nat)
    ensures Low(x, k) < Pow2(k)
    decreases k
  {
    if k > 0 {
      LowBounded(x / 2, k - 1);
    }
  }

  lemma {:induction false} SmallNotDivisible(d: nat, k: nat)
    requires 0 < d < Pow2(k)
    ensures !Divisible(d, k)
    decreases k
  {
    if k > 0 && d % 2 == 0 {
      SmallNotDivisible(d / 2, k - 1);
    }
  }

  /** The low k bits of the i-th draw of a window. */
  function Pattern(seed: nat, start: nat, k: nat, i: nat): nat { Low(Draw(seed, start + i), k) }

  lemma WindowIsInjective(seed: nat, start: nat, k: nat, f: nat -> nat, n: nat)
    requires k <= 32 && n == Pow2(k) && forall i: nat :: f(i) == Pattern(seed, start, k, i)
    ensures InjectiveBelow(f, n)
  {
    forall i: nat, j: nat | i < j < n ensures f(i) != f(j) {
      PatternsDiffer(seed, start, i, j, k);
    }
    forall i: nat | i < n ensures f(i) < n {
      LowBounded(Draw(seed, start + i), k);
    }
  }

  /** Any 2^k consecutive draws show every k-bit pattern exactly once. */
  lemma EveryPatternOnce(seed: nat, start: nat, k: nat, b: nat)
    requires k <= 32 && b < Pow2(k)
    ensures exists i: nat :: i < Pow2(k) && Pattern(seed, start, k, i) == b
    ensures forall i: nat, j: nat :: i < j < Pow2(k) ==> Pattern(seed, start, k, i) != Pattern(seed, start, k, j)
  {
    var n, f := Pow2(k), (i: nat) => Pattern(seed, start, k, i);
    WindowIsInjective(seed, start, k, f, n);
    InjectiveIsOnto(f, n, b);
    var i: nat :| i < n && f(i) == b;
    assert Pattern(seed, start, k, i) == b;
    forall i: nat, j: nat | i < j < n ensures Pattern(seed, start, k, i) != Pattern(seed, start, k, j) {
      assert f(i) != f(j);
    }
  }

  lemma PatternsDiffer(seed: nat, start: nat, i: nat, j: nat, k: nat)
    requires k <= 32 && i < j < Pow2(k)
    ensures Pattern(seed, start, k, i) != Pattern(seed, start, k, j)
  {
    FullPeriod(seed, start + i, start + j, k);
    SmallNotDivisible(j - i, k);
  }

  // ---------- How often each op is issued ----------

  /** The op of each query of a stream that starts from `seed`. */
  function OpStream(table: nat -> Op, seed: nat): nat -> Op
  {
    (i: nat) => table(Draw(seed, i + 1) % BINS)
  }

  /** The pregeneration loop of the open-loop mode: one draw and one table lookup per query. */
  method ChooseOps(m: Mix, seed: nat, n: nat) returns (choice: array<Op>)
    ensures fresh(choice) && choice.Length == n
    ensures forall i: nat :: i < n ==> choice[i] == OpStream(Table(m), seed)(i)
  {
    var sampler := new OpMixSampler(m);
    choice := new Op[n];
    var lcg := seed;
    for i := 0 to n
      invariant lcg == Draw(seed, i)
      invariant forall j: nat :: j < BINS ==> sampler.table[j] == OpAt(m, j)
      invariant forall j: nat :: j < i ==> choice[j] == OpStream(Table(m), seed)(j)
    {
      lcg := Next(lcg);
      choice[i] := sampler.table[lcg % BINS];
    }
  }

  function From(ops: nat -> Op, start: nat, i: nat): Op { ops(start + i) }

  /** How many of the n queries from `start` on are `op`. */
  function Issued(ops: nat -> Op, start: nat, n: nat, op: Op): (c: nat)
    ensures c <= n
    decreases n, op
  {
    if n == 0 then 0
    else Issued(ops, start, n - 1, op) + if From(ops, start, n - 1) == op then 1 else 0
  }

  lemma {:induction false} IssuedSplit(ops: nat -> Op, start: nat, n: nat, n': nat, op: Op)
    ensures Issued(ops, start, n + n', op) == Issued(ops, start, n, op) + Issued(ops, start + n, n', op)
  {
    if n' > 0 {
      IssuedSplit(ops, start, n, n' - 1, op);
      assert From(ops, start, n + n' - 1) == From(ops, start + n, n' - 1);
    }
  }

  lemma {:induction false} IssuedIsCount(ops: nat -> Op, start: nat, n: nat, op: Op, p: nat -> bool)
    requires forall i: nat :: p(i) == (From(ops, start, i) == op)
    ensures Issued(ops, start, n, op) == Count(p, n)
  {
    if n > 0 {
      IssuedIsCount(ops, start, n - 1, op, p);
    }
  }

  lemma {:induction false} BinsIsCount(table: nat -> Op, op: Op, hi: nat, p: nat -> bool)
    requires forall b: nat :: p(b) == (table(b) == op)
    ensures Bins(table, op, hi) == Count(p, hi)
  {
    if hi > 0 {
      BinsIsCount(table, op, hi - 1, p);
    }
  }

  /** A stream that visits each of n table entries once issues each op as often as the table
      holds it. */
  lemma OnceEach(ops: nat -> Op, start: nat, table: nat -> Op, f: nat -> nat, n: nat, op: Op)
    requires InjectiveBelow(f, n) && forall i: nat :: From(ops, start, i) == table(f(i))
    ensures Issued(ops, start, n, op) == Bins(table, op, n)
  {
    var p := (b: nat) => table(b) == op;
    var g := (i: nat) => From(ops, start, i) == op;
    PermutedCount(p, f, g, n);
    IssuedIsCount(ops, start, n, op, g);
    BinsIsCount(table, op, n, p);
  }

  lemma TenBits()
    ensures Pow2(10) == BINS
  {
    assert Pow2(5) == 32;
  }

  lemma DrawnByPattern(table: nat -> Op, seed: nat, start: nat, i: nat)
    ensures From(OpStream(table, seed), start, i) == table(Pattern(seed, start + 1, 10, i))
  {
    assert start + i + 1 == start + 1 + i;
    LowIsMod(Draw(seed, start + 1 + i), 10);
    TenBits();
  }

  lemma DrawnIsInTable(m: Mix, seed: nat, i: nat)
    ensures InTable(m, OpStream(Table(m), seed)(i))
  {
    var b := Draw(seed, i + 1) % BINS;
    assert b < BINS && OpAt(m, b) == OpStream(Table(m), seed)(i);
  }

  /** Whatever the seed, the first 1024 queries draw every table entry. */
  lemma EveryBinIsDrawn(table: nat -> Op, seed: nat, b: nat) returns (a: nat)
    requires b < BINS
    ensures a < BINS && OpStream(table, seed)(a) == table(b)
  {
    TenBits();
    EveryPatternOnce(seed, 1, 10, b);
    a :| a < BINS && Pattern(seed, 1, 10, a) == b;
    DrawnByPattern(table, seed, 0, a);
  }

  /** Over any 1024 consecutive queries each op is issued exactly as often as it has bins. */
  lemma WindowIsExact(table: nat -> Op, seed: nat, start: nat, op: Op)
    ensures Issued(OpStream(table, seed), start, BINS, op) == Bins(table, op, BINS)
  {
    var f := (i: nat) => Pattern(seed, start + 1, 10, i);
    TenBits();
    WindowIsInjective(seed, start + 1, 10, f, BINS);
    forall i: nat ensures From(OpStream(table, seed), start, i) == table(f(i)) {
      DrawnByPattern(table, seed, start, i);
    }
    OnceEach(OpStream(table, seed), start, table, f, BINS, op);
  }

  function Times(q: nat, b: nat): nat { if q == 0 then 0 else Times(q - 1, b) + b }

  lemma {:induction false} TimesIsProduct(q: nat, b: nat)
    ensures Times(q, b) == q * b
  {
    if q > 0 {
      TimesIsProduct(q - 1, b);
      assert q * b == (q - 1) * b + b;
    }
  }

  lemma {:induction false} WindowsAddUp(ops: nat -> Op, start: nat, w: nat, q: nat, r: nat, op: Op, bins: nat)
    requires r < w && forall s: nat :: Issued(ops, s, w, op) == bins
    ensures Times(q, bins) <= Issued(ops, start, Times(q, w) + r, op)
            <= Times(q, bins) + (if r < bins then r else bins)
    decreases q
  {
    hide Issued;
    if q == 0 {
      IssuedSplit(ops, start, r, w - r, op);
    } else {
      WindowsAddUp(ops, start + w, w, q - 1, r, op, bins);
      IssuedSplit(ops, start, w, Times(q - 1, w) + r, op);
      assert w + (Times(q - 1, w) + r) == Times(q, w) + r;
    }
  }

  /** A shard of 1024*q + r queries issues an op q times its bins, and in the last partial window at
      most min(r, bins) times more. */
  lemma ShardFrequencies(m: Mix, seed: nat, start: nat, q: nat, r: nat, op: Op)
    requires r < BINS
    ensures var (bins, n) := (Bins(Table(m), op, BINS), Issued(OpStream(Table(m), seed), start, q * BINS + r, op));
            q * bins <= n <= q * bins + (if r < bins then r else bins)
  {
    hide Issued, OpStream, Table, Bins;
    var bins := Bins(Table(m), op, BINS);
    AllWindows(Table(m), seed, op);
    WindowsAddUp(OpStream(Table(m), seed), start, BINS, q, r, op, bins);
    TimesIsProduct(q, BINS);
    TimesIsProduct(q, bins);
  }

  lemma AllWindows(table: nat -> Op, seed: nat, op: Op)
    ensures forall s: nat :: Issued(OpStream(table, seed), s, BINS, op) == Bins(table, op, BINS)
  {
    forall s: nat ensures Issued(OpStream(table, seed), s, BINS, op) == Bins(table, op, BINS) {
      WindowIsExact(table, seed, s, op);
    }
  }
}
