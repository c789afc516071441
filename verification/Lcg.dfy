/** The 31-bit linear congruential generator of the chess port and of the shooter. */
module Lcg {
  import opened Numbers

  const A: nat := 1103515245
  const C: nat := 12345
  const M: nat := 0x8000_0000
  const U64: nat := 0x1_0000_0000_0000_0000
  const I64_MAX: nat := 0x7fff_ffff_ffff_ffff

  /** The exact recurrence. */
  function Next(x: nat): (r: nat)
    ensures r < M
  {
    (x * A + C) % M
  }

  function Iterate(x: nat, n: nat): nat {
    if n == 0 then x else Next(Iterate(x, n - 1))
  }

  /** The recurrence as unsigned 64-bit arithmetic computes it, wrapping around. */
  function NextWrapping(x: nat): nat {
    (((x * A) % U64 + C) % U64) % M
  }

  // ----- arithmetic

  ghost predicate Divides(d: nat, a: int) {
    exists q: int :: Times(d, q) == a
  }

  function Times(a: int, b: int): int {
    a * b
  }

  function Pow2(k: nat): nat {
    if k == 0 then 1 else 2 * Pow2(k - 1)
  }

  lemma TimesHalf(k: nat, q: int)
    ensures Times(Pow2(k + 1), q) == 2 * Times(Pow2(k), q)
  {
    var p := Pow2(k);
    assert (2 * p) * q == 2 * (p * q);
  }

  lemma ModEqual(a: int, b: int, m: nat)
    requires m > 0
    ensures a % m == b % m <==> Divides(m, a - b)
  {
    if a % m == b % m {
      assert a - b == Times(m, a / m - b / m);
    }
    if Divides(m, a - b) {
      var q: int :| Times(m, q) == a - b;
      DivUnique(a, m, b / m + q, b % m);
    }
  }

  lemma DividesMul(d: nat, a: int, b: int)
    requires Divides(d, a)
    ensures Divides(d, a * b)
  {
    var q: int :| Times(d, q) == a;
    assert Times(d, q * b) == a * b;
  }

  /** An odd factor adds no power of two. */
  lemma {:induction false} OddFactor(k: nat, a: int, b: int)
    requires b % 2 == 1 && Divides(Pow2(k), a * b)
    ensures Divides(Pow2(k), a)
  {
    if k == 0 {
      assert Times(1, a) == a;
    } else {
      var q: int :| Times(Pow2(k), q) == a * b;
      TimesHalf(k - 1, q);
      EvenFactor(a, b, Times(Pow2(k - 1), q));
      var h := a / 2;
      assert a == 2 * h && (2 * h) * b == 2 * (h * b);
      assert Times(Pow2(k - 1), q) == h * b;
      OddFactor(k - 1, h, b);
      var p: int :| Times(Pow2(k - 1), p) == h;
      TimesHalf(k - 1, p);
      assert Times(Pow2(k), p) == a;
    }
  }

  lemma EvenFactor(a: int, b: int, c: int)
    requires b % 2 == 1 && a * b == 2 * c
    ensures a % 2 == 0
  {
    var x, y, e := a / 2, b / 2, a % 2;
    assert a == 2 * x + e && b == 2 * y + 1;
    assert (2 * x + e) * (2 * y + 1) == 2 * (x * (2 * y + 1)) + e * (2 * y) + e;
    assert e * (2 * y) == 2 * (e * y);
  }

  // ----- the sum 1 + A + A*A + ...

  function Sum(n: nat): nat {
    SumOf(A, n)
  }

  function SumOf(a: nat, n: nat): nat {
    if n == 0 then 0 else a * SumOf(a, n - 1) + 1
  }

  lemma AddStep(a: int, s: int, t: int)
    ensures a * (s + t + (a - 1) * (s * t)) + 1 == (a * s + 1) + t + (a - 1) * ((a * s + 1) * t)
  {
    var p := s * t;
    assert (a * s + 1) * t == a * p + t by {
      assert (a * s) * t == a * p;
    }
    assert (a - 1) * (a * p + t) == a * ((a - 1) * p) + (a - 1) * t by {
      assert (a - 1) * (a * p) == a * ((a - 1) * p);
    }
    assert a * (s + t + (a - 1) * p) == a * s + a * t + a * ((a - 1) * p);
  }

  lemma {:induction false} SumAdd(a: nat, m: nat, n: nat)
    ensures SumOf(a, m + n) == SumOf(a, m) + SumOf(a, n) + (a - 1) * (SumOf(a, m) * SumOf(a, n))
  {
    if m > 0 {
      SumAdd(a, m - 1, n);
      AddStep(a, SumOf(a, m - 1), SumOf(a, n));
    }
  }

  /** Doubling the length doubles the sum, up to an odd factor. */
  lemma SumDouble(n: nat) returns (u: nat)
    ensures u % 2 == 1 && Sum(n + n) == 2 * (Sum(n) * u)
  {
    SumAdd(A, n, n);
    u := 2 * (275878811 * Sum(n)) + 1;
    DoubleFactor(275878811, Sum(n));
  }

  lemma DoubleFactor(c: nat, s: nat)
    ensures s + s + (4 * c) * (s * s) == 2 * (s * (2 * (c * s) + 1))
  {
    var p := c * s;
    assert (4 * c) * (s * s) == 4 * (p * s);
    assert s * (2 * p + 1) == 2 * (p * s) + s;
  }

  lemma ParityStep(s: nat, m: nat)
    requires s % 2 == m % 2
    ensures (A * s + 1) % 2 == (m + 1) % 2
  {
    var e := s % 2;
    var half := 551757622 * s + s / 2;
    assert s == 2 * (s / 2) + e && A * s + 1 == 2 * half + (e + 1);
    EvenMore(half, e + 1);
    EvenMore(m / 2, e + 1);
    assert m + 1 == 2 * (m / 2) + (e + 1);
  }

  lemma EvenMore(half: nat, x: nat)
    ensures (2 * half + x) % 2 == x % 2
  {
  }

  lemma {:induction false} SumParity(n: nat)
    ensures Sum(n) % 2 == n % 2
  {
    if n > 0 {
      SumParity(n - 1);
      ParityStep(Sum(n - 1), n - 1);
    }
  }

  lemma HalfFactor(k: nat, q: int, s: nat, u: nat)
    requires u % 2 == 1 && 2 * Times(Pow2(k), q) == 2 * (s * u)
    ensures Divides(Pow2(k), s)
  {
    assert Times(Pow2(k), q) == s * u;
    OddFactor(k, s, u);
  }

  lemma HalfSum(k: nat, n: nat)
    requires Divides(Pow2(k + 1), Sum(n))
    ensures n % 2 == 0 && Divides(Pow2(k), Sum(n / 2))
  {
    var q: int :| Times(Pow2(k + 1), q) == Sum(n);
    assert Sum(n) == 2 * Times(Pow2(k), q) by {
      TimesHalf(k, q);
    }
    SumEven(n);
    HalfSumFactor(k, q, n / 2);
  }

  lemma SumEven(n: nat)
    requires exists h: int :: Sum(n) == 2 * h
    ensures n == n / 2 + n / 2
  {
    SumParity(n);
  }

  lemma HalfSumFactor(k: nat, q: int, h: nat)
    requires Sum(h + h) == 2 * Times(Pow2(k), q)
    ensures Divides(Pow2(k), Sum(h))
  {
    var u := SumDouble(h);
    HalfFactor(k, q, Sum(h), u);
  }

  lemma DoubleDivides(k: nat, h: nat)
    requires Divides(Pow2(k), h)
    ensures Divides(Pow2(k + 1), 2 * h)
  {
    var p: int :| Times(Pow2(k), p) == h;
    TimesHalf(k, p);
  }

  /** The sum of `n` terms is divisible by exactly the powers of two that divide `n`. */
  lemma {:induction false} SumValuation(k: nat, n: nat)
    requires Divides(Pow2(k), Sum(n))
    ensures Divides(Pow2(k), n)
  {
    if k == 0 {
      assert Times(1, n) == n;
    } else {
      HalfSum(k - 1, n);
      SumValuation(k - 1, n / 2);
      DoubleDivides(k - 1, n / 2);
    }
  }

  lemma {:induction false} SumValuationConverse(k: nat, n: nat)
    requires Divides(Pow2(k), n)
    ensures Divides(Pow2(k), Sum(n))
  {
    if k == 0 {
      assert Times(1, Sum(n)) == Sum(n);
    } else {
      var q: int :| Times(Pow2(k), q) == n;
      TimesHalf(k - 1, q);
      var h := n / 2;
      assert n == h + h && Times(Pow2(k - 1), q) == h;
      SumValuationConverse(k - 1, h);
      var u := SumDouble(h);
      DividesMul(Pow2(k - 1), Sum(h), u);
      var p: int :| Times(Pow2(k - 1), p) == Sum(h) * u;
      TimesHalf(k - 1, p);
      assert Times(Pow2(k), p) == Sum(n);
    }
  }

  // ----- the orbit

  /** How far `n` steps move the state, before reduction. */
  lemma {:induction false} IterateClosed(x: nat, n: nat)
    requires x < M
    ensures Divides(M, Iterate(x, n) - x - Sum(n) * ((A - 1) * x + C))
  {
    var d := (A - 1) * x + C;
    if n == 0 {
      assert Times(M, 0) == 0;
    } else {
      IterateClosed(x, n - 1);
      var y, s := Iterate(x, n - 1), Sum(n - 1);
      var q: int :| Times(M, q) == y - x - s * d;
      var r := (y * A + C) / M;
      OneStep(x, y, s, q, d);
      assert Iterate(x, n) - x - Sum(n) * d == Times(M, q * A - r);
    }
  }

  lemma OneStep(x: nat, y: nat, s: nat, q: int, d: nat)
    requires d == (A - 1) * x + C && Times(M, q) == y - x - s * d
    ensures Next(y) - x - (A * s + 1) * d == Times(M, q * A - (y * A + C) / M)
  {
    var p := s * d;
    assert (A * s + 1) * d == A * p + d by {
      assert (A * s) * d == A * p;
    }
    assert y * A + C == x + (A * p + d) + M * (q * A);
  }

  lemma {:induction false} IterateAdd(x: nat, m: nat, n: nat)
    ensures Iterate(Iterate(x, m), n) == Iterate(x, m + n)
  {
    if n > 0 {
      IterateAdd(x, m, n - 1);
    }
  }

  lemma {:induction false} IterateRange(x: nat, n: nat)
    requires x < M
    ensures Iterate(x, n) < M
  {
  }

  lemma ModulusIsPower()
    ensures Pow2(31) == M
  {
    assert Pow2(8) == 256;
    assert Pow2(16) == 65536;
    assert Pow2(24) == 16777216;
  }

  /** A state comes back after `n` steps exactly when 2^31 divides `n`. */
  lemma ReturnsExactly(x: nat, n: nat)
    requires x < M
    ensures Iterate(x, n) == x <==> Divides(M, n)
  {
    IterateClosed(x, n);
    IterateRange(x, n);
    ModulusIsPower();
    var d := (A - 1) * x + C;
    OddDistance(x);
    var q: int :| Times(M, q) == Iterate(x, n) - x - Sum(n) * d;
    if Iterate(x, n) == x {
      assert Times(Pow2(31), -q) == Sum(n) * d;
      OddFactor(31, Sum(n), d);
      SumValuation(31, n);
    }
    if Divides(M, n) {
      SumValuationConverse(31, n);
      DividesMul(Pow2(31), Sum(n), d);
      var p: int :| Times(M, p) == Sum(n) * d;
      SameResidue(Iterate(x, n), x, p, q);
    }
  }

  lemma OddDistance(x: nat)
    ensures ((A - 1) * x + C) % 2 == 1
  {
    assert A - 1 == 2 * 551757622;
    assert (A - 1) * x + C == 2 * (551757622 * x + 6172) + 1;
  }

  lemma SameResidue(y: nat, x: nat, p: int, q: int)
    requires x < M && y < M && Times(M, q) == y - x - Times(M, p)
    ensures y == x
  {
    assert y == x + M * (p + q);
    DivUnique(y, M, p + q, x);
    DivUnique(y, M, 0, y);
  }

  lemma NotDivided(n: nat)
    requires 0 < n < M
    ensures !Divides(M, n)
  {
    if Divides(M, n) {
      var q: int :| Times(M, q) == n;
      MulAtLeast(M, q);
      assert false;
    }
  }

  // ----- every state is visited

  ghost predicate Distinct(s: seq<nat>) {
    forall i, j :: 0 <= i < j < |s| ==> s[i] != s[j]
  }

  function Members(s: seq<nat>): set<nat> {
    set x | x in s
  }

  lemma {:induction false} DistinctSize(s: seq<nat>)
    requires Distinct(s)
    ensures |Members(s)| == |s|
  {
    if s != [] {
      var n := |s| - 1;
      DistinctSize(s[..n]);
      assert s == s[..n] + [s[n]];
      assert Members(s) == Members(s[..n]) + {s[n]};
      assert s[n] !in Members(s[..n]);
    }
  }

  lemma {:induction false} SubsetSize(a: set<nat>, b: set<nat>)
    requires a <= b && |a| == |b|
    ensures a == b
  {
    if y :| y in b && y !in a {
      SubsetAtMost(a, b - {y});
    }
  }

  lemma {:induction false} SubsetAtMost(a: set<nat>, b: set<nat>)
    requires a <= b
    ensures |a| <= |b|
    decreases a
  {
    if a != {} {
      var x :| x in a;
      SubsetAtMost(a - {x}, b - {x});
    }
  }

  /** `n` different numbers below `n` are all the numbers below `n`. */
  lemma Pigeonhole(s: seq<nat>, y: nat)
    requires Distinct(s) && (forall i :: 0 <= i < |s| ==> s[i] < |s|) && y < |s|
    ensures y in s
  {
    DistinctSize(s);
    var all := Members(s);
    SubsetSize(all, Below(|s|));
    assert y in all;
  }

  /** From any state, the generator visits every one of the 2^31 states before it repeats
      the first, and repeats none on the way. */
  lemma FullPeriod(x: nat, y: nat)
    requires x < M && y < M
    ensures exists n :: 0 <= n < M && Iterate(x, n) == y
    ensures forall i, j :: 0 <= i < j < M ==> Iterate(x, i) != Iterate(x, j)
    ensures Iterate(x, M) == x
  {
    forall i: nat, j: nat | i < j < M ensures Iterate(x, i) != Iterate(x, j) {
      IterateRange(x, i);
      IterateAdd(x, i, j - i);
      ReturnsExactly(Iterate(x, i), j - i);
      NotDivided(j - i);
    }
    var orbit := seq(M, n requires 0 <= n < M => Iterate(x, n));
    forall n | 0 <= n < M ensures orbit[n] < M {
      IterateRange(x, n);
    }
    Pigeonhole(orbit, y);
    var n :| 0 <= n < M && orbit[n] == y;
    ReturnsExactly(x, M);
    assert Times(M, 1) == M;
  }

  // ----- the two implementations

  /** Wrapping 64-bit arithmetic gives the exact recurrence for every seed, because the
      modulus divides 2^64. */
  lemma WrappingIsExact(x: nat)
    ensures NextWrapping(x) == Next(x)
  {
    var a := x * A;
    var q := a / U64;
    var b := a % U64 + C;
    var p := b / U64;
    assert a + C == b % U64 + U64 * (q + p);
    assert U64 == M * 0x2_0000_0000;
    var k := (q + p) * 0x2_0000_0000;
    assert U64 * (q + p) == M * k;
    ModEqual(a + C, b % U64, M);
    assert Times(M, k) == a + C - b % U64;
  }

  /** The global generator of the chess port. */
  class Generator {
    var state: nat

    constructor ()
      ensures state == 12345
    {
      state := 12345;
    }

    method Seed(s: nat)
      requires s < U64
      modifies this
      ensures state == s
    {
      state := s;
    }

    /** Advances even when there is nothing to choose from. */
    method RandomInt(maxVal: int) returns (r: int)
      requires state < U64
      modifies this
      ensures state == Next(old(state)) && state < U64
      ensures maxVal <= 0 ==> r == 0
      ensures maxVal > 0 ==> 0 <= r < maxVal && r == state % maxVal
    {
      WrappingIsExact(state);
      state := (((state * A) % U64 + C) % U64) % M;
      if maxVal <= 0 {
        return 0;
      }
      return state % maxVal;
    }
  }

  /** The generator of the shooter keeps its state in a signed 64-bit integer. */
  class Shooter {
    var rng: int

    constructor ()
      ensures rng == 987654321
    {
      rng := 987654321;
    }

    ghost predicate Valid()
      reads this
    {
      0 <= rng < M
    }

    /** Neither the product nor the sum leaves the signed range, and the result is in [0, 1). */
    method Rand01() returns (r: real)
      requires Valid()
      modifies this
      ensures Valid() && rng == Next(old(rng))
      ensures old(rng) * A + C <= I64_MAX
      ensures 0.0 <= r < 1.0 && r * 2147483648.0 == rng as real
    {
      assert rng * A <= (M - 1) * A;
      rng := (rng * A + C) % M;
      r := rng as real / 2147483648.0;
    }
  }

  // ----- the recurrence by its values

  lemma ThreeSteps(x: nat)
    ensures Iterate(x, 1) == Next(x) && Iterate(x, 2) == Next(Next(x)) && Iterate(x, 3) == Next(Next(Next(x)))
  {
    assert Iterate(x, 0) == x;
  }

  lemma FirstValues()
    ensures Next(12345) == 1406932606 && Next(1406932606) == 654583775 && Next(654583775) == 1449466924
  {
  }

  /** The beginning of the orbit from the seed of the chess port. */
  lemma OrbitBegins()
    ensures Iterate(12345, 1) == 1406932606 && Iterate(12345, 2) == 654583775 && Iterate(12345, 3) == 1449466924
  {
    FirstValues();
    ThreeSteps(12345);
  }

  /** Two values settle the recurrence: those of 0 and 1. */
  lemma RecurrenceFrom(x: nat)
    ensures Next(0) == 12345 && Next(1) == 1103527590
    ensures Next(x) == (x * (Next(1) - Next(0)) + Next(0)) % 0x8000_0000
  {
  }
}
