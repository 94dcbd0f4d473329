/**
 * Sums of readings over runs `1..n` and the means the scripts take of them,
 * kept apart from strings and paths so that the arithmetic stays small.
 */
module Sums {

  /** `f(1) + f(2) + ... + f(n)`, added in that order (0.0 for `n <= 0`). */
  function SumTo(f: nat -> real, n: int): real
    decreases n
  {
    if n <= 0 then 0.0 else SumTo(f, n - 1) + f(n)
  }

  /** Summing the same reading `n` times gives `n` times it. */
  lemma {:induction false} SumToConstant(f: nat -> real, n: nat, v: real)
    requires forall k: nat :: 1 <= k <= n ==> f(k) == v
    ensures SumTo(f, n) == (n as real) * v
    decreases n
  {
    if n > 0 {
      SumToConstant(f, n - 1, v);
      assert SumTo(f, n) == SumTo(f, n - 1) + v;
      assert ((n - 1) as real) * v + v == (n as real) * v;
    }
  }

  /** Every reading of `g` is `c` times the reading of `f`. */
  ghost predicate ScaledBy(f: nat -> real, g: nat -> real, c: real) {
    forall k: nat :: g(k) == c * f(k)
  }

  /** Readings each `c` times larger sum to `c` times the sum. */
  lemma {:induction false} SumToScaled(f: nat -> real, g: nat -> real, n: int, c: real)
    requires ScaledBy(f, g, c)
    ensures SumTo(g, n) == c * SumTo(f, n)
    decreases n
  {
    if n > 0 {
      SumToScaled(f, g, n - 1, c);
      assert c * SumTo(f, n - 1) + c * f(n) == c * (SumTo(f, n - 1) + f(n));
    }
  }

  // SumToScaledAt, Rescaled and DivScaled model nothing of the scripts: they
  // carry a scaling fact across a call as linear equalities between plain
  // values, so that no proof leaves the solver to match products of
  // different terms (the same holds for ScanScaledAt, ContributionScaledAt
  // and ResultFile.ParseScaled).

  /** The same for two totals `x` and `y` known to be those sums. */
  lemma SumToScaledAt(f: nat -> real, g: nat -> real, n: int, c: real, x: real, y: real)
    requires ScaledBy(f, g, c) && x == SumTo(f, n) && y == SumTo(g, n)
    ensures y == c * x
  {
    SumToScaled(f, g, n, c);
  }

  /** `y` is `c` times `x`, so any `b` equal to `y` is `c` times any `a` equal to `x`. */
  lemma Rescaled(x: real, y: real, c: real, a: real, b: real)
    requires y == c * x && a == x && b == y
    ensures b == c * a
  {
  }

  /** Scaling commutes with division. */
  lemma DivScaled(x: real, y: real, d: real, c: real)
    requires d != 0.0 && y == c * x
    ensures y / d == c * (x / d)
  {
  }

  /** A sum of `n` readings lies between `n` times their bounds. */
  lemma {:induction false} SumToBounds(f: nat -> real, n: nat, lo: real, hi: real)
    requires forall k: nat :: 1 <= k <= n ==> lo <= f(k) <= hi
    ensures (n as real) * lo <= SumTo(f, n) <= (n as real) * hi
    decreases n
  {
    if n > 0 {
      SumToBounds(f, n - 1, lo, hi);
      assert SumTo(f, n) == SumTo(f, n - 1) + f(n);
      assert ((n - 1) as real) * lo + lo == (n as real) * lo;
      assert ((n - 1) as real) * hi + hi == (n as real) * hi;
    }
  }

  /** A total of `n` readings bounded by `lo` and `hi` has its mean between them. */
  lemma MeanBounds(total: real, n: nat, lo: real, hi: real)
    requires n >= 1 && (n as real) * lo <= total <= (n as real) * hi
    ensures lo <= total / (n as real) <= hi
  {
    var q := n as real;
    assert total / q * q == total;
  }

  /**
   * `n - 1` groups of `runs` readings `v`, divided by `runs * n`: the
   * quotient is `v * (n - 1) / n`, not `v`.
   */
  lemma ShareOf(total: real, n: nat, read: nat, runs: nat, each: real, v: real)
    requires n == read + 1 && runs >= 1
    requires each == (runs as real) * v && total == (read as real) * each
    ensures total / ((runs * n) as real) == v * ((n - 1) as real) / (n as real)
  {
    var r, q := runs as real, n as real;
    assert (runs * n) as real == r * q;
    assert (read as real) == q - 1.0;
    assert (q - 1.0) * (r * v) / (r * q) == (q - 1.0) * v / q;
  }

  /** Readings `1..n` of `g` are all `x`. */
  predicate Uniform(g: nat -> real, n: int, x: real) {
    forall k: nat :: 1 <= k <= n ==> g(k) == x
  }

  /**
   * `n - 1` groups whose totals are each `runs * v`, divided by `runs * n`:
   * the quotient is `v * (n - 1) / n`.
   */
  lemma ShareOfSum(g: nat -> real, n: int, runs: int, v: real)
    requires n >= 1 && runs >= 1
    ensures Uniform(g, n - 1, (runs as real) * v) ==>
      SumTo(g, n - 1) / ((runs * n) as real) == v * ((n - 1) as real) / (n as real)
  {
    if Uniform(g, n - 1, (runs as real) * v) {
      var read: nat := n - 1;
      SumToConstant(g, read, (runs as real) * v);
      ShareOf(SumTo(g, read), n, read, runs, (runs as real) * v, v);
    }
  }
}
