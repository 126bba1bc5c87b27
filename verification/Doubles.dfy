/**
 The doubles nearest to real numbers (IEEE 754, round to nearest, ties to even),
 for the quotients whose rounding shows in the log.

 Overflow is not modelled: the numbers here are counts and ratios.
 */
module Doubles {
  /** The nearest integer, ties to even. */
  function HalfEven(x: real): (n: nat)
    requires x >= 0.0
    ensures x - 0.5 <= n as real <= x + 0.5
  {
    var below := x.Floor;
    var rest := x - below as real;
    if rest < 0.5 || (rest == 0.5 && below % 2 == 0) then below else below + 1
  }

  lemma HalfEvenMonotone(x: real, y: real)
    requires 0.0 <= x <= y
    ensures HalfEven(x) <= HalfEven(y)
  {
    if x.Floor < y.Floor {
      assert x < x.Floor as real + 1.0 <= y.Floor as real;
    }
  }

  lemma HalfEvenOfInteger(n: nat)
    ensures HalfEven(n as real) == n
  {
  }

  /** 53 bits of mantissa. */
  const MANTISSA := 9007199254740992.0

  /** How often a number can be doubled before its mantissa loses bits: smaller ones are subnormal. */
  const SUBNORMAL: nat := 1021

  /** A number between one half and one, in 53 bits. */
  function Rounded(x: real): (d: real)
    requires 0.0 <= x <= 1.0
    ensures 0.0 <= d <= 1.0
    ensures x >= 0.5 ==> d >= 0.5
    ensures x <= 0.5 ==> d <= 0.5
  {
    RoundedBounds(x);
    HalfEven(x * MANTISSA) as real / MANTISSA
  }

  lemma RoundedBounds(x: real)
    requires 0.0 <= x <= 1.0
    ensures x * MANTISSA >= 0.0
    ensures var d := HalfEven(x * MANTISSA) as real / MANTISSA;
            0.0 <= d <= 1.0 && (x >= 0.5 ==> d >= 0.5) && (x <= 0.5 ==> d <= 0.5)
  {
    var half := 4503599627370496;
    HalfEvenOfInteger(2 * half);
    HalfEvenOfInteger(half);
    HalfEvenMonotone(x * MANTISSA, MANTISSA);
    if x >= 0.5 {
      HalfEvenMonotone(half as real, x * MANTISSA);
    }
    if x <= 0.5 {
      HalfEvenMonotone(x * MANTISSA, half as real);
    }
  }

  /** The double nearest to x, a number already doubled k times. */
  function Fraction(x: real, k: nat): (d: real)
    requires 0.0 <= x <= 1.0 && k <= SUBNORMAL
    ensures 0.0 <= d <= 1.0
    ensures x >= 0.5 ==> d >= 0.5
    ensures x <= 0.5 ==> d <= 0.5
    decreases SUBNORMAL - k
  {
    if x >= 0.5 || k == SUBNORMAL then Rounded(x) else Fraction(2.0 * x, k + 1) / 2.0
  }

  function Double(x: real): (d: real)
    requires x >= 0.0
    ensures d >= 0.0
    ensures x <= 1.0 ==> d <= 1.0
    ensures x >= 1.0 ==> d >= 1.0
    decreases x.Floor
  {
    if x == 0.0 then 0.0 else if x > 1.0 then 2.0 * Double(x / 2.0) else Fraction(x, 0)
  }

  lemma RoundedMonotone(x: real, y: real)
    requires 0.0 <= x <= y <= 1.0
    ensures Rounded(x) <= Rounded(y)
  {
    HalfEvenMonotone(x * MANTISSA, y * MANTISSA);
  }

  lemma FractionDoubles(x: real, k: nat)
    requires 0.0 <= x < 0.5 && k < SUBNORMAL
    ensures Fraction(x, k) == Fraction(2.0 * x, k + 1) / 2.0
  {
  }

  lemma {:induction false} FractionMonotone(x: real, y: real, k: nat)
    requires 0.0 <= x <= y <= 1.0 && k <= SUBNORMAL
    ensures Fraction(x, k) <= Fraction(y, k)
    decreases SUBNORMAL - k
  {
    if x >= 0.5 || k == SUBNORMAL {
      RoundedMonotone(x, y);
    } else if y < 0.5 {
      FractionDoubles(x, k);
      FractionDoubles(y, k);
      FractionMonotone(2.0 * x, 2.0 * y, k + 1);
    } else {
      assert Fraction(x, k) <= 0.5 <= Fraction(y, k);
    }
  }

  lemma DoubleHalves(x: real)
    requires x > 1.0
    ensures Double(x) == 2.0 * Double(x / 2.0)
  {
  }

  lemma {:induction false} DoubleMonotone(x: real, y: real)
    requires 0.0 <= x <= y
    ensures Double(x) <= Double(y)
    decreases x.Floor
  {
    if x > 1.0 {
      DoubleHalves(x);
      DoubleHalves(y);
      HalfFloor(x);
      DoubleMonotone(x / 2.0, y / 2.0);
    } else if y <= 1.0 {
      UnitMonotone(x, y);
    }
  }

  lemma HalfFloor(x: real)
    requires x > 1.0
    ensures 0 <= (x / 2.0).Floor < x.Floor
  {
  }

  lemma UnitMonotone(x: real, y: real)
    requires 0.0 <= x <= y <= 1.0
    ensures Double(x) <= Double(y)
  {
    if x > 0.0 {
      FractionMonotone(x, y, 0);
    }
  }

  /** Rounding moves a ratio by at most 2^-54. */
  lemma {:induction false} FractionIsClose(x: real, k: nat)
    requires 0.0 <= x <= 1.0 && k <= SUBNORMAL
    ensures x - 0.5 / MANTISSA <= Fraction(x, k) <= x + 0.5 / MANTISSA
    decreases SUBNORMAL - k
  {
    if x >= 0.5 || k == SUBNORMAL {
      RoundedIsClose(x);
    } else {
      FractionIsClose(2.0 * x, k + 1);
    }
  }

  lemma RoundedIsClose(x: real)
    requires 0.0 <= x <= 1.0
    ensures x - 0.5 / MANTISSA <= Rounded(x) <= x + 0.5 / MANTISSA
  {
    var n := HalfEven(x * MANTISSA) as real;
    assert x * MANTISSA - 0.5 <= n <= x * MANTISSA + 0.5;
    assert (x * MANTISSA - 0.5) / MANTISSA == x - 0.5 / MANTISSA;
    assert (x * MANTISSA + 0.5) / MANTISSA == x + 0.5 / MANTISSA;
  }

  lemma QuotientBounds(a: real, b: real)
    requires 0.0 <= a <= b && b > 0.0
    ensures 0.0 <= a / b <= 1.0 && (a == 0.0 ==> a / b == 0.0)
  {
    assert b / b == 1.0;
    assert a / b <= b / b;
  }

  /** (double)part / (double)total. */
  function Quotient(part: nat, total: nat): (q: real)
    requires part <= total && total > 0
    ensures 0.0 <= q <= 1.0
    ensures part == 0 ==> q == 0.0
  {
    DoubleMonotone(part as real, total as real);
    QuotientBounds(Double(part as real), Double(total as real));
    Double(Double(part as real) / Double(total as real))
  }

  // ------------------------------------------------- numbers that are doubles

  function Pow2(k: nat): (p: nat)
    ensures p > 0
  {
    if k == 0 then 1 else 2 * Pow2(k - 1)
  }

  const MANTISSAS: nat := 9007199254740992

  lemma Pow2Of53()
    ensures Pow2(53) == MANTISSAS
  {
    assert Pow2(13) == 8192;
    assert Pow2(23) == 8388608;
    assert Pow2(33) == 8589934592;
    assert Pow2(43) == 8796093022208;
  }

  lemma KeptOnGrid(x: real, n: nat)
    requires 0.0 <= x <= 1.0 && x * MANTISSA == n as real
    ensures Rounded(x) == x
  {
    HalfEvenOfInteger(n);
    OverMantissa(x);
  }

  lemma OverMantissa(x: real)
    ensures x * MANTISSA / MANTISSA == x
  {
  }

  lemma Associated(x: real, p: real, q: real)
    ensures x * (p * q) == (x * p) * q
  {
  }

  lemma Times(a: nat, b: nat) returns (n: nat)
    ensures n == a * b && n as real == a as real * b as real
  {
    n := a * b;
  }

  /** A number on a grid of up to 53 bits, between one half and one, is not rounded. */
  lemma DyadicIsKept(x: real, a: nat, p: nat, q: nat)
    requires 0.5 <= x <= 1.0 && x * p as real == a as real && p * q == MANTISSAS
    ensures Rounded(x) == x
  {
    var n := Times(a, q);
    var m := Times(p, q);
    Associated(x, p as real, q as real);
    KeptOnGrid(x, n);
  }

  lemma DoubledGrid(x: real, n: nat, p: nat, q: nat)
    requires x * p as real == n as real && p * (2 * q) == MANTISSAS
    ensures x / 2.0 * (2 * p) as real == n as real && 2 * p * q == MANTISSAS
  {
    assert x / 2.0 * (2.0 * p as real) == x * p as real;
    assert 2 * p * q == p * (2 * q);
  }

  /** n of the parts into which p = 2^j divides one, and q = 2^(53 - j). */
  lemma {:induction false} HalvedCount(x: real, n: nat, p: nat, q: nat, left: nat)
    requires 0.5 <= x && x * p as real == n as real && n <= MANTISSAS
    requires p * q == MANTISSAS && q == Pow2(left)
    ensures Double(x) == x
    decreases left
  {
    if x <= 1.0 {
      DyadicIsKept(x, n, p, q);
    } else {
      LastHalving(x, n, p, q);
      DoubledGrid(x, n, p, Pow2(left - 1));
      HalvedCount(x / 2.0, n, 2 * p, Pow2(left - 1), left - 1);
    }
  }

  lemma LastHalving(x: real, n: nat, p: nat, q: nat)
    requires x > 1.0 && x * p as real == n as real && n <= MANTISSAS && p * q == MANTISSAS
    ensures q > 1
  {
  }

  /** Counts of up to 2^53 are doubles. */
  lemma CountsAreDoubles(n: nat)
    requires n <= MANTISSAS
    ensures Double(n as real) == n as real
  {
    if n > 0 {
      Pow2Of53();
      HalvedCount(n as real, n, 1, Pow2(53), 53);
    }
  }

  /** Of such counts the quotient is the double nearest to their ratio. */
  lemma QuotientOfCounts(part: nat, total: nat)
    requires part <= total && 0 < total <= MANTISSAS
    ensures Quotient(part, total) == Double(part as real / total as real)
  {
    CountsAreDoubles(part);
    CountsAreDoubles(total);
  }

  // ------------------------------------------------------ how near they are

  /** The two numbers differ by at most one part in 2^53. */
  predicate Near(d: real, x: real) {
    (x - d) * MANTISSA <= x && (d - x) * MANTISSA <= x
  }

  lemma RoundedIsNear(x: real)
    requires 0.5 <= x <= 1.0
    ensures Near(Rounded(x), x)
  {
    RoundedIsClose(x);
    var d := Rounded(x);
    assert (x - d) * MANTISSA <= 0.5 / MANTISSA * MANTISSA == 0.5;
    assert (d - x) * MANTISSA <= 0.5 / MANTISSA * MANTISSA == 0.5;
  }

  lemma NearHalves(d: real, x: real)
    requires Near(d, 2.0 * x)
    ensures Near(d / 2.0, x)
  {
    assert (x - d / 2.0) * MANTISSA == (2.0 * x - d) * MANTISSA / 2.0;
    assert (d / 2.0 - x) * MANTISSA == (d - 2.0 * x) * MANTISSA / 2.0;
  }

  lemma HalvedScale(x: real, m: nat)
    requires m > 0
    ensures 2.0 * x * Pow2(m - 1) as real == x * Pow2(m) as real
  {
    assert Pow2(m) as real == 2.0 * Pow2(m - 1) as real;
  }

  /** A number that m doublings bring to one half or more keeps 53 bits, unless it becomes subnormal before. */
  lemma {:induction false} FractionIsNear(x: real, k: nat, m: nat)
    requires 0.0 <= x <= 1.0 && k + m <= SUBNORMAL && x * Pow2(m) as real >= 0.5
    ensures Near(Fraction(x, k), x)
    decreases m
  {
    if x >= 0.5 {
      RoundedIsNear(x);
    } else {
      HalvedScale(x, m);
      FractionIsNear(2.0 * x, k + 1, m - 1);
      FractionDoubles(x, k);
      NearHalves(Fraction(2.0 * x, k + 1), x);
    }
  }

  lemma LeastRatio(part: nat, total: nat)
    requires 0 < part <= total <= MANTISSAS
    ensures 0.0 < part as real / total as real <= 1.0
    ensures part as real / total as real * MANTISSA >= 1.0
  {
    QuotientBounds(part as real, total as real);
    Scaled(part as real / total as real, part as real, total as real, MANTISSA);
  }

  lemma Scaled(x: real, a: real, b: real, c: real)
    requires 0.0 < b <= c && a >= 1.0 && x == a / b
    ensures x > 0.0 && x * c >= 1.0
  {
    assert x * b == a;
    Positive(x, b);
    assert x * (c - b) >= 0.0;
    assert x * c == x * b + x * (c - b);
  }

  lemma Positive(x: real, b: real)
    requires b > 0.0 && x * b > 0.0
    ensures x > 0.0
  {
  }

  /** The score of a frame is off the true ratio by at most one part in 2^53, however small. */
  lemma QuotientIsNear(part: nat, total: nat)
    requires 0 < part <= total <= MANTISSAS
    ensures Near(Quotient(part, total), part as real / total as real)
  {
    var x := part as real / total as real;
    QuotientOfCounts(part, total);
    LeastRatio(part, total);
    Pow2Of53();
    FractionIsNear(x, 0, 53);
  }
}
