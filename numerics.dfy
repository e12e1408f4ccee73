/** The optional value that stands for Python's `None` (and, in statement rows, for a NaN cell). */
module Options {
  datatype Option<+T> = None | Some(value: T)
}

/** Number handling shared by both scripts: truthiness, `round(x, n)` and `calculate_cagr`. */
module Numerics {
  import opened Options

  /** Python truthiness of an optional float: `None` and `0.0` are falsy. */
  predicate Truthy(o: Option<real>) {
    o.Some? && o.value != 0.0
  }

  function Pow10(n: nat): (p: nat)
    ensures p >= 1
  {
    if n == 0 then 1 else 10 * Pow10(n - 1)
  }

  /** `y` rounded to the nearest integer, ties to the even neighbour (Python's rounding rule). */
  function RoundHalfEven(y: real): (k: int)
    ensures -0.5 <= k as real - y <= 0.5
    ensures k as real - y == 0.5 || k as real - y == -0.5 ==> k % 2 == 0
  {
    var f := y.Floor;
    var frac := y - f as real;
    if frac < 0.5 then f
    else if frac > 0.5 then f + 1
    else if f % 2 == 0 then f
    else f + 1
  }

  /**
   * The number of whole units of 10^-digits nearest to `x`; on a tie the even one.
   */
  function Units(x: real, digits: nat): (k: int)
    ensures -0.5 <= k as real - x * (Pow10(digits) as real) <= 0.5
    ensures k as real - x * (Pow10(digits) as real) == 0.5 || k as real - x * (Pow10(digits) as real) == -0.5 ==>
      k % 2 == 0
  {
    RoundHalfEven(x * (Pow10(digits) as real))
  }

  /**
   * Python's `round(x, digits)` on exact reals: a whole number of units of 10^-digits, the
   * one nearest to `x`, and on a tie the even one.
   */
  function Round(x: real, digits: nat): (r: real)
    ensures r * (Pow10(digits) as real) == Units(x, digits) as real
    ensures -0.5 <= (r - x) * (Pow10(digits) as real) <= 0.5
    ensures (r - x) * (Pow10(digits) as real) == 0.5 || (r - x) * (Pow10(digits) as real) == -0.5 ==>
      Units(x, digits) % 2 == 0
  {
    var p := Pow10(digits) as real;
    var k := Units(x, digits);
    assert (k as real / p) * p == k as real;
    k as real / p
  }

  lemma Pow10Two()
    ensures Pow10(2) == 100
  {
    assert Pow10(1) == 10;
  }

  /** Rounding to two places never takes a value below a whole number it is not below. */
  lemma RoundTwoAtLeast(x: real, lo: int)
    requires lo as real <= x
    ensures lo as real <= Round(x, 2)
  {
    Pow10Two();
    var n := Units(x, 2);
    assert Round(x, 2) == n as real / 100.0;
    assert n as real >= lo as real * 100.0 - 0.5;
    assert lo * 100 <= n;
  }

  /** Rounding to two places never takes a value above a whole number it is not above. */
  lemma RoundTwoAtMost(x: real, hi: int)
    requires x <= hi as real
    ensures Round(x, 2) <= hi as real
  {
    Pow10Two();
    var n := Units(x, 2);
    assert Round(x, 2) == n as real / 100.0;
    assert n as real <= hi as real * 100.0 + 0.5;
    assert n <= hi * 100;
  }

  /** Rounding to two places keeps a value that lies between two whole numbers between them. */
  lemma RoundTwoWithin(x: real, lo: int, hi: int)
    requires lo as real <= x <= hi as real
    ensures lo as real <= Round(x, 2) <= hi as real
  {
    RoundTwoAtLeast(x, lo);
    RoundTwoAtMost(x, hi);
  }

  lemma ZeroFactor(x: real, y: real)
    requires y != 0.0 && x * y == 0.0
    ensures x == 0.0
  {
    assert x == (x * y) / y;
  }

  /** Ratio growth: `c / p - 1 == (c - p) / p`. */
  lemma DivMinusOne(c: real, p: real)
    requires p != 0.0
    ensures c / p - 1.0 == (c - p) / p
  {
    var q, r := c / p, (c - p) / p;
    assert q * p == c;
    assert r * p == c - p;
    assert (q - 1.0 - r) * p == q * p - p - r * p;
    ZeroFactor(q - 1.0 - r, p);
  }

  /** The growth substitute for a non-positive base: `(c + (c - p)) / c - 1 == (c - p) / c`. */
  lemma SubstituteGrowth(c: real, p: real)
    requires c != 0.0
    ensures (c + (c - p)) / c - 1.0 == (c - p) / c
  {
    var q, r := (c + (c - p)) / c, (c - p) / c;
    assert q * c == c + (c - p);
    assert r * c == c - p;
    assert (q - 1.0 - r) * c == q * c - c - r * c;
    ZeroFactor(q - 1.0 - r, c);
  }

  /** The long-term substitute: `(f + (f - e) / 3) / f - 1 == (f - e) / (3 f)`. */
  lemma SubstituteLongGrowth(f: real, e: real)
    requires f != 0.0
    ensures (f + (f - e) / 3.0) / f - 1.0 == (f - e) / (3.0 * f)
  {
    var q, r := (f + (f - e) / 3.0) / f, (f - e) / (3.0 * f);
    assert q * f == f + (f - e) / 3.0;
    assert r * (3.0 * f) == f - e;
    assert (q - 1.0 - r) * f == q * f - f - r * f;
    assert r * f == (f - e) / 3.0;
    ZeroFactor(q - 1.0 - r, f);
  }

  /** A fractional power, which Python returns as a complex number when the base is negative. */
  datatype Num = Float(value: real) | ComplexNum

  /** The principal `n`-th root of a non-negative real; floating-point `**` is not modelled, so callers supply it. */
  type Root = (real, nat) -> real

  /**
   * `calculate_cagr(start, end, years)`: `None` when an operand is missing or the start is not
   * positive, otherwise `(end / start) ** (1 / years) - 1`.
   */
  function CalculateCagr(start: Option<real>, end: Option<real>, years: nat, root: Root): (r: Option<Num>)
    requires years > 0
    ensures r.None? <==> start.None? || end.None? || start.value <= 0.0
    ensures r == Some(ComplexNum) <==> start.Some? && end.Some? && start.value > 0.0 && end.value < 0.0
    ensures r.Some? && r.value.Float? ==> r.value.value == root(end.value / start.value, years) - 1.0
  {
    if start.None? || end.None? || start.value <= 0.0 then None
    else
      var ratio := end.value / start.value;
      if ratio < 0.0 then Some(ComplexNum) else Some(Float(root(ratio, years) - 1.0))
  }

  /** 100 -> 133.1 over three years is ten percent a year, whatever principal cube root is supplied. */
  lemma CagrTenPercent(root: Root)
    requires root(1.331, 3) >= 0.0
    requires root(1.331, 3) * root(1.331, 3) * root(1.331, 3) == 1.331
    ensures CalculateCagr(Some(100.0), Some(133.1), 3, root) == Some(Float(0.1))
  {
    var c := root(1.331, 3);
    assert 133.1 / 100.0 == 1.331;
    // c^3 - 1.1^3 = (c - 1.1)(c^2 + 1.1c + 1.21), and the second factor is positive for c >= 0
    assert (c - 1.1) * (c * c + 1.1 * c + 1.21) == 0.0;
    assert c * c + 1.1 * c + 1.21 > 0.0;
    assert c == 1.1;
  }
}
