/**
 * The `f32` operations the program relies on, over exact reals: `clamp`,
 * `min`/`max` and the remainder `%`, which truncates toward zero.
 */
module FloatMath {

  /** `f32::clamp`. */
  function Clamp(v: real, lo: real, hi: real): (r: real)
    requires lo <= hi
    ensures lo <= r <= hi
    ensures lo <= v <= hi ==> r == v
    ensures v < lo ==> r == lo
    ensures v > hi ==> r == hi
  {
    if v < lo then lo else if v > hi then hi else v
  }

  /** `f32::min`. */
  function Min(a: real, b: real): (r: real)
    ensures r <= a && r <= b && (r == a || r == b)
  {
    if a <= b then a else b
  }

  /** `f32::max`. */
  function Max(a: real, b: real): (r: real)
    ensures r >= a && r >= b && (r == a || r == b)
  {
    if a >= b then a else b
  }

  /** Truncation toward zero. */
  function Trunc(x: real): (r: int)
    ensures x >= 0.0 ==> r as real <= x < r as real + 1.0
    ensures x < 0.0 ==> r as real - 1.0 < x <= r as real
  {
    if x >= 0.0 then x.Floor else -((-x).Floor)
  }

  /** `x` is a whole multiple of `m`. */
  predicate IsMultipleOf(x: real, m: real)
    requires m > 0.0
  {
    (x / m).Floor as real == x / m
  }

  /**
   * The `f32` remainder `a % b` for positive `b`: it differs from `a` by a
   * multiple of `b` and has the sign of `a`.
   */
  function FMod(a: real, b: real): (r: real)
    requires b > 0.0
    ensures a >= 0.0 ==> 0.0 <= r < b
    ensures a < 0.0 ==> -b < r <= 0.0
    ensures IsMultipleOf(a - r, b)
  {
    var q := Trunc(a / b);
    RemainderBounds(a, b, q);
    a - b * q as real
  }

  /** The facts about `a - b * trunc(a / b)` that `FMod` promises. */
  lemma RemainderBounds(a: real, b: real, q: int)
    requires b > 0.0 && q == Trunc(a / b)
    ensures a >= 0.0 ==> 0.0 <= a - b * q as real < b
    ensures a < 0.0 ==> -b < a - b * q as real <= 0.0
    ensures IsMultipleOf(a - (a - b * q as real), b)
  {
    var t := a / b;
    var f := t - q as real;
    SignOfQuotient(a, b);
    assert a >= 0.0 ==> 0.0 <= f < 1.0;
    assert a < 0.0 ==> -1.0 < f <= 0.0;
    Distribute(a, b, t, q as real);
    BoundsOfScaled(a - b * q as real, b, f);
    MultipleOfWhole(b, q);
  }

  /** r = b * f with |f| < 1 lies strictly between -b and b, with the sign of f. */
  lemma BoundsOfScaled(r: real, b: real, f: real)
    requires b > 0.0 && r == b * f && -1.0 < f < 1.0
    ensures -b < r < b
    ensures f >= 0.0 ==> r >= 0.0
    ensures f <= 0.0 ==> r <= 0.0
  {
    ScaledFraction(b, f);
  }

  /** With a = b * t, a - b * q = b * (t - q). */
  lemma Distribute(a: real, b: real, t: real, q: real)
    requires b > 0.0 && t == a / b
    ensures a - b * q == b * (t - q)
  {
    assert a == b * t;
  }

  /** b * q is a whole multiple of b. */
  lemma MultipleOfWhole(b: real, q: int)
    requires b > 0.0
    ensures IsMultipleOf(b * q as real, b)
  {
    assert (b * q as real) / b == q as real;
  }

  /** A product with a positive factor has the sign of the other factor. */
  lemma ProductSign(b: real, t: real)
    requires b > 0.0
    ensures t > 0.0 ==> b * t > 0.0
    ensures t < 0.0 ==> b * t < 0.0
    ensures t == 0.0 ==> b * t == 0.0
  {
  }

  /** Quotients and products of positive numbers are positive. */
  lemma PositiveQuotient(a: real, b: real)
    ensures a > 0.0 && b > 0.0 ==> a / b > 0.0 && a * b > 0.0
  {
    if a > 0.0 && b > 0.0 {
      assert a == b * (a / b);
      ProductSign(b, a / b);
      ProductSign(b, a);
    }
  }

  /** The quotient by a positive number keeps the sign of the dividend. */
  lemma SignOfQuotient(a: real, b: real)
    requires b > 0.0
    ensures a >= 0.0 ==> a / b >= 0.0
    ensures a < 0.0 ==> a / b < 0.0
  {
    assert a == b * (a / b);
    ProductSign(b, a / b);
  }

  /** For positive b, b * f keeps the sign of f and stays below b in magnitude when |f| < 1. */
  lemma ScaledFraction(b: real, f: real)
    requires b > 0.0
    ensures -1.0 < f < 1.0 ==> -b < b * f < b
    ensures f >= 0.0 ==> b * f >= 0.0
    ensures f <= 0.0 ==> b * f <= 0.0
  {
    ProductSign(b, 1.0 - f);
    ProductSign(b, 1.0 + f);
    ProductSign(b, f);
  }

  /** A value already in [0, b) is its own remainder. */
  lemma FModOfInRange(a: real, b: real)
    requires b > 0.0 && 0.0 <= a < b
    ensures FMod(a, b) == a
  {
    var t := a / b;
    assert a == b * t;
    SignOfQuotient(a, b);
    QuotientOfCloseValues(a, 0.0, b, t);
    assert t.Floor == 0;
    assert Trunc(t) == 0;
  }

  /** Two values in [0, m) that differ by a multiple of m are equal. */
  lemma CongruentInRangeAreEqual(x: real, y: real, m: real)
    requires m > 0.0 && 0.0 <= x < m && 0.0 <= y < m
    requires IsMultipleOf(x - y, m)
    ensures x == y
  {
    var n := ((x - y) / m).Floor;
    assert x - y == m * n as real;
    QuotientOfCloseValues(x, y, m, n as real);
  }

  /** Values in [0, m) differ by less than m, so their difference over m lies strictly between -1 and 1. */
  lemma QuotientOfCloseValues(x: real, y: real, m: real, d: real)
    requires m > 0.0 && 0.0 <= x < m && 0.0 <= y < m
    requires x - y == m * d
    ensures -1.0 < d < 1.0
  {
    ProductSign(m, -1.0 - d);
    ProductSign(m, d - 1.0);
  }

  /** Multiples of m are closed under sums. */
  lemma MultipleSum(x: real, y: real, m: real)
    requires m > 0.0 && IsMultipleOf(x, m) && IsMultipleOf(y, m)
    ensures IsMultipleOf(x + y, m)
  {
    var a := (x / m).Floor;
    var b := (y / m).Floor;
    assert x == m * a as real;
    assert y == m * b as real;
    assert (x + y) / m == (a + b) as real;
  }

  /** Multiples of m are closed under negation. */
  lemma MultipleNeg(x: real, m: real)
    requires m > 0.0 && IsMultipleOf(x, m)
    ensures IsMultipleOf(-x, m)
  {
    var a := (x / m).Floor;
    assert (-x) / m == (-a) as real;
  }

  /** Reducing before adding a non-negative amount gives the same remainder as reducing the sum. */
  lemma FModOfReducedSum(a: real, c: real, m: real)
    requires m > 0.0 && a >= 0.0 && c >= 0.0
    ensures FMod(FMod(a, m) + c, m) == FMod(a + c, m)
  {
    var u := FMod(a, m);
    var v := FMod(u + c, m);
    var w := FMod(a + c, m);
    MultipleNeg(u + c - v, m);
    MultipleNeg(a - u, m);
    MultipleSum(a + c - w, -(u + c - v), m);
    MultipleSum(a + c - w - (u + c - v), -(a - u), m);
    assert a + c - w - (u + c - v) - (a - u) == v - w;
    CongruentInRangeAreEqual(v, w, m);
  }

  /** Adding one whole modulus to a value already in [0, m) leaves its remainder unchanged. */
  lemma FModOfOneTurnMore(r: real, m: real)
    requires m > 0.0 && 0.0 <= r < m
    ensures FMod(r + m, m) == r
  {
    var v := FMod(r + m, m);
    MultipleOfWhole(m, -1);
    assert m * (-1) as real == -m;
    MultipleSum(r + m - v, -m, m);
    assert r + m - v + -m == r - v;
    CongruentInRangeAreEqual(r, v, m);
  }
}
