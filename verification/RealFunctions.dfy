/** The elementary functions of the C++ standard library that the optimiser calls, as oracles: the
    program is modelled over the reals, and only the stated laws of each function are used. */
module RealFunctions {

  type Fn = real -> real

  /** A square root: non-negative, and its square is the argument. */
  ghost predicate IsSqrt(sqrt: Fn) {
    forall a: real :: a >= 0.0 ==> sqrt(a) >= 0.0 && sqrt(a) * sqrt(a) == a
  }

  /** r is the square root of x. */
  predicate IsRootOf(r: real, x: real) {
    r >= 0.0 && r * r == x
  }

  /** A logarithm: increasing, and it turns products into sums. */
  ghost predicate IsLog(log: Fn) {
    && log(1.0) == 0.0 && (forall a: real, b: real :: 0.0 < a < b ==> log(a) < log(b))
    && forall a: real, b: real {:trigger log(Times(a, b))} ::
         a > 0.0 && b > 0.0 ==> log(Times(a, b)) == log(a) + log(b)
  }

  function Times(a: real, b: real): real {
    a * b
  }

  /** An exponential: positive, increasing, and it turns sums into products. */
  ghost predicate IsExp(exp: Fn) {
    && exp(0.0) == 1.0 && (forall a: real :: exp(a) > 0.0)
    && (forall a: real, b: real :: a < b ==> exp(a) < exp(b))
    && forall a: real, b: real {:trigger exp(Plus(a, b))} :: exp(Plus(a, b)) == exp(a) * exp(b)
  }

  function Plus(a: real, b: real): real {
    a + b
  }

  function Abs(a: real): real {
    if a < 0.0 then -a else a
  }

  function Min(a: real, b: real): real {
    if b < a then b else a
  }

  /** The least integer that is not below t. */
  function Ceil(t: real): int {
    -((-t).Floor)
  }

  function Max(a: real, b: real): real {
    if a < b then b else a
  }

  // The solver handles products best when they have a name, here t.
  lemma ProductSign(a: real, b: real, t: real)
    requires t == a * b
    ensures (a > 0.0 && b > 0.0) || (a < 0.0 && b < 0.0) ==> t > 0.0
    ensures (a >= 0.0 && b >= 0.0) || (a <= 0.0 && b <= 0.0) ==> t >= 0.0
    ensures a == 0.0 || b == 0.0 ==> t == 0.0
  {
  }

  /** A quotient by a positive number undoes the product, and has the sign of its numerator. */
  lemma QuotientPositive(p: real, q: real)
    requires q > 0.0
    ensures (p / q) * q == p
    ensures p > 0.0 ==> p / q > 0.0
    ensures p >= 0.0 ==> p / q >= 0.0
  {
    var r := p / q;
    assert r * q == p;
    if r < 0.0 { ProductSign(-r, q, -r * q); }
  }

  lemma SquareSign(a: real, t: real)
    requires t == a * a
    ensures t >= 0.0
    ensures t > 0.0 <==> a != 0.0
  {
    ProductSign(a, a, t);
  }

  /** Products grow with non-negative factors. */
  lemma ProductMonotone(a: real, a': real, b: real, b': real)
    requires 0.0 <= a <= a' && 0.0 <= b <= b'
    ensures a * b <= a' * b'
  {
    ProductSign(a, b' - b, a * (b' - b));
    ProductSign(a' - a, b', (a' - a) * b');
  }

  /** A non-negative number is determined by its square. */
  lemma SquareInjective(a: real, b: real)
    requires a >= 0.0 && b >= 0.0 && a * a == b * b
    ensures a == b
  {
    ProductSign(a - b, a + b, (a - b) * (a + b));
    ProductSign(b - a, a + b, (b - a) * (a + b));
  }

  lemma SqrtOfSquare(sqrt: Fn, a: real, s: real)
    requires IsSqrt(sqrt) && s >= 0.0 && a == s * s
    ensures sqrt(a) == s
  {
    SquareSign(s, a);
    SquareInjective(sqrt(a), s);
  }

  /** The square root is increasing. */
  lemma SqrtMonotone(sqrt: Fn, a: real, b: real)
    requires IsSqrt(sqrt) && 0.0 <= a <= b
    ensures sqrt(a) <= sqrt(b)
    ensures a < b ==> sqrt(a) < sqrt(b)
    ensures a > 0.0 ==> sqrt(a) > 0.0
  {
    var s, t := sqrt(a), sqrt(b);
    SquareSign(s, a);
    if t < s {
      ProductMonotone(t, s, t, t);
      ProductSign(s - t, s, (s - t) * s);
      assert s * s - t * t == (s - t) * s + (s - t) * t;
      ProductSign(s - t, t, (s - t) * t);
    }
  }
}
