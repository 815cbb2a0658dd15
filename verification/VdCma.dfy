/** VD-CMA: covariance D(I + vv')D with a diagonal D and one vector v. The natural-gradient step solves a
    dense linear system in linear time, and the sampler draws from exactly the reported covariance. */
module VdCma {
  import opened LinearAlgebra
  import opened RealFunctions

  // ----- the scalar constants of the update

  /** The radicand of Eq. (7). */
  function Radicand(sqrt: Fn, normv: real, m: real): real
    requires normv > 0.0 && m != 0.0 && sqrt(1.0 + normv) != 0.0
  {
    normv * normv + (2.0 - 1.0 / sqrt(1.0 + normv)) * (1.0 + normv) / m
  }

  /** Eq. (7): alpha from |v|^2 and the largest entry m of the squared direction. */
  function Alpha(sqrt: Fn, normv: real, m: real): real
    requires normv > 0.0 && m != 0.0 && sqrt(1.0 + normv) != 0.0
  {
    Min(1.0, sqrt(Radicand(sqrt, normv, m)) / (2.0 + normv))
  }

  /** Lemma 3.4: the off-diagonal coefficient b. */
  function Beta(alpha: real, normv: real): real
    requires normv > 0.0
  {
    -(1.0 - alpha * alpha) * normv * normv / (1.0 + normv) + 2.0 * alpha * alpha
  }

  /** The slope of the diagonal entries 2 - c w. */
  function Slope(alpha: real, normv: real): real
    requires normv > 0.0
  {
    Beta(alpha, normv) + 2.0 * alpha * alpha
  }

  /** alpha^2 (2+N)^2, the value compared with the radicand. */
  function ScaledSquare(a: real, n: real): real {
    (a * a) * ((2.0 + n) * (2.0 + n))
  }

  /** The slope times gamma, without the division. */
  lemma SlopeScaled(alpha: real, normv: real)
    requires normv > 0.0
    ensures Slope(alpha, normv) * (1.0 + normv) == ScaledSquare(alpha, normv) - normv * normv
  {
    var a, n := alpha * alpha, normv;
    var q := -(1.0 - a) * n * n / (1.0 + n);
    QuotientPositive(-(1.0 - a) * n * n, 1.0 + n);
    assert Slope(alpha, normv) == q + 4.0 * a by {
      assert 2.0 * alpha * alpha == 2.0 * a;
      assert -(1.0 - alpha * alpha) * normv * normv == -(1.0 - a) * n * n;
    }
    SlopeExpand(a, n, q);
  }

  lemma SlopeExpand(a: real, n: real, q: real)
    requires q * (1.0 + n) == -(1.0 - a) * n * n
    ensures (q + 4.0 * a) * (1.0 + n) == a * ((2.0 + n) * (2.0 + n)) - n * n
  {
    assert (q + 4.0 * a) * (1.0 + n) == q * (1.0 + n) + 4.0 * a + 4.0 * (a * n);
    assert (1.0 - a) * n * n == n * n - a * (n * n);
    assert a * ((2.0 + n) * (2.0 + n)) == 4.0 * a + 4.0 * (a * n) + a * (n * n);
  }

  /** The root term 2 - 1/sqrt(gamma) lies in (1, 2). */
  lemma RootTerm(sqrt: Fn, normv: real)
    requires IsSqrt(sqrt) && normv > 0.0
    ensures sqrt(1.0 + normv) > 1.0 && 0.0 < 1.0 / sqrt(1.0 + normv) < 1.0
    ensures (1.0 / sqrt(1.0 + normv)) * sqrt(1.0 + normv) == 1.0
  {
    var g := sqrt(1.0 + normv);
    SqrtOfSquare(sqrt, 1.0, 1.0);
    SqrtMonotone(sqrt, 1.0, 1.0 + normv);
    QuotientPositive(1.0, g);
    var h := 1.0 / g;
    if h >= 1.0 { ProductSign(h - 1.0, g, (h - 1.0) * g); }
  }

  /** alpha^2 (2+N)^2 is at most the radicand of Eq. (7), with equality below the clamp. */
  lemma AlphaSquared(sqrt: Fn, normv: real, m: real)
    requires IsSqrt(sqrt) && normv > 0.0 && m > 0.0 && sqrt(1.0 + normv) > 1.0 && Radicand(sqrt, normv, m) >= 0.0
    ensures var alpha, rad := Alpha(sqrt, normv, m), Radicand(sqrt, normv, m);
            && 0.0 <= alpha <= 1.0
            && ScaledSquare(alpha, normv) <= rad
            && (alpha < 1.0 ==> ScaledSquare(alpha, normv) == rad)
  {
    hide Radicand;
    ClampedSquare(sqrt, normv, Radicand(sqrt, normv, m), Alpha(sqrt, normv, m));
  }

  lemma ClampedSquare(sqrt: Fn, normv: real, rad: real, alpha: real)
    requires IsSqrt(sqrt) && normv > 0.0 && rad >= 0.0
    requires alpha == Min(1.0, sqrt(rad) / (2.0 + normv))
    ensures 0.0 <= alpha <= 1.0
    ensures ScaledSquare(alpha, normv) <= rad
    ensures alpha < 1.0 ==> ScaledSquare(alpha, normv) == rad
  {
    var k, s := 2.0 + normv, sqrt(rad);
    var a := s / k;
    QuotientPositive(s, k);
    assert (a * a) * (k * k) == s * s == rad by { assert (a * a) * (k * k) == (a * k) * (a * k); }
    ProductMonotone(alpha, a, alpha, a);
    SquareSign(k, k * k);
    ProductMonotone(alpha * alpha, a * a, k * k, k * k);
  }

  /** The slope times the largest squared component is at most 2 - 1/sqrt(gamma), with equality below
      the clamp. */
  lemma SlopeBound(sqrt: Fn, normv: real, m: real)
    requires IsSqrt(sqrt) && normv > 0.0 && 0.0 < m
    ensures sqrt(1.0 + normv) > 1.0
    ensures var alpha, e := Alpha(sqrt, normv, m), 2.0 - 1.0 / sqrt(1.0 + normv);
            && 0.0 <= alpha <= 1.0
            && Slope(alpha, normv) * m <= e
            && (alpha < 1.0 ==> Slope(alpha, normv) * m == e)
  {
    hide Slope, Radicand, IsSqrt, ScaledSquare, Alpha;
    RootTerm(sqrt, normv);
    var alpha := Alpha(sqrt, normv, m);
    var k := RadicandSplit(sqrt, normv, m);
    AlphaSquared(sqrt, normv, m);
    SlopeScaled(alpha, normv);
    SlopeFromSquare(Slope(alpha, normv), normv, m, 2.0 - 1.0 / sqrt(1.0 + normv), k,
                    ScaledSquare(alpha, normv), Radicand(sqrt, normv, m));
  }

  lemma RadicandSplit(sqrt: Fn, normv: real, m: real) returns (k: real)
    requires IsSqrt(sqrt) && normv > 0.0 && 0.0 < m && sqrt(1.0 + normv) > 1.0
    ensures Radicand(sqrt, normv, m) == normv * normv + k >= 0.0
    ensures k * m == (2.0 - 1.0 / sqrt(1.0 + normv)) * (1.0 + normv)
  {
    RootTerm(sqrt, normv);
    var e := 2.0 - 1.0 / sqrt(1.0 + normv);
    k := e * (1.0 + normv) / m;
    ProductSign(e, 1.0 + normv, e * (1.0 + normv));
    QuotientPositive(e * (1.0 + normv), m);
    SquareSign(normv, normv * normv);
  }

  lemma SlopeFromSquare(c: real, n: real, m: real, e: real, k: real, square: real, rad: real)
    requires n > 0.0 && m > 0.0 && k * m == e * (1.0 + n)
    requires c * (1.0 + n) == square - n * n && rad == n * n + k && square <= rad
    ensures c * m <= e && (square == rad ==> c * m == e)
  {
    CancelFactor(c, 1.0 + n, m, e, k);
  }

  lemma CancelFactor(c: real, g: real, m: real, e: real, k: real)
    requires g > 0.0 && m > 0.0 && k * m == e * g
    ensures c * g <= k ==> c * m <= e
    ensures c * g == k ==> c * m == e
  {
    var u := c * m - e;
    assert u * g == (c * g - k) * m;
    if c * g <= k { ProductSign(k - c * g, m, (k - c * g) * m); }
    if u > 0.0 { ProductSign(u, g, u * g); }
    if u < 0.0 { ProductSign(-u, g, -u * g); }
  }

  /** Every diagonal entry is at least 1/sqrt(gamma). */
  lemma EntryBound(sqrt: Fn, normv: real, m: real, w: real)
    requires IsSqrt(sqrt) && normv > 0.0 && 0.0 < m && 0.0 <= w <= m
    ensures sqrt(1.0 + normv) > 1.0
    ensures 2.0 - Slope(Alpha(sqrt, normv, m), normv) * w >= 1.0 / sqrt(1.0 + normv) > 0.0
  {
    hide Slope, Alpha, IsSqrt;
    SlopeBound(sqrt, normv, m);
    RootTerm(sqrt, normv);
    EntryScaled(Slope(Alpha(sqrt, normv, m), normv), m, w, 2.0 - 1.0 / sqrt(1.0 + normv));
  }

  lemma EntryScaled(c: real, m: real, w: real, e: real)
    requires 0.0 <= w <= m && c * m <= e && e >= 0.0
    ensures c * w <= e
  {
    ProductSign(c, m - w, c * (m - w));
    ProductSign(-c, w, -c * w);
    assert c * m == c * w + c * (m - w);
  }

  /** Eq. (7) takes the largest damping that keeps every diagonal entry at 1/sqrt(gamma) or above. */
  lemma AlphaIsLargest(sqrt: Fn, normv: real, m: real, a: real)
    requires IsSqrt(sqrt) && normv > 0.0 && 0.0 < m && 0.0 <= a <= 1.0
    ensures sqrt(1.0 + normv) > 1.0
    ensures a <= Alpha(sqrt, normv, m) <==> 2.0 - Slope(a, normv) * m >= 1.0 / sqrt(1.0 + normv)
  {
    hide Slope, Radicand, ScaledSquare, Alpha, IsSqrt;
    RootTerm(sqrt, normv);
    var k := RadicandSplit(sqrt, normv, m);
    SlopeScaled(a, normv);
    BelowAlpha(sqrt, normv, m, a);
    FactorIff(Slope(a, normv), 1.0 + normv, m, 2.0 - 1.0 / sqrt(1.0 + normv), k);
  }

  lemma BelowAlpha(sqrt: Fn, normv: real, m: real, a: real)
    requires IsSqrt(sqrt) && normv > 0.0 && 0.0 < m && 0.0 <= a <= 1.0 && sqrt(1.0 + normv) > 1.0
    requires Radicand(sqrt, normv, m) >= 0.0
    ensures a <= Alpha(sqrt, normv, m) <==> ScaledSquare(a, normv) <= Radicand(sqrt, normv, m)
  {
    hide Radicand, IsSqrt, ScaledSquare;
    BelowRoot(sqrt, normv, Radicand(sqrt, normv, m), a);
  }

  lemma BelowRoot(sqrt: Fn, normv: real, rad: real, a: real)
    requires IsSqrt(sqrt) && normv > 0.0 && rad >= 0.0 && 0.0 <= a <= 1.0
    ensures a <= Min(1.0, sqrt(rad) / (2.0 + normv)) <==> ScaledSquare(a, normv) <= rad
  {
    var k, s := 2.0 + normv, sqrt(rad);
    QuotientPositive(s, k);
    var q := s / k;
    assert ScaledSquare(a, normv) == (a * k) * (a * k) by { assert (a * a) * (k * k) == (a * k) * (a * k); }
    ProductSign(a, k, a * k);
    if a <= q {
      ProductMonotone(a, q, k, k);
      ProductMonotone(a * k, s, a * k, s);
    } else {
      ProductSign(a - q, k, (a - q) * k);
      StrictSquare(a * k, s);
    }
  }

  lemma StrictSquare(a: real, s: real)
    requires a > s >= 0.0
    ensures a * a > s * s
  {
    ProductSign(a - s, a + s, (a - s) * (a + s));
  }

  lemma FactorIff(c: real, g: real, m: real, e: real, k: real)
    requires g > 0.0 && m > 0.0 && k * m == e * g
    ensures c * g <= k <==> c * m <= e
  {
    var u := c * m - e;
    assert u * g == (c * g - k) * m;
    ProductSign(k - c * g, m, (k - c * g) * m);
    ProductSign(c * g - k, m, (c * g - k) * m);
    ProductSign(u, g, u * g);
    ProductSign(-u, g, -(u * g));
  }

  lemma RatioMargin(g: real, m: real, c: real, w: real, a: real)
    requires g > 1.0 && c * m * g == 2.0 * g - 1.0 && 0.0 <= w <= m && a == 2.0 - c * w
    ensures m * g * a - w >= 0.0
  {
    ProductSign(g, m - w, g * (m - w));
    assert m * g * a == 2.0 * (m * g) - (c * m * g) * w;
    assert m * g * a - w == 2.0 * (g * (m - w));
  }

  /** Below the clamp, w / (2 - c w) is at most m sqrt(gamma). */
  lemma RatioBound(g: real, m: real, c: real, w: real, a: real)
    requires g > 1.0 && c * m * g == 2.0 * g - 1.0 && 0.0 <= w <= m && a == 2.0 - c * w > 0.0
    ensures w * w / a <= m * g * w
  {
    // w <= m g a, because m g a - w = 2 m g - (2g - 1) w - w = 2 g (m - w)
    RatioMargin(g, m, c, w, a);
    var q := w * w / a;
    QuotientPositive(w * w, a);
    ProductSign(w, m * g * a - w, w * (m * g * a - w));
    assert (m * g * w - q) * a == w * (m * g * a - w);
    if q > m * g * w { ProductSign(q - m * g * w, a, (q - m * g * w) * a); }
  }

  /** Below the clamp, b m sqrt(gamma) stays above -1. */
  lemma BetaBound(normv: real, g: real, m: real, c: real, b: real, a: real)
    requires normv > 0.0 && g > 1.0 && 0.0 < m <= 1.0 && c * m * g == 2.0 * g - 1.0
    requires b == c - 2.0 * a
    requires a * ((2.0 + normv) * (2.0 + normv)) == normv * normv + c * (1.0 + normv)
    ensures b * m * g > -1.0
  {
    var n, mg := normv, m * g;
    var p, k, u := 2.0 + 2.0 * n + n * n, (2.0 + n) * (2.0 + n), b * m * g;
    BetaScaled(n, c, a, b);
    assert u * k == (b * k) * mg by { assert u == b * mg; }
    assert (c * p) * mg == (c * m * g) * p by { assert c * m * g == c * mg; }
    BetaFinish(n, g, mg, p, k, u, (c * p) * mg, m);
  }

  lemma BetaScaled(n: real, c: real, a: real, b: real)
    requires b == c - 2.0 * a && a * ((2.0 + n) * (2.0 + n)) == n * n + c * (1.0 + n)
    ensures b * ((2.0 + n) * (2.0 + n)) == c * (2.0 + 2.0 * n + n * n) - 2.0 * (n * n)
  {
    assert b * ((2.0 + n) * (2.0 + n)) == c * ((2.0 + n) * (2.0 + n)) - 2.0 * (a * ((2.0 + n) * (2.0 + n)));
  }

  lemma BetaFinish(n: real, g: real, mg: real, p: real, k: real, u: real, cpmg: real, m: real)
    requires n > 0.0 && g > 1.0 && mg == m * g && 0.0 < m <= 1.0
    requires p == 2.0 + 2.0 * n + n * n && k == (2.0 + n) * (2.0 + n)
    requires cpmg == (2.0 * g - 1.0) * p
    requires u * k == cpmg - 2.0 * ((n * n) * mg)
    ensures u > -1.0
  {
    ProductMonotone(m, 1.0, g, g);
    SquareSign(n, n * n);
    ProductMonotone(n * n, n * n, mg, g);
    ProductSign(g, n, g * n);
    ExpandP(n, g, p, k);
    AboveMinusOne(u, k, u * k);
  }

  lemma ExpandP(n: real, g: real, p: real, k: real)
    requires p == 2.0 + 2.0 * n + n * n && k == (2.0 + n) * (2.0 + n)
    ensures (2.0 * g - 1.0) * p == 4.0 * g + 4.0 * (g * n) + 2.0 * ((n * n) * g) - p
    ensures k == 4.0 + 4.0 * n + n * n
  {
    assert g * p == 2.0 * g + 2.0 * (g * n) + (n * n) * g;
  }

  lemma AboveMinusOne(u: real, k: real, t: real)
    requires t == u * k && k > 0.0 && t > -k
    ensures u > -1.0
  {
    if u <= -1.0 { ProductSign(-1.0 - u, k, (-1.0 - u) * k); }
  }

  // ----- the direction of v

  /** The unit vector along v. */
  function Direction(sqrt: Fn, v: Vec): (u: Vec)
    requires sqrt(Dot(v, v)) != 0.0
    ensures |u| == |v|
  {
    Divide(v, sqrt(Dot(v, v)))
  }

  lemma RootOfNorm(sqrt: Fn, v: Vec)
    requires IsSqrt(sqrt) && !IsZero(v)
    ensures Dot(v, v) > 0.0 && sqrt(Dot(v, v)) > 0.0 && sqrt(Dot(v, v)) * sqrt(Dot(v, v)) == Dot(v, v)
    ensures 1.0 + Dot(v, v) > 0.0 && sqrt(1.0 + Dot(v, v)) > 1.0
  {
    SquaredNormPositive(v);
    SqrtMonotone(sqrt, Dot(v, v), Dot(v, v));
    RootTerm(sqrt, Dot(v, v));
  }

  lemma UnitDirection(sqrt: Fn, v: Vec)
    requires IsSqrt(sqrt) && !IsZero(v) && sqrt(Dot(v, v)) > 0.0
    ensures var u := Direction(sqrt, v);
            && Dot(u, u) == 1.0
            && forall i :: 0 <= i < |v| ==> u[i] * sqrt(Dot(v, v)) == v[i]
  {
    var u := Direction(sqrt, v);
    RootOfNorm(sqrt, v);
    DividedNorm(v, sqrt(Dot(v, v)));
    hide Dot, IsSqrt, Blend, Divide;
    UnitNorm(Dot(v, v), Dot(u, v), Dot(u, u), sqrt(Dot(v, v)));
  }

  lemma DividedNorm(v: Vec, r: real)
    requires r > 0.0
    ensures var u := Divide(v, r);
            && Dot(v, v) == Blend(r, Dot(u, v), 0.0, Dot(u, v))
            && Dot(u, v) == Blend(r, Dot(u, u), 0.0, Dot(u, u))
            && forall i :: 0 <= i < |v| ==> u[i] * r == v[i]
  {
    hide DotTo;
    var u, n := Divide(v, r), |v|;
    forall i | 0 <= i < n ensures v[i] == Blend(r, u[i], 0.0, u[i]) && u[i] * r == v[i] {
      QuotientPositive(v[i], r);
    }
    hide Blend, Divide;
    DotLinear(r, u, 0.0, u, v, v, n);
    DotLinear(r, u, 0.0, u, v, u, n);
  }

  lemma UnitNorm(vv: real, uv: real, uu: real, r: real)
    requires r > 0.0 && r * r == vv && vv == Blend(r, uv, 0.0, uv) && uv == Blend(r, uu, 0.0, uu)
    ensures uu == 1.0
  {
    assert (uu - 1.0) * (r * r) == 0.0;
    ProductSign(r, r, r * r);
    ProductSign(uu - 1.0, r * r, (uu - 1.0) * (r * r));
    ProductSign(1.0 - uu, r * r, (1.0 - uu) * (r * r));
  }

  /** The squared components of the direction: between 0 and their maximum, summing to one. */
  lemma SquaredDirection(sqrt: Fn, v: Vec)
    requires IsSqrt(sqrt) && !IsZero(v) && sqrt(Dot(v, v)) > 0.0 && |v| > 0
    ensures var u := Direction(sqrt, v); var w := Prod(u, u);
            && Sum(w) == 1.0
            && 0.0 < MaxCoeff(w) <= 1.0
            && forall i :: 0 <= i < |v| ==> 0.0 <= w[i] <= MaxCoeff(w)
  {
    var u := Direction(sqrt, v);
    var w := Prod(u, u);
    UnitDirection(sqrt, v);
    SumOfSquares(u, |v|);
    forall i | 0 <= i < |v| ensures w[i] >= 0.0 { SquareSign(u[i], w[i]); }
    SumNonNegative(w, |v|);
    if MaxCoeff(w) <= 0.0 { ZeroSum(w, |v|); }
  }

  lemma {:induction false} ZeroSum(w: Vec, n: nat)
    requires n <= |w| && forall i :: 0 <= i < n ==> w[i] <= 0.0
    ensures SumTo(w, n) <= 0.0
  {
    if n > 0 { ZeroSum(w, n - 1); }
  }

  // ----- the coefficients of the linear system

  /** What the update derives from v before it looks at the sample. */
  datatype Coefficients = Coefficients(normv: real, vbar: Vec, vbarbar: Vec, alpha: real, b: real, diagonal: Vec)

  function CoefficientsOf(sqrt: Fn, v: Vec): Coefficients
    requires |v| > 0 && Dot(v, v) > 0.0 && sqrt(Dot(v, v)) != 0.0 && sqrt(1.0 + Dot(v, v)) != 0.0
    requires MaxCoeff(Prod(Direction(sqrt, v), Direction(sqrt, v))) != 0.0
  {
    var normv, vbar := Dot(v, v), Direction(sqrt, v);
    var w := Prod(vbar, vbar);
    var alpha := Alpha(sqrt, normv, MaxCoeff(w));
    Coefficients(normv, vbar, w, alpha, Beta(alpha, normv), Diagonal(Slope(alpha, normv), w))
  }

  /** The diagonal entries 2 - c w_i, where c = b + 2 alpha^2. */
  function Diagonal(c: real, w: Vec): Vec {
    seq(|w|, i requires 0 <= i < |w| => 2.0 - c * w[i])
  }

  /** The linear-time denominator. */
  function Factor(b: real, nu2: real): real {
    1.0 + b * nu2
  }

  function Nu2(d: Vec, w: Vec): real
    requires |d| == |w| && forall i :: 0 <= i < |d| ==> d[i] != 0.0
  {
    Dot(Prod(Inverse(d), w), w)
  }

  /** What a non-zero v makes of the divisors that the update computes from it. */
  ghost predicate NonZero(sqrt: Fn, v: Vec) {
    && IsSqrt(sqrt) && |v| > 0 && !IsZero(v)
    && Dot(v, v) > 0.0 && sqrt(Dot(v, v)) > 0.0 && sqrt(1.0 + Dot(v, v)) > 1.0
    && MaxCoeff(Prod(Direction(sqrt, v), Direction(sqrt, v))) > 0.0
  }

  lemma NonZeroVector(sqrt: Fn, v: Vec)
    requires IsSqrt(sqrt) && !IsZero(v)
    ensures NonZero(sqrt, v)
  {
    RootOfNorm(sqrt, v);
    SquaredDirection(sqrt, v);
  }

  /** Every division of the update is by a positive number: each diagonal entry is at least
      1/sqrt(1+|v|^2), and 1 + b nu2 is positive even where b is negative. */
  lemma DenominatorsPositive(sqrt: Fn, v: Vec)
    requires IsSqrt(sqrt) && !IsZero(v)
    ensures NonZero(sqrt, v)
    ensures var c := CoefficientsOf(sqrt, v);
            && (forall i :: 0 <= i < |v| ==> c.diagonal[i] >= 1.0 / sqrt(1.0 + c.normv) > 0.0)
            && Factor(c.b, Nu2(c.diagonal, c.vbarbar)) > 0.0
  {
    NonZeroVector(sqrt, v);
    SquaredDirection(sqrt, v);
    var u := Direction(sqrt, v);
    DenominatorsFor(sqrt, Dot(v, v), Prod(u, u));
    hide Dot, Sum, Alpha, Beta, Slope, IsSqrt, Diagonal, Direction, Prod, MaxCoeff, Factor;
  }

  lemma DenominatorsFor(sqrt: Fn, normv: real, w: Vec)
    requires IsSqrt(sqrt) && normv > 0.0 && sqrt(1.0 + normv) > 1.0
    requires |w| > 0 && Sum(w) == 1.0 && 0.0 < MaxCoeff(w) <= 1.0
    requires forall i :: 0 <= i < |w| ==> 0.0 <= w[i] <= MaxCoeff(w)
    ensures var alpha := Alpha(sqrt, normv, MaxCoeff(w));
            var d := Diagonal(Slope(alpha, normv), w);
            && (forall i :: 0 <= i < |w| ==> d[i] >= 1.0 / sqrt(1.0 + normv) > 0.0)
            && Factor(Beta(alpha, normv), Nu2(d, w)) > 0.0
  {
    var m := MaxCoeff(w);
    var alpha := Alpha(sqrt, normv, m);
    var d := Diagonal(Slope(alpha, normv), w);
    EntriesPositive(sqrt, normv, m, w);
    hide Alpha, Beta, IsSqrt, MaxCoeff, Slope;
    Nu2Facts(sqrt, normv, m, w, d);
    hide Nu2, Factor;
    FactorPositive(sqrt, normv, m, Nu2(d, w));
  }

  lemma Nu2Facts(sqrt: Fn, normv: real, m: real, w: Vec, d: Vec)
    requires IsSqrt(sqrt) && normv > 0.0 && sqrt(1.0 + normv) > 1.0 && m > 0.0
    requires |w| > 0 && Sum(w) == 1.0 && forall i :: 0 <= i < |w| ==> 0.0 <= w[i] <= m
    requires d == Diagonal(Slope(Alpha(sqrt, normv, m), normv), w) && forall i :: 0 <= i < |w| ==> d[i] > 0.0
    ensures var nu2 := Nu2(d, w);
            nu2 >= 0.0 && (Alpha(sqrt, normv, m) < 1.0 ==> nu2 <= m * sqrt(1.0 + normv))
  {
    hide Alpha, IsSqrt, Slope;
    var t := Prod(Inverse(d), w);
    assert Ratios(w, d, t, m, Slope(Alpha(sqrt, normv, m), normv));
    assert Nu2(d, w) == Dot(t, w);
    Nu2NonNegative(t, w, d, |w|);
    hide Ratios, Nu2, DotTo, SumTo, Prod, Inverse;
    Nu2Range(sqrt, normv, m, w, d, t);
  }

  lemma EntriesPositive(sqrt: Fn, normv: real, m: real, w: Vec)
    requires IsSqrt(sqrt) && normv > 0.0 && sqrt(1.0 + normv) > 1.0 && m > 0.0
    requires forall i :: 0 <= i < |w| ==> 0.0 <= w[i] <= m
    ensures var d := Diagonal(Slope(Alpha(sqrt, normv, m), normv), w);
            forall i :: 0 <= i < |w| ==> d[i] >= 1.0 / sqrt(1.0 + normv) > 0.0
  {
    hide IsSqrt, Alpha, Beta, Slope;
    forall i | 0 <= i < |w|
      ensures 2.0 - Slope(Alpha(sqrt, normv, m), normv) * w[i] >= 1.0 / sqrt(1.0 + normv) > 0.0
    {
      EntryBound(sqrt, normv, m, w[i]);
    }
  }

  lemma {:induction false} Nu2NonNegative(t: Vec, w: Vec, d: Vec, n: nat)
    requires n <= |w| == |t| == |d|
    requires forall i :: 0 <= i < |w| ==> d[i] > 0.0 && w[i] >= 0.0 && t[i] == 1.0 / d[i] * w[i]
    ensures DotTo(t, w, n) >= 0.0
  {
    if n > 0 {
      Nu2NonNegative(t, w, d, n - 1);
      QuotientPositive(1.0, d[n - 1]);
      ProductSign(1.0 / d[n - 1], w[n - 1], t[n - 1]);
      ProductSign(t[n - 1], w[n - 1], t[n - 1] * w[n - 1]);
    }
  }

  /** Entries d = 2 - c w and their ratios t = w / d. */
  predicate Ratios(w: Vec, d: Vec, t: Vec, m: real, c: real)
    requires |w| == |d| == |t|
  {
    forall i :: 0 <= i < |w| ==> 0.0 <= w[i] <= m && d[i] == 2.0 - c * w[i] > 0.0 && t[i] == 1.0 / d[i] * w[i]
  }

  /** nu2 is at most m sqrt(gamma) below the clamp. */
  lemma Nu2Range(sqrt: Fn, normv: real, m: real, w: Vec, d: Vec, t: Vec)
    requires IsSqrt(sqrt) && normv > 0.0 && 0.0 < m && |w| == |d| == |t| && Sum(w) == 1.0
    requires sqrt(1.0 + normv) > 1.0
    requires Ratios(w, d, t, m, Slope(Alpha(sqrt, normv, m), normv))
    ensures Alpha(sqrt, normv, m) < 1.0 ==> Dot(t, w) <= m * sqrt(1.0 + normv)
  {
    hide Slope, Alpha, IsSqrt, Ratios, DotTo, SumTo;
    if Alpha(sqrt, normv, m) < 1.0 {
      var g, c := sqrt(1.0 + normv), Slope(Alpha(sqrt, normv, m), normv);
      SlopeBound(sqrt, normv, m);
      RootTerm(sqrt, normv);
      TimesRoot(c, m, g);
      Nu2Bound(t, w, d, m, g, c, m * g, |w|);
    }
  }

  lemma TimesRoot(c: real, m: real, g: real)
    requires g != 0.0 && (1.0 / g) * g == 1.0 && c * m == 2.0 - 1.0 / g
    ensures c * m * g == 2.0 * g - 1.0
  {
    assert (2.0 - 1.0 / g) * g == 2.0 * g - (1.0 / g) * g;
  }

  lemma {:induction false} Nu2Bound(t: Vec, w: Vec, d: Vec, m: real, g: real, c: real, mg: real, n: nat)
    requires n <= |w| == |t| == |d| && g > 1.0 && c * m * g == 2.0 * g - 1.0 && mg == m * g
    requires Ratios(w, d, t, m, c)
    ensures DotTo(t, w, n) <= mg * SumTo(w, n)
  {
    if n > 0 {
      Nu2Bound(t, w, d, m, g, c, mg, n - 1);
      var x, y := w[n - 1], d[n - 1];
      RatioBound(g, m, c, x, y);
      SameRatio(x, y, t[n - 1]);
      assert mg * (SumTo(w, n - 1) + x) == mg * SumTo(w, n - 1) + mg * x;
    }
  }

  lemma SameRatio(x: real, y: real, t: real)
    requires y > 0.0 && t == 1.0 / y * x
    ensures t * x == x * x / y
  {
    var q := x * x / y;
    assert t * y == x by { assert (1.0 / y) * y == 1.0; assert t * y == ((1.0 / y) * y) * x; }
    assert (t * x - q) * y == (t * y) * x - q * y == 0.0;
    ProductSign(t * x - q, y, (t * x - q) * y);
    ProductSign(q - t * x, y, (q - t * x) * y);
  }

  /** 1 + b nu2 is positive: b is 2 at the clamp, and below it nu2 is small enough. */
  lemma FactorPositive(sqrt: Fn, normv: real, m: real, nu2: real)
    requires IsSqrt(sqrt) && normv > 0.0 && 0.0 < m <= 1.0 && nu2 >= 0.0 && sqrt(1.0 + normv) > 1.0
    requires Alpha(sqrt, normv, m) < 1.0 ==> nu2 <= m * sqrt(1.0 + normv)
    ensures Factor(Beta(Alpha(sqrt, normv, m), normv), nu2) > 0.0
  {
    var alpha := Alpha(sqrt, normv, m);
    if alpha < 1.0 {
      var g, c, b, a := BelowClamp(sqrt, normv, m);
      hide Alpha, IsSqrt, Beta, Slope, Factor;
      FactorBelowClamp(normv, g, m, c, b, a, nu2);
    } else {
      SlopeBound(sqrt, normv, m);
      hide Alpha, IsSqrt, Beta, Slope;
      ClampedBeta(normv);
    }
  }

  /** The quantities of the update below the clamp, with the equations between them. */
  lemma BelowClamp(sqrt: Fn, normv: real, m: real) returns (g: real, c: real, b: real, a: real)
    requires IsSqrt(sqrt) && normv > 0.0 && 0.0 < m && sqrt(1.0 + normv) > 1.0 && Alpha(sqrt, normv, m) < 1.0
    ensures g == sqrt(1.0 + normv) && b == Beta(Alpha(sqrt, normv, m), normv)
    ensures (1.0 / g) * g == 1.0 && c * m == 2.0 - 1.0 / g && b == c - 2.0 * a
    ensures c * (1.0 + normv) == a * ((2.0 + normv) * (2.0 + normv)) - normv * normv
  {
    hide Alpha, IsSqrt, Beta, Slope;
    var alpha := Alpha(sqrt, normv, m);
    SlopeBound(sqrt, normv, m);
    RootTerm(sqrt, normv);
    SlopeScaled(alpha, normv);
    BetaOfSlope(alpha, normv);
    g, c, b, a := sqrt(1.0 + normv), Slope(alpha, normv), Beta(alpha, normv), alpha * alpha;
  }

  lemma FactorBelowClamp(normv: real, g: real, m: real, c: real, b: real, a: real, nu2: real)
    requires normv > 0.0 && g > 1.0 && (1.0 / g) * g == 1.0 && 0.0 < m <= 1.0 && 0.0 <= nu2 <= m * g
    requires c * m == 2.0 - 1.0 / g && b == c - 2.0 * a
    requires c * (1.0 + normv) == a * ((2.0 + normv) * (2.0 + normv)) - normv * normv
    ensures Factor(b, nu2) > 0.0
  {
    TimesRoot(c, m, g);
    BetaBound(normv, g, m, c, b, a);
    AboveByRange(b, nu2, m, g, b * nu2, b * (m * g));
  }

  lemma BetaOfSlope(a: real, normv: real)
    requires normv > 0.0
    ensures Beta(a, normv) == Slope(a, normv) - 2.0 * (a * a)
  {
    hide Beta;
    assert 2.0 * a * a == 2.0 * (a * a);
  }

  lemma ClampedBeta(normv: real)
    requires normv > 0.0
    ensures Beta(1.0, normv) == 2.0
  {
    assert -(1.0 - 1.0 * 1.0) * normv * normv == 0.0;
    var q := 0.0 / (1.0 + normv);
    assert q * (1.0 + normv) == 0.0;
  }

  lemma AboveByRange(b: real, nu2: real, m: real, g: real, p: real, q: real)
    requires 0.0 <= nu2 <= m * g && b * m * g > -1.0 && p == b * nu2 && q == b * (m * g)
    ensures p > -1.0
  {
    assert q == b * m * g;
    if b >= 0.0 {
      ProductSign(b, nu2, p);
    } else {
      ProductSign(-b, m * g - nu2, p - q);
    }
  }

  // ----- the linear system

  /** The dense matrix diag(d) + b w w'. */
  function System(d: Vec, b: real, w: Vec): Mat
    requires |d| == |w|
  {
    seq(|d|, i requires 0 <= i < |d| =>
      seq(|d|, j requires 0 <= j < |d| => (if i == j then d[i] else 0.0) + b * w[i] * w[j]))
  }

  /** The vector (r - k w)/d. */
  function Form(d: Vec, w: Vec, r: Vec, k: real): (f: Vec)
    requires |d| == |w| == |r| && forall i :: 0 <= i < |d| ==> d[i] != 0.0
    ensures |f| == |d|
  {
    Sub(Prod(r, Inverse(d)), Scale(k, Prod(Inverse(d), w)))
  }

  function Nu(d: Vec, w: Vec, r: Vec): real
    requires |d| == |w| == |r| && forall i :: 0 <= i < |d| ==> d[i] != 0.0
  {
    Dot(Prod(Inverse(d), w), r)
  }

  function Multiplier(b: real, nu: real, f: real): real
    requires f != 0.0
  {
    b * nu / f
  }

  /** The linear-time solution. */
  function Solve(d: Vec, b: real, w: Vec, r: Vec): Vec
    requires |d| == |w| == |r| && forall i :: 0 <= i < |d| ==> d[i] != 0.0
    requires Factor(b, Nu2(d, w)) != 0.0
  {
    Form(d, w, r, Multiplier(b, Nu(d, w, r), Factor(b, Nu2(d, w))))
  }

  lemma RowInner(a: real, e: Vec, k: real, u: Vec, row: Vec, z: Vec, i: nat)
    requires |u| == |row| == |z| && i < |z| && e == Identity(|z|)[i]
    requires forall j :: 0 <= j < |z| ==> row[j] == Blend(a, e[j], k, u[j])
    ensures Dot(row, z) == Blend(a, z[i], k, Dot(u, z))
  {
    hide Blend;
    DotLinear(a, e, k, u, row, z, |z|);
    RowOfIdentity(z, i, |z|);
  }

  lemma SystemRow(d: Vec, b: real, w: Vec, t: Vec, i: nat)
    requires |d| == |w| == |t| && i < |d|
    ensures Dot(System(d, b, w)[i], t) == d[i] * t[i] + b * w[i] * Dot(w, t)
  {
    hide Dot;
    RowInner(d[i], Identity(|d|)[i], b * w[i], w, System(d, b, w)[i], t, i);
  }

  /** The form has inner product nu - k nu2 with w. */
  lemma InnerOfForm(d: Vec, w: Vec, r: Vec, k: real)
    requires |d| == |w| == |r| && forall i :: 0 <= i < |d| ==> d[i] != 0.0
    ensures Dot(w, Form(d, w, r, k)) == Blend(1.0, Nu(d, w, r), -k, Nu2(d, w))
  {
    var n, inv, t := |d|, Inverse(d), Form(d, w, r, k);
    var x, y := Prod(r, inv), Prod(inv, w);
    assert forall i :: 0 <= i < n ==> t[i] == Blend(1.0, x[i], -k, y[i]);
    hide Blend;
    forall i | 0 <= i < n ensures x[i] * w[i] == y[i] * r[i] {
      Regroup(r[i], inv[i], w[i]);
    }
    assert Nu(d, w, r) == Dot(y, r) && Nu2(d, w) == Dot(y, w);
    hide Form, Prod, Inverse, DotTo, Nu, Nu2;
    InnerParts(x, y, w, r, k, t);
    DotCong(x, y, w, r, n);
  }

  lemma Regroup(a: real, b: real, c: real)
    ensures (a * b) * c == (b * c) * a
  {
  }

  lemma InnerParts(x: Vec, y: Vec, w: Vec, r: Vec, k: real, t: Vec)
    requires |x| == |y| == |w| == |r| == |t|
    requires forall i :: 0 <= i < |t| ==> t[i] == Blend(1.0, x[i], -k, y[i])
    ensures Dot(w, t) == Blend(1.0, Dot(x, w), -k, Dot(y, w))
  {
    hide DotTo, Blend;
    DotLinear(1.0, x, -k, y, t, w, |t|);
    DotComm(w, t, |t|);
  }

  /** A vector has the form for k exactly when its components times d are r - k w. */
  lemma FormByComponents(d: Vec, w: Vec, r: Vec, k: real, t: Vec)
    requires |d| == |w| == |r| == |t| && forall i :: 0 <= i < |d| ==> d[i] != 0.0
    ensures t == Form(d, w, r, k) <==> forall i :: 0 <= i < |t| ==> d[i] * t[i] == r[i] - k * w[i]
  {
    var f := Form(d, w, r, k);
    forall i | 0 <= i < |t| ensures t[i] == f[i] <==> d[i] * t[i] == r[i] - k * w[i] {
      assert f[i] == r[i] * (1.0 / d[i]) - k * ((1.0 / d[i]) * w[i]);
      FormComponent(t[i], d[i], r[i], k, w[i], 1.0 / d[i]);
    }
    if forall i :: 0 <= i < |t| ==> d[i] * t[i] == r[i] - k * w[i] {
      assert t == f;
    }
  }

  lemma FormComponent(t: real, d: real, r: real, k: real, w: real, inv: real)
    requires d != 0.0 && inv == 1.0 / d
    ensures t == r * inv - k * (inv * w) <==> d * t == r - k * w
  {
    assert inv * d == 1.0;
    var f := r * inv - k * (inv * w);
    assert d * f == r * (inv * d) - (k * w) * (inv * d) == r - k * w;
    assert t == (d * t) * inv && f == (d * f) * inv;
  }

  /** The linear-time formula is the one and only solution of the dense system. */
  lemma SolveIsExact(d: Vec, b: real, w: Vec, r: Vec, t: Vec)
    requires |d| == |w| == |r| == |t| && forall i :: 0 <= i < |d| ==> d[i] != 0.0
    requires Factor(b, Nu2(d, w)) != 0.0
    ensures Apply(System(d, b, w), t) == r <==> t == Solve(d, b, w, r)
  {
    var k := b * Dot(w, t);
    forall i | 0 <= i < |t| ensures Apply(System(d, b, w), t)[i] == d[i] * t[i] + k * w[i] {
      SystemRow(d, b, w, t, i);
      hide Dot;
      assert b * w[i] * Dot(w, t) == k * w[i];
    }
    SystemIffForm(d, b, w, r, t, k);
    hide Dot, Form, Nu, Nu2, Factor, Multiplier;
    MultiplierIffForm(d, b, w, r, t, k);
  }

  lemma SystemIffForm(d: Vec, b: real, w: Vec, r: Vec, t: Vec, k: real)
    requires |d| == |w| == |r| == |t| && forall i :: 0 <= i < |d| ==> d[i] != 0.0
    requires forall i :: 0 <= i < |t| ==> Apply(System(d, b, w), t)[i] == d[i] * t[i] + k * w[i]
    ensures Apply(System(d, b, w), t) == r <==> t == Form(d, w, r, k)
  {
    FormByComponents(d, w, r, k, t);
    hide Form, Dot;
    if forall i :: 0 <= i < |t| ==> d[i] * t[i] == r[i] - k * w[i] {
      forall i | 0 <= i < |t| ensures Apply(System(d, b, w), t)[i] == r[i] {
        assert d[i] * t[i] == r[i] - k * w[i];
      }
      assert Apply(System(d, b, w), t) == r;
    }
    if Apply(System(d, b, w), t) == r {
      forall i | 0 <= i < |t| ensures d[i] * t[i] == r[i] - k * w[i] {
        assert Apply(System(d, b, w), t)[i] == r[i];
      }
    }
  }

  lemma MultiplierIffForm(d: Vec, b: real, w: Vec, r: Vec, t: Vec, k: real)
    requires |d| == |w| == |r| == |t| && forall i :: 0 <= i < |d| ==> d[i] != 0.0
    requires Factor(b, Nu2(d, w)) != 0.0 && k == b * Dot(w, t)
    ensures t == Form(d, w, r, k) <==> t == Form(d, w, r, Multiplier(b, Nu(d, w, r), Factor(b, Nu2(d, w))))
  {
    hide Form, Nu, Nu2, Dot, DotTo, Factor, Multiplier;
    var k' := Multiplier(b, Nu(d, w, r), Factor(b, Nu2(d, w)));
    if t == Form(d, w, r, k) { MultiplierOf(d, b, w, r, k, k); }
    if t == Form(d, w, r, k') { MultiplierOf(d, b, w, r, k', k); }
  }

  lemma MultiplierOf(d: Vec, b: real, w: Vec, r: Vec, k: real, bz: real)
    requires |d| == |w| == |r| && forall i :: 0 <= i < |d| ==> d[i] != 0.0
    requires Factor(b, Nu2(d, w)) != 0.0 && bz == b * Dot(w, Form(d, w, r, k))
    requires k == bz || k == Multiplier(b, Nu(d, w, r), Factor(b, Nu2(d, w)))
    ensures k == bz == Multiplier(b, Nu(d, w, r), Factor(b, Nu2(d, w)))
  {
    hide Form, Nu, Nu2, Dot, DotTo, Factor, Multiplier, Blend;
    InnerOfForm(d, w, r, k);
    SameMultiplier(b, Dot(w, Form(d, w, r, k)), Nu(d, w, r), Nu2(d, w), Factor(b, Nu2(d, w)), k, bz);
  }

  lemma SameMultiplier(b: real, z: real, nu: real, nu2: real, f: real, k: real, bz: real)
    requires f == Factor(b, nu2) && f != 0.0 && z == Blend(1.0, nu, -k, nu2) && bz == b * z
    requires k == bz || k == Multiplier(b, nu, f)
    ensures k == bz == Multiplier(b, nu, f)
  {
    var m := Multiplier(b, nu, f);
    assert m * f == b * nu;
    assert b * z == b * nu - k * (b * nu2);
    assert k * f == k + k * (b * nu2);
    if k == b * z {
      assert (k - m) * f == 0.0;
      assert k == (k * f) / f && m == (m * f) / f;
    }
  }

  // ----- the sampler and the reported covariance

  /** The rows of the sampling transform T = D(I + (sqrt(1+|v|^2) - 1) u u'), u the direction of v. */
  function Transform(sqrt: Fn, d: Vec, v: Vec): (t: Mat)
    requires |d| == |v| && sqrt(Dot(v, v)) != 0.0
    ensures IsSquare(t, |d|)
  {
    var fact, u := sqrt(1.0 + Dot(v, v)) - 1.0, Direction(sqrt, v);
    seq(|d|, i requires 0 <= i < |d| =>
      seq(|d|, j requires 0 <= j < |d| => d[i] * ((if i == j then 1.0 else 0.0) + fact * u[i] * u[j])))
  }

  /** The reported covariance D(I + vv')D. */
  function FullCov(d: Vec, v: Vec): (c: Mat)
    requires |d| == |v|
    ensures IsSquare(c, |d|)
  {
    seq(|d|, i requires 0 <= i < |d| =>
      seq(|d|, j requires 0 <= j < |d| => CovValue(d[i], d[j], if i == j then 1.0 else 0.0, v[i], v[j])))
  }

  function CovValue(di: real, dj: real, e: real, vi: real, vj: real): real {
    di * (e + vi * vj) * dj
  }

  /** Component i of T z, from z_i and the inner product s of z with the direction. */
  function RowValue(di: real, fact: real, ui: real, zi: real, s: real): real {
    di * zi + (di * fact * ui) * s
  }

  lemma TransformRow(sqrt: Fn, d: Vec, v: Vec, z: Vec, i: nat)
    requires |d| == |v| == |z| && sqrt(Dot(v, v)) != 0.0 && i < |d|
    ensures var fact, u := sqrt(1.0 + Dot(v, v)) - 1.0, Direction(sqrt, v);
            Dot(Transform(sqrt, d, v)[i], z) == RowValue(d[i], fact, u[i], z[i], Dot(u, z))
  {
    hide Dot;
    var fact, u := sqrt(1.0 + Dot(v, v)) - 1.0, Direction(sqrt, v);
    var row, e, k := Transform(sqrt, d, v)[i], Identity(|d|)[i], d[i] * fact * u[i];
    forall j | 0 <= j < |d| ensures row[j] == Blend(d[i], e[j], k, u[j]) {
      RowExpand(d[i], e[j], fact, u[i], u[j]);
    }
    RowInner(d[i], e, k, u, row, z, i);
  }

  lemma RowExpand(d: real, e: real, f: real, ui: real, uj: real)
    ensures d * (e + f * ui * uj) == Blend(d, e, d * f * ui, uj)
  {
    assert d * (f * ui * uj) == (d * f * ui) * uj;
  }

  /** The sampler draws from exactly the covariance that is reported: T T' = D(I + vv')D. */
  lemma SamplerCovariance(sqrt: Fn, d: Vec, v: Vec, i: nat, j: nat)
    requires IsSqrt(sqrt) && !IsZero(v) && |d| == |v| && i < |d| && j < |d|
    requires Dot(v, v) > 0.0 && sqrt(Dot(v, v)) > 0.0
    ensures var t := Transform(sqrt, d, v); Dot(t[i], t[j]) == FullCov(d, v)[i][j]
  {
    hide Dot, DotTo, IsSqrt, IsZero, RowValue, CovValue, Divide, Transform;
    var r, g, u := sqrt(Dot(v, v)), sqrt(1.0 + Dot(v, v)), Direction(sqrt, v);
    var t, n := Transform(sqrt, d, v), |d|;
    TransformInner(sqrt, d, v, i, j);
    var e := if i == j then 1.0 else 0.0;
    EntryAlgebra(d[i], d[j], u[i], u[j], e, g - 1.0, g, r, Dot(v, v), v[i], v[j],
                 t[j][i], Dot(u, t[j]), Dot(t[i], t[j]));
  }

  /** The inner products that enter T T', each in terms of the components. */
  lemma TransformInner(sqrt: Fn, d: Vec, v: Vec, i: nat, j: nat)
    requires IsSqrt(sqrt) && !IsZero(v) && |d| == |v| && i < |d| && j < |d|
    requires Dot(v, v) > 0.0 && sqrt(Dot(v, v)) > 0.0
    ensures var f, u, t := sqrt(1.0 + Dot(v, v)) - 1.0, Direction(sqrt, v), Transform(sqrt, d, v);
            && sqrt(1.0 + Dot(v, v)) * sqrt(1.0 + Dot(v, v)) == 1.0 + Dot(v, v)
            && sqrt(Dot(v, v)) * sqrt(Dot(v, v)) == Dot(v, v)
            && u[i] * sqrt(Dot(v, v)) == v[i] && u[j] * sqrt(Dot(v, v)) == v[j]
            && t[j][i] == d[j] * ((if i == j then 1.0 else 0.0) + f * u[j] * u[i])
            && Dot(u, t[j]) == RowValue(d[j], f, u[j], u[j], 1.0)
            && Dot(t[i], t[j]) == RowValue(d[i], f, u[i], t[j][i], Dot(u, t[j]))
  {
    var u, t := Direction(sqrt, v), Transform(sqrt, d, v);
    RootOfNorm(sqrt, v);
    UnitDirection(sqrt, v);
    TransformRow(sqrt, d, v, t[j], i);
    TransformRow(sqrt, d, v, u, j);
    assert Dot(u, t[j]) == Dot(t[j], u) by { DotComm(u, t[j], |d|); }
    hide Dot, Direction, RowValue;
  }

  lemma EntryAlgebra(di: real, dj: real, ui: real, uj: real, e: real, f: real, g: real, r: real, norm: real,
                     vi: real, vj: real, tji: real, utj: real, result: real)
    requires f == g - 1.0 && g * g == 1.0 + norm && r * r == norm && ui * r == vi && uj * r == vj
    requires tji == dj * (e + f * uj * ui)
    requires utj == RowValue(dj, f, uj, uj, 1.0)
    requires result == RowValue(di, f, ui, tji, utj)
    ensures result == CovValue(di, dj, e, vi, vj)
  {
    var a, k := di * dj, (di * dj) * (ui * uj);
    DirectTerm(di, dj, e, f, ui, uj);
    CrossTerm(di, dj, f, g, ui, uj);
    assert f + f * g == norm by { assert f * g == g * g - g; }
    assert k * f + k * (f * g) == k * (f + f * g);
    OuterTerm(ui, uj, r, a, k);
    Spread(di, dj, e, vi * vj);
  }

  lemma DirectTerm(di: real, dj: real, e: real, f: real, ui: real, uj: real)
    ensures di * (dj * (e + f * uj * ui)) == (di * dj) * e + ((di * dj) * (ui * uj)) * f
  {
  }

  lemma CrossTerm(di: real, dj: real, f: real, g: real, ui: real, uj: real)
    requires f == g - 1.0
    ensures (di * f * ui) * (dj * uj + (dj * f * uj) * 1.0) == ((di * dj) * (ui * uj)) * (f * g)
  {
    assert dj * uj + (dj * f * uj) * 1.0 == (dj * uj) * g;
    assert (di * f * ui) * ((dj * uj) * g) == ((di * dj) * (ui * uj)) * (f * g);
  }

  lemma OuterTerm(ui: real, uj: real, r: real, a: real, k: real)
    requires k == a * (ui * uj)
    ensures a * ((ui * r) * (uj * r)) == k * (r * r)
  {
    assert (ui * r) * (uj * r) == (ui * uj) * (r * r);
  }

  lemma Spread(di: real, dj: real, e: real, w: real)
    ensures di * (e + w) * dj == (di * dj) * e + (di * dj) * w
  {
  }

  /** The reported covariance is positive semidefinite, and definite when no scale is zero: its quadratic
      form is |Dx|^2 + (v'Dx)^2. */
  lemma FullCovPositive(d: Vec, v: Vec, x: Vec)
    requires |d| == |v| == |x|
    ensures Quad(FullCov(d, v), x) == Dot(Prod(d, x), Prod(d, x)) + Dot(v, Prod(d, x)) * Dot(v, Prod(d, x))
    ensures Quad(FullCov(d, v), x) >= 0.0
    ensures !IsZero(x) && (forall i :: 0 <= i < |d| ==> d[i] != 0.0) ==> Quad(FullCov(d, v), x) > 0.0
  {
    hide FullCov, DotTo, Blend, Prod, Apply;
    var y := Prod(d, x);
    var vy := Dot(v, y);
    FullCovComponents(d, v, x);
    FormBySquares(Apply(FullCov(d, v), x), x, y, v, vy);
    SquaredNormPositive(y);
    SquareSign(vy, vy * vy);
    if !IsZero(x) && (forall i :: 0 <= i < |d| ==> d[i] != 0.0) { ProdNonZero(d, x); }
  }

  lemma ProdNonZero(d: Vec, x: Vec)
    requires |d| == |x| && !IsZero(x) && forall i :: 0 <= i < |d| ==> d[i] != 0.0
    ensures !IsZero(Prod(d, x))
  {
    var i :| 0 <= i < |x| && x[i] != 0.0;
    assert Prod(d, x)[i] != 0.0;
  }

  /** Component i of the form: x_i (C x)_i = (y_i + (v'y) v_i) y_i where y = D x. */
  lemma FullCovComponents(d: Vec, v: Vec, x: Vec)
    requires |d| == |v| == |x|
    ensures var p, y := Apply(FullCov(d, v), x), Prod(d, x);
            forall i :: 0 <= i < |d| ==> p[i] * x[i] == Blend(1.0, y[i], Dot(v, y), v[i]) * y[i]
  {
    var p, y := Apply(FullCov(d, v), x), Prod(d, x);
    var vy := Dot(v, y);
    forall i | 0 <= i < |d| ensures p[i] * x[i] == Blend(1.0, y[i], vy, v[i]) * y[i] {
      FullCovRow(d, v, x, i);
      assert p[i] == Dot(FullCov(d, v)[i], x) && y[i] == d[i] * x[i];
      hide FullCov, Dot, Prod, Apply, Blend;
      ComponentAlgebra(d[i], x[i], v[i], vy, p[i], y[i]);
    }
  }

  lemma ComponentAlgebra(d: real, x: real, v: real, vy: real, p: real, y: real)
    requires p == d * (d * x + v * vy) && y == d * x
    ensures p * x == Blend(1.0, y, vy, v) * y
  {
    assert p * x == (y + v * vy) * (d * x);
  }

  lemma FormBySquares(p: Vec, x: Vec, y: Vec, v: Vec, vy: real)
    requires |p| == |x| == |y| == |v| && vy == Dot(v, y)
    requires forall i :: 0 <= i < |x| ==> p[i] * x[i] == Blend(1.0, y[i], vy, v[i]) * y[i]
    ensures Dot(x, p) == Dot(y, y) + vy * vy
  {
    hide DotTo;
    var n := |x|;
    var q := seq(n, i requires 0 <= i < n => Blend(1.0, y[i], vy, v[i]));
    DotComm(x, p, n);
    DotCong(p, q, x, y, n);
    DotLinear(1.0, y, vy, v, q, y, n);
  }

  lemma FullCovRow(d: Vec, v: Vec, x: Vec, i: nat)
    requires |d| == |v| == |x| && i < |d|
    ensures Dot(FullCov(d, v)[i], x) == d[i] * (d[i] * x[i] + v[i] * Dot(v, Prod(d, x)))
  {
    hide DotTo, FullCov, Prod, Identity, Blend;
    var a, k := d[i] * d[i], d[i] * v[i];
    RowParts(d, v, x, i, a, k);
    DotCong(Prod(d, v), v, x, Prod(d, x), |d|);
    RowInner(a, Identity(|d|)[i], k, Prod(d, v), FullCov(d, v)[i], x, i);
    Collect(d[i], x[i], v[i], Dot(v, Prod(d, x)), a, k);
  }

  lemma RowParts(d: Vec, v: Vec, x: Vec, i: nat, a: real, k: real)
    requires |d| == |v| == |x| && i < |d| && a == d[i] * d[i] && k == d[i] * v[i]
    ensures |FullCov(d, v)[i]| == |Identity(|d|)[i]| == |Prod(d, v)| == |Prod(d, x)| == |d|
    ensures forall j :: 0 <= j < |d| ==> FullCov(d, v)[i][j] == Blend(a, Identity(|d|)[i][j], k, Prod(d, v)[j])
    ensures forall j :: 0 <= j < |d| ==> Prod(d, v)[j] * x[j] == v[j] * Prod(d, x)[j]
  {
    hide Blend;
    var row, e, dv, y := FullCov(d, v)[i], Identity(|d|)[i], Prod(d, v), Prod(d, x);
    forall j | 0 <= j < |d| ensures row[j] == Blend(a, e[j], k, dv[j]) && dv[j] * x[j] == v[j] * y[j] {
      FullCovEntry(d, v, i, j, a, k);
      PulledOut(d[j], v[j], x[j], Prod(d, v)[j], Prod(d, x)[j]);
    }
  }

  lemma FullCovEntry(d: Vec, v: Vec, i: nat, j: nat, a: real, k: real)
    requires |d| == |v| && i < |d| && j < |d| && a == d[i] * d[i] && k == d[i] * v[i]
    ensures FullCov(d, v)[i][j] == Blend(a, Identity(|d|)[i][j], k, Prod(d, v)[j])
  {
    hide Blend;
    var e := Identity(|d|)[i][j];
    assert FullCov(d, v)[i][j] == CovValue(d[i], d[j], e, v[i], v[j]);
    CovEntry(d[i], d[j], e, v[i], v[j], i == j, a, k, Prod(d, v)[j]);
  }

  lemma PulledOut(d: real, v: real, x: real, dv: real, dx: real)
    requires dv == d * v && dx == d * x
    ensures dv * x == v * dx
  {
  }

  lemma CovEntry(di: real, dj: real, e: real, vi: real, vj: real, same: bool, a: real, k: real, dv: real)
    requires if same then e == 1.0 && di == dj else e == 0.0
    requires a == di * di && k == di * vi && dv == dj * vj
    ensures CovValue(di, dj, e, vi, vj) == Blend(a, e, k, dv)
  {
    Spread(di, dj, e, vi * vj);
    assert (di * dj) * (vi * vj) == (di * vi) * (dj * vj);
  }

  lemma Collect(d: real, x: real, v: real, s: real, a: real, k: real)
    requires a == d * d && k == d * v
    ensures Blend(a, x, k, s) == d * (d * x + v * s)
  {
  }
}
