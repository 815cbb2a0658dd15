/** What the separable and the VD variant lose: their rates when a restart re-derives them, and the
    normalisation of a path when a variant replaces its rate alone. */
module VariantRates {
  import opened RealFunctions
  import opened Parameters

  // ----- restarts

  /** Re-deriving the rates, as every restart does, never gives back those of the variant, in any dimension
      and for any population. */
  lemma RestartLosesVariantRates(sqrt: Fn, dim: nat, muw: real)
    requires IsSqrt(sqrt) && dim >= 1 && muw >= 1.0
    ensures DefaultRates(sqrt, dim, muw) != SepVariant(sqrt, dim, muw)
    ensures DefaultRates(sqrt, dim, muw) != VdVariant(sqrt, dim, muw)
  {
    hide IsSqrt, C1, SepC1, VdC1, DefaultCMu, SepCMu, VdCMu, CC, SepCC, CSigma, VdCSigma;
    RankOneRateKept(dim, muw);
    if dim == 1 { SepDiffersAtOne(sqrt, muw); }
    if dim == 11 { VdDiffersAtEleven(sqrt, muw); }
  }

  /** The rank-one rate alone is that of the separable variant in dimension one only, and that of the VD
      variant in dimension eleven only. */
  lemma RankOneRateKept(dim: nat, muw: real)
    requires dim >= 1 && muw >= 1.0
    ensures C1(dim, muw) == SepC1(dim, muw) <==> dim == 1
    ensures C1(dim, muw) == VdC1(dim, muw) <==> dim == 11
  {
    C1Range(dim, muw);
    hide C1;
    UnchangedFactor(C1(dim, muw), SepFactor(dim));
    UnchangedFactor(C1(dim, muw), VdFactor(dim));
  }

  lemma UnchangedFactor(c: real, k: real)
    requires c > 0.0
    ensures c == Scaled(c, k) <==> k == 1.0
  {
    if k > 1.0 { ProductSign(c, k - 1.0, c * (k - 1.0)); }
    if k < 1.0 { ProductSign(c, 1.0 - k, c * (1.0 - k)); }
  }

  /** In one dimension the two rates of the covariance path agree for an effective number of two alone, and
      there the two rank-mu rates differ. */
  lemma SepDiffersAtOne(sqrt: Fn, muw: real)
    requires IsSqrt(sqrt) && muw >= 1.0
    ensures CC(1, muw) == SepCC(sqrt, 1, muw) <==> muw == 2.0
    ensures CC(1, muw) == SepCC(sqrt, 1, muw) ==> DefaultCMu(1, muw) != SepCMu(sqrt, 1, muw)
  {
    SqrtOfSquare(sqrt, 1.0, 1.0);
    hide IsSqrt;
    OneDimensionalPath(sqrt, muw);
    hide CC, SepCC;
    EqualQuotients(4.0 + muw, 5.0 + 2.0 * muw, 2.0 + muw, 2.0 + 2.0 * muw);
    assert (4.0 + muw) * (2.0 + 2.0 * muw) - (2.0 + muw) * (5.0 + 2.0 * muw) == muw - 2.0;
    if muw == 2.0 { OneDimensionalRates(sqrt); }
  }

  lemma OneDimensionalPath(sqrt: Fn, muw: real)
    requires IsSqrt(sqrt) && sqrt(1.0) == 1.0 && muw >= 1.0
    ensures CC(1, muw) == (4.0 + muw) / (5.0 + 2.0 * muw)
    ensures SepCC(sqrt, 1, muw) == (2.0 + muw) / (2.0 + 2.0 * muw)
  {
    hide IsSqrt;
    assert muw / 1.0 == muw && 2.0 * muw / 1.0 == 2.0 * muw && 1.0 / 1.0 == 1.0;
  }

  lemma OneDimensionalRates(sqrt: Fn)
    requires IsSqrt(sqrt) && sqrt(1.0) == 1.0
    ensures DefaultCMu(1, 2.0) < SepCMu(sqrt, 1, 2.0)
  {
    hide IsSqrt;
    assert Square(1.0 + 1.3) == 5.29 && Square(1.0 + 2.0) == 9.0;
    assert C1(1, 2.0) == 2.0 / 7.29 && SepFactor(1) == 1.0;
    assert CMuRaw(1, 2.0) == 1.0 / 11.0 && SepCMuRaw(sqrt, 1, 2.0) == 0.8 / 6.0;
  }

  /** Two quotients with positive denominators agree exactly when the crossed products do. */
  lemma EqualQuotients(p: real, q: real, r: real, s: real)
    requires q > 0.0 && s > 0.0
    ensures p / q == r / s <==> p * s == r * q
  {
    var a, b := p / q, r / s;
    assert a * q == p && b * s == r;
    ProductSign(q, s, q * s);
    assert p * s == a * (q * s) && r * q == b * (q * s);
    if a != b { ProductSign(a - b, q * s, (a - b) * (q * s)); ProductSign(b - a, q * s, (b - a) * (q * s)); }
  }

  /** In eleven dimensions the VD variant's step-size path is slower than the default one. */
  lemma VdDiffersAtEleven(sqrt: Fn, muw: real)
    requires IsSqrt(sqrt) && muw >= 1.0
    ensures CSigma(sqrt, 11, muw) != VdCSigma(sqrt, 11, muw)
  {
    var r, y := sqrt(11.0), sqrt(muw);
    SqrtMonotone(sqrt, 9.0, 11.0);
    SqrtOfSquare(sqrt, 9.0, 3.0);
    SqrtMonotone(sqrt, muw, muw);
    assert y * y == muw;
    hide IsSqrt;
    EqualQuotients(muw + 2.0, 16.0 + muw, y, 2.0 * (r + y));
    CrossedAtEleven(r, y, muw);
  }

  lemma CrossedAtEleven(r: real, y: real, muw: real)
    requires r >= 3.0 && y > 0.0 && muw == y * y
    ensures (muw + 2.0) * (2.0 * (r + y)) > y * (16.0 + muw)
  {
    var s := y * y;
    ProductSign(y, s, y * s);
    ProductSign(r - 3.0, s, (r - 3.0) * s);
    SquareSign(y - 1.0, (y - 1.0) * (y - 1.0));
    assert (s + 2.0) * (2.0 * (r + y)) - y * (16.0 + s)
        == y * s + 2.0 * ((r - 3.0) * s) + 6.0 * ((y - 1.0) * (y - 1.0)) + 6.0 + 4.0 * (r - 3.0);
  }

  // ----- the covariance path of the separable variant

  /** From four dimensions on the separable variant's covariance path is faster than the default one, so the
      factor that the initialisation left no longer normalises it. */
  lemma SepPathFaster(sqrt: Fn, dim: nat, muw: real)
    requires IsSqrt(sqrt) && dim >= 4 && muw >= 1.0
    ensures CC(dim, muw) < SepCC(sqrt, dim, muw)
    ensures PathVariance(CC(dim, muw), muw) < PathVariance(SepCC(sqrt, dim, muw), muw)
    ensures !IsRootOf(PathFactor(sqrt, CC(dim, muw), muw), PathVariance(SepCC(sqrt, dim, muw), muw))
  {
    SepPathCrossed(sqrt, dim, muw);
    CCRange(dim, muw);
    SepCCRange(sqrt, dim, muw);
    PathRoot(sqrt, CC(dim, muw), muw);
    hide IsSqrt, CC, SepCC, PathVariance;
    PathVarianceIncreasing(CC(dim, muw), SepCC(sqrt, dim, muw), muw);
  }

  lemma SepPathCrossed(sqrt: Fn, dim: nat, muw: real)
    requires IsSqrt(sqrt) && dim >= 4 && muw >= 1.0
    ensures CC(dim, muw) < SepCC(sqrt, dim, muw)
  {
    hide IsSqrt, CC, SepCC, IsRootOf;
    var u, v := PathRateForms(sqrt, dim, muw);
    RootAtLeastTwo(sqrt, dim);
    CrossedRates(dim as real, sqrt(dim as real), u, v, CC(dim, muw), SepCC(sqrt, dim, muw));
  }

  lemma RootAtLeastTwo(sqrt: Fn, dim: nat)
    requires IsSqrt(sqrt) && dim >= 4
    ensures sqrt(dim as real) >= 2.0 && IsRootOf(sqrt(dim as real), dim as real)
  {
    SqrtMonotone(sqrt, 4.0, dim as real);
    SqrtOfSquare(sqrt, 4.0, 2.0);
  }

  lemma CrossedRates(d: real, r: real, u: real, v: real, cc: real, sepCC: real)
    requires r >= 2.0 && IsRootOf(r, d) && u > 0.0 && v > 0.0 && d > 0.0
    requires cc * (d + 4.0 + 2.0 * v) == 4.0 + v && sepCC * (r + u + 2.0 * v) == 1.0 + u + v
    ensures cc < sepCC
  {
    var p, q, t, s := 4.0 + v, d + 4.0 + 2.0 * v, 1.0 + u + v, r + u + 2.0 * v;
    CrossedPaths(d, r, u, v, p, q, t, s);
    SmallerQuotient(cc, q, sepCC, s, p, t);
  }

  lemma PathRateForms(sqrt: Fn, dim: nat, muw: real) returns (u: real, v: real)
    requires IsSqrt(sqrt) && dim >= 1 && muw >= 1.0
    ensures u > 0.0 && v > 0.0
    ensures CC(dim, muw) * (dim as real + 4.0 + 2.0 * v) == 4.0 + v
    ensures SepCC(sqrt, dim, muw) * (sqrt(dim as real) + u + 2.0 * v) == 1.0 + u + v
  {
    SqrtMonotone(sqrt, dim as real, dim as real);
    hide IsSqrt;
    u, v := 1.0 / dim as real, muw / dim as real;
    QuotientPositive(1.0, dim as real);
    QuotientPositive(muw, dim as real);
    assert 2.0 * muw / dim as real == 2.0 * v;
  }

  lemma CrossedPaths(d: real, r: real, u: real, v: real, p: real, q: real, t: real, s: real)
    requires r >= 2.0 && d == r * r && u > 0.0 && v > 0.0
    requires p == 4.0 + v && q == d + 4.0 + 2.0 * v && t == 1.0 + u + v && s == r + u + 2.0 * v
    ensures p * s < t * q
  {
    var a, b := r - 2.0, r + 1.0;
    ProductSign(a, b, a * b);
    ProductSign(v, a * b, v * (a * b));
    ProductSign(u, v, u * v);
    ProductSign(r, r, d);
    ProductSign(u, d, u * d);
    SquareSign(a, a * a);
    assert a * b == d - r - 2.0 && a * a == d - 4.0 * r + 4.0;
    assert (1.0 + u + v) * (d + 4.0 + 2.0 * v) - (4.0 + v) * (r + u + 2.0 * v)
        == a * a + u * d + v * (a * b) + u * v;
  }

  lemma SmallerQuotient(a: real, q: real, b: real, s: real, p: real, r: real)
    requires q > 0.0 && s > 0.0 && a * q == p && b * s == r && p * s < r * q
    ensures a < b
  {
    ProductSign(q, s, q * s);
    assert p * s == a * (q * s) && r * q == b * (q * s);
    if a >= b { ProductSign(a - b, q * s, (a - b) * (q * s)); }
  }
}
