/** The equations behind the learning rates: what each computed rate solves, without the quotients and the
    roots through which it is computed. */
module RateLaws {
  import opened LinearAlgebra
  import opened RealFunctions
  import opened Parameters
  import Solutions
  import ActiveCovariance

  /** The step-size path forgets in the proportion muw + 2 to dim + 3; from a thousand dimensions on the
      roots of both take their place. */
  lemma PathRateOdds(sqrt: Fn, dim: nat, muw: real, rd: real, rm: real)
    requires IsSqrt(sqrt) && dim >= 1 && muw >= 1.0 && IsRootOf(rd, dim as real) && IsRootOf(rm, muw)
    ensures var c := CSigma(sqrt, dim, muw);
            if dim < 1000 then c * (dim as real + 3.0) == (1.0 - c) * (muw + 2.0)
            else c * (rd + 1.0) == (1.0 - c) * (rm + 2.0)
    ensures var v := VdCSigma(sqrt, dim, muw); v * (2.0 * rd + rm) == (1.0 - v) * rm
  {
    SqrtOfSquare(sqrt, dim as real, rd);
    SqrtOfSquare(sqrt, muw, rm);
    var c, v := CSigma(sqrt, dim, muw), VdCSigma(sqrt, dim, muw);
    if dim < 1000 {
      assert c * (dim as real + muw + 5.0) == muw + 2.0;
    } else {
      assert c * (rd + rm + 3.0) == rm + 2.0;
    }
    VdCSigmaRange(sqrt, dim, muw);
    assert rd + rm > 0.0 by { SqrtMonotone(sqrt, muw, muw); }
    assert v * (2.0 * (rd + rm)) == rm;
  }

  /** The rank-one rate of the three variants. */
  lemma RankOneRates(dim: nat, muw: real)
    requires dim >= 1 && muw >= 1.0
    ensures var d, c := dim as real, C1(dim, muw); c * ((d + 1.3) * (d + 1.3) + muw) == 2.0
    ensures 3.0 * SepC1(dim, muw) == C1(dim, muw) * (dim as real + 2.0)
    ensures 6.0 * VdC1(dim, muw) == C1(dim, muw) * (dim as real - 5.0)
  {
    var d := dim as real;
    SquareSign(d + 1.3, Square(d + 1.3));
    assert C1(dim, muw) * (Square(d + 1.3) + muw) == 2.0;
    hide C1;
    assert 3.0 * SepFactor(dim) == d + 2.0 && 6.0 * VdFactor(dim) == d - 5.0;
  }

  /** The rank-mu rate is what the selection supports, or as much of it as the rank-one rate leaves. */
  lemma ClampedRates(sqrt: Fn, dim: nat, muw: real)
    requires IsSqrt(sqrt) && dim >= 1 && muw >= 1.0
    ensures IsClamped(DefaultRates(sqrt, dim, muw), CMuRaw(dim, muw))
    ensures IsClamped(SepVariant(sqrt, dim, muw), SepCMuRaw(sqrt, dim, muw))
    ensures IsClamped(VdVariant(sqrt, dim, muw), Scaled(VdFactor(dim), CMuRaw(dim, muw)))
  {
    hide C1, SepC1, VdC1, CMuRaw, SepCMuRaw, Scaled, CC, SepCC, CSigma, VdCSigma;
  }

  predicate IsClamped(r: Rates, raw: real) {
    if r.c1 + raw <= 1.0 then r.cmu == raw else r.c1 + r.cmu == 1.0
  }

  /** What the selection supports grows with the squared excess of muw over one. */
  lemma SelectionSupport(dim: nat, muw: real)
    requires dim >= 1 && muw >= 1.0
    ensures var d := dim as real;
            CMuRaw(dim, muw) * ((d + 2.0) * (d + 2.0) + muw) * muw == 2.0 * ((muw - 1.0) * (muw - 1.0))
  {
    var q, g := Square(dim as real + 2.0) + muw, muw - 2.0 + 1.0 / muw;
    SquareSign(dim as real + 2.0, Square(dim as real + 2.0));
    assert CMuRaw(dim, muw) * q == 2.0 * g;
    assert g * muw == (muw - 1.0) * (muw - 1.0);
    hide CMuRaw;
    assert CMuRaw(dim, muw) * q * muw == 2.0 * (g * muw);
  }

  lemma SepSelectionSupport(sqrt: Fn, dim: nat, muw: real, rd: real)
    requires IsSqrt(sqrt) && dim >= 1 && muw >= 1.0 && IsRootOf(rd, dim as real)
    ensures SepCMuRaw(sqrt, dim, muw) * (dim as real + 4.0 * rd + muw / 2.0) * muw
         == 0.3 * muw + (muw - 1.0) * (muw - 1.0)
  {
    SqrtOfSquare(sqrt, dim as real, rd);
    var q, g := dim as real + 4.0 * rd + muw / 2.0, 0.3 + muw - 2.0 + 1.0 / muw;
    assert SepCMuRaw(sqrt, dim, muw) * q == g;
    assert g * muw == 0.3 * muw + (muw - 1.0) * (muw - 1.0);
    hide SepCMuRaw;
    assert SepCMuRaw(sqrt, dim, muw) * q * muw == g * muw;
  }

  /** The covariance path forgets in the proportion 4 dim + muw to dim^2 + muw. */
  lemma CovariancePathOdds(dim: nat, muw: real)
    requires dim >= 1 && muw >= 1.0
    ensures var d, c := dim as real, CC(dim, muw); c * (d * d + muw) == (1.0 - c) * (4.0 * d + muw)
  {
    var d, m := dim as real, muw / dim as real;
    QuotientPositive(muw, d);
    assert 2.0 * muw / d == 2.0 * m;
    assert CC(dim, muw) * (d + 4.0 + 2.0 * m) == 4.0 + m;
    hide CC;
    ClearedOdds(CC(dim, muw), d, m, muw);
  }

  /** That of the separable variant in the proportion dim + 1 + muw to dim sqrt(dim) + muw - dim. */
  lemma SepPathOdds(sqrt: Fn, dim: nat, muw: real, rd: real)
    requires IsSqrt(sqrt) && dim >= 1 && muw >= 1.0 && IsRootOf(rd, dim as real)
    ensures var d, c := dim as real, SepCC(sqrt, dim, muw);
            c * (d * rd + muw - d) == (1.0 - c) * (d + 1.0 + muw)
  {
    SqrtOfSquare(sqrt, dim as real, rd);
    SqrtMonotone(sqrt, dim as real, dim as real);
    hide IsSqrt;
    var d, m, u := dim as real, muw / dim as real, 1.0 / dim as real;
    QuotientPositive(muw, d);
    QuotientPositive(1.0, d);
    assert 2.0 * muw / d == 2.0 * m;
    CrossMultiplied(1.0 + u + m, rd + u + 2.0 * m, SepCC(sqrt, dim, muw));
    hide SepCC;
    ClearedSepOdds(SepCC(sqrt, dim, muw), d, rd, m, u, muw);
  }

  lemma CrossMultiplied(p: real, q: real, c: real)
    requires q > 0.0 && c == p / q
    ensures c * q == p
  {
  }

  lemma ClearedOdds(c: real, d: real, m: real, muw: real)
    requires m * d == muw && c * (d + 4.0 + 2.0 * m) == 4.0 + m
    ensures c * (d * d + muw) == (1.0 - c) * (4.0 * d + muw)
  {
    assert c * (d + 4.0 + 2.0 * m) * d == c * (d * d + 4.0 * d + 2.0 * (m * d));
  }

  lemma ClearedSepOdds(c: real, d: real, rd: real, m: real, u: real, muw: real)
    requires m * d == muw && u * d == 1.0 && c * (rd + u + 2.0 * m) == 1.0 + u + m
    ensures c * (d * rd + muw - d) == (1.0 - c) * (d + 1.0 + muw)
  {
    assert c * (rd + u + 2.0 * m) * d == c * (d * rd + u * d + 2.0 * (m * d));
  }

  /** The damping exceeds its least value 1 + csigma exactly when muw is above dim + 2, and then by twice
      the excess over one of the root of (muw - 1) / (dim + 1). */
  lemma DampingLaw(sqrt: Fn, dim: nat, muw: real, csigma: real)
    requires IsSqrt(sqrt) && dim >= 1 && muw >= 1.0
    ensures DSigma(sqrt, dim, muw, csigma) == 1.0 + csigma <==> muw <= dim as real + 2.0
    ensures var e := (DSigma(sqrt, dim, muw, csigma) - 1.0 - csigma) / 2.0 + 1.0;
            muw >= dim as real + 2.0 ==> e * e * (dim as real + 1.0) == muw - 1.0
  {
    var r, q := sqrt(DampingRatio(dim, muw)), DampingRatio(dim, muw);
    QuotientPositive(muw - 1.0, (dim + 1) as real);
    assert q * (dim as real + 1.0) == muw - 1.0;
    hide DampingRatio;
    ProductSign(q - 1.0, dim as real + 1.0, (q - 1.0) * (dim as real + 1.0));
    ProductSign(1.0 - q, dim as real + 1.0, (1.0 - q) * (dim as real + 1.0));
    assert (r - 1.0) * (r + 1.0) == q - 1.0;
    ProductSign(r - 1.0, r + 1.0, q - 1.0);
    ProductSign(1.0 - r, r + 1.0, 1.0 - q);
  }

  /** The square of chi lies close above dim - 1/2, as that of the expected length of a normal vector. */
  lemma ChiLaw(sqrt: Fn, dim: nat)
    requires IsSqrt(sqrt) && dim >= 1
    ensures var d, x := dim as real, Chi(sqrt, dim);
            1.0 < 8.0 * d * (x * x - d + 0.5) && 6.0 * d * (x * x - d + 0.5) < 1.0
  {
    var d, s := dim as real, sqrt(dim as real);
    var u := 1.0 / d;
    QuotientPositive(1.0, d);
    if u > 1.0 { ProductSign(u - 1.0, d, (u - 1.0) * d); }
    var f := 1.0 - u / 4.0 + (u * u) / 21.0;
    assert Chi(sqrt, dim) == s * f by {
      Reciprocal(4.0 * d, u / 4.0);
      assert 21.0 * d * d * ((u * u) / 21.0) == (u * d) * (u * d);
      ProductSign(d, d, d * d);
      Reciprocal(21.0 * d * d, (u * u) / 21.0);
    }
    hide Chi;
    var x := Chi(sqrt, dim);
    assert x * x == d * (f * f) by { assert (s * f) * (s * f) == (s * s) * (f * f); }
    ChiExpansion(d, u, f);
    ChiRange(u, d * (d * (f * f) - d + 0.5));
  }

  lemma Reciprocal(a: real, r: real)
    requires a > 0.0 && a * r == 1.0
    ensures 1.0 / a == r
  {
    var q := 1.0 / a;
    assert q == q * (a * r) == (q * a) * r;
  }

  lemma ChiExpansion(d: real, u: real, f: real)
    requires u * d == 1.0 && f == 1.0 - u / 4.0 + (u * u) / 21.0
    ensures d * (d * (f * f) - d + 0.5) == 1.0 / 16.0 + 2.0 / 21.0 - u / 42.0 + (u * u) / 441.0
  {
    var v := u * u;
    assert d * f == d - 0.25 + u / 21.0 by { assert d * v == (u * d) * u; }
    assert d * (d * (f * f)) == (d * f) * (d * f);
    assert (d - 0.25 + u / 21.0) * (d - 0.25 + u / 21.0)
        == d * d - 0.5 * d + (2.0 / 21.0) * (u * d) + 0.0625 - u / 42.0 + v / 441.0;
  }

  lemma ChiRange(u: real, t: real)
    requires 0.0 < u <= 1.0 && t == 1.0 / 16.0 + 2.0 / 21.0 - u / 42.0 + (u * u) / 441.0
    ensures 1.0 < 8.0 * t && 6.0 * t < 1.0
  {
    ProductSign(u, 1.0 - u, u * (1.0 - u));
    SquareSign(u, u * u);
    assert u * (1.0 - u) == u - u * u;
  }

  /** The path factor keeps the length of a path over a neutral step, one whose selected mean has the
      variance 1/muw of the path and is uncorrelated with it. */
  lemma PathFactorLaw(sqrt: Fn, c: real, muw: real, path: Vec, step: Vec)
    requires IsSqrt(sqrt) && 0.0 < c < 1.0 && muw >= 1.0 && |path| == |step|
    requires Dot(path, step) == 0.0 && muw * Dot(step, step) == Dot(path, path)
    ensures var next := Solutions.NextPath(path, c, PathFactor(sqrt, c, muw), step); Dot(next, next) == Dot(path, path)
  {
    hide PathFactor, Dot;
    PathRoot(sqrt, c, muw);
    Solutions.PathLengthKept(path, c, PathFactor(sqrt, c, muw), step, muw);
  }

  /** Ten times dim decompositions per unit of total rate. */
  lemma LazyLaw(c1: real, cmu: real, dim: nat)
    requires c1 + cmu != 0.0 && dim >= 1
    ensures LazyValue(c1, cmu, dim) * (10.0 * dim as real) * (c1 + cmu) == 1.0
  {
    var r := 1.0 / (c1 + cmu);
    var t := r / dim as real;
    assert r * (c1 + cmu) == 1.0 && t * dim as real == r;
  }

  /** The cap on the negative rate, below a sixteenth of what the rank-mu rate leaves. */
  lemma RateCapLaw(p: Solutions.UpdateParameters, sqrt: Fn, rd: real)
    requires ActiveCovariance.ActiveParameters(p) && IsSqrt(sqrt) && IsRootOf(rd, (p.dim + 2) as real)
    ensures var d, cap := (p.dim + 2) as real, ActiveCovariance.RateCap(p, sqrt);
            && 8.0 * cap * (d * rd + 2.0 * p.muw) == (1.0 - p.cmu) * p.alphacov * p.muw
            && 16.0 * cap < (1.0 - p.cmu) * p.alphacov
  {
    var d := (p.dim + 2) as real;
    SqrtOfSquare(sqrt, d, rd);
    SqrtMonotone(sqrt, d, d);
    ProductSign(d, rd, d * rd);
    var q, h := d * rd + 2.0 * p.muw, (1.0 - p.cmu) * p.alphacov;
    var f := p.muw / q;
    ProductSign(1.0 - p.cmu, p.alphacov, h);
    assert ActiveCovariance.RateCap(p, sqrt) == h / 8.0 * f;
    hide ActiveCovariance.RateCap;
    CapAlgebra(h, f, d * rd, p.muw, q, h / 8.0 * f);
  }

  lemma CapAlgebra(h: real, f: real, w: real, muw: real, q: real, cap: real)
    requires h > 0.0 && w > 0.0 && muw > 0.0 && q == w + 2.0 * muw && f * q == muw && cap == h / 8.0 * f
    ensures 8.0 * cap * q == h * muw && 16.0 * cap < h
  {
    if f <= 0.0 { ProductSign(-f, q, -f * q); }
    ProductSign(f, w, f * w);
    assert f * q == f * w + f * (2.0 * muw);
    if f >= 0.5 { ProductSign(f - 0.5, muw, (f - 0.5) * muw); }
    ProductSign(h, 0.5 - f, h * (0.5 - f));
  }
}
