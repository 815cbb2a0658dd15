/** The strategy parameters: recombination weights, their effective number, and the learning rates that
    follow from them. */
module Parameters {
  import opened LinearAlgebra
  import opened RealFunctions
  import opened Solutions
  import opened ActiveCovariance

  /** The target for the smallest eigenvalue that the active update leaves. */
  const TARGET := 0.66

  // ----- recombination weights

  /** The logarithmic weight of rank i, before normalisation. */
  function RawWeight(log: Fn, mu: nat, i: nat): real {
    log((mu + 1) as real) - log((i + 1) as real)
  }

  function RawWeights(log: Fn, mu: nat): (w: Vec)
    ensures |w| == mu
  {
    seq(mu, i requires 0 <= i < mu => RawWeight(log, mu, i))
  }

  /** Better ranks weigh strictly more, and every rank weighs something. */
  lemma RawWeightsOrdered(log: Fn, mu: nat, i: nat, j: nat)
    requires IsLog(log) && i < j < mu
    ensures RawWeight(log, mu, i) > RawWeight(log, mu, j) > 0.0
  {
  }

  lemma RawWeightPositive(log: Fn, mu: nat, i: nat)
    requires IsLog(log) && i < mu
    ensures RawWeight(log, mu, i) > 0.0
  {
    assert 0.0 < (i + 1) as real < (mu + 1) as real;
  }

  /** The sum of the squared deviations of v from t. */
  function Deviations(v: Vec, t: real, n: nat): real
    requires n <= |v|
  {
    if n == 0 then 0.0 else Deviations(v, t, n - 1) + (v[n - 1] - t) * (v[n - 1] - t)
  }

  /** The same sum, multiplied out, from the sum of squares q, the sum s and the count m. */
  function Expanded(q: real, s: real, t: real, m: real): real {
    q - 2.0 * t * s + m * (t * t)
  }

  lemma ExpandedStep(q: real, s: real, t: real, m: real, a: real, q': real, s': real, m': real)
    requires q' == q + a * a && s' == s + a && m' == m + 1.0
    ensures Expanded(q', s', t, m') == Expanded(q, s, t, m) + (a - t) * (a - t) >= Expanded(q, s, t, m)
  {
    SquareSign(a - t, (a - t) * (a - t));
    assert (a - t) * (a - t) == a * a - 2.0 * t * a + t * t;
  }

  lemma NothingExpanded(t: real)
    ensures Expanded(0.0, 0.0, t, 0.0) == 0.0
  {
  }

  lemma {:induction false} DeviationsExpand(v: Vec, t: real, n: nat)
    requires n <= |v|
    ensures Deviations(v, t, n) == Expanded(DotTo(v, v, n), SumTo(v, n), t, n as real)
    ensures Deviations(v, t, n) >= 0.0
  {
    hide Expanded;
    if n == 0 {
      NothingExpanded(t);
    } else {
      DeviationsExpand(v, t, n - 1);
      ExpandedStep(DotTo(v, v, n - 1), SumTo(v, n - 1), t, (n - 1) as real, v[n - 1],
                   DotTo(v, v, n), SumTo(v, n), n as real);
    }
  }

  /** Cauchy-Schwarz for a sum: (sum v)^2 is at most n times the sum of squares. */
  lemma SumSquaredAtMost(v: Vec, n: nat)
    requires 0 < n <= |v|
    ensures SumTo(v, n) * SumTo(v, n) <= n as real * DotTo(v, v, n)
  {
    hide DotTo, SumTo, Deviations, Expanded;
    var s, q, m := SumTo(v, n), DotTo(v, v, n), n as real;
    var t := s / m;
    DeviationsExpand(v, t, n);
    CauchyFinish(s, q, m, t);
  }

  lemma CauchyFinish(s: real, q: real, m: real, t: real)
    requires m > 0.0 && t == s / m && Expanded(q, s, t, m) >= 0.0
    ensures s * s <= m * q
  {
    var d := Expanded(q, s, t, m);
    assert t * m == s;
    ProductSign(m, d, m * d);
    assert m * d == m * q - 2.0 * (t * m) * s + (t * m) * (t * m);
  }

  /** For non-negative entries the squared sum is at least the sum of squares. */
  lemma {:induction false} SumSquaredAtLeast(v: Vec, n: nat)
    requires n <= |v| && forall i :: 0 <= i < n ==> v[i] >= 0.0
    ensures SumTo(v, n) >= 0.0 && SumTo(v, n) * SumTo(v, n) >= DotTo(v, v, n)
  {
    if n > 0 {
      SumSquaredAtLeast(v, n - 1);
      var s, a := SumTo(v, n - 1), v[n - 1];
      ProductSign(s, a, s * a);
      assert (s + a) * (s + a) == s * s + 2.0 * (s * a) + a * a;
    }
  }

  /** The effective number of weights. */
  function Muw(w: Vec): real
    requires Dot(w, w) != 0.0
  {
    Sum(w) * Sum(w) / Dot(w, w)
  }

  /** It lies between one and the number of weights. */
  lemma MuwRange(w: Vec)
    requires |w| > 0 && forall i :: 0 <= i < |w| ==> w[i] > 0.0
    ensures Sum(w) > 0.0 && Dot(w, w) > 0.0
    ensures 1.0 <= Muw(w) <= |w| as real
  {
    assert w[0] != 0.0;
    SquaredNormPositive(w);
    SumNonNegative(w, |w|);
    assert w[0] <= Sum(w);
    SumSquaredAtMost(w, |w|);
    SumSquaredAtLeast(w, |w|);
    hide Sum, Dot;
    QuotientRange(Sum(w) * Sum(w), Dot(w, w), |w| as real);
  }

  lemma QuotientRange(s: real, q: real, m: real)
    requires q > 0.0 && q <= s <= m * q
    ensures 1.0 <= s / q <= m
  {
    var r := s / q;
    assert r * q == s;
    if r < 1.0 { ProductSign(1.0 - r, q, (1.0 - r) * q); }
    if r > m { ProductSign(r - m, q, (r - m) * q); }
  }

  // ----- learning rates, as functions of the dimension and the effective number of weights

  function Square(a: real): real { a * a }

  function CSigma(sqrt: Fn, dim: nat, muw: real): real
    requires IsSqrt(sqrt) && dim >= 1 && muw >= 1.0
  {
    SqrtMonotone(sqrt, dim as real, dim as real);
    if dim < 1000 then (muw + 2.0) / (dim as real + muw + 5.0)
    else (sqrt(muw) + 2.0) / (sqrt(dim as real) + sqrt(muw) + 3.0)
  }

  function CC(dim: nat, muw: real): real
    requires dim >= 1 && muw >= 1.0
  {
    QuotientPositive(muw, dim as real);
    (4.0 + muw / dim as real) / (dim as real + 4.0 + 2.0 * muw / dim as real)
  }

  function C1(dim: nat, muw: real): real
    requires dim >= 1 && muw >= 1.0
  {
    SquareSign(dim as real + 1.3, Square(dim as real + 1.3));
    2.0 / (Square(dim as real + 1.3) + muw)
  }

  /** What the selection could support, before it is clamped to 1 - c1. */
  function CMuRaw(dim: nat, muw: real): real
    requires dim >= 1 && muw >= 1.0
  {
    SquareSign(dim as real + 2.0, Square(dim as real + 2.0));
    2.0 * (muw - 2.0 + 1.0 / muw) / (Square(dim as real + 2.0) + muw)
  }

  function DSigma(sqrt: Fn, dim: nat, muw: real, csigma: real): (d: real)
    ensures d >= 1.0 + csigma
  {
    1.0 + csigma + 2.0 * Max(0.0, sqrt(DampingRatio(dim, muw)) - 1.0)
  }

  function Chi(sqrt: Fn, dim: nat): real
    requires dim >= 1
  {
    sqrt(dim as real) * (1.0 - 1.0 / (4.0 * dim as real) + 1.0 / (21.0 * dim as real * dim as real))
  }

  /** The normalisation of a path with rate c. */
  function PathFactor(sqrt: Fn, c: real, muw: real): real {
    sqrt(PathVariance(c, muw))
  }

  /** After how much of an iteration the eigen decomposition is out of date. */
  function LazyValue(c1: real, cmu: real, dim: nat): real
    requires c1 + cmu != 0.0 && dim >= 1
  {
    1.0 / (c1 + cmu) / dim as real / 10.0
  }

  /** A rank-one rate scaled by a factor of the variant. */
  function Scaled(c: real, factor: real): real {
    c * factor
  }

  lemma ProperFraction(p: real, q: real)
    requires 0.0 < p < q
    ensures 0.0 < p / q < 1.0
  {
    var r := p / q;
    QuotientPositive(p, q);
    if r >= 1.0 { ProductSign(r - 1.0, q, (r - 1.0) * q); }
  }

  /** muw - 2 + 1/muw is a square over muw, so it is non-negative, and zero only at one. */
  lemma SelectionMass(muw: real)
    requires muw >= 1.0
    ensures muw - 2.0 + 1.0 / muw >= 0.0
    ensures muw - 2.0 + 1.0 / muw == 0.0 <==> muw == 1.0
  {
    var g := muw - 2.0 + 1.0 / muw;
    assert g * muw == (muw - 1.0) * (muw - 1.0);
    SquareSign(muw - 1.0, g * muw);
    if g < 0.0 { ProductSign(-g, muw, -g * muw); }
    if g > 0.0 { ProductSign(g, muw, g * muw); }
  }

  lemma C1Range(dim: nat, muw: real)
    requires dim >= 1 && muw >= 1.0
    ensures 0.0 < C1(dim, muw) < 1.0
  {
    var a := dim as real + 1.3;
    SquareSign(a, Square(a));
    ProductMonotone(2.3, a, 2.3, a);
    ProperFraction(2.0, Square(a) + muw);
  }

  lemma CMuRawNonNegative(dim: nat, muw: real)
    requires dim >= 1 && muw >= 1.0
    ensures CMuRaw(dim, muw) >= 0.0
    ensures CMuRaw(dim, muw) == 0.0 <==> muw == 1.0
  {
    var q := Square(dim as real + 2.0) + muw;
    SquareSign(dim as real + 2.0, Square(dim as real + 2.0));
    SelectionMass(muw);
    QuotientPositive(2.0 * (muw - 2.0 + 1.0 / muw), q);
    var r := CMuRaw(dim, muw);
    assert r * q == 2.0 * (muw - 2.0 + 1.0 / muw);
  }

  lemma CSigmaRange(sqrt: Fn, dim: nat, muw: real)
    requires IsSqrt(sqrt) && dim >= 1 && muw >= 1.0
    ensures 0.0 < CSigma(sqrt, dim, muw) < 1.0
  {
    SqrtMonotone(sqrt, dim as real, dim as real);
    SqrtMonotone(sqrt, muw, muw);
    hide IsSqrt;
    if dim < 1000 {
      ProperFraction(muw + 2.0, dim as real + muw + 5.0);
    } else {
      ProperFraction(sqrt(muw) + 2.0, sqrt(dim as real) + sqrt(muw) + 3.0);
    }
  }

  lemma CCRange(dim: nat, muw: real)
    requires dim >= 1 && muw >= 1.0
    ensures 0.0 < CC(dim, muw) < 1.0
  {
    var d := dim as real;
    QuotientPositive(muw, d);
    assert 2.0 * muw / d == 2.0 * (muw / d);
    ProperFraction(4.0 + muw / d, d + 4.0 + 2.0 * muw / d);
  }

  lemma ChiPositive(sqrt: Fn, dim: nat)
    requires IsSqrt(sqrt) && dim >= 1
    ensures Chi(sqrt, dim) > 0.0
  {
    var d := dim as real;
    SqrtMonotone(sqrt, d, d);
    ProperFraction(1.0, 4.0 * d);
    ProductSign(d, d, d * d);
    QuotientPositive(1.0, 21.0 * d * d);
    var f := 1.0 - 1.0 / (4.0 * d) + 1.0 / (21.0 * d * d);
    ProductSign(sqrt(d), f, sqrt(d) * f);
  }

  /** What the factor of a path with rate c squares to, so that the path keeps its variance. */
  function PathVariance(c: real, muw: real): real {
    c * (2.0 - c) * muw
  }

  lemma PathVarianceIncreasing(c: real, c': real, muw: real)
    requires 0.0 < c < c' < 1.0 && muw > 0.0
    ensures PathVariance(c, muw) < PathVariance(c', muw)
  {
    var a, b := c * (2.0 - c), c' * (2.0 - c');
    ProductSign(c' - c, 2.0 - c - c', (c' - c) * (2.0 - c - c'));
    assert b - a == (c' - c) * (2.0 - c - c');
    ProductSign(b - a, muw, (b - a) * muw);
  }

  /** A factor belongs to one rate only. */
  lemma OneRatePerFactor(f: real, c: real, c': real, muw: real)
    requires 0.0 < c < 1.0 && 0.0 < c' < 1.0 && muw > 0.0 && IsRootOf(f, PathVariance(c, muw))
    ensures IsRootOf(f, PathVariance(c', muw)) <==> c == c'
  {
    hide PathVariance;
    if c < c' { PathVarianceIncreasing(c, c', muw); }
    if c' < c { PathVarianceIncreasing(c', c, muw); }
  }

  /** The path factor is a real root. */
  lemma PathRoot(sqrt: Fn, c: real, muw: real)
    requires IsSqrt(sqrt) && 0.0 < c < 1.0 && muw >= 1.0
    ensures PathVariance(c, muw) > 0.0 && IsRootOf(PathFactor(sqrt, c, muw), PathVariance(c, muw))
  {
    ProductSign(c, 2.0 - c, c * (2.0 - c));
    ProductSign(c * (2.0 - c), muw, c * (2.0 - c) * muw);
  }

  /** The argument of the root in the damping. */
  function DampingRatio(dim: nat, muw: real): real {
    (muw - 1.0) / (dim + 1) as real
  }

  /** Every square root the initialisation takes is of a non-negative number. */
  lemma RootArguments(sqrt: Fn, dim: nat, muw: real)
    requires IsSqrt(sqrt) && dim >= 1 && muw >= 1.0
    ensures IsRootOf(sqrt(dim as real), dim as real) && IsRootOf(sqrt(muw), muw)
    ensures IsRootOf(sqrt(DampingRatio(dim, muw)), DampingRatio(dim, muw))
  {
    QuotientPositive(muw - 1.0, (dim + 1) as real);
  }

  // ----- variants

  /** The separable variant's rates stay in range in every dimension. */
  lemma SepRates(sqrt: Fn, dim: nat, muw: real)
    requires IsSqrt(sqrt) && dim >= 1 && muw >= 1.0
    ensures 0.0 < SepC1(dim, muw) < 1.0
    ensures SepCMuRaw(sqrt, dim, muw) > 0.0
    ensures 0.0 < SepCC(sqrt, dim, muw) < 1.0
  {
    hide IsSqrt, SepC1, SepCMuRaw, SepCC;
    SepC1Range(dim, muw);
    SepCMuPositive(sqrt, dim, muw);
    SepCCRange(sqrt, dim, muw);
  }

  lemma SepCMuPositive(sqrt: Fn, dim: nat, muw: real)
    requires IsSqrt(sqrt) && dim >= 1 && muw >= 1.0
    ensures SepCMuRaw(sqrt, dim, muw) > 0.0
  {
    hide IsSqrt;
    SqrtMonotone(sqrt, dim as real, dim as real);
    SelectionMass(muw);
    QuotientPositive(0.3 + muw - 2.0 + 1.0 / muw, dim as real + 4.0 * sqrt(dim as real) + muw / 2.0);
  }

  lemma SepCCRange(sqrt: Fn, dim: nat, muw: real)
    requires IsSqrt(sqrt) && dim >= 1 && muw >= 1.0
    ensures 0.0 < SepCC(sqrt, dim, muw) < 1.0
  {
    hide IsSqrt;
    var d, r := dim as real, sqrt(dim as real);
    SqrtMonotone(sqrt, 1.0, d);
    SqrtOfSquare(sqrt, 1.0, 1.0);
    QuotientPositive(1.0, d);
    QuotientPositive(muw, d);
    assert 2.0 * muw / d == 2.0 * (muw / d);
    ProperFraction(1.0 + 1.0 / d + muw / d, r + 1.0 / d + 2.0 * muw / d);
  }

  /** The separable variant scales the rank-one rate by (dim + 2)/3. */
  function SepFactor(dim: nat): real {
    (dim as real + 2.0) / 3.0
  }
  function SepC1(dim: nat, muw: real): real
    requires dim >= 1 && muw >= 1.0
  {
    Scaled(C1(dim, muw), SepFactor(dim))
  }

  lemma SepC1Range(dim: nat, muw: real)
    requires dim >= 1 && muw >= 1.0
    ensures 0.0 < SepC1(dim, muw) < 1.0
  {
    var d, c := dim as real, C1(dim, muw);
    var q := Square(d + 1.3) + muw;
    C1Range(dim, muw);
    SquareSign(d + 1.3, Square(d + 1.3));
    assert c * q == 2.0;
    assert Square(d + 1.3) == d * d + 2.6 * d + 1.69;
    ProductSign(d, d, d * d);
    var k := SepFactor(dim);
    hide C1, Square;
    ScaledBelowOne(c, q, k);
  }

  /** The same from any smaller rank-one rate, such as the noisy one. */
  lemma SepC1From(dim: nat, muw: real, c: real)
    requires dim >= 1 && muw >= 1.0 && 0.0 < c <= C1(dim, muw)
    ensures 0.0 < Scaled(c, SepFactor(dim)) < 1.0
  {
    SepC1Range(dim, muw);
    hide C1, Scaled;
    ScaledSign(c, SepFactor(dim));
    ScaledMonotone(c, C1(dim, muw), SepFactor(dim));
  }

  lemma ScaledBelowOne(c: real, q: real, k: real)
    requires c > 0.0 && c * q == 2.0 && 0.0 < 2.0 * k < q
    ensures 0.0 < c * k < 1.0
  {
    ProductSign(c, k, c * k);
    ProductSign(c, q - 2.0 * k, c * (q - 2.0 * k));
    assert c * (q - 2.0 * k) == c * q - 2.0 * (c * k);
  }

  function SepCMuRaw(sqrt: Fn, dim: nat, muw: real): real
    requires IsSqrt(sqrt) && dim >= 1 && muw >= 1.0
  {
    SqrtMonotone(sqrt, dim as real, dim as real);
    (0.3 + muw - 2.0 + 1.0 / muw) / (dim as real + 4.0 * sqrt(dim as real) + muw / 2.0)
  }

  function SepCC(sqrt: Fn, dim: nat, muw: real): real
    requires IsSqrt(sqrt) && dim >= 1 && muw >= 1.0
  {
    SqrtMonotone(sqrt, dim as real, dim as real);
    QuotientPositive(1.0, dim as real);
    QuotientPositive(muw, dim as real);
    assert 2.0 * muw / dim as real == 2.0 * (muw / dim as real);
    (1.0 + 1.0 / dim as real + muw / dim as real)
    / (sqrt(dim as real) + 1.0 / dim as real + 2.0 * muw / dim as real)
  }

  /** VD-CMA scales the rank-one rate by (dim - 5)/6. */
  function VdFactor(dim: nat): real {
    (dim as real - 5.0) / 6.0
  }

  function VdC1(dim: nat, muw: real): real
    requires dim >= 1 && muw >= 1.0
  {
    Scaled(C1(dim, muw), VdFactor(dim))
  }

  /** Its rank-mu rate beside a rank-one rate c1. */
  function VdCMuFrom(c1: real, dim: nat, muw: real): real
    requires dim >= 1 && muw >= 1.0
  {
    Min(1.0 - c1, Scaled(VdFactor(dim), CMuRaw(dim, muw)))
  }

  /** The rate of its step-size path. */
  function VdCSigma(sqrt: Fn, dim: nat, muw: real): real
    requires IsSqrt(sqrt) && dim >= 1 && muw >= 1.0
  {
    SqrtMonotone(sqrt, dim as real, dim as real);
    sqrt(muw) / (2.0 * (sqrt(dim as real) + sqrt(muw)))
  }

  lemma VdCSigmaRange(sqrt: Fn, dim: nat, muw: real)
    requires IsSqrt(sqrt) && dim >= 1 && muw >= 1.0
    ensures 0.0 < VdCSigma(sqrt, dim, muw) < 1.0
  {
    SqrtMonotone(sqrt, dim as real, dim as real);
    SqrtMonotone(sqrt, muw, muw);
    hide IsSqrt;
    ProperFraction(sqrt(muw), 2.0 * (sqrt(dim as real) + sqrt(muw)));
  }

  function VdCMu(dim: nat, muw: real): real
    requires dim >= 1 && muw >= 1.0
  {
    VdCMuFrom(VdC1(dim, muw), dim, muw)
  }

  /** Its rates are meaningful exactly above five dimensions: the rank-one rate is positive iff dim > 5,
      and the rank-mu rate is non-negative iff dim >= 5 or a single weight is in use. */
  lemma VdRatesIff(dim: nat, muw: real)
    requires dim >= 1 && muw >= 1.0
    ensures VdC1(dim, muw) > 0.0 <==> dim > 5
    ensures VdCMu(dim, muw) >= 0.0 <==> dim >= 5 || muw == 1.0
    ensures VdC1(dim, muw) < 1.0 && VdC1(dim, muw) + VdCMu(dim, muw) <= 1.0
  {
    C1Range(dim, muw);
    hide C1, VdCMuFrom, Scaled;
    VdRatesFrom(dim, muw, C1(dim, muw));
  }

  /** The same from any smaller rank-one rate, such as the noisy one. */
  lemma VdRatesFrom(dim: nat, muw: real, c: real)
    requires dim >= 1 && muw >= 1.0 && 0.0 < c <= C1(dim, muw)
    ensures var d := Scaled(c, VdFactor(dim));
            && (d > 0.0 <==> dim > 5) && d < 1.0
            && (VdCMuFrom(d, dim, muw) >= 0.0 <==> dim >= 5 || muw == 1.0)
            && d + VdCMuFrom(d, dim, muw) <= 1.0
  {
    var f, m, h := VdFactor(dim), CMuRaw(dim, muw), C1(dim, muw);
    CMuRawNonNegative(dim, muw);
    VdC1Below(dim, muw);
    assert VdC1(dim, muw) == Scaled(h, f);
    hide C1, CMuRaw, VdC1;
    ScaledSign(c, f);
    ScaledSign(f, m);
    ScaledMonotone(c, h, f);
    hide Scaled;
  }

  lemma ScaledSign(c: real, f: real)
    ensures c > 0.0 ==> (Scaled(c, f) > 0.0 <==> f > 0.0) && (Scaled(c, f) == 0.0 <==> f == 0.0)
    ensures f >= 0.0 && c >= 0.0 ==> Scaled(c, f) >= 0.0
    ensures f > 0.0 ==> (Scaled(c, f) > 0.0 <==> c > 0.0) && (Scaled(c, f) == 0.0 <==> c == 0.0)
    ensures c < 0.0 && f > 0.0 ==> Scaled(c, f) < 0.0
    ensures c == 0.0 || f == 0.0 ==> Scaled(c, f) == 0.0
  {
    ProductSign(c, f, c * f);
    ProductSign(c, -f, -(c * f));
    ProductSign(-c, f, -(c * f));
  }

  lemma ScaledMonotone(c: real, h: real, f: real)
    requires 0.0 < c <= h
    ensures f >= 0.0 ==> Scaled(c, f) <= Scaled(h, f)
    ensures f < 0.0 ==> Scaled(c, f) < 0.0
  {
    ProductSign(h - c, f, (h - c) * f);
    ProductSign(c, -f, -(c * f));
  }

  lemma VdC1Below(dim: nat, muw: real)
    requires dim >= 1 && muw >= 1.0
    ensures VdC1(dim, muw) < 1.0
  {
    var c, f, k := C1(dim, muw), VdFactor(dim), SepFactor(dim);
    C1Range(dim, muw);
    SepC1Range(dim, muw);
    ProductSign(c, k - f, c * (k - f));
  }

  /** The rates that a variant replaces. */
  datatype Rates = Rates(c1: real, cmu: real, cc: real, csigma: real)

  function DefaultCMu(dim: nat, muw: real): real
    requires dim >= 1 && muw >= 1.0
  {
    Min(1.0 - C1(dim, muw), CMuRaw(dim, muw))
  }

  function SepCMu(sqrt: Fn, dim: nat, muw: real): real
    requires IsSqrt(sqrt) && dim >= 1 && muw >= 1.0
  {
    Min(1.0 - SepC1(dim, muw), SepCMuRaw(sqrt, dim, muw))
  }

  /** The rates of the full covariance. */
  function DefaultRates(sqrt: Fn, dim: nat, muw: real): Rates
    requires IsSqrt(sqrt) && dim >= 1 && muw >= 1.0
  {
    Rates(C1(dim, muw), DefaultCMu(dim, muw), CC(dim, muw), CSigma(sqrt, dim, muw))
  }

  /** The rates of the separable variant. */
  function SepVariant(sqrt: Fn, dim: nat, muw: real): Rates
    requires IsSqrt(sqrt) && dim >= 1 && muw >= 1.0
  {
    Rates(SepC1(dim, muw), SepCMu(sqrt, dim, muw), SepCC(sqrt, dim, muw), CSigma(sqrt, dim, muw))
  }

  /** The rates of the VD variant. */
  function VdVariant(sqrt: Fn, dim: nat, muw: real): Rates
    requires IsSqrt(sqrt) && dim >= 1 && muw >= 1.0
  {
    Rates(VdC1(dim, muw), VdCMu(dim, muw), CC(dim, muw), VdCSigma(sqrt, dim, muw))
  }

  // ----- the program

  lemma RawWeightAt(log: Fn, mu: nat, i: nat)
    requires i < mu
    ensures RawWeights(log, mu)[i] == log((mu + 1) as real) - log((i + 1) as real)
  {
  }

  lemma PrefixZero(v: Vec)
    ensures SumTo(v, 0) == 0.0 == DotTo(v, v, 0) && Sum(v) == SumTo(v, |v|) && Dot(v, v) == DotTo(v, v, |v|)
  {
  }

  lemma PrefixStep(v: Vec, i: nat, w: real)
    requires i < |v| && w == v[i]
    ensures SumTo(v, i + 1) == SumTo(v, i) + w && DotTo(v, v, i + 1) == DotTo(v, v, i) + w * w
  {
  }

  class CmaParameters {
    var dim: nat
    var lambda: nat
    var mu: nat
    var weights: Vec
    var muw: real
    var csigma: real
    var cc: real
    var c1: real
    var cmu: real
    var dsigma: real
    var factPs: real
    var factPc: real
    var chi: real
    var lazyValue: real
    var deltamaxsigma: real
    var rlambda: real
    var alphathuh: real
    var sep: bool
    var vd: bool
    var tpa: int
    var algo: int
    const cm := 1.0
    const alphacov := 2.0
    const alphaminusold := 0.5
    const lambdamintarget := TARGET
    const alphaminusmin := 1.0

    /** What holds of the weights and rates after initialisation, whatever the population size. */
    ghost predicate Sound()
      reads this
    {
      && dim >= 1 && lambda >= 2 && mu == lambda / 2 && |weights| == mu
      && (forall i :: 0 <= i < mu ==> weights[i] > 0.0)
      && (forall i, j :: 0 <= i < j < mu ==> weights[i] > weights[j])
      && Sum(weights) == 1.0 && 1.0 <= muw <= mu as real
      && RatesSound()
    }

    ghost predicate RatesSound()
      reads this
    {
      && 0.0 < csigma < 1.0 && 0.0 < cc < 1.0
      && 0.0 < c1 < 1.0 && 0.0 <= cmu && c1 + cmu <= 1.0
      && dsigma >= 1.0 && chi > 0.0 && deltamaxsigma > 0.0
    }

    /** The rates as they stand. */
    function Current(): Rates
      reads `c1, `cmu, `cc, `csigma
    {
      Rates(c1, cmu, cc, csigma)
    }

    /** Each path factor is the real root that belongs to the rate of its path. */
    predicate PathsNormalised()
      reads `factPs, `factPc, `csigma, `cc, `muw
    {
      IsRootOf(factPs, PathVariance(csigma, muw)) && IsRootOf(factPc, PathVariance(cc, muw))
    }

    /** The constants derived from the rates, as initialisation leaves them. */
    ghost predicate Derived(dblMax: real, sqrt: Fn)
      requires dim >= 1 && lambda >= 1 && c1 + cmu != 0.0
      reads this
    {
      && dsigma == DSigma(sqrt, dim, muw, csigma) && chi == Chi(sqrt, dim)
      && factPs == PathFactor(sqrt, csigma, muw) && factPc == PathFactor(sqrt, cc, muw)
      && lazyValue == LazyValue(c1, cmu, dim)
      && deltamaxsigma == dblMax && rlambda == Max(0.1, 2.0 / lambda as real)
      && alphathuh == 1.0 + 2.0 / (dim as real + 10.0)
    }

    /** A population size below two stands for the default 4 + floor(3 log dim). */
    constructor (dim: nat, lambda: int, dblMax: real, log: Fn, sqrt: Fn)
      requires dim >= 1 && dblMax > 0.0 && IsLog(log) && IsSqrt(sqrt)
      ensures Sound() && PathsNormalised() && this.dim == dim
      ensures lambda >= 2 ==> this.lambda == lambda
      ensures lambda < 2 ==> this.lambda == 4 + (3.0 * log(dim as real)).Floor >= 4
      ensures !sep && !vd && tpa == 1 && algo == 0 && Current() == DefaultRates(sqrt, dim, muw)
    {
      hide IsLog, IsSqrt, DefaultRates, DSigma, Chi, Derived, IsRootOf, Sound, PathsNormalised, RawWeights, Muw, Sum,
        Dot;
      this.dim, sep, vd, tpa, algo := dim, false, false, 1, 0;
      this.lambda := if lambda < 2 then DefaultLambda(log, dim) else lambda;
      new;
      InitializeParameters(dblMax, log, sqrt);
    }

    /** Weights, effective number and rates from the current dimension and population size. */
    method InitializeParameters(dblMax: real, log: Fn, sqrt: Fn)
      requires dim >= 1 && lambda >= 2 && dblMax > 0.0 && IsLog(log) && IsSqrt(sqrt)
      modifies `mu, `weights, `muw, `csigma, `cc, `c1, `cmu, `dsigma, `factPs, `factPc, `chi, `lazyValue,
        `deltamaxsigma, `rlambda, `alphathuh
      ensures Sound()
      ensures Sum(RawWeights(log, mu)) != 0.0 && Dot(RawWeights(log, mu), RawWeights(log, mu)) != 0.0
      ensures weights == Divide(RawWeights(log, mu), Sum(RawWeights(log, mu)))
      ensures muw == Muw(RawWeights(log, mu))
      ensures Current() == DefaultRates(sqrt, dim, muw) && Derived(dblMax, sqrt) && PathsNormalised()
      ensures IsRootOf(sqrt(DampingRatio(dim, muw)), DampingRatio(dim, muw))
    {
      hide IsLog, IsSqrt, DefaultRates, DSigma, Chi, Derived, IsRootOf;
      mu := lambda / 2;
      InitializeWeights(log);
      InitializeRates(dblMax, sqrt);
    }

    method InitializeWeights(log: Fn)
      requires mu >= 1 && IsLog(log)
      modifies `weights, `muw
      ensures |weights| == mu && Sum(weights) == 1.0 && 1.0 <= muw <= mu as real
      ensures forall i :: 0 <= i < mu ==> weights[i] > 0.0
      ensures forall i, j :: 0 <= i < j < mu ==> weights[i] > weights[j]
      ensures Sum(RawWeights(log, mu)) != 0.0 && Dot(RawWeights(log, mu), RawWeights(log, mu)) != 0.0
      ensures weights == Divide(RawWeights(log, mu), Sum(RawWeights(log, mu)))
      ensures muw == Muw(RawWeights(log, mu))
    {
      hide RawWeight, IsLog;
      ghost var raw := RawWeights(log, mu);
      var sum, squares := AccumulateWeights(log);
      forall j | 0 <= j < mu ensures raw[j] > 0.0 { RawWeightPositive(log, mu, j); }
      MuwRange(raw);
      Normalised(raw, log);
      assert Muw(raw) == sum * sum / squares;
      hide SumTo, DotTo, RawWeights, Muw;
      weights := Divide(weights, sum);
      muw := sum * sum / squares;
    }

    /** Fills the raw weights and sums them and their squares. */
    method AccumulateWeights(log: Fn) returns (sum: real, squares: real)
      modifies `weights
      ensures weights == RawWeights(log, mu) && sum == Sum(weights) && squares == Dot(weights, weights)
    {
      hide RawWeights, SumTo, DotTo;
      ghost var raw := RawWeights(log, mu);
      PrefixZero(raw);
      weights := Zeros(mu);
      sum, squares := 0.0, 0.0;
      var i := 0;
      while i < mu
        invariant 0 <= i <= mu == |weights|
        invariant forall j :: 0 <= j < i ==> weights[j] == raw[j]
        invariant sum == SumTo(raw, i) && squares == DotTo(raw, raw, i)
      {
        var w := log((mu + 1) as real) - log((i + 1) as real);
        RawWeightAt(log, mu, i);
        PrefixStep(raw, i, w);
        weights := weights[i := w];
        sum := sum + weights[i];
        squares := squares + weights[i] * weights[i];
        i := i + 1;
      }
      assert weights == raw;
    }

    lemma Normalised(raw: Vec, log: Fn)
      requires IsLog(log) && raw == RawWeights(log, |raw|) && Sum(raw) > 0.0
      ensures var w := Divide(raw, Sum(raw));
              && Sum(w) == 1.0
              && (forall i :: 0 <= i < |raw| ==> w[i] > 0.0)
              && (forall i, j :: 0 <= i < j < |raw| ==> w[i] > w[j])
    {
      hide SumTo, RawWeight, IsLog;
      var s, w := Sum(raw), Divide(raw, Sum(raw));
      forall i | 0 <= i < |raw| ensures w[i] > 0.0 && raw[i] == s * w[i] + 0.0 * w[i] {
        RawWeightPositive(log, |raw|, i);
        QuotientPositive(raw[i], s);
      }
      forall i, j | 0 <= i < j < |raw| ensures w[i] > w[j] {
        RawWeightsOrdered(log, |raw|, i, j);
        if w[i] <= w[j] { ProductSign(w[j] - w[i], s, (w[j] - w[i]) * s); }
      }
      UnitSum(s, w, raw);
    }

    lemma UnitSum(s: real, w: Vec, raw: Vec)
      requires |w| == |raw| && forall i :: 0 <= i < |raw| ==> raw[i] == s * w[i] + 0.0 * w[i]
      requires s == SumTo(raw, |raw|) > 0.0
      ensures SumTo(w, |w|) == 1.0
    {
      hide SumTo;
      SumLinear(s, w, 0.0, w, raw, |raw|);
      UnitFactor(s, SumTo(raw, |raw|), SumTo(w, |w|));
    }

    lemma UnitFactor(s: real, r: real, t: real)
      requires s == r > 0.0 && r == s * t + 0.0 * t
      ensures t == 1.0
    {
      ProductSign(t - 1.0, s, (t - 1.0) * s);
      ProductSign(1.0 - t, s, (1.0 - t) * s);
    }

    method InitializeRates(dblMax: real, sqrt: Fn)
      requires dim >= 1 && lambda >= 2 && muw >= 1.0 && dblMax > 0.0 && IsSqrt(sqrt)
      modifies `csigma, `cc, `c1, `cmu, `dsigma, `factPs, `factPc, `chi, `lazyValue, `deltamaxsigma, `rlambda,
        `alphathuh
      ensures RatesSound()
      ensures Current() == DefaultRates(sqrt, dim, muw) && Derived(dblMax, sqrt) && PathsNormalised()
      ensures IsRootOf(sqrt(DampingRatio(dim, muw)), DampingRatio(dim, muw))
    {
      hide IsSqrt, CSigma, CC, C1, CMuRaw, Derived, IsRootOf, DampingRatio;
      CSigmaRange(sqrt, dim, muw);
      CCRange(dim, muw);
      C1Range(dim, muw);
      CMuRawNonNegative(dim, muw);
      csigma := CSigma(sqrt, dim, muw);
      cc := CC(dim, muw);
      c1 := C1(dim, muw);
      cmu := CMuRaw(dim, muw);
      cmu := Min(1.0 - c1, cmu);
      DeriveConstants(dblMax, sqrt);
    }

    /** Damping, path factors, expected norm, lazy value and noise constants, from the rates. */
    method DeriveConstants(dblMax: real, sqrt: Fn)
      requires dim >= 1 && lambda >= 2 && muw >= 1.0 && IsSqrt(sqrt)
      requires 0.0 < csigma < 1.0 && 0.0 < cc < 1.0 && c1 + cmu > 0.0
      modifies `dsigma, `factPs, `factPc, `chi, `lazyValue, `deltamaxsigma, `rlambda, `alphathuh
      ensures Derived(dblMax, sqrt) && PathsNormalised() && dsigma >= 1.0 && chi > 0.0 && deltamaxsigma == dblMax
      ensures IsRootOf(sqrt(DampingRatio(dim, muw)), DampingRatio(dim, muw))
    {
      hide IsSqrt, Chi, PathFactor, LazyValue, DSigma, Max, IsRootOf, PathVariance, DampingRatio;
      ChiPositive(sqrt, dim);
      RootArguments(sqrt, dim, muw);
      PathRoot(sqrt, csigma, muw);
      PathRoot(sqrt, cc, muw);
      dsigma := DSigma(sqrt, dim, muw, csigma);
      factPs := PathFactor(sqrt, csigma, muw);
      factPc := PathFactor(sqrt, cc, muw);
      chi := Chi(sqrt, dim);
      lazyValue := LazyValue(c1, cmu, dim);
      deltamaxsigma := dblMax;
      rlambda := Max(0.1, 2.0 / lambda as real);
      alphathuh := 1.0 + 2.0 / (dim as real + 10.0);
    }

    /** The noisy variant: five times the population, a fifth of the rank-one rate. */
    method SetNoisy(dblMax: real, log: Fn, sqrt: Fn)
      requires Sound() && dblMax > 0.0 && IsLog(log) && IsSqrt(sqrt)
      modifies this
      ensures Sound() && lambda == 5 * old(lambda) && dim == old(dim)
      ensures c1 == 0.2 * C1(dim, muw) && cmu == Min(1.0 - c1, 0.2 * CMuRaw(dim, muw)) && PathsNormalised()
    {
      hide IsLog, IsSqrt, C1, CMuRaw, CSigma, CC, Muw, RawWeights, Derived, SumTo, DotTo, Divide, IsRootOf;
      lambda := 5 * lambda;
      InitializeParameters(dblMax, log, sqrt);
      CMuRawNonNegative(dim, muw);
      c1 := c1 * 0.2;
      cmu := Min(1.0 - c1, 0.2 * CMuRaw(dim, muw));
    }

    /** The separable variant, sound from the default rank-one rate and from any smaller one. */
    method SetSep(sqrt: Fn)
      requires Sound() && IsSqrt(sqrt)
      modifies `sep, `c1, `cmu, `lazyValue, `cc
      ensures sep && c1 == Scaled(old(c1), SepFactor(dim)) && cmu == Min(1.0 - c1, SepCMuRaw(sqrt, dim, muw))
      ensures cc == SepCC(sqrt, dim, muw) && c1 + cmu > 0.0 && lazyValue == LazyValue(c1, cmu, dim)
      ensures old(c1) <= C1(dim, muw) ==> Sound()
      ensures old(Current()) == DefaultRates(sqrt, dim, muw) ==> Current() == SepVariant(sqrt, dim, muw)
      ensures old(PathsNormalised()) ==> (PathsNormalised() <==> cc == old(cc))
    {
      hide IsSqrt, C1, SepCMuRaw, SepCC, CMuRaw, CC, CSigma, SumTo, Scaled, LazyValue, IsRootOf, PathVariance;
      SepRates(sqrt, dim, muw);
      ScaledSign(c1, SepFactor(dim));
      if c1 <= C1(dim, muw) { SepC1From(dim, muw, c1); }
      sep := true;
      c1 := Scaled(c1, SepFactor(dim));
      cmu := Min(1.0 - c1, SepCMuRaw(sqrt, dim, muw));
      lazyValue := LazyValue(c1, cmu, dim);
      SetSepPath(sqrt);
    }

    /** The separable rate of the covariance path; the factor of the path stays. */
    method SetSepPath(sqrt: Fn)
      requires dim >= 1 && muw >= 1.0 && 0.0 < cc < 1.0 && IsSqrt(sqrt)
      modifies `cc
      ensures 0.0 < cc < 1.0 && cc == SepCC(sqrt, dim, muw)
      ensures old(PathsNormalised()) ==> (PathsNormalised() <==> cc == old(cc))
    {
      hide IsSqrt, SepCC, IsRootOf, PathVariance;
      SepCCRange(sqrt, dim, muw);
      if PathsNormalised() { OneRatePerFactor(factPc, cc, SepCC(sqrt, dim, muw), muw); }
      cc := SepCC(sqrt, dim, muw);
    }

    /** The algorithms that use the VD variant. */
    predicate VdAlgorithm()
      reads `algo
    {
      algo == 12 || algo == 13 || algo == 14
    }

    /** The VD variant: from the default rank-one rate or a smaller one, its rates are sound exactly above five
        dimensions. Other algorithms refuse it. */
    method SetVd(sqrt: Fn)
      requires Sound() && IsSqrt(sqrt)
      modifies `vd, `csigma, `c1, `cmu, `dsigma, `factPs
      ensures !VdAlgorithm() ==> unchanged(this)
      ensures VdAlgorithm() ==> vd && c1 == Scaled(old(c1), VdFactor(dim)) && cmu == VdCMuFrom(c1, dim, muw)
      ensures VdAlgorithm() ==> csigma == VdCSigma(sqrt, dim, muw) && factPs == PathFactor(sqrt, csigma, muw)
      ensures VdAlgorithm() && tpa == 0 ==> dsigma == DSigma(sqrt, dim, muw, csigma)
      ensures VdAlgorithm() && old(c1) <= C1(dim, muw) ==> (Sound() <==> dim > 5)
      ensures VdAlgorithm() && old(Current()) == DefaultRates(sqrt, dim, muw) ==>
                Current() == VdVariant(sqrt, dim, muw)
      ensures old(PathsNormalised()) ==> PathsNormalised()
    {
      hide IsSqrt, VdCSigma, DSigma, PathFactor, SumTo, C1, Scaled, VdCMuFrom, VdFactor, DefaultCMu, CC, CSigma,
        IsRootOf;
      if VdAlgorithm() {
        vd := true;
        VdPathRates(sqrt);
        VdRates();
      }
    }

    /** The step-size path of the VD variant; its damping is set unless two-point adaptation chose it. */
    method VdPathRates(sqrt: Fn)
      requires dim >= 1 && muw >= 1.0 && IsSqrt(sqrt)
      modifies `csigma, `dsigma, `factPs
      ensures csigma == VdCSigma(sqrt, dim, muw) && factPs == PathFactor(sqrt, csigma, muw)
      ensures dsigma == if tpa == 0 then DSigma(sqrt, dim, muw, csigma) else old(dsigma)
      ensures 0.0 < csigma < 1.0 && (old(dsigma) >= 1.0 ==> dsigma >= 1.0)
      ensures IsRootOf(factPs, PathVariance(csigma, muw))
    {
      hide IsSqrt, VdCSigma, PathFactor, IsRootOf, PathVariance;
      VdCSigmaRange(sqrt, dim, muw);
      PathRoot(sqrt, VdCSigma(sqrt, dim, muw), muw);
      csigma := VdCSigma(sqrt, dim, muw);
      if tpa == 0 {
        dsigma := DSigma(sqrt, dim, muw, csigma);
      }
      factPs := PathFactor(sqrt, csigma, muw);
    }

    method VdRates()
      requires Sound()
      modifies `c1, `cmu
      ensures c1 == Scaled(old(c1), VdFactor(dim)) && cmu == VdCMuFrom(c1, dim, muw)
      ensures old(c1) <= C1(dim, muw) ==> (Sound() <==> dim > 5)
    {
      hide C1, CMuRaw, VdFactor, SumTo, Scaled, VdCMuFrom;
      if c1 <= C1(dim, muw) { VdRatesFrom(dim, muw, c1); }
      c1 := Scaled(c1, VdFactor(dim));
      cmu := VdCMuFrom(c1, dim, muw);
    }

    /** The parameters an update reads. */
    function View(fixedP: nat): UpdateParameters
      reads this
    {
      UpdateParameters(dim, lambda, mu, weights, csigma, cc, c1, cmu, muw, dsigma, factPs, factPc, chi,
                       cm, alphacov, alphaminusold, deltamaxsigma, lambdamintarget, alphaminusmin,
                       sep || vd, tpa, fixedP)
    }

    /** Sound parameters meet what the covariance updates demand, so their guarantees apply to every run. */
    lemma ViewIsValid(fixedP: nat)
      requires Sound() && fixedP <= dim
      ensures View(fixedP).Valid() && ActiveParameters(View(fixedP))
    {
    }
  }

  function DefaultLambda(log: Fn, dim: nat): (r: nat)
    requires IsLog(log) && dim >= 1
    ensures r >= 4
  {
    assert dim > 1 ==> log(1.0) < log(dim as real);
    4 + (3.0 * log(dim as real)).Floor
  }
}
