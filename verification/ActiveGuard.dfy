/** Whether the learning rates that the parameters object computes meet the guard of the active update. */
module ActiveGuard {
  import opened LinearAlgebra
  import opened RealFunctions
  import opened Solutions
  import opened Covariance
  import opened ActiveCovariance
  import opened ActiveSafety
  import opened Parameters
  import opened Selection

  /** The guard of the active update. */
  predicate Guard(c1: real, cmu: real) {
    c1 <= TARGET * (1.0 - cmu)
  }

  /** Clamping cmu to 1 - c1 never rescues the guard: it depends on the rate before the clamp alone. */
  lemma ClampedGuard(c1: real, raw: real)
    requires c1 > 0.0
    ensures Guard(c1, Min(1.0 - c1, raw)) <==> c1 <= TARGET * (1.0 - raw)
  {
  }

  // ----- the full covariance

  /** The default rates meet the guard whenever muw is at most a third of (dim + 2)^2 + 4, and miss it
      whenever muw reaches (dim + 2)^2 + 4. */
  lemma DefaultGuard(dim: nat, muw: real)
    requires dim >= 1 && muw >= 1.0
    ensures 3.0 * muw <= Square(dim as real + 2.0) + 4.0 ==> Guard(C1(dim, muw), DefaultCMu(dim, muw))
    ensures muw >= Square(dim as real + 2.0) + 4.0 ==> !Guard(C1(dim, muw), DefaultCMu(dim, muw))
  {
    var d, h := dim as real, 1.0 / muw;
    var s, u := Square(d + 2.0), Square(d + 1.3);
    ReciprocalBelowOne(muw);
    Squares(d);
    C1Range(dim, muw);
    ClampedGuard(C1(dim, muw), CMuRaw(dim, muw));
    var p, q := 2.0 * (muw - 2.0 + h), s + muw;
    hide Square, Guard;
    SmallQuotient(2.0, u + muw);
    if 3.0 * muw <= s + 4.0 { AtMostHalf(p, q); }
    if muw >= s + 4.0 { AtLeastOne(p, q); }
  }

  lemma ReciprocalBelowOne(muw: real)
    requires muw >= 1.0
    ensures 0.0 < 1.0 / muw <= 1.0
  {
    QuotientPositive(1.0, muw);
    var h := 1.0 / muw;
    if h > 1.0 { ProductSign(h - 1.0, muw, (h - 1.0) * muw); }
  }

  lemma Squares(d: real)
    requires d >= 1.0
    ensures Square(d + 2.0) >= 9.0 && Square(d + 1.3) >= 5.29
  {
    ProductMonotone(3.0, d + 2.0, 3.0, d + 2.0);
    ProductMonotone(2.3, d + 1.3, 2.3, d + 1.3);
  }

  lemma SmallQuotient(p: real, q: real)
    requires p == 2.0 && q >= 6.29
    ensures 0.0 < p / q <= 0.33
  {
    QuotientPositive(p, q);
    var r := p / q;
    if r > 0.33 { ProductMonotone(0.33, r, 6.29, q); }
  }

  lemma AtMostHalf(p: real, q: real)
    requires q > 0.0 && 2.0 * p <= q
    ensures p / q <= 0.5
  {
    QuotientPositive(p, q);
    var r := p / q;
    if r > 0.5 { ProductSign(r - 0.5, q, (r - 0.5) * q); }
  }

  lemma AtLeastOne(p: real, q: real)
    requires q > 0.0 && p >= q
    ensures p / q >= 1.0
  {
    QuotientPositive(p, q);
    var r := p / q;
    if r < 1.0 { ProductSign(1.0 - r, q, (1.0 - r) * q); }
  }

  /** In terms of the population: in every dimension a selection of at most a third of (dim + 2)^2 + 4
      candidates meets the guard, and one of at least 36 times that number misses it. */
  lemma PopulationGuard(log: Fn, dim: nat, mu: nat)
    requires IsLog(log) && dim >= 1 && mu >= 1
    ensures Dot(RawWeights(log, mu), RawWeights(log, mu)) > 0.0
    ensures var muw := Muw(RawWeights(log, mu));
            && muw >= 1.0
            && (3 * mu <= (dim + 2) * (dim + 2) + 4 ==> Guard(C1(dim, muw), DefaultCMu(dim, muw)))
            && (mu >= 36 * ((dim + 2) * (dim + 2) + 4) ==> !Guard(C1(dim, muw), DefaultCMu(dim, muw)))
  {
    hide IsLog, RawWeight, Muw, SumTo, DotTo, Guard, C1, DefaultCMu;
    var raw := RawWeights(log, mu);
    forall i | 0 <= i < mu ensures raw[i] > 0.0 { RawWeightPositive(log, mu, i); }
    hide RawWeights;
    MuwRange(raw);
    MuwAtLeast(log, mu);
    SquareOfNat(dim + 2);
    DefaultGuard(dim, Muw(raw));
  }

  /** In one dimension an effective number of ten misses the guard although nothing is clamped. */
  lemma UnclampedGuardFails()
    ensures CMuRaw(1, 10.0) < 1.0 - C1(1, 10.0)
    ensures DefaultCMu(1, 10.0) == CMuRaw(1, 10.0) && !Guard(C1(1, 10.0), CMuRaw(1, 10.0))
  {
    assert Square(2.3) == 5.29 && Square(3.0) == 9.0;
    assert C1(1, 10.0) == 2.0 / 15.29 && CMuRaw(1, 10.0) == 16.2 / 19.0;
  }

  // ----- the separable covariance

  /** The separable rates meet the guard whenever muw is at most dim + 1. */
  lemma SepGuard(sqrt: Fn, dim: nat, muw: real)
    requires IsSqrt(sqrt) && dim >= 1 && 1.0 <= muw <= dim as real + 1.0
    ensures Guard(SepC1(dim, muw), SepCMu(sqrt, dim, muw))
  {
    var d, r := dim as real, sqrt(dim as real);
    ReciprocalBelowOne(muw);
    SepRates(sqrt, dim, muw);
    SqrtMonotone(sqrt, 1.0, d);
    SqrtOfSquare(sqrt, 1.0, 1.0);
    hide IsSqrt;
    ClampedGuard(SepC1(dim, muw), SepCMuRaw(sqrt, dim, muw));
    SepC1Small(dim, muw);
    var p, q := 0.3 + muw - 2.0 + 1.0 / muw, d + 4.0 * r + muw / 2.0;
    hide SepC1, Guard;
    if dim <= 2 { AtMostHalf(p, q); } else { AtMostTwoThirds(p, q); }
  }

  lemma AtMostTwoThirds(p: real, q: real)
    requires q > 0.0 && 3.0 * p <= 2.0 * q
    ensures p / q <= 2.0 / 3.0
  {
    QuotientPositive(p, q);
    var r := p / q;
    if r > 2.0 / 3.0 { ProductSign(r - 2.0 / 3.0, q, (r - 2.0 / 3.0) * q); }
  }

  /** The separable rank-one rate is at most 0.33, and at most 0.22 from three dimensions on. */
  lemma SepC1Small(dim: nat, muw: real)
    requires dim >= 1 && muw >= 1.0
    ensures SepC1(dim, muw) <= 0.33 && (dim >= 3 ==> SepC1(dim, muw) <= 0.22)
  {
    var d, c, k := dim as real, C1(dim, muw), SepFactor(dim);
    var q := Square(d + 1.3) + muw;
    SquareSign(d + 1.3, Square(d + 1.3));
    assert c * q == 2.0;
    assert Square(d + 1.3) == d * d + 2.6 * d + 1.69;
    ProductMonotone(1.0, d, 1.0, d);
    if dim >= 3 { ProductMonotone(3.0, d, d, d); }
    C1Range(dim, muw);
    hide C1, Square;
    ScaledAtMost(c, q, k, 0.33);
    if dim >= 3 { ScaledAtMost(c, q, k, 0.22); }
  }

  lemma ScaledAtMost(c: real, q: real, k: real, b: real)
    requires c > 0.0 && c * q == 2.0 && 2.0 * k <= b * q && b > 0.0
    ensures Scaled(c, k) <= b
  {
    ProductSign(c, b * q - 2.0 * k, c * (b * q - 2.0 * k));
    assert c * (b * q - 2.0 * k) == b * (c * q) - 2.0 * (c * k);
  }

  // ----- the parameters object

  /** With the default rates, the full active update is safe on every population exactly when
      c1 <= 0.66 (1 - cmu) holds before the clamp; a selection of at most a third of (dim + 2)^2 + 4
      candidates always meets this. */
  lemma DefaultActiveSafe(q: CmaParameters, fixedP: nat, c: Mat, root: Mat, maxEigen: Mat -> real, sqrt: Fn,
                          mean: Vec, sigma: real)
    requires q.Sound() && fixedP <= q.dim && !q.sep && !q.vd && IsSqrt(sqrt)
    requires q.c1 == C1(q.dim, q.muw) && q.cmu == DefaultCMu(q.dim, q.muw)
    requires IsSquare(c, q.dim) && IsSquare(root, q.dim) && |mean| == q.dim && sigma > 0.0
    requires PositiveDefinite(c) && IsInverseRoot(root, c) && IsEigenSolver(maxEigen)
    ensures q.c1 <= TARGET * (1.0 - CMuRaw(q.dim, q.muw)) <==>
            AlwaysStaysDefinite(q.View(fixedP), c, root, maxEigen, sqrt, mean, sigma)
    ensures 3 * q.mu <= (q.dim + 2) * (q.dim + 2) + 4 ==>
            AlwaysStaysDefinite(q.View(fixedP), c, root, maxEigen, sqrt, mean, sigma)
  {
    hide IsSqrt, PositiveDefinite, IsInverseRoot, IsEigenSolver, AlwaysStaysDefinite, C1, CMuRaw, SumTo;
    q.ViewIsValid(fixedP);
    DefaultGuard(q.dim, q.muw);
    ClampedGuard(q.c1, CMuRaw(q.dim, q.muw));
    SquareOfNat(q.dim + 2);
    FullSafeForAllSamplesIff(q.View(fixedP), c, root, maxEigen, sqrt, mean, sigma);
  }

  /** A parameters object whose selection is that large makes the full active update unsafe. */
  lemma LargeSelectionUnsafe(q: CmaParameters, log: Fn, fixedP: nat, c: Mat, root: Mat, maxEigen: Mat -> real,
                             sqrt: Fn, mean: Vec, sigma: real)
    requires q.Sound() && fixedP <= q.dim && !q.sep && !q.vd && IsSqrt(sqrt) && IsLog(log)
    requires Dot(RawWeights(log, q.mu), RawWeights(log, q.mu)) != 0.0 && q.muw == Muw(RawWeights(log, q.mu))
    requires q.c1 == C1(q.dim, q.muw) && q.cmu == DefaultCMu(q.dim, q.muw)
    requires q.mu >= 36 * ((q.dim + 2) * (q.dim + 2) + 4)
    requires IsSquare(c, q.dim) && IsSquare(root, q.dim) && |mean| == q.dim && sigma > 0.0
    requires PositiveDefinite(c) && IsInverseRoot(root, c) && IsEigenSolver(maxEigen)
    ensures !AlwaysStaysDefinite(q.View(fixedP), c, root, maxEigen, sqrt, mean, sigma)
  {
    hide IsLog, IsSqrt, PositiveDefinite, IsInverseRoot, IsEigenSolver, AlwaysStaysDefinite, C1, CMuRaw, SumTo, DotTo,
      Muw, RawWeights;
    q.ViewIsValid(fixedP);
    PopulationGuard(log, q.dim, q.mu);
    FullSafeForAllSamplesIff(q.View(fixedP), c, root, maxEigen, sqrt, mean, sigma);
  }

  /** With the separable rates, the separable active update is safe on every population exactly when the guard
      holds before the clamp; a selection of at most dim + 1 candidates always meets this. */
  lemma SepActiveSafe(q: CmaParameters, fixedP: nat, c: Vec, sqrt: Fn, mean: Vec, sigma: real)
    requires q.Sound() && fixedP <= q.dim && q.sep && IsSqrt(sqrt)
    requires q.c1 == SepC1(q.dim, q.muw) && q.cmu == SepCMu(sqrt, q.dim, q.muw)
    requires |c| == |mean| == q.dim && AllPositive(c) && sigma > 0.0
    ensures q.c1 <= TARGET * (1.0 - SepCMuRaw(sqrt, q.dim, q.muw)) <==>
            AlwaysStaysPositive(q.View(fixedP), c, sqrt, mean, sigma)
    ensures q.mu <= q.dim + 1 ==>
            AlwaysStaysPositive(q.View(fixedP), c, sqrt, mean, sigma)
  {
    hide IsSqrt, C1, SepC1, SepCMuRaw, SumTo, AlwaysStaysPositive, AllPositive;
    q.ViewIsValid(fixedP);
    if q.mu <= q.dim + 1 { SepGuard(sqrt, q.dim, q.muw); }
    ClampedGuard(q.c1, SepCMuRaw(sqrt, q.dim, q.muw));
    SafeForAllSamplesIff(q.View(fixedP), c, sqrt, mean, sigma);
  }

  lemma SquareOfNat(n: nat)
    ensures Square(n as real) == (n * n) as real
  {
  }
}
