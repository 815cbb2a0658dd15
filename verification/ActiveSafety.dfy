/** Exactly when the active covariance update is safe, separable and full, and over whole runs. */
module ActiveSafety {
  import opened LinearAlgebra
  import opened RealFunctions
  import opened Solutions
  import opened Sorting
  import opened Covariance
  import opened ActiveCovariance

  // ----- the candidates

  /** A sorted population, with the mean, the step size and the path that the update reads it against. */
  predicate Sampled(p: UpdateParameters, cs: seq<Candidate>, mean: Vec, sigma: real, pc: Vec) {
    && ActiveParameters(p) && p.lambda <= |cs| && AllOfDim(cs, p.dim) && Sorted(cs)
    && |mean| == |pc| == p.dim && sigma > 0.0
  }

  /** The point at distance t sigma from the mean in every coordinate. */
  function Far(mean: Vec, sigma: real, t: real): (r: Vec)
    ensures |r| == |mean|
  {
    seq(|mean|, i requires 0 <= i < |mean| => mean[i] + sigma * t)
  }

  /** A sorted population: the worst mu candidates far away, all better ones on the mean. */
  function DistantCandidates(p: UpdateParameters, mean: Vec, sigma: real, t: real): (cs: seq<Candidate>)
    requires ActiveParameters(p) && |mean| == p.dim
    ensures |cs| == p.lambda && AllOfDim(cs, p.dim) && Sorted(cs)
  {
    var far := Far(mean, sigma, t);
    seq(p.lambda, i requires 0 <= i < p.lambda =>
      if i < p.lambda - p.mu then Candidate(0.0, mean, i, -1) else Candidate(1.0, far, i, -1))
  }

  /** What the update reads off such a population while its path rests. */
  predicate IsDistant(p: UpdateParameters, s: ActiveSample, t: real)
    requires FitsActive(p, s)
  {
    && s.pc == Zeros(p.dim)
    && (forall i :: 0 <= i < p.mu ==> s.good[i] == Zeros(p.dim))
    && forall i :: 0 <= i < p.mu ==> s.bad[i] == seq(p.dim, _ => t)
  }

  lemma DistantSample(p: UpdateParameters, mean: Vec, sigma: real, t: real)
    requires ActiveParameters(p) && |mean| == p.dim && sigma > 0.0
    ensures IsDistant(p, SampleOf(p, DistantCandidates(p, mean, sigma, t), mean, sigma, Zeros(p.dim)), t)
  {
    var cs := DistantCandidates(p, mean, sigma, t);
    var s := SampleOf(p, cs, mean, sigma, Zeros(p.dim));
    forall i | 0 <= i < p.mu ensures s.good[i] == Zeros(p.dim) && s.bad[i] == seq(p.dim, _ => t) {
      assert s.good[i] == Sub(cs[i].x, mean) && s.bad[i] == Scale(1.0 / sigma, Sub(cs[p.lambda - i - 1].x, mean));
      hide SampleOf;
      FarDifference(mean, sigma, t);
    }
  }

  lemma FarDifference(mean: Vec, sigma: real, t: real)
    requires sigma > 0.0
    ensures Sub(mean, mean) == Zeros(|mean|)
    ensures Scale(1.0 / sigma, Sub(Far(mean, sigma, t), mean)) == seq(|mean|, _ => t)
  {
    ScaledBack(sigma, t);
    var d, q, u := Sub(Far(mean, sigma, t), mean), 1.0 / sigma, sigma * t;
    assert forall i :: 0 <= i < |mean| ==> d[i] == u;
    assert q * u == t;
    assert forall i :: 0 <= i < |mean| ==> Scale(q, d)[i] == q * u;
  }

  lemma ScaledBack(sigma: real, t: real)
    requires sigma > 0.0
    ensures 1.0 / sigma * (sigma * t) == t
  {
    var q := 1.0 / sigma;
    assert q * sigma == 1.0;
    assert q * (sigma * t) == (q * sigma) * t;
  }

  /** Such a population leaves the mean where it is, so a path that rests goes on resting. */
  lemma DistantMeanRests(p: UpdateParameters, mean: Vec, sigma: real, t: real)
    requires ActiveParameters(p) && |mean| == p.dim && sigma > 0.0
    ensures var moved := ActiveMean(p, Differences(DistantCandidates(p, mean, sigma, t), mean), mean);
            moved == mean && ActiveShift(p, sigma, moved, mean) == Zeros(p.dim)
  {
    var diffs := Differences(DistantCandidates(p, mean, sigma, t), mean);
    assert forall i :: 0 <= i < p.mu ==> diffs[i] == Zeros(p.dim);
    WeightedZeros(p.weights, diffs, p.mu, p.dim);
    assert ActiveMean(p, diffs, mean) == mean;
    ProductNonZero(sigma, p.cm);
    assert Sub(mean, mean) == Zeros(p.dim);
    assert Scale(1.0 / (sigma * p.cm), Zeros(p.dim)) == Zeros(p.dim);
  }

  lemma {:induction false} WeightedZeros(weights: Vec, points: seq<Vec>, k: nat, dim: nat)
    requires k <= |weights| && k <= |points| && forall i :: 0 <= i < |points| ==> |points[i]| == dim
    requires forall i :: 0 <= i < k ==> points[i] == Zeros(dim)
    ensures WeightedSum(weights, points, k, dim) == Zeros(dim)
  {
    if k > 0 {
      WeightedZeros(weights, points, k - 1, dim);
      ScaledZeros(weights[k - 1], dim);
    }
  }

  lemma ScaledZeros(a: real, n: nat)
    ensures Scale(a, Zeros(n)) == Zeros(n) && Add(Zeros(n), Zeros(n)) == Zeros(n)
  {
    assert a * 0.0 == 0.0;
  }

  // ----- how far is far enough

  lemma TargetPositive(p: UpdateParameters, cap: real)
    requires ActiveParameters(p) && cap > 0.0 && p.alphaminusold > 0.0 && Floor(p) < 0.0
    ensures FarEnough(p, cap) > 0.0
  {
    var u, v := FarEnoughSplit(p, cap);
  }

  /** A relative weight beyond which the budget binds and the rate is small. */
  function FarEnough(p: UpdateParameters, cap: real): real
    requires cap > 0.0 && p.alphaminusold > 0.0 && Floor(p) < 0.0
  {
    Budget(p) / cap + Budget(p) * p.alphaminusold / -Floor(p) + 1.0
  }

  lemma FarEnoughBounds(p: UpdateParameters, cap: real, e: real)
    requires ActiveParameters(p) && cap > 0.0 && p.alphaminusold > 0.0 && Floor(p) < 0.0
    requires e >= FarEnough(p, cap)
    ensures e > 0.0 && NegativeRate(p, cap, e) * e == Budget(p)
    ensures Floor(p) + NegativeRate(p, cap, e) * p.alphaminusold <= 0.0
  {
    var u, v := FarEnoughSplit(p, cap);
    var q := UncappedRate(p, cap, e);
    hide Budget, Floor, FarEnough, NegativeRate;
    RateSmall(Budget(p), cap, -Floor(p), p.alphaminusold, e, q, u, v);
  }

  lemma FarEnoughSplit(p: UpdateParameters, cap: real) returns (u: real, v: real)
    requires ActiveParameters(p) && cap > 0.0 && p.alphaminusold > 0.0 && Floor(p) < 0.0
    ensures Budget(p) > 0.0 && FarEnough(p, cap) > 0.0 && FarEnough(p, cap) >= u && FarEnough(p, cap) >= v
    ensures u * cap == Budget(p) && v * -Floor(p) == Budget(p) * p.alphaminusold
  {
    var b, f, a := Budget(p), -Floor(p), p.alphaminusold;
    BudgetPositive(p);
    hide Budget, Floor;
    QuotientPositive(b, cap);
    ProductSign(b, a, b * a);
    QuotientPositive(b * a, f);
    u, v := b / cap, b * a / f;
  }

  lemma UncappedRate(p: UpdateParameters, cap: real, e: real) returns (q: real)
    requires ActiveParameters(p) && e > 0.0
    ensures q > 0.0 && q * e == Budget(p) && (q <= cap ==> NegativeRate(p, cap, e) == q)
  {
    BudgetPositive(p);
    hide Budget;
    QuotientPositive(Budget(p), e);
    q := Budget(p) / e;
  }

  lemma RateSmall(b: real, cap: real, f: real, a: real, e: real, q: real, u: real, v: real)
    requires b > 0.0 && cap > 0.0 && f > 0.0 && a > 0.0 && e > 0.0 && q * e == b && q > 0.0
    requires u * cap == b && v * f == b * a && e >= u && e >= v
    ensures q <= cap && q * a <= f
  {
    ProductMonotone(u, e, cap, cap);
    SmallerFactor(q, cap, e);
    ProductMonotone(0.0, a, 0.0, q);
    ProductSign(e - v, f, (e - v) * f);
    assert (q * a) * e == b * a;
    ProductSign(a, q, q * a);
    SmallerFactor(q * a, f, e);
  }

  lemma SmallerFactor(q: real, r: real, e: real)
    requires e > 0.0 && q * e <= r * e
    ensures q <= r
  {
    if q > r { ProductSign(q - r, e, (q - r) * e); }
  }

  function Distance(target: real, c: real, w: real): real
    requires w != 0.0
  {
    1.0 + target * c / w
  }

  lemma DistancePositive(target: real, c: real, w: real)
    requires target > 0.0 && c > 0.0 && w > 0.0
    ensures Distance(target, c, w) > 1.0
  {
    ProductSign(target, c, target * c);
    QuotientPositive(target * c, w);
  }

  lemma TargetReached(target: real, c: real, w: real, t: real, ratio: real)
    requires target > 0.0 && c > 0.0 && w > 0.0 && t == Distance(target, c, w) && ratio * c == w * (t * t)
    ensures ratio >= target
  {
    ProductSign(target, c, target * c);
    QuotientPositive(target * c, w);
    ProductSign(t - 1.0, t, (t - 1.0) * t);
    ProductMonotone(t - 1.0, t * t, w, w);
    assert w * (t - 1.0) == target * c;
    SmallerFactor(target, ratio, c);
  }

  /** Where the rate uses up the budget and nothing is left, a resting path leaves nothing positive. */
  lemma NothingLeft(p: UpdateParameters, rate: real, e: real, c: real, minus: real)
    requires ActiveParameters(p) && c > 0.0 && rate * e == Budget(p) && Floor(p) + rate * p.alphaminusold <= 0.0
    requires minus == e * c
    ensures ActiveTerms(p, rate, c, 0.0, 0.0, minus) <= 0.0
  {
    GuaranteedIsFloor(p, rate);
    hide Budget, KeepActive, PlusRate, Floor;
    var k, b := KeepActive(p, rate), Budget(p);
    assert rate * (e * c) == b * c by { assert rate * (e * c) == (rate * e) * c; }
    assert p.c1 * (0.0 * 0.0) == 0.0 && PlusRate(p, rate) * 0.0 == 0.0;
    ProductSign(-(k - b), c, -(k - b) * c);
    assert k * c - b * c == (k - b) * c;
  }

  // ----- the separable update

  /** Every population leaves all variances positive, wherever the path is. */
  ghost predicate AlwaysStaysPositive(p: UpdateParameters, c: Vec, sqrt: Fn, mean: Vec, sigma: real)
    requires IsSqrt(sqrt) && |c| == p.dim && AllPositive(c)
  {
    forall cs: seq<Candidate>, pc: Vec :: Sampled(p, cs, mean, sigma, pc) ==>
      AllPositive(NextActiveSepOf(p, c, SampleOf(p, cs, mean, sigma, pc), sqrt))
  }

  /** The separable active update keeps all variances positive on every population exactly when
      c1 <= lambdamintarget (1 - cmu), wherever the mean is and whatever the step size. */
  lemma SafeForAllSamplesIff(p: UpdateParameters, c: Vec, sqrt: Fn, mean: Vec, sigma: real)
    requires ActiveParameters(p) && p.alphaminusold > 0.0 && Sum(p.weights) > 0.0
    requires IsSqrt(sqrt) && |c| == |mean| == p.dim && AllPositive(c) && sigma > 0.0
    ensures p.c1 <= p.lambdamintarget * (1.0 - p.cmu) <==> AlwaysStaysPositive(p, c, sqrt, mean, sigma)
  {
    hide NextActiveSepOf, IsSqrt, SumTo, SampleOf, AllPositive;
    if Floor(p) >= 0.0 {
      forall cs: seq<Candidate>, pc: Vec | Sampled(p, cs, mean, sigma, pc)
        ensures AllPositive(NextActiveSepOf(p, c, SampleOf(p, cs, mean, sigma, pc), sqrt))
      {
        SafeSample(p, c, SampleOf(p, cs, mean, sigma, pc), sqrt);
      }
    } else {
      var cs, t := UnsafeCandidates(p, c, sqrt, mean, sigma);
      assert Sampled(p, cs, mean, sigma, Zeros(p.dim));
    }
  }

  /** Below the floor, bad candidates that are far enough away turn a variance non-positive. */
  lemma UnsafeCandidates(p: UpdateParameters, c: Vec, sqrt: Fn, mean: Vec, sigma: real)
    returns (cs: seq<Candidate>, t: real)
    requires ActiveParameters(p) && p.alphaminusold > 0.0 && Sum(p.weights) > 0.0 && Floor(p) < 0.0
    requires IsSqrt(sqrt) && |c| == |mean| == p.dim && AllPositive(c) && sigma > 0.0
    ensures Sampled(p, cs, mean, sigma, Zeros(p.dim)) && t > 0.0 && cs == DistantCandidates(p, mean, sigma, t)
    ensures !AllPositive(NextActiveSepOf(p, c, SampleOf(p, cs, mean, sigma, Zeros(p.dim)), sqrt))
  {
    hide IsSqrt, RateCap, SumTo, Floor, FarEnough, NextActiveSepOf, SampleOf, IsDistant;
    CapPositive(p, sqrt);
    var target := FarEnough(p, RateCap(p, sqrt));
    TargetPositive(p, RateCap(p, sqrt));
    DistancePositive(target, c[0], Sum(p.weights));
    t := Distance(target, c[0], Sum(p.weights));
    cs := DistantCandidates(p, mean, sigma, t);
    DistantSample(p, mean, sigma, t);
    var j := UnsafeSample(p, c, sqrt, SampleOf(p, cs, mean, sigma, Zeros(p.dim)), t);
  }

  lemma UnsafeSample(p: UpdateParameters, c: Vec, sqrt: Fn, s: ActiveSample, t: real) returns (j: nat)
    requires ActiveParameters(p) && p.alphaminusold > 0.0 && Sum(p.weights) > 0.0 && Floor(p) < 0.0
    requires IsSqrt(sqrt) && |c| == p.dim && AllPositive(c) && RateCap(p, sqrt) > 0.0
    requires FitsActive(p, s) && IsDistant(p, s, t)
    requires t == Distance(FarEnough(p, RateCap(p, sqrt)), c[0], Sum(p.weights))
    ensures j < p.dim && NextActiveSepOf(p, c, s, sqrt)[j] <= 0.0
  {
    hide IsSqrt, RateCap, MaxCoeff, SumTo, NextActiveSepOf, Floor, SepRatios, SepMinusOf, SepPlusOf, FarEnough;
    DistantMinus(p, s, t);
    j := DistantRatio(p, c, sqrt, s, t, FarEnough(p, RateCap(p, sqrt)));
    NearMean(p, s, t, j);
    UnsafeComponent(p, c, s, sqrt, MaxCoeff(SepRatios(c, SepMinusOf(p, s), sqrt)), j);
  }

  lemma {:induction false} ConstantRankMu(weights: Vec, v: Vec, diffs: seq<Vec>, k: nat, j: nat)
    requires k <= |weights| && k <= |diffs| && j < |v|
    requires (forall i :: 0 <= i < |diffs| ==> |diffs[i]| == |v|) && forall i :: 0 <= i < k ==> diffs[i] == v
    ensures RankMuDiagonal(weights, diffs, k, |v|)[j] == SumTo(weights, k) * (v[j] * v[j])
  {
    if k > 0 {
      ConstantRankMu(weights, v, diffs, k - 1, j);
      Distribute(SumTo(weights, k - 1), weights[k - 1], v[j] * v[j]);
    }
  }

  lemma DistantMinus(p: UpdateParameters, s: ActiveSample, t: real)
    requires p.Valid() && FitsActive(p, s) && IsDistant(p, s, t)
    ensures forall j :: 0 <= j < p.dim ==> SepMinusOf(p, s)[j] == Sum(p.weights) * (t * t)
  {
    forall j | 0 <= j < p.dim ensures SepMinusOf(p, s)[j] == Sum(p.weights) * (t * t) {
      hide RankMuDiagonal, SumTo;
      ConstantRankMu(p.weights, seq(p.dim, _ => t), s.bad, p.mu, j);
    }
  }

  lemma NearMean(p: UpdateParameters, s: ActiveSample, t: real, j: nat)
    requires p.Valid() && j < p.dim && FitsActive(p, s) && IsDistant(p, s, t)
    ensures s.pc[j] == 0.0 && SepPlusOf(p, s)[j] == 0.0
  {
    hide RankMuDiagonal, SumTo, InverseSquare;
    ConstantRankMu(p.weights, Zeros(p.dim), s.good, p.mu, j);
    assert Sum(p.weights) * (0.0 * 0.0) == 0.0;
  }

  /** The largest ratio of the distant sample reaches the target, at some coordinate. */
  lemma DistantRatio(p: UpdateParameters, c: Vec, sqrt: Fn, s: ActiveSample, t: real, target: real) returns (j: nat)
    requires ActiveParameters(p) && p.alphaminusold > 0.0 && Sum(p.weights) > 0.0 && Floor(p) < 0.0
    requires IsSqrt(sqrt) && |c| == p.dim && AllPositive(c) && FitsActive(p, s) && RateCap(p, sqrt) > 0.0
    requires target == FarEnough(p, RateCap(p, sqrt)) && t == Distance(target, c[0], Sum(p.weights))
    requires forall i :: 0 <= i < p.dim ==> SepMinusOf(p, s)[i] == Sum(p.weights) * (t * t)
    ensures j < p.dim
    ensures var e := MaxCoeff(SepRatios(c, SepMinusOf(p, s), sqrt));
            e >= target && e * c[j] == SepMinusOf(p, s)[j]
  {
    hide RateCap, MaxCoeff, SumTo, Floor, SepRatios, SepMinusOf, IsSqrt, FarEnough, Distance, FitsActive;
    var minus := SepMinusOf(p, s);
    SepRatioShape(c, minus, sqrt);
    SepRatioIsQuotient(c, minus, sqrt, 0);
    TargetPositive(p, RateCap(p, sqrt));
    TargetReached(target, c[0], Sum(p.weights), t, SepRatios(c, minus, sqrt)[0]);
    j :| 0 <= j < p.dim && SepRatios(c, minus, sqrt)[j] == MaxCoeff(SepRatios(c, minus, sqrt));
    SepRatioIsQuotient(c, minus, sqrt, j);
  }

  lemma SepRatioShape(c: Vec, minus: Vec, sqrt: Fn)
    requires |c| == |minus| > 0 && AllPositive(c)
    ensures |SepRatios(c, minus, sqrt)| == |c|
    ensures SepRatios(c, minus, sqrt)[0] <= MaxCoeff(SepRatios(c, minus, sqrt))
    ensures exists j :: 0 <= j < |c| && SepRatios(c, minus, sqrt)[j] == MaxCoeff(SepRatios(c, minus, sqrt))
  {
    hide MaxCoeff;
  }

  lemma UnsafeComponent(p: UpdateParameters, c: Vec, s: ActiveSample, sqrt: Fn, e: real, j: nat)
    requires ActiveParameters(p) && p.alphaminusold > 0.0 && Floor(p) < 0.0 && IsSqrt(sqrt)
    requires |c| == p.dim && AllPositive(c) && FitsActive(p, s) && j < p.dim
    requires e == MaxCoeff(SepRatios(c, SepMinusOf(p, s), sqrt)) && e * c[j] == SepMinusOf(p, s)[j]
    requires RateCap(p, sqrt) > 0.0 && e >= FarEnough(p, RateCap(p, sqrt))
    requires s.pc[j] == 0.0 && SepPlusOf(p, s)[j] == 0.0
    ensures NextActiveSepOf(p, c, s, sqrt)[j] <= 0.0
  {
    hide IsSqrt, NegativeRate, RateCap, MaxCoeff, SepRatios, SepPlusOf, SepMinusOf, Floor, Budget, FarEnough,
      NextActiveSep, ActiveTerms;
    var rate := SepRate(p, c, s, sqrt);
    FarEnoughBounds(p, RateCap(p, sqrt), e);
    SepComponent(p, rate, c, s.pc, SepPlusOf(p, s), SepMinusOf(p, s), j);
    NothingLeft(p, rate, e, c[j], SepMinusOf(p, s)[j]);
  }

  // ----- the full update

  /** The largest eigenvalue of a symmetric matrix: an upper bound of its form that is attained. */
  ghost predicate IsMaxEigen(m: Mat, e: real) {
    BoundsForm(m, e) && exists y: Vec :: Attains(m, e, y)
  }

  predicate Attains(m: Mat, e: real, y: Vec)
    requires IsSquare(m, |m|)
  {
    |y| == |m| && !IsZero(y) && Quad(m, y) == e * Dot(y, y)
  }

  /** What the eigen solver delivers for every symmetric matrix. */
  ghost predicate IsEigenSolver(maxEigen: Mat -> real) {
    forall m: Mat {:trigger maxEigen(m)} :: Symmetric(m) && |m| > 0 ==> IsMaxEigen(m, maxEigen(m))
  }

  /** The population leaves the covariance definite. */
  ghost predicate StaysDefinite(p: UpdateParameters, c: Mat, root: Mat, maxEigen: Mat -> real, sqrt: Fn,
                                cs: seq<Candidate>, mean: Vec, sigma: real, pc: Vec)
    requires IsSqrt(sqrt) && IsSquare(c, p.dim) && IsSquare(root, p.dim) && Sampled(p, cs, mean, sigma, pc)
  {
    PositiveDefinite(FullNext(p, c, root, SampleOf(p, cs, mean, sigma, pc), maxEigen, sqrt))
  }

  /** Every population does, wherever the path is. */
  ghost predicate AlwaysStaysDefinite(p: UpdateParameters, c: Mat, root: Mat, maxEigen: Mat -> real, sqrt: Fn,
                                      mean: Vec, sigma: real)
    requires IsSqrt(sqrt) && IsSquare(c, p.dim) && IsSquare(root, p.dim)
  {
    forall cs: seq<Candidate>, pc: Vec :: Sampled(p, cs, mean, sigma, pc) ==>
      StaysDefinite(p, c, root, maxEigen, sqrt, cs, mean, sigma, pc)
  }

  /** The full active update keeps a definite covariance definite on every population exactly when
      c1 <= lambdamintarget (1 - cmu). */
  lemma FullSafeForAllSamplesIff(p: UpdateParameters, c: Mat, root: Mat, maxEigen: Mat -> real, sqrt: Fn,
                                 mean: Vec, sigma: real)
    requires ActiveParameters(p) && p.alphaminusold > 0.0 && Sum(p.weights) > 0.0 && IsSqrt(sqrt)
    requires IsSquare(c, p.dim) && IsSquare(root, p.dim) && |mean| == p.dim && sigma > 0.0
    requires PositiveDefinite(c) && IsInverseRoot(root, c) && IsEigenSolver(maxEigen)
    ensures p.c1 <= p.lambdamintarget * (1.0 - p.cmu) <==>
            AlwaysStaysDefinite(p, c, root, maxEigen, sqrt, mean, sigma)
  {
    hide FullNext, IsSqrt, SumTo, PositiveDefinite, IsInverseRoot, IsEigenSolver, SampleOf;
    InverseRootShape(c, root);
    if Floor(p) >= 0.0 {
      forall cs: seq<Candidate>, pc: Vec | Sampled(p, cs, mean, sigma, pc)
        ensures StaysDefinite(p, c, root, maxEigen, sqrt, cs, mean, sigma, pc)
      {
        var s := SampleOf(p, cs, mean, sigma, pc);
        FullSafeSample(p, c, root, s, maxEigen, sqrt);
      }
    } else {
      var cs, t := FullUnsafeCandidates(p, c, root, maxEigen, sqrt, mean, sigma);
      assert Sampled(p, cs, mean, sigma, Zeros(p.dim));
    }
  }

  lemma SolverBounds(p: UpdateParameters, c: Mat, root: Mat, s: ActiveSample, maxEigen: Mat -> real)
    requires p.Valid() && FitsActive(p, s) && |c| == p.dim && IsInverseRoot(root, c) && IsEigenSolver(maxEigen)
    ensures IsSquare(root, p.dim)
    ensures var m := Relative(root, MinusOf(p, s)); IsMaxEigen(m, maxEigen(m))
  {
    hide Relative, MinusOf, IsMaxEigen, IsInverseRoot;
    RelativeSymmetric(p, c, root, s);
    var e := maxEigen(Relative(root, MinusOf(p, s)));
  }

  lemma FullSafeSample(p: UpdateParameters, c: Mat, root: Mat, s: ActiveSample, maxEigen: Mat -> real, sqrt: Fn)
    requires ActiveParameters(p) && p.alphaminusold > 0.0 && Floor(p) >= 0.0 && IsSqrt(sqrt) && FitsActive(p, s)
    requires IsSquare(c, p.dim) && IsSquare(root, p.dim)
    requires PositiveDefinite(c) && IsInverseRoot(root, c) && IsEigenSolver(maxEigen)
    ensures PositiveDefinite(FullNext(p, c, root, s, maxEigen, sqrt))
  {
    hide IsSqrt, NegativeRate, RateCap, NextActive, PlusOf, MinusOf, IsInverseRoot, BoundsForm, MatMul,
      PositiveDefinite, Floor, IsEigenSolver, FitsActive;
    SolverBounds(p, c, root, s, maxEigen);
    FullKeepsDefinite(p, c, root, maxEigen(Relative(root, MinusOf(p, s))), s, sqrt);
  }

  /** Bad candidates at distance t in every coordinate add a square along the diagonal. */
  lemma DistantMinusForm(p: UpdateParameters, s: ActiveSample, t: real, x: Vec)
    requires p.Valid() && |x| == p.dim && FitsActive(p, s) && IsDistant(p, s, t)
    ensures Quad(MinusOf(p, s), x) == WeightedSquare(Sum(p.weights), Dot(seq(p.dim, _ => t), x))
  {
    hide RankMu, Quad, DotTo, SumTo;
    ConstantForm(p.weights, seq(p.dim, _ => t), s.bad, p.mu, x);
  }

  /** Good candidates on the mean add nothing, and neither does a path that rests. */
  lemma DistantPlusForm(p: UpdateParameters, s: ActiveSample, t: real, x: Vec)
    requires p.Valid() && |x| == p.dim && FitsActive(p, s) && IsDistant(p, s, t)
    ensures Quad(PlusOf(p, s), x) == 0.0 && Dot(s.pc, x) == 0.0
  {
    var z := Zeros(p.dim);
    DotOfZero(z, x);
    hide RankMu, Quad, DotTo, SumTo, InverseSquare;
    ConstantForm(p.weights, z, s.good, p.mu, x);
    var w, i := RankMu(p.weights, s.good, p.mu, p.dim), InverseSquare(s.sigma);
    assert WeightedSquare(Sum(p.weights), 0.0) == 0.0;
    hide WeightedSquare, MatScale;
    QuadScale(i, w, x);
  }

  /** Applying an inverse root loses nothing. */
  lemma RootInjective(c: Mat, s: Mat, z: Vec)
    requires IsInverseRoot(s, c) && |z| == |c| && IsZero(Apply(s, z))
    ensures Dot(z, z) == 0.0
  {
    var u := Apply(s, Apply(c, z));
    assert Apply(s, u) == z;
    hide IsInverseRoot, Apply, DotTo;
    SelfAdjoint(s, z, u);
    DotOfZero(Apply(s, z), u);
  }

  lemma ApplyDifference(s: Mat, y: Vec, y': Vec)
    requires IsSquare(s, |s|) && |y| == |y'| == |s| && Apply(s, y) == Apply(s, y')
    ensures IsZero(Apply(s, Sub(y, y')))
  {
    hide DotTo;
    var z := Sub(y, y');
    forall i | 0 <= i < |s| ensures Apply(s, z)[i] == 0.0 {
      DotLinear(1.0, y, -1.0, y', z, s[i], |z|);
      assert Apply(s, y)[i] == Dot(s[i], y) && Apply(s, y')[i] == Dot(s[i], y');
    }
  }

  lemma ApplyShape(s: Mat, y: Vec)
    requires IsSquare(s, |y|)
    ensures |Apply(s, y)| == |s|
  {
  }

  /** The form of c at S y is the squared norm of y. */
  lemma FormOfRooted(c: Mat, s: Mat, y: Vec)
    requires Symmetric(c) && IsInverseRoot(s, c) && |y| == |c|
    ensures |Apply(s, y)| == |c| && Quad(c, Apply(s, y)) == Dot(y, y)
  {
    hide IsInverseRoot, Apply, Dot, Quad, IsZero;
    InverseRootShape(c, s);
    ApplyShape(s, y);
    var y' := RootedVector(c, s, Apply(s, y));
    ApplyDifference(s, y, y');
    RootInjective(c, s, Sub(y, y'));
    SameVector(y, y');
  }

  lemma SameVector(y: Vec, y': Vec)
    requires |y| == |y'| && Dot(Sub(y, y'), Sub(y, y')) == 0.0
    ensures y == y'
  {
    var z := Sub(y, y');
    SquaredNormPositive(z);
    hide DotTo;
    assert forall i :: 0 <= i < |y| ==> z[i] == y[i] - y'[i];
  }

  /** Below the floor, bad candidates far enough away make the covariance indefinite. */
  lemma FullUnsafeCandidates(p: UpdateParameters, c: Mat, root: Mat, maxEigen: Mat -> real, sqrt: Fn,
                             mean: Vec, sigma: real) returns (cs: seq<Candidate>, t: real)
    requires ActiveParameters(p) && p.alphaminusold > 0.0 && Sum(p.weights) > 0.0 && IsSqrt(sqrt) && Floor(p) < 0.0
    requires IsSquare(c, p.dim) && IsSquare(root, p.dim) && |mean| == p.dim && sigma > 0.0
    requires PositiveDefinite(c) && IsInverseRoot(root, c) && IsEigenSolver(maxEigen)
    ensures Sampled(p, cs, mean, sigma, Zeros(p.dim)) && t > 0.0 && cs == DistantCandidates(p, mean, sigma, t)
    ensures !StaysDefinite(p, c, root, maxEigen, sqrt, cs, mean, sigma, Zeros(p.dim))
  {
    hide IsSqrt, RateCap, SumTo, Floor, FarEnough, FullNext, IsInverseRoot, PositiveDefinite, SampleOf, IsDistant,
      IsEigenSolver, WeightedSquare, Quad;
    InverseRootShape(c, root);
    CapPositive(p, sqrt);
    TargetPositive(p, RateCap(p, sqrt));
    t := EnoughDistance(p, c, FarEnough(p, RateCap(p, sqrt)));
    cs := DistantCandidates(p, mean, sigma, t);
    DistantSample(p, mean, sigma, t);
    FullUnsafeSample(p, c, root, maxEigen, sqrt, SampleOf(p, cs, mean, sigma, Zeros(p.dim)), t);
  }

  lemma FullUnsafeSample(p: UpdateParameters, c: Mat, root: Mat, maxEigen: Mat -> real, sqrt: Fn,
                         s: ActiveSample, t: real)
    requires ActiveParameters(p) && p.alphaminusold > 0.0 && IsSqrt(sqrt) && Floor(p) < 0.0 && RateCap(p, sqrt) > 0.0
    requires IsSquare(c, p.dim) && IsSquare(root, p.dim)
    requires PositiveDefinite(c) && IsInverseRoot(root, c) && IsEigenSolver(maxEigen)
    requires FitsActive(p, s) && IsDistant(p, s, t)
    requires Exceeds(p, c, t, FarEnough(p, RateCap(p, sqrt)))
    ensures !PositiveDefinite(FullNext(p, c, root, s, maxEigen, sqrt))
  {
    hide IsSqrt, RateCap, SumTo, Floor, FarEnough, MatMul, MinusOf, FullNext, Attains, IsInverseRoot, BoundsForm, Quad,
      WeightedSquare, IsDistant, IsEigenSolver, DotTo;
    DistantMinusForm(p, s, t, Ones(p.dim));
    SolverBounds(p, c, root, s, maxEigen);
    var m := Relative(root, MinusOf(p, s));
    assert Symmetric(c) && m == MatMul(MatMul(root, MinusOf(p, s)), root);
    hide PositiveDefinite;
    EigenReaches(c, root, MinusOf(p, s), maxEigen(m), FarEnough(p, RateCap(p, sqrt)), Ones(p.dim));
    var y :| Attains(m, maxEigen(m), y);
    UnsafeDirection(p, c, root, maxEigen, sqrt, s, t, y);
  }

  /** Along the diagonal, the negative form of bad candidates at distance t is target times that of c. */
  predicate Exceeds(p: UpdateParameters, c: Mat, t: real, target: real)
    requires IsSquare(c, p.dim) && |p.weights| == p.mu
  {
    var one := Ones(p.dim);
    Quad(c, one) > 0.0 && WeightedSquare(Sum(p.weights), Dot(seq(p.dim, _ => t), one)) >= target * Quad(c, one)
  }

  /** A distance at which the negative form along the diagonal exceeds the target. */
  lemma EnoughDistance(p: UpdateParameters, c: Mat, target: real) returns (t: real)
    requires p.Valid() && Sum(p.weights) > 0.0 && IsSquare(c, p.dim) && PositiveDefinite(c) && target > 0.0
    ensures t > 0.0 && Exceeds(p, c, t, target)
  {
    var one := Ones(p.dim);
    assert one[0] != 0.0;
    SquaredNormPositive(one);
    var k, q, w := Dot(one, one), Quad(c, one), Sum(p.weights);
    hide DotTo, Quad, SumTo, PositiveDefinite;
    t := SquareExceeds(target * q, w, k);
    DotScaled(t, one, seq(p.dim, _ => t), one);
  }

  lemma SquareExceeds(b: real, w: real, k: real) returns (t: real)
    requires w > 0.0 && k > 0.0
    ensures t > 0.0 && WeightedSquare(w, t * k) >= b
  {
    var a := 1.0 + Abs(b / w);
    t := a / k;
    QuotientPositive(a, k);
    assert t * k == a;
    assert (b / w) * w == b;
    ProductMonotone(1.0, a, a, a);
    SquareAbove(w, a, b, b / w);
  }

  lemma SquareAbove(w: real, a: real, b: real, q: real)
    requires w > 0.0 && q * w == b && a >= q && a * a >= a
    ensures w * (a * a) >= b
  {
    ProductSign(w, a * a - q, w * (a * a - q));
  }

  lemma EigenReaches(c: Mat, root: Mat, minus: Mat, e: real, target: real, x: Vec)
    requires Symmetric(c) && IsInverseRoot(root, c) && IsSquare(root, |c|) && IsSquare(minus, |c|) && |x| == |c|
    requires BoundsForm(MatMul(MatMul(root, minus), root), e)
    requires Quad(c, x) > 0.0 && Quad(minus, x) >= target * Quad(c, x)
    ensures e >= target
  {
    hide Quad, BoundsForm, IsInverseRoot, MatMul;
    MinusBound(c, root, minus, e, x);
    SmallerFactor(target, e, Quad(c, x));
  }

  /** In the direction of the largest eigenvalue the next form is not positive. */
  lemma UnsafeDirection(p: UpdateParameters, c: Mat, root: Mat, maxEigen: Mat -> real, sqrt: Fn, s: ActiveSample,
                        t: real, y: Vec)
    requires ActiveParameters(p) && p.alphaminusold > 0.0 && IsSqrt(sqrt) && Floor(p) < 0.0
    requires IsSquare(c, p.dim) && IsSquare(root, p.dim) && PositiveDefinite(c) && IsInverseRoot(root, c)
    requires FitsActive(p, s) && IsDistant(p, s, t) && RateCap(p, sqrt) > 0.0
    requires var m := Relative(root, MinusOf(p, s));
             Attains(m, maxEigen(m), y) && maxEigen(m) >= FarEnough(p, RateCap(p, sqrt))
    ensures !PositiveDefinite(FullNext(p, c, root, s, maxEigen, sqrt))
  {
    hide IsSqrt, RateCap, FarEnough, Floor, MinusOf, PlusOf, NegativeRate, IsInverseRoot, Quad, DotTo, NextActive,
      MatMul, Attains, IsDistant;
    var e := maxEigen(Relative(root, MinusOf(p, s)));
    var x := DirectionOf(c, root, MinusOf(p, s), e, y);
    var rate := NegativeRate(p, RateCap(p, sqrt), e);
    FarEnoughBounds(p, RateCap(p, sqrt), e);
    DistantPlusForm(p, s, t, x);
    NotPositiveAlong(p, c, s, e, rate, x);
    NonZeroForm(c, x);
  }

  /** The point whose negative form is the eigenvalue times the old form. */
  lemma DirectionOf(c: Mat, root: Mat, minus: Mat, e: real, y: Vec) returns (x: Vec)
    requires Symmetric(c) && IsInverseRoot(root, c) && IsSquare(root, |c|) && IsSquare(minus, |c|)
    requires Attains(Relative(root, minus), e, y)
    ensures |x| == |c| && Quad(c, x) > 0.0 && Quad(minus, x) == e * Quad(c, x)
  {
    hide IsInverseRoot, Quad, Dot, MatMul, Apply, IsZero;
    InverseRootShape(c, root);
    x := Apply(root, y);
    FormOfRooted(c, root, y);
    QuadCongruence(root, minus, y);
    SquaredNormPositive(y);
  }

  lemma NotPositiveAlong(p: UpdateParameters, c: Mat, s: ActiveSample, e: real, rate: real, x: Vec)
    requires ActiveParameters(p) && FitsActive(p, s) && IsSquare(c, p.dim) && |x| == p.dim
    requires rate * e == Budget(p) && Floor(p) + rate * p.alphaminusold <= 0.0
    requires Quad(c, x) > 0.0 && Quad(MinusOf(p, s), x) == e * Quad(c, x)
    requires Quad(PlusOf(p, s), x) == 0.0 && Dot(s.pc, x) == 0.0
    ensures Quad(NextActive(p, rate, c, s.pc, PlusOf(p, s), MinusOf(p, s)), x) <= 0.0
  {
    hide Floor, MinusOf, PlusOf, Quad, DotTo, NextActive, Budget, ActiveTerms;
    NextActiveForm(p, rate, c, s.pc, PlusOf(p, s), MinusOf(p, s), x);
    NothingLeft(p, rate, e, Quad(c, x), Quad(MinusOf(p, s), x));
  }

  lemma NonZeroForm(c: Mat, x: Vec)
    requires IsSquare(c, |x|) && Quad(c, x) > 0.0
    ensures !IsZero(x)
  {
    if IsZero(x) { DotOfZero(x, Apply(c, x)); }
  }

  // ----- whole runs

  /** A covariance oracle: the inverse root that is refreshed before every update. */
  ghost predicate FreshRoots(rootOf: Mat -> Mat, dim: nat) {
    && (forall c: Mat {:trigger rootOf(c)} :: IsSquare(rootOf(c), dim))
    && forall c: Mat {:trigger rootOf(c)} :: IsSquare(c, dim) && PositiveDefinite(c) ==> IsInverseRoot(rootOf(c), c)
  }

  lemma FreshRoot(rootOf: Mat -> Mat, dim: nat, c: Mat)
    requires FreshRoots(rootOf, dim) && IsSquare(c, dim) && PositiveDefinite(c)
    ensures IsSquare(rootOf(c), dim) && IsInverseRoot(rootOf(c), c)
  {
    hide PositiveDefinite, IsInverseRoot;
    var r := rootOf(c);
  }

  /** The covariance after a sequence of active updates from the identity. */
  ghost function RunActive(p: UpdateParameters, samples: seq<ActiveSample>, rootOf: Mat -> Mat, maxEigen: Mat -> real,
                           sqrt: Fn): (c: Mat)
    requires ActiveParameters(p) && IsSqrt(sqrt) && FreshRoots(rootOf, p.dim)
    requires forall i :: 0 <= i < |samples| ==> FitsActive(p, samples[i])
    ensures IsSquare(c, p.dim)
  {
    if samples == [] then Identity(p.dim)
    else
      var prev := RunActive(p, samples[..|samples| - 1], rootOf, maxEigen, sqrt);
      FullNext(p, prev, rootOf(prev), samples[|samples| - 1], maxEigen, sqrt)
  }

  /** At or above the floor, every covariance reachable from the identity by active updates is definite. */
  lemma {:induction false} RunActivePositive(p: UpdateParameters, samples: seq<ActiveSample>, rootOf: Mat -> Mat,
                                             maxEigen: Mat -> real, sqrt: Fn)
    requires ActiveParameters(p) && IsSqrt(sqrt) && FreshRoots(rootOf, p.dim) && IsEigenSolver(maxEigen)
    requires p.alphaminusold > 0.0 && p.c1 <= p.lambdamintarget * (1.0 - p.cmu)
    requires forall i :: 0 <= i < |samples| ==> FitsActive(p, samples[i])
    ensures PositiveDefinite(RunActive(p, samples, rootOf, maxEigen, sqrt))
  {
    hide FullNext, IsSqrt, PositiveDefinite, IsInverseRoot, IsEigenSolver, FitsActive, FreshRoots, Identity;
    if samples == [] {
      IdentityPositive(p.dim);
    } else {
      var init, last := samples[..|samples| - 1], samples[|samples| - 1];
      RunActivePositive(p, init, rootOf, maxEigen, sqrt);
      var prev := RunActive(p, init, rootOf, maxEigen, sqrt);
      FreshRoot(rootOf, p.dim, prev);
      FullSafeSample(p, prev, rootOf(prev), last, maxEigen, sqrt);
    }
  }

  /** The variances after a sequence of separable active updates from one; an update needs positive ones. */
  ghost predicate ReachedSep(p: UpdateParameters, samples: seq<ActiveSample>, sqrt: Fn, c: Vec)
    requires ActiveParameters(p) && IsSqrt(sqrt)
    requires forall i :: 0 <= i < |samples| ==> FitsActive(p, samples[i])
  {
    if samples == [] then c == Ones(p.dim)
    else
      exists prev: Vec :: |prev| == p.dim && AllPositive(prev)
        && ReachedSep(p, samples[..|samples| - 1], sqrt, prev)
        && c == NextActiveSepOf(p, prev, samples[|samples| - 1], sqrt)
  }

  /** At or above the floor, the separable updates can always go on, and every variance stays positive. */
  lemma {:induction false} RunActiveSepPositive(p: UpdateParameters, samples: seq<ActiveSample>, sqrt: Fn)
    returns (c: Vec)
    requires ActiveParameters(p) && IsSqrt(sqrt)
    requires p.alphaminusold > 0.0 && p.c1 <= p.lambdamintarget * (1.0 - p.cmu)
    requires forall i :: 0 <= i < |samples| ==> FitsActive(p, samples[i])
    ensures |c| == p.dim && AllPositive(c) && ReachedSep(p, samples, sqrt, c)
    ensures forall d: Vec :: ReachedSep(p, samples, sqrt, d) ==> d == c
    decreases |samples|
  {
    hide IsSqrt, NextActiveSepOf, FitsActive;
    if samples == [] {
      c := Ones(p.dim);
    } else {
      var init, last := samples[..|samples| - 1], samples[|samples| - 1];
      var prev := RunActiveSepPositive(p, init, sqrt);
      hide AllPositive;
      SafeSample(p, prev, last, sqrt);
      c := NextActiveSepOf(p, prev, last, sqrt);
    }
  }
}
