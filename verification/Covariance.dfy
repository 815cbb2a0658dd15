/** The covariance matrix adaptation: rank-one plus rank-mu updates keep the covariance symmetric and
    positive over every run. */
module Covariance {
  import opened LinearAlgebra
  import opened RealFunctions
  import opened Solutions

  ghost predicate PositiveSemidefinite(m: Mat) {
    Symmetric(m) && forall x: Vec :: |x| == |m| ==> Quad(m, x) >= 0.0
  }

  ghost predicate PositiveDefinite(m: Mat) {
    Symmetric(m) && forall x: Vec :: |x| == |m| && !IsZero(x) ==> Quad(m, x) > 0.0
  }

  /** The share of the old covariance that is kept. */
  function Keep(p: UpdateParameters, hsig: bool): real {
    1.0 - p.c1 - p.cmu + (if hsig then 0.0 else 1.0) * p.c1 * p.cc * (2.0 - p.cc)
  }

  /** What one update draws on: the path after its move, and the differences to the old mean. */
  datatype Sample = Sample(hsig: bool, pc: Vec, diffs: seq<Vec>, sigma: real)

  predicate Fits(p: UpdateParameters, s: Sample) {
    && |s.pc| == p.dim && s.sigma > 0.0 && p.mu <= |s.diffs|
    && forall i :: 0 <= i < |s.diffs| ==> |s.diffs[i]| == p.dim
  }

  function InverseSquare(sigma: real): real
    requires sigma > 0.0
  {
    SquareSign(sigma, sigma * sigma);
    1.0 / (sigma * sigma)
  }

  /** Kept share, rank-one term and rank-mu term, added up. */
  function CombinedCov(p: UpdateParameters, c: Mat, hsig: bool, pc: Vec, sigma: real, w: Mat): (c': Mat)
    requires |pc| == p.dim && sigma > 0.0 && IsSquare(c, p.dim) && IsSquare(w, p.dim)
    ensures IsSquare(c', p.dim)
  {
    MatAdd(MatAdd(MatScale(Keep(p, hsig), c), MatScale(p.c1, Outer(pc))),
           MatScale(p.cmu, MatScale(InverseSquare(sigma), w)))
  }

  function CombinedSepCov(p: UpdateParameters, c: Vec, hsig: bool, pc: Vec, sigma: real, w: Vec): (c': Vec)
    requires |pc| == p.dim && sigma > 0.0 && |c| == p.dim && |w| == p.dim
    ensures |c'| == p.dim
  {
    Add(Add(Scale(Keep(p, hsig), c), Scale(p.c1, Prod(pc, pc))),
        Scale(p.cmu, Scale(InverseSquare(sigma), w)))
  }

  /** The full covariance after one update. */
  function NextCov(p: UpdateParameters, c: Mat, s: Sample): (c': Mat)
    requires p.Valid() && Fits(p, s) && IsSquare(c, p.dim)
    ensures IsSquare(c', p.dim)
  {
    CombinedCov(p, c, s.hsig, s.pc, s.sigma, RankMu(p.weights, s.diffs, p.mu, p.dim))
  }

  /** The diagonal covariance after one update. */
  function NextSepCov(p: UpdateParameters, c: Vec, s: Sample): (c': Vec)
    requires p.Valid() && Fits(p, s) && |c| == p.dim
    ensures |c'| == p.dim
  {
    CombinedSepCov(p, c, s.hsig, s.pc, s.sigma, RankMuDiagonal(p.weights, s.diffs, p.mu, p.dim))
  }

  // ----- one update

  lemma KeepSign(p: UpdateParameters, hsig: bool)
    requires p.Valid()
    ensures Keep(p, hsig) >= 0.0
    ensures Keep(p, hsig) > 0.0 <==> p.c1 + p.cmu < 1.0 || (!hsig && p.c1 > 0.0 && 0.0 < p.cc < 2.0)
  {
    var t := p.c1 * p.cc;
    var u := t * (2.0 - p.cc);
    ProductSign(p.c1, p.cc, t);
    ProductSign(t, 2.0 - p.cc, u);
    assert Keep(p, hsig) == 1.0 - p.c1 - p.cmu + if hsig then 0.0 else u;
  }

  lemma InverseSquarePositive(sigma: real)
    requires sigma > 0.0
    ensures InverseSquare(sigma) > 0.0
  {
    SquareSign(sigma, sigma * sigma);
    var r := 1.0 / (sigma * sigma);
    assert r * (sigma * sigma) == 1.0;
    if r <= 0.0 { ProductSign(-r, sigma * sigma, -r * (sigma * sigma)); }
  }

  /** The kept share of c, the squared path y and the scaled rank-mu part q, each at its rate. */
  function UpdateTerms(p: UpdateParameters, hsig: bool, sigma: real, c: real, y: real, q: real): real
    requires sigma > 0.0
  {
    Keep(p, hsig) * c + p.c1 * (y * y) + p.cmu * (InverseSquare(sigma) * q)
  }

  lemma BlendedTerms(p: UpdateParameters, hsig: bool, sigma: real, c: real, y: real, o: real, q: real, w: real)
    requires sigma > 0.0 && o == y * y && w == InverseSquare(sigma) * q
    ensures Blend(Keep(p, hsig), c, p.c1, o) + p.cmu * w == UpdateTerms(p, hsig, sigma, c, y, q)
  {
    hide Keep, InverseSquare;
  }

  /** A direction in which sample and path have the variance of the model keeps its variance: the rates add
      up to one, also while the path is too long and has only decayed. */
  lemma NeutralDirection(p: UpdateParameters, c: Mat, s: Sample, x: Vec)
    requires p.Valid() && Fits(p, s) && IsSquare(c, p.dim) && |x| == p.dim
    requires Quad(RankMu(p.weights, s.diffs, p.mu, p.dim), x) == s.sigma * s.sigma * Quad(c, x)
    requires Dot(s.pc, x) * Dot(s.pc, x) == (if s.hsig then 1.0 else (1.0 - p.cc) * (1.0 - p.cc)) * Quad(c, x)
    ensures Quad(NextCov(p, c, s), x) == Quad(c, x)
  {
    hide Quad, Dot, RankMu, NextCov, UpdateTerms, Keep, IsSquare;
    NextCovForm(p, c, s, x);
    NeutralTerms(p, s.hsig, s.sigma, Quad(c, x), Dot(s.pc, x), Quad(RankMu(p.weights, s.diffs, p.mu, p.dim), x));
  }

  /** The same for one variance of the separable update. */
  lemma NeutralCoordinate(p: UpdateParameters, c: Vec, s: Sample, j: nat)
    requires p.Valid() && Fits(p, s) && |c| == p.dim && j < p.dim
    requires RankMuDiagonal(p.weights, s.diffs, p.mu, p.dim)[j] == s.sigma * s.sigma * c[j]
    requires s.pc[j] * s.pc[j] == (if s.hsig then 1.0 else (1.0 - p.cc) * (1.0 - p.cc)) * c[j]
    ensures NextSepCov(p, c, s)[j] == c[j]
  {
    hide RankMuDiagonal, NextSepCov, UpdateTerms, Keep;
    NextSepCovComponent(p, c, s, j);
    NeutralTerms(p, s.hsig, s.sigma, c[j], s.pc[j], RankMuDiagonal(p.weights, s.diffs, p.mu, p.dim)[j]);
  }

  lemma NeutralTerms(p: UpdateParameters, hsig: bool, sigma: real, c: real, y: real, q: real)
    requires sigma > 0.0 && q == sigma * sigma * c
    requires y * y == (if hsig then 1.0 else (1.0 - p.cc) * (1.0 - p.cc)) * c
    ensures UpdateTerms(p, hsig, sigma, c, y, q) == c
  {
    var r := InverseSquare(sigma);
    assert r * (sigma * sigma) == 1.0;
    assert r * q == c by { assert r * (sigma * sigma * c) == (r * (sigma * sigma)) * c; }
    var t := p.c1 * (p.cc * (2.0 - p.cc));
    assert Keep(p, hsig) == 1.0 - p.c1 - p.cmu + if hsig then 0.0 else t;
    if !hsig {
      assert (1.0 - p.cc) * (1.0 - p.cc) == 1.0 - p.cc * (2.0 - p.cc);
      assert p.c1 * (y * y) == (p.c1 - t) * c;
    }
  }

  /** The quadratic form of the next covariance, term by term. */
  lemma NextCovForm(p: UpdateParameters, c: Mat, s: Sample, x: Vec)
    requires p.Valid() && Fits(p, s) && IsSquare(c, p.dim) && |x| == p.dim
    ensures Quad(NextCov(p, c, s), x)
         == UpdateTerms(p, s.hsig, s.sigma, Quad(c, x), Dot(s.pc, x), Quad(RankMu(p.weights, s.diffs, p.mu, p.dim), x))
  {
    hide Keep, InverseSquare, Quad, Dot, DotTo, RankMu, Blend, UpdateTerms, MatAdd, MatScale, Outer;
    var w, i := RankMu(p.weights, s.diffs, p.mu, p.dim), InverseSquare(s.sigma);
    var k := Keep(p, s.hsig);
    QuadOuter(s.pc, x);
    QuadCombined(k, c, p.c1, Outer(s.pc), x);
    QuadScale(i, w, x);
    QuadScale(p.cmu, MatScale(i, w), x);
    QuadSum(MatAdd(MatScale(k, c), MatScale(p.c1, Outer(s.pc))), MatScale(p.cmu, MatScale(i, w)), x);
    BlendedTerms(p, s.hsig, s.sigma, Quad(c, x), Dot(s.pc, x), Quad(Outer(s.pc), x), Quad(w, x),
                 Quad(MatScale(i, w), x));
  }

  /** One update adds a non-negative form to the kept share of the old one. */
  lemma NextCovAbove(p: UpdateParameters, c: Mat, s: Sample, x: Vec)
    requires p.Valid() && Fits(p, s) && IsSquare(c, p.dim) && |x| == p.dim
    ensures Quad(NextCov(p, c, s), x) >= Keep(p, s.hsig) * Quad(c, x)
  {
    hide Keep, Quad, Dot, DotTo, NextCov, RankMu, UpdateTerms;
    NextCovForm(p, c, s, x);
    RankMuPositive(p.weights, s.diffs, p.mu, p.dim, x);
    TermsAbove(p, s.hsig, s.sigma, Quad(c, x), Dot(s.pc, x), Quad(RankMu(p.weights, s.diffs, p.mu, p.dim), x));
  }

  /** Both terms that an update adds are non-negative. */
  lemma TermsAbove(p: UpdateParameters, hsig: bool, sigma: real, c: real, y: real, q: real)
    requires p.Valid() && sigma > 0.0 && q >= 0.0
    ensures UpdateTerms(p, hsig, sigma, c, y, q) >= Keep(p, hsig) * c
  {
    hide Keep, InverseSquare;
    InverseSquarePositive(sigma);
    var i := InverseSquare(sigma);
    SquareSign(y, y * y);
    ProductSign(p.c1, y * y, p.c1 * (y * y));
    ProductSign(i, q, i * q);
    ProductSign(p.cmu, i * q, p.cmu * (i * q));
  }

  lemma NextCovSymmetric(p: UpdateParameters, c: Mat, s: Sample)
    requires p.Valid() && Fits(p, s) && IsSquare(c, p.dim) && Symmetric(c)
    ensures Symmetric(NextCov(p, c, s))
  {
    var w, i, k := RankMu(p.weights, s.diffs, p.mu, p.dim), InverseSquare(s.sigma), Keep(p, s.hsig);
    OuterSymmetric(s.pc);
    RankMuSymmetric(p.weights, s.diffs, p.mu, p.dim);
    hide Keep, InverseSquare, RankMu, Symmetric, MatScale, MatAdd, Outer;
    SymmetricScale(k, c);
    SymmetricScale(p.c1, Outer(s.pc));
    SymmetricAdd(MatScale(k, c), MatScale(p.c1, Outer(s.pc)));
    SymmetricScale(i, w);
    SymmetricScale(p.cmu, MatScale(i, w));
    SymmetricAdd(MatAdd(MatScale(k, c), MatScale(p.c1, Outer(s.pc))), MatScale(p.cmu, MatScale(i, w)));
  }

  /** One update preserves positivity, for any sample; strictly, as soon as some of the old covariance
      is kept. */
  lemma NextCovPositive(p: UpdateParameters, c: Mat, s: Sample)
    requires p.Valid() && Fits(p, s) && IsSquare(c, p.dim)
    ensures PositiveSemidefinite(c) ==> PositiveSemidefinite(NextCov(p, c, s))
    ensures PositiveDefinite(c) && Keep(p, s.hsig) > 0.0 ==> PositiveDefinite(NextCov(p, c, s))
  {
    hide Keep, Quad, NextCov;
    var k := Keep(p, s.hsig);
    KeepSign(p, s.hsig);
    if Symmetric(c) { NextCovSymmetric(p, c, s); }
    forall x: Vec | |x| == p.dim
      ensures Quad(c, x) >= 0.0 ==> Quad(NextCov(p, c, s), x) >= 0.0
      ensures Quad(c, x) > 0.0 && k > 0.0 ==> Quad(NextCov(p, c, s), x) > 0.0
    {
      NextCovAbove(p, c, s, x);
      ProductSign(k, Quad(c, x), k * Quad(c, x));
    }
  }

  /** Definiteness survives every possible sample exactly when part of the old covariance is kept. */
  lemma DefiniteForAllSamplesIff(p: UpdateParameters, c: Mat, hsig: bool)
    requires p.Valid() && IsSquare(c, p.dim) && PositiveDefinite(c)
    ensures Keep(p, hsig) > 0.0 <==>
            forall s: Sample :: s.hsig == hsig && Fits(p, s) ==> PositiveDefinite(NextCov(p, c, s))
  {
    hide Keep, Quad, NextCov;
    if Keep(p, hsig) > 0.0 {
      forall s: Sample | s.hsig == hsig && Fits(p, s) ensures PositiveDefinite(NextCov(p, c, s)) {
        NextCovPositive(p, c, s);
      }
    } else {
      var s := Sample(hsig, Zeros(p.dim), seq(p.mu, _ => Zeros(p.dim)), 1.0);
      var x := Ones(p.dim);
      assert x[0] != 0.0;
      IdleSample(p, c, s, x);
      KeepSign(p, hsig);
      assert Quad(NextCov(p, c, s), x) <= 0.0;
      assert !PositiveDefinite(NextCov(p, c, s));
    }
  }

  /** A sample that sits on the mean leaves only the kept share. */
  lemma IdleSample(p: UpdateParameters, c: Mat, s: Sample, x: Vec)
    requires p.Valid() && IsSquare(c, p.dim) && |x| == p.dim && Fits(p, s)
    requires IsZero(s.pc) && forall i :: 0 <= i < |s.diffs| ==> IsZero(s.diffs[i])
    ensures Quad(NextCov(p, c, s), x) == Keep(p, s.hsig) * Quad(c, x)
  {
    hide Keep, Quad, DotTo, NextCov, RankMu;
    NextCovForm(p, c, s, x);
    DotZero(s.pc, x, p.dim);
    IdleRankMu(p.weights, s.diffs, p.mu, p.dim, x);
    assert p.c1 * (0.0 * 0.0) == 0.0 && p.cmu * (InverseSquare(s.sigma) * 0.0) == 0.0;
  }

  lemma IdleRankMu(weights: Vec, diffs: seq<Vec>, k: nat, dim: nat, x: Vec)
    requires k <= |weights| && k <= |diffs| && forall i :: 0 <= i < |diffs| ==> |diffs[i]| == dim
    requires |x| == dim && forall i :: 0 <= i < |diffs| ==> IsZero(diffs[i])
    ensures Quad(RankMu(weights, diffs, k, dim), x) == 0.0
  {
    hide Quad, DotTo, RankMu, SumTo;
    var z := Zeros(dim);
    assert forall i :: 0 <= i < |diffs| ==> diffs[i] == z;
    DotOfZero(z, x);
    ConstantForm(weights, z, diffs, k, x);
    assert WeightedSquare(SumTo(weights, k), 0.0) == 0.0;
  }

  // ----- whole runs

  /** The covariance after a sequence of updates from the identity. */
  function RunCov(p: UpdateParameters, samples: seq<Sample>): (c: Mat)
    requires p.Valid() && forall i :: 0 <= i < |samples| ==> Fits(p, samples[i])
    ensures IsSquare(c, p.dim)
  {
    if samples == [] then Identity(p.dim)
    else NextCov(p, RunCov(p, samples[..|samples| - 1]), samples[|samples| - 1])
  }

  lemma IdentityPositive(n: nat)
    ensures PositiveDefinite(Identity(n))
  {
    forall x: Vec | |x| == n && !IsZero(x) ensures Quad(Identity(n), x) > 0.0 {
      QuadIdentity(x);
      SquaredNormPositive(x);
    }
  }

  lemma DefiniteIsSemidefinite(m: Mat)
    requires PositiveDefinite(m)
    ensures PositiveSemidefinite(m)
  {
    forall x: Vec | |x| == |m| ensures Quad(m, x) >= 0.0 {
      if IsZero(x) { DotZero(x, Apply(m, x), |x|); }
    }
  }

  /** Every covariance reachable from the identity is symmetric positive semidefinite, and definite when
      c1 + cmu < 1, whatever the samples. */
  lemma {:induction false} RunPositive(p: UpdateParameters, samples: seq<Sample>)
    requires p.Valid() && forall i :: 0 <= i < |samples| ==> Fits(p, samples[i])
    ensures PositiveSemidefinite(RunCov(p, samples))
    ensures p.c1 + p.cmu < 1.0 ==> PositiveDefinite(RunCov(p, samples))
  {
    hide Keep, NextCov, PositiveSemidefinite, PositiveDefinite;
    if samples == [] {
      IdentityPositive(p.dim);
      DefiniteIsSemidefinite(Identity(p.dim));
    } else {
      var prev, s := samples[..|samples| - 1], samples[|samples| - 1];
      RunPositive(p, prev);
      NextCovPositive(p, RunCov(p, prev), s);
      KeepSign(p, s.hsig);
    }
  }

  /** The separable variant keeps every variance non-negative, and positive when any share is kept. */
  lemma NextSepCovPositive(p: UpdateParameters, c: Vec, s: Sample, j: nat)
    requires p.Valid() && Fits(p, s) && |c| == p.dim && j < p.dim && c[j] >= 0.0
    ensures NextSepCov(p, c, s)[j] >= Keep(p, s.hsig) * c[j] >= 0.0
    ensures c[j] > 0.0 && Keep(p, s.hsig) > 0.0 ==> NextSepCov(p, c, s)[j] > 0.0
  {
    KeepSign(p, s.hsig);
    RankMuDiagonalPositive(p.weights, s.diffs, p.mu, p.dim);
    NextSepCovComponent(p, c, s, j);
    hide Keep, RankMuDiagonal, UpdateTerms, NextSepCov, Fits;
    var k := Keep(p, s.hsig);
    ProductSign(k, c[j], k * c[j]);
    TermsAbove(p, s.hsig, s.sigma, c[j], s.pc[j], RankMuDiagonal(p.weights, s.diffs, p.mu, p.dim)[j]);
  }

  lemma NextSepCovComponent(p: UpdateParameters, c: Vec, s: Sample, j: nat)
    requires p.Valid() && Fits(p, s) && |c| == p.dim && j < p.dim
    ensures NextSepCov(p, c, s)[j]
         == UpdateTerms(p, s.hsig, s.sigma, c[j], s.pc[j], RankMuDiagonal(p.weights, s.diffs, p.mu, p.dim)[j])
  {
    hide Keep, InverseSquare, RankMuDiagonal;
  }

  // ----- the program

  /** The variances of the separable variant are all positive. */
  predicate AllPositive(c: Vec) {
    forall i :: 0 <= i < |c| ==> c[i] > 0.0
  }

  /** The normalised mean shift. */
  function MeanShift(sigma: real, mean: Vec, old': Vec): (r: Vec)
    requires sigma != 0.0 && |mean| == |old'|
    ensures |r| == |mean|
  {
    Scale(1.0 / sigma, Sub(mean, old'))
  }

  /** The shift is the move of the mean in units of the step size. */
  lemma MeanShiftBack(sigma: real, mean: Vec, old': Vec)
    requires sigma != 0.0 && |mean| == |old'|
    ensures Add(old', Scale(sigma, MeanShift(sigma, mean, old'))) == mean
  {
    var r := 1.0 / sigma;
    forall i | 0 <= i < |mean| ensures Add(old', Scale(sigma, MeanShift(sigma, mean, old')))[i] == mean[i] {
      assert sigma * (r * (mean[i] - old'[i])) == (r * sigma) * (mean[i] - old'[i]);
    }
  }

  /** The paths after their moves: the step-size path follows the shift whitened by the stored inverse
      root, the covariance path follows the shift itself while the step-size path is short. */
  ghost predicate PathsMoved(p: UpdateParameters, s: CmaSolutions, psigma: Vec, pc: Vec, shift: Vec, sqrt: Fn)
    requires p.Valid() && |psigma| == |pc| == |shift| == p.dim
    reads s`psigma, s`pc, s`hsig, s`niter, s`csqinv, s`sepcsqinv
  {
    && (if p.sep then |s.sepcsqinv| == p.dim else IsSquare(s.csqinv, p.dim))
    && var whitened := if p.sep then Prod(s.sepcsqinv, shift) else Apply(s.csqinv, shift);
    && s.psigma == NextPath(psigma, p.csigma, p.factPs, whitened)
    && (s.hsig <==> sqrt(Dot(s.psigma, s.psigma)) < PathThreshold(sqrt, p, s.niter))
    && s.pc == if s.hsig then NextPath(pc, p.cc, p.factPc, shift) else Scale(1.0 - p.cc, pc)
  }

  /** The inverse root of a diagonal covariance. */
  function SepRoot(c: Vec, sqrt: Fn): (r: Vec)
    requires AllPositive(c)
    ensures |r| == |c|
  {
    seq(|c|, i requires 0 <= i < |c| => sqrt(1.0 / c[i]))
  }

  lemma SepRootIsInverse(c: Vec, sqrt: Fn, i: nat)
    requires IsSqrt(sqrt) && AllPositive(c) && i < |c|
    ensures SepRoot(c, sqrt)[i] >= 0.0 && SepRoot(c, sqrt)[i] * SepRoot(c, sqrt)[i] * c[i] == 1.0
  {
    QuotientPositive(1.0, c[i]);
  }

  /** The covariance c or the variances v are strict. */
  ghost predicate StrictCov(p: UpdateParameters, c: Mat, v: Vec) {
    if p.sep then AllPositive(v) else PositiveDefinite(c)
  }

  /** The covariance after its move: the old one updated by the sample, as definite as the old one. */
  ghost predicate CovMoved(p: UpdateParameters, c: Mat, v: Vec, sample: Sample, c': Mat, v': Vec)
    requires p.Valid() && if p.sep then |v| == p.dim else IsSquare(c, p.dim)
  {
    && Fits(p, sample)
    && (if p.sep then c' == c && v' == NextSepCov(p, v, sample) else v' == v && c' == NextCov(p, c, sample))
    && (!p.sep && PositiveSemidefinite(c) ==> PositiveSemidefinite(c'))
    && (p.c1 + p.cmu < 1.0 && StrictCov(p, c, v) ==> StrictCov(p, c', v'))
  }

  /** What the covariance update reads off the search state. */
  function StateSample(p: UpdateParameters, s: CmaSolutions, mean: Vec, sigma: real): (sample: Sample)
    requires |mean| == p.dim && AllOfDim(s.candidates, p.dim)
    reads s`hsig, s`pc, s`candidates
  {
    Sample(s.hsig, s.pc, Differences(s.candidates, mean), sigma)
  }

  /** One update. inverseSqrt is the eigen solver's inverse square root of the covariance, fresh when
      updatedEigen holds. */
  method Update(p: UpdateParameters, s: CmaSolutions, updatedEigen: bool, inverseSqrt: Mat, sqrt: Fn, exp: Fn)
    requires p.Valid() && s.Shaped(p) && IsSqrt(sqrt) && IsExp(exp)
    requires IsSquare(inverseSqrt, p.dim) && (!p.sep && !updatedEigen ==> IsSquare(s.csqinv, p.dim))
    requires p.sep ==> AllPositive(s.sepcov)
    modifies s`xmean, s`xmeanPrev, s`sigma, s`psigma, s`pc, s`hsig, s`csqinv, s`sepcsqinv, s`cov, s`sepcov
    ensures s.Shaped(p)
    ensures s.xmean == WeightedSum(p.weights, Points(s.candidates, p.dim), p.mu, p.dim)
    ensures PathsMoved(p, s, old(s.psigma), old(s.pc), MeanShift(old(s.sigma), s.xmean, old(s.xmean)), sqrt)
    ensures s.sigma == old(s.sigma) * SigmaFactor(p, sqrt(Dot(s.psigma, s.psigma)), false, s.niter, s.tpaS, exp)
    ensures StepSizeFollows(p, sqrt(Dot(s.psigma, s.psigma)), false, s.niter, s.tpaS, old(s.sigma), s.sigma)
    ensures s.xmeanPrev == if p.tpa != 0 then old(s.xmean) else old(s.xmeanPrev)
    ensures CovMoved(p, old(s.cov), old(s.sepcov), StateSample(p, s, old(s.xmean), old(s.sigma)), s.cov, s.sepcov)
  {
    hide IsExp, SigmaFactor, StepSizeFollows, CovMoved, StateSample, AllPositive, AllOfDim, IsSquare, PathsMoved,
      MeanShift, Dot, DotTo, WeightedSum, Points, UpdateParameters.Valid;
    var mean := s.AccumulateMean(p, Points(s.candidates, p.dim));
    var normPs := Adapt(p, s, updatedEigen, inverseSqrt, MeanShift(s.sigma, mean, s.xmean), sqrt);
    s.UpdateSigma(p, normPs, false, exp);
    if p.tpa != 0 { s.xmeanPrev := s.xmean; }
    s.xmean := mean;
  }

  /** Paths and covariance, from the mean shift. */
  method Adapt(p: UpdateParameters, s: CmaSolutions, updatedEigen: bool, inverseSqrt: Mat, shift: Vec, sqrt: Fn)
    returns (normPs: real)
    requires p.Valid() && s.Shaped(p) && |shift| == p.dim
    requires IsSquare(inverseSqrt, p.dim) && (!p.sep && !updatedEigen ==> IsSquare(s.csqinv, p.dim))
    requires p.sep ==> AllPositive(s.sepcov)
    modifies s`psigma, s`pc, s`hsig, s`csqinv, s`sepcsqinv, s`cov, s`sepcov
    ensures s.Shaped(p)
    ensures normPs == sqrt(Dot(s.psigma, s.psigma)) && PathsMoved(p, s, old(s.psigma), old(s.pc), shift, sqrt)
    ensures CovMoved(p, old(s.cov), old(s.sepcov), StateSample(p, s, s.xmean, s.sigma), s.cov, s.sepcov)
  {
    hide CovMoved, StateSample, Dot, AllPositive, AllOfDim, UpdateParameters.Valid, PathsMoved;
    normPs := WalkPaths(p, s, updatedEigen, inverseSqrt, shift, sqrt);
    UpdateCov(p, s);
  }

  /** The paths follow the whitened shift and the shift. */
  method WalkPaths(p: UpdateParameters, s: CmaSolutions, updatedEigen: bool, inverseSqrt: Mat, shift: Vec, sqrt: Fn)
    returns (normPs: real)
    requires p.Valid() && |s.psigma| == |s.pc| == |shift| == p.dim && IsSquare(inverseSqrt, p.dim)
    requires !p.sep && !updatedEigen ==> IsSquare(s.csqinv, p.dim)
    requires p.sep ==> |s.sepcov| == p.dim && AllPositive(s.sepcov)
    modifies s`psigma, s`pc, s`hsig, s`csqinv, s`sepcsqinv
    ensures |s.psigma| == |s.pc| == p.dim
    ensures normPs == sqrt(Dot(s.psigma, s.psigma)) && PathsMoved(p, s, old(s.psigma), old(s.pc), shift, sqrt)
    ensures if p.sep then s.sepcsqinv == SepRoot(s.sepcov, sqrt) else IsSquare(s.csqinv, p.dim)
  {
    hide PathThreshold, Dot, AllPositive, UpdateParameters.Valid;
    var whitened := Whiten(p, s, updatedEigen, inverseSqrt, shift, sqrt);
    normPs := s.UpdatePaths(p, shift, whitened, sqrt);
  }

  /** The mean shift in the metric of the covariance; the stored inverse root is refreshed first. */
  method Whiten(p: UpdateParameters, s: CmaSolutions, updatedEigen: bool, inverseSqrt: Mat, shift: Vec, sqrt: Fn)
    returns (w: Vec)
    requires |shift| == p.dim && IsSquare(inverseSqrt, p.dim)
    requires !p.sep && !updatedEigen ==> IsSquare(s.csqinv, p.dim)
    requires p.sep ==> |s.sepcov| == p.dim && AllPositive(s.sepcov)
    modifies s`csqinv, s`sepcsqinv
    ensures |w| == p.dim
    ensures s.csqinv == if updatedEigen && !p.sep then inverseSqrt else old(s.csqinv)
    ensures p.sep ==> |s.sepcsqinv| == p.dim && w == Prod(s.sepcsqinv, shift)
    ensures p.sep ==> s.sepcsqinv == SepRoot(s.sepcov, sqrt)
    ensures !p.sep ==> IsSquare(s.csqinv, p.dim) && w == Apply(s.csqinv, shift)
  {
    if updatedEigen && !p.sep {
      s.csqinv := inverseSqrt;
    } else if p.sep {
      var inv := Inverse(s.sepcov);
      s.sepcsqinv := seq(|inv|, i requires 0 <= i < |inv| => sqrt(inv[i]));
      assert s.sepcsqinv == SepRoot(s.sepcov, sqrt);
    }
    w := if p.sep then Prod(s.sepcsqinv, shift) else Apply(s.csqinv, shift);
  }

  /** The covariance part of the update. */
  method UpdateCov(p: UpdateParameters, s: CmaSolutions)
    requires p.Valid() && s.Shaped(p)
    requires p.sep ==> AllPositive(s.sepcov)
    modifies s`cov, s`sepcov
    ensures s.Shaped(p)
    ensures CovMoved(p, old(s.cov), old(s.sepcov), StateSample(p, s, s.xmean, s.sigma), s.cov, s.sepcov)
  {
    hide PositiveSemidefinite, PositiveDefinite, Keep, CombinedCov, CombinedSepCov, RankMu, RankMuDiagonal;
    var diffs := Differences(s.candidates, s.xmean);
    ghost var sample := Sample(s.hsig, s.pc, diffs, s.sigma);
    KeepSign(p, s.hsig);
    if p.sep {
      var r := s.AccumulateRankMuDiagonal(p, diffs);
      SepCovPositive(p, s.sepcov, sample);
      s.sepcov := CombinedSepCov(p, s.sepcov, s.hsig, s.pc, s.sigma, r);
    } else {
      var m := s.AccumulateRankMu(p, diffs);
      NextCovPositive(p, s.cov, sample);
      s.cov := CombinedCov(p, s.cov, s.hsig, s.pc, s.sigma, m);
    }
  }

  lemma SepCovPositive(p: UpdateParameters, c: Vec, s: Sample)
    requires p.Valid() && Fits(p, s) && |c| == p.dim && AllPositive(c)
    ensures Keep(p, s.hsig) > 0.0 ==> AllPositive(NextSepCov(p, c, s))
  {
    hide Keep, NextSepCov;
    forall j | 0 <= j < p.dim ensures Keep(p, s.hsig) > 0.0 ==> NextSepCov(p, c, s)[j] > 0.0 {
      NextSepCovPositive(p, c, s, j);
    }
  }
}
