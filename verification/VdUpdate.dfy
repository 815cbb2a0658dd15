/** The natural-gradient update of VD-CMA: the vector v and the diagonal move along the solution of the
    dense system, computed in linear time. */
module VdUpdate {
  import opened LinearAlgebra
  import opened RealFunctions
  import opened Solutions
  import opened VdCma
  import opened VdFisher
  import opened VdStep

  /** The sample in the metric of D: differences to the mean over the scales and the step size. */
  function Whitened(cs: seq<Candidate>, mean: Vec, d: Vec, sigma: real): (r: seq<Vec>)
    requires AllOfDim(cs, |mean|) && |d| == |mean| && sigma != 0.0
    requires forall i :: 0 <= i < |d| ==> d[i] != 0.0
    ensures |r| == |cs| && AllOfLength(r, |mean|)
  {
    seq(|cs|, i requires 0 <= i < |cs| => Divide(Prod(Inverse(d), Sub(cs[i].x, mean)), sigma))
  }

  /** The damping of the step-size path in each coordinate: 1 / sqrt(1 + v_i^2). */
  function Damping(v: Vec, sqrt: Fn): (r: Vec)
    requires IsSqrt(sqrt)
    ensures |r| == |v|
  {
    seq(|v|, i requires 0 <= i < |v| => (DampingPositive(v[i], sqrt); 1.0 / sqrt(1.0 + v[i] * v[i])))
  }

  /** A whitened point is the place of its candidate in the metric of D and the step size. */
  lemma WhitenedPlace(cs: seq<Candidate>, mean: Vec, d: Vec, sigma: real, i: nat)
    requires AllOfDim(cs, |mean|) && |d| == |mean| && sigma != 0.0 && i < |cs|
    requires forall j :: 0 <= j < |d| ==> d[j] != 0.0
    ensures Add(mean, Scale(sigma, Prod(d, Whitened(cs, mean, d, sigma)[i]))) == cs[i].x
  {
    var x, y := cs[i].x, Whitened(cs, mean, d, sigma)[i];
    var z := Add(mean, Scale(sigma, Prod(d, y)));
    assert |x| == |mean|;
    forall j | 0 <= j < |mean| ensures z[j] == x[j] {
      WhitenedAt(cs, mean, d, sigma, i, j);
      PlaceAt(mean, sigma, d, y, j);
      hide Whitened, Add, Scale, Prod;
    }
  }

  lemma WhitenedAt(cs: seq<Candidate>, mean: Vec, d: Vec, sigma: real, i: nat, j: nat)
    requires AllOfDim(cs, |mean|) && |d| == |mean| && sigma != 0.0 && i < |cs| && j < |mean|
    requires forall k :: 0 <= k < |d| ==> d[k] != 0.0
    ensures |cs[i].x| == |mean|
    ensures sigma * (d[j] * Whitened(cs, mean, d, sigma)[i][j]) == cs[i].x[j] - mean[j]
  {
    var t := cs[i].x[j] - mean[j];
    UnwhitenAlgebra(d[j], sigma, t, (1.0 / d[j] * t) / sigma);
  }

  lemma PlaceAt(mean: Vec, sigma: real, d: Vec, y: Vec, j: nat)
    requires |mean| == |d| == |y| && j < |y|
    ensures Add(mean, Scale(sigma, Prod(d, y)))[j] == mean[j] + sigma * (d[j] * y[j])
  {
  }

  lemma UnwhitenAlgebra(d: real, sigma: real, t: real, y: real)
    requires d != 0.0 && sigma != 0.0 && y == (1.0 / d * t) / sigma
    ensures sigma * (d * y) == t
  {
    var q := 1.0 / d;
    assert q * d == 1.0;
    assert sigma * y == q * t;
    assert sigma * (d * y) == d * (sigma * y) == (q * d) * t;
  }

  /** The step-size path takes the shift over the standard deviation of each coordinate: the factor of
      coordinate i, squared, is the inverse of the covariance's diagonal entry. */
  lemma DampingIsDeviation(v: Vec, d: Vec, sqrt: Fn, i: nat)
    requires IsSqrt(sqrt) && |v| == |d| && i < |v| && forall j :: 0 <= j < |d| ==> d[j] != 0.0
    ensures var f := Prod(Damping(v, sqrt), Inverse(d))[i]; f * f * FullCov(d, v)[i][i] == 1.0
    ensures Damping(v, sqrt)[i] > 0.0
  {
    var a := v[i];
    DampingPositive(a, sqrt);
    var r := sqrt(1.0 + a * a);
    QuotientPositive(1.0, r);
    var e, q := 1.0 / r, 1.0 / d[i];
    assert q * d[i] == 1.0;
    assert FullCov(d, v)[i][i] == d[i] * (1.0 + a * a) * d[i];
    assert (1.0 + a * a) == r * r;
    DeviationAlgebra(e, r, q, d[i], e * q, d[i] * (r * r) * d[i]);
  }

  lemma DeviationAlgebra(e: real, r: real, q: real, d: real, f: real, c: real)
    requires e * r == 1.0 && q * d == 1.0 && f == e * q && c == d * (r * r) * d
    ensures f * f * c == 1.0
  {
    assert f * f * c == ((e * r) * (e * r)) * ((q * d) * (q * d));
  }

  lemma DampingPositive(a: real, sqrt: Fn)
    requires IsSqrt(sqrt)
    ensures 1.0 + a * a > 0.0 && sqrt(1.0 + a * a) > 0.0
  {
    SquareSign(a, a * a);
    SqrtMonotone(sqrt, 1.0 + a * a, 1.0 + a * a);
  }

  /** One VD update. With v non-zero, no division is by zero, and D and v take the natural step. */
  method Update(p: UpdateParameters, s: CmaSolutions, sqrt: Fn, exp: Fn)
    requires p.Valid() && p.sep && s.Shaped(p) && IsExp(exp) && IsSqrt(sqrt)
    requires |s.v| == p.dim && !IsZero(s.v) && forall i :: 0 <= i < p.dim ==> s.sepcov[i] != 0.0
    modifies s`xmean, s`xmeanPrev, s`sigma, s`psigma, s`pc, s`hsig, s`sepcsqinv, s`sepcov, s`v
    ensures s.Shaped(p) && |s.v| == p.dim && NonZero(sqrt, old(s.v))
    ensures s.xmeanPrev == if p.tpa != 0 then old(s.xmean) else old(s.xmeanPrev)
    ensures s.xmean == WeightedSum(p.weights, Points(s.candidates, p.dim), p.mu, p.dim)
    ensures Adapted(p, sqrt, s.candidates, old(s.xmean), old(s.sigma), s.hsig, s.pc,
                    old(s.sepcov), old(s.v), s.sepcov, s.v)
    ensures PathsFollow(p, s.psigma, s.pc, s.hsig, old(s.psigma), old(s.pc), old(s.sepcov), old(s.v),
                        Scale(1.0 / old(s.sigma), Sub(s.xmean, old(s.xmean))), s.niter, sqrt)
    ensures s.sigma == old(s.sigma) * SigmaFactor(p, sqrt(Dot(s.psigma, s.psigma)), false, s.niter, s.tpaS, exp)
    ensures StepSizeFollows(p, sqrt(Dot(s.psigma, s.psigma)), false, s.niter, s.tpaS, old(s.sigma), s.sigma)
  {
    hide NonZero, Adapted, PathsFollow, WeightedSum, Points, SigmaFactor, StepSizeFollows, AllOfDim, IsSqrt, IsExp,
      IsZero, Dot, DotTo, UpdateParameters.Valid, Sub, Scale;
    NonZeroVector(sqrt, s.v);
    var mean := s.AccumulateMean(p, Points(s.candidates, p.dim));
    var normPs := Adapt(p, s, Scale(1.0 / s.sigma, Sub(mean, s.xmean)), sqrt);
    s.UpdateSigma(p, normPs, false, exp);
    if p.tpa != 0 { s.xmeanPrev := s.xmean; }
    s.xmean := mean;
  }

  /** The paths, then the natural step. */
  method Adapt(p: UpdateParameters, s: CmaSolutions, shift: Vec, sqrt: Fn) returns (normPs: real)
    requires p.Valid() && p.sep && s.Shaped(p) && IsSqrt(sqrt) && |shift| == p.dim
    requires |s.v| == p.dim && NonZero(sqrt, s.v) && forall i :: 0 <= i < p.dim ==> s.sepcov[i] != 0.0
    modifies s`psigma, s`pc, s`hsig, s`sepcsqinv, s`sepcov, s`v
    ensures s.Shaped(p) && |s.v| == p.dim && normPs == sqrt(Dot(s.psigma, s.psigma))
    ensures PathsFollow(p, s.psigma, s.pc, s.hsig, old(s.psigma), old(s.pc), old(s.sepcov), old(s.v), shift, s.niter,
                        sqrt)
    ensures Adapted(p, sqrt, s.candidates, s.xmean, s.sigma, s.hsig, s.pc, old(s.sepcov), old(s.v), s.sepcov, s.v)
  {
    hide NonZero, Adapted, PathsFollow, AllOfDim, IsSqrt, Dot, UpdateParameters.Valid;
    normPs := MovePaths(p, s, shift, sqrt);
    Step(p, s, sqrt);
  }

  /** The moves of the two paths; here the step-size path is damped coordinate by coordinate. */
  ghost predicate PathsFollow(p: UpdateParameters, psigma': Vec, pc': Vec, hsig: bool, psigma: Vec, pc: Vec,
                              d: Vec, v: Vec, shift: Vec, niter: nat, sqrt: Fn)
    requires p.Valid() && IsSqrt(sqrt) && |psigma| == |pc| == |d| == |v| == |shift| == p.dim
    requires forall i :: 0 <= i < p.dim ==> d[i] != 0.0
  {
    && psigma' == NextPath(psigma, p.csigma, p.factPs, Prod(Prod(Damping(v, sqrt), Inverse(d)), shift))
    && (hsig <==> sqrt(Dot(psigma', psigma')) < PathThreshold(sqrt, p, niter))
    && pc' == if hsig then NextPath(pc, p.cc, p.factPc, shift) else Scale(1.0 - p.cc, pc)
  }

  /** D and v after the natural step, or unchanged when the learning rates vanish. */
  ghost predicate Adapted(p: UpdateParameters, sqrt: Fn, cs: seq<Candidate>, mean: Vec, sigma: real, hsig: bool,
                          pc: Vec, d: Vec, v: Vec, d': Vec, v': Vec)
    requires p.Valid() && |mean| == |pc| == |d| == |v| == p.dim && p.mu <= |cs| && AllOfDim(cs, p.dim)
    requires sigma != 0.0 && NonZero(sqrt, v) && forall i :: 0 <= i < p.dim ==> d[i] != 0.0
  {
    var c := CoefficientsOf(sqrt, v);
    if p.cmu + p.c1 * (if hsig then 1.0 else 0.0) > 0.0 then
      NaturalStep(p, c.alpha, Whitened(cs, mean, d, sigma), Prod(Inverse(d), pc), hsig, d, v, d', v')
    else d' == d && v' == v
  }

  method MovePaths(p: UpdateParameters, s: CmaSolutions, shift: Vec, sqrt: Fn) returns (normPs: real)
    requires p.Valid() && p.sep && s.Shaped(p) && |s.v| == |shift| == p.dim && IsSqrt(sqrt)
    requires forall i :: 0 <= i < p.dim ==> s.sepcov[i] != 0.0
    modifies s`psigma, s`pc, s`hsig, s`sepcsqinv
    ensures s.Shaped(p) && normPs == sqrt(Dot(s.psigma, s.psigma))
    ensures PathsFollow(p, s.psigma, s.pc, s.hsig, old(s.psigma), old(s.pc), s.sepcov, s.v, shift, s.niter, sqrt)
  {
    hide PathThreshold, Damping, IsSqrt, Dot, AllOfDim;
    s.sepcsqinv := Inverse(s.sepcov);
    normPs := s.UpdatePaths(p, shift, Prod(Prod(Damping(s.v, sqrt), s.sepcsqinv), shift), sqrt);
  }

  /** The natural-gradient step of D and v. */
  method Step(p: UpdateParameters, s: CmaSolutions, sqrt: Fn)
    requires p.Valid() && p.sep && s.Shaped(p)
    requires |s.v| == p.dim && NonZero(sqrt, s.v) && forall i :: 0 <= i < p.dim ==> s.sepcov[i] != 0.0
    modifies s`sepcov, s`v
    ensures s.Shaped(p) && |s.v| == p.dim
    ensures Adapted(p, sqrt, s.candidates, s.xmean, s.sigma, s.hsig, s.pc, old(s.sepcov), old(s.v), s.sepcov, s.v)
  {
    hide NonZero, CoefficientsOf, NaturalStep, Dot, IsSqrt, Normal;
    if p.cmu + p.c1 * (if s.hsig then 1.0 else 0.0) > 0.0 {
      CoefficientShapes(sqrt, s.v);
      CoefficientsNormal(sqrt, s.v);
      var c := CoefficientsOf(sqrt, s.v);
      var ys := Whitened(s.candidates, s.xmean, s.sepcov, s.sigma);
      var ym := Prod(Inverse(s.sepcov), s.pc);
      assert |ym| == p.dim by { InverseProdShape(s.sepcov, s.pc); }
      var d, v := Descend(p, c, ys, ym, s.hsig, s.sepcov, s.v, sqrt(c.normv));
      s.v := v;
      s.sepcov := d;
    }
  }

  lemma InverseProdShape(d: Vec, x: Vec)
    requires |d| == |x| && forall i :: 0 <= i < |d| ==> d[i] != 0.0
    ensures |Inverse(d)| == |d| && |Prod(Inverse(d), x)| == |d|
  {
  }

  /** The coefficients meet the demands of the linear solve. */
  lemma CoefficientShapes(sqrt: Fn, v: Vec)
    requires NonZero(sqrt, v)
    ensures |v| > 0 && Dot(v, v) > 0.0 && sqrt(Dot(v, v)) != 0.0 && sqrt(1.0 + Dot(v, v)) != 0.0
    ensures MaxCoeff(Prod(Direction(sqrt, v), Direction(sqrt, v))) != 0.0
    ensures var c := CoefficientsOf(sqrt, v);
            && c.normv == Dot(v, v) > 0.0 && sqrt(c.normv) > 0.0
            && |c.vbar| == |c.vbarbar| == |c.diagonal| == |v|
            && (forall i :: 0 <= i < |v| ==> c.diagonal[i] > 0.0)
            && Factor(c.b, Nu2(c.diagonal, c.vbarbar)) > 0.0
  {
    DenominatorsPositive(sqrt, v);
    hide IsSqrt, Alpha, Beta, Slope, MaxCoeff, Dot, Factor, Nu2;
  }

  /** Solves for the step in linear time and moves D and v along it: this is the natural step. */
  method Descend(p: UpdateParameters, c: Coefficients, ys: seq<Vec>, ym: Vec, hsig: bool, d: Vec, v: Vec, root: real)
    returns (d': Vec, v': Vec)
    requires p.Valid() && Normal(v, c, root) && |c.vbarbar| == |c.diagonal| == |ym| == |d| == |v| == p.dim
    requires AllOfLength(ys, p.dim) && p.mu <= |ys|
    requires (forall i :: 0 <= i < p.dim ==> c.diagonal[i] > 0.0) && Factor(c.b, Nu2(c.diagonal, c.vbarbar)) > 0.0
    ensures |d'| == |v'| == p.dim
    ensures NaturalStep(p, c.alpha, ys, ym, hsig, d, v, d', v')
  {
    SystemShapes(v, c, root);
    UnitAndShrink(v, c, root);
    hide Dot, PTerm, QTerm, WeightedSum, Factor, Nu2, VStep, RightHandSide, GradientP, GradientQ, Form, Nu, Multiplier,
      Apply, System, NaturalStep, Normal, UpdateParameters.Valid;
    var pvec, qvec := GradientP(p, c, ys, ym, hsig), GradientQ(p, c, ys, ym, hsig);
    var rvec := RightHandSide(c, pvec, qvec);
    var svec := Solve(c.diagonal, c.b, c.vbarbar, rvec);
    SolveShape(c.diagonal, c.b, c.vbarbar, rvec);
    SolveIsExact(c.diagonal, c.b, c.vbarbar, rvec, svec);
    ComputedStepIsNatural(p, v, c, root, ys, ym, hsig, d, svec);
    d', v' := Add(d, Prod(d, svec)), Add(v, VStep(c, qvec, svec, root));
  }

  /** The step keeps a positive scale positive exactly while the solution stays above minus one there; the
      next update divides by zero exactly where the solution is minus one. */
  lemma NextScaleSign(d: Vec, svec: Vec, i: nat)
    requires |d| == |svec| && i < |d| && d[i] > 0.0
    ensures Add(d, Prod(d, svec))[i] > 0.0 <==> svec[i] > -1.0
    ensures Add(d, Prod(d, svec))[i] == 0.0 <==> svec[i] == -1.0
  {
    var t := 1.0 + svec[i];
    assert Add(d, Prod(d, svec))[i] == d[i] * t;
    hide Add, Prod;
    if t > 0.0 { ProductSign(d[i], t, d[i] * t); }
    if t < 0.0 { ProductSign(d[i], -t, -(d[i] * t)); }
  }

  lemma SolveShape(d: Vec, b: real, w: Vec, r: Vec)
    requires |d| == |w| == |r| && forall i :: 0 <= i < |d| ==> d[i] != 0.0
    requires Factor(b, Nu2(d, w)) != 0.0
    ensures |Solve(d, b, w, r)| == |d|
  {
  }

  /** One noise column stretched along the direction u and scaled by D. */
  function Stretched(d: Vec, fact: real, u: Vec, z: Vec): (r: Vec)
    requires |d| == |u| == |z|
    ensures |r| == |z|
  {
    Prod(d, Add(z, Scale(fact * Dot(u, z), u)))
  }

  lemma StretchedIsTransform(sqrt: Fn, d: Vec, v: Vec, z: Vec)
    requires |d| == |v| == |z| && sqrt(Dot(v, v)) != 0.0
    ensures IsSquare(Transform(sqrt, d, v), |z|) && |Direction(sqrt, v)| == |z|
    ensures Stretched(d, sqrt(1.0 + Dot(v, v)) - 1.0, Direction(sqrt, v), z) == Apply(Transform(sqrt, d, v), z)
  {
    var fact, u := sqrt(1.0 + Dot(v, v)) - 1.0, Direction(sqrt, v);
    forall i | 0 <= i < |z| ensures Stretched(d, fact, u, z)[i] == Apply(Transform(sqrt, d, v), z)[i] {
      TransformRow(sqrt, d, v, z, i);
      hide Transform, Dot, Direction;
      StretchAlgebra(d[i], fact, u[i], z[i], Dot(u, z));
    }
  }

  lemma StretchAlgebra(d: real, fact: real, u: real, z: real, s: real)
    ensures d * (z + fact * s * u) == RowValue(d, fact, u, z, s)
  {
    assert d * (fact * s * u) == (d * fact * u) * s;
  }

  /** Samples the population: the mean plus the step size times the transform of each noise column. */
  method Ask(s: CmaSolutions, noise: seq<Vec>, sqrt: Fn) returns (pop: seq<Vec>)
    requires |s.v| == |s.sepcov| == |s.xmean| && IsSqrt(sqrt) && !IsZero(s.v) && AllOfLength(noise, |s.v|)
    ensures NonZero(sqrt, s.v)
    ensures |pop| == |noise| && IsSquare(Transform(sqrt, s.sepcov, s.v), |s.v|)
    ensures forall i :: 0 <= i < |noise| ==>
              pop[i] == Add(s.xmean, Scale(s.sigma, Apply(Transform(sqrt, s.sepcov, s.v), noise[i])))
  {
    NonZeroVector(sqrt, s.v);
    CoefficientShapes(sqrt, s.v);
    hide Dot, Direction, Transform, CoefficientsOf, NonZero, MaxCoeff, Apply;
    StretchedIsTransform(sqrt, s.sepcov, s.v, s.v);
    pop := noise;
    var fact, vbar := sqrt(1.0 + Dot(s.v, s.v)) - 1.0, Direction(sqrt, s.v);
    hide Stretched, Add, Scale;
    var i := 0;
    while i < |pop|
      invariant 0 <= i <= |pop| == |noise|
      invariant forall j :: i <= j < |pop| ==> pop[j] == noise[j]
      invariant forall j :: 0 <= j < i ==>
                  pop[j] == Add(s.xmean, Scale(s.sigma, Apply(Transform(sqrt, s.sepcov, s.v), noise[j])))
    {
      StretchedIsTransform(sqrt, s.sepcov, s.v, noise[i]);
      ScaleShape(s.sigma, Stretched(s.sepcov, fact, vbar, pop[i]));
      pop := pop[i := Add(s.xmean, Scale(s.sigma, Stretched(s.sepcov, fact, vbar, pop[i])))];
      i := i + 1;
    }
  }

  lemma ScaleShape(a: real, v: Vec)
    ensures |Scale(a, v)| == |v|
  {
  }
}
