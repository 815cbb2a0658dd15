/** The evolving state of a run and the parts that all covariance updates share: the weighted mean, the
    evolution paths and the step size. */
module Solutions {
  import opened LinearAlgebra
  import opened RealFunctions

  datatype Candidate = Candidate(fvalue: real, x: Vec, id: int, rank: int)

  /** The parameters an update reads. */
  datatype UpdateParameters = UpdateParameters(
    dim: nat, lambda: nat, mu: nat, weights: Vec,
    csigma: real, cc: real, c1: real, cmu: real, muw: real, dsigma: real,
    factPs: real, factPc: real, chi: real,
    cm: real, alphacov: real, alphaminusold: real, deltamaxsigma: real, lambdamintarget: real, alphaminusmin: real,
    sep: bool, tpa: int, fixedP: nat)
  {
    /** What every update demands. */
    predicate Valid() {
      && dim > 0 && |weights| == mu && (forall i :: 0 <= i < mu ==> weights[i] >= 0.0)
      && c1 >= 0.0 && cmu >= 0.0 && c1 + cmu <= 1.0 && 0.0 <= cc <= 2.0
      && dsigma != 0.0 && chi != 0.0 && fixedP <= dim
    }
  }

  function Power(b: real, n: nat): real {
    if n == 0 then 1.0 else b * Power(b, n - 1)
  }

  /** Every candidate is a point of the search space. */
  predicate AllOfDim(cs: seq<Candidate>, dim: nat) {
    forall i :: 0 <= i < |cs| ==> |cs[i].x| == dim
  }

  function Points(cs: seq<Candidate>, dim: nat): (r: seq<Vec>)
    requires AllOfDim(cs, dim)
    ensures |r| == |cs| && forall i :: 0 <= i < |r| ==> |r[i]| == dim
  {
    seq(|cs|, i requires 0 <= i < |cs| => cs[i].x)
  }

  /** The weighted sum of the first k points. */
  function WeightedSum(weights: Vec, points: seq<Vec>, k: nat, dim: nat): (r: Vec)
    requires k <= |weights| && k <= |points| && forall i :: 0 <= i < |points| ==> |points[i]| == dim
    ensures |r| == dim
  {
    if k == 0 then Zeros(dim)
    else Add(WeightedSum(weights, points, k - 1, dim), Scale(weights[k - 1], points[k - 1]))
  }

  /** The bound under which the path length counts as short. */
  function PathThreshold(sqrt: Fn, p: UpdateParameters, niter: nat): real
    requires p.Valid()
  {
    sqrt(1.0 - Power(1.0 - p.csigma, 2 * (niter + 1)))
    * (1.4 + 2.0 / (p.dim + 1 - p.fixedP) as real) * p.chi
  }

  /** A path after one move: the share 1 - c of the old path, and the step at its factor. */
  function NextPath(path: Vec, c: real, fact: real, step: Vec): (r: Vec)
    requires |path| == |step|
    ensures |r| == |path|
  {
    Add(Scale(1.0 - c, path), Scale(fact, step))
  }

  /** The factor that is the root of c (2 - c) muw keeps a path at its length: it does not change in a move
      across it by a step of length |path| / sqrt(muw), the length of a mean shift under neutral selection. */
  lemma PathLengthKept(path: Vec, c: real, fact: real, step: Vec, muw: real)
    requires |path| == |step| && fact * fact == c * (2.0 - c) * muw
    requires Dot(path, step) == 0.0 && muw * Dot(step, step) == Dot(path, path)
    ensures Dot(NextPath(path, c, fact, step), NextPath(path, c, fact, step)) == Dot(path, path)
  {
    var r := NextPath(path, c, fact, step);
    hide Dot, NextPath, Blend;
    PathInner(path, c, fact, step, r);
    PathInner(path, c, fact, step, path);
    PathInner(path, c, fact, step, step);
    DotSymmetric(path, step);
    DotSymmetric(path, r);
    DotSymmetric(step, r);
    LengthAlgebra(1.0 - c, c, fact, muw, Dot(path, path), Dot(step, step), Dot(path, r), Dot(step, r), Dot(r, r));
  }

  lemma PathInner(path: Vec, c: real, fact: real, step: Vec, w: Vec)
    requires |path| == |step| == |w|
    ensures Dot(NextPath(path, c, fact, step), w) == Blend(1.0 - c, Dot(path, w), fact, Dot(step, w))
  {
    var r := NextPath(path, c, fact, step);
    assert forall i :: 0 <= i < |r| ==> r[i] == Blend(1.0 - c, path[i], fact, step[i]);
    hide DotTo, NextPath, Blend;
    DotLinear(1.0 - c, path, fact, step, r, w, |r|);
  }

  lemma LengthAlgebra(b: real, c: real, fact: real, muw: real, l: real, s: real, pr: real, sr: real, rr: real)
    requires b == 1.0 - c && fact * fact == c * (2.0 - c) * muw && muw * s == l
    requires pr == Blend(b, l, fact, 0.0) && sr == Blend(b, 0.0, fact, s) && rr == Blend(b, pr, fact, sr)
    ensures rr == l
  {
    assert rr == b * b * l + (fact * fact) * s;
    assert (fact * fact) * s == c * (2.0 - c) * l by { assert c * (2.0 - c) * muw * s == c * (2.0 - c) * (muw * s); }
    assert b * b + c * (2.0 - c) == 1.0;
    assert (b * b + c * (2.0 - c)) * l == b * b * l + c * (2.0 - c) * l;
  }

  /** The outer-product sum of the first k differences. */
  function RankMu(weights: Vec, diffs: seq<Vec>, k: nat, dim: nat): (m: Mat)
    requires k <= |weights| && k <= |diffs| && forall i :: 0 <= i < |diffs| ==> |diffs[i]| == dim
    ensures IsSquare(m, dim)
  {
    if k == 0 then ZeroMat(dim)
    else MatAdd(RankMu(weights, diffs, k - 1, dim), MatScale(weights[k - 1], Outer(diffs[k - 1])))
  }

  /** Its diagonal, for the separable variant. */
  function RankMuDiagonal(weights: Vec, diffs: seq<Vec>, k: nat, dim: nat): (r: Vec)
    requires k <= |weights| && k <= |diffs| && forall i :: 0 <= i < |diffs| ==> |diffs[i]| == dim
    ensures |r| == dim
  {
    if k == 0 then Zeros(dim)
    else Add(RankMuDiagonal(weights, diffs, k - 1, dim), Scale(weights[k - 1], Prod(diffs[k - 1], diffs[k - 1])))
  }

  /** The sum is symmetric, and its quadratic form is non-negative. */
  lemma {:induction false} RankMuPositive(weights: Vec, diffs: seq<Vec>, k: nat, dim: nat, x: Vec)
    requires k <= |weights| && k <= |diffs| && forall i :: 0 <= i < |diffs| ==> |diffs[i]| == dim
    requires |x| == dim && forall i :: 0 <= i < |weights| ==> weights[i] >= 0.0
    ensures Quad(RankMu(weights, diffs, k, dim), x) >= 0.0
  {
    if k == 0 {
      QuadZero(x);
    } else {
      RankMuPositive(weights, diffs, k - 1, dim, x);
      RankOneAdded(RankMu(weights, diffs, k - 1, dim), weights[k - 1], diffs[k - 1], x);
    }
  }

  lemma RankOneAdded(prev: Mat, w: real, d: Vec, x: Vec)
    requires IsSquare(prev, |x|) && |d| == |x| && w >= 0.0
    ensures IsSquare(Outer(d), |x|)
    ensures Quad(MatAdd(prev, MatScale(w, Outer(d))), x) >= Quad(prev, x)
  {
    hide Quad, Dot, DotTo, MatScale, MatAdd, Outer;
    QuadOuter(d, x);
    SquareSign(Dot(d, x), Dot(d, x) * Dot(d, x));
    QuadScale(w, Outer(d), x);
    QuadSum(prev, MatScale(w, Outer(d)), x);
    ProductSign(w, Quad(Outer(d), x), w * Quad(Outer(d), x));
  }

  lemma QuadZero(x: Vec)
    ensures Quad(ZeroMat(|x|), x) == 0.0
  {
    var m := ZeroMat(|x|);
    assert forall i, j :: 0 <= i < |x| && 0 <= j < |x| ==> m[i][j] == Blend(0.0, m[i][j], 0.0, m[i][j]);
    QuadLinear(0.0, m, 0.0, m, m, x);
  }

  lemma {:induction false} RankMuSymmetric(weights: Vec, diffs: seq<Vec>, k: nat, dim: nat)
    requires k <= |weights| && k <= |diffs| && forall i :: 0 <= i < |diffs| ==> |diffs[i]| == dim
    ensures Symmetric(RankMu(weights, diffs, k, dim))
  {
    if k > 0 {
      RankMuSymmetric(weights, diffs, k - 1, dim);
      OuterSymmetric(diffs[k - 1]);
      hide Symmetric, MatScale, MatAdd, Outer;
      SymmetricScale(weights[k - 1], Outer(diffs[k - 1]));
      SymmetricAdd(RankMu(weights, diffs, k - 1, dim), MatScale(weights[k - 1], Outer(diffs[k - 1])));
    }
  }

  function WeightedSquare(w: real, d: real): real {
    w * (d * d)
  }

  lemma NoWeight(d: real)
    ensures WeightedSquare(0.0, d) == 0.0
  {
  }

  lemma BlendedSquare(a: real, b: real, d: real, o: real)
    requires o == d * d
    ensures WeightedSquare(a, d) + b * o == WeightedSquare(a + b, d)
  {
    Distribute(a, b, d * d);
  }

  /** Equal differences add up to the sum of the weights times one square. */
  lemma {:induction false} ConstantForm(weights: Vec, v: Vec, diffs: seq<Vec>, k: nat, x: Vec)
    requires k <= |weights| && k <= |diffs| && |x| == |v|
    requires (forall i :: 0 <= i < |diffs| ==> |diffs[i]| == |v|) && forall i :: 0 <= i < k ==> diffs[i] == v
    ensures Quad(RankMu(weights, diffs, k, |v|), x) == WeightedSquare(SumTo(weights, k), Dot(v, x))
  {
    hide Quad, Dot, DotTo, WeightedSquare, Outer, MatScale, MatAdd;
    NoWeight(Dot(v, x));
    if k == 0 {
      QuadZero(x);
    } else {
      ConstantForm(weights, v, diffs, k - 1, x);
      var prev, o, w := RankMu(weights, diffs, k - 1, |v|), Outer(v), weights[k - 1];
      QuadOuter(v, x);
      QuadScale(w, o, x);
      QuadSum(prev, MatScale(w, o), x);
      BlendedSquare(SumTo(weights, k - 1), w, Dot(v, x), Quad(o, x));
    }
  }

  lemma Distribute(a: real, b: real, c: real)
    ensures (a + b) * c == a * c + b * c
  {
  }

  lemma {:induction false} RankMuDiagonalPositive(weights: Vec, diffs: seq<Vec>, k: nat, dim: nat)
    requires k <= |weights| && k <= |diffs| && forall i :: 0 <= i < |diffs| ==> |diffs[i]| == dim
    requires forall i :: 0 <= i < |weights| ==> weights[i] >= 0.0
    ensures forall j :: 0 <= j < dim ==> RankMuDiagonal(weights, diffs, k, dim)[j] >= 0.0
  {
    if k > 0 {
      RankMuDiagonalPositive(weights, diffs, k - 1, dim);
      var d := diffs[k - 1];
      forall j | 0 <= j < dim ensures weights[k - 1] * (d[j] * d[j]) >= 0.0 {
        SquareSign(d[j], d[j] * d[j]);
        ProductSign(weights[k - 1], d[j] * d[j], weights[k - 1] * (d[j] * d[j]));
      }
    }
  }

  function Differences(cs: seq<Candidate>, mean: Vec): (r: seq<Vec>)
    requires AllOfDim(cs, |mean|)
    ensures |r| == |cs| && forall i :: 0 <= i < |r| ==> |r[i]| == |mean|
  {
    seq(|cs|, i requires 0 <= i < |cs| => Sub(cs[i].x, mean))
  }

  /** The state of a run. The full covariance is used unless a variant keeps only its diagonal. */
  class CmaSolutions {
    var xmean: Vec
    var xmeanPrev: Vec
    var sigma: real
    var psigma: Vec
    var pc: Vec
    var cov: Mat
    var sepcov: Vec
    var csqinv: Mat
    var sepcsqinv: Vec
    var v: Vec
    var hsig: bool
    var niter: nat
    var tpaS: real
    var candidates: seq<Candidate>

    ghost predicate Shaped(p: UpdateParameters)
      reads this
    {
      && |xmean| == |psigma| == |pc| == p.dim && sigma > 0.0
      && |candidates| >= p.lambda >= p.mu && AllOfDim(candidates, p.dim)
      && (if p.sep then |sepcov| == p.dim else IsSquare(cov, p.dim))
    }

    /** A fresh state: the identity covariance and zero paths. The step size is the given one, or the inverse
        of the dimension when none is. */
    constructor (dim: nat, sep: bool, mean: Vec, sigmaInit: real, v: Vec)
      requires |mean| == dim >= 1
      ensures xmean == mean && psigma == Zeros(dim) && pc == Zeros(dim)
      ensures sigma == if sigmaInit > 0.0 then sigmaInit else 1.0 / dim as real
      ensures if sep then cov == [] && sepcov == Ones(dim) else cov == Identity(dim) && sepcov == []
      ensures this.v == v && niter == 0 && hsig && tpaS == 0.0
    {
      xmean, xmeanPrev, sigma := mean, mean, if sigmaInit > 0.0 then sigmaInit else 1.0 / dim as real;
      psigma, pc, this.v := Zeros(dim), Zeros(dim), v;
      cov := if sep then [] else Identity(dim);
      sepcov := if sep then Ones(dim) else [];
      csqinv, sepcsqinv, hsig, niter, tpaS, candidates := [], [], true, 0, 0.0, [];
    }

    /** Accumulates the first mu points under the weights. */
    method AccumulateMean(p: UpdateParameters, points: seq<Vec>) returns (mean: Vec)
      requires p.Valid() && p.mu <= |points| && forall i :: 0 <= i < |points| ==> |points[i]| == p.dim
      ensures mean == WeightedSum(p.weights, points, p.mu, p.dim)
    {
      mean := Zeros(p.dim);
      var i := 0;
      while i < p.mu
        invariant 0 <= i <= p.mu && mean == WeightedSum(p.weights, points, i, p.dim)
      {
        mean := Add(mean, Scale(p.weights[i], points[i]));
        i := i + 1;
      }
    }

    /** Accumulates the outer products of the first mu differences, given in order. */
    method AccumulateRankMu(p: UpdateParameters, diffs: seq<Vec>) returns (m: Mat)
      requires p.Valid() && p.mu <= |diffs| && forall i :: 0 <= i < |diffs| ==> |diffs[i]| == p.dim
      ensures m == RankMu(p.weights, diffs, p.mu, p.dim)
    {
      m := ZeroMat(p.dim);
      var i := 0;
      while i < p.mu
        invariant 0 <= i <= p.mu && m == RankMu(p.weights, diffs, i, p.dim)
      {
        m := MatAdd(m, MatScale(p.weights[i], Outer(diffs[i])));
        i := i + 1;
      }
    }

    method AccumulateRankMuDiagonal(p: UpdateParameters, diffs: seq<Vec>) returns (r: Vec)
      requires p.Valid() && p.mu <= |diffs| && forall i :: 0 <= i < |diffs| ==> |diffs[i]| == p.dim
      ensures r == RankMuDiagonal(p.weights, diffs, p.mu, p.dim)
    {
      r := Zeros(p.dim);
      var i := 0;
      while i < p.mu
        invariant 0 <= i <= p.mu && r == RankMuDiagonal(p.weights, diffs, i, p.dim)
      {
        r := Add(r, Scale(p.weights[i], Prod(diffs[i], diffs[i])));
        i := i + 1;
      }
    }

    /** Moves both paths: the step-size path by the whitened mean shift, the covariance path by the mean
        shift itself unless the step-size path is too long. */
    method UpdatePaths(p: UpdateParameters, shift: Vec, whitened: Vec, sqrt: Fn) returns (normPs: real)
      requires p.Valid() && |psigma| == |pc| == |shift| == |whitened| == p.dim
      modifies `psigma, `pc, `hsig
      ensures psigma == NextPath(old(psigma), p.csigma, p.factPs, whitened)
      ensures normPs == sqrt(Dot(psigma, psigma))
      ensures hsig <==> normPs < PathThreshold(sqrt, p, niter)
      ensures pc == if hsig then NextPath(old(pc), p.cc, p.factPc, shift) else Scale(1.0 - p.cc, old(pc))
    {
      hide Add, Scale, Dot, PathThreshold;
      psigma := Scale(1.0 - p.csigma, psigma);
      psigma := Add(psigma, Scale(p.factPs, whitened));
      normPs := sqrt(Dot(psigma, psigma));
      hsig := false;
      pc := Scale(1.0 - p.cc, pc);
      if normPs < PathThreshold(sqrt, p, niter) {
        hsig := true;
      }
      if hsig {
        pc := Add(pc, Scale(p.factPc, shift));
      }
    }

    /** Multiplies the step size; it stays positive. */
    method UpdateSigma(p: UpdateParameters, normPs: real, cap: bool, exp: Fn)
      requires p.Valid() && IsExp(exp) && sigma > 0.0 && (cap ==> p.deltamaxsigma > 0.0)
      modifies `sigma
      ensures sigma == old(sigma) * SigmaFactor(p, normPs, cap, niter, tpaS, exp) > 0.0
      ensures StepSizeFollows(p, normPs, cap, niter, tpaS, old(sigma), sigma)
    {
      hide PathExponent, StepSizeFollows, IsExp;
      var f := 1.0;
      if p.tpa < 2 {
        f := exp(PathExponent(p, normPs));
        if cap { f := Min(p.deltamaxsigma, f); }
      } else if niter > 0 {
        f := exp(tpaS / p.dsigma);
      }
      var next := sigma * f;
      SigmaStep(p, normPs, cap, niter, tpaS, exp, sigma, f, next);
      sigma := next;
    }
  }

  lemma SigmaStep(p: UpdateParameters, normPs: real, cap: bool, niter: nat, tpaS: real, exp: Fn, sigma: real, f: real,
                  sigma': real)
    requires p.Valid() && IsExp(exp) && sigma > 0.0 && (cap ==> p.deltamaxsigma > 0.0)
    requires f == SigmaFactor(p, normPs, cap, niter, tpaS, exp) && sigma' == sigma * f
    ensures sigma' == sigma * SigmaFactor(p, normPs, cap, niter, tpaS, exp) > 0.0
    ensures StepSizeFollows(p, normPs, cap, niter, tpaS, sigma, sigma')
  {
    hide PathExponent;
    assert f > 0.0;
    hide SigmaFactor, IsExp, SigmaTurns;
    ProductSign(sigma, f, sigma');
    if p.csigma > 0.0 && p.dsigma > 0.0 && p.chi > 0.0 {
      SigmaFollows(p, normPs, cap, niter, tpaS, exp, sigma, sigma');
    }
  }

  function PathExponent(p: UpdateParameters, normPs: real): real
    requires p.Valid()
  {
    p.csigma / p.dsigma * (normPs / p.chi - 1.0)
  }

  function SigmaFactor(p: UpdateParameters, normPs: real, cap: bool, niter: nat, tpaS: real, exp: Fn): real
    requires p.Valid()
  {
    if p.tpa < 2 then
      var e := exp(PathExponent(p, normPs));
      if cap then Min(p.deltamaxsigma, e) else e
    else if niter > 0 then exp(tpaS / p.dsigma)
    else 1.0
  }

  // ----- step-size control

  /** A factor that multiplies the step size, compared with one: it grows it exactly when e is positive. */
  predicate GrowsWith(sigma': real, sigma: real, e: real) {
    && (sigma' > sigma <==> e > 0.0)
    && (sigma' == sigma <==> e == 0.0)
  }

  /** Cumulative step-size control (tpa below 2): the step size grows exactly when the path is longer than
      expected, and the cap of the active update can only hold it back. Two-point adaptation: from the
      second generation on it grows exactly when the better point lay ahead. */
  predicate StepSizeFollows(p: UpdateParameters, normPs: real, cap: bool, niter: nat, tpaS: real,
                            sigma: real, sigma': real)
  {
    p.csigma > 0.0 && p.dsigma > 0.0 && p.chi > 0.0 ==> SigmaTurns(p, normPs, cap, niter, tpaS, sigma, sigma')
  }

  predicate SigmaTurns(p: UpdateParameters, normPs: real, cap: bool, niter: nat, tpaS: real, sigma: real, sigma': real)
  {
    if p.tpa < 2 then
      && (!cap ==> GrowsWith(sigma', sigma, normPs - p.chi))
      && (cap && p.deltamaxsigma > 1.0 ==> GrowsWith(sigma', sigma, normPs - p.chi))
      && (cap ==> sigma' <= p.deltamaxsigma * sigma)
      && (cap && normPs <= p.chi ==> sigma' <= sigma)
    else if niter > 0 then GrowsWith(sigma', sigma, tpaS)
    else sigma' == sigma
  }

  lemma SigmaFollows(p: UpdateParameters, normPs: real, cap: bool, niter: nat, tpaS: real, exp: Fn, sigma: real,
                     sigma': real)
    requires p.Valid() && IsExp(exp) && sigma > 0.0 && (cap ==> p.deltamaxsigma > 0.0)
    requires p.csigma > 0.0 && p.dsigma > 0.0 && p.chi > 0.0
    requires sigma' == sigma * SigmaFactor(p, normPs, cap, niter, tpaS, exp)
    ensures SigmaTurns(p, normPs, cap, niter, tpaS, sigma, sigma')
  {
    var f := SigmaFactor(p, normPs, cap, niter, tpaS, exp);
    if p.tpa < 2 {
      PathExponentSign(p, normPs);
      hide PathExponent;
      FactorSign(exp, PathExponent(p, normPs));
      hide IsExp;
      ScaledStep(sigma, f, sigma');
      if cap { CappedStep(sigma, f, p.deltamaxsigma); }
    } else if niter > 0 {
      QuotientSign(tpaS, p.dsigma);
      FactorSign(exp, tpaS / p.dsigma);
      hide IsExp;
      ScaledStep(sigma, f, sigma');
    }
  }

  lemma QuotientSign(a: real, b: real)
    requires b > 0.0
    ensures (a / b > 0.0 <==> a > 0.0) && (a / b == 0.0 <==> a == 0.0)
  {
    QuotientPositive(a, b);
    QuotientPositive(-a, b);
    assert (-a) / b == -(a / b);
  }

  /** The exponent has the sign of the path's excess over its expected length. */
  lemma PathExponentSign(p: UpdateParameters, normPs: real)
    requires p.Valid() && p.csigma > 0.0 && p.dsigma > 0.0 && p.chi > 0.0
    ensures GrowsWith(PathExponent(p, normPs), 0.0, normPs - p.chi)
  {
    QuotientSign(p.csigma, p.dsigma);
    var k, t := p.csigma / p.dsigma, normPs / p.chi;
    assert t * p.chi == normPs;
    assert (t - 1.0) * p.chi == normPs - p.chi;
    ProductSign(t - 1.0, p.chi, (t - 1.0) * p.chi);
    ProductSign(1.0 - t, p.chi, (1.0 - t) * p.chi);
    ProductSign(k, t - 1.0, k * (t - 1.0));
    ProductSign(k, 1.0 - t, -(k * (t - 1.0)));
  }

  lemma FactorSign(exp: Fn, e: real)
    requires IsExp(exp)
    ensures exp(e) > 0.0 && GrowsWith(exp(e), 1.0, e)
  {
    assert exp(0.0) == 1.0;
  }

  lemma ScaledStep(sigma: real, f: real, s: real)
    requires sigma > 0.0 && s == sigma * f
    ensures (s > sigma <==> f > 1.0) && (s == sigma <==> f == 1.0)
  {
    ProductSign(sigma, f - 1.0, s - sigma);
    ProductSign(sigma, 1.0 - f, sigma - s);
  }

  lemma CappedStep(sigma: real, f: real, delta: real)
    requires sigma > 0.0 && f <= delta
    ensures sigma * f <= delta * sigma
  {
    ProductSign(sigma, delta - f, sigma * (delta - f));
  }

  /** The factor of cumulative step-size control: one at the expected length, e^(csigma/dsigma) at twice that
      length, and an exponential of the length in between and beyond. */
  lemma SigmaFactorLaw(p: UpdateParameters, a: real, b: real, niter: nat, tpaS: real, exp: Fn)
    requires p.Valid() && IsExp(exp) && p.tpa < 2
    ensures SigmaFactor(p, p.chi, false, niter, tpaS, exp) == 1.0
    ensures SigmaFactor(p, 2.0 * p.chi, false, niter, tpaS, exp) == exp(p.csigma / p.dsigma)
    ensures SigmaFactor(p, a + b, false, niter, tpaS, exp)
         == SigmaFactor(p, a, false, niter, tpaS, exp) * SigmaFactor(p, b + p.chi, false, niter, tpaS, exp)
    ensures SigmaFactor(p, a, true, niter, tpaS, exp)
         == Min(p.deltamaxsigma, SigmaFactor(p, a, false, niter, tpaS, exp))
  {
    ExponentAffine(p, a, b);
    hide PathExponent;
    assert exp(Plus(PathExponent(p, a), PathExponent(p, b + p.chi)))
        == exp(PathExponent(p, a)) * exp(PathExponent(p, b + p.chi));
  }

  /** The factor of two-point adaptation: an exponential of tpaS in units of dsigma. */
  lemma TwoPointFactor(p: UpdateParameters, normPs: real, cap: bool, niter: nat, a: real, b: real, exp: Fn)
    requires p.Valid() && IsExp(exp) && p.tpa >= 2 && niter > 0
    ensures SigmaFactor(p, normPs, cap, niter, p.dsigma, exp) == exp(1.0)
    ensures SigmaFactor(p, normPs, cap, niter, a + b, exp)
         == SigmaFactor(p, normPs, cap, niter, a, exp) * SigmaFactor(p, normPs, cap, niter, b, exp)
  {
    QuotientSum(a, b, p.dsigma);
    assert p.dsigma / p.dsigma == 1.0;
    assert exp(Plus(a / p.dsigma, b / p.dsigma)) == exp(a / p.dsigma) * exp(b / p.dsigma);
  }

  /** The exponent is affine in the path's length. */
  lemma ExponentAffine(p: UpdateParameters, a: real, b: real)
    requires p.Valid()
    ensures PathExponent(p, p.chi) == 0.0 && PathExponent(p, 2.0 * p.chi) == p.csigma / p.dsigma
    ensures PathExponent(p, a + b) == PathExponent(p, a) + PathExponent(p, b + p.chi)
  {
    var k := p.csigma / p.dsigma;
    assert p.chi / p.chi == 1.0;
    assert (2.0 * p.chi) / p.chi == 2.0;
    QuotientSum(a, b, p.chi);
    QuotientSum(b, p.chi, p.chi);
    assert k * (a / p.chi + b / p.chi - 1.0) == k * (a / p.chi - 1.0) + k * (b / p.chi);
  }

  lemma QuotientSum(a: real, b: real, c: real)
    requires c != 0.0
    ensures (a + b) / c == a / c + b / c
  {
    assert (a + b) / c == (a + b) * (1.0 / c) && a / c == a * (1.0 / c) && b / c == b * (1.0 / c);
  }

  // ----- the bound on the path's length

  /** The variance of a coordinate of the step-size path after k generations of neutral selection: each
      generation keeps the share 1 - cs of the path and adds what restores a variance of one. */
  function NeutralVariance(cs: real, k: nat): real {
    if k == 0 then 0.0 else (1.0 - cs) * (1.0 - cs) * NeutralVariance(cs, k - 1) + cs * (2.0 - cs)
  }

  lemma {:induction false} VarianceClosedForm(cs: real, k: nat)
    ensures NeutralVariance(cs, k) == 1.0 - Power(1.0 - cs, 2 * k)
  {
    if k > 0 {
      VarianceClosedForm(cs, k - 1);
      PowerTwice(1.0 - cs, 2 * (k - 1));
      RestoredVariance(cs, Power(1.0 - cs, 2 * (k - 1)), NeutralVariance(cs, k - 1));
    }
  }

  lemma PowerTwice(b: real, n: nat)
    ensures Power(b, n + 2) == b * (b * Power(b, n))
  {
    assert Power(b, n + 1) == b * Power(b, n);
  }

  lemma RestoredVariance(cs: real, q: real, u: real)
    requires u == 1.0 - q
    ensures (1.0 - cs) * (1.0 - cs) * u + cs * (2.0 - cs) == 1.0 - (1.0 - cs) * ((1.0 - cs) * q)
  {
  }

  lemma {:induction false} VarianceRange(cs: real, k: nat)
    requires 0.0 < cs < 1.0
    ensures 0.0 <= NeutralVariance(cs, k) < NeutralVariance(cs, k + 1) < 1.0
  {
    var b, g := (1.0 - cs) * (1.0 - cs), cs * (2.0 - cs);
    ProductSign(1.0 - cs, 1.0 - cs, b);
    ProductSign(cs, 2.0 - cs, g);
    assert g == 1.0 - b;
    if k > 0 {
      VarianceRange(cs, k - 1);
      NextVariance(b, NeutralVariance(cs, k - 1), NeutralVariance(cs, k), g, NeutralVariance(cs, k + 1));
    }
  }

  lemma NextVariance(b: real, u: real, w: real, g: real, w': real)
    requires 0.0 < b < 1.0 && 0.0 <= u < w < 1.0 && g == 1.0 - b && w == b * u + g && w' == b * w + g
    ensures w < w' < 1.0
  {
    ProductSign(b, w - u, b * (w - u));
    ProductSign(b, 1.0 - w, b * (1.0 - w));
  }

  /** Without fixed coordinates or with: n is the number of free ones. The path counts as short below
      1.4 + 2/(n+1) expected lengths. */
  function LengthLimit(p: UpdateParameters): (c: real)
    requires p.Valid() && p.chi > 0.0
    ensures c > 0.0
  {
    var free := (p.dim - p.fixedP + 1) as real;
    QuotientPositive(2.0, free);
    ProductSign(1.4 + 2.0 / free, p.chi, (1.4 + 2.0 / free) * p.chi);
    (1.4 + 2.0 / free) * p.chi
  }

  /** The bound on the path is that limit, scaled to the variance a path has by then; it rises with the
      generations. */
  lemma ThresholdIsScaledLength(sqrt: Fn, p: UpdateParameters, niter: nat)
    requires p.Valid() && IsSqrt(sqrt) && 0.0 < p.csigma < 1.0 && p.chi > 0.0
    ensures var t := PathThreshold(sqrt, p, niter);
            && 0.0 < t < LengthLimit(p) && t < PathThreshold(sqrt, p, niter + 1)
            && t * t == NeutralVariance(p.csigma, niter + 1) * (LengthLimit(p) * LengthLimit(p))
  {
    hide NeutralVariance, Power, PathThreshold, LengthLimit, Times;
    var v, v' := NeutralVariance(p.csigma, niter + 1), NeutralVariance(p.csigma, niter + 2);
    VarianceRange(p.csigma, niter);
    VarianceRange(p.csigma, niter + 1);
    ThresholdParts(sqrt, p, niter);
    ThresholdParts(sqrt, p, niter + 1);
    SqrtMonotone(sqrt, v, v');
    SqrtMonotone(sqrt, v', 1.0);
    SqrtOfSquare(sqrt, 1.0, 1.0);
    ThresholdAlgebra(sqrt(v), sqrt(v'), LengthLimit(p), v, PathThreshold(sqrt, p, niter),
                     PathThreshold(sqrt, p, niter + 1));
  }

  lemma ThresholdParts(sqrt: Fn, p: UpdateParameters, niter: nat)
    requires p.Valid() && p.chi > 0.0
    ensures PathThreshold(sqrt, p, niter) == Times(sqrt(NeutralVariance(p.csigma, niter + 1)), LengthLimit(p))
  {
    VarianceClosedForm(p.csigma, niter + 1);
    hide NeutralVariance, Power;
    var free := (p.dim - p.fixedP + 1) as real;
    assert (p.dim + 1 - p.fixedP) as real == free;
    Reassociate(sqrt(NeutralVariance(p.csigma, niter + 1)), 1.4 + 2.0 / free, p.chi);
  }

  lemma Reassociate(a: real, b: real, c: real)
    ensures a * b * c == a * (b * c)
  {
  }

  lemma ThresholdAlgebra(r: real, r': real, limit: real, v: real, t: real, t': real)
    requires 0.0 < r < r' < 1.0 && r * r == v && limit > 0.0 && t == Times(r, limit) && t' == Times(r', limit)
    ensures 0.0 < t < limit && t < t' && t * t == v * (limit * limit)
  {
    ProductSign(r, limit, t);
    ProductSign(1.0 - r, limit, (1.0 - r) * limit);
    ProductSign(r' - r, limit, (r' - r) * limit);
    assert t * t == (r * r) * (limit * limit);
  }
}
