/** The active covariance update: it also learns from the worst candidates, by subtracting their
    contribution. How far the subtraction may go is what keeps the covariance positive. */
module ActiveCovariance {
  import opened LinearAlgebra
  import opened RealFunctions
  import opened Solutions
  import opened Covariance

  /** The constants of the negative update, as the parameters object sets them. */
  predicate ActiveParameters(p: UpdateParameters) {
    && p.Valid() && p.cmu < 1.0 && p.muw > 0.0 && p.cm != 0.0 && p.deltamaxsigma > 0.0
    && 2 * p.mu <= p.lambda
    && p.alphacov > 0.0 && 0.0 <= p.alphaminusold <= 1.0
    && 0.0 < p.lambdamintarget < 1.0 && p.alphaminusmin == 1.0
  }

  /** The default cap on the negative learning rate. */
  function RateCap(p: UpdateParameters, sqrt: Fn): real
    requires ActiveParameters(p) && IsSqrt(sqrt)
  {
    var d := (p.dim + 2) as real;
    SqrtMonotone(sqrt, d, d);
    ProductSign(d, sqrt(d), d * sqrt(d));
    (1.0 - p.cmu) * p.alphacov / 8.0 * (p.muw / (d * sqrt(d) + 2.0 * p.muw))
  }

  /** The budget of the negative update: what it may take from the covariance's smallest direction. */
  function Budget(p: UpdateParameters): real {
    p.alphaminusmin * (1.0 - p.cmu) * (1.0 - p.lambdamintarget)
  }

  /** The negative learning rate, from the largest relative weight e of the negative part. Dividing the
      positive budget by zero gives positive infinity, so the minimum is then the cap. */
  function NegativeRate(p: UpdateParameters, cap: real, e: real): real {
    if e == 0.0 then cap else Min(Budget(p) / e, cap)
  }

  lemma CapPositive(p: UpdateParameters, sqrt: Fn)
    requires ActiveParameters(p) && IsSqrt(sqrt)
    ensures RateCap(p, sqrt) > 0.0
  {
    var d := (p.dim + 2) as real;
    SqrtMonotone(sqrt, d, d);
    var q := d * sqrt(d) + 2.0 * p.muw;
    ProductSign(d, sqrt(d), d * sqrt(d));
    var f := p.muw / q;
    QuotientPositive(p.muw, q);
    ProductSign(1.0 - p.cmu, p.alphacov, (1.0 - p.cmu) * p.alphacov);
    var h := (1.0 - p.cmu) * p.alphacov / 8.0;
    ProductSign(h, f, h * f);
  }

  lemma BudgetPositive(p: UpdateParameters)
    requires ActiveParameters(p)
    ensures Budget(p) == (1.0 - p.cmu) * (1.0 - p.lambdamintarget) > 0.0
  {
    ProductSign(1.0 - p.cmu, 1.0 - p.lambdamintarget, (1.0 - p.cmu) * (1.0 - p.lambdamintarget));
  }

  /** The rate is positive, and what it takes from the largest direction stays within the budget. */
  lemma RateWithinBudget(p: UpdateParameters, cap: real, e: real)
    requires ActiveParameters(p) && cap > 0.0 && e >= 0.0
    ensures NegativeRate(p, cap, e) > 0.0
    ensures NegativeRate(p, cap, e) * e <= Budget(p)
  {
    BudgetPositive(p);
    if e > 0.0 {
      var q, r := Budget(p) / e, NegativeRate(p, cap, e);
      QuotientPositive(Budget(p), e);
      ProductSign(q - r, e, (q - r) * e);
    }
  }

  // ----- the update

  /** What the update draws on: the path, the differences of the best candidates, and the differences of
      the worst ones, already divided by the step size. */
  datatype ActiveSample = ActiveSample(pc: Vec, good: seq<Vec>, bad: seq<Vec>, sigma: real)

  predicate FitsActive(p: UpdateParameters, s: ActiveSample) {
    && |s.pc| == p.dim && s.sigma > 0.0 && p.mu <= |s.good| && p.mu <= |s.bad|
    && (forall i :: 0 <= i < |s.good| ==> |s.good[i]| == p.dim)
    && forall i :: 0 <= i < |s.bad| ==> |s.bad[i]| == p.dim
  }

  function KeepActive(p: UpdateParameters, rate: real): real {
    1.0 - p.c1 - p.cmu + rate * p.alphaminusold
  }

  function PlusRate(p: UpdateParameters, rate: real): real {
    p.cmu + rate * (1.0 - p.alphaminusold)
  }

  function NextActive(p: UpdateParameters, rate: real, c: Mat, pc: Vec, plus: Mat, minus: Mat): (c': Mat)
    requires IsSquare(c, p.dim) && |pc| == p.dim && IsSquare(plus, p.dim) && IsSquare(minus, p.dim)
    ensures IsSquare(c', p.dim)
  {
    MatAdd(MatAdd(MatScale(KeepActive(p, rate), c), MatScale(p.c1, Outer(pc))),
           MatAdd(MatScale(PlusRate(p, rate), plus), MatScale(-rate, minus)))
  }

  function NextActiveSep(p: UpdateParameters, rate: real, c: Vec, pc: Vec, plus: Vec, minus: Vec): (c': Vec)
    requires |c| == |pc| == |plus| == |minus| == p.dim
    ensures |c'| == p.dim
  {
    Add(Add(Scale(KeepActive(p, rate), c), Scale(p.c1, Prod(pc, pc))),
        Add(Scale(PlusRate(p, rate), plus), Scale(-rate, minus)))
  }

  /** The floor lambdamintarget (1 - cmu) - c1. */
  function Floor(p: UpdateParameters): real {
    p.lambdamintarget * (1.0 - p.cmu) - p.c1
  }

  /** The share of the old covariance that is left after the largest possible subtraction. */
  function Guaranteed(p: UpdateParameters, rate: real): real {
    KeepActive(p, rate) - Budget(p)
  }

  /** It is the floor, plus what the negative rate hands back. */
  lemma GuaranteedIsFloor(p: UpdateParameters, rate: real)
    requires ActiveParameters(p)
    ensures Guaranteed(p, rate) == Floor(p) + rate * p.alphaminusold
  {
    BudgetPositive(p);
    hide Budget;
    assert (1.0 - p.cmu) * (1.0 - p.lambdamintarget) == (1.0 - p.cmu) - p.lambdamintarget * (1.0 - p.cmu);
  }

  /** The kept share of c, the squared path y, the positive and the negative part, each at its rate. */
  function ActiveTerms(p: UpdateParameters, rate: real, c: real, y: real, plus: real, minus: real): real {
    KeepActive(p, rate) * c + p.c1 * (y * y) + PlusRate(p, rate) * plus - rate * minus
  }

  lemma BlendedActiveTerms(p: UpdateParameters, rate: real, c: real, y: real, o: real, plus: real, minus: real)
    requires o == y * y
    ensures Blend(KeepActive(p, rate), c, p.c1, o) + Blend(PlusRate(p, rate), plus, -rate, minus)
         == ActiveTerms(p, rate, c, y, plus, minus)
  {
    hide KeepActive, PlusRate;
    assert -rate * minus == -(rate * minus);
  }

  /** The rates of the four parts balance: when they all agree, nothing moves. */
  lemma NeutralActiveTerms(p: UpdateParameters, rate: real, c: real, y: real)
    requires y * y == c
    ensures ActiveTerms(p, rate, c, y, c, c) == c
  {
    var t, u := rate * p.alphaminusold, rate * (1.0 - p.alphaminusold);
    assert t + u == rate;
    assert KeepActive(p, rate) * c == c - p.c1 * c - p.cmu * c + t * c;
    assert PlusRate(p, rate) * c == p.cmu * c + u * c;
    assert rate * c == t * c + u * c;
  }

  /** The scalar heart of the safety bound: with a negative part of at most e times the old value, the
      update keeps at least the guaranteed share. */
  lemma FloorBound(p: UpdateParameters, cap: real, e: real, c: real, y: real, plus: real, minus: real)
    requires ActiveParameters(p) && cap > 0.0 && e >= 0.0 && c >= 0.0 && plus >= 0.0
    requires minus <= e * c
    ensures var rate := NegativeRate(p, cap, e);
            ActiveTerms(p, rate, c, y, plus, minus) >= Guaranteed(p, rate) * c
  {
    var rate := NegativeRate(p, cap, e);
    RateWithinBudget(p, cap, e);
    PlusRateNonNegative(p, rate);
    SquareSign(y, y * y);
    hide NegativeRate, Budget, KeepActive, PlusRate;
    ScalarFloor(KeepActive(p, rate), Budget(p), p.c1, PlusRate(p, rate), rate, e, c, y * y, plus, minus,
                Guaranteed(p, rate));
  }

  lemma PlusRateNonNegative(p: UpdateParameters, rate: real)
    requires ActiveParameters(p) && rate >= 0.0
    ensures PlusRate(p, rate) >= 0.0
  {
    ProductSign(rate, 1.0 - p.alphaminusold, rate * (1.0 - p.alphaminusold));
  }

  lemma ScalarFloor(k: real, b: real, c1: real, l: real, rate: real, e: real, c: real, y: real, plus: real,
                    minus: real, left: real)
    requires c1 >= 0.0 && l >= 0.0 && rate >= 0.0 && c >= 0.0 && y >= 0.0 && plus >= 0.0
    requires rate * e <= b && minus <= e * c && left == k - b
    ensures k * c + c1 * y + l * plus - rate * minus >= left * c
  {
    ProductSign(c1, y, c1 * y);
    ProductSign(l, plus, l * plus);
    FloorAlgebra(k, b, rate, e, c, minus);
  }

  lemma FloorAlgebra(k: real, b: real, rate: real, e: real, c: real, minus: real)
    requires rate >= 0.0 && c >= 0.0 && rate * e <= b && minus <= e * c
    ensures k * c - rate * minus >= (k - b) * c
  {
    var u, v := rate * (e * c - minus), (b - rate * e) * c;
    ProductSign(rate, e * c - minus, u);
    ProductSign(b - rate * e, c, v);
    assert u == (rate * e) * c - rate * minus;
    assert v == b * c - (rate * e) * c;
    assert (k - b) * c == k * c - b * c;
  }

  /** A coordinate in which path, best and worst candidates all have the variance of the model keeps it,
      whatever the negative rate. */
  lemma NeutralActiveCoordinate(p: UpdateParameters, c: Vec, s: ActiveSample, sqrt: Fn, j: nat)
    requires ActiveParameters(p) && IsSqrt(sqrt) && FitsActive(p, s) && |c| == p.dim && AllPositive(c) && j < p.dim
    requires s.pc[j] * s.pc[j] == SepPlusOf(p, s)[j] == SepMinusOf(p, s)[j] == c[j]
    ensures NextActiveSepOf(p, c, s, sqrt)[j] == c[j]
  {
    hide NextActiveSep, SepPlusOf, SepMinusOf, SepRate, ActiveTerms, IsSqrt;
    SepComponent(p, SepRate(p, c, s, sqrt), c, s.pc, SepPlusOf(p, s), SepMinusOf(p, s), j);
    NeutralActiveTerms(p, SepRate(p, c, s, sqrt), c[j], s.pc[j]);
  }

  /** The same for a direction x of the full covariance, whatever the roots it is given. */
  lemma NeutralActiveDirection(p: UpdateParameters, c: Mat, root: Mat, s: ActiveSample, maxEigen: Mat -> real,
                               sqrt: Fn, x: Vec)
    requires ActiveParameters(p) && IsSqrt(sqrt) && FitsActive(p, s) && |x| == p.dim
    requires IsSquare(c, p.dim) && IsSquare(root, p.dim)
    requires Dot(s.pc, x) * Dot(s.pc, x) == Quad(PlusOf(p, s), x) == Quad(MinusOf(p, s), x) == Quad(c, x)
    ensures Quad(FullNext(p, c, root, s, maxEigen, sqrt), x) == Quad(c, x)
  {
    hide Quad, Dot, PlusOf, MinusOf, NextActive, NegativeRate, RateCap, Relative, ActiveTerms, IsSqrt;
    var rate := NegativeRate(p, RateCap(p, sqrt), maxEigen(Relative(root, MinusOf(p, s))));
    NextActiveForm(p, rate, c, s.pc, PlusOf(p, s), MinusOf(p, s), x);
    NeutralActiveTerms(p, rate, Quad(c, x), Dot(s.pc, x));
  }

  // ----- the separable variant

  /** The largest ratio of the negative part to the old variances. */
  function SepRatios(c: Vec, minus: Vec, sqrt: Fn): (r: Vec)
    requires |c| == |minus| && AllPositive(c)
    ensures |r| == |c|
  {
    Prod(SepRoot(c, sqrt), Prod(minus, SepRoot(c, sqrt)))
  }

  lemma SepRatioIsQuotient(c: Vec, minus: Vec, sqrt: Fn, j: nat)
    requires |c| == |minus| && AllPositive(c) && IsSqrt(sqrt) && j < |c|
    ensures SepRatios(c, minus, sqrt)[j] * c[j] == minus[j]
  {
    var r := sqrt(1.0 / c[j]);
    QuotientPositive(1.0, c[j]);
    assert r * r == 1.0 / c[j];
    RatioAlgebra(r, minus[j], c[j]);
  }

  lemma RatioAlgebra(r: real, m: real, c: real)
    requires r * r * c == 1.0
    ensures (r * (m * r)) * c == m
  {
    assert (r * (m * r)) * c == m * (r * r * c);
  }

  /** Componentwise safety of the separable active update: no oracle is needed. */
  lemma SepSafety(p: UpdateParameters, c: Vec, pc: Vec, plus: Vec, minus: Vec, sqrt: Fn, j: nat)
    requires ActiveParameters(p) && IsSqrt(sqrt)
    requires |c| == |pc| == |plus| == |minus| == p.dim && AllPositive(c) && j < p.dim
    requires forall i :: 0 <= i < p.dim ==> plus[i] >= 0.0 && minus[i] >= 0.0
    ensures var rate := NegativeRate(p, RateCap(p, sqrt), MaxCoeff(SepRatios(c, minus, sqrt)));
            && rate > 0.0
            && NextActiveSep(p, rate, c, pc, plus, minus)[j] >= Guaranteed(p, rate) * c[j]
  {
    hide NegativeRate, RateCap, MaxCoeff, IsSqrt, Guaranteed, ActiveTerms, NextActiveSep, ActiveParameters;
    var e, cap := MaxCoeff(SepRatios(c, minus, sqrt)), RateCap(p, sqrt);
    SepRatioBound(c, minus, sqrt, j);
    CapPositive(p, sqrt);
    var rate := NegativeRate(p, cap, e);
    hide SepRatios;
    RateWithinBudget(p, cap, e);
    FloorBound(p, cap, e, c[j], pc[j], plus[j], minus[j]);
    SepComponent(p, rate, c, pc, plus, minus, j);
  }

  lemma SepComponent(p: UpdateParameters, rate: real, c: Vec, pc: Vec, plus: Vec, minus: Vec, j: nat)
    requires |c| == |pc| == |plus| == |minus| == p.dim && j < p.dim
    ensures NextActiveSep(p, rate, c, pc, plus, minus)[j]
         == ActiveTerms(p, rate, c[j], pc[j], plus[j], minus[j])
  {
    hide KeepActive, PlusRate;
    assert -rate * minus[j] == -(rate * minus[j]);
  }

  lemma SepRatioBound(c: Vec, minus: Vec, sqrt: Fn, j: nat)
    requires |c| == |minus| && AllPositive(c) && IsSqrt(sqrt) && j < |c|
    requires forall i :: 0 <= i < |c| ==> minus[i] >= 0.0
    ensures var e := MaxCoeff(SepRatios(c, minus, sqrt)); e >= 0.0 && minus[j] <= e * c[j]
  {
    hide MaxCoeff, IsSqrt, SepRatios;
    SepRatioIsQuotient(c, minus, sqrt, j);
    var ratios := SepRatios(c, minus, sqrt);
    RatioBelow(ratios[j], MaxCoeff(ratios), c[j], minus[j]);
  }

  lemma RatioBelow(r: real, e: real, c: real, m: real)
    requires r <= e && c > 0.0 && m >= 0.0 && r * c == m
    ensures e >= 0.0 && m <= e * c
  {
    ProductSign(e - r, c, (e - r) * c);
    if r < 0.0 { ProductSign(-r, c, -r * c); }
  }

  // ----- the full variant

  /** What the eigen solver delivers for the inverse square root of c. */
  ghost predicate IsInverseRoot(s: Mat, c: Mat) {
    && Symmetric(s) && |s| == |c| && IsSquare(c, |c|)
    && forall x: Vec :: |x| == |c| ==> Apply(s, Apply(s, Apply(c, x))) == x
  }

  /** What it delivers as the largest eigenvalue of m. */
  ghost predicate BoundsForm(m: Mat, e: real) {
    IsSquare(m, |m|) && forall y: Vec :: |y| == |m| ==> Quad(m, y) <= e * Dot(y, y)
  }

  /** The eigen solver bounds the form of every symmetric matrix. */
  ghost predicate BoundsEigenvalues(maxEigen: Mat -> real) {
    forall m: Mat {:trigger maxEigen(m)} :: Symmetric(m) ==> BoundsForm(m, maxEigen(m))
  }

  lemma InverseRootShape(c: Mat, s: Mat)
    requires IsInverseRoot(s, c)
    ensures Symmetric(s) && |s| == |c|
  {
  }

  /** The negative part measured in the metric of c is at most e c. */
  lemma MinusBound(c: Mat, s: Mat, minus: Mat, e: real, x: Vec)
    requires Symmetric(c) && IsInverseRoot(s, c) && IsSquare(s, |c|) && IsSquare(minus, |c|) && |x| == |c|
    requires BoundsForm(MatMul(MatMul(s, minus), s), e)
    ensures Quad(minus, x) <= e * Quad(c, x)
  {
    hide Quad, Dot, MatMul, BoundsForm, IsInverseRoot, Apply;
    InverseRootShape(c, s);
    var y := RootedVector(c, s, x);
    SandwichBound(s, minus, e, y);
  }

  lemma SandwichBound(s: Mat, minus: Mat, e: real, y: Vec)
    requires Symmetric(s) && IsSquare(minus, |s|) && |y| == |s|
    requires BoundsForm(MatMul(MatMul(s, minus), s), e)
    ensures |Apply(s, y)| == |s| && Quad(minus, Apply(s, y)) <= e * Dot(y, y)
  {
    var m := MatMul(MatMul(s, minus), s);
    assert Quad(m, y) <= e * Dot(y, y);
    hide Quad, Dot, MatMul, BoundsForm;
    QuadCongruence(s, minus, y);
  }

  /** The vector y with S y = x, whose norm is the form of c at x. */
  lemma RootedVector(c: Mat, s: Mat, x: Vec) returns (y: Vec)
    requires Symmetric(c) && IsInverseRoot(s, c) && |x| == |c|
    ensures |y| == |x| && Apply(s, y) == x && Dot(y, y) == Quad(c, x)
  {
    y := Apply(s, Apply(c, x));
    RootNorm(c, s, x);
  }

  lemma RootNorm(c: Mat, s: Mat, x: Vec)
    requires Symmetric(c) && IsInverseRoot(s, c) && |x| == |c|
    ensures var y := Apply(s, Apply(c, x)); Dot(y, y) == Quad(c, x)
  {
    var cx := Apply(c, x);
    var y := Apply(s, cx);
    assert Apply(s, y) == x;
    DotSymmetric(cx, x);
    hide Dot, Apply;
    SelfAdjoint(s, cx, y);
    DotSymmetric(y, y);
  }

  /** The bound is non-negative when the negative part is a sum of squares. */
  lemma EigenNonNegative(s: Mat, minus: Mat, e: real)
    requires Symmetric(s) && IsSquare(minus, |s|) && |s| > 0
    requires forall x: Vec :: |x| == |s| ==> Quad(minus, x) >= 0.0
    requires BoundsForm(MatMul(MatMul(s, minus), s), e)
    ensures e >= 0.0
  {
    hide Quad, Dot, MatMul, BoundsForm, Apply;
    var y := Ones(|s|);
    assert y[0] != 0.0;
    SquaredNormPositive(y);
    SandwichBound(s, minus, e, y);
    EigenSign(e, Dot(y, y), Quad(minus, Apply(s, y)));
  }

  lemma EigenSign(e: real, n: real, q: real)
    requires n > 0.0 && 0.0 <= q <= e * n
    ensures e >= 0.0
  {
    if e < 0.0 { ProductSign(-e, n, -e * n); }
  }

  /** Safety of the full active update: with a fresh inverse root and the largest eigenvalue, the next
      covariance dominates (floor + rate alphaminusold) times the old one, as a quadratic form. */
  lemma FullSafety(p: UpdateParameters, c: Mat, root: Mat, e: real, sample: ActiveSample, sqrt: Fn, x: Vec)
    requires ActiveParameters(p) && IsSqrt(sqrt) && FitsActive(p, sample)
    requires IsSquare(c, p.dim) && PositiveSemidefinite(c) && IsInverseRoot(root, c) && |x| == p.dim
    requires BoundsForm(MatMul(MatMul(root, MinusOf(p, sample)), root), e)
    ensures var rate := NegativeRate(p, RateCap(p, sqrt), e);
            && rate > 0.0
            && Quad(NextActive(p, rate, c, sample.pc, PlusOf(p, sample), MinusOf(p, sample)), x)
               >= Guaranteed(p, rate) * Quad(c, x)
  {
    hide NegativeRate, RateCap, IsSqrt, Guaranteed, ActiveTerms, Quad, Dot, MatMul, PlusOf, MinusOf, IsInverseRoot,
      BoundsForm, NextActive, PositiveSemidefinite;
    var plus, minus := PlusOf(p, sample), MinusOf(p, sample);
    var cap := RateCap(p, sqrt);
    CapPositive(p, sqrt);
    PartsPositive(p, sample, x);
    FullRatio(p, c, root, e, sample, x);
    RateWithinBudget(p, cap, e);
    var rate := NegativeRate(p, cap, e);
    NextActiveForm(p, rate, c, sample.pc, plus, minus, x);
    FloorBound(p, cap, e, Quad(c, x), Dot(sample.pc, x), Quad(plus, x), Quad(minus, x));
  }

  lemma FullRatio(p: UpdateParameters, c: Mat, root: Mat, e: real, sample: ActiveSample, x: Vec)
    requires ActiveParameters(p) && FitsActive(p, sample)
    requires IsSquare(c, p.dim) && PositiveSemidefinite(c) && IsInverseRoot(root, c) && |x| == p.dim
    requires BoundsForm(MatMul(MatMul(root, MinusOf(p, sample)), root), e)
    ensures e >= 0.0 && Quad(c, x) >= 0.0 && Quad(MinusOf(p, sample), x) <= e * Quad(c, x)
  {
    hide Quad, Dot, DotTo, MatMul, Apply, MinusOf, BoundsForm, FitsActive, IsInverseRoot;
    InverseRootShape(c, root);
    var minus := MinusOf(p, sample);
    forall z: Vec | |z| == p.dim ensures Quad(minus, z) >= 0.0 { PartsPositive(p, sample, z); }
    EigenNonNegative(root, minus, e);
    MinusBound(c, root, minus, e, x);
  }

  function PlusOf(p: UpdateParameters, s: ActiveSample): (m: Mat)
    requires p.Valid() && FitsActive(p, s)
    ensures IsSquare(m, p.dim)
  {
    MatScale(InverseSquare(s.sigma), RankMu(p.weights, s.good, p.mu, p.dim))
  }

  function MinusOf(p: UpdateParameters, s: ActiveSample): (m: Mat)
    requires p.Valid() && FitsActive(p, s)
    ensures IsSquare(m, p.dim)
  {
    RankMu(p.weights, s.bad, p.mu, p.dim)
  }

  lemma PartsPositive(p: UpdateParameters, s: ActiveSample, x: Vec)
    requires p.Valid() && FitsActive(p, s) && |x| == p.dim
    ensures Quad(PlusOf(p, s), x) >= 0.0 && Quad(MinusOf(p, s), x) >= 0.0
  {
    hide RankMu, InverseSquare, Quad, MatScale;
    var w, i := RankMu(p.weights, s.good, p.mu, p.dim), InverseSquare(s.sigma);
    RankMuPositive(p.weights, s.good, p.mu, p.dim, x);
    RankMuPositive(p.weights, s.bad, p.mu, p.dim, x);
    InverseSquarePositive(s.sigma);
    QuadScale(i, w, x);
    ProductSign(i, Quad(w, x), i * Quad(w, x));
  }

  lemma NextActiveForm(p: UpdateParameters, rate: real, c: Mat, pc: Vec, plus: Mat, minus: Mat, x: Vec)
    requires IsSquare(c, p.dim) && |pc| == |x| == p.dim && IsSquare(plus, p.dim) && IsSquare(minus, p.dim)
    ensures Quad(NextActive(p, rate, c, pc, plus, minus), x)
         == ActiveTerms(p, rate, Quad(c, x), Dot(pc, x), Quad(plus, x), Quad(minus, x))
  {
    hide KeepActive, PlusRate, Quad, Dot, DotTo, Blend, ActiveTerms, MatAdd, MatScale, Outer;
    var k, l := KeepActive(p, rate), PlusRate(p, rate);
    QuadOuter(pc, x);
    QuadCombined(k, c, p.c1, Outer(pc), x);
    QuadCombined(l, plus, -rate, minus, x);
    QuadSum(MatAdd(MatScale(k, c), MatScale(p.c1, Outer(pc))), MatAdd(MatScale(l, plus), MatScale(-rate, minus)), x);
    BlendedActiveTerms(p, rate, Quad(c, x), Dot(pc, x), Quad(Outer(pc), x), Quad(plus, x), Quad(minus, x));
  }

  // ----- the separable update on its sample

  function SepPlusOf(p: UpdateParameters, s: ActiveSample): (r: Vec)
    requires p.Valid() && FitsActive(p, s)
    ensures |r| == p.dim
  {
    Scale(InverseSquare(s.sigma), RankMuDiagonal(p.weights, s.good, p.mu, p.dim))
  }

  function SepMinusOf(p: UpdateParameters, s: ActiveSample): (r: Vec)
    requires p.Valid() && FitsActive(p, s)
    ensures |r| == p.dim
  {
    RankMuDiagonal(p.weights, s.bad, p.mu, p.dim)
  }

  /** The rate that the separable update computes from its sample. */
  function SepRate(p: UpdateParameters, c: Vec, s: ActiveSample, sqrt: Fn): real
    requires ActiveParameters(p) && IsSqrt(sqrt) && FitsActive(p, s) && |c| == p.dim && AllPositive(c)
  {
    NegativeRate(p, RateCap(p, sqrt), MaxCoeff(SepRatios(c, SepMinusOf(p, s), sqrt)))
  }

  /** The diagonal covariance after one active update. */
  function NextActiveSepOf(p: UpdateParameters, c: Vec, s: ActiveSample, sqrt: Fn): (c': Vec)
    requires ActiveParameters(p) && IsSqrt(sqrt) && FitsActive(p, s) && |c| == p.dim && AllPositive(c)
    ensures |c'| == p.dim
  {
    NextActiveSep(p, SepRate(p, c, s, sqrt), c, s.pc, SepPlusOf(p, s), SepMinusOf(p, s))
  }

  lemma SepPartsPositive(p: UpdateParameters, s: ActiveSample)
    requires p.Valid() && FitsActive(p, s)
    ensures forall j :: 0 <= j < p.dim ==> SepPlusOf(p, s)[j] >= 0.0 && SepMinusOf(p, s)[j] >= 0.0
  {
    var w, i := RankMuDiagonal(p.weights, s.good, p.mu, p.dim), InverseSquare(s.sigma);
    RankMuDiagonalPositive(p.weights, s.good, p.mu, p.dim);
    RankMuDiagonalPositive(p.weights, s.bad, p.mu, p.dim);
    InverseSquarePositive(s.sigma);
    hide RankMuDiagonal, InverseSquare;
    forall j | 0 <= j < p.dim ensures i * w[j] >= 0.0 {
      ProductSign(i, w[j], i * w[j]);
    }
  }

  /** For every sample: each variance keeps at least the guaranteed share. */
  lemma SepUpdateBound(p: UpdateParameters, c: Vec, s: ActiveSample, sqrt: Fn, j: nat)
    requires ActiveParameters(p) && IsSqrt(sqrt) && FitsActive(p, s) && |c| == p.dim && AllPositive(c) && j < p.dim
    ensures SepRate(p, c, s, sqrt) > 0.0
    ensures NextActiveSepOf(p, c, s, sqrt)[j] >= (Floor(p) + SepRate(p, c, s, sqrt) * p.alphaminusold) * c[j]
  {
    hide SepMinusOf, SepPlusOf, NegativeRate, RateCap, MaxCoeff, SepRatios, IsSqrt, NextActiveSep, Guaranteed, Floor;
    SepPartsPositive(p, s);
    SepSafety(p, c, s.pc, SepPlusOf(p, s), SepMinusOf(p, s), sqrt, j);
    GuaranteedIsFloor(p, SepRate(p, c, s, sqrt));
  }

  /** At or above the floor, every sample leaves all variances positive. */
  lemma SafeSample(p: UpdateParameters, c: Vec, s: ActiveSample, sqrt: Fn)
    requires ActiveParameters(p) && p.alphaminusold > 0.0 && Floor(p) >= 0.0
    requires IsSqrt(sqrt) && |c| == p.dim && AllPositive(c) && FitsActive(p, s)
    ensures AllPositive(NextActiveSepOf(p, c, s, sqrt))
  {
    hide NextActiveSepOf, IsSqrt, SepRate, Floor;
    forall j | 0 <= j < p.dim ensures NextActiveSepOf(p, c, s, sqrt)[j] > 0.0 {
      SepUpdateBound(p, c, s, sqrt, j);
      var rate := SepRate(p, c, s, sqrt);
      ProductSign(rate, p.alphaminusold, rate * p.alphaminusold);
      var g := Floor(p) + rate * p.alphaminusold;
      ProductSign(g, c[j], g * c[j]);
    }
  }

  // ----- the full update preserves definiteness

  lemma FullKeepsDefinite(p: UpdateParameters, c: Mat, root: Mat, e: real, sample: ActiveSample, sqrt: Fn)
    requires ActiveParameters(p) && p.alphaminusold > 0.0 && Floor(p) >= 0.0 && IsSqrt(sqrt) && FitsActive(p, sample)
    requires IsSquare(c, p.dim) && PositiveDefinite(c) && IsInverseRoot(root, c)
    requires BoundsForm(MatMul(MatMul(root, MinusOf(p, sample)), root), e)
    ensures PositiveDefinite(NextActive(p, NegativeRate(p, RateCap(p, sqrt), e), c, sample.pc,
                                        PlusOf(p, sample), MinusOf(p, sample)))
  {
    hide IsSqrt, NegativeRate, RateCap, NextActive, PlusOf, MinusOf, IsInverseRoot, BoundsForm, MatMul, Quad,
      PositiveSemidefinite, Guaranteed, Floor;
    DefiniteIsSemidefinite(c);
    var rate := NegativeRate(p, RateCap(p, sqrt), e);
    var c' := NextActive(p, rate, c, sample.pc, PlusOf(p, sample), MinusOf(p, sample));
    NextActiveSymmetric(p, rate, c, sample);
    GuaranteedIsFloor(p, rate);
    forall x: Vec | |x| == p.dim && !IsZero(x) ensures Quad(c', x) > 0.0 {
      FullSafety(p, c, root, e, sample, sqrt, x);
      ProductSign(rate, p.alphaminusold, rate * p.alphaminusold);
      ProductSign(Guaranteed(p, rate), Quad(c, x), Guaranteed(p, rate) * Quad(c, x));
    }
  }

  lemma NextActiveSymmetric(p: UpdateParameters, rate: real, c: Mat, s: ActiveSample)
    requires p.Valid() && FitsActive(p, s) && IsSquare(c, p.dim) && Symmetric(c)
    ensures Symmetric(NextActive(p, rate, c, s.pc, PlusOf(p, s), MinusOf(p, s)))
  {
    var w, i := RankMu(p.weights, s.good, p.mu, p.dim), InverseSquare(s.sigma);
    RankMuSymmetric(p.weights, s.good, p.mu, p.dim);
    RankMuSymmetric(p.weights, s.bad, p.mu, p.dim);
    hide RankMu, InverseSquare;
    SymmetricScale(i, w);
    NextSymmetric(p, rate, c, s.pc, PlusOf(p, s), MinusOf(p, s));
  }

  lemma NextSymmetric(p: UpdateParameters, rate: real, c: Mat, pc: Vec, plus: Mat, minus: Mat)
    requires IsSquare(c, p.dim) && |pc| == p.dim && IsSquare(plus, p.dim) && IsSquare(minus, p.dim)
    requires Symmetric(c) && Symmetric(plus) && Symmetric(minus)
    ensures Symmetric(NextActive(p, rate, c, pc, plus, minus))
  {
    OuterSymmetric(pc);
    hide KeepActive, PlusRate, Symmetric, MatScale, MatAdd, Outer;
    var k, l := KeepActive(p, rate), PlusRate(p, rate);
    SymmetricScale(k, c);
    SymmetricScale(p.c1, Outer(pc));
    SymmetricScale(l, plus);
    SymmetricScale(-rate, minus);
    SymmetricAdd(MatScale(k, c), MatScale(p.c1, Outer(pc)));
    SymmetricAdd(MatScale(l, plus), MatScale(-rate, minus));
    SymmetricAdd(MatAdd(MatScale(k, c), MatScale(p.c1, Outer(pc))), MatAdd(MatScale(l, plus), MatScale(-rate, minus)));
  }

  // ----- the program

  /** The new mean: the old one moved by cm times the weighted difference. */
  function ActiveMean(p: UpdateParameters, diffs: seq<Vec>, mean: Vec): (r: Vec)
    requires p.Valid() && |mean| == p.dim && p.mu <= |diffs| && forall i :: 0 <= i < |diffs| ==> |diffs[i]| == p.dim
    ensures |r| == p.dim
  {
    Add(Scale(p.cm, WeightedSum(p.weights, diffs, p.mu, p.dim)), mean)
  }

  /** With normalised weights it lies between the old mean and the weighted mean of the best points, at the
      learning rate cm: for cm == 1 it is that weighted mean. */
  lemma ActiveMeanBetween(p: UpdateParameters, cs: seq<Candidate>, mean: Vec, j: nat)
    requires p.Valid() && |mean| == p.dim && p.mu <= |cs| && AllOfDim(cs, p.dim) && j < p.dim
    requires SumTo(p.weights, p.mu) == 1.0
    ensures ActiveMean(p, Differences(cs, mean), mean)[j]
         == Blend(1.0 - p.cm, mean[j], p.cm, WeightedSum(p.weights, Points(cs, p.dim), p.mu, p.dim)[j])
  {
    hide WeightedSum;
    WeightedDifference(p.weights, cs, mean, p.mu, p.dim, j);
  }

  lemma WeightedStep(w: Vec, cs: seq<Candidate>, mean: Vec, k: nat, dim: nat, j: nat)
    requires 0 < k <= |w| && k <= |cs| && AllOfDim(cs, dim) && |mean| == dim && j < dim
    ensures Scale(w[k - 1], Differences(cs, mean)[k - 1])[j]
         == Scale(w[k - 1], Points(cs, dim)[k - 1])[j] - w[k - 1] * mean[j]
  {
  }

  lemma {:induction false} WeightedDifference(w: Vec, cs: seq<Candidate>, mean: Vec, k: nat, dim: nat, j: nat)
    requires k <= |w| && k <= |cs| && AllOfDim(cs, dim) && |mean| == dim && j < dim
    ensures WeightedSum(w, Differences(cs, mean), k, dim)[j]
         == WeightedSum(w, Points(cs, dim), k, dim)[j] - SumTo(w, k) * mean[j]
  {
    hide Scale, Differences, Points, AllOfDim;
    if k > 0 {
      WeightedDifference(w, cs, mean, k - 1, dim, j);
      WeightedStep(w, cs, mean, k, dim, j);
    }
  }

  /** The differences of the worst candidates, worst first, over the step size. */
  function BadDifferences(p: UpdateParameters, cs: seq<Candidate>, mean: Vec, sigma: real): (r: seq<Vec>)
    requires p.Valid() && p.mu <= p.lambda <= |cs| && AllOfDim(cs, p.dim) && |mean| == p.dim && sigma > 0.0
    ensures |r| == p.mu && forall i :: 0 <= i < |r| ==> |r[i]| == p.dim
  {
    seq(p.mu, i requires 0 <= i < p.mu => Scale(1.0 / sigma, Sub(cs[p.lambda - i - 1].x, mean)))
  }

  /** The k-th of them leads from the mean to the k-th candidate from the end of the population. */
  lemma BadDifferencesBack(p: UpdateParameters, cs: seq<Candidate>, mean: Vec, sigma: real, k: nat)
    requires p.Valid() && p.mu <= p.lambda <= |cs| && AllOfDim(cs, p.dim) && |mean| == p.dim && sigma > 0.0
    requires k < p.mu
    ensures Add(mean, Scale(sigma, BadDifferences(p, cs, mean, sigma)[k])) == cs[p.lambda - 1 - k].x
  {
    MeanShiftBack(sigma, cs[p.lambda - 1 - k].x, mean);
  }

  function SampleOf(p: UpdateParameters, cs: seq<Candidate>, mean: Vec, sigma: real, pc: Vec): (s: ActiveSample)
    requires ActiveParameters(p) && p.lambda <= |cs| && AllOfDim(cs, p.dim) && |mean| == |pc| == p.dim && sigma > 0.0
    ensures FitsActive(p, s)
  {
    ActiveSample(pc, Differences(cs, mean), BadDifferences(p, cs, mean, sigma), sigma)
  }

  /** The eigenvalue problem that the full update poses. */
  function Relative(root: Mat, minus: Mat): (m: Mat)
    requires IsSquare(root, |root|) && IsSquare(minus, |root|)
    ensures IsSquare(m, |root|)
  {
    MatMul(MatMul(root, minus), root)
  }

  /** It is symmetric, which is all that the eigen solver asks for. */
  lemma RelativeSymmetric(p: UpdateParameters, c: Mat, root: Mat, s: ActiveSample)
    requires p.Valid() && FitsActive(p, s) && |c| == p.dim && IsInverseRoot(root, c)
    ensures IsSquare(root, p.dim) && Symmetric(Relative(root, MinusOf(p, s)))
  {
    hide IsInverseRoot, RankMu, MatMul;
    InverseRootShape(c, root);
    RankMuSymmetric(p.weights, s.bad, p.mu, p.dim);
    CongruenceSymmetric(root, MinusOf(p, s));
  }

  /** The covariance after its active move: the old one updated by the sample; at or above the floor all
      variances stay positive, and a definite matrix stays definite under a fresh root. */
  ghost predicate ActiveCovMoved(p: UpdateParameters, c: Mat, v: Vec, root: Mat, sample: ActiveSample,
                                 maxEigen: Mat -> real, sqrt: Fn, c': Mat, v': Vec)
    requires ActiveParameters(p) && IsSqrt(sqrt) && FitsActive(p, sample)
    requires if p.sep then |v| == p.dim && AllPositive(v) else IsSquare(c, p.dim)
  {
    && (if p.sep then c' == c && v' == NextActiveSepOf(p, v, sample, sqrt)
        else IsSquare(root, p.dim) && v' == v && c' == FullNext(p, c, root, sample, maxEigen, sqrt))
    && (p.alphaminusold > 0.0 && Floor(p) >= 0.0 ==>
          && (p.sep ==> AllPositive(v'))
          && (!p.sep && PositiveDefinite(c) && IsInverseRoot(root, c) && BoundsEigenvalues(maxEigen)
              ==> PositiveDefinite(c')))
  }

  /** One active update. maxEigen is the eigen solver's largest eigenvalue. */
  method Update(p: UpdateParameters, s: CmaSolutions, updatedEigen: bool, inverseSqrt: Mat,
                maxEigen: Mat -> real, sqrt: Fn, exp: Fn)
    requires ActiveParameters(p) && s.Shaped(p) && IsSqrt(sqrt) && IsExp(exp)
    requires IsSquare(inverseSqrt, p.dim) && (!p.sep && !updatedEigen ==> IsSquare(s.csqinv, p.dim))
    requires p.sep ==> AllPositive(s.sepcov)
    modifies s`xmean, s`xmeanPrev, s`sigma, s`psigma, s`pc, s`hsig, s`csqinv, s`sepcsqinv, s`cov, s`sepcov
    ensures s.Shaped(p)
    ensures s.xmean == ActiveMean(p, Differences(s.candidates, old(s.xmean)), old(s.xmean))
    ensures s.xmeanPrev == old(s.xmean)
    ensures PathsMoved(p, s, old(s.psigma), old(s.pc), ActiveShift(p, old(s.sigma), s.xmean, old(s.xmean)), sqrt)
    ensures s.sigma == old(s.sigma) * SigmaFactor(p, sqrt(Dot(s.psigma, s.psigma)), true, s.niter, s.tpaS, exp)
    ensures StepSizeFollows(p, sqrt(Dot(s.psigma, s.psigma)), true, s.niter, s.tpaS, old(s.sigma), s.sigma)
    ensures ActiveCovMoved(p, old(s.cov), old(s.sepcov), s.csqinv,
                           SampleOf(p, s.candidates, old(s.xmean), old(s.sigma), s.pc), maxEigen, sqrt, s.cov, s.sepcov)
  {
    hide SigmaFactor, StepSizeFollows, ActiveCovMoved, AllPositive, AllOfDim, IsSquare, PathsMoved, ActiveShift,
      ActiveMean, IsSqrt, IsExp, SampleOf, Dot, DotTo, UpdateParameters.Valid;
    var mean := Mean(p, s);
    var normPs := Adapt(p, s, updatedEigen, inverseSqrt, ActiveShift(p, s.sigma, mean, s.xmean), maxEigen, sqrt);
    s.UpdateSigma(p, normPs, true, exp);
    s.xmeanPrev := s.xmean;
    s.xmean := mean;
  }

  lemma ProductNonZero(a: real, b: real)
    requires a != 0.0 && b != 0.0
    ensures a * b != 0.0
  {
    ProductSign(a, b, a * b);
    ProductSign(-a, b, -a * b);
  }

  /** The mean shift over the mean's learning rate and the step size. */
  function ActiveShift(p: UpdateParameters, sigma: real, mean: Vec, old': Vec): (r: Vec)
    requires p.cm != 0.0 && sigma != 0.0 && |mean| == |old'|
    ensures |r| == |mean|
  {
    ProductNonZero(sigma, p.cm);
    MeanShift(Times(sigma, p.cm), mean, old')
  }

  /** The shift is the move of the mean in units of the step size and the learning rate. */
  lemma ActiveShiftBack(p: UpdateParameters, sigma: real, mean: Vec, old': Vec)
    requires p.cm != 0.0 && sigma != 0.0 && |mean| == |old'|
    ensures Add(old', Scale(Times(sigma, p.cm), ActiveShift(p, sigma, mean, old'))) == mean
  {
    ProductNonZero(sigma, p.cm);
    MeanShiftBack(Times(sigma, p.cm), mean, old');
  }

  method Mean(p: UpdateParameters, s: CmaSolutions) returns (mean: Vec)
    requires ActiveParameters(p) && s.Shaped(p)
    ensures |mean| == p.dim && mean == ActiveMean(p, Differences(s.candidates, s.xmean), s.xmean)
  {
    mean := s.AccumulateMean(p, Differences(s.candidates, s.xmean));
    mean := Scale(p.cm, mean);
    mean := Add(mean, s.xmean);
  }

  /** The full covariance after one active update. */
  function FullNext(p: UpdateParameters, c: Mat, root: Mat, s: ActiveSample, maxEigen: Mat -> real, sqrt: Fn): (c': Mat)
    requires ActiveParameters(p) && IsSqrt(sqrt) && FitsActive(p, s) && IsSquare(c, p.dim) && IsSquare(root, p.dim)
    ensures IsSquare(c', p.dim)
  {
    NextActive(p, NegativeRate(p, RateCap(p, sqrt), maxEigen(Relative(root, MinusOf(p, s)))), c, s.pc,
               PlusOf(p, s), MinusOf(p, s))
  }

  /** Paths and covariance, from the mean shift. */
  method Adapt(p: UpdateParameters, s: CmaSolutions, updatedEigen: bool, inverseSqrt: Mat, shift: Vec,
               maxEigen: Mat -> real, sqrt: Fn) returns (normPs: real)
    requires ActiveParameters(p) && s.Shaped(p) && |shift| == p.dim && IsSqrt(sqrt)
    requires IsSquare(inverseSqrt, p.dim) && (!p.sep && !updatedEigen ==> IsSquare(s.csqinv, p.dim))
    requires p.sep ==> AllPositive(s.sepcov)
    modifies s`psigma, s`pc, s`hsig, s`csqinv, s`sepcsqinv, s`cov, s`sepcov
    ensures s.Shaped(p)
    ensures normPs == sqrt(Dot(s.psigma, s.psigma)) && PathsMoved(p, s, old(s.psigma), old(s.pc), shift, sqrt)
    ensures ActiveCovMoved(p, old(s.cov), old(s.sepcov), s.csqinv, SampleOf(p, s.candidates, s.xmean, s.sigma, s.pc),
                           maxEigen, sqrt, s.cov, s.sepcov)
  {
    hide PathsMoved, ActiveCovMoved, Dot, SampleOf, IsSqrt, AllPositive, AllOfDim, UpdateParameters.Valid;
    normPs := WalkPaths(p, s, updatedEigen, inverseSqrt, shift, sqrt);
    UpdateCov(p, s, maxEigen, sqrt);
  }

  method UpdateCov(p: UpdateParameters, s: CmaSolutions, maxEigen: Mat -> real, sqrt: Fn)
    requires ActiveParameters(p) && s.Shaped(p) && IsSqrt(sqrt)
    requires p.sep ==> AllPositive(s.sepcov) && s.sepcsqinv == SepRoot(s.sepcov, sqrt)
    requires !p.sep ==> IsSquare(s.csqinv, p.dim)
    modifies s`cov, s`sepcov
    ensures s.Shaped(p)
    ensures ActiveCovMoved(p, old(s.cov), old(s.sepcov), s.csqinv, SampleOf(p, s.candidates, s.xmean, s.sigma, s.pc),
                           maxEigen, sqrt, s.cov, s.sepcov)
  {
    hide PositiveDefinite, IsInverseRoot, BoundsForm, Floor, IsSqrt, RankMu, RankMuDiagonal, RateCap, NegativeRate,
      NextActive, NextActiveSep, MaxCoeff, MatMul, KeepActive, PlusRate;
    var sample := SampleOf(p, s.candidates, s.xmean, s.sigma, s.pc);
    if p.sep {
      var plus := s.AccumulateRankMuDiagonal(p, sample.good);
      plus := Scale(InverseSquare(s.sigma), plus);
      var minus := s.AccumulateRankMuDiagonal(p, sample.bad);
      var denom := Prod(s.sepcsqinv, Prod(minus, s.sepcsqinv));
      assert denom == SepRatios(s.sepcov, minus, sqrt);
      var rate := NegativeRate(p, RateCap(p, sqrt), MaxCoeff(denom));
      if p.alphaminusold > 0.0 && Floor(p) >= 0.0 { SafeSample(p, s.sepcov, sample, sqrt); }
      s.sepcov := NextActiveSep(p, rate, s.sepcov, s.pc, plus, minus);
    } else {
      var plus := s.AccumulateRankMu(p, sample.good);
      plus := MatScale(InverseSquare(s.sigma), plus);
      var minus := s.AccumulateRankMu(p, sample.bad);
      var e := maxEigen(Relative(s.csqinv, minus));
      var rate := NegativeRate(p, RateCap(p, sqrt), e);
      ghost var c := s.cov;
      s.cov := NextActive(p, rate, s.cov, s.pc, plus, minus);
      if p.alphaminusold > 0.0 && Floor(p) >= 0.0 && PositiveDefinite(c) && IsInverseRoot(s.csqinv, c)
         && BoundsEigenvalues(maxEigen) {
        RelativeSymmetric(p, c, s.csqinv, sample);
        FullKeepsDefinite(p, c, s.csqinv, e, sample, sqrt);
      }
    }
  }
}
