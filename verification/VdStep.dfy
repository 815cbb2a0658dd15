/** The step that VD-CMA computes for v and D in linear time, and why it is the solution of the damped
    Fisher system. */
module VdStep {
  import opened LinearAlgebra
  import opened RealFunctions
  import opened Solutions
  import opened VdCma
  import opened VdFisher

  /** The gradient components of one whitened point y. */
  function PTerm(c: Coefficients, y: Vec): Vec
    requires |c.vbar| == |y| && c.normv > 0.0
  {
    var yv := Dot(c.vbar, y);
    Sub(Sub(Prod(y, y), Scale(c.normv / (1.0 + c.normv), Prod(Scale(yv, c.vbar), y))), Ones(|y|))
  }

  function QTerm(c: Coefficients, y: Vec): Vec
    requires |c.vbar| == |y| && c.normv > 0.0
  {
    var yv := Dot(c.vbar, y);
    Sub(Scale(yv, y), Scale(0.5 * (yv * yv + (1.0 + c.normv)), c.vbar))
  }

  predicate AllOfLength(vs: seq<Vec>, n: nat) {
    forall i :: 0 <= i < |vs| ==> |vs[i]| == n
  }

  /** The rank-mu part of a gradient component, plus the path's part while the path is short. */
  function Combine(p: UpdateParameters, hsig: bool, sum: Vec, one: Vec): Vec
    requires |sum| == |one|
  {
    if hsig then Add(Scale(p.cmu, sum), Scale(p.c1, one)) else Scale(p.cmu, sum)
  }

  function GradientP(p: UpdateParameters, c: Coefficients, ys: seq<Vec>, ym: Vec, hsig: bool): (r: Vec)
    requires p.Valid() && c.normv > 0.0 && |c.vbar| == |ym| == p.dim && AllOfLength(ys, p.dim) && p.mu <= |ys|
    ensures |r| == p.dim
  {
    var terms := seq(|ys|, i requires 0 <= i < |ys| => PTerm(c, ys[i]));
    Combine(p, hsig, WeightedSum(p.weights, terms, p.mu, p.dim), PTerm(c, ym))
  }

  function GradientQ(p: UpdateParameters, c: Coefficients, ys: seq<Vec>, ym: Vec, hsig: bool): (r: Vec)
    requires p.Valid() && c.normv > 0.0 && |c.vbar| == |ym| == p.dim && AllOfLength(ys, p.dim) && p.mu <= |ys|
    ensures |r| == p.dim
  {
    var terms := seq(|ys|, i requires 0 <= i < |ys| => QTerm(c, ys[i]));
    Combine(p, hsig, WeightedSum(p.weights, terms, p.mu, p.dim), QTerm(c, ym))
  }

  /** The right-hand side of the dense system. */
  function RightHandSide(c: Coefficients, pvec: Vec, qvec: Vec): (r: Vec)
    requires |c.vbar| == |c.vbarbar| == |pvec| == |qvec| && c.normv > 0.0
    ensures |r| == |pvec|
  {
    var nu := Dot(c.vbar, qvec);
    Sub(pvec, Scale(c.alpha / (1.0 + c.normv),
                    Sub(Scale(2.0 + c.normv, Prod(c.vbar, qvec)), Scale(c.normv * nu, c.vbarbar))))
  }

  /** The step of v, from the solution svec. */
  function VStep(c: Coefficients, qvec: Vec, svec: Vec, root: real): (r: Vec)
    requires |c.vbar| == |c.vbarbar| == |qvec| == |svec| && root != 0.0
    ensures |r| == |qvec|
  {
    var nu := Dot(svec, c.vbarbar);
    Divide(Sub(qvec, Scale(c.alpha, Sub(Scale(2.0 + c.normv, Prod(c.vbar, svec)), Scale(nu, c.vbar)))), root)
  }

  // ----- the gradient

  /** The weights of the selected points, and of the path while it is short. */
  function UpdateWeights(p: UpdateParameters, hsig: bool): (ws: Vec)
    ensures |ws| == |p.weights| + 1
  {
    Scale(p.cmu, p.weights) + [if hsig then p.c1 else 0.0]
  }

  /** The selected points and the path. */
  function Samples(p: UpdateParameters, ys: seq<Vec>, ym: Vec): (zs: seq<Vec>)
    requires p.mu <= |ys| && |ym| == p.dim && AllOfLength(ys, p.dim)
    ensures |zs| == p.mu + 1 && AllOfLength(zs, p.dim)
  {
    ys[..p.mu] + [ym]
  }

  function ScoresV(v: Vec, zs: seq<Vec>): (r: seq<Vec>)
    requires AllOfLength(zs, |v|)
    ensures |r| == |zs| && AllOfLength(r, |v|)
  {
    seq(|zs|, i requires 0 <= i < |zs| => ScoreV(v, zs[i]))
  }

  function ScoresD(v: Vec, zs: seq<Vec>): (r: seq<Vec>)
    requires AllOfLength(zs, |v|)
    ensures |r| == |zs| && AllOfLength(r, |v|)
  {
    seq(|zs|, i requires 0 <= i < |zs| => ScoreD(v, zs[i]))
  }

  /** D and v after a step along the natural gradient of the weighted log-likelihood of the samples, with
      the coupling of v and D damped by alpha. */
  ghost predicate NaturalStep(p: UpdateParameters, alpha: real, ys: seq<Vec>, ym: Vec, hsig: bool,
                              d: Vec, v: Vec, d': Vec, v': Vec)
    requires |p.weights| == p.mu <= |ys| && |ym| == |d| == |v| == p.dim && AllOfLength(ys, p.dim)
  {
    var ws, zs := UpdateWeights(p, hsig), Samples(p, ys, ym);
    exists dv: Vec, s: Vec :: |dv| == |s| == p.dim
      && DampedSolution(v, alpha, dv, s, WeightedSum(ws, ScoresV(v, zs), p.mu + 1, p.dim),
                        WeightedSum(ws, ScoresD(v, zs), p.mu + 1, p.dim))
      && d' == Add(d, Prod(d, s)) && v' == Add(v, dv)
  }

  // ----- the coefficients

  /** The coefficients of the update belong to v, whose length is r. */
  ghost predicate Normal(v: Vec, c: Coefficients, r: real) {
    && |c.vbar| == |v| && c.normv == Dot(v, v) && r > 0.0 && r * r == c.normv && c.normv > 0.0
    && c.vbarbar == Prod(c.vbar, c.vbar) && Dot(c.vbar, c.vbar) == 1.0
    && (forall i :: 0 <= i < |v| ==> v[i] == r * c.vbar[i])
    && c.b == Beta(c.alpha, c.normv) && c.diagonal == Diagonal(Slope(c.alpha, c.normv), c.vbarbar)
  }

  lemma CoefficientsNormal(sqrt: Fn, v: Vec)
    requires NonZero(sqrt, v)
    ensures Normal(v, CoefficientsOf(sqrt, v), sqrt(Dot(v, v)))
  {
    hide Dot, IsSqrt, Alpha, Beta, Slope, MaxCoeff, Direction, IsZero, Radicand, Diagonal, Prod;
    RootOfNorm(sqrt, v);
    UnitDirection(sqrt, v);
  }

  // ----- the equation of v

  /** Both sides of the equation of v in the coordinates x = |v| dv, component by component. */
  function LeftV(x: real, kappa: real, b: real, xs: real, alpha: real, n: real, s: real, w: real): real {
    x + kappa * (b * xs) + alpha * ((2.0 + n) * (b * s) - n * (b * w))
  }

  function RightV(q: real, kappa: real, b: real, qs: real): real {
    q + kappa * (b * qs)
  }

  /** The component of v's step, times |v|. */
  function StepV(q: real, alpha: real, n: real, b: real, s: real, w: real): real {
    q - alpha * ((2.0 + n) * (b * s) - w * b)
  }

  lemma ScaledLeft(h: real, n: real, r: real, b: real, a: real, dv: real, s: real, xs: real, w: real, alpha: real,
                   left: real, m: real, kappa: real, x: real)
    requires h * (1.0 + n) == 1.0 && a * r == n * b && m == h * n && kappa == h * (1.0 - n) && x == r * dv
    requires left == Moved(Blend(m, dv, CoeffVV(h, n, a), xs), alpha, Blend(CoeffD(h, a), s, -(h * a), n * w))
    ensures left * r == m * LeftV(x, kappa, b, xs, alpha, n, s, w)
  {
    var t1, t2, t3, t4 := m * dv, CoeffVV(h, n, a) * xs, CoeffD(h, a) * s, (h * a) * (n * w);
    var u2, u3, u4 := kappa * (b * xs), (2.0 + n) * (b * s), n * (b * w);
    assert left == t1 + t2 + alpha * (t3 - t4);
    hide LeftV, Blend, CoeffVV, CoeffD;
    TermVV(h, n, r, b, a, xs, t2, m, kappa, u2);
    TermD(h, n, r, b, a, s, t3, m, u3);
    TermShrink(h, n, r, b, a, w, t4, m, u4);
    TermPlain(m, r, dv, t1, x);
    var sum := LeftV(x, kappa, b, xs, alpha, n, s, w);
    LeftTerms(x, kappa, b, xs, alpha, n, s, w, u2, u3, u4);
    LeftSum(left, r, m, t1, t2, alpha, t3, t4, x, u2, u3, u4, sum);
  }

  lemma LeftTerms(x: real, kappa: real, b: real, xs: real, alpha: real, n: real, s: real, w: real,
                  u2: real, u3: real, u4: real)
    requires u2 == kappa * (b * xs) && u3 == (2.0 + n) * (b * s) && u4 == n * (b * w)
    ensures LeftV(x, kappa, b, xs, alpha, n, s, w) == x + u2 + alpha * (u3 - u4)
  {
  }

  lemma TermPlain(m: real, r: real, dv: real, t: real, x: real)
    requires t == m * dv && x == r * dv
    ensures t * r == m * x
  {
  }

  lemma TermShrink(h: real, n: real, r: real, b: real, a: real, w: real, t: real, m: real, u: real)
    requires a * r == n * b && t == (h * a) * (n * w) && m == h * n && u == n * (b * w)
    ensures t * r == m * u
  {
    assert t * r == (h * (n * w)) * (a * r);
    assert m * u == (h * (n * w)) * (n * b);
  }

  lemma TermVV(h: real, n: real, r: real, b: real, a: real, xs: real, t: real, m: real, kappa: real, u: real)
    requires a * r == n * b && t == CoeffVV(h, n, a) * xs && m == h * n && kappa == h * (1.0 - n)
    requires u == kappa * (b * xs)
    ensures t * r == m * u
  {
    assert t * r == ((h * h) * ((1.0 - n) * xs)) * (a * r);
    assert m * u == ((h * h) * ((1.0 - n) * xs)) * (n * b);
  }

  lemma TermD(h: real, n: real, r: real, b: real, a: real, s: real, t: real, m: real, u: real)
    requires h * (1.0 + n) == 1.0 && a * r == n * b && t == CoeffD(h, a) * s && m == h * n
    requires u == (2.0 + n) * (b * s)
    ensures t * r == m * u
  {
    assert 1.0 + h == h * (2.0 + n);
    assert t * r == ((1.0 + h) * s) * (a * r);
    assert m * u == (h * (2.0 + n)) * ((n * b) * s);
  }

  lemma LeftSum(left: real, r: real, m: real, t1: real, t2: real, alpha: real, t3: real, t4: real,
                u1: real, u2: real, u3: real, u4: real, sum: real)
    requires left == t1 + t2 + alpha * (t3 - t4) && sum == u1 + u2 + alpha * (u3 - u4)
    requires t1 * r == m * u1 && t2 * r == m * u2 && t3 * r == m * u3 && t4 * r == m * u4
    ensures left * r == m * sum
  {
    assert (alpha * (t3 - t4)) * r == alpha * (t3 * r - t4 * r);
    assert m * (alpha * (u3 - u4)) == alpha * (m * u3 - m * u4);
  }

  lemma ScaledRight(h: real, n: real, r: real, b: real, a: real, q: real, qs: real, right: real)
    requires r * r == n && a == r * b && right == Blend(h * n, q, CoeffVV(h, n, a), r * qs)
    ensures right == (h * n) * RightV(q, h * (1.0 - n), b, qs)
  {
    assert CoeffVV(h, n, a) * (r * qs) == (h * h) * ((1.0 - n) * (b * qs)) * (r * r);
    assert (h * n) * ((h * (1.0 - n)) * (b * qs)) == (h * h) * ((1.0 - n) * (b * qs)) * n;
  }

  /** Where two numbers are scaled by r and by m alike, they agree together. */
  lemma Proportional(left: real, right: real, r: real, m: real, l: real, k: real)
    requires r > 0.0 && m > 0.0 && left * r == m * l && right * r == m * k
    ensures left == right <==> l == k
  {
    assert (left - right) * r == m * (l - k);
    ProductSign(left - right, r, (left - right) * r);
    ProductSign(right - left, r, (right - left) * r);
    ProductSign(l - k, m, m * (l - k));
    ProductSign(k - l, m, m * (k - l));
  }

  // ----- the solution of the equation of v

  // products that several steps share, named so that the solver keeps them together

  function Damp(alpha: real, n: real): real {
    -(alpha * (2.0 + n))
  }

  function Back(kappa: real, qs: real, xs: real, alpha: real, n: real, w: real): real {
    kappa * (qs - xs) + alpha * (n * w)
  }

  /** The inner product of x with the direction. */
  function InnerX(qs: real, alpha: real, n: real, w: real): real {
    qs - alpha * ((1.0 + n) * w)
  }

  lemma ThreeTerms(x: Vec, q: Vec, k: real, bs: Vec, l: real, b: Vec, y: Vec)
    requires |x| == |q| == |bs| == |b| == |y|
    requires forall i :: 0 <= i < |x| ==> x[i] == Moved(Moved(q[i], k, bs[i]), l, b[i])
    ensures Dot(x, y) == Moved(Moved(Dot(q, y), k, Dot(bs, y)), l, Dot(b, y))
  {
    hide Dot, Moved;
    var z := seq(|x|, i requires 0 <= i < |x| => Moved(q[i], k, bs[i]));
    DotOfCombination(q, k, bs, z, y);
    DotOfCombination(z, l, b, x, y);
  }

  /** The inner product of a combination with the unit direction. */
  lemma StepInner(x: Vec, q: Vec, bs: Vec, b: Vec, k: real, l: real)
    requires |x| == |q| == |bs| == |b| && Dot(b, b) == 1.0
    requires forall i :: 0 <= i < |x| ==> x[i] == Moved(Moved(q[i], k, bs[i]), l, b[i])
    ensures Dot(b, x) == Moved(Moved(Dot(b, q), k, Dot(b, bs)), l, 1.0)
  {
    hide Dot, Moved;
    ThreeTerms(x, q, k, bs, l, b, b);
    DotSymmetric(b, x);
    DotSymmetric(b, q);
    DotSymmetric(b, bs);
  }

  lemma AlongDirection(h: real, n: real, alpha: real, kappa: real, w: real, xs: real, qs: real)
    requires h * (1.0 + n) == 1.0 && kappa == h * (1.0 - n)
    requires xs == Moved(Moved(qs, Damp(alpha, n), w), Back(kappa, qs, xs, alpha, n, w), 1.0)
    ensures xs == InnerX(qs, alpha, n, w)
  {
    var e, t := xs - qs, alpha * w;
    assert e == -2.0 * t - kappa * e by { assert (alpha * (2.0 + n)) * w == 2.0 * t + alpha * (n * w); }
    assert kappa == 2.0 * h - 1.0;
    assert kappa * e == 2.0 * (h * e) - e;
    assert (h * e) * (1.0 + n) == (h * (1.0 + n)) * e;
    assert h * e == -t;
  }

  lemma FromEquation(x: real, kappa: real, b: real, xs: real, alpha: real, n: real, s: real, w: real, q: real, qs: real,
                     bs: real)
    requires LeftV(x, kappa, b, xs, alpha, n, s, w) == RightV(q, kappa, b, qs) && bs == b * s
    ensures x == Moved(Moved(q, Damp(alpha, n), bs), Back(kappa, qs, xs, alpha, n, w), b)
  {
  }

  lemma StepAsCombination(q: real, alpha: real, n: real, b: real, s: real, w: real, bs: real)
    requires bs == b * s
    ensures StepV(q, alpha, n, b, s, w) == Moved(Moved(q, Damp(alpha, n), bs), Times(alpha, w), b)
  {
  }

  lemma EquationIffStep(x: real, kappa: real, b: real, xs: real, alpha: real, n: real, s: real, w: real, q: real,
                        qs: real)
    requires kappa * (1.0 + n) == 1.0 - n && xs == InnerX(qs, alpha, n, w)
    ensures LeftV(x, kappa, b, xs, alpha, n, s, w) == RightV(q, kappa, b, qs) <==> x == StepV(q, alpha, n, b, s, w)
  {
    var t := (alpha * w) * b;
    assert kappa * (b * xs) == kappa * (b * qs) - (1.0 - n) * t by {
      assert b * xs == b * qs - (1.0 + n) * t;
      assert kappa * ((1.0 + n) * t) == (kappa * (1.0 + n)) * t;
    }
    assert alpha * (n * (b * w)) == n * t;
  }

  predicate EquationsOfV(x: Vec, q: Vec, s: Vec, b: Vec, alpha: real, n: real, kappa: real)
    requires |x| == |q| == |s| == |b|
  {
    var xs, qs, w := Dot(b, x), Dot(b, q), Dot(Prod(b, b), s);
    forall i :: 0 <= i < |x| ==> LeftV(x[i], kappa, b[i], xs, alpha, n, s[i], w) == RightV(q[i], kappa, b[i], qs)
  }

  predicate StepsOfV(x: Vec, q: Vec, s: Vec, b: Vec, alpha: real, n: real)
    requires |x| == |q| == |s| == |b|
  {
    forall i :: 0 <= i < |x| ==> x[i] == StepV(q[i], alpha, n, b[i], s[i], Dot(Prod(b, b), s))
  }

  lemma DirectionProduct(b: Vec, s: Vec)
    requires |b| == |s|
    ensures Dot(b, Prod(b, s)) == Dot(Prod(b, b), s)
  {
    hide DotTo;
    DotCong(b, Prod(b, b), Prod(b, s), s, |b|);
  }

  lemma EquationInner(x: Vec, q: Vec, s: Vec, b: Vec, alpha: real, n: real, kappa: real)
    requires |x| == |q| == |s| == |b| && Dot(b, b) == 1.0 && EquationsOfV(x, q, s, b, alpha, n, kappa)
    ensures var xs, qs, w := Dot(b, x), Dot(b, q), Dot(Prod(b, b), s);
            xs == Moved(Moved(qs, Damp(alpha, n), w), Back(kappa, qs, xs, alpha, n, w), 1.0)
  {
    DirectionProduct(b, s);
    hide Dot, LeftV, RightV, Moved, Damp, Back;
    var xs, qs, w, bs := Dot(b, x), Dot(b, q), Dot(Prod(b, b), s), Prod(b, s);
    var k, l := Damp(alpha, n), Back(kappa, qs, xs, alpha, n, w);
    forall i | 0 <= i < |x| ensures x[i] == Moved(Moved(q[i], k, bs[i]), l, b[i]) {
      FromEquation(x[i], kappa, b[i], xs, alpha, n, s[i], w, q[i], qs, bs[i]);
    }
    StepInner(x, q, bs, b, k, l);
  }

  lemma StepTerms(x: Vec, q: Vec, s: Vec, b: Vec, alpha: real, n: real, w: real)
    requires |x| == |q| == |s| == |b| && StepsOfV(x, q, s, b, alpha, n) && w == Dot(Prod(b, b), s)
    ensures forall i :: 0 <= i < |x| ==>
              x[i] == Moved(Moved(q[i], Damp(alpha, n), Prod(b, s)[i]), Times(alpha, w), b[i])
  {
    hide Dot, StepV, Moved, Damp, Times;
    var bs := Prod(b, s);
    forall i | 0 <= i < |x| ensures x[i] == Moved(Moved(q[i], Damp(alpha, n), bs[i]), Times(alpha, w), b[i]) {
      StepAsCombination(q[i], alpha, n, b[i], s[i], w, bs[i]);
    }
  }

  lemma StepInnerOfV(x: Vec, q: Vec, s: Vec, b: Vec, alpha: real, n: real)
    requires |x| == |q| == |s| == |b| && Dot(b, b) == 1.0 && StepsOfV(x, q, s, b, alpha, n)
    ensures Dot(b, x) == InnerX(Dot(b, q), alpha, n, Dot(Prod(b, b), s))
  {
    var w := Dot(Prod(b, b), s);
    DirectionProduct(b, s);
    StepTerms(x, q, s, b, alpha, n, w);
    hide Dot, Moved, Damp, Times, StepsOfV, Prod, InnerX;
    StepInner(x, q, Prod(b, s), b, Damp(alpha, n), Times(alpha, w));
    InnerXSum(Dot(b, q), alpha, n, w);
  }

  lemma InnerXSum(qs: real, alpha: real, n: real, w: real)
    ensures Moved(Moved(qs, Damp(alpha, n), w), Times(alpha, w), 1.0) == InnerX(qs, alpha, n, w)
  {
    assert (alpha * (2.0 + n)) * w == alpha * w + alpha * ((1.0 + n) * w);
  }

  lemma KappaScaled(h: real, n: real, kappa: real)
    requires h * (1.0 + n) == 1.0 && kappa == h * (1.0 - n)
    ensures kappa * (1.0 + n) == 1.0 - n
  {
    assert kappa * (1.0 + n) == (h * (1.0 + n)) * (1.0 - n);
  }

  /** The equation of v, solved: with s given, x is determined component by component. */
  lemma SolvedForV(x: Vec, q: Vec, s: Vec, b: Vec, h: real, n: real, alpha: real, kappa: real)
    requires |x| == |q| == |s| == |b| && Dot(b, b) == 1.0 && h * (1.0 + n) == 1.0 && kappa == h * (1.0 - n)
    ensures EquationsOfV(x, q, s, b, alpha, n, kappa) <==> StepsOfV(x, q, s, b, alpha, n)
  {
    var xs, qs, w := Dot(b, x), Dot(b, q), Dot(Prod(b, b), s);
    KappaScaled(h, n, kappa);
    hide Dot, LeftV, RightV, StepV, InnerX, Moved, Damp, Back;
    if EquationsOfV(x, q, s, b, alpha, n, kappa) {
      EquationInner(x, q, s, b, alpha, n, kappa);
      AlongDirection(h, n, alpha, kappa, w, xs, qs);
    } else if StepsOfV(x, q, s, b, alpha, n) {
      StepInnerOfV(x, q, s, b, alpha, n);
    }
    if xs == InnerX(qs, alpha, n, w) {
      forall i | 0 <= i < |x|
        ensures LeftV(x[i], kappa, b[i], xs, alpha, n, s[i], w) == RightV(q[i], kappa, b[i], qs)
            <==> x[i] == StepV(q[i], alpha, n, b[i], s[i], w)
      {
        EquationIffStep(x[i], kappa, b[i], xs, alpha, n, s[i], w, q[i], qs);
      }
    }
  }

  // ----- the equation of D

  function Lin(n: real, x: real, y: real): real {
    (2.0 + n) * x - n * y
  }

  function Cross(alpha: real, h: real, e: real): real {
    (alpha * h) * e
  }

  /** The left side of the equation of D in the coordinates x = |v| dv. */
  function LeftD(bx: real, wx: real, s: real, ws: real, ww: real, alpha: real, h: real, n: real): real {
    Cross(alpha, h, Lin(n, bx, wx)) + 2.0 * s + (h * (n * n)) * (ws - ww)
  }

  lemma ExpandD(h: real, n: real, r: real, b: real, a: real, dv: real, s: real, xs: real, w: real, alpha: real,
                left: real, x: real, u: real, bx: real, ux: real, us: real, uw: real)
    requires h * (1.0 + n) == 1.0 && r * r == n && a == r * b && x == r * dv && u == b * b
    requires bx == b * x && ux == u * xs && us == u * s && uw == u * w
    requires left == Moved(Blend(CoeffDD(h, a), s, CoeffSquare(h, a), n * w), alpha,
                           Blend(CoeffD(h, a), dv, CoeffSquare(h, a), xs))
    ensures left == LeftD(bx, ux, s, us, uw, alpha, h, n)
  {
    hide Lin, Cross, CoeffD, CoeffDD, CoeffSquare, Blend, LeftD, Moved;
    SquaredPart(a, r, b, n);
    CrossTermD(h, n, r, b, a, dv, x, u, xs, bx, ux);
    SquareTerm(h, n, a, u, s, w, us, uw);
    SumD(alpha, h, n, bx, ux, s, us, uw, Blend(CoeffD(h, a), dv, CoeffSquare(h, a), xs),
         Blend(CoeffDD(h, a), s, CoeffSquare(h, a), n * w));
  }

  lemma SumD(alpha: real, h: real, n: real, bx: real, ux: real, s: real, us: real, uw: real, f: real, g: real)
    requires f == h * Lin(n, bx, ux) && g == 2.0 * s + (h * (n * n)) * (us - uw)
    ensures Moved(g, alpha, f) == LeftD(bx, ux, s, us, uw, alpha, h, n)
  {
    hide Lin, Cross;
    ScaledSum(alpha, h, Lin(n, bx, ux), f);
  }

  lemma ScaledSum(alpha: real, h: real, e: real, f: real)
    requires f == h * e
    ensures alpha * f == Cross(alpha, h, e)
  {
  }

  lemma CrossTermD(h: real, n: real, r: real, b: real, a: real, dv: real, x: real, u: real, xs: real,
                   bx: real, ux: real)
    requires h * (1.0 + n) == 1.0 && a * a == n * u && a == r * b && x == r * dv && bx == b * x && ux == u * xs
    ensures Blend(CoeffD(h, a), dv, CoeffSquare(h, a), xs) == h * Lin(n, bx, ux)
  {
    assert a * dv == bx;
    StretchedTerm(h, n, a, dv, bx);
    SquareFactor(h, n, a, u, xs, ux);
    hide CoeffD, CoeffSquare, Lin;
    LinScaled(h, n, bx, ux);
  }

  lemma SquareFactor(h: real, n: real, a: real, u: real, xs: real, ux: real)
    requires a * a == n * u && ux == u * xs
    ensures CoeffSquare(h, a) * xs == -(h * (n * ux))
  {
    assert (h * (n * u)) * xs == h * (n * ux);
  }

  lemma StretchedTerm(h: real, n: real, a: real, dv: real, bx: real)
    requires h * (1.0 + n) == 1.0 && a * dv == bx
    ensures CoeffD(h, a) * dv == h * ((2.0 + n) * bx)
  {
    assert 1.0 + h == h * (2.0 + n);
    assert CoeffD(h, a) * dv == (1.0 + h) * (a * dv);
  }

  lemma LinScaled(h: real, n: real, x: real, y: real)
    ensures h * Lin(n, x, y) == h * ((2.0 + n) * x) - h * (n * y)
  {
  }

  lemma SquareTerm(h: real, n: real, a: real, u: real, s: real, w: real, us: real, uw: real)
    requires h * (1.0 + n) == 1.0 && a * a == n * u && us == u * s && uw == u * w
    ensures Blend(CoeffDD(h, a), s, CoeffSquare(h, a), n * w) == 2.0 * s + (h * (n * n)) * (us - uw)
  {
    assert n == h * n + h * (n * n) by { assert (h * (1.0 + n)) * n == h * n + h * (n * n); }
    assert h * (a * a) == (h * n) * u;
    assert CoeffDD(h, a) == 2.0 + (h * (n * n)) * u;
    assert ((h * n) * u) * (n * w) == (h * (n * n)) * (u * w);
  }

  /** The products of x with the direction, when x is the step of v. */
  predicate Inserted(n: real, alpha: real, bq: real, wq: real, ws: real, ww: real, bx: real, wx: real) {
    bx == bq - alpha * ((2.0 + n) * ws - ww) && wx == wq - alpha * ((1.0 + n) * ww)
  }

  /** The slope and the coefficient b of the dense system. */
  predicate SystemCoefficients(n: real, alpha: real, c: real, beta: real) {
    c * (1.0 + n) == ScaledSquare(alpha, n) - n * n && beta == c - 2.0 * (alpha * alpha)
  }

  function SquareP(h: real, n: real, alpha: real): real {
    h * ((alpha * alpha) * ((2.0 + n) * (2.0 + n)))
  }

  function SquareQ(h: real, n: real, alpha: real): real {
    h * ((alpha * alpha) * (2.0 + 2.0 * n + n * n))
  }

  /** With the step of v inserted, the equation of D becomes a row of the dense system. */
  lemma ReducedD(h: real, n: real, alpha: real, bq: real, wq: real, s: real, ws: real, ww: real, bx: real, wx: real,
                 c: real, beta: real)
    requires h * (1.0 + n) == 1.0 && SystemCoefficients(n, alpha, c, beta)
    requires Inserted(n, alpha, bq, wq, ws, ww, bx, wx)
    ensures LeftD(bx, wx, s, ws, ww, alpha, h, n)
         == (2.0 * s - c * ws + beta * ww) + Cross(alpha, h, Lin(n, bq, wq))
  {
    hide Lin, Cross, Inserted, SystemCoefficients, SquareP, SquareQ;
    CrossElimination(h, n, alpha, bq, wq, ws, ww, bx, wx);
    ScaledCoefficients(h, n, alpha, c, beta, h * (n * n));
    FinishD(Cross(alpha, h, Lin(n, bx, wx)), Cross(alpha, h, Lin(n, bq, wq)), SquareP(h, n, alpha),
            SquareQ(h, n, alpha), h * (n * n), c, beta, s, ws, ww, LeftD(bx, wx, s, ws, ww, alpha, h, n));
  }

  lemma FinishD(t: real, t0: real, p: real, q: real, m: real, c: real, beta: real, s: real, ws: real, ww: real,
                left: real)
    requires left == t + 2.0 * s + m * (ws - ww) && t == t0 - p * ws + q * ww && p == c + m && q == beta + m
    ensures left == (2.0 * s - c * ws + beta * ww) + t0
  {
  }

  lemma CrossElimination(h: real, n: real, alpha: real, bq: real, wq: real, ws: real, ww: real, bx: real, wx: real)
    requires Inserted(n, alpha, bq, wq, ws, ww, bx, wx)
    ensures Cross(alpha, h, Lin(n, bx, wx))
         == Cross(alpha, h, Lin(n, bq, wq)) - SquareP(h, n, alpha) * ws + SquareQ(h, n, alpha) * ww
  {
    hide Lin, Cross, Inserted, SquareP, SquareQ;
    var k, l := (2.0 + n) * (2.0 + n), 2.0 + 2.0 * n + n * n;
    EliminatedV(n, alpha, bq, wq, ws, ww, bx, wx, k, l);
    ScaledElimination(n, alpha, h, k, l, ws, ww, Lin(n, bx, wx), Lin(n, bq, wq));
  }

  lemma EliminatedV(n: real, alpha: real, bq: real, wq: real, ws: real, ww: real, bx: real, wx: real, k: real, l: real)
    requires Inserted(n, alpha, bq, wq, ws, ww, bx, wx)
    requires k == (2.0 + n) * (2.0 + n) && l == 2.0 + 2.0 * n + n * n
    ensures Lin(n, bx, wx) == Lin(n, bq, wq) - alpha * (k * ws) + alpha * (l * ww)
  {
    assert (2.0 + n) * (alpha * ((2.0 + n) * ws - ww)) == alpha * (k * ws) - alpha * ((2.0 + n) * ww);
    assert n * (alpha * ((1.0 + n) * ww)) == alpha * ((n + n * n) * ww);
  }

  lemma ScaledElimination(n: real, alpha: real, h: real, k: real, l: real, ws: real, ww: real, e: real, e0: real)
    requires e == e0 - alpha * (k * ws) + alpha * (l * ww)
    requires k == (2.0 + n) * (2.0 + n) && l == 2.0 + 2.0 * n + n * n
    ensures Cross(alpha, h, e) == Cross(alpha, h, e0) - SquareP(h, n, alpha) * ws + SquareQ(h, n, alpha) * ww
  {
    assert (alpha * h) * (alpha * (k * ws)) == (h * ((alpha * alpha) * k)) * ws;
    assert (alpha * h) * (alpha * (l * ww)) == (h * ((alpha * alpha) * l)) * ww;
  }

  lemma ScaledCoefficients(h: real, n: real, alpha: real, c: real, beta: real, m: real)
    requires h * (1.0 + n) == 1.0 && SystemCoefficients(n, alpha, c, beta) && m == h * (n * n)
    ensures SquareP(h, n, alpha) == c + m && SquareQ(h, n, alpha) == beta + m
  {
    var a2 := alpha * alpha;
    assert h * (c * (1.0 + n)) == (h * (1.0 + n)) * c;
    assert h * (a2 * (2.0 * (1.0 + n))) == (h * (1.0 + n)) * (2.0 * a2);
    assert a2 * (2.0 + 2.0 * n + n * n) == a2 * ((2.0 + n) * (2.0 + n)) - a2 * (2.0 * (1.0 + n));
  }

  // ----- the rows of the system

  /** What row i of the equations knows of the coefficients: h is 1 / (1 + n), v_i is r times b and u is b^2. */
  predicate Scalars(h: real, n: real, r: real, a: real, b: real, u: real) {
    h * (1.0 + n) == 1.0 && h > 0.0 && r > 0.0 && n > 0.0 && r * r == n && a == r * b && u == b * b
  }

  lemma NormalAt(v: Vec, c: Coefficients, r: real, i: nat)
    requires Normal(v, c, r) && i < |v|
    ensures |c.vbar| == |c.vbarbar| == |c.diagonal| == |v| && Dot(c.vbar, c.vbar) == 1.0 && c.normv == Dot(v, v)
    ensures Scalars(Shrink(v), c.normv, r, v[i], c.vbar[i], c.vbarbar[i])
    ensures c.diagonal[i] == Moved(2.0, -Slope(c.alpha, c.normv), c.vbarbar[i])
    ensures SystemCoefficients(c.normv, c.alpha, Slope(c.alpha, c.normv), c.b)
  {
    hide Dot, Slope, Beta, ScaledSquare, Shrink;
    SlopeScaled(c.alpha, c.normv);
    BetaOfSlope(c.alpha, c.normv);
  }

  /** The inner products with v and with its squares, in terms of the direction. */
  lemma InnersOfV(v: Vec, c: Coefficients, r: real, z: Vec)
    requires Normal(v, c, r) && |z| == |v|
    ensures |c.vbar| == |c.vbarbar| == |v|
    ensures Dot(v, z) == Times(r, Dot(c.vbar, z))
    ensures Dot(v, z) == Dot(c.vbar, Scale(r, z))
    ensures Dot(Prod(v, v), z) == Times(c.normv, Dot(c.vbarbar, z))
  {
    hide DotTo, Beta, Diagonal, Slope;
    var b := c.vbar;
    DotScaled(r, b, v, z);
    SwappedScale(v, b, r, z);
    SquaredParts(v, c, r);
    hide Prod;
    DotScaled(c.normv, c.vbarbar, Prod(v, v), z);
  }

  lemma SwappedScale(v: Vec, b: Vec, r: real, z: Vec)
    requires |v| == |b| == |z| && forall i :: 0 <= i < |v| ==> v[i] == r * b[i]
    ensures Dot(v, z) == Dot(b, Scale(r, z))
  {
    hide DotTo;
    DotCong(v, b, z, Scale(r, z), |v|);
  }

  lemma SquaredParts(v: Vec, c: Coefficients, r: real)
    requires Normal(v, c, r)
    ensures |c.vbarbar| == |v| && forall i :: 0 <= i < |v| ==> Prod(v, v)[i] == c.normv * c.vbarbar[i]
  {
    hide Dot, Slope, Beta;
    forall i | 0 <= i < |v| ensures Prod(v, v)[i] == c.normv * c.vbarbar[i] {
      SquaredPart(v[i], r, c.vbar[i], c.normv);
    }
  }

  lemma SquaredPart(a: real, r: real, b: real, n: real)
    requires a == r * b && r * r == n
    ensures a * a == n * (b * b)
  {
    assert a * a == (r * r) * (b * b);
  }

  lemma ScaleAt(r: real, z: Vec, i: nat)
    requires i < |z|
    ensures Scale(r, z)[i] == Times(r, z[i])
  {
  }

  /** Row i of the first block is the equation of v. */
  lemma EquationV(v: Vec, c: Coefficients, r: real, dv: Vec, s: Vec, q: Vec, gv: Vec, i: nat, x: Vec, kappa: real)
    requires Normal(v, c, r) && |dv| == |s| == |q| == |gv| == |v| && i < |v|
    requires Apply(FisherVV(v), q) == Scale(r, gv) && x == Scale(r, dv) && kappa == Shrink(v) * (1.0 - c.normv)
    ensures |c.vbar| == |c.vbarbar| == |v|
    ensures Moved(Apply(FisherVV(v), dv)[i], c.alpha, Apply(FisherVD(v), s)[i]) == gv[i] <==>
            LeftV(x[i], kappa, c.vbar[i], Dot(c.vbar, x), c.alpha, c.normv, s[i], Dot(c.vbarbar, s))
              == RightV(q[i], kappa, c.vbar[i], Dot(c.vbar, q))
  {
    hide Normal, Apply, Dot, FisherVV, FisherVD, Scale, Prod, CoeffVV, CoeffD, CoeffN, CoeffShrunk, LeftV, RightV,
      Blend, Slope, SystemCoefficients, Times, Scalars, Moved, Shrink;
    NormalAt(v, c, r, i);
    ScaleAt(r, gv, i);
    ScaleAt(r, dv, i);
    InnersOfV(v, c, r, dv);
    InnersOfV(v, c, r, q);
    InnersOfV(v, c, r, s);
    RowVV(v, dv, i, Shrink(v), c.normv);
    RowVV(v, q, i, Shrink(v), c.normv);
    RowVD(v, s, i, Shrink(v));
    RowOfV(Shrink(v), c.normv, r, c.vbar[i], v[i], dv[i], s[i], Dot(c.vbar, x), Dot(c.vbarbar, s), c.alpha,
           Apply(FisherVV(v), dv)[i], Apply(FisherVD(v), s)[i], gv[i], q[i], Dot(c.vbar, q), x[i], kappa, c.vbarbar[i]);
  }

  lemma RowOfV(h: real, n: real, r: real, b: real, a: real, dv: real, s: real, xs: real, w: real, alpha: real,
               vv: real, vd: real, g: real, q: real, qs: real, x: real, kappa: real, u: real)
    requires Scalars(h, n, r, a, b, u) && x == Times(r, dv) && kappa == h * (1.0 - n)
    requires vv == Blend(CoeffN(h, n), dv, CoeffVV(h, n, a), xs)
    requires vd == Blend(CoeffD(h, a), s, CoeffShrunk(h, a), Times(n, w))
    requires Times(r, g) == Blend(CoeffN(h, n), q, CoeffVV(h, n, a), Times(r, qs))
    ensures Moved(vv, alpha, vd) == g <==> LeftV(x, kappa, b, xs, alpha, n, s, w) == RightV(q, kappa, b, qs)
  {
    hide Blend, CoeffVV, CoeffD, LeftV, RightV, Moved;
    var m := h * n;
    ProductSign(h, n, m);
    assert a * r == n * b by { assert (r * b) * r == (r * r) * b; }
    ScaledLeft(h, n, r, b, a, dv, s, xs, w, alpha, Moved(vv, alpha, vd), m, kappa, x);
    ScaledRight(h, n, r, b, a, q, qs, Times(r, g));
    Proportional(Moved(vv, alpha, vd), g, r, m, LeftV(x, kappa, b, xs, alpha, n, s, w), RightV(q, kappa, b, qs));
  }

  /** Row i of the second block, once v's step is inserted, is row i of the dense system. */
  lemma EquationD(v: Vec, c: Coefficients, r: real, dv: Vec, s: Vec, q: Vec, i: nat, x: Vec)
    requires Normal(v, c, r) && |dv| == |s| == |q| == |v| && i < |v| && x == Scale(r, dv)
    requires |c.vbar| == |v| && StepsOfV(x, q, s, c.vbar, c.alpha, c.normv)
    ensures |c.vbarbar| == |c.diagonal| == |v|
    ensures Moved(Apply(FisherDD(v), s)[i], c.alpha, Apply(FisherDV(v), dv)[i])
         == SystemValue(c.diagonal[i], s[i], c.b, c.vbarbar[i], Dot(c.vbarbar, s))
            + Cross(c.alpha, Shrink(v), Lin(c.normv, Times(c.vbar[i], q[i]), Times(c.vbarbar[i], Dot(c.vbar, q))))
  {
    SameSquares(v, c, r);
    hide Normal, Apply, Dot, FisherDV, FisherDD, Scale, Prod, CoeffDD, CoeffD, CoeffSquare, StepV, Blend, Slope,
      SystemCoefficients, Cross, Lin, Times, Scalars, Moved, Shrink, SystemValue, InnerX;
    NormalAt(v, c, r, i);
    ScaleAt(r, dv, i);
    InnersOfV(v, c, r, dv);
    InnersOfV(v, c, r, s);
    StepInnerOfV(x, q, s, c.vbar, c.alpha, c.normv);
    RowDV(v, dv, i, Shrink(v));
    RowDD(v, s, i, Shrink(v));
    RowOfD(Shrink(v), c.normv, r, c.vbar[i], v[i], dv[i], s[i], Dot(c.vbar, x), Dot(c.vbarbar, s), c.alpha,
           Apply(FisherDV(v), dv)[i], Apply(FisherDD(v), s)[i], q[i], Dot(c.vbar, q), c.vbarbar[i],
           Slope(c.alpha, c.normv), c.b, x[i], c.diagonal[i]);
  }

  /** Row i of the dense system applied to s, where w is the inner product of s with the squares. */
  function SystemValue(d: real, s: real, beta: real, u: real, w: real): real {
    d * s + beta * u * w
  }

  lemma SameSquares(v: Vec, c: Coefficients, r: real)
    requires Normal(v, c, r)
    ensures |c.vbar| == |v| && c.vbarbar == Prod(c.vbar, c.vbar)
  {
  }

  lemma RowOfD(h: real, n: real, r: real, b: real, a: real, dv: real, s: real, xs: real, w: real, alpha: real,
               dd: real, ds: real, q: real, qs: real, u: real, c: real, beta: real, x: real, diagonal: real)
    requires Scalars(h, n, r, a, b, u) && SystemCoefficients(n, alpha, c, beta) && x == Times(r, dv)
    requires dd == Blend(CoeffD(h, a), dv, CoeffSquare(h, a), xs)
    requires ds == Blend(CoeffDD(h, a), s, CoeffSquare(h, a), Times(n, w)) && diagonal == Moved(2.0, -c, u)
    requires x == StepV(q, alpha, n, b, s, w) && xs == InnerX(qs, alpha, n, w)
    ensures Moved(ds, alpha, dd)
         == SystemValue(diagonal, s, beta, u, w) + Cross(alpha, h, Lin(n, Times(b, q), Times(u, qs)))
  {
    hide Blend, CoeffDD, CoeffD, CoeffSquare, StepV, LeftD, Inserted, SystemCoefficients, Cross, Lin, InnerX;
    var bx, ux, us, uw := b * x, u * xs, u * s, u * w;
    ExpandD(h, n, r, b, a, dv, s, xs, w, alpha, Moved(ds, alpha, dd), x, u, bx, ux, us, uw);
    InsertedStep(n, alpha, b, q, s, w, u, qs, x, xs, Times(b, q), Times(u, qs), us, uw, bx, ux);
    ReducedD(h, n, alpha, Times(b, q), Times(u, qs), s, us, uw, bx, ux, c, beta);
    SystemTerms(c, beta, u, s, w, us, uw);
  }

  lemma SystemTerms(c: real, beta: real, u: real, s: real, w: real, us: real, uw: real)
    requires us == u * s && uw == u * w
    ensures SystemValue(Moved(2.0, -c, u), s, beta, u, w) == 2.0 * s - c * us + beta * uw
  {
  }

  lemma InsertedStep(n: real, alpha: real, b: real, q: real, s: real, w: real, u: real, qs: real, x: real, xs: real,
                     bq: real, uq: real, us: real, uw: real, bx: real, ux: real)
    requires x == StepV(q, alpha, n, b, s, w) && xs == InnerX(qs, alpha, n, w) && u == b * b
    requires bq == b * q && uq == u * qs && us == u * s && uw == u * w && bx == b * x && ux == u * xs
    ensures Inserted(n, alpha, bq, uq, us, uw, bx, ux)
  {
    hide StepV, InnerX;
    InsertedProduct(n, alpha, b, q, s, w, u, x, bq, us, uw, bx);
    InsertedInner(n, alpha, w, u, qs, xs, uq, uw, ux);
  }

  lemma InsertedProduct(n: real, alpha: real, b: real, q: real, s: real, w: real, u: real, x: real,
                        bq: real, us: real, uw: real, bx: real)
    requires x == StepV(q, alpha, n, b, s, w) && u == b * b
    requires bq == b * q && us == u * s && uw == u * w && bx == b * x
    ensures bx == bq - alpha * ((2.0 + n) * us - uw)
  {
    assert b * (alpha * ((2.0 + n) * (b * s) - w * b)) == alpha * ((2.0 + n) * us - uw);
  }

  lemma InsertedInner(n: real, alpha: real, w: real, u: real, qs: real, xs: real, uq: real, uw: real, ux: real)
    requires xs == InnerX(qs, alpha, n, w) && uq == u * qs && uw == u * w && ux == u * xs
    ensures ux == uq - alpha * ((1.0 + n) * uw)
  {
    assert u * (alpha * ((1.0 + n) * w)) == alpha * ((1.0 + n) * uw);
  }

  // ----- the theorem

  lemma EqualComponents(x: Vec, y: Vec)
    requires |x| == |y|
    ensures x == y <==> forall i :: 0 <= i < |x| ==> x[i] == y[i]
  {
  }

  function FirstBlockOf(v: Vec, alpha: real, dv: Vec, s: Vec): (r: Vec)
    requires |v| == |dv| == |s|
    ensures |r| == |v|
  {
    Add(Apply(FisherVV(v), dv), Scale(alpha, Apply(FisherVD(v), s)))
  }

  lemma FirstBlockAt(v: Vec, alpha: real, dv: Vec, s: Vec, i: nat)
    requires |v| == |dv| == |s| && i < |v|
    ensures FirstBlockOf(v, alpha, dv, s)[i] == Moved(Apply(FisherVV(v), dv)[i], alpha, Apply(FisherVD(v), s)[i])
  {
  }

  /** The first block holds exactly when dv is the step of v. */
  lemma FirstBlock(v: Vec, c: Coefficients, r: real, dv: Vec, s: Vec, q: Vec, gv: Vec)
    requires Normal(v, c, r) && |dv| == |s| == |q| == |gv| == |v| && Apply(FisherVV(v), q) == Scale(r, gv)
    ensures |c.vbar| == |c.vbarbar| == |v|
    ensures FirstBlockOf(v, c.alpha, dv, s) == gv <==> StepsOfV(Scale(r, dv), q, s, c.vbar, c.alpha, c.normv)
  {
    SameSquares(v, c, r);
    UnitAndShrink(v, c, r);
    hide Normal, Apply, Dot, FisherVV, FisherVD, LeftV, RightV, Shrink, Prod, StepsOfV, FirstBlockOf, Scale, Moved;
    var kappa, x, left := Shrink(v) * (1.0 - c.normv), Scale(r, dv), FirstBlockOf(v, c.alpha, dv, s);
    SolvedForV(x, q, s, c.vbar, Shrink(v), c.normv, c.alpha, kappa);
    forall i | 0 <= i < |v|
      ensures left[i] == gv[i] <==>
              LeftV(x[i], kappa, c.vbar[i], Dot(c.vbar, x), c.alpha, c.normv, s[i], Dot(c.vbarbar, s))
                == RightV(q[i], kappa, c.vbar[i], Dot(c.vbar, q))
    {
      EquationV(v, c, r, dv, s, q, gv, i, x, kappa);
      FirstBlockAt(v, c.alpha, dv, s, i);
    }
    EqualComponents(left, gv);
  }

  lemma UnitAndShrink(v: Vec, c: Coefficients, r: real)
    requires Normal(v, c, r)
    ensures |c.vbar| == |v| && Dot(c.vbar, c.vbar) == 1.0 && Shrink(v) * (1.0 + c.normv) == 1.0 && r > 0.0
  {
    hide Dot, Shrink;
  }

  lemma StepComponents(c: Coefficients, r: real, dv: Vec, s: Vec, q: Vec)
    requires |c.vbar| == |c.vbarbar| == |q| == |s| == |dv| && r > 0.0 && c.vbarbar == Prod(c.vbar, c.vbar)
    ensures StepsOfV(Scale(r, dv), q, s, c.vbar, c.alpha, c.normv) <==> dv == VStep(c, q, s, r)
  {
    DotSymmetric(s, c.vbarbar);
    hide Dot, Prod;
    forall i | 0 <= i < |dv|
      ensures Scale(r, dv)[i] == StepV(q[i], c.alpha, c.normv, c.vbar[i], s[i], Dot(c.vbarbar, s))
              <==> dv[i] == VStep(c, q, s, r)[i]
    {
      hide VStep, StepV;
      VStepAt(c, r, s, q, i);
      QuotientIff(dv[i], StepV(q[i], c.alpha, c.normv, c.vbar[i], s[i], Dot(c.vbarbar, s)), r);
    }
  }

  lemma VStepAt(c: Coefficients, r: real, s: Vec, q: Vec, i: nat)
    requires |c.vbar| == |c.vbarbar| == |q| == |s| && r > 0.0 && i < |q|
    ensures VStep(c, q, s, r)[i] == StepV(q[i], c.alpha, c.normv, c.vbar[i], s[i], Dot(s, c.vbarbar)) / r
  {
    hide Dot;
  }

  /** Along v the step is the gradient's coordinate minus the damped coupling to D. */
  lemma StepAlongDirection(c: Coefficients, r: real, q: Vec, s: Vec)
    requires |c.vbar| == |q| == |s| && c.vbarbar == Prod(c.vbar, c.vbar) && Dot(c.vbar, c.vbar) == 1.0 && r > 0.0
    ensures r * Dot(c.vbar, VStep(c, q, s, r))
         == InnerX(Dot(c.vbar, q), c.alpha, c.normv, Dot(c.vbarbar, s))
  {
    hide Dot, VStep, StepsOfV, Prod, InnerX;
    var dv := VStep(c, q, s, r);
    StepComponents(c, r, dv, s, q);
    StepInnerOfV(Scale(r, dv), q, s, c.vbar, c.alpha, c.normv);
    DotScaled(r, dv, Scale(r, dv), c.vbar);
    DotSymmetric(dv, c.vbar);
  }

  lemma QuotientIff(x: real, t: real, r: real)
    requires r > 0.0
    ensures r * x == t <==> x == t / r
  {
    assert (t / r) * r == t;
    ProductSign(x - t / r, r, (x - t / r) * r);
    ProductSign(t / r - x, r, (t / r - x) * r);
  }

  lemma SecondBlockAt(v: Vec, c: Coefficients, r: real, dv: Vec, s: Vec, p: Vec, q: Vec, i: nat)
    requires Normal(v, c, r) && |dv| == |s| == |p| == |q| == |v| == |c.vbar| == |c.diagonal| == |c.vbarbar| && i < |v|
    requires StepsOfV(Scale(r, dv), q, s, c.vbar, c.alpha, c.normv)
    ensures Add(Scale(c.alpha, Apply(FisherDV(v), dv)), Apply(FisherDD(v), s))[i] == p[i]
            <==> Apply(System(c.diagonal, c.b, c.vbarbar), s)[i] == RightHandSide(c, p, q)[i]
  {
    hide Normal, Dot, FisherDV, FisherDD, Shrink, Prod, StepsOfV, System, Cross, Lin, Times, SystemValue, RightHandSide;
    EquationD(v, c, r, dv, s, q, i, Scale(r, dv));
    SystemValueAt(c.diagonal, c.b, c.vbarbar, s, i);
    RightHandAt(v, c, r, p, q, i);
    var x, y := Apply(FisherDV(v), dv), Apply(FisherDD(v), s);
    assert Add(Scale(c.alpha, x), y)[i] == Moved(y[i], c.alpha, x[i]);
    hide Apply, Moved;
  }

  /** With the step of v, the second block holds exactly when s solves the dense system. */
  lemma SecondBlock(v: Vec, c: Coefficients, r: real, dv: Vec, s: Vec, p: Vec, q: Vec)
    requires Normal(v, c, r) && |dv| == |s| == |p| == |q| == |v|
    requires |c.vbar| == |v| && StepsOfV(Scale(r, dv), q, s, c.vbar, c.alpha, c.normv)
    ensures |c.vbarbar| == |c.diagonal| == |v|
    ensures Add(Scale(c.alpha, Apply(FisherDV(v), dv)), Apply(FisherDD(v), s)) == p
            <==> Apply(System(c.diagonal, c.b, c.vbarbar), s) == RightHandSide(c, p, q)
  {
    SystemShapes(v, c, r);
    hide Normal, Dot, FisherDV, FisherDD, Shrink, Prod, StepsOfV, System, Cross, Lin, Times, SystemValue, RightHandSide;
    var left, right := Add(Scale(c.alpha, Apply(FisherDV(v), dv)), Apply(FisherDD(v), s)), RightHandSide(c, p, q);
    var t := Apply(System(c.diagonal, c.b, c.vbarbar), s);
    forall i | 0 <= i < |v| ensures left[i] == p[i] <==> t[i] == right[i] {
      SecondBlockAt(v, c, r, dv, s, p, q, i);
    }
  }

  lemma SystemShapes(v: Vec, c: Coefficients, r: real)
    requires Normal(v, c, r)
    ensures |c.vbar| == |c.vbarbar| == |c.diagonal| == |v| && c.normv > 0.0
    ensures IsSquare(System(c.diagonal, c.b, c.vbarbar), |v|)
  {
  }

  lemma SystemValueAt(d: Vec, b: real, w: Vec, s: Vec, i: nat)
    requires |d| == |w| == |s| && i < |d|
    ensures IsSquare(System(d, b, w), |s|)
    ensures Apply(System(d, b, w), s)[i] == SystemValue(d[i], s[i], b, w[i], Dot(w, s))
  {
    hide Dot;
    SystemRow(d, b, w, s, i);
  }

  lemma RightHandAt(v: Vec, c: Coefficients, r: real, p: Vec, q: Vec, i: nat)
    requires Normal(v, c, r) && |c.vbar| == |c.vbarbar| == |p| == |q| == |v| && i < |v|
    ensures RightHandSide(c, p, q)[i]
         == p[i] - Cross(c.alpha, Shrink(v), Lin(c.normv, Times(c.vbar[i], q[i]), Times(c.vbarbar[i], Dot(c.vbar, q))))
  {
    UnitAndShrink(v, c, r);
    hide Dot, Shrink;
    assert c.normv > 0.0;
    RightHandAlgebra(c.alpha, c.normv, Shrink(v), c.vbar[i], q[i], c.vbarbar[i], Dot(c.vbar, q));
  }

  lemma RightHandAlgebra(alpha: real, n: real, h: real, b: real, q: real, u: real, qs: real)
    requires h * (1.0 + n) == 1.0 && n > 0.0
    ensures alpha / (1.0 + n) * ((2.0 + n) * (b * q) - (n * qs) * u)
         == Cross(alpha, h, Lin(n, Times(b, q), Times(u, qs)))
  {
    var k := alpha / (1.0 + n);
    assert k * (1.0 + n) == alpha;
    assert k == alpha * h by { assert alpha * h == k * (h * (1.0 + n)); }
    assert (n * qs) * u == n * (u * qs);
  }

  /** The computed step is the one and only solution of the damped Fisher system. */
  lemma FisherStepIff(v: Vec, c: Coefficients, r: real, dv: Vec, s: Vec, p: Vec, q: Vec, gv: Vec)
    requires Normal(v, c, r) && |dv| == |s| == |p| == |q| == |gv| == |v| && Apply(FisherVV(v), q) == Scale(r, gv)
    ensures |c.vbar| == |c.vbarbar| == |c.diagonal| == |v| && c.normv > 0.0 && r != 0.0
    ensures DampedSolution(v, c.alpha, dv, s, gv, p) <==>
            dv == VStep(c, q, s, r) && Apply(System(c.diagonal, c.b, c.vbarbar), s) == RightHandSide(c, p, q)
  {
    SystemShapes(v, c, r);
    SameSquares(v, c, r);
    UnitAndShrink(v, c, r);
    assert FirstBlockOf(v, c.alpha, dv, s) == Add(Apply(FisherVV(v), dv), Scale(c.alpha, Apply(FisherVD(v), s)));
    hide Normal, Apply, Dot, FisherVV, FisherVD, FisherDV, FisherDD, Add, Scale, Prod, StepsOfV, VStep, System,
      RightHandSide, Shrink, FirstBlockOf;
    FirstBlock(v, c, r, dv, s, q, gv);
    StepComponents(c, r, dv, s, q);
    if StepsOfV(Scale(r, dv), q, s, c.vbar, c.alpha, c.normv) { SecondBlock(v, c, r, dv, s, p, q); }
  }

  // ----- the scores

  /** The gradient components of one point are its scores: the one of D as it is, the one of v in the
      coordinates of the first block. */
  lemma ScoreOfD(v: Vec, c: Coefficients, r: real, y: Vec)
    requires Normal(v, c, r) && |y| == |v|
    ensures |c.vbar| == |v| && c.normv > 0.0 && PTerm(c, y) == ScoreD(v, y)
  {
    SystemShapes(v, c, r);
    InnersOfV(v, c, r, y);
    hide Normal, Dot, Precision, Shrink, Times, Triple, Scalars, Slope, SystemCoefficients, PTerm, ScoreD, PValue,
      ScoreValueD, Apply;
    var a, b := PTerm(c, y), ScoreD(v, y);
    forall i | 0 <= i < |v| ensures a[i] == b[i] {
      NormalAt(v, c, r, i);
      PTermAt(c, y, i);
      ScoreDAt(v, y, i);
      ScoreOfDAlgebra(Shrink(v), c.normv, r, v[i], c.vbar[i], c.vbarbar[i], y[i], Dot(c.vbar, y),
                      Triple(Shrink(v), v[i], Dot(v, y)), Dot(v, y));
    }
  }

  function PValue(n: real, t: real, b: real, y: real): real
    requires n > 0.0
  {
    y * y - n / (1.0 + n) * ((t * b) * y) - 1.0
  }

  function ScoreValueD(y: real, z: real): real {
    y * (y - z) - 1.0
  }

  function ScoreValueV(h: real, s: real, y: real, a: real): real {
    (h * s) * (y - Triple(h, a, s)) - h * a
  }

  lemma PTermAt(c: Coefficients, y: Vec, i: nat)
    requires |c.vbar| == |y| && c.normv > 0.0 && i < |y|
    ensures |PTerm(c, y)| == |y|
    ensures PTerm(c, y)[i] == PValue(c.normv, Dot(c.vbar, y), c.vbar[i], y[i])
  {
    hide Dot;
  }

  lemma ScoreDAt(v: Vec, y: Vec, i: nat)
    requires |v| == |y| && i < |v|
    ensures ScoreD(v, y)[i] == ScoreValueD(y[i], Triple(Shrink(v), v[i], Dot(v, y)))
  {
    PrecisionRow(v, y, i);
    hide Dot, Precision, Apply, Triple, Shrink;
  }

  lemma ScoreOfDAlgebra(h: real, n: real, r: real, a: real, b: real, u: real, y: real, t: real, z: real, vy: real)
    requires Scalars(h, n, r, a, b, u) && z == Triple(h, a, vy) && vy == Times(r, t)
    ensures n > 0.0 && PValue(n, t, b, y) == ScoreValueD(y, z)
  {
    var k := n / (1.0 + n);
    assert k * (1.0 + n) == n;
    assert k == h * n by { assert h * n == k * (h * (1.0 + n)); }
    assert z == h * ((r * r) * (b * t));
    assert z == k * (t * b);
  }

  lemma ScoreOfV(v: Vec, c: Coefficients, r: real, y: Vec)
    requires Normal(v, c, r) && |y| == |v|
    ensures |c.vbar| == |v| && c.normv > 0.0
    ensures |QTerm(c, y)| == |v| && Apply(FisherVV(v), QTerm(c, y)) == Scale(r, ScoreV(v, y))
  {
    SystemShapes(v, c, r);
    UnitAndShrink(v, c, r);
    QTermShape(c, y);
    var q, z := QTerm(c, y), ScoreV(v, y);
    QTermInner(c, y);
    InnersOfV(v, c, r, y);
    InnersOfV(v, c, r, q);
    hide Normal, Dot, Apply, FisherVV, Shrink, Times, Triple, Scalars, Slope, SystemCoefficients, QTerm, ScoreV, Scale,
      CoeffN, CoeffVV, Blend, HalfSum, ScoreValueV;
    forall i | 0 <= i < |v| ensures Apply(FisherVV(v), q)[i] == Scale(r, z)[i] {
      NormalAt(v, c, r, i);
      RowVV(v, q, i, Shrink(v), c.normv);
      ScoreVAt(v, y, i);
      QTermAt(c, y, i);
      ScaleAt(r, z, i);
      ScoreOfVAlgebra(Shrink(v), c.normv, r, v[i], c.vbar[i], c.vbarbar[i], y[i], Dot(c.vbar, y), Dot(v, y), q[i],
                      Dot(v, q), Dot(c.vbar, q), z[i]);
    }
  }

  function HalfSum(t: real, n: real): real {
    0.5 * (t * t + (1.0 + n))
  }

  lemma QTermShape(c: Coefficients, y: Vec)
    requires |c.vbar| == |y| && c.normv > 0.0
    ensures |QTerm(c, y)| == |y|
  {
  }

  lemma QTermAt(c: Coefficients, y: Vec, i: nat)
    requires |c.vbar| == |y| && c.normv > 0.0 && i < |y|
    ensures |QTerm(c, y)| == |y|
    ensures QTerm(c, y)[i] == Blend(Dot(c.vbar, y), y[i], -HalfSum(Dot(c.vbar, y), c.normv), c.vbar[i])
  {
    hide Dot;
  }

  lemma QTermInner(c: Coefficients, y: Vec)
    requires |c.vbar| == |y| && c.normv > 0.0 && Dot(c.vbar, c.vbar) == 1.0
    ensures |QTerm(c, y)| == |y|
    ensures Dot(c.vbar, QTerm(c, y)) == Blend(Dot(c.vbar, y), Dot(c.vbar, y), -HalfSum(Dot(c.vbar, y), c.normv), 1.0)
  {
    QTermShape(c, y);
    var q, t := QTerm(c, y), Dot(c.vbar, y);
    hide DotTo, Blend, HalfSum;
    forall i | 0 <= i < |y| ensures q[i] == Blend(t, y[i], -HalfSum(t, c.normv), c.vbar[i]) { QTermAt(c, y, i); }
    hide QTerm;
    DotLinear(t, y, -HalfSum(t, c.normv), c.vbar, q, c.vbar, |y|);
  }

  /** Component i of the score of v. */
  lemma ScoreVAt(v: Vec, y: Vec, i: nat)
    requires |v| == |y| && i < |v|
    ensures ScoreV(v, y)[i] == ScoreValueV(Shrink(v), Dot(v, y), y[i], v[i])
  {
    hide Dot, Shrink, Precision, Triple;
    PrecisionRow(v, y, i);
    PrecisionOfV(v);
    PrecisionInner(v, y);
  }

  lemma ScoreOfVAlgebra(h: real, n: real, r: real, a: real, b: real, u: real, y: real, t: real, vy: real, q: real,
                        vq: real, bq: real, z: real)
    requires Scalars(h, n, r, a, b, u) && vy == Times(r, t) && vq == Times(r, bq)
    requires q == Blend(t, y, -HalfSum(t, n), b) && bq == Blend(t, t, -HalfSum(t, n), 1.0)
    requires z == ScoreValueV(h, vy, y, a)
    ensures Blend(CoeffN(h, n), q, CoeffVV(h, n, a), vq) == Times(r, z)
  {
    var m, k, w := h * n, HalfSum(t, n), t * t;
    assert a * r == n * b by { assert (r * b) * r == (r * r) * b; }
    assert q == t * y - k * b && bq == w - k && k == 0.5 * (w + (1.0 + n));
    hide Blend, CoeffN, CoeffVV, Triple, HalfSum, ScoreValueV;
    var left := MiddleScore(h, n, b, y, t, m, k, w, bq);
    LeftScore(h, n, r, a, b, y, t, q, vq, bq, m, k, left);
    RightScore(h, n, r, a, b, y, t, vy, z, m, left);
  }

  lemma LeftScore(h: real, n: real, r: real, a: real, b: real, y: real, t: real, q: real, vq: real, bq: real, m: real,
                  k: real, left: real)
    requires a * r == n * b && m == h * n && q == t * y - k * b && vq == r * bq
    requires left == t * y - k * b + (h * (1.0 - n)) * (b * bq)
    ensures Blend(CoeffN(h, n), q, CoeffVV(h, n, a), vq) == m * left
  {
    assert CoeffVV(h, n, a) * vq == ((h * h) * ((1.0 - n) * bq)) * (a * r);
    assert m * ((h * (1.0 - n)) * (b * bq)) == ((h * h) * ((1.0 - n) * bq)) * (n * b);
  }

  lemma RightScore(h: real, n: real, r: real, a: real, b: real, y: real, t: real, vy: real, z: real, m: real,
                   left: real)
    requires a * r == n * b && r * r == n && m == h * n && vy == r * t && left == t * y - m * (b * (t * t)) - b
    requires z == ScoreValueV(h, vy, y, a)
    ensures Times(r, z) == m * left
  {
    var f, p, ha := Triple(h, a, vy), h * vy, h * a;
    ShrunkProducts(h, n, r, a, b, t, vy, m, f, p, ha);
    hide Triple;
    InnerScore(t, y, m, b, f, left);
    RightParts(r, p, y - f, ha, m, t, b, z, left);
  }

  lemma ShrunkProducts(h: real, n: real, r: real, a: real, b: real, t: real, vy: real, m: real,
                       f: real, p: real, ha: real)
    requires a * r == n * b && r * r == n && m == h * n && vy == r * t
    requires f == Triple(h, a, vy) && p == h * vy && ha == h * a
    ensures f == m * (b * t) && r * p == m * t && r * ha == m * b
  {
    assert f == h * ((a * r) * t);
    assert r * p == h * ((r * r) * t);
    assert r * ha == h * (a * r);
  }

  lemma InnerScore(t: real, y: real, m: real, b: real, f: real, left: real)
    requires f == m * (b * t) && left == t * y - m * (b * (t * t)) - b
    ensures left == t * (y - f) - b
  {
    assert t * f == m * (b * (t * t));
  }

  lemma RightParts(r: real, p: real, e: real, ha: real, m: real, t: real, b: real, z: real, left: real)
    requires z == p * e - ha && r * p == m * t && r * ha == m * b && left == t * e - b
    ensures r * z == m * left
  {
    assert r * z == (r * p) * e - r * ha;
  }

  lemma MiddleScore(h: real, n: real, b: real, y: real, t: real, m: real, k: real, w: real, bq: real)
    returns (left: real)
    requires h * (1.0 + n) == 1.0 && m == h * n && w == t * t && k == 0.5 * (w + (1.0 + n)) && bq == w - k
    ensures left == t * y - k * b + (h * (1.0 - n)) * (b * bq) && left == t * y - m * (b * (t * t)) - b
  {
    left := t * y - m * (b * (t * t)) - b;
    var kappa := h * (1.0 - n);
    assert kappa == 1.0 - 2.0 * m && kappa == 2.0 * h - 1.0;
    assert kappa * bq == 0.5 * (kappa * w) - 0.5 * (kappa * (1.0 + n));
    assert kappa * w == w - 2.0 * (m * w);
    assert kappa * (1.0 + n) == 2.0 - (1.0 + n);
    assert kappa * bq - k == -(m * w) - 1.0;
    assert kappa * (b * bq) - k * b == (kappa * bq - k) * b;
    assert (m * w) * b == m * (b * w);
  }

  // ----- the gradient

  lemma {:induction false} ScaledSumOf(a: real, weights: Vec, e: real, terms: seq<Vec>, zs: seq<Vec>, k: nat, dim: nat)
    requires k <= |weights| && k <= |terms| && k <= |zs| && AllOfLength(terms, dim) && AllOfLength(zs, dim)
    requires forall i :: 0 <= i < k ==> zs[i] == terms[i]
    ensures WeightedSum(Scale(a, weights) + [e], zs, k, dim) == Scale(a, WeightedSum(weights, terms, k, dim))
  {
    if k == 0 {
      assert WeightedSum(Scale(a, weights) + [e], zs, 0, dim) == Scale(a, Zeros(dim));
    } else {
      ScaledSumOf(a, weights, e, terms, zs, k - 1, dim);
      assert (Scale(a, weights) + [e])[k - 1] == a * weights[k - 1];
      ScaleOfSum(a, WeightedSum(weights, terms, k - 1, dim), weights[k - 1], terms[k - 1], a * weights[k - 1]);
    }
  }

  lemma ScaleOfSum(a: real, x: Vec, w: real, y: Vec, aw: real)
    requires |x| == |y| && aw == a * w
    ensures Scale(a, Add(x, Scale(w, y))) == Add(Scale(a, x), Scale(aw, y))
  {
    forall i | 0 <= i < |x| ensures Scale(a, Add(x, Scale(w, y)))[i] == Add(Scale(a, x), Scale(aw, y))[i] {
      assert a * (x[i] + w * y[i]) == a * x[i] + aw * y[i];
    }
  }

  /** The combined gradient component is one weighted sum over the points and the path. */
  lemma CombineAsSum(p: UpdateParameters, hsig: bool, terms: seq<Vec>, one: Vec, zs: seq<Vec>)
    requires |p.weights| == p.mu <= |terms| && AllOfLength(terms, p.dim) && |one| == p.dim
    requires zs == terms[..p.mu] + [one]
    ensures AllOfLength(zs, p.dim) && |zs| == p.mu + 1
    ensures Combine(p, hsig, WeightedSum(p.weights, terms, p.mu, p.dim), one)
         == WeightedSum(UpdateWeights(p, hsig), zs, p.mu + 1, p.dim)
  {
    var e := if hsig then p.c1 else 0.0;
    ScaledSumOf(p.cmu, p.weights, e, terms, zs, p.mu, p.dim);
    assert UpdateWeights(p, hsig)[p.mu] == e && zs[p.mu] == one;
    LastTerm(UpdateWeights(p, hsig), zs, p.mu, p.dim);
    hide WeightedSum, Scale, Add;
    if !hsig { AddNothing(Scale(p.cmu, WeightedSum(p.weights, terms, p.mu, p.dim)), one); }
  }

  lemma LastTerm(ws: Vec, zs: seq<Vec>, k: nat, dim: nat)
    requires k < |ws| && k < |zs| && AllOfLength(zs, dim)
    ensures WeightedSum(ws, zs, k + 1, dim) == Add(WeightedSum(ws, zs, k, dim), Scale(ws[k], zs[k]))
  {
    hide Add, Scale;
  }

  lemma AddNothing(x: Vec, y: Vec)
    requires |x| == |y|
    ensures Add(x, Scale(0.0, y)) == x
  {
  }

  lemma GradientOfD(p: UpdateParameters, v: Vec, c: Coefficients, r: real, ys: seq<Vec>, ym: Vec, hsig: bool)
    requires p.Valid() && Normal(v, c, r) && |ym| == |v| == p.dim && AllOfLength(ys, p.dim) && p.mu <= |ys|
    ensures |c.vbar| == p.dim && c.normv > 0.0
    ensures GradientP(p, c, ys, ym, hsig)
         == WeightedSum(UpdateWeights(p, hsig), ScoresD(v, Samples(p, ys, ym)), p.mu + 1, p.dim)
  {
    SystemShapes(v, c, r);
    hide UpdateParameters.Valid, Normal, PTerm, ScoreD, WeightedSum, UpdateWeights, Combine, Dot;
    assert |p.weights| == p.mu by { WeightsShape(p); }
    var terms, zs := seq(|ys|, i requires 0 <= i < |ys| => PTerm(c, ys[i])), Samples(p, ys, ym);
    forall i | 0 <= i < |ys| ensures |terms[i]| == p.dim { ScoreOfD(v, c, r, ys[i]); }
    ScoreOfD(v, c, r, ym);
    var scores := ScoresD(v, zs);
    forall i | 0 <= i < |zs| ensures scores[i] == (terms[..p.mu] + [PTerm(c, ym)])[i] { ScoreOfD(v, c, r, zs[i]); }
    CombineAsSum(p, hsig, terms, PTerm(c, ym), scores);
  }

  lemma WeightsShape(p: UpdateParameters)
    requires p.Valid()
    ensures |p.weights| == p.mu
  {
  }

  function QTerms(c: Coefficients, zs: seq<Vec>, n: nat): (r: seq<Vec>)
    requires |c.vbar| == n && c.normv > 0.0 && AllOfLength(zs, n)
    ensures |r| == |zs| && AllOfLength(r, n)
  {
    seq(|zs|, i requires 0 <= i < |zs| => QTerm(c, zs[i]))
  }

  lemma GradientOfV(p: UpdateParameters, v: Vec, c: Coefficients, r: real, ys: seq<Vec>, ym: Vec, hsig: bool)
    requires p.Valid() && Normal(v, c, r) && |ym| == |v| == p.dim && AllOfLength(ys, p.dim) && p.mu <= |ys|
    ensures |c.vbar| == p.dim && c.normv > 0.0
    ensures Apply(FisherVV(v), GradientQ(p, c, ys, ym, hsig))
         == Scale(r, WeightedSum(UpdateWeights(p, hsig), ScoresV(v, Samples(p, ys, ym)), p.mu + 1, p.dim))
  {
    SystemShapes(v, c, r);
    WeightsShape(p);
    hide UpdateParameters.Valid, Normal, QTerms, ScoresV, WeightedSum, UpdateWeights, FisherVV, Apply, Scale, GradientQ,
      Samples;
    var zs := Samples(p, ys, ym);
    GradientQAsSum(p, c, ys, ym, hsig, zs);
    ScoresOfV(v, c, r, zs);
    MappedSum(FisherVV(v), r, UpdateWeights(p, hsig), QTerms(c, zs, p.dim), ScoresV(v, zs), p.mu + 1, p.dim);
  }

  lemma ScoresOfV(v: Vec, c: Coefficients, r: real, zs: seq<Vec>)
    requires Normal(v, c, r) && AllOfLength(zs, |v|) && |c.vbar| == |v| && c.normv > 0.0
    ensures forall i :: 0 <= i < |zs| ==> Apply(FisherVV(v), QTerms(c, zs, |v|)[i]) == Scale(r, ScoresV(v, zs)[i])
  {
    hide Normal, QTerm, ScoreV, FisherVV, Apply, Scale;
    forall i | 0 <= i < |zs| ensures Apply(FisherVV(v), QTerms(c, zs, |v|)[i]) == Scale(r, ScoresV(v, zs)[i]) {
      ScoreOfV(v, c, r, zs[i]);
    }
  }

  lemma GradientQAsSum(p: UpdateParameters, c: Coefficients, ys: seq<Vec>, ym: Vec, hsig: bool, zs: seq<Vec>)
    requires p.Valid() && c.normv > 0.0 && |c.vbar| == |ym| == p.dim && AllOfLength(ys, p.dim) && p.mu <= |ys|
    requires zs == Samples(p, ys, ym) && |p.weights| == p.mu
    ensures GradientQ(p, c, ys, ym, hsig)
         == WeightedSum(UpdateWeights(p, hsig), QTerms(c, zs, p.dim), p.mu + 1, p.dim)
  {
    hide UpdateParameters.Valid, QTerm, WeightedSum, UpdateWeights, Combine, Dot;
    var terms := seq(|ys|, i requires 0 <= i < |ys| => QTerm(c, ys[i]));
    forall i | 0 <= i < |ys| ensures |terms[i]| == p.dim { QTermShape(c, ys[i]); }
    QTermShape(c, ym);
    var qs := QTerms(c, zs, p.dim);
    assert qs == terms[..p.mu] + [QTerm(c, ym)];
    CombineAsSum(p, hsig, terms, QTerm(c, ym), qs);
  }

  /** A matrix that maps each term to r times another maps the weighted sums alike. */
  lemma {:induction false} MappedSum(m: Mat, r: real, ws: Vec, xs: seq<Vec>, ys: seq<Vec>, k: nat, dim: nat)
    requires IsSquare(m, dim) && AllOfLength(xs, dim) && AllOfLength(ys, dim)
    requires k <= |ws| && k <= |xs| == |ys| && forall i :: 0 <= i < k ==> Apply(m, xs[i]) == Scale(r, ys[i])
    ensures Apply(m, WeightedSum(ws, xs, k, dim)) == Scale(r, WeightedSum(ws, ys, k, dim))
  {
    if k == 0 {
      MapOfZero(m, r, dim);
    } else {
      hide Apply, Scale, Add, IsSquare;
      MappedSum(m, r, ws, xs, ys, k - 1, dim);
      MappedStep(m, r, WeightedSum(ws, xs, k - 1, dim), ws[k - 1], xs[k - 1], WeightedSum(ws, ys, k - 1, dim),
                 ys[k - 1]);
    }
  }

  lemma MapOfZero(m: Mat, r: real, dim: nat)
    requires IsSquare(m, dim)
    ensures Apply(m, Zeros(dim)) == Scale(r, Zeros(dim))
  {
    forall i | 0 <= i < dim ensures Dot(m[i], Zeros(dim)) == 0.0 { DotZero(m[i], Zeros(dim), dim); }
  }

  lemma MappedStep(m: Mat, r: real, x: Vec, w: real, a: Vec, y: Vec, b: Vec)
    requires |x| == |a| == |y| == |b| && IsSquare(m, |x|) && Apply(m, x) == Scale(r, y) && Apply(m, a) == Scale(r, b)
    ensures Apply(m, Add(x, Scale(w, a))) == Scale(r, Add(y, Scale(w, b)))
  {
    var z, t := Add(x, Scale(w, a)), Scale(r, Add(y, Scale(w, b)));
    assert forall i :: 0 <= i < |x| ==> z[i] == Moved(x[i], w, a[i]);
    forall i | 0 <= i < |x| ensures Apply(m, z)[i] == t[i] {
      hide Dot, Moved;
      assert Dot(m[i], x) == Scale(r, y)[i] && Dot(m[i], a) == Scale(r, b)[i];
      MappedComponent(m[i], r, x, w, a, y[i], b[i], z);
    }
  }

  lemma MappedComponent(row: Vec, r: real, x: Vec, w: real, a: Vec, y: real, b: real, z: Vec)
    requires |row| == |x| == |a| == |z| && (forall i :: 0 <= i < |x| ==> z[i] == Moved(x[i], w, a[i]))
    requires Dot(row, x) == r * y && Dot(row, a) == r * b
    ensures Dot(row, z) == r * (y + w * b)
  {
    hide Dot;
    DotOfCombination(x, w, a, z, row);
    DotSymmetric(a, row);
    assert r * (y + w * b) == r * y + w * (r * b);
  }

  /** What the program computes is the natural step. */
  lemma ComputedStepIsNatural(p: UpdateParameters, v: Vec, c: Coefficients, r: real, ys: seq<Vec>, ym: Vec, hsig: bool,
                              d: Vec, s: Vec)
    requires p.Valid() && Normal(v, c, r) && |ym| == |v| == |d| == |s| == p.dim
    requires AllOfLength(ys, p.dim) && p.mu <= |ys|
    requires |c.vbar| == |c.vbarbar| == |c.diagonal| == p.dim && c.normv > 0.0 && r != 0.0
    requires Apply(System(c.diagonal, c.b, c.vbarbar), s)
          == RightHandSide(c, GradientP(p, c, ys, ym, hsig), GradientQ(p, c, ys, ym, hsig))
    ensures |p.weights| == p.mu
    ensures NaturalStep(p, c.alpha, ys, ym, hsig, d, v, Add(d, Prod(d, s)),
                        Add(v, VStep(c, GradientQ(p, c, ys, ym, hsig), s, r)))
  {
    hide UpdateParameters.Valid, Normal, WeightedSum, UpdateWeights, Combine, Dot, FisherVV, Apply, Scale, GradientP,
      GradientQ, System, RightHandSide, VStep, DampedSolution, Add, Prod, Samples, ScoresV, ScoresD;
    WeightsShape(p);
    GradientOfD(p, v, c, r, ys, ym, hsig);
    GradientOfV(p, v, c, r, ys, ym, hsig);
    var ws, zs, q := UpdateWeights(p, hsig), Samples(p, ys, ym), GradientQ(p, c, ys, ym, hsig);
    FisherStepIff(v, c, r, VStep(c, q, s, r), s, GradientP(p, c, ys, ym, hsig), q,
                  WeightedSum(ws, ScoresV(v, zs), p.mu + 1, p.dim));
  }
}
