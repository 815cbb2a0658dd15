/** What the natural step of VD-CMA achieves: it never descends, it rests only where the gradient vanishes,
    and it vanishes where the sample already has the model's covariance. */
module VdAscent {
  import opened LinearAlgebra
  import opened RealFunctions
  import opened Solutions
  import opened VdCma
  import opened VdFisher
  import opened VdStep

  // ----- the dense system is positive definite

  /** The form of the dense system is sum d_i s_i^2 + b (w's)^2. */
  lemma SystemForm(d: Vec, b: real, w: Vec, s: Vec)
    requires |d| == |w| == |s|
    ensures IsSquare(System(d, b, w), |s|)
    ensures Quad(System(d, b, w), s) == Dot(Prod(d, s), s) + b * (Dot(w, s) * Dot(w, s))
  {
    var t, ds, k := Apply(System(d, b, w), s), Prod(d, s), b * Dot(w, s);
    forall i | 0 <= i < |s| ensures t[i] == Moved(ds[i], k, w[i]) {
      SystemRow(d, b, w, s, i);
      hide Dot;
      assert b * w[i] * Dot(w, s) == k * w[i];
    }
    hide Dot, System, Apply, Prod;
    DotOfCombination(ds, k, w, t, s);
    DotSymmetric(s, ds);
    assert k * Dot(w, s) == b * (Dot(w, s) * Dot(w, s));
  }

  /** With positive diagonal entries and a positive linear-time denominator the dense matrix is positive
      definite, whatever the sign of b. */
  lemma SystemPositive(d: Vec, b: real, w: Vec, s: Vec)
    requires |d| == |w| == |s| && (forall i :: 0 <= i < |d| ==> d[i] > 0.0) && Factor(b, Nu2(d, w)) > 0.0
    ensures IsSquare(System(d, b, w), |s|)
    ensures Quad(System(d, b, w), s) >= 0.0
    ensures !IsZero(s) ==> Quad(System(d, b, w), s) > 0.0
  {
    hide Dot, System, Quad, Prod, Nu2, Factor;
    SystemForm(d, b, w, s);
    WeightedNormOf(d, s);
    var a, t, f := Dot(Prod(d, s), s), Dot(w, s), Nu2(d, w);
    SquareSign(t, t * t);
    if b >= 0.0 {
      ProductSign(b, t * t, b * (t * t));
    } else {
      CompletedSquare(d, b * t, w, s);
      NegativeCoupling(a, b, t, f, t * t, b * t);
    }
  }

  lemma {:induction false} WeightedNorm(d: Vec, s: Vec, n: nat)
    requires n <= |d| == |s| && forall i :: 0 <= i < |d| ==> d[i] > 0.0
    ensures DotTo(Prod(d, s), s, n) >= 0.0
    ensures DotTo(Prod(d, s), s, n) == 0.0 ==> forall i :: 0 <= i < n ==> s[i] == 0.0
  {
    if n > 0 {
      WeightedNorm(d, s, n - 1);
      var k := n - 1;
      SquareSign(s[k], s[k] * s[k]);
      ProductSign(d[k], s[k] * s[k], d[k] * (s[k] * s[k]));
      assert Prod(d, s)[k] * s[k] == d[k] * (s[k] * s[k]);
    }
  }

  /** The sum of d_i (s_i + k w_i / d_i)^2. */
  lemma CompletedSquare(d: Vec, k: real, w: Vec, s: Vec)
    requires |d| == |w| == |s| && forall i :: 0 <= i < |d| ==> d[i] > 0.0
    ensures Dot(Prod(d, s), s) + 2.0 * (k * Dot(w, s)) + k * k * Nu2(d, w) >= 0.0
  {
    var t := Prod(Inverse(d), w);
    var z := Add(s, Scale(k, t));
    assert Nu2(d, w) == Dot(t, w);
    hide Prod, Inverse, Dot, Add, Scale, Nu2;
    WeightedNormOf(d, z);
    CompletedComponents(d, k, w, s, t, z);
    DotOfCombination(Prod(d, s), k, w, Prod(d, z), z);
    DotOfCombination(s, k, t, z, Prod(d, s));
    DotOfCombination(s, k, t, z, w);
    DotSymmetric(t, Prod(d, s));
    hide Moved;
    SquareParts(k, Dot(Prod(d, z), z), Dot(Prod(d, s), z), Dot(w, z), Dot(Prod(d, s), s), Dot(w, s), Dot(t, w));
  }

  lemma WeightedNormOf(d: Vec, s: Vec)
    requires |d| == |s| && forall i :: 0 <= i < |d| ==> d[i] > 0.0
    ensures Dot(Prod(d, s), s) >= 0.0 && (Dot(Prod(d, s), s) == 0.0 ==> IsZero(s))
  {
    WeightedNorm(d, s, |s|);
  }

  lemma CompletedComponents(d: Vec, k: real, w: Vec, s: Vec, t: Vec, z: Vec)
    requires |d| == |w| == |s| && forall i :: 0 <= i < |d| ==> d[i] > 0.0
    requires t == Prod(Inverse(d), w) && z == Add(s, Scale(k, t))
    ensures forall i :: 0 <= i < |s| ==> Prod(d, z)[i] == Moved(Prod(d, s)[i], k, w[i])
    ensures forall i :: 0 <= i < |s| ==> z[i] == Moved(s[i], k, t[i])
    ensures Dot(Prod(d, s), t) == Dot(w, s)
  {
    hide Dot;
    forall i | 0 <= i < |s| ensures Prod(d, z)[i] == Moved(Prod(d, s)[i], k, w[i]) {
      ScaledBack(d[i], s[i], k, w[i], t[i], z[i]);
    }
    CancelledInner(d, w, s, t);
  }

  lemma CancelledInner(d: Vec, w: Vec, s: Vec, t: Vec)
    requires |d| == |w| == |s| && (forall i :: 0 <= i < |d| ==> d[i] > 0.0) && t == Prod(Inverse(d), w)
    ensures Dot(Prod(d, s), t) == Dot(w, s)
  {
    hide DotTo;
    forall i | 0 <= i < |s| ensures Prod(d, s)[i] * t[i] == w[i] * s[i] {
      Cancelled(d[i], s[i], w[i], t[i]);
    }
    DotCong(Prod(d, s), w, t, s, |s|);
  }

  lemma ScaledBack(d: real, s: real, k: real, w: real, t: real, z: real)
    requires d > 0.0 && t == 1.0 / d * w && z == s + k * t
    ensures d * z == d * s + k * w
  {
    assert (1.0 / d) * d == 1.0;
    assert d * t == w by { assert d * t == ((1.0 / d) * d) * w; }
    assert d * (k * t) == k * (d * t);
  }

  lemma Cancelled(d: real, s: real, w: real, t: real)
    requires d > 0.0 && t == 1.0 / d * w
    ensures (d * s) * t == w * s
  {
    assert (1.0 / d) * d == 1.0;
    assert (d * s) * t == (((1.0 / d) * d) * w) * s;
  }

  lemma SquareParts(k: real, zz: real, sz: real, wz: real, ss: real, ws: real, f: real)
    requires zz == Moved(sz, k, wz) && sz == Moved(ss, k, ws) && wz == Moved(ws, k, f)
    ensures zz == ss + 2.0 * (k * ws) + k * k * f
  {
    assert k * (k * f) == k * k * f;
  }

  /** A negative coupling b t^2 takes less than the weighted norm a. */
  lemma NegativeCoupling(a: real, b: real, t: real, f: real, tt: real, k: real)
    requires b < 0.0 && Factor(b, f) > 0.0 && tt == t * t && tt >= 0.0 && a >= 0.0 && k == b * t
    requires a + 2.0 * (k * t) + k * k * f >= 0.0
    ensures a + b * tt >= 0.0 && (a > 0.0 ==> a + b * tt > 0.0)
  {
    var g, u := Factor(b, f), b * tt;
    assert k * t == u;
    assert k * k * f == (b * f) * u;
    assert g * u == u + (b * f) * u;
    if tt > 0.0 {
      ProductSign(-b, tt, -u);
      ProductSign(g, -u, -(g * u));
    }
  }

  // ----- the form of the damped Fisher information

  // products that several steps share, named so that the solver keeps them together

  function Kappa(h: real, n: real): real {
    h * (1.0 - n)
  }

  function GradientV(h: real, qx: real, kappa: real, qs: real, xs: real): real {
    h * (qx + kappa * (qs * xs))
  }

  /** The inner product of x with q. */
  function InnerQX(qq: real, alpha: real, n: real, bqs: real, w: real, qs: real): real {
    qq - (alpha * (2.0 + n)) * bqs + (alpha * w) * qs
  }

  function Tilted(qq: real, kappa: real, qs: real): real {
    qq + kappa * (qs * qs)
  }

  /** The inner product of gv and dv in the coordinates q and x of the first block. */
  lemma InnerOfV(v: Vec, c: Coefficients, r: real, dv: Vec, q: Vec, gv: Vec, x: Vec, kappa: real)
    requires Normal(v, c, r) && |dv| == |q| == |gv| == |v| && Apply(FisherVV(v), q) == Scale(r, gv)
    requires x == Scale(r, dv) && kappa == Kappa(Shrink(v), c.normv)
    ensures |c.vbar| == |v|
    ensures Dot(gv, dv) == GradientV(Shrink(v), Dot(q, x), kappa, Dot(c.vbar, q), Dot(c.vbar, x))
  {
    UnitAndShrink(v, c, r);
    hide Normal, Dot, Apply, FisherVV, Scale, Shrink, Blend, CoeffN, CoeffVV, Times, VVSlope, GradientV, Kappa;
    var m, l, y := CoeffN(Shrink(v), c.normv), VVSlope(Shrink(v), c.normv, kappa, Dot(c.vbar, q)), Scale(r, gv);
    forall i | 0 <= i < |v| ensures y[i] == Blend(m, q[i], l, c.vbar[i]) {
      VVComponent(v, c, r, q, i, kappa);
    }
    InnerOfBlend(m, q, l, c.vbar, y, x);
    ScaledInner(r, gv, dv);
    NormalScalars(v, c, r);
    InnerOfVAlgebra(Shrink(v), c.normv, r, kappa, Dot(c.vbar, q), Dot(c.vbar, x), Dot(q, x), Dot(gv, dv), Dot(y, x));
  }

  function VVSlope(h: real, n: real, kappa: real, qs: real): real {
    (h * n) * (kappa * qs)
  }

  lemma VVComponent(v: Vec, c: Coefficients, r: real, q: Vec, i: nat, kappa: real)
    requires Normal(v, c, r) && |q| == |v| && i < |v| && kappa == Kappa(Shrink(v), c.normv)
    ensures |c.vbar| == |v|
    ensures Apply(FisherVV(v), q)[i]
         == Blend(CoeffN(Shrink(v), c.normv), q[i], VVSlope(Shrink(v), c.normv, kappa, Dot(c.vbar, q)), c.vbar[i])
  {
    hide Normal, Dot, Apply, FisherVV, Shrink, Blend, CoeffN, CoeffVV, Times, Scalars, VVSlope, Slope,
      SystemCoefficients, Kappa;
    NormalAt(v, c, r, i);
    InnersOfV(v, c, r, q);
    RowVV(v, q, i, Shrink(v), c.normv);
    VVAlgebra(Shrink(v), c.normv, r, v[i], c.vbar[i], c.vbarbar[i], q[i], Dot(c.vbar, q), kappa, Dot(v, q));
  }

  lemma VVAlgebra(h: real, n: real, r: real, a: real, b: real, u: real, q: real, qs: real, kappa: real, vq: real)
    requires Scalars(h, n, r, a, b, u) && kappa == Kappa(h, n) && vq == Times(r, qs)
    ensures Blend(CoeffN(h, n), q, CoeffVV(h, n, a), vq) == Blend(CoeffN(h, n), q, VVSlope(h, n, kappa, qs), b)
  {
    assert CoeffVV(h, n, a) * (r * qs) == ((h * h) * ((1.0 - n) * qs)) * (a * r);
    assert a * r == n * b by { assert (r * b) * r == (r * r) * b; }
    assert VVSlope(h, n, kappa, qs) * b == ((h * h) * ((1.0 - n) * qs)) * (n * b);
  }

  lemma InnerOfBlend(m: real, q: Vec, l: real, b: Vec, y: Vec, x: Vec)
    requires |q| == |b| == |y| == |x| && forall i :: 0 <= i < |y| ==> y[i] == Blend(m, q[i], l, b[i])
    ensures Dot(y, x) == Blend(m, Dot(q, x), l, Dot(b, x))
  {
    hide DotTo, Blend;
    DotLinear(m, q, l, b, y, x, |x|);
  }

  lemma ScaledInner(r: real, y: Vec, x: Vec)
    requires |y| == |x|
    ensures Dot(Scale(r, y), Scale(r, x)) == Times(r * r, Dot(y, x))
  {
    hide Dot;
    DotScaled(r, y, Scale(r, y), Scale(r, x));
    DotScaled(r, x, Scale(r, x), y);
    DotSymmetric(x, y);
    assert r * (r * Dot(y, x)) == (r * r) * Dot(y, x);
  }

  lemma NormalScalars(v: Vec, c: Coefficients, r: real)
    requires Normal(v, c, r)
    ensures r > 0.0 && c.normv > 0.0 && r * r == c.normv && Shrink(v) * (1.0 + c.normv) == 1.0 && Shrink(v) > 0.0
  {
    hide Dot, Shrink;
  }

  lemma InnerOfVAlgebra(h: real, n: real, r: real, kappa: real, qs: real, xs: real, qx: real, g: real, yx: real)
    requires r * r == n && n > 0.0 && yx == Times(r * r, g)
    requires yx == Blend(CoeffN(h, n), qx, VVSlope(h, n, kappa, qs), xs)
    ensures g == GradientV(h, qx, kappa, qs, xs)
  {
    var t := qx + kappa * (qs * xs);
    assert (h * n) * (kappa * qs) * xs == (h * n) * (kappa * (qs * xs));
    assert n * g == n * (h * t) by { assert n * (h * t) == (h * n) * t; }
    SameFactor(n, g, h * t);
  }

  lemma SameFactor(n: real, a: real, b: real)
    requires n > 0.0 && n * a == n * b
    ensures a == b
  {
    assert n * (a - b) == 0.0;
    ProductSign(n, a - b, n * (a - b));
    ProductSign(n, b - a, -(n * (a - b)));
  }

  /** The inner products of the step of v with q and with the direction. */
  lemma InnerOfStep(x: Vec, q: Vec, s: Vec, b: Vec, alpha: real, n: real, w: real)
    requires |x| == |q| == |s| == |b| && StepsOfV(x, q, s, b, alpha, n) && Dot(b, b) == 1.0 && w == Dot(Prod(b, b), s)
    ensures Dot(q, x) == InnerQX(Dot(q, q), alpha, n, Dot(Prod(b, q), s), w, Dot(b, q))
    ensures Dot(b, x) == InnerX(Dot(b, q), alpha, n, w)
  {
    SwappedProduct(b, q, s);
    StepInnerOfV(x, q, s, b, alpha, n);
    StepTerms(x, q, s, b, alpha, n, w);
    hide Dot, StepsOfV, Prod, Moved, Damp, Times, InnerX;
    ThreeTerms(x, q, Damp(alpha, n), Prod(b, s), Times(alpha, w), b, q);
    DotSymmetric(q, x);
    DotSymmetric(Prod(b, s), q);
    InnerQXSum(Dot(q, q), alpha, n, Dot(Prod(b, q), s), w, Dot(b, q));
  }

  lemma InnerQXSum(qq: real, alpha: real, n: real, bqs: real, w: real, qs: real)
    ensures Moved(Moved(qq, Damp(alpha, n), bqs), Times(alpha, w), qs) == InnerQX(qq, alpha, n, bqs, w, qs)
  {
  }

  lemma SwappedProduct(b: Vec, q: Vec, s: Vec)
    requires |b| == |q| == |s|
    ensures Dot(q, Prod(b, s)) == Dot(Prod(b, q), s)
  {
    hide DotTo;
    DotCong(q, Prod(b, q), Prod(b, s), s, |b|);
  }

  function CrossK(alpha: real, h: real, n: real): real {
    (alpha * h) * (2.0 + n)
  }

  function CrossL(alpha: real, h: real, n: real, qs: real): real {
    -((alpha * h) * (n * qs))
  }

  /** The inner product of the gradient of D with the solution of the dense system. */
  lemma InnerOfD(v: Vec, c: Coefficients, r: real, s: Vec, p: Vec, q: Vec)
    requires Normal(v, c, r) && |s| == |p| == |q| == |v|
    requires |c.vbar| == |c.vbarbar| == |c.diagonal| == |v| && c.normv > 0.0
    requires Apply(System(c.diagonal, c.b, c.vbarbar), s) == RightHandSide(c, p, q)
    ensures Dot(p, s) == Quad(System(c.diagonal, c.b, c.vbarbar), s)
         + Cross(c.alpha, Shrink(v), Lin(c.normv, Dot(Prod(c.vbar, q), s), Times(Dot(c.vbarbar, s), Dot(c.vbar, q))))
  {
    SystemShapes(v, c, r);
    hide Normal, Dot, Shrink, System, RightHandSide, Cross, Lin, Times, Apply, CrossK, CrossL, Moved;
    var t, qs, h, bq := RightHandSide(c, p, q), Dot(c.vbar, q), Shrink(v), Prod(c.vbar, q);
    var k, l := CrossK(c.alpha, h, c.normv), CrossL(c.alpha, h, c.normv, qs);
    forall i | 0 <= i < |v| ensures p[i] == Moved(Moved(t[i], k, bq[i]), l, c.vbarbar[i]) {
      RightHandAt(v, c, r, p, q, i);
      CrossTerms(c.alpha, h, c.normv, c.vbar[i], q[i], c.vbarbar[i], qs, t[i], bq[i]);
    }
    hide Prod;
    ThreeTerms(p, t, k, bq, l, c.vbarbar, s);
    DotSymmetric(s, t);
    CrossInner(c.alpha, h, c.normv, Dot(bq, s), Dot(c.vbarbar, s), qs, Dot(t, s));
  }

  lemma CrossTerms(alpha: real, h: real, n: real, b: real, q: real, u: real, qs: real, t: real, bq: real)
    requires bq == b * q
    ensures t + Cross(alpha, h, Lin(n, Times(b, q), Times(u, qs)))
         == Moved(Moved(t, CrossK(alpha, h, n), bq), CrossL(alpha, h, n, qs), u)
  {
    assert (alpha * h) * (n * (u * qs)) == ((alpha * h) * (n * qs)) * u;
  }

  lemma CrossInner(alpha: real, h: real, n: real, bqs: real, w: real, qs: real, t: real)
    ensures Moved(Moved(t, CrossK(alpha, h, n), bqs), CrossL(alpha, h, n, qs), w)
         == t + Cross(alpha, h, Lin(n, bqs, Times(w, qs)))
  {
    assert (alpha * h) * (n * (w * qs)) == ((alpha * h) * (n * qs)) * w;
  }

  /** The derivative of the log-likelihood along the step. */
  lemma StepGradient(v: Vec, c: Coefficients, r: real, dv: Vec, s: Vec, p: Vec, q: Vec, gv: Vec)
    requires Normal(v, c, r) && |dv| == |s| == |p| == |q| == |gv| == |v| && Apply(FisherVV(v), q) == Scale(r, gv)
    requires |c.vbar| == |c.vbarbar| == |c.diagonal| == |v| && c.normv > 0.0 && r != 0.0
    requires dv == VStep(c, q, s, r) && Apply(System(c.diagonal, c.b, c.vbarbar), s) == RightHandSide(c, p, q)
    ensures Dot(gv, dv) + Dot(p, s)
         == Times(Shrink(v), Tilted(Dot(q, q), Kappa(Shrink(v), c.normv), Dot(c.vbar, q)))
            + Quad(System(c.diagonal, c.b, c.vbarbar), s)
  {
    SystemShapes(v, c, r);
    SameSquares(v, c, r);
    UnitAndShrink(v, c, r);
    hide Normal, Dot, Shrink, System, RightHandSide, Cross, Lin, Apply, StepsOfV, VStep, Quad, FisherVV, Scale, Prod,
      Kappa, GradientV, InnerX, InnerQX, Tilted, Times;
    var x, kappa, w := Scale(r, dv), Kappa(Shrink(v), c.normv), Dot(c.vbarbar, s);
    StepComponents(c, r, dv, s, q);
    InnerOfV(v, c, r, dv, q, gv, x, kappa);
    InnerOfStep(x, q, s, c.vbar, c.alpha, c.normv, w);
    InnerOfD(v, c, r, s, p, q);
    GradientAlgebra(Shrink(v), c.normv, c.alpha, kappa, Dot(q, q), Dot(q, x), Dot(c.vbar, q), Dot(c.vbar, x), w,
                    Dot(Prod(c.vbar, q), s), Dot(gv, dv));
  }

  lemma GradientAlgebra(h: real, n: real, alpha: real, kappa: real, qq: real, qx: real, qs: real, xs: real, w: real,
                        bqs: real, g: real)
    requires h * (1.0 + n) == 1.0 && kappa == Kappa(h, n)
    requires qx == InnerQX(qq, alpha, n, bqs, w, qs) && xs == InnerX(qs, alpha, n, w)
    requires g == GradientV(h, qx, kappa, qs, xs)
    ensures g + Cross(alpha, h, Lin(n, bqs, Times(w, qs))) == Times(h, Tilted(qq, kappa, qs))
  {
    KappaScaled(h, n, kappa);
    hide InnerQX, InnerX, Lin, Cross, Tilted, Kappa;
    var e, wq := kappa * (qs * xs), Times(w, qs);
    TiltedStep(n, alpha, kappa, qs, xs, w, wq, e);
    NumeratorSum(n, alpha, kappa, qq, qs, w, bqs, wq, qx, e);
    CrossScaled(h, alpha, Lin(n, bqs, wq), qx + e, Tilted(qq, kappa, qs), Cross(alpha, h, Lin(n, bqs, wq)));
  }

  lemma NumeratorSum(n: real, alpha: real, kappa: real, qq: real, qs: real, w: real, bqs: real, wq: real,
                     qx: real, e: real)
    requires wq == Times(w, qs) && qx == InnerQX(qq, alpha, n, bqs, w, qs)
    requires e == kappa * (qs * qs) - alpha * wq + alpha * (n * wq)
    ensures qx + e == Tilted(qq, kappa, qs) - alpha * Lin(n, bqs, wq)
  {
    assert (alpha * w) * qs == alpha * wq;
    assert alpha * Lin(n, bqs, wq) == (alpha * (2.0 + n)) * bqs - alpha * (n * wq);
  }

  lemma CrossScaled(h: real, alpha: real, l: real, a: real, b: real, t: real)
    requires a == b - alpha * l && t == Cross(alpha, h, l)
    ensures h * a + t == h * b
  {
    assert h * (alpha * l) == (alpha * h) * l;
  }

  lemma TiltedStep(n: real, alpha: real, kappa: real, qs: real, xs: real, w: real, wq: real, e: real)
    requires kappa * (1.0 + n) == 1.0 - n && xs == InnerX(qs, alpha, n, w) && wq == Times(w, qs)
    requires e == kappa * (qs * xs)
    ensures e == kappa * (qs * qs) - alpha * wq + alpha * (n * wq)
  {
    assert qs * xs == qs * qs - (1.0 + n) * (alpha * wq);
    assert kappa * ((1.0 + n) * (alpha * wq)) == (kappa * (1.0 + n)) * (alpha * wq);
    assert (1.0 - n) * (alpha * wq) == alpha * wq - alpha * (n * wq);
  }

  // ----- the damped Fisher information is positive definite

  lemma UnitCauchy(b: Vec, q: Vec)
    requires |b| == |q| && Dot(b, b) == 1.0
    ensures Dot(q, q) >= Dot(b, q) * Dot(b, q) && Dot(q, q) >= 0.0
    ensures !IsZero(q) ==> Dot(q, q) > 0.0
  {
    var t := Dot(b, q);
    var z := seq(|q|, i requires 0 <= i < |q| => Moved(q[i], -t, b[i]));
    SquaredNormPositive(z);
    SquaredNormPositive(q);
    hide Dot, Moved;
    DotOfCombination(q, -t, b, z, z);
    DotOfCombination(q, -t, b, z, q);
    DotOfCombination(q, -t, b, z, b);
    DotSymmetric(q, b);
    RestSquare(t, Dot(z, z), Dot(q, z), Dot(b, z), Dot(q, q));
  }

  lemma RestSquare(t: real, zz: real, qz: real, bz: real, qq: real)
    requires zz == Moved(qz, -t, bz) && qz == Moved(qq, -t, t) && bz == Moved(t, -t, 1.0)
    ensures zz == qq - t * t
  {
  }

  lemma TiltedPositive(h: real, n: real, qq: real, qs: real, kappa: real)
    requires h * (1.0 + n) == 1.0 && h > 0.0 && kappa == Kappa(h, n) && qq >= qs * qs
    ensures Times(h, Tilted(qq, kappa, qs)) >= 0.0
    ensures qq > 0.0 ==> Times(h, Tilted(qq, kappa, qs)) > 0.0
  {
    var t := qs * qs;
    SquareSign(qs, t);
    assert kappa == 2.0 * h - 1.0;
    assert Tilted(qq, kappa, qs) == (qq - t) + 2.0 * (h * t);
    ProductSign(h, t, h * t);
    ProductSign(h, Tilted(qq, kappa, qs), Times(h, Tilted(qq, kappa, qs)));
  }

  /** Every gradient of v has coordinates q in the first block. */
  lemma GradientCoordinates(v: Vec, c: Coefficients, r: real, gv: Vec) returns (q: Vec)
    requires Normal(v, c, r) && |gv| == |v|
    ensures |q| == |v| && Apply(FisherVV(v), q) == Scale(r, gv)
  {
    UnitAndShrink(v, c, r);
    NormalScalars(v, c, r);
    hide Normal, Dot, Shrink, Apply, FisherVV, Kappa, VVSlope, CoeffN, Blend;
    var h, n, b, kappa := Shrink(v), c.normv, c.vbar, Kappa(Shrink(v), c.normv);
    ProductSign(h, n, h * n);
    var k := r / (h * n);
    var z := Scale(k, gv);
    var qs := 0.5 * (1.0 + n) * Dot(b, z);
    q := CoordinatesOf(z, kappa * qs, b);
    CoordinateInner(h, n, kappa, b, z, qs, q);
    forall i | 0 <= i < |v| ensures Apply(FisherVV(v), q)[i] == Scale(r, gv)[i] {
      CoordinateRow(v, c, r, q, i, kappa, k, qs, gv[i], z[i]);
      hide Scale;
    }
  }

  lemma CoordinateRow(v: Vec, c: Coefficients, r: real, q: Vec, i: nat, kappa: real, k: real, qs: real, g: real,
                      z: real)
    requires Normal(v, c, r) && |q| == |v| == |c.vbar| && i < |v| && kappa == Kappa(Shrink(v), c.normv)
    requires Shrink(v) * c.normv != 0.0 && k == r / (Shrink(v) * c.normv) && z == k * g
    requires q[i] == Moved(z, -(kappa * qs), c.vbar[i]) && qs == Dot(c.vbar, q)
    ensures Apply(FisherVV(v), q)[i] == r * g
  {
    hide Normal, Dot, Shrink, Apply, FisherVV, Kappa, VVSlope, CoeffN, Blend;
    VVComponent(v, c, r, q, i, kappa);
    CoordinateAlgebra(Shrink(v), c.normv, r, k, kappa, qs, c.vbar[i], g, z, q[i]);
  }

  function CoordinatesOf(z: Vec, t: real, b: Vec): (q: Vec)
    requires |z| == |b|
    ensures |q| == |z| && forall i :: 0 <= i < |q| ==> q[i] == Moved(z[i], -t, b[i])
  {
    seq(|z|, i requires 0 <= i < |z| => Moved(z[i], -t, b[i]))
  }

  lemma CoordinateInner(h: real, n: real, kappa: real, b: Vec, z: Vec, qs: real, q: Vec)
    requires h * (1.0 + n) == 1.0 && kappa == Kappa(h, n) && |b| == |z| == |q| && Dot(b, b) == 1.0
    requires qs == 0.5 * (1.0 + n) * Dot(b, z) && forall i :: 0 <= i < |q| ==> q[i] == Moved(z[i], -(kappa * qs), b[i])
    ensures Dot(b, q) == qs
  {
    hide Dot, Moved;
    DotOfCombination(z, -(kappa * qs), b, q, b);
    CoordinateSum(h, n, kappa, Dot(b, z), qs, Dot(b, q));
  }

  lemma CoordinateSum(h: real, n: real, kappa: real, zs: real, qs: real, t: real)
    requires h * (1.0 + n) == 1.0 && kappa == Kappa(h, n) && qs == 0.5 * (1.0 + n) * zs
    requires t == Moved(zs, -(kappa * qs), 1.0)
    ensures t == qs
  {
    assert kappa == 2.0 * h - 1.0;
    assert h * qs == 0.5 * ((h * (1.0 + n)) * zs);
    assert kappa * qs == 2.0 * (h * qs) - qs;
  }

  lemma CoordinateAlgebra(h: real, n: real, r: real, k: real, kappa: real, qs: real, b: real, g: real, z: real, q: real)
    requires h * n != 0.0 && k == r / (h * n) && z == k * g && q == Moved(z, -(kappa * qs), b)
    ensures Blend(CoeffN(h, n), q, VVSlope(h, n, kappa, qs), b) == r * g
  {
    var m := h * n;
    assert k * m == r;
    assert m * ((kappa * qs) * b) == (m * (kappa * qs)) * b;
    assert m * z == r * g by { assert m * (k * g) == (k * m) * g; }
    assert m * q == m * z - m * ((kappa * qs) * b);
  }

  /** With the alpha of Eq. (7) the damped Fisher information is positive definite: the derivative of the
      likelihood along any solution of its system is positive, unless the solution is zero. */
  lemma DampedFisherPositive(sqrt: Fn, v: Vec, dv: Vec, s: Vec, gv: Vec, gd: Vec)
    requires NonZero(sqrt, v) && |dv| == |s| == |gv| == |gd| == |v|
    requires DampedSolution(v, CoefficientsOf(sqrt, v).alpha, dv, s, gv, gd)
    ensures Dot(gv, dv) + Dot(gd, s) >= 0.0
    ensures !IsZero(dv) || !IsZero(s) ==> Dot(gv, dv) + Dot(gd, s) > 0.0
  {
    DenominatorsOf(sqrt, v);
    CoefficientsNormal(sqrt, v);
    hide CoefficientsOf, NonZero, Normal, Dot, DampedSolution, Factor, Nu2;
    SolutionAscends(v, CoefficientsOf(sqrt, v), sqrt(Dot(v, v)), dv, s, gv, gd);
  }

  lemma SolutionAscends(v: Vec, c: Coefficients, r: real, dv: Vec, s: Vec, gv: Vec, gd: Vec)
    requires Normal(v, c, r) && |dv| == |s| == |gv| == |gd| == |v| && |c.diagonal| == |c.vbarbar| == |v|
    requires (forall i :: 0 <= i < |v| ==> c.diagonal[i] > 0.0) && Factor(c.b, Nu2(c.diagonal, c.vbarbar)) > 0.0
    requires DampedSolution(v, c.alpha, dv, s, gv, gd)
    ensures Dot(gv, dv) + Dot(gd, s) >= 0.0
    ensures !IsZero(dv) || !IsZero(s) ==> Dot(gv, dv) + Dot(gd, s) > 0.0
  {
    hide Normal, Dot, DampedSolution, System, RightHandSide, VStep, Quad, Shrink, Kappa, Tilted, Times, Factor, Nu2,
      IsZero, Apply, FisherVV, Scale;
    var q := GradientCoordinates(v, c, r, gv);
    FisherStepIff(v, c, r, dv, s, gd, q, gv);
    StepGradient(v, c, r, dv, s, gd, q, gv);
    SystemPositive(c.diagonal, c.b, c.vbarbar, s);
    CoordinatesPositive(v, c, r, q);
    if IsZero(q) && IsZero(s) { NoStep(c, q, s, r); }
  }

  lemma CoordinatesPositive(v: Vec, c: Coefficients, r: real, q: Vec)
    requires Normal(v, c, r) && |q| == |v|
    ensures |c.vbar| == |v|
    ensures Times(Shrink(v), Tilted(Dot(q, q), Kappa(Shrink(v), c.normv), Dot(c.vbar, q))) >= 0.0
    ensures !IsZero(q) ==>
              Times(Shrink(v), Tilted(Dot(q, q), Kappa(Shrink(v), c.normv), Dot(c.vbar, q))) > 0.0
  {
    UnitAndShrink(v, c, r);
    NormalScalars(v, c, r);
    hide Normal, Dot, Shrink, Kappa, Tilted, Times;
    UnitCauchy(c.vbar, q);
    TiltedPositive(Shrink(v), c.normv, Dot(q, q), Dot(c.vbar, q), Kappa(Shrink(v), c.normv));
  }

  lemma DenominatorsOf(sqrt: Fn, v: Vec)
    requires NonZero(sqrt, v)
    ensures var c := CoefficientsOf(sqrt, v);
            && |c.diagonal| == |c.vbarbar| == |v|
            && (forall i :: 0 <= i < |v| ==> c.diagonal[i] > 0.0)
            && Factor(c.b, Nu2(c.diagonal, c.vbarbar)) > 0.0
  {
    DenominatorsPositive(sqrt, v);
    hide IsSqrt, Alpha, Beta, Slope, MaxCoeff, Dot, Factor, Nu2;
  }

  lemma NoStep(c: Coefficients, q: Vec, s: Vec, r: real)
    requires |c.vbar| == |c.vbarbar| == |q| == |s| && r != 0.0 && IsZero(q) && IsZero(s)
    ensures IsZero(VStep(c, q, s, r))
  {
    DotOfZero(s, c.vbarbar);
    hide Dot;
    assert Dot(s, c.vbarbar) == 0.0;
    forall i | 0 <= i < |q| ensures VStep(c, q, s, r)[i] == 0.0 {
      assert c.vbar[i] * s[i] == 0.0;
    }
  }

  // ----- the step is unique

  /** The damped system has one solution. */
  lemma DampedSolutionUnique(sqrt: Fn, v: Vec, dv: Vec, s: Vec, dv': Vec, s': Vec, gv: Vec, gd: Vec)
    requires NonZero(sqrt, v) && |dv| == |s| == |dv'| == |s'| == |gv| == |gd| == |v|
    requires DampedSolution(v, CoefficientsOf(sqrt, v).alpha, dv, s, gv, gd)
    requires DampedSolution(v, CoefficientsOf(sqrt, v).alpha, dv', s', gv, gd)
    ensures dv == dv' && s == s'
  {
    DenominatorsOf(sqrt, v);
    CoefficientsNormal(sqrt, v);
    hide CoefficientsOf, NonZero, Normal, Dot, DampedSolution, System, RightHandSide, VStep, Factor, Nu2, Solve, Apply,
      FisherVV, Scale;
    var c, r := CoefficientsOf(sqrt, v), sqrt(Dot(v, v));
    var q := GradientCoordinates(v, c, r, gv);
    FisherStepIff(v, c, r, dv, s, gd, q, gv);
    FisherStepIff(v, c, r, dv', s', gd, q, gv);
    SolveIsExact(c.diagonal, c.b, c.vbarbar, RightHandSide(c, gd, q), s);
    SolveIsExact(c.diagonal, c.b, c.vbarbar, RightHandSide(c, gd, q), s');
  }

  lemma ZeroSolution(v: Vec, alpha: real)
    ensures DampedSolution(v, alpha, Zeros(|v|), Zeros(|v|), Zeros(|v|), Zeros(|v|))
  {
    var z := Zeros(|v|);
    forall m: Mat | IsSquare(m, |v|) ensures Apply(m, z) == z {
      forall i | 0 <= i < |v| ensures Dot(m[i], z) == 0.0 { DotZero(m[i], z, |v|); }
    }
    hide FisherVV, FisherVD, FisherDV, FisherDD, Apply;
    assert Add(z, Scale(alpha, z)) == z && Add(Scale(alpha, z), z) == z;
  }

  // ----- where the step rests

  /** The scores of D add up to a function of the second moments of the sample. */
  lemma {:induction false} MomentsOfD(v: Vec, weights: Vec, ys: seq<Vec>, k: nat, i: nat)
    requires k <= |weights| && k <= |ys| && AllOfLength(ys, |v|) && i < |v|
    ensures var m := RankMu(weights, ys, k, |v|);
            WeightedSum(weights, ScoresD(v, ys), k, |v|)[i]
            == MomentD(m[i][i], Shrink(v), v[i], Dot(m[i], v), SumTo(weights, k))
  {
    hide Shrink, ScoreD, Dot, MatAdd, MatScale, Outer, Accrued, ScoreValueD, Triple;
    if k == 0 {
      DotOfZero(Zeros(|v|), v);
    } else {
      MomentsOfD(v, weights, ys, k - 1, i);
      var m, y, w := RankMu(weights, ys, k - 1, |v|), ys[k - 1], weights[k - 1];
      ScoreDAt(v, y, i);
      AddedOuter(m, w, y, v, i);
      hide MomentD;
      MomentDAlgebra(Shrink(v), v[i], y[i], Dot(v, y), w, m[i][i], Dot(m[i], v), SumTo(weights, k - 1));
    }
  }

  /** A sum to which one more weighted product is added. */
  function Accrued(t: real, w: real, y: real, s: real): real {
    t + w * (y * s)
  }

  function MomentD(d: real, h: real, a: real, t: real, sum: real): real {
    d - h * (a * t) - sum
  }

  lemma MomentDAlgebra(h: real, a: real, y: real, s: real, w: real, d: real, t: real, sum: real)
    ensures MomentD(d, h, a, t, sum) + w * ScoreValueD(y, Triple(h, a, s))
         == MomentD(Accrued(d, w, y, y), h, a, Accrued(t, w, y, s), sum + w)
  {
    assert w * (y * (y - h * a * s) - 1.0) == w * (y * y) - w * (y * (h * a * s)) - w;
    assert h * (a * (w * (y * s))) == w * (y * (h * a * s));
    assert h * (a * (t + w * (y * s))) == h * (a * t) + h * (a * (w * (y * s)));
  }

  /** One more outer product, seen through row i. */
  lemma AddedOuter(m: Mat, w: real, y: Vec, v: Vec, i: nat)
    requires IsSquare(m, |v|) && |y| == |v| && i < |v|
    ensures var m' := MatAdd(m, MatScale(w, Outer(y)));
            && IsSquare(m', |v|)
            && m'[i][i] == Accrued(m[i][i], w, y[i], y[i])
            && Dot(m'[i], v) == Accrued(Dot(m[i], v), w, y[i], Dot(v, y))
  {
    var m', o := MatAdd(m, MatScale(w, Outer(y))), Outer(y)[i];
    assert forall j :: 0 <= j < |v| ==> m'[i][j] == Moved(m[i][j], w, o[j]);
    assert o == Scale(y[i], y) && o[i] == y[i] * y[i];
    hide Dot, MatAdd, MatScale, Accrued, Moved, Outer, Scale;
    AccruedBy(m[i][i], w, y[i], y[i], o[i]);
    AddedRow(m[i], w, y, y[i], o, m'[i], v);
  }

  lemma AddedRow(row: Vec, w: real, y: Vec, a: real, o: Vec, row': Vec, v: Vec)
    requires |row| == |y| == |o| == |row'| == |v| && o == Scale(a, y)
    requires forall j :: 0 <= j < |v| ==> row'[j] == Moved(row[j], w, o[j])
    ensures Dot(row', v) == Accrued(Dot(row, v), w, a, Dot(v, y))
  {
    hide Dot, Accrued, Moved;
    DotScaled(a, y, o, v);
    hide Scale;
    DotOfCombination(row, w, o, row', v);
    DotSymmetric(y, v);
    AccruedBy(Dot(row, v), w, a, Dot(v, y), Dot(o, v));
  }

  lemma AccruedBy(t: real, w: real, y: real, s: real, x: real)
    requires x == y * s
    ensures Moved(t, w, x) == Accrued(t, w, y, s)
  {
  }

  /** The scores of v add up likewise. */
  lemma {:induction false} MomentsOfV(v: Vec, weights: Vec, ys: seq<Vec>, k: nat, i: nat)
    requires k <= |weights| && k <= |ys| && AllOfLength(ys, |v|) && i < |v|
    ensures var m := RankMu(weights, ys, k, |v|);
            WeightedSum(weights, ScoresV(v, ys), k, |v|)[i]
            == MomentV(Shrink(v), v[i], Dot(m[i], v), Quad(m, v), SumTo(weights, k))
  {
    hide Shrink, ScoreV, Dot, Quad, MatAdd, MatScale, Outer, Accrued, ScoreValueV, Triple;
    if k == 0 {
      DotOfZero(Zeros(|v|), v);
      QuadZero(v);
    } else {
      MomentsOfV(v, weights, ys, k - 1, i);
      var m, y, w := RankMu(weights, ys, k - 1, |v|), ys[k - 1], weights[k - 1];
      ScoreVAt(v, y, i);
      AddedOuter(m, w, y, v, i);
      AddedForm(m, w, y, v);
      hide MomentV;
      MomentVAlgebra(Shrink(v), v[i], y[i], Dot(v, y), w, Dot(m[i], v), Quad(m, v), SumTo(weights, k - 1));
    }
  }

  lemma AddedForm(m: Mat, w: real, y: Vec, v: Vec)
    requires IsSquare(m, |v|) && |y| == |v|
    ensures IsSquare(MatAdd(m, MatScale(w, Outer(y))), |v|)
    ensures Quad(MatAdd(m, MatScale(w, Outer(y))), v) == Accrued(Quad(m, v), w, Dot(v, y), Dot(v, y))
  {
    hide Quad, Dot, MatScale, MatAdd, Outer;
    QuadOuter(y, v);
    DotSymmetric(y, v);
    QuadScale(w, Outer(y), v);
    QuadSum(m, MatScale(w, Outer(y)), v);
  }

  function MomentV(h: real, a: real, t: real, f: real, sum: real): real {
    h * t - (h * h) * (a * f) - (h * a) * sum
  }

  lemma MomentVAlgebra(h: real, a: real, y: real, s: real, w: real, t: real, f: real, sum: real)
    ensures MomentV(h, a, t, f, sum) + w * ScoreValueV(h, s, y, a)
         == MomentV(h, a, Accrued(t, w, y, s), Accrued(f, w, s, s), sum + w)
  {
    assert w * ((h * s) * (y - h * a * s) - h * a) == h * (w * (y * s)) - (h * h) * (a * (w * (s * s))) - (h * a) * w;
    assert (h * h) * (a * (f + w * (s * s))) == (h * h) * (a * f) + (h * h) * (a * (w * (s * s)));
  }

  /** Sample points whose weighted second moments are I + vv', under weights that sum to one, have no
      gradient. */
  lemma NoGradient(v: Vec, weights: Vec, ys: seq<Vec>, k: nat)
    requires k <= |weights| && k <= |ys| && AllOfLength(ys, |v|)
    requires SumTo(weights, k) == 1.0 && RankMu(weights, ys, k, |v|) == Shape(v)
    ensures WeightedSum(weights, ScoresD(v, ys), k, |v|) == Zeros(|v|)
    ensures WeightedSum(weights, ScoresV(v, ys), k, |v|) == Zeros(|v|)
  {
    hide Shape, Dot, RankMu, WeightedSum, ScoresV, ScoresD, Shrink, Quad, MomentD, MomentV;
    forall i | 0 <= i < |v|
      ensures WeightedSum(weights, ScoresD(v, ys), k, |v|)[i] == 0.0
      ensures WeightedSum(weights, ScoresV(v, ys), k, |v|)[i] == 0.0
    {
      MomentsOfD(v, weights, ys, k, i);
      MomentsOfV(v, weights, ys, k, i);
      RestingMoments(v, i);
    }
  }

  lemma RestingMoments(v: Vec, i: nat)
    requires i < |v|
    ensures MomentD(Shape(v)[i][i], Shrink(v), v[i], Dot(Shape(v)[i], v), 1.0) == 0.0
    ensures MomentV(Shrink(v), v[i], Dot(Shape(v)[i], v), Quad(Shape(v), v), 1.0) == 0.0
  {
    hide Shape, Dot, Quad, MomentD, MomentV, Shrink;
    ShapeForm(v);
    ShapeMoments(v, i);
    RestAlgebra(Shrink(v), Dot(v, v), v[i], Shape(v)[i][i], Dot(Shape(v)[i], v), Quad(Shape(v), v));
  }

  lemma ShapeMoments(v: Vec, i: nat)
    requires i < |v|
    ensures Shape(v)[i][i] == 1.0 + v[i] * v[i] && Dot(Shape(v)[i], v) == v[i] * (1.0 + Dot(v, v))
  {
    ShapeEntry(v, i, i);
    hide Shape, Dot;
    ShapeRow(v, v, i);
  }

  lemma ShapeForm(v: Vec)
    ensures Quad(Shape(v), v) == (1.0 + Dot(v, v)) * Dot(v, v)
  {
    hide Shape, Dot;
    var n := Dot(v, v);
    forall i | 0 <= i < |v| ensures Apply(Shape(v), v)[i] == (1.0 + n) * v[i] {
      ShapeRow(v, v, i);
      assert v[i] + v[i] * n == (1.0 + n) * v[i];
    }
    hide Apply;
    DotScaled(1.0 + n, v, Apply(Shape(v), v), v);
  }

  lemma RestAlgebra(h: real, n: real, a: real, d: real, t: real, f: real)
    requires h * (1.0 + n) == 1.0 && d == 1.0 + a * a && t == a * (1.0 + n) && f == (1.0 + n) * n
    ensures MomentD(d, h, a, t, 1.0) == 0.0 && MomentV(h, a, t, f, 1.0) == 0.0
  {
    assert h * (a * t) == (h * (1.0 + n)) * (a * a);
    assert h * t == (h * (1.0 + n)) * a;
    assert (h * h) * (a * f) == (h * (1.0 + n)) * ((h * a) * n);
    assert (h * a) * n + h * a == (h * (1.0 + n)) * a;
  }

  /** The natural step rests where the sample already has the covariance of the model, when the path does
      not count. */
  lemma StationaryStep(sqrt: Fn, p: UpdateParameters, ys: seq<Vec>, ym: Vec, hsig: bool, d: Vec, v: Vec,
                       d': Vec, v': Vec)
    requires NonZero(sqrt, v) && |p.weights| == p.mu <= |ys| && |ym| == |d| == |v| == p.dim && AllOfLength(ys, p.dim)
    requires SumTo(p.weights, p.mu) == 1.0 && RankMu(p.weights, ys, p.mu, p.dim) == Shape(v)
    requires hsig ==> p.c1 == 0.0
    requires NaturalStep(p, CoefficientsOf(sqrt, v).alpha, ys, ym, hsig, d, v, d', v')
    ensures d' == d && v' == v
  {
    RestingGradients(p, ys, ym, hsig, v);
    var alpha := CoefficientsOf(sqrt, v).alpha;
    hide NonZero, CoefficientsOf, WeightedSum, ScoresV, ScoresD, UpdateWeights, Samples, RankMu, Shape, DampedSolution,
      Add, Prod, NaturalStep;
    var dv, s := NaturalSolution(p, alpha, ys, ym, hsig, d, v, d', v');
    RestingSolution(sqrt, v, alpha, dv, s);
    NothingAdded(d, v, |v|);
  }

  /** The solution of the system that a natural step adds. */
  lemma NaturalSolution(p: UpdateParameters, alpha: real, ys: seq<Vec>, ym: Vec, hsig: bool, d: Vec, v: Vec,
                        d': Vec, v': Vec) returns (dv: Vec, s: Vec)
    requires |p.weights| == p.mu <= |ys| && |ym| == |d| == |v| == p.dim && AllOfLength(ys, p.dim)
    requires NaturalStep(p, alpha, ys, ym, hsig, d, v, d', v')
    ensures |dv| == |s| == p.dim && d' == Add(d, Prod(d, s)) && v' == Add(v, dv)
    ensures var ws, zs := UpdateWeights(p, hsig), Samples(p, ys, ym);
            DampedSolution(v, alpha, dv, s, WeightedSum(ws, ScoresV(v, zs), p.mu + 1, p.dim),
                           WeightedSum(ws, ScoresD(v, zs), p.mu + 1, p.dim))
  {
    hide WeightedSum, ScoresV, ScoresD, UpdateWeights, Samples, DampedSolution, Add, Prod;
    var ws, zs := UpdateWeights(p, hsig), Samples(p, ys, ym);
    dv, s :| |dv| == |s| == p.dim
      && DampedSolution(v, alpha, dv, s, WeightedSum(ws, ScoresV(v, zs), p.mu + 1, p.dim),
                        WeightedSum(ws, ScoresD(v, zs), p.mu + 1, p.dim))
      && d' == Add(d, Prod(d, s)) && v' == Add(v, dv);
  }

  lemma RestingSolution(sqrt: Fn, v: Vec, alpha: real, dv: Vec, s: Vec)
    requires NonZero(sqrt, v) && alpha == CoefficientsOf(sqrt, v).alpha && |dv| == |s| == |v|
    requires DampedSolution(v, alpha, dv, s, Zeros(|v|), Zeros(|v|))
    ensures dv == s == Zeros(|v|)
  {
    hide NonZero, CoefficientsOf, DampedSolution;
    ZeroSolution(v, alpha);
    DampedSolutionUnique(sqrt, v, dv, s, Zeros(|v|), Zeros(|v|), Zeros(|v|), Zeros(|v|));
  }

  lemma NothingAdded(d: Vec, v: Vec, n: nat)
    requires |d| == |v| == n
    ensures Add(d, Prod(d, Zeros(n))) == d && Add(v, Zeros(n)) == v
  {
  }

  lemma RestingGradients(p: UpdateParameters, ys: seq<Vec>, ym: Vec, hsig: bool, v: Vec)
    requires |p.weights| == p.mu <= |ys| && |ym| == |v| == p.dim && AllOfLength(ys, p.dim)
    requires SumTo(p.weights, p.mu) == 1.0 && RankMu(p.weights, ys, p.mu, p.dim) == Shape(v)
    requires hsig ==> p.c1 == 0.0
    ensures var ws, zs := UpdateWeights(p, hsig), Samples(p, ys, ym);
            && WeightedSum(ws, ScoresV(v, zs), p.mu + 1, p.dim) == Zeros(p.dim)
            && WeightedSum(ws, ScoresD(v, zs), p.mu + 1, p.dim) == Zeros(p.dim)
  {
    var zs := Samples(p, ys, ym);
    ScoresAgree(p, ys, ym, v);
    hide ScoresV, ScoresD, RankMu, Shape, WeightedSum, UpdateWeights, SumTo, Samples;
    NoGradient(v, p.weights, ys, p.mu);
    RestingSum(p, hsig, ScoresV(v, ys), ScoresV(v, zs));
    RestingSum(p, hsig, ScoresD(v, ys), ScoresD(v, zs));
  }

  lemma ScoresAgree(p: UpdateParameters, ys: seq<Vec>, ym: Vec, v: Vec)
    requires p.mu <= |ys| && |ym| == |v| == p.dim && AllOfLength(ys, p.dim)
    ensures forall i :: 0 <= i < p.mu ==> ScoresV(v, Samples(p, ys, ym))[i] == ScoresV(v, ys)[i]
    ensures forall i :: 0 <= i < p.mu ==> ScoresD(v, Samples(p, ys, ym))[i] == ScoresD(v, ys)[i]
  {
    hide ScoreV, ScoreD;
  }

  lemma RestingSum(p: UpdateParameters, hsig: bool, terms: seq<Vec>, zs: seq<Vec>)
    requires |p.weights| == p.mu <= |terms| && |zs| == p.mu + 1
    requires AllOfLength(terms, p.dim) && AllOfLength(zs, p.dim) && forall i :: 0 <= i < p.mu ==> zs[i] == terms[i]
    requires WeightedSum(p.weights, terms, p.mu, p.dim) == Zeros(p.dim) && (hsig ==> p.c1 == 0.0)
    ensures WeightedSum(UpdateWeights(p, hsig), zs, p.mu + 1, p.dim) == Zeros(p.dim)
  {
    ScaledSumOf(p.cmu, p.weights, if hsig then p.c1 else 0.0, terms, zs, p.mu, p.dim);
    assert UpdateWeights(p, hsig)[p.mu] == 0.0;
    assert Scale(p.cmu, Zeros(p.dim)) == Zeros(p.dim);
    AddNothing(Zeros(p.dim), zs[p.mu]);
  }
}
