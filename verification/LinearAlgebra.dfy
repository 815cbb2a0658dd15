/** Vectors and square matrices of reals, with the sums the optimiser's linear algebra is made of.
    A dense vector or matrix of the program is a sequence (of rows); sums run over a prefix, so that
    they follow the accumulation loops. */
module LinearAlgebra {
  import opened RealFunctions

  type Vec = seq<real>
  type Mat = seq<Vec>

  /** Sum of u[i] * v[i] over i < n. */
  function DotTo(u: Vec, v: Vec, n: nat): real
    requires n <= |u| && n <= |v|
  {
    if n == 0 then 0.0 else DotTo(u, v, n - 1) + u[n - 1] * v[n - 1]
  }

  function Dot(u: Vec, v: Vec): real
    requires |u| == |v|
  {
    DotTo(u, v, |u|)
  }

  /** Sum of v[i] over i < n. */
  function SumTo(v: Vec, n: nat): real
    requires n <= |v|
  {
    if n == 0 then 0.0 else SumTo(v, n - 1) + v[n - 1]
  }

  function Sum(v: Vec): real {
    SumTo(v, |v|)
  }

  function Zeros(n: nat): Vec {
    seq(n, _ => 0.0)
  }

  function Ones(n: nat): Vec {
    seq(n, _ => 1.0)
  }

  predicate IsZero(v: Vec) {
    forall i :: 0 <= i < |v| ==> v[i] == 0.0
  }

  function Scale(a: real, v: Vec): (r: Vec)
    ensures |r| == |v|
  {
    seq(|v|, i requires 0 <= i < |v| => a * v[i])
  }

  function Add(u: Vec, v: Vec): (r: Vec)
    requires |u| == |v|
    ensures |r| == |u|
  {
    seq(|u|, i requires 0 <= i < |u| => u[i] + v[i])
  }

  function Sub(u: Vec, v: Vec): (r: Vec)
    requires |u| == |v|
    ensures |r| == |u|
  {
    seq(|u|, i requires 0 <= i < |u| => u[i] - v[i])
  }

  /** Componentwise product. */
  function Prod(u: Vec, v: Vec): (r: Vec)
    requires |u| == |v|
    ensures |r| == |u|
  {
    seq(|u|, i requires 0 <= i < |u| => u[i] * v[i])
  }

  /** Every component divided by d. */
  function Divide(v: Vec, d: real): (r: Vec)
    requires d != 0.0
    ensures |r| == |v|
  {
    seq(|v|, i requires 0 <= i < |v| => v[i] / d)
  }

  /** Componentwise inverse. */
  function Inverse(v: Vec): (r: Vec)
    requires forall i :: 0 <= i < |v| ==> v[i] != 0.0
    ensures |r| == |v|
  {
    seq(|v|, i requires 0 <= i < |v| => 1.0 / v[i])
  }

  /** The largest component. */
  function MaxCoeff(v: Vec): (m: real)
    requires |v| > 0
    ensures m in v && forall i :: 0 <= i < |v| ==> v[i] <= m
  {
    if |v| == 1 then v[0] else Max(MaxCoeff(v[..|v| - 1]), v[|v| - 1])
  }

  predicate IsSquare(m: Mat, n: nat) {
    |m| == n && forall i :: 0 <= i < n ==> |m[i]| == n
  }

  predicate Symmetric(m: Mat) {
    && IsSquare(m, |m|)
    && forall i, j :: 0 <= i < |m| && 0 <= j < |m| ==> m[i][j] == m[j][i]
  }

  function Apply(m: Mat, x: Vec): (y: Vec)
    requires IsSquare(m, |x|)
    ensures |y| == |x|
  {
    seq(|x|, i requires 0 <= i < |x| => Dot(m[i], x))
  }

  /** The quadratic form x'Mx. */
  function Quad(m: Mat, x: Vec): real
    requires IsSquare(m, |x|)
  {
    Dot(x, Apply(m, x))
  }

  function Outer(u: Vec): (m: Mat)
    ensures IsSquare(m, |u|)
  {
    seq(|u|, i requires 0 <= i < |u| => Scale(u[i], u))
  }

  function Identity(n: nat): (m: Mat)
    ensures IsSquare(m, n)
  {
    seq(n, i requires 0 <= i < n => seq(n, j requires 0 <= j < n => if i == j then 1.0 else 0.0))
  }

  function ZeroMat(n: nat): Mat {
    seq(n, _ => Zeros(n))
  }

  function MatScale(a: real, m: Mat): Mat {
    seq(|m|, i requires 0 <= i < |m| => Scale(a, m[i]))
  }

  function MatAdd(a: Mat, b: Mat): Mat
    requires IsSquare(a, |a|) && IsSquare(b, |a|)
  {
    seq(|a|, i requires 0 <= i < |a| => Add(a[i], b[i]))
  }

  // ----- sums

  lemma {:induction false} DotComm(u: Vec, v: Vec, n: nat)
    requires n <= |u| && n <= |v|
    ensures DotTo(u, v, n) == DotTo(v, u, n)
  {
    if n > 0 { DotComm(u, v, n - 1); }
  }

  lemma DotSymmetric(u: Vec, v: Vec)
    requires |u| == |v|
    ensures Dot(u, v) == Dot(v, u)
  {
    DotComm(u, v, |u|);
  }

  lemma {:induction false} DotCong(u: Vec, u': Vec, v: Vec, v': Vec, n: nat)
    requires n <= |u| && n <= |u'| && n <= |v| && n <= |v'|
    requires forall i :: 0 <= i < n ==> u[i] * v[i] == u'[i] * v'[i]
    ensures DotTo(u, v, n) == DotTo(u', v', n)
  {
    if n > 0 { DotCong(u, u', v, v', n - 1); }
  }

  /** A linear combination. */
  function Blend(a: real, q: real, b: real, r: real): real {
    a * q + b * r
  }

  /** The inner product is linear: this one lemma carries most of the algebra below. */
  lemma {:induction false} DotLinear(a: real, u: Vec, b: real, v: Vec, z: Vec, w: Vec, n: nat)
    requires n <= |u| && n <= |v| && n <= |z| && n <= |w|
    requires forall i :: 0 <= i < n ==> z[i] == Blend(a, u[i], b, v[i])
    ensures DotTo(z, w, n) == Blend(a, DotTo(u, w, n), b, DotTo(v, w, n))
    ensures DotTo(w, z, n) == Blend(a, DotTo(w, u, n), b, DotTo(w, v, n))
  {
    hide Blend;
    if n == 0 {
      BlendZero(a, b);
    } else {
      var k := n - 1;
      DotLinear(a, u, b, v, z, w, k);
      LinearStep(a, u[k], b, v[k], z[k], w[k], DotTo(u, w, k), DotTo(v, w, k), DotTo(u, w, n), DotTo(v, w, n));
      LinearStep(a, u[k], b, v[k], z[k], w[k], DotTo(w, u, k), DotTo(w, v, k), DotTo(w, u, n), DotTo(w, v, n));
    }
  }

  lemma BlendZero(a: real, b: real)
    ensures Blend(a, 0.0, b, 0.0) == 0.0
  {
  }

  lemma LinearStep(a: real, x: real, b: real, y: real, z: real, w: real, s: real, t: real, s': real, t': real)
    requires z == Blend(a, x, b, y) && s' == s + x * w && t' == t + y * w
    ensures Blend(a, s', b, t') == Blend(a, s, b, t) + z * w
  {
    assert (a * x + b * y) * w == a * (x * w) + b * (y * w);
  }

  lemma {:induction false} SumLinear(a: real, u: Vec, b: real, v: Vec, z: Vec, n: nat)
    requires n <= |u| && n <= |v| && n <= |z|
    requires forall i :: 0 <= i < n ==> z[i] == a * u[i] + b * v[i]
    ensures SumTo(z, n) == a * SumTo(u, n) + b * SumTo(v, n)
  {
    if n > 0 { SumLinear(a, u, b, v, z, n - 1); }
  }

  lemma {:induction false} DotZero(u: Vec, v: Vec, n: nat)
    requires n <= |u| && n <= |v|
    requires forall i :: 0 <= i < n ==> u[i] * v[i] == 0.0
    ensures DotTo(u, v, n) == 0.0
  {
    if n > 0 { DotZero(u, v, n - 1); }
  }

  /** Moving one coordinate of v moves the inner product by that coordinate alone. */
  lemma {:induction false} DotUpdate(u: Vec, v: Vec, k: nat, d: real, n: nat)
    requires n <= |u| && n <= |v| && k < |v|
    ensures DotTo(u, v[k := v[k] + d], n) == DotTo(u, v, n) + (if k < n then d * u[k] else 0.0)
  {
    if n > 0 {
      DotUpdate(u, v, k, d, n - 1);
      if k == n - 1 {
        assert u[k] * (v[k] + d) == u[k] * v[k] + d * u[k];
      }
    }
  }

  lemma {:induction false} SumUpdate(v: Vec, k: nat, d: real, n: nat)
    requires n <= |v| && k < |v|
    ensures SumTo(v[k := v[k] + d], n) == SumTo(v, n) + (if k < n then d else 0.0)
  {
    if n > 0 { SumUpdate(v, k, d, n - 1); }
  }

  lemma {:induction false} SumNonNegative(v: Vec, n: nat)
    requires n <= |v| && forall i :: 0 <= i < n ==> v[i] >= 0.0
    ensures SumTo(v, n) >= 0.0
    ensures forall i :: 0 <= i < n ==> v[i] <= SumTo(v, n)
  {
    if n > 0 { SumNonNegative(v, n - 1); }
  }

  /** A squared norm is non-negative, and positive exactly on the non-zero vectors. */
  lemma {:induction false} SquaredNorm(v: Vec, n: nat)
    requires n <= |v|
    ensures DotTo(v, v, n) >= 0.0
    ensures DotTo(v, v, n) == 0.0 <==> forall i :: 0 <= i < n ==> v[i] == 0.0
  {
    if n > 0 {
      SquaredNorm(v, n - 1);
      SquareSign(v[n - 1], v[n - 1] * v[n - 1]);
    }
  }

  lemma {:induction false} SumOfSquares(v: Vec, n: nat)
    requires n <= |v|
    ensures SumTo(Prod(v, v), n) == DotTo(v, v, n)
  {
    if n > 0 { SumOfSquares(v, n - 1); }
  }

  lemma SquaredNormPositive(v: Vec)
    ensures Dot(v, v) >= 0.0
    ensures Dot(v, v) > 0.0 <==> !IsZero(v)
  {
    SquaredNorm(v, |v|);
  }

  // ----- quadratic forms

  /** A quadratic form is linear in its matrix. */
  lemma QuadLinear(a: real, m1: Mat, b: real, m2: Mat, m: Mat, x: Vec)
    requires IsSquare(m1, |x|) && IsSquare(m2, |x|) && IsSquare(m, |x|)
    requires forall i, j :: 0 <= i < |x| && 0 <= j < |x| ==> m[i][j] == Blend(a, m1[i][j], b, m2[i][j])
    ensures Quad(m, x) == Blend(a, Quad(m1, x), b, Quad(m2, x))
  {
    forall i | 0 <= i < |x|
      ensures Apply(m, x)[i] == Blend(a, Apply(m1, x)[i], b, Apply(m2, x)[i])
    {
      DotLinear(a, m1[i], b, m2[i], m[i], x, |x|);
    }
    DotLinear(a, Apply(m1, x), b, Apply(m2, x), Apply(m, x), x, |x|);
  }

  lemma QuadScale(a: real, m: Mat, x: Vec)
    requires IsSquare(m, |x|)
    ensures IsSquare(MatScale(a, m), |x|) && Quad(MatScale(a, m), x) == a * Quad(m, x)
  {
    var r := MatScale(a, m);
    assert forall i, j :: 0 <= i < |x| && 0 <= j < |x| ==> r[i][j] == Blend(a, m[i][j], 0.0, m[i][j]);
    hide Quad, MatScale;
    QuadLinear(a, m, 0.0, m, r, x);
  }

  lemma QuadSum(m1: Mat, m2: Mat, x: Vec)
    requires IsSquare(m1, |x|) && IsSquare(m2, |x|)
    ensures IsSquare(MatAdd(m1, m2), |x|) && Quad(MatAdd(m1, m2), x) == Quad(m1, x) + Quad(m2, x)
  {
    var r := MatAdd(m1, m2);
    assert forall i, j :: 0 <= i < |x| && 0 <= j < |x| ==> r[i][j] == Blend(1.0, m1[i][j], 1.0, m2[i][j]);
    hide Quad, MatAdd;
    QuadLinear(1.0, m1, 1.0, m2, r, x);
  }

  lemma QuadCombined(a: real, m1: Mat, b: real, m2: Mat, x: Vec)
    requires IsSquare(m1, |x|) && IsSquare(m2, |x|)
    ensures IsSquare(MatScale(a, m1), |x|) && IsSquare(MatScale(b, m2), |x|)
    ensures var m := MatAdd(MatScale(a, m1), MatScale(b, m2));
            IsSquare(m, |x|) && Quad(m, x) == Blend(a, Quad(m1, x), b, Quad(m2, x))
  {
    hide Quad, MatAdd, MatScale;
    QuadScale(a, m1, x);
    QuadScale(b, m2, x);
    QuadSum(MatScale(a, m1), MatScale(b, m2), x);
  }

  lemma SymmetricScale(a: real, m: Mat)
    requires Symmetric(m)
    ensures Symmetric(MatScale(a, m)) && |MatScale(a, m)| == |m|
  {
  }

  lemma SymmetricAdd(m1: Mat, m2: Mat)
    requires Symmetric(m1) && Symmetric(m2) && |m1| == |m2|
    ensures Symmetric(MatAdd(m1, m2)) && |MatAdd(m1, m2)| == |m1|
  {
  }

  lemma OuterSymmetric(u: Vec)
    ensures Symmetric(Outer(u)) && |Outer(u)| == |u|
  {
    assert forall i, j :: 0 <= i < |u| && 0 <= j < |u| ==> u[i] * u[j] == u[j] * u[i];
  }

  lemma DotScaled(c: real, u: Vec, z: Vec, w: Vec)
    requires |u| == |z| == |w| && forall i :: 0 <= i < |z| ==> z[i] == c * u[i]
    ensures Dot(z, w) == c * Dot(u, w) && Dot(w, z) == c * Dot(u, w)
  {
    hide DotTo;
    DotLinear(c, u, 0.0, u, z, w, |z|);
    DotComm(u, w, |z|);
  }

  lemma DotOfZero(u: Vec, v: Vec)
    requires |u| == |v| && IsZero(u)
    ensures Dot(u, v) == 0.0
  {
    DotZero(u, v, |u|);
  }

  lemma QuadOuter(u: Vec, x: Vec)
    requires |u| == |x|
    ensures IsSquare(Outer(u), |x|)
    ensures Quad(Outer(u), x) == Dot(u, x) * Dot(u, x)
  {
    var c, y := Dot(u, x), Apply(Outer(u), x);
    forall i | 0 <= i < |x| ensures y[i] == c * u[i] {
      DotScaled(u[i], u, Outer(u)[i], x);
    }
    assert Quad(Outer(u), x) == Dot(x, y);
    hide Apply, Outer, Quad, DotTo;
    DotScaled(c, u, y, x);
  }

  lemma QuadIdentity(x: Vec)
    ensures Quad(Identity(|x|), x) == Dot(x, x)
  {
    var n := |x|;
    forall i | 0 <= i < n
      ensures Apply(Identity(n), x)[i] == x[i]
    {
      RowOfIdentity(x, i, n);
    }
    assert Apply(Identity(n), x) == x;
  }

  lemma {:induction false} RowOfIdentity(x: Vec, i: nat, n: nat)
    requires i < |x| && n <= |x|
    ensures DotTo(Identity(|x|)[i], x, n) == if i < n then x[i] else 0.0
  {
    if n > 0 { RowOfIdentity(x, i, n - 1); }
  }

  /** For a symmetric matrix, x'(My) == (Mx)'y: the double sum may be taken in either order. */
  lemma SelfAdjoint(m: Mat, x: Vec, y: Vec)
    requires Symmetric(m) && |m| == |x| == |y|
    ensures Dot(x, Apply(m, y)) == Dot(Apply(m, x), y)
  {
    SelfAdjointTo(m, x, y, |x|, Apply(m, y));
  }

  /** The value s moved by d times t. */
  function Moved(s: real, d: real, t: real): real {
    s + d * t
  }

  lemma DotUnroll(u: Vec, v: Vec, k: nat)
    requires 0 < k <= |u| && k <= |v|
    ensures DotTo(u, v, k) == Moved(DotTo(u, v, k - 1), v[k - 1], u[k - 1])
    ensures DotTo(u, v, k) == Moved(DotTo(u, v, k - 1), u[k - 1], v[k - 1])
  {
  }

  lemma DotOfCombination(q: Vec, c: real, r: Vec, p: Vec, x: Vec)
    requires |q| == |r| == |p| == |x| && forall i :: 0 <= i < |p| ==> p[i] == Moved(q[i], c, r[i])
    ensures Dot(x, p) == Moved(Dot(x, q), c, Dot(r, x)) && Dot(p, x) == Moved(Dot(q, x), c, Dot(r, x))
  {
    hide DotTo;
    DotLinear(1.0, q, c, r, p, x, |x|);
    DotComm(p, x, |x|);
    DotComm(q, x, |x|);
  }

  /** The same with the inner sums cut at k; p holds those partial sums. */
  lemma {:induction false} SelfAdjointTo(m: Mat, x: Vec, y: Vec, k: nat, p: Vec)
    requires Symmetric(m) && |m| == |x| == |y| == |p| && k <= |x|
    requires forall i :: 0 <= i < |x| ==> p[i] == DotTo(m[i], y, k)
    ensures Dot(x, p) == DotTo(Apply(m, x), y, k)
  {
    var n := |x|;
    if k == 0 {
      DotZero(x, p, n);
    } else {
      hide DotTo, Moved;
      var q := seq(n, i requires 0 <= i < n => DotTo(m[i], y, k - 1));
      SelfAdjointTo(m, x, y, k - 1, q);
      forall i | 0 <= i < n ensures p[i] == Moved(q[i], y[k - 1], m[k - 1][i]) {
        DotUnroll(m[i], y, k);
        assert m[i][k - 1] == m[k - 1][i];
      }
      assert Apply(m, x)[k - 1] == Dot(m[k - 1], x);
      DotUnroll(Apply(m, x), y, k);
      hide Apply, Symmetric;
      DotOfCombination(q, y[k - 1], m[k - 1], p, x);
    }
  }

  /** The value of a parabola with value q, half slope g and curvature h, at distance d. */
  function Parabolic(q: real, g: real, h: real, d: real): real {
    q + 2.0 * d * g + d * d * h
  }

  /** Moving x along coordinate k by d changes x'Mx by 2d(Mx)_k + d^2 M_kk. */
  lemma QuadUpdate(m: Mat, x: Vec, k: nat, d: real)
    requires Symmetric(m) && |m| == |x| && k < |x|
    ensures Quad(m, x[k := x[k] + d]) == Parabolic(Quad(m, x), Dot(m[k], x), m[k][k], d)
  {
    var x', mx := x[k := x[k] + d], Apply(m, x);
    assert mx[k] == Dot(m[k], x) && Quad(m, x) == Dot(x, mx);
    hide Apply, Quad, Dot, Moved, Parabolic, Symmetric;
    ApplyUpdate(m, x, k, d);
    DotMoved(mx, x, k, d);
    DotMoved(m[k], x, k, d);
    DotSymmetric(m[k], x);
    DoubleStep(Quad(m, x'), Dot(x', mx), Dot(x', m[k]), Quad(m, x), mx[k], d, m[k][k]);
  }

  lemma DotMoved(u: Vec, x: Vec, k: nat, d: real)
    requires |u| == |x| && k < |x|
    ensures Dot(x[k := x[k] + d], u) == Moved(Dot(x, u), d, u[k])
  {
    hide DotTo;
    DotUpdate(u, x, k, d, |x|);
    DotComm(u, x, |x|);
    DotComm(u, x[k := x[k] + d], |x|);
  }

  lemma ApplyUpdate(m: Mat, x: Vec, k: nat, d: real)
    requires Symmetric(m) && |m| == |x| && k < |x|
    ensures var x' := x[k := x[k] + d];
            Quad(m, x') == Moved(Dot(x', Apply(m, x)), d, Dot(x', m[k]))
  {
    hide DotTo, Moved;
    var x' := x[k := x[k] + d];
    forall i | 0 <= i < |x| ensures Apply(m, x')[i] == Moved(Apply(m, x)[i], d, m[k][i]) {
      DotMoved(m[i], x, k, d);
      DotSymmetric(m[i], x);
      DotSymmetric(m[i], x');
      assert m[i][k] == m[k][i];
    }
    assert Quad(m, x') == Dot(x', Apply(m, x'));
    DotSymmetric(m[k], x');
    hide Quad, Symmetric;
    DotOfCombination(Apply(m, x), d, m[k], Apply(m, x'), x');
  }

  lemma DoubleStep(q': real, a: real, b: real, q: real, g: real, d: real, h: real)
    requires q' == Moved(a, d, b) && a == Moved(q, d, g) && b == Moved(g, d, h)
    ensures q' == Parabolic(q, g, h, d)
  {
    assert d * b == d * g + d * d * h;
  }

  // ----- products of matrices

  /** The combination of the first k rows of m with coefficients a. */
  function RowTimes(a: Vec, m: Mat, k: nat): (r: Vec)
    requires IsSquare(m, |m|) && |a| == |m| && k <= |m|
    ensures |r| == |m|
  {
    if k == 0 then Zeros(|m|) else Add(RowTimes(a, m, k - 1), Scale(a[k - 1], m[k - 1]))
  }

  function MatMul(m1: Mat, m2: Mat): (r: Mat)
    requires IsSquare(m1, |m2|) && IsSquare(m2, |m2|)
    ensures IsSquare(r, |m2|)
  {
    seq(|m1|, i requires 0 <= i < |m1| => RowTimes(m1[i], m2, |m2|))
  }

  lemma {:induction false} RowTimesInner(a: Vec, m: Mat, k: nat, x: Vec)
    requires IsSquare(m, |m|) && |a| == |x| == |m| && k <= |m|
    ensures Dot(RowTimes(a, m, k), x) == DotTo(a, Apply(m, x), k)
  {
    var n := |m|;
    if k == 0 {
      DotZero(RowTimes(a, m, k), x, n);
    } else {
      RowTimesInner(a, m, k - 1, x);
      var p, q := RowTimes(a, m, k), RowTimes(a, m, k - 1);
      assert forall i :: 0 <= i < n ==> p[i] == Moved(q[i], a[k - 1], m[k - 1][i]);
      assert Apply(m, x)[k - 1] == Dot(m[k - 1], x);
      hide DotTo, RowTimes, Moved;
      DotUnroll(a, Apply(m, x), k);
      hide Apply;
      DotOfCombination(q, a[k - 1], m[k - 1], p, x);
    }
  }

  /** The product applies one matrix after the other. */
  lemma ApplyProduct(m1: Mat, m2: Mat, x: Vec)
    requires IsSquare(m1, |x|) && IsSquare(m2, |x|)
    ensures Apply(MatMul(m1, m2), x) == Apply(m1, Apply(m2, x))
  {
    forall i | 0 <= i < |x| ensures Apply(MatMul(m1, m2), x)[i] == Apply(m1, Apply(m2, x))[i] {
      RowTimesInner(m1[i], m2, |x|, x);
    }
  }

  /** A symmetric factor moves to the other side of the form: y'(SMS)y == (Sy)'M(Sy). */
  lemma QuadCongruence(s: Mat, m: Mat, y: Vec)
    requires Symmetric(s) && |s| == |y| && IsSquare(m, |y|)
    ensures Quad(MatMul(MatMul(s, m), s), y) == Quad(m, Apply(s, y))
  {
    hide Dot, MatMul;
    ApplyProduct(MatMul(s, m), s, y);
    ApplyProduct(s, m, Apply(s, y));
    SelfAdjoint(s, y, Apply(m, Apply(s, y)));
  }

  /** A congruence of symmetric matrices is symmetric. */
  lemma CongruenceSymmetric(s: Mat, m: Mat)
    requires Symmetric(s) && Symmetric(m) && |s| == |m|
    ensures Symmetric(MatMul(MatMul(s, m), s))
  {
    var r := MatMul(MatMul(s, m), s);
    hide MatMul;
    forall i, j | 0 <= i < |r| && 0 <= j < |r| ensures r[i][j] == r[j][i] {
      CongruenceEntry(s, m, i, j);
      CongruenceEntry(s, m, j, i);
      var u, v := Apply(s, Identity(|s|)[i]), Apply(s, Identity(|s|)[j]);
      SelfAdjoint(m, u, v);
      DotSymmetric(Apply(m, u), v);
    }
  }

  /** Entry (i,j) of the congruence, as the form of m between the columns i and j of s. */
  lemma CongruenceEntry(s: Mat, m: Mat, i: nat, j: nat)
    requires Symmetric(s) && Symmetric(m) && |s| == |m| && i < |s| && j < |s|
    ensures |Identity(|s|)[i]| == |Identity(|s|)[j]| == |s|
    ensures MatMul(MatMul(s, m), s)[i][j]
         == Dot(Apply(s, Identity(|s|)[i]), Apply(m, Apply(s, Identity(|s|)[j])))
  {
    var r, e, f := MatMul(MatMul(s, m), s), Identity(|s|)[i], Identity(|s|)[j];
    assert |e| == |f| == |s|;
    ColumnOf(r, i, j);
    hide MatMul, Identity, DotTo;
    ApplyProduct(MatMul(s, m), s, f);
    ApplyProduct(s, m, Apply(s, f));
    SelfAdjoint(s, e, Apply(m, Apply(s, f)));
  }

  /** Entry (i,j) of a matrix, as the form between two unit vectors. */
  lemma ColumnOf(r: Mat, i: nat, j: nat)
    requires IsSquare(r, |r|) && i < |r| && j < |r|
    ensures |Identity(|r|)[i]| == |Identity(|r|)[j]| == |r|
    ensures r[i][j] == Dot(Identity(|r|)[i], Apply(r, Identity(|r|)[j]))
  {
    var e, f := Identity(|r|)[i], Identity(|r|)[j];
    RowOfIdentity(Apply(r, f), i, |r|);
    RowOfIdentity(r[i], j, |r|);
    DotComm(f, r[i], |r|);
  }
}
