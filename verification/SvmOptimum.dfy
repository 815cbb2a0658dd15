/** How far from the optimum of the dual the trainer can come to rest. */
module SvmOptimum {
  import opened LinearAlgebra
  import opened RealFunctions
  import opened RankingSvm

  /** The matrix is a Gram matrix as far as its form is concerned. */
  ghost predicate NonNegativeForm(m: Mat) {
    IsSquare(m, |m|) && forall x: Vec :: |x| == |m| ==> Quad(m, x) >= 0.0
  }

  /** The weights of the multipliers in the bound. */
  function DiagonalOf(m: Mat): (d: Vec)
    requires IsSquare(m, |m|)
    ensures |d| == |m|
  {
    seq(|m|, k requires 0 <= k < |m| => m[k][k])
  }

  /** When a whole sweep changes nothing, no point of the box has a dual that is larger by more than
      2 eps sum K_kk alpha_k. */
  lemma IdleSweepIsNearOptimal(dK: Mat, c: Vec, eps: real, s: State, b: Vec)
    requires Symmetric(dK) && NonNegativeForm(dK) && Cached(dK, eps, s) && eps > 0.0
    requires InBox(c, s.alpha) && InBox(c, b) && |c| == |dK|
    requires (forall k :: 0 <= k < |dK| ==> dK[k][k] > 0.0) && Idle(dK, c, eps, s)
    ensures DualValue(dK, eps, b) <= DualValue(dK, eps, s.alpha) + 2.0 * eps * Dot(DiagonalOf(dK), s.alpha)
  {
    hide Quad, DotTo, DualValue, Step, Idle, SumTo, DiagonalOf, Slopes, SlopesBelow, Sub, Add, Symmetric;
    var a, u := s.alpha, Sub(b, s.alpha);
    SumOfDifference(a, b);
    DualAlong(dK, eps, a, u);
    IdleSlopes(dK, c, eps, s, b);
    DiagonalBound(Slopes(dK, eps, a), u, dK, a, 2.0 * eps, |dK|);
  }

  /** What the trainer returns after n iterations, when the sweep before them changed no multiplier: it is
      the state of every longer training too, and no point of the box is better by more than
      2 eps sum K_kk alpha_k. */
  lemma QuietTraining(dK: Mat, c: Vec, eps: real, draws: Vec, n: nat, b: Vec)
    requires Symmetric(dK) && NonNegativeForm(dK) && |dK| > 0 && eps > 0.0 && |c| == |draws| == |dK|
    requires forall i :: 0 <= i < |dK| ==> c[i] >= 0.0 && 0.0 <= draws[i] < 1.0 && dK[i][i] > 0.0
    requires InBox(c, b) && n >= |dK|
    requires var s := Start(dK, c, eps, draws); Run(dK, c, eps, s, n).alpha == Run(dK, c, eps, s, n - |dK|).alpha
    ensures var s := Start(dK, c, eps, draws);
            var a := Run(dK, c, eps, s, n).alpha;
            && DualValue(dK, eps, b) <= DualValue(dK, eps, a) + 2.0 * eps * Dot(DiagonalOf(dK), a)
            && forall m :: m >= n ==> Run(dK, c, eps, s, m).alpha == a
  {
    hide DualValue, Start, Run, Dot, DiagonalOf, Step, Quad, Cached, InBox;
    var s := Start(dK, c, eps, draws);
    StartInvariant(dK, c, eps, draws);
    QuietSweepIffIdle(dK, c, eps, s, n - |dK|);
    RunKeepsState(dK, c, eps, s, n);
    IdleSweepIsNearOptimal(dK, c, eps, Run(dK, c, eps, s, n), b);
  }

  lemma SumOfDifference(a: Vec, b: Vec)
    requires |a| == |b|
    ensures Add(a, Sub(b, a)) == b
  {
  }

  predicate SlopesBelow(g: Vec, u: Vec, dK: Mat, a: Vec, e: real)
    requires IsSquare(dK, |dK|) && |g| == |u| == |dK| == |a|
  {
    forall k :: 0 <= k < |dK| ==> g[k] * u[k] <= e * (dK[k][k] * a[k])
  }

  lemma IdleSlopes(dK: Mat, c: Vec, eps: real, s: State, b: Vec)
    requires Symmetric(dK) && Cached(dK, eps, s) && eps > 0.0
    requires InBox(c, s.alpha) && InBox(c, b) && |c| == |dK|
    requires (forall k :: 0 <= k < |dK| ==> dK[k][k] > 0.0) && Idle(dK, c, eps, s)
    ensures SlopesBelow(Slopes(dK, eps, s.alpha), Sub(b, s.alpha), dK, s.alpha, 2.0 * eps)
  {
    hide Dot, Step, Cached;
    var a, g, u := s.alpha, Slopes(dK, eps, s.alpha), Sub(b, s.alpha);
    forall k | 0 <= k < |dK| ensures g[k] * u[k] <= 2.0 * eps * (dK[k][k] * a[k]) {
      IdleSlope(dK, c, eps, s, k, b[k]);
    }
  }

  /** The partial derivatives of the dual. */
  function Slopes(dK: Mat, eps: real, a: Vec): (g: Vec)
    requires IsSquare(dK, |dK|) && |a| == |dK|
    ensures |g| == |dK|
  {
    seq(|dK|, k requires 0 <= k < |dK| => eps - Dot(dK[k], a))
  }

  lemma {:induction false} DiagonalBound(g: Vec, u: Vec, dK: Mat, a: Vec, e: real, n: nat)
    requires IsSquare(dK, |dK|) && n <= |g| == |u| == |dK| == |a|
    requires SlopesBelow(g, u, dK, a, e)
    ensures DotTo(g, u, n) <= e * DotTo(DiagonalOf(dK), a, n)
  {
    if n > 0 {
      DiagonalBound(g, u, dK, a, e, n - 1);
      var k := n - 1;
      assert DiagonalOf(dK)[k] == dK[k][k];
      hide DiagonalOf;
      Distributed(e, DotTo(DiagonalOf(dK), a, k), dK[k][k] * a[k]);
    }
  }

  lemma Distributed(e: real, s: real, t: real)
    ensures e * (s + t) == e * s + e * t
  {
  }

  /** The dual is a concave parabola along every direction. */
  lemma DualAlong(dK: Mat, eps: real, a: Vec, u: Vec)
    requires Symmetric(dK) && |a| == |u| == |dK|
    ensures DualValue(dK, eps, Add(a, u))
         == DualValue(dK, eps, a) + Dot(Slopes(dK, eps, a), u) - 0.5 * Quad(dK, u)
  {
    hide Quad, DotTo, SumTo, Add, Slopes;
    QuadOfSum(dK, a, u);
    SumOfSum(a, u, |a|);
    SlopeProduct(dK, eps, a, u);
    DualAlgebra(eps, Sum(a), Sum(u), Sum(Add(a, u)), Quad(dK, a), Dot(u, Apply(dK, a)), Quad(dK, u),
                Quad(dK, Add(a, u)));
  }

  lemma DualAlgebra(eps: real, sa: real, su: real, sb: real, qa: real, p: real, qu: real, qb: real)
    requires sb == sa + su && qb == qa + 2.0 * p + qu
    ensures eps * sb - 0.5 * qb == (eps * sa - 0.5 * qa) + (eps * su - p) - 0.5 * qu
  {
  }

  lemma {:induction false} SumOfSum(a: Vec, u: Vec, n: nat)
    requires n <= |a| == |u|
    ensures SumTo(Add(a, u), n) == SumTo(a, n) + SumTo(u, n)
  {
    if n > 0 { SumOfSum(a, u, n - 1); }
  }

  lemma SlopeProduct(dK: Mat, eps: real, a: Vec, u: Vec)
    requires IsSquare(dK, |dK|) && |a| == |u| == |dK|
    ensures Dot(Slopes(dK, eps, a), u) == eps * Sum(u) - Dot(u, Apply(dK, a))
  {
    var g, p, one := Slopes(dK, eps, a), Apply(dK, a), Ones(|dK|);
    forall k | 0 <= k < |dK| ensures g[k] == Blend(eps, one[k], -1.0, p[k]) {
      hide Dot;
      assert one[k] == 1.0 && p[k] == Dot(dK[k], a);
    }
    hide Slopes, Apply;
    DotLinear(eps, one, -1.0, p, g, u, |u|);
    DotOfOnes(u, |u|);
    DotComm(p, u, |u|);
  }

  lemma {:induction false} DotOfOnes(u: Vec, n: nat)
    requires n <= |u|
    ensures DotTo(Ones(|u|), u, n) == SumTo(u, n)
  {
    if n > 0 { DotOfOnes(u, n - 1); }
  }

  /** The form of a sum. */
  lemma QuadOfSum(m: Mat, a: Vec, u: Vec)
    requires Symmetric(m) && |a| == |u| == |m|
    ensures Quad(m, Add(a, u)) == Quad(m, a) + 2.0 * Dot(u, Apply(m, a)) + Quad(m, u)
  {
    var b, p, q := Add(a, u), Apply(m, a), Apply(m, u);
    ApplyOfSum(m, a, u);
    assert forall i :: 0 <= i < |b| ==> b[i] == Blend(1.0, a[i], 1.0, u[i]);
    assert Quad(m, b) == Dot(b, Apply(m, b)) && Quad(m, a) == Dot(a, p) && Quad(m, u) == Dot(u, q);
    hide Add, Apply, DotTo, Quad;
    DotLinear(1.0, p, 1.0, q, Apply(m, b), b, |b|);
    DotLinear(1.0, a, 1.0, u, b, p, |b|);
    DotLinear(1.0, a, 1.0, u, b, q, |b|);
    SelfAdjoint(m, a, u);
    DotComm(p, u, |u|);
  }

  lemma ApplyOfSum(m: Mat, a: Vec, u: Vec)
    requires IsSquare(m, |m|) && |a| == |u| == |m|
    ensures forall i :: 0 <= i < |m| ==>
              Apply(m, Add(a, u))[i] == Blend(1.0, Apply(m, a)[i], 1.0, Apply(m, u)[i])
  {
    var b := Add(a, u);
    assert forall i :: 0 <= i < |b| ==> b[i] == Blend(1.0, a[i], 1.0, u[i]);
    hide Add, DotTo, Blend;
    forall i | 0 <= i < |m| ensures Apply(m, b)[i] == Blend(1.0, Apply(m, a)[i], 1.0, Apply(m, u)[i]) {
      DotLinear(1.0, a, 1.0, u, b, m[i], |b|);
    }
  }

  // ----- one idle coordinate

  /** Where the step is idle, the slope towards any point of the box is at most 2 eps K_kk alpha_k. */
  lemma IdleSlope(dK: Mat, c: Vec, eps: real, s: State, k: nat, t: real)
    requires Symmetric(dK) && Cached(dK, eps, s) && InBox(c, s.alpha) && |c| == |dK| && eps > 0.0
    requires k < |dK| && dK[k][k] > 0.0 && 0.0 <= t <= c[k] && Step(dK, c, eps, s, k) == s
    ensures (eps - Dot(dK[k], s.alpha)) * (t - s.alpha[k]) <= 2.0 * eps * (dK[k][k] * s.alpha[k])
  {
    CachedAt(dK, eps, s, k);
    IdleMove(dK, c, eps, s, k);
    hide Step, Dot, Cached;
    RestingSlope(s.alpha[k], c[k], s.sums[k], dK[k][k], eps, t, Move(c, s, k), eps - Dot(dK[k], s.alpha));
  }

  lemma IdleMove(dK: Mat, c: Vec, eps: real, s: State, k: nat)
    requires Symmetric(dK) && Cached(dK, eps, s) && InBox(c, s.alpha) && |c| == |dK| && eps > 0.0
    requires k < |dK| && dK[k][k] > 0.0 && Step(dK, c, eps, s, k) == s
    ensures var d := Move(c, s, k); d == 0.0 || (d < 0.0 && s.sums[k] - 0.5 * d >= -eps)
  {
    hide DualValue, Dot, Step, Move;
    StepGain(dK, c, eps, s, k);
    if Move(c, s, k) != 0.0 { MovedAway(s.alpha, k, Move(c, s, k)); }
  }

  lemma MovedAway(a: Vec, k: nat, d: real)
    requires k < |a| && d != 0.0
    ensures a[k := a[k] + d] != a
  {
    assert a[k := a[k] + d][k] != a[k];
  }

  lemma RestingSlope(a: real, c: real, r: real, h: real, eps: real, t: real, d: real, g: real)
    requires 0.0 <= a <= c && 0.0 <= t <= c && h > 0.0 && eps > 0.0 && g == h * r && d == Clamp(a + r, c) - a
    requires d == 0.0 || (d < 0.0 && r - 0.5 * d >= -eps)
    ensures g * (t - a) <= 2.0 * eps * (h * a)
  {
    var w, v := r * (t - a), h * a;
    ProductSign(h, a, v);
    ProductSign(eps, v, eps * v);
    assert g * (t - a) == h * w;
    if r >= 0.0 {
      // an upward residual without a move: the multiplier is at the top of its box
      if r > 0.0 { assert a == c; }
      ProductSign(r, a - t, r * (a - t));
      ProductSign(h, -w, -(h * w));
    } else {
      assert a == 0.0 || r >= -2.0 * eps;
      DownwardSlope(r, t, a, h, eps, w);
    }
  }

  lemma DownwardSlope(r: real, t: real, a: real, h: real, eps: real, w: real)
    requires r < 0.0 && (a == 0.0 || r >= -2.0 * eps) && t >= 0.0 && a >= 0.0 && h > 0.0 && eps > 0.0
    requires w == r * (t - a)
    ensures h * w <= 2.0 * eps * (h * a)
  {
    ProductSign(-r, t, -(r * t));
    ProductSign(2.0 * eps + r, a, (2.0 * eps + r) * a);
    var b := 2.0 * eps * a;
    assert w == r * t - r * a && w <= b;
    ProductSign(h, b - w, h * (b - w));
    assert h * b == 2.0 * eps * (h * a);
  }

  // ----- the linear kernel

  /** The linear combination of the first n vectors. */
  function Combined(a: Vec, w: seq<Vec>, n: nat, d: nat): (r: Vec)
    requires n <= |a| && n <= |w| && forall i :: 0 <= i < |w| ==> |w[i]| == d
    ensures |r| == d
  {
    if n == 0 then Zeros(d) else Add(Combined(a, w, n - 1, d), Scale(a[n - 1], w[n - 1]))
  }

  lemma {:induction false} CombinedInner(a: Vec, w: seq<Vec>, n: nat, v: Vec, p: Vec)
    requires n <= |a| && n <= |w| == |p| && forall i :: 0 <= i < |w| ==> |w[i]| == |v|
    requires forall i :: 0 <= i < |w| ==> p[i] == Dot(w[i], v)
    ensures Dot(Combined(a, w, n, |v|), v) == DotTo(a, p, n)
  {
    if n == 0 {
      DotOfZero(Zeros(|v|), v);
    } else {
      hide DotTo, Combined, Blend;
      var k, prev, r := n - 1, Combined(a, w, n - 1, |v|), Combined(a, w, n, |v|);
      CombinedInner(a, w, k, v, p);
      OneMoreCombined(a, w, n, |v|);
      DotLinear(1.0, prev, a[k], w[k], r, v, |v|);
      OneMoreInner(a, p, n, DotTo(a, p, k), p[k]);
    }
  }

  lemma OneMoreCombined(a: Vec, w: seq<Vec>, n: nat, d: nat)
    requires 0 < n <= |a| && n <= |w| && forall i :: 0 <= i < |w| ==> |w[i]| == d
    ensures forall i :: 0 <= i < d ==>
              Combined(a, w, n, d)[i] == Blend(1.0, Combined(a, w, n - 1, d)[i], a[n - 1], w[n - 1][i])
  {
  }

  lemma OneMoreInner(a: Vec, p: Vec, n: nat, s: real, t: real)
    requires 0 < n <= |a| && n <= |p| && s == DotTo(a, p, n - 1) && t == p[n - 1]
    ensures DotTo(a, p, n) == Blend(1.0, s, a[n - 1], t)
  {
  }

  /** A matrix of inner products has the squared norm of the combination as its form. */
  lemma GramForm(m: Mat, w: seq<Vec>, d: nat, a: Vec)
    requires IsSquare(m, |m|) && |w| == |m| == |a| && forall i :: 0 <= i < |w| ==> |w[i]| == d
    requires forall i, j :: 0 <= i < |m| && 0 <= j < |m| ==> m[i][j] == Dot(w[j], w[i])
    ensures Quad(m, a) >= 0.0
  {
    var r, p := Combined(a, w, |a|, d), Apply(m, a);
    forall i | 0 <= i < |m| ensures p[i] == Dot(w[i], r) {
      hide Combined, DotTo;
      CombinedInner(a, w, |a|, w[i], m[i]);
      DotComm(m[i], a, |a|);
      DotSymmetric(w[i], r);
    }
    hide Combined, Apply, DotTo;
    CombinedInner(a, w, |a|, r, p);
    SquaredNormPositive(r);
    assert Quad(m, a) == Dot(a, p);
  }

  /** The difference matrix of the linear kernel is the Gram matrix of the differences of consecutive points. */
  lemma LinearKernelForm(x: seq<Vec>, d: nat)
    requires |x| >= 1 && forall i :: 0 <= i < |x| ==> |x[i]| == d
    ensures NonNegativeForm(DiffKernel(TrainingKernel(LinearKernel, x)))
  {
    hide DiffKernel, TrainingKernel, Dot, Quad, Sub;
    var m := DiffKernel(TrainingKernel(LinearKernel, x));
    var w := seq(|x| - 1, i requires 0 <= i < |x| - 1 => Sub(x[i], x[i + 1]));
    forall i, j | 0 <= i < |m| && 0 <= j < |m| ensures m[i][j] == Dot(w[j], w[i]) {
      DifferenceInner(x, d, i, j);
    }
    forall a: Vec | |a| == |m| ensures Quad(m, a) >= 0.0 {
      GramForm(m, w, d, a);
    }
  }

  lemma DifferenceInner(x: seq<Vec>, d: nat, i: nat, j: nat)
    requires i < |x| - 1 && j < |x| - 1 && forall k :: 0 <= k < |x| ==> |x[k]| == d
    ensures DiffKernel(TrainingKernel(LinearKernel, x))[i][j] == Dot(Sub(x[j], x[j + 1]), Sub(x[i], x[i + 1]))
  {
    var k := TrainingKernel(LinearKernel, x);
    assert DiffKernel(k)[i][j] == k[i][j] - k[i][j + 1] - k[i + 1][j] + k[i + 1][j + 1];
    LinearEntry(x, d, i, j);
    LinearEntry(x, d, i, j + 1);
    LinearEntry(x, d, i + 1, j);
    LinearEntry(x, d, i + 1, j + 1);
    hide DiffKernel, TrainingKernel, Dot;
    InnerOfDifferences(x[j], x[j + 1], x[i], x[i + 1]);
  }

  lemma LinearEntry(x: seq<Vec>, d: nat, i: nat, j: nat)
    requires i < |x| && j < |x| && forall k :: 0 <= k < |x| ==> |x[k]| == d
    ensures TrainingKernel(LinearKernel, x)[i][j] == Dot(x[j], x[i])
  {
    hide Dot;
    DotSymmetric(x[i], x[j]);
    var k := TrainingKernel(LinearKernel, x);
    assert k[i][j] == if i <= j then LinearKernel(x[i], x[j]) else LinearKernel(x[j], x[i]);
  }

  lemma InnerOfDifferences(p: Vec, q: Vec, r: Vec, t: Vec)
    requires |p| == |q| == |r| == |t|
    ensures Dot(Sub(p, q), Sub(r, t)) == Dot(p, r) - Dot(q, r) - Dot(p, t) + Dot(q, t)
  {
    var u, v, n := Sub(p, q), Sub(r, t), |p|;
    assert forall i :: 0 <= i < n ==> u[i] == Blend(1.0, p[i], -1.0, q[i]) && v[i] == Blend(1.0, r[i], -1.0, t[i]);
    hide DotTo;
    DotLinear(1.0, p, -1.0, q, u, v, n);
    DotLinear(1.0, r, -1.0, t, v, p, n);
    DotLinear(1.0, r, -1.0, t, v, q, n);
  }
}
