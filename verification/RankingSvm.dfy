/** The ranking SVM of the surrogate: a dual coordinate ascent under box constraints that keeps an
    incremental cache of residuals, and the ranking it predicts. */
module RankingSvm {
  import opened LinearAlgebra
  import opened RealFunctions
  import opened Wrappers

  type Kernel = (Vec, Vec) -> real

  // ----- training matrices

  /** The kernel matrix as it is filled: the entry for i <= j is written to both (i,j) and (j,i). */
  function TrainingKernel(kernel: Kernel, x: seq<Vec>): (k: Mat)
    ensures IsSquare(k, |x|)
  {
    seq(|x|, i requires 0 <= i < |x| =>
      seq(|x|, j requires 0 <= j < |x| => if i <= j then kernel(x[i], x[j]) else kernel(x[j], x[i])))
  }

  /** Second differences of the kernel matrix: row and column i stand for the constraint that
      point i ranks above point i+1. */
  function DiffKernel(k: Mat): (d: Mat)
    requires |k| >= 1 && IsSquare(k, |k|)
    ensures IsSquare(d, |k| - 1)
  {
    seq(|k| - 1, i requires 0 <= i < |k| - 1 =>
      seq(|k| - 1, j requires 0 <= j < |k| - 1 => k[i][j] - k[i][j + 1] - k[i + 1][j] + k[i + 1][j + 1]))
  }

  lemma DiffKernelSymmetric(kernel: Kernel, x: seq<Vec>)
    requires |x| >= 1
    ensures Symmetric(TrainingKernel(kernel, x))
    ensures Symmetric(DiffKernel(TrainingKernel(kernel, x)))
  {
    var k := TrainingKernel(kernel, x);
    assert forall i, j :: 0 <= i < |k| && 0 <= j < |k| ==> k[i][j] == k[j][i];
  }

  /** Symmetric with a non-negative diagonal, as every positive semidefinite kernel makes it. */
  ghost predicate Trainable(dK: Mat) {
    Symmetric(dK) && forall i :: 0 <= i < |dK| ==> dK[i][i] >= 0.0
  }

  /** The program's quotient. Division by a zero diagonal gives an infinity or no number; whatever is
      computed from it ends as no number in the acceptance test, which then fails. Zero does the same. */
  function Quotient(a: real, b: real): real {
    if b == 0.0 then 0.0 else a / b
  }

  // ----- the dual problem

  /** The dual objective D(a) = eps * sum(a) - a'Ka / 2. */
  function DualValue(dK: Mat, eps: real, a: Vec): real
    requires IsSquare(dK, |a|)
  {
    eps * Sum(a) - 0.5 * Quad(dK, a)
  }

  ghost predicate InBox(c: Vec, a: Vec) {
    |c| == |a| && forall i :: 0 <= i < |a| ==> 0.0 <= a[i] <= c[i]
  }

  /** The variables of the ascent loop: the multipliers and the residual cache. */
  datatype State = State(alpha: Vec, sums: Vec)

  predicate Shaped(dK: Mat, s: State) {
    IsSquare(dK, |dK|) && |s.alpha| == |dK| && |s.sums| == |dK|
  }

  /** The cache is exact: entry i is the residual of constraint i divided by the diagonal, where the
      diagonal is not zero. */
  ghost predicate Cached(dK: Mat, eps: real, s: State) {
    && Shaped(dK, s)
    && forall i :: 0 <= i < |dK| && dK[i][i] != 0.0 ==> s.sums[i] * dK[i][i] == eps - Dot(dK[i], s.alpha)
  }

  function Clamp(t: real, hi: real): real {
    Max(Min(t, hi), 0.0)
  }

  /** The clamped move along coordinate k. */
  function Move(c: Vec, s: State, k: nat): real
    requires k < |c| && k < |s.alpha| && k < |s.sums|
  {
    Clamp(s.alpha[k] + s.sums[k], c[k]) - s.alpha[k]
  }

  /** The quantity the loop compares with zero. It is not the dual gain: epsilon is added. */
  function Acceptance(dK: Mat, c: Vec, eps: real, s: State, k: nat): real
    requires Shaped(dK, s) && |c| == |dK| && k < |dK|
  {
    var d := Move(c, s, k);
    d * dK[k][k] * (s.sums[k] - 0.5 * d + eps)
  }

  /** Row k with each entry divided by its column's diagonal. */
  function DividedRow(dK: Mat, k: nat): Vec
    requires IsSquare(dK, |dK|) && k < |dK|
  {
    seq(|dK|, j requires 0 <= j < |dK| => Quotient(dK[k][j], dK[j][j]))
  }

  /** One iteration of the ascent, on coordinate k. */
  function Step(dK: Mat, c: Vec, eps: real, s: State, k: nat): (s': State)
    requires Shaped(dK, s) && |c| == |dK| && k < |dK|
    ensures Shaped(dK, s')
  {
    if Acceptance(dK, c, eps, s, k) > 0.0 then
      var d := Move(c, s, k);
      State(s.alpha[k := Clamp(s.alpha[k] + s.sums[k], c[k])],
            Sub(s.sums, Scale(d, DividedRow(dK, k))))
    else s
  }

  lemma StepAsComputed(dK: Mat, c: Vec, eps: real, s: State, k: nat, newAlpha: real, delta: real, dL: real)
    requires Shaped(dK, s) && |c| == |dK| && k < |dK|
    requires newAlpha == Max(Min(s.alpha[k] + s.sums[k], c[k]), 0.0) && delta == newAlpha - s.alpha[k]
    requires dL == delta * dK[k][k] * (s.sums[k] - 0.5 * delta + eps)
    ensures Step(dK, c, eps, s, k)
         == if dL > 0.0 then State(s.alpha[k := newAlpha], Sub(s.sums, Scale(delta, DividedRow(dK, k)))) else s
  {
  }

  /** What one step does to the state. */
  lemma StepEffect(dK: Mat, c: Vec, eps: real, s: State, k: nat)
    requires Shaped(dK, s) && |c| == |dK| && k < |dK|
    ensures var s', d := Step(dK, c, eps, s, k), Move(c, s, k);
            if Acceptance(dK, c, eps, s, k) > 0.0 then
              && s'.alpha == s.alpha[k := s.alpha[k] + d]
              && forall j :: 0 <= j < |dK| ==> s'.sums[j] == s.sums[j] - d * Quotient(dK[k][j], dK[j][j])
            else s' == s
  {
  }

  /** The state after n iterations; coordinates are visited cyclically. */
  function Run(dK: Mat, c: Vec, eps: real, s: State, n: nat): (s': State)
    requires Shaped(dK, s) && |c| == |dK| && |dK| > 0
    ensures Shaped(dK, s')
  {
    if n == 0 then s else Step(dK, c, eps, Run(dK, c, eps, s, n - 1), (n - 1) % |dK|)
  }

  /** The initial state, from one uniform draw per multiplier. */
  function Start(dK: Mat, c: Vec, eps: real, draws: Vec): (s: State)
    requires IsSquare(dK, |dK|) && |c| == |dK| == |draws|
    ensures Shaped(dK, s)
  {
    var a := DrawnMultipliers(c, draws);
    State(a, ResidualCache(dK, eps, a))
  }

  /** Each multiplier starts in the top twentieth of its box. */
  function DrawnMultipliers(c: Vec, draws: Vec): Vec
    requires |c| == |draws|
  {
    seq(|c|, i requires 0 <= i < |c| => Drawn(c[i], draws[i]))
  }

  function Drawn(c: real, u: real): real {
    c * (0.95 + 0.05 * u)
  }

  /** The residuals over the diagonal, recomputed from scratch. */
  function ResidualCache(dK: Mat, eps: real, a: Vec): Vec
    requires IsSquare(dK, |dK|) && |a| == |dK|
  {
    seq(|dK|, i requires 0 <= i < |dK| => Quotient(eps - Dot(dK[i], a), dK[i][i]))
  }

  // ----- one step

  /** With an exact cache, moving coordinate k by any u changes the dual by u K_kk (s_k - u/2). */
  lemma GainOfMove(dK: Mat, eps: real, s: State, k: nat, u: real)
    requires Symmetric(dK) && Cached(dK, eps, s) && k < |dK| && dK[k][k] != 0.0
    ensures DualValue(dK, eps, s.alpha[k := s.alpha[k] + u]) - DualValue(dK, eps, s.alpha)
         == u * dK[k][k] * (s.sums[k] - 0.5 * u)
  {
    QuadUpdate(dK, s.alpha, k, u);
    SumUpdate(s.alpha, k, u, |dK|);
    GainAlgebra(eps, Sum(s.alpha), Quad(dK, s.alpha), Dot(dK[k], s.alpha), dK[k][k], s.sums[k], u,
                DualValue(dK, eps, s.alpha[k := s.alpha[k] + u]));
  }

  lemma GainAlgebra(eps: real, sum: real, q: real, g: real, h: real, s: real, u: real, dual': real)
    requires s * h == eps - g
    requires dual' == eps * (sum + u) - 0.5 * Parabolic(q, g, h, u)
    ensures dual' - (eps * sum - 0.5 * q) == u * h * (s - 0.5 * u)
  {
    assert dual' - (eps * sum - 0.5 * q) == u * (eps - g) - 0.5 * (u * u * h);
    assert u * h * (s - 0.5 * u) == u * (s * h) - 0.5 * (u * u * h);
  }

  /** The move lies between 0 and s_k, keeps the box, and is the point of the box nearest to s_k. */
  lemma MoveIsProjection(c: Vec, s: State, k: nat, t: real)
    requires k < |c| && |s.alpha| == |s.sums| == |c| && InBox(c, s.alpha)
    requires 0.0 <= t <= c[k]
    ensures var d := Move(c, s, k);
            && 0.0 <= s.alpha[k] + d <= c[k]
            && (0.0 <= d <= s.sums[k] || s.sums[k] <= d <= 0.0)
            && (d - (t - s.alpha[k])) * (s.sums[k] - d) >= 0.0
  {
    var d := Move(c, s, k);
    ProductSign(d - (t - s.alpha[k]), s.sums[k] - d, (d - (t - s.alpha[k])) * (s.sums[k] - d));
  }

  /** The clamped move is the exact line search: no other value of coordinate k in its box does better. */
  lemma MoveIsLineSearch(dK: Mat, c: Vec, eps: real, s: State, k: nat, t: real)
    requires Symmetric(dK) && Cached(dK, eps, s) && InBox(c, s.alpha) && k < |dK| && dK[k][k] > 0.0
    requires 0.0 <= t <= c[k]
    ensures DualValue(dK, eps, s.alpha[k := t])
         <= DualValue(dK, eps, s.alpha[k := s.alpha[k] + Move(c, s, k)])
  {
    hide DualValue;
    var d, u, h, r := Move(c, s, k), t - s.alpha[k], dK[k][k], s.sums[k];
    GainOfMove(dK, eps, s, k, d);
    GainOfMove(dK, eps, s, k, u);
    assert s.alpha[k] + u == t;
    MoveIsProjection(c, s, k, t);
    LineSearchAlgebra(d, u, h, r, d * h * (r - 0.5 * d), u * h * (r - 0.5 * u));
  }

  lemma LineSearchAlgebra(d: real, u: real, h: real, r: real, gd: real, gu: real)
    requires h > 0.0 && (d - u) * (r - d) >= 0.0
    requires gd == d * h * (r - 0.5 * d) && gu == u * h * (r - 0.5 * u)
    ensures gu <= gd
  {
    var w := (d - u) * (r - d) + 0.5 * ((d - u) * (d - u));
    SquareSign(d - u, (d - u) * (d - u));
    assert gd - gu == h * w;
    ProductSign(h, w, h * w);
  }

  /** Exactly when a step is taken: the move goes up, or it goes down and the residual it removes
      exceeds epsilon. */
  lemma AcceptedIff(dK: Mat, c: Vec, eps: real, s: State, k: nat)
    requires Shaped(dK, s) && InBox(c, s.alpha) && |c| == |dK| && k < |dK| && dK[k][k] > 0.0 && eps > 0.0
    ensures var d := Move(c, s, k);
            Acceptance(dK, c, eps, s, k) > 0.0
            <==> d > 0.0 || (d < 0.0 && s.sums[k] - 0.5 * d < -eps)
  {
    var d := Move(c, s, k);
    var f := s.sums[k] - 0.5 * d + eps;
    assert 0.0 <= s.alpha[k] <= c[k];
    MoveIsProjection(c, s, k, s.alpha[k]);
    AcceptanceSign(d, dK[k][k], f, Acceptance(dK, c, eps, s, k));
  }

  /** A concrete training that never starts: from the first state every step would raise the dual by 0.405
      and is rejected, so every run stays there. */
  lemma {:induction false} GainfulStepRejected(n: nat)
    ensures var dK, c, s := [[1.0]], [2.0], Start([[1.0]], [2.0], 1.0, [0.0]);
            && Trainable(dK) && Cached(dK, 1.0, s) && InBox(c, s.alpha) && s.alpha == [1.9]
            && DualValue(dK, 1.0, s.alpha[0 := 1.0]) == DualValue(dK, 1.0, s.alpha) + 0.405
            && Run(dK, c, 1.0, s, n) == s
  {
    hide Start, Step, DualValue, Cached, Trainable, InBox;
    StuckStart();
    if n > 0 { GainfulStepRejected(n - 1); }
  }

  lemma StuckStart()
    ensures var dK, c, s := [[1.0]], [2.0], Start([[1.0]], [2.0], 1.0, [0.0]);
            && Trainable(dK) && Cached(dK, 1.0, s) && InBox(c, s.alpha) && s.alpha == [1.9]
            && DualValue(dK, 1.0, s.alpha[0 := 1.0]) == DualValue(dK, 1.0, s.alpha) + 0.405
            && Step(dK, c, 1.0, s, 0) == s
  {
    var dK, c, s := [[1.0]], [2.0], Start([[1.0]], [2.0], 1.0, [0.0]);
    StuckState(s);
    hide Start, DualValue;
    assert Move(c, s, 0) == -0.9;
    GainOfMove(dK, 1.0, s, 0, -0.9);
  }

  lemma StuckState(s: State)
    requires s == Start([[1.0]], [2.0], 1.0, [0.0])
    ensures s.alpha == [1.9] && s.sums == [-0.9] && Cached([[1.0]], 1.0, s)
  {
    assert s.alpha[0] == 2.0 * (0.95 + 0.05 * 0.0) == 1.9;
    assert s.alpha == [1.9];
    assert DotTo([1.0], s.alpha, 0) == 0.0 && DotTo([1.0], s.alpha, 1) == 1.9;
    assert s.sums[0] == -0.9;
  }

  lemma AcceptanceSign(d: real, h: real, f: real, t: real)
    requires h > 0.0 && t == d * h * f
    ensures t > 0.0 <==> (d > 0.0 && f > 0.0) || (d < 0.0 && f < 0.0)
  {
    ProductSign(d, h, d * h);
    ProductSign(-d, h, -(d * h));
    ProductSign(d * h, f, t);
    ProductSign(-(d * h), f, -t);
  }

  /** A step keeps the box and the exactness of the cache. */
  lemma StepKeepsInvariant(dK: Mat, c: Vec, eps: real, s: State, k: nat)
    requires Symmetric(dK) && Cached(dK, eps, s) && InBox(c, s.alpha) && k < |dK|
    ensures Cached(dK, eps, Step(dK, c, eps, s, k))
    ensures InBox(c, Step(dK, c, eps, s, k).alpha)
  {
    hide Dot, Acceptance, Move, Step;
    StepEffect(dK, c, eps, s, k);
    if Acceptance(dK, c, eps, s, k) > 0.0 {
      StepKeepsCache(dK, eps, s, k, Move(c, s, k), Step(dK, c, eps, s, k));
      hide Cached;
      MoveIsProjection(c, s, k, 0.0);
    }
  }

  lemma StepKeepsCache(dK: Mat, eps: real, s: State, k: nat, d: real, s': State)
    requires Symmetric(dK) && Cached(dK, eps, s) && k < |dK| && |s'.sums| == |dK|
    requires s'.alpha == s.alpha[k := s.alpha[k] + d]
    requires forall j :: 0 <= j < |dK| ==> s'.sums[j] == s.sums[j] - d * Quotient(dK[k][j], dK[j][j])
    ensures Cached(dK, eps, s')
  {
    hide Dot;
    forall i | 0 <= i < |dK| && dK[i][i] != 0.0 ensures s'.sums[i] * dK[i][i] == eps - Dot(dK[i], s'.alpha) {
      DotStep(dK, s.alpha, k, i, d);
      CacheAlgebra(s.sums[i], d, dK[k][i], dK[i][i]);
    }
  }

  lemma DotStep(dK: Mat, a: Vec, k: nat, i: nat, d: real)
    requires Symmetric(dK) && |dK| == |a| && k < |dK| && i < |dK|
    ensures Dot(dK[i], a[k := a[k] + d]) == Dot(dK[i], a) + d * dK[k][i]
  {
    DotUpdate(dK[i], a, k, d, |dK|);
    assert dK[i][k] == dK[k][i];
  }

  lemma CacheAlgebra(r: real, d: real, m: real, h: real)
    requires h != 0.0
    ensures (r - d * Quotient(m, h)) * h == r * h - d * m
  {
    var q := Quotient(m, h);
    assert q * h == m;
    assert d * q * h == d * (q * h);
  }

  /** An accepted step raises the dual by exactly d K_kk (s_k - d/2), at least K_kk d^2 / 2, and lands
      on the best value of its coordinate. A rejected step changes nothing and forgoes at most
      2 K_kk eps^2. */
  lemma StepGain(dK: Mat, c: Vec, eps: real, s: State, k: nat)
    requires Symmetric(dK) && Cached(dK, eps, s) && InBox(c, s.alpha) && k < |dK| && dK[k][k] > 0.0 && eps > 0.0
    ensures var s', d := Step(dK, c, eps, s, k), Move(c, s, k);
            var gain := DualValue(dK, eps, s'.alpha) - DualValue(dK, eps, s.alpha);
            if d > 0.0 || (d < 0.0 && s.sums[k] - 0.5 * d < -eps) then
              && gain == d * dK[k][k] * (s.sums[k] - 0.5 * d)
              && gain >= 0.5 * dK[k][k] * d * d > 0.0
              && s'.alpha == s.alpha[k := s.alpha[k] + d]
              && forall t {:trigger s.alpha[k := t]} :: 0.0 <= t <= c[k] ==>
                   DualValue(dK, eps, s.alpha[k := t]) <= DualValue(dK, eps, s'.alpha)
            else
              && s' == s
              && forall t {:trigger s.alpha[k := t]} :: 0.0 <= t <= c[k] ==>
                   DualValue(dK, eps, s.alpha[k := t]) <= DualValue(dK, eps, s.alpha) + 2.0 * dK[k][k] * eps * eps
  {
    hide DualValue, Acceptance, Move, Step, Dot;
    var d, h, r := Move(c, s, k), dK[k][k], s.sums[k];
    AcceptedIff(dK, c, eps, s, k);
    StepEffect(dK, c, eps, s, k);
    MoveIsProjection(c, s, k, s.alpha[k]);
    GainOfMove(dK, eps, s, k, d);
    GainBounds(d, h, r, eps, d * h * (r - 0.5 * d));
    forall t {:trigger s.alpha[k := t]} | 0.0 <= t <= c[k]
      ensures DualValue(dK, eps, s.alpha[k := t])
           <= DualValue(dK, eps, s.alpha[k := s.alpha[k] + d])
    {
      MoveIsLineSearch(dK, c, eps, s, k, t);
    }
  }

  lemma GainBounds(d: real, h: real, r: real, eps: real, g: real)
    requires h > 0.0 && eps > 0.0 && (0.0 <= d <= r || r <= d <= 0.0)
    requires g == d * h * (r - 0.5 * d)
    ensures g >= 0.5 * h * d * d
    ensures d != 0.0 ==> 0.5 * h * d * d > 0.0
    ensures d == 0.0 || (d < 0.0 && r - 0.5 * d >= -eps) ==> g <= 2.0 * h * eps * eps
  {
    ProductSign(d, r - d, d * (r - d));
    ProductSign(h, d * (r - d), h * (d * (r - d)));
    assert g == 0.5 * h * d * d + h * (d * (r - d));
    SquareSign(d, d * d);
    ProductSign(h, d * d, h * (d * d));
    SquareSign(eps, eps * eps);
    ProductSign(h, eps * eps, h * (eps * eps));
    if d < 0.0 && r - 0.5 * d >= -eps {
      var f := -(r - 0.5 * d);
      assert -d <= 2.0 * eps && 0.0 <= f <= eps;
      ProductMonotone(-d, 2.0 * eps, f, eps);
      ProductSign(h, 2.0 * eps * eps - (-d) * f, h * (2.0 * eps * eps - (-d) * f));
      assert g == h * ((-d) * f);
    }
  }

  // ----- whole runs

  lemma StartInvariant(dK: Mat, c: Vec, eps: real, draws: Vec)
    requires Symmetric(dK) && |c| == |dK| == |draws|
    requires forall i :: 0 <= i < |dK| ==> c[i] >= 0.0 && 0.0 <= draws[i] < 1.0
    ensures Cached(dK, eps, Start(dK, c, eps, draws))
    ensures InBox(c, Start(dK, c, eps, draws).alpha)
  {
    var s := Start(dK, c, eps, draws);
    forall i | 0 <= i < |dK|
      ensures 0.0 <= s.alpha[i] <= c[i]
    {
      ProductSign(c[i], 0.95 + 0.05 * draws[i], s.alpha[i]);
      ProductSign(c[i], 0.05 - 0.05 * draws[i], c[i] * (0.05 - 0.05 * draws[i]));
    }
  }

  lemma StepNeverLowers(dK: Mat, c: Vec, eps: real, s: State, k: nat)
    requires Trainable(dK) && Cached(dK, eps, s) && InBox(c, s.alpha) && k < |dK| && eps > 0.0
    ensures DualValue(dK, eps, s.alpha) <= DualValue(dK, eps, Step(dK, c, eps, s, k).alpha)
  {
    hide DualValue, Move;
    if dK[k][k] > 0.0 {
      hide Step;
      StepGain(dK, c, eps, s, k);
    } else {
      DegenerateStep(dK, c, eps, s, k);
    }
  }

  /** A constraint with a zero diagonal is never moved. */
  lemma DegenerateStep(dK: Mat, c: Vec, eps: real, s: State, k: nat)
    requires Shaped(dK, s) && |c| == |dK| && k < |dK| && dK[k][k] == 0.0
    ensures Step(dK, c, eps, s, k) == s
  {
    hide Move;
  }

  /** When two consecutive training points coincide, their multiplier keeps its drawn value for ever,
      although every unit it could still rise would gain epsilon. */
  lemma {:induction false} DegenerateFrozen(dK: Mat, c: Vec, eps: real, s: State, k: nat, n: nat, t: real)
    requires Trainable(dK) && Shaped(dK, s) && |c| == |dK| && k < |dK| && dK[k] == Zeros(|dK|)
    ensures Run(dK, c, eps, s, n).alpha[k] == s.alpha[k]
    ensures DualValue(dK, eps, s.alpha[k := t]) - DualValue(dK, eps, s.alpha) == eps * (t - s.alpha[k])
    decreases n
  {
    hide DualValue, Step;
    if n == 0 {
      ZeroRowGain(dK, eps, s.alpha, k, t);
    } else {
      DegenerateFrozen(dK, c, eps, s, k, n - 1, t);
      var m := Run(dK, c, eps, s, n - 1);
      StepEffect(dK, c, eps, m, (n - 1) % |dK|);
      if (n - 1) % |dK| == k {
        DegenerateStep(dK, c, eps, m, k);
      }
    }
  }

  lemma ZeroRowGain(dK: Mat, eps: real, a: Vec, k: nat, t: real)
    requires Symmetric(dK) && |a| == |dK| && k < |dK| && dK[k] == Zeros(|dK|)
    ensures DualValue(dK, eps, a[k := t]) - DualValue(dK, eps, a) == eps * (t - a[k])
  {
    hide Quad, DotTo, SumTo;
    var u := t - a[k];
    QuadUpdate(dK, a, k, u);
    SumUpdate(a, k, u, |dK|);
    DotZero(dK[k], a, |dK|);
    assert a[k] + u == t && dK[k][k] == 0.0;
    assert eps * (Sum(a) + u) == eps * Sum(a) + eps * u;
  }

  /** For every number of iterations the box holds and the cache is exact, whatever the diagonal. */
  lemma {:induction false} RunKeepsState(dK: Mat, c: Vec, eps: real, s: State, n: nat)
    requires Symmetric(dK) && |dK| > 0 && Cached(dK, eps, s) && InBox(c, s.alpha)
    ensures Cached(dK, eps, Run(dK, c, eps, s, n)) && InBox(c, Run(dK, c, eps, s, n).alpha)
  {
    if n > 0 {
      RunKeepsState(dK, c, eps, s, n - 1);
      hide Step, Cached, InBox;
      StepKeepsInvariant(dK, c, eps, Run(dK, c, eps, s, n - 1), (n - 1) % |dK|);
    }
  }

  /** For every number of iterations: the box holds, the cache is exact, and the dual never fell. */
  lemma RunInvariant(dK: Mat, c: Vec, eps: real, s: State, n: nat)
    requires Trainable(dK) && |dK| > 0 && Cached(dK, eps, s) && InBox(c, s.alpha) && eps > 0.0
    ensures Cached(dK, eps, Run(dK, c, eps, s, n)) && InBox(c, Run(dK, c, eps, s, n).alpha)
    ensures DualValue(dK, eps, s.alpha) <= DualValue(dK, eps, Run(dK, c, eps, s, n).alpha)
  {
    RunKeepsState(dK, c, eps, s, n);
    RunMonotone(dK, c, eps, s, 0, n);
  }

  lemma IterationNeverLowers(dK: Mat, c: Vec, eps: real, s: State, m: nat)
    requires Trainable(dK) && |dK| > 0 && Cached(dK, eps, s) && InBox(c, s.alpha) && eps > 0.0 && m > 0
    ensures DualValue(dK, eps, Run(dK, c, eps, s, m - 1).alpha) <= DualValue(dK, eps, Run(dK, c, eps, s, m).alpha)
  {
    assert Shaped(dK, s) && |c| == |dK|;
    RunKeepsState(dK, c, eps, s, m - 1);
    hide DualValue, Step, Cached, InBox, Trainable, Shaped;
    StepNeverLowers(dK, c, eps, Run(dK, c, eps, s, m - 1), (m - 1) % |dK|);
  }

  /** Longer training is never worse. */
  lemma {:induction false} RunMonotone(dK: Mat, c: Vec, eps: real, s: State, n: nat, m: nat)
    requires Trainable(dK) && |dK| > 0 && Cached(dK, eps, s) && InBox(c, s.alpha) && eps > 0.0
    requires n <= m
    ensures DualValue(dK, eps, Run(dK, c, eps, s, n).alpha) <= DualValue(dK, eps, Run(dK, c, eps, s, m).alpha)
    decreases m
  {
    hide DualValue, Run, Cached, InBox, Trainable;
    if n < m {
      RunMonotone(dK, c, eps, s, n, m - 1);
      IterationNeverLowers(dK, c, eps, s, m);
    }
  }

  /** What a rejected step forgoes at most. */
  function Slack(h: real, eps: real): real {
    2.0 * h * eps * eps
  }

  /** The gain of the move of coordinate k. */
  lemma CoordinateGain(dK: Mat, c: Vec, eps: real, s: State, k: nat) returns (d: real, g: real)
    requires Symmetric(dK) && Cached(dK, eps, s) && InBox(c, s.alpha) && k < |dK| && dK[k][k] > 0.0 && eps > 0.0
    ensures d == Move(c, s, k)
    ensures DualValue(dK, eps, s.alpha[k := s.alpha[k] + d]) == DualValue(dK, eps, s.alpha) + g
    ensures d != 0.0 ==> g > 0.0
    ensures Acceptance(dK, c, eps, s, k) > 0.0 ==> d != 0.0
    ensures Acceptance(dK, c, eps, s, k) <= 0.0 ==> g <= Slack(dK[k][k], eps)
    ensures Slack(dK[k][k], eps) >= 0.0
  {
    hide DualValue, Move, Step, Acceptance, Dot;
    d := Move(c, s, k);
    g := d * dK[k][k] * (s.sums[k] - 0.5 * d);
    AcceptedIff(dK, c, eps, s, k);
    MoveIsProjection(c, s, k, s.alpha[k]);
    GainOfMove(dK, eps, s, k, d);
    StrictGain(d, dK[k][k], s.sums[k], eps, g);
    SlackNonNegative(dK[k][k], eps);
  }

  lemma StrictGain(d: real, h: real, r: real, eps: real, g: real)
    requires h > 0.0 && eps > 0.0 && (0.0 <= d <= r || r <= d <= 0.0)
    requires g == d * h * (r - 0.5 * d)
    ensures d != 0.0 ==> g > 0.0
    ensures d == 0.0 || (d < 0.0 && r - 0.5 * d >= -eps) ==> g <= Slack(h, eps)
  {
    GainBounds(d, h, r, eps, g);
  }

  lemma SlackNonNegative(h: real, eps: real)
    requires h > 0.0
    ensures Slack(h, eps) >= 0.0
  {
    SquareSign(eps, eps * eps);
    ProductSign(h, eps * eps, h * (eps * eps));
  }

  /** A step that changes anything raises the dual. */
  lemma StepRaises(dK: Mat, c: Vec, eps: real, s: State, k: nat)
    requires Trainable(dK) && Cached(dK, eps, s) && InBox(c, s.alpha) && k < |dK| && eps > 0.0
    ensures Step(dK, c, eps, s, k) == s
         || DualValue(dK, eps, s.alpha) < DualValue(dK, eps, Step(dK, c, eps, s, k).alpha)
  {
    assert |c| == |dK| && Shaped(dK, s);
    hide DualValue, Move, Step, Acceptance, Dot, Cached, Slack;
    StepEffect(dK, c, eps, s, k);
    if dK[k][k] == 0.0 {
      DegenerateStep(dK, c, eps, s, k);
    } else {
      var d, g := CoordinateGain(dK, c, eps, s, k);
    }
  }

  // ----- the order of the visits

  /** No value in the box of coordinate k is better by more than the slack. */
  ghost predicate NearBestAt(dK: Mat, c: Vec, eps: real, a: Vec, k: nat)
    requires IsSquare(dK, |a|) && |c| == |a| && k < |a|
  {
    forall t {:trigger a[k := t]} :: 0.0 <= t <= c[k] ==>
      DualValue(dK, eps, a[k := t]) <= DualValue(dK, eps, a) + Slack(dK[k][k], eps)
  }

  /** The coordinates are visited in turn: between iterations n and n+1 only multiplier n mod |dK| can
      differ, and it ends within 2 K_kk eps^2 of its best value in the box. */
  lemma IterationVisits(dK: Mat, c: Vec, eps: real, s: State, n: nat)
    requires Trainable(dK) && |dK| > 0 && Cached(dK, eps, s) && InBox(c, s.alpha) && eps > 0.0
    ensures var k, a, a' := n % |dK|, Run(dK, c, eps, s, n).alpha, Run(dK, c, eps, s, n + 1).alpha;
            && (forall j :: 0 <= j < |dK| && j != k ==> a'[j] == a[j])
            && (dK[k][k] > 0.0 ==> NearBestAt(dK, c, eps, a', k))
  {
    RunKeepsState(dK, c, eps, s, n);
    hide DualValue, Step, Move, Acceptance, Run, Dot, DividedRow, Quotient, Slack;
    var m, k := Run(dK, c, eps, s, n), n % |dK|;
    NextRun(dK, c, eps, s, n, k);
    hide Cached;
    StepEffect(dK, c, eps, m, k);
    if dK[k][k] > 0.0 {
      var a' := Step(dK, c, eps, m, k).alpha;
      forall t {:trigger a'[k := t]} | 0.0 <= t <= c[k]
        ensures DualValue(dK, eps, a'[k := t]) <= DualValue(dK, eps, a') + Slack(dK[k][k], eps)
      {
        StepLeavesBest(dK, c, eps, m, k, t);
      }
    }
  }

  lemma StepLeavesBest(dK: Mat, c: Vec, eps: real, s: State, k: nat, t: real)
    requires Symmetric(dK) && Cached(dK, eps, s) && InBox(c, s.alpha) && eps > 0.0
    requires k < |dK| && dK[k][k] > 0.0 && 0.0 <= t <= c[k]
    ensures var a' := Step(dK, c, eps, s, k).alpha;
            DualValue(dK, eps, a'[k := t]) <= DualValue(dK, eps, a') + Slack(dK[k][k], eps)
  {
    assert |c| == |dK| && Shaped(dK, s);
    hide DualValue, Move, Step, Acceptance, Dot, Cached, Slack;
    StepEffect(dK, c, eps, s, k);
    var d, g := CoordinateGain(dK, c, eps, s, k);
    MoveIsLineSearch(dK, c, eps, s, k, t);
    assert s.alpha[k := s.alpha[k] + d][k := t] == s.alpha[k := t];
  }

  /** No coordinate's step changes anything. */
  predicate Idle(dK: Mat, c: Vec, eps: real, s: State)
    requires Shaped(dK, s) && |c| == |dK|
  {
    forall k :: 0 <= k < |dK| ==> Step(dK, c, eps, s, k) == s
  }

  /** Where the ascent can start, and what each iteration keeps. */
  ghost predicate Ready(dK: Mat, c: Vec, eps: real, s: State) {
    |dK| > 0 && |c| == |dK| && eps > 0.0 && Trainable(dK) && Cached(dK, eps, s) && InBox(c, s.alpha)
  }

  lemma ReadyShape(dK: Mat, c: Vec, eps: real, s: State)
    requires Ready(dK, c, eps, s)
    ensures Shaped(dK, s) && |c| == |dK| && |dK| > 0
  {
  }

  /** The dual after n iterations. */
  ghost function DualAfter(dK: Mat, c: Vec, eps: real, s: State, n: nat): real
    requires Shaped(dK, s) && |c| == |dK| && |dK| > 0
  {
    DualValue(dK, eps, Run(dK, c, eps, s, n).alpha)
  }

  lemma NextRun(dK: Mat, c: Vec, eps: real, s: State, n: nat, k: nat)
    requires Shaped(dK, s) && |c| == |dK| && |dK| > 0 && k == n % |dK|
    ensures Run(dK, c, eps, s, n + 1) == Step(dK, c, eps, Run(dK, c, eps, s, n), k)
  {
    hide Step;
  }

  lemma IterationRaises(dK: Mat, c: Vec, eps: real, s: State, n: nat)
    requires Ready(dK, c, eps, s) && Shaped(dK, s) && |c| == |dK| && |dK| > 0
    ensures Run(dK, c, eps, s, n + 1) == Run(dK, c, eps, s, n)
         || DualAfter(dK, c, eps, s, n) < DualAfter(dK, c, eps, s, n + 1)
  {
    RunKeepsState(dK, c, eps, s, n);
    hide DualValue, Step, Cached, InBox, Trainable, Run;
    NextRun(dK, c, eps, s, n, n % |dK|);
    StepRaises(dK, c, eps, Run(dK, c, eps, s, n), n % |dK|);
  }

  lemma DualMonotone(dK: Mat, c: Vec, eps: real, s: State, n: nat, m: nat)
    requires Ready(dK, c, eps, s) && Shaped(dK, s) && |c| == |dK| && |dK| > 0 && n <= m
    ensures DualAfter(dK, c, eps, s, n) <= DualAfter(dK, c, eps, s, m)
    ensures Run(dK, c, eps, s, m).alpha == Run(dK, c, eps, s, n).alpha ==>
              DualAfter(dK, c, eps, s, n) == DualAfter(dK, c, eps, s, m)
  {
    hide DualValue, Step, Cached, InBox, Trainable, Run;
    RunMonotone(dK, c, eps, s, n, m);
  }

  /** While the multipliers come back to what they were m iterations ago, none of these iterations did
      anything: each one that does something raises the dual. */
  lemma {:induction false} QuietIterations(dK: Mat, c: Vec, eps: real, s: State, n: nat, i: nat, m: nat)
    requires Ready(dK, c, eps, s) && Shaped(dK, s) && |c| == |dK| && |dK| > 0 && i <= m
    requires Run(dK, c, eps, s, n + m).alpha == Run(dK, c, eps, s, n).alpha
    ensures Run(dK, c, eps, s, n + i) == Run(dK, c, eps, s, n)
  {
    hide DualAfter, Ready, Run, Shaped;
    if i > 0 {
      QuietIterations(dK, c, eps, s, n, i - 1, m);
      IterationRaises(dK, c, eps, s, n + i - 1);
      DualMonotone(dK, c, eps, s, n + i, n + m);
      DualMonotone(dK, c, eps, s, n, n + m);
      DualMonotone(dK, c, eps, s, n, n + i - 1);
    }
  }

  lemma Division(x: nat, d: nat, a: nat, b: nat)
    requires d > 0 && a == x / d && b == x % d
    ensures x == a * d + b && b < d
  {
  }

  lemma MultipleGap(m: int, d: nat, r: int)
    requires m * d == r
    ensures m >= 1 ==> r >= d
    ensures m <= -1 ==> r + d <= 0
  {
    assert (m - 1) * d == r - d && (m + 1) * d == r + d;
  }

  lemma RemainderOf(x: nat, p: nat, k: nat, d: nat)
    requires k < d && x == p * d + k
    ensures x % d == k
  {
    var a, b := x / d, x % d;
    Division(x, d, a, b);
    assert (p - a) * d == p * d - a * d;
    MultipleGap(p - a, d, b - k);
  }

  /** The iteration of a sweep that visits coordinate k. */
  lemma VisitOf(n: nat, k: nat, d: nat) returns (i: nat)
    requires k < d
    ensures i < d && (n + i) % d == k
  {
    var q, r := n / d, n % d;
    Division(n, d, q, r);
    i := if r <= k then k - r else k - r + d;
    RemainderOf(n + i, if r <= k then q else q + 1, k, d);
  }

  lemma QuietVisit(dK: Mat, c: Vec, eps: real, s: State, n: nat, k: nat)
    requires Ready(dK, c, eps, s) && Shaped(dK, s) && |c| == |dK| && k < |dK|
    requires Run(dK, c, eps, s, n + |dK|).alpha == Run(dK, c, eps, s, n).alpha
    ensures Step(dK, c, eps, Run(dK, c, eps, s, n), k) == Run(dK, c, eps, s, n)
  {
    hide Step, Ready, Run, Shaped;
    var i := VisitOf(n, k, |dK|);
    QuietIterations(dK, c, eps, s, n, i, |dK|);
    QuietIterations(dK, c, eps, s, n, i + 1, |dK|);
    NextRun(dK, c, eps, s, n + i, k);
  }

  lemma {:induction false} IdleStays(dK: Mat, c: Vec, eps: real, s: State, n: nat, m: nat)
    requires Shaped(dK, s) && |c| == |dK| && |dK| > 0 && n <= m
    requires Idle(dK, c, eps, Run(dK, c, eps, s, n))
    ensures Run(dK, c, eps, s, m) == Run(dK, c, eps, s, n)
    decreases m
  {
    hide Step, Run;
    if n < m {
      IdleStays(dK, c, eps, s, n, m - 1);
      NextRun(dK, c, eps, s, m - 1, (m - 1) % |dK|);
    }
  }

  /** A sweep brings the multipliers back exactly when no coordinate can move, and then every longer run
      ends in the same state. */
  lemma QuietSweepIffIdle(dK: Mat, c: Vec, eps: real, s: State, n: nat)
    requires Trainable(dK) && |dK| > 0 && Cached(dK, eps, s) && InBox(c, s.alpha) && eps > 0.0
    ensures var r := Run(dK, c, eps, s, n);
            && (Run(dK, c, eps, s, n + |dK|).alpha == r.alpha <==> Idle(dK, c, eps, r))
            && (Idle(dK, c, eps, r) ==> forall m :: m >= n ==> Run(dK, c, eps, s, m) == r)
  {
    assert Ready(dK, c, eps, s);
    ReadyShape(dK, c, eps, s);
    hide Step, Cached, InBox, Trainable, Run, Ready, Shaped;
    var r := Run(dK, c, eps, s, n);
    if Run(dK, c, eps, s, n + |dK|).alpha == r.alpha {
      forall k | 0 <= k < |dK| ensures Step(dK, c, eps, r, k) == r {
        QuietVisit(dK, c, eps, s, n, k);
      }
    }
    if Idle(dK, c, eps, r) {
      forall m | m >= n ensures Run(dK, c, eps, s, m) == r {
        IdleStays(dK, c, eps, s, n, m);
      }
    }
  }

  /** What a training of n iterations achieves: the dual has not fallen, the coordinate visited last is
      within the slack of its best value, and nothing can move any more once a sweep changed nothing. */
  ghost predicate WellTrained(dK: Mat, c: Vec, eps: real, s: State, n: nat)
    requires Shaped(dK, s) && |c| == |dK| && |dK| > 0 && n > 0
  {
    var r, k := Run(dK, c, eps, s, n), (n - 1) % |dK|;
    && DualValue(dK, eps, s.alpha) <= DualValue(dK, eps, r.alpha)
    && (dK[k][k] > 0.0 ==> NearBestAt(dK, c, eps, r.alpha, k))
    && (n >= |dK| && Run(dK, c, eps, s, n - |dK|).alpha == r.alpha ==> Idle(dK, c, eps, r))
  }

  lemma LastVisit(dK: Mat, c: Vec, eps: real, s: State, n: nat, k: nat)
    requires Trainable(dK) && |dK| > 0 && Cached(dK, eps, s) && InBox(c, s.alpha) && eps > 0.0
    requires n > 0 && k == (n - 1) % |dK| && dK[k][k] > 0.0
    ensures NearBestAt(dK, c, eps, Run(dK, c, eps, s, n).alpha, k)
  {
    assert Shaped(dK, s) && |c| == |dK|;
    hide DualValue, Cached, InBox, Trainable, Run, NearBestAt, Step;
    IterationVisits(dK, c, eps, s, n - 1);
  }

  lemma LastSweep(dK: Mat, c: Vec, eps: real, s: State, n: nat, m: nat)
    requires Trainable(dK) && |dK| > 0 && Cached(dK, eps, s) && InBox(c, s.alpha) && eps > 0.0 && m == n + |dK|
    requires Run(dK, c, eps, s, m).alpha == Run(dK, c, eps, s, n).alpha
    ensures Idle(dK, c, eps, Run(dK, c, eps, s, m))
  {
    assert Shaped(dK, s) && |c| == |dK|;
    hide DualValue, Cached, InBox, Trainable, Run, Step;
    QuietSweepIffIdle(dK, c, eps, s, n);
  }

  lemma RunIsWellTrained(dK: Mat, c: Vec, eps: real, s: State, n: nat)
    requires Trainable(dK) && |dK| > 0 && Cached(dK, eps, s) && InBox(c, s.alpha) && eps > 0.0 && n > 0
    ensures WellTrained(dK, c, eps, s, n)
  {
    assert Shaped(dK, s) && |c| == |dK|;
    hide DualValue, Cached, InBox, Trainable, Run, NearBestAt, Idle, Shaped, Step;
    RunInvariant(dK, c, eps, s, n);
    var k, r := (n - 1) % |dK|, Run(dK, c, eps, s, n);
    if dK[k][k] > 0.0 { LastVisit(dK, c, eps, s, n, k); }
    if n >= |dK| && Run(dK, c, eps, s, n - |dK|).alpha == r.alpha { LastSweep(dK, c, eps, s, n - |dK|, n); }
  }

  /** A coordinate whose step changes nothing is within 2 K_kk eps^2 of its best value. */
  lemma IdleStepIsNearOptimal(dK: Mat, c: Vec, eps: real, s: State, k: nat, t: real)
    requires Symmetric(dK) && Cached(dK, eps, s) && InBox(c, s.alpha) && eps > 0.0
    requires k < |dK| && dK[k][k] > 0.0 && 0.0 <= t <= c[k] && Step(dK, c, eps, s, k) == s
    ensures DualValue(dK, eps, s.alpha[k := t]) <= DualValue(dK, eps, s.alpha) + 2.0 * dK[k][k] * eps * eps
  {
    StepGain(dK, c, eps, s, k);
    assert Step(dK, c, eps, s, k) == s;
  }

  // ----- prediction and ranking error

  /** The multipliers' weights on the training points' kernel values: K(p, x_j) - K(p, x_{j+1}). */
  function KernelDrops(kernel: Kernel, train: seq<Vec>, p: Vec): (r: Vec)
    requires |train| >= 1
    ensures |r| == |train| - 1
  {
    seq(|train| - 1, j requires 0 <= j < |train| - 1 => kernel(p, train[j]) - kernel(p, train[j + 1]))
  }

  /** The predicted fitness of a point. */
  function Fitness(kernel: Kernel, alpha: Vec, train: seq<Vec>, p: Vec): real
    requires |train| <= |alpha| + 1
  {
    if |train| == 0 then 0.0 else DotTo(alpha, KernelDrops(kernel, train, p), |train| - 1)
  }

  function Fitnesses(kernel: Kernel, alpha: Vec, train: seq<Vec>, points: seq<Vec>): Vec
    requires |train| <= |alpha| + 1
  {
    seq(|points|, i requires 0 <= i < |points| => Fitness(kernel, alpha, train, points[i]))
  }

  /** The pair (i,j) is ranked one way by the reference and strictly the other way by the prediction. */
  predicate Discordant(ref: Vec, fit: Vec, i: nat, j: nat)
    requires i < |ref| && j < |ref| && |ref| <= |fit|
  {
    (ref[i] > ref[j] && fit[i] < fit[j]) || (ref[i] < ref[j] && fit[i] > fit[j])
  }

  /** Discordant partners of point i among the first m points. */
  function RowErrors(ref: Vec, fit: Vec, i: nat, m: nat): nat
    requires i < |ref| && m <= |ref| && |ref| <= |fit|
  {
    if m == 0 then 0
    else RowErrors(ref, fit, i, m - 1) + (if i != m - 1 && Discordant(ref, fit, i, m - 1) then 1 else 0)
  }

  /** Ordered discordant pairs whose first point is among the first m. */
  function PairErrors(ref: Vec, fit: Vec, m: nat): nat
    requires m <= |ref| && |ref| <= |fit|
  {
    if m == 0 then 0 else PairErrors(ref, fit, m - 1) + RowErrors(ref, fit, m - 1, |ref|)
  }

  lemma {:induction false} RowErrorsBound(ref: Vec, fit: Vec, i: nat, m: nat)
    requires i < |ref| && m <= |ref| && |ref| <= |fit|
    ensures RowErrors(ref, fit, i, m) <= if i < m then m - 1 else m
    ensures RowErrors(ref, fit, i, m) == 0 <==> forall j :: 0 <= j < m && j != i ==> !Discordant(ref, fit, i, j)
    ensures RowErrors(ref, fit, i, m) == (if i < m then m - 1 else m)
            <==> forall j :: 0 <= j < m && j != i ==> Discordant(ref, fit, i, j)
  {
    if m > 0 { RowErrorsBound(ref, fit, i, m - 1); }
  }

  lemma {:induction false} PairErrorsBound(ref: Vec, fit: Vec, m: nat)
    requires m <= |ref| && |ref| <= |fit|
    ensures PairErrors(ref, fit, m) <= m * (|ref| - 1)
    ensures PairErrors(ref, fit, m) == 0 <==>
            forall i, j :: 0 <= i < m && 0 <= j < |ref| && j != i ==> !Discordant(ref, fit, i, j)
    ensures PairErrors(ref, fit, m) == m * (|ref| - 1) <==>
            forall i, j :: 0 <= i < m && 0 <= j < |ref| && j != i ==> Discordant(ref, fit, i, j)
  {
    if m > 0 {
      hide Discordant, RowErrors;
      PairErrorsBound(ref, fit, m - 1);
      RowErrorsBound(ref, fit, m - 1, |ref|);
      assert m * (|ref| - 1) == (m - 1) * (|ref| - 1) + (|ref| - 1);
    }
  }

  /** The share of ordered pairs that are discordant. */
  function ErrorShare(ref: Vec, fit: Vec): real
    requires 2 <= |ref| <= |fit|
  {
    Share(PairErrors(ref, fit, |ref|), |ref|)
  }

  /** A count over the number of ordered pairs of n things. */
  function Share(count: nat, n: nat): real
    requires n >= 2
  {
    assert n * n - n == n * (n - 1) > 0;
    count as real / (n * n - n) as real
  }

  lemma ShareRange(count: nat, n: nat)
    requires n >= 2 && count <= n * (n - 1)
    ensures 0.0 <= Share(count, n) <= 1.0
    ensures (Share(count, n) == 0.0 <==> count == 0) && (Share(count, n) == 1.0 <==> count == n * (n - 1))
  {
    assert n * n - n == n * (n - 1) > 0;
    ShareOf(count, n * (n - 1), Share(count, n));
  }

  lemma ShareOf(count: nat, total: nat, q: real)
    requires 0 < total && count <= total && q == count as real / total as real
    ensures 0.0 <= q <= 1.0 && (q == 0.0 <==> count == 0) && (q == 1.0 <==> count == total)
  {
    var t := total as real;
    QuotientPositive(count as real, t);
    if q > 1.0 { ProductSign(q - 1.0, t, (q - 1.0) * t); }
  }

  /** The error is a fraction: it vanishes exactly when no pair is discordant, and it is one exactly when
      all of them are. */
  lemma ErrorMeaning(ref: Vec, fit: Vec)
    requires 2 <= |ref| <= |fit|
    ensures 0.0 <= ErrorShare(ref, fit) <= 1.0
    ensures ErrorShare(ref, fit) == 0.0 <==>
            forall i, j :: 0 <= i < |ref| && 0 <= j < |ref| && j != i ==> !Discordant(ref, fit, i, j)
    ensures ErrorShare(ref, fit) == 1.0 <==>
            forall i, j :: 0 <= i < |ref| && 0 <= j < |ref| && j != i ==> Discordant(ref, fit, i, j)
  {
    hide PairErrors, Discordant, Share;
    PairErrorsBound(ref, fit, |ref|);
    ShareRange(PairErrors(ref, fit, |ref|), |ref|);
  }

  /** On its own training points the predictor's drop from point i to point i+1 is row i of the
      differences times the multipliers; where the diagonal is not zero, this is the residual that the
      cache stores: eps - K_ii s_i. */
  lemma TrainingDrop(kernel: Kernel, x: seq<Vec>, eps: real, s: State, i: nat)
    requires |x| >= 2 && i < |x| - 1
    requires forall p, q {:trigger kernel(p, q)} :: kernel(p, q) == kernel(q, p)
    requires Cached(DiffKernel(TrainingKernel(kernel, x)), eps, s)
    ensures var dK := DiffKernel(TrainingKernel(kernel, x));
            var drop := Fitness(kernel, s.alpha, x, x[i]) - Fitness(kernel, s.alpha, x, x[i + 1]);
            drop == Dot(dK[i], s.alpha) && (dK[i][i] != 0.0 ==> drop == eps - dK[i][i] * s.sums[i])
  {
    hide DotTo, DiffKernel, TrainingKernel, KernelDrops;
    var dK := DiffKernel(TrainingKernel(kernel, x));
    var u, v := KernelDrops(kernel, x, x[i]), KernelDrops(kernel, x, x[i + 1]);
    forall j | 0 <= j < |dK| ensures dK[i][j] == u[j] - v[j] {
      DropsOfRow(kernel, x, i, j);
    }
    DotOfDifference(u, v, dK[i], s.alpha);
    CachedAt(dK, eps, s, i);
    hide Cached;
  }

  lemma CachedAt(dK: Mat, eps: real, s: State, i: nat)
    requires Cached(dK, eps, s) && i < |dK|
    ensures dK[i][i] != 0.0 ==> Dot(dK[i], s.alpha) == eps - dK[i][i] * s.sums[i]
  {
    hide Dot;
  }

  lemma DotOfDifference(u: Vec, v: Vec, w: Vec, z: Vec)
    requires |u| == |v| == |w| == |z| && forall j :: 0 <= j < |w| ==> w[j] == u[j] - v[j]
    ensures DotTo(z, u, |z|) - DotTo(z, v, |z|) == Dot(w, z)
  {
    hide DotTo;
    DotLinear(1.0, u, -1.0, v, w, z, |z|);
    DotComm(u, z, |z|);
    DotComm(v, z, |z|);
    DotComm(w, z, |z|);
  }

  lemma KernelEntry(kernel: Kernel, x: seq<Vec>, i: nat, j: nat)
    requires i < |x| && j < |x|
    requires forall p, q {:trigger kernel(p, q)} :: kernel(p, q) == kernel(q, p)
    ensures TrainingKernel(kernel, x)[i][j] == kernel(x[i], x[j])
  {
  }

  lemma DropsOfRow(kernel: Kernel, x: seq<Vec>, i: nat, j: nat)
    requires |x| >= 2 && i < |x| - 1 && j < |x| - 1
    requires forall p, q {:trigger kernel(p, q)} :: kernel(p, q) == kernel(q, p)
    ensures DiffKernel(TrainingKernel(kernel, x))[i][j]
         == KernelDrops(kernel, x, x[i])[j] - KernelDrops(kernel, x, x[i + 1])[j]
  {
    hide TrainingKernel;
    KernelEntry(kernel, x, i, j);
    KernelEntry(kernel, x, i, j + 1);
    KernelEntry(kernel, x, i + 1, j);
    KernelEntry(kernel, x, i + 1, j + 1);
  }

  /** The residual of constraint i is not negative, or its two points coincide. */
  predicate Certified(dK: Mat, x: seq<Vec>, eps: real, s: State, i: nat)
    requires Shaped(dK, s) && i < |dK| && i < |x| - 1
  {
    x[i] == x[i + 1] || (dK[i][i] != 0.0 && dK[i][i] * s.sums[i] <= eps)
  }

  /** The certificate: if every K_ii s_i is at most eps, or its two points coincide, the predictor ranks its
      training points without a single discordant pair against any non-increasing reference. */
  lemma TrainingCertificate(kernel: Kernel, x: seq<Vec>, eps: real, s: State, ref: Vec, fit: Vec)
    requires |x| >= 2 && |ref| == |fit| == |x|
    requires forall p, q {:trigger kernel(p, q)} :: kernel(p, q) == kernel(q, p)
    requires var dK := DiffKernel(TrainingKernel(kernel, x));
             Cached(dK, eps, s) && forall i :: 0 <= i < |dK| ==> Certified(dK, x, eps, s, i)
    requires fit == Fitnesses(kernel, s.alpha, x, x)
    requires forall i, j :: 0 <= i < j < |ref| ==> ref[i] >= ref[j]
    ensures PairErrors(ref, fit, |ref|) == 0
  {
    hide DiffKernel, TrainingKernel, Fitness, Cached, Certified, PairErrors, Discordant;
    forall i | 0 <= i < |x| - 1 ensures fit[i] >= fit[i + 1] {
      CertifiedDrop(kernel, x, eps, s, i);
    }
    NonIncreasing(fit, |fit|);
    NoDiscordance(ref, fit);
  }

  lemma CertifiedDrop(kernel: Kernel, x: seq<Vec>, eps: real, s: State, i: nat)
    requires |x| >= 2 && i < |x| - 1
    requires forall p, q {:trigger kernel(p, q)} :: kernel(p, q) == kernel(q, p)
    requires var dK := DiffKernel(TrainingKernel(kernel, x));
             Cached(dK, eps, s) && Certified(dK, x, eps, s, i)
    ensures Fitness(kernel, s.alpha, x, x[i]) >= Fitness(kernel, s.alpha, x, x[i + 1])
  {
    hide Fitness, DiffKernel, TrainingKernel, Cached;
    TrainingDrop(kernel, x, eps, s, i);
  }

  lemma NoDiscordance(ref: Vec, fit: Vec)
    requires |ref| <= |fit|
    requires forall i, j :: 0 <= i < j < |ref| ==> ref[i] >= ref[j]
    requires forall i, j :: 0 <= i < j < |ref| ==> fit[i] >= fit[j]
    ensures PairErrors(ref, fit, |ref|) == 0
  {
    hide PairErrors;
    PairErrorsBound(ref, fit, |ref|);
  }

  lemma {:induction false} NonIncreasing(v: Vec, n: nat)
    requires n <= |v| && forall i :: 0 <= i < n - 1 ==> v[i] >= v[i + 1]
    ensures forall i, j :: 0 <= i < j < n ==> v[i] >= v[j]
  {
    if n > 1 {
      NonIncreasing(v, n - 1);
      assert v[n - 2] >= v[n - 2 + 1];
    }
  }

  // ----- kernels that meet the trainer's demands

  /** Two consecutive training points that coincide make a constraint without any weight. */
  lemma CoincidingPoints(kernel: Kernel, x: seq<Vec>, i: nat)
    requires i < |x| - 1 && x[i] == x[i + 1]
    ensures DiffKernel(TrainingKernel(kernel, x))[i] == Zeros(|x| - 1)
  {
    var k := TrainingKernel(kernel, x);
    assert forall j :: 0 <= j < |x| ==> k[i][j] == k[i + 1][j];
  }

  /** The radial basis kernel of bandwidth gamma. */
  function RbfKernel(exp: Fn, gamma: real): Kernel {
    (p: Vec, q: Vec) => RbfValue(exp, gamma, p, q)
  }

  function RbfValue(exp: Fn, gamma: real, p: Vec, q: Vec): real {
    if |p| == |q| then exp(Times(-gamma, Dot(Sub(p, q), Sub(p, q)))) else 0.0
  }

  /** It is one for equal points and less for different ones. */
  lemma RbfValueRange(exp: Fn, gamma: real, p: Vec, q: Vec)
    requires IsExp(exp) && gamma > 0.0 && |p| == |q|
    ensures RbfValue(exp, gamma, p, q) <= 1.0
    ensures RbfValue(exp, gamma, p, q) == 1.0 <==> p == q
  {
    DifferenceNorm(p, q);
    hide Dot, Sub;
    var w := Dot(Sub(p, q), Sub(p, q));
    var t := Times(-gamma, w);
    ProductSign(gamma, w, gamma * w);
    assert RbfValue(exp, gamma, p, q) == exp(t);
  }

  /** With the radial basis kernel the trainer's divisions by K_ii are defined exactly when the two
      consecutive points differ, and the dual can never fall. */
  lemma RbfKernelTrainable(exp: Fn, gamma: real, x: seq<Vec>, d: nat)
    requires IsExp(exp) && gamma > 0.0 && |x| >= 1 && forall i :: 0 <= i < |x| ==> |x[i]| == d
    ensures var dK := DiffKernel(TrainingKernel(RbfKernel(exp, gamma), x));
            && Trainable(dK)
            && forall i :: 0 <= i < |x| - 1 ==> (dK[i][i] > 0.0 <==> x[i] != x[i + 1])
  {
    DiffKernelSymmetric(RbfKernel(exp, gamma), x);
    var dK := DiffKernel(TrainingKernel(RbfKernel(exp, gamma), x));
    forall i | 0 <= i < |x| - 1 ensures dK[i][i] >= 0.0 && (dK[i][i] > 0.0 <==> x[i] != x[i + 1]) {
      RbfDiagonal(exp, gamma, x, i);
    }
  }

  lemma RbfDiagonal(exp: Fn, gamma: real, x: seq<Vec>, i: nat)
    requires IsExp(exp) && gamma > 0.0 && i < |x| - 1 && |x[i]| == |x[i + 1]|
    ensures var h := DiffKernel(TrainingKernel(RbfKernel(exp, gamma), x))[i][i];
            h >= 0.0 && (h > 0.0 <==> x[i] != x[i + 1])
  {
    hide RbfValue, IsExp;
    var k, p, q := TrainingKernel(RbfKernel(exp, gamma), x), x[i], x[i + 1];
    RbfValueRange(exp, gamma, p, q);
    RbfValueRange(exp, gamma, p, p);
    RbfValueRange(exp, gamma, q, q);
    assert k[i][i] == k[i + 1][i + 1] == 1.0;
    assert k[i][i + 1] == k[i + 1][i] == RbfValue(exp, gamma, p, q);
  }

  /** The squared distance of two points vanishes exactly when they coincide. */
  lemma DifferenceNorm(p: Vec, q: Vec)
    requires |p| == |q|
    ensures Dot(Sub(p, q), Sub(p, q)) >= 0.0
    ensures Dot(Sub(p, q), Sub(p, q)) == 0.0 <==> p == q
  {
    var w := Sub(p, q);
    SquaredNormPositive(w);
    hide DotTo;
    assert forall j :: 0 <= j < |p| ==> w[j] == p[j] - q[j];
    if IsZero(w) {
      assert p == q;
    }
  }

  function LinearKernel(p: Vec, q: Vec): real {
    if |p| == |q| then Dot(p, q) else 0.0
  }

  /** With the linear kernel, K_ii is the squared distance of two consecutive training points: it is never
      negative, and positive exactly when they differ. */
  lemma LinearKernelTrainable(x: seq<Vec>, d: nat)
    requires |x| >= 1 && forall i :: 0 <= i < |x| ==> |x[i]| == d
    ensures var dK := DiffKernel(TrainingKernel(LinearKernel, x));
            && Trainable(dK)
            && forall i :: 0 <= i < |x| - 1 ==> (dK[i][i] > 0.0 <==> x[i] != x[i + 1])
  {
    DiffKernelSymmetric(LinearKernel, x);
    var dK := DiffKernel(TrainingKernel(LinearKernel, x));
    forall i | 0 <= i < |x| - 1 ensures dK[i][i] >= 0.0 && (dK[i][i] > 0.0 <==> x[i] != x[i + 1]) {
      LinearDiagonal(x, i);
      DistanceExpanded(x[i], x[i + 1]);
      DifferenceNorm(x[i], x[i + 1]);
    }
  }

  lemma DistanceExpanded(p: Vec, q: Vec)
    requires |p| == |q|
    ensures Dot(Sub(p, q), Sub(p, q)) == Dot(p, p) - Dot(p, q) - Dot(q, p) + Dot(q, q)
  {
    var w, d := Sub(p, q), |p|;
    hide DotTo;
    DotLinear(1.0, p, -1.0, q, w, w, d);
    DotLinear(1.0, p, -1.0, q, w, p, d);
    DotLinear(1.0, p, -1.0, q, w, q, d);
    DotComm(p, q, d);
  }

  lemma LinearDiagonal(x: seq<Vec>, i: nat)
    requires i < |x| - 1 && |x[i]| == |x[i + 1]|
    ensures var p, q := x[i], x[i + 1];
            DiffKernel(TrainingKernel(LinearKernel, x))[i][i] == Dot(p, p) - Dot(p, q) - Dot(q, p) + Dot(q, q)
  {
    hide Dot;
    var k := TrainingKernel(LinearKernel, x);
    assert k[i][i] == LinearKernel(x[i], x[i]) && k[i][i + 1] == LinearKernel(x[i], x[i + 1]);
    assert k[i + 1][i] == LinearKernel(x[i], x[i + 1]) && k[i + 1][i + 1] == LinearKernel(x[i + 1], x[i + 1]);
    assert Dot(x[i], x[i + 1]) == Dot(x[i + 1], x[i]) by { DotSymmetric(x[i], x[i + 1]); }
  }

  // ----- the program

  /** A base weight times the square of m. */
  function SquaredWeight(base: real, m: nat): real {
    base * (m * m) as real
  }

  /** The weights are the base times the squares: the first is the base, and they grow by its odd multiples. */
  lemma WeightGrows(base: real, m: nat)
    ensures SquaredWeight(base, 1) == base
    ensures SquaredWeight(base, m + 1) - SquaredWeight(base, m) == base * (2 * m + 1) as real
  {
    assert (m + 1) * (m + 1) == m * m + (2 * m + 1);
    assert ((m + 1) * (m + 1)) as real == (m * m) as real + (2 * m + 1) as real;
  }

  lemma WeightNonNegative(base: real, m: nat)
    requires base >= 0.0
    ensures SquaredWeight(base, m) >= 0.0
  {
    ProductSign(base, (m * m) as real, base * (m * m) as real);
  }

  /** The cells that the triangular fill has written before it writes cell (i, j). */
  predicate Filled(p: nat, q: nat, i: nat, j: nat) {
    p < i || q < i || (p == i && q < j) || (q == i && p < j)
  }

  /** The trainer with its model. Matrices and vectors are reassigned as they are resized and filled. */
  class RankingSVM {
    const kernel: Kernel
    var K: Mat
    var dK: Mat
    var alpha: Vec
    var C: Vec
    var Cval: real
    var epsilon: real

    constructor (kernel: Kernel)
      ensures this.kernel == kernel
      ensures alpha == [] && Cval == 1000000.0 && epsilon == 1.0
    {
      this.kernel := kernel;
      K, dK, alpha, C := [], [], [], [];
      Cval, epsilon := 1000000.0, 1.0;
    }

    /** The weight of constraint k: base weight times (k+1) squared. */
    function Weight(k: nat): real
      reads `Cval
    {
      SquaredWeight(Cval, k + 1)
    }

    /** Fills the kernel matrix from its upper triangle. */
    method ComputeTrainingKernel(x: seq<Vec>)
      modifies `K
      ensures K == TrainingKernel(kernel, x)
    {
      var n := |x|;
      K := ZeroMat(n);
      var i := 0;
      while i < n
        invariant 0 <= i <= n && IsSquare(K, n)
        invariant forall p, q :: 0 <= p < n && 0 <= q < n && (p < i || q < i) ==>
                    K[p][q] == TrainingKernel(kernel, x)[p][q]
      {
        var j := i;
        while j < n
          invariant i <= j <= n && IsSquare(K, n)
          invariant forall p, q :: 0 <= p < n && 0 <= q < n && Filled(p, q, i, j) ==>
                      K[p][q] == TrainingKernel(kernel, x)[p][q]
        {
          var v := kernel(x[i], x[j]);
          K := K[j := K[j][i := v]];
          K := K[i := K[i][j := v]];
          j := j + 1;
        }
        i := i + 1;
      }
      assert forall p :: 0 <= p < n ==> K[p] == TrainingKernel(kernel, x)[p];
    }

    /** Trains on the points x: the multipliers end where the ascent's specification ends. */
    method Train(x: seq<Vec>, niter: int, draws: Vec) returns (ghost final: State)
      requires |x| >= 1 && (niter <= 0 || |x| >= 2)
      requires |draws| == |x| - 1 && forall i :: 0 <= i < |draws| ==> 0.0 <= draws[i] < 1.0
      requires Cval >= 0.0
      modifies this
      ensures K == TrainingKernel(kernel, x) && dK == DiffKernel(K)
      ensures Cval == old(Cval) && epsilon == old(epsilon)
      ensures |C| == |x| - 1 && forall k :: 0 <= k < |C| ==> C[k] == Weight(k)
      ensures |alpha| == |x| - 1 && final.alpha == alpha
      ensures final == if niter <= 0 then Start(dK, C, epsilon, draws)
                       else Run(dK, C, epsilon, Start(dK, C, epsilon, draws), niter)
      ensures Symmetric(dK) && InBox(C, alpha) && Cached(dK, epsilon, final)
      ensures Trainable(dK) && epsilon > 0.0 ==>
                DualValue(dK, epsilon, Start(dK, C, epsilon, draws).alpha) <= DualValue(dK, epsilon, alpha)
      ensures Trainable(dK) && epsilon > 0.0 && niter > 0 ==>
                WellTrained(dK, C, epsilon, Start(dK, C, epsilon, draws), niter)
    {
      hide DualValue, Dot, DiffKernel, Start, Run;
      SetWeights(|x| - 1);
      ComputeTrainingKernel(x);
      DiffKernelSymmetric(kernel, x);
      final := Optimize(niter, draws);
    }

    /** Sets the box: the weight of constraint k is the base weight times (k+1) squared. */
    method SetWeights(nalphas: nat)
      requires Cval >= 0.0
      modifies `C
      ensures |C| == nalphas && forall k :: 0 <= k < nalphas ==> C[k] == Weight(k) && C[k] >= 0.0
      ensures nalphas > 0 ==> C[0] == Cval
      ensures forall k :: 0 < k < nalphas ==> C[k] == C[k - 1] + Cval * (2 * k + 1) as real
    {
      hide SquaredWeight;
      var base, i := Cval, 0;
      C := seq(nalphas, _ => base);
      while i < nalphas
        invariant 0 <= i <= nalphas && |C| == nalphas
        invariant forall k :: nalphas - i <= k < nalphas ==> C[k] == Weight(k)
      {
        C := C[nalphas - 1 - i := SquaredWeight(Cval, nalphas - i)];
        i := i + 1;
      }
      forall k | 0 <= k < nalphas
        ensures C[k] >= 0.0 && (k == 0 ==> C[k] == Cval)
        ensures k > 0 ==> C[k] == C[k - 1] + Cval * (2 * k + 1) as real
      {
        WeightNonNegative(Cval, k + 1);
        WeightGrows(Cval, k);
      }
    }

    /** Dual ascent for niter iterations from a random start in the top twentieth of the box. */
    method Optimize(niter: int, draws: Vec) returns (ghost final: State)
      requires |K| >= 1 && IsSquare(K, |K|) && Symmetric(DiffKernel(K))
      requires |C| == |draws| == |K| - 1 && (niter <= 0 || |K| >= 2)
      requires forall i :: 0 <= i < |C| ==> C[i] >= 0.0 && 0.0 <= draws[i] < 1.0
      modifies `dK, `alpha
      ensures dK == DiffKernel(K)
      ensures final == if niter <= 0 then Start(dK, C, epsilon, draws)
                       else Run(dK, C, epsilon, Start(dK, C, epsilon, draws), niter)
      ensures final.alpha == alpha && |alpha| == |C|
      ensures Symmetric(dK) && InBox(C, alpha) && Cached(dK, epsilon, final)
      ensures Trainable(dK) && epsilon > 0.0 ==>
                DualValue(dK, epsilon, Start(dK, C, epsilon, draws).alpha) <= DualValue(dK, epsilon, alpha)
      ensures Trainable(dK) && epsilon > 0.0 && niter > 0 ==>
                WellTrained(dK, C, epsilon, Start(dK, C, epsilon, draws), niter)
    {
      Difference(draws);
      var sums, div := CacheResiduals();
      ghost var start := State(alpha, sums);
      assert start == Start(dK, C, epsilon, draws);
      StartInvariant(dK, C, epsilon, draws);
      Ascend(niter, sums, div);
      final := if niter <= 0 then start else Run(dK, C, epsilon, start, niter);
      if niter > 0 {
        RunKeepsState(dK, C, epsilon, start, niter);
        if Trainable(dK) && epsilon > 0.0 { RunIsWellTrained(dK, C, epsilon, start, niter); }
      }
    }

    /** Differences the kernel matrix and draws the multipliers. */
    method Difference(draws: Vec)
      requires |K| >= 1 && IsSquare(K, |K|) && |C| == |draws| == |K| - 1
      modifies `dK, `alpha
      ensures dK == DiffKernel(K)
      ensures alpha == DrawnMultipliers(C, draws)
    {
      hide Drawn;
      var n := |K| - 1;
      dK, alpha := ZeroMat(n), Zeros(n);
      var i := 0;
      while i < n
        invariant 0 <= i <= n && IsSquare(dK, n) && |alpha| == n
        invariant forall p :: 0 <= p < i ==> dK[p] == DiffKernel(K)[p]
        invariant forall p :: 0 <= p < i ==> alpha[p] == DrawnMultipliers(C, draws)[p]
      {
        var row, j := dK[i], 0;
        while j < n
          invariant 0 <= j <= n && |row| == n
          invariant forall q :: 0 <= q < j ==> row[q] == DiffKernel(K)[i][q]
        {
          row := row[j := K[i][j] - K[i][j + 1] - K[i + 1][j] + K[i + 1][j + 1]];
          j := j + 1;
        }
        assert row == DiffKernel(K)[i];
        dK := dK[i := row];
        alpha := alpha[i := Drawn(C[i], draws[i])];
        i := i + 1;
      }
      assert alpha == DrawnMultipliers(C, draws);
    }

    /** Computes the residual cache and the matrix of differences over their column's diagonal. */
    method CacheResiduals() returns (sums: Vec, div: Mat)
      requires IsSquare(dK, |dK|) && |alpha| == |dK|
      ensures sums == ResidualCache(dK, epsilon, alpha)
      ensures IsSquare(div, |dK|)
      ensures forall i :: 0 <= i < |dK| ==> div[i] == DividedRow(dK, i)
    {
      var n := |dK|;
      sums, div := Zeros(n), ZeroMat(n);
      var i := 0;
      while i < n
        invariant 0 <= i <= n && IsSquare(div, n) && |sums| == n
        invariant forall p :: 0 <= p < i ==> div[p] == DividedRow(dK, p)
        invariant forall p :: 0 <= p < i ==> sums[p] == Quotient(epsilon - Dot(dK[p], alpha), dK[p][p])
      {
        var sum, row, j := 0.0, div[i], 0;
        while j < n
          invariant 0 <= j <= n && |row| == n && sum == DotTo(dK[i], alpha, j)
          invariant forall q :: 0 <= q < j ==> row[q] == DividedRow(dK, i)[q]
        {
          sum := sum + alpha[j] * dK[i][j];
          row := row[j := Quotient(dK[i][j], dK[j][j])];
          j := j + 1;
        }
        assert row == DividedRow(dK, i);
        div := div[i := row];
        sums := sums[i := Quotient(epsilon - sum, dK[i][i])];
        i := i + 1;
      }
    }

    /** The ascent loop: its variables follow the specification's run, iteration by iteration. */
    method Ascend(niter: int, sums0: Vec, div: Mat)
      requires Shaped(dK, State(alpha, sums0)) && |C| == |dK|
      requires niter <= 0 || |dK| > 0
      requires IsSquare(div, |dK|) && forall i :: 0 <= i < |dK| ==> div[i] == DividedRow(dK, i)
      modifies `alpha
      ensures alpha == if niter <= 0 then old(alpha) else Run(dK, C, epsilon, State(old(alpha), sums0), niter).alpha
    {
      hide DividedRow, Step;
      var sums, i := sums0, 0;
      ghost var start := State(alpha, sums0);
      while i < niter
        invariant 0 <= i && (niter > 0 ==> i <= niter)
        invariant |alpha| == |sums| == |dK|
        invariant State(alpha, sums) == if niter <= 0 then start else Run(dK, C, epsilon, start, i)
      {
        var i1 := i % |dK|;
        var oldAlpha := alpha[i1];
        var newAlpha := Max(Min(oldAlpha + sums[i1], C[i1]), 0.0);
        var delta := newAlpha - oldAlpha;
        var dL := delta * dK[i1][i1] * (sums[i1] - 0.5 * delta + epsilon);
        StepAsComputed(dK, C, epsilon, State(alpha, sums), i1, newAlpha, delta, dL);
        if dL > 0.0 {
          sums := Sub(sums, Scale(delta, div[i1]));
          alpha := alpha[i1 := newAlpha];
        }
        i := i + 1;
      }
    }

    /** Predicts the fitness of each test point; an untrained model leaves the result empty. */
    method Predict(test: seq<Vec>, train: seq<Vec>) returns (fit: Vec)
      requires alpha != [] ==> |train| <= |alpha| + 1
      ensures alpha == [] ==> fit == []
      ensures alpha != [] ==> fit == Fitnesses(kernel, alpha, train, test)
    {
      if alpha == [] { return []; }
      fit := Zeros(|test|);
      var i := 0;
      while i < |test|
        invariant 0 <= i <= |test| && |fit| == |test|
        invariant forall p :: 0 <= p < i ==> fit[p] == Fitness(kernel, alpha, train, test[p])
      {
        var vals := seq(|train|, j requires 0 <= j < |train| => kernel(test[i], train[j]));
        var cur, j := 0.0, 0;
        while j < |train| - 1
          invariant 0 <= j && (train == [] ==> cur == 0.0)
          invariant train != [] ==> j <= |train| - 1 && cur == DotTo(alpha, KernelDrops(kernel, train, test[i]), j)
        {
          cur := cur + alpha[j] * (vals[j] - vals[j + 1]);
          j := j + 1;
        }
        fit := fit[i := cur];
        i := i + 1;
      }
    }

    /** The share of ordered pairs that the prediction inverts: one if the model is untrained, and not a
        number for fewer than two reference points. */
    method Error(test: seq<Vec>, train: seq<Vec>, ref: Vec) returns (e: Option<real>)
      requires alpha != [] ==> |train| <= |alpha| + 1 && |ref| <= |test|
      ensures alpha == [] || test == [] ==> e == Some(1.0)
      ensures alpha != [] && test != [] && |ref| < 2 ==> e == None
      ensures alpha != [] && test != [] && |ref| >= 2 ==>
                e == Some(ErrorShare(ref, Fitnesses(kernel, alpha, train, test))) && 0.0 <= e.value <= 1.0
    {
      hide PairErrors, Share, Discordant;
      var fit := Predict(test, train);
      if |fit| == 0 { return Some(1.0); }
      var err := Inversions(ref, fit);
      if |ref| < 2 { return None; }
      ErrorMeaning(ref, fit);
      e := Some(Share(err, |ref|));
    }
  }

  /** Counts the ordered discordant pairs. */
  method Inversions(ref: Vec, fit: Vec) returns (err: nat)
    requires |ref| <= |fit|
    ensures err == PairErrors(ref, fit, |ref|)
  {
    var n, i := |ref|, 0;
    err := 0;
    while i < n
      invariant 0 <= i <= n && err == PairErrors(ref, fit, i)
    {
      var j := 0;
      ghost var before := err;
      while j < n
        invariant 0 <= j <= n && err == before + RowErrors(ref, fit, i, j)
      {
        if i != j && ((ref[i] > ref[j] && fit[i] < fit[j]) || (ref[i] < ref[j] && fit[i] > fit[j])) {
          err := err + 1;
        }
        j := j + 1;
      }
      i := i + 1;
    }
  }
}
