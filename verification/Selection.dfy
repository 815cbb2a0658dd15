/** How much selection the logarithmic weights carry: their effective number is a fixed share of mu. */
module Selection {
  import opened LinearAlgebra
  import opened RealFunctions
  import opened Parameters

  /** The raw weight of the i-th best out of n - 1. */
  function Gap(log: Fn, n: nat, i: nat): real {
    log(n as real) - log(i as real)
  }

  /** The sum of the first m raw weights, and of their squares. */
  function Gaps(log: Fn, n: nat, m: nat): real {
    if m == 0 then 0.0 else Gaps(log, n, m - 1) + Gap(log, n, m)
  }

  function GapSquares(log: Fn, n: nat, m: nat): real {
    if m == 0 then 0.0 else GapSquares(log, n, m - 1) + Gap(log, n, m) * Gap(log, n, m)
  }

  lemma {:induction false} WeightsAreGaps(log: Fn, mu: nat, m: nat)
    requires m <= mu
    ensures SumTo(RawWeights(log, mu), m) == Gaps(log, mu + 1, m)
    ensures DotTo(RawWeights(log, mu), RawWeights(log, mu), m) == GapSquares(log, mu + 1, m)
  {
    if m > 0 { WeightsAreGaps(log, mu, m - 1); }
  }

  // ----- single weights

  lemma DoubledLog(log: Fn, a: real)
    requires IsLog(log) && a > 0.0
    ensures log(2.0 * a) == log(2.0) + log(a) && log(2.0) > 0.0
  {
    assert Times(2.0, a) == 2.0 * a;
    assert log(Times(2.0, a)) == log(2.0) + log(a);
  }

  lemma LogMonotone(log: Fn, a: real, b: real)
    requires IsLog(log) && 0.0 < a <= b
    ensures log(a) <= log(b)
  {
  }

  /** Up to half of the ranks weigh at least log 2, the others at most that, and none is negative. */
  lemma GapBounds(log: Fn, n: nat, i: nat)
    requires IsLog(log) && 1 <= i <= n
    ensures log(2.0) > 0.0 && Gap(log, n, i) >= 0.0
    ensures 2 * i <= n ==> Gap(log, n, i) >= log(2.0)
    ensures n <= 2 * i ==> Gap(log, n, i) <= log(2.0)
  {
    DoubledLog(log, i as real);
    LogMonotone(log, i as real, n as real);
    if 2 * i <= n { LogMonotone(log, 2.0 * i as real, n as real); }
    if n <= 2 * i { LogMonotone(log, n as real, 2.0 * i as real); }
  }

  /** Halving the number of ranks takes at most log 2 off a weight. */
  lemma GapHalved(log: Fn, n: nat, h: nat, i: nat)
    requires IsLog(log) && 1 <= i <= h <= n <= 2 * h
    ensures Gap(log, n, i) <= Gap(log, h, i) + log(2.0)
  {
    DoubledLog(log, h as real);
    LogMonotone(log, n as real, 2.0 * h as real);
  }

  // ----- sums of weights

  /** A sum s and a sum of squares q after k weights, when each is at most log 2 above that of (s0, q0). */
  predicate Raised(s: real, q: real, s0: real, q0: real, k: real, l: real) {
    SumRaised(s, s0, k, l) && SquaresRaised(q, q0, s0, k, l)
  }

  predicate SumRaised(s: real, s0: real, k: real, l: real) {
    s <= s0 + k * l
  }

  predicate SquaresRaised(q: real, q0: real, s0: real, k: real, l: real) {
    q <= q0 + 2.0 * l * s0 + k * (l * l)
  }

  lemma RaisedStep(s: real, q: real, s0: real, q0: real, k: real, l: real, a: real, g: real,
                   s': real, q': real, s0': real, q0': real, k': real)
    requires Raised(s, q, s0, q0, k, l) && 0.0 <= a <= g + l
    requires s' == s + a && q' == q + a * a && s0' == s0 + g && q0' == q0 + g * g && k' == k + 1.0
    ensures Raised(s', q', s0', q0', k', l)
  {
    hide SumRaised, SquaresRaised;
    RaisedSum(s, s0, k, l, a, g, s', s0', k');
    RaisedSquares(q, q0, s0, k, l, a, g, q', q0', s0', k');
  }

  lemma RaisedSum(s: real, s0: real, k: real, l: real, a: real, g: real, s': real, s0': real, k': real)
    requires SumRaised(s, s0, k, l) && a <= g + l && s' == s + a && s0' == s0 + g && k' == k + 1.0
    ensures SumRaised(s', s0', k', l)
  {
  }

  lemma SquareSpread(a: real, g: real, l: real, t: real)
    requires 0.0 <= a <= g + l && t == a * a
    ensures t <= g * g + 2.0 * l * g + l * l
  {
    ProductMonotone(a, g + l, a, g + l);
    assert (g + l) * (g + l) == g * g + 2.0 * l * g + l * l;
  }

  lemma RaisedSquares(q: real, q0: real, s0: real, k: real, l: real, a: real, g: real,
                      q': real, q0': real, s0': real, k': real)
    requires SquaresRaised(q, q0, s0, k, l) && 0.0 <= a <= g + l
    requires q' == q + a * a && q0' == q0 + g * g && s0' == s0 + g && k' == k + 1.0
    ensures SquaresRaised(q', q0', s0', k', l)
  {
    SquareSpread(a, g, l, a * a);
    assert 2.0 * l * s0' == 2.0 * l * s0 + 2.0 * l * g;
  }

  /** The same after k more weights of at most log 2. */
  predicate Grown(s: real, q: real, s0: real, q0: real, k: real, l: real) {
    s <= s0 + k * l && q <= q0 + k * (l * l)
  }

  lemma GrownStep(s: real, q: real, s0: real, q0: real, k: real, l: real, a: real, s': real, q': real, k': real)
    requires Grown(s, q, s0, q0, k, l) && 0.0 <= a <= l
    requires s' == s + a && q' == q + a * a && k' == k + 1.0
    ensures Grown(s', q', s0, q0, k', l)
  {
    ProductMonotone(a, l, a, l);
  }

  lemma NoWeights(s: real, q: real, l: real)
    ensures Raised(0.0, 0.0, 0.0, 0.0, 0.0, l) && Grown(s, q, s, q, 0.0, l)
  {
  }

  lemma {:induction false} HeadSums(log: Fn, n: nat, h: nat, m: nat)
    requires IsLog(log) && m <= h <= n <= 2 * h
    ensures Raised(Gaps(log, n, m), GapSquares(log, n, m), Gaps(log, h, m), GapSquares(log, h, m), m as real, log(2.0))
  {
    hide IsLog, Gap, Raised;
    if m == 0 {
      NoWeights(0.0, 0.0, log(2.0));
    } else {
      var k := m - 1;
      HeadSums(log, n, h, k);
      GapHalved(log, n, h, m);
      GapBounds(log, n, m);
      RaisedStep(Gaps(log, n, k), GapSquares(log, n, k), Gaps(log, h, k), GapSquares(log, h, k), k as real, log(2.0),
                 Gap(log, n, m), Gap(log, h, m),
                 Gaps(log, n, m), GapSquares(log, n, m), Gaps(log, h, m), GapSquares(log, h, m), m as real);
    }
  }

  lemma {:induction false} TailSums(log: Fn, n: nat, h: nat, m: nat)
    requires IsLog(log) && 1 <= h <= m <= n <= 2 * h
    ensures Grown(Gaps(log, n, m), GapSquares(log, n, m), Gaps(log, n, h), GapSquares(log, n, h), (m - h) as real,
                  log(2.0))
    decreases m
  {
    hide IsLog, Gap, Grown;
    if m == h {
      NoWeights(Gaps(log, n, h), GapSquares(log, n, h), log(2.0));
    } else {
      var k := m - 1;
      TailSums(log, n, h, k);
      GapBounds(log, n, m);
      GrownStep(Gaps(log, n, k), GapSquares(log, n, k), Gaps(log, n, h), GapSquares(log, n, h), (k - h) as real,
                log(2.0), Gap(log, n, m), Gaps(log, n, m), GapSquares(log, n, m), (m - h) as real);
    }
  }

  /** A sum of at most three times, and a sum of squares of at most nine times what n - 1 weights of l make. */
  predicate AtMost(s: real, q: real, n: real, l: real) {
    s <= 3.0 * (n - 1.0) * l && q <= 9.0 * (n - 1.0) * (l * l)
  }

  lemma {:induction false} SumsAtMost(log: Fn, n: nat)
    requires IsLog(log) && n >= 1
    ensures AtMost(Gaps(log, n, n), GapSquares(log, n, n), n as real, log(2.0))
  {
    hide IsLog, Gap, Raised, Grown, AtMost, Gaps, GapSquares;
    if n == 1 {
      OneGap(log);
    } else {
      var h := (n + 1) / 2;
      GapBounds(log, n, n);
      SumsAtMost(log, h);
      HeadSums(log, n, h, h);
      TailSums(log, n, h, n);
      SumsAlgebra(n as real, h as real, (n - h) as real, log(2.0), Gaps(log, n, n), GapSquares(log, n, n),
                  Gaps(log, n, h), GapSquares(log, n, h), Gaps(log, h, h), GapSquares(log, h, h));
    }
  }

  lemma OneGap(log: Fn)
    ensures AtMost(Gaps(log, 1, 1), GapSquares(log, 1, 1), 1.0, log(2.0))
  {
    assert Gaps(log, 1, 0) == 0.0 && GapSquares(log, 1, 0) == 0.0 && Gap(log, 1, 1) == 0.0;
  }

  lemma SumsAlgebra(n: real, h: real, t: real, l: real, s: real, q: real, sh: real, qh: real, s': real, q': real)
    requires l > 0.0 && t == n - h && 3.0 * h <= 2.0 * n && 15.0 * h <= 8.0 * n + 6.0
    requires AtMost(s', q', h, l) && Raised(sh, qh, s', q', h, l) && Grown(s, q, sh, qh, t, l)
    ensures AtMost(s, q, n, l)
  {
    var k := l * l;
    SquareSign(l, k);
    SumPart(n, h, t, l, s, sh, s');
    TwiceBelow(h, l, s', k);
    SquarePart(n, h, t, k, q, qh, q', l * s');
  }

  lemma SumPart(n: real, h: real, t: real, l: real, s: real, sh: real, s': real)
    requires l > 0.0 && t == n - h && 3.0 * h <= 2.0 * n
    requires s' <= 3.0 * (h - 1.0) * l && sh <= s' + h * l && s <= sh + t * l
    ensures s <= 3.0 * (n - 1.0) * l
  {
    ProductSign(2.0 * n - 3.0 * h, l, (2.0 * n - 3.0 * h) * l);
  }

  lemma TwiceBelow(h: real, l: real, s': real, k: real)
    requires l > 0.0 && k == l * l && s' <= 3.0 * (h - 1.0) * l
    ensures l * s' <= 3.0 * (h - 1.0) * k
  {
    var b := 3.0 * (h - 1.0) * l;
    ProductSign(l, b - s', l * (b - s'));
    assert l * b == 3.0 * (h - 1.0) * k;
  }

  lemma SquarePart(n: real, h: real, t: real, k: real, q: real, qh: real, q': real, w: real)
    requires k > 0.0 && t == n - h && 15.0 * h <= 8.0 * n + 6.0 && w <= 3.0 * (h - 1.0) * k
    requires q' <= 9.0 * (h - 1.0) * k && qh <= q' + 2.0 * w + h * k && q <= qh + t * k
    ensures q <= 9.0 * (n - 1.0) * k
  {
    ProductSign(8.0 * n + 6.0 - 15.0 * h, k, (8.0 * n + 6.0 - 15.0 * h) * k);
  }

  lemma {:induction false} SumAtLeast(log: Fn, n: nat, m: nat)
    requires IsLog(log) && m <= n
    ensures Gaps(log, n, m) >= (if 2 * m <= n then m else n / 2) as real * log(2.0)
  {
    hide IsLog, Gap;
    if m > 0 {
      SumAtLeast(log, n, m - 1);
      GapBounds(log, n, m);
      assert m as real * log(2.0) == (m - 1) as real * log(2.0) + log(2.0);
    }
  }

  // ----- the effective number

  /** The effective number of the weights is at least a thirty-sixth of mu, for every mu. */
  lemma MuwAtLeast(log: Fn, mu: nat)
    requires IsLog(log) && mu >= 1
    ensures Dot(RawWeights(log, mu), RawWeights(log, mu)) > 0.0
    ensures 36.0 * Muw(RawWeights(log, mu)) >= mu as real
  {
    var raw := RawWeights(log, mu);
    hide IsLog, RawWeights, SumTo, DotTo, Gaps, GapSquares, Gap, AtMost, Muw;
    WeightsAreGaps(log, mu, mu);
    LastGap(log, mu + 1);
    SumsAtMost(log, mu + 1);
    SumAtLeast(log, mu + 1, mu);
    GapBounds(log, mu + 1, mu);
    RawPositive(log, mu);
    MuwProduct(raw);
    EffectiveNumber(Sum(raw), Dot(raw, raw), mu as real, (mu + 1) as real, log(2.0), ((mu + 1) / 2) as real, Muw(raw));
  }

  lemma LastGap(log: Fn, n: nat)
    requires n >= 1
    ensures Gaps(log, n, n) == Gaps(log, n, n - 1) && GapSquares(log, n, n) == GapSquares(log, n, n - 1)
  {
    assert Gap(log, n, n) == 0.0;
  }

  lemma RawPositive(log: Fn, mu: nat)
    requires IsLog(log) && mu >= 1
    ensures Dot(RawWeights(log, mu), RawWeights(log, mu)) > 0.0
  {
    var raw := RawWeights(log, mu);
    RawWeightPositive(log, mu, 0);
    assert raw[0] > 0.0;
    hide RawWeights;
    SquaredNormPositive(raw);
  }

  lemma MuwProduct(w: Vec)
    requires Dot(w, w) != 0.0
    ensures Muw(w) * Dot(w, w) == Sum(w) * Sum(w)
  {
    hide Sum, Dot;
  }

  lemma EffectiveNumber(s: real, q: real, m: real, n: real, l: real, f: real, r: real)
    requires m >= 1.0 && n == m + 1.0 && l > 0.0 && 2.0 * f >= m && s >= f * l && q > 0.0 && AtMost(s, q, n, l)
    requires r * q == s * s
    ensures 36.0 * r >= m
  {
    var t := m * l / 2.0;
    ProductSign(2.0 * f - m, l, (2.0 * f - m) * l);
    ProductSign(m, l, m * l);
    ProductMonotone(t, s, t, s);
    assert 4.0 * (t * t) == m * (m * (l * l));
    ProductSign(m, 9.0 * m * (l * l) - q, m * (9.0 * m * (l * l) - q));
    if 36.0 * r < m { ProductSign(m - 36.0 * r, q, (m - 36.0 * r) * q); }
  }
}
