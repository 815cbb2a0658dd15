/** Restart strategies: IPOP doubles the population at every restart; BIPOP interleaves such large runs
    with small ones so that both regimes use about the same budget. */
module Restarts {
  import opened RealFunctions
  import opened Wrappers

  /** Which test ended a run: the automatic iteration threshold, the evaluation budget, or one of the others. */
  datatype Status = Running | AutoMaxIter | MaxFevals | Other

  /** A finished inner run: its regime, population, initial step size, iterations and final best value, its
      budget (-1 for none) and what ended it. */
  datatype Run = Run(large: bool, lambda: nat, sigma: real, niter: nat, best: real, budget: int, status: Status)

  /** The population after k doublings. */
  function Doubled(lambda0: nat, k: nat): (r: nat)
    ensures r >= lambda0
  {
    if k == 0 then lambda0 else 2 * Doubled(lambda0, k - 1)
  }

  /** The default population scaled by a factor and rounded up. */
  function Rounded(lambda0: nat, factor: real): int {
    Ceil(lambda0 as real * factor)
  }

  /** The power function, where the strategy uses it: positive bases with exponents in [0,1), and base ten
      with exponents in (-2,0]. */
  ghost predicate IsPow(pow: (real, real) -> real) {
    && (forall b: real, u: real :: b > 0.0 && 0.0 <= u < 1.0 ==>
          if b >= 1.0 then 1.0 <= pow(b, u) <= b else b < pow(b, u) <= 1.0)
    && forall e: real :: -2.0 < e <= 0.0 ==> 0.01 < pow(10.0, e) <= 1.0
  }

  // ----- logs

  /** Evaluations of one run, one per candidate of each iteration. */
  function Cost(r: Run): nat {
    r.niter * r.lambda
  }

  /** Evaluations spent by the runs of one regime. */
  function Spent(log: seq<Run>, large: bool): nat {
    if log == [] then 0
    else
      var r := log[|log| - 1];
      Spent(log[..|log| - 1], large) + (if r.large == large then Cost(r) else 0)
  }

  /** How many runs of one regime there were. */
  function Count(log: seq<Run>, large: bool): nat {
    if log == [] then 0
    else Count(log[..|log| - 1], large) + (if log[|log| - 1].large == large then 1 else 0)
  }

  /** Run i is the first one of least value. */
  predicate FirstBest(log: seq<Run>, i: int) {
    && 0 <= i < |log| && (forall j :: 0 <= j < |log| ==> log[i].best <= log[j].best)
    && forall j :: 0 <= j < i ==> log[i].best < log[j].best
  }

  lemma FirstStays(log: seq<Run>, k: nat)
    requires |log| > 1 && FirstBest(log[..|log| - 1], k) && log[k].best <= log[|log| - 1].best
    ensures FirstBest(log, k)
  {
    var prev := log[..|log| - 1];
    assert forall j :: 0 <= j < |prev| ==> prev[j] == log[j];
  }

  lemma FirstBeaten(log: seq<Run>, k: nat)
    requires |log| > 1 && FirstBest(log[..|log| - 1], k) && log[|log| - 1].best < log[k].best
    ensures FirstBest(log, |log| - 1)
  {
    var prev := log[..|log| - 1];
    assert forall j :: 0 <= j < |prev| ==> prev[j] == log[j];
  }

  /** The best run, which is the first one of least value. */
  function BestOf(log: seq<Run>): (r: Option<Run>)
    ensures r.None? <==> log == []
  {
    if log == [] then None
    else
      var prev, run := BestOf(log[..|log| - 1]), log[|log| - 1];
      if prev.None? || run.best < prev.value.best then Some(run) else prev
  }

  /** It is found in the log. */
  lemma {:induction false} BestIsFirst(log: seq<Run>) returns (i: nat)
    requires log != []
    ensures FirstBest(log, i) && BestOf(log) == Some(log[i])
  {
    i := |log| - 1;
    if |log| > 1 {
      var k := BestIsFirst(log[..|log| - 1]);
      if log[k].best <= log[i].best {
        FirstStays(log, k);
        i := k;
      } else {
        FirstBeaten(log, k);
      }
    }
  }

  lemma LogAppend(log: seq<Run>, r: Run)
    ensures forall large: bool ::
              Spent(log + [r], large) == Spent(log, large) + (if r.large == large then Cost(r) else 0)
    ensures forall large: bool :: Count(log + [r], large) == Count(log, large) + (if r.large == large then 1 else 0)
    ensures BestOf(log + [r]) == if log == [] || r.best < BestOf(log).value.best then Some(r) else BestOf(log)
  {
    assert (log + [r])[..|log|] == log;
  }

  // ----- what the best run has seen

  /** All evaluations of the runs, with the one of the starting point of each run where that is asked for. */
  function Total(log: seq<Run>, startEval: bool): nat {
    Spent(log, true) + Spent(log, false) + (if startEval then |log| else 0)
  }

  lemma TotalAppend(log: seq<Run>, run: Run, startEval: bool)
    ensures Total(log + [run], startEval) == Total(log, startEval) + Cost(run) + (if startEval then 1 else 0)
  {
    LogAppend(log, run);
  }

  /** The evaluation that ends generation k of run i. */
  function GenerationEnd(log: seq<Run>, startEval: bool, i: nat, k: nat): nat
    requires i < |log|
  {
    Total(log[..i], startEval) + (if startEval then 1 else 0) + k * log[i].lambda
  }

  /** fit gives the best value of the generation that ends with the n-th evaluation. The value of a run is that
      of its last generation. */
  predicate Measured(log: seq<Run>, fit: nat -> real, startEval: bool) {
    forall i :: 0 <= i < |log| ==> log[i].best == fit(Total(log[..i + 1], startEval))
  }

  lemma MeasuredAppend(log: seq<Run>, run: Run, fit: nat -> real, startEval: bool)
    requires Measured(log, fit, startEval) && run.best == fit(Total(log + [run], startEval))
    ensures Measured(log + [run], fit, startEval)
  {
    var after := log + [run];
    hide Total;
    forall i | 0 <= i < |after| ensures after[i].best == fit(Total(after[..i + 1], startEval)) {
      assert after[..i + 1] == if i < |log| then log[..i + 1] else after;
    }
  }

  /** A run's last generation ends where the run ends. */
  lemma LastGeneration(log: seq<Run>, startEval: bool, i: nat)
    requires i < |log|
    ensures GenerationEnd(log, startEval, i, log[i].niter) == Total(log[..i + 1], startEval)
  {
    LogAppend(log[..i], log[i]);
    assert log[..i + 1] == log[..i] + [log[i]];
  }

  /** No generation of any run has a value below v. */
  predicate NoneBelow(log: seq<Run>, fit: nat -> real, startEval: bool, v: real) {
    forall i, k :: 0 <= i < |log| && 1 <= k <= log[i].niter ==> v <= fit(GenerationEnd(log, startEval, i, k))
  }

  /** The best run is as good as the best generation of all runs exactly when some run ends with a generation
      that no other one beats: what a run found before its last generation does not count. */
  lemma LastGenerationsDecide(log: seq<Run>, fit: nat -> real, startEval: bool)
    requires Measured(log, fit, startEval) && log != [] && forall i :: 0 <= i < |log| ==> log[i].niter >= 1
    ensures NoneBelow(log, fit, startEval, BestOf(log).value.best)
            <==> exists i :: 0 <= i < |log| && NoneBelow(log, fit, startEval, log[i].best)
  {
    hide BestOf, Total, GenerationEnd;
    var b := BestIsFirst(log);
    if i :| 0 <= i < |log| && NoneBelow(log, fit, startEval, log[i].best) {
      assert log[b].best <= log[i].best;
    }
  }

  /** A loss: of the two generations of a single run, the better first one is forgotten. */
  lemma EarlierGenerationLost(sigma: real)
    ensures var fit := (n: nat) => if n <= 2 then 1.0 else 2.0;
            var log := [Run(true, 2, sigma, 2, 2.0, -1, Other)];
            && Measured(log, fit, false) && BestOf(log) == Some(log[0])
            && fit(GenerationEnd(log, false, 0, 1)) < log[0].best
  {
    var run := Run(true, 2, sigma, 2, 2.0, -1, Other);
    LogAppend([], run);
    assert [] + [run] == [run] == [run][..1] && [run][..0] == [];
  }

  /** Within run i the values of the generations never rise, as elitism has it. */
  predicate Falling(log: seq<Run>, fit: nat -> real, startEval: bool, i: nat)
    requires i < |log|
  {
    forall k :: 1 <= k < log[i].niter ==>
      fit(GenerationEnd(log, startEval, i, k + 1)) <= fit(GenerationEnd(log, startEval, i, k))
  }

  /** Then nothing is lost: the best run is as good as the best generation of all runs. */
  lemma FallingRunsLoseNothing(log: seq<Run>, fit: nat -> real, startEval: bool)
    requires Measured(log, fit, startEval) && log != []
    requires forall i :: 0 <= i < |log| ==> Falling(log, fit, startEval, i)
    ensures NoneBelow(log, fit, startEval, BestOf(log).value.best)
  {
    hide BestOf, Total, GenerationEnd, Falling;
    var b := BestIsFirst(log);
    forall i, k | 0 <= i < |log| && 1 <= k <= log[i].niter
      ensures log[b].best <= fit(GenerationEnd(log, startEval, i, k))
    {
      LastGeneration(log, startEval, i);
      LastIsLeast(log, fit, startEval, i, k);
    }
  }

  lemma {:induction false} LastIsLeast(log: seq<Run>, fit: nat -> real, startEval: bool, i: nat, k: nat)
    requires i < |log| && Falling(log, fit, startEval, i) && 1 <= k <= log[i].niter
    ensures fit(GenerationEnd(log, startEval, i, log[i].niter)) <= fit(GenerationEnd(log, startEval, i, k))
    decreases log[i].niter - k
  {
    hide GenerationEnd;
    if k < log[i].niter {
      LastIsLeast(log, fit, startEval, i, k + 1);
    }
  }

  /** The populations a small run may use after c large ones: between half of the default and the default
      while there was one large run, then between the default and half of the latest large population. */
  predicate SmallRange(lambda: nat, lambda0: nat, c: nat) {
    && lambda >= 2
    && if c <= 1 then lambda <= lambda0 < 2 * lambda else lambda0 <= lambda <= Doubled(lambda0, c - 2)
  }

  /** What BIPOP guarantees of a run, given the runs before it. A large run doubles the latest large
      population and waits until the small regime has caught up; a small run starts only while the small
      regime has spent less, and spends less than half of what the large regime did, up to one iteration. */
  ghost predicate Allowed(before: seq<Run>, run: Run, lambda0: nat) {
    && run.niter >= 1
    && (run.large ==>
          && run.lambda == Doubled(lambda0, Count(before, true))
          && Spent(before, true) <= Spent(before, false))
    && (!run.large ==>
          && SmallRange(run.lambda, lambda0, Count(before, true)) && 0.02 < run.sigma <= 2.0
          && Spent(before, false) < Spent(before, true)
          && Cost(run.(niter := run.niter - 1)) < Spent(before, true) / 2)
  }

  /** The iteration threshold of the automatic criterion, much higher for VD-CMA in low dimension. */
  function IterationLimit(sqrt: Fn, dim: nat, vd: bool, lambda: nat): real
    requires IsSqrt(sqrt) && lambda >= 1
  {
    SqrtMonotone(sqrt, lambda as real, lambda as real);
    var thresh := 100.0 + 50.0 * ((dim + 3) * (dim + 3)) as real / sqrt(lambda as real);
    if vd && dim < 10 then 1000.0 * thresh else thresh
  }

  /** What the threshold adds to a hundred iterations. */
  function Excess(sqrt: Fn, dim: nat, lambda: nat): real
    requires IsSqrt(sqrt) && lambda >= 1
  {
    SqrtMonotone(sqrt, lambda as real, lambda as real);
    50.0 * ((dim + 3) * (dim + 3)) as real / sqrt(lambda as real)
  }

  lemma LimitOf(sqrt: Fn, dim: nat, vd: bool, lambda: nat)
    requires IsSqrt(sqrt) && lambda >= 1
    ensures IterationLimit(sqrt, dim, vd, lambda)
         == (if vd && dim < 10 then 1000.0 else 1.0) * (100.0 + Excess(sqrt, dim, lambda))
  {
  }

  lemma ExcessLaw(sqrt: Fn, dim: nat, lambda: nat, lambda': nat)
    requires IsSqrt(sqrt) && 1 <= lambda <= lambda'
    ensures Excess(sqrt, dim, lambda) * sqrt(lambda as real) == 50.0 * ((dim + 3) * (dim + 3)) as real
    ensures 0.0 < Excess(sqrt, dim, lambda') <= Excess(sqrt, dim, lambda) < Excess(sqrt, dim + 1, lambda)
  {
    var r, r' := sqrt(lambda as real), sqrt(lambda' as real);
    SqrtMonotone(sqrt, lambda as real, lambda' as real);
    hide IsSqrt;
    var a, b := 50.0 * ((dim + 3) * (dim + 3)) as real, 50.0 * ((dim + 4) * (dim + 4)) as real;
    assert 0.0 < a < b;
    QuotientPositive(a, r');
    QuotientOrder(a, r, r');
    QuotientGrows(a, b, r);
  }

  /** Above 100 the threshold falls with the root of the population and rises with the square of the
      dimension; for VD-CMA below ten dimensions it is a thousand times that of CMA-ES. */
  lemma LimitLaw(sqrt: Fn, dim: nat, vd: bool, lambda: nat, lambda': nat)
    requires IsSqrt(sqrt) && 1 <= lambda <= lambda'
    ensures IterationLimit(sqrt, dim, true, lambda)
         == (if dim < 10 then 1000.0 else 1.0) * IterationLimit(sqrt, dim, false, lambda)
    ensures (IterationLimit(sqrt, dim, false, lambda) - 100.0) * sqrt(lambda as real)
         == 50.0 * ((dim + 3) * (dim + 3)) as real
    ensures 100.0 < IterationLimit(sqrt, dim, vd, lambda') <= IterationLimit(sqrt, dim, vd, lambda)
    ensures IterationLimit(sqrt, dim, vd, lambda) < IterationLimit(sqrt, dim + 1, vd, lambda) || (vd && dim == 9)
  {
    hide IterationLimit;
    var u, u', w := Excess(sqrt, dim, lambda), Excess(sqrt, dim, lambda'), Excess(sqrt, dim + 1, lambda);
    ExcessLaw(sqrt, dim, lambda, lambda');
    forall v: bool
      ensures IterationLimit(sqrt, dim, v, lambda) == (if v && dim < 10 then 1000.0 else 1.0) * (100.0 + u)
           && IterationLimit(sqrt, dim, v, lambda') == (if v && dim < 10 then 1000.0 else 1.0) * (100.0 + u')
           && IterationLimit(sqrt, dim + 1, v, lambda) == (if v && dim + 1 < 10 then 1000.0 else 1.0) * (100.0 + w)
    {
      LimitOf(sqrt, dim, v, lambda);
      LimitOf(sqrt, dim, v, lambda');
      LimitOf(sqrt, dim + 1, v, lambda);
    }
    hide Excess;
  }

  lemma QuotientOrder(a: real, r: real, r': real)
    requires a > 0.0 && 0.0 < r <= r'
    ensures a / r' <= a / r
  {
    var p, q := a / r, a / r';
    assert p * r == a && q * r' == a;
    if q > p {
      ProductSign(q - p, r, (q - p) * r);
      ProductSign(q, r' - r, q * (r' - r));
    }
  }

  lemma QuotientGrows(a: real, b: real, r: real)
    requires 0.0 < a < b && r > 0.0
    ensures a / r < b / r
  {
    var p, q := a / r, b / r;
    assert p * r == a && q * r == b;
    ProductSign(p - q, r, (p - q) * r);
  }

  /** How a run ended: with its budget spent if the budget ended it, at the threshold if the threshold did;
      and its last iteration began below both. The start may cost one evaluation. */
  predicate EndedBy(run: Run, startEval: bool, limit: real) {
    var charge := if startEval then 1 else 0;
    && run.niter >= 1 && run.status != Running
    && (run.status == MaxFevals ==> run.budget != -1 && Cost(run) + charge >= run.budget)
    && (run.status == AutoMaxIter ==> run.niter as real >= limit)
    && (run.niter > 1 ==>
          && (run.niter - 1) as real < limit
          && (run.budget != -1 ==> Cost(run.(niter := run.niter - 1)) + charge < run.budget))
  }

  /** Every large run has the caller's budget, every small run half of what the large regime had spent; and
      every run that none of the other criteria ended used its budget up or reached the threshold. */
  ghost predicate Budgeted(log: seq<Run>, maxFevals: int, startEval: bool, sqrt: Fn, dim: nat, vd: bool)
    requires IsSqrt(sqrt)
  {
    forall i :: 0 <= i < |log| ==>
      && log[i].lambda >= 1 && EndedBy(log[i], startEval, IterationLimit(sqrt, dim, vd, log[i].lambda))
      && log[i].budget == if log[i].large then maxFevals else Spent(log[..i], true) / 2
  }

  lemma BudgetedAppend(log: seq<Run>, run: Run, maxFevals: int, startEval: bool, sqrt: Fn, dim: nat, vd: bool)
    requires IsSqrt(sqrt) && Budgeted(log, maxFevals, startEval, sqrt, dim, vd) && run.lambda >= 1
    requires EndedBy(run, startEval, IterationLimit(sqrt, dim, vd, run.lambda))
    requires run.budget == if run.large then maxFevals else Spent(log, true) / 2
    ensures Budgeted(log + [run], maxFevals, startEval, sqrt, dim, vd)
  {
    hide EndedBy, IterationLimit, IsSqrt;
    var l := log + [run];
    forall i | 0 <= i < |l| ensures l[..i] == (if i < |log| then log[..i] else log) {
    }
  }

  /** The last k runs were small and ended by their budget. */
  predicate SmallTail(log: seq<Run>, k: nat) {
    k <= |log| && forall i :: |log| - k <= i < |log| ==> !log[i].large && log[i].status == MaxFevals
  }

  /** Small runs that end by their budget catch up quickly: each one spends half of what the large regime had
      spent, so at most three of them follow each other. */
  lemma SmallRunsInARow(log: seq<Run>, k: nat, lambda0: nat, maxFevals: int, startEval: bool, sqrt: Fn, dim: nat,
                        vd: bool)
    requires IsSqrt(sqrt) && BipopLog(log, lambda0) && Budgeted(log, maxFevals, startEval, sqrt, dim, vd)
    requires SmallTail(log, k) && k <= |log| && Spent(log, true) >= 8
    ensures k <= 3
    ensures Spent(log, false) >= k * (Spent(log, true) / 2 - 1)
  {
    hide BipopLog, Budgeted, Spent, SmallTail, IsSqrt, Cost;
    TailSpends(log, k, maxFevals, startEval, sqrt, dim, vd);
    if k >= 1 {
      var prev, run := log[..|log| - 1], log[|log| - 1];
      TailPrefix(log, k, maxFevals, startEval, sqrt, dim, vd);
      TailSpends(prev, k - 1, maxFevals, startEval, sqrt, dim, vd);
      BipopPrefix(log, lambda0);
      RunCost(prev, run, lambda0);
      if k >= 4 { ProductOfThree(k - 1, Spent(log, true) / 2 - 1); }
    }
  }

  lemma ProductOfThree(k: nat, half: nat)
    requires k >= 3
    ensures k * half >= 3 * half
  {
  }

  /** The last of these runs, and the log before it. */
  lemma TailPrefix(log: seq<Run>, k: nat, maxFevals: int, startEval: bool, sqrt: Fn, dim: nat, vd: bool)
    requires IsSqrt(sqrt) && Budgeted(log, maxFevals, startEval, sqrt, dim, vd) && SmallTail(log, k) && 1 <= k <= |log|
    ensures var prev, run := log[..|log| - 1], log[|log| - 1];
            && Budgeted(prev, maxFevals, startEval, sqrt, dim, vd) && SmallTail(prev, k - 1) && !run.large
            && Spent(prev, true) == Spent(log, true) && Spent(log, false) == Spent(prev, false) + Cost(run)
            && Cost(run) >= Spent(log, true) / 2 - 1
  {
    hide IterationLimit, IsSqrt, Cost, Spent, Budgeted;
    var prev, run := log[..|log| - 1], log[|log| - 1];
    BudgetedPrefix(log, maxFevals, startEval, sqrt, dim, vd);
    LastBudget(log, maxFevals, startEval, sqrt, dim, vd);
    assert log == prev + [run];
    LogAppend(prev, run);
  }

  lemma LastBudget(log: seq<Run>, maxFevals: int, startEval: bool, sqrt: Fn, dim: nat, vd: bool)
    requires IsSqrt(sqrt) && Budgeted(log, maxFevals, startEval, sqrt, dim, vd) && log != []
    ensures var run := log[|log| - 1];
            !run.large && run.status == MaxFevals ==> Cost(run) + 1 >= Spent(log[..|log| - 1], true) / 2
  {
    hide IterationLimit, IsSqrt, Cost, Spent;
  }

  lemma BudgetedPrefix(log: seq<Run>, maxFevals: int, startEval: bool, sqrt: Fn, dim: nat, vd: bool)
    requires IsSqrt(sqrt) && Budgeted(log, maxFevals, startEval, sqrt, dim, vd) && log != []
    ensures Budgeted(log[..|log| - 1], maxFevals, startEval, sqrt, dim, vd)
  {
    hide EndedBy, IterationLimit, IsSqrt;
    var prev := log[..|log| - 1];
    forall i | 0 <= i < |prev| ensures prev[..i] == log[..i] {
    }
  }

  lemma {:induction false} TailSpends(log: seq<Run>, k: nat, maxFevals: int, startEval: bool, sqrt: Fn, dim: nat,
                                      vd: bool)
    requires IsSqrt(sqrt) && Budgeted(log, maxFevals, startEval, sqrt, dim, vd) && SmallTail(log, k) && k <= |log|
    ensures Spent(log, false) >= k * (Spent(log, true) / 2 - 1)
    decreases k
  {
    hide IsSqrt, Cost, Spent, Budgeted;
    if k > 0 {
      TailPrefix(log, k, maxFevals, startEval, sqrt, dim, vd);
      TailSpends(log[..|log| - 1], k - 1, maxFevals, startEval, sqrt, dim, vd);
      OneMore(k, Spent(log, true) / 2 - 1);
    }
  }

  lemma OneMore(k: nat, half: int)
    requires k > 0
    ensures k * half == (k - 1) * half + half
  {
  }

  /** Every large run starts from the caller's step size. */
  ghost predicate LargeFrom(log: seq<Run>, sigma0: real) {
    forall i :: 0 <= i < |log| && log[i].large ==> log[i].sigma == sigma0
  }

  lemma LargeFromAppend(log: seq<Run>, run: Run, sigma0: real)
    requires LargeFrom(log, sigma0) && (run.large ==> run.sigma == sigma0)
    ensures LargeFrom(log + [run], sigma0)
  {
  }

  ghost predicate BipopLog(log: seq<Run>, lambda0: nat) {
    forall i :: 0 <= i < |log| ==> Allowed(log[..i], log[i], lambda0)
  }

  lemma BipopAppend(log: seq<Run>, run: Run, lambda0: nat)
    requires BipopLog(log, lambda0) && Allowed(log, run, lambda0)
    ensures BipopLog(log + [run], lambda0)
  {
    hide Allowed;
    var l := log + [run];
    forall i | 0 <= i < |l| ensures Allowed(l[..i], l[i], lambda0) {
      if i < |log| {
        assert l[..i] == log[..i];
      } else {
        assert l[..i] == log;
      }
    }
  }

  /** IPOP: every run is large, each doubles the population, and after every run but the last one the
      total evaluations were still below the budget, if there is one. */
  ghost predicate IpopLog(log: seq<Run>, lambda0: nat, maxFevals: int, startEval: bool) {
    forall i :: 0 <= i < |log| ==>
      && log[i].large && log[i].niter >= 1 && log[i].lambda == Doubled(lambda0, i)
      && (i > 0 && maxFevals > 0 ==> Spent(log[..i], true) + (if startEval then i else 0) < maxFevals)
  }

  lemma IpopAppend(log: seq<Run>, run: Run, lambda0: nat, maxFevals: int, startEval: bool)
    requires IpopLog(log, lambda0, maxFevals, startEval)
    requires run.large && run.niter >= 1 && run.lambda == Doubled(lambda0, |log|)
    requires log != [] && maxFevals > 0 ==> Spent(log, true) + (if startEval then |log| else 0) < maxFevals
    ensures IpopLog(log + [run], lambda0, maxFevals, startEval)
  {
    var l := log + [run];
    forall i | 0 <= i < |l| ensures l[..i] == (if i < |log| then log[..i] else log) {
    }
  }

  lemma {:induction false} AllLarge(log: seq<Run>)
    requires forall i :: 0 <= i < |log| ==> log[i].large
    ensures Count(log, true) == |log| && Spent(log, false) == 0
  {
    if log != [] {
      AllLarge(log[..|log| - 1]);
    }
  }

  lemma {:induction false} DoubledMonotone(lambda0: nat, m: nat, n: nat)
    requires m <= n
    ensures Doubled(lambda0, m) <= Doubled(lambda0, n)
  {
    if m < n {
      DoubledMonotone(lambda0, m, n - 1);
    }
  }

  /** The two regimes stay balanced over a whole BIPOP search: the small one never spends more than one
      and a half times the evaluations of the large one plus one population, and the large one leads by
      at most its latest run. */
  lemma RegimesBalanced(log: seq<Run>, lambda0: nat)
    requires BipopLog(log, lambda0) && lambda0 >= 2
    ensures Spent(log, false) <= Spent(log, true) + Spent(log, true) / 2 + NextLarge(log, lambda0)
    ensures forall i :: LatestLarge(log, i) ==> Spent(log, true) - Spent(log, false) <= Cost(log[i])
  {
    hide Spent, Cost, NextLarge, BipopLog;
    SmallBounded(log, lambda0);
    forall i | LatestLarge(log, i) ensures Spent(log, true) - Spent(log, false) <= Cost(log[i]) {
      LeadBounded(log, lambda0, i);
    }
  }

  lemma {:induction false} SmallBounded(log: seq<Run>, lambda0: nat)
    requires BipopLog(log, lambda0) && lambda0 >= 2
    ensures Spent(log, false) <= Spent(log, true) + Spent(log, true) / 2 + NextLarge(log, lambda0)
  {
    hide Allowed, Cost, NextLarge, BipopLog;
    if log != [] {
      var prev, run := log[..|log| - 1], log[|log| - 1];
      BipopPrefix(log, lambda0);
      SmallBounded(prev, lambda0);
      RunCost(prev, run, lambda0);
      assert log == prev + [run];
    }
  }

  lemma {:induction false} LeadBounded(log: seq<Run>, lambda0: nat, i: nat)
    requires BipopLog(log, lambda0) && lambda0 >= 2 && LatestLarge(log, i)
    ensures Spent(log, true) - Spent(log, false) <= Cost(log[i])
  {
    hide Allowed, Cost, NextLarge, BipopLog;
    var prev, run := log[..|log| - 1], log[|log| - 1];
    BipopPrefix(log, lambda0);
    RunCost(prev, run, lambda0);
    if i < |prev| {
      LeadBounded(prev, lambda0, i);
    }
  }

  /** The population the next large run will have. */
  function NextLarge(log: seq<Run>, lambda0: nat): nat {
    Doubled(lambda0, Count(log, true))
  }

  predicate LatestLarge(log: seq<Run>, i: int) {
    0 <= i < |log| && log[i].large && forall k :: i < k < |log| ==> !log[k].large
  }

  lemma BipopPrefix(log: seq<Run>, lambda0: nat)
    requires BipopLog(log, lambda0) && log != []
    ensures BipopLog(log[..|log| - 1], lambda0) && Allowed(log[..|log| - 1], log[|log| - 1], lambda0)
  {
    hide Allowed;
    var prev := log[..|log| - 1];
    forall i | 0 <= i < |prev| ensures Allowed(prev[..i], prev[i], lambda0) {
      assert Allowed(log[..i], log[i], lambda0) && prev[..i] == log[..i];
    }
  }

  lemma RunCost(before: seq<Run>, run: Run, lambda0: nat)
    requires Allowed(before, run, lambda0)
    ensures run.large ==> Spent(before, true) <= Spent(before, false)
    ensures run.large ==> NextLarge(before, lambda0) <= NextLarge(before + [run], lambda0)
    ensures !run.large ==>
              && Spent(before, false) < Spent(before, true)
              && Cost(run) <= Spent(before, true) / 2 + NextLarge(before, lambda0)
              && NextLarge(before + [run], lambda0) == NextLarge(before, lambda0)
    ensures lambda0 >= 2 ==> run.large ==> Cost(run) >= 2
  {
    LogAppend(before, run);
    hide Spent, Count;
    if run.large {
      DoubledMonotone(lambda0, 0, Count(before, true));
      ProductAtLeast(run.niter, run.lambda);
    } else {
      SmallAtMost(run.lambda, lambda0, Count(before, true));
      LastIteration(run);
    }
  }

  lemma LastIteration(run: Run)
    requires run.niter >= 1
    ensures Cost(run) == Cost(run.(niter := run.niter - 1)) + run.lambda
  {
    assert run.niter * run.lambda == (run.niter - 1) * run.lambda + run.lambda;
  }

  lemma EmptyLog(lambda0: nat)
    ensures BipopLog([], lambda0) && Doubled(lambda0, 0) == lambda0
    ensures forall large: bool :: Spent([], large) == Count([], large) == 0
  {
  }

  lemma DoubledStep(lambda0: nat, k: nat)
    requires k > 0
    ensures Doubled(lambda0, k) == 2 * Doubled(lambda0, k - 1)
  {
  }

  lemma ProductAtLeast(a: nat, b: nat)
    requires a >= 1
    ensures a * b >= b
  {
  }

  lemma SmallAtMost(lambda: nat, lambda0: nat, c: nat)
    requires SmallRange(lambda, lambda0, c)
    ensures lambda <= Doubled(lambda0, c)
  {
    DoubledMonotone(lambda0, if c <= 1 then 0 else c - 2, c);
  }

  // ----- the program

  class RestartStrategy {
    const dim: nat
    const sqrt: Fn
    const pow: (real, real) -> real
    const nrestarts: nat
    const vd: bool
    const startEval: bool

    /** The objective's side of the search: the best value of the generation that ends with the n-th evaluation. */
    const fit: nat -> real
    var lambda: nat
    var maxFevals: int
    var niter: nat
    var solNevals: nat
    var nevals: nat
    var status: Status
    var best: real
    var bestRun: Option<Run>
    var lambdaDef: nat
    var lambdaL: nat
    var sigmaInit: real
    var savedSigma: real
    var savedMaxFevals: int
    ghost var log: seq<Run>

    ghost predicate Valid()
      reads this
    {
      && IsSqrt(sqrt) && IsPow(pow) && lambda >= 2
      && bestRun == BestOf(log) && Measured(log, fit, startEval) && nevals == Total(log, startEval)
    }

    constructor (dim: nat, sqrt: Fn, pow: (real, real) -> real, fit: nat -> real, nrestarts: nat, vd: bool,
                 startEval: bool, lambda: nat, sigma: real, maxFevals: int)
      requires lambda >= 2 && IsSqrt(sqrt) && IsPow(pow)
      ensures Valid() && log == [] && this.lambda == lambda && lambdaDef == lambdaL == lambda
      ensures this.maxFevals == savedMaxFevals == maxFevals && sigmaInit == savedSigma == sigma
      ensures niter == solNevals == 0
      ensures this.dim == dim && this.nrestarts == nrestarts && this.vd == vd && this.startEval == startEval
      ensures this.sqrt == sqrt && this.pow == pow && this.fit == fit
    {
      this.dim, this.sqrt, this.pow, this.fit := dim, sqrt, pow, fit;
      this.nrestarts, this.vd, this.startEval := nrestarts, vd, startEval;
      this.lambda, lambdaDef, lambdaL := lambda, lambda, lambda;
      this.maxFevals, savedMaxFevals, sigmaInit, savedSigma := maxFevals, maxFevals, sigma, sigma;
      niter, solNevals, nevals, status, best, bestRun, log := 0, 0, 0, Running, 0.0, None, [];
    }

    /** The threshold for the current population. */
    function Threshold(): real
      requires IsSqrt(sqrt) && lambda >= 1
      reads `lambda
    {
      IterationLimit(sqrt, dim, vd, lambda)
    }

    /** The stopping test, which records the first criterion that holds: never before the first iteration,
        always at the iteration threshold or when the evaluation budget is used up; the other criteria, some
        tested before these two and some after, may stop at any time in between. */
    method Stop() returns (stop: bool)
      requires IsSqrt(sqrt) && lambda >= 1 && status == Running
      modifies `status
      ensures (stop <==> status != Running) && (niter == 0 ==> !stop)
      ensures niter > 0 && niter as real >= Threshold() ==> stop
      ensures niter > 0 && maxFevals != -1 && solNevals >= maxFevals ==> stop
      ensures status == AutoMaxIter ==> niter as real >= Threshold()
      ensures status == MaxFevals ==> maxFevals != -1 && solNevals >= maxFevals
    {
      if niter == 0 { return false; }
      var before: bool, after: bool := *, *;
      if before {
        status := Other;
      } else if niter as real >= Threshold() {
        status := AutoMaxIter;
      } else if maxFevals != -1 && solNevals >= maxFevals {
        status := MaxFevals;
      } else if after {
        status := Other;
      }
      stop := status != Running;
    }

    /** One iteration, which asks, evaluates and tells one population, and the test after it. */
    method Iterate() returns (stop: bool)
      requires IsSqrt(sqrt) && lambda >= 1 && status == Running
      modifies `niter, `solNevals, `nevals, `best, `status
      ensures niter == old(niter) + 1 && solNevals == old(solNevals) + lambda && nevals == old(nevals) + lambda
      ensures best == fit(nevals) && (stop <==> status != Running)
      ensures niter as real >= Threshold() || (maxFevals != -1 && solNevals >= maxFevals) ==> stop
      ensures status == AutoMaxIter ==> niter as real >= Threshold()
      ensures status == MaxFevals ==> maxFevals != -1 && solNevals >= maxFevals
    {
      hide IsSqrt, Threshold;
      solNevals, nevals := solNevals + lambda, nevals + lambda;
      best := fit(nevals);
      niter := niter + 1;
      stop := Stop();
    }

    /** One inner run: ask, evaluate, tell and count until the stopping test holds. */
    method Optimize()
      requires Valid() && niter == 0 && solNevals == 0 && status == Running
      modifies `niter, `solNevals, `nevals, `best, `status
      ensures niter >= 1 && solNevals == niter * lambda + (if startEval then 1 else 0)
      ensures nevals == old(nevals) + solNevals && status != Running
      ensures status == AutoMaxIter ==> niter as real >= Threshold()
      ensures status == MaxFevals ==> maxFevals != -1 && solNevals >= maxFevals
      ensures niter == 1 || (niter - 1) as real < Threshold()
      ensures maxFevals != -1 ==> niter == 1 || (niter - 1) * lambda + (if startEval then 1 else 0) < maxFevals
      ensures best == fit(nevals)
    {
      hide Measured, Total, BestOf, Spent, IsSqrt, IsPow, Charged, Threshold, Below;
      if startEval {
        nevals, solNevals := nevals + 1, 1;
      }
      NothingCharged();
      var stop := Stop();
      while !stop
        invariant solNevals == Charged(niter) && nevals == old(nevals) + solNevals
        invariant niter > 0 ==> best == fit(nevals)
        invariant (stop <==> status != Running) && (niter == 0 ==> !stop)
        invariant status == AutoMaxIter ==> niter as real >= Threshold()
        invariant status == MaxFevals ==> maxFevals != -1 && solNevals >= maxFevals
        invariant niter > 1 ==> Below(niter - 1)
        invariant !stop && niter > 0 ==> niter as real < Threshold() && (maxFevals != -1 ==> solNevals < maxFevals)
        decreases !stop, Threshold().Floor + 1 - niter
      {
        StaysBelow();
        stop := Iterate();
      }
      RunBound();
    }

    /** What n iterations add to the evaluation count. */
    function Charged(n: nat): nat
      reads `lambda
    {
      n * lambda + (if startEval then 1 else 0)
    }

    lemma NothingCharged()
      ensures Charged(0) == if startEval then 1 else 0
    {
    }

    /** Another iteration may follow the first n. */
    predicate Below(n: nat)
      requires IsSqrt(sqrt) && lambda >= 1
      reads `lambda, `maxFevals
    {
      n as real < Threshold() && (maxFevals != -1 ==> Charged(n) < maxFevals)
    }

    lemma StaysBelow()
      requires IsSqrt(sqrt) && lambda >= 1
      ensures Charged(niter + 1) == Charged(niter) + lambda
      ensures niter as real < Threshold() && (maxFevals != -1 ==> Charged(niter) < maxFevals) ==> Below(niter)
      ensures 0.0 < Threshold() && (niter as real < Threshold() ==> niter <= Threshold().Floor)
    {
      assert (niter + 1) * lambda == niter * lambda + lambda;
      ThresholdPositive();
    }

    lemma ThresholdPositive()
      requires IsSqrt(sqrt) && lambda >= 1
      ensures Threshold() >= 100.0
    {
      SqrtMonotone(sqrt, lambda as real, lambda as real);
      var d := ((dim + 3) * (dim + 3)) as real;
      QuotientPositive(50.0 * d, sqrt(lambda as real));
    }

    lemma RunBound()
      requires IsSqrt(sqrt) && lambda >= 1 && niter >= 1
      ensures Charged(niter) == niter * lambda + (if startEval then 1 else 0)
      ensures niter > 1 && Below(niter - 1) ==>
                && (niter - 1) as real < Threshold()
                && (maxFevals != -1 ==> (niter - 1) * lambda + (if startEval then 1 else 0) < maxFevals)
    {
      hide Threshold;
    }

    /** Doubles the population. */
    method LambdaInc()
      modifies `lambda
      ensures lambda == 2 * old(lambda)
    {
      lambda := lambda * 2;
    }

    /** Starts from a fresh solution object. */
    method ResetSearchState()
      modifies `niter, `solNevals, `status
      ensures niter == solNevals == 0 && status == Running
    {
      niter, solNevals, status := 0, 0, Running;
    }

    /** Keeps the better of the best run so far and the run that just ended. */
    method CaptureBestSolution(large: bool)
      requires bestRun == BestOf(log)
      modifies `bestRun, `log
      ensures log == old(log) + [Run(large, lambda, sigmaInit, niter, best, maxFevals, status)]
      ensures bestRun == BestOf(log)
    {
      var run := Run(large, lambda, sigmaInit, niter, best, maxFevals, status);
      LogAppend(log, run);
      if bestRun.None? || best < bestRun.value.best {
        bestRun := Some(run);
      }
      log := log + [run];
    }

    /** One run from a fresh state, and its capture: the log grows by exactly this run, every evaluation
        is accounted for, and the last iteration started below both the budget and the threshold. */
    method RunAndCapture(large: bool)
      requires Valid() && niter == 0 && solNevals == 0 && status == Running
      modifies `niter, `solNevals, `nevals, `best, `bestRun, `log, `status
      ensures Valid() && niter >= 1
      ensures log == old(log) + [Run(large, lambda, sigmaInit, niter, best, maxFevals, status)]
      ensures EndedBy(log[|log| - 1], startEval, Threshold())
    {
      hide IsSqrt, IsPow, BestOf, Spent, Threshold, Measured, Total;
      Optimize();
      ghost var run := Run(large, lambda, sigmaInit, niter, best, maxFevals, status);
      TotalAppend(log, run, startEval);
      MeasuredAppend(log, run, fit, startEval);
      CaptureBestSolution(large);
    }

    /** The state between two runs of IPOP, after r of them. */
    ghost predicate IpopReady(r: nat, lambda0: nat)
      reads this
    {
      && Valid() && niter == solNevals == 0 && status == Running && r == |log| && lambda == Doubled(lambda0, r)
      && IpopLog(log, lambda0, maxFevals, startEval) && Budgeted(log, maxFevals, startEval, sqrt, dim, vd)
    }

    /** One run of IPOP, after which the population is doubled and the state reset. */
    method IpopRun(ghost r: nat, ghost lambda0: nat)
      requires IpopReady(r, lambda0)
      requires log != [] && maxFevals > 0 ==> nevals < maxFevals
      modifies `lambda, `niter, `solNevals, `nevals, `best, `bestRun, `log, `status
      ensures IpopReady(r + 1, lambda0)
    {
      hide IsSqrt, IsPow, BestOf, Spent, Count, EndedBy, IterationLimit, Budgeted;
      ghost var before := log;
      AllLarge(before);
      RunAndCapture(true);
      BudgetedAppend(before, log[r], maxFevals, startEval, sqrt, dim, vd);
      hide IpopLog;
      IpopAppend(before, log[r], lambda0, maxFevals, startEval);
      LambdaInc();
      ResetSearchState();
    }

    /** IPOP: restarts with a doubled population until the restarts or the total budget are used up. */
    method IpopOptimize() returns (result: Option<Run>)
      requires Valid() && log == [] && nevals == 0 && niter == 0 && solNevals == 0 && status == Running
      modifies this
      ensures Valid() && Budgeted(log, maxFevals, startEval, sqrt, dim, vd)
      ensures IpopLog(log, old(lambda), maxFevals, startEval)
      ensures |log| <= nrestarts && maxFevals == old(maxFevals)
      ensures |log| < nrestarts ==> log != [] && 0 < maxFevals <= nevals
      ensures Count(log, true) == |log| && Spent(log, false) == 0
      ensures lambda == Doubled(old(lambda), |log|) && result == BestOf(log)
    {
      hide IsSqrt, IsPow, BestOf, Spent, Count, EndedBy, IterationLimit;
      ghost var lambda0 := lambda;
      var r := 0;
      while r < nrestarts
        invariant IpopReady(r, lambda0) && r <= nrestarts && maxFevals == old(maxFevals)
        invariant log != [] && maxFevals > 0 ==> nevals < maxFevals
      {
        IpopRun(r, lambda0);
        r := r + 1;
        if maxFevals > 0 && nevals >= maxFevals {
          break;
        }
      }
      AllLarge(log);
      result := bestRun;
    }

    /** The large regime: twice the latest large population, and the caller's step size. */
    method R1()
      modifies `lambda, `lambdaL, `sigmaInit
      ensures lambda == lambdaL == 2 * old(lambdaL) && sigmaInit == savedSigma
    {
      lambda := lambdaL;
      LambdaInc();
      lambdaL := lambda;
      sigmaInit := savedSigma;
    }

    /** The small regime: a random population up to half of the large one, and a random small step size. */
    method R2(ghost c: nat)
      requires IsPow(pow) && lambdaDef >= 2 && c >= 1 && lambdaL == Doubled(lambdaDef, c - 1)
      modifies `lambda, `sigmaInit
      ensures lambda >= 2 && SmallRange(lambda, lambdaDef, c) && 0.02 < sigmaInit <= 2.0
    {
      hide SmallRange, Doubled, Rounded;
      var u: real :| 0.0 <= u < 1.0;
      var us: real :| 0.0 <= us < 1.0;
      var nsigma := 2.0 * pow(10.0, -2.0 * us);
      var base := 0.5 * (lambdaL as real / lambdaDef as real);
      var ltmp := pow(base, u);
      PopulationRange(lambdaDef, lambdaL, c, base, ltmp);
      lambda := Rounded(lambdaDef, ltmp);
      sigmaInit := nsigma;
    }

    /** BIPOP: before every large run but the first, small runs until both regimes have spent the same. */
    method BipopOptimize() returns (result: Option<Run>)
      requires Valid() && log == [] && nevals == 0 && niter == 0 && solNevals == 0 && status == Running
      requires lambdaDef == lambdaL == lambda && savedMaxFevals == maxFevals && savedSigma == sigmaInit
      modifies `lambda, `lambdaL, `sigmaInit, `maxFevals, `niter, `solNevals, `nevals, `best, `bestRun, `log, `status
      ensures Valid() && Budgeted(log, old(maxFevals), startEval, sqrt, dim, vd)
      ensures BipopLog(log, old(lambda)) && LargeFrom(log, old(sigmaInit)) && Count(log, true) == nrestarts
      ensures result == BestOf(log)
      ensures nrestarts > 0 ==> lambdaL == Doubled(old(lambda), nrestarts - 1) && maxFevals == old(maxFevals)
    {
      hide IsSqrt, IsPow, BestOf, BipopLog, Spent, Count, Doubled, Ready, Cost, LargeFrom, Valid, Budgeted;
      assert IsSqrt(sqrt) by { ValidSqrt(); }
      BeforeRuns();
      var budgets := new int[2](_ => 0);
      var r := 0;
      while r < nrestarts
        invariant Ready(r, lambdaDef) && fresh(budgets) && budgets.Length == 2 && r <= nrestarts
        invariant r > 0 ==> maxFevals == savedMaxFevals
        invariant budgets[0] == Spent(log, true) && budgets[1] == Spent(log, false)
      {
        while budgets[0] > budgets[1]
          invariant Ready(r, lambdaDef) && fresh(budgets) && budgets.Length == 2
          invariant budgets[0] == Spent(log, true) && budgets[1] == Spent(log, false)
          decreases budgets[0] - budgets[1]
        {
          SmallRun(r, budgets[0]);
          budgets[1] := budgets[1] + niter * lambda;
        }
        LargeRun(r);
        budgets[0] := budgets[0] + niter * lambda;
        r := r + 1;
      }
      AfterRuns(r);
      result := bestRun;
    }

    lemma ValidSqrt()
      requires Valid()
      ensures IsSqrt(sqrt)
    {
    }

    lemma BeforeRuns()
      requires Valid() && log == [] && niter == 0 && solNevals == 0 && status == Running
      requires lambdaDef == lambdaL == lambda && savedSigma == sigmaInit
      ensures Ready(0, lambdaDef) && Spent(log, true) == Spent(log, false) == 0
    {
      hide IsSqrt, IsPow;
      EmptyLog(lambda);
    }

    lemma AfterRuns(r: nat)
      requires Ready(r, lambdaDef)
      ensures Valid() && BipopLog(log, lambdaDef) && LargeFrom(log, savedSigma) && Count(log, true) == r
      ensures Budgeted(log, savedMaxFevals, startEval, sqrt, dim, vd)
      ensures bestRun == BestOf(log) && lambdaL == Doubled(lambdaDef, if r == 0 then 0 else r - 1)
    {
      hide IsSqrt, IsPow, BestOf, BipopLog, Spent, Count, Doubled, LargeFrom, Budgeted;
    }

    /** The state between two runs of BIPOP, after r large ones. */
    ghost predicate Ready(r: nat, lambda0: nat)
      reads this
    {
      && Valid() && lambdaDef == lambda0 >= 2 && BipopLog(log, lambda0) && Count(log, true) == r
      && lambdaL == Doubled(lambda0, if r == 0 then 0 else r - 1)
      && (r == 0 ==>
            && log == [] && niter == solNevals == 0 && status == Running
            && lambda == lambdaL && sigmaInit == savedSigma)
      && LargeFrom(log, savedSigma) && Budgeted(log, savedMaxFevals, startEval, sqrt, dim, vd)
    }

    /** One run of the small regime: its budget is half of what the large regime spent. */
    method SmallRun(ghost r: nat, spent: int)
      requires Ready(r, lambdaDef)
      requires spent == Spent(log, true) > Spent(log, false)
      modifies `lambda, `sigmaInit, `maxFevals, `niter, `solNevals, `nevals, `best, `bestRun, `log, `status
      ensures Ready(r, lambdaDef) && niter * lambda >= 1
      ensures Spent(log, true) == spent && Spent(log, false) == old(Spent(log, false)) + niter * lambda
    {
      hide IsSqrt, IsPow, BestOf, Spent, Count, Doubled, SmallRange, BipopLog, IterationLimit, Budgeted, EndedBy,
        Allowed, LargeFrom;
      EmptyLog(lambdaDef);
      R2(r);
      AtLeastTwo(log, lambdaDef);
      maxFevals := spent / 2;
      ResetSearchState();
      ghost var before := log;
      RunAndCapture(false);
      ghost var run := log[|before|];
      SmallAllowed(before, run, lambdaDef, startEval, Threshold());
      RunLogged(before, run, lambdaDef, savedMaxFevals, savedSigma, startEval, sqrt, dim, vd);
      Product(niter, lambda);
    }

    /** One run of the large regime: from the doubled population, except for the very first one. */
    method LargeRun(r: nat)
      requires Ready(r, lambdaDef) && Spent(log, true) <= Spent(log, false)
      modifies `lambda, `lambdaL, `sigmaInit, `maxFevals, `niter, `solNevals, `nevals, `best, `bestRun, `log, `status
      ensures Ready(r + 1, lambdaDef) && maxFevals == savedMaxFevals
      ensures Spent(log, true) == old(Spent(log, true)) + niter * lambda && Spent(log, false) == old(Spent(log, false))
    {
      hide IsSqrt, IsPow, BestOf, Spent, Count, Doubled, BipopLog, LargeFrom, Budgeted;
      if r > 0 {
        R1();
        ResetSearchState();
        DoubledStep(lambdaDef, r);
      }
      RunLarge(r);
    }

    /** The run itself, with the caller's budget restored. */
    method RunLarge(ghost r: nat)
      requires Valid() && niter == solNevals == 0 && status == Running && lambdaDef >= 2
      requires BipopLog(log, lambdaDef) && Count(log, true) == r
      requires Budgeted(log, savedMaxFevals, startEval, sqrt, dim, vd)
      requires LargeFrom(log, savedSigma) && sigmaInit == savedSigma
      requires lambda == lambdaL == Doubled(lambdaDef, r) && Spent(log, true) <= Spent(log, false)
      modifies `maxFevals, `niter, `solNevals, `nevals, `best, `bestRun, `log, `status
      ensures Ready(r + 1, lambdaDef) && maxFevals == savedMaxFevals
      ensures Spent(log, true) == old(Spent(log, true)) + niter * lambda && Spent(log, false) == old(Spent(log, false))
    {
      hide IsSqrt, IsPow, BestOf, Spent, Count, Doubled, SmallRange, BipopLog, IterationLimit, Budgeted, LargeFrom,
        Allowed;
      maxFevals := savedMaxFevals;
      ghost var before := log;
      RunAndCapture(true);
      ghost var run := log[|before|];
      LargeAllowed(before, run, lambdaDef);
      RunLogged(before, run, lambdaDef, savedMaxFevals, savedSigma, startEval, sqrt, dim, vd);
    }
  }

  /** One more lawful run keeps the log lawful, and adds its evaluations to its regime. */
  lemma RunLogged(log: seq<Run>, run: Run, lambda0: nat, maxFevals: int, sigma0: real, startEval: bool, sqrt: Fn,
                  dim: nat, vd: bool)
    requires IsSqrt(sqrt) && BipopLog(log, lambda0) && Budgeted(log, maxFevals, startEval, sqrt, dim, vd)
    requires LargeFrom(log, sigma0) && Allowed(log, run, lambda0) && (run.large ==> run.sigma == sigma0)
    requires run.lambda >= 1 && EndedBy(run, startEval, IterationLimit(sqrt, dim, vd, run.lambda))
    requires run.budget == if run.large then maxFevals else Spent(log, true) / 2
    ensures BipopLog(log + [run], lambda0) && Budgeted(log + [run], maxFevals, startEval, sqrt, dim, vd)
    ensures LargeFrom(log + [run], sigma0)
    ensures Count(log + [run], true) == Count(log, true) + if run.large then 1 else 0
    ensures forall large: bool ::
              Spent(log + [run], large) == Spent(log, large) + if run.large == large then run.niter * run.lambda else 0
  {
    LogAppend(log, run);
    hide IsSqrt, BipopLog, Budgeted, LargeFrom, Allowed, EndedBy, IterationLimit, Spent, Count;
    BipopAppend(log, run, lambda0);
    BudgetedAppend(log, run, maxFevals, startEval, sqrt, dim, vd);
    LargeFromAppend(log, run, sigma0);
  }

  lemma LargeAllowed(before: seq<Run>, run: Run, lambda0: nat)
    requires run.large && run.niter >= 1 && run.lambda == Doubled(lambda0, Count(before, true))
    requires Spent(before, true) <= Spent(before, false)
    ensures Allowed(before, run, lambda0)
  {
  }

  /** What a small run's budget means for the balance of the regimes. */
  lemma SmallAllowed(before: seq<Run>, run: Run, lambda0: nat, startEval: bool, limit: real)
    requires !run.large && EndedBy(run, startEval, limit) && run.budget == Spent(before, true) / 2
    requires SmallRange(run.lambda, lambda0, Count(before, true)) && 0.02 < run.sigma <= 2.0
    requires Spent(before, false) < Spent(before, true) && Spent(before, true) >= 2
    ensures Allowed(before, run, lambda0)
  {
    hide Spent, Count, SmallRange;
  }

  lemma Product(a: nat, b: nat)
    requires a >= 1 && b >= 1
    ensures a * b >= 1
  {
  }

  /** A regime that spent anything spent at least two evaluations, so half of it is a positive budget. */
  lemma {:induction false} AtLeastTwo(log: seq<Run>, lambda0: nat)
    requires BipopLog(log, lambda0) && lambda0 >= 2
    ensures Spent(log, true) == 0 || Spent(log, true) >= 2
  {
    if log != [] {
      BipopPrefix(log, lambda0);
      AtLeastTwo(log[..|log| - 1], lambda0);
      RunCost(log[..|log| - 1], log[|log| - 1], lambda0);
    }
  }

  lemma CeilRange(t: real)
    ensures t <= Ceil(t) as real < t + 1.0
  {
  }

  /** Rounding the default population times the drawn power up stays in the range of a small run. */
  lemma PopulationRange(lambda0: nat, lambdaL: nat, c: nat, base: real, ltmp: real)
    requires lambda0 >= 2 && c >= 1 && lambdaL == Doubled(lambda0, c - 1)
    requires base == 0.5 * (lambdaL as real / lambda0 as real)
    requires if base >= 1.0 then 1.0 <= ltmp <= base else base < ltmp <= 1.0
    ensures base > 0.0
    ensures Rounded(lambda0, ltmp) >= 2 && SmallRange(Rounded(lambda0, ltmp), lambda0, c)
  {
    var t := lambda0 as real * ltmp;
    ScaledPower(lambda0, lambdaL, base, ltmp, t);
    CeilRange(t);
    assert Rounded(lambda0, ltmp) == Ceil(t);
    hide Ceil, Rounded;
    if c <= 1 {
      assert lambdaL == lambda0;
    } else {
      assert lambdaL == 2 * Doubled(lambda0, c - 2);
    }
    RoundedRange(lambda0, lambdaL, t, Ceil(t));
  }

  lemma ScaledPower(lambda0: nat, lambdaL: nat, base: real, ltmp: real, t: real)
    requires lambda0 >= 2 && lambdaL >= 1
    requires base == 0.5 * (lambdaL as real / lambda0 as real) && t == lambda0 as real * ltmp
    requires if base >= 1.0 then 1.0 <= ltmp <= base else base < ltmp <= 1.0
    ensures base > 0.0
    ensures if lambdaL >= 2 * lambda0 then lambda0 as real <= t <= 0.5 * lambdaL as real
            else 0.5 * lambdaL as real < t <= lambda0 as real
  {
    var d, l := lambda0 as real, lambdaL as real;
    HalfRatio(d, l, base);
    ScaledRange(d, base, ltmp, l);
    assert 0.5 * l >= d <==> lambdaL >= 2 * lambda0;
  }

  lemma HalfRatio(d: real, l: real, base: real)
    requires d > 0.0 && l > 0.0 && base == 0.5 * (l / d)
    ensures d * base == 0.5 * l && base > 0.0
  {
    var q := l / d;
    assert d * q == l;
    ProductSign(d, q, l);
  }

  lemma RoundedRange(lambda0: nat, lambdaL: nat, t: real, n: int)
    requires t <= n as real < t + 1.0 && lambda0 >= 2
    requires if lambdaL >= 2 * lambda0 then lambda0 as real <= t <= 0.5 * lambdaL as real
             else lambdaL == lambda0 && 0.5 * lambda0 as real < t <= lambda0 as real
    ensures n >= 2
    ensures lambdaL >= 2 * lambda0 ==> lambda0 <= n && 2 * n <= lambdaL + 1
    ensures lambdaL < 2 * lambda0 ==> n <= lambda0 < 2 * n
  {
  }

  /** The scaled power lies between the default population and half of the large one. */
  lemma ScaledRange(d: real, base: real, x: real, l: real)
    requires d > 0.0 && l > 0.0 && d * base == 0.5 * l
    requires if base >= 1.0 then 1.0 <= x <= base else base < x <= 1.0
    ensures if 0.5 * l >= d then d <= d * x <= 0.5 * l else 0.5 * l < d * x <= d
  {
    assert base >= 1.0 <==> 0.5 * l >= d by {
      if base >= 1.0 { AtMost(d, 1.0, base); } else { Below(d, base, 1.0); }
    }
    if base >= 1.0 {
      AtMost(d, 1.0, x);
      AtMost(d, x, base);
    } else {
      Below(d, base, x);
      AtMost(d, x, 1.0);
    }
  }

  lemma Below(d: real, a: real, x: real)
    requires d > 0.0 && a < x
    ensures d * a < d * x
  {
  }

  lemma AtMost(d: real, a: real, x: real)
    requires d > 0.0 && a <= x
    ensures d * a <= d * x
  {
  }
}
