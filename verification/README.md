# libcmaes: a model of the search core

A Dafny model of the numerical and search-control core of libcmaes (covariance matrix adaptation evolution
strategies) and of the key-value store that sits beside it in `shared/`. Doubles are modelled as reals. The
functions `sqrt`, `log`, `exp` and `pow` are parameters with stated laws (a square root is non-negative and
squares to its argument, a logarithm is increasing and adds over products, an exponential is positive and increasing and
multiplies over sums, a power of exponent below one lies between one and its base). Random draws, objective values and the
eigen solver's results are parameters too.

Objects that the program updates in place are classes; their methods are proved against functions on values, and
the laws are lemmas about those functions.

| file | part of the program |
|---|---|
| `RankingSvm.dfy`, `SvmOptimum.dfy` | the ranking SVM trainer, predictor and error, and how far from the optimum it rests |
| `VdCma.dfy`, `VdUpdate.dfy` | the linear-time solve of VD-CMA, its update and its sampler |
| `VdFisher.dfy`, `VdStep.dfy`, `VdAscent.dfy` | the Fisher information that the VD step solves for, and what follows: one step, uphill, at rest when model and sample agree |
| `Solutions.dfy`, `Covariance.dfy` | run state, evolution paths, the standard covariance update |
| `ActiveCovariance.dfy`, `ActiveSafety.dfy` | the active covariance update, exactly when it is safe, and its runs |
| `ActiveGuard.dfy`, `Selection.dfy` | which of the computed learning rates, and so which population sizes, make it safe |
| `Parameters.dfy`, `RateLaws.dfy`, `VariantRates.dfy` | recombination weights, learning rates, the equations they solve, and their variants |
| `PwqBounds.dfy`, `GenoPheno.dfy` | piecewise-quadratic bounds, linear scaling, the bounded transform |
| `Restarts.dfy` | the inner run, IPOP and BIPOP restarts |
| `Elitism.dfy`, `Sorting.dfy` | elitist reinjection, best-seen candidate, histories |
| `Surrogate.dfy` | training set and pre-selection of the surrogate strategy |
| `CsvStore.dfy` | the comma-separated key-value file |
| `RealFunctions.dfy`, `LinearAlgebra.dfy`, `Wrappers.dfy` | the mathematics and the sequence and option types shared by the above |

## What the proofs found

- The ranking SVM accepts a step when `dL > 0`, but `dL` is not the gain of the dual: epsilon is added to it. Upward
  moves are always accepted; a downward move is rejected although it gains exactly when it removes no more than
  epsilon of residual. The loss is at most 2 K_kk epsilon^2 (`AcceptedIff`, `StepGain`), and a run can stay at its
  start for ever because of it (`GainfulStepRejected`). A run rests exactly when one sweep over the constraints has
  changed nothing (`QuietSweepIffIdle`), and its dual is then within 2 epsilon sum K_kk alpha_k of its maximum
  (`IdleSweepIsNearOptimal`, `QuietTraining`). Where two consecutive training points coincide, the division by zero
  makes the trainer reject every step of that multiplier (`DegenerateFrozen`, `RbfKernelTrainable`).
- The step that VD-CMA computes with two vectors and a handful of scalars is the one solution of a linear system of
  twice the dimension: the Fisher information of a Gaussian with covariance D(I + vv')D, whose two off-diagonal blocks
  are damped by alpha, against the weighted scores of the selected points (`FisherStepIff`, `ComputedStepIsNatural`,
  `DampedSolutionUnique`). That system is positive definite, so the step leads uphill (`DampedFisherPositive`); D and v
  rest when the selected points have the second moment of the model (`StationaryStep`). alpha is the largest damping
  up to one that keeps every entry inverted by the solve at 1/sqrt(1 + |v|^2) or above (`AlphaIsLargest`).
- The active covariance update is safe for every population exactly when c1 <= lambdamintarget (1 - cmu), separable
  (`SafeForAllSamplesIff`) and full (`FullSafeForAllSamplesIff`), and then over whole runs (`RunActivePositive`).
  The rates that `initialize_parameters` computes meet this for moderate selections and miss it for large ones:
  3 muw <= (dim + 2)^2 + 4 suffices, muw >= (dim + 2)^2 + 4 is too much, and the clamp of cmu is not the reason
  (`DefaultGuard`, `UnclampedGuardFails`, `ClampedGuard`). As muw is at least mu / 36 (`MuwAtLeast`), every dimension
  has population sizes that miss it, and the update then loses definiteness (`PopulationGuard`,
  `LargeSelectionUnsafe`).
- `set_vd` gives usable learning rates exactly when the dimension exceeds five (`SetVd`, `VdRatesIff`). Restarts
  re-derive the default rates without applying `set_sep` or `set_vd` again, which never gives back the rates of the
  variant (`RestartLosesVariantRates`). `set_sep` replaces the rate of the covariance path and leaves its factor, so
  the path is no longer normalised from dimension four on (`SetSep`, `SepPathFaster`).
- Elitist reinjection overwrites candidate 1 before the population is sorted; the best of a generation is lost
  exactly when it sits there alone (`BestSeenIsLeastIff`, `ImprovementLost`), and over a run the result is the least
  value evaluated exactly when no overwritten candidate was better (`RunLeastIff`). `set_elitism(0)` switches all modes
  off exactly when the on-restart mode was off; otherwise it switches all three on (`ModeEffects`).
- The restart strategies keep the run whose last generation was best; a better earlier generation does not count
  (`LastGenerationsDecide`, `EarlierGenerationLost`) unless, as under elitism, generations never get worse
  (`FallingRunsLoseNothing`).
- A small BIPOP run that its budget ends has spent at least half of what the large regime had spent, up to the one
  evaluation of the starting point, so at most three such runs follow each other (`SmallRunsInARow`).
- The surrogate evaluates by predicted order: the first member is the predicted best of the selection, and a draw of
  place a takes a member with at most a selected members predicted better (`PlaceInOrder`). Its pre-selection puts
  the evaluated members first exactly when each of them is below the largest double, or equal to it and of smaller
  rank than every unevaluated member (`FinalOrder`).
- `compute_scaling` reaches the lower bound exactly when the width of the box does not exceed the largest double
  (`ComputedScalingRange`).
- A written map is read back exactly when all of its entries are encodable; the condition includes the line that fills
  the buffer so that its line feed is cut off, which is still read back unless the value is empty (`RoundTripIff`).
- `write_out_hash_to_file` tests `fclose(file) > 0`, which never holds, and only looks for writes of length zero: a save
  that loses every entry can count as success (`LostOnClose`).

## Model

The first 53 rows are the main results; the others follow component by component.

| member | source | states |
|---|---|---|
| VdCma.DenominatorsPositive | libcmaes/src/vdcmaupdate.cc:72-107 | For every v != 0: the norm, the largest squared component, each diagonal entry (at least 1/sqrt(1+N)) and 1 + b nu2 are positive, the last one even where b is negative. |
| VdCma.SolveIsExact | libcmaes/src/vdcmaupdate.cc:103-107 | The linear-time svec is the one and only solution of (diag(A) + b w w') s = r, in any dimension. |
| VdCma.SamplerCovariance | libcmaes/src/cmastrategy.cc:190-199 | With T the sampling transform, every entry of T T' equals that of the reported covariance D(I+vv')D. |
| VdUpdate.Update | libcmaes/src/vdcmaupdate.cc:35-126 | With v non-zero no division is by zero; mean and paths move as specified, the step size turns with the path length, and D and v take the step that solves the damped Fisher system for the scores of the selected points. |
| VdStep.FisherStepIff | libcmaes/src/vdcmaupdate.cc:103-114 | A pair (dv, s) solves the Fisher system of twice the dimension, off-diagonal blocks damped by alpha, if and only if s solves the dense system of the diagonal and vbarbar and dv is the computed step of v. |
| VdStep.ComputedStepIsNatural | libcmaes/src/vdcmaupdate.cc:78-114 | The pvec and qvec of the code are the weighted scores of the selected points in those coordinates, so what D and v take is the solution of the damped Fisher system. |
| VdAscent.DampedSolutionUnique | libcmaes/src/vdcmaupdate.cc:103-114 | For every non-zero v and every gradient the damped Fisher system has at most one solution. |
| VdAscent.DampedFisherPositive | libcmaes/src/vdcmaupdate.cc:73-114 | For every non-zero v the damped Fisher system is positive definite: a solution other than zero has a positive inner product with the gradient it solves for. |
| VdAscent.StationaryStep | libcmaes/src/vdcmaupdate.cc:85-114 | Weights that sum to one and selected points whose second moment is I + vv' leave D and v where they are, for every v, as long as the rank-one part is off. |
| RankingSvm.StepGain | libcmaes/src/surrogates/rankingsvm.hpp:292-303 | An accepted step gains delta K_kk (s_k - delta/2), at least K_kk delta^2/2, and reaches the best value of its coordinate; a rejected one changes nothing and forgoes at most 2 K_kk eps^2. |
| RankingSvm.RunInvariant | libcmaes/src/surrogates/rankingsvm.hpp:290-304 | For every number of iterations: box, exact cache, and a dual not below the start; a zero diagonal, where the division yields no number, included. |
| RankingSvm.RunMonotone | libcmaes/src/surrogates/rankingsvm.hpp:290-304 | More iterations never give a smaller dual. |
| RankingSvm.IterationVisits | libcmaes/src/surrogates/rankingsvm.hpp:290-304 | Iteration n moves no multiplier but that of constraint n modulo their number, and leaves it within 2 K_kk eps^2 of its best value. |
| RankingSvm.QuietSweepIffIdle | libcmaes/src/surrogates/rankingsvm.hpp:290-304 | The multipliers agree before and after one sweep, that is as many iterations as constraints, if and only if no constraint's step changes anything; the run then stays there for ever. |
| RankingSvm.AcceptedIff | libcmaes/src/surrogates/rankingsvm.hpp:297-298 | A step is taken if and only if the move is upward, or downward with a residual margin beyond -eps. |
| RankingSvm.GainfulStepRejected | libcmaes/src/surrogates/rankingsvm.hpp:297-298 | From the start that is drawn for one constraint with C = 2 and eps = 1, the next step would raise the dual by 0.405; it is rejected, and the multipliers stay at the start for every number of iterations. |
| RankingSvm.DegenerateFrozen | libcmaes/src/surrogates/rankingsvm.hpp:274-303 | Where two consecutive training points coincide, the multiplier keeps its drawn value after any number of iterations, although the dual grows by eps for every unit of it. |
| SvmOptimum.IdleSweepIsNearOptimal | libcmaes/src/surrogates/rankingsvm.hpp:290-304 | When no coordinate's step changes anything and the form of the difference matrix is non-negative, no point of the box has a dual larger by more than 2 eps sum K_kk alpha_k. |
| SvmOptimum.QuietTraining | libcmaes/src/surrogates/rankingsvm.hpp:255-305 | Training that changed nothing in its last sweep is within 2 eps sum K_kk alpha_k of the best dual over the box, and stays there however long it goes on. |
| RankingSvm.TrainingCertificate | libcmaes/src/surrogates/rankingsvm.hpp:195-204 | If every pair of consecutive points either coincides or has K_ii s_i at most eps, and the reference does not increase, no pair of training points is discordant. |
| PwqBounds.ShiftCharacterised | libcmaes/src/pwq_bound_strategy.cc:97-106 | A point of the widened box is the shifted one if and only if it is reachable that way: the result is unique. |
| PwqBounds.InternalAfterF | libcmaes/src/pwq_bound_strategy.cc:82-125 | The internal representation of the transformed x is the shifted x, for every real x. |
| PwqBounds.RoundTripIff | libcmaes/src/pwq_bound_strategy.cc:82-125 | That round trip returns y if and only if y lies within the bounds. |
| PwqBounds.ToFLipschitz | libcmaes/src/pwq_bound_strategy.cc:82-92 | The transformation is 1-Lipschitz over all reals and stays within the bounds. |
| GenoPheno.Transform.RoundTrip | libcmaes/src/genopheno.h:190-239 | pheno(geno(y)) = y if and only if y lies within the bounds. |
| Covariance.RunPositive | libcmaes/src/covarianceupdate.cc:29-94 | Every covariance reachable from the identity is symmetric and semidefinite, and definite when c1 + cmu < 1. |
| Covariance.DefiniteForAllSamplesIff | libcmaes/src/covarianceupdate.cc:78-78 | Definiteness survives every possible sample if and only if the kept share is positive. |
| Covariance.NeutralDirection | libcmaes/src/covarianceupdate.cc:59-78 | A direction in which the sample and the path have the variance of the model keeps its variance exactly, with either hsig. |
| Solutions.SigmaFactorLaw | libcmaes/src/acovarianceupdate.cc:113-117 | The step-size factor is 1 at a path of expected length and exp(csigma/dsigma) at twice that length, it multiplies over sums of lengths, and the cap takes the smaller of it and the bound. |
| ActiveSafety.SafeForAllSamplesIff | libcmaes/src/acovarianceupdate.cc:61-111 | Separable: every sorted population of at least lambda candidates, with any path, leaves all variances positive if and only if c1 <= lambdamintarget (1 - cmu). |
| ActiveSafety.FullSafeForAllSamplesIff | libcmaes/src/acovarianceupdate.cc:61-111 | Full: every sorted population leaves a definite covariance definite if and only if c1 <= lambdamintarget (1 - cmu), with the inverse root of the covariance and an eigen solver for symmetric matrices. |
| ActiveSafety.RunActivePositive | libcmaes/src/acovarianceupdate.cc:29-122 | Under the condition, every covariance reachable from the identity by full active updates with fresh roots is definite. |
| ActiveSafety.RunActiveSepPositive | libcmaes/src/acovarianceupdate.cc:29-122 | Under the condition, every run of separable active updates from unit variances goes through, and all of its variances are positive. |
| ActiveGuard.DefaultActiveSafe | libcmaes/src/cmaparameters.cc:74-118 | A parameters object with the default rates makes the full active update safe on every population if and only if its rates meet the condition before the clamp; 3 mu <= (dim + 2)^2 + 4 suffices. |
| ActiveGuard.SepActiveSafe | libcmaes/src/cmaparameters.cc:152-159 | The same for the separable rates; mu <= dim + 1 suffices. |
| Selection.MuwAtLeast | libcmaes/src/cmaparameters.cc:76-91 | The effective number of the logarithmic weights is at least mu / 36, for every mu. |
| ActiveGuard.PopulationGuard | libcmaes/src/cmaparameters.cc:76-100 | In every dimension the computed rates meet the condition for 3 mu <= (dim + 2)^2 + 4 and miss it for mu >= 36 ((dim + 2)^2 + 4). |
| ActiveGuard.LargeSelectionUnsafe | libcmaes/src/cmaparameters.cc:74-118 | A parameters object with so large a selection makes the full active update lose definiteness on some sorted population. |
| Parameters.VdRatesIff | libcmaes/src/cmaparameters.cc:171-172 | c1 is positive if and only if dim > 5, cmu non-negative if and only if dim >= 5 or muw = 1; both always sum to at most 1. |
| VariantRates.RestartLosesVariantRates | libcmaes/src/ipopcmastrategy.cc:88-93 | The rates that a restart re-derives are never those of the separable variant (c1, cmu, cc) and never those of the VD variant (c1, cmu, csigma), in any dimension and for any effective number. |
| Parameters.CmaParameters.InitializeParameters | libcmaes/src/cmaparameters.cc:74-118 | Normalised, positive, decreasing weights, 1 <= muw <= mu, every rate in range with c1 + cmu <= 1, every derived constant as computed from them, and every square root a real root of what it was taken of. |
| Restarts.RestartStrategy.BipopOptimize | libcmaes/src/bipopcmastrategy.cc:74-105 | The search terminates with the requested number of large runs; the k-th has the default population doubled k times whatever came between; every run has its budget, half of what the large regime had spent or the caller's, and ends by a criterion that holds; the result is the first run of least value. |
| Restarts.RegimesBalanced | libcmaes/src/bipopcmastrategy.cc:80-100 | Over any such search the small regime spends at most one and a half times the large one plus one population, and the large one leads by at most its latest run. |
| Restarts.SmallRunsInARow | libcmaes/src/bipopcmastrategy.cc:82-90 | Small runs ended by their budget each spend at least half of what the large regime had spent, less one, and at most three of them follow each other once that regime has spent eight evaluations. |
| Restarts.LastGenerationsDecide | libcmaes/src/ipopcmastrategy.cc:102-107 | Over any runs the captured one is as good as the best generation of all if and only if some run ends with a generation that none beats. |
| Restarts.RestartStrategy.IpopOptimize | libcmaes/src/ipopcmastrategy.cc:56-85 | Run k has population lambda doubled k times; fewer runs than restarts only when the budget is used up; each run ends by a criterion that holds; the result is the first run of least value. |
| Elitism.ElitistRunMonotone | libcmaes/src/esostrategy.cc:85-158 | Over a whole elitist run the generation bests never increase, and from two generations on the last one is the best seen. |
| Elitism.BestSeenIsLeastIff | libcmaes/src/esostrategy.cc:136-142 | A generation's result is the least of all evaluated values if and only if reinjection does not overwrite a unique best. |
| Elitism.RunLeastIff | libcmaes/src/esostrategy.cc:85-158 | Over a whole elitist run the final best seen is the least of all evaluated values if and only if no overwritten candidate was better; it is always an evaluated or the initial value. |
| Surrogate.AcmSurrogate.PreSelectionEval | libcmaes/src/surrogatestrategy.cc:318-406 | For any draws: it completes exactly when they suffice; then the population consists of the pool members that the first draws select, predicted best among them, the second draws evaluate members by their place in the predicted order, max(1, lambdaprime) of them are evaluated and counted, and they come first under the exact condition. |
| Surrogate.PlaceInOrder | libcmaes/src/surrogatestrategy.cc:359-384 | The member at place a of the selection has at most a selected members with a strictly better prediction and more than a that are not worse, itself included; place 0 is the predicted best. |
| CsvStore.RoundTripIff | shared/csv_reader.cpp:50-108 | In every iteration order the written map is read back if and only if all its entries are encodable. |
| CsvStore.RewriteIsStable | shared/csv_reader.cpp:50-108 | Opening any file and writing its map back loses nothing. |
| RankingSvm.DiffKernelSymmetric | libcmaes/src/surrogates/rankingsvm.hpp:241-268 | For a symmetric kernel function the mirrored fill makes the kernel matrix and its second difference symmetric. |
| RankingSvm.GainOfMove | libcmaes/src/surrogates/rankingsvm.hpp:293-303 | With an exact cache, moving coordinate k by any u changes the true dual eps sum(a) - a'Ka/2 by exactly u K_kk (s_k - u/2), in any dimension. |
| RankingSvm.MoveIsProjection | libcmaes/src/surrogates/rankingsvm.hpp:294-296 | The clamped move stays in the box, lies between 0 and the residual, and is the point of the box nearest to it. |
| RankingSvm.MoveIsLineSearch | libcmaes/src/surrogates/rankingsvm.hpp:294-296 | No other value of the coordinate within its box gives a larger dual. |
| RankingSvm.StepKeepsInvariant | libcmaes/src/surrogates/rankingsvm.hpp:292-302 | Accepted or rejected, a step keeps 0 <= alpha <= C and the exactness of every cache entry. |
| RankingSvm.StartInvariant | libcmaes/src/surrogates/rankingsvm.hpp:264-283 | The drawn multipliers lie in the box, and the cache as first computed is exact. |
| RankingSvm.IdleStepIsNearOptimal | libcmaes/src/surrogates/rankingsvm.hpp:290-304 | A coordinate whose own step changes nothing is within 2 K_kk eps^2 of its best value. |
| RankingSvm.StepLeavesBest | libcmaes/src/surrogates/rankingsvm.hpp:292-303 | After a step, accepted or not, no value of its coordinate within the box has a dual larger by more than 2 K_kk eps^2. |
| RankingSvm.StepRaises | libcmaes/src/surrogates/rankingsvm.hpp:292-303 | A step changes nothing or strictly raises the dual. |
| RankingSvm.RunIsWellTrained | libcmaes/src/surrogates/rankingsvm.hpp:287-305 | After any positive number of iterations: a dual not below the start, the last visited coordinate near its best value, and rest after a quiet sweep. |
| RankingSvm.PairErrorsBound | libcmaes/src/surrogates/rankingsvm.hpp:330-340 | The discordant pair count is at most the number of pairs, and zero exactly when no pair is discordant. |
| RankingSvm.ErrorMeaning | libcmaes/src/surrogates/rankingsvm.hpp:328-342 | The error lies in [0,1]; it is 0 exactly when no pair is discordant and 1 exactly when every pair is. |
| RankingSvm.TrainingDrop | libcmaes/src/surrogates/rankingsvm.hpp:195-204 | On the training points the predicted drop from point i to i+1 is row i of the difference matrix applied to the multipliers, and equals eps - K_ii s_i, the residual in the cache, where K_ii is not zero. |
| RankingSvm.LinearKernelTrainable | libcmaes/src/surrogates/rankingsvm.hpp:55-65 | For the linear kernel the difference matrix is symmetric with a non-negative diagonal, and a diagonal entry is positive exactly when its two points differ. |
| SvmOptimum.LinearKernelForm | libcmaes/src/surrogates/rankingsvm.hpp:55-65 | For the linear kernel the form of the difference matrix is non-negative. |
| RankingSvm.RbfKernelTrainable | libcmaes/src/surrogates/rankingsvm.hpp:86-95 | The same for the default radial basis kernel, for every positive bandwidth. |
| RankingSvm.CoincidingPoints | libcmaes/src/surrogates/rankingsvm.hpp:255-268 | For any kernel, coinciding consecutive points give a zero row of the difference matrix. |
| RankingSvm.RankingSVM.ComputeTrainingKernel | libcmaes/src/surrogates/rankingsvm.hpp:236-248 | The in-place triangular fill yields the kernel matrix of the points. |
| RankingSvm.RankingSVM.SetWeights | libcmaes/src/surrogates/rankingsvm.hpp:151-155 | The backward fill gives constraint k the non-negative weight base times (k+1) squared, which grows by the odd multiples of the base. |
| RankingSvm.RankingSVM.Difference | libcmaes/src/surrogates/rankingsvm.hpp:264-272 | The second-difference matrix and the drawn multipliers. |
| RankingSvm.RankingSVM.CacheResiduals | libcmaes/src/surrogates/rankingsvm.hpp:274-283 | The cache equals the residuals recomputed from scratch wherever the diagonal is not zero; each row is divided by its column's diagonal. |
| RankingSvm.RankingSVM.Ascend | libcmaes/src/surrogates/rankingsvm.hpp:287-304 | The loop's multipliers are those of the specified run, visiting the constraints in turn, for any niter, also non-positive. |
| RankingSvm.RankingSVM.Optimize | libcmaes/src/surrogates/rankingsvm.hpp:255-305 | Start and ascent together, for every kernel matrix: the multipliers of the specified run, in the box, with an exact final cache; a dual not below the start when the diagonal is non-negative, and then the last visited multiplier near its best value and rest after a quiet sweep. |
| RankingSvm.RankingSVM.Train | libcmaes/src/surrogates/rankingsvm.hpp:142-167 | Training sets kernel, weights and multipliers with the guarantees of Optimize. |
| RankingSvm.RankingSVM.Predict | libcmaes/src/surrogates/rankingsvm.hpp:180-209 | The predicted fitness of every test point; nothing when the model is untrained. |
| RankingSvm.RankingSVM.Error | libcmaes/src/surrogates/rankingsvm.hpp:318-343 | 1 without a prediction, undefined for fewer than two references, otherwise the exact fraction of discordant pairs, in [0,1]. |
| RankingSvm.Inversions | libcmaes/src/surrogates/rankingsvm.hpp:330-340 | The double loop counts exactly the discordant ordered pairs. |
| VdCma.EntryBound | libcmaes/src/vdcmaupdate.cc:73-76 | Each entry inverted in Ainv is at least 1/sqrt(1+N). |
| VdCma.AlphaIsLargest | libcmaes/src/vdcmaupdate.cc:72-76 | The computed damping is the largest value up to one for which every inverted entry is at least 1/sqrt(1+N). |
| VdCma.FullCovPositive | libcmaes/src/cmasolutions.cc:132-133 | The reported covariance has the form |Dx|^2 + (v'Dx)^2, so it is semidefinite, and definite when no scale is zero. |
| VdUpdate.MovePaths | libcmaes/src/vdcmaupdate.cc:46-62 | The step-size path is damped by 1/sqrt(1+v_i^2) in each coordinate; the other path follows only while it is short. |
| VdUpdate.Step | libcmaes/src/vdcmaupdate.cc:64-114 | D and v take the damped natural-gradient step, or stay when both learning rates vanish. |
| VdUpdate.Descend | libcmaes/src/vdcmaupdate.cc:103-113 | The step taken solves the damped Fisher system for the scores of the selected points. |
| VdFisher.PrecisionIsInverse | libcmaes/src/vdcmaupdate.cc:70-76 | I - vv'/(1 + |v|^2) undoes I + vv': the Fisher blocks and scores are built from the inverse covariance. |
| VdStep.ScoreOfD | libcmaes/src/vdcmaupdate.cc:85-91 | A column of the code's p part is the score of its point with respect to relative changes of D. |
| VdStep.ScoreOfV | libcmaes/src/vdcmaupdate.cc:85-91 | A column of its q part is the v-block of the Fisher information's preimage of the score with respect to v, times |v|. |
| VdStep.StepAlongDirection | libcmaes/src/vdcmaupdate.cc:108-109 | Along the unit direction of v the step is fixed by |v| (vbar . dv) = vbar . q - alpha (1 + N) (vbarbar . s). |
| VdUpdate.WhitenedPlace | libcmaes/src/vdcmaupdate.cc:80-84 | Mean plus sigma times D applied to a whitened point is the candidate. |
| VdUpdate.DampingIsDeviation | libcmaes/src/vdcmaupdate.cc:46-52 | Damping and scaling together divide each coordinate of the path by its standard deviation in the reported covariance. |
| VdAscent.SystemPositive | libcmaes/src/vdcmaupdate.cc:103-107 | The dense system of the linear-time solve is positive definite whenever its denominator is positive. |
| VdAscent.NoGradient | libcmaes/src/vdcmaupdate.cc:85-101 | Points whose weighted second moment is I + vv' have zero weighted scores in both blocks. |
| VdUpdate.NextScaleSign | libcmaes/src/vdcmaupdate.cc:109-113 | A positive scale stays positive exactly while svec_i > -1, and vanishes, so that the next update divides by zero, exactly at svec_i = -1. |
| VdUpdate.StretchedIsTransform | libcmaes/src/cmastrategy.cc:190-199 | Stretching one noise column along the direction and scaling it is the transform T applied to it. |
| VdUpdate.Ask | libcmaes/src/cmastrategy.cc:188-199 | Every sampled point is the mean plus sigma times T applied to its noise column. |
| Solutions.RankMuPositive | libcmaes/src/covarianceupdate.cc:65-75 | The accumulated outer products form a non-negative quadratic form for non-negative weights. |
| Solutions.CmaSolutions.constructor | libcmaes/src/cmasolutions.cc:31-84 | A fresh state: identity covariance (or unit scales), zero paths, and the given step size or, when none is given, 1/dim. |
| Solutions.CmaSolutions.AccumulateMean | libcmaes/src/covarianceupdate.cc:34-36 | The loop computes the weighted sum of the first mu points. |
| Solutions.CmaSolutions.AccumulateRankMu | libcmaes/src/covarianceupdate.cc:65-75 | The loop computes the outer-product sum of the first mu differences. |
| Solutions.CmaSolutions.AccumulateRankMuDiagonal | libcmaes/src/covarianceupdate.cc:65-75 | The same for the diagonal. |
| Solutions.CmaSolutions.UpdatePaths | libcmaes/src/covarianceupdate.cc:45-58 | New paths, path norm and hsig; the covariance path adds the shift only while the other path is short. |
| Solutions.CmaSolutions.UpdateSigma | libcmaes/src/acovarianceupdate.cc:113-117 | The step size stays positive; it grows, stays or shrinks with the path norm above, at or below the expected length, and with the two-point value where that decides. |
| Solutions.SigmaFollows | libcmaes/src/acovarianceupdate.cc:113-117 | With positive constants the step size follows the path length in exactly that sense; the cap only lowers it. |
| Solutions.TwoPointFactor | libcmaes/src/acovarianceupdate.cc:116-117 | Under two-point adaptation the factor is e at a value of dsigma and multiplies over sums of values. |
| Solutions.PathLengthKept | libcmaes/src/covarianceupdate.cc:45-58 | With a factor whose square is c (2 - c) muw, a step uncorrelated with the path and of 1/muw of its squared length leaves the squared length of the path unchanged. |
| Solutions.ThresholdIsScaledLength | libcmaes/src/covarianceupdate.cc:55-55 | The bound for hsig is the square root of the variance that a path of neutral steps has built up, times the limit of its length; it rises with the iterations and stays below that limit. |
| Solutions.VarianceClosedForm | libcmaes/src/covarianceupdate.cc:55-55 | The variance a path of neutral steps builds up is 1 - (1 - csigma)^(2k). |
| Covariance.NextCovAbove | libcmaes/src/covarianceupdate.cc:59-78 | The new covariance dominates the kept share of the old one. |
| Covariance.NextCovPositive | libcmaes/src/covarianceupdate.cc:59-78 | Semidefiniteness is preserved for any candidates and either hsig; definiteness when a share is kept. |
| Covariance.NextSepCovPositive | libcmaes/src/covarianceupdate.cc:79-82 | Each separable variance keeps its share and stays non-negative, positive when a share is kept. |
| Covariance.KeepSign | libcmaes/src/covarianceupdate.cc:78-78 | The kept share is non-negative, and positive exactly when c1 + cmu < 1 or, with hsig false, c1 > 0 and 0 < cc < 2. |
| Covariance.NeutralCoordinate | libcmaes/src/covarianceupdate.cc:79-82 | The neutral law for one variance of the separable update. |
| Covariance.MeanShiftBack | libcmaes/src/covarianceupdate.cc:37-39 | The old mean plus sigma times the shift is the new mean. |
| Covariance.SepRootIsInverse | libcmaes/src/covarianceupdate.cc:42-43 | The stored separable root squared times the variance is one. |
| Covariance.Update | libcmaes/src/covarianceupdate.cc:29-94 | The whole update: new mean, paths, step size and covariance, with semidefiniteness and definiteness preserved. |
| Covariance.UpdateCov | libcmaes/src/covarianceupdate.cc:59-82 | The covariance after the update is the specified one, full or separable. |
| ActiveCovariance.RateWithinBudget | libcmaes/src/acovarianceupdate.cc:107-108 | The negative rate is positive, and what it takes from the largest direction stays within the budget. |
| RateLaws.RateCapLaw | libcmaes/src/acovarianceupdate.cc:108-108 | The cap solves its equation in dim + 2 and muw, and stays below a sixteenth of (1 - cmu) alphacov. |
| ActiveCovariance.NeutralActiveDirection | libcmaes/src/acovarianceupdate.cc:66-110 | A direction in which path, best and worst candidates have the variance of the model keeps it exactly, whatever the negative rate. |
| ActiveCovariance.NeutralActiveCoordinate | libcmaes/src/acovarianceupdate.cc:66-111 | The same for one variance of the separable update. |
| ActiveCovariance.ActiveMeanBetween | libcmaes/src/acovarianceupdate.cc:33-38 | With normalised weights the new mean divides the way from the old mean to the weighted mean of the best points at the rate cm. |
| ActiveCovariance.BadDifferencesBack | libcmaes/src/acovarianceupdate.cc:72-90 | The k-th worst difference, times sigma, leads from the mean to the k-th candidate from the end. |
| ActiveCovariance.ActiveShiftBack | libcmaes/src/acovarianceupdate.cc:41-41 | The old mean plus sigma cm times the shift is the new mean. |
| ActiveCovariance.SepUpdateBound | libcmaes/src/acovarianceupdate.cc:85-111 | For every sample each separable variance keeps at least the guaranteed share, with the rate computed from the sample itself. |
| ActiveCovariance.MinusBound | libcmaes/src/acovarianceupdate.cc:98-104 | Given the inverse root and the largest eigenvalue e, the negative part is at most e times the old covariance as a form. |
| ActiveCovariance.FullSafety | libcmaes/src/acovarianceupdate.cc:96-110 | The full active update dominates the guaranteed share of the old covariance as a quadratic form. |
| ActiveCovariance.FullKeepsDefinite | libcmaes/src/acovarianceupdate.cc:96-110 | Under the condition on the rates, the full active update keeps a definite covariance definite. |
| ActiveCovariance.RelativeSymmetric | libcmaes/src/acovarianceupdate.cc:98-103 | The matrix handed to the eigen solver is symmetric, which is all that the solver asks for. |
| ActiveSafety.DirectionOf | libcmaes/src/acovarianceupdate.cc:96-104 | The eigenvector of the relative negative part gives a point where the negative form is the eigenvalue times the old form. |
| ActiveCovariance.Update | libcmaes/src/acovarianceupdate.cc:29-122 | The whole active update with both guarantees, separable and full. |
| ActiveCovariance.UpdateCov | libcmaes/src/acovarianceupdate.cc:61-111 | The covariance after the update is the specified one; at or above the floor all variances stay positive, and a definite matrix stays definite under a fresh root. |
| ActiveSafety.UnsafeCandidates | libcmaes/src/acovarianceupdate.cc:66-111 | When the condition fails: a sorted population of two values, its worst mu candidates at a positive distance t sigma in every coordinate and all others on the mean, turns a variance non-positive along a resting path. |
| ActiveSafety.FullUnsafeCandidates | libcmaes/src/acovarianceupdate.cc:66-111 | When the condition fails: the same kind of sorted population makes the full covariance indefinite. |
| ActiveSafety.DistantMeanRests | libcmaes/src/acovarianceupdate.cc:33-59 | Such a population leaves the mean where it is, so the resting path is one that the update itself goes on producing. |
| ActiveGuard.ClampedGuard | libcmaes/src/cmaparameters.cc:99-100 | The clamp of cmu to 1 - c1 never rescues the condition: it holds after the clamp if and only if it holds before. |
| ActiveGuard.DefaultGuard | libcmaes/src/cmaparameters.cc:98-100 | The computed default rates meet the condition whenever 3 muw <= (dim + 2)^2 + 4, and miss it whenever muw >= (dim + 2)^2 + 4. |
| ActiveGuard.UnclampedGuardFails | libcmaes/src/cmaparameters.cc:98-100 | At dim = 1 and muw = 10 the computed rates miss the condition although nothing is clamped. |
| ActiveGuard.SepGuard | libcmaes/src/cmaparameters.cc:152-159 | The computed separable rates meet the condition whenever muw <= dim + 1. |
| Parameters.RawWeightsOrdered | libcmaes/src/cmaparameters.cc:79-84 | Raw weights are positive and strictly decreasing. |
| Parameters.SumSquaredAtMost | libcmaes/src/cmaparameters.cc:91-91 | Cauchy-Schwarz: the squared sum is at most n times the sum of squares. |
| Parameters.MuwRange | libcmaes/src/cmaparameters.cc:91-91 | 1 <= muw <= mu for positive weights. |
| Parameters.CSigmaRange | libcmaes/src/cmaparameters.cc:93-95 | 0 < csigma < 1 in both dimension regimes. |
| Parameters.CMuRawNonNegative | libcmaes/src/cmaparameters.cc:99-99 | The unclamped cmu is non-negative, and zero exactly when muw is one. |
| Parameters.ChiPositive | libcmaes/src/cmaparameters.cc:108-108 | The expected norm is positive in every dimension. |
| Parameters.RootArguments | libcmaes/src/cmaparameters.cc:93-108 | The roots of dimension, effective number and damping ratio are taken of non-negative numbers. |
| Parameters.PathRoot | libcmaes/src/cmaparameters.cc:102-106 | A path factor is the real root of c (2 - c) muw, which is positive. |
| RateLaws.PathFactorLaw | libcmaes/src/cmaparameters.cc:102-106 | With the computed factor a neutral step keeps the length of a path. |
| RateLaws.DampingLaw | libcmaes/src/cmaparameters.cc:102-102 | The damping is 1 + csigma exactly when muw <= dim + 2; above, half of its excess plus one squares to (muw - 1)/(dim + 1). |
| RateLaws.ChiLaw | libcmaes/src/cmaparameters.cc:108-108 | The square of chi lies between dim - 1/2 + 1/(8 dim) and dim - 1/2 + 1/(6 dim), in every dimension. |
| RateLaws.PathRateOdds | libcmaes/src/cmaparameters.cc:93-95 | csigma to 1 - csigma is as muw + 2 to dim + 3, from a thousand dimensions on with their roots; the VD rate likewise. |
| RateLaws.CovariancePathOdds | libcmaes/src/cmaparameters.cc:96-96 | cc to 1 - cc is as 4 dim + muw to dim^2 + muw. |
| RateLaws.SepPathOdds | libcmaes/src/cmaparameters.cc:158-158 | The separable cc to its rest is as dim + 1 + muw to dim sqrt(dim) + muw - dim. |
| RateLaws.RankOneRates | libcmaes/src/cmaparameters.cc:98-98 | c1 ((dim + 1.3)^2 + muw) = 2, and the rank-one rates of the variants as multiples of it. |
| RateLaws.SelectionSupport | libcmaes/src/cmaparameters.cc:99-99 | The unclamped cmu solves its equation, with the squared excess of muw over one on the right. |
| RateLaws.SepSelectionSupport | libcmaes/src/cmaparameters.cc:156-156 | The same for the separable variant. |
| RateLaws.ClampedRates | libcmaes/src/cmaparameters.cc:100-172 | In all three variants cmu is the unclamped rate if c1 leaves room for it, and otherwise fills c1 up to one. |
| Parameters.SepRates | libcmaes/src/cmaparameters.cc:152-159 | The separable rates stay in range. |
| VariantRates.RankOneRateKept | libcmaes/src/cmaparameters.cc:98-98 | The rank-one rate alone agrees with the separable one in dimension 1 only, and with the VD one in dimension 11 only. |
| VariantRates.SepPathFaster | libcmaes/src/cmaparameters.cc:152-159 | From dimension 4 on the separable cc is larger than the default one, so that the path factor left by the initialisation no longer belongs to it. |
| Parameters.CmaParameters.constructor | libcmaes/src/parameters.h:74-79 | A sound parameter set with the default rates for every dimension, with the default population when fewer than two offspring are asked for, and no variant set. |
| Parameters.CmaParameters.InitializeWeights | libcmaes/src/cmaparameters.cc:76-91 | The weights sum to one, are positive and strictly decreasing. |
| Parameters.CmaParameters.InitializeRates | libcmaes/src/cmaparameters.cc:93-117 | The default rates, all in range; path factors, lazy value, damping, expected norm and noise constants as computed from them, with both path factors and the damping root real. |
| Parameters.CmaParameters.SetNoisy | libcmaes/src/cmaparameters.cc:121-129 | Five times the population, c1 and the unclamped cmu at a fifth, still sound. |
| Parameters.CmaParameters.SetSep | libcmaes/src/cmaparameters.cc:152-159 | The scaled rates; sound from the default c1 and from any smaller one, also after the noisy setting; the covariance path stays normalised if and only if its rate did not change. |
| Parameters.CmaParameters.SetVd | libcmaes/src/cmaparameters.cc:162-176 | The scaled rates; from the default c1 and any smaller one they are sound if and only if dim > 5; both paths stay normalised; an algorithm that does not use them changes nothing. |
| Parameters.CmaParameters.ViewIsValid | libcmaes/src/cmaparameters.cc:74-118 | Sound parameters meet everything the standard and the active update demand. |
| PwqBounds.Geometry | libcmaes/src/pwq_bound_strategy.cc:43-55 | Both quadratic ends have positive width at most half the box, and the period is twice the widened box and the distance of the seam points. |
| PwqBounds.ShiftIsFold | libcmaes/src/pwq_bound_strategy.cc:97-106 | Every real is moved into the widened box by whole periods and at most one reflection. |
| PwqBounds.ShiftInBox | libcmaes/src/pwq_bound_strategy.cc:97-112 | The result lies in the widened box, so the fatal branch is never taken. |
| PwqBounds.ShiftPeriodic | libcmaes/src/pwq_bound_strategy.cc:97-106 | Shifting is periodic, including the seam points. |
| PwqBounds.ShiftMirrored | libcmaes/src/pwq_bound_strategy.cc:97-106 | It is mirror-symmetric about both ends of the widened box. |
| PwqBounds.ShiftIdentity | libcmaes/src/pwq_bound_strategy.cc:97-106 | It leaves the widened box alone. |
| PwqBounds.FoldsContract | libcmaes/src/pwq_bound_strategy.cc:97-106 | Folding never increases distances, over all reals. |
| PwqBounds.FUndoesInternal | libcmaes/src/pwq_bound_strategy.cc:82-125 | Within the bounds the transformation undoes the internal representation. |
| PwqBounds.PwqBoundStrategy.constructor | libcmaes/src/pwq_bound_strategy.cc:39-56 | For lb < ub the derived vectors agree with the bounds. |
| PwqBounds.PwqBoundStrategy.WithPheno | libcmaes/src/pwq_bound_strategy.cc:58-76 | The same, keeping the caller's phenotype bounds. |
| PwqBounds.PwqBoundStrategy.ShiftIntoFeasible | libcmaes/src/pwq_bound_strategy.cc:94-113 | Each coordinate is folded; the fatal branch is unreachable. |
| PwqBounds.PwqBoundStrategy.ToFRepresentation | libcmaes/src/pwq_bound_strategy.cc:82-92 | Each coordinate is transformed and ends within its bounds. |
| PwqBounds.PwqBoundStrategy.ToInternalRepresentation | libcmaes/src/pwq_bound_strategy.cc:115-125 | Each coordinate gets its internal representation. |
| GenoPheno.LinInverse | libcmaes/src/scaling.h:122-133 | Scaling and unscaling are inverse and keep the order. |
| GenoPheno.ComputedScalingRange | libcmaes/src/scaling.h:110-120 | The internal maximum maps to ub, the internal minimum to lb if and only if the width does not exceed the largest double. |
| GenoPheno.CoordinateRoundTrip | libcmaes/src/genopheno.h:190-239 | Every x maps into the user bounds, and y survives the round trip if and only if it lies there. |
| GenoPheno.Transform.Bounded | libcmaes/src/genopheno.h:48-59 | The bounded transform reaches exactly the caller's bounds, or, scaled, from ub minus the capped width. |
| GenoPheno.Transform.FromScaling | libcmaes/src/genopheno.h:347-362 | A transform from scaling vectors reaches exactly the caller's bounds. |
| GenoPheno.Transform.Pheno | libcmaes/src/genopheno.h:190-214 | The phenotype of every real vector lies within the bounds. |
| GenoPheno.Transform.Geno | libcmaes/src/genopheno.h:216-239 | The genotype as the composition of the inverse maps. |
| Restarts.RestartStrategy.constructor | libcmaes/src/bipopcmastrategy.cc:33-45 | Default and large population, step size and budget are saved as given. |
| Restarts.LimitLaw | libcmaes/src/cmastopcriteria.cc:93-104 | Above 100 the automatic threshold times the root of lambda is 50 (dim + 3)^2; it falls with lambda and rises with dim; for VD below ten dimensions it is a thousand times that. |
| Restarts.BestIsFirst | libcmaes/src/ipopcmastrategy.cc:102-107 | The captured run is in the log, no run has a smaller value, and every earlier one a larger. |
| Restarts.EarlierGenerationLost | libcmaes/src/ipopcmastrategy.cc:102-107 | A run of two generations whose better first one is forgotten. |
| Restarts.FallingRunsLoseNothing | libcmaes/src/ipopcmastrategy.cc:102-107 | When generations never get worse within a run, the captured run is as good as the best generation of all. |
| Restarts.RestartStrategy.Stop | libcmaes/src/cmastrategy.cc:316-332 | Never before the first iteration; always at the budget or at the automatic threshold; the recorded criterion holds. |
| Restarts.RestartStrategy.Optimize | libcmaes/src/cmastrategy.cc:335-362 | An inner run terminates, iterates at least once, counts every evaluation, starts its last iteration below budget and threshold, records a criterion that ended it, and ends with the value of its last generation. |
| Restarts.RestartStrategy.CaptureBestSolution | libcmaes/src/ipopcmastrategy.cc:103-107 | The captured run is the first of least value of all runs so far. |
| Restarts.RestartStrategy.RunAndCapture | libcmaes/src/bipopcmastrategy.cc:86-89 | One run adds exactly itself to the log and its evaluations to the total, with what ended it. |
| Restarts.RestartStrategy.R2 | libcmaes/src/bipopcmastrategy.cc:117-128 | At least two offspring, never above half of the latest large population (above the default at first), step size in (0.02, 2]. |
| Restarts.RestartStrategy.SmallRun | libcmaes/src/bipopcmastrategy.cc:82-90 | A small run has half of what the large regime spent as its budget, spends at least one evaluation, and ends by a criterion that holds. |
| Restarts.RestartStrategy.LargeRun | libcmaes/src/bipopcmastrategy.cc:96-99 | A large run under the caller's budget, after the small regime has caught up. |
| Sorting.StableSortSorted | libcmaes/src/cmasolutions.h:76-80 | The sort orders by value. |
| Sorting.HeadIsLeast | libcmaes/src/cmasolutions.h:76-80 | After sorting, the first candidate is a member with the least value. |
| Elitism.ModeEffects | libcmaes/src/cmaparameters.h:243-262 | Modes 1, 2 and 3 each set exactly their flag; mode 0 clears the flags if and only if the on-restart flag was clear, and sets all three otherwise; any other mode changes nothing. |
| Elitism.ReinjectedBest | libcmaes/src/esostrategy.cc:130-142 | After reinjection some candidate is at least as good as the reference. |
| Elitism.GenerationMatchesSeen | libcmaes/src/esostrategy.cc:112-142 | From the second generation on, the generation's best equals the best seen, and neither gets worse. |
| Elitism.ImprovementLost | libcmaes/src/esostrategy.cc:136-142 | A concrete generation whose only improvement is overwritten. |
| Elitism.MedianBetween | libcmaes/src/cmasolutions.cc:104-109 | The median is the mean of the two middle values, or the middle one twice; half of the candidates lie on either side. |
| Elitism.MedianWindowGrows | libcmaes/src/cmasolutions.cc:111-112 | The window of the medians starts at 120 plus 30 dim/lambda rounded up, never shrinks, and grows by one every five iterations. |
| Elitism.PushedIsLast | libcmaes/src/cmasolutions.cc:92-102 | A bounded history holds the last entries of everything pushed. |
| Elitism.SeenBounds | libcmaes/src/cmasolutions.cc:114-125 | Best and worst seen bound every candidate shown, are among them, and keep the earlier one on ties. |
| Elitism.HistoryLengthIs | libcmaes/src/cmasolutions.cc:76-76 | The length of the histories is the one asked for, or ten plus 30 dim divided by lambda in integers. |
| Elitism.KthBestIs | libcmaes/src/cmasolutions.cc:75-75 | The rank in the second history is lambda/4 + 2 in integers, at most the last. |
| Elitism.EsoStrategy.ActiveModes | libcmaes/src/esostrategy.cc:112-112 | Reinjection is active from the second generation on exactly in modes 1 and 2, and in mode 3 once a restart turned it on. |
| Elitism.EsoStrategy.ReferenceBound | libcmaes/src/esostrategy.cc:112-142 | While reinjection is active, the best after it is not above the initial value in the initial modes, and not above the best seen otherwise. |
| Elitism.EsoStrategy.constructor | libcmaes/src/cmastrategy.cc:341-350 | With an elitist mode or the initial value asked for, the starting point is evaluated and becomes initial and best-seen candidate; history length and rank of the second history are derived. |
| Elitism.EsoStrategy.Eval | libcmaes/src/esostrategy.cc:85-151 | All candidates evaluated, reinjection exactly when fewer than half improve on the reference, evaluations counted. |
| Elitism.EsoStrategy.Tell | libcmaes/src/cmastrategy.cc:283-293 | Candidates sorted; histories, values, medians, best seen and worst seen updated. |
| Elitism.EsoStrategy.UpdateBestCandidates | libcmaes/src/cmasolutions.cc:90-126 | Bounded histories with their newest entry, values and medians, the best-seen candidate with its iteration and the worst seen. |
| Elitism.EsoStrategy.Iterate | libcmaes/src/cmastrategy.cc:353-358 | One iteration refines the specified generation; while reinjection is active its best is not above the initial value in the initial modes, and not above the best seen otherwise. |
| Wrappers.LastNPush | libcmaes/src/surrogatestrategy.cc:70-75 | Pushing and dropping the oldest keeps the last l points. |
| Surrogate.PoolBestFirst | libcmaes/src/surrogatestrategy.cc:320-329 | The ranked pool is sorted, and rank 0 has the least predicted value. |
| Surrogate.TakenShort | libcmaes/src/surrogatestrategy.cc:347-357 | Draws that do not suffice were all used: every draw inside the population was taken. |
| Surrogate.TakenEnough | libcmaes/src/surrogatestrategy.cc:347-357 | Once enough members are taken, further draws change nothing. |
| Surrogate.FinalOrder | libcmaes/src/surrogatestrategy.cc:386-397 | Members are sorted by value, equal ones by rank; the evaluated ones all come first if and only if each of them is below the largest double, or equal to it and of smaller rank than every unevaluated member. |
| Surrogate.MarkedPopulation | libcmaes/src/surrogatestrategy.cc:370-388 | Exactly the drawn ranks carry true values, all others the largest double. |
| Surrogate.Sort | libcmaes/src/surrogatestrategy.cc:361-362 | A sorted permutation; the order of ties is left open. |
| Surrogate.AcmSurrogate.AddToTrainingSet | libcmaes/src/surrogatestrategy.cc:70-75 | The training set is the last l of everything added. |
| Surrogate.AcmSurrogate.SelectPopulation | libcmaes/src/surrogatestrategy.cc:337-357 | Exactly the pool members that the draws take, in that order, the predicted best first, with their predictions. |
| Surrogate.AcmSurrogate.EvaluateSome | libcmaes/src/surrogatestrategy.cc:363-385 | Exactly the members at the drawn places of the predicted order are evaluated, counted and added to the training set, starting with the predicted best. |
| Surrogate.AcmSurrogate.Arrange | libcmaes/src/surrogatestrategy.cc:386-397 | Marking and sorting keep the members, and put the evaluated ones first exactly in that case. |
| CsvStore.LineReadBack | shared/csv_reader.cpp:60-99 | An encodable entry's line is parsed to that entry. |
| CsvStore.ChunkIsLine | shared/csv_reader.cpp:58-99 | One buffered read takes exactly one written line, also when the buffer is full. |
| CsvStore.PairIsEncodable | shared/csv_reader.cpp:59-77 | Whatever line is read, the entry it yields is encodable. |
| CsvStore.ReadUpToMalformed | shared/csv_reader.cpp:59-74 | Lines before a malformed one are read, and no line after it, whatever follows. |
| CsvStore.MalformedIff | shared/csv_reader.cpp:68-74 | A line that is no comment is malformed if and only if it holds no comma. |
| CsvStore.OpenedIsEncodable | shared/csv_reader.cpp:50-81 | Every map obtained by opening any file is encodable. |
| CsvStore.CarriageReturnLost | shared/csv_reader.cpp:111-123 | A concrete value that does not survive: it ends in a carriage return. |
| CsvStore.LostOnClose | shared/csv_reader.cpp:84-108 | For every non-empty map: a save whose closing loses all but the header counts as success, and the file opens as the empty map. |
| CsvStore.CsvReader.constructor | shared/csv_reader.cpp:19-21 | A missing file gives an empty map; otherwise the map is what parsing yields, encodable, unless an empty line throws. |
| CsvStore.CsvReader.StripStringEndingCrLf | shared/csv_reader.cpp:111-123 | The string without the line ends at its end, and its size. |
| CsvStore.CsvReader.ParseCsvFile | shared/csv_reader.cpp:50-81 | The loop's result and map are those of the specified parse, including the malformed and the throwing line. |
| CsvStore.CsvReader.ParseCsvLine | shared/csv_reader.cpp:60-76 | One line as comment, malformed, throwing, or entry. |
| CsvStore.CsvReader.WriteOutHashToFile | shared/csv_reader.cpp:84-108 | Success if and only if the file opens and every write delivers something: the file then holds a prefix of the delivered parts of header and lines. A disk that takes and keeps everything loses nothing, and then opening the file gives the map if and only if all its entries are encodable. |
| CsvStore.CsvReader.AddKeyValuePair | shared/csv_reader.hpp:64-68 | Sets the key; a save that loses nothing persists it exactly when everything is encodable, any other leaves the old file or parts of the new text. |
| CsvStore.CsvReader.RemoveKey | shared/csv_reader.hpp:69-77 | Removes the key and saves in the same way; an unknown key changes nothing. |

## Left out

- Rounding, NaN, infinities and signed zero: doubles are reals. Where the code relies on an infinite quotient (a negative part of zero in the active update, a zero diagonal of the difference matrix) the model takes the same branch explicitly.
- Integer overflow of budgets, counters and of the `static_cast<int>` in the shift of the bounds.
- Eigen's solver: the inverse square root and the largest eigenvalue are parameters with their defining laws, and the full active update is stated for the inverse root of the current covariance. Lazy updates keep an older root; then only the exact new state is stated, not its positivity.
- RankingSvm.RankingSVM.Train: the encoding of points by the inverse covariance (off by default), the choice of the RBF kernel's bandwidth, and the polynomial kernel; kernels are symmetric functions, and the dual is said not to fall when the diagonal of the difference matrix is non-negative.
- RankingSvm.RankingSVM.Error: the division of zero by zero for fewer than two references is reported as no value.
- VdUpdate.Update: asks for a non-zero v and non-zero scales, because the code divides by both; the next scale is zero exactly at svec_i = -1 (`NextScaleSign`), and no condition for the next v is given.
- VdUpdate.MovePaths: asks for non-zero scales, because the code divides by them.
- VdAscent.StationaryStep: asks for c1 = 0 or hsig false; otherwise the path moves D and v as well.
- VdUpdate.Step: asks for a non-zero v and non-zero scales, because the code divides by both.
- VdUpdate.Ask: asks for a non-zero v, because the code divides by its norm.
- Solutions.CmaSolutions.constructor: the random initial mean and direction, fixed parameters, the sizes of the histories and the failed allocation.
- Covariance.Update: asks for positive separable variances, because the code divides by them; they stay positive while a share is kept (`NextSepCovPositive`), so only c1 + cmu = 1 can lead to a zero.
- Covariance.UpdateCov: asks for positive separable variances, as its caller does.
- ActiveCovariance.Update: asks for positive separable variances, because the code divides by them; when they stay positive is the subject of `SafeForAllSamplesIff`.
- ActiveCovariance.UpdateCov: asks for positive separable variances, as its caller does.
- ActiveGuard.UnclampedGuardFails: the effective number is given, not a population that has it; which populations miss the condition is the subject of `PopulationGuard`.
- GenoPheno.Transform.FromScaling: asks for positive scaling entries and for bounds, because only then is the scaled box the image of the user's box; a negative entry swaps its ends.
- GenoPheno.Transform.RoundTrip: with user functions, these are asked to be inverse to each other; the specialisations without bounds.
- Restarts.RestartStrategy.Stop: a custom progress function and a failed allocation, which may end a run before its first iteration, and switching criteria off; the automatic threshold is taken to be active, as it is by default.
- Restarts.RestartStrategy.Optimize: asking, evaluating and telling are one given best value per generation, and the criteria other than budget and threshold may stop at any iteration; the elitist second run on restart, and the uncertainty handling, which changes the evaluations per iteration.
- Restarts.RestartStrategy.R2: the re-derived weights and rates of the new population, which are in `Parameters.dfy`, and the fresh mean and covariance, which are in `Solutions.dfy`.
- Restarts.RestartStrategy.constructor: the second BIPOP constructor, which does not set the saved step size and budget.
- Elitism.EsoStrategy.Eval: the re-ranking of the uncertainty handling, whose comparator is not an ordering.
- Elitism.EsoStrategy.Tell: the covariance update, which is in `Covariance.dfy` and its siblings, and the two-point adaptation.
- Surrogate.AcmSurrogate.PreSelectionEval: the surrogate's own prediction (a parameter here) and the test error; whether draws suffice is a condition, since no finite number of draws is certain to.
- CsvStore.CsvReader.WriteOutHashToFile: the locks of the store; what the disk takes and keeps is a parameter.
- Gradient injection, two-point step-size sampling (its value is an input), progress functions, plotting, logging, OpenMP, random generators.
- Error covariance estimates and profile likelihood in `errstats.cc`, and `remove_dimensions`.
- Sensors, relays, serial ports and the control programs: device plumbing.
