# Time-varying graphical models and overlapping group lasso, modelled in Dafny

This project models the solver cores of four Python modules of the regain
repository and proves what they compute:

- `time_graph_lasso` (forward-backward solver for the time-varying graphical
  lasso): the backtracking searches `choose_gamma` and `choose_lamda`, the
  relaxed update, the inverses `x_inv` from `eigh` that the gradient uses
  (module `Spectral`), `upper_diag_3d`, the convergence record, the
  relative-residual stopping test and the return list (module
  `ForwardBackward`, with the search loop shared in `Backtracking`).
- `_fit_time_ising_model` (ADMM for the temporal Ising model): the lag
  dictionaries `Z_M`, `U_M`, `Z_M_old`, the target of the K update, the
  per-lag consensus update, the residuals, the two stopping tests and the
  rescaling of the duals after `update_rho` (modules `TimeIsing` and
  `LagConsensus`).
- `kernel_latent_time_graph_lasso` (ADMM with latent variables): the
  initialisation, the R, Z_0, X_0 and W_0 updates, both lag families, the
  objective, and what the function actually returns or raises (module
  `LatentTimeGraphLasso`, sharing `LagConsensus`).
- `group_lasso_overlap` (ADMM for the least-squares group lasso with
  overlapping groups): `D_function`, `P_star_x_bar_function`, `prox`,
  `soft_thresholding`, `objective`, the x, z and dual updates, the
  diagnostics record and the consecutive-satisfied stopping counter (module
  `GroupLassoOverlap`).

Arrays are nested sequences of `real` (`Tensor`): vectors, matrices and
stacks of matrices (one slice per time point). Element-wise operations are
total. The result takes the first operand's shape, and a missing entry of the
second operand reads as 0. Every numerical kernel the solvers call is a
function-typed parameter with no assumed properties beyond the ones stated
where a proof needs them. These kernels are:

- log-likelihoods and their gradients given the inverses, `prox_FL`, `prox_logdet`,
  `prox_trace_indicator`, `prox_psi`;
- `eigh`, the least eigenvalue, `pinvh`, the matrix inverse, `_fit`, `update_rho`, norms and
  square roots.

Python exceptions are `Failure` values of an `Outcomes.Result`.

Loops that the Python code runs step by step are Dafny methods with `while`/`for` loops. Each method is proved equal to a specification function, and the properties are proved about those functions:

- the searches;
- the solver loops;
- the lag loops;
- `D_function` and `P_star_x_bar_function`, which fill arrays;
- the x and dual update loops.

Single-expression helpers are functions.

## Model

| member | source | states |
|---|---|---|
| Backtracking.Search | regain/forward_backward/time_graph_lasso_.py:89-100 | the loop (test, return the first accepted value, otherwise multiply by eps) computes the recursive search Backtrack |
| Backtracking.StopsAtFirstAccepted | regain/forward_backward/time_graph_lasso_.py:138-166 | if rounds 0..k-1 are rejected and round k < max_iter accepts, the search returns start * eps^k after k + 1 rounds |
| Backtracking.RaisesAtFirstError | regain/forward_backward/time_graph_lasso_.py:163-164 | a test that raises in round k after k rejections makes the whole search raise that error |
| Backtracking.ExhaustsWhenAllRejected | regain/forward_backward/time_graph_lasso_.py:89-100 | when every round is rejected, the search runs all n rounds and returns start * eps^n |
| Backtracking.RoundsInRange | regain/forward_backward/time_graph_lasso_.py:138-166 | a successful search runs between 1 and max_iter rounds (none when max_iter is 0) |
| Backtracking.StaysInRange | regain/forward_backward/time_graph_lasso_.py:89-100 | with start > 0, 0 < eps <= 1 and a test that never raises on positive values, the search succeeds with a value in (0, start] |
| Backtracking.StaysPositive | regain/forward_backward/time_graph_lasso_.py:89-100 | with start > 0 and eps > 0, the value returned is positive |
| Backtracking.FailsOnlyByTest | regain/forward_backward/time_graph_lasso_.py:138-166 | every error the search raises was raised by the test on some value |
| Backtracking.SkipRejected | regain/forward_backward/time_graph_lasso_.py:89-99 | resuming the search at any round between two rejected ones gives the same outcome |
| Backtracking.StartAfterRejected | regain/forward_backward/time_graph_lasso_.py:89-99 | after k rejected rounds the search is the search resumed at round k from start * eps^k |
| ForwardBackward.ScalarProductProperties | regain/forward_backward/time_graph_lasso_.py:70-71 | `_scalar_product` is symmetric on equally shaped stacks and non-negative on (x, x) |
| ForwardBackward.ChooseGamma | regain/forward_backward/time_graph_lasso_.py:74-100 | choose_gamma computes GammaSearch: backtracking on the majorisation test, with delta / gamma raising on a zero step |
| ForwardBackward.GammaFirstAccepted | regain/forward_backward/time_graph_lasso_.py:89-99 | choose_gamma returns gamma0 * eps^n for the first round n < max_iter whose step passes the test |
| ForwardBackward.GammaNoneAccepted | regain/forward_backward/time_graph_lasso_.py:89-100 | if no round accepts and no step is zero, choose_gamma returns gamma0 * eps^max_iter |
| ForwardBackward.GammaReachesZero | regain/forward_backward/time_graph_lasso_.py:96 | a zero step reached before any acceptance raises ZeroDivisionError |
| ForwardBackward.GammaBounds | regain/forward_backward/time_graph_lasso_.py:74-100 | with gamma0 > 0 and 0 < eps <= 1, choose_gamma never raises and returns a step in (0, gamma0] |
| ForwardBackward.GammaPositive | regain/forward_backward/time_graph_lasso_.py:74-100 | with gamma0 > 0 and eps > 0, choose_gamma never raises and returns a positive step |
| ForwardBackward.GammaErrors | regain/forward_backward/time_graph_lasso_.py:74-100 | the only error choose_gamma raises is the division by a zero step |
| ForwardBackward.ChooseLamda | regain/forward_backward/time_graph_lasso_.py:103-166 | choose_lamda computes LamdaSearch: tolerance before the loop, criterion a/b/c per round, result (lamda, i + 1), and unbound `i` when max_iter is 0 |
| ForwardBackward.LamdaRounds | regain/forward_backward/time_graph_lasso_.py:138-166 | a successful choose_lamda reports between 1 and max_iter rounds |
| ForwardBackward.LamdaFirstAccepted | regain/forward_backward/time_graph_lasso_.py:138-166 | if round n is the first accepted one, choose_lamda returns (lamda0 * eps^n, n + 1) |
| ForwardBackward.LamdaNoneAccepted | regain/forward_backward/time_graph_lasso_.py:138-166 | if no round accepts, choose_lamda returns (lamda0 * eps^max_iter, max_iter) |
| ForwardBackward.LamdaBadCriterion | regain/forward_backward/time_graph_lasso_.py:163-164 | a criterion other than 'a', 'b', 'c' raises ValueError in the first round |
| ForwardBackward.LamdaErrors | regain/forward_backward/time_graph_lasso_.py:103-166 | choose_lamda raises only ZeroDivisionError, ValueError(criterion) or the unbound loop index |
| ForwardBackward.TriuEntries | regain/forward_backward/time_graph_lasso_.py:174-179 | upper_diag_3d keeps the shape, keeps the entries above the diagonal and zeroes the rest |
| ForwardBackward.TriuIdempotent | regain/forward_backward/time_graph_lasso_.py:174-179 | upper_diag_3d applied twice is upper_diag_3d |
| ForwardBackward.TriuSub | regain/forward_backward/time_graph_lasso_.py:298 | upper_diag_3d(K) - upper_diag_3d(K_prev) is upper_diag_3d(K - K_prev) |
| ForwardBackward.ShrinkEntries | regain/forward_backward/time_graph_lasso_.py:231-236 | covariance_ keeps the shape and the diagonal, scales the off-diagonal entries by 0.95 and keeps symmetry |
| ForwardBackward.InitialPrecision | regain/forward_backward/time_graph_lasso_.py:234-237 | the loop sets K[i] to pinvh of the damped covariance slice i, for every slice |
| ForwardBackward.RelaxNonPositive | regain/forward_backward/time_graph_lasso_.py:293 | with lamda <= 0 the update K + max(lamda, 0) (y - K) leaves K unchanged |
| ForwardBackward.RelaxOne | regain/forward_backward/time_graph_lasso_.py:293 | with lamda = 1 the update moves K to y |
| ForwardBackward.RunningMax | regain/forward_backward/time_graph_lasso_.py:328 | max(max_residual, res_norm), starting from -inf, is at least both and equals one of them |
| ForwardBackward.StopNeedsProgress | regain/forward_backward/time_graph_lasso_.py:335-337 | the loop never stops in iteration 0 or with debug set |
| ForwardBackward.NextGammaPositive | regain/forward_backward/time_graph_lasso_.py:268-274 | with gamma > 0 and eps > 0, the step chosen for an iteration is positive and never an error |
| ForwardBackward.StepKeepsGammaPositive | regain/forward_backward/time_graph_lasso_.py:268-293 | with gamma > 0 and eps > 0, the next state's gamma stays positive |
| ForwardBackward.StepErrors | regain/forward_backward/time_graph_lasso_.py:250-337 | an iteration raises only ZeroDivisionError, ValueError(criterion) or an unbound name; never the ValueError for `choose` |
| ForwardBackward.StepNeverRaisesBadChoose | regain/forward_backward/time_graph_lasso_.py:250-337 | the loop body never raises the ValueError for `choose` (it is raised before the loop) |
| ForwardBackward.StepGrowsHistory | regain/forward_backward/time_graph_lasso_.py:295-311 | for every state, an iteration that does not halt appends exactly the convergence record of its new K against k_previous when return_history is set, and leaves the history unchanged otherwise |
| ForwardBackward.RunNeverRaises | regain/forward_backward/time_graph_lasso_.py:250-343 | an error no iteration raises is never raised by the loop |
| ForwardBackward.RunIterations | regain/forward_backward/time_graph_lasso_.py:250-343 | the loop from iteration i ends between i and max_iter, after i when any iteration remains |
| ForwardBackward.StepHistory | regain/forward_backward/time_graph_lasso_.py:295-311 | with return_history an iteration that does not halt appends exactly convergence(new K, k_previous) to the history; without it the history is unchanged |
| ForwardBackward.RunHistory | regain/forward_backward/time_graph_lasso_.py:250-343 | the loop keeps the starting checks as a prefix and adds at most one check per iteration, none without return_history |
| ForwardBackward.ChooseValidatedFirst | regain/forward_backward/time_graph_lasso_.py:225-228 | time_graph_lasso raises the ValueError for `choose` exactly when `choose` is not one of the four options |
| ForwardBackward.IterationCount | regain/forward_backward/time_graph_lasso_.py:351-352 | the returned n_iter (iteration_ + 1) lies between 1 and max_iter |
| ForwardBackward.HistoryLength | regain/forward_backward/time_graph_lasso_.py:349-350 | the returned history holds at most max_iter checks |
| ForwardBackward.AsWrittenRaisesWithoutLamda | regain/forward_backward/time_graph_lasso_.py:291 | as written, with choose 'gamma' or 'fixed', gamma > 0, eps > 0 and a positive-definite start, time_graph_lasso raises on the unbound n_ls |
| ForwardBackward.AsWrittenStepRaises | regain/forward_backward/time_graph_lasso_.py:281-291 | as written, an iteration without choose_lamda that reaches the print raises |
| ForwardBackward.AsWrittenAgreesWithLamda | regain/forward_backward/time_graph_lasso_.py:281-291 | with choose 'lamda' or 'both', the program as written and the corrected one give the same result |
| ForwardBackward.CorrectedRunsWithoutLamda | regain/forward_backward/time_graph_lasso_.py:250-355 | without the stray print, choose 'gamma'/'fixed' with gamma > 0 and eps > 0 always returns |
| ForwardBackward.StepWithoutLamda | regain/forward_backward/time_graph_lasso_.py:250-337 | without the stray print, choose 'gamma'/'fixed' iterations succeed from any state with positive gamma and eps |
| ForwardBackward.Iterate | regain/forward_backward/time_graph_lasso_.py:251-337 | the loop body computes Step: halt when K is not positive definite, x_inv and the gradient, searches, update, stopping test |
| Spectral.Reciprocals | regain/forward_backward/time_graph_lasso_.py:261 | `1. / es` has one entry per eigenvalue, and each entry times its non-zero eigenvalue is 1 |
| Spectral.SpectralInverseInverts | regain/forward_backward/time_graph_lasso_.py:256-262 | for orthogonal eigenvectors Q and non-zero eigenvalues es, Q diag(1 / es) Q^T times Q diag(es) Q^T (the matrix eigh decomposed) is the identity: it is the inverse that pinvh on line 256 gives |
| Spectral.LineInverseIsNotInverse | regain/forward_backward/time_graph_lasso_.py:260-261 | on a 2 x 2 rotation Q with es = (1, 2), Q^T diag(1 / es) Q has the opposite sign off the diagonal from the inverse, and its product with the matrix is not the identity |
| ForwardBackward.InvertSlices | regain/forward_backward/time_graph_lasso_.py:258-265 | the loop over the slices of K collects x_inv, slice t being Q diag(1 / es) Q^T of eigh(K[t]) |
| ForwardBackward.InversesInvert | regain/forward_backward/time_graph_lasso_.py:258-266 | when eigh diagonalises every slice of K with non-zero eigenvalues, each slice of x_inv times K's slice is the identity |
| ForwardBackward.LineInversesAreNotInverses | regain/forward_backward/time_graph_lasso_.py:258-266 | as written, the x_inv slice of a diagonalised slice is not its inverse |
| ForwardBackward.Drive | regain/forward_backward/time_graph_lasso_.py:250-355 | the loop and the return list compute Run followed by Finish |
| ForwardBackward.TimeGraphLasso | regain/forward_backward/time_graph_lasso_.py:182-355 | time_graph_lasso computes TimeGraphLassoSpec (validation, damped pseudo-inverse start, loop, return list) |
| LagConsensus.InitLagState | regain/generalized_linear_model/time.py:111-123 | the lag loop gives every lag m copies K[:-m], K[m:], zero duals and a zero snapshot |
| LagConsensus.InitialLagsShaped | regain/generalized_linear_model/time.py:111-123 | the initial copies and duals of lag m are shaped like K[:-m] and K[m:] |
| LagConsensus.Gather | regain/generalized_linear_model/time.py:132-135 | the aggregation loop adds lag m's Z - U at [:-m] and [m:] in lag order; slice t is Gathered(t) |
| LagConsensus.ParticipationsAll | regain/generalized_linear_model/time.py:132-135 | every slice takes part in exactly T - 1 lag terms |
| LagConsensus.GatherUpToSlices | regain/generalized_linear_model/time.py:132-135 | after the lags 1..k, slice t holds the base plus lag terms of exactly the lags in which t takes part |
| LagConsensus.GatherAtConsensus | regain/generalized_linear_model/time.py:132-135 | right after initialisation, the aggregation hands every slice exactly T - 1 copies of itself |
| LagConsensus.SplitKeepsSumAndDifference | regain/generalized_linear_model/time.py:158-159 | the split keeps Z_L + Z_R = A_L + A_R and makes Z_R - Z_L the proximal point |
| LagConsensus.SplitLeftEntry | regain/generalized_linear_model/time.py:158 | Z_L = (A_L + A_R - E) / 2 entry by entry |
| LagConsensus.SplitRightEntry | regain/generalized_linear_model/time.py:159 | Z_R = (A_L + A_R + E) / 2 entry by entry |
| LagConsensus.LagStepConsensus | regain/generalized_linear_model/time.py:152-159 | outside the node penalty, lag m's new copies keep the sum A_L + A_R and have difference prox_psi(A_R - A_L) |
| LagConsensus.DualMovesByGap | regain/generalized_linear_model/time.py:168-169 | each dual of lag m moves by exactly its gap, K[:-m] - Z_L or K[m:] - Z_R |
| LagConsensus.LagStepShaped | regain/generalized_linear_model/time.py:150-169 | lag m's new copies and duals are shaped like K[:-m] and K[m:] |
| LagConsensus.ForEachLag | regain/generalized_linear_model/time.py:150 | the loop over range(1, T) replaces every lag's variables and no others |
| LagConsensus.ConsensusUpdate | regain/generalized_linear_model/time.py:150-169 | the consensus loop replaces lag m's variables by LagStep computed from lag m's own duals, for every lag |
| LagConsensus.ConsensusShaped | regain/generalized_linear_model/time.py:150-169 | the consensus update keeps every lag shaped like K[:-m] and K[m:] |
| LagConsensus.ConsensusGapsAreDualMoves | regain/generalized_linear_model/time.py:150-169 | after the consensus update, the gaps equal the dual moves, lag by lag |
| LagConsensus.PrimalResidualIsDualMove | regain/generalized_linear_model/time.py:172-174 | the summed square gaps (the square of rnorm) equal the summed square dual moves |
| LagConsensus.RescaleDuals | regain/generalized_linear_model/time.py:218-221 | the loop multiplies every lag's duals by c and keeps the copies |
| LagConsensus.RescaledKeepsUnscaledDuals | regain/generalized_linear_model/time.py:213-222 | scaling by rho / rho' keeps the unscaled duals: rho' U' = rho U |
| LagConsensus.RescaleKeepsUnscaledDual | regain/generalized_linear_model/time.py:220-221 | one dual scaled by rho / rho' and then by rho' is the dual scaled by rho |
| LagConsensus.LagPenaltyAtConsensus | regain/generalized_linear_model/time.py:44-47 | when every copy equals the slices it stands for, the penalty over the copies is objective_kernel's penalty on K |
| LagConsensus.IdentityKernelUncoupled | regain/generalized_linear_model/time.py:102-103 | with the identity kernel, the temporal penalty vanishes |
| LagConsensus.KernelDefault | regain/generalized_linear_model/time.py:102-103 | a given kernel is used as is; a missing one is the T x T identity, which couples no two time points |
| LagConsensus.Superdiag | regain/generalized_linear_model/time.py:152 | the lag-m weights kernel.diagonal(m) have T - m entries (none when m > T) |
| TimeIsing.StartValid | regain/generalized_linear_model/time.py:105-123 | the zero start with its lag dictionaries satisfies the solver invariant |
| TimeIsing.TargetSymmetric | regain/generalized_linear_model/time.py:132-139 | every slice of the K-update target A is symmetric |
| TimeIsing.BuildTarget | regain/generalized_linear_model/time.py:132-139 | the loop computes the target: lag shares gathered onto zeros, divided by T, symmetrised |
| TimeIsing.FitSlices | regain/generalized_linear_model/time.py:140-147 | K_new[t] = _fit(X[t], A[t], rho) for every slice |
| TimeIsing.AdvanceValid | regain/generalized_linear_model/time.py:130-198 | an iteration keeps K a stack of p x p slices and every lag shaped like K[:-m] and K[m:] |
| TimeIsing.ResidualIsDualMove | regain/generalized_linear_model/time.py:172-174 | the recorded rnorm is the norm of the dual moves of the iteration |
| TimeIsing.RescaleKeepsDuals | regain/generalized_linear_model/time.py:213-222 | rescaling after update_rho keeps the copies and every lag's unscaled dual rho U |
| TimeIsing.RescaleValid | regain/generalized_linear_model/time.py:213-222 | rescaling with a positive rho' keeps the solver invariant |
| TimeIsing.Iterate | regain/generalized_linear_model/time.py:130-198 | the loop body up to the tests computes Advance and keeps the invariant |
| TimeIsing.Round | regain/generalized_linear_model/time.py:212-222 | after a pass that did not break, rho becomes update_rho(rho, rnorm, snorm, iteration_) and every dual is rescaled by rho / rho', keeping the solver invariant |
| TimeIsing.Drive | regain/generalized_linear_model/time.py:129-231 | the loop with its two breaks and the return list computes Loop |
| TimeIsing.LoopHistory | regain/generalized_linear_model/time.py:205-211 | one check per executed iteration; no check but the last passes a stopping test; the last passes one whenever the loop ended before max_iter; failure only for an unbound count |
| TimeIsing.SolveHistory | regain/generalized_linear_model/time.py:125-231 | the solver fails exactly when max_iter = 0 and n_iter is asked for; the history is the initial objective then n checks, 0 <= n <= max_iter and n >= 1 when max_iter > 0, with n_iter = n; no check before the last passes a stopping test, and the last passes one when n < max_iter |
| TimeIsing.FitTimeIsing | regain/generalized_linear_model/time.py:52-231 | _fit_time_ising_model computes Solve |
| LatentTimeGraphLasso.ResolveDefaults | regainpr/covariance/kernel_latent_time_graph_lasso_.py:90-132 | given kernels and counts are kept; a missing kernel gives a zero temporal penalty, missing counts are T ones; the sweep's divisions are defined exactly when rho != 0, T > 0 and the counts fit T |
| LatentTimeGraphLasso.StartIsZero | regainpr/covariance/kernel_latent_time_graph_lasso_.py:95-129 | Z_0, W_0, X_0 and R start as zero stacks of emp_cov's shape; every lag's copies, duals and snapshots are zero stacks of T - m slices |
| LatentTimeGraphLasso.Initialise | regainpr/covariance/kernel_latent_time_graph_lasso_.py:95-129 | the initialisation loop computes Start |
| LatentTimeGraphLasso.CoefficientAt | regainpr/covariance/kernel_latent_time_graph_lasso_.py:140 | the R-update coefficient of slice t is -rho / n_samples[t] |
| LatentTimeGraphLasso.RTargetSymmetric | regainpr/covariance/kernel_latent_time_graph_lasso_.py:137-141 | the R target is emp_cov + k[t] (D + D^T)[t] / 2 entry by entry, and symmetric wherever emp_cov is |
| LatentTimeGraphLasso.RTargetEntry | regainpr/covariance/kernel_latent_time_graph_lasso_.py:137-141 | each R-target entry is emp_cov plus k[t] times the mean of D and its transpose at that entry |
| LatentTimeGraphLasso.ApplyEachBy | regainpr/covariance/kernel_latent_time_graph_lasso_.py:144-145 | the list comprehension applies prox_logdet to each slice with its own parameter |
| LatentTimeGraphLasso.NewRStack | regainpr/covariance/kernel_latent_time_graph_lasso_.py:144-145 | R is a stack of T slices of p x p |
| LatentTimeGraphLasso.ZTargetSlices | regainpr/covariance/kernel_latent_time_graph_lasso_.py:148-153 | slice t of the Z_0 target is the lag shares gathered onto (R + W_0 + X_0)[t], over T |
| LatentTimeGraphLasso.NewZ0Shape | regainpr/covariance/kernel_latent_time_graph_lasso_.py:156 | Z_0 has the shape of its target |
| LatentTimeGraphLasso.NewZ0Stack | regainpr/covariance/kernel_latent_time_graph_lasso_.py:156 | given a stack target, Z_0 is a stack of T slices of p x p |
| LatentTimeGraphLasso.DualMove | regainpr/covariance/kernel_latent_time_graph_lasso_.py:159 | X_0 moves by exactly R - Z_0 + W_0 |
| LatentTimeGraphLasso.AsWrittenFailsOnlyFromLagTwo | regainpr/covariance/kernel_latent_time_graph_lasso_.py:162-181 | the lag loop as written fails only with a shape mismatch, never at lag 1, and stays failed |
| LatentTimeGraphLasso.AsWrittenRaisesFromThreeTimePoints | regainpr/covariance/kernel_latent_time_graph_lasso_.py:164-165 | with three or more time points the lag loop as written raises; with one or two it is the consensus update |
| LatentTimeGraphLasso.LagLoopAsWritten | regainpr/covariance/kernel_latent_time_graph_lasso_.py:162-181 | the loop as written computes ConsensusAsWritten |
| LatentTimeGraphLasso.AsWrittenStaysFailed | regainpr/covariance/kernel_latent_time_graph_lasso_.py:162-181 | once the lag loop as written has raised at some lag, later lags do not change the outcome |
| LatentTimeGraphLasso.LagsMoveByGaps | regainpr/covariance/kernel_latent_time_graph_lasso_.py:162-181 | the corrected lag update moves every dual by its new gap Z_0[:-m] - Z_L, Z_0[m:] - Z_R |
| LatentTimeGraphLasso.WTargetSymmetric | regainpr/covariance/kernel_latent_time_graph_lasso_.py:184-191 | slice t of the W_0 target is the lag shares over T, symmetrised; every slice is symmetric |
| LatentTimeGraphLasso.ApplyEach | regainpr/covariance/kernel_latent_time_graph_lasso_.py:193-194 | the list comprehension returns f of every slice, in order (prox_trace_indicator here, pinvh of Z_0 at line 274) |
| LatentTimeGraphLasso.NewW0Stack | regainpr/covariance/kernel_latent_time_graph_lasso_.py:193-194 | W_0 is a stack of T slices of p x p |
| LatentTimeGraphLasso.AdvanceValid | regainpr/covariance/kernel_latent_time_graph_lasso_.py:136-214 | a sweep keeps every stack T slices of p x p and both lag families shaped after Z_0 and W_0 |
| LatentTimeGraphLasso.AdvanceLagsMoveByGaps | regainpr/covariance/kernel_latent_time_graph_lasso_.py:162-214 | after a sweep, both lag families' duals moved by exactly the new gaps |
| LatentTimeGraphLasso.Sweep | regainpr/covariance/kernel_latent_time_graph_lasso_.py:136-214 | the corrected loop body computes Advance and keeps the invariant |
| LatentTimeGraphLasso.FirstSweepAsWritten | regainpr/covariance/kernel_latent_time_graph_lasso_.py:136-214 | the first pass as written is the sweep for one or two time points, and raises for three or more |
| LatentTimeGraphLasso.FirstPass | regainpr/covariance/kernel_latent_time_graph_lasso_.py:136-214 | the first pass as written computes FirstSweep |
| LatentTimeGraphLasso.ObjectiveUncoupled | regainpr/covariance/kernel_latent_time_graph_lasso_.py:26-39 | with the identity phi kernel, the objective is the precision objective plus tau times the nuclear norms |
| LatentTimeGraphLasso.ObjectiveAtConsensus | regainpr/covariance/kernel_latent_time_graph_lasso_.py:33-37 | once every W lag agrees with W_0, the lag part is phi's kernel penalty of W_0 itself |
| LatentTimeGraphLasso.ObjectiveNuclearNonneg | regainpr/covariance/kernel_latent_time_graph_lasso_.py:31 | with tau >= 0 and a non-negative nuclear norm, the nuclear term adds nothing negative |
| LatentTimeGraphLasso.SliceSumNonneg | regainpr/covariance/kernel_latent_time_graph_lasso_.py:31 | a sum over slices of a non-negative norm is non-negative |
| LatentTimeGraphLasso.NoIterationCompletes | regainpr/covariance/kernel_latent_time_graph_lasso_.py:135-280 | max_iter = 0 returns zero stacks and their pseudo-inverses, or raises on the unbound count; with max_iter > 0 it always raises: a shape mismatch for three or more time points, the NameError of the diagnostics for one or two, and a shape mismatch or division by zero for none |
| LatentTimeGraphLasso.KernelLatentTimeGraphLasso | regainpr/covariance/kernel_latent_time_graph_lasso_.py:42-280 | kernel_latent_time_graph_lasso computes Outcome |
| GroupLassoOverlap.DFunction | rgi/admm_group_lasso_overlap.py:5-12 | the nested loops fill D with d entries; entry j is the number of groups that contain j |
| GroupLassoOverlap.CoverageCountsContaining | rgi/admm_group_lasso_overlap.py:9-11 | the count is the size of the set of groups containing j |
| GroupLassoOverlap.CoverageZero | rgi/admm_group_lasso_overlap.py:5-12 | D[j] is 0 exactly when no group contains j |
| GroupLassoOverlap.FirstIndex | rgi/admm_group_lasso_overlap.py:78 | argwhere(group == j)[0] is the first position of j in the group |
| GroupLassoOverlap.PStarXBar | rgi/admm_group_lasso_overlap.py:71-84 | entry j is the mean, over the groups containing j, of x[g] at j's first position (the running sum when no group does) |
| GroupLassoOverlap.MeanUncovered | rgi/admm_group_lasso_overlap.py:81-83 | a coordinate no group covers gets 0 |
| GroupLassoOverlap.MeanOfAgreeing | rgi/admm_group_lasso_overlap.py:71-84 | when every local copy equals z[g], P* x is z on every covered coordinate (the consensus undoes the gather) |
| GroupLassoOverlap.Prox | rgi/admm_group_lasso_overlap.py:167-168 | for kappa >= 0: 0 on [-kappa, kappa], x - kappa above, x + kappa below; the identity at kappa = 0 |
| GroupLassoOverlap.ProxEntrywise | rgi/admm_group_lasso_overlap.py:167-168 | on arrays prox acts entry by entry and keeps the length |
| GroupLassoOverlap.SoftThresholding | rgi/admm_group_lasso_overlap.py:162-164 | the zero vector of len(z) when norm(z) <= lamda, else z[i] - lamda / norm(z) * z[i] for every i |
| GroupLassoOverlap.SoftThresholdingShrinks | rgi/admm_group_lasso_overlap.py:162-164 | for lamda >= 0 every entry keeps its sign and does not grow in magnitude |
| GroupLassoOverlap.Objective | rgi/admm_group_lasso_overlap.py:171-173 | with lamda >= 0 and a non-negative norm, the objective is at least the data fit |
| GroupLassoOverlap.ZerosPerGroup | rgi/admm_group_lasso_overlap.py:19-21 | the initial local copies and duals have their groups' lengths |
| GroupLassoOverlap.UpdateLocals | rgi/admm_group_lasso_overlap.py:30-31 | the x loop replaces each x[i] by soft_thresholding(x[i] - y[i] / rho, lamda / rho) |
| GroupLassoOverlap.UpdateDuals | rgi/admm_group_lasso_overlap.py:39-40 | the dual loop replaces each y[i] by y[i] + rho (x[i] - z[g_i]) |
| GroupLassoOverlap.DualStepFixed | rgi/admm_group_lasso_overlap.py:40 | with rho != 0, the dual step of a group leaves y[i] unchanged exactly when x[i] == z[g_i] |
| GroupLassoOverlap.DualsFixed | rgi/admm_group_lasso_overlap.py:39-40 | the dual update is a fixed point exactly when every local copy agrees with z |
| GroupLassoOverlap.NextConforms | rgi/admm_group_lasso_overlap.py:29-40 | an iteration keeps every local copy and dual at its group's length |
| GroupLassoOverlap.Run | rgi/admm_group_lasso_overlap.py:28-58 | k iterations append exactly k history tuples |
| GroupLassoOverlap.Iterate | rgi/admm_group_lasso_overlap.py:29-52 | the loop body computes Next (x update, consensus, z update, dual update, history tuple) |
| GroupLassoOverlap.TrailingSatisfiedRun | rgi/admm_group_lasso_overlap.py:59-65 | the last count tuples are satisfied and the one before them is not |
| GroupLassoOverlap.TrailingSatisfied | rgi/admm_group_lasso_overlap.py:59-65 | the count of consecutive satisfied iterations never exceeds the history length |
| GroupLassoOverlap.PrefixesExtend | rgi/admm_group_lasso_overlap.py:59-65 | if no prefix reached 12 and the extended history is below 12, no prefix of the extended history reached 12 |
| GroupLassoOverlap.GroupLassoOverlap | rgi/admm_group_lasso_overlap.py:15-67 | at most max_iter tuples, one per iteration; z and hist are those of Run; the loop stops early exactly on the 12th consecutive satisfied iteration, and no earlier prefix has 12 |

## Left out

- Floating point. Every float is a `real`. Rounding is not modelled, and neither are overflow or NaN/inf propagation inside the kernels. Two exceptions: the float comparisons with a quotient that may divide by zero (`AtMostQuotient`, `QuotientAtMost`, `BelowQuotient`, `CloseToTarget`) are modelled with their inf/NaN outcomes.
- Numerical kernels are parameters and are never executed. The list:
  - `logl`, and the gradient of the likelihood given `x_inv` (`n_samples[t] * (emp_cov[t] - x_inv[t])`);
  - `l1_od_norm`, `vector_p_norm`;
  - `prox_FL`, `prox_psi`/`check_norm_prox`, `prox_logdet`, `prox_trace_indicator`, `soft_thresholding` from `regain.prox`;
  - `_fit` (the per-slice Ising fit), `update_rho`;
  - `np.linalg.eigh`, `pinvh`, `np.linalg.inv`, the nuclear and Euclidean norms, `np.sqrt`, `positive_definite`;
  - the objective of the variant without latent variables.
- Output. `print`, `verbose` output and `warnings.warn` are left out.
- time_graph_lasso, line 291: the stray `print(lamda, n_ls)` is modelled only as the NameError it raises (`StepAsWritten`). The corrected loop `Step` drops it; see Findings.
- ForwardBackward.Grad uses the intended inverse Q diag(1 / es) Q^T of each slice, not line 261's Q^T diag(1 / es) Q. Line 261 is modelled as `LineInverses`; see Findings.
- Spectral.Reciprocals: a zero eigenvalue gives 0 where numpy's `1. / es` gives inf with a warning. The inverse is proved only for non-zero eigenvalues.
- time_graph_lasso, lines 262-266: `eigens` and `np.min(eigens)` are left out. The least eigenvalue is its own kernel (`minEigen`), which the model does not tie to `eigh`.
- time_graph_lasso, lines 313-314: the `np.isnan` warning branch is left out.
- time_graph_lasso, lines 318-325: the dead `if 0:` branch is left out.
- `fista_step` (lines 169-171) is unused and left out.
- `penalty` with an array `alpha` (line 47) is left out: the model takes a scalar alpha (line 49).
- `loss` with `n_samples=None` (lines 22-23) is inside the likelihood kernel.
- ForwardBackward.Residual: with gamma == 0 numpy returns inf/NaN for `norm / gamma`. The model returns a stand-in 0 there, and `Subgradient` returns K_prev. This is reachable only with choose 'fixed' or 'lamda' and a zero initial gamma.
- TimeIsing.NextOf: `update_rho` is assumed to keep rho positive (`RhoStaysPositive` in `KernelsConform`). A non-positive rho' is modelled as leaving the state unchanged, not as the division the source would perform.
- TimeIsing.FitTimeIsing requires `cfg.rho > 0`. A non-positive rho, which the source would divide by, is not modelled.
- `_fit_time_ising_model`, lines 98 and 161-164: `check_norm_prox` and the node-penalty branch are inside the `LagProx` kernel. The model covers the choice between the two branches and what the pair-difference branch guarantees.
- time.py `objective_kernel`, lines 234-249: only the temporal penalty on K is modelled (`LagConsensus.KernelPenalty`). The construction of the kernel from sklearn kernels (lines 235-241) is left out.
- Estimator wrappers: `TimeGraphLassoForwardBackward`, `TemporalIsingModel` (fit/score and the `minimize_scalar` kernel search) and `LatentTimeGraphLasso` are left out. Their glue is sklearn, and `LatentTimeGraphLasso.fit` calls a `latent_time_graph_lasso` that is never defined (line 406).
- kernel_latent_time_graph_lasso, lines 217-270: the diagnostics and the rho rescaling read `Z_1`, `Z_2`, `W_1`, `X_1`, `U_1`, `beta`, `eta`, which are never assigned. They are modelled only as the NameError they raise. Their computations are not ported, and so no iteration ever completes.
- LatentTimeGraphLasso.KernelLatentTimeGraphLasso requires, when max_iter >= 1, that rho != 0 and, when counts are given, one non-zero sample count per time point. With max_iter >= 1 and rho == 0 or a zero count, the source divides by zero, giving numpy inf/NaN or a ZeroDivisionError. That path is not modelled. With max_iter == 0 nothing is divided, and the model covers every rho and every count.
- `overlapping_group_lasso` (rgi/admm_group_lasso_overlap.py:87-155) is left out. It calls `P_star_x_bar_function` with one argument (lines 119, 124) and raises a TypeError on its first iteration.
- `fi` (lines 158-159) is left out. It is unused and is the norm kernel itself.
- GroupLassoOverlap.GroupLassoOverlap requires lamda >= 0 and rho > 0. With rho == 0 the source divides by zero in `y[i] / rho`. With a negative lamda / rho, `soft_thresholding` can divide 0 by 0 when a local copy is zero. `groups=None` (the default) is not modelled.
- GroupLassoOverlap.SoftThresholding computes z - (lamda / norm) z, where the source computes z - (lamda z) / norm. The two are equal over the reals but may round differently on floats.
- GroupLassoOverlap.Gather reads an index beyond z as 0.0, where numpy `z[g]` raises IndexError. Groups hold non-negative indices only, so numpy's negative-index wrap-around is out of scope.
- `P_star_x_bar_function` stores `x[g][idx]` as a one-element array in a scalar slot (line 83). The model stores the scalar.

## Findings

| source | as written | input that shows it | evidently intended | confidence | as-written member | corrected member |
|---|---|---|---|---|---|---|
| regain/forward_backward/time_graph_lasso_.py:291 | `print (lamda, n_ls)` runs in every iteration, but `n_ls` is assigned only in the choose_lamda branch (lines 281-290) | choose='gamma' (the default) or 'fixed', max_iter >= 1, gamma > 0, eps > 0, positive-definite start: the first iteration raises UnboundLocalError | a debugging print of the line-search count only when choose_lamda ran; the loop proceeds | high, not executed | ForwardBackward.AsWrittenRaisesWithoutLamda | ForwardBackward.CorrectedRunsWithoutLamda |
| regainpr/covariance/kernel_latent_time_graph_lasso_.py:164-165 | lag m's operands are `Z_0[:-1] + X_L` and `Z_0[1:] + X_R` for every m (also W at lines 199-200), while X_L holds T - m slices | three time points, any max_iter >= 1: at lag 2, the (2, p, p) operand broadcasts with the (1, p, p) dual, and `X_L += Z_0[:-2] - Z_L` then cannot store a (2, p, p) result; with four or more the addition itself fails | `Z_0[:-m] + X_L` and `Z_0[m:] + X_R` (as lines 180-181 and time.py:152-153 use) | high, not executed | LatentTimeGraphLasso.AsWrittenRaisesFromThreeTimePoints | LatentTimeGraphLasso.LagsMoveByGaps |
| regain/forward_backward/time_graph_lasso_.py:261 | `Inv = multi_dot((Q.T, diag(1. / es), Q))`, i.e. Q^T diag(1 / es) Q, where eigh returns the eigenvectors as the columns of Q, so that x = Q diag(es) Q^T | x = [[41, -12], [-12, 34]] / 25, with eigh giving es = (1, 2) and Q = [[3/5, -4/5], [4/5, 3/5]]: line 261 gives off-diagonal -6/25, the inverse has +6/25, and x times line 261's matrix has 1.2304 in its corner, not 1 | Q diag(1 / es) Q^T, the inverse `linalg.pinvh(x)` of the commented line 256 | high, not executed | Spectral.LineInverseIsNotInverse | Spectral.SpectralInverseInverts |
