/**
 * The ADMM solver for the time-varying Ising model (_fit_time_ising_model).
 *
 * Each iteration builds a target for every time slice from the lag copies,
 * fits every slice to it with the per-slice Ising solver, updates every lag's
 * copies and duals, measures the primal and dual residuals and stops on the
 * objective target or on the residual test; otherwise rho is updated and the
 * scaled duals are rescaled.  The per-slice fit, the loss, the penalty psi,
 * its proximal map, the square root and the rho update are numerical kernels
 * passed in as functions.
 */
module TimeIsing {
  import opened Outcomes
  import opened Tensor
  import opened LagConsensus

  /** The numerical kernels the solver calls. */
  datatype Kernels = Kernels(
    fit: (nat, Matrix, real) -> Matrix,          // _fit on X[t] with target A[t] and rho: the new K[t]
    loss: Stack -> real,                         // loss_ising(X, K) + alpha * sum of l1_od_norm(K[t])
    psi: Matrix -> real,                         // the temporal penalty of one difference
    prox: LagProx,                               // prox_psi and whether psi is a node penalty
    sqrt: real -> real,                          // np.sqrt
    updateRho: (real, real, real, nat) -> real)  // update_rho(rho, rnorm, snorm, iteration)

  /** update_rho keeps rho positive. */
  ghost predicate RhoStaysPositive(O: Kernels)
  {
    forall rho, r, s, i :: rho > 0.0 ==> O.updateRho(rho, r, s, i) > 0.0
  }

  /** The kernels behave as the solver expects: p x p fits, conforming proximal maps, positive rho. */
  ghost predicate KernelsConform(O: Kernels, p: nat)
  {
    Conforms(O.prox) && (forall t, A, rho :: IsSquare(O.fit(t, A, rho), p)) && RhoStaysPositive(O)
  }

  /** The solver's options; `features` is n_features, the size of every slice. */
  datatype Config = Config(
    features: nat,
    rho: real,
    maxIter: nat,
    tol: real,
    rtol: real,
    computeObjective: bool,
    stopAt: Option<real>,
    stopWhen: real,
    returnNIter: bool)

  /** One entry of the history: the initial objective, then one per iteration. */
  datatype Check =
    | Initial(start: real)
    | Progress(obj: Option<real>, rnorm: real, snorm: real, ePri: real, eDual: real)

  datatype Fit = Fit(K: Stack, checks: seq<Check>, nIter: Option<nat>)

  /** `iteration_ + 1` read when the loop never ran (max_iter == 0): a NameError. */
  datatype FitError = IterationUnbound

  /** The solver state between iterations: K, every lag's copies and duals, the copies' snapshot, rho. */
  datatype State = State(K: Stack, L: LagState, Zold: LagMap, rho: real)

  /** What an iteration needs: every lag present and rho positive. */
  ghost predicate Ready(s: State)
  {
    HasLags(s.L, |s.K|) && s.rho > 0.0
  }

  /** The solver's invariant: T slices of p x p, every lag shaped like K[:-m] and K[m:]. */
  ghost predicate Valid(s: State, T: nat, p: nat)
  {
    IsStack(s.K, T, p) && Shaped(s.L, s.K) && HasLags(s.Zold, T) && s.rho > 0.0
  }

  /** The objective: the data term plus the temporal penalty over the lag copies. */
  function Objective(O: Kernels, K: Stack, Z: LagMap, kernel: Matrix): real
  {
    O.loss(K) + LagPenalty(Z, kernel, O.psi, |K|)
  }

  /**
   * The target of the K update: the lag shares gathered onto zeros, divided
   * by T and symmetrised.
   */
  function Target(L: LagState, K: Stack): (A: Stack)
    requires HasLags(L, |K|)
    ensures |A| == |K|
  {
    if |K| == 0 then []
    else Sym(Scale(1.0 / |K| as real, GatherUpTo(ZerosLike(K), L, LastLag(|K|))))
  }

  /** Every slice of the target is symmetric. */
  lemma {:induction false} TargetSymmetric(L: LagState, K: Stack)
    requires HasLags(L, |K|)
    ensures forall t :: 0 <= t < |K| ==> IsSymmetric(Target(L, K)[t])
  {
    if |K| > 0 {
      SymSymmetric(Scale(1.0 / |K| as real, GatherUpTo(ZerosLike(K), L, LastLag(|K|))));
    }
  }

  /** Every slice fitted to its target. */
  function FitAll(O: Kernels, A: Stack, rho: real): (K: Stack)
    ensures |K| == |A|
  {
    seq(|A|, t requires 0 <= t < |A| => O.fit(t, A[t], rho))
  }

  /** The lag copies of K itself, for the primal tolerance. */
  function KernelCopies(K: Stack): LagMap
  {
    map m: nat | 0 < m < |K| :: Copies(K, m)
  }

  /** The check one iteration records, from the new K, the new lags and the old snapshot. */
  function Measure(O: Kernels, cfg: Config, kernel: Matrix, K: Stack, L: LagState, Zold: LagMap, rho: real): (c: Check)
    ensures c.Progress?
  {
    var T := |K|;
    var floor := (cfg.features * T) as real * cfg.tol;
    Progress(
      if cfg.computeObjective then Some(Objective(O, K, CopiesOf(L), kernel)) else None,
      O.sqrt(LagSq(Gaps(K, L), T)),
      rho * O.sqrt(LagSq(CopyMoves(L, Zold), T)),
      floor + cfg.rtol * Max(O.sqrt(LagSq(CopiesOf(L), T)), O.sqrt(SqNorm(K) + LagSq(KernelCopies(K), T))),
      floor + cfg.rtol * rho * O.sqrt(LagSq(DualsOf(L), T)))
  }

  /**
   * |obj - stop_at| / |stop_at| < stop_when.  With stop_at == 0 the quotient
   * is inf or nan and with no objective (nan) the test is false.
   */
  predicate CloseToTarget(cfg: Config, obj: Option<real>)
  {
    cfg.stopAt.Some? && obj.Some? && cfg.stopAt.value != 0.0 &&
    Abs(obj.value - cfg.stopAt.value) / Abs(cfg.stopAt.value) < cfg.stopWhen
  }

  /** The loop breaks after an iteration whose check meets either test. */
  predicate Stops(cfg: Config, c: Check)
  {
    c.Progress? && (CloseToTarget(cfg, c.obj) || (c.rnorm <= c.ePri && c.snorm <= c.eDual))
  }

  datatype Iteration = Iteration(next: State, check: Check)

  /** One iteration up to the stopping tests: the K update, the consensus update, the check and the snapshot. */
  function Advance(O: Kernels, cfg: Config, kernel: Matrix, s: State): Iteration
    requires HasLags(s.L, |s.K|) && s.rho != 0.0
  {
    var K := FitAll(O, Target(s.L, s.K), s.rho);
    var L := Consensus(K, s.L, kernel, s.rho, O.prox);
    Iteration(State(K, L, CopiesOf(L), s.rho), Measure(O, cfg, kernel, K, L, s.Zold, s.rho))
  }

  /** rho replaced by rho' and every scaled dual multiplied by rho / rho'. */
  function Rescale(s: State, rho': real): State
    requires HasLags(s.L, |s.K|) && rho' != 0.0
  {
    State(s.K, Rescaled(s.L, |s.K|, s.rho / rho'), s.Zold, rho')
  }

  function NIter(cfg: Config, n: nat): Option<nat>
  {
    if cfg.returnNIter then Some(n) else None
  }

  /**
   * The loop `for iteration_ in range(max_iter)` with its breaks, from
   * iteration i in state s with the history so far: `step` is one iteration
   * up to the stopping tests and `again` prepares the next iteration from
   * the state, the check and the iteration number.
   */
  ghost function Loop(step: State -> Iteration, again: (State, Check, nat) -> State, cfg: Config, s: State, i: nat, checks: seq<Check>): Result<Fit, FitError>
    requires i <= cfg.maxIter
    decreases cfg.maxIter - i
  {
    if i == cfg.maxIter then
      if i == 0 && cfg.returnNIter then Failure(IterationUnbound)
      else Success(Fit(s.K, checks, NIter(cfg, i)))
    else
      var it := step(s);
      if Stops(cfg, it.check) then Success(Fit(it.next.K, checks + [it.check], NIter(cfg, i + 1)))
      else Loop(step, again, cfg, again(it.next, it.check, i), i + 1, checks + [it.check])
  }

  /**
   * One iteration of the solver up to the stopping tests.  The solver only
   * ever reaches ready states; on any other state the step is the identity.
   */
  ghost function IterationOf(O: Kernels, cfg: Config, kernel: Matrix): State -> Iteration
  {
    s => if Ready(s) then Advance(O, cfg, kernel, s) else Iteration(s, Initial(0.0))
  }

  /**
   * After an iteration that does not stop: rho' = update_rho(rho, rnorm,
   * snorm, iteration_) and the duals rescaled.  The solver only ever gets
   * a positive rho' from a ready state; otherwise the state is kept.
   */
  ghost function NextOf(O: Kernels): (State, Check, nat) -> State
  {
    (s: State, c: Check, i: nat) =>
      var rho' := O.updateRho(s.rho, RNorm(c), SNorm(c), i);
      if Ready(s) && rho' > 0.0 then Rescale(s, rho') else s
  }

  function RNorm(c: Check): real { if c.Progress? then c.rnorm else 0.0 }

  function SNorm(c: Check): real { if c.Progress? then c.snorm else 0.0 }

  /** The state before the first iteration: K zero, the lags initialised from it, rho as given. */
  function Start(T: nat, p: nat, rho: real): State
  {
    State(Zeros(T, p), InitialLags(Zeros(T, p)), ZeroCopies(Zeros(T, p)), rho)
  }

  lemma {:induction false} StartValid(T: nat, p: nat, rho: real)
    requires rho > 0.0
    ensures Valid(Start(T, p, rho), T, p)
  {
    ZerosStack(T, p);
    InitialLagsShaped(Zeros(T, p));
  }

  /** The whole solver on T time points of p features. */
  ghost function Solve(O: Kernels, cfg: Config, kernel: Option<Matrix>, T: nat): Result<Fit, FitError>
  {
    var s := Start(T, cfg.features, cfg.rho);
    var k := KernelOf(kernel, T);
    Loop(IterationOf(O, cfg, k), NextOf(O), cfg, s, 0, [Initial(Objective(O, s.K, CopiesOf(s.L), k))])
  }

  // ---------------------------------------------------------------------
  // Invariants of one iteration

  lemma {:induction false} CopiesOfHasLags(L: LagState, T: nat)
    requires HasLags(L, T)
    ensures HasLags(CopiesOf(L), T)
  {
  }

  /** An iteration keeps K a stack of p x p slices and every lag shaped like K[:-m] and K[m:]. */
  lemma {:induction false} AdvanceValid(O: Kernels, cfg: Config, kernel: Matrix, s: State)
    requires KernelsConform(O, cfg.features) && Valid(s, |s.K|, cfg.features)
    ensures Valid(Advance(O, cfg, kernel, s).next, |s.K|, cfg.features)
  {
    var p := cfg.features;
    var K := FitAll(O, Target(s.L, s.K), s.rho);
    assert IsStack(K, |s.K|, p);
    ShapedAcrossStacks(s.L, s.K, K, p);
    var L := Consensus(K, s.L, kernel, s.rho, O.prox);
    ConsensusAt(K, s.L, kernel, s.rho, O.prox);
    ConsensusShaped(K, p, s.L, L, kernel, s.rho, O.prox);
    CopiesOfHasLags(L, |K|);
  }

  /** Rescaling with a positive rho' keeps the state valid. */
  lemma {:induction false} RescaleValid(s: State, rho': real, p: nat)
    requires Valid(s, |s.K|, p) && rho' > 0.0
    ensures Valid(Rescale(s, rho'), |s.K|, p)
  {
    RescaledShaped(s.L, s.K, s.rho / rho');
  }

  /**
   * The primal residual of an iteration is the norm of the dual moves: the
   * summed square gaps K[:-m] - Z_L and K[m:] - Z_R equal the summed square
   * changes of the duals.
   */
  lemma {:induction false} ResidualIsDualMove(O: Kernels, cfg: Config, kernel: Matrix, s: State)
    requires KernelsConform(O, cfg.features) && Valid(s, |s.K|, cfg.features)
    ensures var it := Advance(O, cfg, kernel, s);
            it.check.rnorm == O.sqrt(LagSq(DualMoves(it.next.L, s.L), |s.K|))
  {
    var p := cfg.features;
    var K := FitAll(O, Target(s.L, s.K), s.rho);
    assert IsStack(K, |s.K|, p);
    ShapedAcrossStacks(s.L, s.K, K, p);
    var L := Consensus(K, s.L, kernel, s.rho, O.prox);
    ConsensusAt(K, s.L, kernel, s.rho, O.prox);
    PrimalResidualIsDualMove(K, p, s.L, L, kernel, s.rho, O.prox);
  }

  /** After an iteration the snapshot is the new copies: the next dual residual measures one iteration's moves. */
  lemma {:induction false} SnapshotIsCopies(O: Kernels, cfg: Config, kernel: Matrix, s: State)
    requires HasLags(s.L, |s.K|) && s.rho != 0.0
    ensures var it := Advance(O, cfg, kernel, s);
            it.next.Zold == CopiesOf(it.next.L) && it.next.K == FitAll(O, Target(s.L, s.K), s.rho)
  {
  }

  /** Rescaling after a rho update keeps every lag's unscaled dual rho U. */
  lemma {:induction false} RescaleKeepsDuals(s: State, rho': real)
    requires HasLags(s.L, |s.K|) && rho' != 0.0
    ensures HasLags(Rescale(s, rho').L, |s.K|)
    ensures forall m :: 0 < m < |s.K| ==>
      Rescale(s, rho').L[m].copies == s.L[m].copies &&
      ScalePair(rho', Rescale(s, rho').L[m].duals) == ScalePair(s.rho, s.L[m].duals)
  {
    RescaledAt(s.L, |s.K|, s.rho / rho');
    RescaledKeepsUnscaledDuals(s.L, |s.K|, s.rho, rho');
  }

  // ---------------------------------------------------------------------
  // The history

  /**
   * A loop from iteration i appends one check per iteration it executes: it
   * ends after n iterations in all, the appended checks fail the stopping
   * tests except perhaps the last, and the last passes them whenever the loop
   * ended before max_iter.  It fails only when it never runs and the count
   * is asked for.
   */
  lemma {:induction false} LoopHistory(step: State -> Iteration, again: (State, Check, nat) -> State, cfg: Config, s: State, i: nat, checks: seq<Check>)
    requires i <= cfg.maxIter
    ensures var r := Loop(step, again, cfg, s, i, checks);
            r.Failure? <==> i == cfg.maxIter == 0 && cfg.returnNIter
    ensures var r := Loop(step, again, cfg, s, i, checks);
            r.Success? ==>
              var n := |r.value.checks| - |checks| + i;
              i <= n <= cfg.maxIter && r.value.checks[..|checks|] == checks &&
              r.value.nIter == NIter(cfg, n) &&
              (forall j :: |checks| <= j < |r.value.checks| - 1 ==> !Stops(cfg, r.value.checks[j])) &&
              (n < cfg.maxIter ==> n > i && Stops(cfg, r.value.checks[|r.value.checks| - 1]))
    decreases cfg.maxIter - i
  {
    if i < cfg.maxIter {
      var it := step(s);
      if !Stops(cfg, it.check) {
        var checks' := checks + [it.check];
        var s' := again(it.next, it.check, i);
        LoopHistory(step, again, cfg, s', i + 1, checks');
        var r := Loop(step, again, cfg, s', i + 1, checks');
        if r.Success? {
          assert r.value.checks[..|checks'|] == checks';
          assert r.value.checks[..|checks|] == checks'[..|checks|];
        }
      }
    }
  }

  /**
   * A solve fails only when max_iter == 0 and the count is asked for.  A
   * successful one records the initial objective and then one check per
   * iteration: n iterations with 0 <= n <= max_iter and n >= 1 when
   * max_iter > 0; none of the first n - 1 checks stops the loop, and the
   * last does whenever n < max_iter.
   */
  lemma {:induction false} SolveHistory(O: Kernels, cfg: Config, kernel: Option<Matrix>, T: nat)
    ensures Solve(O, cfg, kernel, T).Failure? <==> cfg.maxIter == 0 && cfg.returnNIter
    ensures var r := Solve(O, cfg, kernel, T);
            r.Success? ==>
              var n := |r.value.checks| - 1;
              0 <= n <= cfg.maxIter && r.value.checks[0].Initial? && r.value.nIter == NIter(cfg, n) &&
              (cfg.maxIter > 0 ==> n >= 1) &&
              (forall j :: 1 <= j < n ==> !Stops(cfg, r.value.checks[j])) &&
              (1 <= n < cfg.maxIter ==> Stops(cfg, r.value.checks[n]))
  {
    var s := Start(T, cfg.features, cfg.rho);
    var k := KernelOf(kernel, T);
    var init := [Initial(Objective(O, s.K, CopiesOf(s.L), k))];
    LoopHistory(IterationOf(O, cfg, k), NextOf(O), cfg, s, 0, init);
    var r := Loop(IterationOf(O, cfg, k), NextOf(O), cfg, s, 0, init);
    if r.Success? {
      assert r.value.checks[0] == r.value.checks[..1][0];
    }
  }

  // ---------------------------------------------------------------------
  // The solver as the source runs it

  /** `K_new[t] = _fit(X[t], A=A[t], rho=rho)` for every slice in turn. */
  method FitSlices(O: Kernels, A: Stack, rho: real) returns (K: Stack)
    ensures K == FitAll(O, A, rho)
  {
    K := ZerosLike(A);
    var t := 0;
    while t < |A|
      invariant 0 <= t <= |A| && |K| == |A|
      invariant forall u :: 0 <= u < t ==> K[u] == O.fit(u, A[u], rho)
    {
      K := K[t := O.fit(t, A[t], rho)];
      t := t + 1;
    }
  }

  /** The target update: gather the lag shares, divide by T, symmetrise. */
  method BuildTarget(L: LagState, K: Stack) returns (A: Stack)
    requires Sized(L, |K|)
    ensures A == Target(L, K)
  {
    A := Gather(ZerosLike(K), L);
    if |K| > 0 {
      A := Scale(1.0 / |K| as real, A);
      A := Sym(A);
    } else {
      A := [];
    }
  }

  /**
   * One iteration of _fit_time_ising_model up to the stopping tests: the K
   * update, the consensus update of every lag, the residuals and the
   * snapshot of the copies.
   */
  method Iterate(O: Kernels, cfg: Config, kernel: Matrix, s: State) returns (it: Iteration)
    requires KernelsConform(O, cfg.features) && Valid(s, |s.K|, cfg.features)
    ensures it == Advance(O, cfg, kernel, s)
    ensures Valid(it.next, |s.K|, cfg.features)
  {
    ShapedIsSized(s.L, s.K);
    var A := BuildTarget(s.L, s.K);
    var K := FitSlices(O, A, s.rho);
    var L := ConsensusUpdate(K, s.L, kernel, s.rho, O.prox);
    var check := Measure(O, cfg, kernel, K, L, s.Zold, s.rho);
    var Zold := CopiesOf(L);
    it := Iteration(State(K, L, Zold, s.rho), check);
    AdvanceValid(O, cfg, kernel, s);
  }

  /**
   * The end of a pass that did not break: rho' = update_rho(rho, rnorm,
   * snorm, iteration_) and the duals rescaled by rho / rho'.
   */
  method Round(O: Kernels, cfg: Config, next: State, check: Check, i: nat) returns (s': State)
    requires KernelsConform(O, cfg.features) && Valid(next, |next.K|, cfg.features)
    ensures Valid(s', |next.K|, cfg.features) && s' == NextOf(O)(next, check, i)
  {
    var T := |next.K|;
    var rho' := O.updateRho(next.rho, RNorm(check), SNorm(check), i);
    var L' := RescaleDuals(next.L, T, next.rho / rho');
    s' := State(next.K, L', next.Zold, rho');
    RescaleValid(next, rho', cfg.features);
  }

  /** The loop `for iteration_ in range(max_iter)` with its break, from state s and the history so far. */
  method Drive(O: Kernels, cfg: Config, kernel: Matrix, s0: State, checks0: seq<Check>) returns (r: Result<Fit, FitError>)
    requires KernelsConform(O, cfg.features) && Valid(s0, |s0.K|, cfg.features)
    ensures r == Loop(IterationOf(O, cfg, kernel), NextOf(O), cfg, s0, 0, checks0)
  {
    ghost var step, again := IterationOf(O, cfg, kernel), NextOf(O);
    ghost var whole := Loop(step, again, cfg, s0, 0, checks0);
    var s, checks := s0, checks0;
    var i := 0;
    while i < cfg.maxIter
      invariant i <= cfg.maxIter && Valid(s, |s0.K|, cfg.features)
      invariant Loop(step, again, cfg, s, i, checks) == whole
      decreases cfg.maxIter - i
    {
      var it := Iterate(O, cfg, kernel, s);
      assert it == step(s);
      checks := checks + [it.check];
      if Stops(cfg, it.check) {
        return Success(Fit(it.next.K, checks, NIter(cfg, i + 1)));
      }
      s := Round(O, cfg, it.next, it.check, i);
      i := i + 1;
    }
    if i == 0 && cfg.returnNIter {
      return Failure(IterationUnbound);
    }
    return Success(Fit(s.K, checks, NIter(cfg, i)));
  }

  /**
   * _fit_time_ising_model: initialise K and the lags, then iterate the K
   * update, the consensus update and the checks until a stopping test passes
   * or max_iter iterations have run.
   */
  method FitTimeIsing(O: Kernels, cfg: Config, kernel: Option<Matrix>, T: nat) returns (r: Result<Fit, FitError>)
    requires KernelsConform(O, cfg.features) && cfg.rho > 0.0
    ensures r == Solve(O, cfg, kernel, T)
  {
    var k := KernelOf(kernel, T);
    var K := Zeros(T, cfg.features);
    var L, Zold := InitLagState(K);
    StartValid(T, cfg.features, cfg.rho);
    r := Drive(O, cfg, k, State(K, L, Zold, cfg.rho), [Initial(Objective(O, K, CopiesOf(L), k))]);
  }
}
