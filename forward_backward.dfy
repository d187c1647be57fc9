/**
 * The forward-backward solver for the time-varying graphical lasso
 * (time_graph_lasso): the backtracking searches for the step gamma and the
 * relaxation lamda, the relaxed update, the convergence record and the
 * relative-residual stopping test.  The negative log-likelihood and its
 * gradient given the inverses, the off-diagonal l1 norm, the temporal norm psi, the fused-lasso
 * proximal map, the eigendecomposition, the least eigenvalue, the pseudo-inverse, the positive-definiteness
 * test and the square root are numerical kernels passed in as functions.
 */
module ForwardBackward {
  import opened Outcomes
  import opened Tensor
  import opened Backtracking
  import opened Spectral

  /** The problem: its numerical kernels and the scalars alpha, beta and vareps. */
  datatype Problem = Problem(
    nll: Stack -> real,              // sum over t of -n_samples[t] * logl(emp_cov[t], K[t])
    gradOfInverse: Stack -> Stack,   // x_inv |-> n_samples[t] * (emp_cov[t] - x_inv[t]), slice by slice
    l1OffDiag: Matrix -> real,       // l1_od_norm
    psi: Stack -> real,              // vector_p_norm(., p=time_norm)
    prox: (Stack, real) -> Stack,    // prox_FL(x, beta * gamma, alpha * gamma, p=time_norm)
    minEigen: Stack -> real,         // the least eigenvalue over all slices
    positiveDefinite: Stack -> bool, // positive_definite
    pinv: Matrix -> Matrix,          // linalg.pinvh
    eigh: Matrix -> Eigen,           // np.linalg.eigh: es and the eigenvectors as the columns of Q
    sqrt: real -> real,              // np.sqrt
    alpha: real,
    beta: real,
    vareps: real)

  /** The exceptions the solver can raise. */
  datatype Error =
    | ZeroDivision   // a Python float divided by zero
    | BadCriterion   // choose_lamda: ValueError(criterion)
    | BadChoose      // time_graph_lasso: ValueError for `choose`
    | Unbound        // a local read before it was ever assigned

  // ---------------------------------------------------------------------
  // Loss, penalty and objective

  /** _scalar_product: (x * y).sum(). */
  function ScalarProduct(x: Stack, y: Stack): real
  {
    Dot(x, y)
  }

  /** The scalar product is symmetric, and a stack's product with itself is never negative. */
  lemma {:induction false} ScalarProductProperties(x: Stack, y: Stack)
    requires SameShape(x, y)
    ensures ScalarProduct(x, y) == ScalarProduct(y, x)
    ensures ScalarProduct(x, x) >= 0.0
  {
    DotSymmetric(x, y);
    DotSelfNonneg(x);
  }

  /** loss: the negative log-likelihood plus vareps / 2 * <K, K>. */
  function Loss(P: Problem, K: Stack): real
  {
    P.nll(K) + P.vareps / 2.0 * ScalarProduct(K, K)
  }

  /** grad_loss given x_inv: the likelihood's gradient plus the coercive term vareps * K. */
  function GradFrom(P: Problem, xInv: Stack, K: Stack): Stack
  {
    Add(P.gradOfInverse(xInv), Scale(P.vareps, K))
  }

  /** x_inv as the solver loop means it: Q diag(1 / es) Q^T from eigh of each slice. */
  function Inverses(P: Problem, K: Stack): Stack
  {
    seq(|K|, t requires 0 <= t < |K| => SpectralInverse(P.eigh(K[t])))
  }

  /** x_inv as the solver loop writes it: Q^T diag(1 / es) Q. */
  function LineInverses(P: Problem, K: Stack): Stack
  {
    seq(|K|, t requires 0 <= t < |K| => LineInverse(P.eigh(K[t])))
  }

  /** The default x_inv of grad_loss: pinvh of each slice. */
  function PinvSlices(P: Problem, K: Stack): Stack
  {
    seq(|K|, t requires 0 <= t < |K| => P.pinv(K[t]))
  }

  /** The gradient the loop passes to both searches, on the intended inverses. */
  function Grad(P: Problem, K: Stack): Stack
  {
    GradFrom(P, Inverses(P, K), K)
  }

  /** eigh of every slice is an orthogonal decomposition of it with non-zero eigenvalues. */
  predicate Diagonalised(P: Problem, K: Stack)
  {
    forall t :: 0 <= t < |K| ==>
      var e := P.eigh(K[t]);
      Orthogonal(e.vectors) && |e.values| == |e.vectors| && Recompose(e.values, e.vectors) == K[t] &&
      forall k :: 0 <= k < |e.values| ==> e.values[k] != 0.0
  }

  /** On a diagonalised K, every slice of x_inv is the inverse of K's slice. */
  lemma {:induction false} InversesInvert(P: Problem, K: Stack)
    requires Diagonalised(P, K)
    ensures |Inverses(P, K)| == |K|
    ensures forall t :: 0 <= t < |K| ==> MatMul(K[t], Inverses(P, K)[t]) == Identity(|K[t]|)
  {
    forall t | 0 <= t < |K|
      ensures MatMul(K[t], Inverses(P, K)[t]) == Identity(|K[t]|)
    {
      SpectralInverseInverts(P.eigh(K[t]));
    }
  }

  /**
   * As written the loop's x_inv is not the inverse: with eigh returning the
   * rotation example on the one slice it recomposes, that slice is
   * diagonalised, yet its product with Q^T diag(1 / es) Q is not the identity.
   */
  lemma {:induction false} LineInversesAreNotInverses(P: Problem)
    ensures var E := P.(eigh := (x: Matrix) => Example());
            var K := [Recompose(Example().values, Example().vectors)];
            Diagonalised(E, K) && MatMul(K[0], LineInverses(E, K)[0]) != Identity(2)
  {
    LineInverseIsNotInverse();
  }

  /** The loop over the slices of K that collects x_inv. */
  method InvertSlices(P: Problem, K: Stack) returns (xInv: Stack)
    ensures xInv == Inverses(P, K)
  {
    xInv := [];
    for t := 0 to |K|
      invariant xInv == Inverses(P, K)[..t]
    {
      var e := P.eigh(K[t]);
      xInv := xInv + [SpectralInverse(e)];
    }
  }

  /** The sum of l1_od_norm over the slices. */
  function SumL1OffDiag(P: Problem, K: Stack): real
    decreases |K|
  {
    if |K| == 0 then 0.0 else P.l1OffDiag(K[0]) + SumL1OffDiag(P, K[1..])
  }

  /** penalty with a scalar alpha: alpha * sum of l1_od_norm + beta * psi(K[1:] - K[:-1]). */
  function Penalty(P: Problem, K: Stack): real
  {
    P.alpha * SumL1OffDiag(P, K) + P.beta * P.psi(Sub(Tail(K, 1), Head(K, 1)))
  }

  function Objective(P: Problem, K: Stack): real
  {
    Loss(P, K) + Penalty(P, K)
  }

  /** np.linalg.norm of a stack: the root of its square norm. */
  function Norm(P: Problem, S: Stack): real
  {
    P.sqrt(SqNorm(S))
  }

  /**
   * `a <= num / den` on floats: with den == 0 the quotient is +inf when
   * num > 0, -inf when num < 0 and NaN when num == 0.
   */
  predicate AtMostQuotient(a: real, num: real, den: real)
  {
    if den != 0.0 then a <= num / den else num > 0.0
  }

  /** `num / den <= b` on floats, with the same infinities and NaN. */
  predicate QuotientAtMost(num: real, den: real, b: real)
  {
    if den != 0.0 then num / den <= b else num < 0.0
  }

  /** `a < num / den` on floats. */
  predicate BelowQuotient(a: real, num: real, den: real)
  {
    if den != 0.0 then a < num / den else num > 0.0
  }

  /** Away from a zero denominator the float comparisons are the real ones. */
  lemma {:induction false} QuotientsAreReal(a: real, num: real, den: real)
    requires den != 0.0
    ensures AtMostQuotient(a, num, den) <==> a <= num / den
    ensures QuotientAtMost(num, den, a) <==> num / den <= a
    ensures BelowQuotient(a, num, den) <==> a < num / den
  {
  }

  // ---------------------------------------------------------------------
  // choose_gamma

  /** x + lamda (y - x): the point a fraction lamda of the way from x to y. */
  function Towards(x: Stack, y: Stack, lamda: real): Stack
  {
    Add(x, Scale(lamda, Sub(y, x)))
  }

  /** x - gamma * grad followed by the proximal map: the forward-backward point for step gamma. */
  function ProxPoint(P: Problem, x: Stack, grad: Stack, gamma: real): Stack
  {
    P.prox(Sub(x, Scale(gamma, grad)), gamma)
  }

  /** <d, grad> + delta / gamma <d, d>: the quadratic majorant of the loss along d = prox - x. */
  function MajorantTolerance(d: Stack, grad: Stack, delta: real, gamma: real): real
    requires gamma != 0.0
  {
    ScalarProduct(d, grad) + delta / gamma * ScalarProduct(d, d)
  }

  /** choose_gamma's test at step gamma: the loss change lies under lamda times the quadratic majorant. */
  predicate GammaAccepts(P: Problem, x: Stack, grad: Stack, lamda: real, delta: real, gamma: real)
    requires gamma != 0.0
  {
    var y := ProxPoint(P, x, grad, gamma);
    Loss(P, Towards(x, y, lamda)) - Loss(P, x) <= lamda * MajorantTolerance(Sub(y, x), grad, delta, gamma)
  }

  /** One round of choose_gamma: delta / gamma raises on a zero step; otherwise the majorisation test. */
  function GammaTest(P: Problem, x: Stack, grad: Stack, lamda: real, delta: real): real -> Result<bool, Error>
  {
    gamma => if gamma == 0.0 then Failure(ZeroDivision) else Success(GammaAccepts(P, x, grad, lamda, delta, gamma))
  }

  /** choose_gamma's result: the step the search stops at (the round count is not returned). */
  function GammaSearch(P: Problem, gamma0: real, x: Stack, lamda: real, grad: Stack, delta: real, eps: real, maxIter: nat): Result<real, Error>
  {
    match Backtrack(GammaTest(P, x, grad, lamda, delta), gamma0, eps, 0, maxIter)
    case Failure(e) => Failure(e)
    case Success(f) => Success(f.value)
  }

  /** choose_gamma: shrink gamma by eps until the majorisation test accepts, for at most max_iter rounds. */
  method ChooseGamma(P: Problem, gamma0: real, x: Stack, lamda: real, grad: Stack, delta: real, eps: real, maxIter: nat)
    returns (r: Result<real, Error>)
    ensures r == GammaSearch(P, gamma0, x, lamda, grad, delta, eps, maxIter)
  {
    var found := Search(GammaTest(P, x, grad, lamda, delta), gamma0, eps, maxIter);
    if found.Failure? {
      return Failure(found.error);
    }
    return Success(found.value.value);
  }

  /**
   * choose_gamma returns gamma0 * eps^n for the first round n < max_iter
   * whose step passes the test, all earlier steps being non-zero.
   */
  lemma {:induction false} GammaFirstAccepted(P: Problem, gamma0: real, x: Stack, lamda: real, grad: Stack, delta: real, eps: real,
                                              maxIter: nat, n: nat)
    requires n < maxIter
    requires forall j: nat :: j <= n ==> Trial(gamma0, eps, j) != 0.0
    requires forall j: nat :: j < n ==> !GammaAccepts(P, x, grad, lamda, delta, Trial(gamma0, eps, j))
    requires GammaAccepts(P, x, grad, lamda, delta, Trial(gamma0, eps, n))
    ensures GammaSearch(P, gamma0, x, lamda, grad, delta, eps, maxIter) == Success(Trial(gamma0, eps, n))
  {
    var test := GammaTest(P, x, grad, lamda, delta);
    forall j: nat | j < n ensures test(Trial(gamma0, eps, j)) == Success(false) {
    }
    StopsAtFirstAccepted(test, gamma0, eps, maxIter, n);
  }

  /** When no round accepts, choose_gamma returns gamma0 * eps^max_iter without raising. */
  lemma {:induction false} GammaNoneAccepted(P: Problem, gamma0: real, x: Stack, lamda: real, grad: Stack, delta: real, eps: real,
                                             maxIter: nat)
    requires forall j: nat :: j < maxIter ==> Trial(gamma0, eps, j) != 0.0
    requires forall j: nat :: j < maxIter ==> !GammaAccepts(P, x, grad, lamda, delta, Trial(gamma0, eps, j))
    ensures GammaSearch(P, gamma0, x, lamda, grad, delta, eps, maxIter) == Success(Trial(gamma0, eps, maxIter))
  {
    var test := GammaTest(P, x, grad, lamda, delta);
    forall j: nat | j < maxIter ensures test(Trial(gamma0, eps, j)) == Success(false) {
    }
    ExhaustsWhenAllRejected(test, gamma0, eps, maxIter);
  }

  /** A step that reaches zero before any acceptance raises ZeroDivisionError. */
  lemma {:induction false} GammaReachesZero(P: Problem, gamma0: real, x: Stack, lamda: real, grad: Stack, delta: real, eps: real,
                                            maxIter: nat, n: nat)
    requires n < maxIter && Trial(gamma0, eps, n) == 0.0
    requires forall j: nat :: j < n ==> Trial(gamma0, eps, j) != 0.0
    requires forall j: nat :: j < n ==> !GammaAccepts(P, x, grad, lamda, delta, Trial(gamma0, eps, j))
    ensures GammaSearch(P, gamma0, x, lamda, grad, delta, eps, maxIter) == Failure(ZeroDivision)
  {
    var test := GammaTest(P, x, grad, lamda, delta);
    forall j: nat | j < n ensures test(Trial(gamma0, eps, j)) == Success(false) {
    }
    RaisesAtFirstError(test, gamma0, eps, maxIter, n, ZeroDivision);
  }

  /** For gamma0 > 0 and 0 < eps <= 1 choose_gamma never raises and returns a step in (0, gamma0]. */
  lemma {:induction false} GammaBounds(P: Problem, gamma0: real, x: Stack, lamda: real, grad: Stack, delta: real, eps: real, maxIter: nat)
    requires gamma0 > 0.0 && 0.0 < eps <= 1.0
    ensures GammaSearch(P, gamma0, x, lamda, grad, delta, eps, maxIter).Success?
    ensures 0.0 < GammaSearch(P, gamma0, x, lamda, grad, delta, eps, maxIter).value <= gamma0
  {
    StaysInRange(GammaTest(P, x, grad, lamda, delta), gamma0, eps, 0, maxIter);
  }

  /** For gamma0 > 0 and any eps > 0 choose_gamma never raises and returns a positive step. */
  lemma {:induction false} GammaPositive(P: Problem, gamma0: real, x: Stack, lamda: real, grad: Stack, delta: real, eps: real, maxIter: nat)
    requires gamma0 > 0.0 && eps > 0.0
    ensures GammaSearch(P, gamma0, x, lamda, grad, delta, eps, maxIter).Success?
    ensures GammaSearch(P, gamma0, x, lamda, grad, delta, eps, maxIter).value > 0.0
  {
    StaysPositive(GammaTest(P, x, grad, lamda, delta), gamma0, eps, 0, maxIter);
  }

  /** The only error choose_gamma raises is the division by a zero step. */
  lemma {:induction false} GammaErrors(P: Problem, gamma0: real, x: Stack, lamda: real, grad: Stack, delta: real, eps: real, maxIter: nat)
    requires GammaSearch(P, gamma0, x, lamda, grad, delta, eps, maxIter).Failure?
    ensures GammaSearch(P, gamma0, x, lamda, grad, delta, eps, maxIter).error == ZeroDivision
  {
    var test := GammaTest(P, x, grad, lamda, delta);
    var e := GammaSearch(P, gamma0, x, lamda, grad, delta, eps, maxIter).error;
    FailsOnlyByTest(test, gamma0, eps, 0, maxIter, e);
  }

  // ---------------------------------------------------------------------
  // choose_lamda

  /** What choose_lamda is given besides lamda, eps and max_iter. */
  datatype LamdaQuery = LamdaQuery(
    x: Stack,          // the current precision
    grad: Stack,       // grad_loss at x, with the coercive term
    prox: Stack,       // the forward-backward point y
    gamma: real,
    delta: real,
    criterion: string,
    minEigenX: real)   // the least eigenvalue of x

  /** The pair choose_lamda returns: the relaxation and the number of rounds run. */
  datatype LineSearch = LineSearch(lamda: real, rounds: nat)

  predicate KnownCriterion(criterion: string)
  {
    criterion == "a" || criterion == "b" || criterion == "c"
  }

  /**
   * The tolerance computed before the loop: the quadratic majorant for 'b'
   * (delta / gamma raises on a zero step) and (1 - delta) times the
   * predicted objective decrease for 'c'.  Criterion 'a' computes its own
   * tolerance each round.
   */
  function LamdaTolerance(P: Problem, q: LamdaQuery): Result<real, Error>
  {
    var d := Sub(q.prox, q.x);
    if q.criterion == "b" then
      if q.gamma == 0.0 then Failure(ZeroDivision) else Success(MajorantTolerance(d, q.grad, q.delta, q.gamma))
    else if q.criterion == "c" then
      Success((1.0 - q.delta) * (Penalty(P, q.prox) - Penalty(P, q.x) + ScalarProduct(d, q.grad)))
    else Success(0.0)
  }

  /**
   * Criterion 'a': |grad(x1) - grad| <= delta |x1 - x| / (gamma lamda), on
   * floats; the gradient at x1 is taken on pinvh of x1's slices and without
   * the coercive term.
   */
  predicate GradientAccepts(P: Problem, q: LamdaQuery, lamda: real)
  {
    var x1 := Towards(q.x, q.prox, lamda);
    var gradDiff := Sub(P.gradOfInverse(PinvSlices(P, x1)), q.grad);
    var iterDiff := Sub(x1, q.x);
    AtMostQuotient(P.sqrt(ScalarProduct(gradDiff, gradDiff)), q.delta * P.sqrt(ScalarProduct(iterDiff, iterDiff)), q.gamma * lamda)
  }

  /** Criterion 'b': the loss change lies under lamda times the majorant. */
  predicate LossAccepts(P: Problem, q: LamdaQuery, tolerance: real, lamda: real)
  {
    Loss(P, Towards(q.x, q.prox, lamda)) - Loss(P, q.x) <= lamda * tolerance
  }

  /**
   * The gate of criterion 'c': lamda > 0 when y has no negative eigenvalue,
   * otherwise lamda < min_eigen_x / (min_eigen_x - min_eigen_y) on floats.
   */
  predicate Gate(lamda: real, minEigenX: real, minEigenY: real)
  {
    if minEigenY >= 0.0 then lamda > 0.0 else BelowQuotient(lamda, minEigenX, minEigenX - minEigenY)
  }

  /** Criterion 'c': the gate, and the objective change lies under lamda times the tolerance. */
  predicate ObjectiveAccepts(P: Problem, q: LamdaQuery, tolerance: real, lamda: real)
  {
    Gate(lamda, q.minEigenX, P.minEigen(q.prox))
      && Objective(P, Towards(q.x, q.prox, lamda)) - Objective(P, q.x) <= lamda * tolerance
  }

  predicate LamdaAccepts(P: Problem, q: LamdaQuery, tolerance: real, lamda: real)
  {
    if q.criterion == "a" then GradientAccepts(P, q, lamda)
    else if q.criterion == "b" then LossAccepts(P, q, tolerance, lamda)
    else ObjectiveAccepts(P, q, tolerance, lamda)
  }

  /** One round of choose_lamda: an unknown criterion raises ValueError, otherwise its test. */
  function LamdaTest(P: Problem, q: LamdaQuery, tolerance: real): real -> Result<bool, Error>
  {
    lamda => if KnownCriterion(q.criterion) then Success(LamdaAccepts(P, q, tolerance, lamda)) else Failure(BadCriterion)
  }

  /**
   * choose_lamda's result: the relaxation the search stops at and `i + 1`,
   * the rounds run; with max_iter == 0 the loop index is never bound.
   */
  function LamdaSearch(P: Problem, q: LamdaQuery, lamda0: real, eps: real, maxIter: nat): Result<LineSearch, Error>
  {
    match LamdaTolerance(P, q)
    case Failure(e) => Failure(e)
    case Success(tolerance) =>
      match Backtrack(LamdaTest(P, q, tolerance), lamda0, eps, 0, maxIter)
      case Failure(e) => Failure(e)
      case Success(f) => if maxIter == 0 then Failure(Unbound) else Success(LineSearch(f.value, f.rounds))
  }

  /** choose_lamda: shrink lamda by eps until the criterion accepts, for at most max_iter rounds. */
  method ChooseLamda(P: Problem, q: LamdaQuery, lamda0: real, eps: real, maxIter: nat) returns (r: Result<LineSearch, Error>)
    ensures r == LamdaSearch(P, q, lamda0, eps, maxIter)
  {
    var tolerance := LamdaTolerance(P, q);
    if tolerance.Failure? {
      return Failure(tolerance.error);
    }
    var found := Search(LamdaTest(P, q, tolerance.value), lamda0, eps, maxIter);
    if found.Failure? {
      return Failure(found.error);
    }
    if maxIter == 0 {
      return Failure(Unbound);
    }
    return Success(LineSearch(found.value.value, found.value.rounds));
  }

  /** A successful choose_lamda ran between 1 and max_iter rounds. */
  lemma {:induction false} LamdaRounds(P: Problem, q: LamdaQuery, lamda0: real, eps: real, maxIter: nat)
    requires LamdaSearch(P, q, lamda0, eps, maxIter).Success?
    ensures 1 <= LamdaSearch(P, q, lamda0, eps, maxIter).value.rounds <= maxIter
  {
    RoundsInRange(LamdaTest(P, q, LamdaTolerance(P, q).value), lamda0, eps, 0, maxIter);
  }

  /** Rounds the criterion turns down are rounds the search turns down. */
  lemma {:induction false} LamdaRejectsBefore(P: Problem, q: LamdaQuery, tolerance: real, lamda0: real, eps: real, n: nat)
    requires KnownCriterion(q.criterion)
    requires forall j: nat :: j < n ==> !LamdaAccepts(P, q, tolerance, Trial(lamda0, eps, j))
    ensures RejectsBefore(LamdaTest(P, q, tolerance), lamda0, eps, n)
  {
  }

  /** If round n accepts after n rejections, choose_lamda returns (lamda0 * eps^n, n + 1). */
  lemma {:induction false} LamdaFirstAccepted(P: Problem, q: LamdaQuery, lamda0: real, eps: real, maxIter: nat, tolerance: real, n: nat)
    requires KnownCriterion(q.criterion) && LamdaTolerance(P, q) == Success(tolerance)
    requires n < maxIter
    requires forall j: nat :: j < n ==> !LamdaAccepts(P, q, tolerance, Trial(lamda0, eps, j))
    requires LamdaAccepts(P, q, tolerance, Trial(lamda0, eps, n))
    ensures LamdaSearch(P, q, lamda0, eps, maxIter) == Success(LineSearch(Trial(lamda0, eps, n), n + 1))
  {
    LamdaRejectsBefore(P, q, tolerance, lamda0, eps, n);
    assert LamdaTest(P, q, tolerance)(Trial(lamda0, eps, n)) == Success(true);
    StopsAtFirstAccepted(LamdaTest(P, q, tolerance), lamda0, eps, maxIter, n);
  }

  /** If no round accepts, choose_lamda returns (lamda0 * eps^max_iter, max_iter). */
  lemma {:induction false} LamdaNoneAccepted(P: Problem, q: LamdaQuery, lamda0: real, eps: real, maxIter: nat, tolerance: real)
    requires KnownCriterion(q.criterion) && LamdaTolerance(P, q) == Success(tolerance)
    requires maxIter >= 1
    requires forall j: nat :: j < maxIter ==> !LamdaAccepts(P, q, tolerance, Trial(lamda0, eps, j))
    ensures LamdaSearch(P, q, lamda0, eps, maxIter) == Success(LineSearch(Trial(lamda0, eps, maxIter), maxIter))
  {
    LamdaRejectsBefore(P, q, tolerance, lamda0, eps, maxIter);
    ExhaustsWhenAllRejected(LamdaTest(P, q, tolerance), lamda0, eps, maxIter);
  }

  /** A criterion outside 'a', 'b', 'c' raises ValueError in the first round. */
  lemma {:induction false} LamdaBadCriterion(P: Problem, q: LamdaQuery, lamda0: real, eps: real, maxIter: nat)
    requires !KnownCriterion(q.criterion) && maxIter >= 1
    ensures LamdaSearch(P, q, lamda0, eps, maxIter) == Failure(BadCriterion)
  {
    RaisesAtFirstError(LamdaTest(P, q, 0.0), lamda0, eps, maxIter, 0, BadCriterion);
  }

  /** Criterion 'c' accepts only a lamda that passes the eigenvalue gate. */
  lemma {:induction false} ObjectiveNeedsGate(P: Problem, q: LamdaQuery, tolerance: real, lamda: real)
    requires q.criterion == "c" && LamdaAccepts(P, q, tolerance, lamda)
    ensures P.minEigen(q.prox) >= 0.0 ==> lamda > 0.0
    ensures P.minEigen(q.prox) < 0.0 && q.minEigenX != P.minEigen(q.prox) ==>
              lamda < q.minEigenX / (q.minEigenX - P.minEigen(q.prox))
  {
  }

  /** choose_lamda raises only on a zero step, an unknown criterion, or max_iter == 0. */
  lemma {:induction false} LamdaErrors(P: Problem, q: LamdaQuery, lamda0: real, eps: real, maxIter: nat)
    requires LamdaSearch(P, q, lamda0, eps, maxIter).Failure?
    ensures LamdaSearch(P, q, lamda0, eps, maxIter).error in {ZeroDivision, BadCriterion, Unbound}
  {
    var e := LamdaSearch(P, q, lamda0, eps, maxIter).error;
    if LamdaTolerance(P, q).Success? {
      var test := LamdaTest(P, q, LamdaTolerance(P, q).value);
      if Backtrack(test, lamda0, eps, 0, maxIter).Failure? {
        FailsOnlyByTest(test, lamda0, eps, 0, maxIter, e);
      }
    }
  }

  // ---------------------------------------------------------------------
  // upper_diag_3d and the convergence record

  /** np.triu(A, 1): the entries strictly above the diagonal, zeros elsewhere, same shape. */
  function MTriu(A: Matrix): Matrix
  {
    seq(|A|, i requires 0 <= i < |A| => seq(|A[i]|, j requires 0 <= j < |A[i]| => if i < j then A[i][j] else 0.0))
  }

  /** upper_diag_3d: np.triu(x, 1) slice by slice. */
  function Triu(S: Stack): Stack
  {
    seq(|S|, t requires 0 <= t < |S| => MTriu(S[t]))
  }

  /** upper_diag_3d keeps the shape, keeps the strictly upper entries and zeroes the rest. */
  lemma {:induction false} TriuEntries(S: Stack)
    ensures SameShape(Triu(S), S)
    ensures forall t, i, j :: InRange(S, t, i, j) ==> Triu(S)[t][i][j] == if i < j then S[t][i][j] else 0.0
  {
    LengthsSameShape(Triu(S), S);
  }

  /** upper_diag_3d is idempotent. */
  lemma {:induction false} TriuIdempotent(S: Stack)
    ensures Triu(Triu(S)) == Triu(S)
  {
    TriuEntries(S);
    TriuEntries(Triu(S));
    forall t, i, j | InRange(Triu(Triu(S)), t, i, j)
      ensures Entry(Triu(Triu(S)), t, i, j) == Entry(Triu(S), t, i, j)
    {
      SameShapeInRange(Triu(Triu(S)), S, t, i, j);
    }
    StackExt(Triu(Triu(S)), Triu(S));
  }

  /** upper_diag_3d commutes with the difference used for rnorm. */
  lemma {:induction false} TriuSub(S: Stack, T: Stack)
    requires SameShape(S, T)
    ensures Triu(Sub(S, T)) == Sub(Triu(S), Triu(T))
  {
    TriuEntries(S);
    TriuEntries(T);
    TriuEntries(Sub(S, T));
    SubShape(S, T);
    SubShape(Triu(S), Triu(T));
    forall t, i, j | InRange(Triu(Sub(S, T)), t, i, j)
      ensures Entry(Triu(Sub(S, T)), t, i, j) == Entry(Sub(Triu(S), Triu(T)), t, i, j)
    {
      SameShapeInRange(Triu(Sub(S, T)), S, t, i, j);
      SameShapeInRange(S, T, t, i, j);
      SameShapeInRange(S, Triu(S), t, i, j);
      SameShapeInRange(S, Sub(S, T), t, i, j);
      SubEntry(S, T, t, i, j);
      SubEntry(Triu(S), Triu(T), t, i, j);
    }
    StackExt(Triu(Sub(S, T)), Sub(Triu(S), Triu(T)));
  }

  /** convergence(obj, rnorm, snorm, e_pri, e_dual, precision). */
  datatype Check = Check(obj: real, rnorm: real, snorm: real, ePri: real, eDual: real, precision: Stack)

  /** The record of one iteration from K_prev to K with tolerance tol. */
  function Convergence(P: Problem, K: Stack, Kprev: Stack, tol: real): Check
  {
    Check(
      Objective(P, K),
      Norm(P, Sub(Triu(K), Triu(Kprev))),
      Abs(Objective(P, K) - Objective(P, Kprev)),
      P.sqrt(Size(Triu(K)) as real) * tol + tol * Max(Norm(P, Triu(K)), Norm(P, Triu(Kprev))),
      tol,
      K)
  }

  // ---------------------------------------------------------------------
  // time_graph_lasso

  /** The arguments of time_graph_lasso that steer the loop. */
  datatype Options = Options(
    maxIter: nat,
    tol: real,
    delta: real,
    gamma: real,
    lamda: real,
    eps: real,
    debug: bool,
    returnHistory: bool,
    returnNIter: bool,
    choose: string,
    lamdaCriterion: string,
    returnNLinesearch: bool)

  predicate KnownChoose(choose: string)
  {
    choose == "gamma" || choose == "lamda" || choose == "fixed" || choose == "both"
  }

  predicate ChoosesGamma(o: Options) { o.choose == "gamma" || o.choose == "both" }

  predicate ChoosesLamda(o: Options) { o.choose == "lamda" || o.choose == "both" }

  /** covariance_: 0.95 times the empirical covariance, with its diagonal kept. */
  function Shrink(S: Stack): Stack
  {
    seq(|S|, t requires 0 <= t < |S| =>
      seq(|S[t]|, i requires 0 <= i < |S[t]| =>
        seq(|S[t][i]|, j requires 0 <= j < |S[t][i]| => if i == j then S[t][i][j] else 0.95 * S[t][i][j])))
  }

  /** The damped covariance keeps the shape and the diagonal, scales the rest and keeps symmetry. */
  lemma {:induction false} ShrinkEntries(S: Stack)
    ensures SameShape(Shrink(S), S)
    ensures forall t, i :: 0 <= t < |S| && 0 <= i < |S[t]| && i < |S[t][i]| ==> Shrink(S)[t][i][i] == S[t][i][i]
    ensures forall t, i, j :: InRange(S, t, i, j) && i != j ==> Shrink(S)[t][i][j] == 0.95 * S[t][i][j]
    ensures forall t :: 0 <= t < |S| && IsSymmetric(S[t]) ==> IsSymmetric(Shrink(S)[t])
  {
    LengthsSameShape(Shrink(S), S);
  }

  /** The starting precision: the pseudo-inverse of each damped covariance slice. */
  function Start(P: Problem, S: Stack): (K: Stack)
    ensures |K| == |S|
    ensures forall t :: 0 <= t < |S| ==> K[t] == P.pinv(Shrink(S)[t])
  {
    seq(|S|, t requires 0 <= t < |S| => P.pinv(Shrink(S)[t]))
  }

  /** The loop that fills K slice by slice with pinvh of the damped covariance. */
  method InitialPrecision(P: Problem, S: Stack) returns (K: Stack)
    ensures K == Start(P, S)
  {
    var covariance := Shrink(S);
    K := [];
    for t := 0 to |S|
      invariant K == Start(P, S)[..t]
    {
      K := K + [P.pinv(covariance[t])];
    }
  }

  /** What the loop carries from one iteration to the next. */
  datatype Solver = Solver(K: Stack, gamma: real, lamda: real, maxResidual: Option<real>, nLinesearch: nat, checks: seq<Check>)

  /** How one iteration ends: halted before any work (K not positive definite), stopped, or continuing. */
  datatype Turn = Halted | Stopped(next: Solver) | Continued(next: Solver)

  /** The step for iteration i: choose_gamma from gamma / eps (from gamma in iteration 0) over 200 rounds. */
  function NextGamma(P: Problem, o: Options, s: Solver, grad: Stack, i: nat): Result<real, Error>
  {
    if !ChoosesGamma(o) then Success(s.gamma)
    else if i > 0 && o.eps == 0.0 then Failure(ZeroDivision)
    else GammaSearch(P, if i > 0 then s.gamma / o.eps else s.gamma, s.K, s.lamda, grad, o.delta, o.eps, 200)
  }

  /** Python's min(x, 1). */
  function AtMostOne(x: real): real { if 1.0 < x then 1.0 else x }

  /** The relaxation for iteration i: choose_lamda from min(lamda / eps, 1) (from min(lamda, 1) in iteration 0). */
  function NextLamda(P: Problem, o: Options, s: Solver, grad: Stack, y: Stack, gamma: real, i: nat): Result<LineSearch, Error>
  {
    if !ChoosesLamda(o) then Success(LineSearch(s.lamda, 0))
    else if i > 0 && o.eps == 0.0 then Failure(ZeroDivision)
    else
      var q := LamdaQuery(s.K, grad, y, gamma, o.delta, o.lamdaCriterion, P.minEigen(s.K));
      LamdaSearch(P, q, AtMostOne(if i > 0 then s.lamda / o.eps else s.lamda), o.eps, 200)
  }

  /** The accept step K + max(lamda, 0) (y - K). */
  function Relax(K: Stack, y: Stack, lamda: real): Stack
  {
    Towards(K, y, Max(lamda, 0.0))
  }

  /** A non-positive lamda leaves K as it is. */
  lemma {:induction false} RelaxNonPositive(K: Stack, y: Stack, lamda: real)
    requires lamda <= 0.0
    ensures Relax(K, y, lamda) == K
  {
    assert Max(lamda, 0.0) == 0.0;
    var D := Scale(0.0, Sub(y, K));
    AddShape(K, D);
    ScaleShape(0.0, Sub(y, K));
    forall t, i, j | InRange(Add(K, D), t, i, j)
      ensures Entry(Add(K, D), t, i, j) == Entry(K, t, i, j)
    {
      SameShapeInRange(Add(K, D), K, t, i, j);
      AddEntry(K, D, t, i, j);
      if InRange(D, t, i, j) {
        SameShapeInRange(D, Sub(y, K), t, i, j);
        ScaleEntry(0.0, Sub(y, K), t, i, j);
      }
    }
    StackExt(Add(K, D), K);
  }

  /** lamda = 1 moves K all the way to y. */
  lemma {:induction false} RelaxOne(K: Stack, y: Stack)
    requires SameShape(K, y)
    ensures Relax(K, y, 1.0) == y
  {
    var D := Scale(1.0, Sub(y, K));
    AddShape(K, D);
    forall t, i, j | InRange(Add(K, D), t, i, j)
      ensures Entry(Add(K, D), t, i, j) == Entry(y, t, i, j)
    {
      SameShapeInRange(Add(K, D), K, t, i, j);
      SameShapeInRange(K, y, t, i, j);
      AddEntry(K, D, t, i, j);
      SubEntry(y, K, t, i, j);
      ScaleEntry(1.0, Sub(y, K), t, i, j);
    }
    StackExt(Add(K, D), y);
  }

  /** res_norm = ||K - K_prev|| / gamma. */
  function Residual(P: Problem, K: Stack, Kprev: Stack, gamma: real): real
  {
    if gamma != 0.0 then Norm(P, Sub(K, Kprev)) / gamma else 0.0
  }

  /** subgrad = (x_hat - K) / gamma with x_hat = K_prev - gamma * grad. */
  function Subgradient(Kprev: Stack, grad: Stack, K: Stack, gamma: real): Stack
  {
    if gamma != 0.0 then Scale(1.0 / gamma, Sub(Sub(Kprev, Scale(gamma, grad)), K)) else Kprev
  }

  /** max(max_residual, res_norm), max_residual starting at -inf. */
  function RunningMax(maxResidual: Option<real>, res: real): (r: real)
    ensures r >= res
    ensures maxResidual.Some? ==> r >= maxResidual.value
    ensures r == res || (maxResidual.Some? && r == maxResidual.value)
  {
    match maxResidual
    case None => res
    case Some(m) => Max(m, res)
  }

  /** The stopping test: not debugging, past iteration 0, and a relative residual within tol. */
  predicate Stops(o: Options, i: nat, res: real, maxResidual: real, normalizer: real)
  {
    !o.debug && (QuotientAtMost(res, maxResidual, o.tol) || QuotientAtMost(res, normalizer, o.tol)) && i > 0
  }

  /** Everything after the searches: the relaxed update, the record, the residuals and the stopping test. */
  function Update(P: Problem, o: Options, s: Solver, i: nat, grad: Stack, gamma: real, y: Stack, search: LineSearch): Turn
  {
    var K := Relax(s.K, y, search.lamda);
    var res := Residual(P, K, s.K, gamma);
    var maxResidual := RunningMax(s.maxResidual, res);
    var normalizer := Max(Norm(P, grad), Norm(P, Subgradient(s.K, grad, K, gamma))) + 0.000001;
    var checks := if o.returnHistory then s.checks + [Convergence(P, K, s.K, o.tol)] else s.checks;
    var next := Solver(K, gamma, search.lamda, Some(maxResidual), s.nLinesearch + search.rounds, checks);
    if Stops(o, i, res, maxResidual, normalizer) then Stopped(next) else Continued(next)
  }

  /** Iteration i of the loop, with the stray print of n_ls dropped. */
  function Step(P: Problem, o: Options, s: Solver, i: nat): Result<Turn, Error>
  {
    if !P.positiveDefinite(s.K) then Success(Halted)
    else
      var grad := Grad(P, s.K);
      match NextGamma(P, o, s, grad, i)
      case Failure(e) => Failure(e)
      case Success(gamma) =>
        var y := ProxPoint(P, s.K, grad, gamma);
        match NextLamda(P, o, s, grad, y, gamma, i)
        case Failure(e) => Failure(e)
        case Success(search) => Success(Update(P, o, s, i, grad, gamma, y, search))
  }

  /**
   * Iteration i as written: after the searches it prints n_ls, which only
   * choose_lamda binds, so with choose 'gamma' or 'fixed' every iteration
   * that gets that far raises.
   */
  function StepAsWritten(P: Problem, o: Options, s: Solver, i: nat): Result<Turn, Error>
  {
    if ChoosesLamda(o) then Step(P, o, s, i)
    else
      match Step(P, o, s, i)
      case Success(Halted) => Success(Halted)
      case Failure(e) => Failure(e)
      case Success(_) => Failure(Unbound)
  }

  ghost function StepOf(P: Problem, o: Options): (Solver, nat) -> Result<Turn, Error>
  {
    (s: Solver, i: nat) => Step(P, o, s, i)
  }

  ghost function StepAsWrittenOf(P: Problem, o: Options): (Solver, nat) -> Result<Turn, Error>
  {
    (s: Solver, i: nat) => StepAsWritten(P, o, s, i)
  }

  /** Where the loop ended: the last state and iteration_ + 1. */
  datatype Ended = Ended(state: Solver, iterations: nat)

  /** The iterations i .. maxIter - 1 of the loop. */
  ghost function Run(step: (Solver, nat) -> Result<Turn, Error>, s: Solver, i: nat, maxIter: nat): Result<Ended, Error>
    requires i <= maxIter
    decreases maxIter - i
  {
    if i == maxIter then Success(Ended(s, i))
    else
      match step(s, i)
      case Failure(e) => Failure(e)
      case Success(Halted) => Success(Ended(s, i + 1))
      case Success(Stopped(next)) => Success(Ended(next, i + 1))
      case Success(Continued(next)) => Run(step, next, i + 1, maxIter)
  }

  /** The return list: K, covariance_, then the history, n_iter and n_linesearch when asked for. */
  datatype Output = Output(
    precision: Stack,
    covariance: Stack,
    history: Option<seq<Check>>,
    nIter: Option<nat>,
    nLinesearch: Option<nat>)

  /** The return list after the loop; with max_iter == 0 `iteration_` was never bound. */
  function Finish(o: Options, S: Stack, e: Ended): Result<Output, Error>
  {
    if o.returnNIter && e.iterations == 0 then Failure(Unbound)
    else
      Success(Output(
        e.state.K,
        Shrink(S),
        if o.returnHistory then Some(e.state.checks) else None,
        if o.returnNIter then Some(e.iterations) else None,
        if o.returnNLinesearch then Some(e.state.nLinesearch) else None))
  }

  function Initial(P: Problem, o: Options, S: Stack): Solver
  {
    Solver(Start(P, S), o.gamma, o.lamda, None, 0, [])
  }

  /** time_graph_lasso on the empirical covariance S, given the loop's step. */
  ghost function Solve(P: Problem, o: Options, S: Stack, step: (Solver, nat) -> Result<Turn, Error>): Result<Output, Error>
  {
    if !KnownChoose(o.choose) then Failure(BadChoose)
    else
      match Run(step, Initial(P, o, S), 0, o.maxIter)
      case Failure(e) => Failure(e)
      case Success(e) => Finish(o, S, e)
  }

  ghost function TimeGraphLassoSpec(P: Problem, o: Options, S: Stack): Result<Output, Error>
  {
    Solve(P, o, S, StepOf(P, o))
  }

  ghost function TimeGraphLassoAsWritten(P: Problem, o: Options, S: Stack): Result<Output, Error>
  {
    Solve(P, o, S, StepAsWrittenOf(P, o))
  }

  /** An iteration that does not halt ran both searches and ends in their update. */
  lemma {:induction false} StepParts(P: Problem, o: Options, s: Solver, i: nat)
    requires Step(P, o, s, i).Success? && Step(P, o, s, i).value != Halted
    ensures P.positiveDefinite(s.K) && NextGamma(P, o, s, Grad(P, s.K), i).Success?
    ensures var grad := Grad(P, s.K);
            var gamma := NextGamma(P, o, s, grad, i).value;
            var y := ProxPoint(P, s.K, grad, gamma);
            && NextLamda(P, o, s, grad, y, gamma, i).Success?
            && Step(P, o, s, i).value == Update(P, o, s, i, grad, gamma, y, NextLamda(P, o, s, grad, y, gamma, i).value)
  {
  }

  /** When K is positive definite and both searches succeed, the iteration ends in their update. */
  lemma {:induction false} StepReachesUpdate(P: Problem, o: Options, s: Solver, i: nat)
    requires P.positiveDefinite(s.K) && NextGamma(P, o, s, Grad(P, s.K), i).Success?
    requires var grad := Grad(P, s.K);
             var gamma := NextGamma(P, o, s, grad, i).value;
             NextLamda(P, o, s, grad, ProxPoint(P, s.K, grad, gamma), gamma, i).Success?
    ensures Step(P, o, s, i).Success? && Step(P, o, s, i).value != Halted
  {
    var grad := Grad(P, s.K);
    var gamma := NextGamma(P, o, s, grad, i).value;
    var y := ProxPoint(P, s.K, grad, gamma);
    UpdateFields(P, o, s, i, grad, gamma, y, NextLamda(P, o, s, grad, y, gamma, i).value);
  }

  /**
   * The update records what the loop keeps: the relaxed K, the step, the
   * running maximum of the residual, the line-search count and the history
   * entry when asked for; it stops exactly when the stopping test holds.
   */
  lemma {:induction false} UpdateFields(P: Problem, o: Options, s: Solver, i: nat, grad: Stack, gamma: real, y: Stack, search: LineSearch)
    ensures var t := Update(P, o, s, i, grad, gamma, y, search);
            var res := Residual(P, t.next.K, s.K, gamma);
            && t != Halted
            && t.next.K == Relax(s.K, y, search.lamda)
            && t.next.gamma == gamma
            && t.next.lamda == search.lamda
            && t.next.maxResidual == Some(RunningMax(s.maxResidual, res))
            && t.next.nLinesearch == s.nLinesearch + search.rounds
            && t.next.checks == (if o.returnHistory then s.checks + [Convergence(P, t.next.K, s.K, o.tol)] else s.checks)
            && (t.Stopped? <==>
                  Stops(o, i, res, t.next.maxResidual.value,
                        Max(Norm(P, grad), Norm(P, Subgradient(s.K, grad, t.next.K, gamma))) + 0.000001))
  {
  }

  /** The loop never stops in iteration 0 or while debugging. */
  lemma {:induction false} StopNeedsProgress(P: Problem, o: Options, s: Solver, i: nat)
    requires Step(P, o, s, i).Success? && Step(P, o, s, i).value.Stopped?
    ensures !o.debug && i > 0
  {
    StepParts(P, o, s, i);
    var grad := Grad(P, s.K);
    var gamma := NextGamma(P, o, s, grad, i).value;
    var y := ProxPoint(P, s.K, grad, gamma);
    UpdateFields(P, o, s, i, grad, gamma, y, NextLamda(P, o, s, grad, y, gamma, i).value);
  }

  /** With gamma > 0 and eps > 0 every later step size stays positive. */
  lemma {:induction false} StepKeepsGammaPositive(P: Problem, o: Options, s: Solver, i: nat)
    requires s.gamma > 0.0 && o.eps > 0.0
    requires Step(P, o, s, i).Success? && Step(P, o, s, i).value != Halted
    ensures Step(P, o, s, i).value.next.gamma > 0.0
  {
    StepParts(P, o, s, i);
    var grad := Grad(P, s.K);
    NextGammaPositive(P, o, s, grad, i);
    var gamma := NextGamma(P, o, s, grad, i).value;
    var y := ProxPoint(P, s.K, grad, gamma);
    UpdateFields(P, o, s, i, grad, gamma, y, NextLamda(P, o, s, grad, y, gamma, i).value);
  }

  /** The step chosen for an iteration stays positive while gamma > 0 and eps > 0, and is never an error then. */
  lemma {:induction false} NextGammaPositive(P: Problem, o: Options, s: Solver, grad: Stack, i: nat)
    requires s.gamma > 0.0 && o.eps > 0.0
    ensures NextGamma(P, o, s, grad, i).Success? && NextGamma(P, o, s, grad, i).value > 0.0
  {
    if ChoosesGamma(o) {
      var gamma0 := if i > 0 then s.gamma / o.eps else s.gamma;
      QuotientPositive(s.gamma, o.eps);
      GammaPositive(P, gamma0, s.K, s.lamda, grad, o.delta, o.eps, 200);
    }
  }

  lemma {:induction false} QuotientPositive(a: real, b: real)
    requires a > 0.0 && b > 0.0
    ensures a / b > 0.0
  {
    assert a / b * b == a;
  }

  /** The errors an iteration can raise; ValueError for `choose` is not among them. */
  lemma {:induction false} StepErrors(P: Problem, o: Options, s: Solver, i: nat)
    requires Step(P, o, s, i).Failure?
    ensures Step(P, o, s, i).error in {ZeroDivision, BadCriterion, Unbound}
  {
    var grad := Grad(P, s.K);
    if ChoosesGamma(o) && !(i > 0 && o.eps == 0.0) {
      var gamma0 := if i > 0 then s.gamma / o.eps else s.gamma;
      if GammaSearch(P, gamma0, s.K, s.lamda, grad, o.delta, o.eps, 200).Failure? {
        GammaErrors(P, gamma0, s.K, s.lamda, grad, o.delta, o.eps, 200);
        return;
      }
    }
    if NextGamma(P, o, s, grad, i).Failure? {
      return;
    }
    var gamma := NextGamma(P, o, s, grad, i).value;
    var y := ProxPoint(P, s.K, grad, gamma);
    if ChoosesLamda(o) && !(i > 0 && o.eps == 0.0) {
      var q := LamdaQuery(s.K, grad, y, gamma, o.delta, o.lamdaCriterion, P.minEigen(s.K));
      LamdaErrors(P, q, AtMostOne(if i > 0 then s.lamda / o.eps else s.lamda), o.eps, 200);
    }
  }

  /** The iterations from i end between i and maxIter, after i when any remain. */
  lemma {:induction false} RunIterations(step: (Solver, nat) -> Result<Turn, Error>, s: Solver, i: nat, maxIter: nat)
    requires i <= maxIter && Run(step, s, i, maxIter).Success?
    ensures i <= Run(step, s, i, maxIter).value.iterations <= maxIter
    ensures i < maxIter ==> Run(step, s, i, maxIter).value.iterations > i
    decreases maxIter - i
  {
    if i < maxIter && step(s, i).Success? && step(s, i).value.Continued? {
      RunIterations(step, step(s, i).value.next, i + 1, maxIter);
    }
  }

  /** An iteration adds at most one record to the history, and none without return_history. */
  lemma {:induction false} StepHistory(P: Problem, o: Options, s: Solver, i: nat)
    requires Step(P, o, s, i).Success? && Step(P, o, s, i).value != Halted
    ensures s.checks <= Step(P, o, s, i).value.next.checks
    ensures |Step(P, o, s, i).value.next.checks| <= |s.checks| + 1
    ensures !o.returnHistory ==> Step(P, o, s, i).value.next.checks == s.checks
    ensures o.returnHistory ==>
      Step(P, o, s, i).value.next.checks == s.checks + [Convergence(P, Step(P, o, s, i).value.next.K, s.K, o.tol)]
  {
    StepParts(P, o, s, i);
    var grad := Grad(P, s.K);
    var gamma := NextGamma(P, o, s, grad, i).value;
    var y := ProxPoint(P, s.K, grad, gamma);
    UpdateFields(P, o, s, i, grad, gamma, y, NextLamda(P, o, s, grad, y, gamma, i).value);
  }

  /** Every iteration of `step` keeps the history as a prefix and adds at most one record, none unless `record`. */
  ghost predicate GrowsHistory(step: (Solver, nat) -> Result<Turn, Error>, record: bool)
  {
    forall s: Solver, i: nat :: step(s, i).Success? && step(s, i).value != Halted ==>
      s.checks <= step(s, i).value.next.checks && |step(s, i).value.next.checks| <= |s.checks| + 1 &&
      (!record ==> step(s, i).value.next.checks == s.checks)
  }

  /** With return_history, every iteration of `step` that does not halt appends the convergence record of its new K against the old. */
  ghost predicate RecordsConvergence(P: Problem, step: (Solver, nat) -> Result<Turn, Error>, tol: real)
  {
    forall s: Solver, i: nat :: step(s, i).Success? && step(s, i).value != Halted ==>
      step(s, i).value.next.checks == s.checks + [Convergence(P, step(s, i).value.next.K, s.K, tol)]
  }

  lemma {:induction false} StepGrowsHistory(P: Problem, o: Options)
    ensures GrowsHistory(StepOf(P, o), o.returnHistory)
    ensures o.returnHistory ==> RecordsConvergence(P, StepOf(P, o), o.tol)
  {
    forall s: Solver, i: nat | Step(P, o, s, i).Success? && Step(P, o, s, i).value != Halted
      ensures s.checks <= Step(P, o, s, i).value.next.checks
      ensures |Step(P, o, s, i).value.next.checks| <= |s.checks| + 1
      ensures !o.returnHistory ==> Step(P, o, s, i).value.next.checks == s.checks
      ensures o.returnHistory ==>
        Step(P, o, s, i).value.next.checks == s.checks + [Convergence(P, Step(P, o, s, i).value.next.K, s.K, o.tol)]
    {
      StepHistory(P, o, s, i);
    }
  }

  /** Without `record` the loop leaves the history alone; with it, one entry per iteration at most. */
  lemma {:induction false} RunHistory(step: (Solver, nat) -> Result<Turn, Error>, record: bool, s: Solver, i: nat, maxIter: nat)
    requires GrowsHistory(step, record)
    requires i <= maxIter && Run(step, s, i, maxIter).Success?
    requires |s.checks| <= i
    ensures s.checks <= Run(step, s, i, maxIter).value.state.checks
    ensures |Run(step, s, i, maxIter).value.state.checks| <= Run(step, s, i, maxIter).value.iterations
    ensures !record ==> Run(step, s, i, maxIter).value.state.checks == s.checks
    decreases maxIter - i
  {
    if i < maxIter && step(s, i).Success? && step(s, i).value.Continued? {
      RunHistory(step, record, step(s, i).value.next, i + 1, maxIter);
    }
  }

  /** `step` never raises e. */
  ghost predicate NeverRaises(step: (Solver, nat) -> Result<Turn, Error>, e: Error)
  {
    forall s: Solver, i: nat :: step(s, i) != Failure(e)
  }

  lemma {:induction false} StepNeverRaisesBadChoose(P: Problem, o: Options)
    ensures NeverRaises(StepOf(P, o), BadChoose)
  {
    forall s: Solver, i: nat ensures Step(P, o, s, i) != Failure(BadChoose) {
      if Step(P, o, s, i).Failure? {
        StepErrors(P, o, s, i);
      }
    }
  }

  /** A loop whose iterations never raise e never raises e. */
  lemma {:induction false} RunNeverRaises(step: (Solver, nat) -> Result<Turn, Error>, e: Error, s: Solver, i: nat, maxIter: nat)
    requires NeverRaises(step, e) && i <= maxIter
    ensures Run(step, s, i, maxIter) != Failure(e)
    decreases maxIter - i
  {
    if i < maxIter && step(s, i).Success? && step(s, i).value.Continued? {
      RunNeverRaises(step, e, step(s, i).value.next, i + 1, maxIter);
    }
  }

  /** time_graph_lasso raises ValueError for `choose` exactly when `choose` is unknown. */
  lemma {:induction false} ChooseValidatedFirst(P: Problem, o: Options, S: Stack)
    ensures TimeGraphLassoSpec(P, o, S) == Failure(BadChoose) <==> !KnownChoose(o.choose)
  {
    StepNeverRaisesBadChoose(P, o);
    RunNeverRaises(StepOf(P, o), BadChoose, Initial(P, o, S), 0, o.maxIter);
  }

  /** The returned n_iter, iteration_ + 1, lies between 1 and max_iter. */
  lemma {:induction false} IterationCount(P: Problem, o: Options, S: Stack)
    requires TimeGraphLassoSpec(P, o, S).Success? && TimeGraphLassoSpec(P, o, S).value.nIter.Some?
    ensures 1 <= TimeGraphLassoSpec(P, o, S).value.nIter.value <= o.maxIter
  {
    RunIterations(StepOf(P, o), Initial(P, o, S), 0, o.maxIter);
  }

  /** The returned history holds at most one record per iteration. */
  lemma {:induction false} HistoryLength(P: Problem, o: Options, S: Stack)
    requires TimeGraphLassoSpec(P, o, S).Success? && TimeGraphLassoSpec(P, o, S).value.history.Some?
    ensures |TimeGraphLassoSpec(P, o, S).value.history.value| <= o.maxIter
  {
    StepGrowsHistory(P, o);
    RunHistory(StepOf(P, o), o.returnHistory, Initial(P, o, S), 0, o.maxIter);
    RunIterations(StepOf(P, o), Initial(P, o, S), 0, o.maxIter);
  }

  /**
   * As written, with choose 'gamma' or 'fixed' a positive-definite start
   * makes the first iteration reach the print of n_ls and raise.
   */
  lemma {:induction false} AsWrittenRaisesWithoutLamda(P: Problem, o: Options, S: Stack)
    requires KnownChoose(o.choose) && !ChoosesLamda(o)
    requires o.maxIter > 0 && o.gamma > 0.0 && o.eps > 0.0
    requires P.positiveDefinite(Start(P, S))
    ensures TimeGraphLassoAsWritten(P, o, S) == Failure(Unbound)
  {
    var s := Initial(P, o, S);
    AsWrittenStepRaises(P, o, s, 0);
    assert StepAsWrittenOf(P, o)(s, 0) == Failure(Unbound);
  }

  /** As written, an iteration without choose_lamda that gets past the searches raises at the print. */
  lemma {:induction false} AsWrittenStepRaises(P: Problem, o: Options, s: Solver, i: nat)
    requires !ChoosesLamda(o) && s.gamma > 0.0 && o.eps > 0.0 && P.positiveDefinite(s.K)
    ensures StepAsWritten(P, o, s, i) == Failure(Unbound)
  {
    NextGammaPositive(P, o, s, Grad(P, s.K), i);
    StepReachesUpdate(P, o, s, i);
  }

  /** `step` and `other` take every state to the same outcome. */
  ghost predicate SameSteps(step: (Solver, nat) -> Result<Turn, Error>, other: (Solver, nat) -> Result<Turn, Error>)
  {
    forall s: Solver, i: nat :: step(s, i) == other(s, i)
  }

  lemma {:induction false} RunSameSteps(step: (Solver, nat) -> Result<Turn, Error>, other: (Solver, nat) -> Result<Turn, Error>,
                                        s: Solver, i: nat, maxIter: nat)
    requires SameSteps(step, other) && i <= maxIter
    ensures Run(step, s, i, maxIter) == Run(other, s, i, maxIter)
    decreases maxIter - i
  {
    if i < maxIter && step(s, i).Success? && step(s, i).value.Continued? {
      RunSameSteps(step, other, step(s, i).value.next, i + 1, maxIter);
    }
  }

  /** With n_ls bound by choose_lamda the program as written and the corrected one agree. */
  lemma {:induction false} AsWrittenAgreesWithLamda(P: Problem, o: Options, S: Stack)
    requires ChoosesLamda(o)
    ensures TimeGraphLassoAsWritten(P, o, S) == TimeGraphLassoSpec(P, o, S)
  {
    assert SameSteps(StepAsWrittenOf(P, o), StepOf(P, o));
    RunSameSteps(StepAsWrittenOf(P, o), StepOf(P, o), Initial(P, o, S), 0, o.maxIter);
  }

  /** `step` never raises from a state with gamma > 0 and keeps gamma > 0. */
  ghost predicate SucceedsWhilePositive(step: (Solver, nat) -> Result<Turn, Error>)
  {
    forall s: Solver, i: nat :: s.gamma > 0.0 ==>
      step(s, i).Success? && (step(s, i).value != Halted ==> step(s, i).value.next.gamma > 0.0)
  }

  /** In the corrected loop an iteration without choose_lamda never raises while gamma > 0 and eps > 0. */
  lemma {:induction false} StepWithoutLamda(P: Problem, o: Options)
    requires !ChoosesLamda(o) && o.eps > 0.0
    ensures SucceedsWhilePositive(StepOf(P, o))
  {
    forall s: Solver, i: nat | s.gamma > 0.0
      ensures Step(P, o, s, i).Success?
      ensures Step(P, o, s, i).value != Halted ==> Step(P, o, s, i).value.next.gamma > 0.0
    {
      NextGammaPositive(P, o, s, Grad(P, s.K), i);
      if P.positiveDefinite(s.K) {
        StepReachesUpdate(P, o, s, i);
        StepKeepsGammaPositive(P, o, s, i);
      }
    }
  }

  lemma {:induction false} RunSucceeds(step: (Solver, nat) -> Result<Turn, Error>, s: Solver, i: nat, maxIter: nat)
    requires SucceedsWhilePositive(step) && s.gamma > 0.0 && i <= maxIter
    ensures Run(step, s, i, maxIter).Success?
    decreases maxIter - i
  {
    if i < maxIter && step(s, i).value.Continued? {
      RunSucceeds(step, step(s, i).value.next, i + 1, maxIter);
    }
  }

  /**
   * The corrected loop: with choose 'gamma' or 'fixed', gamma > 0 and
   * eps > 0, time_graph_lasso returns (n_iter is bound once max_iter > 0).
   */
  lemma {:induction false} CorrectedRunsWithoutLamda(P: Problem, o: Options, S: Stack)
    requires KnownChoose(o.choose) && !ChoosesLamda(o)
    requires o.gamma > 0.0 && o.eps > 0.0 && (o.returnNIter ==> o.maxIter > 0)
    ensures TimeGraphLassoSpec(P, o, S).Success?
  {
    StepWithoutLamda(P, o);
    RunSucceeds(StepOf(P, o), Initial(P, o, S), 0, o.maxIter);
    RunIterations(StepOf(P, o), Initial(P, o, S), 0, o.maxIter);
  }

  /** One iteration of the loop body. */
  method Iterate(P: Problem, o: Options, s: Solver, i: nat) returns (r: Result<Turn, Error>)
    ensures r == Step(P, o, s, i)
  {
    if !P.positiveDefinite(s.K) {
      return Success(Halted);
    }
    var xInv := InvertSlices(P, s.K);
    var grad := GradFrom(P, xInv, s.K);
    var gamma := s.gamma;
    if ChoosesGamma(o) {
      if i > 0 && o.eps == 0.0 {
        return Failure(ZeroDivision);
      }
      var chosen := ChooseGamma(P, if i > 0 then gamma / o.eps else gamma, s.K, s.lamda, grad, o.delta, o.eps, 200);
      if chosen.Failure? {
        return Failure(chosen.error);
      }
      gamma := chosen.value;
    }
    var y := ProxPoint(P, s.K, grad, gamma);
    var search := LineSearch(s.lamda, 0);
    if ChoosesLamda(o) {
      if i > 0 && o.eps == 0.0 {
        return Failure(ZeroDivision);
      }
      var q := LamdaQuery(s.K, grad, y, gamma, o.delta, o.lamdaCriterion, P.minEigen(s.K));
      var chosen := ChooseLamda(P, q, AtMostOne(if i > 0 then s.lamda / o.eps else s.lamda), o.eps, 200);
      if chosen.Failure? {
        return Failure(chosen.error);
      }
      search := chosen.value;
    }
    return Success(Update(P, o, s, i, grad, gamma, y, search));
  }

  /** The loop of time_graph_lasso from state s0, then the return list. */
  method Drive(P: Problem, o: Options, S: Stack, s0: Solver) returns (r: Result<Output, Error>)
    ensures r == match Run(StepOf(P, o), s0, 0, o.maxIter)
                 case Failure(e) => Failure(e)
                 case Success(e) => Finish(o, S, e)
  {
    ghost var step := StepOf(P, o);
    ghost var whole := Run(step, s0, 0, o.maxIter);
    var s := s0;
    var i := 0;
    while i < o.maxIter
      invariant i <= o.maxIter
      invariant Run(step, s, i, o.maxIter) == whole
    {
      var turn := Iterate(P, o, s, i);
      assert step(s, i) == turn;
      if turn.Failure? {
        return Failure(turn.error);
      }
      match turn.value {
        case Halted =>
          return Finish(o, S, Ended(s, i + 1));
        case Stopped(next) =>
          return Finish(o, S, Ended(next, i + 1));
        case Continued(next) =>
          s := next;
      }
      i := i + 1;
    }
    return Finish(o, S, Ended(s, i));
  }

  /** time_graph_lasso: validate `choose`, start from the damped inverse covariance and iterate. */
  method TimeGraphLasso(P: Problem, o: Options, S: Stack) returns (r: Result<Output, Error>)
    ensures r == TimeGraphLassoSpec(P, o, S)
  {
    if !KnownChoose(o.choose) {
      return Failure(BadChoose);
    }
    var K := InitialPrecision(P, S);
    r := Drive(P, o, S, Solver(K, o.gamma, o.lamda, None, 0, []));
  }
}
