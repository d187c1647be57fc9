/**
 * The ADMM solver for time-varying graphical models with latent variables
 * (kernel_latent_time_graph_lasso).
 *
 * Every time point t carries a precision part Z_0[t], a latent part W_0[t],
 * the data-fit variable R[t] and the scaled dual X_0[t] of R = Z_0 - W_0.
 * For every lag m the precision and the latent parts have their own lag
 * copies with scaled duals (Z_M with X_M, W_M with U_M), kept with the
 * shared bookkeeping of LagConsensus.  One sweep updates R, Z_0, X_0, the Z
 * lags, W_0 and the W lags, in that order.  prox_logdet, soft_thresholding,
 * prox_trace_indicator, the temporal proximal maps, the nuclear norm, the
 * pseudo-inverse and the objective of the variant without latent variables
 * are numerical kernels passed in as functions.
 */
module LatentTimeGraphLasso {
  import opened Outcomes
  import opened Tensor
  import opened LagConsensus

  /** The numerical kernels the solver calls. */
  datatype Kernels = Kernels(
    proxLogdet: (Matrix, real) -> Matrix,      // prox_logdet(a, lamda)
    softThreshold: (real, real) -> real,       // soft_thresholding(a, lamda) of one entry
    proxTrace: (Matrix, real) -> Matrix,       // prox_trace_indicator(a, lamda)
    psi: LagProx,                              // prox_psi and whether psi is a node penalty
    phi: LagProx,                              // prox_phi and whether phi is a node penalty
    phiNorm: Matrix -> real,                   // the temporal penalty phi of one difference
    nuclear: Matrix -> real,                   // np.linalg.norm(., ord='nuc')
    precisionObjective: (Stack, Stack, LagMap) -> real, // the objective without latent variables, at R, Z_0, Z_M
    pinv: Matrix -> Matrix)                    // linalg.pinvh

  /** The kernels return points of the spaces they are given: p x p slices and lag pairs of the input's shape. */
  ghost predicate KernelsConform(O: Kernels, p: nat)
  {
    (forall A, l :: IsSquare(A, p) ==> IsSquare(O.proxLogdet(A, l), p)) &&
    (forall A, l :: IsSquare(A, p) ==> IsSquare(O.proxTrace(A, l), p)) &&
    Conforms(O.psi) && Conforms(O.phi)
  }

  /** The solver's arguments as the caller passes them. */
  datatype Options = Options(
    alpha: real,
    tau: real,
    rho: real,
    kernelPsi: Option<Matrix>,
    kernelPhi: Option<Matrix>,
    nSamples: Option<seq<real>>,
    maxIter: nat,
    returnHistory: bool,
    returnNIter: bool)

  /** The values a sweep works with once the defaults are filled in. */
  datatype Settings = Settings(alpha: real, tau: real, rho: real, kernelPsi: Matrix, kernelPhi: Matrix, n: seq<real>)

  /** What the returned list holds when the solver returns. */
  datatype Fit = Fit(precision: Stack, latent: Stack, covariance: Stack, emptyHistory: bool)

  datatype LatentError =
    | ZeroDivision     // alpha / (rho * n_times) with no time point
    | UndefinedName    // the diagnostics read Z_1, Z_2, W_1, ... which are never assigned
    | IterationUnbound // `iteration_` returned when the loop never ran
    | ShapeMismatch    // operands of different numbers of slices

  /**
   * The solver state: Z_0, W_0, X_0, the last R, the Z lags (copies Z_M
   * with duals X_M), the W lags (copies W_M with duals U_M) and the
   * snapshots Z_M_old and W_M_old.
   */
  datatype Latent = Latent(Z0: Stack, W0: Stack, X0: Stack, R: Stack, Z: LagState, W: LagState, Zold: LagMap, Wold: LagMap)

  /** The solver's invariant: T slices of p x p everywhere, every lag shaped like K[:-m] and K[m:]. */
  ghost predicate Valid(s: Latent, T: nat, p: nat)
  {
    IsStack(s.Z0, T, p) && IsStack(s.W0, T, p) && IsStack(s.X0, T, p) && IsStack(s.R, T, p) &&
    Shaped(s.Z, s.Z0) && Shaped(s.W, s.W0) && HasLags(s.Zold, T) && HasLags(s.Wold, T)
  }

  /** Every division of a sweep is defined: some time point, rho nonzero, one nonzero sample count per time point. */
  predicate Admissible(c: Settings, T: nat)
  {
    T > 0 && c.rho != 0.0 && |c.n| == T && forall t :: 0 <= t < T ==> c.n[t] != 0.0
  }

  /** Sample counts the caller may pass: none, or one nonzero count per time point. */
  predicate SamplesFit(n: Option<seq<real>>, T: nat)
  {
    n.Some? ==> |n.value| == T && forall t :: 0 <= t < T ==> n.value[t] != 0.0
  }

  // ---------------------------------------------------------------------
  // Defaults and initialisation

  /** Missing kernels become the identity, missing sample counts all ones. */
  function Resolve(o: Options, T: nat): Settings
  {
    Settings(o.alpha, o.tau, o.rho, KernelOf(o.kernelPsi, T), KernelOf(o.kernelPhi, T),
             if o.nSamples.None? then Ones(T) else o.nSamples.value)
  }

  /**
   * Given kernels and sample counts are used as they are; a missing kernel
   * couples no two distinct time points, missing sample counts are all one,
   * and with them every division of a sweep is defined.
   */
  lemma {:induction false} ResolveDefaults(o: Options, T: nat, Z: LagMap, W: LagMap, psi: Matrix -> real, phi: Matrix -> real)
    ensures var c := Resolve(o, T);
            (o.kernelPsi.Some? ==> c.kernelPsi == o.kernelPsi.value) &&
            (o.kernelPhi.Some? ==> c.kernelPhi == o.kernelPhi.value) &&
            (o.nSamples.Some? ==> c.n == o.nSamples.value)
    ensures o.kernelPsi.None? ==> LagPenalty(Z, Resolve(o, T).kernelPsi, psi, T) == 0.0
    ensures o.kernelPhi.None? ==> LagPenalty(W, Resolve(o, T).kernelPhi, phi, T) == 0.0
    ensures o.nSamples.None? ==> |Resolve(o, T).n| == T && forall t :: 0 <= t < T ==> Resolve(o, T).n[t] == 1.0
    ensures SamplesFit(o.nSamples, T) && T > 0 && o.rho != 0.0 <==> Admissible(Resolve(o, T), T)
  {
    KernelDefault(o.kernelPsi, T, Z, psi);
    KernelDefault(o.kernelPhi, T, W, phi);
  }

  /** Zero stacks shaped like emp_cov[:-m] and emp_cov[m:] for the copies and for the duals. */
  function ZeroLags(E: Stack): LagState
  {
    map m: nat | 0 < m < |E| :: LagVars(ZeroPair(E, m), ZeroPair(E, m))
  }

  /** The state before the first iteration: everything zero, shaped like emp_cov. */
  function Start(E: Stack): Latent
  {
    Latent(ZerosLike(E), ZerosLike(E), ZerosLike(E), ZerosLike(E), ZeroLags(E), ZeroLags(E), ZeroCopies(E), ZeroCopies(E))
  }

  predicate PairZero(P: LagPair) { IsZero(P.left) && IsZero(P.right) }

  lemma {:induction false} ZerosLikeIsZero(S: Stack)
    ensures IsZero(ZerosLike(S))
  {
    forall t, i, j | 0 <= t < |S| && 0 <= i < |ZerosLike(S)[t]| && 0 <= j < |ZerosLike(S)[t][i]|
      ensures ZerosLike(S)[t][i][j] == 0.0
    {
      ZerosLikeEntry(S, t, i, j);
    }
  }

  /** A stack of the shape of a stack of n slices of p x p is one too. */
  lemma {:induction false} StackLike(S: Stack, K: Stack, n: nat, p: nat)
    requires SameShape(S, K) && IsStack(K, n, p)
    ensures IsStack(S, n, p)
  {
    SameShapeLengths(S, K);
  }

  /**
   * Right after initialisation Z_0, W_0, X_0 and R are zero stacks of
   * emp_cov's shape, and for every lag m the copies, the duals and the
   * snapshots of both families are zero stacks of T - m slices.
   */
  lemma {:induction false} StartIsZero(E: Stack, p: nat)
    requires IsStack(E, |E|, p)
    ensures var s := Start(E);
            Valid(s, |E|, p) && IsZero(s.Z0) && IsZero(s.W0) && IsZero(s.X0) && IsZero(s.R)
    ensures var s := Start(E);
            forall m :: 0 < m < |E| ==>
              PairZero(s.Z[m].copies) && PairZero(s.Z[m].duals) && PairZero(s.W[m].copies) && PairZero(s.W[m].duals) &&
              PairZero(s.Zold[m]) && PairZero(s.Wold[m]) &&
              |s.Z[m].copies.left| == |E| - m && |s.Z[m].copies.right| == |E| - m
  {
    var K := ZerosLike(E);
    ZerosLikeIsZero(E);
    ZerosLikeShape(E);
    StackLike(K, E, |E|, p);
    forall m | 0 < m < |E| ensures PairZero(ZeroPair(E, m)) && PairShaped(ZeroPair(E, m), E, m) {
      ZerosLikeIsZero(Head(E, m));
      ZerosLikeIsZero(Tail(E, m));
      ZeroPairShaped(E, m);
    }
    assert Shaped(ZeroLags(E), E);
    ShapedAcrossStacks(ZeroLags(E), E, K, p);
  }

  /**
   * The initialisation: Z_0, W_0, X_0 and R_old zero, then the loop over
   * the lags that puts zero pairs of T - m slices into the four families.
   */
  method Initialise(E: Stack) returns (s: Latent)
    ensures s == Start(E)
  {
    var Z0 := ZerosLike(E);
    var Z, W: LagState, Zold, Wold: LagMap := map[], map[], map[], map[];
    var m := 1;
    while m < |E|
      invariant 1 <= m && (m <= |E| || |E| == 0)
      invariant Z == W == ZeroLagsBelow(E, m)
      invariant Zold == Wold == ZeroCopiesBelow(E, m)
    {
      var zero := ZeroPair(E, m);
      ZeroLagsStep(E, m);
      ZeroCopiesStep(E, m);
      Z := Z[m := LagVars(zero, zero)];
      W := W[m := LagVars(zero, zero)];
      Zold := Zold[m := zero];
      Wold := Wold[m := zero];
      m := m + 1;
    }
    ZeroLagsAll(E, m);
    s := Latent(Z0, Z0, Z0, Z0, Z, W, Zold, Wold);
  }

  /** The lags below m that the initialisation loop has filled in. */
  function ZeroLagsBelow(E: Stack, m: nat): LagState
  {
    map k: nat | 0 < k < m && k < |E| :: LagVars(ZeroPair(E, k), ZeroPair(E, k))
  }

  function ZeroCopiesBelow(E: Stack, m: nat): LagMap
  {
    map k: nat | 0 < k < m && k < |E| :: ZeroPair(E, k)
  }

  /** One pass of the initialisation loop adds lag m and nothing else. */
  lemma {:induction false} ZeroLagsStep(E: Stack, m: nat)
    requires 0 < m < |E|
    ensures ZeroLagsBelow(E, m + 1) == ZeroLagsBelow(E, m)[m := LagVars(ZeroPair(E, m), ZeroPair(E, m))]
  {
    MapStep(ZeroLagsBelow(E, m + 1), ZeroLagsBelow(E, m), m, LagVars(ZeroPair(E, m), ZeroPair(E, m)));
  }

  lemma {:induction false} ZeroCopiesStep(E: Stack, m: nat)
    requires 0 < m < |E|
    ensures ZeroCopiesBelow(E, m + 1) == ZeroCopiesBelow(E, m)[m := ZeroPair(E, m)]
  {
    MapStep(ZeroCopiesBelow(E, m + 1), ZeroCopiesBelow(E, m), m, ZeroPair(E, m));
  }

  lemma {:induction false} MapStep<X>(N: map<nat, X>, M: map<nat, X>, m: nat, x: X)
    requires forall k :: k in N <==> k in M || k == m
    requires N[m] == x && forall k :: k in M && k != m ==> N[k] == M[k]
    ensures N == M[m := x]
  {
  }

  /** Once m has passed every lag, the loop has filled in all of them. */
  lemma {:induction false} ZeroLagsAll(E: Stack, m: nat)
    requires m >= |E|
    ensures ZeroLagsBelow(E, m) == ZeroLags(E) && ZeroCopiesBelow(E, m) == ZeroCopies(E)
  {
    assert ZeroCopiesBelow(E, m).Keys == ZeroCopies(E).Keys;
    assert ZeroLagsBelow(E, m).Keys == ZeroLags(E).Keys;
  }

  // ---------------------------------------------------------------------
  // One sweep

  /** -rho / n[t] for every time point (numpy `-rho / n_samples[:, None, None]`). */
  function Coefficients(rho: real, n: seq<real>): (r: seq<real>)
    requires forall t :: 0 <= t < |n| ==> n[t] != 0.0
    ensures |r| == |n|
  {
    if |n| == 0 then [] else [-rho / n[0]] + Coefficients(rho, n[1..])
  }

  lemma {:induction false} CoefficientAt(rho: real, n: seq<real>, t: nat)
    requires forall t :: 0 <= t < |n| ==> n[t] != 0.0
    requires t < |n|
    ensures Coefficients(rho, n)[t] == -rho / n[t]
  {
    if t > 0 {
      CoefficientAt(rho, n[1..], t - 1);
    }
  }

  /** Z_0 - W_0 - X_0. */
  function Difference(s: Latent): (D: Stack)
    ensures |D| == |s.Z0|
  {
    Sub(Sub(s.Z0, s.W0), s.X0)
  }

  /**
   * The target of the R update, emp_cov + k[t] sym(D)[t] slice by slice;
   * the solver passes k = Coefficients(rho, n) and D = Difference(s).
   */
  function RTarget(k: seq<real>, D: Stack, E: Stack): (A: Stack)
    ensures |A| == |D|
  {
    Add(ScaleSlices(k, Sym(D)), E)
  }

  /** f(A[t], l[t]) for every slice (a kernel applied slice by slice, each with its own parameter). */
  function ProxEachBy(f: (Matrix, real) -> Matrix, A: Stack, l: Vector): (r: Stack)
    ensures |r| == |A|
  {
    if |A| == 0 then [] else [f(A[0], Get(l, 0))] + ProxEachBy(f, A[1..], Drop(l))
  }

  lemma {:induction false} ProxEachByAt(f: (Matrix, real) -> Matrix, A: Stack, l: Vector, t: nat)
    requires t < |A|
    ensures ProxEachBy(f, A, l)[t] == f(A[t], Get(l, t))
  {
    if t > 0 {
      ProxEachByAt(f, A[1..], Drop(l), t - 1);
      GetDrop(l, t);
    }
  }

  /** f of every element, in order: the comprehension `[f(x) for x in s]`. */
  function Map<X, Y>(f: X -> Y, s: seq<X>): (r: seq<Y>)
    ensures |r| == |s|
  {
    if |s| == 0 then [] else [f(s[0])] + Map(f, s[1..])
  }

  lemma {:induction false} MapAt<X, Y>(f: X -> Y, s: seq<X>, t: nat)
    requires t < |s|
    ensures Map(f, s)[t] == f(s[t])
  {
    if t > 0 {
      MapAt(f, s[1..], t - 1);
    }
  }

  /** A kernel that keeps p x p matrices p x p keeps a stack of them one, slice by slice. */
  lemma {:induction false} ProxEachByStack(f: (Matrix, real) -> Matrix, A: Stack, l: Vector, p: nat)
    requires forall B, x :: IsSquare(B, p) ==> IsSquare(f(B, x), p)
    requires IsStack(A, |A|, p)
    ensures IsStack(ProxEachBy(f, A, l), |A|, p)
  {
    forall t | 0 <= t < |A| ensures IsSquare(ProxEachBy(f, A, l)[t], p) {
      ProxEachByAt(f, A, l, t);
    }
  }

  lemma {:induction false} MapStack(f: Matrix -> Matrix, A: Stack, p: nat)
    requires forall B :: IsSquare(B, p) ==> IsSquare(f(B), p)
    requires IsStack(A, |A|, p)
    ensures IsStack(Map(f, A), |A|, p)
  {
    forall t | 0 <= t < |A| ensures IsSquare(Map(f, A)[t], p) {
      MapAt(f, A, t);
    }
  }

  /** R[t] = prox_logdet(A[t], n[t] / rho) for every slice. */
  function NewR(f: (Matrix, real) -> Matrix, c: Settings, A: Stack): (R: Stack)
    requires c.rho != 0.0
    ensures |R| == |A|
  {
    ProxEachBy(f, A, VScale(1.0 / c.rho, c.n))
  }

  /** The target of the Z_0 update: R + W_0 + X_0 with every lag's Z - X added at [:-m] and [m:], over T. */
  function ZTarget(s: Latent, R: Stack): (A: Stack)
    requires |R| > 0 && HasLags(s.Z, |R|)
    ensures |A| == |R|
  {
    Scale(1.0 / |R| as real, GatherUpTo(Add(Add(R, s.W0), s.X0), s.Z, LastLag(|R|)))
  }

  /** An entry-wise map f(., l) applied to every entry of a stack. */
  function Entrywise(f: (real, real) -> real, S: Stack, l: real): (r: Stack)
    ensures |r| == |S|
  {
    Map((A: Matrix) => Map((u: Vector) => Map((x: real) => f(x, l), u), A), S)
  }

  /** Every entry of the result is f of the entry of the input at the same place, and nothing else is there. */
  lemma {:induction false} EntrywiseEntry(f: (real, real) -> real, S: Stack, l: real, t: nat, i: nat, j: nat)
    requires InRange(S, t, i, j)
    ensures InRange(Entrywise(f, S, l), t, i, j)
    ensures Entry(Entrywise(f, S, l), t, i, j) == f(Entry(S, t, i, j), l)
  {
    var g := (x: real) => f(x, l);
    var h := (u: Vector) => Map(g, u);
    MapAt((A: Matrix) => Map(h, A), S, t);
    MapAt(h, S[t], i);
    MapAt(g, S[t][i], j);
  }

  lemma {:induction false} EntrywiseShape(f: (real, real) -> real, S: Stack, l: real)
    ensures SameShape(Entrywise(f, S, l), S)
  {
    var g := (x: real) => f(x, l);
    var h := (u: Vector) => Map(g, u);
    var r := Entrywise(f, S, l);
    forall t | 0 <= t < |S| ensures |r[t]| == |S[t]| && forall i :: 0 <= i < |S[t]| ==> |r[t][i]| == |S[t][i]| {
      MapAt((A: Matrix) => Map(h, A), S, t);
      forall i | 0 <= i < |S[t]| ensures |r[t][i]| == |S[t][i]| {
        MapAt(h, S[t], i);
      }
    }
    LengthsSameShape(r, S);
  }

  /** Z_0 = soft_thresholding(A, alpha / (rho T)) of the Z_0 target, the threshold taken as (alpha / rho) / T. */
  function NewZ0(f: (real, real) -> real, c: Settings, s: Latent, R: Stack): (Z0: Stack)
    requires c.rho != 0.0 && |R| > 0 && HasLags(s.Z, |R|)
    ensures |Z0| == |R|
  {
    Entrywise(f, ZTarget(s, R), c.alpha / c.rho / |R| as real)
  }

  /** X_0 + R - Z_0 + W_0 (numpy `X_0 += R - Z_0 + W_0`). */
  function NewX0(s: Latent, R: Stack, Z0: Stack): (X: Stack)
    ensures |X| == |s.X0|
  {
    Add(s.X0, Add(Sub(R, Z0), s.W0))
  }

  /** The target of the W_0 update: Z_0 - R - X_0 with every lag's W - U added, over T, symmetrised. */
  function WTarget(s: Latent, R: Stack, Z0: Stack, X0: Stack): (A: Stack)
    requires |Z0| > 0 && HasLags(s.W, |Z0|)
    ensures |A| == |Z0|
  {
    Sym(Scale(1.0 / |Z0| as real, GatherUpTo(Sub(Sub(Z0, R), X0), s.W, LastLag(|Z0|))))
  }

  /** W_0[t] = prox_trace_indicator(A[t], tau / (rho T)) for every slice. */
  function NewW0(f: (Matrix, real) -> Matrix, c: Settings, A: Stack): (W: Stack)
    requires c.rho != 0.0 && |A| > 0
    ensures |W| == |A|
  {
    Map((B: Matrix) => f(B, c.tau / c.rho / |A| as real), A)
  }

  /**
   * One sweep of the loop body: R from its target, Z_0 by soft thresholding
   * its target at alpha / (rho T), the dual X_0, the consensus update of the
   * Z lags from Z_0, W_0 from its target, the consensus update of the W lags
   * from W_0.  Each lag m pairs Z_0[:-m] and Z_0[m:] (W_0[:-m] and W_0[m:])
   * with its copies.
   */
  function Advance(O: Kernels, c: Settings, E: Stack, s: Latent): Latent
    requires Admissible(c, |E|) && |s.Z0| == |E| && HasLags(s.Z, |E|) && HasLags(s.W, |E|)
  {
    var R := NewR(O.proxLogdet, c, RTarget(Coefficients(c.rho, c.n), Difference(s), E));
    var Z0 := NewZ0(O.softThreshold, c, s, R);
    var X0 := NewX0(s, R, Z0);
    var W0 := NewW0(O.proxTrace, c, WTarget(s, R, Z0, X0));
    Latent(Z0, W0, X0, R, Consensus(Z0, s.Z, c.kernelPsi, c.rho, O.psi), Consensus(W0, s.W, c.kernelPhi, c.rho, O.phi), s.Zold, s.Wold)
  }

  // ---------------------------------------------------------------------
  // What a sweep computes

  /** (A + A^T) / 2 of a stack of p x p slices is one too. */
  lemma {:induction false} SymStack(D: Stack, n: nat, p: nat)
    requires IsStack(D, n, p)
    ensures IsStack(Sym(D), n, p)
  {
    forall t | 0 <= t < n ensures IsSquare(Sym(D)[t], p) {
      MSymSymmetric(D[t]);
    }
  }

  /** The lag passes add onto the target without changing its shape. */
  lemma {:induction false} GatherUpToShape(base: Stack, L: LagState, k: nat)
    requires forall m :: 0 < m <= k ==> m in L
    ensures SameShape(GatherUpTo(base, L, k), base)
  {
    if k > 0 {
      GatherUpToShape(base, L, k - 1);
      var a := GatherUpTo(base, L, k - 1);
      var V := L[k];
      AddAtShape(a, 0, Sub(V.copies.left, V.duals.left));
      AddAtShape(AddAt(a, 0, Sub(V.copies.left, V.duals.left)), k, Sub(V.copies.right, V.duals.right));
    }
  }

  lemma {:induction false} DifferenceStack(s: Latent, p: nat)
    requires IsStack(s.Z0, |s.Z0|, p)
    ensures IsStack(Difference(s), |s.Z0|, p)
  {
    SubShape(s.Z0, s.W0);
    SubShape(Sub(s.Z0, s.W0), s.X0);
    StackLike(Difference(s), s.Z0, |s.Z0|, p);
  }

  lemma {:induction false} RTargetStack(k: seq<real>, D: Stack, E: Stack, p: nat)
    requires IsStack(D, |D|, p)
    ensures IsStack(RTarget(k, D, E), |D|, p)
  {
    SymStack(D, |D|, p);
    var C := ScaleSlices(k, Sym(D));
    ScaleSlicesShape(k, Sym(D));
    StackLike(C, Sym(D), |D|, p);
    AddShape(C, E);
    StackLike(RTarget(k, D, E), C, |D|, p);
  }

  lemma {:induction false} DifferenceEntry(s: Latent, p: nat, t: nat, i: nat, j: nat)
    requires IsStack(s.Z0, |s.Z0|, p) && t < |s.Z0| && i < p && j < p
    ensures Entry(Difference(s), t, i, j) == Entry(s.Z0, t, i, j) - Entry(s.W0, t, i, j) - Entry(s.X0, t, i, j)
  {
    SubEntry(s.Z0, s.W0, t, i, j);
    SubEntry(Sub(s.Z0, s.W0), s.X0, t, i, j);
  }

  /** Entry (i, j) of slice t of (A + A^T) / 2. */
  function MirrorMean(A: Stack, t: int, i: int, j: int): real
  {
    (Entry(A, t, i, j) + Entry(A, t, j, i)) / 2.0
  }

  /** An entry of c[t] (D[t] + D[t]^T) / 2. */
  lemma {:induction false} ScaledSymEntry(k: seq<real>, D: Stack, p: nat, t: nat, i: nat, j: nat)
    requires t < |D| && IsSquare(D[t], p) && i < p && j < p
    ensures InRange(ScaleSlices(k, Sym(D)), t, i, j)
    ensures Entry(ScaleSlices(k, Sym(D)), t, i, j) == Get(k, t) * MirrorMean(D, t, i, j)
  {
    var S := Sym(D);
    assert S[t] == MSym(D[t]);
    assert S[t][i][j] == MirrorMean(D, t, i, j);
    ScaleSlicesSlice(k, S, t);
    MScaleShape(Get(k, t), S[t]);
    MSameShapeLengths(MScale(Get(k, t), S[t]), S[t]);
    MScaleEntry(Get(k, t), S[t], i, j);
  }

  /** One entry of the R target: emp_cov + k[t] (D + D^T) / 2. */
  lemma {:induction false} RTargetEntry(k: seq<real>, D: Stack, E: Stack, p: nat, t: nat, i: nat, j: nat)
    requires t < |D| && IsSquare(D[t], p) && i < p && j < p
    ensures Entry(RTarget(k, D, E), t, i, j) == Entry(E, t, i, j) + Get(k, t) * MirrorMean(D, t, i, j)
  {
    ScaledSymEntry(k, D, p, t, i, j);
    AddEntry(ScaleSlices(k, Sym(D)), E, t, i, j);
  }

  /**
   * The R target is a stack of p x p slices, emp_cov + k[t] (D + D^T)[t] / 2
   * entry by entry, and symmetric wherever emp_cov is.
   */
  lemma {:induction false} RTargetSymmetric(k: seq<real>, D: Stack, E: Stack, p: nat)
    requires IsStack(D, |D|, p) && IsStack(E, |D|, p)
    ensures IsStack(RTarget(k, D, E), |D|, p)
    ensures forall t, i, j :: 0 <= t < |D| && 0 <= i < p && 0 <= j < p ==>
      Entry(RTarget(k, D, E), t, i, j) == Entry(E, t, i, j) + Get(k, t) * MirrorMean(D, t, i, j)
    ensures forall t :: 0 <= t < |D| && IsSymmetric(E[t]) ==> IsSymmetric(RTarget(k, D, E)[t])
  {
    RTargetStack(k, D, E, p);
    forall t, i, j | 0 <= t < |D| && 0 <= i < p && 0 <= j < p
      ensures Entry(RTarget(k, D, E), t, i, j) == Entry(E, t, i, j) + Get(k, t) * MirrorMean(D, t, i, j)
    {
      RTargetEntry(k, D, E, p, t, i, j);
    }
    forall t | 0 <= t < |D| && IsSymmetric(E[t]) ensures IsSymmetric(RTarget(k, D, E)[t]) {
      RTargetSliceSymmetric(k, D, E, p, t);
    }
  }

  lemma {:induction false} RTargetSliceSymmetric(k: seq<real>, D: Stack, E: Stack, p: nat, t: nat)
    requires IsStack(D, |D|, p) && IsStack(E, |D|, p) && t < |D| && IsSymmetric(E[t])
    ensures IsSymmetric(RTarget(k, D, E)[t])
  {
    var A := RTarget(k, D, E);
    RTargetStack(k, D, E, p);
    forall i, j | 0 <= i < p && 0 <= j < p ensures A[t][i][j] == A[t][j][i] {
      RTargetMirror(k, D, E, p, t, i, j);
    }
  }

  lemma {:induction false} RTargetMirror(k: seq<real>, D: Stack, E: Stack, p: nat, t: nat, i: nat, j: nat)
    requires IsStack(D, |D|, p) && t < |D| && t < |E| && IsSquare(E[t], p) && i < p && j < p && E[t][i][j] == E[t][j][i]
    ensures Entry(RTarget(k, D, E), t, i, j) == Entry(RTarget(k, D, E), t, j, i)
  {
    RTargetEntry(k, D, E, p, t, i, j);
    RTargetEntry(k, D, E, p, t, j, i);
    assert Entry(E, t, i, j) == Entry(E, t, j, i);
    assert MirrorMean(D, t, i, j) == MirrorMean(D, t, j, i);
  }

  /** Slice t of the Z_0 target: the lag shares of slice t gathered onto (R + W_0 + X_0)[t], over T. */
  lemma {:induction false} ZTargetSlices(s: Latent, R: Stack)
    requires |R| > 0 && Sized(s.Z, |R|)
    ensures forall t :: 0 <= t < |R| ==>
      ZTarget(s, R)[t] == MScale(1.0 / |R| as real, Gathered(Add(Add(R, s.W0), s.X0), s.Z, t, LastLag(|R|)))
  {
    var base := Add(Add(R, s.W0), s.X0);
    GatherUpToSlices(base, s.Z, LastLag(|R|));
    forall t | 0 <= t < |R| ensures ZTarget(s, R)[t] == MScale(1.0 / |R| as real, Gathered(base, s.Z, t, LastLag(|R|))) {
      ScaleSlice(1.0 / |R| as real, GatherUpTo(base, s.Z, LastLag(|R|)), t);
    }
  }

  /** The dual X_0 moves by exactly R - Z_0 + W_0. */
  lemma {:induction false} DualMove(s: Latent, R: Stack, Z0: Stack, p: nat)
    requires IsStack(s.X0, |R|, p) && IsStack(R, |R|, p)
    ensures Sub(NewX0(s, R, Z0), s.X0) == Add(Sub(R, Z0), s.W0)
  {
    var D := Add(Sub(R, Z0), s.W0);
    AddShape(Sub(R, Z0), s.W0);
    SubShape(R, Z0);
    StackLike(D, R, |R|, p);
    LengthsSameShape(s.X0, D);
    SubOfAdd(s.X0, D);
  }

  /**
   * Slice t of the W_0 target: the lag shares of slice t gathered onto
   * (Z_0 - R - X_0)[t], over T, symmetrised; every slice is symmetric.
   */
  lemma {:induction false} WTargetSymmetric(s: Latent, R: Stack, Z0: Stack, X0: Stack)
    requires |Z0| > 0 && Sized(s.W, |Z0|)
    ensures forall t :: 0 <= t < |Z0| ==>
      IsSymmetric(WTarget(s, R, Z0, X0)[t]) &&
      WTarget(s, R, Z0, X0)[t] == MSym(MScale(1.0 / |Z0| as real, Gathered(Sub(Sub(Z0, R), X0), s.W, t, LastLag(|Z0|))))
  {
    var base := Sub(Sub(Z0, R), X0);
    var A := Scale(1.0 / |Z0| as real, GatherUpTo(base, s.W, LastLag(|Z0|)));
    GatherUpToSlices(base, s.W, LastLag(|Z0|));
    SymSymmetric(A);
    forall t | 0 <= t < |Z0| ensures A[t] == MScale(1.0 / |Z0| as real, Gathered(base, s.W, t, LastLag(|Z0|))) {
      ScaleSlice(1.0 / |Z0| as real, GatherUpTo(base, s.W, LastLag(|Z0|)), t);
    }
  }

  // ---------------------------------------------------------------------
  // The sweep keeps the state's shapes

  lemma {:induction false} NewRStack(f: (Matrix, real) -> Matrix, c: Settings, E: Stack, s: Latent, p: nat)
    requires forall B, x :: IsSquare(B, p) ==> IsSquare(f(B, x), p)
    requires Admissible(c, |E|) && IsStack(s.Z0, |E|, p)
    ensures IsStack(NewR(f, c, RTarget(Coefficients(c.rho, c.n), Difference(s), E)), |E|, p)
  {
    var A := RTarget(Coefficients(c.rho, c.n), Difference(s), E);
    DifferenceStack(s, p);
    RTargetStack(Coefficients(c.rho, c.n), Difference(s), E, p);
    ProxEachByStack(f, A, VScale(1.0 / c.rho, c.n), p);
  }

  lemma {:induction false} NewZ0Shape(f: (real, real) -> real, c: Settings, s: Latent, R: Stack)
    requires c.rho != 0.0 && |R| > 0 && HasLags(s.Z, |R|)
    ensures SameShape(NewZ0(f, c, s, R), ZTarget(s, R))
  {
    EntrywiseShape(f, ZTarget(s, R), c.alpha / c.rho / |R| as real);
  }

  lemma {:induction false} NewZ0Stack(f: (real, real) -> real, c: Settings, s: Latent, R: Stack, p: nat)
    requires c.rho != 0.0 && |R| > 0 && HasLags(s.Z, |R|) && IsStack(R, |R|, p)
    ensures IsStack(NewZ0(f, c, s, R), |R|, p)
  {
    var base := Add(Add(R, s.W0), s.X0);
    AddShape(R, s.W0);
    AddShape(Add(R, s.W0), s.X0);
    GatherUpToShape(base, s.Z, LastLag(|R|));
    var G := GatherUpTo(base, s.Z, LastLag(|R|));
    ScaleShape(1.0 / |R| as real, G);
    var A := ZTarget(s, R);
    assert SameShape(A, R);
    NewZ0Shape(f, c, s, R);
    StackLike(NewZ0(f, c, s, R), R, |R|, p);
  }

  lemma {:induction false} NewW0Stack(f: (Matrix, real) -> Matrix, c: Settings, s: Latent, R: Stack, Z0: Stack, X0: Stack, p: nat)
    requires forall B, x :: IsSquare(B, p) ==> IsSquare(f(B, x), p)
    requires c.rho != 0.0 && |Z0| > 0 && HasLags(s.W, |Z0|) && IsStack(Z0, |Z0|, p)
    ensures IsStack(NewW0(f, c, WTarget(s, R, Z0, X0)), |Z0|, p)
  {
    var base := Sub(Sub(Z0, R), X0);
    SubShape(Z0, R);
    SubShape(Sub(Z0, R), X0);
    GatherUpToShape(base, s.W, LastLag(|Z0|));
    var G := GatherUpTo(base, s.W, LastLag(|Z0|));
    ScaleShape(1.0 / |Z0| as real, G);
    StackLike(Scale(1.0 / |Z0| as real, G), Z0, |Z0|, p);
    SymStack(Scale(1.0 / |Z0| as real, G), |Z0|, p);
    var A := WTarget(s, R, Z0, X0);
    assert IsStack(A, |Z0|, p);
    MapStack((B: Matrix) => f(B, c.tau / c.rho / |Z0| as real), A, p);
  }

  /** Lags shaped after the old stack are, after the consensus update from a new stack of the same size, shaped after the new one. */
  lemma {:induction false} ConsensusKeepsShapes(K: Stack, K0: Stack, L: LagState, p: nat, kernel: Matrix, rho: real, P: LagProx)
    requires rho != 0.0 && Conforms(P) && Shaped(L, K0) && IsStack(K0, |K0|, p) && IsStack(K, |K0|, p)
    ensures Shaped(Consensus(K, L, kernel, rho, P), K)
  {
    ShapedAcrossStacks(L, K0, K, p);
    ConsensusAt(K, L, kernel, rho, P);
    ConsensusShaped(K, p, L, Consensus(K, L, kernel, rho, P), kernel, rho, P);
  }

  /** A sweep keeps every stack T slices of p x p and every lag of both families shaped like K[:-m] and K[m:]. */
  lemma {:induction false} AdvanceValid(O: Kernels, c: Settings, E: Stack, s: Latent, p: nat)
    requires KernelsConform(O, p) && Admissible(c, |E|) && IsStack(E, |E|, p) && Valid(s, |E|, p)
    ensures Valid(Advance(O, c, E, s), |E|, p)
  {
    var T := |E|;
    var R := NewR(O.proxLogdet, c, RTarget(Coefficients(c.rho, c.n), Difference(s), E));
    NewRStack(O.proxLogdet, c, E, s, p);
    var Z0 := NewZ0(O.softThreshold, c, s, R);
    NewZ0Stack(O.softThreshold, c, s, R, p);
    var X0 := NewX0(s, R, Z0);
    AddShape(s.X0, Add(Sub(R, Z0), s.W0));
    StackLike(X0, s.X0, T, p);
    var W0 := NewW0(O.proxTrace, c, WTarget(s, R, Z0, X0));
    NewW0Stack(O.proxTrace, c, s, R, Z0, X0, p);
    ConsensusKeepsShapes(Z0, s.Z0, s.Z, p, c.kernelPsi, c.rho, O.psi);
    ConsensusKeepsShapes(W0, s.W0, s.W, p, c.kernelPhi, c.rho, O.phi);
  }

  /** Both lag families after a sweep: shaped after the new Z_0 and W_0, duals moved by exactly the new gaps. */
  lemma {:induction false} AdvanceLagsMoveByGaps(O: Kernels, c: Settings, E: Stack, s: Latent, p: nat)
    requires KernelsConform(O, p) && Admissible(c, |E|) && IsStack(E, |E|, p) && Valid(s, |E|, p)
    ensures var s' := Advance(O, c, E, s);
            Gaps(s'.Z0, s'.Z) == DualMoves(s'.Z, s.Z) && Gaps(s'.W0, s'.W) == DualMoves(s'.W, s.W)
  {
    var s' := Advance(O, c, E, s);
    AdvanceValid(O, c, E, s, p);
    LagsMoveByGaps(s'.Z0, s.Z0, s.Z, p, c.kernelPsi, c.rho, O.psi);
    LagsMoveByGaps(s'.W0, s.W0, s.W, p, c.kernelPhi, c.rho, O.phi);
  }

  /** The consensus update of lags shaped after K0 from a stack K of the same size moves every dual by its new gap. */
  lemma {:induction false} LagsMoveByGaps(K: Stack, K0: Stack, L: LagState, p: nat, kernel: Matrix, rho: real, P: LagProx)
    requires rho != 0.0 && Conforms(P) && Shaped(L, K0) && IsStack(K0, |K0|, p) && IsStack(K, |K0|, p)
    ensures var L' := Consensus(K, L, kernel, rho, P);
            Gaps(K, L') == DualMoves(L', L)
  {
    ShapedAcrossStacks(L, K0, K, p);
    ConsensusAt(K, L, kernel, rho, P);
    ConsensusGapsAreDualMoves(K, p, L, Consensus(K, L, kernel, rho, P), kernel, rho, P);
  }

  // ---------------------------------------------------------------------
  // The lag loops as written

  /**
   * One pass of the lag loop as the solver writes it: A_L and A_R are built
   * from Z_0[:-1] and Z_0[1:] for every lag m, while the duals still move by
   * Z_0[:-m] - Z_L and Z_0[m:] - Z_R.  numpy only combines operands with the
   * same number of slices here: a dual of a single slice would broadcast
   * into A_L, but the in-place update of that dual then fails.  Both raise
   * ValueError.
   */
  function LagStepAsWritten(K: Stack, U: LagPair, m: nat, kernel: Matrix, rho: real, P: LagProx): Result<LagVars, LatentError>
    requires rho != 0.0
  {
    var T1 := |Head(K, 1)|;
    if |U.left| != T1 || |U.right| != T1 || |Head(K, m)| != T1 then Failure(ShapeMismatch)
    else
      var z := NewCopies(Add(Head(K, 1), U.left), Add(Tail(K, 1), U.right), m, kernel, rho, P);
      Success(LagVars(z, LagPair(Add(U.left, Sub(Head(K, m), z.left)), Add(U.right, Sub(Tail(K, m), z.right)))))
  }

  /** The lag loop as written over the lags 1..k: the first lag that raises ends it. */
  function ConsensusAsWritten(K: Stack, L: LagState, kernel: Matrix, rho: real, P: LagProx, k: nat): Result<LagState, LatentError>
    requires rho != 0.0 && forall m :: 0 < m <= k ==> m in L
  {
    if k == 0 then Success(L)
    else match ConsensusAsWritten(K, L, kernel, rho, P, k - 1)
      case Failure(e) => Failure(e)
      case Success(L') =>
        match LagStepAsWritten(K, L[k].duals, k, kernel, rho, P)
        case Failure(e) => Failure(e)
        case Success(V) => Success(L'[k := V])
  }

  /** The as-written loop fails only with a shape mismatch, and lag 1 never fails. */
  lemma {:induction false} AsWrittenFailsOnlyFromLagTwo(K: Stack, L: LagState, kernel: Matrix, rho: real, P: LagProx, k: nat)
    requires rho != 0.0 && Sized(L, |K|) && k <= LastLag(|K|)
    ensures ConsensusAsWritten(K, L, kernel, rho, P, k).Failure? ==> k >= 2 && ConsensusAsWritten(K, L, kernel, rho, P, k).error == ShapeMismatch
    ensures k >= 2 ==> ConsensusAsWritten(K, L, kernel, rho, P, k) == Failure(ShapeMismatch)
  {
    if k > 0 {
      AsWrittenFailsOnlyFromLagTwo(K, L, kernel, rho, P, k - 1);
      if k == 2 {
        assert |L[2].duals.left| == |K| - 2;
      }
    }
  }

  /**
   * With three or more time points the lag loop as written raises at lag 2
   * on the first iteration; with one or two it computes exactly the
   * consensus update of every lag.
   */
  lemma {:induction false} AsWrittenRaisesFromThreeTimePoints(K: Stack, L: LagState, kernel: Matrix, rho: real, P: LagProx)
    requires rho != 0.0 && Sized(L, |K|)
    ensures |K| >= 3 ==> ConsensusAsWritten(K, L, kernel, rho, P, LastLag(|K|)) == Failure(ShapeMismatch)
    ensures |K| <= 2 ==> ConsensusAsWritten(K, L, kernel, rho, P, LastLag(|K|)) == Success(Consensus(K, L, kernel, rho, P))
  {
    AsWrittenFailsOnlyFromLagTwo(K, L, kernel, rho, P, LastLag(|K|));
    if |K| == 2 {
      var V := LagStep(K, L[1].duals, 1, kernel, rho, P);
      assert LagStepAsWritten(K, L[1].duals, 1, kernel, rho, P) == Success(V);
      assert ConsensusAsWritten(K, L, kernel, rho, P, 0) == Success(L);
      LagMapExt(L[1 := V], Consensus(K, L, kernel, rho, P), 2);
    } else if |K| < 2 {
      LagMapExt(L, Consensus(K, L, kernel, rho, P), |K|);
    }
  }

  // ---------------------------------------------------------------------
  // The objective

  /** The sum of f over the slices of S (numpy `sum(map(f, S))`). */
  function SliceSum(f: Matrix -> real, S: Stack): real
  {
    if |S| == 0 then 0.0 else f(S[0]) + SliceSum(f, S[1..])
  }

  /** A sum of nonnegative terms is nonnegative. */
  lemma {:induction false} SliceSumNonneg(f: Matrix -> real, S: Stack)
    requires forall A :: f(A) >= 0.0
    ensures SliceSum(f, S) >= 0.0
  {
    if |S| > 0 {
      SliceSumNonneg(f, S[1..]);
    }
  }

  /**
   * objective(): the objective of the variant without latent variables at
   * R, Z_0 and the Z copies, plus tau times the nuclear norms of W_0's
   * slices, plus the phi penalty of every W lag weighted by the kernel's
   * superdiagonal.
   */
  function Objective(O: Kernels, c: Settings, s: Latent): real
  {
    O.precisionObjective(s.R, s.Z0, CopiesOf(s.Z)) + c.tau * SliceSum(O.nuclear, s.W0) +
    LagPenalty(CopiesOf(s.W), c.kernelPhi, O.phiNorm, |s.W0|)
  }

  /** With the identity kernel no two time points of W are coupled: the W lags add nothing. */
  lemma {:induction false} ObjectiveUncoupled(O: Kernels, c: Settings, s: Latent)
    requires c.kernelPhi == Identity(|s.W0|)
    ensures Objective(O, c, s) == O.precisionObjective(s.R, s.Z0, CopiesOf(s.Z)) + c.tau * SliceSum(O.nuclear, s.W0)
  {
    IdentityKernelUncoupled(CopiesOf(s.W), O.phiNorm, |s.W0|);
  }

  /** Once every W lag agrees with W_0, the lag part is phi's kernel penalty of W_0 itself. */
  lemma {:induction false} ObjectiveAtConsensus(O: Kernels, c: Settings, s: Latent)
    requires HasLags(s.W, |s.W0|) && forall m :: 0 < m < |s.W0| ==> s.W[m].copies == Copies(s.W0, m)
    ensures Objective(O, c, s) == O.precisionObjective(s.R, s.Z0, CopiesOf(s.Z)) + c.tau * SliceSum(O.nuclear, s.W0) +
      KernelPenalty(s.W0, c.kernelPhi, O.phiNorm)
  {
    CopiesAtConsensus(s.W, s.W0, c.kernelPhi, O.phiNorm);
  }

  lemma {:induction false} CopiesAtConsensus(L: LagState, K: Stack, kernel: Matrix, phi: Matrix -> real)
    requires HasLags(L, |K|) && forall m :: 0 < m < |K| ==> L[m].copies == Copies(K, m)
    ensures LagPenalty(CopiesOf(L), kernel, phi, |K|) == KernelPenalty(K, kernel, phi)
  {
    var Z := CopiesOf(L);
    assert HasLags(Z, |K|);
    LagPenaltyAtConsensus(K, Z, kernel, phi);
  }

  /** With tau >= 0 and a nonnegative norm the nuclear-norm term adds nothing negative. */
  lemma {:induction false} ObjectiveNuclearNonneg(O: Kernels, c: Settings, s: Latent)
    requires c.tau >= 0.0 && forall A :: O.nuclear(A) >= 0.0
    ensures Objective(O, c, s) >= O.precisionObjective(s.R, s.Z0, CopiesOf(s.Z)) + LagPenalty(CopiesOf(s.W), c.kernelPhi, O.phiNorm, |s.W0|)
  {
    var n := SliceSum(O.nuclear, s.W0);
    SliceSumNonneg(O.nuclear, s.W0);
    ProductNonneg(c.tau, n);
  }

  lemma {:induction false} ProductNonneg(a: real, b: real)
    requires a >= 0.0 && b >= 0.0
    ensures a * b >= 0.0
  {
  }

  // ---------------------------------------------------------------------
  // The solver as written

  /**
   * The first pass of the loop as written: R, Z_0 and X_0 as in Advance,
   * then the Z lags by the lag loop as written, W_0, and the W lags by the
   * lag loop as written.
   */
  function FirstSweep(O: Kernels, c: Settings, E: Stack, s: Latent): Result<Latent, LatentError>
    requires Admissible(c, |E|) && |s.Z0| == |E| && HasLags(s.Z, |E|) && HasLags(s.W, |E|)
  {
    var R := NewR(O.proxLogdet, c, RTarget(Coefficients(c.rho, c.n), Difference(s), E));
    var Z0 := NewZ0(O.softThreshold, c, s, R);
    var X0 := NewX0(s, R, Z0);
    match ConsensusAsWritten(Z0, s.Z, c.kernelPsi, c.rho, O.psi, LastLag(|E|))
    case Failure(e) => Failure(e)
    case Success(Z) =>
      var W0 := NewW0(O.proxTrace, c, WTarget(s, R, Z0, X0));
      match ConsensusAsWritten(W0, s.W, c.kernelPhi, c.rho, O.phi, LastLag(|E|))
      case Failure(e) => Failure(e)
      case Success(W) => Success(Latent(Z0, W0, X0, R, Z, W, s.Zold, s.Wold))
  }

  /** With one or two time points the first pass as written is the sweep; with three or more it raises. */
  lemma {:induction false} FirstSweepAsWritten(O: Kernels, c: Settings, E: Stack, s: Latent, p: nat)
    requires KernelsConform(O, p) && Admissible(c, |E|) && IsStack(E, |E|, p) && Valid(s, |E|, p)
    ensures |E| <= 2 ==> FirstSweep(O, c, E, s) == Success(Advance(O, c, E, s))
    ensures |E| >= 3 ==> FirstSweep(O, c, E, s) == Failure(ShapeMismatch)
  {
    var R := NewR(O.proxLogdet, c, RTarget(Coefficients(c.rho, c.n), Difference(s), E));
    var Z0 := NewZ0(O.softThreshold, c, s, R);
    var X0 := NewX0(s, R, Z0);
    var W0 := NewW0(O.proxTrace, c, WTarget(s, R, Z0, X0));
    AdvanceValid(O, c, E, s, p);
    ShapedIsSized(s.Z, s.Z0);
    ShapedIsSized(s.W, s.W0);
    AsWrittenRaisesFromThreeTimePoints(Z0, s.Z, c.kernelPsi, c.rho, O.psi);
    AsWrittenRaisesFromThreeTimePoints(W0, s.W, c.kernelPhi, c.rho, O.phi);
  }

  /**
   * What kernel_latent_time_graph_lasso returns or raises.  With
   * max_iter = 0 the loop never runs: the zero Z_0 and W_0 and the
   * pseudo-inverses of Z_0's slices are returned, unless the iteration
   * count is asked for, which was never bound.  Otherwise the first pass
   * runs: with no time point R is an empty vector that numpy cannot add to
   * the (0, p, p) stacks when p >= 2, and for p < 2 alpha / (rho * n_times)
   * divides by zero; with time points, a pass that survives the lag loops
   * reaches the diagnostics, which read names never assigned.
   */
  function Outcome(O: Kernels, o: Options, E: Stack, p: nat): Result<Fit, LatentError>
    requires o.maxIter == 0 || (o.rho != 0.0 && SamplesFit(o.nSamples, |E|))
  {
    var s := Start(E);
    if o.maxIter == 0 then
      if o.returnNIter then Failure(IterationUnbound)
      else Success(Fit(s.Z0, s.W0, Map(O.pinv, s.Z0), o.returnHistory))
    else if |E| == 0 then
      if p >= 2 then Failure(ShapeMismatch) else Failure(ZeroDivision)
    else
      var c := Resolve(o, |E|);
      ResolveDefaults(o, |E|, map[], map[], O.phiNorm, O.phiNorm);
      match FirstSweep(O, c, E, s)
      case Failure(e) => Failure(e)
      case Success(_) => Failure(UndefinedName)
  }

  /**
   * The solver never returns after an iteration: with max_iter > 0 it
   * raises a shape mismatch for no time point and p >= 2 or for three or
   * more time points, a division by zero for no time point and p < 2, and
   * a NameError for one or two time points.  With max_iter = 0 it returns
   * zeros and their pseudo-inverses unless the iteration count is asked for.
   */
  lemma {:induction false} NoIterationCompletes(O: Kernels, o: Options, E: Stack, p: nat)
    requires KernelsConform(O, p) && IsStack(E, |E|, p)
    requires o.maxIter == 0 || (o.rho != 0.0 && SamplesFit(o.nSamples, |E|))
    ensures o.maxIter == 0 && o.returnNIter ==> Outcome(O, o, E, p) == Failure(IterationUnbound)
    ensures o.maxIter == 0 && !o.returnNIter ==>
      Outcome(O, o, E, p).Success? && IsZero(Outcome(O, o, E, p).value.precision) && IsZero(Outcome(O, o, E, p).value.latent) &&
      |Outcome(O, o, E, p).value.precision| == |E| &&
      (forall t :: 0 <= t < |E| ==> Outcome(O, o, E, p).value.covariance[t] == O.pinv(Outcome(O, o, E, p).value.precision[t])) &&
      Outcome(O, o, E, p).value.emptyHistory == o.returnHistory
    ensures o.maxIter > 0 ==> Outcome(O, o, E, p) == Failure(
      if |E| == 0 then (if p >= 2 then ShapeMismatch else ZeroDivision)
      else if |E| >= 3 then ShapeMismatch
      else UndefinedName)
  {
    var s := Start(E);
    StartIsZero(E, p);
    if o.maxIter == 0 {
      forall t | 0 <= t < |E| ensures Map(O.pinv, s.Z0)[t] == O.pinv(s.Z0[t]) {
        MapAt(O.pinv, s.Z0, t);
      }
    } else if |E| > 0 {
      var c := Resolve(o, |E|);
      ResolveDefaults(o, |E|, map[], map[], O.phiNorm, O.phiNorm);
      FirstSweepAsWritten(O, c, E, s, p);
    }
  }

  // ---------------------------------------------------------------------
  // The loops

  /** The list comprehension `[f(a, l[t]) for a, l[t] in zip(A, l)]`. */
  method ApplyEachBy(f: (Matrix, real) -> Matrix, A: Stack, l: Vector) returns (r: Stack)
    ensures r == ProxEachBy(f, A, l)
  {
    r := [];
    var t := 0;
    while t < |A|
      invariant t <= |A| && |r| == t
      invariant forall u :: 0 <= u < t ==> r[u] == f(A[u], Get(l, u))
    {
      r := r + [f(A[t], Get(l, t))];
      t := t + 1;
    }
    forall u | 0 <= u < |A| ensures r[u] == ProxEachBy(f, A, l)[u] {
      ProxEachByAt(f, A, l, u);
    }
  }

  /** A list comprehension `[f(x) for x in s]`. */
  method ApplyEach<X, Y>(f: X -> Y, s: seq<X>) returns (r: seq<Y>)
    ensures r == Map(f, s)
  {
    r := [];
    var t := 0;
    while t < |s|
      invariant t <= |s| && |r| == t
      invariant forall u :: 0 <= u < t ==> r[u] == f(s[u])
    {
      r := r + [f(s[t])];
      t := t + 1;
    }
    forall u | 0 <= u < |s| ensures r[u] == Map(f, s)[u] {
      MapAt(f, s, u);
    }
  }

  /** Once the lag loop as written has raised, the later lags do not run. */
  lemma {:induction false} AsWrittenStaysFailed(K: Stack, L: LagState, kernel: Matrix, rho: real, P: LagProx, j: nat, k: nat)
    requires rho != 0.0 && (forall m :: 0 < m <= k ==> m in L) && j <= k
    requires ConsensusAsWritten(K, L, kernel, rho, P, j).Failure?
    ensures ConsensusAsWritten(K, L, kernel, rho, P, k) == ConsensusAsWritten(K, L, kernel, rho, P, j)
  {
    if j < k {
      AsWrittenStaysFailed(K, L, kernel, rho, P, j, k - 1);
    }
  }

  /** The lag loop `for m in range(1, n_times)` as written, ending at the first lag that raises. */
  method LagLoopAsWritten(K: Stack, L: LagState, kernel: Matrix, rho: real, P: LagProx) returns (r: Result<LagState, LatentError>)
    requires rho != 0.0 && HasLags(L, |K|)
    ensures r == ConsensusAsWritten(K, L, kernel, rho, P, LastLag(|K|))
  {
    var L' := L;
    var m := 1;
    while m < |K|
      invariant 1 <= m && (m <= |K| || m == 1)
      invariant ConsensusAsWritten(K, L, kernel, rho, P, m - 1) == Success(L')
    {
      var v := LagStepAsWritten(K, L[m].duals, m, kernel, rho, P);
      if v.Failure? {
        r := Failure(v.error);
        AsWrittenStaysFailed(K, L, kernel, rho, P, m, LastLag(|K|));
        return;
      }
      L' := L'[m := v.value];
      m := m + 1;
    }
    r := Success(L');
  }

  /**
   * One sweep of the loop body with every lag pairing Z_0[:-m], Z_0[m:]
   * (W_0[:-m], W_0[m:]) with its copies: it computes Advance and keeps the
   * solver's invariant.
   */
  method Sweep(O: Kernels, c: Settings, E: Stack, s: Latent, p: nat) returns (s': Latent)
    requires KernelsConform(O, p) && Admissible(c, |E|) && IsStack(E, |E|, p) && Valid(s, |E|, p)
    ensures s' == Advance(O, c, E, s) && Valid(s', |E|, p)
  {
    var T := |E|;
    ShapedIsSized(s.Z, s.Z0);
    ShapedIsSized(s.W, s.W0);
    var R := ApplyEachBy(O.proxLogdet, RTarget(Coefficients(c.rho, c.n), Difference(s), E), VScale(1.0 / c.rho, c.n));
    var G := Gather(Add(Add(R, s.W0), s.X0), s.Z);
    var Z0 := Entrywise(O.softThreshold, Scale(1.0 / T as real, G), c.alpha / c.rho / T as real);
    var X0 := NewX0(s, R, Z0);
    var Z := ConsensusUpdate(Z0, s.Z, c.kernelPsi, c.rho, O.psi);
    var H := Gather(Sub(Sub(Z0, R), X0), s.W);
    var W0 := ApplyEach((B: Matrix) => O.proxTrace(B, c.tau / c.rho / T as real), Sym(Scale(1.0 / T as real, H)));
    var W := ConsensusUpdate(W0, s.W, c.kernelPhi, c.rho, O.phi);
    s' := Latent(Z0, W0, X0, R, Z, W, s.Zold, s.Wold);
    AdvanceValid(O, c, E, s, p);
  }

  /** The first pass of the loop as written: R, Z_0, X_0, the Z lags, W_0, the W lags. */
  method FirstPass(O: Kernels, c: Settings, E: Stack, s: Latent, p: nat) returns (r: Result<Latent, LatentError>)
    requires Admissible(c, |E|) && Valid(s, |E|, p)
    ensures r == FirstSweep(O, c, E, s)
  {
    var T := |E|;
    ShapedIsSized(s.Z, s.Z0);
    ShapedIsSized(s.W, s.W0);
    var R := ApplyEachBy(O.proxLogdet, RTarget(Coefficients(c.rho, c.n), Difference(s), E), VScale(1.0 / c.rho, c.n));
    var G := Gather(Add(Add(R, s.W0), s.X0), s.Z);
    var Z0 := Entrywise(O.softThreshold, Scale(1.0 / T as real, G), c.alpha / c.rho / T as real);
    var X0 := NewX0(s, R, Z0);
    var Z := LagLoopAsWritten(Z0, s.Z, c.kernelPsi, c.rho, O.psi);
    if Z.Failure? {
      return Failure(Z.error);
    }
    var H := Gather(Sub(Sub(Z0, R), X0), s.W);
    var W0 := ApplyEach((B: Matrix) => O.proxTrace(B, c.tau / c.rho / T as real), Sym(Scale(1.0 / T as real, H)));
    var W := LagLoopAsWritten(W0, s.W, c.kernelPhi, c.rho, O.phi);
    if W.Failure? {
      return Failure(W.error);
    }
    r := Success(Latent(Z0, W0, X0, R, Z.value, W.value, s.Zold, s.Wold));
  }

  /**
   * kernel_latent_time_graph_lasso: initialise, then run the loop, whose
   * first pass never gets past the diagnostics (see Outcome); with
   * max_iter = 0 return the zero estimates and their pseudo-inverses.
   */
  method KernelLatentTimeGraphLasso(O: Kernels, o: Options, E: Stack, p: nat) returns (r: Result<Fit, LatentError>)
    requires KernelsConform(O, p) && IsStack(E, |E|, p)
    requires o.maxIter == 0 || (o.rho != 0.0 && SamplesFit(o.nSamples, |E|))
    ensures r == Outcome(O, o, E, p)
  {
    var s := Initialise(E);
    if o.maxIter == 0 {
      if o.returnNIter {
        return Failure(IterationUnbound);
      }
      var covariance := ApplyEach(O.pinv, s.Z0);
      return Success(Fit(s.Z0, s.W0, covariance, o.returnHistory));
    }
    var T := |E|;
    if T == 0 {
      return if p >= 2 then Failure(ShapeMismatch) else Failure(ZeroDivision);
    }
    var c := Resolve(o, T);
    ResolveDefaults(o, T, map[], map[], O.phiNorm, O.phiNorm);
    StartIsZero(E, p);
    var pass := FirstPass(O, c, E, s, p);
    if pass.Failure? {
      return Failure(pass.error);
    }
    r := Failure(UndefinedName);
  }
}
