/**
 * Lag-indexed ADMM consensus bookkeeping, shared by the time-varying Ising
 * solver and its latent-variable variant.
 *
 * For every lag m in 1..T-1 the solvers keep a pair of stacks of T - m
 * slices: a left copy standing for K[:-m] (slice i is K[i]) and a right copy
 * standing for K[m:] (slice i is K[i + m]), together with scaled duals of the
 * same shape.  The source keeps copies and duals in two dicts keyed by lag;
 * here they are one map from lag to a record holding both.
 */
module LagConsensus {
  import opened Outcomes
  import opened Tensor

  datatype LagPair = LagPair(left: Stack, right: Stack)

  /** Lag m's consensus variables: the copies Z_M[m] and the scaled duals U_M[m]. */
  datatype LagVars = LagVars(copies: LagPair, duals: LagPair)

  type LagMap = map<nat, LagPair>
  type LagState = map<nat, LagVars>

  /** range(1, T) ends at this lag (no lag at all when T <= 1). */
  function LastLag(T: nat): nat { if T == 0 then 0 else T - 1 }

  /** The map holds exactly the lags 1..T-1. */
  ghost predicate HasLags<X>(M: map<nat, X>, T: nat)
  {
    forall m :: m in M <==> 0 < m < T
  }

  /** A pair shaped like K[:-m] and K[m:]. */
  ghost predicate PairShaped(P: LagPair, K: Stack, m: nat)
  {
    SameShape(P.left, Head(K, m)) && SameShape(P.right, Tail(K, m))
  }

  /** Every lag's copies and duals are shaped like K[:-m] and K[m:]. */
  ghost predicate Shaped(L: LagState, K: Stack)
  {
    HasLags(L, |K|) &&
    forall m :: 0 < m < |K| ==> PairShaped(L[m].copies, K, m) && PairShaped(L[m].duals, K, m)
  }

  /** Every lag m's copies and duals hold T - m slices. */
  ghost predicate Sized(L: LagState, T: nat)
  {
    HasLags(L, T) &&
    forall m :: 0 < m < T ==>
      |L[m].copies.left| == T - m && |L[m].copies.right| == T - m &&
      |L[m].duals.left| == T - m && |L[m].duals.right| == T - m
  }

  lemma {:induction false} ShapedIsSized(L: LagState, K: Stack)
    requires Shaped(L, K)
    ensures Sized(L, |K|)
  {
    forall m | 0 < m < |K|
      ensures |L[m].copies.left| == |K| - m && |L[m].copies.right| == |K| - m
      ensures |L[m].duals.left| == |K| - m && |L[m].duals.right| == |K| - m
    {
      assert PairShaped(L[m].copies, K, m) && PairShaped(L[m].duals, K, m);
    }
  }

  /** Stacks of the same number of p x p slices have the same K[:-m] and K[m:] shapes. */
  lemma {:induction false} HeadTailAcrossStacks(K1: Stack, K2: Stack, p: nat, m: nat)
    requires IsStack(K1, |K1|, p) && IsStack(K2, |K1|, p)
    ensures SameShape(Head(K1, m), Head(K2, m)) && SameShape(Tail(K1, m), Tail(K2, m))
  {
    var H1, H2, R1, R2 := Head(K1, m), Head(K2, m), Tail(K1, m), Tail(K2, m);
    forall t | 0 <= t < |H1| ensures |H1[t]| == |H2[t]| && forall i :: 0 <= i < |H1[t]| ==> |H1[t][i]| == |H2[t][i]| {
      assert H1[t] == K1[t] && H2[t] == K2[t];
    }
    LengthsSameShape(H1, H2);
    forall t | 0 <= t < |R1| ensures |R1[t]| == |R2[t]| && forall i :: 0 <= i < |R1[t]| ==> |R1[t][i]| == |R2[t][i]| {
      assert R1[t] == K1[t + m] && R2[t] == K2[t + m];
    }
    LengthsSameShape(R1, R2);
  }

  /** Lag variables shaped after one stack of p x p slices are shaped after any other of the same length. */
  lemma {:induction false} ShapedAcrossStacks(L: LagState, K1: Stack, K2: Stack, p: nat)
    requires Shaped(L, K1) && IsStack(K1, |K1|, p) && IsStack(K2, |K1|, p)
    ensures Shaped(L, K2)
  {
    forall m | 0 < m < |K2| ensures PairShaped(L[m].copies, K2, m) && PairShaped(L[m].duals, K2, m) {
      assert PairShaped(L[m].copies, K1, m) && PairShaped(L[m].duals, K1, m);
      HeadTailAcrossStacks(K1, K2, p, m);
    }
  }

  // ---------------------------------------------------------------------
  // Initialisation

  /** Lag m's copies of K: left endpoints K[:-m] and right endpoints K[m:]. */
  function Copies(K: Stack, m: nat): (r: LagPair)
    ensures m <= |K| ==> |r.left| == |K| - m && |r.right| == |K| - m
  {
    LagPair(Head(K, m), Tail(K, m))
  }

  /** Zero stacks shaped like K[:-m] and K[m:]. */
  function ZeroPair(K: Stack, m: nat): LagPair
  {
    LagPair(ZerosLike(Head(K, m)), ZerosLike(Tail(K, m)))
  }

  lemma {:induction false} ZeroPairShaped(K: Stack, m: nat)
    ensures PairShaped(ZeroPair(K, m), K, m)
  {
    ZerosLikeShape(Head(K, m));
    ZerosLikeShape(Tail(K, m));
  }

  /** Lag m right after initialisation: copies of K, zero duals. */
  function InitialVars(K: Stack, m: nat): LagVars
  {
    LagVars(Copies(K, m), ZeroPair(K, m))
  }

  /** The state every lag is in right after initialisation. */
  function InitialLags(K: Stack): LagState
  {
    map m: nat | 0 < m < |K| :: InitialVars(K, m)
  }

  /** Zero stacks for every lag: the initial snapshot of the copies. */
  function ZeroCopies(K: Stack): LagMap
  {
    map m: nat | 0 < m < |K| :: ZeroPair(K, m)
  }

  /** The initial copies and duals are shaped like K[:-m] and K[m:]. */
  lemma {:induction false} InitialLagsShaped(K: Stack)
    ensures Shaped(InitialLags(K), K)
  {
    var L := InitialLags(K);
    forall m | 0 < m < |K| ensures PairShaped(L[m].copies, K, m) && PairShaped(L[m].duals, K, m) {
      assert L[m] == InitialVars(K, m);
      ZeroPairShaped(K, m);
    }
  }

  /**
   * The lag loop before the iterations: for every lag the copies start as
   * K[:-m] and K[m:], the duals and the snapshot of the copies at zero.
   */
  method InitLagState(K: Stack) returns (L: LagState, Zold: LagMap)
    ensures L == InitialLags(K) && Zold == ZeroCopies(K)
  {
    L, Zold := map[], map[];
    var m := 1;
    while m < |K|
      invariant 1 <= m && (m <= |K| || |K| == 0)
      invariant L == map k: nat | 0 < k < m && k < |K| :: InitialVars(K, k)
      invariant Zold == map k: nat | 0 < k < m && k < |K| :: ZeroPair(K, k)
    {
      L := L[m := InitialVars(K, m)];
      Zold := Zold[m := ZeroPair(K, m)];
      m := m + 1;
    }
  }

  // ---------------------------------------------------------------------
  // Target aggregation: A[:-m] += Z_L - U_L ; A[m:] += Z_R - U_R

  /** Lag k's share of slice t as a left endpoint: (Z_L - U_L)[t] when t + k < T. */
  function LeftShare(a: Matrix, V: LagVars, t: nat, k: nat, T: nat): Matrix
  {
    if t + k < T then MAdd(a, MSub(Slice(V.copies.left, t), Slice(V.duals.left, t))) else a
  }

  /** Lag k's share of slice t as a right endpoint: (Z_R - U_R)[t - k] when k <= t < T. */
  function RightShare(a: Matrix, V: LagVars, t: nat, k: nat, T: nat): Matrix
  {
    if k <= t < T then MAdd(a, MSub(Slice(V.copies.right, t - k), Slice(V.duals.right, t - k))) else a
  }

  /** Both shares of lag k for slice t: the left one first, as the loop adds them. */
  function Shares(a: Matrix, V: LagVars, t: nat, k: nat, T: nat): Matrix
  {
    RightShare(LeftShare(a, V, t, k, T), V, t, k, T)
  }

  /**
   * Slice t of the target once the lags 1..k have been added in lag order:
   * lag m contributes (Z_L - U_L)[t] when t is a left endpoint (t + m < T)
   * and then (Z_R - U_R)[t - m] when t is a right endpoint (m <= t).
   */
  function Gathered(base: Stack, L: LagState, t: nat, k: nat): Matrix
  {
    if k == 0 then Slice(base, t)
    else if k in L then Shares(Gathered(base, L, t, k - 1), L[k], t, k, |base|)
    else Gathered(base, L, t, k - 1)
  }

  /** What one pass of the aggregation loop adds for lag m. */
  function GatherLag(a: Stack, V: LagVars, m: nat): (r: Stack)
    ensures |r| == |a|
  {
    AddAt(AddAt(a, 0, Sub(V.copies.left, V.duals.left)), m, Sub(V.copies.right, V.duals.right))
  }

  /** The target after the passes for lags 1..k. */
  function GatherUpTo(base: Stack, L: LagState, k: nat): (r: Stack)
    requires forall m :: 0 < m <= k ==> m in L
    ensures |r| == |base|
  {
    if k == 0 then base else GatherLag(GatherUpTo(base, L, k - 1), L[k], k)
  }

  /** Slice t after one pass for lag m: the lag's left share, then its right share. */
  lemma {:induction false} GatherLagAt(a: Stack, V: LagVars, m: nat, t: nat)
    requires 0 < m < |a| && t < |a|
    requires |V.copies.left| == |a| - m && |V.copies.right| == |a| - m
    ensures GatherLag(a, V, m)[t] == Shares(a[t], V, t, m, |a|)
  {
    var D1 := Sub(V.copies.left, V.duals.left);
    var D2 := Sub(V.copies.right, V.duals.right);
    var a1 := AddAt(a, 0, D1);
    assert a1[t] == LeftShare(a[t], V, t, m, |a|) by {
      PassAt(a, 0, V.copies.left, V.duals.left, t);
    }
    assert AddAt(a1, m, D2)[t] == RightShare(a1[t], V, t, m, |a|) by {
      PassAt(a1, m, V.copies.right, V.duals.right, t);
    }
  }

  /** Slice t after adding C - U at an offset. */
  lemma {:induction false} PassAt(a: Stack, offset: nat, C: Stack, U: Stack, t: nat)
    requires t < |a|
    ensures AddAt(a, offset, Sub(C, U))[t] ==
            if offset <= t < offset + |C| then MAdd(a[t], MSub(Slice(C, t - offset), Slice(U, t - offset))) else a[t]
  {
    var D := Sub(C, U);
    if offset <= t < offset + |C| {
      var u := t - offset;
      AddAtInside(a, offset, D, t);
      SubSlice(C, U, u);
      assert Slice(C, u) == C[u];
      assert AddAt(a, offset, D)[t] == MAdd(a[t], MSub(Slice(C, u), Slice(U, u)));
    } else {
      AddAtOutside(a, offset, D, t);
    }
  }

  /** Slice t of the target after the passes for lags 1..k is Gathered(base, L, t, k). */
  lemma {:induction false} GatherUpToAt(base: Stack, L: LagState, k: nat, t: nat)
    requires Sized(L, |base|) && k < |base| && t < |base|
    ensures GatherUpTo(base, L, k)[t] == Gathered(base, L, t, k)
  {
    if k > 0 {
      GatherUpToAt(base, L, k - 1, t);
      GatherLagAt(GatherUpTo(base, L, k - 1), L[k], k, t);
    }
  }

  lemma {:induction false} GatherUpToSlices(base: Stack, L: LagState, k: nat)
    requires Sized(L, |base|) && (k < |base| || k == 0)
    ensures forall t :: 0 <= t < |base| ==> GatherUpTo(base, L, k)[t] == Gathered(base, L, t, k)
  {
    forall t | 0 <= t < |base| ensures GatherUpTo(base, L, k)[t] == Gathered(base, L, t, k) {
      GatherUpToAt(base, L, k, t);
    }
  }

  /** The lag loop that adds every lag's copies minus duals onto `base`. */
  method Gather(base: Stack, L: LagState) returns (a: Stack)
    requires Sized(L, |base|)
    ensures |a| == |base| && a == GatherUpTo(base, L, LastLag(|base|))
    ensures forall t :: 0 <= t < |base| ==> a[t] == Gathered(base, L, t, LastLag(|base|))
  {
    a := base;
    var m := 1;
    while m < |base|
      invariant 1 <= m && (m <= |base| || m == 1)
      invariant a == GatherUpTo(base, L, m - 1)
    {
      GatherUpToNext(base, L, m);
      a := GatherLag(a, L[m], m);
      m := m + 1;
    }
    GatherUpToSlices(base, L, LastLag(|base|));
  }

  /** One more pass of the gathering loop extends the passes so far by lag m. */
  lemma {:induction false} GatherUpToNext(base: Stack, L: LagState, m: nat)
    requires Sized(L, |base|) && 0 < m < |base|
    ensures m in L
    ensures GatherUpTo(base, L, m) == GatherLag(GatherUpTo(base, L, m - 1), L[m], m)
  {
  }

  /** How many lag terms among 1..k slice t receives, as a left and as a right endpoint. */
  function Participations(t: nat, k: nat, T: nat): nat
  {
    if k == 0 then 0
    else Participations(t, k - 1, T) + (if t + k < T then 1 else 0) + (if k <= t then 1 else 0)
  }

  lemma {:induction false} ParticipationsUpTo(t: nat, k: nat, T: nat)
    requires t < T && k < T
    ensures Participations(t, k, T) == (if k <= T - 1 - t then k else T - 1 - t) + (if k <= t then k else t)
  {
    if k > 0 {
      ParticipationsUpTo(t, k - 1, T);
    }
  }

  /** Every slice takes part in exactly T - 1 lag terms. */
  lemma {:induction false} ParticipationsAll(t: nat, T: nat)
    requires t < T
    ensures Participations(t, T - 1, T) == T - 1
  {
    ParticipationsUpTo(t, T - 1, T);
  }

  /** Adding X minus zeros to c copies of X gives c + 1 copies. */
  lemma {:induction false} AddOneCopy(X: Matrix, c: real)
    ensures MAdd(MScale(c, X), MSub(X, MZerosLike(X))) == MScale(c + 1.0, X)
  {
    var a := MScale(c, X);
    var d := MSub(X, MZerosLike(X));
    var b := MAdd(a, d);
    MAddShape(a, d);
    MScaleShape(c, X);
    MScaleShape(c + 1.0, X);
    MSameShapeLengths(a, X);
    forall i, j | 0 <= i < |b| && 0 <= j < |b[i]| ensures MGet(b, i, j) == MGet(MScale(c + 1.0, X), i, j) {
      MSameShapeLengths(b, X);
      MAddEntry(a, d, i, j);
      MScaleEntry(c, X, i, j);
      MSubEntry(X, MZerosLike(X), i, j);
      MZerosEntry(X, i, j);
      MScaleEntry(c + 1.0, X, i, j);
      assert MGet(b, i, j) == c * X[i][j] + X[i][j];
    }
    MatrixExt(b, MScale(c + 1.0, X));
  }

  /** Zeros shaped like X are zero copies of X. */
  lemma {:induction false} ZerosAreNoCopy(X: Matrix)
    ensures MZerosLike(X) == MScale(0.0, X)
  {
    MZerosShape(X);
    MScaleShape(0.0, X);
    forall i, j | 0 <= i < |X| && 0 <= j < |X[i]| ensures MGet(MZerosLike(X), i, j) == MGet(MScale(0.0, X), i, j) {
      MSameShapeLengths(MZerosLike(X), X);
      MZerosEntry(X, i, j);
      MScaleEntry(0.0, X, i, j);
    }
    MSameShapeLengths(MZerosLike(X), X);
    MatrixExt(MZerosLike(X), MScale(0.0, X));
  }

  /** At consensus lag k's left share adds one copy of K[t] when t is a left endpoint. */
  lemma {:induction false} LeftShareAtConsensus(K: Stack, c: real, t: nat, k: nat)
    requires t < |K| && 0 < k < |K|
    ensures LeftShare(MScale(c, K[t]), InitialVars(K, k), t, k, |K|) == MScale(c + if t + k < |K| then 1.0 else 0.0, K[t])
  {
    if t + k < |K| {
      var H := Head(K, k);
      ZerosLikeSlice(H, t);
      assert H[t] == K[t];
      assert Slice(H, t) == K[t];
      assert Slice(ZerosLike(H), t) == MZerosLike(K[t]);
      AddOneCopy(K[t], c);
    }
  }

  /** At consensus lag k's right share adds one copy of K[t] when t is a right endpoint. */
  lemma {:induction false} RightShareAtConsensus(K: Stack, c: real, t: nat, k: nat)
    requires t < |K| && 0 < k < |K|
    ensures RightShare(MScale(c, K[t]), InitialVars(K, k), t, k, |K|) == MScale(c + if k <= t then 1.0 else 0.0, K[t])
  {
    if k <= t {
      var R := Tail(K, k);
      ZerosLikeSlice(R, t - k);
      assert R[t - k] == K[t];
      assert Slice(R, t - k) == K[t];
      assert Slice(ZerosLike(R), t - k) == MZerosLike(K[t]);
      AddOneCopy(K[t], c);
    }
  }

  /** Every lag of K holds its initial variables: copies of the slices, zero duals. */
  ghost predicate AtConsensus(L: LagState, K: Stack)
  {
    forall m :: 0 < m < |K| ==> m in L && L[m] == InitialVars(K, m)
  }

  lemma {:induction false} InitialLagsAtConsensus(K: Stack)
    ensures AtConsensus(InitialLags(K), K)
  {
  }

  /**
   * At consensus (every copy equal to the slices it stands for, every dual
   * zero) slice t of the target gathered onto zeros is K[t] taken once per
   * lag term it receives.
   */
  lemma {:induction false} GatheredAtConsensus(K: Stack, L: LagState, t: nat, k: nat)
    requires AtConsensus(L, K) && t < |K| && k < |K|
    ensures Gathered(ZerosLike(K), L, t, k) == MScale(Participations(t, k, |K|) as real, K[t])
  {
    if k == 0 {
      ZerosLikeSlice(K, t);
      ZerosAreNoCopy(K[t]);
    } else {
      GatheredAtConsensus(K, L, t, k - 1);
      GatheredStepAtConsensus(K, L, t, k);
    }
  }

  /** One more lag at consensus adds the copies its shares bring. */
  lemma {:induction false} GatheredStepAtConsensus(K: Stack, L: LagState, t: nat, k: nat)
    requires t < |K| && 0 < k < |K| && k in L && L[k] == InitialVars(K, k)
    requires Gathered(ZerosLike(K), L, t, k - 1) == MScale(Participations(t, k - 1, |K|) as real, K[t])
    ensures Gathered(ZerosLike(K), L, t, k) == MScale(Participations(t, k, |K|) as real, K[t])
  {
    var c := Participations(t, k - 1, |K|) as real;
    var c2 := c + (if t + k < |K| then 1.0 else 0.0) + (if k <= t then 1.0 else 0.0);
    assert c2 == Participations(t, k, |K|) as real;
    SharesAtConsensus(K, c, t, k);
  }

  /** At consensus both shares of lag k add one copy of K[t] per endpoint role of t. */
  lemma {:induction false} SharesAtConsensus(K: Stack, c: real, t: nat, k: nat)
    requires t < |K| && 0 < k < |K|
    ensures Shares(MScale(c, K[t]), InitialVars(K, k), t, k, |K|) ==
            MScale(c + (if t + k < |K| then 1.0 else 0.0) + (if k <= t then 1.0 else 0.0), K[t])
  {
    var c1 := c + if t + k < |K| then 1.0 else 0.0;
    assert LeftShare(MScale(c, K[t]), InitialVars(K, k), t, k, |K|) == MScale(c1, K[t]) by {
      LeftShareAtConsensus(K, c, t, k);
    }
    RightShareAtConsensus(K, c1, t, k);
  }

  /**
   * Right after initialisation the aggregation loop hands every slice
   * exactly T - 1 copies of itself.
   */
  lemma {:induction false} GatherAtConsensus(K: Stack, t: nat)
    requires t < |K|
    ensures Gathered(ZerosLike(K), InitialLags(K), t, |K| - 1) == MScale((|K| - 1) as real, K[t])
  {
    assert Participations(t, |K| - 1, |K|) == |K| - 1 by {
      ParticipationsAll(t, |K|);
    }
    InitialLagsAtConsensus(K);
    GatheredAtConsensus(K, InitialLags(K), t, |K| - 1);
  }

  // ---------------------------------------------------------------------
  // Consensus split and dual update

  /** The temporal penalty's proximal operators, as numerical kernels. */
  datatype LagProx = LagProx(
    node: bool,                                           // the penalty couples whole nodes
    prox: (Stack, seq<real>) -> Stack,                    // prox of the difference, one threshold per slice
    proxNode: (Stack, Stack, seq<real>, real) -> LagPair) // joint prox of the stacked pair

  /** A proximal map returns a point of the space it was given. */
  ghost predicate Conforms(P: LagProx)
  {
    (forall d, w :: SameShape(P.prox(d, w), d)) &&
    (forall a, b, w, r :: SameShape(P.proxNode(a, b, w, r).left, a) && SameShape(P.proxNode(a, b, w, r).right, b))
  }

  /** np.diag(kernel, m): kernel[i][i + m] for the T - m pairs of time points m apart. */
  function Superdiag(kernel: Matrix, m: nat): (r: seq<real>)
    ensures |r| == if m <= |kernel| then |kernel| - m else 0
  {
    seq(if m <= |kernel| then |kernel| - m else 0, i => MGet(kernel, i, i + m))
  }

  /** Split around the midpoint: left (A_L + A_R - e) / 2, right (A_L + A_R + e) / 2. */
  function Split(aL: Stack, aR: Stack, e: Stack): LagPair
  {
    var s := Add(aL, aR);
    LagPair(Scale(0.5, Sub(s, e)), Scale(0.5, Add(s, e)))
  }

  /** Both halves of the split are shaped like A_L. */
  lemma {:induction false} SplitShaped(aL: Stack, aR: Stack, e: Stack)
    ensures SameShape(Split(aL, aR, e).left, aL) && SameShape(Split(aL, aR, e).right, aL)
  {
    var s := Add(aL, aR);
    AddShape(aL, aR);
    SubShape(s, e);
    AddShape(s, e);
    ScaleShape(0.5, Sub(s, e));
    ScaleShape(0.5, Add(s, e));
  }

  /** The split keeps the sum of the pair and makes its difference the proximal point. */
  lemma {:induction false} SplitKeepsSumAndDifference(aL: Stack, aR: Stack, e: Stack)
    ensures Add(Split(aL, aR, e).left, Split(aL, aR, e).right) == Add(aL, aR)
    ensures SameShape(e, aL) ==> Sub(Split(aL, aR, e).right, Split(aL, aR, e).left) == e
  {
    var r := Split(aL, aR, e);
    var sum := Add(r.left, r.right);
    SplitShaped(aL, aR, e);
    AddShape(r.left, r.right);
    AddShape(aL, aR);
    forall t, i, j | InRange(sum, t, i, j) ensures Entry(sum, t, i, j) == Entry(Add(aL, aR), t, i, j) {
      SameShapeInRange(sum, aL, t, i, j);
      SplitLeftEntry(aL, aR, e, t, i, j);
      SplitRightEntry(aL, aR, e, t, i, j);
      AddEntry(r.left, r.right, t, i, j);
      AddEntry(aL, aR, t, i, j);
    }
    StackExt(sum, Add(aL, aR));
    if SameShape(e, aL) {
      var diff := Sub(r.right, r.left);
      SubShape(r.right, r.left);
      forall t, i, j | InRange(diff, t, i, j) ensures Entry(diff, t, i, j) == Entry(e, t, i, j) {
        SameShapeInRange(diff, aL, t, i, j);
        SplitLeftEntry(aL, aR, e, t, i, j);
        SplitRightEntry(aL, aR, e, t, i, j);
        SubEntry(r.right, r.left, t, i, j);
      }
      StackExt(diff, e);
    }
  }

  /** Entry by entry the left half is (A_L + A_R - e) / 2. */
  lemma {:induction false} SplitLeftEntry(aL: Stack, aR: Stack, e: Stack, t: int, i: int, j: int)
    requires InRange(aL, t, i, j)
    ensures InRange(Split(aL, aR, e).left, t, i, j)
    ensures Entry(Split(aL, aR, e).left, t, i, j) == 0.5 * (Entry(aL, t, i, j) + Entry(aR, t, i, j) - Entry(e, t, i, j))
  {
    var s := Add(aL, aR);
    var x := Entry(s, t, i, j);
    assert x == Entry(aL, t, i, j) + Entry(aR, t, i, j) && InRange(s, t, i, j) by {
      AddEntry(aL, aR, t, i, j);
    }
    assert Entry(Sub(s, e), t, i, j) == x - Entry(e, t, i, j) && InRange(Sub(s, e), t, i, j) by {
      SubEntry(s, e, t, i, j);
    }
    ScaleEntry(0.5, Sub(s, e), t, i, j);
  }

  /** Entry by entry the right half is (A_L + A_R + e) / 2. */
  lemma {:induction false} SplitRightEntry(aL: Stack, aR: Stack, e: Stack, t: int, i: int, j: int)
    requires InRange(aL, t, i, j)
    ensures InRange(Split(aL, aR, e).right, t, i, j)
    ensures Entry(Split(aL, aR, e).right, t, i, j) == 0.5 * (Entry(aL, t, i, j) + Entry(aR, t, i, j) + Entry(e, t, i, j))
  {
    var s := Add(aL, aR);
    var x := Entry(s, t, i, j);
    assert x == Entry(aL, t, i, j) + Entry(aR, t, i, j) && InRange(s, t, i, j) by {
      AddEntry(aL, aR, t, i, j);
    }
    assert Entry(Add(s, e), t, i, j) == x + Entry(e, t, i, j) && InRange(Add(s, e), t, i, j) by {
      AddEntry(s, e, t, i, j);
    }
    ScaleEntry(0.5, Add(s, e), t, i, j);
  }

  /** The threshold per pair outside the node penalty: 2 kernel[i][i + m] / rho. */
  function PairThreshold(kernel: Matrix, m: nat, rho: real): seq<real>
    requires rho != 0.0
  {
    VScale(2.0 / rho, Superdiag(kernel, m))
  }

  /** The threshold per pair of the node penalty: kernel[i][i + m] / (2 rho). */
  function NodeThreshold(kernel: Matrix, m: nat, rho: real): seq<real>
    requires rho != 0.0
  {
    VScale(0.5 / rho, Superdiag(kernel, m))
  }

  /** The new copies of lag m from A_L = K[:-m] + U_L and A_R = K[m:] + U_R. */
  function NewCopies(aL: Stack, aR: Stack, m: nat, kernel: Matrix, rho: real, P: LagProx): LagPair
    requires rho != 0.0
  {
    if !P.node then Split(aL, aR, P.prox(Sub(aR, aL), PairThreshold(kernel, m, rho)))
    else P.proxNode(aL, aR, NodeThreshold(kernel, m, rho), rho)
  }

  /**
   * One pass of the consensus loop for lag m, from the lag's duals U: the
   * new copies from A_L = K[:-m] + U_L and A_R = K[m:] + U_R, then the duals
   * moved by the gaps, U_L + K[:-m] - Z_L and U_R + K[m:] - Z_R.
   */
  function LagStep(K: Stack, U: LagPair, m: nat, kernel: Matrix, rho: real, P: LagProx): LagVars
    requires rho != 0.0
  {
    var z := NewCopies(Add(Head(K, m), U.left), Add(Tail(K, m), U.right), m, kernel, rho, P);
    LagVars(z, LagPair(Add(U.left, Sub(Head(K, m), z.left)), Add(U.right, Sub(Tail(K, m), z.right))))
  }

  /**
   * Outside the node penalty the new copies keep Z_L + Z_R = A_L + A_R and
   * make Z_R - Z_L the proximal point of A_R - A_L.
   */
  lemma {:induction false} LagStepConsensus(K: Stack, p: nat, U: LagPair, m: nat, kernel: Matrix, rho: real, P: LagProx)
    requires rho != 0.0 && !P.node && Conforms(P) && IsStack(K, |K|, p)
    ensures var z := LagStep(K, U, m, kernel, rho, P).copies;
            var aL := Add(Head(K, m), U.left);
            var aR := Add(Tail(K, m), U.right);
            Add(z.left, z.right) == Add(aL, aR) &&
            Sub(z.right, z.left) == P.prox(Sub(aR, aL), PairThreshold(kernel, m, rho))
  {
    var aL := Add(Head(K, m), U.left);
    var aR := Add(Tail(K, m), U.right);
    var e := P.prox(Sub(aR, aL), PairThreshold(kernel, m, rho));
    assert LagStep(K, U, m, kernel, rho, P).copies == Split(aL, aR, e);
    assert SameShape(e, aL) by {
      assert SameShape(e, Sub(aR, aL));
      SubShape(aR, aL);
      AddShape(Head(K, m), U.left);
      AddShape(Tail(K, m), U.right);
      HeadTailShape(K, p, m);
    }
    SplitKeepsSumAndDifference(aL, aR, e);
  }

  lemma {:induction false} SubOfAdd(U: Stack, D: Stack)
    requires SameShape(U, D)
    ensures Sub(Add(U, D), U) == D
  {
    var S := Sub(Add(U, D), U);
    AddShape(U, D);
    SubShape(Add(U, D), U);
    forall t, i, j | InRange(S, t, i, j) ensures Entry(S, t, i, j) == Entry(D, t, i, j) {
      SameShapeInRange(S, U, t, i, j);
      AddEntry(U, D, t, i, j);
      SubEntry(Add(U, D), U, t, i, j);
    }
    StackExt(S, D);
  }

  /** On a stack of p x p slices K[:-m] and K[m:] have the same shape. */
  lemma {:induction false} HeadTailShape(K: Stack, p: nat, m: nat)
    requires IsStack(K, |K|, p)
    ensures SameShape(Head(K, m), Tail(K, m))
  {
    var H, R := Head(K, m), Tail(K, m);
    forall t | 0 <= t < |H| ensures Shape(H)[t] == Shape(R)[t] {
      ShapeAt(H, t);
      ShapeAt(R, t);
      assert H[t] == K[t] && R[t] == K[t + m];
      SquareShape(K[t], p);
      SquareShape(K[t + m], p);
    }
  }

  /** New copies are shaped like K[:-m] and K[m:]. */
  lemma {:induction false} NewCopiesShaped(K: Stack, p: nat, U: LagPair, m: nat, kernel: Matrix, rho: real, P: LagProx)
    requires rho != 0.0 && Conforms(P) && IsStack(K, |K|, p)
    ensures PairShaped(NewCopies(Add(Head(K, m), U.left), Add(Tail(K, m), U.right), m, kernel, rho, P), K, m)
  {
    var aL := Add(Head(K, m), U.left);
    var aR := Add(Tail(K, m), U.right);
    var z := NewCopies(aL, aR, m, kernel, rho, P);
    AddShape(Head(K, m), U.left);
    AddShape(Tail(K, m), U.right);
    if !P.node {
      HeadTailShape(K, p, m);
      SplitShaped(aL, aR, P.prox(Sub(aR, aL), PairThreshold(kernel, m, rho)));
      assert SameShape(z.left, aL) && SameShape(z.right, aL);
    } else {
      assert SameShape(z.left, aL) && SameShape(z.right, aR);
    }
  }

  function PairSub(P: LagPair, Q: LagPair): LagPair { LagPair(Sub(P.left, Q.left), Sub(P.right, Q.right)) }

  /** The duals of lag m move by exactly the primal gaps K[:-m] - Z_L and K[m:] - Z_R. */
  lemma {:induction false} DualMovesByGap(K: Stack, p: nat, U: LagPair, m: nat, kernel: Matrix, rho: real, P: LagProx)
    requires rho != 0.0 && Conforms(P) && IsStack(K, |K|, p) && PairShaped(U, K, m)
    ensures var V := LagStep(K, U, m, kernel, rho, P);
            PairSub(V.duals, U) == PairSub(Copies(K, m), V.copies)
  {
    var z := NewCopies(Add(Head(K, m), U.left), Add(Tail(K, m), U.right), m, kernel, rho, P);
    assert Sub(Add(U.left, Sub(Head(K, m), z.left)), U.left) == Sub(Head(K, m), z.left) by {
      NewCopiesShaped(K, p, U, m, kernel, rho, P);
      SubShape(Head(K, m), z.left);
      SubOfAdd(U.left, Sub(Head(K, m), z.left));
    }
    assert Sub(Add(U.right, Sub(Tail(K, m), z.right)), U.right) == Sub(Tail(K, m), z.right) by {
      NewCopiesShaped(K, p, U, m, kernel, rho, P);
      SubShape(Tail(K, m), z.right);
      SubOfAdd(U.right, Sub(Tail(K, m), z.right));
    }
  }

  /** The new copies and duals of lag m are shaped like K[:-m] and K[m:]. */
  lemma {:induction false} LagStepShaped(K: Stack, p: nat, U: LagPair, m: nat, kernel: Matrix, rho: real, P: LagProx)
    requires rho != 0.0 && Conforms(P) && IsStack(K, |K|, p) && PairShaped(U, K, m)
    ensures PairShaped(LagStep(K, U, m, kernel, rho, P).copies, K, m)
    ensures PairShaped(LagStep(K, U, m, kernel, rho, P).duals, K, m)
  {
    var z := NewCopies(Add(Head(K, m), U.left), Add(Tail(K, m), U.right), m, kernel, rho, P);
    NewCopiesShaped(K, p, U, m, kernel, rho, P);
    AddShape(U.left, Sub(Head(K, m), z.left));
    AddShape(U.right, Sub(Tail(K, m), z.right));
  }

  /**
   * The loop `for m in range(1, T)` that replaces every lag's variables by
   * f applied to the lag and its current variables.
   */
  method ForEachLag(L: LagState, T: nat, f: (nat, LagVars) -> LagVars) returns (L': LagState)
    requires HasLags(L, T)
    ensures HasLags(L', T)
    ensures forall m :: 0 < m < T ==> L'[m] == f(m, L[m])
  {
    L' := L;
    var m := 1;
    while m < T
      invariant 1 <= m && (m <= T || T == 0)
      invariant HasLags(L', T)
      invariant forall k :: 0 < k < m && k < T ==> L'[k] == f(k, L[k])
      invariant forall k :: m <= k < T ==> L'[k] == L[k]
    {
      L' := L'[m := f(m, L'[m])];
      m := m + 1;
    }
  }

  /** Every lag's variables replaced by LagStep's, computed from the lag's own duals. */
  function Consensus(K: Stack, L: LagState, kernel: Matrix, rho: real, P: LagProx): LagState
    requires rho != 0.0 && HasLags(L, |K|)
  {
    map m: nat | 0 < m < |K| :: LagStep(K, L[m].duals, m, kernel, rho, P)
  }

  lemma {:induction false} ConsensusAt(K: Stack, L: LagState, kernel: Matrix, rho: real, P: LagProx)
    requires rho != 0.0 && HasLags(L, |K|)
    ensures HasLags(Consensus(K, L, kernel, rho, P), |K|)
    ensures forall m :: 0 < m < |K| ==> Consensus(K, L, kernel, rho, P)[m] == LagStep(K, L[m].duals, m, kernel, rho, P)
  {
  }

  /**
   * The consensus loop over every lag: lag m's copies and duals are replaced
   * by LagStep's, computed from lag m's own duals.
   */
  method ConsensusUpdate(K: Stack, L: LagState, kernel: Matrix, rho: real, P: LagProx) returns (L': LagState)
    requires rho != 0.0 && HasLags(L, |K|)
    ensures HasLags(L', |K|)
    ensures forall m :: 0 < m < |K| ==> L'[m] == LagStep(K, L[m].duals, m, kernel, rho, P)
    ensures L' == Consensus(K, L, kernel, rho, P)
  {
    L' := ForEachLag(L, |K|, (m: nat, v: LagVars) => LagStep(K, v.duals, m, kernel, rho, P));
    ConsensusAt(K, L, kernel, rho, P);
    LagMapExt(L', Consensus(K, L, kernel, rho, P), |K|);
  }

  /** Lag by lag, the gaps K[:-m] - Z_L and K[m:] - Z_R. */
  function Gaps(K: Stack, L: LagState): LagMap
  {
    map m | m in L && 0 < m < |K| :: PairSub(Copies(K, m), L[m].copies)
  }

  /** Lag by lag, how far the duals moved from L to L'. */
  function DualMoves(L': LagState, L: LagState): LagMap
  {
    map m | m in L' && m in L :: PairSub(L'[m].duals, L[m].duals)
  }

  /** Lag by lag, how far the copies moved from a snapshot Zold. */
  function CopyMoves(L: LagState, Zold: LagMap): LagMap
  {
    map m | m in L && m in Zold :: PairSub(L[m].copies, Zold[m])
  }

  /** The copies of every lag (the dict Z_M). */
  function CopiesOf(L: LagState): LagMap
  {
    map m | m in L :: L[m].copies
  }

  /** The duals of every lag (the dict U_M). */
  function DualsOf(L: LagState): LagMap
  {
    map m | m in L :: L[m].duals
  }

  /** The consensus update keeps every lag's copies and duals shaped like K[:-m] and K[m:]. */
  lemma {:induction false} ConsensusShaped(K: Stack, p: nat, L: LagState, L': LagState, kernel: Matrix, rho: real, P: LagProx)
    requires rho != 0.0 && Conforms(P) && IsStack(K, |K|, p) && Shaped(L, K) && HasLags(L', |K|)
    requires forall m :: 0 < m < |K| ==> L'[m] == LagStep(K, L[m].duals, m, kernel, rho, P)
    ensures Shaped(L', K)
  {
    forall m | 0 < m < |K| ensures PairShaped(L'[m].copies, K, m) && PairShaped(L'[m].duals, K, m) {
      assert PairShaped(L[m].duals, K, m);
      LagStepShaped(K, p, L[m].duals, m, kernel, rho, P);
    }
  }

  /** After the consensus update the dual moves are exactly the primal gaps, lag by lag. */
  lemma {:induction false} ConsensusGapsAreDualMoves(K: Stack, p: nat, L: LagState, L': LagState, kernel: Matrix, rho: real, P: LagProx)
    requires rho != 0.0 && Conforms(P) && IsStack(K, |K|, p) && Shaped(L, K) && HasLags(L', |K|)
    requires forall m :: 0 < m < |K| ==> L'[m] == LagStep(K, L[m].duals, m, kernel, rho, P)
    ensures Gaps(K, L') == DualMoves(L', L)
  {
    var G, D := Gaps(K, L'), DualMoves(L', L);
    GapsHaveLags(K, L');
    DualMovesHaveLags(L', L, |K|);
    forall m | 0 < m < |K| ensures G[m] == D[m] {
      GapIsDualMove(K, p, L, L', kernel, rho, P, m);
    }
    LagMapExt(G, D, |K|);
  }

  lemma {:induction false} GapIsDualMove(K: Stack, p: nat, L: LagState, L': LagState, kernel: Matrix, rho: real, P: LagProx, m: nat)
    requires rho != 0.0 && Conforms(P) && IsStack(K, |K|, p) && Shaped(L, K) && HasLags(L', |K|)
    requires 0 < m < |K| && L'[m] == LagStep(K, L[m].duals, m, kernel, rho, P)
    ensures m in Gaps(K, L') && m in DualMoves(L', L) && Gaps(K, L')[m] == DualMoves(L', L)[m]
  {
    assert PairShaped(L[m].duals, K, m);
    DualMovesByGap(K, p, L[m].duals, m, kernel, rho, P);
  }

  lemma {:induction false} GapsHaveLags(K: Stack, L: LagState)
    requires HasLags(L, |K|)
    ensures HasLags(Gaps(K, L), |K|)
  {
  }

  lemma {:induction false} DualMovesHaveLags(L': LagState, L: LagState, T: nat)
    requires HasLags(L', T) && HasLags(L, T)
    ensures HasLags(DualMoves(L', L), T)
  {
  }

  /** Maps over the lags 1..T-1 that agree on every lag are equal. */
  lemma {:induction false} LagMapExt<X>(M: map<nat, X>, N: map<nat, X>, T: nat)
    requires HasLags(M, T) && HasLags(N, T)
    requires forall m :: 0 < m < T ==> M[m] == N[m]
    ensures M == N
  {
    assert M.Keys == N.Keys;
  }

  // ---------------------------------------------------------------------
  // Rescaling the duals when rho changes

  function ScalePair(c: real, P: LagPair): LagPair { LagPair(Scale(c, P.left), Scale(c, P.right)) }

  /** Every lag's duals multiplied by c; the copies stay. */
  function Rescaled(L: LagState, T: nat, c: real): LagState
    requires HasLags(L, T)
  {
    map m: nat | 0 < m < T :: LagVars(L[m].copies, ScalePair(c, L[m].duals))
  }

  lemma {:induction false} RescaledAt(L: LagState, T: nat, c: real)
    requires HasLags(L, T)
    ensures HasLags(Rescaled(L, T, c), T)
    ensures forall m :: 0 < m < T ==> Rescaled(L, T, c)[m] == LagVars(L[m].copies, ScalePair(c, L[m].duals))
  {
  }

  /** The loop `U_L *= c; U_R *= c` over every lag; the copies stay. */
  method RescaleDuals(L: LagState, T: nat, c: real) returns (L': LagState)
    requires HasLags(L, T)
    ensures HasLags(L', T)
    ensures forall m :: 0 < m < T ==> L'[m] == LagVars(L[m].copies, ScalePair(c, L[m].duals))
    ensures L' == Rescaled(L, T, c)
  {
    L' := ForEachLag(L, T, (m: nat, v: LagVars) => LagVars(v.copies, ScalePair(c, v.duals)));
    RescaledAt(L, T, c);
    LagMapExt(L', Rescaled(L, T, c), T);
  }

  /** Rescaling keeps every lag shaped like K[:-m] and K[m:]. */
  lemma {:induction false} RescaledShaped(L: LagState, K: Stack, c: real)
    requires Shaped(L, K)
    ensures Shaped(Rescaled(L, |K|, c), K)
  {
    RescaledAt(L, |K|, c);
    forall m | 0 < m < |K|
      ensures PairShaped(Rescaled(L, |K|, c)[m].copies, K, m) && PairShaped(Rescaled(L, |K|, c)[m].duals, K, m)
    {
      assert PairShaped(L[m].copies, K, m) && PairShaped(L[m].duals, K, m);
      ScaleShape(c, L[m].duals.left);
      ScaleShape(c, L[m].duals.right);
    }
  }

  /**
   * With rho' = update_rho(rho, ...) the duals are scaled by rho / rho': the
   * unscaled duals rho' U' of every lag equal rho U.
   */
  lemma {:induction false} RescaledKeepsUnscaledDuals(L: LagState, T: nat, rho: real, rho': real)
    requires HasLags(L, T) && rho' != 0.0
    ensures forall m :: 0 < m < T ==>
      ScalePair(rho', Rescaled(L, T, rho / rho')[m].duals) == ScalePair(rho, L[m].duals)
  {
    RescaledAt(L, T, rho / rho');
    forall m | 0 < m < T ensures ScalePair(rho', Rescaled(L, T, rho / rho')[m].duals) == ScalePair(rho, L[m].duals) {
      RescaleKeepsUnscaledDual(L[m].duals.left, rho, rho');
      RescaleKeepsUnscaledDual(L[m].duals.right, rho, rho');
    }
  }

  /** Scaling the scaled duals by rho / rho' keeps the unscaled duals: rho' U' == rho U. */
  lemma {:induction false} RescaleKeepsUnscaledDual(X: Stack, rho: real, rho': real)
    requires rho' != 0.0
    ensures Scale(rho', Scale(rho / rho', X)) == Scale(rho, X)
  {
    var c := rho / rho';
    assert rho' * c == rho;
    ScaleScale(rho', c, X);
  }

  // ---------------------------------------------------------------------
  // Residual sums and the temporal penalty

  function PairSq(P: LagPair): real { SqNorm(P.left) + SqNorm(P.right) }

  /** Sum over the lags 1..k of the square norms of both stacks (a missing lag counts 0). */
  function LagSqUpTo(M: LagMap, k: nat): (r: real)
    ensures r >= 0.0
  {
    if k == 0 then 0.0
    else if k in M then
      DotSelfNonneg(M[k].left);
      DotSelfNonneg(M[k].right);
      LagSqUpTo(M, k - 1) + PairSq(M[k])
    else LagSqUpTo(M, k - 1)
  }

  /** The square norm of a lag dict over the lags 1..T-1. */
  function LagSq(M: LagMap, T: nat): real { LagSqUpTo(M, LastLag(T)) }

  /**
   * After a consensus update the summed square gaps (the square of the primal
   * residual) equal the summed square moves of the duals.
   */
  lemma {:induction false} PrimalResidualIsDualMove(K: Stack, p: nat, L: LagState, L': LagState, kernel: Matrix, rho: real, P: LagProx)
    requires rho != 0.0 && Conforms(P) && IsStack(K, |K|, p) && Shaped(L, K) && HasLags(L', |K|)
    requires forall m :: 0 < m < |K| ==> L'[m] == LagStep(K, L[m].duals, m, kernel, rho, P)
    ensures LagSq(Gaps(K, L'), |K|) == LagSq(DualMoves(L', L), |K|)
  {
    ConsensusGapsAreDualMoves(K, p, L, L', kernel, rho, P);
  }

  /** Sum over the slices of D of w[i] * psi(D[i]) (numpy `np.sum(map(psi, D) * w)`). */
  function Weighted(psi: Matrix -> real, D: Stack, w: seq<real>): real
    decreases |D|
  {
    if |D| == 0 then 0.0 else psi(D[0]) * Get(w, 0) + Weighted(psi, D[1..], Drop(w))
  }

  /** Lag k's term of the temporal penalty: the k-th superdiagonal of the kernel weighs psi(Z_R[i] - Z_L[i]). */
  function LagTerm(Z: LagMap, kernel: Matrix, psi: Matrix -> real, k: nat): real
  {
    if k in Z then Weighted(psi, Sub(Z[k].right, Z[k].left), Superdiag(kernel, k)) else 0.0
  }

  /** The temporal penalty over the copies of lags 1..k. */
  function LagPenaltyUpTo(Z: LagMap, kernel: Matrix, psi: Matrix -> real, k: nat): real
  {
    if k == 0 then 0.0 else LagPenaltyUpTo(Z, kernel, psi, k - 1) + LagTerm(Z, kernel, psi, k)
  }

  function LagPenalty(Z: LagMap, kernel: Matrix, psi: Matrix -> real, T: nat): real
  {
    LagPenaltyUpTo(Z, kernel, psi, LastLag(T))
  }

  /** Lag k's term of the same penalty taken on K itself: psi(K[k:] - K[:-k]). */
  function KernelTerm(K: Stack, kernel: Matrix, psi: Matrix -> real, k: nat): real
  {
    Weighted(psi, Sub(Tail(K, k), Head(K, k)), Superdiag(kernel, k))
  }

  function KernelPenaltyUpTo(K: Stack, kernel: Matrix, psi: Matrix -> real, k: nat): real
  {
    if k == 0 then 0.0 else KernelPenaltyUpTo(K, kernel, psi, k - 1) + KernelTerm(K, kernel, psi, k)
  }

  function KernelPenalty(K: Stack, kernel: Matrix, psi: Matrix -> real): real
  {
    KernelPenaltyUpTo(K, kernel, psi, LastLag(|K|))
  }

  lemma {:induction false} LagTermAtConsensus(K: Stack, Z: LagMap, kernel: Matrix, psi: Matrix -> real, k: nat)
    requires k in Z && Z[k] == Copies(K, k)
    ensures LagTerm(Z, kernel, psi, k) == KernelTerm(K, kernel, psi, k)
  {
  }

  lemma {:induction false} LagPenaltyAtConsensusUpTo(K: Stack, Z: LagMap, kernel: Matrix, psi: Matrix -> real, k: nat)
    requires k < |K| && HasLags(Z, |K|)
    requires forall m :: 0 < m < |K| ==> Z[m] == Copies(K, m)
    ensures LagPenaltyUpTo(Z, kernel, psi, k) == KernelPenaltyUpTo(K, kernel, psi, k)
  {
    if k > 0 {
      LagPenaltyAtConsensusUpTo(K, Z, kernel, psi, k - 1);
      LagTermAtConsensus(K, Z, kernel, psi, k);
    }
  }

  /** When every copy equals the slices it stands for, the penalty over the copies is the penalty over K. */
  lemma {:induction false} LagPenaltyAtConsensus(K: Stack, Z: LagMap, kernel: Matrix, psi: Matrix -> real)
    requires HasLags(Z, |K|)
    requires forall m :: 0 < m < |K| ==> Z[m] == Copies(K, m)
    ensures LagPenalty(Z, kernel, psi, |K|) == KernelPenalty(K, kernel, psi)
  {
    if |K| > 0 {
      LagPenaltyAtConsensusUpTo(K, Z, kernel, psi, |K| - 1);
    }
  }

  lemma {:induction false} WeightedByZeros(psi: Matrix -> real, D: Stack, w: seq<real>)
    requires forall i :: 0 <= i < |w| ==> w[i] == 0.0
    ensures Weighted(psi, D, w) == 0.0
  {
    if |D| > 0 {
      WeightedByZeros(psi, D[1..], Drop(w));
    }
  }

  lemma {:induction false} IdentityUncoupledUpTo(Z: LagMap, psi: Matrix -> real, T: nat, k: nat)
    ensures LagPenaltyUpTo(Z, Identity(T), psi, k) == 0.0
  {
    if k > 0 {
      IdentityUncoupledUpTo(Z, psi, T, k - 1);
      var w := Superdiag(Identity(T), k);
      forall i | 0 <= i < |w| ensures w[i] == 0.0 {
        assert w[i] == MGet(Identity(T), i, i + k);
      }
      if k in Z {
        WeightedByZeros(psi, Sub(Z[k].right, Z[k].left), w);
      }
      assert LagTerm(Z, Identity(T), psi, k) == 0.0;
    }
  }

  /**
   * With the identity kernel (what a missing kernel defaults to) no pair of
   * distinct time points is coupled: the temporal penalty vanishes.
   */
  lemma {:induction false} IdentityKernelUncoupled(Z: LagMap, psi: Matrix -> real, T: nat)
    ensures LagPenalty(Z, Identity(T), psi, T) == 0.0
  {
    IdentityUncoupledUpTo(Z, psi, T, LastLag(T));
  }

  /** A missing kernel is the T x T identity (np.eye(n_times)). */
  function KernelOf(kernel: Option<Matrix>, T: nat): Matrix
  {
    if kernel.None? then Identity(T) else kernel.value
  }

  /**
   * A given kernel is used as it is; a missing one couples no two distinct
   * time points: the T x T identity, whose temporal penalty vanishes.
   */
  lemma {:induction false} KernelDefault(kernel: Option<Matrix>, T: nat, Z: LagMap, psi: Matrix -> real)
    ensures kernel.Some? ==> KernelOf(kernel, T) == kernel.value
    ensures kernel.None? ==> IsSquare(KernelOf(kernel, T), T)
    ensures kernel.None? ==>
      forall i, j :: 0 <= i < T && 0 <= j < T ==> KernelOf(kernel, T)[i][j] == (if i == j then 1.0 else 0.0)
    ensures kernel.None? ==> LagPenalty(Z, KernelOf(kernel, T), psi, T) == 0.0
  {
    if kernel.None? {
      IdentityEntries(T);
      IdentityKernelUncoupled(Z, psi, T);
    }
  }
}
