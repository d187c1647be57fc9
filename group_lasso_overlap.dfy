/**
 * ADMM for the least-squares group lasso with overlapping groups
 *
 *   minimise 1/2 ||A z - b||^2 + lamda * sum_i ||x_i||   subject to x_i = z[g_i]
 *
 * Every group g_i is a list of coordinates of z and owns a local copy x_i and
 * a scaled dual y_i of the same length.  One iteration soft-thresholds every
 * local copy, averages the copies back onto z's coordinates (the consensus
 * P* x), solves the z-system through the precomputed inverse, moves the duals
 * and appends one diagnostics record; a counter of consecutive iterations
 * whose residuals are under their tolerances stops the loop.
 *
 * Numerical kernels are parameters: the Euclidean norm, the data-fit term
 * 1/2 ||A z - b||^2, the product with inv(A^T A + rho D), A^T b and sqrt(d).
 */
module GroupLassoOverlap {
  import opened Tensor

  /** A group: the coordinates of z it covers, in the user's order. */
  type Group = seq<nat>

  // ---------------------------------------------------------------------
  // D_function: how many groups cover each coordinate

  /** The number of groups that contain coordinate j. */
  function Coverage(j: int, groups: seq<Group>): (r: nat)
    ensures r <= |groups|
  {
    if |groups| == 0 then 0
    else Coverage(j, groups[..|groups| - 1]) + (if j in groups[|groups| - 1] then 1 else 0)
  }

  /** The indices of the groups that contain coordinate j. */
  ghost function Containing(j: int, groups: seq<Group>): set<nat>
  {
    set g | 0 <= g < |groups| && j in groups[g]
  }

  lemma {:induction false} CoverageCountsContaining(j: int, groups: seq<Group>)
    ensures Coverage(j, groups) == |Containing(j, groups)|
    decreases |groups|
  {
    if |groups| > 0 {
      var n := |groups| - 1;
      CoverageCountsContaining(j, groups[..n]);
      var before := Containing(j, groups[..n]);
      var last: set<nat> := if j in groups[n] then {n} else {};
      assert Containing(j, groups) == before + last;
      assert n !in before;
      assert |before + last| == |before| + |last|;
    }
  }

  /** Coordinate j is covered by no group exactly when its count is zero. */
  lemma {:induction false} CoverageZero(j: int, groups: seq<Group>)
    ensures Coverage(j, groups) == 0 <==> forall g :: 0 <= g < |groups| ==> j !in groups[g]
    decreases |groups|
  {
    if |groups| > 0 {
      var n := |groups| - 1;
      CoverageZero(j, groups[..n]);
      assert forall g :: 0 <= g < n ==> groups[..n][g] == groups[g];
    }
  }

  /** Coverage(j) for every coordinate j < d: the diagonal of D. */
  function Coverages(d: nat, groups: seq<Group>): (r: Vector)
    ensures |r| == d
  {
    seq(d, j => Coverage(j, groups) as real)
  }

  /** D_function: fills the counts with one pass over the groups per coordinate. */
  method DFunction(d: nat, groups: seq<Group>) returns (D: array<real>)
    ensures fresh(D) && D.Length == d
    ensures forall j :: 0 <= j < d ==> D[j] == Coverage(j, groups) as real
    ensures D[..] == Coverages(d, groups)
  {
    D := new real[d](_ => 0.0);
    for dimension := 0 to d
      invariant forall j :: 0 <= j < dimension ==> D[j] == Coverage(j, groups) as real
      invariant forall j :: dimension <= j < d ==> D[j] == 0.0
    {
      for g := 0 to |groups|
        invariant D[dimension] == Coverage(dimension, groups[..g]) as real
        invariant forall j :: 0 <= j < dimension ==> D[j] == Coverage(j, groups) as real
        invariant forall j :: dimension < j < d ==> D[j] == 0.0
      {
        assert groups[..g + 1][..g] == groups[..g];
        if dimension in groups[g] {
          D[dimension] := D[dimension] + 1.0;
        }
      }
      assert groups[..|groups|] == groups;
    }
  }

  // ---------------------------------------------------------------------
  // P_star_x_bar_function: the consensus of the local copies

  /** Position of the first occurrence of j in g (numpy argwhere(...)[0]). */
  function FirstIndex(g: Group, j: int): (r: nat)
    requires j in g
    ensures r < |g| && g[r] == j && j !in g[..r]
  {
    if g[0] == j then 0
    else
      assert j in g[1..];
      var k := FirstIndex(g[1..], j);
      assert g[..k + 1] == [g[0]] + g[1..][..k];
      k + 1
  }

  /** Sum over the groups g containing j of x[g] at j's first position in g. */
  function Total(x: seq<Vector>, j: int, groups: seq<Group>): real
    decreases |groups|
  {
    if |groups| == 0 then 0.0
    else
      var n := |groups| - 1;
      Total(x, j, groups[..n]) + (if j in groups[n] then MGet(x, n, FirstIndex(groups[n], j)) else 0.0)
  }

  /** Entry j of P* x: the total divided by the count, left as is (0) when no group covers j. */
  function Mean(x: seq<Vector>, j: int, groups: seq<Group>): real
  {
    var count := Coverage(j, groups);
    if count > 0 then Total(x, j, groups) / count as real else Total(x, j, groups)
  }

  lemma {:induction false} TotalUncovered(x: seq<Vector>, j: int, groups: seq<Group>)
    requires Coverage(j, groups) == 0
    ensures Total(x, j, groups) == 0.0
    decreases |groups|
  {
    if |groups| > 0 {
      TotalUncovered(x, j, groups[..|groups| - 1]);
    }
  }

  /** A coordinate no group covers gets 0. */
  lemma {:induction false} MeanUncovered(x: seq<Vector>, j: int, groups: seq<Group>)
    requires forall g :: 0 <= g < |groups| ==> j !in groups[g]
    ensures Mean(x, j, groups) == 0.0
  {
    CoverageZero(j, groups);
    TotalUncovered(x, j, groups);
  }

  /** P* x on the coordinates 0..d-1. */
  function Consensus(x: seq<Vector>, d: nat, groups: seq<Group>): (r: Vector)
    ensures |r| == d
  {
    seq(d, j => Mean(x, j, groups))
  }

  /** P_star_x_bar_function: a running sum and count per coordinate. */
  method PStarXBar(x: seq<Vector>, d: nat, groups: seq<Group>) returns (P: array<real>)
    ensures fresh(P) && P.Length == d
    ensures forall j :: 0 <= j < d ==> P[j] == Mean(x, j, groups)
    ensures P[..] == Consensus(x, d, groups)
  {
    P := new real[d](_ => 0.0);
    for dim := 0 to d
      invariant forall j :: 0 <= j < dim ==> P[j] == Mean(x, j, groups)
    {
      var ss := 0.0;
      var count := 0;
      for g := 0 to |groups|
        invariant ss == Total(x, dim, groups[..g])
        invariant count == Coverage(dim, groups[..g])
      {
        assert groups[..g + 1][..g] == groups[..g];
        if dim in groups[g] {
          var idx := FirstIndex(groups[g], dim);
          ss := ss + MGet(x, g, idx);
          count := count + 1;
        }
      }
      assert groups[..|groups|] == groups;
      if count > 0 {
        ss := ss / count as real;
      }
      P[dim] := ss;
    }
  }

  // ---------------------------------------------------------------------
  // Local copies and their consensus

  /** z[g]: the entries of z at g's coordinates (0.0 beyond z). */
  function Gather(z: Vector, g: Group): (r: Vector)
    ensures |r| == |g|
  {
    if |g| == 0 then [] else [Get(z, g[0])] + Gather(z, g[1..])
  }

  lemma {:induction false} GatherAt(z: Vector, g: Group, k: nat)
    requires k < |g|
    ensures Gather(z, g)[k] == Get(z, g[k])
  {
    if k > 0 {
      GatherAt(z, g[1..], k - 1);
    }
  }

  /** Group i, empty outside the list. */
  function GroupAt(groups: seq<Group>, i: int): Group
  {
    if 0 <= i < |groups| then groups[i] else []
  }

  /** Every local copy has its group's length. */
  predicate Conforms(x: seq<Vector>, groups: seq<Group>)
  {
    |x| == |groups| && forall g :: 0 <= g < |groups| ==> |x[g]| == |groups[g]|
  }

  /** Local copies that all agree with z: x[g] == z[g] for every group. */
  predicate AgreeWith(x: seq<Vector>, z: Vector, groups: seq<Group>)
  {
    |x| == |groups| && forall g :: 0 <= g < |groups| ==> x[g] == Gather(z, groups[g])
  }

  /** c copies of v added up. */
  function Times(c: nat, v: real): real
  {
    if c == 0 then 0.0 else Times(c - 1, v) + v
  }

  lemma {:induction false} TimesIsProduct(c: nat, v: real)
    ensures Times(c, v) == c as real * v
  {
    if c > 0 {
      TimesIsProduct(c - 1, v);
      AddOne((c - 1) as real, v);
    }
  }

  lemma {:induction false} AddOne(c: real, v: real)
    ensures c * v + v == (c + 1.0) * v
  {
  }

  lemma {:induction false} TotalOfAgreeing(x: seq<Vector>, z: Vector, j: int, groups: seq<Group>)
    requires |x| >= |groups|
    requires forall g :: 0 <= g < |groups| ==> x[g] == Gather(z, groups[g])
    ensures Total(x, j, groups) == Times(Coverage(j, groups), Get(z, j))
    decreases |groups|
  {
    if |groups| > 0 {
      var n := |groups| - 1;
      var G := groups[..n];
      assert forall g :: 0 <= g < |G| ==> x[g] == Gather(z, G[g]);
      TotalOfAgreeing(x, z, j, G);
      if j in groups[n] {
        var p := FirstIndex(groups[n], j);
        assert MGet(x, n, p) == Get(z, j) by {
          GatherAt(z, groups[n], p);
          assert Row(x, n) == Gather(z, groups[n]);
        }
      }
    }
  }

  /**
   * The consensus undoes the gather: when every local copy agrees with z, P* x
   * is z on every covered coordinate (and 0 elsewhere, MeanUncovered).
   */
  lemma {:induction false} MeanOfAgreeing(x: seq<Vector>, z: Vector, j: int, groups: seq<Group>)
    requires AgreeWith(x, z, groups)
    requires exists g :: 0 <= g < |groups| && j in groups[g]
    ensures Mean(x, j, groups) == Get(z, j)
  {
    CoverageZero(j, groups);
    var c := Coverage(j, groups);
    var v := Get(z, j);
    assert c > 0;
    TotalOfAgreeing(x, z, j, groups);
    TimesIsProduct(c, v);
    Cancel(Total(x, j, groups), c as real, v);
  }

  lemma {:induction false} Cancel(t: real, c: real, v: real)
    requires c != 0.0 && t == c * v
    ensures t / c == v
  {
  }

  // ---------------------------------------------------------------------
  // prox and soft_thresholding

  /** prox: scalar soft thresholding max(0, x - kappa) - max(0, -x - kappa). */
  function Prox(x: real, kappa: real): (r: real)
    ensures kappa >= 0.0 && -kappa <= x <= kappa ==> r == 0.0
    ensures kappa >= 0.0 && x > kappa ==> r == x - kappa
    ensures kappa >= 0.0 && x < -kappa ==> r == x + kappa
    ensures kappa == 0.0 ==> r == x
  {
    Max(0.0, x - kappa) - Max(0.0, -x - kappa)
  }

  /** prox applied to an array, entry by entry as numpy does. */
  function ProxEntrywise(v: Vector, kappa: real): (r: Vector)
    ensures |r| == |v|
    ensures forall i :: 0 <= i < |v| ==> r[i] == Prox(v[i], kappa)
  {
    if |v| == 0 then []
    else
      var rest := ProxEntrywise(v[1..], kappa);
      assert forall i :: 1 <= i < |v| ==> ([Prox(v[0], kappa)] + rest)[i] == rest[i - 1];
      [Prox(v[0], kappa)] + rest
  }

  /**
   * soft_thresholding: the zero vector when norm(z) <= lamda, else
   * z - lamda * z / norm(z).
   */
  function SoftThresholding(z: Vector, lamda: real, norm: Vector -> real): (r: Vector)
    requires lamda >= 0.0
    ensures |r| == |z|
    ensures norm(z) <= lamda ==> forall i :: 0 <= i < |z| ==> r[i] == 0.0
    ensures norm(z) > lamda ==> forall i :: 0 <= i < |z| ==> r[i] == z[i] - lamda / norm(z) * z[i]
  {
    var n := norm(z);
    if n > lamda then
      var r := VSub(z, VScale(lamda / n, z));
      assert forall i :: 0 <= i < |z| ==> r[i] == z[i] - lamda / n * z[i] by {
        forall i | 0 <= i < |z| { ShrunkAt(z, lamda / n, i); }
      }
      r
    else
      var r := VZerosLike(z);
      assert forall i :: 0 <= i < |z| ==> r[i] == 0.0 by {
        forall i | 0 <= i < |z| { VZerosAt(z, i); }
      }
      r
  }

  /** Entry i of z - c z. */
  lemma {:induction false} ShrunkAt(z: Vector, c: real, i: nat)
    requires i < |z|
    ensures VSub(z, VScale(c, z))[i] == z[i] - c * z[i]
  {
    VSubAt(z, VScale(c, z), i);
    VScaleAt(c, z, i);
  }

  /** lamda / n lies in [0, 1) when 0 <= lamda < n. */
  lemma {:induction false} FactorBounds(lamda: real, n: real)
    requires 0.0 <= lamda < n
    ensures 0.0 <= lamda / n < 1.0
  {
    assert lamda / n * n == lamda;
  }

  /** Taking a fraction f in [0, 1] of a keeps the sign and does not grow. */
  lemma {:induction false} ScaleBounds(f: real, a: real)
    requires 0.0 <= f <= 1.0
    ensures a >= 0.0 ==> 0.0 <= f * a <= a
    ensures a <= 0.0 ==> a <= f * a <= 0.0
  {
    if a >= 0.0 {
      assert f * a <= 1.0 * a;
    } else {
      assert f * a >= 1.0 * a;
    }
  }

  /**
   * Soft thresholding keeps every entry's sign and never grows it: each entry
   * is z[i] scaled by a factor in [0, 1).
   */
  lemma {:induction false} SoftThresholdingShrinks(z: Vector, lamda: real, norm: Vector -> real, i: nat)
    requires lamda >= 0.0 && i < |z|
    ensures z[i] >= 0.0 ==> 0.0 <= SoftThresholding(z, lamda, norm)[i] <= z[i]
    ensures z[i] <= 0.0 ==> z[i] <= SoftThresholding(z, lamda, norm)[i] <= 0.0
  {
    var n := norm(z);
    if n > lamda {
      FactorBounds(lamda, n);
      ScaleBounds(lamda / n, z[i]);
    }
  }

  // ---------------------------------------------------------------------
  // One ADMM iteration

  /** The kernels the solver calls, all computed from A, b and rho outside the loop. */
  datatype Numerics = Numerics(
    norm: Vector -> real,     // np.linalg.norm
    fit: Vector -> real,      // 1/2 ||A z - b||^2
    solve: Vector -> Vector,  // inv(A^T A + rho D).dot(.)
    atb: Vector,              // A^T b
    sqrtD: real)              // sqrt(d)

  datatype Params = Params(lamda: real, rho: real, maxIter: nat, tol: real, rtol: real)

  /** The iterates: local copies, consensus variable, scaled duals. */
  datatype Admm = Admm(x: seq<Vector>, z: Vector, y: seq<Vector>)

  /** One diagnostics record: objective, rnorm, snorm, eps primal, eps dual. */
  datatype History = History(objective: real, rnorm: real, snorm: real, epsPri: real, epsDual: real)

  /** Both residuals strictly under their tolerances. */
  predicate Satisfied(h: History)
  {
    h.rnorm < h.epsPri && h.snorm < h.epsDual
  }

  function Zeros(n: nat): (r: Vector)
    ensures |r| == n
  {
    seq(n, _ => 0.0)
  }

  /** One zero vector per group, of the group's length. */
  function ZerosPerGroup(groups: seq<Group>): (r: seq<Vector>)
    ensures Conforms(r, groups)
  {
    if |groups| == 0 then []
    else
      var n := |groups| - 1;
      var r := ZerosPerGroup(groups[..n]) + [Zeros(|groups[n]|)];
      assert forall g :: 0 <= g < n ==> r[g] == ZerosPerGroup(groups[..n])[g] && groups[g] == groups[..n][g];
      r
  }

  function Start(d: nat, groups: seq<Group>): Admm
  {
    Admm(ZerosPerGroup(groups), Zeros(d), ZerosPerGroup(groups))
  }

  /** The x update of group i: soft-threshold x_i - y_i / rho at lamda / rho. */
  function LocalStep(xi: Vector, yi: Vector, c: Params, norm: Vector -> real): (r: Vector)
    requires c.lamda >= 0.0 && c.rho > 0.0
    ensures |r| == |xi|
  {
    SoftThresholding(VSub(xi, VScale(1.0 / c.rho, yi)), c.lamda / c.rho, norm)
  }

  function LocalsUpdated(x: seq<Vector>, y: seq<Vector>, c: Params, norm: Vector -> real, groups: seq<Group>): (r: seq<Vector>)
    requires c.lamda >= 0.0 && c.rho > 0.0
    ensures |r| == |groups|
  {
    seq(|groups|, i => LocalStep(Row(x, i), Row(y, i), c, norm))
  }

  /** The dual update of group i: y_i + rho (x_i - z[g_i]). */
  function DualStep(yi: Vector, xi: Vector, z: Vector, g: Group, rho: real): (r: Vector)
    ensures |r| == |yi|
  {
    VAdd(yi, VScale(rho, VSub(xi, Gather(z, g))))
  }

  function DualsUpdated(y: seq<Vector>, x: seq<Vector>, z: Vector, groups: seq<Group>, rho: real): (r: seq<Vector>)
    ensures |r| == |groups|
  {
    seq(|groups|, i => DualStep(Row(y, i), Row(x, i), z, GroupAt(groups, i), rho))
  }

  /** Entrywise product: np.diag(D).dot(v). */
  function DiagDot(D: Vector, v: Vector): (r: Vector)
    ensures |r| == |D|
  {
    if |D| == 0 then [] else [D[0] * Get(v, 0)] + DiagDot(D[1..], Drop(v))
  }

  /** The z update: inv(A^T A + rho D) (A^T b + D (P* y + rho P* x)). */
  function ZUpdate(N: Numerics, rho: real, D: Vector, xc: Vector, yc: Vector): Vector
  {
    N.solve(VAdd(N.atb, DiagDot(D, VAdd(yc, VScale(rho, xc)))))
  }

  /** The sum of the local copies' norms. */
  function NormSum(norm: Vector -> real, x: seq<Vector>): (r: real)
    ensures (forall v :: norm(v) >= 0.0) ==> r >= 0.0
  {
    if |x| == 0 then 0.0 else NormSum(norm, x[..|x| - 1]) + norm(x[|x| - 1])
  }

  /** objective: the data fit at z plus lamda times the sum of the local norms. */
  function Objective(N: Numerics, lamda: real, x: seq<Vector>, z: Vector): (r: real)
    ensures lamda >= 0.0 && (forall v :: N.norm(v) >= 0.0) ==> r >= N.fit(z)
  {
    var s := NormSum(N.norm, x);
    assert lamda >= 0.0 && s >= 0.0 ==> lamda * s >= 0.0;
    N.fit(z) + lamda * s
  }

  /** The diagnostics record of an iteration. */
  function Record(N: Numerics, c: Params, x: seq<Vector>, z: Vector, zold: Vector, xc: Vector, yc: Vector): History
  {
    History(
      Objective(N, c.lamda, x, z),
      N.norm(VSub(xc, z)),
      N.norm(VScale(-c.rho, VSub(z, zold))),
      N.sqrtD * c.tol + c.rtol * Max(N.norm(xc), N.norm(VScale(-1.0, z))),
      N.sqrtD * c.tol + c.rtol * N.norm(VScale(c.rho, yc)))
  }

  /** One iteration of the loop body (without the stopping test). */
  function Next(N: Numerics, c: Params, D: Vector, d: nat, groups: seq<Group>, s: Admm): (Admm, History)
    requires c.lamda >= 0.0 && c.rho > 0.0
  {
    var x := LocalsUpdated(s.x, s.y, c, N.norm, groups);
    var xc := Consensus(x, d, groups);
    var yc := Consensus(s.y, d, groups);
    var z := ZUpdate(N, c.rho, D, xc, yc);
    var y := DualsUpdated(s.y, x, z, groups, c.rho);
    (Admm(x, z, y), Record(N, c, x, z, s.z, xc, yc))
  }

  datatype Trace = Trace(state: Admm, hist: seq<History>)

  /** k iterations from s, none of them stopping: the final iterates and the k records. */
  function Run(N: Numerics, c: Params, D: Vector, d: nat, groups: seq<Group>, s: Admm, k: nat): (r: Trace)
    requires c.lamda >= 0.0 && c.rho > 0.0
    ensures |r.hist| == k
  {
    if k == 0 then Trace(s, [])
    else
      var t := Run(N, c, D, d, groups, s, k - 1);
      var (next, h) := Next(N, c, D, d, groups, t.state);
      Trace(next, t.hist + [h])
  }

  // ---------------------------------------------------------------------
  // Properties of one iteration

  /** Both updates keep every local copy and dual at its group's length. */
  lemma {:induction false} NextConforms(N: Numerics, c: Params, D: Vector, d: nat, groups: seq<Group>, s: Admm)
    requires c.lamda >= 0.0 && c.rho > 0.0
    requires Conforms(s.x, groups) && Conforms(s.y, groups)
    ensures Conforms(Next(N, c, D, d, groups, s).0.x, groups)
    ensures Conforms(Next(N, c, D, d, groups, s).0.y, groups)
  {
  }

  /** Entry p of the dual step is y_i[p] plus entry p of rho (x_i - z[g]). */
  lemma {:induction false} DualStepAt(yi: Vector, xi: Vector, z: Vector, g: Group, rho: real, p: nat)
    requires |yi| == |xi| && p < |xi|
    ensures DualStep(yi, xi, z, g, rho)[p] == yi[p] + VScale(rho, VSub(xi, Gather(z, g)))[p]
  {
    VAddAt(yi, VScale(rho, VSub(xi, Gather(z, g))), p);
  }

  /** A product with a non-zero factor vanishes exactly when the other factor does. */
  lemma {:induction false} ZeroProduct(r: real, w: real)
    requires r != 0.0
    ensures r * w == 0.0 <==> w == 0.0
  {
  }

  /**
   * The dual step of one group leaves y_i where it is exactly when the local
   * copy agrees with z on the group's coordinates.
   */
  lemma {:induction false} DualStepFixed(yi: Vector, xi: Vector, z: Vector, g: Group, rho: real)
    requires |yi| == |xi| == |g| && rho != 0.0
    ensures DualStep(yi, xi, z, g, rho) == yi <==> xi == Gather(z, g)
  {
    var w := VSub(xi, Gather(z, g));
    forall p | 0 <= p < |xi|
      ensures DualStep(yi, xi, z, g, rho)[p] == yi[p] <==> xi[p] == Gather(z, g)[p]
    {
      DualStepAt(yi, xi, z, g, rho, p);
      VScaleAt(rho, w, p);
      VSubAt(xi, Gather(z, g), p);
      ZeroProduct(rho, w[p]);
    }
    if DualStep(yi, xi, z, g, rho) == yi {
      assert forall p :: 0 <= p < |xi| ==> xi[p] == Gather(z, g)[p];
    } else {
      assert exists p :: 0 <= p < |xi| && DualStep(yi, xi, z, g, rho)[p] != yi[p];
    }
  }

  /**
   * The dual update leaves every dual where it is exactly when every local copy
   * agrees with z (the primal residual is zero).
   */
  lemma {:induction false} DualsFixed(y: seq<Vector>, x: seq<Vector>, z: Vector, groups: seq<Group>, rho: real)
    requires Conforms(x, groups) && Conforms(y, groups) && rho != 0.0
    ensures DualsUpdated(y, x, z, groups, rho) == y <==> AgreeWith(x, z, groups)
  {
    var y' := DualsUpdated(y, x, z, groups, rho);
    forall i | 0 <= i < |groups|
      ensures y'[i] == y[i] <==> x[i] == Gather(z, groups[i])
    {
      DualStepFixed(y[i], x[i], z, groups[i], rho);
    }
    if y' != y {
      assert exists i :: 0 <= i < |groups| && y'[i] != y[i];
    }
  }

  // ---------------------------------------------------------------------
  // The stopping counter

  /** The number of satisfied records at the end of h. */
  function TrailingSatisfied(h: seq<History>): (r: nat)
    ensures r <= |h|
  {
    if |h| == 0 || !Satisfied(h[|h| - 1]) then 0 else 1 + TrailingSatisfied(h[..|h| - 1])
  }

  /** The last r records are satisfied, and the one before them (if any) is not. */
  lemma {:induction false} TrailingSatisfiedRun(h: seq<History>)
    ensures forall k :: |h| - TrailingSatisfied(h) <= k < |h| ==> Satisfied(h[k])
    ensures TrailingSatisfied(h) < |h| ==> !Satisfied(h[|h| - 1 - TrailingSatisfied(h)])
    decreases |h|
  {
    if |h| > 0 && Satisfied(h[|h| - 1]) {
      var p := h[..|h| - 1];
      TrailingSatisfiedRun(p);
      assert forall k :: 0 <= k < |p| ==> p[k] == h[k];
    }
  }

  /** Appending a record extends the satisfied run or resets it. */
  lemma {:induction false} TrailingSatisfiedStep(h: seq<History>, e: History)
    ensures TrailingSatisfied(h + [e]) == if Satisfied(e) then TrailingSatisfied(h) + 1 else 0
  {
    assert (h + [e])[..|h|] == h;
  }

  /** Appending a record keeps the earlier prefixes, and the whole when its run is under 12. */
  lemma {:induction false} PrefixesExtend(h: seq<History>, e: History)
    requires forall k :: 0 <= k <= |h| ==> TrailingSatisfied(h[..k]) < 12
    ensures forall k :: 0 <= k <= |h| ==> TrailingSatisfied((h + [e])[..k]) < 12
    ensures TrailingSatisfied(h + [e]) < 12 ==> forall k :: 0 <= k <= |h| + 1 ==> TrailingSatisfied((h + [e])[..k]) < 12
  {
    forall k | 0 <= k <= |h|
      ensures TrailingSatisfied((h + [e])[..k]) < 12
    {
      assert (h + [e])[..k] == h[..k];
    }
    assert (h + [e])[..|h| + 1] == h + [e];
  }

  // ---------------------------------------------------------------------
  // The solver

  /** The x update loop: x[i] = soft_thresholding(x[i] - y[i] / rho, lamda / rho). */
  method UpdateLocals(x: seq<Vector>, y: seq<Vector>, c: Params, norm: Vector -> real, groups: seq<Group>)
    returns (x': seq<Vector>)
    requires c.lamda >= 0.0 && c.rho > 0.0
    requires |x| == |groups|
    ensures x' == LocalsUpdated(x, y, c, norm, groups)
  {
    x' := x;
    for i := 0 to |groups|
      invariant |x'| == |groups|
      invariant forall k :: 0 <= k < i ==> x'[k] == LocalStep(Row(x, k), Row(y, k), c, norm)
      invariant forall k :: i <= k < |groups| ==> x'[k] == x[k]
    {
      x' := x'[i := LocalStep(x'[i], Row(y, i), c, norm)];
    }
  }

  /** The dual update loop: y[i] += rho * (x[i] - z[g]). */
  method UpdateDuals(y: seq<Vector>, x: seq<Vector>, z: Vector, groups: seq<Group>, rho: real)
    returns (y': seq<Vector>)
    requires |y| == |groups|
    ensures y' == DualsUpdated(y, x, z, groups, rho)
  {
    y' := y;
    for i := 0 to |groups|
      invariant |y'| == |groups|
      invariant forall k :: 0 <= k < i ==> y'[k] == DualStep(Row(y, k), Row(x, k), z, GroupAt(groups, k), rho)
      invariant forall k :: i <= k < |groups| ==> y'[k] == y[k]
    {
      y' := y'[i := DualStep(y'[i], Row(x, i), z, groups[i], rho)];
    }
  }

  /** One more iteration appends Next's record to the trace. */
  lemma {:induction false} RunStep(N: Numerics, c: Params, D: Vector, d: nat, groups: seq<Group>, s0: Admm, k: nat,
                                   s: Admm, hist: seq<History>, s': Admm, h: History)
    requires c.lamda >= 0.0 && c.rho > 0.0
    requires Run(N, c, D, d, groups, s0, k) == Trace(s, hist)
    requires (s', h) == Next(N, c, D, d, groups, s)
    ensures Run(N, c, D, d, groups, s0, k + 1) == Trace(s', hist + [h])
  {
  }

  /** The body of the solver's loop, up to the stopping test: one call of Next. */
  method Iterate(N: Numerics, c: Params, D: Vector, d: nat, groups: seq<Group>, x: seq<Vector>, z: Vector, y: seq<Vector>)
    returns (x': seq<Vector>, z': Vector, y': seq<Vector>, h: History)
    requires c.lamda >= 0.0 && c.rho > 0.0
    requires |x| == |groups| && |y| == |groups|
    ensures (Admm(x', z', y'), h) == Next(N, c, D, d, groups, Admm(x, z, y))
    ensures |x'| == |groups| && |y'| == |groups|
  {
    x' := UpdateLocals(x, y, c, N.norm, groups);
    var xcArr := PStarXBar(x', d, groups);
    var ycArr := PStarXBar(y, d, groups);
    var xc := xcArr[..];
    var yc := ycArr[..];
    z' := ZUpdate(N, c.rho, D, xc, yc);
    y' := UpdateDuals(y, x', z', groups, c.rho);
    h := Record(N, c, x', z', z, xc, yc);
  }

  /**
   * group_lasso_overlap: at most maxIter iterations, one record each; the loop
   * stops early exactly on the twelfth consecutive satisfied iteration.
   */
  method GroupLassoOverlap(N: Numerics, c: Params, d: nat, groups: seq<Group>)
    returns (z: Vector, hist: seq<History>)
    requires c.lamda >= 0.0 && c.rho > 0.0
    ensures |hist| <= c.maxIter
    ensures hist == Run(N, c, Coverages(d, groups), d, groups, Start(d, groups), |hist|).hist
    ensures z == Run(N, c, Coverages(d, groups), d, groups, Start(d, groups), |hist|).state.z
    ensures |hist| < c.maxIter ==> TrailingSatisfied(hist) == 12
    ensures forall k :: 0 <= k < |hist| ==> TrailingSatisfied(hist[..k]) < 12
  {
    var x := ZerosPerGroup(groups);
    z := Zeros(d);
    var y := ZerosPerGroup(groups);
    var Darr := DFunction(d, groups);
    var D := Darr[..];
    assert D == Coverages(d, groups);
    hist := [];
    var count := 0;
    while |hist| < c.maxIter
      invariant |hist| <= c.maxIter
      invariant |x| == |groups| && |y| == |groups|
      invariant Run(N, c, D, d, groups, Start(d, groups), |hist|) == Trace(Admm(x, z, y), hist)
      invariant count == TrailingSatisfied(hist) && count <= 11
      invariant forall k :: 0 <= k <= |hist| ==> TrailingSatisfied(hist[..k]) < 12
    {
      ghost var before := hist;
      ghost var s := Admm(x, z, y);
      var h;
      x, z, y, h := Iterate(N, c, D, d, groups, x, z, y);
      RunStep(N, c, D, d, groups, Start(d, groups), |hist|, s, hist, Admm(x, z, y), h);
      hist := hist + [h];
      TrailingSatisfiedStep(before, h);
      PrefixesExtend(before, h);
      if Satisfied(h) && count > 10 {
        break;
      }
      count := if Satisfied(h) then count + 1 else 0;
    }
  }
}
