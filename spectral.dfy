/**
 * Matrices rebuilt from an eigendecomposition in the form numpy.linalg.eigh
 * returns it: the eigenvalues es and a matrix Q whose COLUMNS are the
 * eigenvectors, so that a symmetric x equals Q diag(es) Q^T.  The forward-
 * backward solver builds the inverse of every precision slice this way
 * before it takes the gradient.
 */
module Spectral {
  import opened Tensor

  /** What eigh returns: the eigenvalues and the eigenvectors as columns. */
  datatype Eigen = Eigen(values: Vector, vectors: Matrix)

  // ---------------------------------------------------------------------
  // Finite sums

  /** f(0) + ... + f(n - 1). */
  function Sum(n: nat, f: int -> real): real
    decreases n
  {
    if n == 0 then 0.0 else Sum(n - 1, f) + f(n - 1)
  }

  lemma {:induction false} SumExt(n: nat, f: int -> real, g: int -> real)
    requires forall k :: 0 <= k < n ==> f(k) == g(k)
    ensures Sum(n, f) == Sum(n, g)
  {
    if n > 0 {
      SumExt(n - 1, f, g);
    }
  }

  lemma {:induction false} SumZero(n: nat, f: int -> real)
    requires forall k :: 0 <= k < n ==> f(k) == 0.0
    ensures Sum(n, f) == 0.0
  {
    if n > 0 {
      SumZero(n - 1, f);
    }
  }

  /** A sum that is zero away from a is its value at a. */
  lemma {:induction false} SumDelta(n: nat, a: int, f: int -> real)
    requires 0 <= a < n
    requires forall k :: 0 <= k < n && k != a ==> f(k) == 0.0
    ensures Sum(n, f) == f(a)
  {
    if a == n - 1 {
      SumZero(n - 1, f);
    } else {
      SumDelta(n - 1, a, f);
    }
  }

  lemma {:induction false} SumAdd(n: nat, f: int -> real, g: int -> real, h: int -> real)
    requires forall k :: 0 <= k < n ==> h(k) == f(k) + g(k)
    ensures Sum(n, h) == Sum(n, f) + Sum(n, g)
  {
    if n > 0 {
      SumAdd(n - 1, f, g, h);
    }
  }

  /** A constant factor comes out of a sum. */
  lemma {:induction false} SumScale(n: nat, c: real, f: int -> real, g: int -> real)
    requires forall k :: 0 <= k < n ==> g(k) == c * f(k)
    ensures Sum(n, g) == c * Sum(n, f)
  {
    if n > 0 {
      SumScale(n - 1, c, f, g);
    }
  }

  /** Row a and column b of a table F. */
  function RowOf(F: (int, int) -> real, a: int): int -> real { b => F(a, b) }
  function ColumnOf(F: (int, int) -> real, b: int): int -> real { a => F(a, b) }

  /** The row sums and the column sums of F. */
  function RowSums(m: nat, F: (int, int) -> real): int -> real { a => Sum(m, RowOf(F, a)) }
  function ColumnSums(n: nat, F: (int, int) -> real): int -> real { b => Sum(n, ColumnOf(F, b)) }

  /** Summing the rows and summing the columns give the same total. */
  lemma {:induction false} SumSwap(n: nat, m: nat, F: (int, int) -> real)
    ensures Sum(n, RowSums(m, F)) == Sum(m, ColumnSums(n, F))
  {
    if n == 0 {
      SumZero(m, ColumnSums(0, F));
    } else {
      SumSwap(n - 1, m, F);
      SumAdd(m, ColumnSums(n - 1, F), RowOf(F, n - 1), ColumnSums(n, F));
    }
  }

  // ---------------------------------------------------------------------
  // Products and recompositions

  /** The term k of entry (i, j) of A B. */
  function ProductTerm(A: Matrix, B: Matrix, i: int, j: int): int -> real { k => MGet(A, i, k) * MGet(B, k, j) }

  /** numpy's A @ B for square A of the size of A. */
  function MatMul(A: Matrix, B: Matrix): Matrix
  {
    seq(|A|, i => seq(|A|, j => Sum(|A|, ProductTerm(A, B, i, j))))
  }

  function Transpose(Q: Matrix): Matrix
  {
    seq(|Q|, i => seq(|Q|, j => MGet(Q, j, i)))
  }

  /** The term k of entry (i, j) of Q diag(v) Q^T. */
  function Term(v: Vector, Q: Matrix, i: int, j: int): int -> real { k => MGet(Q, i, k) * Get(v, k) * MGet(Q, j, k) }

  /** Q diag(v) Q^T: the matrix whose eigenvectors are Q's columns and eigenvalues v. */
  function Recompose(v: Vector, Q: Matrix): Matrix
  {
    seq(|Q|, i => seq(|Q|, j => Sum(|Q|, Term(v, Q, i, j))))
  }

  /** 1. / es entry by entry; a zero eigenvalue, where numpy gives inf, is kept at 0. */
  function Reciprocals(v: Vector): (r: Vector)
    ensures |r| == |v|
    ensures forall k :: 0 <= k < |v| && v[k] != 0.0 ==> r[k] * v[k] == 1.0
  {
    seq(|v|, k requires 0 <= k < |v| => if v[k] == 0.0 then 0.0 else 1.0 / v[k])
  }

  /** Q diag(1 / es) Q^T: the inverse of Q diag(es) Q^T. */
  function SpectralInverse(e: Eigen): Matrix
  {
    Recompose(Reciprocals(e.values), e.vectors)
  }

  /** Q^T diag(1 / es) Q: the same formula applied to Q^T, the product as written at line 261. */
  function LineInverse(e: Eigen): Matrix
  {
    Recompose(Reciprocals(e.values), Transpose(e.vectors))
  }

  function ColumnProduct(Q: Matrix, a: int, b: int): int -> real { k => MGet(Q, k, a) * MGet(Q, k, b) }
  function RowProduct(Q: Matrix, a: int, b: int): int -> real { k => MGet(Q, a, k) * MGet(Q, b, k) }

  /** Q^T Q = I and Q Q^T = I, as for the eigenvector matrix eigh returns. */
  predicate Orthogonal(Q: Matrix)
  {
    forall a, b :: 0 <= a < |Q| && 0 <= b < |Q| ==>
      Sum(|Q|, ColumnProduct(Q, a, b)) == (if a == b then 1.0 else 0.0) &&
      Sum(|Q|, RowProduct(Q, a, b)) == (if a == b then 1.0 else 0.0)
  }

  /** k |-> Q[k][a] * W[k][j]: column a of Q against column j of W. */
  function ColumnAgainst(Q: Matrix, W: Matrix, a: int, j: int): int -> real { k => MGet(Q, k, a) * MGet(W, k, j) }

  /** b |-> v[b] Q[j][b] (column b of Q against column a). */
  function PickedTerms(v: Vector, Q: Matrix, a: int, j: int): int -> real
  {
    b => Get(v, b) * MGet(Q, j, b) * Sum(|Q|, ColumnProduct(Q, b, a))
  }

  /** (k, b) |-> v[b] Q[j][b] Q[k][b] Q[k][a]: the terms of column a of Q against column j of Q diag(v) Q^T. */
  function ColumnTable(v: Vector, Q: Matrix, a: int, j: int): (int, int) -> real
  {
    (k, b) => Get(v, b) * MGet(Q, j, b) * (MGet(Q, k, b) * MGet(Q, k, a))
  }

  /** Summing the table by rows gives column a of Q against column j of Q diag(v) Q^T. */
  lemma {:induction false} ColumnRows(v: Vector, Q: Matrix, a: int, j: int)
    requires 0 <= a < |Q| && 0 <= j < |Q|
    ensures Sum(|Q|, ColumnAgainst(Q, Recompose(v, Q), a, j)) == Sum(|Q|, RowSums(|Q|, ColumnTable(v, Q, a, j)))
  {
    var n := |Q|;
    var F := ColumnTable(v, Q, a, j);
    forall k | 0 <= k < n
      ensures ColumnAgainst(Q, Recompose(v, Q), a, j)(k) == RowSums(n, F)(k)
    {
      ColumnRow(v, Q, a, j, k);
    }
    SumExt(n, ColumnAgainst(Q, Recompose(v, Q), a, j), RowSums(n, F));
  }

  /** Row k of the table sums to Q[k][a] (Q diag(v) Q^T)[k][j]. */
  lemma {:induction false} ColumnRow(v: Vector, Q: Matrix, a: int, j: int, k: int)
    requires 0 <= a < |Q| && 0 <= j < |Q| && 0 <= k < |Q|
    ensures ColumnAgainst(Q, Recompose(v, Q), a, j)(k) == Sum(|Q|, RowOf(ColumnTable(v, Q, a, j), k))
  {
    var n := |Q|;
    var F := ColumnTable(v, Q, a, j);
    forall b | 0 <= b < n
      ensures RowOf(F, k)(b) == MGet(Q, k, a) * Term(v, Q, k, j)(b)
    {
    }
    SumScale(n, MGet(Q, k, a), Term(v, Q, k, j), RowOf(F, k));
    assert MGet(Recompose(v, Q), k, j) == Sum(n, Term(v, Q, k, j));
  }

  /** Summing the table by columns gives the picked terms. */
  lemma {:induction false} ColumnColumns(v: Vector, Q: Matrix, a: int, j: int)
    requires 0 <= a < |Q| && 0 <= j < |Q|
    ensures Sum(|Q|, ColumnSums(|Q|, ColumnTable(v, Q, a, j))) == Sum(|Q|, PickedTerms(v, Q, a, j))
  {
    var n := |Q|;
    var F := ColumnTable(v, Q, a, j);
    forall b | 0 <= b < n
      ensures ColumnSums(n, F)(b) == PickedTerms(v, Q, a, j)(b)
    {
      SumScale(n, Get(v, b) * MGet(Q, j, b), ColumnProduct(Q, b, a), ColumnOf(F, b));
    }
    SumExt(n, ColumnSums(n, F), PickedTerms(v, Q, a, j));
  }

  /** Column a of Q against column j of Q diag(v) Q^T, with the sum over k moved inside. */
  lemma {:induction false} ColumnAgainstExchange(v: Vector, Q: Matrix, a: int, j: int)
    requires 0 <= a < |Q| && 0 <= j < |Q|
    ensures Sum(|Q|, ColumnAgainst(Q, Recompose(v, Q), a, j)) == Sum(|Q|, PickedTerms(v, Q, a, j))
  {
    ColumnRows(v, Q, a, j);
    SumSwap(|Q|, |Q|, ColumnTable(v, Q, a, j));
    ColumnColumns(v, Q, a, j);
  }

  /** Orthogonal columns leave only b = a. */
  lemma {:induction false} PickedTermsCollapse(v: Vector, Q: Matrix, a: int, j: int)
    requires Orthogonal(Q) && 0 <= a < |Q|
    ensures Sum(|Q|, PickedTerms(v, Q, a, j)) == Get(v, a) * MGet(Q, j, a)
  {
    var n := |Q|;
    forall b | 0 <= b < n && b != a
      ensures PickedTerms(v, Q, a, j)(b) == 0.0
    {
      assert Sum(n, ColumnProduct(Q, b, a)) == 0.0;
    }
    SumDelta(n, a, PickedTerms(v, Q, a, j));
    assert Sum(n, ColumnProduct(Q, a, a)) == 1.0;
  }

  /** Column a of Q against column j of Q diag(v) Q^T picks v[a] Q[j][a]. */
  lemma {:induction false} ColumnAgainstRecompose(v: Vector, Q: Matrix, a: int, j: int)
    requires Orthogonal(Q) && 0 <= a < |Q| && 0 <= j < |Q|
    ensures Sum(|Q|, ColumnAgainst(Q, Recompose(v, Q), a, j)) == Get(v, a) * MGet(Q, j, a)
  {
    ColumnAgainstExchange(v, Q, a, j);
    PickedTermsCollapse(v, Q, a, j);
  }

  /**
   * For orthogonal Q and non-zero eigenvalues, Q diag(1 / es) Q^T is the
   * inverse of Q diag(es) Q^T: their product is the identity.
   */
  lemma {:induction false} SpectralInverseInverts(e: Eigen)
    requires Orthogonal(e.vectors) && |e.values| == |e.vectors|
    requires forall k :: 0 <= k < |e.values| ==> e.values[k] != 0.0
    ensures MatMul(Recompose(e.values, e.vectors), SpectralInverse(e)) == Identity(|e.vectors|)
  {
    var Q := e.vectors;
    var n := |Q|;
    var M := Recompose(e.values, Q);
    var W := SpectralInverse(e);
    forall i, j | 0 <= i < n && 0 <= j < n
      ensures MatMul(M, W)[i][j] == Identity(n)[i][j]
    {
      RecomposeTimes(e.values, Q, W, i, j);
      InverseCollapse(e, i, j);
    }
    assert |MatMul(M, W)| == n;
    forall i | 0 <= i < n
      ensures MatMul(M, W)[i] == Identity(n)[i]
    {
      assert |MatMul(M, W)[i]| == n;
    }
  }

  /** a |-> Q[i][a] v[a] (column a of Q against column j of W). */
  function ProductTerms(v: Vector, Q: Matrix, W: Matrix, i: int, j: int): int -> real
  {
    a => MGet(Q, i, a) * Get(v, a) * Sum(|Q|, ColumnAgainst(Q, W, a, j))
  }

  /** (k, a) |-> Q[i][a] v[a] Q[k][a] W[k][j]: the terms of entry (i, j) of (Q diag(v) Q^T) W. */
  function ProductTable(v: Vector, Q: Matrix, W: Matrix, i: int, j: int): (int, int) -> real
  {
    (k, a) => MGet(Q, i, a) * Get(v, a) * (MGet(Q, k, a) * MGet(W, k, j))
  }

  /** Summing the table by rows gives entry (i, j) of (Q diag(v) Q^T) W. */
  lemma {:induction false} ProductRows(v: Vector, Q: Matrix, W: Matrix, i: int, j: int)
    requires 0 <= i < |Q| && 0 <= j < |Q|
    ensures Sum(|Q|, ProductTerm(Recompose(v, Q), W, i, j)) == Sum(|Q|, RowSums(|Q|, ProductTable(v, Q, W, i, j)))
  {
    var n := |Q|;
    var M := Recompose(v, Q);
    var F := ProductTable(v, Q, W, i, j);
    forall k | 0 <= k < n
      ensures ProductTerm(M, W, i, j)(k) == RowSums(n, F)(k)
    {
      ProductRow(v, Q, W, i, j, k);
    }
    SumExt(n, ProductTerm(M, W, i, j), RowSums(n, F));
  }

  /** Row k of the table sums to (Q diag(v) Q^T)[i][k] W[k][j]. */
  lemma {:induction false} ProductRow(v: Vector, Q: Matrix, W: Matrix, i: int, j: int, k: int)
    requires 0 <= i < |Q| && 0 <= j < |Q| && 0 <= k < |Q|
    ensures ProductTerm(Recompose(v, Q), W, i, j)(k) == Sum(|Q|, RowOf(ProductTable(v, Q, W, i, j), k))
  {
    var n := |Q|;
    var F := ProductTable(v, Q, W, i, j);
    forall a | 0 <= a < n
      ensures RowOf(F, k)(a) == MGet(W, k, j) * Term(v, Q, i, k)(a)
    {
    }
    SumScale(n, MGet(W, k, j), Term(v, Q, i, k), RowOf(F, k));
    assert MGet(Recompose(v, Q), i, k) == Sum(n, Term(v, Q, i, k));
  }

  /** Summing the table by columns gives the weighted column products. */
  lemma {:induction false} ProductColumns(v: Vector, Q: Matrix, W: Matrix, i: int, j: int)
    requires 0 <= i < |Q| && 0 <= j < |Q|
    ensures Sum(|Q|, ColumnSums(|Q|, ProductTable(v, Q, W, i, j))) == Sum(|Q|, ProductTerms(v, Q, W, i, j))
  {
    var n := |Q|;
    var F := ProductTable(v, Q, W, i, j);
    forall a | 0 <= a < n
      ensures ColumnSums(n, F)(a) == ProductTerms(v, Q, W, i, j)(a)
    {
      SumScale(n, MGet(Q, i, a) * Get(v, a), ColumnAgainst(Q, W, a, j), ColumnOf(F, a));
    }
    SumExt(n, ColumnSums(n, F), ProductTerms(v, Q, W, i, j));
  }

  /** Entry (i, j) of (Q diag(v) Q^T) W, with the sum over k moved inside. */
  lemma {:induction false} RecomposeTimes(v: Vector, Q: Matrix, W: Matrix, i: int, j: int)
    requires 0 <= i < |Q| && 0 <= j < |Q|
    ensures MatMul(Recompose(v, Q), W)[i][j] == Sum(|Q|, ProductTerms(v, Q, W, i, j))
  {
    ProductRows(v, Q, W, i, j);
    SumSwap(|Q|, |Q|, ProductTable(v, Q, W, i, j));
    ProductColumns(v, Q, W, i, j);
  }

  /** Each term collapses to Q[i][a] Q[j][a], and their sum to the identity's entry. */
  lemma {:induction false} InverseCollapse(e: Eigen, i: int, j: int)
    requires Orthogonal(e.vectors) && |e.values| == |e.vectors|
    requires forall k :: 0 <= k < |e.values| ==> e.values[k] != 0.0
    requires 0 <= i < |e.vectors| && 0 <= j < |e.vectors|
    ensures Sum(|e.vectors|, ProductTerms(e.values, e.vectors, SpectralInverse(e), i, j)) == Identity(|e.vectors|)[i][j]
  {
    var Q := e.vectors;
    var n := |Q|;
    var r := Reciprocals(e.values);
    var T := ProductTerms(e.values, Q, SpectralInverse(e), i, j);
    forall a | 0 <= a < n
      ensures T(a) == RowProduct(Q, i, j)(a)
    {
      ColumnAgainstRecompose(r, Q, a, j);
      assert Get(r, a) * Get(e.values, a) == 1.0;
    }
    SumExt(n, T, RowProduct(Q, i, j));
  }
  // ---------------------------------------------------------------------
  // A precision matrix on which line 261 is not the inverse

  /** eigh of [[41, -12], [-12, 34]] / 25: eigenvalues 1 and 2, eigenvectors the columns of a rotation. */
  function Example(): Eigen
  {
    Eigen([1.0, 2.0], [[0.6, -0.8], [0.8, 0.6]])
  }

  /** The example's eigenvector matrix is a rotation, hence orthogonal. */
  lemma {:induction false} ExampleOrthogonal()
    ensures Orthogonal(Example().vectors)
  {
    var Q := Example().vectors;
    forall a, b | 0 <= a < 2 && 0 <= b < 2
      ensures Sum(2, ColumnProduct(Q, a, b)) == (if a == b then 1.0 else 0.0)
      ensures Sum(2, RowProduct(Q, a, b)) == (if a == b then 1.0 else 0.0)
    {
      assert Sum(2, ColumnProduct(Q, a, b)) == ColumnProduct(Q, a, b)(0) + ColumnProduct(Q, a, b)(1);
      assert Sum(2, RowProduct(Q, a, b)) == RowProduct(Q, a, b)(0) + RowProduct(Q, a, b)(1);
    }
  }

  /** The example recomposes [[41, -12], [-12, 34]] / 25. */
  lemma {:induction false} ExampleMatrix()
    ensures Recompose(Example().values, Example().vectors) == [[1.64, -0.48], [-0.48, 1.36]]
  {
    var e := Example();
    var K := Recompose(e.values, e.vectors);
    forall i, j | 0 <= i < 2 && 0 <= j < 2
      ensures K[i][j] == [[1.64, -0.48], [-0.48, 1.36]][i][j]
    {
      assert Sum(2, Term(e.values, e.vectors, i, j)) == Term(e.values, e.vectors, i, j)(0) + Term(e.values, e.vectors, i, j)(1);
    }
    MatrixExt(K, [[1.64, -0.48], [-0.48, 1.36]]);
  }

  /** The first column of Q^T diag(1 / es) Q on the example, and the off-diagonal entry of the inverse. */
  lemma {:induction false} ExampleLineColumn()
    ensures MGet(LineInverse(Example()), 0, 0) == 0.68 && MGet(LineInverse(Example()), 1, 0) == -0.24
    ensures MGet(LineInverse(Example()), 0, 1) == -0.24 && MGet(SpectralInverse(Example()), 0, 1) == 0.24
  {
    var e := Example();
    var Q := e.vectors;
    var r := Reciprocals(e.values);
    assert r == [1.0, 0.5];
    var T := Transpose(Q);
    assert MGet(T, 0, 0) == 0.6 && MGet(T, 0, 1) == 0.8 && MGet(T, 1, 0) == -0.8 && MGet(T, 1, 1) == 0.6;
    assert Sum(2, Term(r, T, 0, 1)) == Term(r, T, 0, 1)(0) + Term(r, T, 0, 1)(1);
    assert Sum(2, Term(r, Q, 0, 1)) == Term(r, Q, 0, 1)(0) + Term(r, Q, 0, 1)(1);
    assert Sum(2, Term(r, T, 0, 0)) == Term(r, T, 0, 0)(0) + Term(r, T, 0, 0)(1);
    assert Sum(2, Term(r, T, 1, 0)) == Term(r, T, 1, 0)(0) + Term(r, T, 1, 0)(1);
  }

  /**
   * On the example the eigenvector matrix is orthogonal and recomposes
   * [[41, -12], [-12, 34]] / 25, but Q^T diag(1 / es) Q has off-diagonal
   * -6/25 where the inverse has +6/25, and its product with the matrix is
   * not the identity.
   */
  lemma {:induction false} LineInverseIsNotInverse()
    ensures Orthogonal(Example().vectors)
    ensures Recompose(Example().values, Example().vectors) == [[1.64, -0.48], [-0.48, 1.36]]
    ensures MGet(LineInverse(Example()), 0, 1) == -0.24 && MGet(SpectralInverse(Example()), 0, 1) == 0.24
    ensures MatMul(Recompose(Example().values, Example().vectors), LineInverse(Example())) != Identity(2)
  {
    ExampleOrthogonal();
    ExampleMatrix();
    ExampleLineColumn();
    var K := Recompose(Example().values, Example().vectors);
    var L := LineInverse(Example());
    var P := MatMul(K, L);
    assert Sum(2, ProductTerm(K, L, 0, 0)) == ProductTerm(K, L, 0, 0)(0) + ProductTerm(K, L, 0, 0)(1);
    assert P[0][0] == 1.64 * 0.68 + -0.48 * -0.24;
    assert P[0][0] != Identity(2)[0][0];
  }
}
