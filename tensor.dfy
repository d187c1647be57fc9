/**
 * Dense real tensors as nested sequences: a vector, a matrix (a sequence of
 * rows) and a stack of matrices indexed by time point.  Exact reals stand in
 * for floating point.
 *
 * Elementwise operations follow numpy on operands of equal shape.  They are
 * total: the result has the shape of the first operand and a missing entry of
 * the second operand reads as 0.0.  Every operand pair the solvers combine
 * has equal shape, so the convention is never visible; lemmas that need it
 * say `SameShape`.
 *
 * The operations recurse on their first operand; the lemmas `...At` and
 * `...Entry` give their value at one index.
 */
module Tensor {

  type Vector = seq<real>
  type Matrix = seq<seq<real>>
  type Stack = seq<Matrix>

  // ---------------------------------------------------------------------
  // Total accessors

  function Get(v: Vector, j: int): real { if 0 <= j < |v| then v[j] else 0.0 }

  function Row(A: Matrix, i: int): Vector { if 0 <= i < |A| then A[i] else [] }

  function Slice(S: Stack, t: int): Matrix { if 0 <= t < |S| then S[t] else [] }

  function MGet(A: Matrix, i: int, j: int): real { Get(Row(A, i), j) }

  /** Entry (t, i, j) of a stack, 0.0 outside it. */
  function Entry(S: Stack, t: int, i: int, j: int): real { MGet(Slice(S, t), i, j) }

  /** The sequence without its first element (empty stays empty). */
  function Drop<X>(s: seq<X>): seq<X> { if |s| == 0 then [] else s[1..] }

  lemma {:induction false} GetDrop(v: Vector, j: int)
    requires 0 < j
    ensures Get(Drop(v), j - 1) == Get(v, j)
  {
  }

  lemma {:induction false} RowDrop(A: Matrix, i: int)
    requires 0 < i
    ensures Row(Drop(A), i - 1) == Row(A, i)
  {
  }

  lemma {:induction false} SliceDrop(S: Stack, t: int)
    requires 0 < t
    ensures Slice(Drop(S), t - 1) == Slice(S, t)
  {
  }

  // ---------------------------------------------------------------------
  // Shapes

  /** The length of every row. */
  function MShape(A: Matrix): (r: seq<nat>)
    ensures |r| == |A|
  {
    if |A| == 0 then [] else [|A[0]|] + MShape(A[1..])
  }

  /** The row lengths of every slice: two stacks have the same shape when these agree. */
  function Shape(S: Stack): (r: seq<seq<nat>>)
    ensures |r| == |S|
  {
    if |S| == 0 then [] else [MShape(S[0])] + Shape(S[1..])
  }

  predicate MSameShape(A: Matrix, B: Matrix) { MShape(A) == MShape(B) }

  predicate SameShape(S: Stack, T: Stack) { Shape(S) == Shape(T) }

  lemma {:induction false} MShapeAt(A: Matrix, i: int)
    requires 0 <= i < |A|
    ensures MShape(A)[i] == |A[i]|
  {
    if i > 0 {
      MShapeAt(A[1..], i - 1);
    }
  }

  lemma {:induction false} ShapeAt(S: Stack, t: int)
    requires 0 <= t < |S|
    ensures Shape(S)[t] == MShape(S[t])
  {
    if t > 0 {
      ShapeAt(S[1..], t - 1);
    }
  }

  /** What equal shapes say about lengths. */
  lemma {:induction false} MSameShapeLengths(A: Matrix, B: Matrix)
    requires MSameShape(A, B)
    ensures |A| == |B| && forall i :: 0 <= i < |A| ==> |A[i]| == |B[i]|
  {
    forall i | 0 <= i < |A| ensures |A[i]| == |B[i]| {
      MShapeAt(A, i);
      MShapeAt(B, i);
    }
  }

  lemma {:induction false} SameShapeLengths(S: Stack, T: Stack)
    requires SameShape(S, T)
    ensures |S| == |T|
    ensures forall t :: 0 <= t < |S| ==> |S[t]| == |T[t]|
    ensures forall t, i :: 0 <= t < |S| && 0 <= i < |S[t]| ==> |S[t][i]| == |T[t][i]|
  {
    forall t | 0 <= t < |S| ensures |S[t]| == |T[t]| && forall i :: 0 <= i < |S[t]| ==> |S[t][i]| == |T[t][i]| {
      ShapeAt(S, t);
      ShapeAt(T, t);
      MSameShapeLengths(S[t], T[t]);
    }
  }

  /** Stacks whose lengths agree slice by slice and row by row have the same shape. */
  lemma {:induction false} LengthsSameShape(S: Stack, T: Stack)
    requires |S| == |T|
    requires forall t :: 0 <= t < |S| ==> |S[t]| == |T[t]|
    requires forall t, i :: 0 <= t < |S| && 0 <= i < |S[t]| ==> |S[t][i]| == |T[t][i]|
    ensures SameShape(S, T)
  {
    forall t | 0 <= t < |S| ensures Shape(S)[t] == Shape(T)[t] {
      ShapeAt(S, t);
      ShapeAt(T, t);
      forall i | 0 <= i < |S[t]| ensures MShape(S[t])[i] == MShape(T[t])[i] {
        MShapeAt(S[t], i);
        MShapeAt(T[t], i);
      }
    }
  }

  predicate IsSquare(A: Matrix, p: nat)
  {
    |A| == p && forall i :: 0 <= i < p ==> |A[i]| == p
  }

  /** n matrices of size p x p. */
  predicate IsStack(S: Stack, n: nat, p: nat)
  {
    |S| == n && forall t :: 0 <= t < n ==> IsSquare(S[t], p)
  }

  predicate IsSymmetric(A: Matrix)
  {
    IsSquare(A, |A|) && forall i, j :: 0 <= i < |A| && 0 <= j < |A| ==> A[i][j] == A[j][i]
  }

  /** Matrices of equal shape and equal entries are equal. */
  lemma {:induction false} MatrixExt(A: Matrix, B: Matrix)
    requires MSameShape(A, B)
    requires forall i, j :: 0 <= i < |A| && 0 <= j < |A[i]| ==> MGet(A, i, j) == MGet(B, i, j)
    ensures A == B
  {
    MSameShapeLengths(A, B);
    forall i | 0 <= i < |A| ensures A[i] == B[i] {
      forall j | 0 <= j < |A[i]| ensures A[i][j] == B[i][j] {
        assert MGet(A, i, j) == MGet(B, i, j);
      }
    }
  }

  /** (t, i, j) indexes an entry of S. */
  predicate InRange(S: Stack, t: int, i: int, j: int)
  {
    0 <= t < |S| && 0 <= i < |S[t]| && 0 <= j < |S[t][i]|
  }

  lemma {:induction false} SameShapeInRange(S: Stack, T: Stack, t: int, i: int, j: int)
    requires SameShape(S, T) && InRange(S, t, i, j)
    ensures InRange(T, t, i, j)
  {
    SameShapeLengths(S, T);
  }

  /** Stacks of equal shape and equal entries are equal. */
  lemma {:induction false} StackExt(S: Stack, T: Stack)
    requires SameShape(S, T)
    requires forall t, i, j :: InRange(S, t, i, j) ==> Entry(S, t, i, j) == Entry(T, t, i, j)
    ensures S == T
  {
    SameShapeLengths(S, T);
    forall t | 0 <= t < |S| ensures S[t] == T[t] {
      forall i | 0 <= i < |S[t]| ensures S[t][i] == T[t][i] {
        forall j | 0 <= j < |S[t][i]| ensures S[t][i][j] == T[t][i][j] {
          assert InRange(S, t, i, j);
        }
      }
    }
  }

  // ---------------------------------------------------------------------
  // Elementwise arithmetic

  function VAdd(u: Vector, v: Vector): (r: Vector)
    ensures |r| == |u|
  {
    if |u| == 0 then [] else [u[0] + Get(v, 0)] + VAdd(u[1..], Drop(v))
  }

  function VSub(u: Vector, v: Vector): (r: Vector)
    ensures |r| == |u|
  {
    if |u| == 0 then [] else [u[0] - Get(v, 0)] + VSub(u[1..], Drop(v))
  }

  function VScale(c: real, u: Vector): (r: Vector)
    ensures |r| == |u|
  {
    if |u| == 0 then [] else [c * u[0]] + VScale(c, u[1..])
  }

  function VZerosLike(u: Vector): (r: Vector)
    ensures |r| == |u|
  {
    if |u| == 0 then [] else [0.0] + VZerosLike(u[1..])
  }

  function MAdd(A: Matrix, B: Matrix): (r: Matrix)
    ensures |r| == |A|
  {
    if |A| == 0 then [] else [VAdd(A[0], Row(B, 0))] + MAdd(A[1..], Drop(B))
  }

  function MSub(A: Matrix, B: Matrix): (r: Matrix)
    ensures |r| == |A|
  {
    if |A| == 0 then [] else [VSub(A[0], Row(B, 0))] + MSub(A[1..], Drop(B))
  }

  function MScale(c: real, A: Matrix): (r: Matrix)
    ensures |r| == |A|
  {
    if |A| == 0 then [] else [VScale(c, A[0])] + MScale(c, A[1..])
  }

  function MZerosLike(A: Matrix): (r: Matrix)
    ensures |r| == |A|
  {
    if |A| == 0 then [] else [VZerosLike(A[0])] + MZerosLike(A[1..])
  }

  lemma {:induction false} MAddShape(A: Matrix, B: Matrix)
    ensures MShape(MAdd(A, B)) == MShape(A)
  {
    if |A| > 0 {
      MAddShape(A[1..], Drop(B));
    }
  }

  lemma {:induction false} MSubShape(A: Matrix, B: Matrix)
    ensures MShape(MSub(A, B)) == MShape(A)
  {
    if |A| > 0 {
      MSubShape(A[1..], Drop(B));
    }
  }

  lemma {:induction false} MScaleShape(c: real, A: Matrix)
    ensures MShape(MScale(c, A)) == MShape(A)
  {
    if |A| > 0 {
      MScaleShape(c, A[1..]);
    }
  }

  lemma {:induction false} MZerosShape(A: Matrix)
    ensures MShape(MZerosLike(A)) == MShape(A)
  {
    if |A| > 0 {
      MZerosShape(A[1..]);
    }
  }

  function Add(S: Stack, T: Stack): (r: Stack)
    ensures |r| == |S|
  {
    if |S| == 0 then [] else [MAdd(S[0], Slice(T, 0))] + Add(S[1..], Drop(T))
  }

  function Sub(S: Stack, T: Stack): (r: Stack)
    ensures |r| == |S|
  {
    if |S| == 0 then [] else [MSub(S[0], Slice(T, 0))] + Sub(S[1..], Drop(T))
  }

  function Scale(c: real, S: Stack): (r: Stack)
    ensures |r| == |S|
  {
    if |S| == 0 then [] else [MScale(c, S[0])] + Scale(c, S[1..])
  }

  /** Slice t multiplied by c[t] (numpy `A *= c[:, None, None]`). */
  function ScaleSlices(c: seq<real>, S: Stack): (r: Stack)
    ensures |r| == |S|
  {
    if |S| == 0 then [] else [MScale(Get(c, 0), S[0])] + ScaleSlices(Drop(c), S[1..])
  }

  function Min(a: int, b: int): int { if a <= b then a else b }

  /** A[offset : offset + |D|] += D, slice by slice. */
  function AddAt(A: Stack, offset: nat, D: Stack): (r: Stack)
    ensures |r| == |A|
  {
    var lo := Min(offset, |A|);
    var hi := Min(offset + |D|, |A|);
    A[..lo] + Add(A[lo..hi], D) + A[hi..]
  }

  lemma {:induction false} AddShape(S: Stack, T: Stack)
    ensures Shape(Add(S, T)) == Shape(S)
  {
    if |S| > 0 {
      MAddShape(S[0], Slice(T, 0));
      AddShape(S[1..], Drop(T));
    }
  }

  lemma {:induction false} SubShape(S: Stack, T: Stack)
    ensures Shape(Sub(S, T)) == Shape(S)
  {
    if |S| > 0 {
      MSubShape(S[0], Slice(T, 0));
      SubShape(S[1..], Drop(T));
    }
  }

  lemma {:induction false} ScaleShape(c: real, S: Stack)
    ensures Shape(Scale(c, S)) == Shape(S)
  {
    if |S| > 0 {
      MScaleShape(c, S[0]);
      ScaleShape(c, S[1..]);
    }
  }

  lemma {:induction false} ScaleSlicesShape(c: seq<real>, S: Stack)
    ensures Shape(ScaleSlices(c, S)) == Shape(S)
  {
    if |S| > 0 {
      MScaleShape(Get(c, 0), S[0]);
      ScaleSlicesShape(Drop(c), S[1..]);
    }
  }

  lemma {:induction false} ZerosLikeShape(S: Stack)
    ensures Shape(ZerosLike(S)) == Shape(S)
  {
    if |S| > 0 {
      MZerosShape(S[0]);
      ZerosLikeShape(S[1..]);
    }
  }

  lemma {:induction false} AddAtShape(A: Stack, offset: nat, D: Stack)
    ensures Shape(AddAt(A, offset, D)) == Shape(A)
  {
    var lo := Min(offset, |A|);
    var hi := Min(offset + |D|, |A|);
    ShapeSplit(A, lo, hi);
    AddShape(A[lo..hi], D);
    ShapeConcat(A[..lo] + Add(A[lo..hi], D), A[hi..]);
    ShapeConcat(A[..lo], Add(A[lo..hi], D));
  }

  lemma {:induction false} ShapeConcat(S: Stack, T: Stack)
    ensures Shape(S + T) == Shape(S) + Shape(T)
  {
    if |S| > 0 {
      assert (S + T)[1..] == S[1..] + T;
      ShapeConcat(S[1..], T);
      assert Shape(S + T) == [MShape(S[0])] + Shape(S[1..] + T);
    } else {
      assert S + T == T;
    }
  }

  /** The shape of a stack cut into three pieces. */
  lemma {:induction false} ShapeSplit(S: Stack, lo: nat, hi: nat)
    requires lo <= hi <= |S|
    ensures Shape(S) == Shape(S[..lo]) + Shape(S[lo..hi]) + Shape(S[hi..])
  {
    assert S == S[..lo] + S[lo..hi] + S[hi..];
    ShapeConcat(S[..lo] + S[lo..hi], S[hi..]);
    ShapeConcat(S[..lo], S[lo..hi]);
  }

  /** numpy zeros_like. */
  function ZerosLike(S: Stack): (r: Stack)
    ensures |r| == |S|
  {
    if |S| == 0 then [] else [MZerosLike(S[0])] + ZerosLike(S[1..])
  }

  // Values at one index

  lemma {:induction false} VAddAt(u: Vector, v: Vector, j: int)
    requires 0 <= j < |u|
    ensures VAdd(u, v)[j] == u[j] + Get(v, j)
  {
    if j > 0 {
      VAddAt(u[1..], Drop(v), j - 1);
      GetDrop(v, j);
    }
  }

  lemma {:induction false} VSubAt(u: Vector, v: Vector, j: int)
    requires 0 <= j < |u|
    ensures VSub(u, v)[j] == u[j] - Get(v, j)
  {
    if j > 0 {
      VSubAt(u[1..], Drop(v), j - 1);
      GetDrop(v, j);
    }
  }

  lemma {:induction false} VScaleAt(c: real, u: Vector, j: int)
    requires 0 <= j < |u|
    ensures VScale(c, u)[j] == c * u[j]
  {
    if j > 0 {
      VScaleAt(c, u[1..], j - 1);
    }
  }

  lemma {:induction false} VZerosAt(u: Vector, j: int)
    requires 0 <= j < |u|
    ensures VZerosLike(u)[j] == 0.0
  {
    if j > 0 {
      VZerosAt(u[1..], j - 1);
    }
  }

  lemma {:induction false} MAddAt(A: Matrix, B: Matrix, i: int)
    requires 0 <= i < |A|
    ensures MAdd(A, B)[i] == VAdd(A[i], Row(B, i))
  {
    if i > 0 {
      MAddAt(A[1..], Drop(B), i - 1);
      RowDrop(B, i);
    }
  }

  lemma {:induction false} MSubAt(A: Matrix, B: Matrix, i: int)
    requires 0 <= i < |A|
    ensures MSub(A, B)[i] == VSub(A[i], Row(B, i))
  {
    if i > 0 {
      MSubAt(A[1..], Drop(B), i - 1);
      RowDrop(B, i);
    }
  }

  lemma {:induction false} MScaleAt(c: real, A: Matrix, i: int)
    requires 0 <= i < |A|
    ensures MScale(c, A)[i] == VScale(c, A[i])
  {
    if i > 0 {
      MScaleAt(c, A[1..], i - 1);
    }
  }

  lemma {:induction false} MZerosAt(A: Matrix, i: int)
    requires 0 <= i < |A|
    ensures MZerosLike(A)[i] == VZerosLike(A[i])
  {
    if i > 0 {
      MZerosAt(A[1..], i - 1);
    }
  }

  lemma {:induction false} AddSlice(S: Stack, T: Stack, t: int)
    requires 0 <= t < |S|
    ensures Add(S, T)[t] == MAdd(S[t], Slice(T, t))
  {
    if t > 0 {
      AddSlice(S[1..], Drop(T), t - 1);
      SliceDrop(T, t);
    }
  }

  lemma {:induction false} SubSlice(S: Stack, T: Stack, t: int)
    requires 0 <= t < |S|
    ensures Sub(S, T)[t] == MSub(S[t], Slice(T, t))
  {
    if t > 0 {
      SubSlice(S[1..], Drop(T), t - 1);
      SliceDrop(T, t);
    }
  }

  lemma {:induction false} ScaleSlice(c: real, S: Stack, t: int)
    requires 0 <= t < |S|
    ensures Scale(c, S)[t] == MScale(c, S[t])
  {
    if t > 0 {
      ScaleSlice(c, S[1..], t - 1);
    }
  }

  lemma {:induction false} ScaleSlicesSlice(c: seq<real>, S: Stack, t: int)
    requires 0 <= t < |S|
    ensures ScaleSlices(c, S)[t] == MScale(Get(c, t), S[t])
  {
    if t > 0 {
      ScaleSlicesSlice(Drop(c), S[1..], t - 1);
      GetDrop(c, t);
    }
  }

  lemma {:induction false} ZerosLikeSlice(S: Stack, t: int)
    requires 0 <= t < |S|
    ensures ZerosLike(S)[t] == MZerosLike(S[t])
  {
    if t > 0 {
      ZerosLikeSlice(S[1..], t - 1);
    }
  }

  lemma {:induction false} ConcatAt3<X>(x: seq<X>, y: seq<X>, z: seq<X>, t: int)
    requires 0 <= t < |x| + |y| + |z|
    ensures (x + y + z)[t] == if t < |x| then x[t] else if t < |x| + |y| then y[t - |x|] else z[t - |x| - |y|]
  {
  }

  lemma {:induction false} AddAtInside(A: Stack, offset: nat, D: Stack, t: int)
    requires offset <= t < offset + |D| && t < |A|
    ensures AddAt(A, offset, D)[t] == MAdd(A[t], D[t - offset])
  {
    var hi := Min(offset + |D|, |A|);
    var mid := A[offset..hi];
    ConcatAt3(A[..offset], Add(mid, D), A[hi..], t);
    assert mid[t - offset] == A[t] && Slice(D, t - offset) == D[t - offset];
    AddSlice(mid, D, t - offset);
  }

  lemma {:induction false} AddAtOutside(A: Stack, offset: nat, D: Stack, t: int)
    requires 0 <= t < |A| && !(offset <= t < offset + |D|)
    ensures AddAt(A, offset, D)[t] == A[t]
  {
    var lo := Min(offset, |A|);
    var hi := Min(offset + |D|, |A|);
    ConcatAt3(A[..lo], Add(A[lo..hi], D), A[hi..], t);
  }

  lemma {:induction false} AddAtSlice(A: Stack, offset: nat, D: Stack, t: int)
    requires 0 <= t < |A|
    ensures AddAt(A, offset, D)[t] == if offset <= t < offset + |D| then MAdd(A[t], D[t - offset]) else A[t]
  {
    if offset <= t < offset + |D| {
      AddAtInside(A, offset, D, t);
    } else {
      AddAtOutside(A, offset, D, t);
    }
  }

  lemma {:induction false} MAddEntry(A: Matrix, B: Matrix, i: int, j: int)
    requires 0 <= i < |A| && 0 <= j < |A[i]|
    ensures MGet(MAdd(A, B), i, j) == A[i][j] + MGet(B, i, j)
  {
    MAddAt(A, B, i);
    VAddAt(A[i], Row(B, i), j);
  }

  lemma {:induction false} MSubEntry(A: Matrix, B: Matrix, i: int, j: int)
    requires 0 <= i < |A| && 0 <= j < |A[i]|
    ensures MGet(MSub(A, B), i, j) == A[i][j] - MGet(B, i, j)
  {
    MSubAt(A, B, i);
    VSubAt(A[i], Row(B, i), j);
  }

  lemma {:induction false} MScaleEntry(c: real, A: Matrix, i: int, j: int)
    requires 0 <= i < |A| && 0 <= j < |A[i]|
    ensures MGet(MScale(c, A), i, j) == c * A[i][j]
  {
    MScaleAt(c, A, i);
    VScaleAt(c, A[i], j);
  }

  lemma {:induction false} MZerosEntry(A: Matrix, i: int, j: int)
    ensures MGet(MZerosLike(A), i, j) == 0.0
  {
    if 0 <= i < |A| {
      MZerosAt(A, i);
      MShapeAt(A, i);
      MShapeAt(MZerosLike(A), i);
      if 0 <= j < |A[i]| {
        VZerosAt(A[i], j);
      }
    }
  }

  lemma {:induction false} AddEntry(S: Stack, T: Stack, t: int, i: int, j: int)
    requires InRange(S, t, i, j)
    ensures InRange(Add(S, T), t, i, j)
    ensures Entry(Add(S, T), t, i, j) == Entry(S, t, i, j) + Entry(T, t, i, j)
  {
    AddSlice(S, T, t);
    MAddAt(S[t], Slice(T, t), i);
    MAddEntry(S[t], Slice(T, t), i, j);
  }

  lemma {:induction false} SubEntry(S: Stack, T: Stack, t: int, i: int, j: int)
    requires InRange(S, t, i, j)
    ensures InRange(Sub(S, T), t, i, j)
    ensures Entry(Sub(S, T), t, i, j) == Entry(S, t, i, j) - Entry(T, t, i, j)
  {
    SubSlice(S, T, t);
    MSubAt(S[t], Slice(T, t), i);
    MSubEntry(S[t], Slice(T, t), i, j);
  }

  lemma {:induction false} ScaleEntry(c: real, S: Stack, t: int, i: int, j: int)
    requires InRange(S, t, i, j)
    ensures InRange(Scale(c, S), t, i, j)
    ensures Entry(Scale(c, S), t, i, j) == c * Entry(S, t, i, j)
  {
    ScaleSlice(c, S, t);
    MScaleAt(c, S[t], i);
    MScaleEntry(c, S[t], i, j);
  }

  lemma {:induction false} ZerosLikeEntry(S: Stack, t: int, i: int, j: int)
    ensures Entry(ZerosLike(S), t, i, j) == 0.0
  {
    if 0 <= t < |S| {
      ZerosLikeSlice(S, t);
      MZerosEntry(S[t], i, j);
    }
  }

  /** Scaling twice is scaling by the product. */
  lemma {:induction false} VScaleScale(a: real, b: real, u: Vector)
    ensures VScale(a, VScale(b, u)) == VScale(a * b, u)
  {
    if |u| > 0 {
      VScaleScale(a, b, u[1..]);
      var v := VScale(b, u);
      assert v[1..] == VScale(b, u[1..]);
      assert v[0] == b * u[0];
      var w := VScale(a, v);
      assert w[0] == a * (b * u[0]);
      assert w[1..] == VScale(a * b, u[1..]);
      assert a * (b * u[0]) == (a * b) * u[0];
      assert VScale(a * b, u)[0] == (a * b) * u[0];
      assert VScale(a * b, u)[1..] == VScale(a * b, u[1..]);
    }
  }

  lemma {:induction false} MScaleScale(a: real, b: real, A: Matrix)
    ensures MScale(a, MScale(b, A)) == MScale(a * b, A)
  {
    if |A| > 0 {
      VScaleScale(a, b, A[0]);
      MScaleScale(a, b, A[1..]);
    }
  }

  lemma {:induction false} ScaleScale(a: real, b: real, S: Stack)
    ensures Scale(a, Scale(b, S)) == Scale(a * b, S)
  {
    if |S| > 0 {
      MScaleScale(a, b, S[0]);
      ScaleScale(a, b, S[1..]);
    }
  }

  predicate IsZero(S: Stack)
  {
    forall t, i, j :: 0 <= t < |S| && 0 <= i < |S[t]| && 0 <= j < |S[t][i]| ==> S[t][i][j] == 0.0
  }

  /** n zero matrices of size p x p. */
  function Zeros(n: nat, p: nat): Stack
  {
    seq(n, _ => seq(p, _ => seq(p, _ => 0.0)))
  }

  lemma {:induction false} ZerosStack(n: nat, p: nat)
    ensures IsStack(Zeros(n, p), n, p) && IsZero(Zeros(n, p))
  {
  }

  /** numpy eye(p). */
  function Identity(p: nat): Matrix
  {
    seq(p, i requires 0 <= i < p => seq(p, j requires 0 <= j < p => if i == j then 1.0 else 0.0))
  }

  /** The identity is p x p with ones exactly on the diagonal. */
  lemma {:induction false} IdentityEntries(p: nat)
    ensures IsSquare(Identity(p), p)
    ensures forall i, j :: 0 <= i < p && 0 <= j < p ==> Identity(p)[i][j] == (if i == j then 1.0 else 0.0)
  {
  }

  function Ones(n: nat): (r: seq<real>)
    ensures |r| == n
  {
    seq(n, _ => 1.0)
  }

  lemma {:induction false} SquareShape(A: Matrix, p: nat)
    requires IsSquare(A, p)
    ensures MShape(A) == seq(p, _ => p)
  {
    forall i | 0 <= i < p ensures MShape(A)[i] == p {
      MShapeAt(A, i);
    }
  }

  // ---------------------------------------------------------------------
  // Symmetrisation (A + A^T) / 2

  /** (A + A^T) / 2 over the row count of A. */
  function MSym(A: Matrix): (r: Matrix)
    ensures |r| == |A|
  {
    seq(|A|, i requires 0 <= i < |A| => seq(|A|, j requires 0 <= j < |A| => (MGet(A, i, j) + MGet(A, j, i)) / 2.0))
  }

  /** The symmetrised matrix is symmetric and, on a square matrix, averages each entry with its mirror. */
  lemma {:induction false} MSymSymmetric(A: Matrix)
    ensures IsSymmetric(MSym(A))
    ensures IsSquare(A, |A|) ==>
      forall i, j :: 0 <= i < |A| && 0 <= j < |A| ==> MSym(A)[i][j] == (A[i][j] + A[j][i]) / 2.0
  {
  }

  /** Slice-wise (A + A^T) / 2 (numpy `A += A.transpose(0, 2, 1); A /= 2`). */
  function Sym(S: Stack): (r: Stack)
    ensures |r| == |S|
  {
    seq(|S|, t requires 0 <= t < |S| => MSym(S[t]))
  }

  /** Every slice of the symmetrised stack is symmetric. */
  lemma {:induction false} SymSymmetric(S: Stack)
    ensures forall t :: 0 <= t < |S| ==> Sym(S)[t] == MSym(S[t]) && IsSymmetric(Sym(S)[t])
  {
    forall t | 0 <= t < |S| ensures IsSymmetric(Sym(S)[t]) {
      MSymSymmetric(S[t]);
    }
  }

  // ---------------------------------------------------------------------
  // Scalar product (x * y).sum() and its square norm

  function VDot(u: Vector, v: Vector): real
    decreases |u|
  {
    if |u| == 0 then 0.0 else u[0] * Get(v, 0) + VDot(u[1..], Drop(v))
  }

  function MDot(A: Matrix, B: Matrix): real
    decreases |A|
  {
    if |A| == 0 then 0.0 else VDot(A[0], Row(B, 0)) + MDot(A[1..], Drop(B))
  }

  /** The Frobenius scalar product of two stacks: the sum of all entrywise products. */
  function Dot(S: Stack, T: Stack): real
    decreases |S|
  {
    if |S| == 0 then 0.0 else MDot(S[0], Slice(T, 0)) + Dot(S[1..], Drop(T))
  }

  /** Squared Frobenius norm (sklearn squared_norm). */
  function SqNorm(S: Stack): real { Dot(S, S) }

  lemma {:induction false} VDotSelfNonneg(u: Vector)
    ensures VDot(u, u) >= 0.0
  {
    if |u| > 0 {
      VDotSelfNonneg(u[1..]);
    }
  }

  lemma {:induction false} MDotSelfNonneg(A: Matrix)
    ensures MDot(A, A) >= 0.0
  {
    if |A| > 0 {
      VDotSelfNonneg(A[0]);
      MDotSelfNonneg(A[1..]);
    }
  }

  /** A square norm is never negative. */
  lemma {:induction false} DotSelfNonneg(S: Stack)
    ensures SqNorm(S) >= 0.0
  {
    if |S| > 0 {
      MDotSelfNonneg(S[0]);
      DotSelfNonneg(S[1..]);
    }
  }

  lemma {:induction false} VDotSymmetric(u: Vector, v: Vector)
    requires |u| == |v|
    ensures VDot(u, v) == VDot(v, u)
  {
    if |u| > 0 {
      VDotSymmetric(u[1..], v[1..]);
    }
  }

  lemma {:induction false} MDotSymmetricRows(A: Matrix, B: Matrix)
    requires |A| == |B| && forall i :: 0 <= i < |A| ==> |A[i]| == |B[i]|
    ensures MDot(A, B) == MDot(B, A)
  {
    if |A| > 0 {
      VDotSymmetric(A[0], B[0]);
      MDotSymmetricRows(A[1..], B[1..]);
    }
  }

  lemma {:induction false} DotSymmetricSlices(S: Stack, T: Stack)
    requires |S| == |T|
    requires forall t :: 0 <= t < |S| ==> |S[t]| == |T[t]|
    requires forall t, i :: 0 <= t < |S| && 0 <= i < |S[t]| ==> |S[t][i]| == |T[t][i]|
    ensures Dot(S, T) == Dot(T, S)
  {
    if |S| > 0 {
      MDotSymmetricRows(S[0], T[0]);
      DotSymmetricSlices(S[1..], T[1..]);
    }
  }

  /** The scalar product is symmetric on stacks of equal shape. */
  lemma {:induction false} DotSymmetric(S: Stack, T: Stack)
    requires SameShape(S, T)
    ensures Dot(S, T) == Dot(T, S)
  {
    SameShapeLengths(S, T);
    DotSymmetricSlices(S, T);
  }

  /** Number of entries (numpy `.size`). */
  function Size(S: Stack): nat
  {
    if |S| == 0 then 0 else MSize(S[0]) + Size(S[1..])
  }

  function MSize(A: Matrix): nat
  {
    if |A| == 0 then 0 else |A[0]| + MSize(A[1..])
  }

  // ---------------------------------------------------------------------
  // Time slicing: K[:-m] and K[m:]

  /** K[:-m] for a lag m >= 1: the first |K| - m slices (none when m exceeds |K|). */
  function Head(S: Stack, m: nat): (r: Stack)
    ensures |r| == if m <= |S| then |S| - m else 0
  {
    if m <= |S| then S[..|S| - m] else []
  }

  /** K[m:]: the slices from m on (none when m exceeds |K|). */
  function Tail(S: Stack, m: nat): (r: Stack)
    ensures |r| == if m <= |S| then |S| - m else 0
  {
    if m <= |S| then S[m..] else []
  }

  // ---------------------------------------------------------------------
  // Scalars

  function Max(a: real, b: real): real { if a >= b then a else b }

  function Abs(a: real): real { if a >= 0.0 then a else -a }

  function Pow(b: real, k: nat): (r: real)
    ensures b > 0.0 ==> r > 0.0
  {
    if k == 0 then 1.0 else b * Pow(b, k - 1)
  }

  lemma {:induction false} PowAtMostOne(b: real, k: nat)
    requires 0.0 < b <= 1.0
    ensures Pow(b, k) <= 1.0
  {
    if k > 0 {
      PowAtMostOne(b, k - 1);
      assert b * Pow(b, k - 1) <= Pow(b, k - 1);
    }
  }
}
