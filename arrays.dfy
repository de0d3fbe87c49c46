/**
 * NumPy arrays as the model sees them: a shape and the elements in
 * row-major order. Only the operations the core applies to arrays are
 * defined here: shape tests, 2-D indexing, the trace, the 3x3 identity and
 * the `[:3, :3]` slice.
 */
module Arrays {
  import opened Wrappers

  /** Product of the dimensions: the number of elements an array of this shape holds. */
  function Size(shape: seq<nat>): nat
  {
    if shape == [] then 1 else shape[0] * Size(shape[1..])
  }

  datatype NdArray = NdArray(shape: seq<nat>, data: seq<real>)

  /** Every NumPy array holds exactly as many elements as its shape says. */
  type Array = a: NdArray | |a.data| == Size(a.shape) witness NdArray([], [0.0])

  /** Shape `(3,)`. */
  predicate IsVector3(a: Array)
    ensures IsVector3(a) ==> |a.data| == 3
  {
    assert Size([3]) == 3 * Size([]);
    a.shape == [3]
  }

  /** Shape `(3,)` or `(3, 1)`: the translations `Pose3(Rot3(), t)` converts. */
  predicate IsTranslation(a: Array)
    ensures IsTranslation(a) ==> |a.data| == 3
  {
    assert Size([3]) == 3 * Size([]);
    assert Size([3, 1]) == 3 * Size([1]) == 3 by { assert [3, 1][1..] == [1]; }
    a.shape == [3] || a.shape == [3, 1]
  }

  /** Shape `(3, 3)`. */
  predicate IsMatrix3(a: Array)
    ensures IsMatrix3(a) ==> |a.data| == 9
  {
    assert Size([3, 3]) == 3 * Size([3]) == 9 by { assert [3, 3][1..] == [3]; }
    a.shape == [3, 3]
  }

  /** `a.ndim == 2`. */
  predicate IsRank2(a: Array)
  {
    |a.shape| == 2
  }

  lemma {:induction false} RowMajorInBounds(i: nat, j: nat, rows: nat, cols: nat)
    requires i < rows && j < cols
    ensures i * cols + j < rows * cols
  {
    calc {
      i * cols + j;
    <  i * cols + cols;
    == (i + 1) * cols;
    <= { assert i + 1 <= rows; MulMonotone(i + 1, rows, cols); }
      rows * cols;
    }
  }

  lemma {:induction false} MulMonotone(a: nat, b: nat, c: nat)
    requires a <= b
    ensures a * c <= b * c
  {
    assert b * c == a * c + (b - a) * c;
  }

  /** Element `a[i, j]` of a 2-D array. */
  function At(a: Array, i: nat, j: nat): real
    requires IsRank2(a) && i < a.shape[0] && j < a.shape[1]
  {
    assert Size(a.shape) == a.shape[0] * a.shape[1] by {
      assert Size(a.shape[1..]) == a.shape[1] * Size(a.shape[1..][1..]);
    }
    RowMajorInBounds(i, j, a.shape[0], a.shape[1]);
    a.data[i * a.shape[1] + j]
  }

  function Min(x: nat, y: nat): nat
  {
    if x < y then x else y
  }

  /** Sum of `a[i, i]` for `i` from `from` up to the shorter side. */
  function DiagonalFrom(a: Array, from: nat): real
    requires IsRank2(a)
    decreases Min(a.shape[0], a.shape[1]) - from
  {
    if from >= Min(a.shape[0], a.shape[1]) then 0.0
    else At(a, from, from) + DiagonalFrom(a, from + 1)
  }

  /**
   * `np.trace`: the sum of the main diagonal of a 2-D array. Arrays of
   * another rank, and values that are not arrays at all, give `None`.
   */
  function Trace(a: Array): (t: Option<real>)
    ensures t.Some? <==> IsRank2(a)
  {
    if IsRank2(a) then Some(DiagonalFrom(a, 0)) else None
  }

  /** The trace of a 3x3 array is the sum of its three diagonal elements. */
  lemma {:induction false} TraceOfMatrix3(a: Array)
    requires IsMatrix3(a)
    ensures Trace(a) == Some(At(a, 0, 0) + At(a, 1, 1) + At(a, 2, 2))
  {
    assert Min(a.shape[0], a.shape[1]) == 3;
    assert DiagonalFrom(a, 3) == 0.0;
    assert DiagonalFrom(a, 2) == At(a, 2, 2);
    assert DiagonalFrom(a, 1) == At(a, 1, 1) + At(a, 2, 2);
    assert DiagonalFrom(a, 0) == At(a, 0, 0) + At(a, 1, 1) + At(a, 2, 2);
  }

  /** `np.eye(3)`. */
  function Identity3(): (e: Array)
    ensures IsMatrix3(e)
    ensures forall i, j :: 0 <= i < 3 && 0 <= j < 3 ==> At(e, i, j) == if i == j then 1.0 else 0.0
  {
    assert IsMatrix3(NdArray([3, 3], [1.0, 0.0, 0.0, 0.0, 1.0, 0.0, 0.0, 0.0, 1.0]));
    NdArray([3, 3], [1.0, 0.0, 0.0, 0.0, 1.0, 0.0, 0.0, 0.0, 1.0])
  }

  /**
   * `a[:3, :3]` when that slice is a 3x3 block, that is when `a` is 2-D
   * with at least three rows and three columns; `None` otherwise (the
   * slice then has another shape, or indexing raises).
   */
  function TopLeft3(a: Array): (b: Option<Array>)
    ensures b.Some? <==> IsRank2(a) && a.shape[0] >= 3 && a.shape[1] >= 3
    ensures b.Some? ==> IsMatrix3(b.value)
    ensures b.Some? ==> forall i, j :: 0 <= i < 3 && 0 <= j < 3 ==> At(b.value, i, j) == At(a, i, j)
  {
    if IsRank2(a) && a.shape[0] >= 3 && a.shape[1] >= 3 then
      var block: Array := NdArray([3, 3], [At(a, 0, 0), At(a, 0, 1), At(a, 0, 2),
                                          At(a, 1, 0), At(a, 1, 1), At(a, 1, 2),
                                          At(a, 2, 0), At(a, 2, 1), At(a, 2, 2)]);
      Some(block)
    else None
  }
}
