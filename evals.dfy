/**
 * The evaluation metrics: the average trajectory error (ATE), the average
 * rotation error (ARE) and the difference of the determinants of two
 * covariances (UD), over real numbers. `sqrt`, `arccos` and `pi` are
 * parameters that carry only the properties stated for them below.
 */
module Evals {
  import opened Wrappers
  import opened Arrays

  datatype MetricError =
    | ShapeMismatch    // the two arrays' shapes differ
    | AxisOutOfRange   // `norm(..., axis=1)` of an array with fewer than two axes
    | NotReshapable    // `reshape(-1, 3)` of a size that is not a multiple of 3
    | NotANumber       // the mean of no elements, which NumPy returns as nan
    | NotMatrix3       // a covariance that is not 3x3

  /**
   * What is assumed of `np.sqrt`: on non-negative numbers it is the
   * non-negative square root, and the root of 0 is 0.
   */
  ghost predicate IsSqrt(sqrt: real -> real)
  {
    && sqrt(0.0) == 0.0
    && forall x :: x >= 0.0 ==> sqrt(x) >= 0.0 && sqrt(x) * sqrt(x) == x
  }

  /**
   * What is assumed of `np.arccos` and `np.pi`: `pi` is positive, `arccos`
   * maps [-1, 1] into [0, pi], and `arccos(1) == 0`.
   */
  ghost predicate IsArccos(arccos: real -> real, pi: real)
  {
    && pi > 0.0
    && arccos(1.0) == 0.0
    && forall x :: -1.0 <= x <= 1.0 ==> 0.0 <= arccos(x) <= pi
  }

  // ---------------------------------------------------------------- ATE

  /** The sum of the squared element-wise differences of two arrays' elements. */
  function SumSquares(a: seq<real>, b: seq<real>): (s: real)
    requires |a| == |b|
    ensures s >= 0.0
  {
    if a == [] then 0.0
    else (a[0] - b[0]) * (a[0] - b[0]) + SumSquares(a[1..], b[1..])
  }

  /** A sequence has no squared difference from itself. */
  lemma {:induction false} SumSquaresSelf(a: seq<real>)
    ensures SumSquares(a, a) == 0.0
  {
    if a != [] {
      SumSquaresSelf(a[1..]);
      assert (a[0] - a[0]) * (a[0] - a[0]) == 0.0;
    }
  }

  /** Swapping the two sequences does not change the sum of squared differences. */
  lemma {:induction false} SumSquaresSymmetric(a: seq<real>, b: seq<real>)
    requires |a| == |b|
    ensures SumSquares(a, b) == SumSquares(b, a)
  {
    if a != [] {
      SumSquaresSymmetric(a[1..], b[1..]);
      assert (a[0] - b[0]) * (a[0] - b[0]) == (b[0] - a[0]) * (b[0] - a[0]);
    }
  }

  /**
   * The number of entries of `norm(d, axis=1)`: every axis of `d` but the
   * second.
   */
  function ErrorCount(shape: seq<nat>): nat
    requires |shape| >= 2
  {
    Size([shape[0]] + shape[2..])
  }

  /**
   * `compute_ate`: the root of the mean of the squared per-row distances.
   * Squaring the norms undoes their square roots, so the mean is the sum of
   * all squared differences over the number of rows.
   */
  function Ate(est: Array, gt: Array, sqrt: real -> real): (r: Result<real, MetricError>)
    requires IsSqrt(sqrt)
    ensures r == Failure(ShapeMismatch) <==> est.shape != gt.shape
    ensures r == Failure(AxisOutOfRange) <==> est.shape == gt.shape && |est.shape| < 2
    ensures r == Failure(NotANumber) <==>
              est.shape == gt.shape && |est.shape| >= 2 && ErrorCount(est.shape) == 0
    ensures r.Success? ==> r.value >= 0.0
    ensures r.Success? ==>
              r.value * r.value * ErrorCount(est.shape) as real == SumSquares(est.data, gt.data)
  {
    if est.shape != gt.shape then Failure(ShapeMismatch)
    else if |est.shape| < 2 then Failure(AxisOutOfRange)
    else if ErrorCount(est.shape) == 0 then Failure(NotANumber)
    else
      var n := ErrorCount(est.shape) as real;
      var mse := SumSquares(est.data, gt.data) / n;
      assert mse >= 0.0;
      assert sqrt(mse) * sqrt(mse) * n == mse * n == SumSquares(est.data, gt.data);
      Success(sqrt(mse))
  }

  /** The ATE of a trajectory against itself is 0. */
  lemma {:induction false} AteSelf(x: Array, sqrt: real -> real)
    requires IsSqrt(sqrt)
    requires |x.shape| >= 2 && ErrorCount(x.shape) > 0
    ensures Ate(x, x, sqrt) == Success(0.0)
  {
    SumSquaresSelf(x.data);
    var n := ErrorCount(x.shape) as real;
    assert SumSquares(x.data, x.data) / n == 0.0;
  }

  /** The ATE does not depend on which trajectory is the estimate. */
  lemma {:induction false} AteSymmetric(a: Array, b: Array, sqrt: real -> real)
    requires IsSqrt(sqrt)
    ensures Ate(a, b, sqrt) == Ate(b, a, sqrt)
  {
    if a.shape == b.shape {
      SumSquaresSymmetric(a.data, b.data);
    }
  }

  // ---------------------------------------------------------------- ARE

  /** `np.clip(x, -1.0, 1.0)`. */
  function Clip(x: real): (c: real)
    ensures -1.0 <= c <= 1.0
    ensures -1.0 <= x <= 1.0 ==> c == x
    ensures x < -1.0 ==> c == -1.0
    ensures x > 1.0 ==> c == 1.0
  {
    if x < -1.0 then -1.0 else if x > 1.0 then 1.0 else x
  }

  /** Row `i` of `a.reshape(-1, 3)` dotted with row `i` of `b.reshape(-1, 3)` (`einsum('ij,ij->i')`). */
  function RowDot(a: seq<real>, b: seq<real>, i: nat): real
    requires |a| == |b| && 3 * i + 3 <= |a|
  {
    a[3 * i] * b[3 * i] + a[3 * i + 1] * b[3 * i + 1] + a[3 * i + 2] * b[3 * i + 2]
  }

  /** One angular error in degrees: `arccos(clip(dot)) * (180 / pi)`. */
  function RowAngle(dot: real, arccos: real -> real, pi: real): (deg: real)
    requires IsArccos(arccos, pi)
    ensures 0.0 <= deg <= 180.0
  {
    var a := arccos(Clip(dot));
    assert 0.0 <= a <= pi;
    assert a * (180.0 / pi) <= pi * (180.0 / pi) == 180.0;
    a * (180.0 / pi)
  }

  /** The angular errors of all rows of the two `(-1, 3)` reshapes. */
  function Angles(a: seq<real>, b: seq<real>, arccos: real -> real, pi: real): (angles: seq<real>)
    requires |a| == |b| && |a| % 3 == 0
    requires IsArccos(arccos, pi)
    ensures |angles| == |a| / 3
    ensures forall i :: 0 <= i < |angles| ==> 0.0 <= angles[i] <= 180.0
  {
    seq(|a| / 3, i requires 0 <= i < |a| / 3 => RowAngle(RowDot(a, b, i), arccos, pi))
  }

  function Sum(xs: seq<real>): real
  {
    if xs == [] then 0.0 else xs[0] + Sum(xs[1..])
  }

  /** `np.mean` of a non-empty sequence. */
  function Mean(xs: seq<real>): real
    requires xs != []
  {
    Sum(xs) / |xs| as real
  }

  /** A sum of numbers in [lo, hi] lies between `n * lo` and `n * hi`. */
  lemma {:induction false} SumBounds(xs: seq<real>, lo: real, hi: real)
    requires forall i :: 0 <= i < |xs| ==> lo <= xs[i] <= hi
    ensures |xs| as real * lo <= Sum(xs) <= |xs| as real * hi
  {
    if xs != [] {
      SumBounds(xs[1..], lo, hi);
      assert |xs| as real * lo == lo + |xs[1..]| as real * lo;
      assert |xs| as real * hi == hi + |xs[1..]| as real * hi;
    }
  }

  /** A mean of numbers in [lo, hi] lies in [lo, hi]. */
  lemma {:induction false} MeanBounds(xs: seq<real>, lo: real, hi: real)
    requires xs != []
    requires forall i :: 0 <= i < |xs| ==> lo <= xs[i] <= hi
    ensures lo <= Mean(xs) <= hi
  {
    SumBounds(xs, lo, hi);
    var n := |xs| as real;
    assert lo == n * lo / n && hi == n * hi / n;
  }

  /**
   * `compute_are`: the mean angular error, in degrees, between the rows of
   * the two `(-1, 3)` reshapes. Every dot product is clipped to [-1, 1]
   * first, so the result lies in [0, 180].
   */
  function Are(est: Array, gt: Array, arccos: real -> real, pi: real): (r: Result<real, MetricError>)
    requires IsArccos(arccos, pi)
    ensures r == Failure(ShapeMismatch) <==> est.shape != gt.shape
    ensures r == Failure(NotReshapable) <==> est.shape == gt.shape && |est.data| % 3 != 0
    ensures r == Failure(NotANumber) <==> est.shape == gt.shape && |est.data| == 0
    ensures r.Success? ==> 0.0 <= r.value <= 180.0
  {
    if est.shape != gt.shape then Failure(ShapeMismatch)
    else if |est.data| % 3 != 0 then Failure(NotReshapable)
    else if |est.data| == 0 then Failure(NotANumber)
    else
      var angles := Angles(est.data, gt.data, arccos, pi);
      MeanBounds(angles, 0.0, 180.0);
      Success(Mean(angles))
  }

  /** A sum of zeros is zero. */
  lemma {:induction false} SumZeros(xs: seq<real>)
    requires forall i :: 0 <= i < |xs| ==> xs[i] == 0.0
    ensures Sum(xs) == 0.0
  {
    if xs != [] {
      SumZeros(xs[1..]);
    }
  }

  /**
   * Rows of at least unit squared length have no angular error against
   * themselves: the clip brings every such dot product to exactly 1.
   */
  lemma {:induction false} AreSelf(x: Array, arccos: real -> real, pi: real)
    requires IsArccos(arccos, pi)
    requires |x.data| % 3 == 0 && |x.data| > 0
    requires forall i :: 0 <= i < |x.data| / 3 ==> RowDot(x.data, x.data, i) >= 1.0
    ensures Are(x, x, arccos, pi) == Success(0.0)
  {
    var angles := Angles(x.data, x.data, arccos, pi);
    forall i | 0 <= i < |angles| ensures angles[i] == 0.0 {
      var d := RowDot(x.data, x.data, i);
      assert d >= 1.0;
      assert Clip(d) == 1.0;
      assert angles[i] == RowAngle(d, arccos, pi);
    }
    SumZeros(angles);
  }

  // ---------------------------------------------------------------- UD

  /** The determinant of a 3x3 array, by cofactor expansion along the first row. */
  function Det3(m: Array): real
    requires IsMatrix3(m)
  {
    At(m, 0, 0) * (At(m, 1, 1) * At(m, 2, 2) - At(m, 1, 2) * At(m, 2, 1))
    - At(m, 0, 1) * (At(m, 1, 0) * At(m, 2, 2) - At(m, 1, 2) * At(m, 2, 0))
    + At(m, 0, 2) * (At(m, 1, 0) * At(m, 2, 1) - At(m, 1, 1) * At(m, 2, 0))
  }

  /** The cofactor expansion along the first column, an independent definition of the determinant. */
  function Det3ByColumn(m: Array): real
    requires IsMatrix3(m)
  {
    At(m, 0, 0) * (At(m, 1, 1) * At(m, 2, 2) - At(m, 2, 1) * At(m, 1, 2))
    - At(m, 1, 0) * (At(m, 0, 1) * At(m, 2, 2) - At(m, 2, 1) * At(m, 0, 2))
    + At(m, 2, 0) * (At(m, 0, 1) * At(m, 1, 2) - At(m, 1, 1) * At(m, 0, 2))
  }

  /** Both cofactor expansions give the same determinant. */
  lemma {:induction false} Det3Expansions(m: Array)
    requires IsMatrix3(m)
    ensures Det3(m) == Det3ByColumn(m)
  {
    var a, b, c := At(m, 0, 0), At(m, 0, 1), At(m, 0, 2);
    var d, e, f := At(m, 1, 0), At(m, 1, 1), At(m, 1, 2);
    var g, h, k := At(m, 2, 0), At(m, 2, 1), At(m, 2, 2);
    assert Det3(m) == a * e * k - a * f * h - b * d * k + b * f * g + c * d * h - c * e * g;
    assert Det3ByColumn(m) == a * e * k - a * h * f - d * b * k + d * h * c + g * b * f - g * e * c;
  }

  /** The identity has determinant 1. */
  lemma {:induction false} Det3Identity()
    ensures Det3(Identity3()) == 1.0
  {
    var e := Identity3();
    assert At(e, 0, 0) == 1.0 && At(e, 1, 1) == 1.0 && At(e, 2, 2) == 1.0;
    assert At(e, 0, 1) == 0.0 && At(e, 0, 2) == 0.0 && At(e, 1, 2) == 0.0 && At(e, 2, 1) == 0.0;
  }

  /** `compute_ud`: `det(est) - det(gt)`, for two 3x3 covariances only. */
  function Ud(est: Array, gt: Array): (r: Result<real, MetricError>)
    ensures r.Failure? <==> !IsMatrix3(est) || !IsMatrix3(gt)
    ensures r.Failure? ==> r.error == NotMatrix3
    ensures r.Success? ==> r.value + Det3(gt) == Det3(est)
  {
    if !IsMatrix3(est) || !IsMatrix3(gt) then Failure(NotMatrix3)
    else Success(Det3(est) - Det3(gt))
  }

  /** The UD of a covariance against itself is 0. */
  lemma {:induction false} UdSelf(x: Array)
    requires IsMatrix3(x)
    ensures Ud(x, x) == Success(0.0)
  {
  }

  /** Swapping the covariances negates the UD. */
  lemma {:induction false} UdAntisymmetric(a: Array, b: Array)
    ensures Ud(a, b).Success? <==> Ud(b, a).Success?
    ensures Ud(a, b).Success? ==> Ud(b, a).value == -Ud(a, b).value
  {
  }
}
