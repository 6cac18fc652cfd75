/**
 * The element-wise tensor kernels of the style-transfer core: clipping an
 * image into the unit range and the mean squared error. A tensor is given by
 * its elements in row-major order; both kernels ignore its shape.
 */
module Kernels {

  /** All elements of a tensor, row-major. */
  type Tensor = seq<real>

  predicate InUnitRange(x: Tensor) {
    forall i :: 0 <= i < |x| ==> 0.0 <= x[i] <= 1.0
  }

  function ClampUnit(v: real): real {
    if v < 0.0 then 0.0 else if v > 1.0 then 1.0 else v
  }

  /** Distance between two reals. */
  function Dist(a: real, b: real): real {
    if a < b then b - a else a - b
  }

  /**
   * `clip_0_1`: every element is replaced by the nearest point of [0, 1], so
   * elements already in range are kept.
   */
  function Clip01(x: Tensor): (r: Tensor)
    ensures |r| == |x| && InUnitRange(r)
    ensures forall i :: 0 <= i < |x| && 0.0 <= x[i] <= 1.0 ==> r[i] == x[i]
    ensures forall i, y {:trigger Dist(y, x[i])} :: 0 <= i < |x| && 0.0 <= y <= 1.0 ==> Dist(r[i], x[i]) <= Dist(y, x[i])
  {
    seq(|x|, i requires 0 <= i < |x| => ClampUnit(x[i]))
  }

  /** Clipping twice is clipping once. */
  lemma Clip01Idempotent(x: Tensor)
    ensures Clip01(Clip01(x)) == Clip01(x)
  {
  }

  /** Clipping leaves an in-range tensor alone, and only such a tensor. */
  lemma Clip01FixedPoints(x: Tensor)
    ensures Clip01(x) == x <==> InUnitRange(x)
  {
    if Clip01(x) == x {
      assert forall i :: 0 <= i < |x| ==> x[i] == Clip01(x)[i];
    }
  }

  function Sq(d: real): real {
    d * d
  }

  lemma SquareFacts(d: real)
    ensures Sq(d) >= 0.0
    ensures d != 0.0 ==> Sq(d) > 0.0
  {
    if d > 0.0 {
      calc { Sq(d); == d * d; > 0.0 * d; == 0.0; }
    } else if d < 0.0 {
      calc { Sq(d); == (-d) * (-d); > 0.0 * (-d); == 0.0; }
    } else {
      calc { Sq(d); == 0.0 * 0.0; == 0.0; }
    }
  }

  /** Sum of squared element differences. */
  function SumSquaredDiff(x: Tensor, y: Tensor): (s: real)
    requires |x| == |y|
    ensures s >= 0.0
    ensures x == y ==> s == 0.0
    ensures x != y ==> s > 0.0
  {
    if x == [] then 0.0
    else
      var rest := SumSquaredDiff(x[1..], y[1..]);
      assert x == [x[0]] + x[1..] && y == [y[0]] + y[1..];
      SquareFacts(x[0] - y[0]);
      Sq(x[0] - y[0]) + rest
  }

  lemma {:induction false} SumSquaredDiffSymmetric(x: Tensor, y: Tensor)
    requires |x| == |y|
    ensures SumSquaredDiff(x, y) == SumSquaredDiff(y, x)
  {
    if x != [] {
      SumSquaredDiffSymmetric(x[1..], y[1..]);
      assert Sq(x[0] - y[0]) == Sq(y[0] - x[0]);
    }
  }

  /**
   * `mse`: the mean of the squared differences over all elements. The
   * subtraction needs tensors of one shape; the mean needs at least one element.
   */
  function Mse(x: Tensor, y: Tensor): (r: real)
    requires |x| == |y| && |x| > 0
    ensures r >= 0.0
    ensures r == 0.0 <==> x == y
  {
    var n := |x| as real;
    var s := SumSquaredDiff(x, y);
    assert x != y ==> s / n > 0.0;
    s / n
  }

  lemma MseSymmetric(x: Tensor, y: Tensor)
    requires |x| == |y| && |x| > 0
    ensures Mse(x, y) == Mse(y, x)
  {
    SumSquaredDiffSymmetric(x, y);
  }

  /** Element-wise product with a scalar, as `255.0 * inputs`. */
  function Scale(k: real, x: Tensor): (r: Tensor)
    ensures |r| == |x| && forall i :: 0 <= i < |x| ==> r[i] == k * x[i]
  {
    seq(|x|, i requires 0 <= i < |x| => k * x[i])
  }

  /** Concatenation of the rows: the row-major elements of a nested tensor. */
  function Flatten<T>(rows: seq<seq<T>>): seq<T> {
    if rows == [] then [] else rows[0] + Flatten(rows[1..])
  }
}
