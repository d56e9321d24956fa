/** The d x d matrix that `cRotate` builds to rotate within the plane spanned by
    two coordinate axes, the loop that fills it, and what multiplying by it does. */
module Rotation {
  import opened Geometry

  /** Entry (i, j) of the matrix for the plane (p0, p1): `cos` on the diagonal
      at the two plane axes and 1.0 elsewhere on it, `-sin` at (p0, p1),
      `sin` at (p1, p0), and 0.0 everywhere else. */
  function RotationEntry(p0: int, p1: int, cos: real, sin: real, i: int, j: int): real
  {
    if i == j then
      if i == p0 || i == p1 then cos else 1.0
    else if i == p0 && j == p1 then -sin
    else if i == p1 && j == p0 then sin
    else 0.0
  }

  function RotationMatrix(d: nat, p0: int, p1: int, cos: real, sin: real): seq<seq<real>>
  {
    seq(d, i requires 0 <= i < d => seq(d, j requires 0 <= j < d => RotationEntry(p0, p1, cos, sin, i, j)))
  }

  /** Starts from the d x d zero matrix and fills it entry by entry, row by row,
      exactly as `cRotate` does. */
  method BuildRotationMatrix(d: nat, p0: int, p1: int, cos: real, sin: real) returns (m: seq<seq<real>>)
    ensures m == RotationMatrix(d, p0, p1, cos, sin)
  {
    ghost var target := RotationMatrix(d, p0, p1, cos, sin);
    m := seq(d, _ => Zeros(d));
    for i := 0 to d
      invariant |m| == d
      invariant forall a :: 0 <= a < i ==> m[a] == target[a]
      invariant forall a :: i <= a < d ==> m[a] == Zeros(d)
    {
      for j := 0 to d
        invariant |m| == d && |m[i]| == d
        invariant forall a :: 0 <= a < i ==> m[a] == target[a]
        invariant forall a :: i < a < d ==> m[a] == Zeros(d)
        invariant forall b :: 0 <= b < j ==> m[i][b] == target[i][b]
        invariant forall b :: j <= b < d ==> m[i][b] == 0.0
      {
        if i == j {
          if i == p0 || i == p1 {
            m := m[i := m[i][j := cos]];
          } else {
            m := m[i := m[i][j := 1.0]];
          }
        } else {
          if i == p0 && j == p1 {
            m := m[i := m[i][j := -sin]];
          } else if i == p1 && j == p0 {
            m := m[i := m[i][j := sin]];
          }
        }
      }
      assert m[i] == target[i];
    }
  }

  /** Rotation of the coordinates p0 and p1 of `x` by the angle whose cosine
      and sine are given, every other coordinate kept: the textbook planar
      rotation, stated independently of any matrix. */
  function PlaneRotation(x: seq<real>, p0: nat, p1: nat, cos: real, sin: real): seq<real>
    requires p0 < |x| && p1 < |x| && p0 != p1
  {
    x[p0 := cos * x[p0] - sin * x[p1]][p1 := sin * x[p0] + cos * x[p1]]
  }

  /** Multiplying by the matrix of a plane inside the space is the planar rotation. */
  lemma RotationMatrixIsPlaneRotation(x: seq<real>, p0: nat, p1: nat, cos: real, sin: real)
    requires p0 < |x| && p1 < |x| && p0 != p1
    ensures Rectangular(RotationMatrix(|x|, p0, p1, cos, sin), |x|)
    ensures MatVec(RotationMatrix(|x|, p0, p1, cos, sin), x) == PlaneRotation(x, p0, p1, cos, sin)
  {
    var m := RotationMatrix(|x|, p0, p1, cos, sin);
    forall i | 0 <= i < |x| ensures Dot(m[i], x) == PlaneRotation(x, p0, p1, cos, sin)[i] {
      if i == p0 || i == p1 {
        DotPair(m[i], x, p0, p1);
      } else {
        DotSingle(m[i], x, i);
      }
    }
  }

  /** At angle zero (cos = 1, sin = 0) the matrix is the identity, whatever the plane. */
  lemma RotationMatrixAtZeroAngle(d: nat, p0: int, p1: int)
    ensures RotationMatrix(d, p0, p1, 1.0, 0.0) == Identity(d)
  {
    var m := RotationMatrix(d, p0, p1, 1.0, 0.0);
    forall i | 0 <= i < d ensures m[i] == Identity(d)[i] {
      assert forall j | 0 <= j < d :: m[i][j] == Identity(d)[i][j];
    }
  }

  /** A plane whose axes both lie outside 0..d-1 touches no entry: the matrix is the identity. */
  lemma RotationMatrixOutsideRange(d: nat, p0: int, p1: int, cos: real, sin: real)
    requires !(0 <= p0 < d) && !(0 <= p1 < d)
    ensures RotationMatrix(d, p0, p1, cos, sin) == Identity(d)
  {
    var m := RotationMatrix(d, p0, p1, cos, sin);
    forall i | 0 <= i < d ensures m[i] == Identity(d)[i] {
      assert forall j | 0 <= j < d :: m[i][j] == Identity(d)[i][j];
    }
  }

  /** A planar rotation by a genuine angle (cos^2 + sin^2 = 1) keeps the length of every vector. */
  lemma PlaneRotationPreservesNorm(x: seq<real>, p0: nat, p1: nat, cos: real, sin: real)
    requires p0 < |x| && p1 < |x| && p0 != p1
    requires cos * cos + sin * sin == 1.0
    ensures SqNorm(PlaneRotation(x, p0, p1, cos, sin)) == SqNorm(x)
  {
    var u, w := x[p0], x[p1];
    var a, b := cos * u - sin * w, sin * u + cos * w;
    var y := x[p0 := a];
    var z := PlaneRotation(x, p0, p1, cos, sin);
    assert z[p0] == a && z[p1] == b;
    assert forall k | 0 <= k < |x| :: z[k] == y[p1 := b][k];
    assert z == y[p1 := b];
    SqNormUpdate(x, p0, a);
    SqNormUpdate(y, p1, b);
    assert y[p1] == w;
    assert a * a == cos * cos * (u * u) - 2.0 * cos * sin * (u * w) + sin * sin * (w * w);
    assert b * b == sin * sin * (u * u) + 2.0 * cos * sin * (u * w) + cos * cos * (w * w);
    assert a * a + b * b == (cos * cos + sin * sin) * (u * u + w * w);
    assert a * a + b * b == u * u + w * w;
  }

  /** Rotating back by the opposite angle (same cos, negated sin) restores the vector. */
  lemma PlaneRotationInverse(x: seq<real>, p0: nat, p1: nat, cos: real, sin: real)
    requires p0 < |x| && p1 < |x| && p0 != p1
    requires cos * cos + sin * sin == 1.0
    ensures PlaneRotation(PlaneRotation(x, p0, p1, cos, sin), p0, p1, cos, -sin) == x
  {
    var u, w := x[p0], x[p1];
    var y := PlaneRotation(x, p0, p1, cos, sin);
    assert y[p0] == cos * u - sin * w && y[p1] == sin * u + cos * w;
    var z := PlaneRotation(y, p0, p1, cos, -sin);
    assert z[p0] == cos * y[p0] + sin * y[p1];
    assert cos * (cos * u - sin * w) + sin * (sin * u + cos * w) == (cos * cos + sin * sin) * u;
    assert z[p1] == -sin * y[p0] + cos * y[p1];
    assert -sin * (cos * u - sin * w) + cos * (sin * u + cos * w) == (cos * cos + sin * sin) * w;
    assert forall k | 0 <= k < |x| :: z[k] == x[k];
  }

  /** The matrix of a genuine planar rotation keeps the distance between any two points. */
  lemma RotationPreservesDistance(x: seq<real>, y: seq<real>, p0: nat, p1: nat, cos: real, sin: real)
    requires |x| == |y| && p0 < |x| && p1 < |x| && p0 != p1
    requires cos * cos + sin * sin == 1.0
    ensures Rectangular(RotationMatrix(|x|, p0, p1, cos, sin), |x|)
    ensures var m := RotationMatrix(|x|, p0, p1, cos, sin);
            SqNorm(Sub(MatVec(m, x), MatVec(m, y))) == SqNorm(Sub(x, y))
  {
    var m := RotationMatrix(|x|, p0, p1, cos, sin);
    MatVecSub(m, x, y);
    RotationMatrixIsPlaneRotation(Sub(x, y), p0, p1, cos, sin);
    PlaneRotationPreservesNorm(Sub(x, y), p0, p1, cos, sin);
  }
}
