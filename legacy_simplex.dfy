/** simplex.py: the older version of the rigid body `Simplex`. Construction
    and translation are as in convexPolygon.py, but its rotation multiplies
    every vertex by the rotation matrix without adding back the offset it
    computes, so the body turns about the origin and the stored centroid
    goes stale. The cosine and sine are used as given, with no snapping. */
module LegacySimplex {
  import opened Geometry
  import opened Rotation

  /** Multiplying by the matrix of angle zero changes no vertex. */
  lemma RotatedAtZeroAngle(rows: seq<seq<real>>, d: nat, p0: int, p1: int)
    requires Rectangular(rows, d)
    ensures Rotated(rows, RotationMatrix(d, p0, p1, 1.0, 0.0), d) == rows
  {
    RotationMatrixAtZeroAngle(d, p0, p1);
    forall k | 0 <= k < |rows| ensures Rotated(rows, RotationMatrix(d, p0, p1, 1.0, 0.0), d)[k] == rows[k] {
      MatVecIdentity(rows[k]);
    }
  }

  /** A rotation about the origin carries the centroid of the vertices along
      with them: the centroid is fixed only where the matrix fixes it. */
  lemma RotatedKeepsCentroidIff(rows: seq<seq<real>>, m: seq<seq<real>>, d: nat)
    requires |rows| > 0 && Rectangular(rows, d) && Rectangular(m, d) && |m| == d
    ensures Rectangular(Rotated(rows, m, d), d)
    ensures Centroid(Rotated(rows, m, d), d) == Centroid(rows, d) <==> MatVec(m, Centroid(rows, d)) == Centroid(rows, d)
  {
    CentroidRotated(rows, m, d);
  }

  /** Two vertices (1, 0) and (3, 0), centroid (2, 0), turned by a quarter
      (cos = 0, sin = 1) in the plane of axes 0 and 1: the vertices move to
      (0, 1) and (0, 3), whose centroid (0, 2) is not the stored (2, 0). */
  lemma QuarterTurnMovesCentroid()
    ensures var rows: seq<seq<real>> := [[1.0, 0.0], [3.0, 0.0]];
            Centroid(Rotated(rows, RotationMatrix(2, 0, 1, 0.0, 1.0), 2), 2) != Centroid(rows, 2)
  {
    var rows: seq<seq<real>> := [[1.0, 0.0], [3.0, 0.0]];
    var m := RotationMatrix(2, 0, 1, 0.0, 1.0);
    var c := Centroid(rows, 2);
    assert ColumnSum(rows, 2, 0) == 4.0 && ColumnSum(rows, 2, 1) == 0.0 by {
      assert rows[..1] == [[1.0, 0.0]];
      assert |rows[..1][..0]| == 0;
    }
    assert c[0] == 2.0 && c[1] == 0.0;
    RotatedKeepsCentroidIff(rows, m, 2);
    RotationMatrixIsPlaneRotation(c, 0, 1, 0.0, 1.0);
    assert MatVec(m, c)[0] == 0.0 * c[0] - 1.0 * c[1];
    assert MatVec(m, c)[0] != c[0];
  }

  class Simplex {
    /** The vertices, one row of d coordinates per vertex. */
    var v: array2<real>
    /** The centroid. */
    var c: array<real>

    function Row(k: nat): seq<real>
      reads this, v
      requires k < v.Length0
    {
      seq(v.Length1, j requires 0 <= j < v.Length1 && k < v.Length0 reads this, v => v[k, j])
    }

    /** The vertices as a list of rows. */
    function Rows(): (r: seq<seq<real>>)
      reads this, v
      ensures |r| == v.Length0 && Rectangular(r, v.Length1)
    {
      seq(v.Length0, k requires 0 <= k < v.Length0 reads this, v => Row(k))
    }

    /** The array holds exactly `rows`. */
    ghost predicate Holds(rows: seq<seq<real>>)
      reads this, v
    {
      |rows| == v.Length0 && Rectangular(rows, v.Length1) &&
      forall a, b :: 0 <= a < v.Length0 && 0 <= b < v.Length1 ==> v[a, b] == rows[a][b]
    }

    lemma HoldsRows(rows: seq<seq<real>>)
      requires Holds(rows)
      ensures Rows() == rows
    {
      forall k | 0 <= k < |rows| ensures Rows()[k] == rows[k] {
        assert forall j | 0 <= j < v.Length1 :: Rows()[k][j] == rows[k][j];
      }
    }

    lemma RowIs(k: nat, r: seq<real>)
      requires k < v.Length0 && |r| == v.Length1
      requires forall b :: 0 <= b < v.Length1 ==> v[k, b] == r[b]
      ensures Row(k) == r
    {
    }

    /** Overwrites vertex `k` with `row`; every other vertex is kept. */
    method SetRow(k: nat, row: seq<real>)
      requires k < v.Length0 && |row| == v.Length1
      modifies v
      ensures forall a, b :: 0 <= a < v.Length0 && 0 <= b < v.Length1 ==>
                v[a, b] == if a == k then row[b] else old(v[a, b])
    {
      forall j | 0 <= j < v.Length1 {
        v[k, j] := row[j];
      }
    }

    /** Adds `t` coordinate by coordinate to vertex `k`; every other vertex is kept. */
    method AddToRow(k: nat, t: seq<real>)
      requires k < v.Length0 && |t| == v.Length1
      modifies v
      ensures forall a, b :: 0 <= a < v.Length0 && 0 <= b < v.Length1 ==>
                v[a, b] == if a == k then old(v[a, b]) + t[b] else old(v[a, b])
    {
      for j := 0 to v.Length1
        invariant forall a, b :: 0 <= a < v.Length0 && 0 <= b < v.Length1 ==>
                    v[a, b] == if a == k && b < j then old(v[a, b]) + t[b] else old(v[a, b])
      {
        v[k, j] := v[k, j] + t[j];
      }
    }

    /** Adds `t` coordinate by coordinate to the centroid. */
    method AddToCentroid(t: seq<real>)
      requires |t| == c.Length
      modifies c
      ensures c[..] == Add(old(c[..]), t)
    {
      for i := 0 to c.Length
        invariant forall a :: 0 <= a < c.Length ==> c[a] == if a < i then old(c[a]) + t[a] else old(c[a])
      {
        c[i] := c[i] + t[i];
      }
    }

    /** There is at least one vertex and `c` has one coordinate per axis. */
    ghost predicate Valid()
      reads this, v, c
    {
      v.Length0 > 0 && c.Length == v.Length1
    }

    /** `c` is the mean of the vertices. */
    ghost predicate CentroidIsMean()
      reads this, v, c
      requires Valid()
    {
      c[..] == Centroid(Rows(), v.Length1)
    }

    /** Copies the vertices and accumulates the centroid one vertex at a time,
        adding each coordinate divided by the number of vertices. */
    constructor (vertices: seq<seq<real>>)
      requires |vertices| > 0 && Rectangular(vertices, |vertices[0]|)
      ensures Valid() && CentroidIsMean() && fresh(v) && fresh(c)
      ensures Rows() == vertices
      ensures c[..] == Centroid(vertices, |vertices[0]|)
    {
      var n, d := |vertices|, |vertices[0]|;
      var nr := n as real;
      var vs := new real[n, d]((i, j) requires 0 <= i < n && 0 <= j < d => vertices[i][j]);
      var cs := new real[d](_ => 0.0);
      for k := 0 to n
        invariant forall a :: 0 <= a < d ==> cs[a] == ColumnSum(vertices[..k], d, a) / nr
        modifies cs
      {
        var vertex := vertices[k];
        assert vertices[..k + 1][..k] == vertices[..k];
        forall a | 0 <= a < d {
          DivAdd(ColumnSum(vertices[..k], d, a), vertex[a], nr);
        }
        Accumulate(cs, vertex, nr);
      }
      assert vertices[..n] == vertices;
      v, c := vs, cs;
      new;
      HoldsRows(vertices);
      assert c[..] == Centroid(vertices, d);
    }

    /** Adds `t` to every vertex and to the centroid. A vector whose length is
        not the dimension of the vertices is refused and nothing changes. */
    method Translate(t: seq<real>) returns (status: Status)
      requires Valid()
      modifies v, c
      ensures Valid()
      ensures old(CentroidIsMean()) ==> CentroidIsMean()
      ensures status == if |t| == v.Length1 then Ok else DimensionMismatch(|t|, v.Length1)
      ensures status == Ok ==> Rows() == Translated(old(Rows()), t) && c[..] == Add(old(c[..]), t)
      ensures status != Ok ==> Rows() == old(Rows()) && c[..] == old(c[..])
    {
      var n, d := v.Length0, v.Length1;
      if |t| != d {
        return DimensionMismatch(|t|, d);
      }
      ghost var rows0, c0 := Rows(), c[..];
      ghost var target := Translated(rows0, t);
      for i := 0 to n
        invariant forall a, b :: 0 <= a < i && 0 <= b < d ==> v[a, b] == target[a][b]
        invariant forall a, b :: i <= a < n && 0 <= b < d ==> v[a, b] == rows0[a][b]
        modifies v
      {
        AddToRow(i, t);
      }
      AddToCentroid(t);
      HoldsRows(target);
      if c0 == Centroid(rows0, d) {
        CentroidTranslated(rows0, t);
      }
      status := Ok;
    }

    /** Replaces every vertex x by m·x, where m is the matrix for the plane of
        the axes p0 and p1 built from `cos` and `sin`; `c` is left as it was.
        The rotation is therefore about the origin, not about the centroid. */
    method CRotate(cos: real, sin: real, p0: int, p1: int)
      requires Valid()
      modifies v
      ensures Valid()
      ensures c[..] == old(c[..])
      ensures Rows() == Rotated(old(Rows()), RotationMatrix(v.Length1, p0, p1, cos, sin), v.Length1)
      ensures old(CentroidIsMean()) ==>
                (CentroidIsMean() <==> MatVec(RotationMatrix(v.Length1, p0, p1, cos, sin), c[..]) == c[..])
    {
      var n, d := v.Length0, v.Length1;
      var m := BuildRotationMatrix(d, p0, p1, cos, sin);
      ghost var rows0 := Rows();
      ghost var target := Rotated(rows0, m, d);
      for i := 0 to n
        invariant forall a, b :: 0 <= a < i && 0 <= b < d ==> v[a, b] == target[a][b]
        invariant forall a, b :: i <= a < n && 0 <= b < d ==> v[a, b] == rows0[a][b]
      {
        RowIs(i, rows0[i]);
        var row := MatVec(m, Row(i));
        SetRow(i, row);
      }
      HoldsRows(target);
      RotatedKeepsCentroidIff(rows0, m, d);
    }
  }
}
