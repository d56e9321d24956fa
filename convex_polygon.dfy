/** convexPolygon.py: the rigid body `Simplex` whose rotation pivots about its
    centroid. The vertices are an n x d array updated in place, the centroid
    a vector of length d kept equal to the mean of the vertices by every
    operation. */
module ConvexPolygon {
  import opened Geometry
  import opened Rotation
  import opened Format

  /** Cosines and sines of smaller magnitude than this are set to zero. */
  const SNAP_EPSILON: real := 0.00000000000001

  function Abs(x: real): real
  {
    if x < 0.0 then -x else x
  }

  /** The snapping `cRotate` applies to its cosine and sine. */
  function Snap(x: real): (r: real)
    ensures Abs(r) <= Abs(x)
    ensures r == x <==> (x == 0.0 || SNAP_EPSILON <= Abs(x))
    ensures r != x ==> r == 0.0
  {
    if Abs(x) < SNAP_EPSILON then 0.0 else x
  }

  /** The vertices after a rotation by `m` about `pivot`: each vertex x becomes
      m·x + (pivot − m·pivot). */
  function RotatedAbout(rows: seq<seq<real>>, m: seq<seq<real>>, pivot: seq<real>): seq<seq<real>>
    requires Rectangular(rows, |pivot|) && Rectangular(m, |pivot|) && |m| == |pivot|
  {
    var rotated := Rotated(rows, m, |pivot|);
    assert Rectangular(rotated, |pivot|);
    Translated(rotated, Sub(pivot, MatVec(m, pivot)))
  }

  /** Rotating about the centroid keeps the centroid, whatever the matrix. */
  lemma CentroidRotatedAbout(rows: seq<seq<real>>, m: seq<seq<real>>, pivot: seq<real>)
    requires |rows| > 0 && Rectangular(rows, |pivot|) && Rectangular(m, |pivot|) && |m| == |pivot|
    requires pivot == Centroid(rows, |pivot|)
    ensures Centroid(RotatedAbout(rows, m, pivot), |pivot|) == pivot
  {
    var d := |pivot|;
    var rotated := Rotated(rows, m, d);
    var offset := Sub(pivot, MatVec(m, pivot));
    CentroidRotated(rows, m, d);
    CentroidTranslated(rotated, offset);
  }

  /** A rotation about the pivot by a genuine angle in a plane of two distinct
      axes is rigid: the distance between any two vertices is unchanged. */
  lemma RotatedAboutIsRigid(rows: seq<seq<real>>, p0: nat, p1: nat, cos: real, sin: real,
                            pivot: seq<real>, a: nat, b: nat)
    requires Rectangular(rows, |pivot|) && a < |rows| && b < |rows|
    requires p0 < |pivot| && p1 < |pivot| && p0 != p1
    requires cos * cos + sin * sin == 1.0
    ensures var moved := RotatedAbout(rows, RotationMatrix(|pivot|, p0, p1, cos, sin), pivot);
            SqNorm(Sub(moved[a], moved[b])) == SqNorm(Sub(rows[a], rows[b]))
  {
    var d := |pivot|;
    var m := RotationMatrix(d, p0, p1, cos, sin);
    var rotated := Rotated(rows, m, d);
    TranslatedKeepsDifferences(rotated, Sub(pivot, MatVec(m, pivot)), a, b);
    RotationPreservesDistance(rows[a], rows[b], p0, p1, cos, sin);
  }

  /** At angle zero (cosine 1 and sine 0, both left alone by the snapping) the
      vertices are unchanged, whatever the plane and the pivot. */
  lemma RotatedAboutAtZeroAngle(rows: seq<seq<real>>, p0: int, p1: int, pivot: seq<real>)
    requires Rectangular(rows, |pivot|)
    ensures RotatedAbout(rows, RotationMatrix(|pivot|, p0, p1, Snap(1.0), Snap(0.0)), pivot) == rows
  {
    var d := |pivot|;
    var m := RotationMatrix(d, p0, p1, Snap(1.0), Snap(0.0));
    RotationMatrixAtZeroAngle(d, p0, p1);
    MatVecIdentity(pivot);
    var rotated := Rotated(rows, m, d);
    forall k | 0 <= k < |rows| ensures rotated[k] == rows[k] {
      MatVecIdentity(rows[k]);
    }
    assert rotated == rows;
    assert Sub(pivot, MatVec(m, pivot)) == Zeros(d);
    TranslatedByZero(rows, d);
  }

  class Simplex {
    /** The vertices, one row of d coordinates per vertex. */
    var v: array2<real>
    /** The centroid. */
    var c: array<real>

    function Row(k: nat): seq<real>
      reads this, v
      requires k < v.Length0
    {
      seq(v.Length1, j requires 0 <= j < v.Length1 && k < v.Length0 reads this, v => v[k, j])
    }

    /** The vertices as a list of rows. */
    function Rows(): (r: seq<seq<real>>)
      reads this, v
      ensures |r| == v.Length0 && Rectangular(r, v.Length1)
    {
      seq(v.Length0, k requires 0 <= k < v.Length0 reads this, v => Row(k))
    }

    /** The array holds exactly `rows`. */
    ghost predicate Holds(rows: seq<seq<real>>)
      reads this, v
    {
      |rows| == v.Length0 && Rectangular(rows, v.Length1) &&
      forall a, b :: 0 <= a < v.Length0 && 0 <= b < v.Length1 ==> v[a, b] == rows[a][b]
    }

    lemma HoldsRows(rows: seq<seq<real>>)
      requires Holds(rows)
      ensures Rows() == rows
    {
      forall k | 0 <= k < |rows| ensures Rows()[k] == rows[k] {
        assert forall j | 0 <= j < v.Length1 :: Rows()[k][j] == rows[k][j];
      }
    }

    lemma RowIs(k: nat, r: seq<real>)
      requires k < v.Length0 && |r| == v.Length1
      requires forall b :: 0 <= b < v.Length1 ==> v[k, b] == r[b]
      ensures Row(k) == r
    {
    }

    /** Overwrites vertex `k` with `row`; every other vertex is kept. */
    method SetRow(k: nat, row: seq<real>)
      requires k < v.Length0 && |row| == v.Length1
      modifies v
      ensures forall a, b :: 0 <= a < v.Length0 && 0 <= b < v.Length1 ==>
                v[a, b] == if a == k then row[b] else old(v[a, b])
    {
      forall j | 0 <= j < v.Length1 {
        v[k, j] := row[j];
      }
    }

    /** Adds `t` coordinate by coordinate to vertex `k`; every other vertex is kept. */
    method AddToRow(k: nat, t: seq<real>)
      requires k < v.Length0 && |t| == v.Length1
      modifies v
      ensures forall a, b :: 0 <= a < v.Length0 && 0 <= b < v.Length1 ==>
                v[a, b] == if a == k then old(v[a, b]) + t[b] else old(v[a, b])
    {
      for j := 0 to v.Length1
        invariant forall a, b :: 0 <= a < v.Length0 && 0 <= b < v.Length1 ==>
                    v[a, b] == if a == k && b < j then old(v[a, b]) + t[b] else old(v[a, b])
      {
        v[k, j] := v[k, j] + t[j];
      }
    }

    /** Adds `t` coordinate by coordinate to the centroid. */
    method AddToCentroid(t: seq<real>)
      requires |t| == c.Length
      modifies c
      ensures c[..] == Add(old(c[..]), t)
    {
      for i := 0 to c.Length
        invariant forall a :: 0 <= a < c.Length ==> c[a] == if a < i then old(c[a]) + t[a] else old(c[a])
      {
        c[i] := c[i] + t[i];
      }
    }

    /** There is at least one vertex and `c` is the mean of the vertices. */
    ghost predicate Valid()
      reads this, v, c
    {
      v.Length0 > 0 && c.Length == v.Length1 && c[..] == Centroid(Rows(), v.Length1)
    }

    /** Copies the vertices and accumulates the centroid one vertex at a time,
        adding each coordinate divided by the number of vertices. */
    constructor (vertices: seq<seq<real>>)
      requires |vertices| > 0 && Rectangular(vertices, |vertices[0]|)
      ensures Valid() && fresh(v) && fresh(c)
      ensures Rows() == vertices
      ensures c[..] == Centroid(vertices, |vertices[0]|)
    {
      var n, d := |vertices|, |vertices[0]|;
      var nr := n as real;
      var vs := new real[n, d]((i, j) requires 0 <= i < n && 0 <= j < d => vertices[i][j]);
      var cs := new real[d](_ => 0.0);
      for k := 0 to n
        invariant forall a :: 0 <= a < d ==> cs[a] == ColumnSum(vertices[..k], d, a) / nr
        modifies cs
      {
        var vertex := vertices[k];
        assert vertices[..k + 1][..k] == vertices[..k];
        forall a | 0 <= a < d {
          DivAdd(ColumnSum(vertices[..k], d, a), vertex[a], nr);
        }
        Accumulate(cs, vertex, nr);
      }
      assert vertices[..n] == vertices;
      v, c := vs, cs;
      new;
      HoldsRows(vertices);
      assert c[..] == Centroid(vertices, d);
    }

    /** Adds `t` to every vertex and to the centroid. A vector whose length is
        not the dimension of the vertices is refused and nothing changes. */
    method Translate(t: seq<real>) returns (status: Status)
      requires Valid()
      modifies v, c
      ensures Valid()
      ensures status == if |t| == v.Length1 then Ok else DimensionMismatch(|t|, v.Length1)
      ensures status == Ok ==> Rows() == Translated(old(Rows()), t) && c[..] == Add(old(c[..]), t)
      ensures status != Ok ==> Rows() == old(Rows()) && c[..] == old(c[..])
    {
      var n, d := v.Length0, v.Length1;
      if |t| != d {
        return DimensionMismatch(|t|, d);
      }
      ghost var rows0 := Rows();
      ghost var target := Translated(rows0, t);
      for i := 0 to n
        invariant forall a, b :: 0 <= a < i && 0 <= b < d ==> v[a, b] == target[a][b]
        invariant forall a, b :: i <= a < n && 0 <= b < d ==> v[a, b] == rows0[a][b]
        modifies v
      {
        AddToRow(i, t);
      }
      AddToCentroid(t);
      HoldsRows(target);
      CentroidTranslated(rows0, t);
      status := Ok;
    }

    /** Rotates every vertex about the centroid within the plane of the axes
        p0 and p1. `cosAngle` and `sinAngle` are the cosine and sine of the
        angle in radians; the snapping is applied to them first. */
    method CRotate(cosAngle: real, sinAngle: real, p0: int, p1: int)
      requires Valid()
      modifies v
      ensures Valid()
      ensures c[..] == old(c[..])
      ensures Rows() == RotatedAbout(old(Rows()), RotationMatrix(v.Length1, p0, p1, Snap(cosAngle), Snap(sinAngle)), c[..])
    {
      var cos := Snap(cosAngle);
      var sin := Snap(sinAngle);
      var n, d := v.Length0, v.Length1;
      var m := BuildRotationMatrix(d, p0, p1, cos, sin);
      ghost var rows0 := Rows();
      ghost var target := RotatedAbout(rows0, m, c[..]);
      var offset := Sub(c[..], MatVec(m, c[..]));
      for i := 0 to n
        invariant forall a, b :: 0 <= a < i && 0 <= b < d ==> v[a, b] == target[a][b]
        invariant forall a, b :: i <= a < n && 0 <= b < d ==> v[a, b] == rows0[a][b]
      {
        RowIs(i, rows0[i]);
        var row := Add(MatVec(m, Row(i)), offset);
        assert row == target[i];
        SetRow(i, row);
      }
      HoldsRows(target);
      CentroidRotatedAbout(rows0, m, c[..]);
    }

    /** `acc` followed by every coordinate of vertex `k`, each written with
        `fmt` and followed by one space. */
    method AppendRow(acc: string, k: nat, fmt: real -> string) returns (r: string)
      requires k < v.Length0
      ensures r == acc + Spaced(Words(Row(k), fmt))
    {
      r := acc;
      ghost var row := Row(k);
      for j := 0 to v.Length1
        invariant r == acc + Spaced(Words(row[..j], fmt))
      {
        ghost var ws := Words(row[..j + 1], fmt);
        assert ws[..j] == Words(row[..j], fmt) && ws[j] == fmt(v[k, j]);
        r := r + fmt(v[k, j]) + " ";
      }
      assert row[..v.Length1] == row;
    }

    /** Every coordinate of every vertex, vertex by vertex, each written with
        `fmt` and separated from the next by one space. */
    method ToString(fmt: real -> string) returns (s: string)
      ensures s == Join(Words(Flatten(Rows()), fmt))
    {
      ghost var rows := Rows();
      var acc := "";
      for i := 0 to v.Length0
        invariant acc == Spaced(Words(Flatten(rows[..i]), fmt))
      {
        assert rows[..i + 1][..i] == rows[..i];
        WordsAppend(Flatten(rows[..i]), rows[i], fmt);
        SpacedAppend(Words(Flatten(rows[..i]), fmt), Words(rows[i], fmt));
        acc := AppendRow(acc, i, fmt);
      }
      assert rows[..v.Length0] == rows;
      s := DropLast(acc);
      DropLastSpaced(Words(Flatten(rows), fmt));
    }
  }
}
