/** Vectors and vertex lists over the reals: the numpy arithmetic the Simplex
    classes use (element-wise addition, subtraction, `np.dot`), and the
    centroid of a list of vertices with the facts about it that translation
    and rotation rely on. */
module Geometry {

  /** Outcome of an operation that first checks the dimension of its argument. */
  datatype Status = Ok | DimensionMismatch(given: nat, expected: nat)

  /** Every row of `rows` has exactly `d` coordinates (an n x d numpy array). */
  predicate Rectangular(rows: seq<seq<real>>, d: nat)
  {
    forall k :: 0 <= k < |rows| ==> |rows[k]| == d
  }

  function Zeros(d: nat): seq<real>
  {
    seq(d, _ => 0.0)
  }

  function Add(x: seq<real>, y: seq<real>): seq<real>
    requires |x| == |y|
  {
    seq(|x|, i requires 0 <= i < |x| => x[i] + y[i])
  }

  function Sub(x: seq<real>, y: seq<real>): seq<real>
    requires |x| == |y|
  {
    seq(|x|, i requires 0 <= i < |x| => x[i] - y[i])
  }

  function Scale(s: real, x: seq<real>): seq<real>
  {
    seq(|x|, i requires 0 <= i < |x| => s * x[i])
  }

  /** Product of two reals. Kept as a function of its own so that the solver
      treats products as opaque terms until a proof asks about one. */
  function Mul(a: real, b: real): real
  {
    a * b
  }

  /** Inner product, summed from the last coordinate down. */
  function Dot(x: seq<real>, y: seq<real>): real
    requires |x| == |y|
    decreases |x|
  {
    if |x| == 0 then 0.0 else Dot(x[..|x| - 1], y[..|y| - 1]) + Mul(x[|x| - 1], y[|y| - 1])
  }

  function SqNorm(x: seq<real>): real
  {
    Dot(x, x)
  }

  /** `np.dot(m, x)` for a matrix given as its rows. */
  function MatVec(m: seq<seq<real>>, x: seq<real>): seq<real>
    requires Rectangular(m, |x|)
  {
    seq(|m|, i requires 0 <= i < |m| => Dot(m[i], x))
  }

  function Identity(d: nat): seq<seq<real>>
  {
    seq(d, i requires 0 <= i < d => seq(d, j requires 0 <= j < d => if i == j then 1.0 else 0.0))
  }

  /** Sum of the `i`-th coordinate over all rows. */
  function ColumnSum(rows: seq<seq<real>>, d: nat, i: nat): real
    requires Rectangular(rows, d) && i < d
    decreases |rows|
  {
    if |rows| == 0 then 0.0 else ColumnSum(rows[..|rows| - 1], d, i) + rows[|rows| - 1][i]
  }

  function ColumnSums(rows: seq<seq<real>>, d: nat): seq<real>
    requires Rectangular(rows, d)
  {
    seq(d, i requires 0 <= i < d => ColumnSum(rows, d, i))
  }

  /** Arithmetic mean of the `i`-th coordinate over all rows. */
  function Mean(rows: seq<seq<real>>, d: nat, i: nat): real
    requires |rows| > 0 && Rectangular(rows, d) && i < d
  {
    ColumnSum(rows, d, i) / (|rows| as real)
  }

  /** The centroid: the coordinate-wise mean of the vertices. */
  function Centroid(rows: seq<seq<real>>, d: nat): seq<real>
    requires |rows| > 0 && Rectangular(rows, d)
  {
    seq(d, i requires 0 <= i < d => Mean(rows, d, i))
  }

  /** Every vertex shifted by `t`. */
  function Translated(rows: seq<seq<real>>, t: seq<real>): seq<seq<real>>
    requires Rectangular(rows, |t|)
  {
    seq(|rows|, k requires 0 <= k < |rows| => Add(rows[k], t))
  }

  /** Every vertex multiplied by the matrix `m` (a rotation about the origin). */
  function Rotated(rows: seq<seq<real>>, m: seq<seq<real>>, d: nat): seq<seq<real>>
    requires Rectangular(rows, d) && Rectangular(m, d)
  {
    seq(|rows|, k requires 0 <= k < |rows| => MatVec(m, rows[k]))
  }

  lemma DivAdd(a: real, b: real, n: real)
    requires n != 0.0
    ensures a / n + b / n == (a + b) / n
  {
  }

  lemma DivIsScale(a: real, n: real)
    requires n != 0.0
    ensures a / n == 1.0 / n * a
  {
  }

  lemma DivShift(a: real, t: real, n: real)
    requires n != 0.0
    ensures (a + Mul(n, t)) / n == a / n + t
  {
  }

  /** Adds every coordinate of `vertex`, divided by `n`, to the matching entry
      of `acc`: one step of the centroid accumulation. */
  method Accumulate(acc: array<real>, vertex: seq<real>, n: real)
    requires |vertex| == acc.Length && n != 0.0
    modifies acc
    ensures forall a :: 0 <= a < acc.Length ==> acc[a] == old(acc[a]) + vertex[a] / n
  {
    for i := 0 to |vertex|
      invariant forall a :: 0 <= a < acc.Length ==> acc[a] == if a < i then old(acc[a]) + vertex[a] / n else old(acc[a])
    {
      acc[i] := acc[i] + vertex[i] / n;
    }
  }

  // ---------------------------------------------------------------------
  // Inner products

  /** The inner product is additive in its second argument. */
  lemma {:induction false} DotAdd(r: seq<real>, x: seq<real>, y: seq<real>)
    requires |r| == |x| == |y|
    ensures Dot(r, Add(x, y)) == Dot(r, x) + Dot(r, y)
    decreases |r|
  {
    if |r| > 0 {
      var n := |r| - 1;
      assert Add(x, y)[..n] == Add(x[..n], y[..n]);
      DotAdd(r[..n], x[..n], y[..n]);
    }
  }

  /** The inner product is subtractive in its second argument. */
  lemma {:induction false} DotSub(r: seq<real>, x: seq<real>, y: seq<real>)
    requires |r| == |x| == |y|
    ensures Dot(r, Sub(x, y)) == Dot(r, x) - Dot(r, y)
    decreases |r|
  {
    if |r| > 0 {
      var n := |r| - 1;
      assert Sub(x, y)[..n] == Sub(x[..n], y[..n]);
      DotSub(r[..n], x[..n], y[..n]);
    }
  }

  /** The inner product is homogeneous in its second argument. */
  lemma {:induction false} DotScale(r: seq<real>, s: real, x: seq<real>)
    requires |r| == |x|
    ensures Dot(r, Scale(s, x)) == s * Dot(r, x)
    decreases |r|
  {
    if |r| > 0 {
      var n := |r| - 1;
      assert forall j | 0 <= j < n :: Scale(s, x)[..n][j] == Scale(s, x[..n])[j];
      assert Scale(s, x)[..n] == Scale(s, x[..n]);
      DotScale(r[..n], s, x[..n]);
      assert Mul(r[n], s * x[n]) == s * Mul(r[n], x[n]);
    }
  }

  lemma {:induction false} DotZeros(r: seq<real>)
    ensures Dot(r, Zeros(|r|)) == 0.0
    decreases |r|
  {
    if |r| > 0 {
      var n := |r| - 1;
      assert Zeros(|r|)[..n] == Zeros(n);
      DotZeros(r[..n]);
    }
  }

  /** Contribution of coordinate `p` to an inner product, zero when `p` is out of range. */
  function Term(r: seq<real>, x: seq<real>, p: int): real
    requires |r| == |x|
  {
    if 0 <= p < |r| then Mul(r[p], x[p]) else 0.0
  }

  /** An inner product with a row that is zero outside coordinate `p` has only that term. */
  lemma {:induction false} DotSingle(r: seq<real>, x: seq<real>, p: int)
    requires |r| == |x|
    requires forall j :: 0 <= j < |r| && j != p ==> r[j] == 0.0
    ensures Dot(r, x) == Term(r, x, p)
    decreases |r|
  {
    if |r| > 0 {
      var n := |r| - 1;
      var r', x' := r[..n], x[..n];
      assert forall j :: 0 <= j < n && j != p ==> r'[j] == 0.0 by {
        forall j | 0 <= j < n && j != p ensures r'[j] == 0.0 {
          assert r'[j] == r[j];
        }
      }
      DotSingle(r', x', p);
      if p == n {
        assert Term(r', x', p) == 0.0;
      } else {
        assert r[n] == 0.0;
        assert Term(r, x, p) == Term(r', x', p);
      }
    }
  }

  /** An inner product with a row that is zero outside the distinct coordinates
      `p` and `q` has only those two terms. */
  lemma {:induction false} DotPair(r: seq<real>, x: seq<real>, p: int, q: int)
    requires |r| == |x| && p != q
    requires forall j :: 0 <= j < |r| && j != p && j != q ==> r[j] == 0.0
    ensures Dot(r, x) == Term(r, x, p) + Term(r, x, q)
    decreases |r|
  {
    if |r| > 0 {
      var n := |r| - 1;
      var r', x' := r[..n], x[..n];
      assert forall j :: 0 <= j < n && j != p && j != q ==> r'[j] == 0.0 by {
        forall j | 0 <= j < n && j != p && j != q ensures r'[j] == 0.0 {
          assert r'[j] == r[j];
        }
      }
      DotPair(r', x', p, q);
      DotPairStep(r, x, p, q);
    }
  }

  lemma DotPairStep(r: seq<real>, x: seq<real>, p: int, q: int)
    requires |r| == |x| > 0 && p != q
    requires r[|r| - 1] == 0.0 || p == |r| - 1 || q == |r| - 1
    requires Dot(r[..|r| - 1], x[..|r| - 1]) == Term(r[..|r| - 1], x[..|r| - 1], p) + Term(r[..|r| - 1], x[..|r| - 1], q)
    ensures Dot(r, x) == Term(r, x, p) + Term(r, x, q)
  {
    var n := |r| - 1;
    var r', x' := r[..n], x[..n];
    var last := Mul(r[n], x[n]);
    DotLast(r, x);
    TermPrefix(r, x, p);
    TermPrefix(r, x, q);
    if p != n && q != n {
      assert last == 0.0;
    }
  }

  lemma DotLast(r: seq<real>, x: seq<real>)
    requires |r| == |x| > 0
    ensures Dot(r, x) == Dot(r[..|r| - 1], x[..|r| - 1]) + Mul(r[|r| - 1], x[|r| - 1])
  {
  }

  /** Dropping the last coordinate drops its term and keeps every other one. */
  lemma TermPrefix(r: seq<real>, x: seq<real>, p: int)
    requires |r| == |x| > 0
    ensures var n := |r| - 1;
            Term(r, x, p) == (if p == n then Mul(r[n], x[n]) else 0.0) + Term(r[..n], x[..n], p)
  {
  }

  /** Changing one coordinate changes the squared norm by the difference of the squares. */
  lemma {:induction false} SqNormUpdate(x: seq<real>, p: nat, a: real)
    requires p < |x|
    ensures SqNorm(x[p := a]) == SqNorm(x) - x[p] * x[p] + a * a
    decreases |x|
  {
    var n := |x| - 1;
    if p < n {
      assert x[p := a][..n] == x[..n][p := a];
      SqNormUpdate(x[..n], p, a);
    } else {
      assert x[p := a][..n] == x[..n];
    }
  }

  /** `np.dot` distributes over the difference of two vectors. */
  lemma MatVecSub(m: seq<seq<real>>, x: seq<real>, y: seq<real>)
    requires |x| == |y| && Rectangular(m, |x|)
    ensures MatVec(m, Sub(x, y)) == Sub(MatVec(m, x), MatVec(m, y))
  {
    forall i | 0 <= i < |m| ensures Dot(m[i], Sub(x, y)) == Dot(m[i], x) - Dot(m[i], y) {
      DotSub(m[i], x, y);
    }
  }

  /** The identity matrix leaves every vector unchanged. */
  lemma MatVecIdentity(x: seq<real>)
    ensures MatVec(Identity(|x|), x) == x
  {
    var m := Identity(|x|);
    forall i | 0 <= i < |x| ensures MatVec(m, x)[i] == x[i] {
      DotSingle(m[i], x, i);
    }
  }

  // ---------------------------------------------------------------------
  // Translation of a vertex list

  lemma {:induction false} ColumnSumTranslated(rows: seq<seq<real>>, t: seq<real>, i: nat)
    requires Rectangular(rows, |t|) && i < |t|
    ensures ColumnSum(Translated(rows, t), |t|, i) == ColumnSum(rows, |t|, i) + Mul(|rows| as real, t[i])
    decreases |rows|
  {
    if |rows| > 0 {
      var n := |rows| - 1;
      assert Translated(rows, t)[..n] == Translated(rows[..n], t);
      ColumnSumTranslated(rows[..n], t, i);
    }
  }

  /** Shifting every vertex by `t` shifts the centroid by `t`. */
  lemma CentroidTranslated(rows: seq<seq<real>>, t: seq<real>)
    requires |rows| > 0 && Rectangular(rows, |t|)
    ensures Centroid(Translated(rows, t), |t|) == Add(Centroid(rows, |t|), t)
  {
    forall i | 0 <= i < |t|
      ensures Mean(Translated(rows, t), |t|, i) == Mean(rows, |t|, i) + t[i]
    {
      MeanTranslated(rows, t, i);
    }
  }

  lemma MeanTranslated(rows: seq<seq<real>>, t: seq<real>, i: nat)
    requires |rows| > 0 && Rectangular(rows, |t|) && i < |t|
    ensures Mean(Translated(rows, t), |t|, i) == Mean(rows, |t|, i) + t[i]
  {
    var n := |rows| as real;
    var s := ColumnSum(rows, |t|, i);
    ColumnSumTranslated(rows, t, i);
    DivShift(s, t[i], n);
  }

  /** Translation is rigid: the difference of any two vertices is unchanged. */
  lemma TranslatedKeepsDifferences(rows: seq<seq<real>>, t: seq<real>, a: nat, b: nat)
    requires Rectangular(rows, |t|) && a < |rows| && b < |rows|
    ensures Sub(Translated(rows, t)[a], Translated(rows, t)[b]) == Sub(rows[a], rows[b])
  {
  }

  /** Translating by the zero vector changes nothing. */
  lemma TranslatedByZero(rows: seq<seq<real>>, d: nat)
    requires Rectangular(rows, d)
    ensures Translated(rows, Zeros(d)) == rows
  {
    forall k | 0 <= k < |rows| ensures Translated(rows, Zeros(d))[k] == rows[k] {
      assert Add(rows[k], Zeros(d)) == rows[k];
    }
  }

  // ---------------------------------------------------------------------
  // Multiplying every vertex by a matrix

  lemma {:induction false} ColumnSumRotated(rows: seq<seq<real>>, m: seq<seq<real>>, d: nat, i: nat)
    requires Rectangular(rows, d) && Rectangular(m, d) && i < |m|
    ensures Rectangular(Rotated(rows, m, d), |m|)
    ensures ColumnSum(Rotated(rows, m, d), |m|, i) == Dot(m[i], ColumnSums(rows, d))
    decreases |rows|
  {
    var rot := Rotated(rows, m, d);
    if |rows| == 0 {
      assert ColumnSums(rows, d) == Zeros(d);
      DotZeros(m[i]);
    } else {
      var n := |rows| - 1;
      assert rot[..n] == Rotated(rows[..n], m, d);
      ColumnSumRotated(rows[..n], m, d, i);
      assert ColumnSums(rows, d) == Add(ColumnSums(rows[..n], d), rows[n]);
      DotAdd(m[i], ColumnSums(rows[..n], d), rows[n]);
    }
  }

  lemma MeanRotated(rows: seq<seq<real>>, m: seq<seq<real>>, d: nat, i: nat)
    requires |rows| > 0 && Rectangular(rows, d) && Rectangular(m, d) && i < |m|
    ensures Rectangular(Rotated(rows, m, d), |m|)
    ensures Mean(Rotated(rows, m, d), |m|, i) == Dot(m[i], Centroid(rows, d))
  {
    var n := |rows| as real;
    var sums := ColumnSums(rows, d);
    ColumnSumRotated(rows, m, d, i);
    forall k | 0 <= k < d ensures Centroid(rows, d)[k] == Scale(1.0 / n, sums)[k] {
      DivIsScale(sums[k], n);
    }
    assert Centroid(rows, d) == Scale(1.0 / n, sums);
    DotScale(m[i], 1.0 / n, sums);
    DivIsScale(Dot(m[i], sums), n);
  }

  /** The centroid of the vertices multiplied by `m` is `m` times the centroid:
      a matrix product is linear. */
  lemma CentroidRotated(rows: seq<seq<real>>, m: seq<seq<real>>, d: nat)
    requires |rows| > 0 && Rectangular(rows, d) && Rectangular(m, d)
    ensures Rectangular(Rotated(rows, m, d), |m|)
    ensures Centroid(Rotated(rows, m, d), |m|) == MatVec(m, Centroid(rows, d))
  {
    forall i | 0 <= i < |m|
      ensures Mean(Rotated(rows, m, d), |m|, i) == Dot(m[i], Centroid(rows, d))
    {
      MeanRotated(rows, m, d, i);
    }
  }
}
