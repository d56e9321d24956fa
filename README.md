# Simplex rigid bodies of the tetrahedron packing program

The packing program moves tetrahedra as rigid bodies. Each body is a `Simplex`: an
n x d array `v` of vertex coordinates and a centroid vector `c`. This project models the
two versions of that class:

- `convexPolygon.py` (module `ConvexPolygon`). This is the corrected version. Its
  constructor accumulates the centroid as the mean of the vertices. `translate` adds a
  vector to every vertex and to the centroid, in place. `cRotate` builds a d x d planar
  rotation matrix from two axis indices and rotates every vertex about the centroid.
  `to_string` writes the coordinates out.
- `simplex.py` (module `LegacySimplex`). This is the older version. Its constructor and
  `translate` are the same. Its `cRotate` computes the centroid offset but never adds it,
  so it rotates about the origin and leaves `c` stale.

Shared parts:

- `Geometry` holds the numpy arithmetic both classes use: element-wise `+` and `-`,
  `np.dot` as `Dot` and `MatVec`, the column sums and the centroid. It also proves the
  linearity facts that translation and rotation rely on.
- `Rotation` holds the index rule of the rotation matrix and the nested loop that fills
  it. It also gives an independent definition of a planar rotation (`PlaneRotation`) and
  proves that the matrix computes it, keeps lengths, and is undone by the opposite angle.
- `Format` holds the text that `to_string` builds, and the round trip that splitting that
  text at its spaces gives back the numbers' texts.

The classes keep the source's in-place form:

- `v` is an `array2<real>` and `c` is an `array<real>`, both updated element by element
  in loops.
- `Rows()` is the vertex list the array holds.
- `Valid()` is the class invariant. In `ConvexPolygon` it includes "c is the mean of the
  vertices". In `LegacySimplex` that property is a separate predicate, `CentroidIsMean()`,
  because rotation does not keep it there.
- Each method's postcondition gives the new `Rows()` and `c` as a function of the old
  ones. The lemmas about those functions state what the source promises.

All numbers are mathematical reals. `cRotate` receives its cosine and sine already
computed. The snapping of values below 1e-14 to zero in `convexPolygon.py` is modelled
exactly (`Snap`). How one number is printed is the parameter `fmt` of `ToString`.

Two points about the code:

- The code mutates the body in place, and so does the model.
- The code does not check the axis pair against the dimension. An axis index outside
  0..d-1 matches no entry, and if both are outside, the matrix is the identity
  (`Rotation.RotationMatrixOutsideRange`).

## Model

| member | source | states |
|---|---|---|
| `ConvexPolygon.Simplex.constructor` | convexPolygon.py:7-15 | the array holds exactly the given vertices, and after accumulating each coordinate divided by n, `c` is the coordinate-wise mean of the vertices (the class invariant holds) |
| `ConvexPolygon.Simplex.Translate` | convexPolygon.py:19-25 | a vector whose length differs from the vertex dimension is refused with `DimensionMismatch` and nothing changes; otherwise every vertex becomes old vertex + t, `c` becomes old c + t, and `c` is still the mean of the vertices |
| `ConvexPolygon.Simplex.CRotate` | convexPolygon.py:31-56 | `c` is not changed; every vertex x becomes R·x + (c − R·c), where R is the matrix for the plane (p0, p1) built from the snapped cosine and sine; `c` is still the mean of the new vertices |
| `ConvexPolygon.Simplex.ToString` | convexPolygon.py:59-64 | the result is every coordinate, vertex by vertex, each written with `fmt`, with single spaces between them and no trailing space; "" when there are no coordinates |
| `ConvexPolygon.Simplex.AddToRow` | convexPolygon.py:22-23 | the inner loop of `translate`: vertex k becomes old vertex k + t, coordinate by coordinate, and every other vertex is unchanged |
| `ConvexPolygon.Simplex.AddToCentroid` | convexPolygon.py:24-25 | the centroid becomes old c + t |
| `ConvexPolygon.Simplex.AppendRow` | convexPolygon.py:62-63 | the inner loop of `to_string`: the text grows by every coordinate of vertex k, each written with `fmt` and followed by one space |
| `Geometry.Accumulate` | convexPolygon.py:14-15 | the inner loop of the constructor: every centroid entry grows by the matching coordinate of the vertex divided by n |
| `ConvexPolygon.Simplex.SetRow` | convexPolygon.py:55-56 | the row write `self.v[i] = …`: vertex k becomes the given row and every other vertex is unchanged |
| `ConvexPolygon.Snap` | convexPolygon.py:34-39 | the value is kept exactly when it is 0 or has magnitude at least 1e-14, and is 0 otherwise; snapping never increases the magnitude |
| `ConvexPolygon.CentroidRotatedAbout` | convexPolygon.py:54-56 | for any d x d matrix R, rotating about the centroid (x ↦ R·x + (c − R·c)) leaves the centroid of the vertices equal to c |
| `ConvexPolygon.RotatedAboutIsRigid` | convexPolygon.py:40-56 | for a plane of two distinct in-range axes and cos² + sin² = 1, the rotation about the pivot keeps the distance between every pair of vertices |
| `ConvexPolygon.RotatedAboutAtZeroAngle` | convexPolygon.py:34-56 | at angle zero (cosine 1, sine 0, left alone by the snapping) the rotation about any pivot in any plane leaves every vertex unchanged |
| `Rotation.BuildRotationMatrix` | convexPolygon.py:40-52 | starting from the d x d zero matrix and filling it entry by entry gives exactly the index rule: cos at the diagonal entries of the plane axes, 1.0 elsewhere on the diagonal, −sin at (p0, p1), sin at (p1, p0), 0.0 elsewhere |
| `Rotation.RotationMatrixIsPlaneRotation` | convexPolygon.py:40-52 | for distinct in-range axes, multiplying by the matrix is the textbook planar rotation: coordinates p0 and p1 become cos·x0 − sin·x1 and sin·x0 + cos·x1, and every other coordinate is kept |
| `Rotation.RotationMatrixAtZeroAngle` | convexPolygon.py:40-52 | with cos = 1 and sin = 0 the matrix is the identity, whatever the plane |
| `Rotation.RotationMatrixOutsideRange` | convexPolygon.py:40-52 | when neither plane axis lies in 0..d-1 the matrix is the identity |
| `Rotation.PlaneRotationPreservesNorm` | convexPolygon.py:27 | a planar rotation with cos² + sin² = 1 keeps the length of every vector |
| `Rotation.PlaneRotationInverse` | convexPolygon.py:27 | rotating by the same cosine and the opposite sine restores every vector |
| `Rotation.RotationPreservesDistance` | convexPolygon.py:40-56 | multiplying by the matrix of a genuine planar rotation keeps the distance between any two points |
| `Geometry.CentroidTranslated` | convexPolygon.py:21-25 | shifting every vertex by t shifts the centroid by t, so adding t to `c` keeps "c is the mean of v" |
| `Geometry.TranslatedKeepsDifferences` | convexPolygon.py:21-23 | translation is rigid: the difference of any two vertices is unchanged |
| `Geometry.TranslatedByZero` | convexPolygon.py:21-23 | translating by the zero vector changes no vertex |
| `Geometry.CentroidRotated` | convexPolygon.py:56 | the centroid of the vertices multiplied by R is R times their centroid |
| `Format.DropLastSpaced` | convexPolygon.py:60-64 | removing the last character of the text where each number is followed by a space gives the numbers joined by single spaces |
| `Format.SplitJoin` | convexPolygon.py:59-64 | when no number's text contains a space, splitting the output at its spaces gives back the list of numbers' texts, in vertex-major order, for at least one number (Python splits "" to `['']`) |
| `LegacySimplex.Simplex.constructor` | simplex.py:7-13 | the array holds exactly the given vertices and `c` is their coordinate-wise mean |
| `LegacySimplex.Simplex.Translate` | simplex.py:15-21 | a vector of the wrong length is refused with `DimensionMismatch` and nothing changes; otherwise every vertex and `c` are shifted by t, and "c is the mean of v" holds afterwards if it held before |
| `LegacySimplex.Simplex.CRotate` | simplex.py:27-48 | `c` is not changed and every vertex x becomes R·x with no offset (a rotation about the origin); if c was the mean before, it is the mean afterwards exactly when R·c = c |
| `LegacySimplex.Simplex.AddToRow` | simplex.py:17-19 | the inner loop of `translate`: vertex k becomes old vertex k + t, coordinate by coordinate, and every other vertex is unchanged |
| `LegacySimplex.Simplex.AddToCentroid` | simplex.py:20-21 | the centroid becomes old c + t |
| `LegacySimplex.Simplex.SetRow` | simplex.py:47-48 | the row write `self.v[i] = …`: vertex k becomes the given row and every other vertex is unchanged |
| `LegacySimplex.RotatedKeepsCentroidIff` | simplex.py:46-48 | multiplying every vertex by R keeps their centroid exactly when R fixes the centroid |
| `LegacySimplex.RotatedAtZeroAngle` | simplex.py:30-48 | at angle zero (cos = 1, sin = 0) multiplying by the matrix changes no vertex |
| `LegacySimplex.QuarterTurnMovesCentroid` | simplex.py:46-48 | a concrete body whose vertices' centroid is moved by the rotation about the origin, so the stale `c` is no longer their mean |

The matrix construction in simplex.py:32-44 is the same code as convexPolygon.py:40-52.
Both classes use `Rotation.BuildRotationMatrix`.

The two source files are near-duplicates. Their shared members (`Row`, `Rows`, `Holds`,
`HoldsRows`, `RowIs`, `SetRow`, `AddToRow`, `AddToCentroid`) are written the same way in
both class models. The source classes differ only in the constructor's float conversion
(and integer default basis), the snapping, the `print`, the offset in `cRotate`, and
`to_string`, which only convexPolygon.py has. simplex.py also keeps a commented-out
`checkRegular`, which is not modelled.

## Left out

- The packing optimizer (`randomizedGuidedPackingV2` and `randomizedGuidedPackingV3`,
  called from main.py:26-32) is not part of this model. Its source file is not among the
  modelled files.
- main.py: argument parsing, building the output file name, and writing
  `packing_output.txt` are I/O.
- util.py `plot_tetrahedra`: plotting through plotly, a foreign library.
- Floating point: all arithmetic is exact over the reals. Rounding and numpy dtypes are
  not modelled. This includes simplex.py:8, where an integer `vertices` array would
  truncate the float additions of `translate` and `cRotate`.
- `cRotate`'s `unit` argument, the degree-to-radian conversion, and `math.cos` and
  `math.sin` are left out. The methods take the cosine and the sine of the angle as
  parameters.
- The stored basis `b` is read by no method of `Simplex`. Only the output I/O of main.py:35
  reads it, and that I/O is left out, so `b` is not a field of the model.
- Translate: aliasing between `tvec` and the vertex array is not modelled. In the source,
  `s.translate(s.v[0])` passes a view of row 0, and the loop doubles row 0 before it
  shifts the later rows. The model takes `t` as a value and adds the old row 0 everywhere.
- The `print` of the rotation matrix in simplex.py:45 is a debugging side effect.
- The rotation plane is modelled as two integers. The source reads `plane[1]` only when
  the tests ahead of it do not short-circuit. For d ≥ 2, a `plane` with fewer than two
  entries always raises `IndexError`. For d = 1, `plane = (0,)` builds `[[cos]]` normally.
  For d = 0, `plane` is never read. The model does not cover a short `plane`.
- The source uses Python 2 semantics, where `map` returns a list (main.py writes `str`
  to a file opened "wb"), and so does the model. Under Python 3, `np.array(map(...))` at
  convexPolygon.py:8-9 builds a 0-d object array, and `translate` then fails.
- Both constructors require a non-empty list of vertices that all have the same length.
  Python raises `IndexError` on an empty list. numpy does not build an n x d array from
  rows of different lengths.
- How Python's `str` writes a float is the parameter `fmt` of `ToString`.
  `Format.SplitJoin` assumes that no number's text contains a space, which `str` of a
  float never does.
- `ConvexPolygon.RotatedAboutIsRigid` requires cos² + sin² = 1. Snapping a true cosine or
  sine can break that identity by less than 1e-28. The lemma says nothing about those
  inputs.

## Findings

| source | as written | input that shows it | evidently intended | confidence | as-written member | corrected member |
|---|---|---|---|---|---|---|
| simplex.py:46-48 | `cRotate` computes the offset c − R·c but does not add it, so every vertex becomes R·v. It rotates about the origin and leaves `c` unchanged, and afterwards `c` is no longer the mean of the vertices | vertices (1, 0) and (3, 0) with c = (2, 0); cos = 0, sin = 1, plane (0, 1). The vertices become (0, 1) and (0, 3), whose mean (0, 2) differs from the stored c | rotate about the centroid, as the comment at simplex.py:23 says: each vertex becomes R·v + (c − R·c), which keeps c the mean (convexPolygon.py:54-56) | not executed | `LegacySimplex.QuarterTurnMovesCentroid` | `ConvexPolygon.Simplex.CRotate` |
