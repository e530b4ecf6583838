# 2D projective geometric algebra: multivector and `meet`

This project is a Dafny model of a small 2D Projective Geometric Algebra (PGA)
engine, `PGA_2D.py`. Its core is one value type and one product:

- A **multivector** holds eight real coefficients over the basis
  `1, e0, e1, e2, e01, e20, e12, e012`. `e0` is the degenerate (ideal)
  generator. It has four grade views: scalar, vector, bivector and trivector.
  Two multivectors add coefficient by coefficient. `as_point` reads the
  bivector part `(e01, e20, e12)` as a point in homogeneous coordinates and
  returns `(e20 / e12, e01 / e12)`.
- **`meet`** is a fixed bilinear map of two multivectors, written out
  coefficient by coefficient.

Files and modules:

- `multivector.dfy`, module `MultiVectors`: the datatype, with one field per
  basis blade (`s, e0, e1, e2, e01, e20, e12, e012` are `vals[0..7]`). Also
  the coefficient array `Vals`, the grade views, construction from an array,
  `Add`, `AsPoint`, and the documented blade signature.
- `meet.dfy`, module `MeetProduct`: `Meet`, whose every output coefficient
  is a bilinear form in the coefficients of the two inputs, and its
  algebraic laws.
- `blades.dfy`, module `Blades`: an independent definition of the product.
  It starts from the generator squares (e0² = 0, e1² = e2² = 1) and the rule
  that distinct generators anticommute. A basis blade is the set of
  generators it contains. The product of two blades is their symmetric
  difference, signed by the transpositions needed to sort the generators
  and by the squares of the shared ones. `Product` sums these blade products
  bilinearly. `MeetProduct.MeetIsProduct` proves that `Meet` equals this
  `Product`. Additivity is proved once for `Product`, as a sum of terms,
  and carried over to `Meet`. Homogeneity is proved on `Meet` coefficient
  by coefficient. Each coefficient is an instance of one lemma about a
  signed sum of eight products (`HomogeneousForm`).
- `incidence.dfy`, module `Incidence`: two lines stored in the grade-1 slot
  (`g*e0 + a*e1 + b*e2` for `a*x + b*y + g = 0`). It proves that projecting
  their `meet` gives the unique point on both lines, and that the projection
  is undefined exactly when the lines are parallel.

What the code does, and the three places where the model departs from it:

- `meet`'s coefficient table is the full geometric product of the algebra
  (`MeetIsProduct`), not only a grade-lowering part of it. So the scalar
  unit is its identity (`MeetOne`). Two lines give a scalar plus a
  bivector, not a pure point (`MeetOfVectors`). The bivector part is the
  intersection point (`MeetOfLinesIsIntersection`).
- The constructor never checks the array's length (PGA_2D.py:30-35).
  Departure: `FromVals` returns `None` for every length other than 8.
- `as_point` divides by the weight with no check (PGA_2D.py:49-52).
  Departure: `AsPoint` returns `None` exactly when the weight is zero,
  where the code yields infinities or NaN. No epsilon is involved.
- The vector and bivector views are numpy slices, which share storage with
  the coefficient array (PGA_2D.py:33-34). Departure: the model's
  multivector is an immutable value and its views are copies. Nothing in
  the file mutates a multivector after construction, so no operation can
  observe the difference.

The driver multiplies the two points `(1, 2, 1)` and `(6, 3, 1)` with
`meet`. The result is `-1 - e01 + 5 e20`, whose weight is zero
(`DriverMeet`). This is true of any two pure bivectors (`MeetOfBivectors`):
the product of two points has no Cartesian projection.

## Model

| member | source | states |
|---|---|---|
| `MultiVectors.MultiVector.Vals` | PGA_2D.py:22 | the coefficient array has exactly eight entries, one per basis index 1..7 plus the scalar |
| `MultiVectors.MultiVector.Scalar` | PGA_2D.py:32 | the scalar view is entry 0 of the coefficient array |
| `MultiVectors.MultiVector.Vector` | PGA_2D.py:33 | the vector view is entries 1..3 of the coefficient array |
| `MultiVectors.MultiVector.Bivector` | PGA_2D.py:34 | the bivector view is entries 4..6 of the coefficient array |
| `MultiVectors.MultiVector.Trivector` | PGA_2D.py:35 | the trivector view is entry 7 of the coefficient array |
| `MultiVectors.GradeViewsPartition` | PGA_2D.py:31-35 | scalar, vector, bivector and trivector, concatenated in order, give back the coefficient array |
| `MultiVectors.FromVals` | PGA_2D.py:30-35 | an array gives a multivector exactly when it has eight entries, and the multivector's coefficients are that array |
| `MultiVectors.FromValsRoundTrip` | PGA_2D.py:30-31 | building from a multivector's own array gives it back; an array builds a given multivector only if it is that multivector's array |
| `MultiVectors.Add` | PGA_2D.py:37-38 | the sum's array is the entrywise sum of the arrays, and each grade view of a sum is the sum of the grade views |
| `MultiVectors.AddCommutative` | PGA_2D.py:37-38 | addition is commutative |
| `MultiVectors.AddAssociative` | PGA_2D.py:37-38 | addition is associative |
| `MultiVectors.AddZeroIdentity` | PGA_2D.py:37-38 | the all-zero multivector is a two-sided identity of addition |
| `MultiVectors.AsPoint` | PGA_2D.py:49-52 | a point exists exactly when the weight (bivector entry 2) is nonzero; then x times the weight is e20 and y times the weight is e01, so the first two bivector entries come out reversed |
| `MultiVectors.AsPointPointAt` | PGA_2D.py:49-52 | the weight-1 bivector `(y, x, 1)` projects back to `(x, y)` |
| `MultiVectors.AsPointScaleInvariant` | PGA_2D.py:49-52 | scaling a multivector by any nonzero k leaves its projection unchanged, defined or not |
| `MultiVectors.AsPointSameIffProportional` | PGA_2D.py:49-52 | two weighted bivectors project to the same point exactly when their homogeneous coordinates are proportional |
| `MultiVectors.DriverPoints` | PGA_2D.py:126-129 | the driver's bivectors `(1, 2, 1)` and `(6, 3, 1)` project to `(2, 1)` and `(3, 6)` |
| `Blades.SignatureOfBlades` | PGA_2D.py:7-8 | under the generator rules every basis blade squares to a multiple of 1, and the multiples are the documented signature +1, 0, +1, +1, 0, 0, -1, 0 |
| `MeetProduct.Meet` | PGA_2D.py:55-122 | `Meet` has no ensures of its own: its contract is `MeetIsProduct`, and its laws are the lemmas below |
| `MeetProduct.MeetIsProduct` | PGA_2D.py:55-122 | `meet` equals, for all inputs, the bilinear product built from the generator rules |
| `MeetProduct.MeetAddLeft` | PGA_2D.py:55-122 | `meet(A + A', B) = meet(A, B) + meet(A', B)` |
| `MeetProduct.MeetAddRight` | PGA_2D.py:55-122 | `meet(A, B + B') = meet(A, B) + meet(A, B')` |
| `MeetProduct.MeetScaleLeft` | PGA_2D.py:55-122 | `meet(k A, B) = k meet(A, B)` for every real k |
| `MeetProduct.MeetScaleRight` | PGA_2D.py:55-122 | `meet(A, k B) = k meet(A, B)` for every real k |
| `MeetProduct.MeetZero` | PGA_2D.py:55-122 | `meet` with the zero multivector on either side is zero |
| `MeetProduct.MeetOne` | PGA_2D.py:57-120 | the scalar unit is a two-sided identity of `meet` |
| `MeetProduct.MeetOfVectors` | PGA_2D.py:57-120 | for two pure grade-1 inputs, the vector and trivector parts are zero, the scalar is `A2*B2 + A3*B3`, and the bivector is `(A1*B2 - A2*B1, A3*B1 - A1*B3, A2*B3 - A3*B2)` |
| `MeetProduct.MeetOfProportionalVectors` | PGA_2D.py:57-120 | a grade-1 input met with a multiple of itself has a zero bivector, so no projected point |
| `MeetProduct.MeetOfBivectors` | PGA_2D.py:57-120 | for two pure bivector inputs, the result is the scalar `-A6*B6` plus the bivector `(A5*B6 - A6*B5, A6*B4 - A4*B6, 0)`, and it has no projected point |
| `MeetProduct.DriverMeet` | PGA_2D.py:126-130 | the driver's two points multiply to `-1 - e01 + 5 e20` |
| `MeetProduct.BasisSquares` | PGA_2D.py:57-120 | each basis blade met with itself gives its documented signature times the scalar unit |
| `Incidence.IntersectionOnLines` | PGA_2D.py:49-122 | the projected `meet` of two grade-1 lines satisfies both line equations |
| `Incidence.IntersectionUnique` | PGA_2D.py:49-122 | any point satisfying both line equations equals the projected `meet` |
| `Incidence.MeetOfLinesIsIntersection` | PGA_2D.py:49-122 | two lines have a projected `meet` exactly when they are not parallel; that point lies on both lines and is the only such point |

## Left out

- `__repr__` (PGA_2D.py:40-47) is display formatting only. Its blade labels do not match the basis the file documents.
- The `__main__` driver (PGA_2D.py:125-131) prints values. Its literals appear only as the concrete lemmas `DriverPoints` and `DriverMeet`.
- Floating point: coefficients are exact reals, with no float64 rounding, NaN or infinity. The driver's integer arrays are exact as reals too.
- AsPoint: where the weight is zero, the source's division yields non-finite values. The model returns `None` instead.
- FromVals: the source accepts an array of any length. A shorter one fails with an index error inside the constructor (PGA_2D.py:32-35). A longer one is kept, with extra entries that `__add__` carries along and `meet` ignores. The model rejects every length other than 8, because its value type stores exactly the eight basis coefficients.
- Aliasing of the numpy grade views (PGA_2D.py:33-34) is not modelled. The model's multivector is immutable and the views are copies, since nothing in the file mutates a multivector after construction.
- `sign_matrix` (PGA_2D.py:24) is used by no operation. Its values appear only as `Signature`, which `SignatureOfBlades` and `BasisSquares` check against the product.
- Scalar multiplication (`Scale`) and the basis blades (`Basis`) are not operations of the source. They are used only to state properties.
- A wedge (outer) product, construction-time validation and a line-intersection validator have no code in the modelled file. They are not modelled.
