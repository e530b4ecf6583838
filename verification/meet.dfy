/** The product the engine calls `meet`: a fixed bilinear map of two
multivectors. Each output coefficient is a bilinear form in the coefficients
of the two inputs: a signed sum of products of one coefficient of each.
Coefficients are named after their blades, in basis order
s, e0, e1, e2, e01, e20, e12, e012 = indices 0..7.
 */
module MeetProduct {
  import opened MultiVectors
  import opened Blades

  /** The product itself: output coefficient k is the bilinear form below
      named after blade k. */
  function Meet(A: MultiVector, B: MultiVector): MultiVector
  {
    MultiVector(MeetS(A, B), MeetE0(A, B), MeetE1(A, B), MeetE2(A, B),
                MeetE01(A, B), MeetE20(A, B), MeetE12(A, B), MeetE012(A, B))
  }

  /** Coefficient 0 of the product, on blade 1. */
  function MeetS(A: MultiVector, B: MultiVector): real
  {
    A.s * B.s + A.e1 * B.e1 + A.e2 * B.e2 - A.e12 * B.e12
  }

  /** Coefficient 1 of the product, on blade e0. */
  function MeetE0(A: MultiVector, B: MultiVector): real
  {
    A.s * B.e0 + A.e0 * B.s - A.e1 * B.e01 + A.e2 * B.e20
    + A.e01 * B.e1 - A.e20 * B.e2 - A.e12 * B.e012 - A.e012 * B.e12
  }

  /** Coefficient 2 of the product, on blade e1. */
  function MeetE1(A: MultiVector, B: MultiVector): real
  {
    A.s * B.e1 + A.e1 * B.s - A.e2 * B.e12 + A.e12 * B.e2
  }

  /** Coefficient 3 of the product, on blade e2. */
  function MeetE2(A: MultiVector, B: MultiVector): real
  {
    A.s * B.e2 + A.e1 * B.e12 + A.e2 * B.s - A.e12 * B.e1
  }

  /** Coefficient 4 of the product, on blade e01. */
  function MeetE01(A: MultiVector, B: MultiVector): real
  {
    A.s * B.e01 + A.e0 * B.e1 - A.e1 * B.e0 + A.e2 * B.e012
    + A.e01 * B.s + A.e20 * B.e12 - A.e12 * B.e20 + A.e012 * B.e2
  }

  /** Coefficient 5 of the product, on blade e20. */
  function MeetE20(A: MultiVector, B: MultiVector): real
  {
    A.s * B.e20 - A.e0 * B.e2 + A.e1 * B.e012 + A.e2 * B.e0
    - A.e01 * B.e12 + A.e20 * B.s + A.e12 * B.e01 + A.e012 * B.e1
  }

  /** Coefficient 6 of the product, on blade e12. */
  function MeetE12(A: MultiVector, B: MultiVector): real
  {
    A.s * B.e12 + A.e1 * B.e2 - A.e2 * B.e1 + A.e12 * B.s
  }

  /** Coefficient 7 of the product, on blade e012. */
  function MeetE012(A: MultiVector, B: MultiVector): real
  {
    A.s * B.e012 + A.e0 * B.e12 + A.e1 * B.e20 + A.e2 * B.e01
    + A.e01 * B.e2 + A.e20 * B.e1 + A.e12 * B.e0 + A.e012 * B.s
  }

  /** The coefficients of `Meet` are exactly those of the product built
      from the generator signature: `meet` is the full product of the
      algebra, not only a grade-lowering part of it. */
  lemma MeetIsProduct(A: MultiVector, B: MultiVector)
    ensures Meet(A, B) == Product(A, B)
  {
    MeetRow0(A, B);
    MeetRow1(A, B);
    MeetRow2(A, B);
    MeetRow3(A, B);
    MeetRow4(A, B);
    MeetRow5(A, B);
    MeetRow6(A, B);
    MeetRow7(A, B);
  }

  // Each coefficient of the product, a sum over blade pairs, against the
  // bilinear form `Meet` uses for that coefficient.

  lemma MeetRow0(A: MultiVector, B: MultiVector)
    ensures Row(A, B, 0) == MeetS(A, B)
  {
    RowExpand(A, B, 0);
    TermIs(A, B, 0, 0, 0, 1.0);
    TermIs(A, B, 0, 1, 1, 0.0);
    TermIs(A, B, 0, 2, 2, 1.0);
    TermIs(A, B, 0, 3, 3, 1.0);
    TermIs(A, B, 0, 4, 4, 0.0);
    TermIs(A, B, 0, 5, 5, 0.0);
    TermIs(A, B, 0, 6, 6, -1.0);
    TermIs(A, B, 0, 7, 7, 0.0);
  }

  lemma MeetRow1(A: MultiVector, B: MultiVector)
    ensures Row(A, B, 1) == MeetE0(A, B)
  {
    RowExpand(A, B, 1);
    TermIs(A, B, 1, 0, 1, 1.0);
    TermIs(A, B, 1, 1, 0, 1.0);
    TermIs(A, B, 1, 2, 4, -1.0);
    TermIs(A, B, 1, 3, 5, 1.0);
    TermIs(A, B, 1, 4, 2, 1.0);
    TermIs(A, B, 1, 5, 3, -1.0);
    TermIs(A, B, 1, 6, 7, -1.0);
    TermIs(A, B, 1, 7, 6, -1.0);
  }

  lemma MeetRow2(A: MultiVector, B: MultiVector)
    ensures Row(A, B, 2) == MeetE1(A, B)
  {
    RowExpand(A, B, 2);
    TermIs(A, B, 2, 0, 2, 1.0);
    TermIs(A, B, 2, 1, 4, 0.0);
    TermIs(A, B, 2, 2, 0, 1.0);
    TermIs(A, B, 2, 3, 6, -1.0);
    TermIs(A, B, 2, 4, 1, 0.0);
    TermIs(A, B, 2, 5, 7, 0.0);
    TermIs(A, B, 2, 6, 3, 1.0);
    TermIs(A, B, 2, 7, 5, 0.0);
  }

  lemma MeetRow3(A: MultiVector, B: MultiVector)
    ensures Row(A, B, 3) == MeetE2(A, B)
  {
    RowExpand(A, B, 3);
    TermIs(A, B, 3, 0, 3, 1.0);
    TermIs(A, B, 3, 1, 5, 0.0);
    TermIs(A, B, 3, 2, 6, 1.0);
    TermIs(A, B, 3, 3, 0, 1.0);
    TermIs(A, B, 3, 4, 7, 0.0);
    TermIs(A, B, 3, 5, 1, 0.0);
    TermIs(A, B, 3, 6, 2, -1.0);
    TermIs(A, B, 3, 7, 4, 0.0);
  }

  lemma MeetRow4(A: MultiVector, B: MultiVector)
    ensures Row(A, B, 4) == MeetE01(A, B)
  {
    RowExpand(A, B, 4);
    TermIs(A, B, 4, 0, 4, 1.0);
    TermIs(A, B, 4, 1, 2, 1.0);
    TermIs(A, B, 4, 2, 1, -1.0);
    TermIs(A, B, 4, 3, 7, 1.0);
    TermIs(A, B, 4, 4, 0, 1.0);
    TermIs(A, B, 4, 5, 6, 1.0);
    TermIs(A, B, 4, 6, 5, -1.0);
    TermIs(A, B, 4, 7, 3, 1.0);
  }

  lemma MeetRow5(A: MultiVector, B: MultiVector)
    ensures Row(A, B, 5) == MeetE20(A, B)
  {
    RowExpand(A, B, 5);
    TermIs(A, B, 5, 0, 5, 1.0);
    TermIs(A, B, 5, 1, 3, -1.0);
    TermIs(A, B, 5, 2, 7, 1.0);
    TermIs(A, B, 5, 3, 1, 1.0);
    TermIs(A, B, 5, 4, 6, -1.0);
    TermIs(A, B, 5, 5, 0, 1.0);
    TermIs(A, B, 5, 6, 4, 1.0);
    TermIs(A, B, 5, 7, 2, 1.0);
  }

  lemma MeetRow6(A: MultiVector, B: MultiVector)
    ensures Row(A, B, 6) == MeetE12(A, B)
  {
    RowExpand(A, B, 6);
    TermIs(A, B, 6, 0, 6, 1.0);
    TermIs(A, B, 6, 1, 7, 0.0);
    TermIs(A, B, 6, 2, 3, 1.0);
    TermIs(A, B, 6, 3, 2, -1.0);
    TermIs(A, B, 6, 4, 5, 0.0);
    TermIs(A, B, 6, 5, 4, 0.0);
    TermIs(A, B, 6, 6, 0, 1.0);
    TermIs(A, B, 6, 7, 1, 0.0);
  }

  lemma MeetRow7(A: MultiVector, B: MultiVector)
    ensures Row(A, B, 7) == MeetE012(A, B)
  {
    RowExpand(A, B, 7);
    TermIs(A, B, 7, 0, 7, 1.0);
    TermIs(A, B, 7, 1, 6, 1.0);
    TermIs(A, B, 7, 2, 5, 1.0);
    TermIs(A, B, 7, 3, 4, 1.0);
    TermIs(A, B, 7, 4, 3, 1.0);
    TermIs(A, B, 7, 5, 2, 1.0);
    TermIs(A, B, 7, 6, 1, 1.0);
    TermIs(A, B, 7, 7, 0, 1.0);
  }

  /** Additive in the first argument. */
  lemma MeetAddLeft(A: MultiVector, A': MultiVector, B: MultiVector)
    ensures Meet(Add(A, A'), B) == Add(Meet(A, B), Meet(A', B))
  {
    MeetIsProduct(Add(A, A'), B);
    MeetIsProduct(A, B);
    MeetIsProduct(A', B);
    ProductAddLeft(A, A', B);
  }

  /** Additive in the second argument. */
  lemma MeetAddRight(A: MultiVector, B: MultiVector, B': MultiVector)
    ensures Meet(A, Add(B, B')) == Add(Meet(A, B), Meet(A, B'))
  {
    MeetIsProduct(A, Add(B, B'));
    MeetIsProduct(A, B);
    MeetIsProduct(A, B');
    ProductAddRight(A, B, B');
  }

  /** A scalar factor of the first argument moves out. */
  lemma MeetScaleLeft(k: real, A: MultiVector, B: MultiVector)
    ensures Meet(Scale(k, A), B) == Scale(k, Meet(A, B))
  {
    MeetSScaleLeft(k, A, B);
    MeetE0ScaleLeft(k, A, B);
    MeetE1ScaleLeft(k, A, B);
    MeetE2ScaleLeft(k, A, B);
    MeetE01ScaleLeft(k, A, B);
    MeetE20ScaleLeft(k, A, B);
    MeetE12ScaleLeft(k, A, B);
    MeetE012ScaleLeft(k, A, B);
    ScaleFields(k, Meet(A, B), Meet(Scale(k, A), B));
  }

  /** A scalar factor of the second argument moves out. */
  lemma MeetScaleRight(k: real, A: MultiVector, B: MultiVector)
    ensures Meet(A, Scale(k, B)) == Scale(k, Meet(A, B))
  {
    MeetSScaleRight(k, A, B);
    MeetE0ScaleRight(k, A, B);
    MeetE1ScaleRight(k, A, B);
    MeetE2ScaleRight(k, A, B);
    MeetE01ScaleRight(k, A, B);
    MeetE20ScaleRight(k, A, B);
    MeetE12ScaleRight(k, A, B);
    MeetE012ScaleRight(k, A, B);
    ScaleFields(k, Meet(A, B), Meet(A, Scale(k, B)));
  }

  // Each coefficient of the product is homogeneous in each argument: one
  // instance of `HomogeneousForm` with that coefficient's signs and factors.

  lemma MeetSScaleLeft(k: real, A: MultiVector, B: MultiVector)
    ensures Meet(Scale(k, A), B).s == k * Meet(A, B).s
  {
    HomogeneousForm(k, MeetS(A, B),
                    1.0, 1.0, 1.0, -1.0, 0.0, 0.0, 0.0, 0.0,
                    A.s, A.e1, A.e2, A.e12, 0.0, 0.0, 0.0, 0.0,
                    B.s, B.e1, B.e2, B.e12, 0.0, 0.0, 0.0, 0.0);
  }

  lemma MeetE0ScaleLeft(k: real, A: MultiVector, B: MultiVector)
    ensures Meet(Scale(k, A), B).e0 == k * Meet(A, B).e0
  {
    HomogeneousForm(k, MeetE0(A, B),
                    1.0, 1.0, -1.0, 1.0, 1.0, -1.0, -1.0, -1.0,
                    A.s, A.e0, A.e1, A.e2, A.e01, A.e20, A.e12, A.e012,
                    B.e0, B.s, B.e01, B.e20, B.e1, B.e2, B.e012, B.e12);
  }

  lemma MeetE1ScaleLeft(k: real, A: MultiVector, B: MultiVector)
    ensures Meet(Scale(k, A), B).e1 == k * Meet(A, B).e1
  {
    HomogeneousForm(k, MeetE1(A, B),
                    1.0, 1.0, -1.0, 1.0, 0.0, 0.0, 0.0, 0.0,
                    A.s, A.e1, A.e2, A.e12, 0.0, 0.0, 0.0, 0.0,
                    B.e1, B.s, B.e12, B.e2, 0.0, 0.0, 0.0, 0.0);
  }

  lemma MeetE2ScaleLeft(k: real, A: MultiVector, B: MultiVector)
    ensures Meet(Scale(k, A), B).e2 == k * Meet(A, B).e2
  {
    HomogeneousForm(k, MeetE2(A, B),
                    1.0, 1.0, 1.0, -1.0, 0.0, 0.0, 0.0, 0.0,
                    A.s, A.e1, A.e2, A.e12, 0.0, 0.0, 0.0, 0.0,
                    B.e2, B.e12, B.s, B.e1, 0.0, 0.0, 0.0, 0.0);
  }

  lemma MeetE01ScaleLeft(k: real, A: MultiVector, B: MultiVector)
    ensures Meet(Scale(k, A), B).e01 == k * Meet(A, B).e01
  {
    HomogeneousForm(k, MeetE01(A, B),
                    1.0, 1.0, -1.0, 1.0, 1.0, 1.0, -1.0, 1.0,
                    A.s, A.e0, A.e1, A.e2, A.e01, A.e20, A.e12, A.e012,
                    B.e01, B.e1, B.e0, B.e012, B.s, B.e12, B.e20, B.e2);
  }

  lemma MeetE20ScaleLeft(k: real, A: MultiVector, B: MultiVector)
    ensures Meet(Scale(k, A), B).e20 == k * Meet(A, B).e20
  {
    HomogeneousForm(k, MeetE20(A, B),
                    1.0, -1.0, 1.0, 1.0, -1.0, 1.0, 1.0, 1.0,
                    A.s, A.e0, A.e1, A.e2, A.e01, A.e20, A.e12, A.e012,
                    B.e20, B.e2, B.e012, B.e0, B.e12, B.s, B.e01, B.e1);
  }

  lemma MeetE12ScaleLeft(k: real, A: MultiVector, B: MultiVector)
    ensures Meet(Scale(k, A), B).e12 == k * Meet(A, B).e12
  {
    HomogeneousForm(k, MeetE12(A, B),
                    1.0, 1.0, -1.0, 1.0, 0.0, 0.0, 0.0, 0.0,
                    A.s, A.e1, A.e2, A.e12, 0.0, 0.0, 0.0, 0.0,
                    B.e12, B.e2, B.e1, B.s, 0.0, 0.0, 0.0, 0.0);
  }

  lemma MeetE012ScaleLeft(k: real, A: MultiVector, B: MultiVector)
    ensures Meet(Scale(k, A), B).e012 == k * Meet(A, B).e012
  {
    HomogeneousForm(k, MeetE012(A, B),
                    1.0, 1.0, 1.0, 1.0, 1.0, 1.0, 1.0, 1.0,
                    A.s, A.e0, A.e1, A.e2, A.e01, A.e20, A.e12, A.e012,
                    B.e012, B.e12, B.e20, B.e01, B.e2, B.e1, B.e0, B.s);
  }

  lemma MeetSScaleRight(k: real, A: MultiVector, B: MultiVector)
    ensures Meet(A, Scale(k, B)).s == k * Meet(A, B).s
  {
    HomogeneousForm(k, MeetS(A, B),
                    1.0, 1.0, 1.0, -1.0, 0.0, 0.0, 0.0, 0.0,
                    A.s, A.e1, A.e2, A.e12, 0.0, 0.0, 0.0, 0.0,
                    B.s, B.e1, B.e2, B.e12, 0.0, 0.0, 0.0, 0.0);
  }

  lemma MeetE0ScaleRight(k: real, A: MultiVector, B: MultiVector)
    ensures Meet(A, Scale(k, B)).e0 == k * Meet(A, B).e0
  {
    HomogeneousForm(k, MeetE0(A, B),
                    1.0, 1.0, -1.0, 1.0, 1.0, -1.0, -1.0, -1.0,
                    A.s, A.e0, A.e1, A.e2, A.e01, A.e20, A.e12, A.e012,
                    B.e0, B.s, B.e01, B.e20, B.e1, B.e2, B.e012, B.e12);
  }

  lemma MeetE1ScaleRight(k: real, A: MultiVector, B: MultiVector)
    ensures Meet(A, Scale(k, B)).e1 == k * Meet(A, B).e1
  {
    HomogeneousForm(k, MeetE1(A, B),
                    1.0, 1.0, -1.0, 1.0, 0.0, 0.0, 0.0, 0.0,
                    A.s, A.e1, A.e2, A.e12, 0.0, 0.0, 0.0, 0.0,
                    B.e1, B.s, B.e12, B.e2, 0.0, 0.0, 0.0, 0.0);
  }

  lemma MeetE2ScaleRight(k: real, A: MultiVector, B: MultiVector)
    ensures Meet(A, Scale(k, B)).e2 == k * Meet(A, B).e2
  {
    HomogeneousForm(k, MeetE2(A, B),
                    1.0, 1.0, 1.0, -1.0, 0.0, 0.0, 0.0, 0.0,
                    A.s, A.e1, A.e2, A.e12, 0.0, 0.0, 0.0, 0.0,
                    B.e2, B.e12, B.s, B.e1, 0.0, 0.0, 0.0, 0.0);
  }

  lemma MeetE01ScaleRight(k: real, A: MultiVector, B: MultiVector)
    ensures Meet(A, Scale(k, B)).e01 == k * Meet(A, B).e01
  {
    HomogeneousForm(k, MeetE01(A, B),
                    1.0, 1.0, -1.0, 1.0, 1.0, 1.0, -1.0, 1.0,
                    A.s, A.e0, A.e1, A.e2, A.e01, A.e20, A.e12, A.e012,
                    B.e01, B.e1, B.e0, B.e012, B.s, B.e12, B.e20, B.e2);
  }

  lemma MeetE20ScaleRight(k: real, A: MultiVector, B: MultiVector)
    ensures Meet(A, Scale(k, B)).e20 == k * Meet(A, B).e20
  {
    HomogeneousForm(k, MeetE20(A, B),
                    1.0, -1.0, 1.0, 1.0, -1.0, 1.0, 1.0, 1.0,
                    A.s, A.e0, A.e1, A.e2, A.e01, A.e20, A.e12, A.e012,
                    B.e20, B.e2, B.e012, B.e0, B.e12, B.s, B.e01, B.e1);
  }

  lemma MeetE12ScaleRight(k: real, A: MultiVector, B: MultiVector)
    ensures Meet(A, Scale(k, B)).e12 == k * Meet(A, B).e12
  {
    HomogeneousForm(k, MeetE12(A, B),
                    1.0, 1.0, -1.0, 1.0, 0.0, 0.0, 0.0, 0.0,
                    A.s, A.e1, A.e2, A.e12, 0.0, 0.0, 0.0, 0.0,
                    B.e12, B.e2, B.e1, B.s, 0.0, 0.0, 0.0, 0.0);
  }

  lemma MeetE012ScaleRight(k: real, A: MultiVector, B: MultiVector)
    ensures Meet(A, Scale(k, B)).e012 == k * Meet(A, B).e012
  {
    HomogeneousForm(k, MeetE012(A, B),
                    1.0, 1.0, 1.0, 1.0, 1.0, 1.0, 1.0, 1.0,
                    A.s, A.e0, A.e1, A.e2, A.e01, A.e20, A.e12, A.e012,
                    B.e012, B.e12, B.e20, B.e01, B.e2, B.e1, B.e0, B.s);
  }

  /** A signed sum of eight products, the shape of every coefficient of the
      product, is homogeneous in the left and in the right factors. A
      coefficient with four terms fills the other four with zeros. */
  lemma HomogeneousForm(k: real, s: real,
                        c0: real, c1: real, c2: real, c3: real, c4: real, c5: real, c6: real, c7: real,
                        a0: real, a1: real, a2: real, a3: real, a4: real, a5: real, a6: real, a7: real,
                        b0: real, b1: real, b2: real, b3: real, b4: real, b5: real, b6: real, b7: real)
    requires s == c0 * (a0 * b0) + c1 * (a1 * b1) + c2 * (a2 * b2) + c3 * (a3 * b3)
                 + c4 * (a4 * b4) + c5 * (a5 * b5) + c6 * (a6 * b6) + c7 * (a7 * b7)
    ensures c0 * ((k * a0) * b0) + c1 * ((k * a1) * b1) + c2 * ((k * a2) * b2) + c3 * ((k * a3) * b3)
            + c4 * ((k * a4) * b4) + c5 * ((k * a5) * b5) + c6 * ((k * a6) * b6) + c7 * ((k * a7) * b7)
            == k * s
    ensures c0 * (a0 * (k * b0)) + c1 * (a1 * (k * b1)) + c2 * (a2 * (k * b2)) + c3 * (a3 * (k * b3))
            + c4 * (a4 * (k * b4)) + c5 * (a5 * (k * b5)) + c6 * (a6 * (k * b6)) + c7 * (a7 * (k * b7))
            == k * s
  {
  }

  lemma MeetZero(A: MultiVector)
    ensures Meet(Zero, A) == Zero && Meet(A, Zero) == Zero
  {
  }

  /** The scalar unit is a two-sided identity. */
  lemma MeetOne(A: MultiVector)
    ensures Meet(One, A) == A && Meet(A, One) == A
  {
  }

  /** Two lines (pure grade-1 inputs): the result is a scalar, the dot product
      of the Euclidean parts, plus a bivector, the cross product of the
      coefficient triples; grades 1 and 3 vanish. */
  lemma MeetOfVectors(A: MultiVector, B: MultiVector)
    requires IsVector(A) && IsVector(B)
    ensures Meet(A, B).Scalar() == A.e1 * B.e1 + A.e2 * B.e2
    ensures Meet(A, B).Vector() == [0.0, 0.0, 0.0]
    ensures Meet(A, B).Bivector() == [A.e0 * B.e1 - A.e1 * B.e0,
                                      A.e2 * B.e0 - A.e0 * B.e2,
                                      A.e1 * B.e2 - A.e2 * B.e1]
    ensures Meet(A, B).Trivector() == 0.0
  {
    var C := Meet(A, B);
    assert C.e01 == A.e0 * B.e1 - A.e1 * B.e0;
    assert C.e20 == A.e2 * B.e0 - A.e0 * B.e2;
    assert C.e12 == A.e1 * B.e2 - A.e2 * B.e1;
  }

  /** A line met with a multiple of itself has a zero bivector, so in
      particular a zero weight and no Cartesian point. */
  lemma MeetOfProportionalVectors(A: MultiVector, k: real)
    requires IsVector(A)
    ensures Meet(A, Scale(k, A)).Bivector() == [0.0, 0.0, 0.0]
    ensures AsPoint(Meet(A, Scale(k, A))) == None
  {
    var B := Scale(k, A);
    MeetOfVectors(A, B);
    assert A.e0 * B.e1 == A.e1 * B.e0;
    assert A.e2 * B.e0 == A.e0 * B.e2;
    assert A.e1 * B.e2 == A.e2 * B.e1;
  }

  /** Two points (pure grade-2 inputs): the result is a scalar plus an ideal
      bivector; its weight e12, and every other coefficient, is zero. */
  lemma MeetOfBivectors(A: MultiVector, B: MultiVector)
    requires IsBivector(A) && IsBivector(B)
    ensures Meet(A, B) == MultiVector(-A.e12 * B.e12, 0.0, 0.0, 0.0,
                                      A.e20 * B.e12 - A.e12 * B.e20,
                                      A.e12 * B.e01 - A.e01 * B.e12,
                                      0.0, 0.0)
    ensures AsPoint(Meet(A, B)) == None
  {
  }

  /** The driver's two points: their product is -1 - e01 + 5 e20, whose
      weight is zero. */
  lemma DriverMeet()
    ensures Meet(MultiVector(0.0, 0.0, 0.0, 0.0, 1.0, 2.0, 1.0, 0.0),
                 MultiVector(0.0, 0.0, 0.0, 0.0, 6.0, 3.0, 1.0, 0.0))
            == MultiVector(-1.0, 0.0, 0.0, 0.0, -1.0, 5.0, 0.0, 0.0)
  {
  }

  /** Every basis blade squares, under this product, to its entry of
      `Signature` times the scalar unit. */
  lemma BasisSquares(i: nat)
    requires i < 8
    ensures Meet(Basis(i), Basis(i)) == Scale(Signature[i], One)
  {
    match i
    case 0 => BasisSquareAt(0, MultiVector(1.0, 0.0, 0.0, 0.0, 0.0, 0.0, 0.0, 0.0), 1.0);
    case 1 => BasisSquareAt(1, MultiVector(0.0, 1.0, 0.0, 0.0, 0.0, 0.0, 0.0, 0.0), 0.0);
    case 2 => BasisSquareAt(2, MultiVector(0.0, 0.0, 1.0, 0.0, 0.0, 0.0, 0.0, 0.0), 1.0);
    case 3 => BasisSquareAt(3, MultiVector(0.0, 0.0, 0.0, 1.0, 0.0, 0.0, 0.0, 0.0), 1.0);
    case 4 => BasisSquareAt(4, MultiVector(0.0, 0.0, 0.0, 0.0, 1.0, 0.0, 0.0, 0.0), 0.0);
    case 5 => BasisSquareAt(5, MultiVector(0.0, 0.0, 0.0, 0.0, 0.0, 1.0, 0.0, 0.0), 0.0);
    case 6 => BasisSquareAt(6, MultiVector(0.0, 0.0, 0.0, 0.0, 0.0, 0.0, 1.0, 0.0), -1.0);
    case 7 => BasisSquareAt(7, MultiVector(0.0, 0.0, 0.0, 0.0, 0.0, 0.0, 0.0, 1.0), 0.0);
  }

  /** One case of `BasisSquares`, given the basis blade and its signature as
      literals. */
  lemma BasisSquareAt(i: nat, b: MultiVector, c: real)
    requires i < 8 && b == Basis(i) && c == Signature[i]
    requires Meet(b, b) == MultiVector(c, 0.0, 0.0, 0.0, 0.0, 0.0, 0.0, 0.0)
    ensures Meet(Basis(i), Basis(i)) == Scale(Signature[i], One)
  {
  }
}
