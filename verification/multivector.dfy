/** The value type of the 2D projective geometric algebra engine.

A multivector is a real combination of the eight basis blades
  1, e0, e1, e2, e01, e20, e12, e012
kept in that order (coefficient indices 0..7). `e0` is the degenerate (ideal)
generator; `e1` and `e2` square to +1. A point is carried in the bivector
part as homogeneous coordinates (e01, e20, e12), `e12` being its weight.
 */
module MultiVectors {

  datatype Option<+T> = None | Some(value: T)

  /** The eight coefficients, one field per basis blade. */
  datatype MultiVector = MultiVector(
    s: real,      // index 0, the scalar blade 1
    e0: real,     // index 1
    e1: real,     // index 2
    e2: real,     // index 3
    e01: real,    // index 4
    e20: real,    // index 5
    e12: real,    // index 6, the weight of a point
    e012: real)   // index 7, the pseudoscalar
  {
    /** The coefficient array in basis order. */
    function Vals(): (v: seq<real>)
      ensures |v| == 8
    {
      [s, e0, e1, e2, e01, e20, e12, e012]
    }

    function Coeff(i: nat): real
      requires i < 8
    {
      Vals()[i]
    }

    /** Grade 0: the first coefficient. */
    function Scalar(): (r: real)
      ensures r == Vals()[0]
    {
      s
    }

    /** Grade 1: the coefficients of e0, e1, e2. */
    function Vector(): (v: seq<real>)
      ensures v == Vals()[1..4]
    {
      [e0, e1, e2]
    }

    /** Grade 2: the coefficients of e01, e20, e12. */
    function Bivector(): (v: seq<real>)
      ensures v == Vals()[4..7]
    {
      [e01, e20, e12]
    }

    /** Grade 3: the last coefficient. */
    function Trivector(): (r: real)
      ensures r == Vals()[7]
    {
      e012
    }
  }

  const Zero: MultiVector := MultiVector(0.0, 0.0, 0.0, 0.0, 0.0, 0.0, 0.0, 0.0)

  /** The scalar unit 1. */
  const One: MultiVector := MultiVector(1.0, 0.0, 0.0, 0.0, 0.0, 0.0, 0.0, 0.0)

  /** The squares of the basis blades, in basis order, as the source documents
      them: +1, 0, +1, +1, 0, 0, -1, 0. */
  const Signature: seq<real> := [1.0, 0.0, 1.0, 1.0, 0.0, 0.0, -1.0, 0.0]

  /** The i-th basis blade, coefficient 1 at index i. */
  function Basis(i: nat): MultiVector
    requires i < 8
  {
    match i
    case 0 => MultiVector(1.0, 0.0, 0.0, 0.0, 0.0, 0.0, 0.0, 0.0)
    case 1 => MultiVector(0.0, 1.0, 0.0, 0.0, 0.0, 0.0, 0.0, 0.0)
    case 2 => MultiVector(0.0, 0.0, 1.0, 0.0, 0.0, 0.0, 0.0, 0.0)
    case 3 => MultiVector(0.0, 0.0, 0.0, 1.0, 0.0, 0.0, 0.0, 0.0)
    case 4 => MultiVector(0.0, 0.0, 0.0, 0.0, 1.0, 0.0, 0.0, 0.0)
    case 5 => MultiVector(0.0, 0.0, 0.0, 0.0, 0.0, 1.0, 0.0, 0.0)
    case 6 => MultiVector(0.0, 0.0, 0.0, 0.0, 0.0, 0.0, 1.0, 0.0)
    case _ => MultiVector(0.0, 0.0, 0.0, 0.0, 0.0, 0.0, 0.0, 1.0)
  }

  /** Builds a multivector from a coefficient array; only an array of exactly
      eight entries describes one. */
  function FromVals(v: seq<real>): (r: Option<MultiVector>)
    ensures r.Some? <==> |v| == 8
    ensures r.Some? ==> r.value.Vals() == v
  {
    if |v| == 8 then Some(MultiVector(v[0], v[1], v[2], v[3], v[4], v[5], v[6], v[7]))
    else None
  }

  /** The coefficient array determines the multivector, and back. */
  lemma FromValsRoundTrip(m: MultiVector, v: seq<real>)
    ensures FromVals(m.Vals()) == Some(m)
    ensures FromVals(v) == Some(m) <==> v == m.Vals()
  {
  }

  /** The four grade views partition the coefficient array. */
  lemma GradeViewsPartition(m: MultiVector)
    ensures [m.Scalar()] + m.Vector() + m.Bivector() + [m.Trivector()] == m.Vals()
  {
  }

  /** Elementwise sum of two equally long real sequences. */
  function SeqAdd(u: seq<real>, v: seq<real>): seq<real>
    requires |u| == |v|
  {
    seq(|u|, i requires 0 <= i < |u| => u[i] + v[i])
  }

  /** Sum of two multivectors, coefficient by coefficient. */
  function Add(a: MultiVector, b: MultiVector): (r: MultiVector)
    ensures r.Vals() == SeqAdd(a.Vals(), b.Vals())
    ensures r.Scalar() == a.Scalar() + b.Scalar()
    ensures r.Vector() == SeqAdd(a.Vector(), b.Vector())
    ensures r.Bivector() == SeqAdd(a.Bivector(), b.Bivector())
    ensures r.Trivector() == a.Trivector() + b.Trivector()
  {
    MultiVector(a.s + b.s, a.e0 + b.e0, a.e1 + b.e1, a.e2 + b.e2,
                a.e01 + b.e01, a.e20 + b.e20, a.e12 + b.e12, a.e012 + b.e012)
  }

  lemma AddCommutative(a: MultiVector, b: MultiVector)
    ensures Add(a, b) == Add(b, a)
  {
  }

  lemma AddAssociative(a: MultiVector, b: MultiVector, c: MultiVector)
    ensures Add(Add(a, b), c) == Add(a, Add(b, c))
  {
  }

  lemma AddZeroIdentity(a: MultiVector)
    ensures Add(a, Zero) == a && Add(Zero, a) == a
  {
  }

  /** Multiplication of every coefficient by the real k. */
  function Scale(k: real, m: MultiVector): MultiVector
  {
    MultiVector(k * m.s, k * m.e0, k * m.e1, k * m.e2,
                k * m.e01, k * m.e20, k * m.e12, k * m.e012)
  }

  /** R is P + Q when every coefficient is. */
  lemma AddFields(P: MultiVector, Q: MultiVector, R: MultiVector)
    requires R.s == P.s + Q.s && R.e0 == P.e0 + Q.e0 && R.e1 == P.e1 + Q.e1 && R.e2 == P.e2 + Q.e2
    requires R.e01 == P.e01 + Q.e01 && R.e20 == P.e20 + Q.e20 && R.e12 == P.e12 + Q.e12
    requires R.e012 == P.e012 + Q.e012
    ensures R == Add(P, Q)
  {
  }

  /** Q is x times P when every coefficient is. */
  lemma ScaleFields(x: real, P: MultiVector, Q: MultiVector)
    requires Q.s == x * P.s && Q.e0 == x * P.e0 && Q.e1 == x * P.e1 && Q.e2 == x * P.e2
    requires Q.e01 == x * P.e01 && Q.e20 == x * P.e20 && Q.e12 == x * P.e12 && Q.e012 == x * P.e012
    ensures Q == Scale(x, P)
  {
  }

  /** Only the grade-1 coefficients may be nonzero (a line). */
  predicate IsVector(m: MultiVector)
  {
    m.s == 0.0 && m.e01 == 0.0 && m.e20 == 0.0 && m.e12 == 0.0 && m.e012 == 0.0
  }

  /** Only the grade-2 coefficients may be nonzero (a point). */
  predicate IsBivector(m: MultiVector)
  {
    m.s == 0.0 && m.e0 == 0.0 && m.e1 == 0.0 && m.e2 == 0.0 && m.e012 == 0.0
  }

  datatype Point = Point(x: real, y: real)

  /** Cartesian coordinates of the point held in the bivector part: the first
      two bivector entries in reverse order, divided by the weight e12. Where
      the weight is zero the source's floating-point division gives non-finite
      values; here the result is None. */
  function AsPoint(m: MultiVector): (r: Option<Point>)
    ensures r.Some? <==> m.Bivector()[2] != 0.0
    ensures r.Some? ==> r.value.x * m.e12 == m.e20 && r.value.y * m.e12 == m.e01
  {
    if m.e12 == 0.0 then None
    else Some(Point(m.e20 / m.e12, m.e01 / m.e12))
  }

  /** The pure bivector of weight 1 whose projection is p. */
  function PointAt(p: Point): (m: MultiVector)
    ensures IsBivector(m)
  {
    MultiVector(0.0, 0.0, 0.0, 0.0, p.y, p.x, 1.0, 0.0)
  }

  /** PointAt is a right inverse of AsPoint. */
  lemma AsPointPointAt(p: Point)
    ensures AsPoint(PointAt(p)) == Some(p)
  {
  }

  /** A point depends only on the ratios of its homogeneous coordinates. */
  lemma AsPointScaleInvariant(m: MultiVector, k: real)
    requires k != 0.0
    ensures AsPoint(Scale(k, m)) == AsPoint(m)
  {
    var sm := Scale(k, m);
    if m.e12 == 0.0 {
      assert sm.e12 == k * m.e12 == 0.0;
    } else {
      NonzeroProduct(k, m.e12, sm.e12);
      RatioCancel(m.e20, m.e12, k, sm.e20, sm.e12);
      RatioCancel(m.e01, m.e12, k, sm.e01, sm.e12);
    }
  }

  lemma NonzeroProduct(k: real, w: real, kw: real)
    requires k != 0.0 && w != 0.0 && kw == k * w
    ensures kw != 0.0
  {
  }

  lemma RatioCancel(a: real, w: real, k: real, ka: real, kw: real)
    requires w != 0.0 && k != 0.0 && ka == k * a && kw == k * w
    ensures ka / kw == a / w
  {
    var q := a / w;
    assert q * w == a;
    assert q * kw == ka;
  }

  lemma RatioEquality(a: real, w: real, b: real, v: real)
    requires w != 0.0 && v != 0.0
    ensures a / w == b / v <==> a * v == b * w
  {
    var p, q := a / w, b / v;
    assert p * w == a && q * v == b;
    assert a * v == p * w * v && b * w == q * v * w;
    if a * v == b * w {
      assert (p - q) * (w * v) == 0.0;
      assert w * v != 0.0;
    }
  }

  /** Two weighted bivectors project to the same point exactly when their
      homogeneous coordinates are proportional. */
  lemma AsPointSameIffProportional(m: MultiVector, n: MultiVector)
    requires m.e12 != 0.0 && n.e12 != 0.0
    ensures AsPoint(m) == AsPoint(n) <==>
              m.e20 * n.e12 == n.e20 * m.e12 && m.e01 * n.e12 == n.e01 * m.e12
  {
    RatioEquality(m.e20, m.e12, n.e20, n.e12);
    RatioEquality(m.e01, m.e12, n.e01, n.e12);
  }

  /** The two points printed by the driver. */
  lemma DriverPoints()
    ensures AsPoint(MultiVector(0.0, 0.0, 0.0, 0.0, 1.0, 2.0, 1.0, 0.0)) == Some(Point(2.0, 1.0))
    ensures AsPoint(MultiVector(0.0, 0.0, 0.0, 0.0, 6.0, 3.0, 1.0, 0.0)) == Some(Point(3.0, 6.0))
  {
  }
}
