/** Lines and their intersection. A line a*x + b*y + g == 0 is carried in the
grade-1 slot as g*e0 + a*e1 + b*e2. For two such lines the product `Meet`
yields, in its bivector part, the homogeneous coordinates of the point where
they cross, so projecting it with `AsPoint` solves the 2x2 linear system.
 */
module Incidence {
  import opened MultiVectors
  import opened MeetProduct

  /** The point p satisfies the equation of the line carried by L. */
  predicate OnLine(p: Point, L: MultiVector)
  {
    L.e1 * p.x + L.e2 * p.y + L.e0 == 0.0
  }

  /** The normal directions (a, b) of the two lines are proportional. */
  predicate Parallel(L: MultiVector, M: MultiVector)
  {
    L.e1 * M.e2 == L.e2 * M.e1
  }

  /** A product that is zero with a nonzero factor has a zero other factor. */
  lemma ZeroFactor(u: real, w: real)
    requires u * w == 0.0 && w != 0.0
    ensures u == 0.0
  {
  }

  /** The projected point of two lines lies on both of them. */
  lemma IntersectionOnLines(L: MultiVector, M: MultiVector, p: Point)
    requires IsVector(L) && IsVector(M)
    requires AsPoint(Meet(L, M)) == Some(p)
    ensures OnLine(p, L) && OnLine(p, M)
  {
    MeetOfVectors(L, M);
    var C := Meet(L, M);
    var w := C.e12;
    assert w != 0.0;
    assert p.x * w == C.e20 && p.y * w == C.e01;
    var g1, a1, b1, g2, a2, b2 := L.e0, L.e1, L.e2, M.e0, M.e1, M.e2;
    assert C.e01 == g1 * a2 - a1 * g2;
    assert C.e20 == b1 * g2 - g1 * b2;
    assert w == a1 * b2 - b1 * a2;
    assert (a1 * p.x + b1 * p.y + g1) * w == a1 * (p.x * w) + b1 * (p.y * w) + g1 * w;
    assert a1 * (b1 * g2 - g1 * b2) + b1 * (g1 * a2 - a1 * g2) + g1 * (a1 * b2 - b1 * a2) == 0.0;
    ZeroFactor(a1 * p.x + b1 * p.y + g1, w);
    assert (a2 * p.x + b2 * p.y + g2) * w == a2 * (p.x * w) + b2 * (p.y * w) + g2 * w;
    assert a2 * (b1 * g2 - g1 * b2) + b2 * (g1 * a2 - a1 * g2) + g2 * (a1 * b2 - b1 * a2) == 0.0;
    ZeroFactor(a2 * p.x + b2 * p.y + g2, w);
  }

  /** Any point on both lines is the projected point: non-parallel lines
      cross only once. */
  lemma IntersectionUnique(L: MultiVector, M: MultiVector, p: Point, q: Point)
    requires IsVector(L) && IsVector(M)
    requires AsPoint(Meet(L, M)) == Some(p)
    requires OnLine(q, L) && OnLine(q, M)
    ensures q == p
  {
    MeetOfVectors(L, M);
    var C := Meet(L, M);
    var w := C.e12;
    assert p.x * w == C.e20 && p.y * w == C.e01;
    var g1, a1, b1, g2, a2, b2 := L.e0, L.e1, L.e2, M.e0, M.e1, M.e2;
    assert a1 * q.x + b1 * q.y == -g1;
    assert a2 * q.x + b2 * q.y == -g2;
    assert q.x * w == (a1 * q.x + b1 * q.y) * b2 - (a2 * q.x + b2 * q.y) * b1;
    assert q.y * w == (a2 * q.x + b2 * q.y) * a1 - (a1 * q.x + b1 * q.y) * a2;
    assert q.x * w == C.e20;
    assert q.y * w == C.e01;
    ZeroFactor(q.x - p.x, w);
    ZeroFactor(q.y - p.y, w);
  }

  /** Two lines have a projected intersection exactly when they are not
      parallel; it lies on both lines, and no other point does. */
  lemma MeetOfLinesIsIntersection(L: MultiVector, M: MultiVector)
    requires IsVector(L) && IsVector(M)
    ensures AsPoint(Meet(L, M)).Some? <==> !Parallel(L, M)
    ensures AsPoint(Meet(L, M)).Some? ==>
              var p := AsPoint(Meet(L, M)).value;
              && OnLine(p, L) && OnLine(p, M)
              && forall q :: OnLine(q, L) && OnLine(q, M) ==> q == p
  {
    MeetOfVectors(L, M);
    match AsPoint(Meet(L, M))
    case None =>
    case Some(p) =>
      IntersectionOnLines(L, M, p);
      forall q | OnLine(q, L) && OnLine(q, M)
        ensures q == p
      {
        IntersectionUnique(L, M, p, q);
      }
  }
}
