/** An independent description of the product of basis blades, built from the
generator signature alone: e0 squares to 0, e1 and e2 square to +1, distinct
generators anticommute. A basis blade is the set of generators it contains;
the product of two blades is their symmetric difference, signed by the number
of transpositions that sort the generators and by the squares of the shared
ones. Summing the blade products bilinearly gives the full product of two
multivectors, `Product`, against which the coefficients of `Meet` are checked.
 */
module Blades {
  import opened MultiVectors

  /** A canonical blade: the generators e0, e1, e2 it contains, multiplied in
      ascending order. */
  datatype Blade = Blade(has0: bool, has1: bool, has2: bool)

  /** The signs a product of basis blades can carry: 0, +1 or -1. */
  datatype Sgn = Null | Plus | Minus

  /** Multiplication of signs. */
  function Times(s: Sgn, t: Sgn): Sgn
  {
    if s == Null || t == Null then Null else if s == t then Plus else Minus
  }

  /** The real number a sign stands for. */
  function Value(s: Sgn): real
  {
    match s
    case Null => 0.0
    case Plus => 1.0
    case Minus => -1.0
  }

  /** The square of generator g: e0 is degenerate, e1 and e2 are Euclidean. */
  function GeneratorSquare(g: nat): Sgn
    requires g < 3
  {
    if g == 0 then Null else Plus
  }

  /** The canonical blade under the basis element of index i. */
  function BladeOf(i: nat): Blade
    requires i < 8
  {
    match i
    case 0 => Blade(false, false, false)  // 1
    case 1 => Blade(true, false, false)   // e0
    case 2 => Blade(false, true, false)   // e1
    case 3 => Blade(false, false, true)   // e2
    case 4 => Blade(true, true, false)    // e01
    case 5 => Blade(true, false, true)    // e20, stored reversed
    case 6 => Blade(false, true, true)    // e12
    case _ => Blade(true, true, true)     // e012
  }

  /** The sign of basis element i against its canonical blade: only
      e20 = -e02 is reversed. */
  function Orientation(i: nat): Sgn
    requires i < 8
  {
    if i == 5 then Minus else Plus
  }

  /** The basis index of a canonical blade. */
  function IndexOf(b: Blade): (i: nat)
    ensures i < 8 && BladeOf(i) == b
  {
    match b
    case Blade(false, false, false) => 0
    case Blade(true, false, false) => 1
    case Blade(false, true, false) => 2
    case Blade(false, false, true) => 3
    case Blade(true, true, false) => 4
    case Blade(true, false, true) => 5
    case Blade(false, true, true) => 6
    case Blade(true, true, true) => 7
  }

  /** Every basis index names a distinct blade. */
  lemma IndexOfBladeOf(i: nat)
    requires i < 8
    ensures IndexOf(BladeOf(i)) == i
  {
  }

  /** The generators in exactly one of the two blades. */
  function Xor(a: Blade, b: Blade): Blade
  {
    Blade(a.has0 != b.has0, a.has1 != b.has1, a.has2 != b.has2)
  }

  /** The transpositions that bring the generators of a followed by those of
      b into ascending order: one per generator of a above a generator of b. */
  function Swaps(a: Blade, b: Blade): nat
  {
    (if a.has1 && b.has0 then 1 else 0)
    + (if a.has2 && b.has0 then 1 else 0)
    + (if a.has2 && b.has1 then 1 else 0)
  }

  /** The product of the squares of the generators both blades contain. */
  function Contraction(a: Blade, b: Blade): Sgn
  {
    Times(Times(if a.has0 && b.has0 then GeneratorSquare(0) else Plus,
                if a.has1 && b.has1 then GeneratorSquare(1) else Plus),
          if a.has2 && b.has2 then GeneratorSquare(2) else Plus)
  }

  /** The index of the basis blade that basis(i) * basis(j) is a multiple of. */
  function Target(i: nat, j: nat): nat
    requires i < 8 && j < 8
  {
    IndexOf(Xor(BladeOf(i), BladeOf(j)))
  }

  /** The factor c with basis(i) * basis(j) == c * basis(Target(i, j)). */
  function Sign(i: nat, j: nat): real
    requires i < 8 && j < 8
  {
    var a, b := BladeOf(i), BladeOf(j);
    var orient := Times(Times(Orientation(i), Orientation(j)), Orientation(Target(i, j)));
    var parity := if Swaps(a, b) % 2 == 0 then Plus else Minus;
    Value(Times(Times(orient, parity), Contraction(a, b)))
  }

  /** Each basis blade squares to a multiple of the scalar unit, and the
      multiple is the documented signature. */
  lemma SignatureOfBlades(i: nat)
    requires i < 8
    ensures Target(i, i) == 0 && Sign(i, i) == Signature[i]
  {
  }

  /** The one index j whose product with basis(i) lands on basis(k). */
  function Partner(i: nat, k: nat): nat
    requires i < 8 && k < 8
  {
    IndexOf(Xor(BladeOf(i), BladeOf(k)))
  }

  /** For each i, basis(i) * basis(j) lands on basis(k) for exactly one j,
      so a sum over Partner covers every pair of blades exactly once. */
  lemma PartnerUnique(i: nat, j: nat, k: nat)
    requires i < 8 && j < 8 && k < 8
    ensures Target(i, j) == k <==> j == Partner(i, k)
  {
    var a, b, c := BladeOf(i), BladeOf(j), BladeOf(k);
    IndexOfBladeOf(j);
    IndexOfBladeOf(k);
    assert Xor(a, Xor(a, b)) == b;
    assert Xor(a, Xor(a, c)) == c;
  }

  /** The contribution of blade i of A, with its partner blade of B, to
      coefficient k of the product. */
  function Term(A: MultiVector, B: MultiVector, k: nat, i: nat): real
    requires k < 8 && i < 8
  {
    var j := Partner(i, k);
    Sign(i, j) * A.Coeff(i) * B.Coeff(j)
  }

  /** A term whose partner index and sign are known. */
  lemma TermIs(A: MultiVector, B: MultiVector, k: nat, i: nat, j: nat, c: real)
    requires k < 8 && i < 8 && j < 8
    requires Partner(i, k) == j && Sign(i, j) == c
    ensures Term(A, B, k, i) == c * A.Coeff(i) * B.Coeff(j)
  {
  }

  /** The contributions to coefficient k, one per blade of A. */
  function Terms(A: MultiVector, B: MultiVector, k: nat): seq<real>
    requires k < 8
  {
    seq(8, i requires 0 <= i < 8 => Term(A, B, k, i))
  }

  /** The sum of the first n entries of t. */
  function Sum(t: seq<real>, n: nat): real
    requires n <= |t|
  {
    if n == 0 then 0.0 else Sum(t, n - 1) + t[n - 1]
  }

  /** Coefficient k of the product: the sum of its contributions. */
  function Row(A: MultiVector, B: MultiVector, k: nat): real
    requires k < 8
  {
    Sum(Terms(A, B, k), 8)
  }

  /** The full product, one bilinear sum per output coefficient. */
  function Product(A: MultiVector, B: MultiVector): MultiVector
  {
    MultiVector(Row(A, B, 0), Row(A, B, 1), Row(A, B, 2), Row(A, B, 3),
                Row(A, B, 4), Row(A, B, 5), Row(A, B, 6), Row(A, B, 7))
  }

  /** A complete row, written out. */
  lemma RowExpand(A: MultiVector, B: MultiVector, k: nat)
    requires k < 8
    ensures Row(A, B, k) ==
              Term(A, B, k, 0) + Term(A, B, k, 1) + Term(A, B, k, 2) + Term(A, B, k, 3)
              + Term(A, B, k, 4) + Term(A, B, k, 5) + Term(A, B, k, 6) + Term(A, B, k, 7)
  {
    var t := Terms(A, B, k);
    assert Sum(t, 1) == t[0];
    assert Sum(t, 2) == Sum(t, 1) + t[1];
    assert Sum(t, 3) == Sum(t, 2) + t[2];
    assert Sum(t, 4) == Sum(t, 3) + t[3];
    assert Sum(t, 5) == Sum(t, 4) + t[4];
    assert Sum(t, 6) == Sum(t, 5) + t[5];
    assert Sum(t, 7) == Sum(t, 6) + t[6];
    assert Sum(t, 8) == Sum(t, 7) + t[7];
  }

  // Additivity. Each output coefficient of Product is a sum of terms
  // Sign * A_i * B_j, so it distributes over a sum in either factor; the
  // proofs go term by term, then row by row.

  lemma MulAddDistributes(a: real, b: real, d: real)
    ensures (a + b) * d == a * d + b * d
    ensures d * (a + b) == d * a + d * b
  {
  }

  lemma CoeffAdd(A: MultiVector, A': MultiVector, i: nat)
    requires i < 8
    ensures Add(A, A').Coeff(i) == A.Coeff(i) + A'.Coeff(i)
  {
  }

  /** The definition of a term, as a fact to call on. */
  lemma TermUnfold(A: MultiVector, B: MultiVector, k: nat, i: nat)
    requires k < 8 && i < 8
    ensures Term(A, B, k, i) == Sign(i, Partner(i, k)) * A.Coeff(i) * B.Coeff(Partner(i, k))
  {
  }

  /** Real arithmetic behind TermSplit. */
  lemma SplitReal(c: real, x: real, y: real, a: real, b: real, a': real, b': real)
    requires x * y == a * b + a' * b'
    ensures c * x * y == c * a * b + c * a' * b'
  {
    assert c * x * y == c * (x * y);
    assert c * a * b + c * a' * b' == c * (a * b + a' * b');
  }

  /** A term whose coefficient product is the sum of two others' is the sum
      of those terms. */
  lemma TermSplit(A: MultiVector, A': MultiVector, A'': MultiVector,
                  B: MultiVector, B': MultiVector, B'': MultiVector, k: nat, i: nat)
    requires k < 8 && i < 8
    requires A''.Coeff(i) * B''.Coeff(Partner(i, k))
             == A.Coeff(i) * B.Coeff(Partner(i, k)) + A'.Coeff(i) * B'.Coeff(Partner(i, k))
    ensures Term(A'', B'', k, i) == Term(A, B, k, i) + Term(A', B', k, i)
  {
    var j := Partner(i, k);
    TermUnfold(A'', B'', k, i);
    TermUnfold(A, B, k, i);
    TermUnfold(A', B', k, i);
    SplitReal(Sign(i, j), A''.Coeff(i), B''.Coeff(j), A.Coeff(i), B.Coeff(j), A'.Coeff(i), B'.Coeff(j));
  }

  lemma TermAddLeft(A: MultiVector, A': MultiVector, B: MultiVector, k: nat, i: nat)
    requires k < 8 && i < 8
    ensures Term(Add(A, A'), B, k, i) == Term(A, B, k, i) + Term(A', B, k, i)
  {
    var j := Partner(i, k);
    CoeffAdd(A, A', i);
    MulAddDistributes(A.Coeff(i), A'.Coeff(i), B.Coeff(j));
    TermSplit(A, A', Add(A, A'), B, B, B, k, i);
  }

  lemma TermAddRight(A: MultiVector, B: MultiVector, B': MultiVector, k: nat, i: nat)
    requires k < 8 && i < 8
    ensures Term(A, Add(B, B'), k, i) == Term(A, B, k, i) + Term(A, B', k, i)
  {
    var j := Partner(i, k);
    CoeffAdd(B, B', j);
    MulAddDistributes(B.Coeff(j), B'.Coeff(j), A.Coeff(i));
    TermSplit(A, A, A, B, B', Add(B, B'), k, i);
  }

  /** Sums of entrywise sums are sums of sums. */
  lemma {:induction false} SumAdd(s: seq<real>, t: seq<real>, u: seq<real>, n: nat)
    requires |s| == |t| == |u| && n <= |u|
    requires forall i :: 0 <= i < |u| ==> u[i] == s[i] + t[i]
    ensures Sum(u, n) == Sum(s, n) + Sum(t, n)
  {
    if n > 0 {
      SumAdd(s, t, u, n - 1);
    }
  }

  lemma RowAddLeft(A: MultiVector, A': MultiVector, B: MultiVector, k: nat)
    requires k < 8
    ensures Row(Add(A, A'), B, k) == Row(A, B, k) + Row(A', B, k)
  {
    forall i | 0 <= i < 8 {
      TermAddLeft(A, A', B, k, i);
    }
    SumAdd(Terms(A, B, k), Terms(A', B, k), Terms(Add(A, A'), B, k), 8);
  }

  lemma RowAddRight(A: MultiVector, B: MultiVector, B': MultiVector, k: nat)
    requires k < 8
    ensures Row(A, Add(B, B'), k) == Row(A, B, k) + Row(A, B', k)
  {
    forall i | 0 <= i < 8 {
      TermAddRight(A, B, B', k, i);
    }
    SumAdd(Terms(A, B, k), Terms(A, B', k), Terms(A, Add(B, B'), k), 8);
  }

  /** The product distributes over a sum in its first factor. */
  lemma ProductAddLeft(A: MultiVector, A': MultiVector, B: MultiVector)
    ensures Product(Add(A, A'), B) == Add(Product(A, B), Product(A', B))
  {
    RowAddLeft(A, A', B, 0);
    RowAddLeft(A, A', B, 1);
    RowAddLeft(A, A', B, 2);
    RowAddLeft(A, A', B, 3);
    RowAddLeft(A, A', B, 4);
    RowAddLeft(A, A', B, 5);
    RowAddLeft(A, A', B, 6);
    RowAddLeft(A, A', B, 7);
    AddFields(Product(A, B), Product(A', B), Product(Add(A, A'), B));
  }

  /** The product distributes over a sum in its second factor. */
  lemma ProductAddRight(A: MultiVector, B: MultiVector, B': MultiVector)
    ensures Product(A, Add(B, B')) == Add(Product(A, B), Product(A, B'))
  {
    RowAddRight(A, B, B', 0);
    RowAddRight(A, B, B', 1);
    RowAddRight(A, B, B', 2);
    RowAddRight(A, B, B', 3);
    RowAddRight(A, B, B', 4);
    RowAddRight(A, B, B', 5);
    RowAddRight(A, B, B', 6);
    RowAddRight(A, B, B', 7);
    AddFields(Product(A, B), Product(A, B'), Product(A, Add(B, B')));
  }
}
