/** 3x3 rotation matrices: what orthonormal rows and determinant 1 give. */
module Rotations {
  import opened Reals
  import opened Sensors

  /** v times the matrix with rows a, b, c. */
  function Combine(v: V3, a: V3, b: V3, c: V3): V3 {
    V3(v.x * a.x + v.y * b.x + v.z * c.x, v.x * a.y + v.y * b.y + v.z * c.y, v.x * a.z + v.y * b.z + v.z * c.z)
  }

  datatype Mat3 = Mat3(r0: V3, r1: V3, r2: V3) {
    function Times(v: V3): V3 { V3(r0.Dot(v), r1.Dot(v), r2.Dot(v)) }

    function LeftTimes(v: V3): V3 { Combine(v, r0, r1, r2) }

    function Mul(b: Mat3): Mat3 { Mat3(b.LeftTimes(r0), b.LeftTimes(r1), b.LeftTimes(r2)) }

    function T(): Mat3 {
      Mat3(V3(r0.x, r1.x, r2.x), V3(r0.y, r1.y, r2.y), V3(r0.z, r1.z, r2.z))
    }

    function Cofactors(): Mat3 { Mat3(r1.Cross(r2), r2.Cross(r0), r0.Cross(r1)) }

    predicate Orthonormal() {
      && r0.Norm2() == r1.Norm2() == r2.Norm2() == 1.0
      && r0.Dot(r1) == r1.Dot(r2) == r2.Dot(r0) == 0.0
    }

    function Det(): real { r0.Cross(r1).Dot(r2) }

    predicate IsRotation() { Orthonormal() && Det() == 1.0 }
  }

  const ID := Mat3(V3(1.0, 0.0, 0.0), V3(0.0, 1.0, 0.0), V3(0.0, 0.0, 1.0))

  lemma NormIs(v: V3)
    ensures v.Norm2() == Sq(v.x) + Sq(v.y) + Sq(v.z)
  {
  }

  lemma NoFirst(v: V3)
    requires v.Norm2() == 0.0
    ensures v.x == 0.0
  {
    hide V3.Norm2, Sq;
    NormIs(v);
    SquareSign(v.x);
    SquareSign(v.y);
    SquareSign(v.z);
  }

  lemma NormTurns(v: V3)
    ensures V3(v.y, v.z, v.x).Norm2() == v.Norm2() && V3(v.z, v.x, v.y).Norm2() == v.Norm2()
  {
  }

  lemma ZeroLength(v: V3)
    requires v.Norm2() == 0.0
    ensures v == V3(0.0, 0.0, 0.0)
  {
    hide V3.Norm2;
    NormTurns(v);
    NoFirst(v);
    NoFirst(V3(v.y, v.z, v.x));
    NoFirst(V3(v.z, v.x, v.y));
    assert v == V3(v.x, v.y, v.z);
  }

  lemma Lagrange(a: V3, b: V3)
    ensures a.Cross(b).Norm2() == a.Norm2() * b.Norm2() - a.Dot(b) * a.Dot(b)
  {
  }

  lemma DistanceSquared(a: V3, b: V3)
    ensures a.Minus(b).Norm2() == a.Norm2() - 2.0 * a.Dot(b) + b.Norm2()
  {
  }

  lemma NoDifference(a: V3, b: V3)
    requires a.Minus(b) == V3(0.0, 0.0, 0.0)
    ensures a == b
  {
  }

  lemma CrossIs(a: V3, b: V3, c: V3)
    requires a.Norm2() == b.Norm2() == c.Norm2() == 1.0 && a.Dot(b) == 0.0 && a.Cross(b).Dot(c) == 1.0
    ensures a.Cross(b) == c
  {
    hide V3.Cross, V3.Minus, V3.Dot, V3.Norm2;
    Lagrange(a, b);
    var d := a.Cross(b);
    assert d.Norm2() == 1.0;
    DistanceSquared(d, c);
    ZeroLength(d.Minus(c));
    NoDifference(d, c);
  }

  lemma TripleTurns(a: V3, b: V3, c: V3)
    ensures b.Cross(c).Dot(a) == a.Cross(b).Dot(c)
  {
  }

  lemma DetTurns(r: Mat3)
    ensures r.r1.Cross(r.r2).Dot(r.r0) == r.Det() && r.r2.Cross(r.r0).Dot(r.r1) == r.Det()
  {
    hide V3.Cross, V3.Dot;
    TripleTurns(r.r0, r.r1, r.r2);
    TripleTurns(r.r1, r.r2, r.r0);
  }

  /** A rotation is its own matrix of cofactors: the entries fix one another. */
  lemma CofactorsOfRotation(r: Mat3)
    requires r.IsRotation()
    ensures r.Cofactors() == r
  {
    DetTurns(r);
    CrossIs(r.r0, r.r1, r.r2);
    CrossIs(r.r1, r.r2, r.r0);
    CrossIs(r.r2, r.r0, r.r1);
  }

  lemma CrossIsOrthogonal(a: V3, b: V3)
    ensures a.Cross(b).Dot(a) == 0.0 && a.Cross(b).Dot(b) == 0.0
  {
  }

  lemma CrossIsProducts(p: V3, q: V3)
    ensures p.Cross(q) == V3(Prod(p.y, q.z) - Prod(p.z, q.y), Prod(p.z, q.x) - Prod(p.x, q.z),
                             Prod(p.x, q.y) - Prod(p.y, q.x))
  {
  }

  lemma ProdCommutes(a: real, b: real)
    ensures Prod(a, b) == Prod(b, a)
  {
  }

  lemma CrossX(a: V3, b: V3, c: V3)
    ensures V3(a.y, b.y, c.y).Cross(V3(a.z, b.z, c.z)) == V3(b.Cross(c).x, c.Cross(a).x, a.Cross(b).x)
  {
    hide V3.Cross, Prod;
    CrossIsProducts(V3(a.y, b.y, c.y), V3(a.z, b.z, c.z));
    CrossIsProducts(b, c);
    CrossIsProducts(c, a);
    CrossIsProducts(a, b);
    ProdCommutes(b.z, c.y);
    ProdCommutes(c.z, a.y);
    ProdCommutes(a.z, b.y);
  }

  lemma CrossY(a: V3, b: V3, c: V3)
    ensures V3(a.z, b.z, c.z).Cross(V3(a.x, b.x, c.x)) == V3(b.Cross(c).y, c.Cross(a).y, a.Cross(b).y)
  {
    hide V3.Cross, Prod;
    CrossIsProducts(V3(a.z, b.z, c.z), V3(a.x, b.x, c.x));
    CrossIsProducts(b, c);
    CrossIsProducts(c, a);
    CrossIsProducts(a, b);
    ProdCommutes(b.x, c.z);
    ProdCommutes(c.x, a.z);
    ProdCommutes(a.x, b.z);
  }

  lemma CrossZ(a: V3, b: V3, c: V3)
    ensures V3(a.x, b.x, c.x).Cross(V3(a.y, b.y, c.y)) == V3(b.Cross(c).z, c.Cross(a).z, a.Cross(b).z)
  {
    hide V3.Cross, Prod;
    CrossIsProducts(V3(a.x, b.x, c.x), V3(a.y, b.y, c.y));
    CrossIsProducts(b, c);
    CrossIsProducts(c, a);
    CrossIsProducts(a, b);
    ProdCommutes(b.y, c.x);
    ProdCommutes(c.y, a.x);
    ProdCommutes(a.y, b.x);
  }

  lemma CofactorsTranspose(r: Mat3)
    ensures r.T().Cofactors().T() == r.Cofactors()
  {
    hide V3.Cross;
    CrossX(r.r0, r.r1, r.r2);
    CrossY(r.r0, r.r1, r.r2);
    CrossZ(r.r0, r.r1, r.r2);
  }

  /** Columns against cofactors of columns: the determinant, and zero for unlike columns. */
  lemma Expansion(r: Mat3)
    ensures r.T().Mul(r.Cofactors()) == Mat3(V3(r.Det(), 0.0, 0.0), V3(0.0, r.Det(), 0.0), V3(0.0, 0.0, r.Det()))
  {
    var t := r.T();
    CofactorsTranspose(r);
    DetOfTranspose(r);
    hide V3.Cross, V3.Dot, Combine;
    DetTurns(t);
    RowsByRows(t, t.Cofactors());
    CrossIsOrthogonal(t.r0, t.r1);
    CrossIsOrthogonal(t.r1, t.r2);
    CrossIsOrthogonal(t.r2, t.r0);
  }

  /** The transpose of a rotation is its inverse. */
  lemma TransposeUndoes(r: Mat3)
    requires r.IsRotation()
    ensures r.T().Mul(r) == ID && r.Mul(r.T()) == ID
  {
    hide V3.Dot, V3.Cross, Combine;
    CofactorsOfRotation(r);
    Expansion(r);
    OrthonormalRows(r);
  }

  lemma DetOfTranspose(r: Mat3)
    ensures r.T().Det() == r.Det()
  {
  }

  /** And is a rotation. */
  lemma TransposeIsRotation(r: Mat3)
    requires r.IsRotation()
    ensures r.T().IsRotation()
  {
    TransposeUndoes(r);
    DetOfTranspose(r);
    var t := r.T();
    assert t.Mul(t.T()) == ID by { assert t.T() == r; }
    OrthonormalRows(t);
  }

  lemma RowByRows(v: V3, b: Mat3)
    ensures b.T().LeftTimes(v) == b.Times(v)
  {
  }

  /** A product by a transpose holds the products of rows by rows. */
  lemma RowsByRows(a: Mat3, b: Mat3)
    ensures a.Mul(b.T()) == Mat3(b.Times(a.r0), b.Times(a.r1), b.Times(a.r2))
  {
    hide V3.Dot, Combine;
    RowByRows(a.r0, b);
    RowByRows(a.r1, b);
    RowByRows(a.r2, b);
  }

  lemma OrthonormalRows(r: Mat3)
    ensures r.Orthonormal() <==> r.Mul(r.T()) == ID
  {
    hide V3.Dot, Combine;
    RowsByRows(r, r);
    DotCommutes(r.r0, r.r1);
    DotCommutes(r.r1, r.r2);
    DotCommutes(r.r2, r.r0);
  }

  lemma DotCommutes(a: V3, b: V3)
    ensures a.Dot(b) == b.Dot(a)
  {
  }

  lemma DoubleSum(v: V3, a: V3, b: V3, c: V3, w: V3)
    ensures Combine(v, a, b, c).Dot(w) == v.Dot(V3(a.Dot(w), b.Dot(w), c.Dot(w)))
  {
  }

  lemma CombineTwice(v: V3, b: Mat3, c: Mat3)
    ensures c.LeftTimes(b.LeftTimes(v)) == b.Mul(c).LeftTimes(v)
  {
    var t := c.T();
    DoubleSum(v, b.r0, b.r1, b.r2, t.r0);
    DoubleSum(v, b.r0, b.r1, b.r2, t.r1);
    DoubleSum(v, b.r0, b.r1, b.r2, t.r2);
  }

  lemma MulAssociates(a: Mat3, b: Mat3, c: Mat3)
    ensures a.Mul(b).Mul(c) == a.Mul(b.Mul(c))
  {
    hide Combine;
    CombineTwice(a.r0, b, c);
    CombineTwice(a.r1, b, c);
    CombineTwice(a.r2, b, c);
  }

  lemma TimesProduct(a: Mat3, b: Mat3, v: V3)
    ensures a.Mul(b).Times(v) == a.Times(b.Times(v))
  {
    hide V3.Dot, Combine;
    DoubleSum(a.r0, b.r0, b.r1, b.r2, v);
    DoubleSum(a.r1, b.r0, b.r1, b.r2, v);
    DoubleSum(a.r2, b.r0, b.r1, b.r2, v);
  }

  lemma MulId(a: Mat3)
    ensures a.Mul(ID) == a && ID.Mul(a) == a
  {
  }

  lemma TransposeOfProduct(a: Mat3, b: Mat3)
    ensures a.Mul(b).T() == b.T().Mul(a.T())
  {
    hide V3.Dot, Combine;
    var c := b.T();
    RowsByRows(a, c);
    RowsByRows(c, a);
    DotsCommute(a, c);
  }

  lemma DotsCommute(a: Mat3, c: Mat3)
    ensures Mat3(c.Times(a.r0), c.Times(a.r1), c.Times(a.r2)).T() == Mat3(a.Times(c.r0), a.Times(c.r1), a.Times(c.r2))
  {
  }

  /** The cross product of two combinations of rows is a combination of cofactors. */
  lemma CombineCross(v: V3, w: V3, b: Mat3)
    ensures b.LeftTimes(v).Cross(b.LeftTimes(w)) == b.Cofactors().LeftTimes(v.Cross(w))
  {
    var t := b.T();
    hide V3.Cross, V3.Dot;
    BinetCauchy(v, w, t.r1, t.r2);
    BinetCauchy(v, w, t.r2, t.r0);
    BinetCauchy(v, w, t.r0, t.r1);
    CrossX(b.r0, b.r1, b.r2);
    CrossY(b.r0, b.r1, b.r2);
    CrossZ(b.r0, b.r1, b.r2);
    RowByRows(v, t);
    RowByRows(w, t);
    RowByRows(v.Cross(w), t.Cofactors());
    CofactorsTranspose(b);
    CrossAt(t.r0.Dot(v), t.r1.Dot(v), t.r2.Dot(v), t.r0.Dot(w), t.r1.Dot(w), t.r2.Dot(w));
  }

  lemma CrossAt(px: real, py: real, pz: real, qx: real, qy: real, qz: real)
    ensures V3(px, py, pz).Cross(V3(qx, qy, qz)) == V3(py * qz - pz * qy, pz * qx - px * qz, px * qy - py * qx)
  {
  }

  lemma BinetCauchy(v: V3, w: V3, q: V3, s: V3)
    ensures q.Dot(v) * s.Dot(w) - s.Dot(v) * q.Dot(w) == q.Cross(s).Dot(v.Cross(w))
  {
  }

  /** So is the product of two rotations. */
  lemma ProductIsRotation(a: Mat3, b: Mat3)
    requires a.IsRotation() && b.IsRotation()
    ensures a.Mul(b).IsRotation()
  {
    var p := a.Mul(b);
    assert p.Mul(p.T()) == ID by {
      TransposeOfProduct(a, b);
      MulAssociates(a, b, b.T().Mul(a.T()));
      MulAssociates(b, b.T(), a.T());
      TransposeUndoes(a);
      TransposeUndoes(b);
      MulId(a.T());
    }
    OrthonormalRows(p);
    DetOfProduct(a, b);
  }

  lemma DetOfProduct(a: Mat3, b: Mat3)
    requires a.IsRotation() && b.IsRotation()
    ensures a.Mul(b).Det() == 1.0
  {
    hide V3.Dot, V3.Cross, Combine;
    CombineCross(a.r0, a.r1, b);
    CofactorsOfRotation(a);
    CofactorsOfRotation(b);
    assert a.r0.Cross(a.r1) == a.r2;
    RotatedDot(a.r2, b);
  }

  lemma RotatedDot(v: V3, b: Mat3)
    requires b.Orthonormal()
    ensures b.LeftTimes(v).Dot(b.LeftTimes(v)) == v.Norm2()
  {
  }
}
