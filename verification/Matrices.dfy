/** Real vectors and matrices of any size, with the algebra the filter needs.

    A matrix is the list of its rows. Almost every identity below is proved by
    looking at what a matrix does to a vector: `Adjoint` moves a transpose across
    a dot product, and `ActsTheSame` turns agreement on every vector into equality. */
module Matrices {
  import opened Reals

  type Vec = seq<real>

  datatype RawMat = RawMat(rows: nat, cols: nat, e: seq<Vec>) {
    ghost predicate Valid() {
      |e| == rows && forall i :: 0 <= i < rows ==> |e[i]| == cols
    }
  }

  type Mat = m: RawMat | m.Valid() witness RawMat(0, 0, [])

  // ---------- Vectors ----------

  function Dot(u: Vec, v: Vec): real
    requires |u| == |v|
  {
    if u == [] then 0.0 else u[0] * v[0] + Dot(u[1..], v[1..])
  }

  function AddV(u: Vec, v: Vec): (r: Vec)
    requires |u| == |v|
    ensures |r| == |u| && forall i :: 0 <= i < |u| ==> r[i] == u[i] + v[i]
  {
    seq(|u|, i requires 0 <= i < |u| => u[i] + v[i])
  }

  function ScaleV(a: real, v: Vec): (r: Vec)
    ensures |r| == |v| && forall i :: 0 <= i < |v| ==> r[i] == Prod(a, v[i])
  {
    seq(|v|, i requires 0 <= i < |v| => Prod(a, v[i]))
  }

  function SubV(u: Vec, v: Vec): (r: Vec)
    requires |u| == |v|
    ensures |r| == |u| && forall i :: 0 <= i < |u| ==> r[i] == u[i] - v[i]
  {
    seq(|u|, i requires 0 <= i < |u| => u[i] - v[i])
  }

  function ZeroV(n: nat): (r: Vec)
    ensures |r| == n
  {
    seq(n, i => 0.0)
  }

  function UnitV(n: nat, j: nat): (r: Vec)
    ensures |r| == n
  {
    seq(n, i => if i == j then 1.0 else 0.0)
  }

  lemma {:induction false} DotComm(u: Vec, v: Vec)
    requires |u| == |v|
    ensures Dot(u, v) == Dot(v, u)
  {
    if u != [] { DotComm(u[1..], v[1..]); }
  }

  lemma {:induction false} DotAdd(u: Vec, v: Vec, w: Vec)
    requires |u| == |v| == |w|
    ensures Dot(AddV(u, v), w) == Dot(u, w) + Dot(v, w)
  {
    if u != [] {
      DotAdd(u[1..], v[1..], w[1..]);
      assert AddV(u, v)[1..] == AddV(u[1..], v[1..]);
      assert AddV(u, v)[0] * w[0] == u[0] * w[0] + v[0] * w[0];
    }
  }

  lemma {:induction false} DotScale(a: real, u: Vec, w: Vec)
    requires |u| == |w|
    ensures Dot(ScaleV(a, u), w) == Prod(a, Dot(u, w))
  {
    if u != [] {
      DotScale(a, u[1..], w[1..]);
      assert ScaleV(a, u)[1..] == ScaleV(a, u[1..]);
      assert ScaleV(a, u)[0] * w[0] == a * (u[0] * w[0]);
      assert a * Dot(u, w) == a * (u[0] * w[0]) + a * Dot(u[1..], w[1..]);
    }
  }

  lemma DotAddRight(u: Vec, v: Vec, w: Vec)
    requires |u| == |v| == |w|
    ensures Dot(u, AddV(v, w)) == Dot(u, v) + Dot(u, w)
  {
    DotComm(u, AddV(v, w)); DotAdd(v, w, u); DotComm(u, v); DotComm(u, w);
  }

  lemma DotScaleRight(a: real, u: Vec, w: Vec)
    requires |u| == |w|
    ensures Dot(u, ScaleV(a, w)) == Prod(a, Dot(u, w))
  {
    DotComm(u, ScaleV(a, w)); DotScale(a, w, u); DotComm(u, w);
  }

  /** A dot product whose every term has a zero factor is zero. */
  lemma {:induction false} DotVanishes(u: Vec, v: Vec)
    requires |u| == |v|
    requires forall i :: 0 <= i < |u| ==> u[i] == 0.0 || v[i] == 0.0
    ensures Dot(u, v) == 0.0
  {
    if u != [] {
      assert u[0] * v[0] == 0.0;
      DotVanishes(u[1..], v[1..]);
    }
  }

  lemma {:induction false} DotUnit(u: Vec, j: nat)
    requires j < |u|
    ensures Dot(u, UnitV(|u|, j)) == u[j]
  {
    var e := UnitV(|u|, j);
    if j == 0 {
      DotVanishes(u[1..], e[1..]);
    } else {
      assert e[1..] == UnitV(|u| - 1, j - 1);
      DotUnit(u[1..], j - 1);
    }
  }

  lemma {:induction false} DotConcat(u: Vec, v: Vec, x: Vec, y: Vec)
    requires |u| == |x| && |v| == |y|
    ensures Dot(u + v, x + y) == Dot(u, x) + Dot(v, y)
  {
    if u == [] {
      assert u + v == v && x + y == y;
    } else {
      DotConcat(u[1..], v, x[1..], y);
      assert (u + v)[1..] == u[1..] + v && (x + y)[1..] == x[1..] + y;
    }
  }

  lemma {:induction false} DotSelf(u: Vec)
    ensures Dot(u, u) >= 0.0
  {
    if u != [] {
      DotSelf(u[1..]);
      assert u[0] * u[0] >= 0.0;
    }
  }

  // ---------- Matrices ----------

  function Col(a: Mat, j: nat): (r: Vec)
    requires j < a.cols
    ensures |r| == a.rows
  {
    seq(a.rows, i requires 0 <= i < a.rows => a.e[i][j])
  }

  function T(a: Mat): (r: Mat)
    ensures r.rows == a.cols && r.cols == a.rows
  {
    RawMat(a.cols, a.rows, seq(a.cols, j requires 0 <= j < a.cols => Col(a, j)))
  }

  function MulV(a: Mat, x: Vec): (r: Vec)
    requires |x| == a.cols
    ensures |r| == a.rows && forall i :: 0 <= i < a.rows ==> r[i] == Dot(a.e[i], x)
  {
    seq(a.rows, i requires 0 <= i < a.rows => Dot(a.e[i], x))
  }

  function Mul(a: Mat, b: Mat): (r: Mat)
    requires a.cols == b.rows
    ensures r.rows == a.rows && r.cols == b.cols
  {
    RawMat(a.rows, b.cols, seq(a.rows, i requires 0 <= i < a.rows => MulV(T(b), a.e[i])))
  }

  function Add(a: Mat, b: Mat): (r: Mat)
    requires a.rows == b.rows && a.cols == b.cols
    ensures r.rows == a.rows && r.cols == a.cols
  {
    RawMat(a.rows, a.cols, seq(a.rows, i requires 0 <= i < a.rows => AddV(a.e[i], b.e[i])))
  }

  function Scale(c: real, a: Mat): (r: Mat)
    ensures r.rows == a.rows && r.cols == a.cols
  {
    RawMat(a.rows, a.cols, seq(a.rows, i requires 0 <= i < a.rows => ScaleV(c, a.e[i])))
  }

  function Sub(a: Mat, b: Mat): (r: Mat)
    requires a.rows == b.rows && a.cols == b.cols
    ensures r.rows == a.rows && r.cols == a.cols
  {
    RawMat(a.rows, a.cols, seq(a.rows, i requires 0 <= i < a.rows => SubV(a.e[i], b.e[i])))
  }

  function Id(n: nat): (r: Mat)
    ensures r.rows == n && r.cols == n
  {
    RawMat(n, n, seq(n, i requires 0 <= i < n => UnitV(n, i)))
  }

  function Zero(r: nat, c: nat): (z: Mat)
    ensures z.rows == r && z.cols == c
  {
    RawMat(r, c, seq(r, i => ZeroV(c)))
  }

  /** A vector as a matrix with one column. */
  function Column(h: Vec): (r: Mat)
    ensures r.rows == |h| && r.cols == 1
  {
    RawMat(|h|, 1, seq(|h|, i requires 0 <= i < |h| => [h[i]]))
  }

  /** The rank-one matrix h·hᵀ. */
  function Outer(h: Vec): (r: Mat)
    ensures r.rows == |h| && r.cols == |h|
  {
    Mul(Column(h), T(Column(h)))
  }

  // ---------- What a matrix does to a vector ----------

  /** Splitting off the first row of b. */
  lemma TransposeFirstRow(b: Mat, b': Mat, u: Vec)
    requires b.rows > 0 && |u| == b.rows
    requires b'.rows == b.rows - 1 && b'.cols == b.cols && b'.e == b.e[1..]
    ensures MulV(T(b), u) == AddV(ScaleV(u[0], b.e[0]), MulV(T(b'), u[1..]))
  {
    forall j | 0 <= j < b.cols
      ensures MulV(T(b), u)[j] == Prod(u[0], b.e[0][j]) + MulV(T(b'), u[1..])[j]
    {
      assert Col(b, j)[1..] == Col(b', j);
      assert T(b).e[j] == Col(b, j) && T(b').e[j] == Col(b', j);
    }
  }

  lemma {:induction false} Adjoint(b: Mat, u: Vec, x: Vec)
    requires |u| == b.rows && |x| == b.cols
    ensures Dot(MulV(T(b), u), x) == Dot(u, MulV(b, x))
    decreases b.rows
  {
    if b.rows == 0 {
      forall j | 0 <= j < b.cols ensures MulV(T(b), u)[j] == 0.0 { }
      DotVanishes(MulV(T(b), u), x);
    } else {
      var b': Mat := RawMat(b.rows - 1, b.cols, b.e[1..]);
      var first, rest := ScaleV(u[0], b.e[0]), MulV(T(b'), u[1..]);
      TransposeFirstRow(b, b', u);
      DotAdd(first, rest, x);
      DotScale(u[0], b.e[0], x);
      Adjoint(b', u[1..], x);
      assert MulV(b, x)[1..] == MulV(b', x);
    }
  }

  lemma MulAct(a: Mat, b: Mat, x: Vec)
    requires a.cols == b.rows && |x| == b.cols
    ensures MulV(Mul(a, b), x) == MulV(a, MulV(b, x))
  {
    forall i | 0 <= i < a.rows ensures MulV(Mul(a, b), x)[i] == MulV(a, MulV(b, x))[i] {
      Adjoint(b, a.e[i], x);
    }
  }

  lemma AddAct(a: Mat, b: Mat, x: Vec)
    requires a.rows == b.rows && a.cols == b.cols == |x|
    ensures MulV(Add(a, b), x) == AddV(MulV(a, x), MulV(b, x))
  {
    forall i | 0 <= i < a.rows ensures MulV(Add(a, b), x)[i] == MulV(a, x)[i] + MulV(b, x)[i] {
      DotAdd(a.e[i], b.e[i], x);
    }
  }

  lemma ScaleAct(c: real, a: Mat, x: Vec)
    requires a.cols == |x|
    ensures MulV(Scale(c, a), x) == ScaleV(c, MulV(a, x))
  {
    forall i | 0 <= i < a.rows ensures MulV(Scale(c, a), x)[i] == Prod(c, MulV(a, x)[i]) {
      DotScale(c, a.e[i], x);
    }
  }

  lemma SubAct(a: Mat, b: Mat, x: Vec)
    requires a.rows == b.rows && a.cols == b.cols == |x|
    ensures MulV(Sub(a, b), x) == SubV(MulV(a, x), MulV(b, x))
  {
    forall i | 0 <= i < a.rows ensures MulV(Sub(a, b), x)[i] == MulV(a, x)[i] - MulV(b, x)[i] {
      assert SubV(a.e[i], b.e[i]) == AddV(a.e[i], ScaleV(-1.0, b.e[i]));
      DotAdd(a.e[i], ScaleV(-1.0, b.e[i]), x);
      DotScale(-1.0, b.e[i], x);
    }
  }

  lemma IdAct(x: Vec)
    ensures MulV(Id(|x|), x) == x
  {
    forall i | 0 <= i < |x| ensures MulV(Id(|x|), x)[i] == x[i] {
      DotComm(UnitV(|x|, i), x);
      DotUnit(x, i);
    }
  }

  lemma OuterAct(h: Vec, x: Vec)
    requires |h| == |x|
    ensures MulV(Outer(h), x) == ScaleV(Dot(h, x), h)
  {
    var c := Column(h);
    MulAct(c, T(c), x);
    assert Col(c, 0) == h;
    assert MulV(T(c), x) == [Dot(h, x)];
    ColumnAct(h, Dot(h, x));
  }

  lemma ColumnAct(h: Vec, d: real)
    ensures MulV(Column(h), [d]) == ScaleV(d, h)
  {
    forall i | 0 <= i < |h| ensures MulV(Column(h), [d])[i] == ScaleV(d, h)[i] {
      assert Dot([h[i]], [d]) == h[i] * d + Dot([h[i]][1..], [d][1..]);
    }
  }

  lemma MulVAdd(a: Mat, x: Vec, y: Vec)
    requires |x| == |y| == a.cols
    ensures MulV(a, AddV(x, y)) == AddV(MulV(a, x), MulV(a, y))
  {
    forall i | 0 <= i < a.rows ensures MulV(a, AddV(x, y))[i] == MulV(a, x)[i] + MulV(a, y)[i] {
      DotAddRight(a.e[i], x, y);
    }
  }

  lemma MulVScale(a: Mat, c: real, x: Vec)
    requires |x| == a.cols
    ensures MulV(a, ScaleV(c, x)) == ScaleV(c, MulV(a, x))
  {
    forall i | 0 <= i < a.rows ensures MulV(a, ScaleV(c, x))[i] == Prod(c, MulV(a, x)[i]) {
      DotScaleRight(c, a.e[i], x);
    }
  }

  ghost predicate SameAction(a: Mat, b: Mat)
    requires a.rows == b.rows && a.cols == b.cols
  {
    forall x: Vec :: |x| == a.cols ==> MulV(a, x) == MulV(b, x)
  }

  lemma ActsTheSame(a: Mat, b: Mat)
    requires a.rows == b.rows && a.cols == b.cols && SameAction(a, b)
    ensures a == b
  {
    forall i, j | 0 <= i < a.rows && 0 <= j < a.cols ensures a.e[i][j] == b.e[i][j] {
      var x := UnitV(a.cols, j);
      assert MulV(a, x)[i] == MulV(b, x)[i];
      DotUnit(a.e[i], j);
      DotUnit(b.e[i], j);
    }
    forall i | 0 <= i < a.rows ensures a.e[i] == b.e[i] { }
    assert a.e == b.e;
  }

  lemma MulAssoc(a: Mat, b: Mat, c: Mat)
    requires a.cols == b.rows && b.cols == c.rows
    ensures Mul(Mul(a, b), c) == Mul(a, Mul(b, c))
  {
    forall x: Vec | |x| == c.cols
      ensures MulV(Mul(Mul(a, b), c), x) == MulV(Mul(a, Mul(b, c)), x)
    {
      MulAct(Mul(a, b), c, x);
      MulAct(a, b, MulV(c, x));
      MulAct(a, Mul(b, c), x);
      MulAct(b, c, x);
    }
    ActsTheSame(Mul(Mul(a, b), c), Mul(a, Mul(b, c)));
  }

  lemma MulId(a: Mat)
    ensures Mul(a, Id(a.cols)) == a && Mul(Id(a.rows), a) == a
  {
    forall x: Vec | |x| == a.cols
      ensures MulV(Mul(a, Id(a.cols)), x) == MulV(a, x)
      ensures MulV(Mul(Id(a.rows), a), x) == MulV(a, x)
    {
      MulAct(a, Id(a.cols), x); IdAct(x);
      MulAct(Id(a.rows), a, x); IdAct(MulV(a, x));
    }
    ActsTheSame(Mul(a, Id(a.cols)), a);
    ActsTheSame(Mul(Id(a.rows), a), a);
  }

  // ---------- Transposes ----------

  lemma TransposeTwice(a: Mat)
    ensures T(T(a)) == a
  {
    forall i | 0 <= i < a.rows ensures T(T(a)).e[i] == a.e[i] { }
    assert T(T(a)).e == a.e;
  }

  lemma TransposeMul(a: Mat, b: Mat)
    requires a.cols == b.rows
    ensures T(Mul(a, b)) == Mul(T(b), T(a))
  {
    TransposeTwice(a);
    forall j | 0 <= j < b.cols ensures T(Mul(a, b)).e[j] == Mul(T(b), T(a)).e[j] {
      forall i | 0 <= i < a.rows ensures T(Mul(a, b)).e[j][i] == Mul(T(b), T(a)).e[j][i] {
        DotComm(T(b).e[j], a.e[i]);
      }
    }
    assert T(Mul(a, b)).e == Mul(T(b), T(a)).e;
  }

  lemma TransposeAdd(a: Mat, b: Mat)
    requires a.rows == b.rows && a.cols == b.cols
    ensures T(Add(a, b)) == Add(T(a), T(b))
  {
    forall j | 0 <= j < a.cols ensures T(Add(a, b)).e[j] == Add(T(a), T(b)).e[j] { }
    assert T(Add(a, b)).e == Add(T(a), T(b)).e;
  }

  lemma TransposeScale(c: real, a: Mat)
    ensures T(Scale(c, a)) == Scale(c, T(a))
  {
    forall j | 0 <= j < a.cols ensures T(Scale(c, a)).e[j] == Scale(c, T(a)).e[j] {
      forall i | 0 <= i < a.rows ensures T(Scale(c, a)).e[j][i] == Scale(c, T(a)).e[j][i] {
        assert Scale(c, a).e[i][j] == c * a.e[i][j] && T(a).e[j][i] == a.e[i][j];
      }
    }
    assert T(Scale(c, a)).e == Scale(c, T(a)).e;
  }

  // ---------- Symmetric, positive semidefinite, invertible ----------

  ghost predicate Symmetric(a: Mat) { a.rows == a.cols && T(a) == a }

  function Quad(a: Mat, x: Vec): real
    requires a.rows == a.cols == |x|
  {
    Dot(x, MulV(a, x))
  }

  ghost predicate PosSemidef(a: Mat) {
    a.rows == a.cols && forall x: Vec :: |x| == a.cols ==> Quad(a, x) >= 0.0
  }

  /** A covariance matrix of size n. */
  ghost predicate Covariance(a: Mat, n: nat) {
    a.rows == n && a.cols == n && Symmetric(a) && PosSemidef(a)
  }

  ghost predicate IsInverse(a: Mat, b: Mat) {
    && a.rows == a.cols == b.rows == b.cols
    && Mul(a, b) == Id(a.rows) && Mul(b, a) == Id(a.rows)
  }

  ghost predicate Invertible(a: Mat) { exists b: Mat :: IsInverse(a, b) }

  lemma SymmetricSwap(a: Mat, x: Vec, y: Vec)
    requires Symmetric(a) && |x| == |y| == a.cols
    ensures Dot(MulV(a, x), y) == Dot(x, MulV(a, y))
  {
    Adjoint(a, x, y);
  }

  lemma InverseUnique(a: Mat, b: Mat, c: Mat)
    requires IsInverse(a, b) && IsInverse(a, c)
    ensures b == c
  {
    MulId(b); MulId(c);
    MulAssoc(b, a, c);
  }

  lemma InverseUndoes(a: Mat, b: Mat, x: Vec)
    requires IsInverse(a, b) && |x| == a.rows
    ensures MulV(a, MulV(b, x)) == x && MulV(b, MulV(a, x)) == x
  {
    MulAct(a, b, x); MulAct(b, a, x); IdAct(x);
  }

  /** The inverse of a covariance is a covariance. */
  lemma InverseCovariance(a: Mat, b: Mat, n: nat)
    requires Covariance(a, n) && IsInverse(a, b)
    ensures Covariance(b, n)
  {
    TransposeMul(a, b); TransposeMul(b, a);
    TransposeId(n);
    InverseUnique(a, b, T(b));
    forall x: Vec | |x| == n ensures Quad(b, x) >= 0.0 {
      var y := MulV(b, x);
      InverseUndoes(a, b, x);
      assert Quad(a, y) >= 0.0;
      DotComm(x, y);
    }
  }

  lemma TransposeId(n: nat)
    ensures T(Id(n)) == Id(n)
  {
    forall i | 0 <= i < n ensures T(Id(n)).e[i] == Id(n).e[i] { }
    assert T(Id(n)).e == Id(n).e;
  }

  lemma IdCovariance(n: nat)
    ensures Covariance(Id(n), n) && IsInverse(Id(n), Id(n))
  {
    TransposeId(n);
    MulId(Id(n));
    forall x: Vec | |x| == n ensures Quad(Id(n), x) >= 0.0 { IdAct(x); DotSelf(x); }
  }

  lemma SumCovariance(a: Mat, b: Mat, n: nat)
    requires Covariance(a, n) && Covariance(b, n)
    ensures Covariance(Add(a, b), n)
  {
    TransposeAdd(a, b);
    SumPosSemidef(a, b);
  }

  lemma SumPosSemidef(a: Mat, b: Mat)
    requires PosSemidef(a) && PosSemidef(b) && a.rows == b.rows
    ensures PosSemidef(Add(a, b))
  {
    hide Dot, MulV, Add, Quad;
    var r := Add(a, b);
    forall x: Vec | |x| == r.cols ensures Quad(r, x) >= 0.0 {
      QuadAdd(a, b, x);
      assert Quad(a, x) >= 0.0 && Quad(b, x) >= 0.0;
    }
  }

  lemma QuadAdd(a: Mat, b: Mat, x: Vec)
    requires a.rows == a.cols == b.rows == b.cols == |x|
    ensures Quad(Add(a, b), x) == Quad(a, x) + Quad(b, x)
  {
    AddAct(a, b, x);
    DotAddRight(x, MulV(a, x), MulV(b, x));
  }

  lemma QuadScale(c: real, a: Mat, x: Vec)
    requires a.rows == a.cols == |x|
    ensures Quad(Scale(c, a), x) == Prod(c, Quad(a, x))
  {
    ScaleAct(c, a, x);
    DotScaleRight(c, x, MulV(a, x));
  }

  lemma ScaledCovariance(c: real, a: Mat, n: nat)
    requires Covariance(a, n) && c >= 0.0
    ensures Covariance(Scale(c, a), n)
  {
    hide Dot, MulV, T, Quad;
    assert T(Scale(c, a)) == Scale(c, a) by { TransposeScale(c, a); }
    assert PosSemidef(Scale(c, a)) by {
      forall x: Vec | |x| == n ensures Quad(Scale(c, a), x) >= 0.0 {
        assert Quad(a, x) >= 0.0;
        QuadScale(c, a, x);
      }
    }
  }

  /** Carrying a covariance through a linear map: f·p·fᵀ. */
  lemma CongruenceCovariance(f: Mat, p: Mat, n: nat, m: nat)
    requires f.rows == n && f.cols == m && Covariance(p, m)
    ensures Covariance(Mul(Mul(f, p), T(f)), n)
  {
    var r := Mul(Mul(f, p), T(f));
    TransposeMul(Mul(f, p), T(f)); TransposeMul(f, p); TransposeTwice(f);
    MulAssoc(f, p, T(f));
    forall x: Vec | |x| == n ensures Quad(r, x) >= 0.0 {
      var y := MulV(T(f), x);
      MulAct(Mul(f, p), T(f), x); MulAct(f, p, y);
      Adjoint(f, x, MulV(p, y));
      assert Quad(p, y) >= 0.0;
    }
  }

  lemma OuterCovariance(h: Vec)
    ensures Covariance(Outer(h), |h|)
  {
    IdCovariance(1);
    MulId(Column(h));
    CongruenceCovariance(Column(h), Id(1), |h|, 1);
  }
}
