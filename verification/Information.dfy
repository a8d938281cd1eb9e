/** Why the filter's matrix inverses always exist.

    Adding w·h·hᵀ with w >= 0 to an invertible covariance leaves an invertible covariance,
    and its inverse only gets smaller. Summing over the rows of a measurement (or over the
    columns of a noise input) gives the same for any number of rows. */
module Information {
  import opened Reals
  import opened Matrices

  /** Σ ws[k]·row_k·row_kᵀ over the rows of m. */
  function WeightedGram(ws: Vec, m: Mat): (r: Mat)
    requires |ws| == m.rows
    ensures r.rows == m.cols && r.cols == m.cols
    decreases m.rows
  {
    if m.rows == 0 then Zero(m.cols, m.cols)
    else Add(Scale(ws[0], Outer(m.e[0])), WeightedGram(ws[1..], DropRow(m)))
  }

  function DropRow(m: Mat): (r: Mat)
    requires m.rows > 0
    ensures r.rows == m.rows - 1 && r.cols == m.cols && r.e == m.e[1..]
  {
    RawMat(m.rows - 1, m.cols, m.e[1..])
  }

  function Times(ws: Vec, v: Vec): (r: Vec)
    requires |ws| == |v|
    ensures |r| == |v| && forall i :: 0 <= i < |v| ==> r[i] == Prod(ws[i], v[i])
  {
    seq(|v|, i requires 0 <= i < |v| => Prod(ws[i], v[i]))
  }

  /** The sum acts as mᵀ·diag(ws)·m. */
  lemma {:induction false} WeightedGramAct(ws: Vec, m: Mat, x: Vec)
    requires |ws| == m.rows && |x| == m.cols
    ensures MulV(WeightedGram(ws, m), x) == MulV(T(m), Times(ws, MulV(m, x)))
    decreases m.rows
  {
    var y := Times(ws, MulV(m, x));
    if m.rows == 0 {
      forall i | 0 <= i < m.cols ensures MulV(WeightedGram(ws, m), x)[i] == MulV(T(m), y)[i] {
        DotVanishes(ZeroV(m.cols), x);
      }
    } else {
      var m', ws', h := DropRow(m), ws[1..], m.e[0];
      WeightedGramAct(ws', m', x);
      FirstRowTimes(ws, m, x);
      TransposeFirstRow(m, m', y);
      AddAct(Scale(ws[0], Outer(h)), WeightedGram(ws', m'), x);
      ScaleAct(ws[0], Outer(h), x);
      OuterAct(h, x);
      ScaleScale(ws[0], Dot(h, x), h);
    }
  }

  lemma FirstRowTimes(ws: Vec, m: Mat, x: Vec)
    requires |ws| == m.rows > 0 && |x| == m.cols
    ensures Times(ws, MulV(m, x))[0] == Prod(ws[0], Dot(m.e[0], x))
    ensures Times(ws, MulV(m, x))[1..] == Times(ws[1..], MulV(DropRow(m), x))
  {
  }

  lemma ScaleScale(a: real, b: real, v: Vec)
    ensures ScaleV(a, ScaleV(b, v)) == ScaleV(Prod(a, b), v)
  {
    forall i | 0 <= i < |v| ensures ScaleV(a, ScaleV(b, v))[i] == ScaleV(Prod(a, b), v)[i] {
      assert a * (b * v[i]) == (a * b) * v[i];
    }
  }

  lemma AddAssoc(a: Mat, b: Mat, c: Mat)
    requires a.rows == b.rows == c.rows && a.cols == b.cols == c.cols
    ensures Add(Add(a, b), c) == Add(a, Add(b, c))
  {
    forall i | 0 <= i < a.rows ensures Add(Add(a, b), c).e[i] == Add(a, Add(b, c)).e[i] {
      assert AddV(AddV(a.e[i], b.e[i]), c.e[i]) == AddV(a.e[i], AddV(b.e[i], c.e[i]));
    }
    assert Add(Add(a, b), c).e == Add(a, Add(b, c)).e;
  }

  lemma AddZero(a: Mat)
    ensures Add(a, Zero(a.rows, a.cols)) == a
  {
    forall i | 0 <= i < a.rows ensures Add(a, Zero(a.rows, a.cols)).e[i] == a.e[i] { }
    assert Add(a, Zero(a.rows, a.cols)).e == a.e;
  }

  // ---------- One row ----------

  /** b is never larger than a in any direction. */
  ghost predicate NoLarger(b: Mat, a: Mat)
    requires a.rows == a.cols == b.rows == b.cols
  {
    forall x: Vec :: |x| == a.cols ==> Quad(b, x) <= Quad(a, x)
  }

  function RankOne(a: Mat, w: real, h: Vec): (r: Mat)
    requires a.rows == a.cols == |h|
    ensures r.rows == a.rows && r.cols == a.cols
  {
    Add(a, Scale(w, Outer(h)))
  }

  /** 1 + w·hᵀbh, what the inverse after adding w·h·hᵀ is divided by. */
  function Denominator(b: Mat, w: real, h: Vec): real
    requires b.rows == b.cols == |h|
  {
    1.0 + Prod(w, Quad(b, h))
  }

  function Shrink(b: Mat, w: real, h: Vec): real
    requires b.rows == b.cols == |h| && Denominator(b, w, h) != 0.0
  {
    w / Denominator(b, w, h)
  }

  /** The inverse of RankOne(a, w, h), given the inverse b of a. */
  function RankOneInverse(b: Mat, w: real, h: Vec): (r: Mat)
    requires b.rows == b.cols == |h| && Denominator(b, w, h) != 0.0
    ensures r.rows == b.rows && r.cols == b.cols
  {
    RankOne(b, -Shrink(b, w, h), MulV(b, h))
  }

  lemma RankOneAct(a: Mat, w: real, h: Vec, x: Vec)
    requires a.rows == a.cols == |h| == |x|
    ensures MulV(RankOne(a, w, h), x) == AddV(MulV(a, x), ScaleV(Prod(w, Dot(h, x)), h))
  {
    AddAct(a, Scale(w, Outer(h)), x);
    ScaleAct(w, Outer(h), x);
    OuterAct(h, x);
    ScaleScale(w, Dot(h, x), h);
  }

  lemma Cancel(w: real, q: real, s: real, d: real)
    requires 1.0 + w * q != 0.0 && s == w / (1.0 + w * q)
    ensures -s * d + w * (d + (-s * d) * q) == 0.0
  {
  }

  /** With u = b·h and y = b·x + c·u: a·y = x + c·h and h·y = h·bx + c·hᵀbh. */
  lemma SolveShifted(a: Mat, b: Mat, c: real, h: Vec, x: Vec)
    requires a.rows == |h| == |x| && IsInverse(a, b)
    ensures var y := AddV(MulV(b, x), ScaleV(c, MulV(b, h)));
            && MulV(a, y) == AddV(x, ScaleV(c, h))
            && Dot(h, y) == Dot(h, MulV(b, x)) + Prod(c, Quad(b, h))
  {
    hide Dot, MulV, ScaleV, AddV, Mul, Prod, T, Id;
    var u, bx := MulV(b, h), MulV(b, x);
    MulVAdd(a, bx, ScaleV(c, u));
    MulVScale(a, c, u);
    InverseUndoes(a, b, x);
    InverseUndoes(a, b, h);
    DotAddRight(h, bx, ScaleV(c, u));
    DotScaleRight(c, h, u);
  }

  lemma RankOneInverseRight(a: Mat, b: Mat, w: real, h: Vec, x: Vec)
    requires a.rows == |h| == |x| && IsInverse(a, b) && Symmetric(b)
    requires Denominator(b, w, h) != 0.0
    ensures MulV(RankOne(a, w, h), MulV(RankOneInverse(b, w, h), x)) == x
  {
    hide Dot, MulV, ScaleV, AddV, RankOne, Mul, T, Id;
    var s, q, d := Shrink(b, w, h), Quad(b, h), Dot(h, MulV(b, x));
    var y := MulV(RankOneInverse(b, w, h), x);
    RankOneAct(b, -s, MulV(b, h), x);
    SymmetricSwap(b, h, x);
    SolveShifted(a, b, Prod(-s, d), h, x);
    RankOneAct(a, w, h, y);
    Cancel(w, q, s, d);
    RankOneResult(x, h, Prod(-s, d), Prod(w, Dot(h, y)));
  }

  lemma RankOneResult(x: Vec, h: Vec, c: real, c': real)
    requires |x| == |h| && c + c' == 0.0
    ensures AddV(AddV(x, ScaleV(c, h)), ScaleV(c', h)) == x
  {
    forall i | 0 <= i < |x| ensures AddV(AddV(x, ScaleV(c, h)), ScaleV(c', h))[i] == x[i] {
      assert c * h[i] + c' * h[i] == (c + c') * h[i];
    }
  }

  lemma RankOneQuad(b: Mat, s: real, u: Vec, x: Vec)
    requires b.rows == b.cols == |u| == |x| && s >= 0.0
    ensures Quad(RankOne(b, -s, u), x) <= Quad(b, x)
  {
    hide Dot, MulV, AddV, ScaleV, RankOne, Prod;
    var d := Dot(u, x);
    var c := Prod(-s, d);
    RankOneAct(b, -s, u, x);
    DotAddRight(x, MulV(b, x), ScaleV(c, u));
    DotScaleRight(c, x, u);
    DotComm(x, u);
    ScaledSquare(s, d);
  }

  lemma ScaledSquare(s: real, d: real)
    requires s >= 0.0
    ensures Prod(Prod(-s, d), d) <= 0.0
  {
    assert d * d >= 0.0;
    assert Prod(Prod(-s, d), d) == -(s * (d * d));
  }

  lemma RankOneIsInverse(a: Mat, b: Mat, w: real, h: Vec, n: nat)
    requires Covariance(a, n) && Covariance(b, n) && IsInverse(a, b) && |h| == n
    requires Denominator(b, w, h) != 0.0
    ensures IsInverse(RankOne(a, w, h), RankOneInverse(b, w, h))
  {
    hide Dot, MulV, RankOne, Mul, T, Id, Quad;
    var a', b' := RankOne(a, w, h), RankOneInverse(b, w, h);
    RankOneRightInverse(a, b, w, h, n);
    RankOneSymmetric(a, w, h);
    RankOneSymmetric(b, -Shrink(b, w, h), MulV(b, h));
    TransposeMul(a', b');
    TransposeId(n);
  }

  lemma RankOneRightInverse(a: Mat, b: Mat, w: real, h: Vec, n: nat)
    requires a.rows == n == |h| && Symmetric(b) && IsInverse(a, b)
    requires Denominator(b, w, h) != 0.0
    ensures Mul(RankOne(a, w, h), RankOneInverse(b, w, h)) == Id(n)
  {
    var a', b' := RankOne(a, w, h), RankOneInverse(b, w, h);
    forall x: Vec | |x| == n ensures MulV(Mul(a', b'), x) == MulV(Id(n), x) {
      MulAct(a', b', x); IdAct(x);
      RankOneInverseRight(a, b, w, h, x);
    }
    ActsTheSame(Mul(a', b'), Id(n));
  }

  lemma RankOneSymmetric(a: Mat, w: real, h: Vec)
    requires Symmetric(a) && a.rows == |h|
    ensures Symmetric(RankOne(a, w, h))
  {
    OuterCovariance(h);
    TransposeScale(w, Outer(h));
    TransposeAdd(a, Scale(w, Outer(h)));
  }

  lemma RankOneUpdate(a: Mat, b: Mat, w: real, h: Vec, n: nat) returns (b': Mat)
    requires Covariance(a, n) && IsInverse(a, b) && w >= 0.0 && |h| == n
    ensures Covariance(RankOne(a, w, h), n) && IsInverse(RankOne(a, w, h), b')
    ensures Covariance(b', n) && NoLarger(b', b)
  {
    hide Dot, MulV, Mul, T, Id, Outer, Scale, Add, Quad, Denominator, Shrink;
    InverseCovariance(a, b, n);
    ShrinkNonneg(b, w, h);
    b' := RankOneInverse(b, w, h);
    OuterCovariance(h);
    ScaledCovariance(w, Outer(h), n);
    SumCovariance(a, Scale(w, Outer(h)), n);
    RankOneIsInverse(a, b, w, h, n);
    InverseCovariance(RankOne(a, w, h), b', n);
    forall x: Vec | |x| == n ensures Quad(b', x) <= Quad(b, x) {
      RankOneQuad(b, Shrink(b, w, h), MulV(b, h), x);
    }
  }

  lemma ShrinkNonneg(b: Mat, w: real, h: Vec)
    requires PosSemidef(b) && b.rows == |h| && w >= 0.0
    ensures Denominator(b, w, h) >= 1.0 && Shrink(b, w, h) >= 0.0
  {
    hide Dot, MulV;
    assert Quad(b, h) >= 0.0;
    assert w * Quad(b, h) >= 0.0;
  }

  // ---------- Any number of rows ----------

  /** Adding any nonnegative combination of rows to an invertible covariance. */
  lemma {:induction false} GramUpdate(a: Mat, b: Mat, ws: Vec, m: Mat, n: nat) returns (b': Mat)
    requires Covariance(a, n) && IsInverse(a, b) && m.cols == n && |ws| == m.rows
    requires forall k :: 0 <= k < |ws| ==> ws[k] >= 0.0
    ensures Covariance(Add(a, WeightedGram(ws, m)), n)
    ensures IsInverse(Add(a, WeightedGram(ws, m)), b')
    ensures Covariance(b', n) && NoLarger(b', b)
    decreases m.rows
  {
    hide Dot, MulV, Mul, T, Id, Outer, Scale, Add, Quad;
    if m.rows == 0 {
      AddZero(a);
      InverseCovariance(a, b, n);
      b' := b;
    } else {
      var b1 := RankOneUpdate(a, b, ws[0], m.e[0], n);
      b' := GramUpdate(RankOne(a, ws[0], m.e[0]), b1, ws[1..], DropRow(m), n);
      AddAssoc(a, Scale(ws[0], Outer(m.e[0])), WeightedGram(ws[1..], DropRow(m)));
      forall x: Vec | |x| == n ensures Quad(b', x) <= Quad(b, x) {
        assert Quad(b', x) <= Quad(b1, x) && Quad(b1, x) <= Quad(b, x);
      }
    }
  }
}
