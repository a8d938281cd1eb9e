/** What one pass of the update computes: among all corrections, the one of least cost, where
    the cost weighs the measurement residual against the distance from the predicted state. */
module BestEstimate {
  import opened Reals
  import opened Matrices
  import opened Information
  import opened Kalman
  import opened Esekf

  /** Quad(HᵀH / R + P⁻¹, x) is what the measurement and the prediction each say about x. */
  lemma InformationQuad(h: Mat, p: Mat, noise: real, inv: Mat -> Mat, x: Vec)
    requires h.cols <= p.rows == p.cols == |x| && noise != 0.0 && Inverts(inv)
    ensures Quad(InformationMatrix(h, p, noise, inv), x)
         == Prod(1.0 / noise, Dot(MulV(h, x[..h.cols]), MulV(h, x[..h.cols]))) + Quad(inv(p), x)
  {
    hide Dot, MulV, Mul, T, Add, Scale, Normal, PadV;
    var hx := MulV(h, x[..h.cols]);
    QuadAdd(FrontInverse(h, p, noise), inv(p), x);
    QuadScale(1.0 / noise, Normal(h, |x|), x);
    NormalAct(h, x);
    DotPadded(h, hx, x);
  }

  /** x against the padded Hᵀu is Hx against u. */
  lemma DotPadded(h: Mat, u: Vec, x: Vec)
    requires |u| == h.rows && h.cols <= |x|
    ensures Dot(x, PadV(MulV(T(h), u), |x|)) == Dot(MulV(h, x[..h.cols]), u)
  {
    hide MulV, T, PadV, Dot;
    var w := MulV(T(h), u);
    DotComm(x, PadV(w, |x|));
    DotPad(w, x);
    Adjoint(h, u, x[..h.cols]);
    DotComm(u, MulV(h, x[..h.cols]));
  }

  /** The gain solves the normal equations: (HᵀH / R + P⁻¹)·(K·z) is Hᵀz / R. */
  lemma GainSolves(info: Mat, front: Mat, h: Mat, noise: real, z: Vec)
    requires IsInverse(info, front) && front.rows >= h.cols && noise != 0.0 && |z| == h.rows
    ensures MulV(info, MulV(Gain(front, h, noise), z))
         == ScaleV(1.0 / noise, PadV(MulV(T(h), z), info.rows))
  {
    hide Dot, MulV, Mul, T, Scale, PadV, ScaleV, LeftCols, Id;
    var w := MulV(T(h), z);
    var left := LeftCols(front, h.cols);
    ScaleAct(1.0 / noise, Mul(left, T(h)), z);
    MulAct(left, T(h), z);
    LeftColsAct(front, w);
    MulVScale(info, 1.0 / noise, MulV(front, PadV(w, info.rows)));
    InverseUndoes(info, front, PadV(w, info.rows));
  }

  // ---------- The correction ----------

  /** The estimate, seen from the predicted state: K·(h + H·d), d being how far the iterate is
      already away from the prediction. */
  lemma CorrectedDistance<X(!new)>(m: Model<X>, x: X, x0: X, p: Mat, o: Obs)
    requires Fits(m) && p.rows == p.cols == m.n
    requires o.hx.cols <= m.n && |o.h| == o.hx.rows
    ensures var front, d := m.inv(InformationMatrix(o.hx, p, m.noise, m.inv)), m.minus(x, x0);
            AddV(Correction(m, x, x0, p, o), d)
            == MulV(Gain(front, o.hx, m.noise), AddV(o.h, MulV(o.hx, d[..o.hx.cols])))
  {
    hide Dot, MulV, Mul, Gain, Sub, Id, SubV, AddV, InformationMatrix;
    var d := m.minus(x, x0);
    var front := m.inv(InformationMatrix(o.hx, p, m.noise, m.inv));
    var k, hd := Gain(front, o.hx, m.noise), MulV(o.hx, d[..o.hx.cols]);
    SubAct(GainH(front, o.hx, m.noise), Id(m.n), d);
    IdAct(d);
    PadColsAct(Mul(k, o.hx), d);
    MulAct(k, o.hx, d[..o.hx.cols]);
    BackToStart(MulV(k, o.h), MulV(k, hd), d);
    MulVAdd(k, o.h, hd);
  }

  lemma BackToStart(u: Vec, v: Vec, d: Vec)
    requires |u| == |v| == |d|
    ensures AddV(AddV(u, SubV(v, d)), d) == AddV(u, v)
  {
  }

  /** The residual left after a correction, to first order. */
  function Residual(o: Obs, dx: Vec): (r: Vec)
    requires o.hx.cols <= |dx| && |o.h| == o.hx.rows
    ensures |r| == |o.h|
  {
    SubV(o.h, MulV(o.hx, dx[..o.hx.cols]))
  }

  /** At the correction the pull of the prediction and that of the measurement are equal:
      P⁻¹·(dx + d) is Hᵀ·(h − H·dx) / R. */
  lemma CorrectionBalances<X(!new)>(m: Model<X>, x: X, x0: X, p: Mat, o: Obs)
    requires Fits(m) && Sound(p, m.n)
    requires o.hx.cols <= m.n && |o.h| == o.hx.rows
    ensures var dx := Correction(m, x, x0, p, o);
            MulV(m.inv(p), AddV(dx, m.minus(x, x0)))
            == ScaleV(1.0 / m.noise, PadV(MulV(T(o.hx), Residual(o, dx)), m.n))
  {
    hide Dot, MulV, Mul, Gain, T, Id, Add, Scale, Sub, SubV, AddV, ScaleV, PadV, Normal, Correction, Invertible,
      IsInverse, Symmetric, PosSemidef, NoLarger;
    var h, c, d := o.hx, 1.0 / m.noise, m.minus(x, x0);
    var dx := Correction(m, x, x0, p, o);
    var info := InformationMatrix(h, p, m.noise, m.inv);
    var s := InformationInvertible(h, p, m.noise, m.inv, m.n);
    Inverted(info, s, m.inv);
    var z, b := AddV(o.h, MulV(h, d[..h.cols])), AddV(dx, d);
    CorrectedDistance(m, x, x0, p, o);
    GainSolves(info, m.inv(info), h, m.noise, z);
    AddAct(FrontInverse(h, p, m.noise), m.inv(p), b);
    ScaleAct(c, Normal(h, m.n), b);
    NormalAct(h, b);
    var w := MulV(h, b[..h.cols]);
    TakeAway(c, h, z, w, MulV(m.inv(p), b));
    FrontOfSum(dx, d, h.cols);
    MulVAdd(h, dx[..h.cols], d[..h.cols]);
    DropCommon(o.h, MulV(h, d[..h.cols]), MulV(h, dx[..h.cols]));
  }

  lemma Inverted(a: Mat, s: Mat, inv: Mat -> Mat)
    requires Inverts(inv) && IsInverse(a, s)
    ensures IsInverse(a, inv(a))
  {
    InverseOf(inv, a);
  }

  lemma FrontOfSum(u: Vec, v: Vec, k: nat)
    requires |u| == |v| >= k
    ensures AddV(u, v)[..k] == AddV(u[..k], v[..k])
  {
  }

  lemma DropCommon(u: Vec, v: Vec, w: Vec)
    requires |u| == |v| == |w|
    ensures SubV(AddV(u, v), AddV(w, v)) == SubV(u, w)
  {
  }

  lemma TakeAway(c: real, h: Mat, z: Vec, w: Vec, rest: Vec)
    requires |z| == |w| == h.rows && h.cols <= |rest|
    requires ScaleV(c, PadV(MulV(T(h), z), |rest|))
          == AddV(ScaleV(c, PadV(MulV(T(h), w), |rest|)), rest)
    ensures rest == ScaleV(c, PadV(MulV(T(h), SubV(z, w)), |rest|))
  {
    hide Dot, MulV, T;
    MulVSub(T(h), z, w);
    var a, b, n := MulV(T(h), z), MulV(T(h), w), |rest|;
    forall i | 0 <= i < n ensures rest[i] == ScaleV(c, PadV(SubV(a, b), n))[i] {
      assert ScaleV(c, PadV(a, n))[i] == ScaleV(c, PadV(b, n))[i] + rest[i];
      ProdSub(c, PadV(a, n)[i], PadV(b, n)[i]);
    }
  }

  lemma ProdSub(c: real, a: real, b: real)
    ensures Prod(c, a - b) == Prod(c, a) - Prod(c, b)
  {
  }

  // ---------- The cost ----------

  /** What the update weighs: the squared residual over R, and the squared distance from the
      predicted state measured by P⁻¹. d is the distance of the iterate the correction starts from. */
  function Cost<X(!new)>(m: Model<X>, p: Mat, d: Vec, o: Obs, dx: Vec): real
    requires Fits(m) && p.rows == p.cols == m.n == |d| == |dx|
    requires o.hx.cols <= m.n && |o.h| == o.hx.rows
  {
    Prod(1.0 / m.noise, Dot(Residual(o, dx), Residual(o, dx))) + Quad(m.inv(p), AddV(dx, d))
  }

  lemma SquareOfDifference(a: Vec, b: Vec)
    requires |a| == |b|
    ensures Dot(SubV(a, b), SubV(a, b)) == Dot(a, a) - 2.0 * Dot(a, b) + Dot(b, b)
  {
    hide Dot;
    assert SubV(a, b) == AddV(a, ScaleV(-1.0, b));
    var mb := ScaleV(-1.0, b);
    DotAdd(a, mb, SubV(a, b));
    DotAddRight(a, a, mb); DotAddRight(mb, a, mb);
    DotScaleRight(-1.0, a, b); DotScale(-1.0, b, a); DotScale(-1.0, b, mb); DotScaleRight(-1.0, b, b);
    DotComm(a, b);
  }

  lemma QuadOfSum(a: Mat, b: Vec, e: Vec)
    requires Symmetric(a) && |b| == |e| == a.cols
    ensures Quad(a, AddV(b, e)) == Quad(a, b) + 2.0 * Dot(e, MulV(a, b)) + Quad(a, e)
  {
    hide Dot, MulV, T;
    MulVAdd(a, b, e);
    DotAdd(b, e, AddV(MulV(a, b), MulV(a, e)));
    DotAddRight(b, MulV(a, b), MulV(a, e));
    DotAddRight(e, MulV(a, b), MulV(a, e));
    SymmetricSwap(a, b, e);
    DotComm(MulV(a, b), e);
  }

  /** Moving away from the correction costs exactly Quad(HᵀH / R + P⁻¹, ·) of the move. */
  lemma CostAwayFromCorrection<X(!new)>(m: Model<X>, x: X, x0: X, p: Mat, o: Obs, e: Vec)
    requires Fits(m) && Sound(p, m.n) && |e| == m.n
    requires o.hx.cols <= m.n && |o.h| == o.hx.rows
    ensures var d, dx := m.minus(x, x0), Correction(m, x, x0, p, o);
            Cost(m, p, d, o, AddV(dx, e))
            == Cost(m, p, d, o, dx) + Quad(InformationMatrix(o.hx, p, m.noise, m.inv), e)
  {
    hide Dot, MulV, Mul, T, Id, Quad, Correction, InformationMatrix, Residual, SubV, AddV, ScaleV, PadV, Invertible,
      IsInverse, PosSemidef, Symmetric, Prod;
    var d, dx, c := m.minus(x, x0), Correction(m, x, x0, p, o), 1.0 / m.noise;
    var r, b, he := Residual(o, dx), AddV(dx, d), MulV(o.hx, e[..o.hx.cols]);
    MovedResidual(o, dx, e);
    SquareOfDifference(r, he);
    SwapLast(dx, e, d);
    InverseSymmetric(m, p);
    QuadOfSum(m.inv(p), b, e);
    CorrectionBalances(m, x, x0, p, o);
    DotScaleRight(c, e, PadV(MulV(T(o.hx), r), m.n));
    DotPadded(o.hx, r, e);
    DotComm(he, r);
    InformationQuad(o.hx, p, m.noise, m.inv, e);
    CrossTerms(c, Dot(r, r), Dot(r, he), Dot(he, he));
  }

  lemma CrossTerms(c: real, rr: real, rh: real, hh: real)
    ensures Prod(c, rr - 2.0 * rh + hh) == Prod(c, rr) - 2.0 * Prod(c, rh) + Prod(c, hh)
  {
  }

  lemma SwapLast(u: Vec, v: Vec, w: Vec)
    requires |u| == |v| == |w|
    ensures AddV(AddV(u, v), w) == AddV(AddV(u, w), v)
  {
  }

  lemma MovedResidual(o: Obs, dx: Vec, e: Vec)
    requires o.hx.cols <= |dx| == |e| && |o.h| == o.hx.rows
    ensures Residual(o, AddV(dx, e)) == SubV(Residual(o, dx), MulV(o.hx, e[..o.hx.cols]))
  {
    hide Dot, MulV;
    FrontOfSum(dx, e, o.hx.cols);
    MulVAdd(o.hx, dx[..o.hx.cols], e[..o.hx.cols]);
  }

  lemma InverseSymmetric<X(!new)>(m: Model<X>, p: Mat)
    requires Fits(m) && Sound(p, m.n)
    ensures Covariance(m.inv(p), m.n) && Symmetric(m.inv(p))
  {
    InverseOf(m.inv, p);
    InverseCovariance(p, m.inv(p), m.n);
  }

  // ---------- The least cost ----------

  lemma {:induction false} SquareVanishes(u: Vec)
    requires Dot(u, u) == 0.0
    ensures u == ZeroV(|u|)
  {
    if u != [] {
      DotSelf(u[1..]);
      assert Prod(u[0], u[0]) <= 0.0;
      ZeroSquare(u[0]);
      SquareVanishes(u[1..]);
      assert u == [u[0]] + u[1..];
    }
  }

  lemma ZeroSquare(a: real)
    requires Prod(a, a) <= 0.0
    ensures a == 0.0
  {
    hide Prod, Sq;
    SquareIsProduct(a);
    SquareSign(a);
  }

  /** The step at which 2·t·a + t²·q would be negative, were a not zero. */
  function Descent(a: real, q: real): real
    requires q >= 0.0
  {
    -a / (q + 1.0)
  }

  lemma DescentGoesDown(a: real, q: real, t: real)
    requires a >= 0.0 && q >= 0.0 && t == Descent(a, q)
    requires 2.0 * Prod(t, a) + Prod(t, Prod(t, q)) >= 0.0
    ensures a == 0.0
  {
    assert t * (q + 1.0) == -a;
    assert t * q == -a - t;
    assert 2.0 * Prod(t, a) + Prod(t, Prod(t, q)) == t * a - Prod(t, t);
    assert t <= 0.0;
    assert t * a <= 0.0;
    ZeroSquare(t);
  }

  /** A positive semidefinite matrix kills every vector it gives no weight. */
  lemma WeightlessIsKilled(c: Mat, e: Vec)
    requires Symmetric(c) && PosSemidef(c) && |e| == c.cols && Quad(c, e) == 0.0
    ensures MulV(c, e) == ZeroV(|e|)
  {
    hide Dot, MulV, T;
    var z := MulV(c, e);
    DotSelf(z);
    assert Quad(c, z) >= 0.0;
    var t := Descent(Dot(z, z), Quad(c, z));
    var tz := ScaleV(t, z);
    assert Quad(c, AddV(e, tz)) >= 0.0;
    QuadOfSum(c, e, tz);
    DotScale(t, z, z);
    MulVScale(c, t, z);
    DotScale(t, z, ScaleV(t, MulV(c, z)));
    DotScaleRight(t, z, MulV(c, z));
    DescentGoesDown(Dot(z, z), Quad(c, z), t);
    SquareVanishes(z);
  }

  lemma PositiveDefinite(c: Mat, s: Mat, e: Vec)
    requires Symmetric(c) && PosSemidef(c) && IsInverse(c, s) && |e| == c.cols
    ensures Quad(c, e) >= 0.0 && (Quad(c, e) == 0.0 <==> e == ZeroV(|e|))
  {
    hide Dot, MulV, T, Mul, Id;
    DotZero(MulV(c, e));
    if Quad(c, e) == 0.0 {
      WeightlessIsKilled(c, e);
      InverseUndoes(c, s, e);
      assert MulV(c, e) == ScaleV(0.0, e);
      MulVScale(s, 0.0, e);
      assert e == ScaleV(0.0, MulV(s, e));
    }
  }

  /** The correction of every pass is the one and only correction of least cost. */
  lemma CorrectionIsBest<X(!new)>(m: Model<X>, x: X, x0: X, p: Mat, o: Obs, y: Vec)
    requires Fits(m) && Sound(p, m.n) && |y| == m.n
    requires o.hx.cols <= m.n && |o.h| == o.hx.rows
    ensures var d, dx := m.minus(x, x0), Correction(m, x, x0, p, o);
            && Cost(m, p, d, o, dx) <= Cost(m, p, d, o, y)
            && (Cost(m, p, d, o, dx) == Cost(m, p, d, o, y) <==> y == dx)
  {
    hide Dot, MulV, Mul, T, Id, Quad, Correction, Cost, Invertible, InformationMatrix;
    var dx, info := Correction(m, x, x0, p, o), InformationMatrix(o.hx, p, m.noise, m.inv);
    var e := SubV(y, dx);
    assert AddV(dx, e) == y;
    CostAwayFromCorrection(m, x, x0, p, o, e);
    var s := InformationInvertible(o.hx, p, m.noise, m.inv, m.n);
    PositiveDefinite(info, s, e);
    if e == ZeroV(m.n) {
      forall j | 0 <= j < m.n ensures y[j] == dx[j] { assert e[j] == 0.0; }
    }
  }
}
