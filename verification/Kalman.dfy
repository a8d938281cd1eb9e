/** The covariance arithmetic of the error-state filter: propagation through the motion
    model and the iterated update's gain, for any state size n, measurement count m and
    number k of measured states. */
module Kalman {
  import opened Matrices
  import opened Information

  // ---------- Blocks ----------

  /** x followed by zeros up to length n. */
  function PadV(x: Vec, n: nat): (r: Vec)
    requires |x| <= n
    ensures |r| == n
  {
    x + ZeroV(n - |x|)
  }

  function PadCols(a: Mat, n: nat): (r: Mat)
    requires a.cols <= n
    ensures r.rows == a.rows && r.cols == n
  {
    RawMat(a.rows, n, seq(a.rows, i requires 0 <= i < a.rows => PadV(a.e[i], n)))
  }

  /** a in the top-left corner of an n×n matrix of zeros. */
  function PadSquare(a: Mat, n: nat): (r: Mat)
    requires a.rows == a.cols <= n
    ensures r.rows == n && r.cols == n
  {
    RawMat(n, n, seq(n, i requires 0 <= i < n => PadRow(a, n, i)))
  }

  function PadRow(a: Mat, n: nat, i: nat): (r: Vec)
    requires a.rows == a.cols <= n
    ensures |r| == n
  {
    if i < a.rows then PadV(a.e[i], n) else ZeroV(n)
  }

  function LeftCols(a: Mat, k: nat): (r: Mat)
    requires k <= a.cols
    ensures r.rows == a.rows && r.cols == k
  {
    RawMat(a.rows, k, seq(a.rows, i requires 0 <= i < a.rows => a.e[i][..k]))
  }

  lemma DotZero(x: Vec)
    ensures Dot(ZeroV(|x|), x) == 0.0
  {
    DotVanishes(ZeroV(|x|), x);
  }

  lemma {:induction false} DotPad(u: Vec, x: Vec)
    requires |u| <= |x|
    ensures Dot(PadV(u, |x|), x) == Dot(u, x[..|u|])
  {
    if u == [] {
      assert PadV(u, |x|) == ZeroV(|x|);
      DotZero(x);
    } else {
      DotPad(u[1..], x[1..]);
      assert PadV(u, |x|)[1..] == PadV(u[1..], |x| - 1);
      assert x[..|u|][1..] == x[1..][..|u| - 1];
    }
  }

  lemma PadColsAct(a: Mat, x: Vec)
    requires a.cols <= |x|
    ensures MulV(PadCols(a, |x|), x) == MulV(a, x[..a.cols])
  {
    forall i | 0 <= i < a.rows ensures MulV(PadCols(a, |x|), x)[i] == MulV(a, x[..a.cols])[i] {
      DotPad(a.e[i], x);
    }
  }

  lemma PadColsTransposeAct(a: Mat, n: nat, u: Vec)
    requires a.cols <= n && |u| == a.rows
    ensures MulV(T(PadCols(a, n)), u) == PadV(MulV(T(a), u), n)
  {
    var p := PadCols(a, n);
    forall j | 0 <= j < n ensures MulV(T(p), u)[j] == PadV(MulV(T(a), u), n)[j] {
      if j < a.cols {
        assert Col(p, j) == Col(a, j);
      } else {
        DotVanishes(Col(p, j), u);
      }
    }
  }

  lemma PadSquareAct(a: Mat, x: Vec)
    requires a.rows == a.cols <= |x|
    ensures MulV(PadSquare(a, |x|), x) == PadV(MulV(a, x[..a.cols]), |x|)
  {
    forall i | 0 <= i < |x|
      ensures MulV(PadSquare(a, |x|), x)[i] == PadV(MulV(a, x[..a.cols]), |x|)[i]
    {
      if i < a.rows {
        DotPad(a.e[i], x);
      } else {
        DotVanishes(ZeroV(|x|), x);
      }
    }
  }

  lemma LeftColsAct(a: Mat, y: Vec)
    requires |y| <= a.cols
    ensures MulV(LeftCols(a, |y|), y) == MulV(a, PadV(y, a.cols))
  {
    forall i | 0 <= i < a.rows ensures MulV(LeftCols(a, |y|), y)[i] == MulV(a, PadV(y, a.cols))[i] {
      DotPad(y, a.e[i]);
      DotComm(y, a.e[i][..|y|]);
      DotComm(a.e[i], PadV(y, a.cols));
    }
  }

  // ---------- The inverse the code calls ----------

  /** A matrix inverse routine: it keeps the size, and inverts whatever can be inverted. */
  ghost predicate Inverts(inv: Mat -> Mat) {
    forall a: Mat ::
      && inv(a).rows == a.rows && inv(a).cols == a.cols
      && (Invertible(a) ==> IsInverse(a, inv(a)))
  }

  lemma InverseOf(inv: Mat -> Mat, a: Mat)
    requires Inverts(inv) && Invertible(a)
    ensures IsInverse(a, inv(a))
  {
  }

  /** An invertible covariance: what the filter keeps at every step. */
  ghost predicate Sound(p: Mat, n: nat) { Covariance(p, n) && Invertible(p) }

  // ---------- The update ----------

  /** HᵀH in the top-left corner. */
  function Normal(h: Mat, n: nat): (r: Mat)
    requires h.cols <= n
    ensures r.rows == n && r.cols == n
  {
    PadSquare(Mul(T(h), h), n)
  }

  function FrontInverse(h: Mat, p: Mat, noise: real): (r: Mat)
    requires h.cols <= p.rows == p.cols && noise != 0.0
    ensures r.rows == p.rows && r.cols == p.rows
  {
    Scale(1.0 / noise, Normal(h, p.rows))
  }

  /** HᵀH / R + P⁻¹. */
  function InformationMatrix(h: Mat, p: Mat, noise: real, inv: Mat -> Mat): (r: Mat)
    requires h.cols <= p.rows == p.cols && noise != 0.0 && Inverts(inv)
    ensures r.rows == p.rows && r.cols == p.rows
  {
    Add(FrontInverse(h, p, noise), inv(p))
  }

  /** The gain, built from the first k columns of front only. */
  function Gain(front: Mat, h: Mat, noise: real): (r: Mat)
    requires front.rows == front.cols >= h.cols && noise != 0.0
    ensures r.rows == front.rows && r.cols == h.rows
  {
    Scale(1.0 / noise, Mul(LeftCols(front, h.cols), T(h)))
  }

  function GainH(front: Mat, h: Mat, noise: real): (r: Mat)
    requires front.rows == front.cols >= h.cols && noise != 0.0
    ensures r.rows == front.rows && r.cols == front.rows
  {
    PadCols(Mul(Gain(front, h, noise), h), front.rows)
  }

  /** (I − KH)·P as the code writes it back. */
  function Posterior(h: Mat, p: Mat, noise: real, inv: Mat -> Mat): (r: Mat)
    requires h.cols <= p.rows == p.cols && noise != 0.0 && Inverts(inv)
    ensures r.rows == p.rows && r.cols == p.cols
  {
    var front := inv(InformationMatrix(h, p, noise, inv));
    Mul(Sub(Id(p.rows), GainH(front, h, noise)), p)
  }

  /** The sparse block form computes the same K·H as the full-width product. */
  lemma SparseGainIsFull(front: Mat, h: Mat, noise: real)
    requires front.rows == front.cols >= h.cols && noise != 0.0
    ensures GainH(front, h, noise) == Mul(front, Scale(1.0 / noise, Normal(h, front.rows)))
  {
    var n, c := front.rows, 1.0 / noise;
    var full := Scale(c, Normal(h, n));
    forall x: Vec | |x| == n
      ensures MulV(GainH(front, h, noise), x) == MulV(Mul(front, full), x)
    {
      SparseGainAct(front, h, noise, x);
      MulAct(front, full, x);
      ScaleAct(c, Normal(h, n), x);
      NormalAct(h, x);
      MulVScale(front, c, MulV(Normal(h, n), x));
    }
    ActsTheSame(GainH(front, h, noise), Mul(front, full));
  }

  lemma NormalAct(h: Mat, x: Vec)
    requires h.cols <= |x|
    ensures MulV(Normal(h, |x|), x) == PadV(MulV(T(h), MulV(h, x[..h.cols])), |x|)
  {
    PadSquareAct(Mul(T(h), h), x);
    MulAct(T(h), h, x[..h.cols]);
  }

  lemma SparseGainAct(front: Mat, h: Mat, noise: real, x: Vec)
    requires front.rows == front.cols == |x| && h.cols <= |x| && noise != 0.0
    ensures MulV(GainH(front, h, noise), x)
         == ScaleV(1.0 / noise, MulV(front, PadV(MulV(T(h), MulV(h, x[..h.cols])), |x|)))
  {
    var x', k := x[..h.cols], Gain(front, h, noise);
    var left := Mul(LeftCols(front, h.cols), T(h));
    PadColsAct(Mul(k, h), x);
    MulAct(k, h, x');
    ScaleAct(1.0 / noise, left, MulV(h, x'));
    MulAct(LeftCols(front, h.cols), T(h), MulV(h, x'));
    LeftColsAct(front, MulV(T(h), MulV(h, x')));
  }

  /** HᵀH/R is a nonnegative sum over the measurement rows. */
  lemma FrontIsGram(h: Mat, p: Mat, noise: real)
    requires h.cols <= p.rows == p.cols && noise > 0.0
    ensures FrontInverse(h, p, noise)
         == WeightedGram(seq(h.rows, i => 1.0 / noise), PadCols(h, p.rows))
  {
    var n, c := p.rows, 1.0 / noise;
    var ws, m := seq(h.rows, i => c), PadCols(h, n);
    forall x: Vec | |x| == n
      ensures MulV(FrontInverse(h, p, noise), x) == MulV(WeightedGram(ws, m), x)
    {
      var hx := MulV(h, x[..h.cols]);
      WeightedGramAct(ws, m, x);
      PadColsAct(h, x);
      assert Times(ws, hx) == ScaleV(c, hx);
      PadColsTransposeAct(h, n, ScaleV(c, hx));
      MulVScale(T(h), c, hx);
      ScaleAct(c, Normal(h, n), x);
      NormalAct(h, x);
      PadScale(c, MulV(T(h), hx), n);
    }
    ActsTheSame(FrontInverse(h, p, noise), WeightedGram(ws, m));
  }

  lemma PadScale(c: real, v: Vec, n: nat)
    requires |v| <= n
    ensures ScaleV(c, PadV(v, n)) == PadV(ScaleV(c, v), n)
  {
  }

  /** The information matrix can always be inverted, so the update is always defined. */
  lemma InformationInvertible(h: Mat, p: Mat, noise: real, inv: Mat -> Mat, n: nat) returns (s: Mat)
    requires Sound(p, n) && h.cols <= n && noise > 0.0 && Inverts(inv)
    ensures Covariance(InformationMatrix(h, p, noise, inv), n)
    ensures IsInverse(InformationMatrix(h, p, noise, inv), s)
    ensures Covariance(s, n) && NoLarger(s, p)
  {
    hide Dot, MulV, Mul, T, Id, Add, Scale, Quad, Normal, WeightedGram, PadCols;
    var ws, m := seq(h.rows, i => 1.0 / noise), PadCols(h, n);
    InverseOf(inv, p);
    InverseCovariance(p, inv(p), n);
    s := GramUpdate(inv(p), p, ws, m, n);
    FrontIsGram(h, p, noise);
    AddComm(FrontInverse(h, p, noise), inv(p));
  }

  lemma AddComm(a: Mat, b: Mat)
    requires a.rows == b.rows && a.cols == b.cols
    ensures Add(a, b) == Add(b, a)
  {
    forall i | 0 <= i < a.rows ensures Add(a, b).e[i] == Add(b, a).e[i] { }
    assert Add(a, b).e == Add(b, a).e;
  }

  /** The matrix written back as (I − KH)·P is the inverse of HᵀH/R + P⁻¹: again an invertible
      covariance, and in no direction larger than P. */
  lemma UpdateKeepsCovariance(h: Mat, p: Mat, noise: real, inv: Mat -> Mat, n: nat)
    requires Sound(p, n) && h.cols <= n && noise > 0.0 && Inverts(inv)
    ensures IsInverse(InformationMatrix(h, p, noise, inv), Posterior(h, p, noise, inv))
    ensures Sound(Posterior(h, p, noise, inv), n)
    ensures NoLarger(Posterior(h, p, noise, inv), p)
  {
    hide Dot, MulV, Mul, T, Id, Add, Sub, Scale, Quad, Normal;
    var info := InformationMatrix(h, p, noise, inv);
    var s := InformationInvertible(h, p, noise, inv, n);
    InverseOf(inv, info);
    InverseOf(inv, p);
    InverseUnique(info, s, inv(info));
    SparseGainIsFull(s, h, noise);
    PosteriorIsFront(FrontInverse(h, p, noise), inv(p), p, s);
    assert IsInverse(s, info);
  }

  /** (I − s·f)·p == s when s inverts f + pi and p inverts pi. */
  lemma PosteriorIsFront(f: Mat, pi: Mat, p: Mat, s: Mat)
    requires f.rows == f.cols == pi.rows && IsInverse(p, pi) && IsInverse(Add(f, pi), s)
    ensures Mul(Sub(Id(p.rows), Mul(s, f)), p) == s
  {
    forall x: Vec | |x| == p.rows
      ensures MulV(Mul(Sub(Id(p.rows), Mul(s, f)), p), x) == MulV(s, x)
    {
      PosteriorAct(f, pi, p, s, x);
    }
    ActsTheSame(Mul(Sub(Id(p.rows), Mul(s, f)), p), s);
  }

  lemma PosteriorAct(f: Mat, pi: Mat, p: Mat, s: Mat, x: Vec)
    requires f.rows == f.cols == pi.rows && IsInverse(p, pi) && IsInverse(Add(f, pi), s)
    requires |x| == p.rows
    ensures MulV(Mul(Sub(Id(p.rows), Mul(s, f)), p), x) == MulV(s, x)
  {
    hide Dot, MulV, ScaleV, AddV, SubV, Mul, T, Id;
    var y := MulV(p, x);
    MulAct(Sub(Id(p.rows), Mul(s, f)), p, x);
    SubAct(Id(p.rows), Mul(s, f), y);
    IdAct(y);
    MulAct(s, f, y);
    // y = s·(f·y + pi·y) = s·f·y + s·x
    InverseUndoes(Add(f, pi), s, y);
    AddAct(f, pi, y);
    InverseUndoes(p, pi, x);
    MulVAdd(s, MulV(f, y), x);
    AddThenSub(MulV(s, MulV(f, y)), MulV(s, x));
  }

  lemma AddThenSub(u: Vec, v: Vec)
    requires |u| == |v|
    ensures SubV(AddV(u, v), u) == v
  {
  }

  // ---------- The prediction ----------

  function Transition(fx: Mat, dt: real): (r: Mat)
    requires fx.rows == fx.cols
    ensures r.rows == fx.rows && r.cols == fx.cols
  {
    Add(Id(fx.rows), Scale(dt, fx))
  }

  /** F·P·Fᵀ + (dt·Fw)·Q·(dt·Fw)ᵀ. */
  function Propagate(p: Mat, q: Mat, fx: Mat, fw: Mat, dt: real): (r: Mat)
    requires p.rows == p.cols == fx.rows == fx.cols == fw.rows
    requires q.rows == q.cols == fw.cols
    ensures r.rows == p.rows && r.cols == p.cols
  {
    var f, g := Transition(fx, dt), Scale(dt, fw);
    Add(Mul(Mul(f, p), T(f)), Mul(Mul(g, q), T(g)))
  }

  /** Whatever the Jacobians and the step, propagation keeps P a covariance when Q is one. */
  lemma PredictKeepsCovariance(p: Mat, q: Mat, fx: Mat, fw: Mat, dt: real, n: nat)
    requires fx.rows == fx.cols == fw.rows == n
    requires Covariance(p, n) && Covariance(q, fw.cols)
    ensures Covariance(Propagate(p, q, fx, fw, dt), n)
  {
    var f, g := Transition(fx, dt), Scale(dt, fw);
    CongruenceCovariance(f, p, n, n);
    CongruenceCovariance(g, q, n, fw.cols);
    SumCovariance(Mul(Mul(f, p), T(f)), Mul(Mul(g, q), T(g)), n);
  }

  lemma TransitionTransposeAct(fx: Mat, dt: real, x: Vec)
    requires fx.rows == fx.cols == |x|
    ensures MulV(T(Transition(fx, dt)), x) == AddV(x, ScaleV(dt, MulV(T(fx), x)))
  {
    TransposeAdd(Id(|x|), Scale(dt, fx));
    TransposeId(|x|);
    TransposeScale(dt, fx);
    AddAct(Id(|x|), Scale(dt, T(fx)), x);
    IdAct(x);
    ScaleAct(dt, T(fx), x);
  }

  lemma CongruenceForm(f: Mat, p: Mat, x: Vec, y: Vec)
    requires p.rows == p.cols == f.cols && |x| == |y| == f.rows
    ensures Dot(x, MulV(Mul(Mul(f, p), T(f)), y)) == Dot(MulV(T(f), x), MulV(p, MulV(T(f), y)))
  {
    var z := MulV(T(f), y);
    MulAct(Mul(f, p), T(f), y);
    MulAct(f, p, z);
    Adjoint(f, x, MulV(p, z));
  }

  /** What propagation does between any two directions: each is carried back through the motion,
      x + dt·fxᵀx, and the noise is seen through dt·fwᵀ. This fixes every entry of the result. */
  lemma PropagateForm(p: Mat, q: Mat, fx: Mat, fw: Mat, dt: real, x: Vec, y: Vec)
    requires p.rows == p.cols == fx.rows == fx.cols == fw.rows == |x| == |y|
    requires q.rows == q.cols == fw.cols
    ensures Dot(x, MulV(Propagate(p, q, fx, fw, dt), y))
         == Dot(AddV(x, ScaleV(dt, MulV(T(fx), x))), MulV(p, AddV(y, ScaleV(dt, MulV(T(fx), y)))))
          + Dot(ScaleV(dt, MulV(T(fw), x)), MulV(q, ScaleV(dt, MulV(T(fw), y))))
  {
    hide Dot, MulV, Mul, T, Add, Scale, AddV, ScaleV, Transition;
    var f, g := Transition(fx, dt), Scale(dt, fw);
    var moved, noise := Mul(Mul(f, p), T(f)), Mul(Mul(g, q), T(g));
    AddAct(moved, noise, y);
    DotAddRight(x, MulV(moved, y), MulV(noise, y));
    CongruenceForm(f, p, x, y);
    CongruenceForm(g, q, x, y);
    TransitionTransposeAct(fx, dt, x); TransitionTransposeAct(fx, dt, y);
    TransposeScale(dt, fw);
    ScaleAct(dt, T(fw), x); ScaleAct(dt, T(fw), y);
  }

  /** The uncertainty in a direction after propagation. */
  lemma PropagateQuad(p: Mat, q: Mat, fx: Mat, fw: Mat, dt: real, x: Vec)
    requires p.rows == p.cols == fx.rows == fx.cols == fw.rows == |x|
    requires q.rows == q.cols == fw.cols
    ensures Quad(Propagate(p, q, fx, fw, dt), x)
         == Quad(p, AddV(x, ScaleV(dt, MulV(T(fx), x)))) + Quad(q, ScaleV(dt, MulV(T(fw), x)))
  {
    hide Dot, MulV, Mul, T, Add, Scale, AddV, ScaleV, Transition, Propagate;
    PropagateForm(p, q, fx, fw, dt, x, x);
  }

  function Diag(d: Vec): (r: Mat)
    ensures r.rows == |d| && r.cols == |d|
  {
    RawMat(|d|, |d|, seq(|d|, i requires 0 <= i < |d| => ScaleV(d[i], UnitV(|d|, i))))
  }

  lemma DiagAct(d: Vec, x: Vec)
    requires |d| == |x|
    ensures MulV(Diag(d), x) == Times(d, x)
  {
    forall i | 0 <= i < |d| ensures MulV(Diag(d), x)[i] == Times(d, x)[i] {
      DotScale(d[i], UnitV(|d|, i), x);
      DotComm(UnitV(|d|, i), x);
      DotUnit(x, i);
    }
  }

  lemma NoiseIsGram(d: Vec, g: Mat)
    requires g.cols == |d|
    ensures Mul(Mul(g, Diag(d)), T(g)) == WeightedGram(d, T(g))
  {
    forall x: Vec | |x| == g.rows
      ensures MulV(Mul(Mul(g, Diag(d)), T(g)), x) == MulV(WeightedGram(d, T(g)), x)
    {
      MulAct(Mul(g, Diag(d)), T(g), x);
      MulAct(g, Diag(d), MulV(T(g), x));
      DiagAct(d, MulV(T(g), x));
      WeightedGramAct(d, T(g), x);
      TransposeTwice(g);
    }
    ActsTheSame(Mul(Mul(g, Diag(d)), T(g)), WeightedGram(d, T(g)));
  }

  lemma CongruenceInvertible(f: Mat, fi: Mat, p: Mat, pi: Mat)
    requires IsInverse(f, fi) && IsInverse(p, pi) && f.rows == p.rows
    ensures IsInverse(Mul(Mul(f, p), T(f)), Mul(Mul(T(fi), pi), fi))
  {
    TransposeInverse(f, fi);
    ProductInverse(f, fi, p, pi);
    ProductInverse(Mul(f, p), Mul(pi, fi), T(f), T(fi));
    MulAssoc(T(fi), pi, fi);
  }

  lemma TransposeInverse(a: Mat, b: Mat)
    requires IsInverse(a, b)
    ensures IsInverse(T(a), T(b))
  {
    TransposeMul(a, b); TransposeMul(b, a);
    TransposeId(a.rows);
  }

  lemma ProductInverse(a: Mat, ai: Mat, b: Mat, bi: Mat)
    requires IsInverse(a, ai) && IsInverse(b, bi) && a.rows == b.rows
    ensures IsInverse(Mul(a, b), Mul(bi, ai))
  {
    CancelMiddle(a, ai, b, bi);
    CancelMiddle(bi, b, ai, a);
  }

  lemma CancelMiddle(a: Mat, ai: Mat, b: Mat, bi: Mat)
    requires a.cols == a.rows == ai.rows == ai.cols == b.rows == b.cols == bi.rows == bi.cols
    requires Mul(a, ai) == Id(a.rows) && Mul(b, bi) == Id(a.rows)
    ensures Mul(Mul(a, b), Mul(bi, ai)) == Id(a.rows)
  {
    hide Mul, Id;
    MulAssoc(a, b, Mul(bi, ai));
    MulAssoc(b, bi, ai);
    MulId(ai);
  }

  /** With an invertible transition and a diagonal noise, P also stays invertible. */
  lemma PredictKeepsInvertible(p: Mat, d: Vec, fx: Mat, fw: Mat, dt: real, n: nat)
    requires fx.rows == fx.cols == fw.rows == n && fw.cols == |d|
    requires Sound(p, n) && Invertible(Transition(fx, dt))
    requires forall i :: 0 <= i < |d| ==> d[i] >= 0.0
    ensures Sound(Propagate(p, Diag(d), fx, fw, dt), n)
  {
    var f, g := Transition(fx, dt), Scale(dt, fw);
    var pi: Mat :| IsInverse(p, pi);
    var fi: Mat :| IsInverse(f, fi);
    CongruenceCovariance(f, p, n, n);
    CongruenceInvertible(f, fi, p, pi);
    NoiseIsGram(d, g);
    var s := GramUpdate(Mul(Mul(f, p), T(f)), Mul(Mul(T(fi), pi), fi), d, T(g), n);
  }

  // ---------- Transitions whose Jacobian only couples upwards ----------

  /** Every nonzero entry of a couples a state to one of a strictly higher level. */
  ghost predicate Graded(a: Mat, level: seq<nat>) {
    && a.rows == a.cols == |level|
    && forall i, j :: 0 <= i < a.rows && 0 <= j < a.rows && a.e[i][j] != 0.0 ==> level[i] < level[j]
  }

  /** x is zero in every state of level at least l. */
  ghost predicate ZeroFrom(x: Vec, level: seq<nat>, l: nat) {
    |x| == |level| && forall i :: 0 <= i < |x| && level[i] >= l ==> x[i] == 0.0
  }

  lemma GradedLowers(a: Mat, level: seq<nat>, l: nat, x: Vec)
    requires Graded(a, level) && ZeroFrom(x, level, l + 1)
    ensures ZeroFrom(MulV(a, x), level, l)
  {
    forall i | 0 <= i < |x| && level[i] >= l ensures MulV(a, x)[i] == 0.0 {
      DotVanishes(a.e[i], x);
    }
  }

  /** I + a is invertible when a is graded over four levels: its inverse is I − a + a² − a³. */
  lemma GradedInvertible(a: Mat, level: seq<nat>)
    requires Graded(a, level) && forall i :: 0 <= i < |level| ==> level[i] < 4
    ensures Invertible(Add(Id(a.rows), a))
  {
    var n := a.rows;
    var f := Add(Id(n), a);
    var a2, a3 := Mul(a, a), Mul(a, Mul(a, a));
    var fi := Add(Sub(Id(n), a), Sub(a2, a3));
    forall x: Vec | |x| == n
      ensures MulV(Mul(f, fi), x) == MulV(Id(n), x) && MulV(Mul(fi, f), x) == MulV(Id(n), x)
    {
      MulAct(f, fi, x); MulAct(fi, f, x); IdAct(x);
      NeumannAct(a, level, x);
    }
    ActsTheSame(Mul(f, fi), Id(n));
    ActsTheSame(Mul(fi, f), Id(n));
    assert IsInverse(f, fi);
  }

  lemma CubeAct(a: Mat, x: Vec)
    requires a.rows == a.cols == |x|
    ensures MulV(Add(Sub(Id(a.rows), a), Sub(Mul(a, a), Mul(a, Mul(a, a)))), x)
         == AddV(SubV(x, MulV(a, x)), SubV(MulV(a, MulV(a, x)), MulV(a, MulV(a, MulV(a, x)))))
  {
    var a2, a3 := Mul(a, a), Mul(a, Mul(a, a));
    AddAct(Sub(Id(a.rows), a), Sub(a2, a3), x);
    SubAct(Id(a.rows), a, x);
    SubAct(a2, a3, x);
    IdAct(x);
    MulAct(a, a, x);
    MulAct(a, a2, x);
  }

  lemma FourthPowerVanishes(a: Mat, level: seq<nat>, x: Vec)
    requires Graded(a, level) && |x| == |level| && forall i :: 0 <= i < |level| ==> level[i] < 4
    ensures MulV(a, MulV(a, MulV(a, MulV(a, x)))) == ZeroV(|x|)
  {
    var x1 := MulV(a, x);
    var x2 := MulV(a, x1);
    var x3 := MulV(a, x2);
    assert ZeroFrom(x, level, 4);
    GradedLowers(a, level, 3, x);
    GradedLowers(a, level, 2, x1);
    GradedLowers(a, level, 1, x2);
    GradedLowers(a, level, 0, x3);
    assert MulV(a, x3) == ZeroV(|x|);
  }

  lemma NeumannAct(a: Mat, level: seq<nat>, x: Vec)
    requires Graded(a, level) && |x| == |level| && forall i :: 0 <= i < |level| ==> level[i] < 4
    ensures var f, fi := Add(Id(a.rows), a), Add(Sub(Id(a.rows), a), Sub(Mul(a, a), Mul(a, Mul(a, a))));
            MulV(f, MulV(fi, x)) == x && MulV(fi, MulV(f, x)) == x
  {
    hide Dot, MulV, Mul, T, Id, Add, Sub;
    var x1 := MulV(a, x);
    var x2 := MulV(a, x1);
    var x3 := MulV(a, x2);
    var x4 := MulV(a, x3);
    FourthPowerVanishes(a, level, x);
    CubeAct(a, x);
    var y := AddV(SubV(x, x1), SubV(x2, x3));
    AddAct(Id(a.rows), a, y); IdAct(y);
    MulVAdd(a, SubV(x, x1), SubV(x2, x3));
    MulVSub(a, x, x1); MulVSub(a, x2, x3);
    Telescope(x, x1, x2, x3, x4);
    var z := AddV(x, x1);
    AddAct(Id(a.rows), a, x); IdAct(x);
    CubeAct(a, z);
    MulVAdd(a, x, x1); MulVAdd(a, x1, x2); MulVAdd(a, x2, x3);
  }

  lemma MulVSub(a: Mat, x: Vec, y: Vec)
    requires |x| == |y| == a.cols
    ensures MulV(a, SubV(x, y)) == SubV(MulV(a, x), MulV(a, y))
  {
    var d := SubV(x, y);
    assert AddV(d, y) == x;
    MulVAdd(a, d, y);
    assert SubV(AddV(MulV(a, d), MulV(a, y)), MulV(a, y)) == MulV(a, d);
  }

  lemma Telescope(x: Vec, x1: Vec, x2: Vec, x3: Vec, x4: Vec)
    requires |x| == |x1| == |x2| == |x3| == |x4| && x4 == ZeroV(|x|)
    ensures AddV(AddV(SubV(x, x1), SubV(x2, x3)), AddV(SubV(x1, x2), SubV(x3, x4))) == x
    ensures AddV(SubV(AddV(x, x1), AddV(x1, x2)), SubV(AddV(x2, x3), AddV(x3, x4))) == x
  {
  }
}
