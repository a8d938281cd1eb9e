/** The error-state filter object: prediction, the iterated update with its own loop control,
    and what both keep over a whole run. The state manifold X is abstract: `plus` and `minus`
    stand for the generalised addition and subtraction. */
module Esekf {
  import opened Reals
  import opened Matrices
  import opened Information
  import opened Kalman

  const EPSI := 0.001

  /** One evaluation of the measurement model: residual and Jacobian, or no usable points. */
  datatype Obs = Obs(valid: bool, h: Vec, hx: Mat)

  /** Everything one update call is given. `measure` sees the pass number, the current
      iterate and the flag that asks for a fresh neighbour search. */
  datatype Model<!X> = Model(
    n: nat,
    plus: (X, Vec) -> X,
    minus: (X, X) -> Vec,
    measure: (int, X, bool) -> Obs,
    inv: Mat -> Mat,
    noise: real,
    maxIter: int)

  ghost predicate Fits<X(!new)>(m: Model<X>) {
    && m.noise > 0.0 && Inverts(m.inv)
    && (forall x: X, y: X :: |m.minus(x, y)| == m.n)
    && (forall i: int, x: X, c: bool :: ObsFits(m.measure(i, x, c), m.n))
  }

  predicate ObsFits(o: Obs, n: nat) {
    o.valid ==> o.hx.cols <= n && |o.h| == o.hx.rows
  }

  // ---------- One pass ----------

  /** dx = K·h + (KH − I)·(x ⊟ x₀). */
  function Correction<X(!new)>(m: Model<X>, x: X, x0: X, p: Mat, o: Obs): (dx: Vec)
    requires Fits(m) && p.rows == p.cols == m.n
    requires o.hx.cols <= m.n && |o.h| == o.hx.rows
    ensures |dx| == m.n
  {
    var front := m.inv(InformationMatrix(o.hx, p, m.noise, m.inv));
    AddV(MulV(Gain(front, o.hx, m.noise), o.h),
         MulV(Sub(GainH(front, o.hx, m.noise), Id(m.n)), m.minus(x, x0)))
  }

  predicate Small(dx: Vec) {
    forall j :: 0 <= j < |dx| ==> -EPSI <= dx[j] <= EPSI
  }

  /** Whether the next pass searches neighbours afresh. */
  predicate SearchAgain(small: bool, t: nat, i: int, maxIter: int) {
    small || (t == 0 && i == maxIter - 2)
  }

  /** A fresh search follows a pass that moved no entry by more than a thousandth; failing that,
      only the pass before the last asks for one, and only when no pass has converged so far. */
  lemma FreshSearchIff(dx: Vec, t: nat, i: int, maxIter: int)
    ensures SearchAgain(Small(dx), t, i, maxIter)
       <==> (forall j :: 0 <= j < |dx| ==> Abs(dx[j]) <= 0.001) || (t == 0 && i + 2 == maxIter)
  {
    forall j | 0 <= j < |dx| ensures Abs(dx[j]) <= 0.001 <==> -EPSI <= dx[j] <= EPSI { }
    if Small(dx) {
      assert forall j :: 0 <= j < |dx| ==> Abs(dx[j]) <= 0.001;
    } else {
      var j :| 0 <= j < |dx| && !(-EPSI <= dx[j] <= EPSI);
      assert Abs(dx[j]) > 0.001;
    }
  }

  // ---------- The whole loop ----------

  /** The state and covariance left behind, how often the covariance was assigned, and how
      many passes ran. */
  datatype Outcome<X> = Outcome(x: X, p: Mat, writes: nat, passes: nat) {
    function AfterPass(): Outcome<X> { Outcome(x, p, writes, passes + 1) }
  }

  function Iterate<X(!new)>(m: Model<X>, i: int, t: nat, x: X, x0: X, p: Mat, search: bool): (r: Outcome<X>)
    requires Fits(m) && p.rows == p.cols == m.n
    ensures r.p.rows == r.p.cols == m.n
    decreases m.maxIter - i
  {
    if i >= m.maxIter then Outcome(x, p, 0, 0)
    else
      var o := m.measure(i, x, search);
      if !o.valid then
        Iterate(m, i + 1, t, x, x0, p, search).AfterPass()
      else
        var dx := Correction(m, x, x0, p, o);
        var t' := if Small(dx) then t + 1 else t;
        var x' := m.plus(x, dx);
        if t' > 1 || i == m.maxIter - 1 then
          Outcome(x', Posterior(o.hx, p, m.noise, m.inv), 1, 1)
        else
          Iterate(m, i + 1, t', x', x0, p, SearchAgain(Small(dx), t', i, m.maxIter)).AfterPass()
  }

  ghost predicate SameEnd<X(!new)>(r: Outcome<X>, q: Outcome<X>) { r.x == q.x && r.p == q.p && r.writes == q.writes }

  lemma SkippedPass<X(!new)>(m: Model<X>, i: int, t: nat, x: X, x0: X, p: Mat, search: bool)
    requires Fits(m) && p.rows == p.cols == m.n && i < m.maxIter && !m.measure(i, x, search).valid
    ensures SameEnd(Iterate(m, i, t, x, x0, p, search), Iterate(m, i + 1, t, x, x0, p, search))
  {
    hide Fits, Correction, Posterior;
  }

  /** A pass with points, the correction it makes and what it leads to. */
  lemma FoundPass<X(!new)>(m: Model<X>, i: int, t: nat, x: X, x0: X, p: Mat, search: bool, dx: Vec)
    requires Fits(m) && p.rows == p.cols == m.n && i < m.maxIter && m.measure(i, x, search).valid
    requires Correction(m, x, x0, p, m.measure(i, x, search)) == dx
    ensures var t' := if Small(dx) then t + 1 else t;
            SameEnd(Iterate(m, i, t, x, x0, p, search),
                    if t' > 1 || i == m.maxIter - 1 then
                      Outcome(m.plus(x, dx), Posterior(m.measure(i, x, search).hx, p, m.noise, m.inv), 1, 1)
                    else
                      Iterate(m, i + 1, t', m.plus(x, dx), x0, p, SearchAgain(Small(dx), t', i, m.maxIter)))
  {
    hide Fits, Correction, Posterior, Small, SearchAgain;
  }

  /** When every pass up to the one before the last moved some entry by more than a thousandth,
      the last pass measures on a fresh neighbour search, whatever the flag was before. */
  lemma LastPassSearchesAfresh<X(!new)>(m: Model<X>, x: X, x0: X, p: Mat, search: bool, dx: Vec, j: nat)
    requires Fits(m) && p.rows == p.cols == m.n && m.measure(m.maxIter - 2, x, search).valid
    requires Correction(m, x, x0, p, m.measure(m.maxIter - 2, x, search)) == dx
    requires j < |dx| && Abs(dx[j]) > 0.001
    ensures var o := m.measure(m.maxIter - 1, m.plus(x, dx), true);
            var r := Iterate(m, m.maxIter - 2, 0, x, x0, p, search);
            if o.valid then
              && r.x == m.plus(m.plus(x, dx), Correction(m, m.plus(x, dx), x0, p, o))
              && r.p == Posterior(o.hx, p, m.noise, m.inv)
            else
              r.x == m.plus(x, dx) && r.p == p
  {
    hide Fits, Correction, Posterior;
    var i, x' := m.maxIter - 1, m.plus(x, dx);
    assert !Small(dx);
    FoundPass(m, i - 1, 0, x, x0, p, search, dx);
    var o := m.measure(i, x', true);
    if o.valid {
      MeasuredFits(m, i, x', true);
      FoundPass(m, i, 0, x', x0, p, true, Correction(m, x', x0, p, o));
    } else {
      SkippedPass(m, i, 0, x', x0, p, true);
      NoPassLeft(m, i + 1, 0, x', x0, p, true);
    }
  }

  /** Whatever the measurements do, the update leaves an invertible covariance no larger than
      before, written at most once. */
  lemma {:induction false} UpdateIsSafe<X(!new)>(
    m: Model<X>, i: int, t: nat, x: X, x0: X, p: Mat, search: bool)
    requires Fits(m) && Sound(p, m.n)
    ensures var r := Iterate(m, i, t, x, x0, p, search);
            && Sound(r.p, m.n) && NoLarger(r.p, p)
            && r.writes <= 1 && (r.writes == 0 ==> r.p == p)
    decreases m.maxIter - i
  {
    hide Correction, Posterior, Small, Quad, T, Mul, Id;
    if i < m.maxIter {
      var o := m.measure(i, x, search);
      if !o.valid {
        UpdateIsSafe(m, i + 1, t, x, x0, p, search);
      } else {
        var dx := Correction(m, x, x0, p, o);
        var t' := if Small(dx) then t + 1 else t;
        if t' > 1 || i == m.maxIter - 1 {
          UpdateKeepsCovariance(o.hx, p, m.noise, m.inv, m.n);
        } else {
          UpdateIsSafe(m, i + 1, t', m.plus(x, dx), x0, p, SearchAgain(Small(dx), t', i, m.maxIter));
        }
      }
    }
  }

  /** If the last pass always finds points, the covariance is written exactly once. */
  lemma {:induction false} LastPassWrites<X(!new)>(
    m: Model<X>, i: int, t: nat, x: X, x0: X, p: Mat, search: bool)
    requires Fits(m) && p.rows == p.cols == m.n && i < m.maxIter
    requires forall k: int, y: X, c: bool :: k == m.maxIter - 1 ==> m.measure(k, y, c).valid
    ensures var r := Iterate(m, i, t, x, x0, p, search);
            r.writes == 1 && r.passes <= m.maxIter - i
    decreases m.maxIter - i
  {
    hide Correction, Posterior, Small;
    var o := m.measure(i, x, search);
    if !o.valid {
      assert i != m.maxIter - 1;
      LastPassWrites(m, i + 1, t, x, x0, p, search);
    } else {
      var dx := Correction(m, x, x0, p, o);
      var t' := if Small(dx) then t + 1 else t;
      if !(t' > 1 || i == m.maxIter - 1) {
        LastPassWrites(m, i + 1, t', m.plus(x, dx), x0, p, SearchAgain(Small(dx), t', i, m.maxIter));
      }
    }
  }

  /** Passes without points change nothing at all. */
  lemma {:induction false} EmptyPassesChangeNothing<X(!new)>(
    m: Model<X>, i: int, t: nat, x: X, x0: X, p: Mat, search: bool)
    requires Fits(m) && p.rows == p.cols == m.n
    requires forall k: int, y: X, c: bool :: i <= k ==> !m.measure(k, y, c).valid
    ensures var r := Iterate(m, i, t, x, x0, p, search);
            r.x == x && r.p == p && r.writes == 0
    decreases m.maxIter - i
  {
    if i < m.maxIter {
      EmptyPassesChangeNothing(m, i + 1, t, x, x0, p, search);
    }
  }

  /** The loop can move the state and never touch the covariance: points in the first pass and
      in no later one do it for every iteration limit above zero. */
  lemma StateMovesCovarianceStays<X(!new)>(m: Model<X>, x0: X, p: Mat)
    requires Fits(m) && p.rows == p.cols == m.n && m.maxIter > 0
    requires m.measure(-1, x0, true).valid
    requires forall k: int, y: X, c: bool :: 0 <= k ==> !m.measure(k, y, c).valid
    ensures var r := Iterate(m, -1, 0, x0, x0, p, true);
            && r.x == m.plus(x0, Correction(m, x0, x0, p, m.measure(-1, x0, true)))
            && r.p == p && r.writes == 0
  {
    var dx := Correction(m, x0, x0, p, m.measure(-1, x0, true));
    var t' := if Small(dx) then 1 else 0;
    EmptyPassesChangeNothing(m, 0, t', m.plus(x0, dx), x0, p, SearchAgain(Small(dx), t', -1, m.maxIter));
  }

  // ---------- A linear residual ----------

  function Plus(u: Vec, v: Vec): Vec { if |u| == |v| then AddV(u, v) else u }

  /** On the vector state, residual h0 − H·(x − x₀) with a fixed Jacobian. */
  ghost predicate Linear(m: Model<Vec>, x0: Vec, h0: Vec, hx: Mat) {
    && |x0| == m.n && |h0| == hx.rows && hx.cols <= m.n
    && m.plus == Plus
    && (forall x: Vec :: |x| == m.n ==> m.minus(x, x0) == SubV(x, x0))
    && (forall i: int, x: Vec, c: bool :: |x| == m.n ==>
          m.measure(i, x, c) == Obs(true, LinearResidual(h0, hx, SubV(x, x0)), hx))
  }

  function LinearResidual(h0: Vec, hx: Mat, d: Vec): (r: Vec)
    requires |h0| == hx.rows && hx.cols <= |d|
    ensures |r| == |h0|
  {
    SubV(h0, MulV(hx, d[..hx.cols]))
  }

  /** Where a linear update lands: x₀ + K·h0. */
  function Landing(m: Model<Vec>, x0: Vec, p: Mat, h0: Vec, hx: Mat): (r: Vec)
    requires Fits(m) && p.rows == p.cols == m.n == |x0| && |h0| == hx.rows && hx.cols <= m.n
    ensures |r| == m.n
  {
    AddV(x0, MulV(Gain(m.inv(InformationMatrix(hx, p, m.noise, m.inv)), hx, m.noise), h0))
  }

  /** For a linear residual every pass leads to the landing point, wherever it starts. */
  lemma LinearCorrection(m: Model<Vec>, x: Vec, x0: Vec, p: Mat, h0: Vec, hx: Mat)
    requires Fits(m) && Linear(m, x0, h0, hx) && p.rows == p.cols == m.n == |x|
    ensures var o := Obs(true, LinearResidual(h0, hx, SubV(x, x0)), hx);
            AddV(x, Correction(m, x, x0, p, o)) == Landing(m, x0, p, h0, hx)
  {
    hide Dot, MulV, Mul, Gain, GainH, InformationMatrix, Sub, Id, LinearResidual, SubV, AddV;
    var d := SubV(x, x0);
    var front := m.inv(InformationMatrix(hx, p, m.noise, m.inv));
    var k := Gain(front, hx, m.noise);
    LinearCorrectionParts(front, hx, m.noise, h0, d);
    LandingSum(x, x0, MulV(k, h0), d);
  }

  lemma LandingSum(x: Vec, x0: Vec, kh: Vec, d: Vec)
    requires |x| == |x0| == |kh| && d == SubV(x, x0)
    ensures AddV(x, SubV(kh, d)) == AddV(x0, kh)
  {
  }

  lemma LinearCorrectionParts(front: Mat, hx: Mat, noise: real, h0: Vec, d: Vec)
    requires front.rows == front.cols == |d| && hx.cols <= |d| && noise != 0.0 && |h0| == hx.rows
    ensures var k := Gain(front, hx, noise);
            AddV(MulV(k, LinearResidual(h0, hx, d)), MulV(Sub(GainH(front, hx, noise), Id(|d|)), d))
            == SubV(MulV(k, h0), d)
  {
    hide Dot, MulV, Mul, Gain, Sub, Id, SubV, AddV;
    var k, hd := Gain(front, hx, noise), MulV(hx, d[..hx.cols]);
    MulVSub(k, h0, hd);
    SubAct(GainH(front, hx, noise), Id(|d|), d);
    IdAct(d);
    PadColsAct(Mul(k, hx), d);
    MulAct(k, hx, d[..hx.cols]);
    CancelTerm(MulV(k, h0), MulV(k, hd), d);
  }

  lemma CancelTerm(u: Vec, v: Vec, d: Vec)
    requires |u| == |v| == |d|
    ensures AddV(SubV(u, v), SubV(v, d)) == SubV(u, d)
  {
  }

  lemma NoCorrectionAtLanding(m: Model<Vec>, x0: Vec, p: Mat, h0: Vec, hx: Mat)
    requires Fits(m) && Linear(m, x0, h0, hx) && p.rows == p.cols == m.n
    ensures var x := Landing(m, x0, p, h0, hx);
            Small(Correction(m, x, x0, p, Obs(true, LinearResidual(h0, hx, SubV(x, x0)), hx)))
  {
    hide Correction, Landing, LinearResidual, SubV;
    var x := Landing(m, x0, p, h0, hx);
    var dx := Correction(m, x, x0, p, Obs(true, LinearResidual(h0, hx, SubV(x, x0)), hx));
    LinearCorrection(m, x, x0, p, h0, hx);
    forall j | 0 <= j < |dx| ensures dx[j] == 0.0 {
      assert AddV(x, dx)[j] == x[j] + dx[j];
    }
  }

  /** For a linear residual the first pass already lands on the fixed point x₀ + K·h0, the
      second pass changes nothing, at most three passes run, and the covariance is written
      exactly once. */
  lemma LinearUpdateConverges(m: Model<Vec>, x0: Vec, p: Mat, h0: Vec, hx: Mat)
    requires Fits(m) && Linear(m, x0, h0, hx) && p.rows == p.cols == m.n && m.maxIter >= 0
    ensures var r := Iterate(m, -1, 0, x0, x0, p, true);
            var first := Correction(m, x0, x0, p, Obs(true, LinearResidual(h0, hx, SubV(x0, x0)), hx));
            && r.x == Landing(m, x0, p, h0, hx)
            && r.p == Posterior(hx, p, m.noise, m.inv)
            && r.writes == 1
            && r.passes == if m.maxIter == 0 then 1
                           else if Small(first) || m.maxIter == 1 then 2 else 3
  {
    hide Correction, Landing, LinearResidual, SubV, Posterior;
    var land := Landing(m, x0, p, h0, hx);
    LinearCorrection(m, x0, x0, p, h0, hx);
    LinearCorrection(m, land, x0, p, h0, hx);
    NoCorrectionAtLanding(m, x0, p, h0, hx);
    var first := Correction(m, x0, x0, p, Obs(true, LinearResidual(h0, hx, SubV(x0, x0)), hx));
    var t1 := if Small(first) then 1 else 0;
    if m.maxIter > 0 {
      LandedPass(m, 0, t1, x0, p, h0, hx, SearchAgain(Small(first), t1, -1, m.maxIter));
      if m.maxIter > 1 && t1 == 0 {
        LandedPass(m, 1, 1, x0, p, h0, hx, true);
      }
    }
  }

  /** A pass that starts at the landing point stays there and counts as converged. */
  lemma LandedPass(m: Model<Vec>, i: int, t: nat, x0: Vec, p: Mat, h0: Vec, hx: Mat, search: bool)
    requires Fits(m) && Linear(m, x0, h0, hx) && p.rows == p.cols == m.n && i < m.maxIter
    ensures var land := Landing(m, x0, p, h0, hx);
            var r := Iterate(m, i, t, land, x0, p, search);
            if t + 1 > 1 || i == m.maxIter - 1 then
              r == Outcome(land, Posterior(hx, p, m.noise, m.inv), 1, 1)
            else
              r == Iterate(m, i + 1, t + 1, land, x0, p, true).AfterPass()
  {
    hide Correction, Landing, LinearResidual, SubV, Posterior;
    LinearCorrection(m, Landing(m, x0, p, h0, hx), x0, p, h0, hx);
    NoCorrectionAtLanding(m, x0, p, h0, hx);
  }

  // ---------- The motion model's Jacobians ----------

  /** How far a state is from position along the coupling chain
      position ← velocity ← rotation ← gyro bias (and velocity ← accelerometer bias, gravity). */
  function Level(i: nat): (l: nat)
    ensures l < 4
  {
    if i < 3 then 0          // position
    else if i < 6 then 2     // rotation
    else if i < 12 then 0    // LiDAR-IMU offset
    else if i < 15 then 1    // velocity
    else 3                   // gyro bias, accelerometer bias, gravity
  }

  const LEVELS: seq<nat> := seq(24, i requires 0 <= i => Level(i))

  function UnitAt(i: int, j: int): real { if i == j then 1.0 else 0.0 }

  /** The cross-product matrix of a. */
  function Skew(a: Vec): (r: Mat)
    requires |a| == 3
    ensures r.rows == 3 && r.cols == 3
  {
    RawMat(3, 3, [[0.0, -a[2], a[1]], [a[2], 0.0, -a[0]], [-a[1], a[0], 0.0]])
  }

  function DfDxEntry(rot: Mat, acc: Vec, i: nat, j: nat): real
    requires rot.rows == rot.cols == |acc| == 3 && i < 24 && j < 24
  {
    if i < 3 && 12 <= j < 15 then UnitAt(i, j - 12)
    else if 12 <= i < 15 && 3 <= j < 6 then -Mul(rot, Skew(acc)).e[i - 12][j - 3]
    else if 12 <= i < 15 && 18 <= j < 21 then -rot.e[i - 12][j - 18]
    else if 12 <= i < 15 && 21 <= j < 24 then UnitAt(i - 12, j - 21)
    else if 3 <= i < 6 && 15 <= j < 18 then -UnitAt(i - 3, j - 15)
    else 0.0
  }

  function DfDx(rot: Mat, acc: Vec): (r: Mat)
    requires rot.rows == rot.cols == |acc| == 3
    ensures r.rows == 24 && r.cols == 24
  {
    RawMat(24, 24, seq(24, i requires 0 <= i < 24 =>
      seq(24, j requires 0 <= j < 24 => DfDxEntry(rot, acc, i, j))))
  }

  function DfDwEntry(rot: Mat, i: nat, j: nat): real
    requires rot.rows == rot.cols == 3 && i < 24 && j < 12
  {
    if 12 <= i < 15 && 3 <= j < 6 then -rot.e[i - 12][j - 3]
    else if 3 <= i < 6 && j < 3 then -UnitAt(i - 3, j)
    else if 15 <= i < 18 && 6 <= j < 9 then UnitAt(i - 15, j - 6)
    else if 18 <= i < 21 && 9 <= j < 12 then UnitAt(i - 18, j - 9)
    else 0.0
  }

  function DfDw(rot: Mat): (r: Mat)
    requires rot.rows == rot.cols == 3
    ensures r.rows == 24 && r.cols == 12
  {
    RawMat(24, 12, seq(24, i requires 0 <= i < 24 =>
      seq(12, j requires 0 <= j < 12 => DfDwEntry(rot, i, j))))
  }

  /** The transition I + dt·df/dx can be inverted for every attitude, acceleration and step. */
  lemma TransitionInvertible(rot: Mat, acc: Vec, dt: real)
    requires rot.rows == rot.cols == |acc| == 3
    ensures Invertible(Transition(DfDx(rot, acc), dt))
  {
    var fx := DfDx(rot, acc);
    var a := Scale(dt, fx);
    forall i, j | 0 <= i < 24 && 0 <= j < 24 && a.e[i][j] != 0.0 ensures LEVELS[i] < LEVELS[j] {
      assert a.e[i][j] == Prod(dt, fx.e[i][j]);
      assert fx.e[i][j] == DfDxEntry(rot, acc, i, j) != 0.0;
    }
    GradedInvertible(a, LEVELS);
  }

  // ---------- Whole runs ----------

  /** What happens to the filter between two scans. The predicted state x is whatever the
      motion model made of it; rot and acc are read from the state before the step. */
  datatype FilterStep<!X> =
    | PredictStep(x: X, dt: real, rot: Mat, acc: Vec, q: Vec)
    | UpdateStep(m: Model<X>)
    | InitStep(x: X)

  datatype Filter<X> = Filter(x: X, p: Mat)

  predicate Nonnegative(q: Vec) { forall i :: 0 <= i < |q| ==> q[i] >= 0.0 }

  ghost predicate StepOk<X(!new)>(s: FilterStep<X>) {
    && (s.PredictStep? ==>
          s.rot.rows == s.rot.cols == |s.acc| == 3 && |s.q| == 12 && Nonnegative(s.q))
    && (s.UpdateStep? ==> s.m.n == 24 && Fits(s.m))
  }

  /** The diagonal the start-up code assigns to P. */
  function InitDiagonal(i: nat): (d: real)
    ensures d > 0.0
  {
    if i < 6 || 12 <= i < 15 then 1.0
    else if i < 12 || i >= 21 then 0.00001
    else if i < 18 then 0.0001
    else 0.001
  }

  function InitP(): (p: Mat)
    ensures p.rows == p.cols == 24
  {
    Diag(seq(24, i requires 0 <= i => InitDiagonal(i)))
  }

  /** The variance each state starts with, and nothing that couples two of them. */
  lemma StartVariances(x: Vec)
    requires |x| == 24
    ensures var y := MulV(InitP(), x);
            && (forall i :: 0 <= i < 6 || 12 <= i < 15 ==> y[i] == x[i])
            && (forall i :: 6 <= i < 12 || 21 <= i < 24 ==> 100000.0 * y[i] == x[i])
            && (forall i :: 15 <= i < 18 ==> 10000.0 * y[i] == x[i])
            && (forall i :: 18 <= i < 21 ==> 1000.0 * y[i] == x[i])
  {
    hide MulV, Dot, Diag;
    DiagAct(seq(24, i requires 0 <= i => InitDiagonal(i)), x);
  }

  function Apply<X(!new)>(f: Filter<X>, s: FilterStep<X>): (r: Filter<X>)
    requires StepOk(s) && f.p.rows == f.p.cols == 24
    ensures r.p.rows == r.p.cols == 24
  {
    if s.PredictStep? then
      Filter(s.x, Propagate(f.p, Diag(s.q), DfDx(s.rot, s.acc), DfDw(s.rot), s.dt))
    else if s.UpdateStep? then
      Filter(Iterate(s.m, -1, 0, f.x, f.x, f.p, true).x, Iterate(s.m, -1, 0, f.x, f.x, f.p, true).p)
    else
      Filter(s.x, InitP())
  }

  /** A prediction carries every direction back through the motion model of the state before it. */
  lemma PredictStepVariance<X(!new)>(f: Filter<X>, s: FilterStep<X>, v: Vec)
    requires StepOk(s) && s.PredictStep? && f.p.rows == f.p.cols == 24 == |v|
    ensures var (fx, fw) := (DfDx(s.rot, s.acc), DfDw(s.rot));
            Quad(Apply(f, s).p, v)
            == Quad(f.p, AddV(v, ScaleV(s.dt, MulV(T(fx), v)))) + Quad(Diag(s.q), ScaleV(s.dt, MulV(T(fw), v)))
  {
    hide Propagate, DfDx, DfDw, Diag, Quad, T, MulV;
    PropagateQuad(f.p, Diag(s.q), DfDx(s.rot, s.acc), DfDw(s.rot), s.dt, v);
  }

  /** A positive diagonal is an invertible covariance. */
  lemma DiagSound(d: Vec)
    requires forall i :: 0 <= i < |d| ==> d[i] > 0.0
    ensures Sound(Diag(d), |d|)
  {
    var e := seq(|d|, i requires 0 <= i < |d| => 1.0 / d[i]);
    DiagInverse(d, e);
    TransposeDiag(d);
    forall x: Vec | |x| == |d| ensures Quad(Diag(d), x) >= 0.0 {
      DiagAct(d, x);
      WeightedSquares(d, x);
    }
  }

  lemma DiagInverse(d: Vec, e: Vec)
    requires |d| == |e|
    requires forall i :: 0 <= i < |d| ==> d[i] > 0.0 && e[i] == 1.0 / d[i]
    ensures IsInverse(Diag(d), Diag(e))
  {
    hide Dot, MulV, Mul, Id, Diag, Prod, Times;
    var n := |d|;
    forall x: Vec | |x| == n
      ensures MulV(Mul(Diag(d), Diag(e)), x) == MulV(Id(n), x)
      ensures MulV(Mul(Diag(e), Diag(d)), x) == MulV(Id(n), x)
    {
      MulAct(Diag(d), Diag(e), x); MulAct(Diag(e), Diag(d), x); IdAct(x);
      DiagAct(d, x); DiagAct(e, x); DiagAct(d, Times(e, x)); DiagAct(e, Times(d, x));
      ReciprocalTimes(d, e, x);
    }
    ActsTheSame(Mul(Diag(d), Diag(e)), Id(n));
    ActsTheSame(Mul(Diag(e), Diag(d)), Id(n));
  }

  lemma TransposeDiag(d: Vec)
    ensures T(Diag(d)) == Diag(d)
  {
    forall i | 0 <= i < |d| ensures T(Diag(d)).e[i] == Diag(d).e[i] {
      forall j | 0 <= j < |d| ensures T(Diag(d)).e[i][j] == Diag(d).e[i][j] { }
    }
    assert T(Diag(d)).e == Diag(d).e;
  }

  lemma ReciprocalTimes(d: Vec, e: Vec, x: Vec)
    requires |d| == |e| == |x|
    requires forall i :: 0 <= i < |d| ==> d[i] > 0.0 && e[i] == 1.0 / d[i]
    ensures Times(d, Times(e, x)) == x && Times(e, Times(d, x)) == x
  {
    forall i | 0 <= i < |x|
      ensures Times(d, Times(e, x))[i] == x[i] && Times(e, Times(d, x))[i] == x[i]
    {
      Reciprocal(d[i], x[i]);
    }
  }

  lemma Reciprocal(d: real, x: real)
    requires d > 0.0
    ensures Prod(d, Prod(1.0 / d, x)) == x && Prod(1.0 / d, Prod(d, x)) == x
  {
  }

  lemma {:induction false} WeightedSquares(d: Vec, x: Vec)
    requires |d| == |x| && forall i :: 0 <= i < |d| ==> d[i] > 0.0
    ensures Dot(x, Times(d, x)) >= 0.0
  {
    if x != [] {
      assert Times(d, x)[1..] == Times(d[1..], x[1..]);
      WeightedSquares(d[1..], x[1..]);
      PositiveSquare(d[0], x[0]);
    }
  }

  lemma PositiveSquare(d: real, x: real)
    requires d > 0.0
    ensures x * Prod(d, x) >= 0.0
  {
  }

  function Run<X(!new)>(f: Filter<X>, steps: seq<FilterStep<X>>): Filter<X>
    requires f.p.rows == f.p.cols == 24
    requires forall s :: s in steps ==> StepOk(s)
    decreases |steps|
  {
    if steps == [] then f else Run(Apply(f, steps[0]), steps[1..])
  }

  lemma StepKeepsSound<X(!new)>(f: Filter<X>, s: FilterStep<X>)
    requires StepOk(s) && Sound(f.p, 24)
    ensures Sound(Apply(f, s).p, 24)
  {
    hide Propagate, Iterate, DfDx, DfDw, Diag, T, Mul, Id, Quad, Transition;
    match s
    case PredictStep(x, dt, rot, acc, q) =>
      TransitionInvertible(rot, acc, dt);
      PredictKeepsInvertible(f.p, q, DfDx(rot, acc), DfDw(rot), dt, 24);
    case UpdateStep(m) =>
      UpdateIsSafe(m, -1, 0, f.x, f.x, f.p, true);
    case InitStep(_) =>
      DiagSound(seq(24, i requires 0 <= i => InitDiagonal(i)));
  }

  /** Over every run of predictions, updates and start-up resets, P stays a symmetric positive
      semidefinite matrix that can be inverted, so the update's inverses always exist. */
  lemma {:induction false} RunKeepsSound<X(!new)>(f: Filter<X>, steps: seq<FilterStep<X>>)
    requires Sound(f.p, 24) && forall s :: s in steps ==> StepOk(s)
    ensures Sound(Run(f, steps).p, 24)
    decreases |steps|
  {
    if steps != [] {
      assert steps[0] in steps;
      StepKeepsSound(f, steps[0]);
      RunKeepsSound(Apply(f, steps[0]), steps[1..]);
    }
  }

  lemma MeasuredFits<X(!new)>(m: Model<X>, i: int, x: X, search: bool)
    requires Fits(m)
    ensures m.noise > 0.0 && Inverts(m.inv) && ObsFits(m.measure(i, x, search), m.n)
  {
  }

  lemma NoPassLeft<X(!new)>(m: Model<X>, i: int, t: nat, x: X, x0: X, p: Mat, search: bool)
    requires Fits(m) && p.rows == p.cols == m.n && i >= m.maxIter
    ensures Iterate(m, i, t, x, x0, p, search) == Outcome(x, p, 0, 0)
  {
    hide Fits;
  }

  // ---------- The object ----------

  class Filterer<X(!new)> {
    var x: X
    var p: Mat
    const n: nat

    ghost predicate Valid()
      reads this
    {
      Covariance(p, n)
    }

    constructor (x: X, n: nat)
      ensures Valid() && Sound(p, n) && this.x == x && this.n == n && p == Id(n)
    {
      this.x := x;
      this.n := n;
      p := Id(n);
      new;
      IdCovariance(n);
    }

    /** One prediction: the state moves by dt times its rate, the covariance is propagated. */
    method Predict(dt: real, q: Mat, f: Vec, fx: Mat, fw: Mat, plus: (X, Vec) -> X)
      requires Valid() && |f| == n && fx.rows == fx.cols == fw.rows == n
      requires Covariance(q, fw.cols)
      modifies this
      ensures Valid()
      ensures x == plus(old(x), ScaleV(dt, f))
      ensures p == Propagate(old(p), q, fx, fw, dt)
    {
      hide Propagate, Transition, ScaleV, T, Mul, Id, Quad;
      var before := p;
      PredictKeepsCovariance(before, q, fx, fw, dt, n);
      var after := Propagate(before, q, fx, fw, dt);
      x := plus(x, ScaleV(dt, f));
      p := after;
    }

    /** One iterated update. */
    method Update(m: Model<X>)
      requires Sound(p, n) && m.n == n && Fits(m)
      modifies this
      ensures Valid() && Sound(p, n)
      ensures var r := Iterate(m, -1, 0, old(x), old(x), old(p), true); x == r.x && p == r.p
      ensures NoLarger(p, old(p))
    {
      hide Correction, Posterior, Small, Fits, Iterate, NoLarger, Invertible, Symmetric, PosSemidef;
      var start, t, search, i := x, 0, true, -1;
      ghost var goal := Iterate(m, -1, 0, x, x, p, true);
      UpdateIsSafe(m, -1, 0, x, x, p, true);
      while i < m.maxIter
        invariant p == old(p) && t <= 1 && start == old(x)
        invariant SameEnd(Iterate(m, i, t, x, start, p, search), goal)
        decreases m.maxIter - i
      {
        var o := m.measure(i, x, search);
        if o.valid {
          MeasuredFits(m, i, x, search);
          var dx := Correction(m, x, start, p, o);
          FoundPass(m, i, t, x, start, p, search, dx);
          x := m.plus(x, dx);
          search := Small(dx);
          if search { t := t + 1; }
          if t == 0 && i == m.maxIter - 2 { search := true; }
          if t > 1 || i == m.maxIter - 1 {
            p := Posterior(o.hx, p, m.noise, m.inv);
            return;
          }
        } else {
          SkippedPass(m, i, t, x, start, p, search);
        }
        i := i + 1;
      }
      NoPassLeft(m, i, t, x, start, p, search);
    }
  }
}
