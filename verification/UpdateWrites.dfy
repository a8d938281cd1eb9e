/** When the iterated update writes its covariance: exactly when its last pass finds points. */
module UpdateWrites {
  import opened Reals
  import opened Matrices
  import opened Kalman
  import opened Esekf

  /** Pass i finds points exactly when v says so, whatever the state. */
  ghost predicate Pattern<X(!new)>(m: Model<X>, v: int -> bool) {
    forall i: int, x: X, c: bool :: m.measure(i, x, c).valid <==> v(i)
  }

  /** One update call on the vector state, with its first estimate. */
  ghost predicate Call(m: Model<Vec>, x0: Vec, p: Mat, v: int -> bool, maxIter: int) {
    Fits(m) && Pattern(m, v) && m.maxIter == maxIter && |x0| == p.rows == p.cols == m.n && Sound(p, m.n)
  }

  function Update(m: Model<Vec>, x0: Vec, p: Mat): Outcome<Vec>
    requires Fits(m) && p.rows == p.cols == m.n
  {
    Iterate(m, -1, 0, x0, x0, p, true)
  }

  // ---------- Numbers as matrices ----------

  function One(a: real): (r: Mat)
    ensures r.rows == r.cols == 1
  {
    RawMat(1, 1, [[a]])
  }

  lemma SameOne(m: Mat, a: real)
    requires m.rows == m.cols == 1 && m.e[0][0] == a
    ensures m == One(a)
  {
    assert m.e[0] == [a];
    assert m.e == [[a]];
  }

  lemma DotOne(a: real, b: real)
    ensures Dot([a], [b]) == Prod(a, b)
  {
    assert [a][1..] == [] && [b][1..] == [];
  }

  lemma MulVOne(a: real, x: real)
    ensures MulV(One(a), [x]) == [Prod(a, x)]
  {
    DotOne(a, x);
  }

  lemma TransposeOne(a: real)
    ensures T(One(a)) == One(a)
  {
    SameOne(T(One(a)), a);
  }

  lemma MulOne(a: real, b: real)
    ensures Mul(One(a), One(b)) == One(Prod(b, a))
  {
    TransposeOne(b);
    MulVOne(b, a);
    SameOne(Mul(One(a), One(b)), Prod(b, a));
  }

  lemma AddOne(a: real, b: real)
    ensures Add(One(a), One(b)) == One(a + b)
  {
    SameOne(Add(One(a), One(b)), a + b);
  }

  lemma SubOne(a: real, b: real)
    ensures Sub(One(a), One(b)) == One(a - b)
  {
    SameOne(Sub(One(a), One(b)), a - b);
  }

  lemma ScaleOne(c: real, a: real)
    ensures Scale(c, One(a)) == One(Prod(c, a))
  {
    SameOne(Scale(c, One(a)), Prod(c, a));
  }

  lemma IdOne()
    ensures Id(1) == One(1.0)
  {
    SameOne(Id(1), 1.0);
  }

  lemma BlocksOfOne(a: real)
    ensures LeftCols(One(a), 1) == One(a) && PadCols(One(a), 1) == One(a) && PadSquare(One(a), 1) == One(a)
  {
    SameOne(LeftCols(One(a), 1), a);
    SameOne(PadCols(One(a), 1), a);
    SameOne(PadSquare(One(a), 1), a);
  }

  lemma HalfInvertsTwo()
    ensures IsInverse(One(2.0), One(0.5))
  {
    MulOne(2.0, 0.5);
    MulOne(0.5, 2.0);
    IdOne();
  }

  // ---------- An update that never settles ----------

  /** An inverse of a matrix that has one. */
  ghost function AnInverse(a: Mat): (b: Mat)
    ensures b.rows == a.rows && b.cols == a.cols
    ensures Invertible(a) ==> IsInverse(a, b)
  {
    if Invertible(a) then
      var b: Mat :| IsInverse(a, b);
      b
    else a
  }

  function Minus(u: Vec, v: Vec): (d: Vec)
    ensures |d| == 1
  {
    if |u| == |v| == 1 then SubV(u, v) else [0.0]
  }

  /** The residual that asks for one more step of one, from wherever the state is. */
  function Ahead(x: Vec): (h: Vec)
    ensures |h| == 1
  {
    if |x| == 1 then [2.0 + x[0]] else [0.0]
  }

  function Observed(valid: bool, x: Vec): (o: Obs)
    ensures o.valid == valid && o.hx.cols == 1 && |o.h| == o.hx.rows
  {
    Obs(valid, Ahead(x), One(1.0))
  }

  /** A state of one number, measured directly with unit noise. */
  ghost function Drifting(v: int -> bool, maxIter: int): Model<Vec> {
    Model(1, Plus, Minus, (i: int, x: Vec, c: bool) => Observed(v(i), x), AnInverse, 1.0, maxIter)
  }

  lemma AnInverseInverts()
    ensures Inverts(AnInverse)
  {
  }

  lemma DriftingFits(v: int -> bool, maxIter: int)
    ensures Fits(Drifting(v, maxIter)) && Pattern(Drifting(v, maxIter), v)
    ensures Sound(One(1.0), 1)
  {
    hide Mul, Id, T, Quad;
    IdOne();
    IdCovariance(1);
    assert IsInverse(One(1.0), One(1.0));
    var m := Drifting(v, maxIter);
    AnInverseInverts();
    forall i: int, x: Vec, c: bool ensures ObsFits(m.measure(i, x, c), m.n) && (m.measure(i, x, c).valid <==> v(i)) {
      assert m.measure(i, x, c) == Observed(v(i), x);
    }
    forall x: Vec, y: Vec ensures |m.minus(x, y)| == m.n {
      assert m.minus(x, y) == Minus(x, y);
    }
  }

  lemma DriftingInformation(inv: Mat -> Mat)
    requires Inverts(inv)
    ensures InformationMatrix(One(1.0), One(1.0), 1.0, inv) == One(2.0)
  {
    hide Mul, Add, Scale, T, Id, PadSquare, One;
    IdOne();
    IdCovariance(1);
    InverseOf(inv, One(1.0));
    InverseUnique(One(1.0), One(1.0), inv(One(1.0)));
    TransposeOne(1.0);
    MulOne(1.0, 1.0);
    BlocksOfOne(1.0);
    ScaleOne(1.0, 1.0);
    AddOne(1.0, 1.0);
  }

  lemma DriftingGain(inv: Mat -> Mat)
    requires Inverts(inv)
    ensures inv(InformationMatrix(One(1.0), One(1.0), 1.0, inv)) == One(0.5)
    ensures Gain(One(0.5), One(1.0), 1.0) == One(0.5) && GainH(One(0.5), One(1.0), 1.0) == One(0.5)
  {
    hide InformationMatrix, Mul, Scale, T, PadCols, LeftCols, One, Inverts;
    DriftingInformation(inv);
    HalfInvertsTwo();
    InverseOf(inv, One(2.0));
    InverseUnique(One(2.0), One(0.5), inv(One(2.0)));
    TransposeOne(1.0);
    BlocksOfOne(0.5);
    MulOne(0.5, 1.0);
    ScaleOne(1.0, 0.5);
  }

  /** Every correction is a step of one. */
  lemma StepOfOne(m: Model<Vec>, x: real, o: Obs)
    requires Fits(m) && m.n == 1 && m.noise == 1.0 && m.minus([x], [0.0]) == [x]
    requires o.h == [2.0 + x] && o.hx == One(1.0)
    ensures Correction(m, [x], [0.0], One(1.0), o) == [1.0]
  {
    hide Gain, GainH, InformationMatrix, Mul, Id, Inverts, MulV, Sub, AddV;
    CorrectionByOne(m.inv, 2.0 + x, x);
  }

  lemma CorrectionByOne(inv: Mat -> Mat, h: real, d: real)
    requires Inverts(inv) && h == 2.0 + d
    ensures var front := inv(InformationMatrix(One(1.0), One(1.0), 1.0, inv));
            AddV(MulV(Gain(front, One(1.0), 1.0), [h]), MulV(Sub(GainH(front, One(1.0), 1.0), Id(1)), [d])) == [1.0]
  {
    DriftingGain(inv);
    IdOne();
    SubOne(0.5, 1.0);
    MulVOne(0.5, h);
    MulVOne(-0.5, d);
    hide Gain, GainH, InformationMatrix, Mul, Id, One, Inverts, MulV, Sub;
    assert Prod(0.5, h) + Prod(-0.5, d) == 1.0;
  }

  /** How many of the passes from i on find points. */
  function Found(v: int -> bool, i: int, maxIter: int): nat
    decreases maxIter - i
  {
    if i >= maxIter then 0 else (if v(i) then 1 else 0) + Found(v, i + 1, maxIter)
  }

  /** What the model does to one number, started at zero. */
  ghost predicate Drifts(m: Model<Vec>, v: int -> bool) {
    && Fits(m) && m.n == 1 && m.noise == 1.0
    && (forall i: int, x: Vec, c: bool :: m.measure(i, x, c) == Observed(v(i), x))
    && (forall x: real :: m.plus([x], [1.0]) == [x + 1.0])
    && (forall x: real :: m.minus([x], [0.0]) == [x])
  }

  function From(m: Model<Vec>, i: int, x: real, search: bool): Outcome<Vec>
    requires Fits(m) && m.n == 1
  {
    Iterate(m, i, 0, [x], [0.0], One(1.0), search)
  }

  lemma OneIsLarge()
    ensures !Small([1.0])
  {
    assert [1.0][0] == 1.0;
  }

  lemma PassWithPoints(m: Model<Vec>, v: int -> bool, i: int, x: real, search: bool)
    requires Drifts(m, v) && i < m.maxIter - 1 && v(i)
    ensures SameEnd(From(m, i, x, search), From(m, i + 1, x + 1.0, SearchAgain(false, 0, i, m.maxIter)))
  {
    hide Fits, Correction, Iterate, One, SearchAgain;
    assert m.measure(i, [x], search) == Observed(true, [x]);
    assert m.minus([x], [0.0]) == [x];
    StepOfOne(m, x, Observed(true, [x]));
    assert m.plus([x], [1.0]) == [x + 1.0];
    OneIsLarge();
    FoundPass(m, i, 0, [x], [0.0], One(1.0), search, [1.0]);
  }

  lemma PassWithout(m: Model<Vec>, v: int -> bool, i: int, x: real, search: bool)
    requires Drifts(m, v) && i < m.maxIter && !v(i)
    ensures SameEnd(From(m, i, x, search), From(m, i + 1, x, search))
  {
    hide Fits, Correction, Iterate, One;
    assert m.measure(i, [x], search) == Observed(false, [x]);
    SkippedPass(m, i, 0, [x], [0.0], One(1.0), search);
  }

  /** Without points in the last pass this update moves by one at every pass with points and never
      writes. */
  lemma {:induction false} DriftingRun(m: Model<Vec>, v: int -> bool, i: int, x: real, search: bool)
    requires Drifts(m, v) && i <= m.maxIter && !v(m.maxIter - 1)
    ensures SameEnd(From(m, i, x, search), Outcome([x + Found(v, i, m.maxIter) as real], One(1.0), 0, 0))
    decreases m.maxIter - i
  {
    hide Fits, Iterate, One, SearchAgain;
    if i < m.maxIter {
      if v(i) {
        PassWithPoints(m, v, i, x, search);
        DriftingRun(m, v, i + 1, x + 1.0, SearchAgain(false, 0, i, m.maxIter));
      } else {
        PassWithout(m, v, i, x, search);
        DriftingRun(m, v, i + 1, x, search);
      }
    } else {
      NoPassLeft(m, i, 0, [x], [0.0], One(1.0), search);
    }
  }

  lemma DriftingDrifts(v: int -> bool, maxIter: int)
    ensures Drifts(Drifting(v, maxIter), v)
  {
    hide Fits, Pattern, AnInverse, Observed, Minus, Plus;
    DriftingFits(v, maxIter);
    PlusMinusOne();
  }

  lemma PlusMinusOne()
    ensures forall x: real :: Plus([x], [1.0]) == [x + 1.0]
    ensures forall x: real :: Minus([x], [0.0]) == [x]
  {
    hide AddV, SubV;
    forall x: real ensures Plus([x], [1.0]) == [x + 1.0] && Minus([x], [0.0]) == [x] {
      assert AddV([x], [1.0])[0] == x + 1.0;
      assert SubV([x], [0.0])[0] == x;
    }
  }

  lemma DriftingCall(v: int -> bool, maxIter: int)
    ensures Call(Drifting(v, maxIter), [0.0], One(1.0), v, maxIter)
  {
    hide Fits, Pattern, AnInverse, Sound, One;
    DriftingFits(v, maxIter);
  }

  lemma DriftingUpdate(v: int -> bool, maxIter: int)
    requires maxIter >= 0 && !v(maxIter - 1)
    ensures Call(Drifting(v, maxIter), [0.0], One(1.0), v, maxIter)
    ensures SameEnd(Update(Drifting(v, maxIter), [0.0], One(1.0)),
                    Outcome([Found(v, -1, maxIter) as real], One(1.0), 0, 0))
  {
    DriftingCall(v, maxIter);
    DriftingDrifts(v, maxIter);
    hide Fits, Pattern, Iterate, One, AnInverse, Sound, Drifts;
    DriftingRun(Drifting(v, maxIter), v, -1, 0.0, true);
  }

  // ---------- The exact conditions ----------

  lemma WritesOnce(m: Model<Vec>, x0: Vec, p: Mat, v: int -> bool, maxIter: int)
    requires maxIter >= 0 && v(maxIter - 1) && Call(m, x0, p, v, maxIter)
    ensures Update(m, x0, p).writes == 1
  {
    hide Iterate, Fits, Invertible, Quad;
    LastPassWrites(m, -1, 0, x0, x0, p, true);
  }

  /** The covariance is written once, by every filter from every sound start, exactly when the last
      pass finds points. */
  lemma WriteIsGuaranteedIff(v: int -> bool, maxIter: int)
    requires maxIter >= 0
    ensures v(maxIter - 1) <==>
            forall m: Model<Vec>, x0: Vec, p: Mat :: Call(m, x0, p, v, maxIter) ==> Update(m, x0, p).writes == 1
  {
    hide Update, Iterate, Sound, Fits, Drifting, One;
    if v(maxIter - 1) {
      forall m: Model<Vec>, x0: Vec, p: Mat | Call(m, x0, p, v, maxIter) ensures Update(m, x0, p).writes == 1 {
        WritesOnce(m, x0, p, v, maxIter);
      }
    } else {
      DriftingUpdate(v, maxIter);
    }
  }

  /** The state has moved and the covariance has not been written. */
  ghost predicate MovedAlone(m: Model<Vec>, x0: Vec, p: Mat, v: int -> bool, maxIter: int) {
    Call(m, x0, p, v, maxIter) && Update(m, x0, p).x != x0 && Update(m, x0, p).writes == 0
  }

  lemma FoundIff(v: int -> bool, i: int, maxIter: int)
    ensures Found(v, i, maxIter) > 0 <==> exists k :: i <= k < maxIter && v(k)
    decreases maxIter - i
  {
    if i < maxIter { FoundIff(v, i + 1, maxIter); }
  }

  /** Some filter moves its state and leaves its covariance exactly when the last pass finds no points
      and an earlier one does. */
  lemma StateCanMoveAloneIff(v: int -> bool, maxIter: int)
    requires maxIter >= 0
    ensures (exists m: Model<Vec>, x0: Vec, p: Mat :: MovedAlone(m, x0, p, v, maxIter)) <==>
            !v(maxIter - 1) && exists k :: -1 <= k < maxIter - 1 && v(k)
  {
    hide Update, Sound, Fits, Pattern, Drifting, One, Iterate;
    FoundIff(v, -1, maxIter);
    if !v(maxIter - 1) && (exists k :: -1 <= k < maxIter - 1 && v(k)) {
      DriftingUpdate(v, maxIter);
      assert MovedAlone(Drifting(v, maxIter), [0.0], One(1.0), v, maxIter);
    }
    forall m: Model<Vec>, x0: Vec, p: Mat | MovedAlone(m, x0, p, v, maxIter)
      ensures !v(maxIter - 1) && Found(v, -1, maxIter) > 0
    {
      if v(maxIter - 1) { WritesOnce(m, x0, p, v, maxIter); }
      if Found(v, -1, maxIter) == 0 { NothingFound(m, x0, p, v, maxIter); }
    }
  }

  lemma NothingFound(m: Model<Vec>, x0: Vec, p: Mat, v: int -> bool, maxIter: int)
    requires Call(m, x0, p, v, maxIter) && Found(v, -1, maxIter) == 0
    ensures Update(m, x0, p).x == x0
  {
    FoundIff(v, -1, maxIter);
    NoPasses(m, -1, 0, x0, p, v, true);
  }

  lemma {:induction false} NoPasses(m: Model<Vec>, i: int, t: nat, x0: Vec, p: Mat, v: int -> bool, search: bool)
    requires Fits(m) && Pattern(m, v) && p.rows == p.cols == m.n
    requires forall k :: i <= k < m.maxIter ==> !v(k)
    ensures Iterate(m, i, t, x0, x0, p, search).x == x0
    decreases m.maxIter - i
  {
    if i < m.maxIter {
      assert !m.measure(i, x0, search).valid;
      NoPasses(m, i + 1, t, x0, p, v, search);
    }
  }

  /** For instance with at most four iterations and points in the first pass only: one number at
      zero, known with variance one, ends at one, still with variance one. */
  lemma StateMovesAloneExample()
    ensures var v := (i: int) => i == -1;
            && Call(Drifting(v, 4), [0.0], Id(1), v, 4)
            && Update(Drifting(v, 4), [0.0], Id(1)).x == [1.0]
            && Update(Drifting(v, 4), [0.0], Id(1)).p == Id(1)
  {
    hide Fits, Pattern, Iterate, Id, One, Sound, Drifting, Update;
    var v := (i: int) => i == -1;
    IdOne();
    DriftingUpdate(v, 4);
    NoneLeft(v, 0, 4);
    assert Found(v, -1, 4) == 1;
  }

  lemma NoneLeft(v: int -> bool, i: int, maxIter: int)
    requires forall k :: i <= k < maxIter ==> !v(k)
    ensures Found(v, i, maxIter) == 0
    decreases maxIter - i
  {
    if i < maxIter { NoneLeft(v, i + 1, maxIter); }
  }
}
