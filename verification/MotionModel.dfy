/** What the filter's two Jacobians are: how the rate of the state answers to an error in the
    state and to noise in the inertial sensor. */
module MotionModel {
  import opened Reals
  import opened Matrices
  import opened Kalman
  import opened Esekf

  /** The part of the state its own rate depends on. */
  datatype Motion = Motion(rot: Mat, vel: Vec, bg: Vec, ba: Vec, grav: Vec) {
    ghost predicate Valid() {
      rot.rows == rot.cols == |vel| == |bg| == |ba| == |grav| == 3
    }
  }

  /** An inertial measurement. */
  datatype Input = Input(acc: Vec, gyro: Vec) {
    ghost predicate Valid() { |acc| == |gyro| == 3 }
  }

  /** The rate of the 24 states: velocity, turn rate without bias, and the measured acceleration
      turned into the world plus gravity; nothing else moves. */
  function Rate(s: Motion, u: Input): (r: Vec)
    requires s.Valid() && u.Valid()
    ensures |r| == 24
  {
    s.vel + SubV(u.gyro, s.bg) + ZeroV(6)
    + AddV(MulV(s.rot, SubV(u.acc, s.ba)), s.grav) + ZeroV(9)
  }

  /** The state after an error d, its attitude left alone. */
  function Moved(s: Motion, d: Vec): (r: Motion)
    requires s.Valid() && |d| == 24
    ensures r.Valid()
  {
    Motion(s.rot, AddV(s.vel, d[12..15]), AddV(s.bg, d[15..18]), AddV(s.ba, d[18..21]), AddV(s.grav, d[21..24]))
  }

  /** The measurement without the noise w: three gyroscope values, then three of acceleration. */
  function Cleared(u: Input, w: Vec): (r: Input)
    requires u.Valid() && |w| == 12
    ensures r.Valid()
  {
    Input(SubV(u.acc, w[3..6]), SubV(u.gyro, w[..3]))
  }

  function CrossV(a: Vec, b: Vec): (r: Vec)
    requires |a| == |b| == 3
    ensures |r| == 3
  {
    [a[1] * b[2] - a[2] * b[1], a[2] * b[0] - a[0] * b[2], a[0] * b[1] - a[1] * b[0]]
  }

  // ---------- Rows that are mostly zero ----------

  lemma DotSplit(u: Vec, v: Vec, k: nat)
    requires |u| == |v| >= k
    ensures Dot(u, v) == Dot(u[..k], v[..k]) + Dot(u[k..], v[k..])
  {
    DotConcat(u[..k], u[k..], v[..k], v[k..]);
    assert u == u[..k] + u[k..] && v == v[..k] + v[k..];
  }

  /** A row with entries in one block of three only. */
  lemma DotBlock(u: Vec, v: Vec, k: nat)
    requires |u| == |v| >= k + 3
    requires forall i :: 0 <= i < |u| && !(k <= i < k + 3) ==> u[i] == 0.0
    ensures Dot(u, v) == Dot(u[k..k + 3], v[k..k + 3])
  {
    hide Dot;
    DotSplit(u, v, k);
    DotSplit(u[k..], v[k..], 3);
    assert u[k..][..3] == u[k..k + 3] && v[k..][..3] == v[k..k + 3];
    DotVanishes(u[..k], v[..k]);
    DotVanishes(u[k..][3..], v[k..][3..]);
  }

  lemma DotMinus(u: Vec, v: Vec)
    requires |u| == |v|
    ensures Dot(ScaleV(-1.0, u), v) == -Dot(u, v)
  {
    DotScale(-1.0, u, v);
  }

  lemma SkewIsCross(a: Vec, x: Vec)
    requires |a| == |x| == 3
    ensures MulV(Skew(a), x) == ScaleV(-1.0, CrossV(x, a))
  {
    forall i | 0 <= i < 3 ensures MulV(Skew(a), x)[i] == ScaleV(-1.0, CrossV(x, a))[i] {
      DotOfThree(Skew(a).e[i], x);
      if i == 0 {
        CrossTerms(a[2], a[1], x[0], x[1], x[2]);
      } else if i == 1 {
        CrossTerms(a[0], a[2], x[1], x[2], x[0]);
      } else {
        CrossTerms(a[1], a[0], x[2], x[0], x[1]);
      }
    }
  }

  lemma CrossTerms(a: real, b: real, z: real, x: real, y: real)
    ensures Prod(0.0, z) + Prod(-a, x) + Prod(b, y) == Prod(-1.0, x * a - y * b)
  {
  }

  lemma DotOfThree(u: Vec, v: Vec)
    requires |u| == |v| == 3
    ensures Dot(u, v) == Prod(u[0], v[0]) + Prod(u[1], v[1]) + Prod(u[2], v[2])
  {
    assert u[1..][1..] == [u[2]] && v[1..][1..] == [v[2]];
    assert Dot([u[2]], [v[2]]) == u[2] * v[2];
  }

  // ---------- The answer to an error ----------

  /** How the rate answers to an attitude error θ: the acceleration turns with it. */
  function Turned(rot: Mat, acc: Vec, theta: Vec): (r: Vec)
    requires rot.rows == rot.cols == |acc| == |theta| == 3
    ensures |r| == 24
  {
    ZeroV(12) + MulV(rot, CrossV(theta, acc)) + ZeroV(9)
  }

  lemma RowParts(row: Vec, d: Vec)
    requires |row| == |d| == 24
    requires forall j :: 0 <= j < 3 || 6 <= j < 18 ==> row[j] == 0.0
    ensures Dot(row, d) == Dot(row[3..6], d[3..6]) + Dot(row[18..21], d[18..21]) + Dot(row[21..24], d[21..24])
  {
    hide Dot;
    DotSplit(row, d, 18);
    DotSplit(row[18..], d[18..], 3);
    DotBlock(row[..18], d[..18], 3);
    assert row[..18][3..6] == row[3..6] && d[..18][3..6] == d[3..6];
    assert row[18..][..3] == row[18..21] && d[18..][..3] == d[18..21];
    assert row[18..][3..] == row[21..24] && d[18..][3..] == d[21..24];
  }

  lemma VelocityRow(rot: Mat, acc: Vec, d: Vec, i: nat)
    requires rot.rows == rot.cols == |acc| == 3 && |d| == 24 && i < 3
    ensures Dot(DfDx(rot, acc).e[12 + i], d)
         == MulV(rot, CrossV(d[3..6], acc))[i] - MulV(rot, d[18..21])[i] + d[21 + i]
  {
    hide Dot, Mul, MulV;
    var row := DfDx(rot, acc).e[12 + i];
    RowParts(row, d);
    AttitudeBlock(rot, acc, row[3..6], d[3..6], i);
    BiasBlock(rot, row[18..21], d[18..21], i);
    assert row[21..24] == UnitV(3, i);
    DotComm(UnitV(3, i), d[21..24]);
    DotUnit(d[21..24], i);
  }

  lemma AttitudeBlock(rot: Mat, acc: Vec, part: Vec, theta: Vec, i: nat)
    requires rot.rows == rot.cols == |acc| == |theta| == |part| == 3 && i < 3
    requires forall j :: 0 <= j < 3 ==> part[j] == -Mul(rot, Skew(acc)).e[i][j]
    ensures Dot(part, theta) == MulV(rot, CrossV(theta, acc))[i]
  {
    hide Dot, Mul, Skew, CrossV;
    var m := Mul(rot, Skew(acc));
    assert part == ScaleV(-1.0, m.e[i]);
    DotMinus(m.e[i], theta);
    MulAct(rot, Skew(acc), theta);
    SkewIsCross(acc, theta);
    MulVScale(rot, -1.0, CrossV(theta, acc));
    assert MulV(m, theta)[i] == ScaleV(-1.0, MulV(rot, CrossV(theta, acc)))[i];
  }

  lemma BiasBlock(rot: Mat, part: Vec, v: Vec, i: nat)
    requires rot.rows == rot.cols == |v| == |part| == 3 && i < 3
    requires forall j :: 0 <= j < 3 ==> part[j] == -rot.e[i][j]
    ensures Dot(part, v) == -MulV(rot, v)[i]
  {
    hide Dot;
    assert part == ScaleV(-1.0, rot.e[i]);
    DotMinus(rot.e[i], v);
  }

  lemma UnitRow(row: Vec, d: Vec, c: real, k: nat)
    requires |row| == |d| && k < |d|
    requires forall j :: 0 <= j < |d| ==> row[j] == if j == k then c else 0.0
    ensures Dot(row, d) == c * d[k]
  {
    hide Dot;
    assert row == ScaleV(c, UnitV(|d|, k));
    DotScale(c, UnitV(|d|, k), d);
    DotComm(UnitV(|d|, k), d);
    DotUnit(d, k);
  }

  lemma ErrorRow(rot: Mat, acc: Vec, d: Vec, i: nat)
    requires rot.rows == rot.cols == |acc| == 3 && |d| == 24 && i < 24
    ensures MulV(DfDx(rot, acc), d)[i]
         == if i < 3 then d[12 + i]
            else if i < 6 then -d[12 + i]
            else if 12 <= i < 15 then
              MulV(rot, CrossV(d[3..6], acc))[i - 12] - MulV(rot, d[18..21])[i - 12] + d[9 + i]
            else 0.0
  {
    hide Dot, Mul, CrossV, Skew;
    var row := DfDx(rot, acc).e[i];
    if i < 3 {
      UnitRow(row, d, 1.0, 12 + i);
    } else if i < 6 {
      UnitRow(row, d, -1.0, 12 + i);
    } else if 12 <= i < 15 {
      VelocityRow(rot, acc, d, i - 12);
    } else {
      DotVanishes(row, d);
    }
  }

  /** The first Jacobian, exactly: for every error d it is the change of the rate under the errors
      in velocity, biases and gravity, plus the turn of the acceleration by the attitude error. */
  lemma ErrorJacobian(s: Motion, u: Input, d: Vec)
    requires s.Valid() && u.Valid() && |d| == 24
    ensures MulV(DfDx(s.rot, SubV(u.acc, s.ba)), d)
         == AddV(SubV(Rate(Moved(s, d), u), Rate(s, u)), Turned(s.rot, SubV(u.acc, s.ba), d[3..6]))
  {
    hide Dot, Mul, MulV, CrossV, Skew, DfDx;
    var a := SubV(u.acc, s.ba);
    assert SubV(u.acc, AddV(s.ba, d[18..21])) == SubV(a, d[18..21]);
    MulVSub(s.rot, a, d[18..21]);
    forall i | 0 <= i < 24
      ensures MulV(DfDx(s.rot, a), d)[i]
           == Rate(Moved(s, d), u)[i] - Rate(s, u)[i] + Turned(s.rot, a, d[3..6])[i]
    {
      ErrorRow(s.rot, a, d, i);
    }
  }

  // ---------- The answer to noise ----------

  lemma NoiseRow(rot: Mat, w: Vec, i: nat)
    requires rot.rows == rot.cols == 3 && |w| == 12 && i < 24
    ensures MulV(DfDw(rot), w)[i]
         == if 3 <= i < 6 then -w[i - 3]
            else if 12 <= i < 15 then -MulV(rot, w[3..6])[i - 12]
            else if 15 <= i < 21 then w[i - 9]
            else 0.0
  {
    hide Dot;
    var row := DfDw(rot).e[i];
    if 3 <= i < 6 {
      UnitRow(row, w, -1.0, i - 3);
    } else if 12 <= i < 15 {
      DotBlock(row, w, 3);
      BiasBlock(rot, row[3..6], w[3..6], i - 12);
    } else if 15 <= i < 21 {
      UnitRow(row, w, 1.0, i - 9);
    } else {
      DotVanishes(row, w);
    }
  }

  /** The second Jacobian, exactly: for every noise w it is the change of the rate when the
      measurement is cleared of w, plus the walk of the two biases. */
  lemma NoiseJacobian(s: Motion, u: Input, w: Vec)
    requires s.Valid() && u.Valid() && |w| == 12
    ensures MulV(DfDw(s.rot), w)
         == AddV(SubV(Rate(s, Cleared(u, w)), Rate(s, u)), ZeroV(15) + w[6..12] + ZeroV(3))
  {
    hide Dot, DfDw;
    var a := SubV(u.acc, s.ba);
    assert SubV(SubV(u.acc, w[3..6]), s.ba) == SubV(a, w[3..6]);
    MulVSub(s.rot, a, w[3..6]);
    forall i | 0 <= i < 24
      ensures MulV(DfDw(s.rot), w)[i]
           == Rate(s, Cleared(u, w))[i] - Rate(s, u)[i] + (ZeroV(15) + w[6..12] + ZeroV(3))[i]
    {
      NoiseRow(s.rot, w, i);
    }
  }
}
