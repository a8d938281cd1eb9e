/** The compensation of one LiDAR point: where it would have been seen from at the end of the scan. */
module MotionCompensation {
  import opened Sensors
  import opened Rotations
  import opened RigidMotions
  import ImuProcess

  /** One pose of the forward pass: the state at `offset` seconds into the scan. */
  datatype KeyPose = KeyPose(offset: real, acc: V3, gyr: V3, vel: V3, pos: V3, rot: Mat3)

  /** The inertial pose dt after `head`, under the rates of `tail`; `exp` turns a rotation vector
      into a matrix. */
  function At(exp: V3 -> Mat3, head: KeyPose, tail: KeyPose, dt: real): Motion {
    Motion(head.rot.Mul(exp(tail.gyr.Scaled(dt))),
           head.pos.Plus(head.vel.Scaled(dt)).Plus(tail.acc.Scaled(0.5 * dt * dt)))
  }

  /** The program's expression, from the pose at the point's time, the pose at the scan's end and
      the LiDAR's place on the inertial unit. */
  function Compensate(at: Motion, end: Motion, ext: Motion, p: V3): V3 {
    var tei := at.pos.Minus(end.pos);
    var inertial := at.rot.Times(ext.rot.Times(p).Plus(ext.pos)).Plus(tei);
    ext.rot.T().Times(end.rot.T().Times(inertial).Minus(ext.pos))
  }

  // ---------- The pose between two recorded ones ----------

  /** Constant acceleration: the place moves by dt times the mean of the first and last velocity. */
  lemma AtPosition(exp: V3 -> Mat3, head: KeyPose, tail: KeyPose, dt: real)
    ensures At(exp, head, tail, dt).pos.Minus(head.pos)
         == head.vel.Plus(head.vel.Plus(tail.acc.Scaled(dt))).Scaled(0.5 * dt)
  {
    MeanVelocity(head.pos.x, head.vel.x, tail.acc.x, dt);
    MeanVelocity(head.pos.y, head.vel.y, tail.acc.y, dt);
    MeanVelocity(head.pos.z, head.vel.z, tail.acc.z, dt);
  }

  lemma MeanVelocity(x: real, v: real, a: real, dt: real)
    ensures x + dt * v + 0.5 * dt * dt * a - x == 0.5 * dt * (v + (v + dt * a))
  {
    assert 0.5 * dt * (v + (v + dt * a)) == dt * v + 0.5 * dt * (dt * a);
  }

  /** The attitude is the head's after a turn by the rate times dt. */
  lemma AtAttitude(exp: V3 -> Mat3, head: KeyPose, tail: KeyPose, dt: real, v: V3)
    ensures At(exp, head, tail, dt).rot.Times(v) == head.rot.Times(exp(tail.gyr.Scaled(dt)).Times(v))
  {
    hide Mat3.Times, Mat3.Mul;
    TimesProduct(head.rot, exp(tail.gyr.Scaled(dt)), v);
  }

  /** After no time the pose is the head's. */
  lemma AtStart(exp: V3 -> Mat3, head: KeyPose, tail: KeyPose)
    requires exp(ORIGIN) == ID
    ensures At(exp, head, tail, 0.0) == Motion(head.rot, head.pos)
  {
    hide Mat3.Mul;
    assert tail.gyr.Scaled(0.0) == ORIGIN;
    MulId(head.rot);
    AtPosition(exp, head, tail, 0.0);
    SamePlace(At(exp, head, tail, 0.0).pos, head.pos, head.vel.Plus(head.vel.Plus(tail.acc.Scaled(0.0))));
  }

  lemma SamePlace(p: V3, q: V3, v: V3)
    requires p.Minus(q) == v.Scaled(0.0)
    ensures p == q
  {
    assert p == V3(p.x, p.y, p.z) && q == V3(q.x, q.y, q.z);
  }

  // ---------- One point ----------

  /** Undoing a rigid motion as the program writes it. */
  lemma UndoApply(m: Motion, q: V3)
    requires m.Rigid()
    ensures m.Apply(m.rot.T().Times(q.Minus(m.pos))) == q
  {
    hide Mat3.Times, Mat3.T, Mat3.IsRotation, Mat3.Mul;
    TransposeUndoes(m.rot);
    TimesProduct(m.rot, m.rot.T(), q.Minus(m.pos));
    TimesId(q.Minus(m.pos));
    assert q == V3(q.x, q.y, q.z);
  }

  /** Seen from the end of the scan, the compensated point is where the measured point was. */
  lemma CompensateKeepsWorld(at: Motion, end: Motion, ext: Motion, p: V3)
    requires end.Rigid() && ext.Rigid()
    ensures end.Mul(ext).Apply(Compensate(at, end, ext, p)) == at.Mul(ext).Apply(p)
  {
    hide Mat3.Times, Mat3.T, Mat3.IsRotation, Mat3.Mul;
    var world := at.Apply(ext.Apply(p));
    var hand := end.rot.T().Times(world.Minus(end.pos));
    PlusMinus(at.rot.Times(ext.Apply(p)), at.pos, end.pos);
    UndoApply(end, world);
    UndoApply(ext, hand);
    ApplyProduct(end, ext, Compensate(at, end, ext, p));
    ApplyProduct(at, ext, p);
  }

  lemma PlusMinus(a: V3, b: V3, c: V3)
    ensures a.Plus(b.Minus(c)) == a.Plus(b).Minus(c)
  {
  }

  /** No other point has that place. */
  lemma CompensateIsUnique(at: Motion, end: Motion, ext: Motion, p: V3, q: V3)
    requires end.Rigid() && ext.Rigid() && end.Mul(ext).Apply(q) == at.Mul(ext).Apply(p)
    ensures q == Compensate(at, end, ext, p)
  {
    hide Motion.Apply, Motion.Mul, Motion.Rigid, Motion.Inverse, Compensate;
    var m := end.Mul(ext);
    CompensateKeepsWorld(at, end, ext, p);
    ProductIsRigid(end, ext);
    InverseUndoes(m);
    ApplyProduct(m.Inverse(), m, q);
    ApplyProduct(m.Inverse(), m, Compensate(at, end, ext, p));
    NoMotionApplies(q);
    NoMotionApplies(Compensate(at, end, ext, p));
  }

  function Offsets(poses: seq<KeyPose>): (r: seq<real>)
    ensures |r| == |poses| && forall i :: 0 <= i < |r| ==> r[i] == poses[i].offset
  {
    seq(|poses|, i requires 0 <= i < |poses| => poses[i].offset)
  }

  /** The compensation the walk applies to a point for head k. */
  function Compensation(exp: V3 -> Mat3, poses: seq<KeyPose>, end: Motion, ext: Motion): (nat, Point) -> V3 {
    (k: nat, p: Point) =>
      if k + 1 < |poses|
      then Compensate(At(exp, poses[k], poses[k + 1], ImuProcess.Time(p) - poses[k].offset), end, ext, p.pos)
      else p.pos
  }

  /** `out` is p undisturbed if no pose but the last lies before it, and otherwise the point that at
      the scan's end has the place p had under the pose reached from the latest such pose. */
  ghost predicate KeepsWorld(exp: V3 -> Mat3, poses: seq<KeyPose>, end: Motion, ext: Motion, p: Point, out: Point)
    requires poses != []
  {
    var k := ImuProcess.LatestBefore(Offsets(poses), |poses| - 1, ImuProcess.Time(p));
    && (k < 0 ==> out == p)
    && (k >= 0 ==>
          && out == p.(pos := out.pos)
          && end.Mul(ext).Apply(out.pos)
             == At(exp, poses[k], poses[k + 1], ImuProcess.Time(p) - poses[k].offset).Mul(ext).Apply(p.pos))
  }

  /** Every point that the per-point search compensates keeps its place in the world. */
  lemma UndistortedKeepsWorld(exp: V3 -> Mat3, poses: seq<KeyPose>, end: Motion, ext: Motion, p: Point)
    requires poses != [] && end.Rigid() && ext.Rigid()
    ensures KeepsWorld(exp, poses, end, ext, p,
                       ImuProcess.Undistorted(Compensation(exp, poses, end, ext), Offsets(poses), p))
  {
    hide Compensate, At, Motion.Mul, Motion.Apply, Motion.Rigid, Compensation;
    var k := ImuProcess.LatestBefore(Offsets(poses), |poses| - 1, ImuProcess.Time(p));
    if k >= 0 {
      CompensationIs(exp, poses, end, ext, k, p);
      CompensateKeepsWorld(At(exp, poses[k], poses[k + 1], ImuProcess.Time(p) - poses[k].offset), end, ext, p.pos);
    }
  }

  lemma CompensationIs(exp: V3 -> Mat3, poses: seq<KeyPose>, end: Motion, ext: Motion, k: nat, p: Point)
    requires k + 1 < |poses|
    ensures Compensation(exp, poses, end, ext)(k, p)
         == Compensate(At(exp, poses[k], poses[k + 1], ImuProcess.Time(p) - poses[k].offset), end, ext, p.pos)
  {
    hide Compensate, At;
  }

  lemma PlaceUnder(exp: V3 -> Mat3, head: KeyPose, tail: KeyPose, dt: real, ext: Motion, p: V3)
    ensures At(exp, head, tail, dt).Mul(ext).Apply(p)
         == head.rot.Times(exp(tail.gyr.Scaled(dt)).Times(ext.Apply(p)))
            .Plus(head.pos.Plus(head.vel.Plus(head.vel.Plus(tail.acc.Scaled(dt))).Scaled(0.5 * dt)))
  {
    hide Mat3.Times, Mat3.Mul, At, Motion.Mul, V3.Plus, V3.Minus, V3.Scaled, V3.Dot;
    var at := At(exp, head, tail, dt);
    ApplyProduct(at, ext, p);
    AtAttitude(exp, head, tail, dt, ext.Apply(p));
    AtPosition(exp, head, tail, dt);
    AddBack(at.pos, head.pos, head.vel.Plus(head.vel.Plus(tail.acc.Scaled(dt))).Scaled(0.5 * dt));
  }

  lemma AddBack(p: V3, q: V3, d: V3)
    requires p.Minus(q) == d
    ensures p == q.Plus(d)
  {
    assert p == V3(p.x, p.y, p.z);
  }

  lemma KeptPlace(exp: V3 -> Mat3, poses: seq<KeyPose>, end: Motion, ext: Motion, p: Point, out: Point, k: nat)
    requires poses != [] && KeepsWorld(exp, poses, end, ext, p, out)
    requires k == ImuProcess.LatestBefore(Offsets(poses), |poses| - 1, ImuProcess.Time(p))
    ensures end.Mul(ext).Apply(out.pos)
         == At(exp, poses[k], poses[k + 1], ImuProcess.Time(p) - poses[k].offset).Mul(ext).Apply(p.pos)
  {
    hide At, Motion.Mul, Motion.Apply, ImuProcess.Time, ImuProcess.LatestBefore, Offsets;
  }

  lemma TimeSince(p: Point, offset: real, dt: real)
    requires 1000.0 * (offset + dt) == p.curvature
    ensures ImuProcess.Time(p) - offset == dt
  {
  }

  /** Where a compensated point lies in the world: at the place of the latest pose before it, moved
      on for the time in between with constant acceleration, and turned by the rate times that time. */
  lemma StoredPlace(exp: V3 -> Mat3, poses: seq<KeyPose>, end: Motion, ext: Motion, p: Point, out: Point,
                    k: nat, dt: real)
    requires poses != [] && KeepsWorld(exp, poses, end, ext, p, out)
    requires k == ImuProcess.LatestBefore(Offsets(poses), |poses| - 1, ImuProcess.Time(p))
    requires 1000.0 * (poses[k].offset + dt) == p.curvature
    ensures var head, tail := poses[k], poses[k + 1];
            end.Mul(ext).Apply(out.pos)
            == head.rot.Times(exp(tail.gyr.Scaled(dt)).Times(ext.Apply(p.pos)))
               .Plus(head.pos.Plus(head.vel.Plus(head.vel.Plus(tail.acc.Scaled(dt))).Scaled(0.5 * dt)))
  {
    hide At, Motion.Mul, Motion.Apply, Mat3.Mul, Mat3.Times, V3.Plus, V3.Minus, V3.Scaled, V3.Dot, ImuProcess.Time,
      ImuProcess.LatestBefore, Offsets, KeepsWorld;
    KeptPlace(exp, poses, end, ext, p, out, k);
    TimeSince(p, poses[k].offset, dt);
    PlaceUnder(exp, poses[k], poses[k + 1], dt, ext, p.pos);
  }

  /** Coasting, without turn or acceleration, the compensated point lies where the head saw the
      measured one, moved by the velocity times the time since. */
  lemma StoredPlaceCoasting(exp: V3 -> Mat3, poses: seq<KeyPose>, end: Motion, ext: Motion, p: Point, out: Point,
                            k: nat, dt: real)
    requires poses != [] && KeepsWorld(exp, poses, end, ext, p, out)
    requires k == ImuProcess.LatestBefore(Offsets(poses), |poses| - 1, ImuProcess.Time(p))
    requires 1000.0 * (poses[k].offset + dt) == p.curvature
    requires exp(ORIGIN) == ID
    requires poses[k + 1].gyr == ORIGIN == poses[k + 1].acc
    ensures end.Mul(ext).Apply(out.pos)
         == Motion(poses[k].rot, poses[k].pos).Apply(ext.Apply(p.pos)).Plus(poses[k].vel.Scaled(dt))
  {
    hide Mat3.Times, KeepsWorld, Motion.Mul, ImuProcess.LatestBefore, V3.Plus, V3.Scaled;
    StoredPlace(exp, poses, end, ext, p, out, k, dt);
    var head := poses[k];
    ZeroScaled(dt);
    TimesId(ext.Apply(p.pos));
    PlusLaws(head.vel, ORIGIN, ORIGIN);
    HalfOfDouble(head.vel, dt);
    PlusLaws(head.rot.Times(ext.Apply(p.pos)), head.pos, head.vel.Scaled(dt));
  }

  lemma ZeroScaled(dt: real)
    ensures ORIGIN.Scaled(dt) == ORIGIN
  {
  }

  lemma HalfOfDouble(v: V3, dt: real)
    ensures v.Plus(v).Scaled(0.5 * dt) == v.Scaled(dt)
  {
    HalfOfDoubleAxis(v.x, dt); HalfOfDoubleAxis(v.y, dt); HalfOfDoubleAxis(v.z, dt);
  }

  lemma HalfOfDoubleAxis(v: real, dt: real)
    ensures 0.5 * dt * (v + v) == dt * v
  {
  }

  // ---------- The whole scan ----------

  /** The poses recorded at the given offsets, with the states the filter had there. */
  function Recorded(state: nat -> KeyPose, offsets: seq<real>): (poses: seq<KeyPose>)
    ensures |poses| == |offsets| && Offsets(poses) == offsets
  {
    seq(|offsets|, i requires 0 <= i < |offsets| => state(i).(offset := offsets[i]))
  }

  /** The whole undistortion of one scan: the forward pass records poses, the backwards walk moves
      the points, given the states the filter passes through and the one it ends in. Every point but
      the first keeps its place in the world. */
  method UndistortPcl(proc: ImuProcess.ImuProcessor, g: Group, pts: array<Point>, exp: V3 -> Mat3,
                      state: nat -> KeyPose, end: Motion, ext: Motion)
    returns (dts: seq<real>, ghost poses: seq<KeyPose>)
    requires proc.Valid() && !proc.needInit && g.imu != [] && ImuProcess.ByTime(pts[..])
    requires end.Rigid() && ext.Rigid()
    modifies pts, proc`lastImu, proc`lastEnd
    ensures proc.Valid() && proc.lastImu == g.imu[|g.imu| - 1] && proc.lastEnd == g.endTime
    ensures dts == ImuProcess.PredictSteps(old(proc.lastImu), g.imu, old(proc.lastEnd), g.endTime)
    ensures poses == Recorded(state, [0.0] + ImuProcess.PoseOffsets([old(proc.lastImu)] + g.imu,
                                                                   old(proc.lastEnd), g.begTime))
    ensures poses != [] && forall j :: 1 <= j < pts.Length ==> KeepsWorld(exp, poses, end, ext, old(pts[j]), pts[j])
  {
    hide KeepsWorld, Compensation, ImuProcess.Undistorted, ImuProcess.PredictSteps, ImuProcess.PoseOffsets,
      ImuProcess.ByTime, Motion.Rigid;
    var offsets;
    dts, offsets := proc.Propagate(g);
    var recorded := Recorded(state, offsets);
    poses := recorded;
    ImuProcess.WalkBack(pts, offsets, Compensation(exp, recorded, end, ext));
    forall j | 1 <= j < pts.Length ensures KeepsWorld(exp, poses, end, ext, old(pts[j]), pts[j]) {
      UndistortedKeepsWorld(exp, recorded, end, ext, old(pts[j]));
    }
  }
}
