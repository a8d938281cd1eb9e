/** Hand-eye calibration: relative motions of a list of arm poses, and the transforms from the
    camera to the base that use the calibrated matrix. */
module HandEye {
  import opened Wrappers
  import opened Sensors
  import opened Rotations
  import opened RigidMotions
  import opened RollPitchYaw

  datatype Mode = EyeInHand | EyeToHand

  datatype Pose = Pose(pos: V3, rpy: Rpy)

  /** The rotations and translations of the relative motions, as two lists of equal length. */
  datatype Motions = Motions(rots: seq<Mat3>, poss: seq<V3>)

  function Homogeneous(p: Pose): Motion { Motion(ToRotation(p.rpy), p.pos) }

  ghost predicate AllValid(poses: seq<Pose>) {
    forall p :: p in poses ==> p.rpy.Valid()
  }

  function RelativeMotion(mode: Mode, now: Motion, next: Motion): Motion {
    match mode
    case EyeInHand => next.Inverse().Mul(now)
    case EyeToHand => next.Mul(now.Inverse())
  }

  /** The relative motion undoes or makes the step: with the camera on the arm the next pose after it
      is this one, with the camera off the arm it carries this pose to the next. */
  lemma RelativeMotionMeans(now: Motion, next: Motion)
    requires now.Rigid() && next.Rigid()
    ensures next.Mul(RelativeMotion(EyeInHand, now, next)) == now
    ensures RelativeMotion(EyeToHand, now, next).Mul(now) == next
  {
    hide Motion.Mul, Motion.Inverse, Motion.Rigid;
    Cancels(next, now);
    MotionsAssociate(next, now.Inverse(), now);
    InverseUndoes(now);
    MulNoMotion(next);
  }

  function RelativeMotions(mode: Mode, poses: seq<Pose>): (ms: seq<Motion>)
    requires poses != []
    ensures |ms| == |poses| - 1
  {
    if |poses| == 1 then []
    else
      var n := |poses| - 1;
      RelativeMotions(mode, poses[..n]) + [RelativeMotion(mode, Homogeneous(poses[n - 1]), Homogeneous(poses[n]))]
  }

  function Joined(ms: Motions): seq<Motion>
    requires |ms.rots| == |ms.poss|
  {
    seq(|ms.rots|, i requires 0 <= i < |ms.rots| => Motion(ms.rots[i], ms.poss[i]))
  }

  /** Fewer than two poses are an error; otherwise the two lists hold every relative motion. */
  method Process(mode: Mode, poses: seq<Pose>) returns (r: Result<Motions, string>)
    ensures r.Err? <==> |poses| < 2
    ensures r.Ok? ==> |r.value.rots| == |r.value.poss| && Joined(r.value) == RelativeMotions(mode, poses)
  {
    hide Homogeneous, RelativeMotion;
    if |poses| < 2 { return Err("Need at least 2 poses"); }
    var rots: seq<Mat3>, poss: seq<V3> := [], [];
    for i := 0 to |poses| - 1
      invariant |rots| == |poss| && Joined(Motions(rots, poss)) == RelativeMotions(mode, poses[..i + 1])
    {
      var now, next := Homogeneous(poses[i]), Homogeneous(poses[i + 1]);
      var a := RelativeMotion(mode, now, next);
      ghost var before := Joined(Motions(rots, poss));
      rots, poss := rots + [a.rot], poss + [a.pos];
      assert Joined(Motions(rots, poss)) == before + [a];
      assert poses[..i + 2][..i + 1] == poses[..i + 1];
    }
    assert poses[..|poses|] == poses;
    r := Ok(Motions(rots, poss));
  }

  /** The motions applied one after the other: the last one stands first in the product. */
  function Chain(ms: seq<Motion>): Motion {
    if ms == [] then NO_MOTION else ms[|ms| - 1].Mul(Chain(ms[..|ms| - 1]))
  }

  /** The matrix of a pose is a rigid motion. */
  lemma PoseIsRigid(p: Pose)
    requires p.rpy.Valid()
    ensures Homogeneous(p).Rigid()
  {
    EveryRpyIsARotation(p.rpy);
  }

  /** Two relative motions in a row make one. */
  lemma StepTelescopes(mode: Mode, first: Motion, now: Motion, next: Motion)
    requires now.Rigid() && next.Rigid() && first.Rigid()
    ensures RelativeMotion(mode, now, next).Mul(RelativeMotion(mode, first, now)) == RelativeMotion(mode, first, next)
  {
    hide Motion.Mul, Motion.Inverse, Motion.Rigid;
    if mode == EyeInHand {
      MotionsAssociate(next.Inverse(), now, now.Inverse().Mul(first));
      Cancels(now, first);
    } else {
      MotionsAssociate(next, now.Inverse(), now.Mul(first.Inverse()));
      Cancels(now, first.Inverse());
    }
  }

  lemma NoStep(mode: Mode, t: Motion)
    requires t.Rigid()
    ensures RelativeMotion(mode, t, t) == NO_MOTION
  {
    InverseUndoes(t);
  }

  /** All the relative motions together are the relative motion from the first pose to the last. */
  lemma {:induction false} MotionsTelescope(mode: Mode, poses: seq<Pose>)
    requires poses != [] && AllValid(poses)
    ensures Chain(RelativeMotions(mode, poses))
         == RelativeMotion(mode, Homogeneous(poses[0]), Homogeneous(poses[|poses| - 1]))
  {
    hide Homogeneous, RelativeMotion, Motion.Mul;
    var n := |poses| - 1;
    PoseIsRigid(poses[0]);
    PoseIsRigid(poses[n]);
    if n == 0 {
      NoStep(mode, Homogeneous(poses[0]));
    } else {
      MotionsTelescope(mode, poses[..n]);
      PoseIsRigid(poses[n - 1]);
      StepTelescopes(mode, Homogeneous(poses[0]), Homogeneous(poses[n - 1]), Homogeneous(poses[n]));
      var ms := RelativeMotions(mode, poses);
      assert ms[..|ms| - 1] == RelativeMotions(mode, poses[..n]);
    }
  }

  // ---------- The equations the calibration solves ----------

  /** What the camera sees as pose c when the arm is at t and the camera is mounted as x: the pose
      of the target in the base, or, with the camera off the arm, in the hand. */
  function Target(mode: Mode, t: Motion, x: Motion, c: Motion): Motion {
    match mode
    case EyeInHand => t.Mul(x.Mul(c))
    case EyeToHand => t.Inverse().Mul(x.Mul(c))
  }

  lemma Regroup(a: Motion, x: Motion, c: Motion, d: Motion)
    requires c.Rigid()
    ensures a.Mul(x) == x.Mul(d.Mul(c.Inverse())) <==> a.Mul(x.Mul(c)) == x.Mul(d)
  {
    hide Motion.Mul, Motion.Inverse, Motion.Rigid;
    InverseUndoes(c);
    if a.Mul(x) == x.Mul(d.Mul(c.Inverse())) {
      MotionsAssociate(a, x, c);
      MotionsAssociate(x, d.Mul(c.Inverse()), c);
      MotionsAssociate(d, c.Inverse(), c);
      MulNoMotion(d);
    }
    if a.Mul(x.Mul(c)) == x.Mul(d) {
      MotionsAssociate(a, x.Mul(c), c.Inverse());
      MotionsAssociate(x, c, c.Inverse());
      MulNoMotion(x);
      MotionsAssociate(x, d, c.Inverse());
    }
  }

  lemma MoveAcross(s: Motion, p: Motion, q: Motion)
    requires s.Rigid()
    ensures p == s.Mul(q) <==> s.Inverse().Mul(p) == q
  {
    hide Motion.Mul, Motion.Inverse, Motion.Rigid;
    Cancels(s, q);
    Cancels(s, p);
  }

  /** One equation A X = X B holds exactly when the target did not move between the two views. */
  lemma EquationIff(mode: Mode, now: Motion, next: Motion, x: Motion, c: Motion, d: Motion)
    requires now.Rigid() && next.Rigid() && c.Rigid()
    ensures RelativeMotion(mode, now, next).Mul(x) == x.Mul(d.Mul(c.Inverse()))
       <==> Target(mode, now, x, c) == Target(mode, next, x, d)
  {
    hide Motion.Mul, Motion.Inverse, Motion.Rigid;
    Regroup(RelativeMotion(mode, now, next), x, c, d);
    var v := x.Mul(c);
    if mode == EyeInHand {
      MotionsAssociate(next.Inverse(), now, v);
      MoveAcross(next, now.Mul(v), x.Mul(d));
    } else {
      MotionsAssociate(next, now.Inverse(), v);
      MoveAcross(next, x.Mul(d), now.Inverse().Mul(v));
    }
  }

  ghost predicate SolvesAll(mode: Mode, poses: seq<Pose>, views: seq<Motion>, x: Motion)
    requires |views| == |poses| > 0
  {
    forall i :: 0 < i < |poses| ==>
      RelativeMotion(mode, Homogeneous(poses[i - 1]), Homogeneous(poses[i])).Mul(x)
      == x.Mul(views[i].Mul(views[i - 1].Inverse()))
  }

  ghost predicate TargetIsFixed(mode: Mode, poses: seq<Pose>, views: seq<Motion>, x: Motion)
    requires |views| == |poses| > 0
  {
    forall i :: 0 <= i < |poses| ==>
      Target(mode, Homogeneous(poses[i]), x, views[i]) == Target(mode, Homogeneous(poses[0]), x, views[0])
  }

  lemma {:induction false} TargetStays(mode: Mode, poses: seq<Pose>, views: seq<Motion>, x: Motion, i: nat)
    requires |views| == |poses| && i < |poses| && AllValid(poses) && (forall v :: v in views ==> v.Rigid())
    requires SolvesAll(mode, poses, views, x)
    ensures Target(mode, Homogeneous(poses[i]), x, views[i]) == Target(mode, Homogeneous(poses[0]), x, views[0])
  {
    hide Homogeneous, RelativeMotion, Target, Motion.Mul, Motion.Inverse, Motion.Rigid;
    if i > 0 {
      TargetStays(mode, poses, views, x, i - 1);
      PoseIsRigid(poses[i - 1]);
      PoseIsRigid(poses[i]);
      EquationIff(mode, Homogeneous(poses[i - 1]), Homogeneous(poses[i]), x, views[i - 1], views[i]);
    }
  }

  /** A mounting solves the equations of every relative motion exactly when it puts the target of
      every view at one and the same pose. */
  lemma EquationsHoldIff(mode: Mode, poses: seq<Pose>, views: seq<Motion>, x: Motion)
    requires |views| == |poses| > 0 && AllValid(poses) && (forall v :: v in views ==> v.Rigid())
    ensures SolvesAll(mode, poses, views, x) <==> TargetIsFixed(mode, poses, views, x)
  {
    hide Homogeneous, RelativeMotion, Target, Motion.Mul, Motion.Inverse, Motion.Rigid;
    if SolvesAll(mode, poses, views, x) {
      forall i | 0 <= i < |poses|
        ensures Target(mode, Homogeneous(poses[i]), x, views[i]) == Target(mode, Homogeneous(poses[0]), x, views[0])
      {
        TargetStays(mode, poses, views, x, i);
      }
    }
    if TargetIsFixed(mode, poses, views, x) {
      forall i | 0 < i < |poses|
        ensures RelativeMotion(mode, Homogeneous(poses[i - 1]), Homogeneous(poses[i])).Mul(x)
             == x.Mul(views[i].Mul(views[i - 1].Inverse()))
      {
        PoseIsRigid(poses[i - 1]);
        PoseIsRigid(poses[i]);
        EquationIff(mode, Homogeneous(poses[i - 1]), Homogeneous(poses[i]), x, views[i - 1], views[i]);
      }
    }
  }

  // ---------- Using the calibrated matrix ----------

  function PointToBase(mode: Mode, x: Motion, arm: Pose, p: V3): V3 {
    match mode
    case EyeInHand => Homogeneous(arm).Apply(x.Apply(p))
    case EyeToHand => x.Apply(p)
  }

  /** Seen from the arm, or from the base when the camera is off the arm, the point is where the
      calibrated matrix puts what the camera saw. */
  lemma PointIsSeenBack(mode: Mode, x: Motion, arm: Pose, p: V3)
    requires x.Rigid() && arm.rpy.Valid()
    ensures var q := PointToBase(mode, x, arm, p);
            var seen := if mode == EyeInHand then Homogeneous(arm).Inverse().Apply(q) else q;
            seen == x.Apply(p) && x.Inverse().Apply(seen) == p
  {
    hide Homogeneous, Motion.Apply, Motion.Mul, Motion.Inverse, Motion.Rigid;
    PoseIsRigid(arm);
    AppliedBack(Homogeneous(arm), x.Apply(p));
    AppliedBack(x, p);
  }

  lemma AppliedBack(m: Motion, p: V3)
    requires m.Rigid()
    ensures m.Inverse().Apply(m.Apply(p)) == p
  {
    hide Motion.Apply, Motion.Mul, Motion.Inverse, Motion.Rigid, ID, ORIGIN;
    InverseUndoes(m);
    ApplyProduct(m.Inverse(), m, p);
    NoMotionApplies(p);
  }

  function MotionToBase(mode: Mode, x: Motion, arm: Pose, camera: Pose): Motion {
    match mode
    case EyeInHand => Homogeneous(arm).Mul(x).Mul(Homogeneous(camera))
    case EyeToHand => x.Mul(Homogeneous(camera))
  }

  /** `base` is what the pose transform returns: the position, and a decomposition of the rotation. */
  ghost predicate IsPoseInBase(mode: Mode, x: Motion, arm: Pose, camera: Pose, base: Pose) {
    var m := MotionToBase(mode, x, arm, camera);
    base.pos == m.pos && IsRpyOf(m.rot, base.rpy)
  }

  /** The pose transform puts a pose where the point transform puts its position. */
  lemma PoseGoesWithItsPoint(mode: Mode, x: Motion, arm: Pose, camera: Pose, base: Pose)
    requires base.pos == MotionToBase(mode, x, arm, camera).pos
    ensures base.pos == PointToBase(mode, x, arm, camera.pos)
  {
    hide IsRpyOf, ToRotation, V3.Plus, Mat3.Times, Mat3.Mul;
    if mode == EyeInHand {
      MotionsAssociate(Homogeneous(arm), x, Homogeneous(camera));
    }
  }

  /** The pose returned stands for the true motion exactly when its rotation survives the angles. */
  lemma PoseInBaseIsExactIff(mode: Mode, x: Motion, arm: Pose, camera: Pose, base: Pose)
    requires x.Rigid() && arm.rpy.Valid() && camera.rpy.Valid() && IsPoseInBase(mode, x, arm, camera, base)
    ensures var m := MotionToBase(mode, x, arm, camera);
            Homogeneous(base) == m <==>
            !GimbalLock(m.rot) || m.rot.r2.x == 1.0 || (m.rot.r2.x == -1.0 && m.rot.r0.y == 0.0)
  {
    hide IsRpyOf, GimbalLock, ToRotation, Mat3.IsRotation, Motion.Mul;
    PoseIsRigid(arm);
    PoseIsRigid(camera);
    ProductIsRigid(Homogeneous(arm), x);
    ProductIsRigid(Homogeneous(arm).Mul(x), Homogeneous(camera));
    ProductIsRigid(x, Homogeneous(camera));
    var m := MotionToBase(mode, x, arm, camera);
    RotationRoundTripIff(m.rot, base.rpy);
    assert m == Motion(m.rot, m.pos);
  }
}
