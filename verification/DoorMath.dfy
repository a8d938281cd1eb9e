/** The frames of the door model: the centre of a line segment held against a door, the target frame
    at that centre, and the transform from the world to it. */
module DoorMath {
  import opened Reals
  import opened Sensors
  import opened Rotations
  import opened RigidMotions
  import opened RollPitchYaw

  function ComputeC(theta: Angle, phi: Angle, omega: Angle, r: real, l: real, h: real): V3 {
    var (ct, st, cp, sp, cw, sw) := (theta.c, theta.s, phi.c, phi.s, omega.c, omega.s);
    V3(r * ct - l * st * sp - l * ct * cp * sw,
       r * st + l * ct * sp - l * st * cp * sw,
       h + l * (1.0 - cp * cw))
  }

  /** Columns: the axes of the target frame in the world. */
  function ComputeRT(theta: Angle, phi: Angle, omega: Angle): Mat3 {
    var (ct, st, cp, sp, cw, sw) := (theta.c, theta.s, phi.c, phi.s, omega.c, omega.s);
    Mat3(V3(st * sp + ct * cp * sw, ct * cw, ct * sp * sw - st * cp),
         V3(-ct * sp + st * cp * sw, st * cw, ct * cp + st * sp * sw),
         V3(cp * cw, -sw, sp * cw))
  }

  /** The rows of the block are written out again, and the translation is computed from them. */
  function ComputeWorldTTarget(theta: Angle, phi: Angle, omega: Angle, r: real, l: real, h: real): Motion {
    var (ct, st, cp, sp, cw, sw) := (theta.c, theta.s, phi.c, phi.s, omega.c, omega.s);
    var block := Mat3(V3(st * sp + ct * cp * sw, -ct * sp + st * cp * sw, cp * cw),
                      V3(ct * cw, st * cw, -sw),
                      V3(ct * sp * sw - st * cp, ct * cp + st * sp * sw, sp * cw));
    var c := V3(r * ct - l * st * sp - l * ct * cp * sw,
                r * st + l * ct * sp - l * st * cp * sw,
                h + l * (1.0 - cp * cw));
    var rtc := block.Times(c);
    Motion(block, V3(-rtc.x, -rtc.y, -rtc.z))
  }

  // ---------- The frame is three turns ----------

  function Upright(phi: Angle): Mat3 { Mat3(V3(0.0, 1.0, 0.0), V3(-phi.s, 0.0, phi.c), V3(phi.c, 0.0, phi.s)) }

  /** The frame of a door at angle zero. */
  function Closed(phi: Angle, omega: Angle): Mat3 {
    Mat3(V3(phi.c * omega.s, omega.c, phi.s * omega.s),
         V3(-phi.s, 0.0, phi.c),
         V3(phi.c * omega.c, -omega.s, phi.s * omega.c))
  }

  lemma UprightIsRotation(phi: Angle)
    requires phi.OnCircle()
    ensures Upright(phi).IsRotation()
  {
  }

  lemma ClosedIsProduct(phi: Angle, omega: Angle)
    ensures Closed(phi, omega) == AboutY(omega).Mul(Upright(phi))
  {
  }

  lemma OpenedIsProduct(theta: Angle, phi: Angle, omega: Angle)
    ensures ComputeRT(theta, phi, omega) == AboutZ(theta).Mul(Closed(phi, omega))
  {
    hide AboutZ, Mat3.Mul;
    YawAfter(theta, Closed(phi, omega));
  }

  /** The target frame is orthonormal and right-handed for all angles. */
  lemma FrameIsRotation(theta: Angle, phi: Angle, omega: Angle)
    requires theta.OnCircle() && phi.OnCircle() && omega.OnCircle()
    ensures ComputeRT(theta, phi, omega).IsRotation()
  {
    hide ComputeRT, AboutY, AboutZ, Closed, Upright, Mat3.Mul, Mat3.IsRotation;
    OpenedIsProduct(theta, phi, omega);
    ClosedIsProduct(phi, omega);
    UprightIsRotation(phi);
    AboutYIsRotation(omega);
    AboutZIsRotation(theta);
    ProductIsRotation(AboutY(omega), Upright(phi));
    ProductIsRotation(AboutZ(theta), Closed(phi, omega));
  }

  // ---------- The transform ----------

  /** The transform is the inverse of the motion that puts the target frame at its centre. */
  lemma TransformIsInverse(theta: Angle, phi: Angle, omega: Angle, r: real, l: real, h: real)
    ensures ComputeWorldTTarget(theta, phi, omega, r, l, h)
         == Motion(ComputeRT(theta, phi, omega), ComputeC(theta, phi, omega, r, l, h)).Inverse()
  {
  }

  const AXIS := V3(1.0, 0.0, 0.0)

  function XAxis(theta: Angle, phi: Angle, omega: Angle): V3 { ComputeRT(theta, phi, omega).Times(AXIS) }

  lemma InverseSends(m: Motion, p: V3)
    requires m.Rigid()
    ensures m.Inverse().Apply(m.Apply(p)) == p
  {
    hide Motion.Mul, Motion.Inverse, Motion.Apply, Motion.Rigid;
    InverseUndoes(m);
    ApplyProduct(m.Inverse(), m, p);
    hide ID, ORIGIN;
    NoMotionApplies(p);
  }

  /** A point d along the x axis of the target frame, from its centre. */
  function Along(theta: Angle, phi: Angle, omega: Angle, r: real, l: real, h: real, d: real): V3 {
    ComputeC(theta, phi, omega, r, l, h).Plus(XAxis(theta, phi, omega).Scaled(d))
  }

  lemma TimesScaled(m: Mat3, v: V3, d: real)
    ensures m.Times(v.Scaled(d)) == m.Times(v).Scaled(d)
  {
    hide V3.Dot;
    DotScaled(m.r0, v, d);
    DotScaled(m.r1, v, d);
    DotScaled(m.r2, v, d);
  }

  /** The transform takes the centre to the origin and the points of the segment onto the x axis: its
      ends, l on either side of the centre, to plus and minus l. */
  lemma SegmentGoesToAxis(theta: Angle, phi: Angle, omega: Angle, r: real, l: real, h: real, d: real)
    requires theta.OnCircle() && phi.OnCircle() && omega.OnCircle()
    ensures var t := ComputeWorldTTarget(theta, phi, omega, r, l, h);
            && t.Apply(Along(theta, phi, omega, r, l, h, d)) == V3(d, 0.0, 0.0)
            && t.Apply(ComputeC(theta, phi, omega, r, l, h)) == ORIGIN
  {
    hide ComputeRT, ComputeC, ComputeWorldTTarget, Mat3.IsRotation, Motion.Inverse, Mat3.Times;
    var m := Motion(ComputeRT(theta, phi, omega), ComputeC(theta, phi, omega, r, l, h));
    FrameIsRotation(theta, phi, omega);
    TransformIsInverse(theta, phi, omega, r, l, h);
    TimesScaled(m.rot, AXIS, d);
    TimesOrigin(m.rot);
    PlusCommutes(m.rot.Times(AXIS).Scaled(d), m.pos);
    PlusCommutes(ORIGIN, m.pos);
    PlusLaws(m.pos, m.pos, m.pos);
    InverseSends(m, AXIS.Scaled(d));
    InverseSends(m, ORIGIN);
  }

  lemma PlusCommutes(p: V3, q: V3)
    ensures p.Plus(q) == q.Plus(p)
  {
  }

  /** Whatever phi and omega, the upper end of the segment is the point of the door at radius r and
      height h + l. */
  lemma UpperEndIsOnDoor(theta: Angle, phi: Angle, omega: Angle, r: real, l: real, h: real)
    ensures Along(theta, phi, omega, r, l, h, l) == V3(r * theta.c, r * theta.s, h + l)
  {
  }

  /** What the translation comes to: it does not depend on the angle of the door. */
  function Translation(phi: Angle, omega: Angle, r: real, l: real, h: real): V3 {
    V3(l - r * phi.c * omega.s - (h + l) * phi.c * omega.c,
       -r * omega.c + (h + l) * omega.s,
       -r * phi.s * omega.s - (h + l) * phi.s * omega.c)
  }

  /** The translation for all angles, in closed form. */
  lemma TranslationIs(theta: Angle, phi: Angle, omega: Angle, r: real, l: real, h: real)
    requires theta.OnCircle() && phi.OnCircle() && omega.OnCircle()
    ensures ComputeWorldTTarget(theta, phi, omega, r, l, h).pos == Translation(phi, omega, r, l, h)
  {
    hide ComputeRT, ComputeC, ComputeWorldTTarget, Closed, AboutZ, Mat3.IsRotation, Mat3.Mul, Mat3.Times, Along;
    var (t, u, m, z) := (ComputeWorldTTarget(theta, phi, omega, r, l, h), V3(r * theta.c, r * theta.s, h + l),
                         Closed(phi, omega), AboutZ(theta));
    var b := V3(r, 0.0, h + l);
    SegmentGoesToAxis(theta, phi, omega, r, l, h, l);
    UpperEndIsOnDoor(theta, phi, omega, r, l, h);
    TransformIsInverse(theta, phi, omega, r, l, h);
    OpenedIsProduct(theta, phi, omega);
    TransposeOfProduct(z, m);
    TimesProduct(m.T(), z.T(), u);
    TurnedAboutZ(theta, r, h + l);
    TimesProduct(z.T(), z, b);
    AboutZIsRotation(theta);
    TransposeUndoes(z);
    TimesId(b);
    assert t.rot.Times(u) == m.T().Times(b);
    ClosedSees(phi, omega, r, l, h);
    Difference(t.rot.Times(u), t.pos, V3(l, 0.0, 0.0));
  }

  lemma TurnedAboutZ(theta: Angle, r: real, k: real)
    ensures AboutZ(theta).Times(V3(r, 0.0, k)) == V3(r * theta.c, r * theta.s, k)
  {
  }

  lemma ClosedSees(phi: Angle, omega: Angle, r: real, l: real, h: real)
    ensures V3(l, 0.0, 0.0).Minus(Closed(phi, omega).T().Times(V3(r, 0.0, h + l))) == Translation(phi, omega, r, l, h)
  {
  }

  lemma Difference(a: V3, b: V3, c: V3)
    requires a.Plus(b) == c
    ensures b == c.Minus(a)
  {
  }

  /** The form in the program's comment, which is not what it computes. */
  function CommentedTranslation(phi: Angle, omega: Angle, r: real, l: real, h: real): V3 {
    V3((h + l) * phi.c * omega.c - l, -r, -h * phi.s * omega.c + l * phi.c * omega.s)
  }

  /** Already with phi and omega zero the comment is right only for a segment at height zero. */
  lemma UntiltedCommentIsRightIff(theta: Angle, r: real, l: real, h: real)
    requires theta.OnCircle()
    ensures ComputeWorldTTarget(theta, ZERO_ANGLE, ZERO_ANGLE, r, l, h).pos
         == CommentedTranslation(ZERO_ANGLE, ZERO_ANGLE, r, l, h)
       <==> h == 0.0
  {
  }

  /** And for no angles is it right for all sizes: a segment of half-length one or a hinge at height
      one tells it apart. */
  lemma CommentIsWrongSomewhere(theta: Angle, phi: Angle, omega: Angle) returns (l: real, h: real)
    requires theta.OnCircle() && phi.OnCircle() && omega.OnCircle()
    ensures ComputeWorldTTarget(theta, phi, omega, 0.0, l, h).pos != CommentedTranslation(phi, omega, 0.0, l, h)
  {
    hide ComputeWorldTTarget, Translation, CommentedTranslation, Angle.OnCircle;
    if Prod(phi.c, omega.c) == 0.0 {
      l, h := 1.0, 0.0;
    } else {
      l, h := 0.0, 1.0;
    }
    TranslationIs(theta, phi, omega, 0.0, l, h);
    FirstEntries(phi, omega, l, h);
  }

  lemma FirstEntries(phi: Angle, omega: Angle, l: real, h: real)
    requires (l == 1.0 && h == 0.0) || (l == 0.0 && h == 1.0)
    ensures Translation(phi, omega, 0.0, l, h).x == l - Prod(phi.c, omega.c)
    ensures CommentedTranslation(phi, omega, 0.0, l, h).x == Prod(phi.c, omega.c) - l
  {
  }

  /** The third axis as the program's comment has it. */
  function CommentedZAxis(theta: Angle, phi: Angle, omega: Angle): V3 {
    V3(-theta.c * phi.s * omega.s - theta.s * phi.c, theta.c * phi.c - theta.s * phi.s * omega.s, phi.s * omega.c)
  }

  /** The comment has the third axis right exactly when phi or omega has no sine. */
  lemma CommentedZAxisIsRightIff(theta: Angle, phi: Angle, omega: Angle)
    requires theta.OnCircle()
    ensures ComputeRT(theta, phi, omega).Times(V3(0.0, 0.0, 1.0)) == CommentedZAxis(theta, phi, omega) <==>
            phi.s == 0.0 || omega.s == 0.0
  {
    hide ComputeRT, CommentedZAxis, Prod, Sq;
    var t := Prod(phi.s, omega.s);
    ZAxisDifference(theta, phi, omega);
    NoZeroDivisors(theta.c, t);
    NoZeroDivisors(theta.s, t);
    NoZeroDivisors(phi.s, omega.s);
    NoSquareOfZero();
    var (code, comment) := (ComputeRT(theta, phi, omega).Times(V3(0.0, 0.0, 1.0)), CommentedZAxis(theta, phi, omega));
    assert code == V3(code.x, code.y, code.z) && comment == V3(comment.x, comment.y, comment.z);
  }

  lemma ZAxisDifference(theta: Angle, phi: Angle, omega: Angle)
    ensures var code := ComputeRT(theta, phi, omega).Times(V3(0.0, 0.0, 1.0));
            var comment := CommentedZAxis(theta, phi, omega);
            && code.x - comment.x == 2.0 * Prod(theta.c, Prod(phi.s, omega.s))
            && code.y - comment.y == 2.0 * Prod(theta.s, Prod(phi.s, omega.s))
            && code.z == comment.z
  {
  }

  lemma NoZeroDivisors(a: real, b: real)
    ensures Prod(a, b) == 0.0 <==> a == 0.0 || b == 0.0
  {
  }
}
