/** Rigid motions: the 4x4 homogeneous matrices with last row (0, 0, 0, 1). */
module RigidMotions {
  import opened Sensors
  import opened Rotations

  const ORIGIN := V3(0.0, 0.0, 0.0)

  datatype Motion = Motion(rot: Mat3, pos: V3) {
    function Mul(b: Motion): Motion { Motion(rot.Mul(b.rot), rot.Times(b.pos).Plus(pos)) }

    function Apply(p: V3): V3 { rot.Times(p).Plus(pos) }

    function Inverse(): Motion { Motion(rot.T(), rot.T().Times(pos).Scaled(-1.0)) }

    predicate Rigid() { rot.IsRotation() }
  }

  const NO_MOTION := Motion(ID, ORIGIN)

  lemma DotScaled(a: V3, p: V3, c: real)
    ensures a.Dot(p.Scaled(c)) == c * a.Dot(p)
  {
  }

  lemma TimesPlus(r: Mat3, p: V3, q: V3)
    ensures r.Times(p.Plus(q)) == r.Times(p).Plus(r.Times(q))
  {
  }

  lemma TimesOpposite(r: Mat3, p: V3)
    ensures r.Times(p.Scaled(-1.0)) == r.Times(p).Scaled(-1.0)
  {
  }

  lemma TimesId(p: V3)
    ensures ID.Times(p) == p
  {
  }

  lemma PlusLaws(p: V3, q: V3, s: V3)
    ensures p.Plus(q).Plus(s) == p.Plus(q.Plus(s))
    ensures p.Plus(ORIGIN) == p && ORIGIN.Plus(p) == p
    ensures p.Scaled(-1.0).Plus(p) == ORIGIN && p.Plus(p.Scaled(-1.0)) == ORIGIN
  {
  }

  lemma MotionsAssociate(a: Motion, b: Motion, c: Motion)
    ensures a.Mul(b).Mul(c) == a.Mul(b.Mul(c))
  {
    hide V3.Plus, V3.Dot, Mat3.Mul, Mat3.Times;
    Rotations.MulAssociates(a.rot, b.rot, c.rot);
    TimesProduct(a.rot, b.rot, c.pos);
    TimesPlus(a.rot, b.rot.Times(c.pos), b.pos);
    PlusLaws(a.rot.Times(b.rot.Times(c.pos)), a.rot.Times(b.pos), a.pos);
  }

  /** A product of motions moves a point by the second motion, then by the first. */
  lemma ApplyProduct(a: Motion, b: Motion, p: V3)
    ensures a.Mul(b).Apply(p) == a.Apply(b.Apply(p))
  {
    hide V3.Plus, V3.Dot, Mat3.Mul, Mat3.Times;
    TimesProduct(a.rot, b.rot, p);
    TimesPlus(a.rot, b.rot.Times(p), b.pos);
    PlusLaws(a.rot.Times(b.rot.Times(p)), a.rot.Times(b.pos), a.pos);
  }

  lemma MulNoMotion(a: Motion)
    ensures a.Mul(NO_MOTION) == a && NO_MOTION.Mul(a) == a
  {
  }

  lemma NoMotionApplies(p: V3)
    ensures NO_MOTION.Apply(p) == p
  {
  }

  lemma TimesOrigin(r: Mat3)
    ensures r.Times(ORIGIN) == ORIGIN
  {
  }

  /** The block inverse is the inverse on both sides, and rigid. */
  lemma InverseUndoes(a: Motion)
    requires a.Rigid()
    ensures a.Mul(a.Inverse()) == NO_MOTION && a.Inverse().Mul(a) == NO_MOTION
    ensures a.Inverse().Rigid()
  {
    hide V3.Plus, V3.Scaled, V3.Dot, Mat3.Mul, Mat3.Times, Mat3.T, Mat3.IsRotation;
    TransposeUndoes(a.rot);
    TransposeIsRotation(a.rot);
    TimesOpposite(a.rot, a.rot.T().Times(a.pos));
    TimesProduct(a.rot, a.rot.T(), a.pos);
    TimesId(a.pos);
    PlusLaws(a.pos, a.pos, a.pos);
    PlusLaws(a.rot.T().Times(a.pos), a.pos, a.pos);
  }

  lemma ProductIsRigid(a: Motion, b: Motion)
    requires a.Rigid() && b.Rigid()
    ensures a.Mul(b).Rigid()
  {
    hide Mat3.IsRotation, Mat3.Mul;
    ProductIsRotation(a.rot, b.rot);
  }

  /** b is the matrix inverse of a only if it is this one. */
  lemma InverseIsUnique(a: Motion, b: Motion)
    requires a.Rigid() && a.Mul(b) == NO_MOTION
    ensures b == a.Inverse()
  {
    hide Motion.Mul, Motion.Inverse, Motion.Rigid;
    InverseUndoes(a);
    MotionsAssociate(a.Inverse(), a, b);
    MulNoMotion(b);
    MulNoMotion(a.Inverse());
  }

  /** A motion and its inverse cancel in front of another. */
  lemma Cancels(a: Motion, b: Motion)
    requires a.Rigid()
    ensures a.Inverse().Mul(a.Mul(b)) == b && a.Mul(a.Inverse().Mul(b)) == b
  {
    hide Motion.Mul, Motion.Inverse, Motion.Rigid;
    InverseUndoes(a);
    MotionsAssociate(a.Inverse(), a, b);
    MotionsAssociate(a, a.Inverse(), b);
    MulNoMotion(b);
  }
}
